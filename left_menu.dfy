/**
 * The label lookup of the `LeftMenu` page object. A filter entry is found by its label: the text of the
 * entry up to its first space (for an entry showing "Седан 1 234" the label is "Седан"). `getCarType` and
 * `getCarCount` both build the list of labels, take the position of the requested one with `indexOf`, and then
 * look up a child of the entry at that position. A `WebElement` is modelled by its text. The child lookup is
 * modelled by the position and the CSS selector it uses.
 */
module LeftMenu {
  import opened Wrappers
  import opened JavaLang

  /** `str.split(" ")[0]`: the text before the first space. A non-empty text of spaces only splits into an empty
      array, so indexing it throws. */
  function FirstToken(text: string): (r: Result<string, JavaError>)
    ensures r.Failure? <==> text != "" && forall j :: 0 <= j < |text| ==> text[j] == ' '
    ensures r.Failure? ==> r.error == ArrayIndexOutOfBounds(0)
    ensures r.Success? ==> r.value == UpTo(text, ' ')
  {
    var parts := Split(text, ' ');
    SplitFirst(text, ' ');
    if |parts| == 0 then Failure(ArrayIndexOutOfBounds(0)) else Success(parts[0])
  }

  lemma {:induction false} UpToLabel(key: string, rest: string)
    requires ' ' !in key
    ensures UpTo(key + " " + rest, ' ') == key
    decreases |key|
  {
    if key != [] {
      assert (key + " " + rest)[1..] == key[1..] + " " + rest;
      UpToLabel(key[1..], rest);
    }
  }

  /** An entry written as a label, a space and anything else has that label as its first token. */
  lemma FirstTokenOfEntry(key: string, rest: string)
    requires key != "" && ' ' !in key
    ensures FirstToken(key + " " + rest) == Success(key)
  {
    UpToLabel(key, rest);
    assert (key + " " + rest)[0] == key[0];
  }

  /** Text without a space is its own first token. */
  lemma FirstTokenOfLabel(key: string)
    requires ' ' !in key
    ensures FirstToken(key) == Success(key)
  {
    PiecesWithoutSeparator(key, ' ');
    FirstPiece(key, ' ');
  }

  /** The list `carBodyTypeNames`: the first token of every text, in order; the first text that has none throws. */
  function Keys(texts: seq<string>): (r: Result<seq<string>, JavaError>)
    ensures r.Success? ==> |r.value| == |texts|
                           && forall i :: 0 <= i < |texts| ==> FirstToken(texts[i]) == Success(r.value[i])
    ensures r.Failure? <==> exists i :: 0 <= i < |texts| && FirstToken(texts[i]).Failure?
    ensures r.Failure? ==> r.error == ArrayIndexOutOfBounds(0)
  {
    if texts == [] then Success([])
    else
      var init := texts[..|texts| - 1];
      match Keys(init)
      case Failure(e) => Failure(e)
      case Success(keys) =>
        match FirstToken(texts[|texts| - 1])
        case Failure(e) => Failure(e)
        case Success(key) => Success(keys + [key])
  }

  /** The `for` loop over the texts that appends each first token to `carBodyTypeNames`. */
  method CarBodyTypeNames(texts: seq<string>) returns (r: Result<seq<string>, JavaError>)
    ensures r == Keys(texts)
  {
    var names: seq<string> := [];
    for k := 0 to |texts|
      invariant Keys(texts[..k]) == Success(names)
    {
      assert texts[..k + 1][..k] == texts[..k];
      var token := FirstToken(texts[k]);
      if token.Failure? {
        return Failure(token.error);
      }
      names := names + [token.value];
    }
    assert texts[..|texts|] == texts;
    return Success(names);
  }

  /** `List.indexOf`: the first position holding `x`, or -1. A `null` is held nowhere, since no key is `null`. */
  function IndexOf(keys: seq<string>, x: JString): (i: int)
    ensures -1 <= i < |keys|
    ensures i >= 0 ==> x == Some(keys[i]) && forall j :: 0 <= j < i ==> Some(keys[j]) != x
    ensures i == -1 <==> forall j :: 0 <= j < |keys| ==> Some(keys[j]) != x
  {
    if keys == [] then -1
    else if Some(keys[0]) == x then 0
    else
      var k := IndexOf(keys[1..], x);
      if k == -1 then -1 else k + 1
  }

  /** The entry `text` answers to the label `filter`. */
  predicate Labelled(text: string, filter: JString)
  {
    FirstToken(text).Success? && filter == Some(FirstToken(text).value)
  }

  /** The position `getCarType` and `getCarCount` select: the first entry labelled `filter`. Building the labels
      fails first; when no entry has the key, `get(-1)` throws. */
  function SelectedIndex(texts: seq<string>, filter: JString): (r: Result<nat, JavaError>)
    ensures r.Success? ==> r.value < |texts| && Labelled(texts[r.value], filter)
                           && forall j :: 0 <= j < r.value ==> !Labelled(texts[j], filter)
    ensures r.Failure? <==> Keys(texts).Failure? || forall j :: 0 <= j < |texts| ==> !Labelled(texts[j], filter)
    ensures r.Failure? ==> r.error == ArrayIndexOutOfBounds(0) || r.error == IndexOutOfBounds(-1)
    ensures r.Failure? && Keys(texts).Success? ==> r.error == IndexOutOfBounds(-1)
  {
    match Keys(texts)
    case Failure(e) => Failure(e)
    case Success(keys) =>
      var i := IndexOf(keys, filter);
      if i < 0 then Failure(IndexOutOfBounds(i)) else Success(i)
  }

  /** An entry and the CSS selector of the child looked up in it. */
  datatype ChildLookup = ChildLookup(index: nat, cssSelector: string)

  /** `getCarType`: the `input` child of the selected entry. */
  method GetCarType(dataList: seq<string>, filterData: JString) returns (r: Result<ChildLookup, JavaError>)
    ensures r.Success? <==> SelectedIndex(dataList, filterData).Success?
    ensures r.Success? ==> r.value == ChildLookup(SelectedIndex(dataList, filterData).value, "input")
    ensures r.Failure? ==> r.error == SelectedIndex(dataList, filterData).error
  {
    var names := CarBodyTypeNames(dataList);
    if names.Failure? {
      return Failure(names.error);
    }
    var i := IndexOf(names.value, filterData);
    if i < 0 {
      return Failure(IndexOutOfBounds(i));
    }
    return Success(ChildLookup(i, "input"));
  }

  /** `getCarCount`: the `.count` child of the entry `getCarType` selects for the same texts and label. */
  method GetCarCount(dataList: seq<string>, filterData: JString) returns (r: Result<ChildLookup, JavaError>)
    ensures r.Success? <==> SelectedIndex(dataList, filterData).Success?
    ensures r.Success? ==> r.value == ChildLookup(SelectedIndex(dataList, filterData).value, ".count")
    ensures r.Failure? ==> r.error == SelectedIndex(dataList, filterData).error
  {
    var names := CarBodyTypeNames(dataList);
    if names.Failure? {
      return Failure(names.error);
    }
    var i := IndexOf(names.value, filterData);
    if i < 0 {
      return Failure(IndexOutOfBounds(i));
    }
    return Success(ChildLookup(i, ".count"));
  }

  /** A list of entries written as distinct labels followed by counts selects the entry of the requested label. */
  lemma SelectsLabelledEntry(labels: seq<string>, counts: seq<string>, texts: seq<string>, i: nat)
    requires |labels| == |counts| == |texts| && i < |texts|
    requires forall j :: 0 <= j < |texts| ==> labels[j] != "" && ' ' !in labels[j]
                                              && texts[j] == labels[j] + " " + counts[j]
    requires forall j :: 0 <= j < i ==> labels[j] != labels[i]
    ensures SelectedIndex(texts, Some(labels[i])) == Success(i)
  {
    forall j | 0 <= j < |texts|
      ensures FirstToken(texts[j]) == Success(labels[j])
    {
      FirstTokenOfEntry(labels[j], counts[j]);
    }
    var keys := Keys(texts);
    assert !exists j :: 0 <= j < |texts| && FirstToken(texts[j]).Failure?;
    assert keys.value == labels;
    var found := IndexOf(labels, Some(labels[i]));
    assert Some(labels[i]) == Some(labels[found]);
  }
}
