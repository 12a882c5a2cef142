/**
 * The string logic of `ElementsUtil`:
 *  - `parseColor`, a regular-expression parser for CSS `rgb`/`rgba` colours;
 *  - `isClassPresent`, a class-token test;
 *  - the two `addName` message helpers;
 *  - the waiters that build an `Await` with a failure message and wait on a condition.
 *
 * A `WebElement` is reduced to what these helpers read: its `class` attribute, and its name when it is a
 * `Named` element. A `By` selector is reduced to its `toString()` text.
 */
module ElementsUtil {
  import opened Wrappers
  import opened JavaLang
  import opened AwaitSpec
  import opened AwaitClass

  const DEFAULT_EXPLICIT_WAIT: int32 := 30
  const ELEMENT_IS_NOT_CLICKABLE: string := "Element is not clickable"
  const ELEMENT_HAS_CLASS: string := "Element has given class"
  const ELEMENT_NO_CLASS: string := "Element does not have given class"
  const ELEMENT_IS_NOT_DISPLAYED: string := "Element is not displayed"
  const ELEMENT_IS_NOT_HIDDEN: string := "Element is not hidden"

  datatype Element = Element(classAttribute: JString, name: Option<string>)

  // ---------------------------------------------------------------- parseColor

  datatype Color = Color(red: int, green: int, blue: int)

  /** The parts of a whole-string match of `rgba*\( *([0-9]+), *([0-9]+), *([0-9]+),.*\)`:
      the number of `a`s, the spaces before each group, the three groups, and what `.*` matched. */
  datatype RgbMatch = RgbMatch(
    extraA: nat,
    pad1: nat, red: string,
    pad2: nat, green: string,
    pad3: nat, blue: string,
    rest: string)

  function Repeat(c: char, n: nat): (s: string)
    ensures |s| == n
  {
    if n == 0 then "" else [c] + Repeat(c, n - 1)
  }

  /** The characters Java's `.` does not match: the line terminators. */
  predicate IsLineTerminator(c: char)
  {
    c == '\n' || c == '\r' || c as int == 0x85 || c as int == 0x2028 || c as int == 0x2029
  }

  predicate NoLineTerminator(s: string)
  {
    forall i :: 0 <= i < |s| ==> !IsLineTerminator(s[i])
  }

  predicate IsNumber(d: string)
  {
    |d| > 0 && AllDigits(d)
  }

  predicate WellFormed(m: RgbMatch)
  {
    IsNumber(m.red) && IsNumber(m.green) && IsNumber(m.blue) && NoLineTerminator(m.rest)
  }

  /** ` *([0-9]+),` followed by `after`. */
  function FieldThen(pad: nat, digits: string, after: string): string
  {
    Repeat(' ', pad) + (digits + ("," + after))
  }

  /** What a match describes after the opening parenthesis. */
  function RenderArgs(m: RgbMatch): string
  {
    FieldThen(m.pad1, m.red, FieldThen(m.pad2, m.green, FieldThen(m.pad3, m.blue, m.rest + ")")))
  }

  /** The string a match describes. */
  function Render(m: RgbMatch): string
  {
    "rgb" + (Repeat('a', m.extraA) + ("(" + RenderArgs(m)))
  }

  /** The length of the run of `c` that starts `s`. */
  function CountLeading(s: string, c: char): (n: nat)
    ensures n <= |s| && (forall i :: 0 <= i < n ==> s[i] == c) && (n < |s| ==> s[n] != c)
  {
    if s == [] || s[0] != c then 0 else 1 + CountLeading(s[1..], c)
  }

  /** The length of the run of decimal digits that starts `s`. */
  function CountDigits(s: string): (n: nat)
    ensures n <= |s| && (forall i :: 0 <= i < n ==> IsDigit(s[i])) && (n < |s| ==> !IsDigit(s[n]))
  {
    if s == [] || !IsDigit(s[0]) then 0 else 1 + CountDigits(s[1..])
  }

  /** Matches ` *([0-9]+),` at the start of `s`: the number of spaces, the digits, and what follows the comma. */
  function MatchField(s: string): (r: Option<(nat, string, string)>)
    ensures r.Some? ==> IsNumber(r.value.1) && s == FieldThen(r.value.0, r.value.1, r.value.2)
  {
    var p := CountLeading(s, ' ');
    var t := s[p..];
    var d := CountDigits(t);
    if d == 0 || d == |t| || t[d] != ',' then None
    else
      CountLeadingSplit(s, ' ');
      CommaSplit(p, t, d);
      Some((p, t[..d], t[d + 1..]))
  }

  /** Matches `.*\)` up to the end of `s`: what `.*` took. */
  function MatchClose(s: string): (r: Option<string>)
    ensures r.Some? ==> NoLineTerminator(r.value) && s == r.value + ")"
  {
    if s == [] || s[|s| - 1] != ')' || !NoLineTerminator(s[..|s| - 1]) then None
    else
      assert s == s[..|s| - 1] + [s[|s| - 1]];
      Some(s[..|s| - 1])
  }

  /** Matches the three fields and `.*\)` after the opening parenthesis; a match renders back to `t`. */
  function MatchArgs(extraA: nat, t: string): (r: Option<RgbMatch>)
    ensures r.Some? ==> WellFormed(r.value) && r.value.extraA == extraA && RenderArgs(r.value) == t
  {
    match MatchField(t)
    case None => None
    case Some((p1, red, t1)) =>
      match MatchField(t1)
      case None => None
      case Some((p2, green, t2)) =>
        match MatchField(t2)
        case None => None
        case Some((p3, blue, t3)) =>
          match MatchClose(t3)
          case None => None
          case Some(rest) => Some(RgbMatch(extraA, p1, red, p2, green, p3, blue, rest))
  }

  /** The whole-string match of `rgba*\( *([0-9]+), *([0-9]+), *([0-9]+),.*\)`, deterministic because each
      repetition is followed by a character it cannot consume. A match renders back to the input. */
  function MatchRgb(s: string): (r: Option<RgbMatch>)
    ensures r.Some? ==> WellFormed(r.value) && Render(r.value) == s
  {
    if |s| < 3 || s[..3] != "rgb" then None
    else
      var a := CountLeading(s[3..], 'a');
      var u := s[3 + a..];
      if u == [] || u[0] != '(' then None
      else
        CountLeadingSplit(s[3..], 'a');
        PrefixSplit(s, a);
        MatchArgs(a, u[1..])
  }

  /** `rgb`, `a` times `a` and an opening parenthesis are the head of a rendered match. */
  lemma PrefixSplit(s: string, a: nat)
    requires |s| >= 3 + a + 1 && s[..3] == "rgb" && s[3 + a] == '('
    requires s[3..] == Repeat('a', a) + s[3..][a..]
    ensures s == "rgb" + (Repeat('a', a) + ("(" + s[3 + a + 1..]))
  {
    var u := s[3 + a..];
    assert s[3..][a..] == u;
    assert u == "(" + s[3 + a + 1..];
    assert s == s[..3] + s[3..];
  }

  /** Text with a comma at `d` is the field of its first `d` characters, followed by what comes after the comma. */
  lemma CommaSplit(pad: nat, t: string, d: nat)
    requires d < |t| && t[d] == ','
    ensures Repeat(' ', pad) + t == FieldThen(pad, t[..d], t[d + 1..])
  {
    assert t[..d] + ("," + t[d + 1..]) == t;
  }

  lemma {:induction false} CountLeadingRun(c: char, n: nat, after: string)
    requires after == [] || after[0] != c
    ensures CountLeading(Repeat(c, n) + after, c) == n
    decreases n
  {
    if n > 0 {
      var s := Repeat(c, n) + after;
      assert s[1..] == Repeat(c, n - 1) + after;
      CountLeadingRun(c, n - 1, after);
    }
  }

  lemma {:induction false} CountLeadingSplit(s: string, c: char)
    ensures s == Repeat(c, CountLeading(s, c)) + s[CountLeading(s, c)..]
    decreases |s|
  {
    if s != [] && s[0] == c {
      CountLeadingSplit(s[1..], c);
      assert s == [c] + s[1..];
    }
  }

  lemma {:induction false} CountDigitsRun(digits: string, after: string)
    requires AllDigits(digits)
    requires after == [] || !IsDigit(after[0])
    ensures CountDigits(digits + after) == |digits|
    decreases |digits|
  {
    if digits != [] {
      var s := digits + after;
      assert s[1..] == digits[1..] + after;
      CountDigitsRun(digits[1..], after);
    }
  }

  lemma FieldComplete(pad: nat, digits: string, after: string)
    requires IsNumber(digits)
    ensures MatchField(FieldThen(pad, digits, after)) == Some((pad, digits, after))
  {
    var s := FieldThen(pad, digits, after);
    var tail := digits + ("," + after);
    CountLeadingRun(' ', pad, tail);
    assert s[pad..] == tail;
    CountDigitsRun(digits, "," + after);
    assert tail[..|digits|] == digits;
    assert tail[|digits| + 1..] == after;
  }

  lemma ArgsComplete(m: RgbMatch)
    requires WellFormed(m)
    ensures MatchArgs(m.extraA, RenderArgs(m)) == Some(m)
  {
    var close := m.rest + ")";
    var f3 := FieldThen(m.pad3, m.blue, close);
    var f2 := FieldThen(m.pad2, m.green, f3);
    FieldComplete(m.pad1, m.red, f2);
    FieldComplete(m.pad2, m.green, f3);
    FieldComplete(m.pad3, m.blue, close);
    assert close[..|close| - 1] == m.rest;
    assert MatchClose(close) == Some(m.rest);
  }

  /** Every string the pattern describes is matched, with exactly its parts. */
  lemma MatchComplete(m: RgbMatch)
    requires WellFormed(m)
    ensures MatchRgb(Render(m)) == Some(m)
  {
    var s := Render(m);
    var x := "(" + RenderArgs(m);
    assert s[..3] == "rgb";
    assert s[3..] == Repeat('a', m.extraA) + x;
    CountLeadingRun('a', m.extraA, x);
    assert s[3 + m.extraA..] == x;
    assert x[1..] == RenderArgs(m);
    ArgsComplete(m);
  }

  /** `Integer.valueOf` of the three groups, which fails on a value above `Integer.MAX_VALUE`, then
      `new Color(r, g, b)`, which rejects a component above 255. */
  function ColorOf(m: RgbMatch): (r: Result<Color, JavaError>)
    requires WellFormed(m)
    ensures r.Success? <==> DecimalValue(m.red) <= 255 && DecimalValue(m.green) <= 255 && DecimalValue(m.blue) <= 255
    ensures r.Success? ==> r.value == Color(DecimalValue(m.red), DecimalValue(m.green), DecimalValue(m.blue))
    ensures r.Failure? && r.error.NumberFormat? <==>
              DecimalValue(m.red) > INT_MAX || DecimalValue(m.green) > INT_MAX || DecimalValue(m.blue) > INT_MAX
    ensures r.Failure? && !r.error.NumberFormat? ==> r.error == IllegalArgument
  {
    var red, green, blue := DecimalValue(m.red), DecimalValue(m.green), DecimalValue(m.blue);
    if red > INT_MAX then Failure(NumberFormat(m.red))
    else if green > INT_MAX then Failure(NumberFormat(m.green))
    else if blue > INT_MAX then Failure(NumberFormat(m.blue))
    else if red > 255 || green > 255 || blue > 255 then Failure(IllegalArgument)
    else Success(Color(red, green, blue))
  }

  /** `parseColor`: `null` (`None`) exactly when the whole input does not match; otherwise the colour of the
      match, or the exception building it throws. */
  function ParseColor(input: string): (r: Result<Option<Color>, JavaError>)
    ensures r == Success(None) <==> MatchRgb(input).None?
    ensures r.Success? && r.value.Some? ==> 0 <= r.value.value.red <= 255 && 0 <= r.value.value.green <= 255
                                            && 0 <= r.value.value.blue <= 255
  {
    match MatchRgb(input)
    case None => Success(None)
    case Some(m) =>
      match ColorOf(m)
      case Failure(e) => Failure(e)
      case Success(c) => Success(Some(c))
  }

  /** A matched input whose three numbers are colour components parses to them. */
  lemma ParseColorOfMatch(input: string, m: RgbMatch)
    requires MatchRgb(input) == Some(m)
    requires DecimalValue(m.red) <= 255 && DecimalValue(m.green) <= 255 && DecimalValue(m.blue) <= 255
    ensures ParseColor(input) == Success(Some(Color(DecimalValue(m.red), DecimalValue(m.green), DecimalValue(m.blue))))
  {
    assert ColorOf(m) == Success(Color(DecimalValue(m.red), DecimalValue(m.green), DecimalValue(m.blue)));
  }

  /** A colour written in the pattern's form, with any number of `a`s, spaces and trailing text, parses back to
      the same three components. */
  lemma ParseColorRoundTrip(extraA: nat, pad1: nat, pad2: nat, pad3: nat, red: nat, green: nat, blue: nat,
                            rest: string)
    requires red <= 255 && green <= 255 && blue <= 255
    requires NoLineTerminator(rest)
    ensures ParseColor(Render(RgbMatch(extraA, pad1, NatToDecimal(red), pad2, NatToDecimal(green),
                                       pad3, NatToDecimal(blue), rest)))
            == Success(Some(Color(red, green, blue)))
  {
    var m := RgbMatch(extraA, pad1, NatToDecimal(red), pad2, NatToDecimal(green), pad3, NatToDecimal(blue), rest);
    MatchComplete(m);
    DecimalRoundTrip(red);
    DecimalRoundTrip(green);
    DecimalRoundTrip(blue);
    ParseColorOfMatch(Render(m), m);
  }

  /** An `rgba` value with an alpha parses to its three components. */
  lemma ParseColorWithAlpha()
    ensures ParseColor("rgba(10, 20, 30, 0.5)") == Success(Some(Color(10, 20, 30)))
  {
    var m := RgbMatch(1, 0, "10", 1, "20", 1, "30", " 0.5");
    assert Repeat(' ', 1) == " " && Repeat(' ', 0) == "" && Repeat('a', 1) == "a";
    assert Render(m) == "rgba(10, 20, 30, 0.5)";
    assert "10"[..1] == "1" && "20"[..1] == "2" && "30"[..1] == "3";
    assert DecimalValue("1") == 1 && DecimalValue("2") == 2 && DecimalValue("3") == 3;
    assert DecimalValue("10") == 10 && DecimalValue("20") == 20 && DecimalValue("30") == 30;
    MatchComplete(m);
    ParseColorOfMatch(Render(m), m);
  }

  /** Every match holds at least three commas and ends with `)`. */
  lemma MatchShape(s: string)
    ensures MatchRgb(s).Some? ==> multiset(s)[','] >= 3 && s[|s| - 1] == ')'
  {
    if MatchRgb(s).Some? {
      var m := MatchRgb(s).value;
      var close := m.rest + ")";
      var f3 := FieldThen(m.pad3, m.blue, close);
      var f2 := FieldThen(m.pad2, m.green, f3);
      var f1 := FieldThen(m.pad1, m.red, f2);
      assert multiset(f3)[','] >= 1;
      assert multiset(f2)[','] >= 2;
      assert multiset(f1)[','] >= 3;
      assert s == "rgb" + (Repeat('a', m.extraA) + ("(" + f1));
      assert s[|s| - 1] == close[|close| - 1];
    }
  }

  /** An input with fewer than three commas, or one that does not end with `)`, gives `null`. */
  lemma ParseColorNeedsThreeCommas(input: string)
    requires multiset(input)[','] < 3 || input == [] || input[|input| - 1] != ')'
    ensures ParseColor(input) == Success(None)
  {
    MatchShape(input);
  }

  /** `rgb(1, 2, 3)` has no comma after its third number, so it gives `null`. */
  lemma ParseColorWithoutThirdComma()
    ensures ParseColor("rgb(1, 2, 3)") == Success(None)
  {
    ParseColorNeedsThreeCommas("rgb(1, 2, 3)");
  }

  // ---------------------------------------------------------------- isClassPresent

  /** `isClassPresent(className, element)`: `className` is one of the tokens of the `class` attribute split on a
      single space. A missing attribute is a `NullPointerException`. */
  function IsClassPresent(className: string, element: Element): (r: Result<bool, JavaError>)
    ensures r.Failure? <==> element.classAttribute.None?
    ensures r.Failure? ==> r.error == NullPointer
  {
    match element.classAttribute
    case None => Failure(NullPointer)
    case Some(attr) => Success(className in Split(attr, ' '))
  }

  /** A non-empty class name is present exactly when it is one of the space-separated pieces of the attribute. */
  lemma ClassPresentIffPiece(className: string, attr: string, name: Option<string>)
    requires className != ""
    ensures IsClassPresent(className, Element(Some(attr), name)) == Success(className in Pieces(attr, ' '))
  {
    SplitMember(attr, ' ', className);
  }

  /** A name that contains a space is never present. */
  lemma ClassWithSpaceAbsent(className: string, attr: string, name: Option<string>)
    requires ' ' in className
    ensures IsClassPresent(className, Element(Some(attr), name)) == Success(false)
  {
    SplitMember(attr, ' ', className);
    PiecesJoin(attr, ' ');
  }

  /** Appending a class token, after a space, makes it present. */
  lemma AppendedClassPresent(className: string, attr: string, name: Option<string>)
    requires className != "" && ' ' !in className
    ensures IsClassPresent(className, Element(Some(attr + " " + className), name)) == Success(true)
  {
    PiecesAppend(attr, className, ' ');
    PiecesWithoutSeparator(className, ' ');
    assert attr + " " + className == attr + [' '] + className;
    var ps := Pieces(attr + " " + className, ' ');
    assert ps[|ps| - 1] == className;
    SplitMember(attr + " " + className, ' ', className);
  }

  // ---------------------------------------------------------------- messages

  /** `addName(WebElement, message)`: the message, then `: [name]` for a `Named` element. */
  function AddName(element: Element, message: string): (r: string)
    ensures |message| <= |r| && r[..|message|] == message
    ensures r == message <==> element.name.None?
    ensures element.name.Some? ==> r[|message|..] == ": [" + element.name.value + "]"
  {
    message + (if element.name.Some? then ": [" + element.name.value + "]" else "")
  }

  /** `addName(By, message)`: the selector's text directly followed by the message, with no separator. */
  function AddNameToSelector(selector: string, message: string): (r: string)
    ensures |r| == |selector| + |message| && r[..|selector|] == selector && r[|selector|..] == message
  {
    selector + message
  }

  /** What a failure message names: an element, or a selector. */
  datatype Target = OfElement(element: Element) | OfSelector(selector: string)

  function NamedMessage(target: Target, message: string): string
  {
    match target
    case OfElement(e) => AddName(e, message)
    case OfSelector(selector) => AddNameToSelector(selector, message)
  }

  /** Text of the failures of the element-lookup waiters: the selector in brackets and the number of seconds. */
  function SelectorMessage(selector: string, seconds: int32): (t: string)
    ensures |t| == |selector| + |IntToString(seconds as int)| + 47
    ensures t[..26] == "WebElement with selector [" && t[26..26 + |selector|] == selector
    ensures t[26 + |selector|..46 + |selector|] == "] did not appear in "
    ensures t[46 + |selector|..|t| - 1] == IntToString(seconds as int) && t[|t| - 1] == 's'
  {
    "WebElement with selector [" + selector + "] did not appear in " + IntToString(seconds as int) + "s"
  }

  /** Text of the failure of the supplier-lookup waiter: no selector, and a missing word after "with". */
  function SupplierMessage(seconds: int32): (t: string)
    ensures |t| == |IntToString(seconds as int)| + 35
    ensures t[..34] == "WebElement with did not appear in "
    ensures t[34..|t| - 1] == IntToString(seconds as int) && t[|t| - 1] == 's'
  {
    "WebElement with did not appear in " + IntToString(seconds as int) + "s"
  }

  /** Text of the failure of the class waiters: the class name and " - " before the named message. */
  function ClassMessage(className: string, element: Element, present: bool): (t: string)
    ensures |className| + 3 <= |t| && t[..|className| + 3] == className + " - "
    ensures t[|className| + 3..] == AddName(element, if present then ELEMENT_NO_CLASS else ELEMENT_HAS_CLASS)
  {
    className + " - " + AddName(element, if present then ELEMENT_NO_CLASS else ELEMENT_HAS_CLASS)
  }

  /** The two class waiters report different texts for the same class name and element. */
  lemma ClassMessagesDiffer(className: string, element: Element)
    ensures ClassMessage(className, element, true) != ClassMessage(className, element, false)
  {
    var k := |className| + 3;
    var absent := ClassMessage(className, element, true);
    var has := ClassMessage(className, element, false);
    assert absent[k..][..|ELEMENT_NO_CLASS|] == ELEMENT_NO_CLASS;
    assert has[k..][..|ELEMENT_HAS_CLASS|] == ELEMENT_HAS_CLASS;
    assert absent[k + 8] == 'd' && has[k + 8] == 'h';
  }

  // ---------------------------------------------------------------- waiters

  /** What a waiter built as `waitFor(seconds).withException(text)` ends with, when the guard accepted the
      seconds. */
  function Reported<V>(text: string, poll: PollResult<V>): Outcome<V>
  {
    match poll
    case Satisfied(v) => Returned(v)
    case Raised(e) => Threw(Propagated(e))
    case TimedOut(original) => Threw(TimeoutException(text + "\n" + original))
  }

  /** The private `waitFor(int seconds)`: `Await.waitFor`, then the two default ignore rules once more. */
  method WaitForSeconds(seconds: int32) returns (r: Result<Await, string>)
    ensures r.Failure? <==> seconds == 0 || seconds > 1000
    ensures r.Failure? ==> r.error == TypoMessage(seconds)
    ensures r.Success? ==> fresh(r.value) && r.value.Valid() && r.value.Pending() == NoMessages
    ensures r.Success? ==>
              r.value.factory == TimedSteps(WaitForTimeoutMs(seconds).value as int as int64) + DEFAULT_IGNORES
  {
    r := Await.WaitFor(seconds);
    if r.Success? {
      var await := r.value;
      var _ := await.IgnoreException(StaleElementReference);
      var _ := await.IgnoreException(NoSuchElement);
    }
  }

  /** The element lookups: `waitFor(seconds).withException(text)`, then `untilGot` on the lookup. */
  method WaitWithText<V>(seconds: int32, text: string, poll: PollResult<V>) returns (o: Outcome<V>)
    ensures seconds == 0 || seconds > 1000 ==> o == Threw(RuntimeError(TypoMessage(seconds)))
    ensures seconds != 0 && seconds <= 1000 ==> o == Reported(text, poll)
  {
    var r := WaitForSeconds(seconds);
    if r.Failure? {
      return Threw(RuntimeError(r.error));
    }
    var await := r.value;
    var _ := await.WithException(Some(text));
    o := await.UntilGot(poll);
  }

  /** The waiters whose failure text is computed by a supplier: `waitFor(seconds).withException(() -> text)`,
      then `until(Callable<Boolean>)` on the condition. */
  method WaitWithSuppliedText(seconds: int32, text: string, poll: PollResult<()>) returns (o: Outcome<()>)
    ensures seconds == 0 || seconds > 1000 ==> o == Threw(RuntimeError(TypoMessage(seconds)))
    ensures seconds != 0 && seconds <= 1000 ==> o == Reported(text, poll)
  {
    var r := WaitForSeconds(seconds);
    if r.Failure? {
      return Threw(RuntimeError(r.error));
    }
    var await := r.value;
    var _ := await.WithExceptionFrom(Some(Yields(Some(text))));
    o := await.UntilTrueCondition(poll);
  }

  /** `waitFor(WebElement parentElem, By by, int seconds)` and `waitFor(WebDriver, By, int)`. */
  method WaitForElement<V>(selector: string, seconds: int32, poll: PollResult<V>) returns (o: Outcome<V>)
    ensures seconds == 0 || seconds > 1000 ==> o == Threw(RuntimeError(TypoMessage(seconds)))
    ensures seconds != 0 && seconds <= 1000 ==> o == Reported(SelectorMessage(selector, seconds), poll)
  {
    o := WaitWithText(seconds, SelectorMessage(selector, seconds), poll);
  }

  /** `waitFor(Supplier<WebElement>, int seconds)`. */
  method WaitForSupplied<V>(seconds: int32, poll: PollResult<V>) returns (o: Outcome<V>)
    ensures seconds == 0 || seconds > 1000 ==> o == Threw(RuntimeError(TypoMessage(seconds)))
    ensures seconds != 0 && seconds <= 1000 ==> o == Reported(SupplierMessage(seconds), poll)
  {
    o := WaitWithText(seconds, SupplierMessage(seconds), poll);
  }

  /** `waitUntilElementStoppedMoving`: three seconds, a fixed text, then `until(Callable<Boolean>)`. */
  method WaitUntilElementStoppedMoving(poll: PollResult<()>) returns (o: Outcome<()>)
    ensures o == Reported("Element is still moving", poll)
  {
    var r := WaitForSeconds(3);
    var await := r.value;
    var _ := await.WithException(Some("Element is still moving"));
    o := await.UntilTrueCondition(poll);
  }

  /** The visibility, hiding and clickability waiters that take a number of seconds. The child forms wait on the
      child of `parent` that `childSelector` finds, and name `parent` in their message. */
  datatype StateWaiter =
    | VisibleChild(parent: Element, childSelector: string)    // waitForVisible(WebElement, By, int)
    | VisibleElement(element: Element)                        // waitForVisible(WebElement, int)
    | VisibleSelector(selector: string)                       // waitForVisible(WebDriver, By, int)
    | NotVisibleSelector(selector: string)                    // waitForNotVisible(WebDriver, By, int)
    | NotVisibleElement(element: Element)                     // waitForNotVisible(WebElement, int)
    | ClickableChild(parent: Element, childSelector: string)  // waitForClickable(WebElement, By, int)
    | ClickableElement(element: Element)                      // waitForClickable(WebElement, int)
    | ClickableSelector(selector: string)                     // waitForClickable(WebDriver, By, int)

  /** What a state waiter's failure message names. */
  function StateTarget(w: StateWaiter): (t: Target)
    ensures t.OfSelector? <==> w.VisibleSelector? || w.NotVisibleSelector? || w.ClickableSelector?
  {
    match w
    case VisibleChild(parent, _) => OfElement(parent)
    case VisibleElement(element) => OfElement(element)
    case VisibleSelector(selector) => OfSelector(selector)
    case NotVisibleSelector(selector) => OfSelector(selector)
    case NotVisibleElement(element) => OfElement(element)
    case ClickableChild(parent, _) => OfElement(parent)
    case ClickableElement(element) => OfElement(element)
    case ClickableSelector(selector) => OfSelector(selector)
  }

  /** The constant a state waiter passes to `addName`. Only the element form of `waitForNotVisible` reports
      "not hidden": its selector form reports "not displayed", as the visibility waiters do. */
  function StateMessage(w: StateWaiter): (m: string)
    ensures m == ELEMENT_IS_NOT_HIDDEN <==> w.NotVisibleElement?
    ensures m == ELEMENT_IS_NOT_CLICKABLE <==> w.ClickableChild? || w.ClickableElement? || w.ClickableSelector?
    ensures m == ELEMENT_IS_NOT_DISPLAYED
            <==> w.VisibleChild? || w.VisibleElement? || w.VisibleSelector? || w.NotVisibleSelector?
  {
    assert ELEMENT_IS_NOT_DISPLAYED[15] == 'd' && ELEMENT_IS_NOT_CLICKABLE[15] == 'c';
    assert |ELEMENT_IS_NOT_HIDDEN| == 21 && |ELEMENT_IS_NOT_DISPLAYED| == |ELEMENT_IS_NOT_CLICKABLE| == 24;
    match w
    case VisibleChild(_, _) => ELEMENT_IS_NOT_DISPLAYED
    case VisibleElement(_) => ELEMENT_IS_NOT_DISPLAYED
    case VisibleSelector(_) => ELEMENT_IS_NOT_DISPLAYED
    case NotVisibleSelector(_) => ELEMENT_IS_NOT_DISPLAYED
    case NotVisibleElement(_) => ELEMENT_IS_NOT_HIDDEN
    case ClickableChild(_, _) => ELEMENT_IS_NOT_CLICKABLE
    case ClickableElement(_) => ELEMENT_IS_NOT_CLICKABLE
    case ClickableSelector(_) => ELEMENT_IS_NOT_CLICKABLE
  }

  /** `waitForVisible`, `waitForNotVisible` and `waitForClickable` with a number of seconds: the waiter's named
      message supplied to `withException`, then `until(Callable<Boolean>)` on the condition. */
  method WaitForState(w: StateWaiter, seconds: int32, poll: PollResult<()>) returns (o: Outcome<()>)
    ensures seconds == 0 || seconds > 1000 ==> o == Threw(RuntimeError(TypoMessage(seconds)))
    ensures seconds != 0 && seconds <= 1000 ==> o == Reported(NamedMessage(StateTarget(w), StateMessage(w)), poll)
  {
    o := WaitWithSuppliedText(seconds, NamedMessage(StateTarget(w), StateMessage(w)), poll);
  }

  /** The state waiters that also have a form without seconds. */
  predicate HasDefaultForm(w: StateWaiter)
  {
    w.VisibleElement? || w.VisibleSelector? || w.NotVisibleElement? || w.ClickableElement? || w.ClickableSelector?
  }

  /** The forms without seconds pass `DEFAULT_EXPLICIT_WAIT`, which the guard accepts. */
  method WaitForStateByDefault(w: StateWaiter, poll: PollResult<()>) returns (o: Outcome<()>)
    requires HasDefaultForm(w)
    ensures o == Reported(NamedMessage(StateTarget(w), StateMessage(w)), poll)
  {
    o := WaitForState(w, DEFAULT_EXPLICIT_WAIT, poll);
  }

  /** A selector that stays displayed makes `waitForNotVisible` fail with the text of `waitForVisible` for the
      same selector: "<selector>Element is not displayed". */
  lemma NotVisibleSelectorReportsNotDisplayed(selector: string, original: string)
    ensures NamedMessage(StateTarget(NotVisibleSelector(selector)), StateMessage(NotVisibleSelector(selector)))
            == selector + ELEMENT_IS_NOT_DISPLAYED
    ensures Reported<()>(NamedMessage(StateTarget(NotVisibleSelector(selector)),
                                      StateMessage(NotVisibleSelector(selector))), TimedOut(original))
            == Reported<()>(NamedMessage(StateTarget(VisibleSelector(selector)),
                                         StateMessage(VisibleSelector(selector))), TimedOut(original))
  {
  }

  /** For an element, by contrast, the hiding and the visibility waiters report different texts. */
  lemma NotVisibleElementReportsNotHidden(element: Element)
    ensures NamedMessage(StateTarget(NotVisibleElement(element)), StateMessage(NotVisibleElement(element)))
            != NamedMessage(StateTarget(VisibleElement(element)), StateMessage(VisibleElement(element)))
  {
    var hidden := AddName(element, ELEMENT_IS_NOT_HIDDEN);
    var shown := AddName(element, ELEMENT_IS_NOT_DISPLAYED);
    assert hidden[15] == 'h' && shown[15] == 'd';
  }

  /** `waitForClassPresent` (`present` true) and `waitForClassNotPresent` (`present` false). */
  method WaitForClass(className: string, element: Element, present: bool, seconds: int32, poll: PollResult<()>)
    returns (o: Outcome<()>)
    ensures seconds == 0 || seconds > 1000 ==> o == Threw(RuntimeError(TypoMessage(seconds)))
    ensures seconds != 0 && seconds <= 1000 ==> o == Reported(ClassMessage(className, element, present), poll)
  {
    o := WaitWithSuppliedText(seconds, ClassMessage(className, element, present), poll);
  }
}
