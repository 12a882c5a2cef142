/**
 * The parts of Java's runtime semantics the modelled code relies on: 32-bit `int` arithmetic,
 * the decimal text of a number in string concatenation, `null` in concatenation,
 * `StringUtils.isBlank`, and `String.split` on a single-character separator.
 */
module JavaLang {
  import opened Wrappers

  /** Java `int`. */
  newtype int32 = x: int | -0x8000_0000 <= x < 0x8000_0000

  /** Java `long`. */
  newtype int64 = x: int | -0x8000_0000_0000_0000 <= x < 0x8000_0000_0000_0000

  const INT_MAX: int := 0x7FFF_FFFF

  /** The Java exceptions the modelled code can raise, by class. */
  datatype JavaError =
    | NullPointer
    | ArrayIndexOutOfBounds(index: int)
    | IndexOutOfBounds(index: int)
    | NumberFormat(input: string)
    | IllegalArgument

  /** Two's-complement narrowing to 32 bits, which is what Java's `int` arithmetic does to an exact result. */
  function WrapInt(x: int): (r: int32)
    ensures (r as int - x) % 0x1_0000_0000 == 0
    ensures -0x8000_0000 <= x < 0x8000_0000 ==> r as int == x
  {
    var m := x % 0x1_0000_0000;
    if m < 0x8000_0000 then m as int32 else (m - 0x1_0000_0000) as int32
  }

  /** `a * b` on two Java `int`s. */
  function IntMul(a: int32, b: int32): int32
  {
    WrapInt(a as int * b as int)
  }

  // ---------------------------------------------------------------- decimal text

  predicate IsDigit(c: char)
  {
    '0' <= c <= '9'
  }

  predicate AllDigits(s: string)
  {
    forall i :: 0 <= i < |s| ==> IsDigit(s[i])
  }

  function DigitChar(d: nat): (c: char)
    requires d < 10
    ensures IsDigit(c)
  {
    (48 + d) as char
  }

  function DigitValue(c: char): nat
    requires IsDigit(c)
  {
    c as int - 48
  }

  /** Decimal text of a non-negative number, without leading zeros. */
  function NatToDecimal(n: nat): (s: string)
    ensures |s| > 0 && AllDigits(s)
    ensures |s| > 1 ==> s[0] != '0'
    decreases n
  {
    if n < 10 then [DigitChar(n)] else NatToDecimal(n / 10) + [DigitChar(n % 10)]
  }

  /** The text string concatenation gives a Java `int` or `long`. */
  function IntToString(n: int): (s: string)
    ensures |s| > 0
    ensures s[0] == '-' <==> n < 0
    ensures n >= 0 ==> AllDigits(s) && DecimalValue(s) == n
    ensures n < 0 ==> AllDigits(s[1..]) && DecimalValue(s[1..]) == -n
  {
    if n < 0 then
      DecimalRoundTrip(-n);
      assert ("-" + NatToDecimal(-n))[1..] == NatToDecimal(-n);
      "-" + NatToDecimal(-n)
    else
      DecimalRoundTrip(n);
      NatToDecimal(n)
  }

  /** The value of a string of decimal digits, leading zeros allowed (the digits `Integer.valueOf` reads). */
  function DecimalValue(s: string): nat
    requires AllDigits(s)
  {
    if s == [] then 0 else DecimalValue(s[..|s| - 1]) * 10 + DigitValue(s[|s| - 1])
  }

  /** Reading back the decimal text of a number gives the number. */
  lemma {:induction false} DecimalRoundTrip(n: nat)
    ensures DecimalValue(NatToDecimal(n)) == n
    decreases n
  {
    if n >= 10 {
      var s := NatToDecimal(n);
      assert s[..|s| - 1] == NatToDecimal(n / 10);
      DecimalRoundTrip(n / 10);
    }
  }

  /** Leading zeros do not change the value that is read. */
  lemma {:induction false} LeadingZerosIgnored(zeros: string, s: string)
    requires forall i :: 0 <= i < |zeros| ==> zeros[i] == '0'
    requires AllDigits(s)
    ensures AllDigits(zeros + s) && DecimalValue(zeros + s) == DecimalValue(s)
    decreases |s|
  {
    if s == [] {
      assert zeros + s == zeros;
      ZerosValue(zeros);
    } else {
      var t := zeros + s;
      assert t[..|t| - 1] == zeros + s[..|s| - 1];
      LeadingZerosIgnored(zeros, s[..|s| - 1]);
    }
  }

  lemma {:induction false} ZerosValue(zeros: string)
    requires forall i :: 0 <= i < |zeros| ==> zeros[i] == '0'
    ensures AllDigits(zeros) && DecimalValue(zeros) == 0
    decreases |zeros|
  {
    if zeros != [] {
      ZerosValue(zeros[..|zeros| - 1]);
    }
  }

  // ---------------------------------------------------------------- nullable strings

  /** A Java `String` reference: `None` is `null`. */
  type JString = Option<string>

  /** What string concatenation appends for a possibly-null string. */
  function ValueOf(s: JString): string
  {
    match s
    case None => "null"
    case Some(t) => t
  }

  /** `Character.isWhitespace`: the Unicode space separators other than the no-break ones, and the ASCII controls
      TAB, LF, VT, FF, CR and FS, GS, RS, US. */
  predicate IsWhitespace(c: char)
  {
    var n := c as int;
    n == 0x20 || (0x09 <= n <= 0x0D) || (0x1C <= n <= 0x1F) || n == 0x1680
    || (0x2000 <= n <= 0x2006) || (0x2008 <= n <= 0x200A) || n == 0x2028 || n == 0x2029
    || n == 0x205F || n == 0x3000
  }

  /** `s` with its leading whitespace removed. */
  function StripLeading(s: string): (t: string)
    ensures |t| <= |s| && t == s[|s| - |t|..]
    ensures t != [] ==> !IsWhitespace(t[0])
  {
    if s != [] && IsWhitespace(s[0]) then StripLeading(s[1..]) else s
  }

  /** Stripping leaves nothing exactly when every character is whitespace. */
  lemma {:induction false} StripLeadingEmpty(s: string)
    ensures StripLeading(s) == [] <==> forall i :: 0 <= i < |s| ==> IsWhitespace(s[i])
    decreases |s|
  {
    if s != [] {
      StripLeadingEmpty(s[1..]);
      if IsWhitespace(s[0]) {
        assert forall i :: 1 <= i < |s| ==> s[i] == s[1..][i - 1];
      }
    }
  }

  /** `StringUtils.isBlank`: `null`, empty, or whitespace only; equivalently, nothing is left once leading
      whitespace is stripped. */
  predicate IsBlank(s: JString)
    ensures IsBlank(s) <==> s.None? || StripLeading(s.value) == []
  {
    s.None? || (StripLeadingEmpty(s.value); forall i :: 0 <= i < |s.value| ==> IsWhitespace(s.value[i]))
  }

  // ---------------------------------------------------------------- String.split

  /** The pieces of `s` between occurrences of `sep`, every empty piece kept. */
  function Pieces(s: string, sep: char): (ps: seq<string>)
    ensures |ps| > 0
  {
    if s == [] then [""]
    else
      var rest := Pieces(s[1..], sep);
      if s[0] == sep then [""] + rest else [[s[0]] + rest[0]] + rest[1..]
  }

  /** The pieces glued back together with `sep` between them. */
  function Join(ps: seq<string>, sep: char): string
  {
    if |ps| == 0 then "" else if |ps| == 1 then ps[0] else ps[0] + [sep] + Join(ps[1..], sep)
  }

  /** The text of `s` before its first `sep` (all of `s` when there is none). */
  function UpTo(s: string, sep: char): (t: string)
    ensures |t| <= |s| && t == s[..|t|] && sep !in t
    ensures |t| < |s| ==> s[|t|] == sep
  {
    if s == [] || s[0] == sep then "" else [s[0]] + UpTo(s[1..], sep)
  }

  /** `Pieces` and `Join` are inverse: the pieces hold no separator and glue back to `s`. */
  lemma {:induction false} PiecesJoin(s: string, sep: char)
    ensures Join(Pieces(s, sep), sep) == s
    ensures forall i :: 0 <= i < |Pieces(s, sep)| ==> sep !in Pieces(s, sep)[i]
    decreases |s|
  {
    if s != [] {
      PiecesJoin(s[1..], sep);
      var rest := Pieces(s[1..], sep);
      if s[0] == sep {
        assert Pieces(s, sep)[1..] == rest;
      } else {
        var ps := Pieces(s, sep);
        assert ps[1..] == rest[1..];
        if |rest| > 1 {
          assert Join(rest, sep) == rest[0] + [sep] + Join(rest[1..], sep);
          assert s == [s[0]] + s[1..];
        }
      }
    }
  }

  /** The first piece is the text before the first separator. */
  lemma {:induction false} FirstPiece(s: string, sep: char)
    ensures Pieces(s, sep)[0] == UpTo(s, sep)
    decreases |s|
  {
    if s != [] {
      FirstPiece(s[1..], sep);
    }
  }

  /** Without a separator there is one piece, the whole string. */
  lemma {:induction false} PiecesWithoutSeparator(s: string, sep: char)
    requires sep !in s
    ensures Pieces(s, sep) == [s]
    decreases |s|
  {
    if s != [] {
      assert sep !in s[1..];
      PiecesWithoutSeparator(s[1..], sep);
      assert s == [s[0]] + s[1..];
    }
  }

  /** Every piece is empty exactly when `s` is made of separators only. */
  lemma {:induction false} AllPiecesEmpty(s: string, sep: char)
    ensures (forall i :: 0 <= i < |Pieces(s, sep)| ==> Pieces(s, sep)[i] == "")
            <==> (forall j :: 0 <= j < |s| ==> s[j] == sep)
    decreases |s|
  {
    if s != [] {
      AllPiecesEmpty(s[1..], sep);
      var rest := Pieces(s[1..], sep);
      var ps := Pieces(s, sep);
      if s[0] == sep {
        assert ps[1..] == rest;
        assert forall j :: 1 <= j < |s| ==> s[j] == s[1..][j - 1];
      } else {
        assert ps[0] != "";
      }
    }
  }

  /** A separator between `a` and `b` splits them apart. */
  lemma {:induction false} PiecesAppend(a: string, b: string, sep: char)
    ensures Pieces(a + [sep] + b, sep) == Pieces(a, sep) + Pieces(b, sep)
    decreases |a|
  {
    var s := a + [sep] + b;
    if a == [] {
      assert s[1..] == b;
    } else {
      assert s[1..] == a[1..] + [sep] + b;
      PiecesAppend(a[1..], b, sep);
    }
  }

  /** Java's `split` with no limit removes the trailing empty pieces. */
  function DropTrailingEmpty(ps: seq<string>): (r: seq<string>)
    ensures |r| <= |ps| && r == ps[..|r|]
    ensures |r| > 0 ==> r[|r| - 1] != ""
    ensures forall i :: |r| <= i < |ps| ==> ps[i] == ""
  {
    if ps == [] then []
    else if ps[|ps| - 1] == "" then DropTrailingEmpty(ps[..|ps| - 1])
    else ps
  }

  /** `s.split(sep)` for a one-character separator that is not a regular-expression metacharacter:
      the whole string when `sep` does not occur, otherwise the pieces less the trailing empty ones. */
  function Split(s: string, sep: char): (r: seq<string>)
    ensures sep !in s ==> r == [s]
    ensures |r| <= |Pieces(s, sep)| && r == Pieces(s, sep)[..|r|]
    ensures forall i :: |r| <= i < |Pieces(s, sep)| ==> Pieces(s, sep)[i] == ""
    ensures sep in s && |r| > 0 ==> r[|r| - 1] != ""
    ensures forall i :: 0 <= i < |r| ==> sep !in r[i]
  {
    PiecesJoin(s, sep);
    if sep !in s then
      PiecesWithoutSeparator(s, sep);
      [s]
    else DropTrailingEmpty(Pieces(s, sep))
  }

  /** `split` yields an empty array exactly for a non-empty string of separators only; otherwise its first element
      is the text before the first separator. */
  lemma SplitFirst(s: string, sep: char)
    ensures |Split(s, sep)| == 0 <==> s != "" && forall j :: 0 <= j < |s| ==> s[j] == sep
    ensures |Split(s, sep)| > 0 ==> Split(s, sep)[0] == UpTo(s, sep)
  {
    FirstPiece(s, sep);
    AllPiecesEmpty(s, sep);
    var ps := Pieces(s, sep);
    if sep in s {
      var r := DropTrailingEmpty(ps);
      if |r| == 0 {
        assert forall i :: 0 <= i < |ps| ==> ps[i] == "";
      } else {
        assert r[0] == ps[0];
      }
    } else if s != [] {
      assert s[0] != sep;
    }
  }

  /** For a non-empty token, dropping trailing empty pieces changes nothing about membership. */
  lemma SplitMember(s: string, sep: char, t: string)
    requires t != ""
    ensures t in Split(s, sep) <==> t in Pieces(s, sep)
  {
    var ps := Pieces(s, sep);
    if sep !in s {
      PiecesWithoutSeparator(s, sep);
    } else {
      var r := DropTrailingEmpty(ps);
      if t in ps {
        var i :| 0 <= i < |ps| && ps[i] == t;
        assert i < |r|;
        assert r[i] == t;
      }
    }
  }
}
