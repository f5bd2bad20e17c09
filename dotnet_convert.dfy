/** The .NET conversions between text and values that both interpreters call:
    `int.Parse`, `int.ToString()`, `bool.Parse` and `bool.ToString()` (invariant culture). */
module DotNetConvert {
  import opened Wrappers
  import opened Int32
  import DotNetText

  /** The exceptions the parse methods raise. */
  datatype ParseError = ArgumentNull | FormatError | OverflowError

  predicate AllDigits(s: string) {
    forall i :: 0 <= i < |s| ==> DotNetText.IsDigit(s[i])
  }

  function DigitChar(d: nat): (c: char)
    requires d < 10
    ensures DotNetText.IsDigit(c) && c as int - '0' as int == d
  {
    ('0' as int + d) as char
  }

  /** The decimal digits of `n`, most significant first, with no leading zero. */
  function NatToDecimal(n: nat): (s: string)
    ensures |s| > 0 && AllDigits(s)
    ensures |s| > 1 ==> s[0] != '0'
  {
    if n < 10 then [DigitChar(n)] else NatToDecimal(n / 10) + [DigitChar(n % 10)]
  }

  /** The number a run of decimal digits denotes. */
  function DigitsValue(s: string): nat
    requires AllDigits(s)
  {
    if s == [] then 0 else DigitsValue(s[..|s| - 1]) * 10 + (s[|s| - 1] as int - '0' as int)
  }

  lemma {:induction false} NatToDecimalValue(n: nat)
    ensures DigitsValue(NatToDecimal(n)) == n
  {
    if n >= 10 {
      var s := NatToDecimal(n);
      assert s[..|s| - 1] == NatToDecimal(n / 10);
      NatToDecimalValue(n / 10);
    }
  }

  /** `int.ToString()`: an optional '-' followed by the decimal digits of the magnitude. */
  function Int32ToString(i: int32): (s: string)
    ensures |s| > 0
  {
    if i < 0 then "-" + NatToDecimal(-(i as int)) else NatToDecimal(i as int)
  }

  /** The white space `int.Parse` skips around the number: U+0009..U+000D and U+0020. */
  predicate IsNumberWhite(c: char) { '\t' <= c <= '\r' || c == ' ' }

  /** The white space around a number removed from both ends and nothing else. */
  function StripNumberWhite(s: string): (r: string)
    ensures DotNetText.TrimmedOf(s, r, IsNumberWhite)
    ensures |s| > 0 && !IsNumberWhite(s[0]) && !IsNumberWhite(s[|s| - 1]) ==> r == s
  {
    if |s| > 0 && IsNumberWhite(s[0]) then
      var r := StripNumberWhite(s[1..]);
      DotNetText.CutFront(s, r, IsNumberWhite);
      r
    else if |s| > 0 && IsNumberWhite(s[|s| - 1]) then
      var r := StripNumberWhite(s[..|s| - 1]);
      DotNetText.CutBack(s, s[..|s| - 1], r, IsNumberWhite);
      r
    else
      DotNetText.CutNothing(s, IsNumberWhite);
      s
  }

  /** `int.Parse(s)` with the default number style: surrounding white space, one optional
      sign, then one or more decimal digits; a null string, another shape, or a value outside
      the int range raises. */
  function ParseInt32(s: Option<string>): (r: Result<int32, ParseError>)
    ensures s == None ==> r == Failure(ArgumentNull)
    ensures s.Some? && AllDigits(s.value) && |s.value| > 0 && DigitsValue(s.value) <= MAX
            ==> r == Success(DigitsValue(s.value) as int32)
  {
    match s
    case None => Failure(ArgumentNull)
    case Some(text) =>
      var t := StripNumberWhite(text);
      var negative := |t| > 0 && t[0] == '-';
      var digits := if |t| > 0 && (t[0] == '-' || t[0] == '+') then t[1..] else t;
      if digits == [] || !AllDigits(digits) then Failure(FormatError)
      else
        var n: int := DigitsValue(digits);
        var v: int := if negative then -n else n;
        if v < MIN || MAX < v then Failure(OverflowError) else Success(v as int32)
  }

  /** Rendering an int and parsing the text back gives the same int. */
  lemma ParseInt32ToString(i: int32)
    ensures ParseInt32(Some(Int32ToString(i))) == Success(i)
  {
    var s := Int32ToString(i);
    if i < 0 {
      NatToDecimalValue(-(i as int));
      assert s[1..] == NatToDecimal(-(i as int));
    } else {
      NatToDecimalValue(i as int);
    }
    assert StripNumberWhite(s) == s;
  }

  /** `bool.ToString()`. */
  function BoolToString(b: bool): string { if b then "True" else "False" }

  predicate IsBoolTrim(c: char) { DotNetText.IsWhiteSpace(c) || c == '\0' }

  /** White space and NUL characters removed from both ends and nothing else. */
  function StripBoolTrim(s: string): (r: string)
    ensures DotNetText.TrimmedOf(s, r, IsBoolTrim)
    ensures |s| > 0 && !IsBoolTrim(s[0]) && !IsBoolTrim(s[|s| - 1]) ==> r == s
  {
    if |s| > 0 && IsBoolTrim(s[0]) then
      var r := StripBoolTrim(s[1..]);
      DotNetText.CutFront(s, r, IsBoolTrim);
      r
    else if |s| > 0 && IsBoolTrim(s[|s| - 1]) then
      var r := StripBoolTrim(s[..|s| - 1]);
      DotNetText.CutBack(s, s[..|s| - 1], r, IsBoolTrim);
      r
    else
      DotNetText.CutNothing(s, IsBoolTrim);
      s
  }

  /** `bool.Parse(s)`: "True" or "False" compared without regard to case, after removing
      surrounding white space and NUL characters; anything else raises. */
  function ParseBool(s: Option<string>): (r: Result<bool, ParseError>)
    ensures s == None ==> r == Failure(ArgumentNull)
    ensures s == Some("true") ==> r == Success(true)
    ensures s == Some("false") ==> r == Success(false)
  {
    match s
    case None => Failure(ArgumentNull)
    case Some(text) =>
      var u := StripBoolTrim(text);
      assert text in {"true", "false"} ==> u == text;
      var t := DotNetText.ToLowerAsciiString(u);
      if t == "true" then Success(true)
      else if t == "false" then Success(false)
      else Failure(FormatError)
  }

  /** Rendering a bool and parsing it back gives the same bool. */
  lemma ParseBoolToString(b: bool)
    ensures ParseBool(Some(BoolToString(b))) == Success(b)
  {
    var s := BoolToString(b);
    assert StripBoolTrim(s) == s;
    if b {
      assert DotNetText.ToLowerAsciiString(s) == "true";
    } else {
      assert DotNetText.ToLowerAsciiString(s) == "false";
    }
  }
}
