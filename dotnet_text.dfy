/** The parts of the .NET string and char library that the interpreters lean on:
    `char.IsWhiteSpace`, `char.IsDigit`/`IsLetter` (ASCII part only), `string.Trim`,
    `string.Split(char)` and the inverse join used to state its round trip. */
module DotNetText {

  /** `char.IsWhiteSpace`: the Unicode space, line and paragraph separators together with
      U+0009..U+000D and U+0085. */
  predicate IsWhiteSpace(c: char) {
    ('\t' <= c <= '\r') || c == ' ' || c == '\U{0085}' || c == '\U{00A0}' || c == '\U{1680}'
    || ('\U{2000}' <= c <= '\U{200A}') || c == '\U{2028}' || c == '\U{2029}' || c == '\U{202F}'
    || c == '\U{205F}' || c == '\U{3000}'
  }

  /** The ASCII decimal digits, the part of `char.IsDigit` this model covers. */
  predicate IsDigit(c: char) { '0' <= c <= '9' }

  /** The ASCII letters, the part of `char.IsLetter` this model covers. */
  predicate IsLetter(c: char) { 'A' <= c <= 'Z' || 'a' <= c <= 'z' }

  predicate IsLetterOrDigit(c: char) { IsLetter(c) || IsDigit(c) }

  /** ASCII lower-casing, used for the case-insensitive comparisons of `bool.Parse`. */
  function ToLowerAscii(c: char): (r: char)
    ensures 'A' <= c <= 'Z' ==> r as int == c as int + 32
    ensures !('A' <= c <= 'Z') ==> r == c
  {
    if 'A' <= c <= 'Z' then (c as int + 32) as char else c
  }

  function ToLowerAsciiString(s: string): (r: string)
    ensures |r| == |s|
    ensures forall i :: 0 <= i < |s| ==> r[i] == ToLowerAscii(s[i])
  {
    if s == [] then [] else [ToLowerAscii(s[0])] + ToLowerAsciiString(s[1..])
  }

  /** `TrimStart()`: drops the leading white space and nothing else. */
  function TrimStart(s: string): (r: string)
    ensures |r| <= |s| && r == s[|s| - |r|..]
    ensures forall k :: 0 <= k < |s| - |r| ==> IsWhiteSpace(s[k])
    ensures |r| > 0 ==> !IsWhiteSpace(r[0])
  {
    if |s| > 0 && IsWhiteSpace(s[0]) then TrimStart(s[1..]) else s
  }

  /** `TrimEnd()`: drops the trailing white space and nothing else. */
  function TrimEnd(s: string): (r: string)
    ensures |r| <= |s| && r == s[..|r|]
    ensures forall k :: |r| <= k < |s| ==> IsWhiteSpace(s[k])
    ensures |r| > 0 ==> !IsWhiteSpace(r[|r| - 1])
  {
    if |s| > 0 && IsWhiteSpace(s[|s| - 1]) then TrimEnd(s[..|s| - 1]) else s
  }

  /** `r` is the slice of `s` that starts at `a`, and every character cut off in front of it
      or behind it belongs to the class `white`. */
  ghost predicate CutFrom(s: string, r: string, a: int, white: char -> bool)
  {
    0 <= a && a + |r| <= |s| && r == s[a..a + |r|]
    && (forall k :: 0 <= k < a ==> white(s[k]))
    && (forall k :: a + |r| <= k < |s| ==> white(s[k]))
  }

  /** `r` is `s` with the characters of the class `white` removed from both ends and nothing
      else: a slice of `s` whose cut-off characters are all of the class and whose own ends
      are not. */
  ghost predicate TrimmedOf(s: string, r: string, white: char -> bool)
  {
    (exists a :: CutFrom(s, r, a, white))
    && (|r| > 0 ==> !white(r[0]) && !white(r[|r| - 1]))
  }

  /** Cutting one more character of the class off the front keeps the cut a cut. */
  lemma CutFront(s: string, r: string, white: char -> bool)
    requires |s| > 0 && white(s[0]) && exists a :: CutFrom(s[1..], r, a, white)
    ensures exists a :: CutFrom(s, r, a, white)
  {
    var a :| CutFrom(s[1..], r, a, white);
    assert CutFrom(s, r, a + 1, white);
  }

  /** Cutting one more character of the class off the back keeps the cut a cut. */
  lemma CutBack(s: string, t: string, r: string, white: char -> bool)
    requires |s| > 0 && white(s[|s| - 1]) && t == s[..|s| - 1]
    requires exists a :: CutFrom(t, r, a, white)
    ensures exists a :: CutFrom(s, r, a, white)
  {
    var a :| CutFrom(t, r, a, white);
    assert CutFrom(s, r, a, white);
  }

  /** Nothing cut off is a cut. */
  lemma CutNothing(s: string, white: char -> bool)
    ensures CutFrom(s, s, 0, white)
  {
  }

  /** The trimmed form is unique: two results that both meet `TrimmedOf` are the same string,
      so `TrimmedOf` determines what trimming returns. */
  lemma TrimmedUnique(s: string, r1: string, r2: string, white: char -> bool)
    requires TrimmedOf(s, r1, white) && TrimmedOf(s, r2, white)
    ensures r1 == r2
  {
    var a1 :| CutFrom(s, r1, a1, white);
    var a2 :| CutFrom(s, r2, a2, white);
    if |r1| > 0 && |r2| > 0 {
      assert s[a1] == r1[0] && s[a2] == r2[0];
      assert a1 == a2;
      assert s[a1 + |r1| - 1] == r1[|r1| - 1] && s[a2 + |r2| - 1] == r2[|r2| - 1];
      assert |r1| == |r2|;
    }
  }

  /** `Trim()`: white space removed from both ends and nothing else. */
  function Trim(s: string): (r: string)
    ensures TrimmedOf(s, r, IsWhiteSpace)
  {
    var t := TrimStart(s);
    var r := TrimEnd(t);
    assert CutFrom(s, r, |s| - |t|, IsWhiteSpace);
    r
  }

  /** The number of occurrences of `c` in `s`. */
  function Count(s: string, c: char): nat
  {
    if s == [] then 0 else (if s[0] == c then 1 else 0) + Count(s[1..], c)
  }

  /** `string.Join(sep, pieces)` for a separator character. */
  function Join(pieces: seq<string>, sep: char): string
    requires |pieces| > 0
  {
    if |pieces| == 1 then pieces[0] else pieces[0] + [sep] + Join(pieces[1..], sep)
  }

  /** The first index of `c` in `s`. */
  function IndexOf(s: string, c: char): (k: nat)
    requires c in s
    ensures k < |s| && s[k] == c && c !in s[..k]
  {
    if s[0] == c then 0 else 1 + IndexOf(s[1..], c)
  }

  /** `string.Split(sep)`: every occurrence of `sep` separates two pieces, so runs of
      separators give empty pieces; joining the pieces again gives back `s`. */
  function Split(s: string, sep: char): (pieces: seq<string>)
    ensures |pieces| == Count(s, sep) + 1
    ensures forall i :: 0 <= i < |pieces| ==> sep !in pieces[i]
    ensures Join(pieces, sep) == s
    decreases |s|
  {
    if sep in s then
      var k := IndexOf(s, sep);
      CountSplit(s, sep, k);
      assert s == s[..k] + [sep] + s[k + 1..];
      [s[..k]] + Split(s[k + 1..], sep)
    else
      CountAbsent(s, sep);
      [s]
  }

  lemma {:induction false} CountAbsent(s: string, c: char)
    requires c !in s
    ensures Count(s, c) == 0
  {
    if s != [] { CountAbsent(s[1..], c); }
  }

  lemma {:induction false} CountSplit(s: string, c: char, k: nat)
    requires k < |s| && s[k] == c && c !in s[..k]
    ensures Count(s, c) == 1 + Count(s[k + 1..], c)
  {
    if k > 0 {
      assert s[1..][..k - 1] == s[1..k];
      assert s[1..][k - 1 + 1..] == s[k + 1..];
      CountSplit(s[1..], c, k - 1);
    }
  }

  /** Splitting a joined list of separator-free pieces gives the pieces back. */
  lemma {:induction false} SplitJoin(pieces: seq<string>, sep: char)
    requires |pieces| > 0
    requires forall i :: 0 <= i < |pieces| ==> sep !in pieces[i]
    ensures Split(Join(pieces, sep), sep) == pieces
  {
    if |pieces| > 1 {
      var s := Join(pieces, sep);
      var n := |pieces[0]|;
      assert s == pieces[0] + [sep] + Join(pieces[1..], sep);
      assert s[n] == sep && s[..n] == pieces[0];
      assert sep in s;
      var k := IndexOf(s, sep);
      assert k == n;
      assert s[k + 1..] == Join(pieces[1..], sep);
      SplitJoin(pieces[1..], sep);
    } else {
      assert Join(pieces, sep) == pieces[0];
    }
  }
}
