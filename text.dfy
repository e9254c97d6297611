/**
 * The string handling the group store relies on: `string.Trim()` for group
 * names, `int.ToString()` for numbered names, and the name regex
 * `^(.*?)(\s+\d+)?$` of GetFirstUnusedGroupName.
 */
module Text {

  /** The characters .NET's `char.IsWhiteSpace` (and the regex class `\s`) accepts. */
  predicate IsWhiteSpace(c: char) {
    || c == ' ' || ('\t' <= c <= '\r') || c == '\U{85}' || c == '\U{A0}' || c == '\U{1680}'
    || ('\U{2000}' <= c <= '\U{200A}') || c == '\U{2028}' || c == '\U{2029}'
    || c == '\U{202F}' || c == '\U{205F}' || c == '\U{3000}'
  }

  predicate IsDigit(c: char) {
    '0' <= c <= '9'
  }

  predicate AllWhiteSpace(s: string) {
    forall i :: 0 <= i < |s| ==> IsWhiteSpace(s[i])
  }

  predicate AllDigits(s: string) {
    forall i :: 0 <= i < |s| ==> IsDigit(s[i])
  }

  // ---------------------------------------------------------------- Trim

  /** Drops leading white space: the result is the suffix that starts at the first other character. */
  function TrimStart(s: string): (r: string)
    ensures |r| <= |s| && r == s[|s| - |r|..]
    ensures AllWhiteSpace(s[..|s| - |r|])
    ensures r == [] || !IsWhiteSpace(r[0])
  {
    if s != [] && IsWhiteSpace(s[0]) then
      var r := TrimStart(s[1..]);
      assert s[..|s| - |r|] == [s[0]] + s[1..][..|s| - 1 - |r|];
      r
    else
      s
  }

  /** Drops trailing white space: the result is the prefix that ends at the last other character. */
  function TrimEnd(s: string): (r: string)
    ensures |r| <= |s| && r == s[..|r|]
    ensures AllWhiteSpace(s[|r|..])
    ensures r == [] || !IsWhiteSpace(r[|r| - 1])
  {
    if s != [] && IsWhiteSpace(s[|s| - 1]) then
      var r := TrimEnd(s[..|s| - 1]);
      assert s[|r|..] == s[..|s| - 1][|r|..] + [s[|s| - 1]];
      r
    else
      s
  }

  /** Neither the first nor the last character is white space. */
  predicate Trimmed(s: string) {
    s == [] || (!IsWhiteSpace(s[0]) && !IsWhiteSpace(s[|s| - 1]))
  }

  /** `string.Trim()`: white space removed at both ends and nowhere else. */
  function Trim(s: string): (r: string)
    ensures Trimmed(r)
  {
    TrimEnd(TrimStart(s))
  }

  /** A string that neither starts nor ends with white space is its own trim. */
  lemma {:induction false} TrimmedIsFixed(s: string)
    requires Trimmed(s)
    ensures Trim(s) == s
  {
    assert TrimStart(s) == s;
    assert TrimEnd(s) == s;
  }

  /** Trimming twice is trimming once. */
  lemma TrimIdempotent(s: string)
    ensures Trim(Trim(s)) == Trim(s)
  {
    TrimmedIsFixed(Trim(s));
  }

  /** A name trims to the empty string exactly when it is all white space. */
  lemma {:induction false} TrimEmptyIffAllWhiteSpace(s: string)
    ensures Trim(s) == [] <==> AllWhiteSpace(s)
  {
    var t := TrimStart(s);
    if t == [] {
      assert s[..|s|] == s;
    } else {
      assert !IsWhiteSpace(s[|s| - |t|]);
      assert t[0..] == t;
    }
  }

  // ---------------------------------------------------------------- Decimal numbers

  function DigitChar(d: nat): (c: char)
    requires d < 10
    ensures IsDigit(c) && c as int - '0' as int == d
  {
    (d + '0' as int) as char
  }

  function DigitValue(c: char): nat
    requires IsDigit(c)
  {
    c as int - '0' as int
  }

  /** `int.ToString()` of a non-negative number: its decimal digits, most significant first. */
  function NatToString(n: nat): (r: string)
    ensures |r| >= 1 && AllDigits(r)
    decreases n
  {
    if n < 10 then [DigitChar(n)] else NatToString(n / 10) + [DigitChar(n % 10)]
  }

  /** The value of a string of decimal digits. */
  function DigitsToNat(s: string): nat
    requires AllDigits(s)
  {
    if s == [] then 0 else DigitsToNat(s[..|s| - 1]) * 10 + DigitValue(s[|s| - 1])
  }

  /** Reading back the digits of a number gives the number. */
  lemma {:induction false} NatToStringRoundTrip(n: nat)
    ensures DigitsToNat(NatToString(n)) == n
    decreases n
  {
    var r := NatToString(n);
    if n >= 10 {
      NatToStringRoundTrip(n / 10);
      assert r[..|r| - 1] == NatToString(n / 10);
    }
  }

  /** Different numbers print differently. */
  lemma NatToStringInjective(m: nat, n: nat)
    requires NatToString(m) == NatToString(n)
    ensures m == n
  {
    NatToStringRoundTrip(m);
    NatToStringRoundTrip(n);
  }

  // ---------------------------------------------------------------- The group name regex

  /** The length of the run of decimal digits that ends just before position `e` of `s`. */
  function DigitRunBefore(s: string, e: nat): (n: nat)
    requires e <= |s|
    ensures n <= e
    ensures forall i :: e - n <= i < e ==> IsDigit(s[i])
    ensures n < e ==> !IsDigit(s[e - n - 1])
  {
    if e > 0 && IsDigit(s[e - 1]) then DigitRunBefore(s, e - 1) + 1 else 0
  }

  /** The length of the run of white space that ends just before position `e` of `s`. */
  function WhiteSpaceRunBefore(s: string, e: nat): (n: nat)
    requires e <= |s|
    ensures n <= e
    ensures forall i :: e - n <= i < e ==> IsWhiteSpace(s[i])
    ensures n < e ==> !IsWhiteSpace(s[e - n - 1])
  {
    if e > 0 && IsWhiteSpace(s[e - 1]) then WhiteSpaceRunBefore(s, e - 1) + 1 else 0
  }

  /**
   * The part of `s` from position `j` on matches `\s+\d+`. Its digits are then
   * exactly the digit run that ends `s` (the character before them is white space),
   * and everything from `j` up to that run is white space.
   */
  predicate SpaceThenDigitsFrom(s: string, j: nat)
    requires j <= |s|
  {
    var d := DigitRunBefore(s, |s|);
    0 < d && j < |s| - d && forall i :: j <= i < |s| - d ==> IsWhiteSpace(s[i])
  }

  /**
   * Capture group 1 of `^(.*?)(\s+\d+)?$`: the lazy group takes the shortest
   * prefix after which the rest is empty or is white space followed by digits.
   */
  function NameStem(s: string): (r: string)
    ensures |r| <= |s| && r == s[..|r|]
    ensures |r| == |s| || SpaceThenDigitsFrom(s, |r|)
    ensures forall j :: 0 <= j < |r| ==> !SpaceThenDigitsFrom(s, j)
  {
    var d := DigitRunBefore(s, |s|);
    var w := WhiteSpaceRunBefore(s, |s| - d);
    var k := if d > 0 && w > 0 then |s| - d - w else |s|;
    assert forall j :: 0 <= j < k ==> !SpaceThenDigitsFrom(s, j) by {
      forall j | 0 <= j < k
        ensures !SpaceThenDigitsFrom(s, j)
      {
        if d > 0 && j < |s| - d {
          // A character between j and the digit run that is not white space.
          assert !IsWhiteSpace(s[k - 1]) || !IsWhiteSpace(s[|s| - d - 1]);
        }
      }
    }
    s[..k]
  }
}
