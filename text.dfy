/**
 * Character and string helpers for the Python string operations the client
 * relies on (`str.upper`, `str.lower`, `str(int)`, `endswith`, `in`),
 * restricted to ASCII.
 */
module Text {

  /** A letter that has an upper and a lower case form. */
  predicate IsCased(c: char) {
    'a' <= c <= 'z' || 'A' <= c <= 'Z'
  }

  function Upper(c: char): (r: char)
    ensures IsCased(r) == IsCased(c)
    ensures !('a' <= r <= 'z')
    ensures !IsCased(c) ==> r == c
  {
    if 'a' <= c <= 'z' then (c as int - 32) as char else c
  }

  function Lower(c: char): (r: char)
    ensures IsCased(r) == IsCased(c)
    ensures !('A' <= r <= 'Z')
    ensures !IsCased(c) ==> r == c
  {
    if 'A' <= c <= 'Z' then (c as int + 32) as char else c
  }

  /** `s.upper()` on ASCII text. */
  function UpperString(s: string): (r: string)
    ensures |r| == |s|
    ensures forall i :: 0 <= i < |s| ==> r[i] == Upper(s[i])
  {
    if s == [] then [] else [Upper(s[0])] + UpperString(s[1..])
  }

  /** The ASCII characters `str.isspace` accepts, which `str.strip()` removes. */
  predicate IsSpace(c: char) {
    c == ' ' || '\t' <= c <= '\r' || '\U{1C}' <= c <= '\U{1F}'
  }

  /** `s.lstrip()`: the suffix left after the leading whitespace. */
  function StripStart(s: string): (r: string)
    ensures |r| <= |s| && r == s[|s| - |r|..]
    ensures forall i :: 0 <= i < |s| - |r| ==> IsSpace(s[i])
    ensures r != [] ==> !IsSpace(r[0])
  {
    if s != [] && IsSpace(s[0]) then StripStart(s[1..]) else s
  }

  /** `s.rstrip()`: the prefix left before the trailing whitespace. */
  function StripEnd(s: string): (r: string)
    ensures |r| <= |s| && r == s[..|r|]
    ensures forall i :: |r| <= i < |s| ==> IsSpace(s[i])
    ensures r != [] ==> !IsSpace(r[|r| - 1])
  {
    if s != [] && IsSpace(s[|s| - 1]) then StripEnd(s[..|s| - 1]) else s
  }

  /** `s.strip()`. */
  function Strip(s: string): string {
    StripEnd(StripStart(s))
  }

  /**
   * A stripped text is empty exactly when the text is all whitespace, and
   * otherwise starts and ends with a non-space; text without surrounding
   * whitespace is kept.
   */
  lemma StripShape(s: string)
    ensures Strip(s) == [] <==> forall i :: 0 <= i < |s| ==> IsSpace(s[i])
    ensures Strip(s) != [] ==> !IsSpace(Strip(s)[0]) && !IsSpace(Strip(s)[|Strip(s)| - 1])
    ensures s == [] || (!IsSpace(s[0]) && !IsSpace(s[|s| - 1])) ==> Strip(s) == s
  {
    StripEmpty(s);
    StripEdges(s);
  }

  lemma StripEmpty(s: string)
    ensures Strip(s) == [] <==> forall i :: 0 <= i < |s| ==> IsSpace(s[i])
  {
    var t := StripStart(s);
    if t == [] {
      assert Strip(s) == [];
    } else {
      assert !IsSpace(t[0]) && t[0] == s[|s| - |t|];
    }
  }

  lemma StripEdges(s: string)
    ensures Strip(s) != [] ==> !IsSpace(Strip(s)[0]) && !IsSpace(Strip(s)[|Strip(s)| - 1])
    ensures s == [] || (!IsSpace(s[0]) && !IsSpace(s[|s| - 1])) ==> Strip(s) == s
  {
    var t := StripStart(s);
    var r := StripEnd(t);
    assert r != [] ==> r[0] == t[0];
  }

  /** `s.endswith(suffix)`. */
  predicate EndsWith(s: string, suffix: string) {
    |suffix| <= |s| && s[|s| - |suffix|..] == suffix
  }

  /** `sub in s` for two strings: `sub` occurs contiguously in `s`. */
  predicate Contains(s: string, sub: string) {
    exists i :: 0 <= i <= |s| && OccursAt(s, sub, i)
  }

  predicate OccursAt(s: string, sub: string, i: int) {
    0 <= i <= |s| - |sub| && s[i..i + |sub|] == sub
  }

  function DigitChar(d: nat): (c: char)
    requires d < 10
    ensures '0' <= c <= '9'
  {
    ('0' as int + d) as char
  }

  predicate IsDigits(s: string) {
    forall i :: 0 <= i < |s| ==> '0' <= s[i] <= '9'
  }

  /** A non-empty run of decimal digits without a leading zero, as `str` writes a number. */
  predicate IsDecimal(s: string) {
    |s| >= 1 && IsDigits(s) && (|s| > 1 ==> s[0] != '0')
  }

  /** `str(n)` for a non-negative integer: decimal digits, no leading zero. */
  function NatToString(n: nat): (s: string)
    ensures IsDecimal(s)
    decreases n
  {
    if n < 10 then [DigitChar(n)] else NatToString(n / 10) + [DigitChar(n % 10)]
  }

  /** `str(i)` for any integer: the decimal text of its magnitude, after a minus sign when negative. */
  function IntToString(i: int): (s: string)
    ensures |s| >= 1
    ensures (s[0] == '-') == (i < 0)
    ensures i >= 0 ==> IsDecimal(s) && DecimalValue(s) == i
    ensures i < 0 ==> IsDecimal(s[1..]) && DecimalValue(s[1..]) == -i
  {
    if i < 0 then
      NatToStringRoundTrip(-i);
      assert ("-" + NatToString(-i))[1..] == NatToString(-i);
      "-" + NatToString(-i)
    else
      NatToStringRoundTrip(i);
      NatToString(i)
  }

  /** The value of a string of decimal digits; the inverse of `NatToString`. */
  function DecimalValue(s: string): nat
    requires IsDigits(s)
  {
    if s == [] then 0 else 10 * DecimalValue(s[..|s| - 1]) + (s[|s| - 1] as int - '0' as int)
  }

  /** Reading back `str(n)` gives `n`: the rendering loses nothing. */
  lemma {:induction false} NatToStringRoundTrip(n: nat)
    ensures DecimalValue(NatToString(n)) == n
    decreases n
  {
    if n >= 10 {
      var s := NatToString(n);
      assert s[..|s| - 1] == NatToString(n / 10);
      NatToStringRoundTrip(n / 10);
    }
  }

  /**
   * A decimal text is the rendering of its own value: `str(n)` is the only
   * digit string without a leading zero that reads back as `n`.
   */
  lemma {:induction false} DecimalIsNatToString(s: string)
    requires IsDecimal(s)
    ensures NatToString(DecimalValue(s)) == s
    decreases |s|
  {
    var d := s[|s| - 1] as int - '0' as int;
    if |s| == 1 {
      assert s[..0] == [];
      assert DecimalValue(s) == d;
      assert [DigitChar(d)] == s;
    } else {
      var front := s[..|s| - 1];
      assert front[0] == s[0];
      assert IsDecimal(front);
      LeadingDigitPositive(front);
      DecimalIsNatToString(front);
      var v := DecimalValue(s);
      assert v == 10 * DecimalValue(front) + d;
      assert v / 10 == DecimalValue(front) && v % 10 == d;
      assert NatToString(v) == NatToString(v / 10) + [DigitChar(v % 10)];
      assert s == front + [s[|s| - 1]];
    }
  }

  /** Digits that do not start with `0` have a positive value. */
  lemma {:induction false} LeadingDigitPositive(s: string)
    requires |s| >= 1 && IsDigits(s) && s[0] != '0'
    ensures DecimalValue(s) >= 1
    decreases |s|
  {
    var front := s[..|s| - 1];
    if |s| == 1 {
      assert front == [];
    } else {
      assert front[0] == s[0];
      LeadingDigitPositive(front);
    }
  }
}
