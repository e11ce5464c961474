/**
 * The string operations the PHP code relies on: decimal rendering of integers
 * (string concatenation with `.`), prefix/suffix/substring tests (`preg_match`
 * anchored at the end, `strpos !== FALSE`) and `str_replace`.
 */
module Strings {

  predicate IsDigit(c: char) {
    '0' <= c <= '9'
  }

  predicate AllDigits(s: string) {
    forall i :: 0 <= i < |s| ==> IsDigit(s[i])
  }

  function DigitChar(d: nat): (c: char)
    requires d < 10
    ensures IsDigit(c) && (c as int) - ('0' as int) == d
  {
    (('0' as int) + d) as char
  }

  /** Decimal rendering of a natural number, as PHP prints an integer. */
  function NatToString(n: nat): (r: string)
    ensures |r| >= 1 && AllDigits(r)
    ensures r[0] == '0' <==> n == 0
    decreases n
  {
    if n < 10 then [DigitChar(n)] else NatToString(n / 10) + [DigitChar(n % 10)]
  }

  /** Decimal rendering of an integer, with a leading minus sign when negative. */
  function IntToString(i: int): (r: string)
    ensures |r| >= 1
    ensures r[0] == '-' <==> i < 0
  {
    if i < 0 then "-" + NatToString(-i) else NatToString(i)
  }

  /** The value of a string of decimal digits. */
  function DigitsValue(s: string): nat
    requires AllDigits(s)
  {
    if s == [] then 0 else DigitsValue(s[..|s| - 1]) * 10 + ((s[|s| - 1] as int) - ('0' as int))
  }

  /** Reading back a rendered number gives the number. */
  lemma {:induction false} DigitsValueOfNatToString(n: nat)
    ensures DigitsValue(NatToString(n)) == n
    decreases n
  {
    if n >= 10 {
      var s := NatToString(n);
      assert s[..|s| - 1] == NatToString(n / 10);
      DigitsValueOfNatToString(n / 10);
    }
  }

  /** Distinct numbers render to distinct strings. */
  lemma NatToStringInjective(a: nat, b: nat)
    requires NatToString(a) == NatToString(b)
    ensures a == b
  {
    DigitsValueOfNatToString(a);
    DigitsValueOfNatToString(b);
  }

  predicate StartsWith(s: string, prefix: string) {
    |prefix| <= |s| && s[..|prefix|] == prefix
  }

  predicate EndsWith(s: string, suffix: string) {
    |suffix| <= |s| && s[|s| - |suffix|..] == suffix
  }

  /** `pat` occurs somewhere in `s` (PHP: `strpos($s, $pat) !== FALSE`). */
  predicate ContainsSub(s: string, pat: string)
    decreases |s|
  {
    StartsWith(s, pat) || (|s| > 0 && ContainsSub(s[1..], pat))
  }

  /** An occurrence has a position. */
  lemma {:induction false} ContainsSubAt(s: string, pat: string) returns (at: nat)
    requires ContainsSub(s, pat)
    ensures at + |pat| <= |s| && s[at..at + |pat|] == pat
    decreases |s|
  {
    if StartsWith(s, pat) {
      at := 0;
    } else {
      var k := ContainsSubAt(s[1..], pat);
      assert s[1..][k..k + |pat|] == s[k + 1..k + 1 + |pat|];
      at := k + 1;
    }
  }

  /** A pattern longer than the subject cannot occur in it. */
  lemma {:induction false} LongPatternAbsent(s: string, pat: string)
    requires |pat| > |s|
    ensures !ContainsSub(s, pat)
    decreases |s|
  {
    if |s| > 0 {
      LongPatternAbsent(s[1..], pat);
    }
  }

  /**
   * PHP `str_replace($pat, $rep, $s)`: every non-overlapping occurrence of `pat`,
   * scanning left to right, replaced by `rep`; an empty `pat` leaves `s` alone.
   */
  function ReplaceAll(s: string, pat: string, rep: string): (r: string)
    ensures !ContainsSub(s, pat) ==> r == s
    ensures s == pat && |pat| > 0 ==> r == rep
    decreases |s|
  {
    if |pat| == 0 || |s| < |pat| then s
    else if s[..|pat|] == pat then rep + ReplaceAll(s[|pat|..], pat, rep)
    else [s[0]] + ReplaceAll(s[1..], pat, rep)
  }
}
