/** Strings as the app builds and inspects them: decimal rendering
    of a number inside a template literal, and `String.includes`. */
module Text {

  predicate IsDigit(c: char) {
    '0' <= c <= '9'
  }

  function DigitChar(d: int): (c: char)
    requires 0 <= d < 10
    ensures IsDigit(c)
  {
    "0123456789"[d]
  }

  /** Decimal rendering of a natural number, as `${n}` gives it. */
  function NatToString(n: nat): (r: string)
    ensures |r| >= 1
    ensures forall j :: 0 <= j < |r| ==> IsDigit(r[j])
    ensures (|r| == 1) == (n < 10)
  {
    if n < 10 then [DigitChar(n)] else NatToString(n / 10) + [DigitChar(n % 10)]
  }

  /** Different numbers render differently. */
  lemma {:induction false} NatToStringInjective(n: nat, k: nat)
    requires NatToString(n) == NatToString(k)
    ensures n == k
    decreases n
  {
    if n >= 10 {
      var r := NatToString(n);
      assert r[|r| - 1] == DigitChar(n % 10) == DigitChar(k % 10);
      assert r[..|r| - 1] == NatToString(n / 10) == NatToString(k / 10);
      NatToStringInjective(n / 10, k / 10);
    }
  }

  /** The value of a decimal digit. */
  function DigitValue(c: char): int
    requires IsDigit(c)
  {
    c as int - '0' as int
  }

  lemma DigitCharValue(d: int)
    requires 0 <= d < 10
    ensures DigitValue(DigitChar(d)) == d
  {
  }

  /** The number a string of decimal digits spells, most significant
      digit first. */
  function DigitsValue(s: string): int
    requires forall j :: 0 <= j < |s| ==> IsDigit(s[j])
    decreases |s|
  {
    if |s| == 0 then 0
    else 10 * DigitsValue(s[..|s| - 1]) + DigitValue(s[|s| - 1])
  }

  /** The rendering spells the number in base 10. */
  lemma {:induction false} NatToStringValue(n: nat)
    ensures DigitsValue(NatToString(n)) == n
    decreases n
  {
    DigitCharValue(n % 10);
    if n >= 10 {
      var r := NatToString(n);
      assert r[..|r| - 1] == NatToString(n / 10);
      NatToStringValue(n / 10);
    }
  }

  /** `p` occurs in `s` starting at index `i`. */
  predicate MatchesAt(s: string, p: string, i: int)
  {
    0 <= i && i + |p| <= |s| && s[i..i + |p|] == p
  }

  /** `s.includes(p)`. */
  predicate Contains(s: string, p: string) {
    exists i | 0 <= i <= |s| :: MatchesAt(s, p, i)
  }

  lemma ContainsAt(s: string, p: string, i: int)
    requires 0 <= i && i + |p| <= |s|
    requires forall k | 0 <= k < |p| :: s[i + k] == p[k]
    ensures Contains(s, p)
  {
    assert s[i..i + |p|] == p;
    assert MatchesAt(s, p, i);
  }

  /** A pattern holding a character that `s` lacks does not occur in `s`. */
  lemma MissingChar(s: string, p: string, c: char)
    requires c in p && c !in s
    ensures !Contains(s, p)
  {
  }

  /** If the first character of `p` occurs in `s` only at index `k`, and
      `p` does not occur there, then `p` does not occur in `s`. */
  lemma OnlyCandidate(s: string, p: string, k: int)
    requires |p| > 0 && 0 <= k < |s|
    requires p[0] !in s[..k] && p[0] !in s[k + 1..]
    requires !MatchesAt(s, p, k)
    ensures !Contains(s, p)
  {
  }

  /** A text containing `p + q` contains `q`. */
  lemma ContainsTail(s: string, p: string, q: string)
    ensures Contains(s, p + q) ==> Contains(s, q)
  {
    if Contains(s, p + q) {
      var i :| 0 <= i <= |s| && MatchesAt(s, p + q, i);
      assert s[i + |p|..i + |p| + |q|] == s[i..i + |p + q|][|p|..] == q;
      assert MatchesAt(s, q, i + |p|);
    }
  }

  /** `MissingChar` for a number rendered between two fixed texts. */
  lemma MissingCharAround(a: string, d: string, b: string, p: string, c: char)
    requires forall x :: x in d ==> IsDigit(x)
    requires c in p && !IsDigit(c) && c !in a && c !in b
    ensures !Contains(a + d + b, p)
  {
    MissingChar(a + d + b, p, c);
  }

  /** A text contains whatever it ends with. */
  lemma ContainsEnd(a: string, p: string)
    ensures Contains(a + p, p)
  {
    assert (a + p)[|a|..] == p;
    assert MatchesAt(a + p, p, |a|);
  }

  /** `OnlyCandidate` for a number rendered between two fixed texts, the
      one candidate lying inside the first text and differing from `p`
      at index `j`. */
  lemma OnlyCandidateAround(a: string, d: string, b: string, p: string, k: int, j: int)
    requires forall x :: x in d ==> IsDigit(x)
    requires |p| > 0 && !IsDigit(p[0]) && 0 <= k && k + |p| <= |a|
    requires p[0] !in a[..k] && p[0] !in a[k + 1..] && p[0] !in b
    requires 0 <= j < |p| && a[k + j] != p[j]
    ensures !Contains(a + d + b, p)
  {
    var s := a + d + b;
    assert s[..k] == a[..k];
    assert s[k + 1..] == a[k + 1..] + d + b;
    assert s[k..k + |p|][j] == a[k + j];
    OnlyCandidate(s, p, k);
  }
}
