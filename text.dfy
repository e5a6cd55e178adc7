/**
 * The bits of Python string handling the task code relies on: `str.strip()`
 * and zero-padded decimal formatting.
 */
module PyText {

  /** `c.isspace()` in Python: the whitespace characters of the Unicode database. */
  predicate IsSpace(c: char) {
    || '\t' <= c <= '\r'
    || '\U{1C}' <= c <= '\U{1F}'
    || c == ' ' || c == '\U{85}' || c == '\U{A0}' || c == '\U{1680}'
    || '\U{2000}' <= c <= '\U{200A}'
    || c == '\U{2028}' || c == '\U{2029}' || c == '\U{202F}' || c == '\U{205F}' || c == '\U{3000}'
  }

  predicate AllSpace(s: string) {
    forall i :: 0 <= i < |s| ==> IsSpace(s[i])
  }

  /** Neither end of `s` is whitespace. */
  predicate Trimmed(s: string) {
    s == [] || (!IsSpace(s[0]) && !IsSpace(s[|s| - 1]))
  }

  /** The first position at or after `i` that is not whitespace, or `|s|`. */
  function SkipSpaces(s: string, i: nat): (k: nat)
    requires i <= |s|
    ensures i <= k <= |s|
    ensures forall m :: i <= m < k ==> IsSpace(s[m])
    ensures k < |s| ==> !IsSpace(s[k])
    decreases |s| - i
  {
    if i < |s| && IsSpace(s[i]) then SkipSpaces(s, i + 1) else i
  }

  /** The position just after the last non-whitespace character of `s[lo..j]`, or `lo`. */
  function BackSpaces(s: string, lo: nat, j: nat): (k: nat)
    requires lo <= j <= |s|
    ensures lo <= k <= j
    ensures forall m :: k <= m < j ==> IsSpace(s[m])
    ensures k > lo ==> !IsSpace(s[k - 1])
    decreases j
  {
    if j > lo && IsSpace(s[j - 1]) then BackSpaces(s, lo, j - 1) else j
  }

  /** `s.strip()`: what is left once the leading and the trailing whitespace are gone. */
  function Strip(s: string): (r: string)
    ensures |r| <= |s| && Trimmed(r)
    ensures r == [] <==> AllSpace(s)
  {
    var lo := SkipSpaces(s, 0);
    var hi := BackSpaces(s, lo, |s|);
    assert lo == hi ==> lo == |s|;
    s[lo..hi]
  }

  /** Every string is some whitespace, then its stripped form, then some whitespace. */
  lemma StripSplit(s: string) returns (a: string, b: string)
    ensures AllSpace(a) && AllSpace(b) && s == a + Strip(s) + b
  {
    var lo := SkipSpaces(s, 0);
    var hi := BackSpaces(s, lo, |s|);
    a, b := s[..lo], s[hi..];
    assert Strip(s) == s[lo..hi];
    assert s == a + s[lo..hi] + b;
    forall i | 0 <= i < |a| ensures IsSpace(a[i]) { assert a[i] == s[i]; }
    forall i | 0 <= i < |b| ensures IsSpace(b[i]) { assert b[i] == s[hi + i]; }
  }

  /** Stripping removes exactly the surrounding whitespace. */
  lemma StripPadded(p: string, s: string, q: string)
    requires AllSpace(p) && AllSpace(q) && Trimmed(s)
    ensures Strip(p + s + q) == s
  {
    var x := p + s + q;
    var lo := SkipSpaces(x, 0);
    var hi := BackSpaces(x, lo, |x|);
    if s == [] {
      assert forall m :: 0 <= m < |x| ==> IsSpace(x[m]) by {
        forall m | 0 <= m < |x| ensures IsSpace(x[m]) {
          if m < |p| { assert x[m] == p[m]; } else { assert x[m] == q[m - |p|]; }
        }
      }
      assert lo == |x|;
    } else {
      assert x[|p|] == s[0];
      assert forall m :: 0 <= m < |p| ==> x[m] == p[m];
      assert lo == |p|;
      assert x[|p| + |s| - 1] == s[|s| - 1];
      assert forall m :: |p| + |s| <= m < |x| ==> x[m] == q[m - |p| - |s|];
      assert hi == |p| + |s|;
      assert x[lo..hi] == s;
    }
  }

  lemma AllSpaceConcat(a: string, b: string)
    requires AllSpace(a) && AllSpace(b)
    ensures AllSpace(a + b)
  {
    forall i | 0 <= i < |a + b| ensures IsSpace((a + b)[i]) {
      if i < |a| { assert (a + b)[i] == a[i]; } else { assert (a + b)[i] == b[i - |a|]; }
    }
  }

  lemma Regroup(p: string, a: string, r: string, b: string, q: string)
    ensures p + (a + r + b) + q == (p + a) + r + (b + q)
  {
  }

  /** Extra whitespace around an input does not change what `strip()` yields. */
  lemma StripIgnoresPadding(p: string, s: string, q: string)
    requires AllSpace(p) && AllSpace(q)
    ensures Strip(p + s + q) == Strip(s)
  {
    var a, b := StripSplit(s);
    var r := Strip(s);
    AllSpaceConcat(p, a);
    AllSpaceConcat(b, q);
    Regroup(p, a, r, b, q);
    StripPadded(p + a, r, b + q);
  }

  /** `strip()` is idempotent. */
  lemma StripIdempotent(s: string)
    ensures Strip(Strip(s)) == Strip(s)
  {
    var r := Strip(s);
    assert [] + r + [] == r;
    StripPadded([], r, []);
  }

  // ----- decimal digits -----

  predicate IsDigit(c: char) {
    '0' <= c <= '9'
  }

  predicate IsDigits(s: string) {
    forall i :: 0 <= i < |s| ==> IsDigit(s[i])
  }

  function DigitChar(d: nat): (c: char)
    requires d < 10
    ensures IsDigit(c) && c as int - '0' as int == d
  {
    ('0' as int + d) as char
  }

  /** The number a run of decimal digits denotes (`int(s)`). */
  function DigitsValue(s: string): nat
    requires IsDigits(s)
  {
    if s == [] then 0 else DigitsValue(s[..|s| - 1]) * 10 + (s[|s| - 1] as int - '0' as int)
  }

  /** Two-digit zero-padded decimal, for `n < 100`. */
  function Pad2(n: nat): (r: string)
    requires n < 100
    ensures |r| == 2 && IsDigits(r) && DigitsValue(r) == n
  {
    var r := [DigitChar(n / 10), DigitChar(n % 10)];
    assert r[..1][..0] == [];
    assert DigitsValue(r[..1]) == n / 10;
    r
  }

  /** Four-digit zero-padded decimal, for `n < 10000`. */
  function Pad4(n: nat): (r: string)
    requires n < 10000
    ensures |r| == 4 && IsDigits(r) && DigitsValue(r) == n
  {
    var a, b, c := n / 1000, n / 100, n / 10;
    assert a == b / 10 && b == c / 10;
    var r := [DigitChar(a), DigitChar(b % 10), DigitChar(c % 10), DigitChar(n % 10)];
    assert r[..3][..2][..1][..0] == [];
    assert r[..3][..2] == r[..2] && r[..2][..1] == r[..1];
    assert DigitsValue(r[..1]) == a;
    assert DigitsValue(r[..2]) == a * 10 + b % 10 == b;
    assert DigitsValue(r[..3]) == b * 10 + c % 10 == c;
    r
  }
}
