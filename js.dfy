/** The JavaScript built-ins the wheel's logic relies on, with their
    ECMAScript meaning: String.prototype.trim and the `%` operator on
    numbers. Numbers are modelled as exact reals. */
module Js {

  /** WhiteSpace and LineTerminator code points of ECMAScript, the set that
      String.prototype.trim strips: TAB, VT, FF, ZWNBSP, every Zs space and
      LF, CR, LS, PS. */
  predicate IsWhitespace(c: char)
  {
    c == '\t' || c == '\n' || c == '\U{000B}' || c == '\U{000C}' || c == '\r'
    || c == ' ' || c == '\U{00A0}' || c == '\U{1680}'
    || ('\U{2000}' <= c <= '\U{200A}')
    || c == '\U{2028}' || c == '\U{2029}' || c == '\U{202F}' || c == '\U{205F}'
    || c == '\U{3000}' || c == '\U{FEFF}'
  }

  predicate AllWhitespace(s: string)
  {
    forall i :: 0 <= i < |s| ==> IsWhitespace(s[i])
  }

  /** Neither end of s is white space (vacuously true of ""). */
  predicate IsTrimmed(s: string)
  {
    s == [] || (!IsWhitespace(s[0]) && !IsWhitespace(s[|s| - 1]))
  }

  /** Number of white-space characters s starts with. */
  function LeadingWhitespace(s: string): (k: nat)
    ensures k <= |s|
    ensures forall i :: 0 <= i < k ==> IsWhitespace(s[i])
    ensures k < |s| ==> !IsWhitespace(s[k])
  {
    if s != [] && IsWhitespace(s[0]) then 1 + LeadingWhitespace(s[1..]) else 0
  }

  /** Number of white-space characters s ends with. */
  function TrailingWhitespace(s: string): (k: nat)
    ensures k <= |s|
    ensures forall i :: |s| - k <= i < |s| ==> IsWhitespace(s[i])
    ensures k < |s| ==> !IsWhitespace(s[|s| - 1 - k])
  {
    if s != [] && IsWhitespace(s[|s| - 1]) then 1 + TrailingWhitespace(s[..|s| - 1]) else 0
  }

  /** String.prototype.trim: s without its leading and trailing white
      space. */
  function Trim(s: string): (r: string)
    ensures IsTrimmed(r)
    // implied by the slice clause below; kept so that callers such as
    // Service.TidyKeepsClean get it without instantiating the existential
    ensures forall c :: c in r ==> c in s
    ensures r == [] <==> AllWhitespace(s)
    ensures exists i, j :: 0 <= i <= j <= |s| && r == s[i..j] && AllWhitespace(s[..i]) && AllWhitespace(s[j..])
  {
    var t := s[LeadingWhitespace(s)..];
    var r := t[..|t| - TrailingWhitespace(t)];
    TrimInfix(s);
    assert r == [] ==> t == [];
    assert AllWhitespace(s) ==> t == [] by {
      if t != [] {
        assert t[0] == s[LeadingWhitespace(s)];
      }
    }
    r
  }

  /** The trimmed string is the slice of s between its leading and its
      trailing white space. */
  lemma TrimInfix(s: string)
    ensures var i := LeadingWhitespace(s);
      var t := s[i..];
      var j := i + |t| - TrailingWhitespace(t);
      t[..|t| - TrailingWhitespace(t)] == s[i..j] && AllWhitespace(s[..i]) && AllWhitespace(s[j..])
  {
    var i := LeadingWhitespace(s);
    var t := s[i..];
    var k := TrailingWhitespace(t);
    LeadingPart(s, i);
    TrailingPart(s, i, t, k);
    SliceOfSuffix(s, i, |t| - k);
  }

  lemma SliceOfSuffix(s: string, i: nat, m: nat)
    requires i + m <= |s|
    ensures s[i..][..m] == s[i..i + m]
  {
  }

  lemma LeadingPart(s: string, i: nat)
    requires i == LeadingWhitespace(s)
    ensures AllWhitespace(s[..i])
  {
    forall m | 0 <= m < |s[..i]| ensures IsWhitespace(s[..i][m]) {
      assert s[..i][m] == s[m];
    }
  }

  lemma TrailingPart(s: string, i: nat, t: string, k: nat)
    requires i <= |s| && t == s[i..] && k == TrailingWhitespace(t)
    ensures AllWhitespace(s[i + |t| - k..])
  {
    var j := i + |t| - k;
    forall m | 0 <= m < |s[j..]| ensures IsWhitespace(s[j..][m]) {
      assert s[j..][m] == t[|t| - k + m];
    }
  }

  /** A string whose ends are not white space is left alone by trim. */
  lemma TrimOfTrimmed(s: string)
    requires IsTrimmed(s)
    ensures Trim(s) == s
  {
  }

  /** A white-space character in front does not change the trimmed form. */
  lemma TrimLeadingSpace(w: char, x: string)
    requires IsWhitespace(w)
    ensures Trim([w] + x) == Trim(x)
  {
    assert ([w] + x)[1..] == x;
    assert ([w] + x)[LeadingWhitespace([w] + x)..] == x[LeadingWhitespace(x)..];
  }

  /** Math.trunc on a real. */
  function Trunc(x: real): (t: int)
    ensures x >= 0.0 ==> t as real <= x < t as real + 1.0
    ensures x < 0.0 ==> t as real - 1.0 < x <= t as real
  {
    if x >= 0.0 then x.Floor else -((-x).Floor)
  }

  /** x degrees is a whole number of turns. */
  predicate IsWholeTurns(x: real)
  {
    x == ((x / 360.0).Floor as real) * 360.0
  }

  /** The `%` operator with the constant divisor 360, as the wheel uses it
      on angles in degrees: the remainder of a truncating division, which
      takes the sign of the dividend. */
  function Remainder360(a: real): (r: real)
    ensures a >= 0.0 ==> 0.0 <= r < 360.0
    ensures a < 0.0 ==> -360.0 < r <= 0.0
    ensures IsWholeTurns(a - r)
  {
    var t := Trunc(a / 360.0);
    TruncBounds(a, t);
    a - (t as real) * 360.0
  }

  /** The truncated quotient by 360 brackets the dividend. */
  lemma TruncBounds(a: real, t: int)
    requires t == Trunc(a / 360.0)
    ensures a >= 0.0 ==> (t as real) * 360.0 <= a < (t as real) * 360.0 + 360.0
    ensures a < 0.0 ==> (t as real) * 360.0 - 360.0 < a <= (t as real) * 360.0
    ensures IsWholeTurns((t as real) * 360.0)
  {
    var q := a / 360.0;
    assert q * 360.0 == a;
    assert ((t as real) * 360.0) / 360.0 == t as real;
  }

  /** The `%` operator on integral numbers with a positive divisor: the sign
      follows the dividend, so it agrees with Dafny's `%` on non-negative
      dividends only. */
  function IntRemainder(a: int, n: int): (r: int)
    requires n > 0
    ensures a >= 0 ==> 0 <= r < n
    ensures a < 0 ==> -n < r <= 0
    ensures 0 <= a < n ==> r == a
    ensures (a - r) % n == 0
  {
    if a >= 0 then
      assert a < n ==> a % n == a by { if a < n { SmallRemainder(a, n); } }
      MultipleLeft(a, n);
      a % n
    else
      MultipleLeft(-a, n);
      NegatedMultiple(-a - (-a) % n, n);
      -((-a) % n)
  }

  /** Taking away the remainder leaves a multiple of n. */
  lemma MultipleLeft(a: int, n: int)
    requires a >= 0 && n > 0
    ensures (a - a % n) % n == 0
  {
    var q := a / n;
    assert a - a % n == n * q;
    MultipleHasNoRemainder(q, n);
  }

  lemma MultipleHasNoRemainder(q: int, n: int)
    requires n > 0
    ensures (n * q) % n == 0
  {
    DivModUnique(n * q, n, q, 0);
  }

  /** Euclidean division has one quotient and remainder. */
  lemma DivModUnique(m: int, n: int, q: int, r: int)
    requires n > 0 && 0 <= r < n && m == q * n + r
    ensures m / n == q && m % n == r
  {
    var d := q - m / n;
    assert d * n == m % n - r;
    MultipleBounds(d, n);
  }

  /** A non-zero multiple of n is at least n away from zero. */
  lemma MultipleBounds(d: int, n: int)
    requires n > 0
    ensures d >= 1 ==> d * n >= n
    ensures d <= -1 ==> d * n <= -n
  {
    assert d * n == (d - 1) * n + n;
    assert d * n == -((-d - 1) * n) - n;
    assert d >= 1 ==> (d - 1) * n >= 0;
    assert d <= -1 ==> (-d - 1) * n >= 0;
  }

  lemma NegatedMultiple(m: int, n: int)
    requires n > 0 && m % n == 0
    ensures (-m) % n == 0
  {
    var q := m / n;
    assert m == q * n + m % n;
    DivModUnique(-m, n, -q, 0);
  }

  lemma SmallRemainder(a: int, n: int)
    requires 0 <= a < n
    ensures a % n == a
  {
  }
}
