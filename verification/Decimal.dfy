/** Decimal rendering of natural numbers, as Python's `str` and JavaScript's string
    concatenation print them. */
module Decimal {
  predicate IsDigit(c: char) {
    '0' <= c <= '9'
  }

  predicate AllDigits(s: string) {
    forall i | 0 <= i < |s| :: IsDigit(s[i])
  }

  function DigitChar(d: nat): (c: char)
    requires d < 10
    ensures IsDigit(c) && (c - '0') as int == d
  {
    '0' + d as char
  }

  function ToString(n: nat): (s: string)
    ensures s != [] && AllDigits(s)
  {
    if n < 10 then [DigitChar(n)] else ToString(n / 10) + [DigitChar(n % 10)]
  }

  function Parse(s: string): nat
    requires AllDigits(s)
  {
    if s == [] then 0 else Parse(s[..|s| - 1]) * 10 + (s[|s| - 1] - '0') as int
  }

  lemma {:induction false} ParseToString(n: nat)
    ensures Parse(ToString(n)) == n
  {
    if n >= 10 {
      ParseToString(n / 10);
      assert ToString(n)[..|ToString(n)| - 1] == ToString(n / 10);
    }
  }

  function Power(k: nat): (p: nat)
    ensures p > 0
  {
    if k == 0 then 1 else 10 * Power(k - 1)
  }

  /** Counted from the end, the digits of a rendered number are its decimal digits, and there is no
      leading zero. */
  lemma {:induction false} DigitsMeaning(n: nat, k: nat)
    requires k < |ToString(n)|
    ensures (ToString(n)[|ToString(n)| - 1 - k] - '0') as int == n / Power(k) % 10
    ensures n < Power(|ToString(n)|) && (n > 0 ==> Power(|ToString(n)| - 1) <= n)
  {
    var s := ToString(n);
    if n >= 10 {
      DigitsMeaning(n / 10, if k == 0 then 0 else k - 1);
      if k > 0 {
        DivideTwice(n, Power(k - 1));
      }
    }
  }

  lemma DivideTwice(n: nat, p: nat)
    requires p > 0
    ensures n / (10 * p) == n / 10 / p
  {
    var q, r := n / 10, n % 10;
    var a, b := q / p, q % p;
    assert n == 10 * (a * p + b) + r == a * (10 * p) + (10 * b + r);
    assert 10 * b + r < 10 * p;
    QuotientIsUnique(n, 10 * p, a, 10 * b + r);
  }

  lemma QuotientIsUnique(n: nat, d: nat, a: nat, r: nat)
    requires d > 0 && n == a * d + r && r < d
    ensures n / d == a
  {
    var q := n / d;
    assert q * d <= n < (q + 1) * d && a * d <= n < (a + 1) * d;
    MultiplesGrow(q + 1, a, d);
    MultiplesGrow(a + 1, q, d);
  }

  lemma MultiplesGrow(x: nat, y: nat, d: nat)
    ensures x <= y ==> x * d <= y * d
  {
  }

  /** A rendered number can be cut off the end of a text whenever the text before it does not
      end in a digit: both the text and the number are determined. */
  lemma {:induction false} SplitIsUnique(a: string, b: string, k: nat, m: nat)
    requires a != [] && !IsDigit(a[|a| - 1])
    requires b != [] && !IsDigit(b[|b| - 1])
    requires a + ToString(k) == b + ToString(m)
    ensures a == b && k == m
  {
    var s, ks, ms := a + ToString(k), ToString(k), ToString(m);
    assert s == b + ms;
    assert !IsDigit(s[|a| - 1]) && !IsDigit(s[|b| - 1]);
    assert forall i | |a| <= i < |s| :: s[i] == ks[i - |a|];
    assert forall i | |b| <= i < |s| :: s[i] == ms[i - |b|];
    assert |a| == |b|;
    assert a == s[..|a|] && b == s[..|b|];
    assert ks == s[|a|..] && ms == s[|b|..];
    ParseToString(k);
    ParseToString(m);
  }
}
