// Powers of two, and facts about quotients that the solver does not find by
// itself.
module Arith {
  function Pow2(k: nat): (p: nat)
    ensures p > 0
  {
    if k == 0 then 1 else 2 * Pow2(k - 1)
  }

  lemma Regroup(t: nat, b: nat, u: nat, a: nat)
    ensures (t * b + u) * a == t * (a * b) + u * a
  {
    assert (t * b) * a == t * (b * a);
  }

  lemma LastDigit(u: nat, b: nat, r: nat, a: nat)
    requires u < b && r < a
    ensures u * a + r < a * b
  {
    assert (u + 1) * a <= b * a;
  }

  lemma TwoDigits(n: nat, a: nat, b: nat, q: nat, r: nat, t: nat, u: nat)
    requires n == q * a + r && r < a && q == t * b + u && u < b
    ensures a * b > 0 && n / (a * b) == t
  {
    Regroup(t, b, u, a);
    LastDigit(u, b, r, a);
    QuotientIs(n, a * b, t, u * a + r);
  }

  lemma DivDiv(n: nat, a: nat, b: nat, c: nat)
    requires a > 0 && b > 0 && c == a * b
    ensures n / a / b == n / c
  {
    var q := n / a;
    TwoDigits(n, a, b, q, n % a, q / b, q % b);
  }

  lemma QuotientIs(n: nat, c: nat, t: nat, r: nat)
    requires c > 0 && n == t * c + r && r < c
    ensures n / c == t
  {
    var q := n / c;
    assert n == q * c + n % c;
    if q < t {
      MulLe(q + 1, t, c);
      assert false;
    } else if q > t {
      MulLe(t + 1, q, c);
      assert false;
    }
  }

  lemma MulLe(x: nat, y: nat, p: nat)
    requires x <= y
    ensures x * p <= y * p
  {
  }

  lemma RemainderIs(n: nat, c: nat, t: nat, r: nat)
    requires c > 0 && n == t * c + r && r < c
    ensures n % c == r
  {
    QuotientIs(n, c, t, r);
    assert n == n / c * c + n % c;
  }
}
