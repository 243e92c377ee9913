/** Facts about products and quotients that several modules need. */
module Arithmetic {

  lemma MulAtLeast(t: int, d: nat)
    requires t >= 1
    ensures t * d >= d
  {
  }

  lemma QuotientIs(n: nat, d: nat, q: int, r: int)
    requires d > 0 && n == q * d + r && 0 <= r < d
    ensures n / d == q && n % d == r
  {
    var t := n / d - q;
    assert n == (n / d) * d + n % d;
    assert t * d == (n / d) * d - q * d;
    if t >= 1 {
      MulAtLeast(t, d);
    } else if t <= -1 {
      MulAtLeast(-t, d);
    }
  }

  lemma MulNonNegative(x: int, d: int)
    requires x >= 0 && d >= 0
    ensures x * d >= 0
  {
  }
}
