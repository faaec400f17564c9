/**
 * Products and quotients that the solver needs spelled out: monotone products, one step of a product,
 * and quotients that are determined by their remainder.
 */
module Arithmetic {

  lemma MulMono(a: nat, b: nat, c: nat)
    requires a <= b
    ensures a * c <= b * c
  {}

  lemma MulPred(n: nat, c: nat)
    requires n > 0
    ensures n * c == (n - 1) * c + c
  {}

  lemma MulStep(d: nat, a: nat, b: nat)
    ensures a < b ==> d * a + d <= d * b
  {
    if a < b {
      var gap := b - a - 1;
      assert d * b == d * a + d + d * gap;
    }
  }

  /** Quotient and remainder are the only pair that fits. */
  lemma DivUnique(n: nat, d: nat, q: nat, r: nat)
    requires d > 0 && n == d * q + r && r < d
    ensures n / d == q && n % d == r
  {
    var q', r' := n / d, n % d;
    assert n == d * q' + r';
    MulStep(d, q, q');
    MulStep(d, q', q);
  }

  function Mul(x: real, y: real): real { x * y }

  function Square(x: real): real { Mul(x, x) }
}
