/** The facts about products and quotients that the other modules share. */
module Arithmetic {

  function Quotient(n: nat, d: nat): nat
    requires d > 0
  {
    n / d
  }

  lemma MulOrder(d: int, a: int, b: int)
    requires d >= 0
    ensures a <= b ==> d * a <= d * b
  {
  }

  lemma DivUnique(x: int, d: int, q: int)
    requires d > 0 && d * q <= x < d * q + d
    ensures x / d == q
  {
    assert x == d * (x / d) + x % d;
    MulOrder(d, q + 1, x / d);
    MulOrder(d, x / d + 1, q);
  }
}
