/** The decimal helpers of utils.hpp: scale by ten, divide, then round the last digit away. */
module Rounding {
  import opened Arithmetic
  import opened Tables
  import opened Ledger

  /** C++ integer division, which truncates toward zero. */
  function TruncDiv(a: int, b: int): int
    requires b != 0
  {
    if a >= 0 then a / b else -(-a / b)
  }

  /** `multiply_decimal<int64_t>`: None is the overflow abort. */
  function MultiplyDecimal(a: int, b: int, precision: int): Option<int>
    requires precision != 0
  {
    var tmp := TruncDiv(10 * a * b, precision);
    if INT64_MIN <= tmp <= INT64_MAX then Some(TruncDiv(tmp + 5, 10)) else None
  }

  /** `divide_decimal<int64_t>` is the same computation with the last two roles exchanged. */
  function DivideDecimal(a: int, b: int, precision: int): Option<int>
    requires b != 0
  {
    var tmp := TruncDiv(10 * a * precision, b);
    if INT64_MIN <= tmp <= INT64_MAX then Some(TruncDiv(tmp + 5, 10)) else None
  }

  /** x / c rounded to the nearest integer, halves upward: floor(x/c + 1/2). */
  function Nearest(x: nat, c: nat): nat
    requires c > 0
  {
    (2 * x + c) / (2 * c)
  }

  /** Rounding twice, first to a tenth and then to a unit, is the same as rounding once. */
  lemma TwoStageIsNearest(x: nat, c: nat)
    requires c > 0
    ensures ((10 * x) / c + 5) / 10 == Nearest(x, c)
  {
    var q, m := (10 * x) / c, (10 * x) % c;
    var r, t := (q + 5) / 10, (q + 5) % 10;
    Recombine(x, c, q, m, r, t);
    DivUnique(2 * x + c, 2 * c, r);
  }

  lemma Recombine(x: nat, c: nat, q: nat, m: nat, r: nat, t: nat)
    requires 10 * x == c * q + m && 0 <= m < c
    requires q + 5 == 10 * r + t && 0 <= t < 10
    ensures (2 * c) * r <= 2 * x + c < (2 * c) * r + 2 * c
  {
    calc {
      10 * (2 * x + c);
      2 * (c * q + m) + 10 * c;
      2 * (c * (q + 5)) + 2 * m;
      2 * (c * (10 * r + t)) + 2 * m;
      10 * ((2 * c) * r) + 2 * (c * t) + 2 * m;
    }
    MulOrder(c, 0, t);
    MulOrder(c, t, 9);
  }

  /** For non-negative operands both helpers abort exactly when the tenths do not fit an int64,
      and otherwise return the true quotient rounded half up. */
  lemma MultiplyDecimalIsNearest(a: nat, b: nat, c: nat)
    requires c > 0
    ensures MultiplyDecimal(a, b, c) == if (10 * (a * b)) / c <= INT64_MAX then Some(Nearest(a * b, c)) else None
    ensures DivideDecimal(a, c, b) == MultiplyDecimal(a, b, c)
  {
    TwoStageIsNearest(a * b, c);
    assert 10 * a * b == 10 * (a * b);
  }

  /** Nearest really is floor(x/c + 1/2), read over the reals. */
  lemma NearestIsFloorOfHalfMore(x: nat, c: nat)
    requires c > 0
    ensures Nearest(x, c) == (x as real / c as real + 0.5).Floor
  {
    var r, m := Nearest(x, c), (2 * x + c) % (2 * c);
    assert 2 * x + c == 2 * (c * r) + m by {
      assert 2 * x + c == (2 * c) * r + m;
    }
    assert (c * r) as real == c as real * r as real;
    RealRound(x as real, c as real, r as real);
  }

  lemma RealRound(x: real, c: real, r: real)
    requires 0.0 < c && 2.0 * (c * r) <= 2.0 * x + c < 2.0 * (c * r) + 2.0 * c
    ensures r <= x / c + 0.5 < r + 1.0
  {
    var z := x / c + 0.5 - r;
    assert c * (x / c) == x;
    assert c * z == x + 0.5 * c - c * r;
    RealQuotient(c, z);
  }

  lemma RealQuotient(d: real, z: real)
    requires 0.0 < d && 0.0 <= d * z < d
    ensures 0.0 <= z < 1.0
  {
    assert d * (z - 1.0) < 0.0;
  }

  /** Rounding keeps order. */
  lemma NearestMonotone(x: nat, y: nat, c: nat)
    requires c > 0 && x <= y
    ensures Nearest(x, c) <= Nearest(y, c)
  {
    NearestBounds(x, c);
    NearestBounds(y, c);
    MulOrder(2 * c, Nearest(y, c) + 1, Nearest(x, c));
  }

  lemma NearestBounds(x: nat, c: nat)
    requires c > 0
    ensures (2 * c) * Nearest(x, c) <= 2 * x + c < (2 * c) * (Nearest(x, c) + 1)
  {
    assert 2 * x + c == (2 * c) * Nearest(x, c) + (2 * x + c) % (2 * c);
  }

  /** A share of at most the whole never rounds above the whole, and the whole rounds to itself. */
  lemma NearestOfShare(a: nat, k: nat, c: nat)
    requires c > 0 && k <= c
    ensures Nearest(a * k, c) <= a
    ensures Nearest(a * c, c) == a
  {
    assert (2 * c) * a == 2 * (a * c);
    DivUnique(2 * (a * c) + c, 2 * c, a);
    assert a * k <= a * c;
    NearestMonotone(a * k, a * c, c);
  }
}
