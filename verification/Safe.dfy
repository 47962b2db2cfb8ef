/** safe<int64_t>: 64-bit arithmetic that aborts instead of overflowing. The guards are the source's
    own; that no guard itself overflows is part of what is checked here, since every intermediate
    value must be an int64. */
module Safe {
  import opened Arithmetic
  import opened Tables
  import opened Ledger
  import opened Rounding

  predicate Fits(x: int) { INT64_MIN <= x <= INT64_MAX }

  /** The result if it can be represented, and the abort otherwise. */
  function Exactly(x: int): Option<int64> {
    if Fits(x) then Some(x) else None
  }

  /** `a + b` aborts exactly when the sum is not an int64. */
  function Plus(a: int64, b: int64): (r: Option<int64>)
    ensures r == Exactly(a + b)
  {
    if b > 0 && (var room: int64 := INT64_MAX - b; a > room) then None
    else if b < 0 && (var room: int64 := INT64_MIN - b; a < room) then None
    else
      var sum: int64 := a + b;
      Some(sum)
  }

  /** `a - b` aborts exactly when the difference is not an int64. */
  function Minus(a: int64, b: int64): (r: Option<int64>)
    ensures r == Exactly(a - b)
  {
    if b > 0 && (var room: int64 := INT64_MIN + b; a < room) then None
    else if b < 0 && (var room: int64 := INT64_MAX + b; a > room) then None
    else
      var difference: int64 := a - b;
      Some(difference)
  }

  /** The four guards of `a * b`, one for each pair of signs. */
  predicate ProductOverflows(a: int64, b: int64) {
    if a > 0 then
      if b > 0 then a > TruncDiv(INT64_MAX, b)
      else b < TruncDiv(INT64_MIN, a)
    else
      if b > 0 then a < TruncDiv(INT64_MIN, b)
      else a != 0 && b < TruncDiv(INT64_MAX, a)
  }

  /** `a * b` aborts exactly when the product is not an int64. */
  function Times(a: int64, b: int64): (r: Option<int64>)
    ensures r == Exactly(a * b)
  {
    GuardsAreExact(a, b);
    if ProductOverflows(a, b) then None
    else
      var product: int64 := a * b;
      Some(product)
  }

  /** For a positive divisor, x is above the truncated quotient exactly when the product is above m. */
  lemma AboveQuotient(m: nat, d: nat, x: nat)
    requires d > 0
    ensures x > m / d <==> d * x > m
  {
    var q, t := m / d, m % d;
    assert m == d * q + t;
    if x > q { MulOrder(d, q + 1, x); } else { MulOrder(d, x, q); }
  }

  lemma GuardsAreExact(a: int, b: int)
    requires Fits(a) && Fits(b)
    ensures ProductOverflows(a, b) <==> !Fits(a * b)
  {
    if a > 0 {
      if b > 0 {
        AboveQuotient(INT64_MAX, b, a);
        assert b * a == a * b && a * b >= 0 by { MulOrder(a, 0, b); }
      } else {
        AboveQuotient(-INT64_MIN, a, -b);
        assert a * b == -(a * -b) && a * -b >= 0 by { MulOrder(a, 0, -b); }
      }
    } else if b > 0 {
      AboveQuotient(-INT64_MIN, b, -a);
      assert a * b == -(b * -a) && b * -a >= 0 by { MulOrder(b, 0, -a); }
    } else if a != 0 {
      QuotientByNegative(a);
      AboveQuotient(INT64_MAX, -a, -b);
      assert a * b == -a * -b && -a * -b >= 0 by { MulOrder(-a, 0, -b); }
    }
  }

  /** Truncated division by a negative number is the negated division by its magnitude. */
  lemma QuotientByNegative(a: int)
    requires a < 0
    ensures TruncDiv(INT64_MAX, a) == -(INT64_MAX / -a)
  {
  }

  /** The wrapper object. An assignment operator that aborts leaves the value as it was. */
  class SafeInt {
    var value: int64

    constructor (value: int64)
      ensures this.value == value
    {
      this.value := value;
    }

    method PlusAssign(b: int64) returns (ok: bool)
      modifies this
      ensures ok <==> Fits(old(value) + b)
      ensures value == if ok then old(value) + b else old(value)
    {
      var r := Plus(value, b);
      if r.Some? { value := r.value; }
      return r.Some?;
    }

    method MinusAssign(b: int64) returns (ok: bool)
      modifies this
      ensures ok <==> Fits(old(value) - b)
      ensures value == if ok then old(value) - b else old(value)
    {
      var r := Minus(value, b);
      if r.Some? { value := r.value; }
      return r.Some?;
    }

    method TimesAssign(b: int64) returns (ok: bool)
      modifies this
      ensures ok <==> Fits(old(value) * b)
      ensures value == if ok then old(value) * b else old(value)
    {
      var r := Times(value, b);
      if r.Some? { value := r.value; }
      return r.Some?;
    }

    method Increment() returns (ok: bool)
      modifies this
      ensures ok <==> old(value) != INT64_MAX
      ensures value == if ok then old(value) + 1 else old(value)
    {
      ok := PlusAssign(1);
    }

    method Decrement() returns (ok: bool)
      modifies this
      ensures ok <==> old(value) != INT64_MIN
      ensures value == if ok then old(value) - 1 else old(value)
    {
      ok := MinusAssign(1);
    }
  }
}
