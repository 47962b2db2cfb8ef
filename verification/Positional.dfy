/** Big-endian positional notation: values, minimal digits, and how the two determine each other. */
module Positional {
  import opened Arithmetic

  function Pow(b: nat, n: nat): nat {
    if n == 0 then 1 else b * Pow(b, n - 1)
  }

  predicate AreDigits(s: seq<int>, base: int) {
    forall k :: 0 <= k < |s| ==> 0 <= s[k] < base
  }

  /** The number a big-endian digit string stands for. */
  function Value(s: seq<int>, base: int): int {
    if s == [] then 0 else Value(s[..|s| - 1], base) * base + s[|s| - 1]
  }

  lemma DivisionShrinks(n: nat, base: nat)
    requires n > 0 && base >= 2
    ensures n / base < n && 0 <= n % base < base && n / base * base + n % base == n
  {
    var q := n / base;
    assert n == base * q + n % base;
    if q >= 1 { MulOrder(q, 2, base); }
  }

  /** The shortest big-endian digit string of n; empty for 0. */
  function ToDigits(n: nat, base: nat): (s: seq<int>)
    requires base >= 2
    ensures AreDigits(s, base) && Value(s, base) == n
    ensures s != [] ==> s[0] != 0
  {
    if n == 0 then [] else
    DivisionShrinks(n, base);
    var high := ToDigits(n / base, base);
    assert (high + [n % base])[..|high|] == high;
    high + [n % base]
  }

  lemma MulAssociates(a: int, b: int, c: int)
    ensures (a * b) * c == a * (b * c)
  {
  }

  lemma {:induction false} PowAdd(b: nat, m: nat, n: nat)
    ensures Pow(b, m + n) == Pow(b, m) * Pow(b, n)
  {
    if m != 0 {
      PowAdd(b, m - 1, n);
      MulAssociates(b, Pow(b, m - 1), Pow(b, n));
    }
  }

  lemma {:induction false} PowMul(b: nat, m: nat, n: nat)
    ensures Pow(b, m * n) == Pow(Pow(b, m), n)
  {
    if n != 0 {
      PowMul(b, m, n - 1);
      assert m * n == m + m * (n - 1);
      PowAdd(b, m, m * (n - 1));
    }
  }

  lemma {:induction false} PowPositive(b: nat, n: nat)
    requires b > 0
    ensures Pow(b, n) > 0
  {
    if n != 0 { PowPositive(b, n - 1); }
  }

  lemma {:induction false} PowMonotoneExponent(b: nat, m: nat, n: nat)
    requires b >= 2 && m < n
    ensures Pow(b, m) < Pow(b, n)
  {
    PowPositive(b, n - 1);
    if m < n - 1 { PowMonotoneExponent(b, m, n - 1); }
  }

  lemma {:induction false} PowMonotoneBase(a: nat, b: nat, n: nat)
    requires a <= b
    ensures Pow(a, n) <= Pow(b, n)
  {
    if n != 0 {
      PowMonotoneBase(a, b, n - 1);
      MulOrder(b, Pow(a, n - 1), Pow(b, n - 1));
      MulOrder(Pow(a, n - 1), a, b);
    }
  }

  lemma Distribute(v: int, p: int, w: int, b: int)
    ensures (v * p + w) * b == v * (b * p) + w * b
  {
    assert (v * p) * b == v * (b * p);
  }

  lemma AppendBound(v: int, d: int, b: int, p: int)
    requires 0 <= v < p && 0 <= d < b
    ensures 0 <= v * b + d < b * p
  {
    assert (v + 1) * b <= p * b;
  }

  /** Splitting a digit string splits its value at the weight of the low part. */
  lemma {:induction false} ValueConcat(p: seq<int>, s: seq<int>, base: nat)
    ensures Value(p + s, base) == Value(p, base) * Pow(base, |s|) + Value(s, base)
  {
    if s == [] {
      assert p + s == p;
    } else {
      var s', d := s[..|s| - 1], s[|s| - 1];
      assert (p + s)[..|p + s| - 1] == p + s';
      ValueConcat(p, s', base);
      Distribute(Value(p, base), Pow(base, |s'|), Value(s', base), base);
    }
  }

  lemma {:induction false} ValueBound(s: seq<int>, base: nat)
    requires AreDigits(s, base)
    ensures 0 <= Value(s, base) < Pow(base, |s|)
  {
    if s != [] {
      ValueBound(s[..|s| - 1], base);
      AppendBound(Value(s[..|s| - 1], base), s[|s| - 1], base, Pow(base, |s| - 1));
    }
  }

  lemma {:induction false} ValueOfZeros(s: seq<int>, base: int)
    requires forall k :: 0 <= k < |s| ==> s[k] == 0
    ensures Value(s, base) == 0
  {
    if s != [] { ValueOfZeros(s[..|s| - 1], base); }
  }

  /** Leading zeros do not change the value. */
  lemma LeadingZeros(p: seq<int>, s: seq<int>, base: nat)
    requires forall k :: 0 <= k < |p| ==> p[k] == 0
    ensures Value(p + s, base) == Value(s, base)
  {
    ValueConcat(p, s, base);
    ValueOfZeros(p, base);
  }

  /** Digit strings without a leading zero are determined by their value. */
  lemma {:induction false} DigitsOfValue(s: seq<int>, base: nat)
    requires base >= 2 && AreDigits(s, base)
    requires s != [] ==> s[0] != 0
    ensures Value(s, base) >= 0 && ToDigits(Value(s, base), base) == s
  {
    ValueBound(s, base);
    if s != [] {
      var s', d := s[..|s| - 1], s[|s| - 1];
      ValueBound(s', base);
      DigitsOfValue(s', base);
      var v, n := Value(s', base), Value(s, base);
      QuotientRemainder(n, base, v, d);
      assert v == 0 ==> s' == [] by {
        assert ToDigits(0, base) == [];
      }
      assert n != 0;
      assert s == s' + [d];
    }
  }

  lemma QuotientRemainder(n: nat, base: nat, q: nat, r: nat)
    requires n == q * base + r && r < base
    ensures n / base == q && n % base == r
    ensures n == 0 ==> q == 0 && r == 0
  {
    var k := n / base - q;
    assert n == (n / base) * base + n % base;
    assert k * base == r - n % base;
    MulAtLeast(k, base);
    MulAtLeast(-k, base);
    MulAtLeast(q, base);
  }

  lemma MulAtLeast(k: int, b: nat)
    ensures k >= 1 ==> k * b >= b
  {
  }
}
