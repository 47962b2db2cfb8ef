/** Printing an int64 amount as decimal text, and what the printed text means. */
module AmountPrinter {
  import opened Arithmetic
  import opened Ledger
  import opened Positional

  predicate IsDigit(c: char) { '0' <= c <= '9' }

  predicate AllDigits(s: string) { forall k :: 0 <= k < |s| ==> IsDigit(s[k]) }

  function Digit(d: int): char
    requires 0 <= d < 10
  {
    ('0' as int + d) as char
  }

  function DigitValues(s: string): seq<int> {
    seq(|s|, i requires 0 <= i < |s| => s[i] as int - '0' as int)
  }

  /** The number a text of digits stands for. */
  function TextValue(s: string): int { Value(DigitValues(s), 10) }

  /** The shortest decimal text of n, as to_string gives it. */
  function DecimalText(n: nat): string {
    if n < 10 then [Digit(n)] else DecimalText(n / 10) + [Digit(n % 10)]
  }

  /** The last p decimal digits of n, zeros included. */
  function FixedText(n: nat, p: nat): string
    decreases p
  {
    if p == 0 then "" else FixedText(n / 10, p - 1) + [Digit(n % 10)]
  }

  function Zeros(n: nat): string { seq(n, i => '0') }

  function Sign(negative: bool): string { if negative then "-" else "" }

  function Abs(a: int): nat { if a < 0 then -a else a }

  /** The printed amount: a minus sign if need be, the whole units without leading zeros, and, when
      the precision is positive, a point and exactly that many digits. */
  function Written(a: int, p: nat): string {
    Sign(a < 0) + Unsigned(Abs(a), p)
  }

  function Unsigned(n: nat, p: nat): string {
    if p == 0 then DecimalText(n) else DecimalText(Units(n, p)) + ("." + FixedText(Rest(n, p), p))
  }

  /** The whole units of n at precision p, and what is left of n beside them. */
  function Units(n: nat, p: nat): nat {
    PowPositive(10, p);
    Quotient(n, Pow(10, p))
  }

  function Rest(n: nat, p: nat): nat {
    PowPositive(10, p);
    n % Pow(10, p)
  }

  // ---------- what digit texts mean ----------

  lemma TextValueStep(s: string, c: char)
    ensures TextValue(s + [c]) == 10 * TextValue(s) + (c as int - '0' as int)
  {
    assert DigitValues(s + [c])[..|s|] == DigitValues(s);
  }

  lemma TextValueOfDigit(d: int)
    requires 0 <= d < 10
    ensures TextValue([Digit(d)]) == d && AllDigits([Digit(d)])
  {
    TextValueStep("", Digit(d));
    assert [Digit(d)] == "" + [Digit(d)];
  }

  predicate NoLeadingZero(s: string) { s != "" && (s[0] == '0' ==> |s| == 1) }

  /** The shortest text of n is made of digits, has no leading zero and stands for n. */
  lemma {:induction false} DecimalTextMeans(n: nat)
    ensures AllDigits(DecimalText(n)) && NoLeadingZero(DecimalText(n)) && TextValue(DecimalText(n)) == n
    ensures n > 0 ==> DecimalText(n)[0] != '0'
  {
    if n < 10 {
      TextValueOfDigit(n);
    } else {
      DecimalTextMeans(n / 10);
      TextValueStep(DecimalText(n / 10), Digit(n % 10));
    }
  }

  /** The fixed text of n below 10^p has p digits and stands for n. */
  lemma {:induction false} FixedTextMeans(n: nat, p: nat)
    requires n < Pow(10, p)
    ensures AllDigits(FixedText(n, p)) && |FixedText(n, p)| == p && TextValue(FixedText(n, p)) == n
    decreases p
  {
    if p != 0 {
      FixedTextMeans(n / 10, p - 1);
      TextValueStep(FixedText(n / 10, p - 1), Digit(n % 10));
    }
  }

  lemma {:induction false} FixedTextLength(n: nat, p: nat)
    ensures |FixedText(n, p)| == p
    decreases p
  {
    if p != 0 { FixedTextLength(n / 10, p - 1); }
  }

  lemma {:induction false} TextValueBound(s: string)
    requires AllDigits(s)
    ensures 0 <= TextValue(s) < Pow(10, |s|)
    decreases |s|
  {
    if s != "" {
      var t, c := s[..|s| - 1], s[|s| - 1];
      TextValueBound(t);
      TextValueStep(t, c);
      assert s == t + [c];
    }
  }

  lemma DigitValuesConcat(s: string, t: string)
    ensures DigitValues(s + t) == DigitValues(s) + DigitValues(t)
  {
  }

  lemma TextValueConcat(s: string, t: string)
    ensures TextValue(s + t) == TextValue(s) * Pow(10, |t|) + TextValue(t)
  {
    DigitValuesConcat(s, t);
    ValueConcat(DigitValues(s), DigitValues(t), 10);
  }

  // ---------- printing ----------

  /** Dropping the last digit of n, seen from either side of the point. */
  lemma DropDigit(n: nat, p: nat)
    requires p > 0
    ensures Units(n, p) == Units(n / 10, p - 1)
    ensures Rest(n, p) == 10 * Rest(n / 10, p - 1) + n % 10
  {
    PowPositive(10, p - 1);
    TakeDigit(n, Pow(10, p - 1));
  }

  lemma TakeDigit(n: nat, b: nat)
    requires b > 0
    ensures n / (10 * b) == n / 10 / b && n % (10 * b) == 10 * (n / 10 % b) + n % 10
  {
    var m, d := n / 10, n % 10;
    var q, r := m / b, m % b;
    assert m == b * q + r;
    assert n == 10 * (b * q) + (10 * r + d) == q * (10 * b) + (10 * r + d);
    QuotientRemainder(n, 10 * b, q, 10 * r + d);
  }

  /** n's text, padded with zeros to more than p digits. */
  function Padded(n: nat, p: nat): string {
    var t := DecimalText(n);
    if |t| <= p then Zeros(p - |t| + 1) + t else t
  }

  /** The padded text is the whole units followed by the p digits of the fraction. */
  lemma {:induction false} PaddedIs(n: nat, p: nat)
    ensures Padded(n, p) == DecimalText(Units(n, p)) + FixedText(Rest(n, p), p)
    decreases p
  {
    if p != 0 {
      DropDigit(n, p);
      PaddedIs(n / 10, p - 1);
      PaddedStep(n, p);
      assert Rest(n, p) / 10 == Rest(n / 10, p - 1) && Rest(n, p) % 10 == n % 10;
    }
  }

  lemma PaddedStep(n: nat, p: nat)
    requires p > 0
    ensures Padded(n, p) == Padded(n / 10, p - 1) + [Digit(n % 10)]
  {
    if n < 10 {
      assert Zeros(p) == Zeros(p - 1) + ['0'];
    }
  }

  /** Where the point goes in. */
  lemma PointIsPlaced(n: nat, p: nat)
    ensures var s := Padded(n, p);
            |s| > p && s[..|s| - p] == DecimalText(Units(n, p)) && s[|s| - p..] == FixedText(Rest(n, p), p)
  {
    PaddedIs(n, p);
    var w, f := DecimalText(Units(n, p)), FixedText(Rest(n, p), p);
    FixedTextLength(Rest(n, p), p);
    assert |w| >= 1 && (w + f)[..|w|] == w && (w + f)[|w|..] == f;
  }

  /** `format_amount`. Negating the least int64 is undefined, so it is not among the inputs. */
  method FormatAmount(amount: int64, precision: nat) returns (s: string)
    requires amount != INT64_MIN
    ensures s == Written(amount, precision)
  {
    var neg := amount < 0;
    var a := amount;
    if neg { a := -a; }
    s := DecimalText(a);
    if precision > 0 {
      if |s| <= precision { s := Zeros(precision - |s| + 1) + s; }
      PointIsPlaced(a, precision);
      s := s[..|s| - precision] + ("." + s[|s| - precision..]);
    }
    assert s == Unsigned(Abs(amount), precision);
    if neg { s := "-" + s; }
  }
}
