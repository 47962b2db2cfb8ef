/** Printing an amount and parsing it back, and which decimal texts the parser reads for what they say. */
module AssetText {
  import opened Arithmetic
  import opened Tables
  import opened Ledger
  import opened Positional
  import opened Characters
  import opened Strings
  import opened Safe
  import opened AmountPrinter
  import opened AssetParser

  predicate GoodCode(code: string) { code != "" && CodeCharacters(code) }

  predicate Digits(s: string) { s != "" && AllDigits(s) }

  /** A decimal number with a point, as one writes it. */
  function Decimal(negative: bool, whole: string, fraction: string): string {
    Sign(negative) + whole + ("." + fraction)
  }

  // ---------- reading digits ----------

  lemma {:induction false} DigitsAreRead(d: string, rest: string)
    requires AllDigits(d) && (rest != "" ==> !IsDigit(rest[0]))
    ensures LeadingDigits(d + rest) == d
    decreases |d|
  {
    if d == "" {
      assert d + rest == rest;
    } else {
      DigitsAreRead(d[1..], rest);
      assert (d + rest)[1..] == d[1..] + rest;
    }
  }

  lemma NumeralIsRead(negative: bool, d: string, rest: string)
    requires Digits(d) && (rest != "" ==> !IsDigit(rest[0]))
    ensures Numeral(Sign(negative) + d + rest) == (negative, d)
  {
    DigitsAreRead(d, rest);
    var t := Sign(negative) + d + rest;
    if negative {
      assert t[1..] == d + rest;
    } else {
      assert t == d + rest;
    }
  }

  /** The amount and the code are told apart at the space between them. */
  lemma CodeIsCut(s: string, amount: string, code: string, strict: bool)
    requires amount != "" && ' ' !in amount && code != "" && Tight(code) && s == amount + " " + code
    ensures Parse(s, strict) == ParseAt(s, |amount|, Find(amount, '.'), code, strict)
  {
    assert s[0] == amount[0] && s[|s| - 1] == code[|code| - 1];
    TightIsTrimmed(s);
    FindFirst(amount, ' ', code);
    assert s[|amount| + 1..] == code && s[..|amount|] == amount;
    TightIsTrimmed(code);
  }

  lemma DecimalHasOnePoint(negative: bool, whole: string, fraction: string)
    requires Digits(whole) && Digits(fraction)
    ensures var t := Decimal(negative, whole, fraction);
            && ' ' !in t && t != "" && (t[0] == '-' <==> negative)
            && Find(t, '.') == |t| - |fraction| - 1
  {
    var head := Sign(negative) + whole;
    FindFirst(head, '.', fraction);
    assert Decimal(negative, whole, fraction) == head + ['.'] + fraction;
    assert head[0] == if negative then '-' else whole[0];
  }

  // ---------- parsing decimals ----------

  /** The amount made of the parts of a decimal. */
  function FromParts(negative: bool, whole: nat, fraction: nat, digits: nat, code: string): Parsed {
    if !Fits(Signed(negative, whole)) then Refused(BadNumber)
    else if fraction > UINT64_MAX then Refused(BadNumber)
    else if !Fits(Signed(negative, AsInt64(fraction))) then Refused(Overflow)
    else Assemble(Signed(negative, whole), Signed(negative, AsInt64(fraction)), digits % 256, code)
  }

  lemma WholeIsConverted(s: string, negative: bool, whole: string, rest: string, strict: bool)
    requires Digits(whole) && (rest != "" ==> !IsDigit(rest[0])) && s == Sign(negative) + whole + rest
    ensures ToInt64(s, strict) == Exactly(Signed(negative, TextValue(whole)))
  {
    NumeralIsRead(negative, whole, rest);
  }

  lemma FractionIsConverted(s: string, dot: nat, fraction: string, rest: string, strict: bool)
    requires Digits(fraction) && dot < |s| && s[dot + 1..] == fraction + rest && (rest != "" ==> !IsDigit(rest[0]))
    ensures TextValue(fraction) >= 0
    ensures FractionOf(s, dot, strict) ==
            if TextValue(fraction) > UINT64_MAX then Unread(BadNumber)
            else if !Fits(Signed(s[0] == '-', AsInt64(TextValue(fraction)))) then Unread(Overflow)
            else Read(Signed(s[0] == '-', AsInt64(TextValue(fraction))))
  {
    TextValueBound(fraction);
    assert Sign(false) + fraction + rest == fraction + rest;
    NumeralIsRead(false, fraction, rest);
  }

  /** s is a decimal, a space and a symbol code. */
  predicate Priced(s: string, negative: bool, whole: string, fraction: string, code: string) {
    Digits(whole) && Digits(fraction) && GoodCode(code) && s == Decimal(negative, whole, fraction) + " " + code
  }

  /** Where the parts of a priced text begin. */
  lemma PricedParts(s: string, negative: bool, whole: string, fraction: string, code: string)
    requires Priced(s, negative, whole, fraction, code)
    ensures var t, tail := Decimal(negative, whole, fraction), " " + code;
            && s == Sign(negative) + whole + ("." + fraction + tail)
            && s[|t| - |fraction|..] == fraction + tail
            && s[0] == t[0] && s == t + " " + code
  {
    var t, tail := Decimal(negative, whole, fraction), " " + code;
    assert s == Sign(negative) + whole + ("." + fraction + tail);
    assert s == (Sign(negative) + whole + ".") + (fraction + tail);
  }

  /** Parsing a decimal and a code comes down to the values of its two digit texts. */
  lemma DecimalIsParsed(s: string, negative: bool, whole: string, fraction: string, code: string, strict: bool)
    requires Priced(s, negative, whole, fraction, code)
    ensures TextValue(whole) >= 0 && TextValue(fraction) >= 0
    ensures Parse(s, strict) == FromParts(negative, TextValue(whole), TextValue(fraction), |fraction|, code)
  {
    TextValueBound(whole);
    TextValueBound(fraction);
    var t, tail := Decimal(negative, whole, fraction), " " + code;
    PricedParts(s, negative, whole, fraction, code);
    DecimalHasOnePoint(negative, whole, fraction);
    CodeIsCut(s, t, code, strict);
    WholeIsConverted(s, negative, whole, "." + fraction + tail, strict);
    FractionIsConverted(s, |t| - |fraction| - 1, fraction, tail, strict);
  }

  lemma ScaledSign(negative: bool, v: nat, u: nat, f: nat)
    ensures Signed(negative, v) * u + Signed(negative, f) == Signed(negative, v * u + f)
    ensures Signed(negative, v) * u == Signed(negative, v * u)
  {
  }

  lemma ProductCovers(v: nat, u: nat)
    requires u > 0
    ensures v <= v * u
  {
  }

  /** With at most 18 fraction digits nothing overflows on the way to an amount that is in range. */
  lemma PartsInRange(negative: bool, v: nat, f: nat, n: nat, unit: nat, total: nat, code: string)
    requires n <= 18 && unit == Pow(10, n) && f < unit && total == v * unit + f && code != ""
    ensures var r := FromParts(negative, v, f, n, code);
            if total <= MAX_AMOUNT then r == Parsed(Signed(negative, total), Symbol(code, n)) else r.Refused?
  {
    UnitFits(n);
    ProductCovers(v, unit);
    ScaledSign(negative, v, unit, f);
    assert UnitOf(AsInt8(n % 256)) == Some(unit);
  }

  /** A decimal with up to 18 fraction digits is accepted exactly when its value, counted in units of
      its last digit, is within the range of an asset; and then that value is the amount. */
  lemma DecimalAcceptedIff(s: string, negative: bool, whole: string, fraction: string, code: string, strict: bool)
    requires Priced(s, negative, whole, fraction, code) && |fraction| <= 18
    ensures var value := TextValue(whole + fraction);
            if 0 <= value <= MAX_AMOUNT then
              Parse(s, strict) == Parsed(Signed(negative, value), Symbol(code, |fraction|))
            else Parse(s, strict).Refused?
  {
    DecimalIsParsed(s, negative, whole, fraction, code, strict);
    TextValueBound(fraction);
    TextValueConcat(whole, fraction);
    TextValueBound(whole + fraction);
    PartsInRange(negative, TextValue(whole), TextValue(fraction), |fraction|, Pow(10, |fraction|),
                 TextValue(whole + fraction), code);
  }

  /** A number without a point has no fraction and precision 0. */
  lemma WholeAcceptedIff(s: string, negative: bool, whole: string, code: string, strict: bool)
    requires Digits(whole) && GoodCode(code) && s == Sign(negative) + whole + " " + code
    ensures var value := TextValue(whole);
            if 0 <= value <= MAX_AMOUNT then Parse(s, strict) == Parsed(Signed(negative, value), Symbol(code, 0))
            else Parse(s, strict).Refused?
  {
    var t := Sign(negative) + whole;
    WholeIsCut(s, t, code, strict);
    Grouped(t, code);
    WholeIsConverted(s, negative, whole, " " + code, strict);
    TextValueBound(whole);
    WholeInRange(s, |t|, Signed(negative, TextValue(whole)), code, strict);
  }

  lemma Grouped(t: string, code: string)
    ensures t + " " + code == t + (" " + code)
  {
  }

  lemma WholeIsCut(s: string, t: string, code: string, strict: bool)
    requires t != "" && ' ' !in t && '.' !in t && code != "" && Tight(code) && s == t + " " + code
    ensures Parse(s, strict) == ParseAt(s, |t|, |t|, code, strict)
  {
    CodeIsCut(s, t, code, strict);
    FindNone(t, '.');
  }

  lemma WholeInRange(s: string, end: nat, value: int, code: string, strict: bool)
    requires 0 < end < |s| && GoodCode(code) && ToInt64(s, strict) == Exactly(value)
    ensures var r := ParseAt(s, end, end, code, strict);
            if -MAX_AMOUNT <= value <= MAX_AMOUNT then r == Parsed(value, Symbol(code, 0)) else r.Refused?
  {
    assert UnitOf(AsInt8(0)) == Some(Pow(10, 0)) == Some(1);
  }

  /** The limits of the integer types and of an asset are powers of two. */
  lemma LimitsArePowers()
    ensures MAX_AMOUNT == Pow(2, 62) - 1
    ensures INT64_MAX == Pow(2, 63) - 1 && INT64_MIN + Pow(2, 63) == 0 && UINT64_MAX == Pow(2, 64) - 1
  {
    TwoToThe62();
    PowAdd(2, 62, 1);
    PowAdd(2, 62, 2);
    assert Pow(2, 1) == 2 && Pow(2, 2) == 4;
  }

  lemma TwoToThe62()
    ensures Pow(2, 62) == 0x4000_0000_0000_0000
  {
    assert Pow(2, 5) == 32 && Pow(2, 10) == 1024 by { PowAdd(2, 5, 5); }
    PowAdd(2, 10, 10);
    PowAdd(2, 20, 20);
    PowAdd(2, 40, 20);
    PowAdd(2, 60, 2);
    assert Pow(2, 2) == 4;
  }

  // ---------- what is refused, and what is overlooked ----------

  /** Behind a number in range exactly the codes of one to seven capital letters are accepted. */
  lemma CodeAcceptedIff(s: string, negative: bool, whole: string, code: string, strict: bool)
    requires Digits(whole) && code != "" && Tight(code) && s == Sign(negative) + whole + " " + code
    requires 0 <= TextValue(whole) <= MAX_AMOUNT
    ensures if 1 <= |code| <= 7 && forall k :: 0 <= k < |code| ==> 'A' <= code[k] <= 'Z' then
              Parse(s, strict) == Parsed(Signed(negative, TextValue(whole)), Symbol(code, 0))
            else Parse(s, strict) == Refused(BadCode)
  {
    if CodeCharacters(code) {
      WholeAcceptedIff(s, negative, whole, code, strict);
    } else {
      WholeIsCut(s, Sign(negative) + whole, code, strict);
    }
  }

  /** A text without a space is refused. */
  lemma SpaceIsNeeded(s: string, strict: bool)
    requires ' ' !in s
    ensures Parse(s, strict) == Refused(NoSpace)
  {
    TightIsTrimmed(s);
    FindNone(s, ' ');
  }

  /** Spaces around the text do not matter. */
  lemma OuterSpacesAreIgnored(s: string, m: nat, n: nat, strict: bool)
    requires Tight(s)
    ensures Parse(Spaces(m) + s + Spaces(n), strict) == Parse(s, strict)
  {
    TrimOfPadded(s, m, n);
    TightIsTrimmed(s);
  }

  /** A point must be followed by digits: one right before the space is refused. */
  lemma PointNeedsDigits(s: string, head: string, code: string, strict: bool)
    requires ' ' !in head && '.' !in head && code != "" && Tight(code) && s == head + "." + " " + code
    ensures Parse(s, strict) == Refused(NoFraction)
  {
    CodeIsCut(s, head + ".", code, strict);
    FindFirst(head, '.', "");
    assert head + "." == head + ['.'] + "";
  }

  /** Other characters between the digits and the space are overlooked: "12abc FLON" is read as "12 FLON". */
  lemma JunkIsOverlooked(s: string, negative: bool, whole: string, junk: string, code: string, strict: bool)
    requires Digits(whole) && junk != "" && !IsDigit(junk[0]) && ' ' !in junk && '.' !in junk
    requires GoodCode(code) && s == Sign(negative) + whole + junk + " " + code
    ensures Parse(s, strict) == Parse(Sign(negative) + whole + " " + code, strict)
  {
    var t := Sign(negative) + whole;
    Grouped(t, code);
    Grouped(t + junk, code);
    WholeIsRead(s, negative, whole, junk, code, strict);
    assert t + "" == t;
    WholeIsRead(t + " " + code, negative, whole, "", code, strict);
  }

  lemma WholeIsRead(s: string, negative: bool, whole: string, junk: string, code: string, strict: bool)
    requires Digits(whole) && ' ' !in junk && '.' !in junk && (junk != "" ==> !IsDigit(junk[0]))
    requires GoodCode(code) && s == Sign(negative) + whole + junk + " " + code
    ensures Parse(s, strict) == match Exactly(Signed(negative, TextValue(whole)))
                                case None => Refused(BadNumber)
                                case Some(value) => Assemble(value, 0, 0, code)
  {
    var head, tail := Sign(negative) + whole, " " + code;
    WholeIsCut(s, head + junk, code, strict);
    Regrouped(head, junk, code);
    WholeIsConverted(s, negative, whole, junk + tail, strict);
    WholeOnly(s, |head + junk|, Exactly(Signed(negative, TextValue(whole))), code, strict);
  }

  /** A plus sign, or a blank other than a space, before a number is overlooked too. */
  lemma LeadIsOverlooked(s: string, lead: char, whole: string, code: string, strict: bool)
    requires Digits(whole) && GoodCode(code) && (lead == '+' || (IsSpace(lead) && lead != ' '))
    requires s == [lead] + whole + " " + code
    ensures Parse(s, strict) == Parse(whole + " " + code, strict)
  {
    WholeIsCut(s, [lead] + whole, code, strict);
    Regrouped([lead], whole, code);
    NumeralBehind(s, lead, whole, " " + code);
    WholeOnly(s, |[lead] + whole|, Exactly(TextValue(whole)), code, strict);
    assert Sign(false) + whole + "" == whole;
    WholeIsRead(whole + " " + code, false, whole, "", code, strict);
  }

  lemma NumeralBehind(s: string, lead: char, whole: string, rest: string)
    requires Digits(whole) && (rest != "" ==> !IsDigit(rest[0])) && (lead == '+' || IsSpace(lead))
    requires s == [lead] + (whole + rest)
    ensures Numeral(s) == (false, whole)
  {
    var t := whole + rest;
    assert s[1..] == t && t[0] == whole[0] && !IsSpace(t[0]);
    assert SkipSpace(t) == t;
    DigitsAreRead(whole, rest);
  }

  /** Without a digit where the number should begin, it depends on the C library: an error, or 0. */
  lemma NoDigitsIsZero(s: string, t: string, code: string, strict: bool)
    requires t != "" && ' ' !in t && '.' !in t && GoodCode(code) && s == t + " " + code
    requires !IsDigit(t[0]) && !IsSpace(t[0]) && t[0] != '-' && t[0] != '+'
    ensures Parse(s, strict) == if strict then Refused(BadNumber) else Parsed(0, Symbol(code, 0))
  {
    WholeIsCut(s, t, code, strict);
    assert s[0] == t[0];
    WholeOnly(s, |t|, if strict then None else Some(0), code, strict);
    assert UnitOf(AsInt8(0)) == Some(Pow(10, 0)) == Some(1);
  }

  /** A minus sign behind the point is not refused: the fraction is taken off, and the sign counts as one of
      its digits. So "1.-5 FLON" is read as "0.95 FLON". */
  lemma MinusInFraction(s: string, negative: bool, whole: string, fraction: string, code: string, strict: bool)
    requires Digits(whole) && Digits(fraction) && |fraction| <= 17 && GoodCode(code)
    requires s == Sign(negative) + whole + ".-" + fraction + " " + code
    ensures var n := |fraction| + 1;
            var total := TextValue(whole) * Pow(10, n) - TextValue(fraction);
            if -MAX_AMOUNT <= total <= MAX_AMOUNT then
              Parse(s, strict) == Parsed(Signed(negative, total), Symbol(code, n))
            else Parse(s, strict).Refused?
  {
    var n, v, f := |fraction| + 1, TextValue(whole), TextValue(fraction);
    TextValueBound(whole);
    TextValueBound(fraction);
    MinusAssembled(negative, v, f, n, Pow(10, n), code);
    MinusIsRead(s, Sign(negative) + whole + ".-" + fraction, negative, whole, fraction, v, f, n, code, strict);
  }

  lemma MinusIsRead(s: string, t: string, negative: bool, whole: string, fraction: string, v: nat, f: nat, n: nat,
                    code: string, strict: bool)
    requires Digits(whole) && Digits(fraction) && |fraction| + 1 == n <= 18 && GoodCode(code)
    requires t == Sign(negative) + whole + ".-" + fraction && s == t + " " + code
    requires v == TextValue(whole) && f == TextValue(fraction) <= MAX_AMOUNT
    ensures Parse(s, strict) == if !Fits(Signed(negative, v)) then Refused(BadNumber)
                                else Assemble(Signed(negative, v), Signed(!negative, f), n, code)
  {
    MinusIsCut(s, t, negative, whole, fraction, code, strict);
    MinusIsConverted(s, t, negative, whole, fraction, code, strict);
    MinusFraction(s, |t| - n - 1, negative, f, strict);
    MinusParts(s, |t| - n - 1, |t|, negative, v, f, n, code, strict);
  }

  lemma MinusIsCut(s: string, t: string, negative: bool, whole: string, fraction: string, code: string, strict: bool)
    requires Digits(whole) && Digits(fraction) && GoodCode(code)
    requires t == Sign(negative) + whole + ".-" + fraction && s == t + " " + code
    ensures |t| < |s| && |t| >= |fraction| + 2 && (s[0] == '-' <==> negative)
    ensures Parse(s, strict) == ParseAt(s, |t|, |t| - |fraction| - 2, code, strict)
  {
    PointBeforeMinus(negative, whole, fraction);
    CodeIsCut(s, t, code, strict);
    assert s[0] == t[0];
  }

  lemma MinusIsConverted(s: string, t: string, negative: bool, whole: string, fraction: string, code: string,
                         strict: bool)
    requires Digits(whole) && Digits(fraction)
    requires t == Sign(negative) + whole + ".-" + fraction && s == t + " " + code && |t| - |fraction| - 1 >= 0
    ensures ToInt64(s, strict) == Exactly(Signed(negative, TextValue(whole)))
    ensures Numeral(s[|t| - |fraction| - 1..]) == (true, fraction)
  {
    var tail := " " + code;
    assert s == t + tail;
    PartsBehindMinus(Sign(negative) + whole, fraction, tail);
    WholeIsConverted(s, negative, whole, ".-" + fraction + tail, strict);
    NumeralIsRead(true, fraction, tail);
  }

  lemma MinusFraction(s: string, dot: nat, negative: bool, f: nat, strict: bool)
    requires dot < |s| && f <= MAX_AMOUNT && (s[0] == '-' <==> negative)
    requires Numeral(s[dot + 1..]).0 && Numeral(s[dot + 1..]).1 != "" && TextValue(Numeral(s[dot + 1..]).1) == f
    ensures FractionOf(s, dot, strict) == Read(Signed(!negative, f))
  {
  }

  lemma PointBeforeMinus(negative: bool, whole: string, fraction: string)
    requires Digits(whole) && Digits(fraction)
    ensures var t := Sign(negative) + whole + ".-" + fraction;
            && ' ' !in t && t != "" && (t[0] == '-' <==> negative)
            && Find(t, '.') == |t| - |fraction| - 2
  {
    var head := Sign(negative) + whole;
    FindFirst(head, '.', "-" + fraction);
    assert head + ".-" + fraction == head + ['.'] + ("-" + fraction);
    assert head[0] == if negative then '-' else whole[0];
  }

  lemma PartsBehindMinus(head: string, fraction: string, tail: string)
    ensures var t := head + ".-" + fraction;
            && t + tail == head + (".-" + fraction + tail)
            && (t + tail)[|t| - |fraction| - 1..] == Sign(true) + fraction + tail
  {
    assert head + ".-" + fraction + tail == (head + ".") + ("-" + fraction + tail);
  }

  lemma MinusParts(s: string, dot: nat, space: nat, negative: bool, v: nat, f: nat, n: nat, code: string, strict: bool)
    requires 1 <= n <= 18 && space == dot + 1 + n < |s| && f <= MAX_AMOUNT && GoodCode(code)
    requires ToInt64(s, strict) == Exactly(Signed(negative, v))
    requires FractionOf(s, dot, strict) == Read(Signed(!negative, f))
    ensures ParseAt(s, space, dot, code, strict) ==
            if !Fits(Signed(negative, v)) then Refused(BadNumber)
            else Assemble(Signed(negative, v), Signed(!negative, f), n, code)
  {
  }

  lemma MinusAssembled(negative: bool, v: nat, f: nat, n: nat, unit: nat, code: string)
    requires 1 <= n <= 18 && unit == Pow(10, n) && f < Pow(10, n - 1) && code != ""
    ensures f <= MAX_AMOUNT
    ensures var total := v * unit - f;
            var r := if !Fits(Signed(negative, v)) then Refused(BadNumber)
                     else Assemble(Signed(negative, v), Signed(!negative, f), n, code);
            if -MAX_AMOUNT <= total <= MAX_AMOUNT then r == Parsed(Signed(negative, total), Symbol(code, n))
            else r.Refused?
  {
    UnitFits(n);
    assert unit == 10 * Pow(10, n - 1);
    ProductCovers(v, unit);
    ScaledSign(negative, v, unit, 0);
    assert UnitOf(AsInt8(n)) == Some(unit);
  }

  lemma Regrouped(head: string, junk: string, code: string)
    ensures head + junk + " " + code == head + (junk + (" " + code))
    ensures |head + junk| < |head + junk + " " + code|
  {
  }

  lemma WholeOnly(s: string, end: nat, value: Option<int64>, code: string, strict: bool)
    requires 0 < end < |s| && GoodCode(code) && ToInt64(s, strict) == value
    ensures ParseAt(s, end, end, code, strict) ==
            match value case None => Refused(BadNumber) case Some(v) => Assemble(v, 0, 0, code)
  {
  }

  // ---------- round trips ----------

  lemma RestIsSmall(n: nat, p: nat)
    ensures Rest(n, p) < Pow(10, p) && Units(n, p) * Pow(10, p) + Rest(n, p) == n
  {
    PowPositive(10, p);
  }

  /** The digits printed on both sides of the point stand for the amount. */
  lemma WrittenMeans(n: nat, p: nat)
    ensures var w, f := DecimalText(Units(n, p)), FixedText(Rest(n, p), p);
            AllDigits(w) && NoLeadingZero(w) && AllDigits(f) && |f| == p && TextValue(w + f) == n
  {
    RestIsSmall(n, p);
    DecimalTextMeans(Units(n, p));
    FixedTextMeans(Rest(n, p), p);
    TextValueConcat(DecimalText(Units(n, p)), FixedText(Rest(n, p), p));
  }

  /** Printing an amount at any precision from 0 to 18 and parsing the text with its symbol gives the
      amount and the precision back, without an overflow on the way. */
  lemma RoundTrip(a: int, p: nat, code: string, strict: bool)
    requires -MAX_AMOUNT <= a <= MAX_AMOUNT && p <= 18 && GoodCode(code)
    ensures Parse(Written(a, p) + " " + code, strict) == Parsed(a, Symbol(code, p))
  {
    if p == 0 {
      DecimalTextMeans(Abs(a));
      WholeAcceptedIff(Written(a, 0) + " " + code, a < 0, DecimalText(Abs(a)), code, strict);
    } else {
      WrittenMeans(Abs(a), p);
      var w, f := DecimalText(Units(Abs(a), p)), FixedText(Rest(Abs(a), p), p);
      assert Written(a, p) == Decimal(a < 0, w, f);
      DecimalAcceptedIff(Written(a, p) + " " + code, a < 0, w, f, code, strict);
    }
  }

  lemma {:induction false} ShortestIsUnique(s: string)
    requires AllDigits(s) && NoLeadingZero(s)
    ensures TextValue(s) >= 0 && DecimalText(TextValue(s)) == s
    ensures |s| > 1 ==> TextValue(s) > 0
    decreases |s|
  {
    var t, c := s[..|s| - 1], s[|s| - 1];
    assert s == t + [c];
    TextValueStep(t, c);
    TextValueBound(s);
    if t == "" {
      assert DigitValues(t) == [];
    } else {
      if |t| == 1 { TextValueStep("", t[0]); assert t == "" + [t[0]]; }
      ShortestIsUnique(t);
    }
  }

  lemma {:induction false} FixedIsUnique(s: string)
    requires AllDigits(s)
    ensures TextValue(s) >= 0 && FixedText(TextValue(s), |s|) == s
    decreases |s|
  {
    TextValueBound(s);
    if s != "" {
      var t, c := s[..|s| - 1], s[|s| - 1];
      assert s == t + [c];
      TextValueStep(t, c);
      TextValueBound(t);
      FixedIsUnique(t);
    }
  }

  lemma SplitAtUnit(v: nat, f: nat, p: nat)
    requires f < Pow(10, p)
    ensures Units(v * Pow(10, p) + f, p) == v && Rest(v * Pow(10, p) + f, p) == f
  {
    QuotientRemainder(v * Pow(10, p) + f, Pow(10, p), v, f);
  }

  lemma TailsAgree(a: string, b: string, x: string, y: string)
    requires |x| == |y| && a + x == b + y
    ensures a == b && x == y
  {
    assert a == (a + x)[..|a|] && b == (b + y)[..|b|];
    assert x == (a + x)[|a|..] && y == (b + y)[|b|..];
  }

  /** The other way round: an accepted decimal is printed back as it was written exactly when it had
      no needless zero in front and was not a negated zero. */
  lemma PrintsBackIff(negative: bool, whole: string, fraction: string)
    requires Digits(whole) && Digits(fraction)
    ensures var a := Signed(negative, TextValue(whole + fraction));
            Written(a, |fraction|) == Decimal(negative, whole, fraction) <==>
            NoLeadingZero(whole) && !(negative && a == 0)
  {
    var n := TextValue(whole + fraction);
    TextValueBound(whole + fraction);
    PrintedParts(whole, fraction, n);
    ShortestIff(whole);
    WrittenOf(negative, n, |fraction|);
    SameText(negative && n > 0, DecimalText(TextValue(whole)), negative, whole, "." + fraction);
  }

  lemma WrittenOf(negative: bool, n: nat, p: nat)
    ensures Written(Signed(negative, n), p) == Sign(negative && n > 0) + Unsigned(n, p)
  {
    assert Abs(Signed(negative, n)) == n;
  }

  lemma ShortestIff(s: string)
    requires Digits(s)
    ensures TextValue(s) >= 0 && Digits(DecimalText(TextValue(s)))
    ensures DecimalText(TextValue(s)) == s <==> NoLeadingZero(s)
  {
    TextValueBound(s);
    DecimalTextMeans(TextValue(s));
    if NoLeadingZero(s) { ShortestIsUnique(s); }
  }

  lemma SameText(m: bool, x: string, n: bool, y: string, tail: string)
    requires Digits(x) && Digits(y)
    ensures Sign(m) + (x + tail) == Sign(n) + y + tail <==> m == n && x == y
  {
    assert Sign(m) + (x + tail) == Sign(m) + x + tail;
    if Sign(m) + (x + tail) == Sign(n) + y + tail {
      TailsAgree(Sign(m) + x, Sign(n) + y, tail, tail);
      SignsAgree(m, x, n, y);
    }
  }

  lemma PrintedParts(whole: string, fraction: string, n: nat)
    requires Digits(whole) && Digits(fraction) && n == TextValue(whole + fraction)
    ensures TextValue(whole) >= 0 && Unsigned(n, |fraction|) == DecimalText(TextValue(whole)) + ("." + fraction)
  {
    TextValueBound(whole);
    TextValueBound(fraction);
    TextValueConcat(whole, fraction);
    SplitAtUnit(TextValue(whole), TextValue(fraction), |fraction|);
    FixedIsUnique(fraction);
  }

  lemma SignsAgree(m: bool, x: string, n: bool, y: string)
    requires Digits(x) && Digits(y) && Sign(m) + x == Sign(n) + y
    ensures m == n && x == y
  {
    assert m ==> (Sign(m) + x)[0] == '-';
    assert !m ==> (Sign(m) + x)[0] == x[0];
    assert n ==> (Sign(n) + y)[0] == '-';
    assert !n ==> (Sign(n) + y)[0] == y[0];
    if m == n {
      assert x == (Sign(m) + x)[|Sign(m)|..];
      assert y == (Sign(n) + y)[|Sign(n)|..];
    }
  }

  // ---------- where the parser misreads ----------

  lemma UnscaledDiffers(v: nat, f: int, g: int, n: nat)
    requires n >= 1 && f <= g
    ensures v + f == v * Pow(10, n) + g <==> v == 0 && f == g
  {
    PowPositive(10, n - 1);
    assert Pow(10, n) == 10 * Pow(10, n - 1);
    if v > 0 { MulOrder(v, 2, Pow(10, n)); }
  }

  /** The number of fraction digits is kept in a byte and then read as a signed one, so a text with 128
      fraction digits or more can slip past the limit of 18. Of the accepted decimals, those read for
      what they say are the ones with fewer than 128 digits, and with up to 255 those that have
      nothing but zeros before the point and a fraction that is an int64. */
  lemma FaithfulIff(s: string, negative: bool, whole: string, fraction: string, code: string, strict: bool, r: Parsed)
    requires Priced(s, negative, whole, fraction, code) && r == Parse(s, strict) && r.Parsed?
    ensures r.symbol.precision == |fraction| && r.amount == Signed(negative, TextValue(whole + fraction)) <==>
            |fraction| < 128 || (|fraction| < 256 && TextValue(whole) == 0 && TextValue(fraction) <= INT64_MAX)
  {
    TextValueBound(fraction);
    TextValueConcat(whole, fraction);
    TextValueBound(whole + fraction);
    DecimalIsParsed(s, negative, whole, fraction, code, strict);
    FaithfulParts(negative, TextValue(whole), TextValue(fraction), |fraction|, TextValue(whole + fraction), code, r);
  }

  lemma FaithfulParts(negative: bool, v: nat, f: nat, n: nat, total: nat, code: string, r: Parsed)
    requires f < Pow(10, n) && total == v * Pow(10, n) + f
    requires r == FromParts(negative, v, f, n, code) && r.Parsed?
    ensures r.symbol.precision == n && r.amount == Signed(negative, total) <==>
            n < 128 || (n < 256 && v == 0 && f <= INT64_MAX)
  {
    if n <= 18 {
      PartsInRange(negative, v, f, n, Pow(10, n), total, code);
    } else {
      FarFraction(negative, v, f, n, total, code, r);
    }
  }

  lemma FarFraction(negative: bool, v: nat, f: nat, n: nat, total: nat, code: string, r: Parsed)
    requires n > 18 && total == v * Pow(10, n) + f
    requires r == FromParts(negative, v, f, n, code) && r.Parsed?
    ensures r.symbol.precision == n && r.amount == Signed(negative, total) <==>
            128 <= n < 256 && v == 0 && f <= INT64_MAX
    ensures n >= 128
  {
    if n < 128 {
      assert false;
    } else if n < 256 {
      assert n % 256 == n && UnitOf(AsInt8(n)) == Some(Pow(10, 0)) == Some(1);
      assert r.amount == Signed(negative, v + AsInt64(f));
      UnscaledDiffers(v, AsInt64(f), f, n);
    }
  }

  /** Such texts are accepted: whole units followed by 128 to 255 zeros are read as that many units of
      the last digit. */
  lemma ZerosSlipThrough(s: string, whole: string, n: nat, code: string, strict: bool, v: nat)
    requires 128 <= n < 256 && Priced(s, false, whole, Zeros(n), code) && v == TextValue(whole) <= MAX_AMOUNT
    ensures Parse(s, strict) == Parsed(v, Symbol(code, n))
  {
    DecimalIsParsed(s, false, whole, Zeros(n), code, strict);
    ValueOfZeros(DigitValues(Zeros(n)), 10);
    UnscaledParts(v, n, code);
  }

  lemma UnscaledParts(v: nat, n: nat, code: string)
    requires 128 <= n < 256 && v <= MAX_AMOUNT && code != ""
    ensures FromParts(false, v, 0, n, code) == Parsed(v, Symbol(code, n))
  {
    assert UnitOf(AsInt8(n)) == Some(Pow(10, 0)) == Some(1);
  }
}
