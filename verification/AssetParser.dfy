/** Reading an amount and a symbol out of text such as "-12.0500 FLON". */
module AssetParser {
  import opened Tables
  import opened Ledger
  import opened Positional
  import opened Characters
  import opened Strings
  import opened Safe
  import opened AmountPrinter

  datatype Failure =
    | NoSpace | NoFraction | BadCode | BadNumber | PrecisionTooLarge | Overflow | AmountTooLarge | InvalidSymbol

  datatype Parsed = Parsed(amount: int64, symbol: Symbol) | Refused(why: Failure)

  // ---------- the C library's conversions ----------

  function SkipSpace(s: string): string {
    if s != "" && IsSpace(s[0]) then SkipSpace(s[1..]) else s
  }

  function LeadingDigits(s: string): (d: string)
    ensures AllDigits(d)
  {
    if s != "" && IsDigit(s[0]) then [s[0]] + LeadingDigits(s[1..]) else ""
  }

  /** The sign and the digits a conversion reads: leading space is skipped, what follows the digits is ignored. */
  function Numeral(s: string): (r: (bool, string))
    ensures AllDigits(r.1)
  {
    var t := SkipSpace(s);
    if t != "" && (t[0] == '-' || t[0] == '+') then (t[0] == '-', LeadingDigits(t[1..])) else (false, LeadingDigits(t))
  }

  function Signed(negative: bool, n: int): int { if negative then -n else n }

  /** `to_int64`. Without a digit the result is 0; whether that counts as an error is up to the C
      library (`strict`). Out of range always does. */
  function ToInt64(s: string, strict: bool): Option<int64> {
    var (negative, digits) := Numeral(s);
    if digits == "" then (if strict then None else Some(0)) else Exactly(Signed(negative, TextValue(digits)))
  }

  /** `to_uint64`: a minus sign negates modulo 2^64. */
  function ToUint64(s: string, strict: bool): Option<uint64> {
    var (negative, digits) := Numeral(s);
    TextValueBound(digits);
    if digits == "" then (if strict then None else Some(0))
    else if TextValue(digits) > UINT64_MAX then None
    else Some(if negative && TextValue(digits) > 0 then UINT64_MAX + 1 - TextValue(digits) else TextValue(digits))
  }

  /** A 64-bit word stored in an int64. */
  function AsInt64(u: uint64): int64 {
    if u > INT64_MAX then u - UINT64_MAX - 1 else u
  }

  // ---------- the parser ----------

  /** An 8-bit precision handed on as a signed byte. */
  function AsInt8(u: nat): int
    requires u < 256
  {
    if u < 128 then u else u - 256
  }

  /** `precision_from_decimals`: a negative precision passes for 0. */
  function UnitOf(decimals: int): Option<nat> {
    if decimals > 18 then None else Some(Pow(10, if decimals < 0 then 0 else decimals))
  }

  predicate CodeCharacters(code: string) {
    |code| <= 7 && forall k :: 0 <= k < |code| ==> 'A' <= code[k] <= 'Z'
  }

  /** From the two numbers to the amount: scale the whole units, add the fraction, and check the result. */
  function Assemble(whole: int64, fraction: int64, digits: nat, code: string): Parsed
    requires digits < 256
  {
    match UnitOf(AsInt8(digits))
    case None => Refused(PrecisionTooLarge)
    case Some(unit) =>
      if !Fits(whole * unit) then Refused(Overflow)
      else if !Fits(whole * unit + fraction) then Refused(Overflow)
      else if !(-MAX_AMOUNT <= whole * unit + fraction <= MAX_AMOUNT) then Refused(AmountTooLarge)
      else if code == "" then Refused(InvalidSymbol)
      else Parsed(whole * unit + fraction, Symbol(code, digits))
  }

  datatype Reading = Read(value: int64) | Unread(why: Failure)

  /** The fraction after the point, negated when the whole text starts with a minus sign. */
  function FractionOf(s: string, dot: nat, strict: bool): Reading
    requires dot < |s|
  {
    match ToUint64(s[dot + 1..], strict)
    case None => Unread(BadNumber)
    case Some(u) =>
      if !Fits(Signed(s[0] == '-', AsInt64(u))) then Unread(Overflow) else Read(Signed(s[0] == '-', AsInt64(u)))
  }

  /** The parser, once the text is cut: `space` ends the amount, `dot` is its point or also its end. The
      conversions read on past the point or the end of the amount, so they are given all that follows. */
  function ParseAt(s: string, space: nat, dot: nat, code: string, strict: bool): Parsed
    requires dot <= space < |s|
  {
    if dot == space - 1 then Refused(NoFraction)
    else if !CodeCharacters(code) then Refused(BadCode)
    else match ToInt64(s, strict)
    case None => Refused(BadNumber)
    case Some(whole) =>
      if dot == space then Assemble(whole, 0, 0, code)
      else match FractionOf(s, dot, strict)
      case Unread(why) => Refused(why)
      case Read(fraction) => Assemble(whole, fraction, (space - dot - 1) % 256, code)
  }

  /** `asset_from_string`. */
  function Parse(from: string, strict: bool): Parsed {
    var s := Trim(from);
    var space := Find(s, ' ');
    if space == |s| then Refused(NoSpace) else ParseAt(s, space, Find(s[..space], '.'), Trim(s[space + 1..]), strict)
  }

  lemma TenToThe18()
    ensures Pow(10, 18) == 1000000000000000000
  {
    assert Pow(10, 6) == 1000000;
    PowAdd(10, 6, 6);
    PowAdd(10, 12, 6);
  }

  lemma UnitFits(p: nat)
    requires p <= 18
    ensures 0 < Pow(10, p) <= 1000000000000000000
  {
    TenToThe18();
    PowPositive(10, p);
    if p < 18 { PowMonotoneExponent(10, p, 18); }
  }

  /** `precision_from_decimals`, on checked integers. */
  method PrecisionFromDecimals(decimals: int, p10: SafeInt) returns (ok: bool)
    requires -128 <= decimals < 128
    modifies p10
    ensures ok <==> UnitOf(decimals).Some?
    ensures ok ==> p10.value == UnitOf(decimals).value
  {
    if !(decimals <= 18) { return false; }
    p10.value := 1;
    var p := new SafeInt(decimals);
    ghost var all := if decimals < 0 then 0 else decimals;
    while p.value > 0
      invariant p.value <= decimals && (decimals < 0 || 0 <= p.value)
      invariant p10.value == Pow(10, all - if p.value < 0 then 0 else p.value)
      invariant fresh(p) && p != p10
      modifies p, p10
      decreases p.value
    {
      UnitFits(all - p.value + 1);
      var done := p10.TimesAssign(10);
      var stepped := p.Decrement();
    }
    return true;
  }

  /** The end of `asset_from_string`: the scaling, the sum and the checks of the asset itself. */
  method AssembleAsset(whole: int64, fraction: int64, digits: nat, code: string) returns (r: Parsed)
    requires digits < 256
    ensures r == Assemble(whole, fraction, digits, code)
  {
    var amount := new SafeInt(whole);
    var unit := new SafeInt(0);
    var known := PrecisionFromDecimals(AsInt8(digits), unit);
    if !known { return Refused(PrecisionTooLarge); }
    var scaled := amount.TimesAssign(unit.value);
    if !scaled { return Refused(Overflow); }
    var added := amount.PlusAssign(fraction);
    if !added { return Refused(Overflow); }
    if !(-MAX_AMOUNT <= amount.value <= MAX_AMOUNT) { return Refused(AmountTooLarge); }
    if code == "" { return Refused(InvalidSymbol); }
    return Parsed(amount.value, Symbol(code, digits));
  }

  /** The fraction, and its sign. */
  method ReadFraction(s: string, dot: nat, strict: bool) returns (r: Reading)
    requires dot < |s|
    ensures r == FractionOf(s, dot, strict)
  {
    var u := ToUint64(s[dot + 1..], strict);
    if u.None? { return Unread(BadNumber); }
    var fraction := new SafeInt(AsInt64(u.value));
    if s[0] == '-' {
      var negated := fraction.TimesAssign(-1);
      if !negated { return Unread(Overflow); }
    }
    return Read(fraction.value);
  }

  method AssetFromString(from: string, strict: bool) returns (r: Parsed)
    ensures r == Parse(from, strict)
  {
    var s := Trim(from);
    var space := Find(s, ' ');
    if space == |s| { return Refused(NoSpace); }
    var code := Trim(s[space + 1..]);
    var amountStr := s[..space];
    var dot := Find(amountStr, '.');
    if dot != |amountStr| {
      if dot == |amountStr| - 1 { return Refused(NoFraction); }
    }
    var digits := 0;
    if dot != |amountStr| { digits := (|amountStr| - dot - 1) % 256; }
    if !CodeCharacters(code) { return Refused(BadCode); }
    var whole := ToInt64(s, strict);
    if whole.None? { return Refused(BadNumber); }
    var fraction := Read(0);
    if dot != |amountStr| { fraction := ReadFraction(s, dot, strict); }
    if fraction.Unread? { return Refused(fraction.why); }
    r := AssembleAsset(whole.value, fraction.value, digits, code);
  }
}
