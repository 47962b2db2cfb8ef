/** The flon.redpack contract: its tables as fields, its actions as methods that update them in place.
    Every method is proved to do exactly what RedpackSpec says. */
module Redpack {
  import opened Arithmetic
  import opened Ledger
  import opened RedpackSpec
  import opened RedpackSafety

  datatype Receipt = Committed(events: seq<Event>) | Aborted(why: Failure)

  /** The action had this outcome: on an abort nothing was written. */
  ghost predicate Did(before: State, o: Outcome, r: Receipt, after: State) {
    match o
    case Done(t, events) => r == Committed(events) && after == t
    case Abort(why) => r == Aborted(why) && after == before
  }

  lemma DidKeeps(before: State, c: Call, r: Receipt, after: State)
    requires Inv(before) && Did(before, Step(before, c), r, after)
    ensures Inv(after)
    ensures Funds(before) ==> (Funds(after) <==> ForeignFee(before, c) == 0)
  {
    StepKeeps(before, c);
    if Funds(before) { StepIsSolventIff(before, c); }
  }

  /** `_rand`: a positive multiple of the unit, at most the quantity, drawn by the seed; or, exactly when
      the quantity is below one unit, the trap of dividing by zero units. */
  method RandomShare(quantity: nat, precision: nat, seed: nat) returns (a: Answer)
    ensures a.No? <==> quantity < Unit(precision)
    ensures a.Yes? ==> Unit(precision) > 0 && a.n % Unit(precision) == 0 && 0 < a.n <= quantity
    ensures var unit := Unit(precision);
            a == if unit == 0 || quantity / unit == 0 then No(DivisionTrap)
                 else Yes((seed % (quantity / unit) + 1) * unit)
  {
    var minUnit := if precision <= 2 then 0 else precision - 2;
    var unitBase := Power10(precision);
    var unit := Quotient(unitBase, Power10(minUnit));
    UnitPositive(precision);
    var maxUnits := quantity / unit;
    QuotientZeroIff(quantity, unit);
    if maxUnits == 0 { return No(DivisionTrap); }
    var randUnits := seed % maxUnits + 1;
    UnitMultiple(unit, randUnits, quantity);
    return Yes(randUnits * unit);
  }

  /** `_assign_redpack`, and the even share beside it. */
  method AssignShare(p: Pot, seed: nat) returns (a: Answer)
    requires p.remCount > 0
    ensures a == Share(p, seed)
  {
    match p.kind {
      case RandomShares =>
        if p.remCount == 1 { return Yes(p.remQuant); }
        a := RandomShare(p.remQuant / p.remCount * 2, p.token.symbol.precision, seed);
      case MeanShares =>
        if p.remCount == 1 { return Yes(p.remQuant); }
        if p.totalCount == 0 { return No(DivisionTrap); }
        return Yes(p.totalQuant / p.totalCount);
    }
  }

  /** One step of the scan, at position i of the table. */
  lemma ScanStep(claims: seq<Claim>, i: nat, live: set<Name>, max: nat)
    requires i < |claims| && max > 0
    ensures claims[..i] + DropOrphans(claims[i..], live, max) ==
            if claims[i].code in live then claims[..i + 1] + DropOrphans(claims[i + 1..], live, max)
            else var less := claims[..i] + claims[i + 1..]; less[..i] + DropOrphans(less[i..], live, max - 1)
  {
    var rest := claims[i..];
    assert rest[0] == claims[i] && rest[1..] == claims[i + 1..];
    assert claims[..i + 1] == claims[..i] + [claims[i]];
    var less := claims[..i] + claims[i + 1..];
    assert less[..i] == claims[..i] && less[i..] == claims[i + 1..];
  }

  class RedpackContract {
    const self: Name
    var admin: Name
    var expiryHours: nat
    var unitFee: int
    var feeRequired: bool
    var listed: set<Token>
    var pots: map<Name, Pot>
    var claims: seq<Claim>
    var lastPotId: nat
    var lastClaimId: nat
    var ledger: Balances

    ghost function Now(): State
      reads this
    {
      State(self, admin, expiryHours, unitFee, feeRequired, listed, pots, claims, lastPotId, lastClaimId, ledger)
    }

    constructor (self: Name, admin: Name, expiryHours: nat, unitFee: int, feeRequired: bool, ledger: Balances)
      requires forall t :: BalanceOf(ledger, t, self) == 0
      ensures Now() == State(self, admin, expiryHours, unitFee, feeRequired, {}, map[], [], 0, 0, ledger)
      ensures Genesis(Now())
    {
      this.self, this.admin, this.expiryHours := self, admin, expiryHours;
      this.unitFee, this.feeRequired, this.ledger := unitFee, feeRequired, ledger;
      listed, pots, claims, lastPotId, lastClaimId := {}, map[], [], 0, 0;
    }

    /** The branch of the transfer notification that opens a pot. */
    method HandleDeposit(now: nat, from: Name, token: Token, amount: nat, w: Wrap) returns (r: Receipt)
      modifies this
      ensures Did(old(Now()), OpenPot(old(Now()), now, from, token, amount, w), r, Now())
    {
      if token !in listed { return Aborted(RecordNotFound); }
      if w.code in pots { return Aborted(RedpackExist); }
      if w.kind.None? { return Aborted(TypeInvalid); }
      if w.count <= 0 { return Aborted(NotPositive); }
      if w.count > 10000 { return Aborted(AmountTooLarge); }
      if amount / w.count < 100 { return Aborted(InsufficientQuantity); }
      if w.didRequired {
        var symb := token.symbol.code;
        if !(symb == "FLON" || symb == "USDT" || symb == "USDC" || symb == "TYCHE") {
          return Aborted(DidPackSymbolErr);
        }
      }
      lastPotId := lastPotId + 1;
      var status := if feeRequired then Created else Servicing;
      pots := pots[w.code := Pot(lastPotId, w.kind.value, from, w.didRequired, w.pwhash, token,
                                 amount, w.count, amount, w.count, status, now)];
      return Committed([Deposited(lastPotId, amount)]);
    }

    /** The branch that forwards a pot's fee and puts the pot into service. */
    method HandleFeePayment(token: Token, amount: nat, code: Name) returns (r: Receipt)
      modifies this
      ensures Did(old(Now()), ForwardFee(old(Now()), token, amount, code), r, Now())
    {
      if unitFee <= 0 { return Aborted(FeeNotRequired); }
      if !feeRequired { return Aborted(FeeNotRequired); }
      if token.symbol != SYS_SYMBOL { return Aborted(SymbolMismatch); }
      if code !in pots { return Aborted(RedpackExist); }
      var p := pots[code];
      var required := p.totalCount * unitFee;
      if required > MAX_AMOUNT { return Aborted(AssetOverflow); }
      if amount < required { return Aborted(FeeNotPositive); }
      if p.status != Created { return Aborted(Expired); }
      var after := Transfer(ledger, FLON, self, admin, amount);
      if after.None? { return Aborted(TransferRefused); }
      ledger := after.value;
      pots := pots[code := p.(status := Servicing)];
      return Committed([FeeForwarded(code, amount)]);
    }

    method OnDeposit(now: nat, from: Name, token: Token, amount: int, w: Wrap) returns (r: Receipt)
      modifies this
      ensures Did(old(Now()), Deposit(old(Now()), now, from, token, amount, w), r, Now())
    {
      var saved := ledger;
      var after := Transfer(ledger, token, from, self, amount);
      if after.None? { return Aborted(TransferRefused); }
      ledger := after.value;
      if !Heard(token.bank) { return Committed([]); }
      r := HandleDeposit(now, from, token, amount, w);
      if r.Aborted? { ledger := saved; }
    }

    method OnFee(from: Name, token: Token, amount: int, code: Name) returns (r: Receipt)
      modifies this
      ensures Did(old(Now()), PayFee(old(Now()), from, token, amount, code), r, Now())
    {
      var saved := ledger;
      var after := Transfer(ledger, token, from, self, amount);
      if after.None? { return Aborted(TransferRefused); }
      ledger := after.value;
      if !Heard(token.bank) { return Committed([]); }
      r := HandleFeePayment(token, amount, code);
      if r.Aborted? { ledger := saved; }
    }

    method ClaimRedpack(b: Bid) returns (r: Receipt)
      modifies this
      ensures Did(old(Now()), RedpackSpec.ClaimRedpack(old(Now()), b), r, Now())
    {
      if b.code !in pots { return Aborted(RecordNotFound); }
      var p := pots[b.code];
      if p.pwhash != b.pwhash { return Aborted(PwhashInvalid); }
      if Claimed(claims, b.claimer, b.code) { return Aborted(NotRepeatReceive); }
      if p.status != Servicing { return Aborted(Expired); }
      if p.didRequired {
        if !b.didSupported { return Aborted(DidNotSupported); }
        if !b.didMatched { return Aborted(DidNotAuth); }
      }
      if p.remCount == 0 { return Aborted(InsufficientQuantity); }
      if p.remQuant == 0 { return Aborted(InsufficientQuantity); }
      var share := AssignShare(p, b.seed);
      if share.No? { return Aborted(share.why); }
      if p.remQuant < share.n { return Aborted(InsufficientQuantity); }
      var after := Transfer(ledger, p.token, self, b.claimer, share.n);
      if after.None? { return Aborted(TransferRefused); }
      ledger := after.value;
      var q := p.(remQuant := p.remQuant - share.n, remCount := p.remCount - 1);
      if q.remCount == 0 { q := q.(status := Exhausted); }
      pots := pots[b.code := q];
      lastClaimId := lastClaimId + 1;
      claims := claims + [Claim(lastClaimId, p.id, b.code, p.creator, b.claimer, share.n)];
      return Committed([ClaimPaid(p.id, share.n, b.claimer)]);
    }

    method Cancel(now: nat, code: Name) returns (r: Receipt)
      modifies this
      ensures Did(old(Now()), RedpackSpec.Cancel(old(Now()), now, code), r, Now())
    {
      if code !in pots { return Aborted(RecordNotFound); }
      var p := pots[code];
      if !(now > p.createdAt + expiryHours * HOUR) { return Aborted(NotExpired); }
      r := Committed([]);
      if (p.status == Created || p.status == Servicing) && p.remQuant > 0 {
        var after := Transfer(ledger, p.token, self, p.creator, p.remQuant);
        if after.None? { return Aborted(TransferRefused); }
        ledger := after.value;
        r := Committed([Refunded(p.id, p.remQuant)]);
      }
      pots := pots - {code};
    }

    /** The scan keeps the codes it has found dead in `missing` and does not look them up again; the
        specification looks every code up. */
    method DelClaims(maxRows: nat) returns (r: Receipt)
      modifies this
      ensures Did(old(Now()), RedpackSpec.DelClaims(old(Now()), maxRows), r, Now())
    {
      ghost var live := pots.Keys;
      var missing: set<Name> := {};
      var i, count := 0, 0;
      assert claims == claims[..0] + claims[0..];
      while count < maxRows && i < |claims|
        invariant Now() == old(Now()).(claims := claims)
        invariant i <= |claims| && count <= maxRows && |claims| + count == |old(claims)|
        invariant missing !! live && (count == 0 ==> claims == old(claims))
        invariant DropOrphans(old(claims), live, maxRows) ==
                  claims[..i] + DropOrphans(claims[i..], live, maxRows - count)
        decreases |claims| - i
      {
        ScanStep(claims, i, live, maxRows - count);
        var code := claims[i].code;
        var toDelete := false;
        if code in missing {
          toDelete := true;
        } else if code !in pots {
          missing := missing + {code};
          toDelete := true;
        }
        if toDelete {
          claims := claims[..i] + claims[i + 1..];
          count := count + 1;
        } else {
          i := i + 1;
        }
      }
      assert claims == claims[..i] + claims[i..];
      if count == 0 { return Aborted(NoneDeleted); }
      return Committed([]);
    }

    method Init(who: Name, hours: nat) returns (r: Receipt)
      modifies this
      ensures Did(old(Now()), RedpackSpec.Init(old(Now()), who, hours), r, Now())
    {
      if hours == 0 { return Aborted(TimeInvalid); }
      admin, expiryHours := who, hours;
      return Committed([]);
    }

    method ListToken(token: Token) returns (r: Receipt)
      modifies this
      ensures Did(old(Now()), RedpackSpec.ListToken(old(Now()), token), r, Now())
    {
      listed := listed + {token};
      return Committed([]);
    }

    method DelistToken(token: Token) returns (r: Receipt)
      modifies this
      ensures Did(old(Now()), RedpackSpec.DelistToken(old(Now()), token), r, Now())
    {
      if token !in listed { return Aborted(RecordNotFound); }
      listed := listed - {token};
      return Committed([]);
    }

    method Elsewhere(token: Token, from: Name, to: Name, amount: int) returns (r: Receipt)
      modifies this
      ensures Did(old(Now()), RedpackSpec.Elsewhere(old(Now()), token, from, to, amount), r, Now())
    {
      if from == self || to == self { return Aborted(TransferRefused); }
      var after := Transfer(ledger, token, from, to, amount);
      if after.None? { return Aborted(TransferRefused); }
      ledger := after.value;
      return Committed([]);
    }

    /** Any call at all: it takes exactly the step of the state machine, so the invariant survives,
        and solvency survives exactly unless the call is an accepted foreign fee. */
    method Apply(c: Call) returns (r: Receipt)
      requires Inv(Now())
      modifies this
      ensures Inv(Now()) && Did(old(Now()), Step(old(Now()), c), r, Now())
      ensures old(Funds(Now())) ==> (Funds(Now()) <==> ForeignFee(old(Now()), c) == 0)
    {
      ghost var before := Now();
      match c.action {
        case DoInit(who, hours) => r := Init(who, hours);
        case DoListToken(token) => r := ListToken(token);
        case DoDelistToken(token) => r := DelistToken(token);
        case DoDeposit(from, token, amount, wrap) => r := OnDeposit(c.now, from, token, amount, wrap);
        case DoPayFee(from, token, amount, code) => r := OnFee(from, token, amount, code);
        case DoClaim(bid) => r := ClaimRedpack(bid);
        case DoCancel(code) => r := Cancel(c.now, code);
        case DoDelClaims(maxRows) => r := DelClaims(maxRows);
        case DoElsewhere(token, from, to, amount) => r := Elsewhere(token, from, to, amount);
      }
      DidKeeps(before, c, r, Now());
    }
  }
}
