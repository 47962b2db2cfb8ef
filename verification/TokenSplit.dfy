/** The flon.split contract: its tables as fields, its actions as methods that update them in place.
    Every method is proved to do exactly what SplitSpec says. */
module TokenSplit {
  import opened Tables
  import opened Ledger
  import opened SplitSpec
  import opened SplitSafety
  import opened SplitWallets

  /** None is success. The action had this outcome: on an abort nothing was written. */
  ghost predicate Did(before: State, o: Outcome, r: Option<Failure>, after: State) {
    match o
    case Done(t) => r == None && after == t
    case Abort(why) => r == Some(why) && after == before
  }

  lemma DidKeeps(before: State, a: Action, r: Option<Failure>, after: State)
    requires Inv(before) && Did(before, Step(before, a), r, after)
    ensures Inv(after)
  {
    StepKeeps(before, a);
  }

  /** The walk over the receivers, with the set of names seen so far and the running sum. */
  method CheckRates(conf: seq<SplitUnit>) returns (r: Option<Failure>)
    ensures r == SplitSpec.CheckRate(conf)
    ensures r.None? <==> ValidConf(conf)
  {
    CheckRateAcceptsIff(conf);
    var initRate := 0;
    var seen: set<Name> := {};
    assert conf[0..] == conf;
    for k := 0 to |conf|
      invariant UnitFault(conf, {}) == UnitFault(conf[k..], seen)
      invariant initRate + RateSum(conf[k..]) == RateSum(conf)
    {
      var c := conf[k];
      assert conf[k..][0] == c && conf[k..][1..] == conf[k + 1..];
      if !(c.rate > 0 && c.rate <= PCT_BOOST) { return Some(Oversized); }
      initRate := initRate + c.rate;
      if c.receiver in seen { return Some(ParamError); }
      seen := seen + {c.receiver};
    }
    if initRate != PCT_BOOST { return Some(Oversized); }
    return None;
  }

  /** The product wraps at 64 bits before it is divided: the share is never above the proportional part,
      and equals it exactly when the product does not wrap. */
  method ShareOf(quant: nat, rate: nat) returns (tokens: nat)
    ensures tokens == Share(quant, rate)
    ensures PCT_BOOST * tokens <= quant * rate
    ensures tokens == quant * rate / PCT_BOOST <==> quant * rate < TWO64
  {
    ShareBound(quant, rate);
    var product := quant * rate % TWO64;
    tokens := product / PCT_BOOST;
  }

  /** One turn of the division, at receiver k with `left` to give. */
  lemma NextShare(quant: nat, left: nat, conf: seq<SplitUnit>, k: nat)
    requires k < |conf| && Divide(quant, left, conf[k..]).Parts?
    ensures var share := Share(quant, conf[k].rate); var d := Divide(quant, left, conf[k..]);
            if share == 0 then d == Parts([], left)
            else share <= left && d.payouts != [] && d.payouts[0] == Payout(conf[k].receiver, share) &&
                 Divide(quant, left - share, conf[k + 1..]) == Parts(d.payouts[1..], d.rest)
  {
    assert conf[k..][0] == conf[k] && conf[k..][1..] == conf[k + 1..];
  }

  lemma {:induction false} AwardAllBoth(s: State, planId: nat, auto: bool, token: Token, a: seq<Payout>, b: seq<Payout>)
    ensures AwardAll(s, planId, auto, token, a + b) ==
            match AwardAll(s, planId, auto, token, a)
            case Abort(why) => Abort(why)
            case Done(t) => AwardAll(t, planId, auto, token, b)
    decreases |a|
  {
    if a == [] {
      assert a + b == b;
    } else {
      assert (a + b)[1..] == a[1..] + b;
      var first := Award(s, planId, auto, token, a[0]);
      if first.Done? { AwardAllBoth(first.state, planId, auto, token, a[1..], b); }
    }
  }

  lemma AwardAllOne(s: State, planId: nat, auto: bool, token: Token, p: Payout)
    ensures AwardAll(s, planId, auto, token, [p]) == Award(s, planId, auto, token, p)
  {
    assert [p][1..] == [];
  }

  class TokenSplitContract {
    const self: Name
    var minCount: nat
    var maxCount: nat
    var lastPlanId: nat
    var plans: map<nat, Plan>
    var wallets: Wallets
    var ledger: Balances

    ghost function Now(): State
      reads this
    {
      State(self, minCount, maxCount, lastPlanId, plans, wallets, ledger)
    }

    constructor (self: Name, ledger: Balances)
      requires forall t :: BalanceOf(ledger, t, self) == 0
      ensures Now() == State(self, 2, 10, 0, map[], map[], ledger) && Genesis(Now())
    {
      this.self, this.ledger := self, ledger;
      minCount, maxCount, lastPlanId, plans, wallets := 2, 10, 0, map[], map[];
    }

    method Init(least: nat, most: nat) returns (r: Option<Failure>)
      modifies this
      ensures Did(old(Now()), SplitSpec.Init(old(Now()), least, most), r, Now())
    {
      if !(least >= 1 && most <= 50) { return Some(ParamError); }
      minCount, maxCount := least, most;
      return None;
    }

    method AddPlan(owner: Name, title: string, conf: seq<SplitUnit>, auto: bool) returns (r: Option<Failure>)
      modifies this
      ensures Did(old(Now()), SplitSpec.AddPlan(old(Now()), owner, title, conf, auto), r, Now())
    {
      if !(|conf| >= minCount && |conf| <= maxCount) { return Some(Oversized); }
      if !(|title| >= 4 && |title| <= 255) { return Some(Oversized); }
      r := CheckRates(conf);
      if r.Some? { return; }
      lastPlanId := lastPlanId + 1;
      plans := plans[lastPlanId := Plan(owner, title, conf, auto)];
    }

    /** Sends one wallet's tokens, in some order, and erases it. */
    method PayWallet(planId: nat, owner: Name) returns (r: Option<Failure>)
      requires (planId, owner) in wallets
      modifies this
      ensures Did(old(Now()), SplitSpec.PayWallet(old(Now()), planId, owner), r, Now())
    {
      var saved := ledger;
      var balances := wallets[(planId, owner)];
      while balances.Keys != {}
        invariant Now() == old(Now()).(ledger := ledger)
        invariant PayTokens(ledger, self, owner, balances) == PayTokens(saved, self, owner, wallets[(planId, owner)])
        decreases |balances|
      {
        var t :| t in balances.Keys;
        PayInAnyOrder(ledger, self, owner, balances, t);
        if balances[t] > 0 {
          var after := Transfer(ledger, t, self, owner, balances[t]);
          if after.None? {
            ledger := saved;
            return Some(TransferRefused);
          }
          ledger := after.value;
        }
        balances := balances - {t};
      }
      wallets := wallets - {(planId, owner)};
      return None;
    }

    method Claim(planId: nat, owner: Name) returns (r: Option<Failure>)
      modifies this
      ensures Did(old(Now()), SplitSpec.Claim(old(Now()), planId, owner), r, Now())
    {
      if planId !in plans { return Some(RecordNotFound); }
      if (planId, owner) !in wallets { return Some(RecordNotFound); }
      if wallets[(planId, owner)] == map[] { return Some(RecordNotFound); }
      r := PayWallet(planId, owner);
    }

    /** `_empty_wallets`: the first wallet again and again, at most twenty times. */
    method EmptyWallets(planId: nat, limit: nat) returns (r: Option<Failure>)
      modifies this
      ensures Did(old(Now()), SplitSpec.EmptyWallets(old(Now()), planId, limit), r, Now())
    {
      var savedWallets, savedLedger := wallets, ledger;
      var curr := 0;
      var owners := Owners(wallets, planId);
      while curr < limit && owners != {}
        invariant curr <= limit && owners == Owners(wallets, planId)
        invariant Now() == old(Now()).(wallets := wallets, ledger := ledger)
        invariant SplitSpec.EmptyWallets(Now(), planId, limit - curr) ==
                  SplitSpec.EmptyWallets(old(Now()), planId, limit)
        decreases limit - curr
      {
        var o := Smallest(owners);
        OwnerHasWallet(wallets, planId, o);
        r := PayWallet(planId, o);
        if r.Some? {
          wallets, ledger := savedWallets, savedLedger;
          return;
        }
        owners := Owners(wallets, planId);
        curr := curr + 1;
      }
      return None;
    }

    method ClaimAll(planId: nat) returns (r: Option<Failure>)
      modifies this
      ensures Did(old(Now()), SplitSpec.ClaimAll(old(Now()), planId), r, Now())
    {
      if planId !in plans { return Some(RecordNotFound); }
      if Owners(wallets, planId) == {} { return Some(RecordNotFound); }
      r := EmptyWallets(planId, BATCH);
    }

    method EditPlan(owner: Name, planId: nat, conf: seq<SplitUnit>, auto: bool) returns (r: Option<Failure>)
      modifies this
      ensures Did(old(Now()), SplitSpec.EditPlan(old(Now()), owner, planId, conf, auto), r, Now())
    {
      if !(|conf| >= minCount && |conf| <= maxCount) { return Some(Oversized); }
      r := CheckRates(conf);
      if r.Some? { return; }
      if planId !in plans { return Some(RecordNotFound); }
      if plans[planId].creator != owner { return Some(NoAuth); }
      var saved := plans;
      plans := plans[planId := plans[planId].(conf := conf, auto := auto)];
      if auto {
        if Owners(wallets, planId) != {} {
          r := ClaimAll(planId);
          if r.Some? { plans := saved; }
        }
      }
    }

    /** One receiver's tokens: sent at once, or added to its wallet. */
    method Award(planId: nat, auto: bool, token: Token, p: Payout) returns (r: Option<Failure>)
      modifies this
      ensures Did(old(Now()), SplitSpec.Award(old(Now()), planId, auto, token, p), r, Now())
    {
      if auto {
        var after := Transfer(ledger, token, self, p.to, p.amount);
        if after.None? { return Some(TransferRefused); }
        ledger := after.value;
      } else {
        var key := (planId, p.to);
        var w: Wallet := if key in wallets then wallets[key] else map[];
        if token in w {
          if w[token] + p.amount > MAX_AMOUNT { return Some(AssetOverflow); }
          w := w[token := w[token] + p.amount];
        } else {
          if p.amount > MAX_AMOUNT { return Some(AssetOverflow); }
          w := w[token := p.amount];
        }
        wallets := wallets[key := w];
      }
      return None;
    }

    /** The loop of `_split`: each receiver's share in turn, up to the first that comes to nothing. */
    method GiveShares(planId: nat, plan: Plan, token: Token, quant: nat) returns (r: Option<Failure>, left: nat)
      requires Divide(quant, quant, plan.conf).Parts?
      modifies this
      ensures Did(old(Now()),
                  AwardAll(old(Now()), planId, plan.auto, token, Divide(quant, quant, plan.conf).payouts), r, Now())
      ensures r.None? ==> left == Divide(quant, quant, plan.conf).rest
      ensures Now() == old(Now()).(wallets := wallets, ledger := ledger)
    {
      var savedWallets, savedLedger := wallets, ledger;
      ghost var todo := Divide(quant, quant, plan.conf).payouts;
      left := quant;
      var k := 0;
      assert plan.conf[0..] == plan.conf;
      while k < |plan.conf|
        invariant k <= |plan.conf|
        invariant Now() == old(Now()).(wallets := wallets, ledger := ledger)
        invariant Divide(quant, left, plan.conf[k..]) == Parts(todo, Divide(quant, quant, plan.conf).rest)
        invariant AwardAll(Now(), planId, plan.auto, token, todo) ==
                  AwardAll(old(Now()), planId, plan.auto, token, Divide(quant, quant, plan.conf).payouts)
      {
        var u := plan.conf[k];
        var tokens := ShareOf(quant, u.rate);
        NextShare(quant, left, plan.conf, k);
        if tokens <= 0 { break; }
        if tokens > left {
          assert false;  // where the source finds the distribution balance insufficient
        }
        r := Award(planId, plan.auto, token, Payout(u.receiver, tokens));
        if r.Some? {
          wallets, ledger := savedWallets, savedLedger;
          return;
        }
        left := left - tokens;
        k := k + 1;
        todo := todo[1..];
      }
      r := None;
    }

    /** `_split`: the shares, and what is left over to the first receiver. */
    method Split(planId: nat, token: Token, quant: nat) returns (r: Option<Failure>)
      requires planId in plans ==> ValidConf(plans[planId].conf)
      modifies this
      ensures Did(old(Now()), SplitSpec.Split(old(Now()), planId, token, quant), r, Now())
    {
      if planId !in plans { return Some(RecordNotFound); }
      var plan := plans[planId];
      var savedWallets, savedLedger := wallets, ledger;
      DivisionIsExact(quant, plan.conf);
      ghost var d := Divide(quant, quant, plan.conf);
      ghost var last := if d.rest > 0 then [Payout(plan.conf[0].receiver, d.rest)] else [];
      AwardAllBoth(Now(), planId, plan.auto, token, d.payouts, last);
      assert SplitSpec.Split(Now(), planId, token, quant) ==
             AwardAll(Now(), planId, plan.auto, token, d.payouts + last);
      var left;
      r, left := GiveShares(planId, plan, token, quant);
      if r.Some? { return; }
      if left > 0 {
        AwardAllOne(Now(), planId, plan.auto, token, Payout(plan.conf[0].receiver, left));
        r := Award(planId, plan.auto, token, Payout(plan.conf[0].receiver, left));
        if r.Some? { wallets, ledger := savedWallets, savedLedger; }
      }
    }

    method OnTransfer(from: Name, token: Token, quant: int, planId: nat) returns (r: Option<Failure>)
      requires planId in plans ==> ValidConf(plans[planId].conf)
      modifies this
      ensures Did(old(Now()), Deposit(old(Now()), from, token, quant, planId), r, Now())
    {
      var saved := ledger;
      var after := Transfer(ledger, token, from, self, quant);
      if after.None? { return Some(TransferRefused); }
      ledger := after.value;
      r := Split(planId, token, quant);
      if r.Some? { ledger := saved; }
    }

    method Elsewhere(token: Token, from: Name, to: Name, amount: int) returns (r: Option<Failure>)
      modifies this
      ensures Did(old(Now()), SplitSpec.Elsewhere(old(Now()), token, from, to, amount), r, Now())
    {
      if from == self || to == self { return Some(TransferRefused); }
      var after := Transfer(ledger, token, from, to, amount);
      if after.None? { return Some(TransferRefused); }
      ledger := after.value;
      return None;
    }

    /** Any action at all: it takes exactly the step of the state machine, so the invariant survives. */
    method Apply(a: Action) returns (r: Option<Failure>)
      requires Inv(Now())
      modifies this
      ensures Inv(Now()) && Did(old(Now()), Step(old(Now()), a), r, Now())
    {
      ghost var before := Now();
      match a {
        case DoInit(least, most) => r := Init(least, most);
        case DoAddPlan(owner, title, conf, auto) => r := AddPlan(owner, title, conf, auto);
        case DoEditPlan(owner, planId, conf, auto) => r := EditPlan(owner, planId, conf, auto);
        case DoDeposit(from, token, amount, planId) => r := OnTransfer(from, token, amount, planId);
        case DoClaim(planId, owner) => r := Claim(planId, owner);
        case DoClaimAll(planId) => r := ClaimAll(planId);
        case DoElsewhere(token, from, to, amount) => r := Elsewhere(token, from, to, amount);
      }
      DidKeeps(before, a, r, Now());
    }
  }
}
