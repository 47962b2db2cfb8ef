/** Exactly when each action of flon.split goes through and what it does, on the stored fields. */
module SplitEffects {
  import opened Tables
  import opened Ledger
  import opened SplitSpec
  import opened SplitSafety
  import opened SplitWallets

  // ---------- plans ----------

  /** Rates from 1 to 10000 that sum to 10000, for receivers named once. */
  predicate Shares(conf: seq<SplitUnit>) {
    && (forall k :: 0 <= k < |conf| ==> 1 <= conf[k].rate <= 10000)
    && (forall j, k :: 0 <= j < k < |conf| ==> conf[j].receiver != conf[k].receiver)
    && RateSum(conf) == 10000
  }

  lemma SharesAreChecked(conf: seq<SplitUnit>)
    ensures CheckRate(conf).None? <==> Shares(conf)
  {
    CheckRateAcceptsIff(conf);
  }

  /** The limits set by `init` are at least 1 and at most 50, and those the next plan must keep to. */
  lemma LimitsTakeEffect(s: State, minCount: nat, maxCount: nat, owner: Name, title: string, conf: seq<SplitUnit>,
                         auto: bool)
    ensures Init(s, minCount, maxCount).Done? <==> minCount >= 1 && maxCount <= 50
    ensures Init(s, minCount, maxCount).Done? ==>
              var t := Init(s, minCount, maxCount).state;
              && t == s.(minCount := minCount, maxCount := maxCount)
              && (AddPlan(t, owner, title, conf, auto).Done? ==> minCount <= |conf| <= maxCount)
  {
  }

  /** Exactly when a plan is added, and its row under the next id. */
  lemma AddPlanIff(s: State, owner: Name, title: string, conf: seq<SplitUnit>, auto: bool)
    ensures AddPlan(s, owner, title, conf, auto).Done? <==>
            s.minCount <= |conf| <= s.maxCount && 4 <= |title| <= 255 && Shares(conf)
    ensures AddPlan(s, owner, title, conf, auto).Done? ==>
            AddPlan(s, owner, title, conf, auto) ==
            Done(s.(lastPlanId := s.lastPlanId + 1,
                    plans := s.plans[s.lastPlanId + 1 := Plan(owner, title, conf, auto)]))
  {
    SharesAreChecked(conf);
  }

  /** A batch of twenty fails: it reaches the wallet of the contract itself. */
  predicate Blocked(s: State, planId: nat) {
    s.self in Owners(s.wallets, planId) && |Before(Owners(s.wallets, planId), s.self)| < 20
  }

  /** The plan's row edited: receivers, rates and type, not the creator or the title. */
  function Edited(s: State, planId: nat, conf: seq<SplitUnit>, auto: bool): State
    requires planId in s.plans
  {
    s.(plans := s.plans[planId := Plan(s.plans[planId].creator, s.plans[planId].title, conf, auto)])
  }

  lemma EditedIsSound(s: State, planId: nat, conf: seq<SplitUnit>, auto: bool)
    requires Inv(s) && planId in s.plans && Shares(conf)
    ensures Inv(Edited(s, planId, conf, auto))
  {
    SharesAreChecked(conf);
    CheckRateAcceptsIff(conf);
    SameWalletsKeep(s, Edited(s, planId, conf, auto));
  }

  /** Exactly when a plan can be edited, in any reachable state: by its creator, with receivers a new plan
      could have; and a switch to auto also needs the first batch of its wallets to be payable. */
  lemma EditPlanIff(s: State, owner: Name, planId: nat, conf: seq<SplitUnit>, auto: bool)
    requires Inv(s)
    ensures EditPlan(s, owner, planId, conf, auto).Done? <==>
            && s.minCount <= |conf| <= s.maxCount && Shares(conf)
            && planId in s.plans && s.plans[planId].creator == owner && !(auto && Blocked(s, planId))
  {
    SharesAreChecked(conf);
    if planId in s.plans && Shares(conf) {
      EditedIsSound(s, planId, conf, auto);
      EmptyWalletsIff(Edited(s, planId, conf, auto), planId, 20);
    }
  }

  /** What an edit does: to the plans, only that this one has the new receivers, rates and type; to the wallets
      and balances nothing, except that a switch to auto pays off the first twenty owners. */
  lemma EditPlanSets(s: State, owner: Name, planId: nat, conf: seq<SplitUnit>, auto: bool)
    requires Inv(s) && EditPlan(s, owner, planId, conf, auto).Done?
    ensures planId in s.plans
    ensures var t, m := EditPlan(s, owner, planId, conf, auto).state, Edited(s, planId, conf, auto);
            && t.plans == m.plans
            && (if auto then PaidOff(m, t, planId, FirstOwners(Owners(s.wallets, planId), 20)) else t == m)
  {
    SharesAreChecked(conf);
    var m := Edited(s, planId, conf, auto);
    EditedIsSound(s, planId, conf, auto);
    if auto { EmptyWalletsPays(m, planId, 20, EditPlan(s, owner, planId, conf, auto).state); }
  }

  // ---------- deposits ----------

  /** What a deposit to the plan hands to an account in all. */
  function Due(s: State, planId: nat, quant: int, who: Name): nat
    requires planId in s.plans
  {
    var conf := s.plans[planId].conf;
    if quant <= 0 || conf == [] then 0 else
    match AllPayouts(quant, conf) case None => 0 case Some(payouts) => Received(payouts, who)
  }

  lemma {:induction false} ReceivedIsPart(payouts: seq<Payout>, who: Name)
    ensures Received(payouts, who) <= Total(payouts)
  {
    if payouts != [] { ReceivedIsPart(payouts[1..], who); }
  }

  lemma {:induction false} AutoAwardsIff(s: State, planId: nat, token: Token, payouts: seq<Payout>)
    requires forall k :: 0 <= k < |payouts| ==> payouts[k].amount > 0
    requires Total(payouts) <= BalanceOf(s.ledger, token, s.self) && Total(payouts) <= MAX_AMOUNT
    ensures AwardAll(s, planId, true, token, payouts).Done? <==> Received(payouts, s.self) == 0
    decreases |payouts|
  {
    if payouts != [] {
      var p, rest := payouts[0], payouts[1..];
      var m := Award(s, planId, true, token, p);
      if p.to != s.self {
        TransferMoves(s.ledger, token, s.self, p.to, p.amount);
        AutoAwardsIff(m.state, planId, token, rest);
        assert AwardAll(s, planId, true, token, payouts) == AwardAll(m.state, planId, true, token, rest);
      }
    }
  }

  /** The wallet has room for the payouts. */
  predicate Room(s: State, planId: nat, token: Token, payouts: seq<Payout>, who: Name) {
    Amount(WalletOf(s, planId, who), token) + Received(payouts, who) <= MAX_AMOUNT
  }

  lemma {:induction false} ManualAwardsIff(s: State, planId: nat, token: Token, payouts: seq<Payout>)
    requires forall who :: Room(s, planId, token, [], who)
    ensures AwardAll(s, planId, false, token, payouts).Done? <==> forall who :: Room(s, planId, token, payouts, who)
    decreases |payouts|
  {
    if payouts != [] {
      var p, rest := payouts[0], payouts[1..];
      var m := Award(s, planId, false, token, p);
      if m.Done? {
        var t := m.state;
        forall who ensures Room(t, planId, token, rest, who) <==> Room(s, planId, token, payouts, who) {}
        forall who ensures Room(t, planId, token, [], who) { assert Room(s, planId, token, [], who); }
        ManualAwardsIff(t, planId, token, rest);
        assert AwardAll(s, planId, false, token, payouts) == AwardAll(t, planId, false, token, rest);
      } else {
        assert !Room(s, planId, token, payouts, p.to);
      }
    } else {
      assert AwardAll(s, planId, false, token, payouts) == Done(s);
    }
  }

  /** What a transfer into the contract needs. */
  predicate Payable(s: State, from: Name, token: Token, quant: int) {
    0 < quant <= MAX_AMOUNT && from != s.self && quant <= BalanceOf(s.ledger, token, from)
  }

  /** Exactly when a deposit goes through, in any reachable state. Dividing it never fails. The contract
      itself must be due nothing under an auto plan; and no wallet of a manual plan may outgrow the largest
      amount. */
  lemma DepositSucceedsIff(s: State, from: Name, token: Token, quant: int, planId: nat)
    requires Inv(s)
    ensures Deposit(s, from, token, quant, planId).Done? <==>
            && Payable(s, from, token, quant) && planId in s.plans
            && if s.plans[planId].auto then Due(s, planId, quant, s.self) == 0
               else forall who :: Amount(WalletOf(s, planId, who), token) + Due(s, planId, quant, who) <= MAX_AMOUNT
  {
    if Payable(s, from, token, quant) && planId in s.plans {
      TransferMoves(s.ledger, token, from, s.self, quant);
      var m := s.(ledger := Transfer(s.ledger, token, from, s.self, quant).value);
      DivisionIsExact(quant, s.plans[planId].conf);
      var payouts := AllPayouts(quant, s.plans[planId].conf).value;
      if s.plans[planId].auto {
        AutoAwardsIff(m, planId, token, payouts);
      } else {
        forall who ensures Room(m, planId, token, [], who) { WalletsFit(s, planId, token, who); }
        ManualAwardsIff(m, planId, token, payouts);
        forall who ensures Due(s, planId, quant, who) == Received(payouts, who) {}
        assert forall who :: Room(m, planId, token, payouts, who) <==>
                 Amount(WalletOf(s, planId, who), token) + Due(s, planId, quant, who) <= MAX_AMOUNT;
      }
    }
  }

  lemma WalletsFit(s: State, planId: nat, token: Token, who: Name)
    requires Inv(s)
    ensures Amount(WalletOf(s, planId, who), token) <= MAX_AMOUNT
  {
    if (planId, who) in s.wallets { assert WalletOk(s.wallets[(planId, who)]); }
  }

  /** An account that is no receiver is due nothing. */
  lemma StrangersGetNothing(s: State, planId: nat, quant: int, who: Name)
    requires Inv(s) && planId in s.plans
    requires forall k :: 0 <= k < |s.plans[planId].conf| ==> s.plans[planId].conf[k].receiver != who
    ensures Due(s, planId, quant, who) == 0
  {
    if quant > 0 {
      var conf := s.plans[planId].conf;
      DivisionIsExact(quant, conf);
      var d := Divide(quant, quant, conf);
      Stranger(quant, quant, conf, who);
      var last := if d.rest > 0 then [Payout(conf[0].receiver, d.rest)] else [];
      ReceivedBoth(d.payouts, last, who);
      assert last != [] ==> last[1..] == [];
    }
  }

  /** A deposit leaves alone the plans, the wallets of other plans, other tokens in the wallets of this one, and
      the balances of every other token. */
  lemma DepositSpares(s: State, from: Name, token: Token, quant: int, planId: nat, other: Token, id: nat, who: Name)
    requires Deposit(s, from, token, quant, planId).Done?
    ensures var t := Deposit(s, from, token, quant, planId).state;
            && t == s.(wallets := t.wallets, ledger := t.ledger)
            && (other != token ==> BalanceOf(t.ledger, other, who) == BalanceOf(s.ledger, other, who))
            && (other != token ==> Amount(WalletOf(t, id, who), other) == Amount(WalletOf(s, id, who), other))
            && (id != planId ==> WalletOf(t, id, who) == WalletOf(s, id, who))
  {
    var m := s.(ledger := Transfer(s.ledger, token, from, s.self, quant).value);
    AwardsSpare(m, planId, s.plans[planId].auto, token, AllPayouts(quant, s.plans[planId].conf).value, other, id, who);
  }

  lemma {:induction false} AwardsSpare(s: State, planId: nat, auto: bool, token: Token, payouts: seq<Payout>,
                                       other: Token, id: nat, who: Name)
    requires AwardAll(s, planId, auto, token, payouts).Done?
    ensures var t := AwardAll(s, planId, auto, token, payouts).state;
            && t == s.(wallets := t.wallets, ledger := t.ledger)
            && (other != token ==> BalanceOf(t.ledger, other, who) == BalanceOf(s.ledger, other, who))
            && (other != token ==> Amount(WalletOf(t, id, who), other) == Amount(WalletOf(s, id, who), other))
            && (id != planId ==> WalletOf(t, id, who) == WalletOf(s, id, who))
    decreases |payouts|
  {
    if payouts != [] {
      var m := Award(s, planId, auto, token, payouts[0]).state;
      AwardsSpare(m, planId, auto, token, payouts[1..], other, id, who);
      assert AwardAll(s, planId, auto, token, payouts) == AwardAll(m, planId, auto, token, payouts[1..]);
    }
  }

  // ---------- claims ----------

  /** Exactly when a wallet can be claimed, in any reachable state, and that this pays it and nothing else. */
  lemma ClaimSucceedsIff(s: State, planId: nat, owner: Name)
    requires Inv(s)
    ensures Claim(s, planId, owner).Done? <==> (planId, owner) in s.wallets && owner != s.self
    ensures Claim(s, planId, owner).Done? ==> PaidOff(s, Claim(s, planId, owner).state, planId, {owner})
  {
    if (planId, owner) in s.wallets {
      PayWalletPays(s, planId, owner);
      OwnersAfterPay(s.wallets, planId, owner);
      if owner != s.self {
        var t := Claim(s, planId, owner).state;
        forall who | who != s.self ensures Credited(s, t, planId, {owner}, who) {}
      }
    }
  }

  /** Exactly when a batch can be claimed, in any reachable state, and whom it pays. */
  lemma ClaimAllSucceedsIff(s: State, planId: nat)
    requires Inv(s)
    ensures ClaimAll(s, planId).Done? <==> Owners(s.wallets, planId) != {} && !Blocked(s, planId)
    ensures ClaimAll(s, planId).Done? ==>
            PaidOff(s, ClaimAll(s, planId).state, planId, FirstOwners(Owners(s.wallets, planId), 20))
  {
    EmptyWalletsIff(s, planId, 20);
    if Owners(s.wallets, planId) != {} {
      OwnerHasWallet(s.wallets, planId, AnyOf(Owners(s.wallets, planId)));
      if ClaimAll(s, planId).Done? { EmptyWalletsPays(s, planId, 20, ClaimAll(s, planId).state); }
    }
  }

  // ---------- runs ----------

  /** Other accounts transfer what they own among themselves, and the contract's tables do not change. */
  lemma OthersTransferFreely(s: State, token: Token, from: Name, to: Name, amount: int)
    ensures Elsewhere(s, token, from, to, amount).Done? <==>
            && from != s.self && to != s.self && from != to
            && 0 < amount <= MAX_AMOUNT && amount <= BalanceOf(s.ledger, token, from)
    ensures Elsewhere(s, token, from, to, amount).Done? ==>
            var t := Elsewhere(s, token, from, to, amount).state; t == s.(ledger := t.ledger)
  {
  }

  /** A run of one action is that action; one that is refused changes nothing. */
  lemma OneStep(s: State, c: Action)
    ensures Run(s, []) == s && Run(s, [c]) == match Step(s, c) case Done(t) => t case Abort(_) => s
  {
    assert [c][..0] == [];
  }

  /** A run goes on where the one before it stopped. */
  lemma {:induction false} RunsCompose(s: State, earlier: seq<Action>, later: seq<Action>)
    ensures Run(s, earlier + later) == Run(Run(s, earlier), later)
    decreases |later|
  {
    if later == [] {
      assert earlier + later == earlier;
    } else {
      var n := |later| - 1;
      assert (earlier + later)[..|earlier + later| - 1] == earlier + later[..n];
      RunsCompose(s, earlier, later[..n]);
    }
  }
}
