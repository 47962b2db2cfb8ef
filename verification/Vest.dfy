/** The flon.vest contract: its tables as fields, its actions as methods that update them in place.
    Every method is proved to do exactly what VestSpec says, and so to keep the invariant. */
module Vest {
  import opened Tables
  import opened Ledger
  import opened Rounding
  import opened VestSpec
  import opened VestSafety

  /** What the caller of an action gets back. */
  datatype Receipt = Committed(sent: seq<Payment>) | Aborted(why: Failure)

  /** The action had this outcome: on an abort nothing was written. */
  ghost predicate Did(before: State, o: Outcome, r: Receipt, after: State) {
    match o
    case Done(t, sent) => r == Committed(sent) && after == t
    case Abort(why) => r == Aborted(why) && after == before
  }

  lemma DidKeeps(before: State, c: Call, r: Receipt, after: State)
    requires Inv(before) && Did(before, Step(before, c), r, after)
    ensures Inv(after)
  {
    StepKeeps(before, c);
  }

  lemma NextKeyIs(keys: set<nat>, k: nat)
    requires k >= 1 && (forall j :: j in keys ==> j < k) && (k == 1 || k - 1 in keys)
    ensures k == NextKey(keys)
  {
  }

  /** `available_primary_key`, bumped from 0 to 1. */
  method AvailableKey(keys: set<nat>) returns (k: nat)
    ensures k == NextKey(keys)
  {
    k := 1;
    var rest := keys;
    while rest != {}
      invariant rest <= keys && k >= 1 && (k == 1 || k - 1 in keys)
      invariant forall j :: j in keys && j !in rest ==> j < k
      decreases |rest|
    {
      var j :| j in rest;
      rest := rest - {j};
      if k <= j { k := j + 1; }
    }
    NextKeyIs(keys, k);
  }

  /** multiply_decimal64 on the operands of unlock. */
  method MultiplyDecimal64(issued: nat, k: nat, times: nat) returns (share: Option<int>)
    requires times > 0
    ensures share == if 10 * (issued * k) / times <= INT64_MAX then Some(Nearest(issued * k, times)) else None
  {
    MultiplyDecimalIsNearest(issued, k, times);
    share := MultiplyDecimal(issued, k, times);
  }

  /** The arithmetic of unlock, up to the new unlocked total. */
  method TotalUnlocked(p: Plan, i: Issue, now: nat) returns (a: Answer)
    requires p.interval > 0 && p.times > 0 && i.issuedAt <= now
    ensures a == UnlockTarget(p, i, now)
  {
    var issuedDays := (Seconds(now) - Seconds(i.issuedAt)) / DAY_SECONDS;
    var unlockedDays := issuedDays - i.firstUnlockDays;
    if unlockedDays < 0 { return No(Premature); }
    var unlockedTimes := 1 + Min(unlockedDays / p.interval, p.times);
    if unlockedTimes >= p.times { return Yes(i.issued); }
    var share := MultiplyDecimal64(i.issued, unlockedTimes, p.times);
    if share.None? { return No(MultiplyOverflow); }
    if !(share.value >= i.unlocked && i.issued >= share.value) { return No(ScheduleRegressed); }
    return Yes(share.value);
  }

  class VestContract {
    const self: Name
    var feeReceiver: Name
    var planFee: int
    var plans: map<nat, Plan>
    var issues: map<nat, Issue>
    var lastPlan: map<Name, nat>
    var ledger: Balances

    ghost function Now(): State
      reads this
    {
      State(self, feeReceiver, planFee, plans, issues, lastPlan, ledger)
    }

    ghost predicate Valid()
      reads this
    {
      Inv(Now())
    }

    constructor (self: Name, feeReceiver: Name, planFee: int, ledger: Balances)
      requires forall t :: BalanceOf(ledger, t, self) == 0
      ensures Now() == State(self, feeReceiver, planFee, map[], map[], map[], ledger) && Valid()
    {
      this.self, this.feeReceiver, this.planFee := self, feeReceiver, planFee;
      plans, issues, lastPlan, this.ledger := map[], map[], map[], ledger;
      new;
      GenesisIsFine(Now());
    }

    method Init(fee: int, receiver: Name) returns (r: Receipt)
      modifies this
      ensures Did(old(Now()), VestSpec.Init(old(Now()), fee, receiver), r, Now())
    {
      planFee, feeReceiver := fee, receiver;
      return Committed([]);
    }

    /** A transfer between two other accounts. */
    method Elsewhere(token: Token, from: Name, to: Name, amount: int) returns (r: Receipt)
      modifies this
      ensures Did(old(Now()), VestSpec.Elsewhere(old(Now()), token, from, to, amount), r, Now())
    {
      if from == self || to == self { return Aborted(TransferRefused); }
      var after := Transfer(ledger, token, from, to, amount);
      if after.None? { return Aborted(TransferRefused); }
      ledger := after.value;
      return Committed([]);
    }

    method AddPlan(owner: Name, title: string, token: Token, interval: nat, times: int) returns (r: Receipt)
      modifies this
      ensures Did(old(Now()), VestSpec.AddPlan(old(Now()), owner, title, token, interval, times), r, Now())
    {
      if |title| > MAX_TITLE_SIZE { return Aborted(BadTitle); }
      if !(interval > 0 && interval <= MAX_LOCK_DAYS) { return Aborted(BadInterval); }
      if times <= 0 { return Aborted(BadTimes); }
      if planFee > 0 {
        if feeReceiver == 0 { return Aborted(NoFeeReceiver); }
      }
      var id := AvailableKey(plans.Keys);
      var status := if planFee != 0 then Pending else Enabled;
      plans := plans[id := Plan(owner, title, token, interval, times, 0, 0, 0, status)];
      lastPlan := lastPlan[owner := id];
      return Committed([]);
    }

    method SetPlanOwner(owner: Name, planId: nat, newOwner: Name) returns (r: Receipt)
      modifies this
      ensures Did(old(Now()), VestSpec.SetPlanOwner(old(Now()), owner, planId, newOwner), r, Now())
    {
      if planId !in plans { return Aborted(PlanNotFound); }
      if owner != plans[planId].owner { return Aborted(OwnerMismatch); }
      plans := plans[planId := plans[planId].(owner := newOwner)];
      return Committed([]);
    }

    method EnablePlan(owner: Name, planId: nat, enabled: bool) returns (r: Receipt)
      modifies this
      ensures Did(old(Now()), VestSpec.EnablePlan(old(Now()), owner, planId, enabled), r, Now())
    {
      if planId !in plans { return Aborted(PlanNotFound); }
      if owner != plans[planId].owner { return Aborted(OwnerMismatch); }
      if plans[planId].status == Pending { return Aborted(FeeUnpaid); }
      var status := if enabled then Enabled else Disabled;
      if plans[planId].status == status { return Aborted(StatusUnchanged); }
      plans := plans[planId := plans[planId].(status := status)];
      return Committed([]);
    }

    /** The branch of the transfer notification that pays a plan's fee, which goes straight through. */
    method OnPlanFee(from: Name, token: Token, amount: int, payFor: Option<nat>) returns (r: Receipt)
      modifies this
      ensures Did(old(Now()), PayPlanFee(old(Now()), from, token, amount, payFor), r, Now())
    {
      if token.bank != SYS_BANK || token.symbol != SYS_SYMBOL { return Aborted(TokenMismatch); }
      if amount != planFee { return Aborted(FeeMismatch); }
      var id := 0;
      match payFor {
        case None =>
          if from !in lastPlan { return Aborted(NoPlanOfAccount); }
          id := lastPlan[from];
          if id == 0 { return Aborted(NoPlanOfAccount); }
        case Some(given) =>
          id := given;
          if id == 0 { return Aborted(BadMemo); }
      }
      if id !in plans { return Aborted(PlanNotFound); }
      if plans[id].status != Pending { return Aborted(NotPending); }
      var after := Transfer(ledger, token, self, feeReceiver, amount);
      if after.None? { return Aborted(TransferRefused); }
      plans := plans[id := plans[id].(status := Enabled)];
      ledger := after.value;
      return Committed([Payment(token, feeReceiver, amount, FeeOf(id))]);
    }

    /** The branch that locks what arrived as a new issue. */
    method OnIssue(now: nat, from: Name, token: Token, amount: nat, receiver: Name, planId: nat, days: nat)
      returns (r: Receipt)
      modifies this
      ensures Did(old(Now()), IssueIn(old(Now()), now, from, token, amount, receiver, planId, days), r, Now())
    {
      if planId !in plans { return Aborted(PlanNotFound); }
      var p := plans[planId];
      if p.status != Enabled { return Aborted(PlanNotEnabled); }
      if days > MAX_LOCK_DAYS { return Aborted(BadFirstDays); }
      if token.symbol != p.token.symbol { return Aborted(TokenMismatch); }
      if p.token.bank != token.bank { return Aborted(TokenMismatch); }
      if p.totalIssued + amount > MAX_AMOUNT { return Aborted(AssetOverflow); }
      plans := plans[planId := p.(totalIssued := p.totalIssued + amount)];
      var id := AvailableKey(issues.Keys);
      issues := issues[id := Issue(planId, from, receiver, token.symbol, amount, amount, 0, days,
                                   p.interval, p.times, Ongoing, now)];
      return Committed([]);
    }

    /** A transfer to the contract together with the notification it triggers. */
    method OnTransfer(now: nat, from: Name, token: Token, amount: int, memo: Memo) returns (r: Receipt)
      modifies this
      ensures Did(old(Now()), Deposit(old(Now()), now, from, token, amount, memo), r, Now())
    {
      var saved := ledger;
      var after := Transfer(ledger, token, from, self, amount);
      if after.None? { return Aborted(TransferRefused); }
      ledger := after.value;
      match memo {
        case PlanMemo(payFor) => r := OnPlanFee(from, token, amount, payFor);
        case IssueMemo(receiver, planId, days) => r := OnIssue(now, from, token, amount, receiver, planId, days);
        case OtherMemo => r := Aborted(BadMemo);
      }
      if r.Aborted? { ledger := saved; }
    }

    method TransIssue(fromReceiver: Name, toReceiver: Name, issueId: nat, symbol: Symbol, amount: int)
      returns (r: Receipt)
      modifies this
      ensures Did(old(Now()), VestSpec.TransIssue(old(Now()), fromReceiver, toReceiver, issueId, symbol, amount), r,
                  Now())
    {
      if fromReceiver == toReceiver { return Aborted(SameReceiver); }
      if !(0 < amount <= MAX_AMOUNT) { return Aborted(BadQuantity); }
      if issueId !in issues { return Aborted(IssueNotFound); }
      var i := issues[issueId];
      if i.status != Ongoing { return Aborted(NotOngoing); }
      if i.receiver != fromReceiver { return Aborted(ReceiverMismatch); }
      if i.symbol != symbol { return Aborted(SymbolMismatch); }
      if i.locked < amount { return Aborted(LockedInsufficient); }
      if i.issued < amount { return Aborted(IssuedInsufficient); }
      var id := AvailableKey(issues.Keys);
      issues := issues[id := Issue(i.planId, i.issuer, toReceiver, symbol, amount, amount, 0, i.firstUnlockDays,
                                   i.interval, i.times, i.status, i.issuedAt)];
      if i.locked == amount {
        issues := issues - {issueId};
      } else {
        issues := issues[issueId := i.(issued := i.issued - amount, locked := i.locked - amount)];
      }
      return Committed([]);
    }

    method EndIssue(planId: nat, issuer: Name, issueId: nat) returns (r: Receipt)
      modifies this
      ensures Did(old(Now()), VestSpec.EndIssue(old(Now()), planId, issuer, issueId), r, Now())
    {
      if issueId !in issues { return Aborted(IssueNotFound); }
      var i := issues[issueId];
      if i.planId != planId { return Aborted(PlanIdMismatch); }
      if i.status == Finished { return Aborted(NotOngoing); }
      if !(issuer == i.issuer || issuer == self) { return Aborted(NotAuthorized); }
      if planId !in plans { return Aborted(PlanNotFound); }
      var p := plans[planId];
      if p.status != Enabled { return Aborted(PlanNotEnabled); }
      if i.symbol != p.token.symbol { return Aborted(SymbolMismatch); }
      if p.totalRefunded + i.locked > MAX_AMOUNT { return Aborted(AssetOverflow); }
      var after := Transfer(ledger, p.token, self, i.issuer, i.locked);
      if after.None? { return Aborted(TransferRefused); }
      plans := plans[planId := p.(totalRefunded := p.totalRefunded + i.locked)];
      issues := issues[issueId := i.(status := Finished)];
      ledger := after.value;
      return Committed([Payment(p.token, i.issuer, i.locked, RefundOf(issueId))]);
    }

    method Unlock(now: nat, planId: nat, issueId: nat) returns (r: Receipt)
      modifies this
      ensures Did(old(Now()), VestSpec.Unlock(old(Now()), now, planId, issueId), r, Now())
    {
      if issueId !in issues { return Aborted(IssueNotFound); }
      var i := issues[issueId];
      if i.planId != planId { return Aborted(PlanIdMismatch); }
      if now < i.issuedAt { return Aborted(ClockBeforeIssue); }
      if planId !in plans { return Aborted(PlanNotFound); }
      var p := plans[planId];
      if p.status != Enabled { return Aborted(PlanNotEnabled); }
      if !(p.times > 0 && p.interval > 0) { return Aborted(BadPlan); }
      if i.status != Ongoing { return Aborted(NotOngoing); }
      var target := TotalUnlocked(p, i, now);
      if target.No? { return Aborted(target.why); }
      var totalUnlocked := target.n;
      var unlockable := totalUnlocked - i.unlocked;
      if unlockable <= 0 { return Aborted(Premature); }
      var after := Transfer(ledger, p.token, self, i.receiver, unlockable);
      if after.None? { return Aborted(TransferRefused); }
      plans := plans[planId := p.(totalUnlocked := p.totalUnlocked + unlockable)];
      issues := issues[issueId := i.(unlocked := totalUnlocked, locked := i.issued - totalUnlocked,
                                     status := if totalUnlocked == i.issued then Finished else i.status)];
      ledger := after.value;
      return Committed([Payment(p.token, i.receiver, unlockable, UnlockOf(issueId))]);
    }

    method DelFinIssues(ids: seq<nat>) returns (r: Receipt)
      modifies this
      ensures Did(old(Now()), VestSpec.DelFinIssues(old(Now()), ids), r, Now())
    {
      var saved := issues;
      assert ids[0..] == ids;
      for k := 0 to |ids|
        invariant Now() == old(Now()).(issues := issues)
        invariant VestSpec.DelFinIssues(Now(), ids[k..]) == VestSpec.DelFinIssues(old(Now()), ids)
      {
        assert ids[k..][0] == ids[k] && ids[k..][1..] == ids[k + 1..];
        if ids[k] !in issues {
          issues := saved;
          return Aborted(IssueNotFound);
        }
        if issues[ids[k]].status != Finished {
          issues := saved;
          return Aborted(NotFinished);
        }
        issues := issues - {ids[k]};
      }
      return Committed([]);
    }

    method SetFirstDays(issueId: nat, days: nat) returns (r: Receipt)
      modifies this
      ensures Did(old(Now()), VestSpec.SetFirstDays(old(Now()), issueId, days), r, Now())
    {
      if days > MAX_LOCK_DAYS { return Aborted(BadFirstDays); }
      if issueId !in issues { return Aborted(IssueNotFound); }
      issues := issues[issueId := issues[issueId].(firstUnlockDays := days)];
      return Committed([]);
    }

    method SetReceiver(issueId: nat, receiver: Name) returns (r: Receipt)
      modifies this
      ensures Did(old(Now()), VestSpec.SetReceiver(old(Now()), issueId, receiver), r, Now())
    {
      if issueId !in issues { return Aborted(IssueNotFound); }
      issues := issues[issueId := issues[issueId].(receiver := receiver)];
      return Committed([]);
    }

    /** Any call at all: it takes exactly the step of the state machine, so the invariant survives. */
    method Apply(c: Call) returns (r: Receipt)
      requires Valid()
      modifies this
      ensures Valid() && Did(old(Now()), Step(old(Now()), c), r, Now())
    {
      ghost var before := Now();
      match c.action {
        case DoInit(fee, receiver) => r := Init(fee, receiver);
        case DoAddPlan(owner, title, token, interval, times) => r := AddPlan(owner, title, token, interval, times);
        case DoSetPlanOwner(owner, planId, newOwner) => r := SetPlanOwner(owner, planId, newOwner);
        case DoEnablePlan(owner, planId, enabled) => r := EnablePlan(owner, planId, enabled);
        case DoDeposit(from, token, amount, memo) => r := OnTransfer(c.now, from, token, amount, memo);
        case DoTransIssue(f, to, issueId, symbol, amount) => r := TransIssue(f, to, issueId, symbol, amount);
        case DoEndIssue(planId, issuer, issueId) => r := EndIssue(planId, issuer, issueId);
        case DoUnlock(planId, issueId) => r := Unlock(c.now, planId, issueId);
        case DoDelFinIssues(ids) => r := DelFinIssues(ids);
        case DoSetFirstDays(issueId, days) => r := SetFirstDays(issueId, days);
        case DoSetReceiver(issueId, receiver) => r := SetReceiver(issueId, receiver);
        case DoElsewhere(token, from, to, amount) => r := Elsewhere(token, from, to, amount);
      }
      DidKeeps(before, c, r, Now());
    }
  }
}
