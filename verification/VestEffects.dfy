/** Exactly when each action of flon.vest goes through and what it does, on the stored fields and the
    clock alone. */
module VestEffects {
  import opened Arithmetic
  import opened Tables
  import opened Ledger
  import opened Rounding
  import opened VestSpec
  import opened VestSafety
  import opened VestHistory

  // ---------- the clock ----------

  /** Whole seconds from the issue to `now`. */
  function Elapsed(i: Issue, now: nat): int {
    now / 1_000_000 - i.issuedAt / 1_000_000
  }

  /** The issue's first unlock day has come. */
  predicate Started(i: Issue, now: nat) {
    Elapsed(i, now) >= i.firstUnlockDays * 86400
  }

  /** m whole intervals have passed since the first unlock day, and not one more. */
  predicate Intervals(p: Plan, i: Issue, now: nat, m: nat) {
    m * (p.interval * 86400) <= Elapsed(i, now) - i.firstUnlockDays * 86400 < (m + 1) * (p.interval * 86400)
  }

  lemma IntervalsExist(p: Plan, i: Issue, now: nat) returns (m: nat)
    requires p.interval > 0 && Started(i, now)
    ensures Intervals(p, i, now, m)
  {
    var seconds, length := Elapsed(i, now) - i.firstUnlockDays * 86400, p.interval * 86400;
    m := Quotient(seconds, length);
    assert seconds == length * (seconds / length) + seconds % length;
    assert (m + 1) * length == m * length + length;
  }

  lemma ElapsedIsPositive(i: Issue, now: nat)
    requires i.issuedAt <= now
    ensures Elapsed(i, now) >= 0
  {
    DivMonotone(i.issuedAt, now, 1_000_000);
  }

  lemma StartedIff(i: Issue, now: nat)
    requires i.issuedAt <= now
    ensures Started(i, now) <==> UnlockedDays(i, now) >= 0
  {
    ElapsedIsPositive(i, now);
  }

  lemma DaysInIntervals(days: int, seconds: int, interval: nat, m: nat)
    requires interval > 0 && days == seconds / 86400
    requires m * (interval * 86400) <= seconds < (m + 1) * (interval * 86400)
    ensures days >= 0 && days / interval == m
  {
    assert m * (interval * 86400) == 86400 * (interval * m);
    assert (m + 1) * (interval * 86400) == 86400 * (interval * m + interval);
    assert interval * m >= 0;
    DivUnique(days, interval, m);
  }

  lemma IntervalsAreTimes(p: Plan, i: Issue, now: nat, m: nat)
    requires i.issuedAt <= now && p.interval > 0 && Started(i, now) && Intervals(p, i, now, m)
    ensures UnlockedDays(i, now) >= 0 && UnlockedDays(i, now) / p.interval == m
  {
    StartedIff(i, now);
    var seconds := Elapsed(i, now) - i.firstUnlockDays * 86400;
    assert UnlockedDays(i, now) == seconds / 86400;
    DaysInIntervals(UnlockedDays(i, now), seconds, p.interval, m);
  }

  /** What the schedule has released m whole intervals after the first unlock day: everything once
      m + 1 reaches the number of unlocks, and the share of m + 1, rounded half up, before. */
  function ReleasedAt(issued: nat, times: nat, m: nat): nat
    requires times > 0
  {
    if m + 1 >= times then issued else Quotient(2 * issued * (m + 1) + times, 2 * times)
  }

  lemma ScheduleOnTheClock(p: Plan, i: Issue, now: nat, m: nat)
    requires i.issuedAt <= now && p.interval > 0 && p.times > 0 && Started(i, now) && Intervals(p, i, now, m)
    ensures Schedule(p, i, now) == ReleasedAt(i.issued, p.times, m)
    ensures UnlockedTimes(p, UnlockedDays(i, now)) >= p.times <==> m + 1 >= p.times
    ensures m + 1 < p.times ==> UnlockedTimes(p, UnlockedDays(i, now)) == m + 1
  {
    IntervalsAreTimes(p, i, now, m);
    assert 2 * i.issued * (m + 1) == 2 * (i.issued * (m + 1));
  }

  // ---------- unlock ----------

  /** No unlock goes through before the first unlock day has come. */
  lemma UnlockWaits(s: State, now: nat, planId: nat, id: nat)
    requires Unlock(s, now, planId, id).Done?
    ensures id in s.issues && s.issues[id].issuedAt <= now
    ensures now / 1_000_000 - s.issues[id].issuedAt / 1_000_000 >= s.issues[id].firstUnlockDays * 86400
  {
    StartedIff(s.issues[id], now);
  }

  /** An unlock m whole intervals after the first unlock day leaves unlocked everything, or the rounded
      share of m + 1 of the plan's unlocks. */
  lemma UnlockReleases(s: State, now: nat, planId: nat, id: nat, m: nat)
    requires Inv(s) && Unlock(s, now, planId, id).Done? && Intervals(s.plans[planId], s.issues[id], now, m)
    ensures var i, p, t := s.issues[id], s.plans[planId], Unlock(s, now, planId, id).state;
            && p.times > 0
            && t.issues[id].unlocked ==
               if m + 1 >= p.times then i.issued else (2 * i.issued * (m + 1) + p.times) / (2 * p.times)
  {
    UnlockWaits(s, now, planId, id);
    UnlockFollowsSchedule(s, now, planId, id);
    ScheduleOnTheClock(s.plans[planId], s.issues[id], now, m);
  }

  /** The issue is ongoing, the plan is enabled, and the clock is not before the issue. */
  predicate Unlockable(s: State, now: nat, planId: nat, id: nat) {
    && id in s.issues && s.issues[id].planId == planId && planId in s.plans && s.issues[id].issuedAt <= now
    && s.issues[id].status == Ongoing && s.plans[planId].status == Enabled
  }

  /** Exactly when an unlock of such an issue is premature: before the first unlock day, or when the
      rounded share m intervals later is no more than what is unlocked. */
  lemma PrematureIff(s: State, now: nat, planId: nat, id: nat, m: nat)
    requires Inv(s) && Unlockable(s, now, planId, id)
    requires Started(s.issues[id], now) ==> Intervals(s.plans[planId], s.issues[id], now, m)
    ensures var i, p := s.issues[id], s.plans[planId];
            && p.times > 0
            && (Unlock(s, now, planId, id) == Abort(Premature) <==>
                || !Started(i, now)
                || (m + 1 < p.times && 10 * (i.issued * (m + 1)) / p.times <= INT64_MAX
                    && i.unlocked == (2 * i.issued * (m + 1) + p.times) / (2 * p.times)))
  {
    var i, p := s.issues[id], s.plans[planId];
    assert IssueOk(s.plans, i) && PlanOk(p);
    StartedIff(i, now);
    if Started(i, now) {
      ScheduleOnTheClock(p, i, now, m);
      var k := UnlockedTimes(p, UnlockedDays(i, now));
      ReleasedGrows(i.issued, k, k, p.times);
    }
  }

  /** Exactly when it goes through. */
  lemma UnlockOnTheClockIff(s: State, now: nat, planId: nat, id: nat, m: nat)
    requires Inv(s) && Unlockable(s, now, planId, id)
    requires Started(s.issues[id], now) ==> Intervals(s.plans[planId], s.issues[id], now, m)
    ensures var i, p := s.issues[id], s.plans[planId];
            && p.times > 0
            && (Unlock(s, now, planId, id).Done? <==>
                && Started(i, now) && i.receiver != s.self
                && (m + 1 >= p.times
                    || (10 * (i.issued * (m + 1)) / p.times <= INT64_MAX
                        && i.unlocked < (2 * i.issued * (m + 1) + p.times) / (2 * p.times))))
  {
    var i, p := s.issues[id], s.plans[planId];
    assert IssueOk(s.plans, i) && PlanOk(p);
    StartedIff(i, now);
    UnlockSucceedsIff(s, now, planId, id);
    if Started(i, now) { ScheduleOnTheClock(p, i, now, m); IntervalsAreTimes(p, i, now, m); }
  }

  // ---------- plans ----------

  /** Adding a plan: its limits, and the row it writes under a new id, which its owner's fee will go to. */
  lemma AddPlanAdds(s: State, owner: Name, title: string, token: Token, interval: nat, times: int)
    ensures var r := AddPlan(s, owner, title, token, interval, times);
            && (r.Done? <==> |title| <= 64 && 1 <= interval <= 3650 && times >= 1 &&
                             (s.planFee > 0 ==> s.feeReceiver != 0))
            && (r.Done? ==>
                  var id := NextKey(s.plans.Keys);
                  && r.sent == [] && times >= 0
                  && r.state == s.(lastPlan := s.lastPlan[owner := id],
                                   plans := s.plans[id := Plan(owner, title, token, interval, times, 0, 0, 0,
                                                               if s.planFee == 0 then Enabled else Pending)]))
  {
  }

  /** A plan changes hands: only the owner can give it away, and then only the new owner can switch it. */
  lemma NewOwnerRules(s: State, owner: Name, planId: nat, newOwner: Name, who: Name, enabled: bool)
    ensures SetPlanOwner(s, owner, planId, newOwner).Done? <==> planId in s.plans && s.plans[planId].owner == owner
    ensures SetPlanOwner(s, owner, planId, newOwner).Done? ==>
              var t := SetPlanOwner(s, owner, planId, newOwner).state;
              && t == s.(plans := s.plans[planId := s.plans[planId].(owner := newOwner)])
              && (EnablePlan(t, who, planId, enabled).Done? <==>
                  who == newOwner && t.plans[planId].status == if enabled then Disabled else Enabled)
  {
  }

  /** A disabled plan issues, unlocks and refunds nothing; and enabling it again restores the state. */
  lemma DisablingFreezes(s: State, owner: Name, planId: nat, now: nat, id: nat, issuer: Name, from: Name, token: Token,
                         amount: int, to: Name, days: nat)
    requires EnablePlan(s, owner, planId, false).Done?
    ensures var t := EnablePlan(s, owner, planId, false).state;
            && t == s.(plans := s.plans[planId := s.plans[planId].(status := Disabled)])
            && Unlock(t, now, planId, id).Abort? && EndIssue(t, planId, issuer, id).Abort?
            && Deposit(t, now, from, token, amount, IssueMemo(to, planId, days)).Abort?
            && EnablePlan(t, owner, planId, true) == Done(s, [])
  {
    var t := EnablePlan(s, owner, planId, false).state;
    assert t.plans[planId := t.plans[planId].(status := Enabled)] == s.plans;
  }

  // ---------- deposits ----------

  /** What a transfer into the contract needs. */
  predicate Payable(s: State, from: Name, token: Token, amount: int) {
    0 < amount <= MAX_AMOUNT && from != s.self && amount <= BalanceOf(s.ledger, token, from)
  }

  /** Exactly when a plan fee goes through, for the plan named or else the payer's latest; and that it
      enables this plan and changes no other row. */
  lemma FeeSucceedsIff(s: State, now: nat, from: Name, token: Token, amount: int, payFor: Option<nat>)
    ensures var id := match payFor case Some(id) => id case None => if from in s.lastPlan then s.lastPlan[from] else 0;
            var r := Deposit(s, now, from, token, amount, PlanMemo(payFor));
            && (r.Done? <==>
                && Payable(s, from, token, amount) && token == FLON && amount == s.planFee && s.feeReceiver != s.self
                && id != 0 && id in s.plans && s.plans[id].status == Pending)
            && (r.Done? ==>
                  && r.sent == [Payment(token, s.feeReceiver, amount, FeeOf(id))]
                  && r.state.plans == s.plans[id := s.plans[id].(status := Enabled)]
                  && r.state.issues == s.issues && r.state.lastPlan == s.lastPlan)
  {
    if Payable(s, from, token, amount) { TransferMoves(s.ledger, token, from, s.self, amount); }
  }

  /** Exactly when a deposit is locked as an issue, and the row it opens. */
  lemma IssueSucceedsIff(s: State, now: nat, from: Name, token: Token, amount: int, to: Name, planId: nat, days: nat)
    ensures var r := Deposit(s, now, from, token, amount, IssueMemo(to, planId, days));
            && (r.Done? <==>
                && Payable(s, from, token, amount) && planId in s.plans && s.plans[planId].status == Enabled
                && days <= 3650 && token == s.plans[planId].token
                && s.plans[planId].totalIssued + amount <= MAX_AMOUNT)
            && (r.Done? ==>
                  var p, id := s.plans[planId], NextKey(s.issues.Keys);
                  && r.sent == [] && amount >= 0
                  && r.state.plans == s.plans[planId := p.(totalIssued := p.totalIssued + amount)]
                  && r.state.issues == s.issues[id := Issue(planId, from, to, token.symbol, amount, amount, 0, days,
                                                            p.interval, p.times, Ongoing, now)])
  {
  }

  /** Any other memo is refused. */
  lemma OtherMemoRefused(s: State, now: nat, from: Name, token: Token, amount: int)
    ensures Deposit(s, now, from, token, amount, OtherMemo).Abort?
  {
  }

  // ---------- issues ----------

  /** Exactly when part of an issue can be passed on, in any reachable state. */
  lemma TransIssueSucceedsIff(s: State, f: Name, to: Name, id: nat, symbol: Symbol, amount: int)
    requires Inv(s)
    ensures TransIssue(s, f, to, id, symbol, amount).Done? <==>
              && f != to && 0 < amount <= MAX_AMOUNT && id in s.issues && s.issues[id].status == Ongoing
              && s.issues[id].receiver == f && s.issues[id].symbol == symbol && amount <= s.issues[id].locked
  {
    if id in s.issues { assert IssueOk(s.plans, s.issues[id]); }
  }

  /** And then what was locked for the old receiver is locked for the two of them. */
  lemma TransIssueShares(s: State, f: Name, to: Name, id: nat, symbol: Symbol, amount: int)
    requires TransIssue(s, f, to, id, symbol, amount).Done?
    ensures var i, r, part := s.issues[id], TransIssue(s, f, to, id, symbol, amount), NextKey(s.issues.Keys);
            && part in r.state.issues
            && r.state.issues[part].locked + (if id in r.state.issues then r.state.issues[id].locked else 0) == i.locked
            && (id in r.state.issues <==> amount < i.locked)
            && (id in r.state.issues ==>
                  r.state.issues[id] == i.(issued := i.issued - amount, locked := i.locked - amount))
  {
  }

  /** No other issue, no plan and no balance changes, and nothing is sent. */
  lemma TransIssueSpares(s: State, f: Name, to: Name, id: nat, symbol: Symbol, amount: int, k: nat)
    requires TransIssue(s, f, to, id, symbol, amount).Done?
    ensures var r := TransIssue(s, f, to, id, symbol, amount);
            && r.sent == [] && r.state == s.(issues := r.state.issues)
            && (k in s.issues && k != id ==> k in r.state.issues && r.state.issues[k] == s.issues[k])
  {
  }

  /** Exactly when an issue can be ended, in any reachable state: by its issuer or the contract itself. */
  lemma EndIssueSucceedsIff(s: State, planId: nat, issuer: Name, id: nat)
    requires Inv(s)
    ensures EndIssue(s, planId, issuer, id).Done? <==>
              && id in s.issues && s.issues[id].planId == planId && s.issues[id].status == Ongoing
              && s.plans[planId].status == Enabled
              && (issuer == s.issues[id].issuer || issuer == s.self) && s.issues[id].issuer != s.self
    ensures EndIssue(s, planId, issuer, id).Done? ==>
              var i, p, r := s.issues[id], s.plans[planId], EndIssue(s, planId, issuer, id);
              && r.sent == [Payment(p.token, i.issuer, i.locked, RefundOf(id))]
              && r.state.issues == s.issues[id := i.(status := Finished)]
              && r.state.plans == s.plans[planId := p.(totalRefunded := p.totalRefunded + i.locked)]
  {
    if id in s.issues {
      assert IssueOk(s.plans, s.issues[id]) && PlanOk(s.plans[s.issues[id].planId]);
      HeldIsCovered(s, id);
    }
  }

  /** Exactly when a list of issues can be deleted: each is there, finished and named once. Then exactly
      these go. */
  lemma {:induction false} DelFinIssuesIff(s: State, ids: seq<nat>)
    ensures DelFinIssues(s, ids).Done? <==>
              && (forall k :: 0 <= k < |ids| ==> ids[k] in s.issues && s.issues[ids[k]].status == Finished)
              && (forall j, k :: 0 <= j < k < |ids| ==> ids[j] != ids[k])
    ensures DelFinIssues(s, ids).Done? ==>
              DelFinIssues(s, ids) == Done(s.(issues := s.issues - set id | id in ids), [])
    decreases |ids|
  {
    if ids == [] {
      assert s.issues - (set id | id in ids) == s.issues;
    } else if ids[0] in s.issues && s.issues[ids[0]].status == Finished {
      var t := s.(issues := s.issues - {ids[0]});
      DelFinIssuesIff(t, ids[1..]);
      assert ids == [ids[0]] + ids[1..];
      assert s.issues - {ids[0]} - (set id | id in ids[1..]) == s.issues - set id | id in ids;
    }
  }

  /** A new first unlock day takes effect: nothing is unlocked before it. */
  lemma FirstDaysTakeEffect(s: State, id: nat, days: nat, now: nat, planId: nat)
    ensures SetFirstDays(s, id, days).Done? <==> days <= 3650 && id in s.issues
    ensures SetFirstDays(s, id, days).Done? ==>
              var t := SetFirstDays(s, id, days).state;
              && t == s.(issues := s.issues[id := s.issues[id].(firstUnlockDays := days)])
              && (Unlock(t, now, planId, id).Done? ==>
                    now / 1_000_000 - s.issues[id].issuedAt / 1_000_000 >= days * 86400)
  {
    if SetFirstDays(s, id, days).Done? {
      var t := SetFirstDays(s, id, days).state;
      if Unlock(t, now, planId, id).Done? { UnlockWaits(t, now, planId, id); }
    }
  }

  /** A new receiver takes effect: the next unlock pays it. */
  lemma ReceiverTakesEffect(s: State, id: nat, receiver: Name, now: nat, planId: nat)
    ensures SetReceiver(s, id, receiver).Done? <==> id in s.issues
    ensures SetReceiver(s, id, receiver).Done? ==>
              var t := SetReceiver(s, id, receiver).state;
              && t == s.(issues := s.issues[id := s.issues[id].(receiver := receiver)])
              && (Unlock(t, now, planId, id).Done? ==>
                    |Unlock(t, now, planId, id).sent| == 1 && Unlock(t, now, planId, id).sent[0].to == receiver)
  {
  }

  /** The fee set by `init` is the one a plan has to pay. */
  lemma FeeTakesEffect(s: State, fee: int, receiver: Name, now: nat, from: Name, token: Token, amount: int,
                       payFor: Option<nat>)
    ensures Init(s, fee, receiver).Done?
    ensures var t := Init(s, fee, receiver).state;
            && t.plans == s.plans && t.issues == s.issues && t.ledger == s.ledger
            && (Deposit(t, now, from, token, amount, PlanMemo(payFor)).Done? ==>
                  amount == fee && Deposit(t, now, from, token, amount, PlanMemo(payFor)).sent[0].to == receiver)
  {
  }

  // ---------- runs ----------

  /** Other accounts transfer what they own among themselves, and the contract's tables do not change. */
  lemma OthersTransferFreely(s: State, token: Token, from: Name, to: Name, amount: int)
    ensures Elsewhere(s, token, from, to, amount).Done? <==>
            && from != s.self && to != s.self && from != to
            && 0 < amount <= MAX_AMOUNT && amount <= BalanceOf(s.ledger, token, from)
    ensures Elsewhere(s, token, from, to, amount).Done? ==>
            var t := Elsewhere(s, token, from, to, amount).state; t == s.(ledger := t.ledger)
  {
  }

  /** A run of one call is that call; one that is refused changes nothing. */
  lemma OneStep(s: State, c: Call)
    ensures Run(s, []) == s && Run(s, [c]) == match Step(s, c) case Done(t, _) => t case Abort(_) => s
    ensures Log(s, []) == [] && Log(s, [c]) == match Step(s, c) case Done(_, sent) => sent case Abort(_) => []
  {
    assert [c][..0] == [];
  }

  /** A run goes on where the one before it stopped. */
  lemma {:induction false} RunsCompose(s: State, earlier: seq<Call>, later: seq<Call>)
    ensures Run(s, earlier + later) == Run(Run(s, earlier), later)
    decreases |later|
  {
    if later == [] {
      assert earlier + later == earlier;
    } else {
      var n := |later| - 1;
      assert (earlier + later)[..|earlier + later| - 1] == earlier + later[..n];
      RunsCompose(s, earlier, later[..n]);
    }
  }

  /** The log grows by what each call sends. */
  lemma LogOn(s: State, calls: seq<Call>, c: Call)
    ensures Log(s, calls + [c]) == Log(s, calls) + Sent(Run(s, calls), c)
  {
    assert (calls + [c])[..|calls|] == calls;
  }
}
