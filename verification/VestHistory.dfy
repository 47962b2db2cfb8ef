/** What flon.vest pays out over a run: the schedule fixes it whatever the calls in between, an
    ongoing issue can always be drained, and where splitting an issue breaks the schedule. */
module VestHistory {
  import opened Arithmetic
  import opened Tables
  import opened Ledger
  import opened Rounding
  import opened VestSpec
  import opened VestSafety

  // ---------- the schedule ----------

  lemma DivMonotone(a: nat, b: nat, d: nat)
    requires a <= b && d > 0
    ensures a / d <= b / d
  {
    assert a == d * (a / d) + a % d && b == d * (b / d) + b % d;
    MulOrder(d, b / d + 1, a / d);
  }

  lemma TimeMonotone(p: Plan, i: Issue, t: nat, u: nat)
    requires p.interval > 0 && i.issuedAt <= t <= u
    ensures UnlockedDays(i, t) <= UnlockedDays(i, u)
    ensures UnlockedDays(i, t) >= 0 ==> UnlockedTimes(p, UnlockedDays(i, t)) <= UnlockedTimes(p, UnlockedDays(i, u))
  {
    DivMonotone(t, u, 1_000_000);
    DivMonotone(i.issuedAt, t, 1_000_000);
    DivMonotone(Seconds(t) - Seconds(i.issuedAt), Seconds(u) - Seconds(i.issuedAt), DAY_SECONDS);
    if UnlockedDays(i, t) >= 0 {
      DivMonotone(UnlockedDays(i, t), UnlockedDays(i, u), p.interval);
    }
  }

  /** The schedule never goes back and never releases more than was issued. */
  lemma ScheduleMonotone(p: Plan, i: Issue, t: nat, u: nat)
    requires p.interval > 0 && p.times > 0 && i.issuedAt <= t <= u
    ensures Schedule(p, i, t) <= Schedule(p, i, u) <= i.issued
  {
    TimeMonotone(p, i, t, u);
    if UnlockedDays(i, u) >= 0 {
      var k := UnlockedTimes(p, UnlockedDays(i, u));
      ReleasedGrows(i.issued, if UnlockedDays(i, t) >= 0 then UnlockedTimes(p, UnlockedDays(i, t)) else k, k, p.times);
    }
  }

  lemma ReleasedGrows(issued: nat, j: nat, k: nat, times: nat)
    requires times > 0 && j <= k
    ensures Released(issued, j, times) <= Released(issued, k, times) <= issued
  {
    if j < times { NearestOfShare(issued, j, times); }
    if k < times {
      NearestOfShare(issued, k, times);
      MulOrder(issued, j, k);
      NearestMonotone(issued * j, issued * k, times);
    }
  }

  /** The last interval is reached once (times - 1) intervals have passed since the first unlock day. */
  predicate LastInterval(p: Plan, i: Issue, now: nat)
    requires p.interval > 0 && i.issuedAt <= now
  {
    UnlockedDays(i, now) >= 0 && UnlockedDays(i, now) / p.interval >= p.times - 1
  }

  // ---------- an issue's life under its original terms ----------

  /** The issue is there before and after, with the same amount issued and the same first unlock day. */
  predicate Unchanged(s: State, t: State, id: nat) {
    && id in s.issues && id in t.issues
    && t.issues[id].issued == s.issues[id].issued && t.issues[id].firstUnlockDays == s.issues[id].firstUnlockDays
  }

  /** Over the whole run the issue's `issued` and first unlock day never change. Calls that are refused, or
      that set the day it has already, may name it. */
  ghost predicate NeverChanged(s: State, calls: seq<Call>, id: nat)
    decreases |calls|
  {
    Unchanged(s, Run(s, calls), id) && (calls != [] ==> NeverChanged(s, calls[..|calls| - 1], id))
  }

  ghost predicate UnlocksNow(s: State, c: Call, id: nat) {
    c.action.DoUnlock? && c.action.issueId == id && Step(s, c).Done?
  }

  /** When issue `id` was last unlocked successfully in a run. */
  ghost function LastUnlock(s: State, calls: seq<Call>, id: nat): Option<nat> {
    if calls == [] then None else
    var before, c := calls[..|calls| - 1], calls[|calls| - 1];
    if UnlocksNow(Run(s, before), c, id) then Some(c.now) else LastUnlock(s, before, id)
  }

  /** What a log of payments paid out to unlock issue `id`. */
  function PaidFor(log: seq<Payment>, id: nat): int {
    if log == [] then 0 else
    PaidFor(log[..|log| - 1], id) + if log[|log| - 1].reason == UnlockOf(id) then log[|log| - 1].amount else 0
  }

  /** The terms an issue is unlocked by. */
  predicate SameTerms(s: State, t: State, id: nat) {
    && id in s.issues && id in t.issues
    && s.issues[id].planId in s.plans && s.issues[id].planId in t.plans
    && var i, j := s.issues[id], t.issues[id];
       var p, q := s.plans[i.planId], t.plans[i.planId];
       j.planId == i.planId && j.issued == i.issued && j.firstUnlockDays == i.firstUnlockDays &&
       j.issuedAt == i.issuedAt && p.interval == q.interval && p.times == q.times
  }

  lemma {:induction false} DelFinIssuesSpares(s: State, ids: seq<nat>, id: nat)
    requires DelFinIssues(s, ids).Done? && id in DelFinIssues(s, ids).state.issues
    ensures var t := DelFinIssues(s, ids);
            t.sent == [] && t.state.plans == s.plans && id in s.issues && t.state.issues[id] == s.issues[id]
    decreases |ids|
  {
    if ids != [] { DelFinIssuesSpares(s.(issues := s.issues - {ids[0]}), ids[1..], id); }
  }

  lemma {:induction false} PaidForBoth(log: seq<Payment>, sent: seq<Payment>, id: nat)
    ensures PaidFor(log + sent, id) == PaidFor(log, id) + PaidFor(sent, id)
  {
    if sent == [] {
      assert log + sent == log;
    } else {
      assert (log + sent)[..|log + sent| - 1] == log + sent[..|sent| - 1];
      PaidForBoth(log, sent[..|sent| - 1], id);
    }
  }

  /** A successful unlock takes the issue up to the schedule and pays exactly the difference. */
  lemma UnlockFollowsSchedule(s: State, now: nat, planId: nat, id: nat)
    requires Inv(s) && Unlock(s, now, planId, id).Done?
    ensures id in s.issues && s.issues[id].issuedAt <= now
    ensures var i := s.issues[id]; var r := Unlock(s, now, planId, id);
            && SameTerms(s, r.state, id) && PlanOk(s.plans[i.planId])
            && r.state.issues[id].unlocked == Schedule(s.plans[i.planId], i, now)
            && PaidFor(r.sent, id) == r.state.issues[id].unlocked - i.unlocked
  {
    var r := Unlock(s, now, planId, id);
    assert PlanOk(s.plans[s.issues[id].planId]);
    assert r.sent == [r.sent[0]] && r.sent[..0] == [];
  }

  /** And leaves every other issue alone. */
  lemma UnlockSparesOthers(s: State, now: nat, planId: nat, id: nat, other: nat)
    requires Inv(s) && Unlock(s, now, planId, id).Done? && other in s.issues && other != id
    ensures Untouched(s, Unlock(s, now, planId, id), other)
    ensures Unlock(s, now, planId, id).state.issues[other] == s.issues[other]
  {
    var r := Unlock(s, now, planId, id);
    assert r.sent == [r.sent[0]] && r.sent[..0] == [];
    assert IssueOk(s.plans, s.issues[other]);
  }

  /** None of the issue's terms change, nothing more is unlocked, and nothing is paid to unlock it. */
  ghost predicate Untouched(s: State, r: Outcome, id: nat)
    requires r.Done?
  {
    && SameTerms(s, r.state, id) && r.state.issues[id].unlocked == s.issues[id].unlocked
    && PaidFor(r.sent, id) == 0
  }

  lemma DepositSpares(s: State, now: nat, from: Name, token: Token, amount: int, memo: Memo, id: nat)
    requires RowsOk(s) && id in s.issues && Deposit(s, now, from, token, amount, memo).Done?
    ensures Untouched(s, Deposit(s, now, from, token, amount, memo), id)
  {
    assert IssueOk(s.plans, s.issues[id]);
    var sent := Deposit(s, now, from, token, amount, memo).sent;
    if memo.PlanMemo? { assert sent == [sent[0]] && sent[..0] == []; }
  }

  lemma TransIssueSpares(s: State, f: Name, to: Name, issueId: nat, symbol: Symbol, amount: int, id: nat)
    requires RowsOk(s) && id in s.issues && TransIssue(s, f, to, issueId, symbol, amount).Done?
    requires Unchanged(s, TransIssue(s, f, to, issueId, symbol, amount).state, id)
    ensures Untouched(s, TransIssue(s, f, to, issueId, symbol, amount), id)
  {
    assert IssueOk(s.plans, s.issues[id]);
  }

  lemma EndIssueSpares(s: State, planId: nat, issuer: Name, issueId: nat, id: nat)
    requires RowsOk(s) && id in s.issues && EndIssue(s, planId, issuer, issueId).Done?
    ensures Untouched(s, EndIssue(s, planId, issuer, issueId), id)
  {
    assert IssueOk(s.plans, s.issues[id]);
    var sent := EndIssue(s, planId, issuer, issueId).sent;
    assert sent == [sent[0]] && sent[..0] == [];
  }

  /** Any step other than an unlock that leaves the issue's terms as they are leaves it untouched. */
  lemma OtherStepSpares(s: State, c: Call, id: nat)
    requires Inv(s) && id in s.issues && !c.action.DoUnlock? && Step(s, c).Done? && Unchanged(s, After(s, c), id)
    ensures Untouched(s, Step(s, c), id)
  {
    assert IssueOk(s.plans, s.issues[id]);
    match c.action
    case DoDeposit(from, token, amount, memo) => DepositSpares(s, c.now, from, token, amount, memo, id);
    case DoTransIssue(f, to, issueId, symbol, amount) => TransIssueSpares(s, f, to, issueId, symbol, amount, id);
    case DoEndIssue(planId, issuer, issueId) => EndIssueSpares(s, planId, issuer, issueId, id);
    case DoDelFinIssues(ids) => DelFinIssuesSpares(s, ids, id);
    case _ =>
  }

  /** Where issue `id` of state `s` stands in a later state `t`. */
  ghost predicate Tracks(s: State, t: State, id: nat, last: Option<nat>, paid: int) {
    && SameTerms(s, t, id) && PlanOk(s.plans[s.issues[id].planId])
    && paid == t.issues[id].unlocked
    && (last.None? ==> t.issues[id].unlocked == 0)
    && (last.Some? ==>
          s.issues[id].issuedAt <= last.value &&
          t.issues[id].unlocked == Schedule(s.plans[s.issues[id].planId], s.issues[id], last.value))
  }

  lemma TrackStep(s: State, t: State, c: Call, id: nat, last: Option<nat>, paid: int)
    requires Tracks(s, t, id, last, paid) && Inv(t) && Unchanged(t, After(t, c), id)
    ensures Tracks(s, After(t, c), id, if UnlocksNow(t, c, id) then Some(c.now) else last,
                   paid + PaidFor(Sent(t, c), id))
  {
    if Step(t, c).Done? {
      if c.action.DoUnlock? {
        if c.action.issueId == id {
          UnlockFollowsSchedule(t, c.now, c.action.planId, id);
          SameSchedule(s, t, id, c.now);
        } else {
          UnlockSparesOthers(t, c.now, c.action.planId, c.action.issueId, id);
        }
      } else {
        OtherStepSpares(t, c, id);
      }
    }
  }

  lemma SameSchedule(s: State, t: State, id: nat, now: nat)
    requires SameTerms(s, t, id) && PlanOk(s.plans[s.issues[id].planId])
    ensures s.issues[id].issuedAt <= now ==>
      Schedule(t.plans[t.issues[id].planId], t.issues[id], now) ==
      Schedule(s.plans[s.issues[id].planId], s.issues[id], now)
  {
  }

  lemma UnchangedBetween(s: State, t: State, u: State, id: nat)
    requires Unchanged(s, t, id) && Unchanged(s, u, id)
    ensures Unchanged(t, u, id)
  {
  }

  /** Vesting is history independent. Take any issue nothing of which is unlocked yet, and any run over
      which its amount issued and its first unlock day never change. Then what is unlocked is what the
      schedule gives at the last successful unlock (nothing if there was none), however many unlocks came
      before, and the contract has paid out exactly that for this issue. */
  lemma {:induction false} UnlockedIsScheduled(s: State, calls: seq<Call>, id: nat)
    requires Inv(s) && id in s.issues && s.issues[id].unlocked == 0 && NeverChanged(s, calls, id)
    ensures Tracks(s, Run(s, calls), id, LastUnlock(s, calls, id), PaidFor(Log(s, calls), id))
    decreases |calls|
  {
    if calls == [] {
      assert IssueOk(s.plans, s.issues[id]) && PlanOk(s.plans[s.issues[id].planId]);
    } else {
      var before, c := calls[..|calls| - 1], calls[|calls| - 1];
      UnlockedIsScheduled(s, before, id);
      EveryRunKeeps(s, before);
      var t, last, paid := Run(s, before), LastUnlock(s, before, id), PaidFor(Log(s, before), id);
      UnchangedBetween(s, t, After(t, c), id);
      TrackStep(s, t, c, id, last, paid);
      PaidForBoth(Log(s, before), Sent(t, c), id);
      assert LastUnlock(s, calls, id) == if UnlocksNow(t, c, id) then Some(c.now) else last;
      assert PaidFor(Log(s, calls), id) == paid + PaidFor(Sent(t, c), id);
    }
  }

  /** Two runs that last unlock the issue at the same time have paid the same for it. */
  lemma HistoryIndependent(s: State, calls: seq<Call>, others: seq<Call>, id: nat)
    requires Inv(s) && id in s.issues && s.issues[id].unlocked == 0
    requires NeverChanged(s, calls, id) && NeverChanged(s, others, id)
    requires LastUnlock(s, calls, id) == LastUnlock(s, others, id)
    ensures PaidFor(Log(s, calls), id) == PaidFor(Log(s, others), id)
  {
    UnlockedIsScheduled(s, calls, id);
    UnlockedIsScheduled(s, others, id);
  }

  lemma {:induction false} LastUnlockIsPast(s: State, calls: seq<Call>, id: nat, now: nat)
    requires forall k :: 0 <= k < |calls| ==> calls[k].now <= now
    ensures LastUnlock(s, calls, id).Some? ==> LastUnlock(s, calls, id).value <= now
    decreases |calls|
  {
    if calls != [] { LastUnlockIsPast(s, calls[..|calls| - 1], id, now); }
  }

  /** Under the same conditions the assertion inside unlock, that the schedule has not fallen behind
      what is already unlocked, never fires. */
  lemma ScheduleNeverRegresses(s: State, calls: seq<Call>, id: nat, planId: nat, now: nat)
    requires Inv(s) && id in s.issues && s.issues[id].unlocked == 0 && NeverChanged(s, calls, id)
    requires forall k :: 0 <= k < |calls| ==> calls[k].now <= now
    ensures Unlock(Run(s, calls), now, planId, id) != Abort(ScheduleRegressed)
  {
    UnlockedIsScheduled(s, calls, id);
    LastUnlockIsPast(s, calls, id, now);
    NoRegressionWhen(s, Run(s, calls), id, LastUnlock(s, calls, id), PaidFor(Log(s, calls), id), planId, now);
  }

  lemma NoRegressionWhen(s: State, t: State, id: nat, last: Option<nat>, paid: int, planId: nat, now: nat)
    requires Tracks(s, t, id, last, paid) && (last.Some? ==> last.value <= now)
    ensures Unlock(t, now, planId, id) != Abort(ScheduleRegressed)
  {
    if Unlock(t, now, planId, id) == Abort(ScheduleRegressed) {
      RegressionMeans(t, now, planId, id);
      SameSchedule(s, t, id, now);
      ScheduleMonotone(s.plans[planId], s.issues[id], if last.Some? then last.value else now, now);
      assert false;
    }
  }

  /** When the assertion fires, what is unlocked is ahead of the schedule, or the schedule of what was issued. */
  lemma RegressionMeans(t: State, now: nat, planId: nat, id: nat)
    requires Unlock(t, now, planId, id) == Abort(ScheduleRegressed)
    ensures id in t.issues && t.issues[id].planId == planId && planId in t.plans
    ensures var i, p := t.issues[id], t.plans[planId];
            i.issuedAt <= now && p.interval > 0 && p.times > 0 && !(i.unlocked <= Schedule(p, i, now) <= i.issued)
  {
  }

  // ---------- draining ----------

  /** From any state the contract can reach, including after splits: once the last interval of an
      ongoing issue under an enabled plan has come, an unlock succeeds unless the receiver is the
      contract itself, and that one unlock pays exactly what is locked and finishes the issue. */
  lemma LastUnlockDrains(s: State, now: nat, id: nat)
    requires Inv(s) && id in s.issues && s.issues[id].status == Ongoing && s.issues[id].issuedAt <= now
    requires var p := s.plans[s.issues[id].planId]; p.status == Enabled && LastInterval(p, s.issues[id], now)
    ensures var i := s.issues[id]; var r := Unlock(s, now, i.planId, id);
            && (r.Done? <==> i.receiver != s.self)
            && (r.Done? ==>
                  && r.sent == [Payment(s.plans[i.planId].token, i.receiver, i.locked, UnlockOf(id))]
                  && r.state.issues == s.issues[id := i.(unlocked := i.issued, locked := 0, status := Finished)])
  {
    HeldIsCovered(s, id);
    var i := s.issues[id];
    assert IssueOk(s.plans, i) && PlanOk(s.plans[i.planId]);
  }

  /** Ending an ongoing issue under an enabled plan succeeds unless the issuer is the contract itself,
      and refunds exactly what is locked. */
  lemma EndIssueRefunds(s: State, id: nat)
    requires Inv(s) && id in s.issues && s.issues[id].status == Ongoing
    requires s.plans[s.issues[id].planId].status == Enabled
    ensures var i := s.issues[id]; var r := EndIssue(s, i.planId, i.issuer, id);
            && (r.Done? <==> i.issuer != s.self)
            && (r.Done? ==>
                  && r.sent == [Payment(s.plans[i.planId].token, i.issuer, i.locked, RefundOf(id))]
                  && r.state.issues == s.issues[id := i.(status := Finished)])
  {
    HeldIsCovered(s, id);
    assert IssueOk(s.plans, s.issues[id]) && PlanOk(s.plans[s.issues[id].planId]);
  }

  /** Exactly when an unlock goes through. Before the last interval two more things can stop it: tenths
      of the product that do not fit an int64, and a rounded share that is not above what is unlocked. */
  lemma UnlockSucceedsIff(s: State, now: nat, planId: nat, id: nat)
    requires Inv(s)
    ensures Unlock(s, now, planId, id).Done? <==>
              && id in s.issues && s.issues[id].planId == planId && s.issues[id].issuedAt <= now
              && var i, p := s.issues[id], s.plans[planId];
                 && p.status == Enabled && i.status == Ongoing && i.receiver != s.self && UnlockedDays(i, now) >= 0
                 && (LastInterval(p, i, now)
                     || (10 * (i.issued * UnlockedTimes(p, UnlockedDays(i, now))) / p.times <= INT64_MAX
                         && i.unlocked < Schedule(p, i, now)))
  {
    if id in s.issues && s.issues[id].planId == planId && s.issues[id].issuedAt <= now {
      var i, p := s.issues[id], s.plans[planId];
      HeldIsCovered(s, id);
      assert IssueOk(s.plans, i) && PlanOk(p);
      if UnlockedDays(i, now) >= 0 {
        var k := UnlockedTimes(p, UnlockedDays(i, now));
        ReleasedGrows(i.issued, k, k, p.times);
      }
    }
  }

  // ---------- where splitting an issue breaks the schedule ----------

  lemma NearestAtLeast(x: nat, c: nat, u: nat)
    requires c > 0
    ensures Nearest(x, c) >= u <==> 2 * x + c >= (2 * c) * u
  {
    NearestBounds(x, c);
    MulOrder(2 * c, u, Nearest(x, c));
    MulOrder(2 * c, Nearest(x, c) + 1, u);
  }

  /** At `now` an unlock of the issue gets as far as the schedule, as the k-th time of fewer than all. */
  ghost predicate ReachesSchedule(s: State, id: nat, now: nat, k: nat) {
    && id in s.issues && s.issues[id].planId in s.plans
    && var i, p := s.issues[id], s.plans[s.issues[id].planId];
       i.status == Ongoing && PlanOk(p) && p.status == Enabled && i.issuedAt <= now &&
       UnlockedDays(i, now) >= 0 && k == UnlockedTimes(p, UnlockedDays(i, now)) < p.times &&
       10 * (i.issued * k) / p.times <= INT64_MAX
  }

  /** There the assertion stops it exactly when the rounded share is below what is unlocked already. */
  lemma UnlockStallsIff(s: State, id: nat, now: nat, k: nat)
    requires ReachesSchedule(s, id, now, k)
    ensures var i, p := s.issues[id], s.plans[s.issues[id].planId];
            Unlock(s, now, i.planId, id) == Abort(ScheduleRegressed) <==>
            2 * (i.issued * k) + p.times < (2 * p.times) * i.unlocked
  {
    var i, p := s.issues[id], s.plans[s.issues[id].planId];
    NearestOfShare(i.issued, k, p.times);
    UnlockStallsWhen(s, id, now, k, Nearest(i.issued * k, p.times));
    NearestAtLeast(i.issued * k, p.times, i.unlocked);
  }

  lemma UnlockStallsWhen(s: State, id: nat, now: nat, k: nat, total: nat)
    requires ReachesSchedule(s, id, now, k)
    requires total == Nearest(s.issues[id].issued * k, s.plans[s.issues[id].planId].times) <= s.issues[id].issued
    ensures var i := s.issues[id];
            Unlock(s, now, i.planId, id) == Abort(ScheduleRegressed) <==> total < i.unlocked
  {
    assert Schedule(s.plans[s.issues[id].planId], s.issues[id], now) == total;
  }

  lemma TransIssueLeaves(s: State, f: Name, to: Name, id: nat, symbol: Symbol, amount: int)
    requires TransIssue(s, f, to, id, symbol, amount).Done?
    ensures var i, t := s.issues[id], TransIssue(s, f, to, id, symbol, amount).state;
            && t.plans == s.plans && 0 < amount <= i.locked && amount <= i.issued
            && (amount < i.locked ==>
                  id in t.issues && t.issues[id] == i.(issued := i.issued - amount, locked := i.locked - amount))
  {
  }

  /** `transissue` shrinks `issued` but not `unlocked`. Before the last interval, the next unlock of
      what remains then runs into the assertion exactly when too much was transferred away. */
  lemma SplitStallsIff(s: State, f: Name, to: Name, id: nat, symbol: Symbol, amount: int, now: nat, k: nat)
    requires TransIssue(s, f, to, id, symbol, amount).Done? && amount < s.issues[id].locked
    requires ReachesSchedule(TransIssue(s, f, to, id, symbol, amount).state, id, now, k)
    ensures var i, p := s.issues[id], s.plans[s.issues[id].planId];
            var t := TransIssue(s, f, to, id, symbol, amount).state;
            Unlock(t, now, i.planId, id) == Abort(ScheduleRegressed) <==>
            2 * ((i.issued - amount) * k) + p.times < (2 * p.times) * i.unlocked
  {
    TransIssueLeaves(s, f, to, id, symbol, amount);
    UnlockStallsIff(TransIssue(s, f, to, id, symbol, amount).state, id, now, k);
  }

  /** Nor does `setfirstdays` look at what is unlocked. After it the next unlock before the last interval
      stalls exactly when the schedule from the new day has not yet caught up with that. */
  lemma FirstDaysStallIff(s: State, id: nat, days: nat, now: nat, k: nat)
    requires SetFirstDays(s, id, days).Done? && ReachesSchedule(SetFirstDays(s, id, days).state, id, now, k)
    ensures var i, p := s.issues[id], s.plans[s.issues[id].planId];
            Unlock(SetFirstDays(s, id, days).state, now, i.planId, id) == Abort(ScheduleRegressed) <==>
            2 * (i.issued * k) + p.times < (2 * p.times) * i.unlocked
  {
    UnlockStallsIff(SetFirstDays(s, id, days).state, id, now, k);
  }

  // ---------- what a split keeps ----------

  /** Rounding two parts separately is off from rounding the whole by at most one. */
  lemma NearestOfSum(x: nat, y: nat, c: nat)
    requires c > 0
    ensures -1 <= Nearest(x, c) + Nearest(y, c) - Nearest(x + y, c) <= 1
  {
    NearestBounds(x, c);
    NearestBounds(y, c);
    NearestBounds(x + y, c);
    var d, m, n, whole := 2 * c, Nearest(x, c), Nearest(y, c), Nearest(x + y, c);
    assert d * (m + n) == d * m + d * n;
    assert d * (m + 1) == d * m + d && d * (n + 1) == d * n + d && d * (whole + 1) == d * whole + d;
    NoTwoApart(d, m + n, whole);
    NoTwoApart(d, whole, m + n);
  }

  lemma NoTwoApart(d: int, a: int, b: int)
    requires d > 0 && d * a < d * b + 2 * d
    ensures a < b + 2
  {
    MulOrder(d, b + 2, a);
    assert d * (b + 2) == d * b + 2 * d;
  }

  lemma ReleasedOfParts(a: nat, b: nat, k: nat, times: nat)
    requires times > 0
    ensures -1 <= Released(a, k, times) + Released(b, k, times) - Released(a + b, k, times) <= 1
    ensures k >= times ==> Released(a, k, times) + Released(b, k, times) == Released(a + b, k, times)
  {
    if k < times {
      NearestOfSum(a * k, b * k, times);
      assert a * k + b * k == (a + b) * k;
    }
  }

  /** Passing on part of an issue opens one for the new receiver with the same plan, issuer, clock and
      terms, and the amount taken. */
  lemma SplitCopiesTerms(s: State, f: Name, to: Name, id: nat, symbol: Symbol, amount: int)
    requires TransIssue(s, f, to, id, symbol, amount).Done?
    ensures var i, t, next := s.issues[id], TransIssue(s, f, to, id, symbol, amount).state, NextKey(s.issues.Keys);
            && i.receiver == f && next !in s.issues && next in t.issues
            && t.issues[next] == Issue(i.planId, i.issuer, to, i.symbol, amount, amount, 0, i.firstUnlockDays,
                                         i.interval, i.times, Ongoing, i.issuedAt)
            && t.issues.Keys == s.issues.Keys + {next} - (if amount == i.locked then {id} else {})
  {
  }

  /** At any time the two parts together have released what the whole would have, give or take one unit
      of rounding, and from the last interval on exactly that. */
  lemma SplitReleasesTheSame(s: State, f: Name, to: Name, id: nat, symbol: Symbol, amount: int, now: nat)
    requires TransIssue(s, f, to, id, symbol, amount).Done? && amount < s.issues[id].locked
    requires s.issues[id].planId in s.plans && PlanOk(s.plans[s.issues[id].planId]) && s.issues[id].issuedAt <= now
    ensures var i, p, t := s.issues[id], s.plans[s.issues[id].planId], TransIssue(s, f, to, id, symbol, amount).state;
            var part, rest := t.issues[NextKey(s.issues.Keys)], t.issues[id];
            && -1 <= Schedule(p, part, now) + Schedule(p, rest, now) - Schedule(p, i, now) <= 1
            && (LastInterval(p, i, now) ==> Schedule(p, part, now) + Schedule(p, rest, now) == Schedule(p, i, now))
  {
    SplitCopiesTerms(s, f, to, id, symbol, amount);
    TransIssueLeaves(s, f, to, id, symbol, amount);
    var i, p := s.issues[id], s.plans[s.issues[id].planId];
    if UnlockedDays(i, now) >= 0 {
      ReleasedOfParts(amount, i.issued - amount, UnlockedTimes(p, UnlockedDays(i, now)), p.times);
    }
  }

  // ---------- whose balance moves ----------

  /** An unlock moves what it newly unlocks from the contract to the receiver, and no other balance. */
  lemma UnlockMoves(s: State, now: nat, planId: nat, id: nat, u: Token, who: Name)
    requires Unlock(s, now, planId, id).Done?
    ensures var i, p, t := s.issues[id], s.plans[planId], Unlock(s, now, planId, id).state;
            var paid := t.issues[id].unlocked - i.unlocked;
            BalanceOf(t.ledger, u, who) == BalanceOf(s.ledger, u, who)
              + (if u == p.token && who == i.receiver then paid else 0)
              - (if u == p.token && who == s.self then paid else 0)
  {
    var t := Unlock(s, now, planId, id).state;
    TransferMoves(s.ledger, s.plans[planId].token, s.self, s.issues[id].receiver,
                  t.issues[id].unlocked - s.issues[id].unlocked);
  }

  /** Ending an issue moves what it holds from the contract to the issuer, and no other balance. */
  lemma EndIssueMoves(s: State, planId: nat, issuer: Name, id: nat, u: Token, who: Name)
    requires EndIssue(s, planId, issuer, id).Done?
    ensures var i, p, t := s.issues[id], s.plans[planId], EndIssue(s, planId, issuer, id).state;
            BalanceOf(t.ledger, u, who) == BalanceOf(s.ledger, u, who)
              + (if u == p.token && who == i.issuer then i.locked else 0)
              - (if u == p.token && who == s.self then i.locked else 0)
  {
    TransferMoves(s.ledger, s.plans[planId].token, s.self, s.issues[id].issuer, s.issues[id].locked);
  }

  // ---------- the life of a plan ----------

  /** What a plan promises its issues, and how far its books have come. */
  ghost predicate PlanContinues(p: Plan, q: Plan) {
    && q.title == p.title && q.token == p.token && q.interval == p.interval && q.times == p.times
    && p.totalIssued <= q.totalIssued && p.totalUnlocked <= q.totalUnlocked && p.totalRefunded <= q.totalRefunded
  }

  lemma {:induction false} DelFinIssuesKeepsPlans(s: State, ids: seq<nat>)
    requires DelFinIssues(s, ids).Done?
    ensures DelFinIssues(s, ids).state.plans == s.plans
    decreases |ids|
  {
    if ids != [] { DelFinIssuesKeepsPlans(s.(issues := s.issues - {ids[0]}), ids[1..]); }
  }

  /** The plan goes on under its terms, and waits for its fee exactly if it did before. */
  ghost predicate KeepsPlan(s: State, t: State, planId: nat)
    requires planId in s.plans
  {
    && planId in t.plans && PlanContinues(s.plans[planId], t.plans[planId])
    && (s.plans[planId].status == Pending <==> t.plans[planId].status == Pending)
  }

  lemma UnlockKeepsPlan(s: State, now: nat, p: nat, id: nat, planId: nat)
    requires planId in s.plans && Unlock(s, now, p, id).Done?
    ensures KeepsPlan(s, Unlock(s, now, p, id).state, planId)
  {
    var total := UnlockWrites(s, now, p, id);
  }

  lemma EndIssueKeepsPlan(s: State, p: nat, issuer: Name, id: nat, planId: nat)
    requires planId in s.plans && EndIssue(s, p, issuer, id).Done?
    ensures KeepsPlan(s, EndIssue(s, p, issuer, id).state, planId)
  {
  }

  lemma IssueInKeepsPlan(s: State, now: nat, from: Name, token: Token, amount: nat, to: Name, p: nat, days: nat,
                         planId: nat)
    requires planId in s.plans && IssueIn(s, now, from, token, amount, to, p, days).Done?
    ensures KeepsPlan(s, IssueIn(s, now, from, token, amount, to, p, days).state, planId)
  {
  }

  lemma FeeContinuesPlan(s: State, from: Name, token: Token, amount: int, payFor: Option<nat>, planId: nat)
    requires planId in s.plans && PayPlanFee(s, from, token, amount, payFor).Done?
    ensures var t := PayPlanFee(s, from, token, amount, payFor).state;
            && planId in t.plans && PlanContinues(s.plans[planId], t.plans[planId])
            && (t.plans[planId].status == s.plans[planId].status || t.plans[planId].status == Enabled)
            && token == FLON && amount == s.planFee
  {
  }

  /** The transfer that pays a plan's fee: exactly the fee, in FLON of the system bank, with a plan memo. */
  predicate IsPlanFee(s: State, c: Call) {
    c.action.DoDeposit? && c.action.memo.PlanMemo? && c.action.token == FLON && c.action.amount == s.planFee
  }

  lemma DepositContinuesPlan(s: State, c: Call, planId: nat)
    requires planId in s.plans && c.action.DoDeposit? && Step(s, c).Done?
    ensures var t := After(s, c);
            && planId in t.plans && PlanContinues(s.plans[planId], t.plans[planId])
            && (IsPlanFee(s, c) || KeepsPlan(s, t, planId))
            && (t.plans[planId].status == s.plans[planId].status || t.plans[planId].status == Enabled)
  {
    var a := c.action;
    var u := s.(ledger := Transfer(s.ledger, a.token, a.from, s.self, a.amount).value);
    match a.memo
    case PlanMemo(payFor) => FeeContinuesPlan(u, a.from, a.token, a.amount, payFor, planId);
    case IssueMemo(receiver, p, days) =>
      IssueInKeepsPlan(u, c.now, a.from, a.token, a.amount, receiver, p, days, planId);
    case OtherMemo =>
  }

  lemma OtherStepsKeepPlan(s: State, c: Call, planId: nat)
    requires planId in s.plans && !c.action.DoDeposit?
    ensures KeepsPlan(s, After(s, c), planId)
  {
    if Step(s, c).Done? {
      match c.action
      case DoUnlock(p, id) => UnlockKeepsPlan(s, c.now, p, id, planId);
      case DoEndIssue(p, issuer, id) => EndIssueKeepsPlan(s, p, issuer, id, planId);
      case DoDelFinIssues(ids) => DelFinIssuesKeepsPlans(s, ids);
      case _ =>
    }
  }

  /** A plan that is waiting for its fee leaves that state only by the fee, and is enabled then; and no
      plan ever comes to wait for one again. */
  lemma OnlyTheFeeEnables(s: State, c: Call, planId: nat)
    requires planId in s.plans
    ensures planId in After(s, c).plans
    ensures (s.plans[planId].status == Pending) != (After(s, c).plans[planId].status == Pending) ==>
              IsPlanFee(s, c) && s.plans[planId].status == Pending && After(s, c).plans[planId].status == Enabled
  {
    if !c.action.DoDeposit? {
      OtherStepsKeepPlan(s, c, planId);
    } else if Step(s, c).Done? {
      DepositContinuesPlan(s, c, planId);
    }
  }

  lemma StepContinuesPlan(s: State, c: Call, planId: nat)
    requires planId in s.plans
    ensures planId in After(s, c).plans && PlanContinues(s.plans[planId], After(s, c).plans[planId])
  {
    if !c.action.DoDeposit? {
      OtherStepsKeepPlan(s, c, planId);
    } else if Step(s, c).Done? {
      DepositContinuesPlan(s, c, planId);
    }
  }

  /** Over every run a plan stays, its token, interval and number of unlocks are what they were when it was
      added, and none of its totals ever shrinks. */
  lemma {:induction false} EveryRunContinuesPlans(s: State, calls: seq<Call>, planId: nat)
    requires planId in s.plans
    ensures planId in Run(s, calls).plans && PlanContinues(s.plans[planId], Run(s, calls).plans[planId])
    decreases |calls|
  {
    if calls != [] {
      EveryRunContinuesPlans(s, calls[..|calls| - 1], planId);
      StepContinuesPlan(Run(s, calls[..|calls| - 1]), calls[|calls| - 1], planId);
    }
  }
}
