/** What every step of flon.vest keeps: the books of each plan, and the contract's solvency. */
module VestSafety {
  import opened Tables
  import opened Ledger
  import opened VestSpec

  /** What an issue still holds in the contract. `endissue` leaves `locked` as it was on the issue
      it finishes, so a finished issue holds nothing whatever its `locked` says. */
  function Held(i: Issue): nat {
    if i.status == Ongoing then i.locked else 0
  }

  function HeldIn(planId: nat): Issue -> int {
    (i: Issue) => if i.planId == planId then Held(i) else 0
  }

  function Tokens(plans: map<nat, Plan>): map<nat, Token> {
    map id | id in plans :: plans[id].token
  }

  function HeldAs(tokens: map<nat, Token>, t: Token): Issue -> int {
    (i: Issue) => if i.planId in tokens && tokens[i.planId] == t then Held(i) else 0
  }

  predicate PlanOk(p: Plan) {
    0 < p.interval <= MAX_LOCK_DAYS && p.times > 0 && p.totalIssued <= MAX_AMOUNT
  }

  predicate IssueOk(plans: map<nat, Plan>, i: Issue) {
    && i.planId in plans && i.symbol == plans[i.planId].token.symbol
    && i.interval == plans[i.planId].interval && i.times == plans[i.planId].times
    && i.locked + i.unlocked == i.issued
    && (i.status == Ongoing ==> i.locked > 0)
    && i.firstUnlockDays <= MAX_LOCK_DAYS
  }

  /** The books of a plan: everything ever issued under it was unlocked, refunded or is still held. */
  ghost predicate Balanced(s: State, planId: nat)
    requires planId in s.plans
  {
    var p := s.plans[planId];
    p.totalIssued == p.totalUnlocked + p.totalRefunded + Sum(s.issues, HeldIn(planId))
  }

  /** The contract owns of each token exactly what its ongoing issues hold. */
  ghost predicate Solvent(s: State, t: Token) {
    BalanceOf(s.ledger, t, s.self) == Sum(s.issues, HeldAs(Tokens(s.plans), t))
  }

  ghost predicate RowsOk(s: State) {
    && (forall id :: id in s.plans ==> PlanOk(s.plans[id]))
    && (forall id :: id in s.issues ==> IssueOk(s.plans, s.issues[id]))
  }

  ghost predicate Books(s: State) {
    forall id :: id in s.plans ==> Balanced(s, id)
  }

  ghost predicate Funds(s: State) {
    forall t :: Solvent(s, t)
  }

  ghost predicate Inv(s: State) {
    RowsOk(s) && Books(s) && Funds(s)
  }

  /** A freshly deployed contract: no rows, and no tokens yet. */
  ghost predicate Genesis(s: State) {
    s.plans == map[] && s.issues == map[] && s.lastPlan == map[] && forall t :: BalanceOf(s.ledger, t, s.self) == 0
  }

  // ---------- how one write moves the sums ----------

  /** The two halves of the invariant after writing row k (over `o`, or fresh when `o` holds nothing). */
  lemma WriteBooks(issues: map<nat, Issue>, k: nat, i: Issue, planId: nat)
    ensures Sum(issues[k := i], HeldIn(planId)) == Sum(issues, HeldIn(planId))
              + (if i.planId == planId then Held(i) else 0)
              - (if k in issues && issues[k].planId == planId then Held(issues[k]) else 0)
  {
    SumWrite(issues, HeldIn(planId), k, i);
  }

  lemma WriteFunds(issues: map<nat, Issue>, k: nat, i: Issue, tokens: map<nat, Token>, t: Token)
    requires i.planId in tokens && (k in issues ==> issues[k].planId in tokens)
    ensures Sum(issues[k := i], HeldAs(tokens, t)) == Sum(issues, HeldAs(tokens, t))
              + (if tokens[i.planId] == t then Held(i) else 0)
              - (if k in issues && tokens[issues[k].planId] == t then Held(issues[k]) else 0)
  {
    SumWrite(issues, HeldAs(tokens, t), k, i);
  }

  lemma EraseBooks(issues: map<nat, Issue>, k: nat, planId: nat)
    requires k in issues
    ensures Sum(issues - {k}, HeldIn(planId)) ==
            Sum(issues, HeldIn(planId)) - (if issues[k].planId == planId then Held(issues[k]) else 0)
  {
    SumErase(issues, HeldIn(planId), k);
  }

  lemma EraseFunds(issues: map<nat, Issue>, k: nat, tokens: map<nat, Token>, t: Token)
    requires k in issues && issues[k].planId in tokens
    ensures Sum(issues - {k}, HeldAs(tokens, t)) ==
            Sum(issues, HeldAs(tokens, t)) - (if tokens[issues[k].planId] == t then Held(issues[k]) else 0)
  {
    SumErase(issues, HeldAs(tokens, t), k);
  }

  /** How much more is held after writing row k. */
  function Change(s: State, k: nat, i: Issue): int {
    Held(i) - if k in s.issues then Held(s.issues[k]) else 0
  }

  function Outstanding(p: Plan): int {
    p.totalIssued - p.totalUnlocked - p.totalRefunded
  }

  /** Writing one issue and its plan, with the plan's totals moved by the same amount, keeps the books. */
  lemma WriteKeepsBooks(s: State, t: State, k: nat, i: Issue, p: Plan)
    requires Books(s) && i.planId in s.plans && t.issues == s.issues[k := i] && t.plans == s.plans[i.planId := p]
    requires k in s.issues ==> s.issues[k].planId == i.planId
    requires Outstanding(p) == Outstanding(s.plans[i.planId]) + Change(s, k, i)
    ensures Books(t)
  {
    forall id | id in t.plans ensures Balanced(t, id) {
      assert Balanced(s, id);
      WriteBooks(s.issues, k, i, id);
    }
  }

  /** Writing one issue, with the contract's balance moved by the same amount, keeps it solvent. */
  lemma WriteKeepsFunds(s: State, t: State, k: nat, i: Issue, p: Plan)
    requires Funds(s) && t.self == s.self && i.planId in s.plans && p.token == s.plans[i.planId].token
    requires t.issues == s.issues[k := i] && t.plans == s.plans[i.planId := p]
    requires k in s.issues ==> s.issues[k].planId == i.planId
    requires forall u :: BalanceOf(t.ledger, u, t.self) ==
                         BalanceOf(s.ledger, u, s.self) + (if u == p.token then Change(s, k, i) else 0)
    ensures Funds(t)
  {
    assert Tokens(t.plans) == Tokens(s.plans);
    forall u ensures Solvent(t, u) {
      assert Solvent(s, u);
      WriteFunds(s.issues, k, i, Tokens(s.plans), u);
    }
  }

  /** Writing one issue and its plan keeps the rows in order when the plan keeps its terms. */
  lemma WriteKeepsRows(s: State, t: State, k: nat, i: Issue, p: Plan)
    requires RowsOk(s) && i.planId in s.plans
    requires t.issues == s.issues[k := i] && t.plans == s.plans[i.planId := p]
    requires var q := s.plans[i.planId]; p.token == q.token && p.interval == q.interval && p.times == q.times
    requires PlanOk(p) && IssueOk(s.plans, i)
    ensures RowsOk(t)
  {
    forall id | id in t.issues ensures IssueOk(t.plans, t.issues[id]) {
      if id != k { assert IssueOk(s.plans, s.issues[id]); }
    }
  }

  /** What any one issue holds, the plan and the contract's balance can cover. */
  lemma HeldIsCovered(s: State, issueId: nat)
    requires Inv(s) && issueId in s.issues
    ensures var i := s.issues[issueId]; var p := s.plans[i.planId];
            Held(i) <= BalanceOf(s.ledger, p.token, s.self) &&
            p.totalUnlocked + p.totalRefunded + Held(i) <= p.totalIssued
  {
    var i := s.issues[issueId];
    HeldInPlanIsCovered(s, issueId, i.planId);
    HeldAsTokenIsCovered(s, issueId, s.plans[i.planId].token);
  }

  lemma HeldInPlanIsCovered(s: State, k: nat, planId: nat)
    requires k in s.issues && s.issues[k].planId == planId && planId in s.plans && Balanced(s, planId)
    ensures var p := s.plans[planId]; p.totalUnlocked + p.totalRefunded + Held(s.issues[k]) <= p.totalIssued
  {
    SumCovers(s.issues, HeldIn(planId));
    assert HeldIn(planId)(s.issues[k]) == Held(s.issues[k]);
  }

  lemma HeldAsTokenIsCovered(s: State, k: nat, t: Token)
    requires k in s.issues && s.issues[k].planId in s.plans && s.plans[s.issues[k].planId].token == t && Solvent(s, t)
    ensures Held(s.issues[k]) <= BalanceOf(s.ledger, t, s.self)
  {
    SumCovers(s.issues, HeldAs(Tokens(s.plans), t));
    assert HeldAs(Tokens(s.plans), t)(s.issues[k]) == Held(s.issues[k]);
  }

  // ---------- every action keeps the invariant ----------

  lemma GenesisIsFine(s: State)
    requires Genesis(s)
    ensures Inv(s)
  {
  }

  lemma AddPlanKeeps(s: State, owner: Name, title: string, token: Token, interval: nat, times: int)
    requires Inv(s) && AddPlan(s, owner, title, token, interval, times).Done?
    ensures Inv(AddPlan(s, owner, title, token, interval, times).state)
  {
    var t := AddPlan(s, owner, title, token, interval, times).state;
    AddPlanBooks(s, t, NextKey(s.plans.Keys));
    forall u ensures Solvent(t, u) { AddPlanFunds(s, t, NextKey(s.plans.Keys), u); }
  }

  lemma AddPlanBooks(s: State, t: State, id: nat)
    requires Books(s) && RowsOk(s) && id !in s.plans && id in t.plans && t.plans == s.plans[id := t.plans[id]]
    requires t.issues == s.issues
    requires t.plans[id].totalIssued == t.plans[id].totalUnlocked == t.plans[id].totalRefunded == 0
    ensures Books(t)
  {
    assert forall k :: k in s.issues ==> s.issues[k].planId in s.plans;
    SumZero(s.issues, HeldIn(id));
    forall p | p in t.plans ensures Balanced(t, p) {
      if p != id { assert Balanced(s, p); }
    }
  }

  lemma AddPlanFunds(s: State, t: State, id: nat, u: Token)
    requires Solvent(s, u) && RowsOk(s) && id !in s.plans && id in t.plans && t.plans == s.plans[id := t.plans[id]]
    requires t.issues == s.issues && t.ledger == s.ledger && t.self == s.self
    ensures Solvent(t, u)
  {
    var w, v := HeldAs(Tokens(s.plans), u), HeldAs(Tokens(t.plans), u);
    forall k | k in s.issues ensures w(s.issues[k]) == v(s.issues[k]) {
      assert IssueOk(s.plans, s.issues[k]);
    }
    SumSame(s.issues, w, v);
  }

  /** Changes to a plan's owner or status touch neither books nor balances. */
  lemma PlanTouchKeeps(s: State, t: State, planId: nat, p: Plan)
    requires Inv(s) && planId in s.plans
    requires p == s.plans[planId].(owner := p.owner, status := p.status)
    requires t.plans == s.plans[planId := p] && t.issues == s.issues && t.self == s.self
    requires forall u :: BalanceOf(t.ledger, u, t.self) == BalanceOf(s.ledger, u, s.self)
    ensures Inv(t)
  {
    assert Tokens(t.plans) == Tokens(s.plans);
    forall u ensures Solvent(t, u) { assert Solvent(s, u); }
    forall id | id in t.plans ensures Balanced(t, id) { assert Balanced(s, id); }
  }

  lemma IssueInKeeps(s: State, now: nat, from: Name, token: Token, amount: nat, receiver: Name, planId: nat,
                     days: nat, t: State)
    requires Inv(s) && amount > 0
    requires t.self == s.self && t.plans == s.plans && t.issues == s.issues
    requires forall u ::
               BalanceOf(t.ledger, u, t.self) == BalanceOf(s.ledger, u, s.self) + (if u == token then amount else 0)
    requires IssueIn(t, now, from, token, amount, receiver, planId, days).Done?
    ensures Inv(IssueIn(t, now, from, token, amount, receiver, planId, days).state)
  {
    var r := IssueIn(t, now, from, token, amount, receiver, planId, days).state;
    var id := NextKey(s.issues.Keys);
    var i, p := r.issues[id], r.plans[planId];
    WriteKeepsRows(s, r, id, i, p);
    WriteKeepsFunds(s, r, id, i, p);
    WriteKeepsBooks(s, r, id, i, p);
  }

  lemma DepositKeeps(s: State, now: nat, from: Name, token: Token, amount: int, memo: Memo)
    requires Inv(s) && Deposit(s, now, from, token, amount, memo).Done?
    ensures Inv(Deposit(s, now, from, token, amount, memo).state)
  {
    TransferMoves(s.ledger, token, from, s.self, amount);
    var t := s.(ledger := Transfer(s.ledger, token, from, s.self, amount).value);
    var r := Deposit(s, now, from, token, amount, memo).state;
    match memo
    case PlanMemo(payFor) =>
      var id := PlanOfFee(t, from, payFor).n;
      TransferMoves(t.ledger, token, s.self, s.feeReceiver, amount);
      PlanTouchKeeps(s, r, id, r.plans[id]);
    case IssueMemo(receiver, planId, days) =>
      IssueInKeeps(s, now, from, token, amount, receiver, planId, days, t);
    case OtherMemo =>
  }

  /** A plan fee passes straight through: it enables the plan, and the contract's own balances and
      its issues are as before while the fee receiver is richer by the fee. */
  lemma PlanFeePassesThrough(s: State, now: nat, from: Name, token: Token, amount: int, payFor: Option<nat>)
    requires Deposit(s, now, from, token, amount, PlanMemo(payFor)).Done? && from != s.feeReceiver
    ensures var t := Deposit(s, now, from, token, amount, PlanMemo(payFor)).state;
            && t.issues == s.issues && amount == s.planFee
            && (forall u :: BalanceOf(t.ledger, u, s.self) == BalanceOf(s.ledger, u, s.self))
            && BalanceOf(t.ledger, token, s.feeReceiver) == BalanceOf(s.ledger, token, s.feeReceiver) + amount
  {
    TransferMoves(s.ledger, token, from, s.self, amount);
    TransferMoves(Transfer(s.ledger, token, from, s.self, amount).value, token, s.self, s.feeReceiver, amount);
  }

  lemma TransIssueKeeps(s: State, f: Name, to: Name, issueId: nat, symbol: Symbol, amount: int)
    requires Inv(s) && TransIssue(s, f, to, issueId, symbol, amount).Done?
    ensures Inv(TransIssue(s, f, to, issueId, symbol, amount).state)
  {
    var t := TransIssue(s, f, to, issueId, symbol, amount).state;
    var id := NextKey(s.issues.Keys);
    var split := s.issues[issueId].(receiver := to, issued := amount, locked := amount, unlocked := 0);
    SplitRows(s, t, issueId, id, split);
    forall u ensures Solvent(t, u) { SplitFunds(s, t, issueId, id, split, u); }
    forall p | p in t.plans ensures Balanced(t, p) { SplitBooks(s, t, issueId, id, split, p); }
  }

  /** An issue cut in two: `id` takes `split`, and `issueId` keeps the rest or goes when nothing is left. */
  ghost predicate IsSplit(s: State, t: State, issueId: nat, id: nat, split: Issue) {
    && issueId in s.issues && id !in s.issues && IssueOk(s.plans, s.issues[issueId])
    && t.self == s.self && t.plans == s.plans && t.ledger == s.ledger
    && var i := s.issues[issueId];
       i.status == split.status == Ongoing && split.planId == i.planId && 0 < split.locked <= i.locked <= i.issued &&
       t.issues == if i.locked == split.locked then s.issues[id := split] - {issueId}
                   else s.issues[id := split][issueId := i.(issued := i.issued - split.locked,
                                                            locked := i.locked - split.locked)]
  }

  lemma SplitRows(s: State, t: State, issueId: nat, id: nat, split: Issue)
    requires IsSplit(s, t, issueId, id, split) && RowsOk(s) && IssueOk(s.plans, split)
    ensures RowsOk(t)
  {
    forall k | k in t.issues ensures IssueOk(t.plans, t.issues[k]) {
      if k != id && k != issueId { assert IssueOk(s.plans, s.issues[k]); }
    }
  }

  lemma SplitFunds(s: State, t: State, issueId: nat, id: nat, split: Issue, u: Token)
    requires IsSplit(s, t, issueId, id, split) && Solvent(s, u)
    ensures Solvent(t, u)
  {
    WriteFunds(s.issues, id, split, Tokens(s.plans), u);
    var grown := s.issues[id := split];
    if s.issues[issueId].locked == split.locked {
      EraseFunds(grown, issueId, Tokens(s.plans), u);
    } else {
      WriteFunds(grown, issueId, t.issues[issueId], Tokens(s.plans), u);
    }
  }

  lemma SplitBooks(s: State, t: State, issueId: nat, id: nat, split: Issue, p: nat)
    requires IsSplit(s, t, issueId, id, split) && p in s.plans && Balanced(s, p)
    ensures Balanced(t, p)
  {
    WriteBooks(s.issues, id, split, p);
    var grown := s.issues[id := split];
    if s.issues[issueId].locked == split.locked {
      EraseBooks(grown, issueId, p);
    } else {
      WriteBooks(grown, issueId, t.issues[issueId], p);
    }
  }

  /** Paying `amount` out of issue `issueId`, booked to its plan as unlocked or refunded. */
  lemma PayOutKeeps(s: State, t: State, issueId: nat, i: Issue, p: Plan, amount: nat)
    requires Inv(s) && issueId in s.issues
    requires var o := s.issues[issueId];
             i.planId == o.planId && i.symbol == o.symbol && i.interval == o.interval && i.times == o.times &&
             i.firstUnlockDays == o.firstUnlockDays && i.locked + i.unlocked == i.issued &&
             (i.status == Ongoing ==> i.locked > 0) && Held(o) == Held(i) + amount
    requires var q := s.plans[i.planId];
             p == q.(totalUnlocked := p.totalUnlocked, totalRefunded := p.totalRefunded) &&
             p.totalUnlocked + p.totalRefunded == q.totalUnlocked + q.totalRefunded + amount
    requires t.self == s.self && t.plans == s.plans[i.planId := p] && t.issues == s.issues[issueId := i]
    requires forall u ::
               BalanceOf(t.ledger, u, t.self) == BalanceOf(s.ledger, u, s.self) - (if u == p.token then amount else 0)
    ensures Inv(t)
  {
    assert IssueOk(s.plans, s.issues[issueId]) && PlanOk(s.plans[i.planId]);
    WriteKeepsRows(s, t, issueId, i, p);
    WriteKeepsFunds(s, t, issueId, i, p);
    WriteKeepsBooks(s, t, issueId, i, p);
  }

  lemma EndIssueKeeps(s: State, planId: nat, issuer: Name, issueId: nat)
    requires Inv(s) && EndIssue(s, planId, issuer, issueId).Done?
    ensures Inv(EndIssue(s, planId, issuer, issueId).state)
  {
    var t := EndIssue(s, planId, issuer, issueId).state;
    var i := s.issues[issueId];
    TransferMoves(s.ledger, s.plans[planId].token, s.self, i.issuer, i.locked);
    PayOutKeeps(s, t, issueId, t.issues[issueId], t.plans[planId], i.locked);
  }

  lemma UnlockKeeps(s: State, now: nat, planId: nat, issueId: nat)
    requires Inv(s) && Unlock(s, now, planId, issueId).Done?
    ensures Inv(Unlock(s, now, planId, issueId).state)
  {
    var i, p := s.issues[issueId], s.plans[planId];
    var total := UnlockWrites(s, now, planId, issueId);
    var paid := total - i.unlocked;
    TransferMoves(s.ledger, p.token, s.self, i.receiver, paid);
    PayOutKeeps(s, Unlock(s, now, planId, issueId).state, issueId,
                i.(unlocked := total, locked := i.issued - total,
                   status := if total == i.issued then Finished else i.status),
                p.(totalUnlocked := p.totalUnlocked + paid), paid);
  }

  /** What a successful unlock writes, for the new total it arrived at. */
  lemma UnlockWrites(s: State, now: nat, planId: nat, issueId: nat) returns (total: nat)
    requires Unlock(s, now, planId, issueId).Done?
    ensures issueId in s.issues && planId in s.plans && s.issues[issueId].planId == planId
    ensures var i, p := s.issues[issueId], s.plans[planId];
            && i.status == Ongoing && i.unlocked < total <= i.issued
            && Transfer(s.ledger, p.token, s.self, i.receiver, total - i.unlocked).Some?
            && Unlock(s, now, planId, issueId).state == s.(
                 plans := s.plans[planId := p.(totalUnlocked := p.totalUnlocked + (total - i.unlocked))],
                 issues := s.issues[issueId := i.(unlocked := total, locked := i.issued - total,
                                                  status := if total == i.issued then Finished else i.status)],
                 ledger := Transfer(s.ledger, p.token, s.self, i.receiver, total - i.unlocked).value)
  {
    total := UnlockTarget(s.plans[planId], s.issues[issueId], now).n;
  }

  lemma {:induction false} DelFinIssuesKeeps(s: State, ids: seq<nat>)
    requires Inv(s) && DelFinIssues(s, ids).Done?
    ensures Inv(DelFinIssues(s, ids).state)
    decreases |ids|
  {
    if ids != [] {
      var t := s.(issues := s.issues - {ids[0]});
      forall u ensures Solvent(t, u) {
        assert Solvent(s, u);
        EraseFunds(s.issues, ids[0], Tokens(s.plans), u);
      }
      forall p | p in t.plans ensures Balanced(t, p) {
        assert Balanced(s, p);
        EraseBooks(s.issues, ids[0], p);
      }
      DelFinIssuesKeeps(t, ids[1..]);
    }
  }

  /** Changing an issue's receiver or first unlock day moves no money. */
  lemma IssueTouchKeeps(s: State, t: State, issueId: nat, i: Issue)
    requires Inv(s) && issueId in s.issues && i.firstUnlockDays <= MAX_LOCK_DAYS
    requires i == s.issues[issueId].(receiver := i.receiver, firstUnlockDays := i.firstUnlockDays)
    requires t == s.(issues := s.issues[issueId := i])
    ensures Inv(t)
  {
    var p := s.plans[i.planId];
    assert t.plans == s.plans[i.planId := p];
    WriteKeepsRows(s, t, issueId, i, p);
    WriteKeepsFunds(s, t, issueId, i, p);
    WriteKeepsBooks(s, t, issueId, i, p);
  }

  lemma SameTablesKeep(s: State, t: State)
    requires Inv(s) && t.self == s.self && t.plans == s.plans && t.issues == s.issues
    requires forall u :: BalanceOf(t.ledger, u, t.self) == BalanceOf(s.ledger, u, s.self)
    ensures Inv(t)
  {
    forall u ensures Solvent(t, u) { assert Solvent(s, u); }
    forall p | p in t.plans ensures Balanced(t, p) { assert Balanced(s, p); }
  }

  /** One step of any kind keeps the invariant. */
  lemma StepKeeps(s: State, c: Call)
    requires Inv(s)
    ensures Inv(After(s, c))
  {
    if Step(s, c).Done? {
      var t := After(s, c);
      match c.action
      case DoInit(_, _) => SameTablesKeep(s, t);
      case DoAddPlan(owner, title, token, interval, times) => AddPlanKeeps(s, owner, title, token, interval, times);
      case DoSetPlanOwner(_, planId, _) => PlanTouchKeeps(s, t, planId, t.plans[planId]);
      case DoEnablePlan(_, planId, _) => PlanTouchKeeps(s, t, planId, t.plans[planId]);
      case DoDeposit(from, token, amount, memo) => DepositKeeps(s, c.now, from, token, amount, memo);
      case DoTransIssue(f, to, issueId, symbol, amount) => TransIssueKeeps(s, f, to, issueId, symbol, amount);
      case DoEndIssue(planId, issuer, issueId) => EndIssueKeeps(s, planId, issuer, issueId);
      case DoUnlock(planId, issueId) => UnlockKeeps(s, c.now, planId, issueId);
      case DoDelFinIssues(ids) => DelFinIssuesKeeps(s, ids);
      case DoSetFirstDays(issueId, _) => IssueTouchKeeps(s, t, issueId, t.issues[issueId]);
      case DoSetReceiver(issueId, _) => IssueTouchKeeps(s, t, issueId, t.issues[issueId]);
      case DoElsewhere(token, from, to, amount) =>
        TransferMoves(s.ledger, token, from, to, amount);
        SameTablesKeep(s, t);
    }
  }

  /** Safety over whole runs: in every state a deployed contract can reach, each issue's locked and
      unlocked parts make up what was issued, an ongoing issue holds something, each plan's books
      balance, and the contract's balance of every token is what its ongoing issues hold. */
  lemma {:induction false} EveryRunKeeps(s: State, calls: seq<Call>)
    requires Inv(s)
    ensures Inv(Run(s, calls))
    decreases |calls|
  {
    if calls != [] {
      EveryRunKeeps(s, calls[..|calls| - 1]);
      StepKeeps(Run(s, calls[..|calls| - 1]), calls[|calls| - 1]);
    }
  }

  /** The same, spelled out for a contract from its deployment on. */
  lemma EveryReachableStateIsSound(s: State, calls: seq<Call>, t: State)
    requires Genesis(s) && t == Run(s, calls)
    ensures forall id :: id in t.issues ==>
              var i := t.issues[id];
              i.locked + i.unlocked == i.issued && (i.status == Ongoing ==> i.locked > 0) && i.planId in t.plans
    ensures forall id :: id in t.plans ==>
              var p := t.plans[id];
              p.totalIssued == p.totalUnlocked + p.totalRefunded + Sum(t.issues, HeldIn(id)) <= MAX_AMOUNT
    ensures forall u :: BalanceOf(t.ledger, u, t.self) == Sum(t.issues, HeldAs(Tokens(t.plans), u))
  {
    GenesisIsFine(s);
    EveryRunKeeps(s, calls);
    forall u ensures BalanceOf(t.ledger, u, t.self) == Sum(t.issues, HeldAs(Tokens(t.plans), u)) {
      assert Solvent(t, u);
    }
    forall id | id in t.plans
      ensures var p := t.plans[id]; p.totalIssued == p.totalUnlocked + p.totalRefunded + Sum(t.issues, HeldIn(id))
    {
      assert Balanced(t, id);
    }
  }
}
