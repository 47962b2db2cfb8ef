/** flon.vest as a state machine: what each action does to the plans, the issues and the token
    ledger, or the check at which it aborts. An abort leaves every table as it was. */
module VestSpec {
  import opened Tables
  import opened Ledger
  import opened Rounding

  const MAX_LOCK_DAYS: nat := 365 * 10
  const MAX_TITLE_SIZE: nat := 64
  const DAY_SECONDS: nat := 24 * 60 * 60

  datatype PlanStatus = Pending | Enabled | Disabled
  datatype IssueStatus = Ongoing | Finished

  datatype Plan = Plan(owner: Name, title: string, token: Token, interval: nat, times: nat,
                       totalIssued: nat, totalUnlocked: nat, totalRefunded: nat, status: PlanStatus)

  datatype Issue = Issue(planId: nat, issuer: Name, receiver: Name, symbol: Symbol,
                         issued: nat, locked: nat, unlocked: nat, firstUnlockDays: nat,
                         interval: nat, times: nat, status: IssueStatus, issuedAt: nat)

  datatype State = State(self: Name, feeReceiver: Name, planFee: int,
                         plans: map<nat, Plan>, issues: map<nat, Issue>, lastPlan: map<Name, nat>,
                         ledger: Balances)

  /** The memo of a deposit, already parsed. */
  datatype Memo =
    | PlanMemo(payFor: Option<nat>)
    | IssueMemo(receiver: Name, planId: nat, firstUnlockDays: nat)
    | OtherMemo

  datatype Reason = FeeOf(planId: nat) | RefundOf(issueId: nat) | UnlockOf(issueId: nat)
  datatype Payment = Payment(token: Token, to: Name, amount: int, reason: Reason)

  datatype Failure =
    | BadTitle | BadInterval | BadTimes | NoFeeReceiver | BadMemo
    | PlanNotFound | OwnerMismatch | FeeUnpaid | StatusUnchanged | FeeMismatch | NoPlanOfAccount | NotPending
    | PlanNotEnabled | BadFirstDays | TokenMismatch | AssetOverflow
    | IssueNotFound | NotOngoing | NotFinished | ReceiverMismatch | SameReceiver | BadQuantity | SymbolMismatch
    | LockedInsufficient | IssuedInsufficient | PlanIdMismatch | NotAuthorized
    | ClockBeforeIssue | BadPlan | Premature | MultiplyOverflow | ScheduleRegressed
    | TransferRefused

  datatype Answer = Yes(n: nat) | No(why: Failure)

  datatype Outcome = Done(state: State, sent: seq<Payment>) | Abort(why: Failure)

  // ---------- the unlock schedule ----------

  /** `sec_since_epoch` of a time point in microseconds. */
  function Seconds(t: nat): nat { t / 1_000_000 }

  function UnlockedDays(i: Issue, now: nat): int
    requires i.issuedAt <= now
  {
    (Seconds(now) - Seconds(i.issuedAt)) / DAY_SECONDS - i.firstUnlockDays
  }

  function Min(a: nat, b: nat): nat { if b < a then b else a }

  function UnlockedTimes(p: Plan, days: nat): nat
    requires p.interval > 0
  {
    1 + Min(days / p.interval, p.times)
  }

  /** What is released after k of `times` intervals: all of it from the last one on, and the
      proportional share, rounded half up, before. */
  function Released(issued: nat, k: nat, times: nat): nat
    requires times > 0
  {
    if k >= times then issued else Nearest(issued * k, times)
  }

  /** How much of the issue is released by `now`: nothing before the first unlock day, everything
      from the last interval on, and the proportional share rounded half up in between. */
  function Schedule(p: Plan, i: Issue, now: nat): nat
    requires p.interval > 0 && p.times > 0 && i.issuedAt <= now
  {
    var days := UnlockedDays(i, now);
    if days < 0 then 0 else
    Released(i.issued, UnlockedTimes(p, days), p.times)
  }

  /** What `unlock` takes as the new unlocked total, or why it stops. Before the last interval it
      asserts that the schedule has not fallen behind what is unlocked already. */
  function UnlockTarget(p: Plan, i: Issue, now: nat): (a: Answer)
    requires p.interval > 0 && p.times > 0 && i.issuedAt <= now
    ensures a.Yes? ==> a.n == Schedule(p, i, now) <= i.issued
  {
    var days := UnlockedDays(i, now);
    if days < 0 then No(Premature) else
    var k := UnlockedTimes(p, days);
    if k >= p.times then Yes(i.issued)
    else if 10 * (i.issued * k) / p.times > INT64_MAX then No(MultiplyOverflow)
    else if i.unlocked <= Schedule(p, i, now) <= i.issued then Yes(Schedule(p, i, now))
    else No(ScheduleRegressed)
  }

  // ---------- the actions ----------

  function Init(s: State, planFee: int, feeReceiver: Name): Outcome {
    Done(s.(planFee := planFee, feeReceiver := feeReceiver), [])
  }

  ghost function AddPlan(s: State, owner: Name, title: string, token: Token, interval: nat, times: int): Outcome {
    if |title| > MAX_TITLE_SIZE then Abort(BadTitle)
    else if !(0 < interval <= MAX_LOCK_DAYS) then Abort(BadInterval)
    else if times <= 0 then Abort(BadTimes)
    else if s.planFee > 0 && s.feeReceiver == 0 then Abort(NoFeeReceiver)
    else
      var id := NextKey(s.plans.Keys);
      var status := if s.planFee != 0 then Pending else Enabled;
      Done(s.(plans := s.plans[id := Plan(owner, title, token, interval, times, 0, 0, 0, status)],
              lastPlan := s.lastPlan[owner := id]), [])
  }

  function SetPlanOwner(s: State, owner: Name, planId: nat, newOwner: Name): Outcome {
    if planId !in s.plans then Abort(PlanNotFound)
    else if owner != s.plans[planId].owner then Abort(OwnerMismatch)
    else Done(s.(plans := s.plans[planId := s.plans[planId].(owner := newOwner)]), [])
  }

  function EnablePlan(s: State, owner: Name, planId: nat, enabled: bool): Outcome {
    if planId !in s.plans then Abort(PlanNotFound)
    else if owner != s.plans[planId].owner then Abort(OwnerMismatch)
    else if s.plans[planId].status == Pending then Abort(FeeUnpaid)
    else
      var status := if enabled then Enabled else Disabled;
      if s.plans[planId].status == status then Abort(StatusUnchanged)
      else Done(s.(plans := s.plans[planId := s.plans[planId].(status := status)]), [])
  }

  /** A payment out of the contract, made by a token action that runs after the tables are written. */
  function PayOut(s: State, p: Payment): Outcome {
    match Transfer(s.ledger, p.token, s.self, p.to, p.amount)
    case None => Abort(TransferRefused)
    case Some(after) => Done(s.(ledger := after), [p])
  }

  function PlanOfFee(s: State, from: Name, planId: Option<nat>): Answer {
    match planId
    case None =>
      if from !in s.lastPlan || s.lastPlan[from] == 0 then No(NoPlanOfAccount) else Yes(s.lastPlan[from])
    case Some(id) => if id == 0 then No(BadMemo) else Yes(id)
  }

  /** The notification that `amount` of `token` has just arrived from `from`. */
  function PayPlanFee(s: State, from: Name, token: Token, amount: int, planId: Option<nat>): Outcome {
    if token.bank != SYS_BANK || token.symbol != SYS_SYMBOL then Abort(TokenMismatch)
    else if amount != s.planFee then Abort(FeeMismatch)
    else match PlanOfFee(s, from, planId)
    case No(why) => Abort(why)
    case Yes(id) =>
      if id !in s.plans then Abort(PlanNotFound)
      else if s.plans[id].status != Pending then Abort(NotPending)
      else PayOut(s.(plans := s.plans[id := s.plans[id].(status := Enabled)]),
                  Payment(token, s.feeReceiver, amount, FeeOf(id)))
  }

  ghost function IssueIn(s: State, now: nat, from: Name, token: Token, amount: nat,
                         receiver: Name, planId: nat, firstUnlockDays: nat): Outcome {
    if planId !in s.plans then Abort(PlanNotFound) else
    var p := s.plans[planId];
    if p.status != Enabled then Abort(PlanNotEnabled)
    else if firstUnlockDays > MAX_LOCK_DAYS then Abort(BadFirstDays)
    else if token != p.token then Abort(TokenMismatch)
    else if p.totalIssued + amount > MAX_AMOUNT then Abort(AssetOverflow)
    else
      var issue := Issue(planId, from, receiver, token.symbol, amount, amount, 0, firstUnlockDays,
                         p.interval, p.times, Ongoing, now);
      Done(s.(plans := s.plans[planId := p.(totalIssued := p.totalIssued + amount)],
              issues := s.issues[NextKey(s.issues.Keys) := issue]), [])
  }

  /** A transfer to the contract and its notification, as one transaction. */
  ghost function Deposit(s: State, now: nat, from: Name, token: Token, amount: int, memo: Memo): Outcome {
    match Transfer(s.ledger, token, from, s.self, amount)
    case None => Abort(TransferRefused)
    case Some(after) =>
      var t := s.(ledger := after);
      match memo
      case PlanMemo(payFor) => PayPlanFee(t, from, token, amount, payFor)
      case IssueMemo(receiver, planId, days) => IssueIn(t, now, from, token, amount, receiver, planId, days)
      case OtherMemo => Abort(BadMemo)
  }

  ghost function TransIssue(s: State, fromReceiver: Name, toReceiver: Name, issueId: nat, symbol: Symbol,
                            amount: int): Outcome {
    if fromReceiver == toReceiver then Abort(SameReceiver)
    else if !(0 < amount <= MAX_AMOUNT) then Abort(BadQuantity)
    else if issueId !in s.issues then Abort(IssueNotFound) else
    var i := s.issues[issueId];
    if i.status != Ongoing then Abort(NotOngoing)
    else if i.receiver != fromReceiver then Abort(ReceiverMismatch)
    else if i.symbol != symbol then Abort(SymbolMismatch)
    else if i.locked < amount then Abort(LockedInsufficient)
    else if i.issued < amount then Abort(IssuedInsufficient)
    else
      var split := i.(receiver := toReceiver, issued := amount, locked := amount, unlocked := 0);
      var grown := s.issues[NextKey(s.issues.Keys) := split];
      Done(s.(issues := if i.locked == amount then grown - {issueId}
                        else grown[issueId := i.(issued := i.issued - amount, locked := i.locked - amount)]), [])
  }

  function EndIssue(s: State, planId: nat, issuer: Name, issueId: nat): Outcome {
    if issueId !in s.issues then Abort(IssueNotFound) else
    var i := s.issues[issueId];
    if i.planId != planId then Abort(PlanIdMismatch)
    else if i.status == Finished then Abort(NotOngoing)
    else if issuer != i.issuer && issuer != s.self then Abort(NotAuthorized)
    else if planId !in s.plans then Abort(PlanNotFound) else
    var p := s.plans[planId];
    if p.status != Enabled then Abort(PlanNotEnabled)
    else if i.symbol != p.token.symbol then Abort(SymbolMismatch)
    else if p.totalRefunded + i.locked > MAX_AMOUNT then Abort(AssetOverflow)
    else PayOut(s.(plans := s.plans[planId := p.(totalRefunded := p.totalRefunded + i.locked)],
                   issues := s.issues[issueId := i.(status := Finished)]),
                Payment(p.token, i.issuer, i.locked, RefundOf(issueId)))
  }

  function Unlock(s: State, now: nat, planId: nat, issueId: nat): Outcome {
    if issueId !in s.issues then Abort(IssueNotFound) else
    var i := s.issues[issueId];
    if i.planId != planId then Abort(PlanIdMismatch)
    else if now < i.issuedAt then Abort(ClockBeforeIssue)
    else if planId !in s.plans then Abort(PlanNotFound) else
    var p := s.plans[planId];
    if p.status != Enabled then Abort(PlanNotEnabled)
    else if p.times == 0 || p.interval == 0 then Abort(BadPlan)
    else if i.status != Ongoing then Abort(NotOngoing)
    else match UnlockTarget(p, i, now)
    case No(why) => Abort(why)
    case Yes(total) =>
      if total <= i.unlocked then Abort(Premature)
      else
        PayOut(s.(plans := s.plans[planId := p.(totalUnlocked := p.totalUnlocked + (total - i.unlocked))],
                  issues := s.issues[issueId := i.(unlocked := total, locked := i.issued - total,
                                                   status := if total == i.issued then Finished else i.status)]),
               Payment(p.token, i.receiver, total - i.unlocked, UnlockOf(issueId)))
  }

  /** Deleting a list of issues: each must be there, be finished and be named once. */
  function DelFinIssues(s: State, ids: seq<nat>): Outcome
    decreases |ids|
  {
    if ids == [] then Done(s, [])
    else if ids[0] !in s.issues then Abort(IssueNotFound)
    else if s.issues[ids[0]].status != Finished then Abort(NotFinished)
    else DelFinIssues(s.(issues := s.issues - {ids[0]}), ids[1..])
  }

  function SetFirstDays(s: State, issueId: nat, days: nat): Outcome {
    if days > MAX_LOCK_DAYS then Abort(BadFirstDays)
    else if issueId !in s.issues then Abort(IssueNotFound)
    else Done(s.(issues := s.issues[issueId := s.issues[issueId].(firstUnlockDays := days)]), [])
  }

  function SetReceiver(s: State, issueId: nat, receiver: Name): Outcome {
    if issueId !in s.issues then Abort(IssueNotFound)
    else Done(s.(issues := s.issues[issueId := s.issues[issueId].(receiver := receiver)]), [])
  }

  /** A transfer between two other accounts, which the contract never hears of. */
  function Elsewhere(s: State, token: Token, from: Name, to: Name, amount: int): Outcome {
    if from == s.self || to == s.self then Abort(TransferRefused)
    else match Transfer(s.ledger, token, from, to, amount)
    case None => Abort(TransferRefused)
    case Some(after) => Done(s.(ledger := after), [])
  }

  datatype Action =
    | DoInit(planFee: int, feeReceiver: Name)
    | DoAddPlan(owner: Name, title: string, token: Token, interval: nat, times: int)
    | DoSetPlanOwner(owner: Name, planId: nat, newOwner: Name)
    | DoEnablePlan(owner: Name, planId: nat, enabled: bool)
    | DoDeposit(from: Name, token: Token, amount: int, memo: Memo)
    | DoTransIssue(fromReceiver: Name, toReceiver: Name, issueId: nat, symbol: Symbol, amount: int)
    | DoEndIssue(planId: nat, issuer: Name, issueId: nat)
    | DoUnlock(planId: nat, issueId: nat)
    | DoDelFinIssues(ids: seq<nat>)
    | DoSetFirstDays(issueId: nat, days: nat)
    | DoSetReceiver(issueId: nat, receiver: Name)
    | DoElsewhere(token: Token, from: Name, to: Name, amount: int)

  datatype Call = Call(now: nat, action: Action)

  ghost function Step(s: State, c: Call): Outcome {
    match c.action
    case DoInit(planFee, feeReceiver) => Init(s, planFee, feeReceiver)
    case DoAddPlan(owner, title, token, interval, times) => AddPlan(s, owner, title, token, interval, times)
    case DoSetPlanOwner(owner, planId, newOwner) => SetPlanOwner(s, owner, planId, newOwner)
    case DoEnablePlan(owner, planId, enabled) => EnablePlan(s, owner, planId, enabled)
    case DoDeposit(from, token, amount, memo) => Deposit(s, c.now, from, token, amount, memo)
    case DoTransIssue(f, t, issueId, symbol, amount) => TransIssue(s, f, t, issueId, symbol, amount)
    case DoEndIssue(planId, issuer, issueId) => EndIssue(s, planId, issuer, issueId)
    case DoUnlock(planId, issueId) => Unlock(s, c.now, planId, issueId)
    case DoDelFinIssues(ids) => DelFinIssues(s, ids)
    case DoSetFirstDays(issueId, days) => SetFirstDays(s, issueId, days)
    case DoSetReceiver(issueId, receiver) => SetReceiver(s, issueId, receiver)
    case DoElsewhere(token, from, to, amount) => Elsewhere(s, token, from, to, amount)
  }

  ghost function After(s: State, c: Call): State {
    match Step(s, c) case Done(t, _) => t case Abort(_) => s
  }

  ghost function Sent(s: State, c: Call): seq<Payment> {
    match Step(s, c) case Done(_, sent) => sent case Abort(_) => []
  }

  /** The state after a whole run of calls, aborted ones included. */
  ghost function Run(s: State, calls: seq<Call>): State {
    if calls == [] then s else After(Run(s, calls[..|calls| - 1]), calls[|calls| - 1])
  }

  /** Everything the contract paid out over a run, in order. */
  ghost function Log(s: State, calls: seq<Call>): seq<Payment> {
    if calls == [] then [] else
    var before := calls[..|calls| - 1];
    Log(s, before) + Sent(Run(s, before), calls[|calls| - 1])
  }
}
