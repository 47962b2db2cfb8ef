/** flon.redpack over whole runs: where the money of every pot ever opened went, and why cancelling,
    collecting claims and opening a new pot under an old code lets nobody claim twice. */
module RedpackHistory {
  import opened Tables
  import opened Ledger
  import opened RedpackSpec
  import opened RedpackSafety

  // ---------- where the money of a pot went ----------

  /** What an event moves into the pot (positive) or out of it (negative). */
  function Flow(e: Event, potId: nat): int {
    match e
    case Deposited(id, amount) => if id == potId then amount else 0
    case ClaimPaid(id, amount, _) => if id == potId then 0 - amount else 0
    case Refunded(id, amount) => if id == potId then 0 - amount else 0
    case FeeForwarded(_, _) => 0
  }

  function NetFlow(log: seq<Event>, potId: nat): int {
    if log == [] then 0 else NetFlow(log[..|log| - 1], potId) + Flow(log[|log| - 1], potId)
  }

  function DepositedTo(log: seq<Event>, potId: nat): nat {
    if log == [] then 0 else
    DepositedTo(log[..|log| - 1], potId) +
      match log[|log| - 1] case Deposited(id, amount) => if id == potId then amount else 0 case _ => 0
  }

  function PaidFrom(log: seq<Event>, potId: nat): nat {
    if log == [] then 0 else
    PaidFrom(log[..|log| - 1], potId) +
      match log[|log| - 1] case ClaimPaid(id, amount, _) => if id == potId then amount else 0 case _ => 0
  }

  function RefundedFrom(log: seq<Event>, potId: nat): nat {
    if log == [] then 0 else
    RefundedFrom(log[..|log| - 1], potId) +
      match log[|log| - 1] case Refunded(id, amount) => if id == potId then amount else 0 case _ => 0
  }

  lemma {:induction false} NetFlowParts(log: seq<Event>, potId: nat)
    ensures NetFlow(log, potId) == DepositedTo(log, potId) - PaidFrom(log, potId) - RefundedFrom(log, potId)
  {
    if log != [] { NetFlowParts(log[..|log| - 1], potId); }
  }

  lemma {:induction false} NetFlowBoth(a: seq<Event>, b: seq<Event>, potId: nat)
    ensures NetFlow(a + b, potId) == NetFlow(a, potId) + NetFlow(b, potId)
  {
    if b == [] {
      assert a + b == a;
    } else {
      assert (a + b)[..|a + b| - 1] == a + b[..|b| - 1];
      NetFlowBoth(a, b[..|b| - 1], potId);
    }
  }

  function LeftIn(potId: nat): Pot -> int {
    (p: Pot) => if p.id == potId then p.remQuant else 0
  }

  /** What pot `potId` still has: its remaining quantity while it lives, nothing once it is gone. */
  ghost function Left(s: State, potId: nat): int {
    Sum(s.pots, LeftIn(potId))
  }

  lemma OneEvent(e: Event, potId: nat)
    ensures NetFlow([e], potId) == Flow(e, potId)
  {
    assert [e][..0] == [];
  }

  lemma WriteFlows(s: State, t: State, code: Name, p: Pot, e: Event, potId: nat)
    requires t.pots == s.pots[code := p] && (code in s.pots ==> s.pots[code].id == p.id)
    requires Flow(e, potId) ==
             if potId == p.id then p.remQuant - (if code in s.pots then s.pots[code].remQuant else 0) else 0
    ensures Left(t, potId) == Left(s, potId) + NetFlow([e], potId)
  {
    SumWrite(s.pots, LeftIn(potId), code, p);
    OneEvent(e, potId);
  }

  lemma CancelFlows(s: State, now: nat, code: Name, potId: nat)
    requires Inv(s) && Cancel(s, now, code).Done?
    ensures Left(Cancel(s, now, code).state, potId) == Left(s, potId) + NetFlow(Cancel(s, now, code).events, potId)
  {
    assert PotOk(s.pots[code]);
    SumErase(s.pots, LeftIn(potId), code);
    OneEvent(Refunded(s.pots[code].id, s.pots[code].remQuant), potId);
  }

  /** Each step moves exactly what its events say into or out of each pot. */
  lemma StepFlows(s: State, c: Call, potId: nat)
    requires Inv(s)
    ensures Left(After(s, c), potId) == Left(s, potId) + NetFlow(Events(s, c), potId)
  {
    if Step(s, c).Done? {
      var t := After(s, c);
      match c.action
      case DoDeposit(_, token, _, wrap) =>
        if Heard(token.bank) { WriteFlows(s, t, wrap.code, t.pots[wrap.code], Events(s, c)[0], potId); }
      case DoPayFee(_, token, _, code) =>
        if Heard(token.bank) { WriteFlows(s, t, code, t.pots[code], Events(s, c)[0], potId); }
      case DoClaim(bid) => WriteFlows(s, t, bid.code, t.pots[bid.code], Events(s, c)[0], potId);
      case DoCancel(code) => CancelFlows(s, c.now, code, potId);
      case _ =>
    }
  }

  /** Conservation over every run from deployment, for every pot ever opened: its deposit is what its
      claims were paid, plus what was refunded, plus what a live pot still has. */
  lemma {:induction false} EveryPotIsConserved(s: State, calls: seq<Call>, potId: nat)
    requires Genesis(s)
    ensures DepositedTo(Log(s, calls), potId) ==
            PaidFrom(Log(s, calls), potId) + RefundedFrom(Log(s, calls), potId) + Left(Run(s, calls), potId)
    decreases |calls|
  {
    NetFlowParts(Log(s, calls), potId);
    if calls != [] {
      var before, c := calls[..|calls| - 1], calls[|calls| - 1];
      EveryPotIsConserved(s, before, potId);
      NetFlowParts(Log(s, before), potId);
      GenesisIsFine(s);
      EveryRunKeeps(s, before);
      StepFlows(Run(s, before), c, potId);
      NetFlowBoth(Log(s, before), Events(Run(s, before), c), potId);
    }
  }

  lemma GonePotHasNothing(s: State, potId: nat)
    requires forall code :: code in s.pots ==> s.pots[code].id != potId
    ensures Left(s, potId) == 0
  {
    SumZero(s.pots, LeftIn(potId));
  }

  /** In particular a pot that is gone was paid out in full: claims plus refund make up the deposit. */
  lemma GonePotIsPaidOut(s: State, calls: seq<Call>, potId: nat)
    requires Genesis(s) && forall code :: code in Run(s, calls).pots ==> Run(s, calls).pots[code].id != potId
    ensures DepositedTo(Log(s, calls), potId) == PaidFrom(Log(s, calls), potId) + RefundedFrom(Log(s, calls), potId)
  {
    EveryPotIsConserved(s, calls, potId);
    GonePotHasNothing(Run(s, calls), potId);
  }

  // ---------- whose balance moves ----------

  /** A claim moves its share, which is what the pot loses, from the contract to the claimer, and no
      other balance. */
  lemma ClaimMoves(s: State, b: Bid, u: Token, who: Name)
    requires ClaimRedpack(s, b).Done?
    ensures var p, t := s.pots[b.code], ClaimRedpack(s, b).state;
            var share := p.remQuant - t.pots[b.code].remQuant;
            BalanceOf(t.ledger, u, who) == BalanceOf(s.ledger, u, who)
              + (if u == p.token && who == b.claimer then share else 0)
              - (if u == p.token && who == s.self then share else 0)
  {
    var p := s.pots[b.code];
    TransferMoves(s.ledger, p.token, s.self, b.claimer, Share(p, b.seed).n);
  }

  /** Cancelling moves what the pot has left from the contract to its creator, and no other balance. */
  lemma CancelMoves(s: State, now: nat, code: Name, u: Token, who: Name)
    requires Inv(s) && Cancel(s, now, code).Done?
    ensures var p, t := s.pots[code], Cancel(s, now, code).state;
            && t.pots == s.pots - {code}
            && BalanceOf(t.ledger, u, who) == BalanceOf(s.ledger, u, who)
                 + (if u == p.token && who == p.creator then p.remQuant else 0)
                 - (if u == p.token && who == s.self then p.remQuant else 0)
  {
    var p := s.pots[code];
    assert PotOk(p);
    if p.remQuant > 0 { TransferMoves(s.ledger, p.token, s.self, p.creator, p.remQuant); }
  }

  // ---------- nobody is paid twice ----------

  /** No two claim payments of the log went to the same account from the same pot. */
  ghost predicate PaidOnce(log: seq<Event>) {
    forall i, j :: 0 <= i < j < |log| && log[i].ClaimPaid? && log[j].ClaimPaid? && log[i].claimer == log[j].claimer ==>
      log[i].potId != log[j].potId
  }

  /** What ties the log to the tables: ids in the log were handed out, and whoever was paid from a pot
      that is still there has a claim under its code, so the repeat check will see it. */
  ghost predicate Remembered(s: State, e: Event) {
    && (e.ClaimPaid? ==> e.potId <= s.lastPotId)
    && (e.ClaimPaid? ==>
          forall code :: code in s.pots && s.pots[code].id == e.potId ==> Claimed(s.claims, e.claimer, code))
  }

  ghost predicate AllRemembered(s: State, log: seq<Event>) {
    forall k :: 0 <= k < |log| ==> Remembered(s, log[k])
  }

  lemma ClaimedSnoc(claims: seq<Claim>, c: Claim, claimer: Name, code: Name)
    ensures Claimed(claims, claimer, code) ==> Claimed(claims + [c], claimer, code)
    ensures Claimed(claims + [c], c.claimer, c.code)
  {
    assert (claims + [c])[|claims|] == c;
    if Claimed(claims, claimer, code) {
      var k :| 0 <= k < |claims| && claims[k].claimer == claimer && claims[k].code == code;
      assert (claims + [c])[k] == claims[k];
    }
  }

  lemma ClaimedSurvives(claims: seq<Claim>, live: set<Name>, max: nat, claimer: Name, code: Name)
    requires Claimed(claims, claimer, code) && code in live
    ensures Claimed(DropOrphans(claims, live, max), claimer, code)
  {
    var k :| 0 <= k < |claims| && claims[k].claimer == claimer && claims[k].code == code;
    DropOrphansKeeps(claims, live, max);
    assert claims[k] in DropOrphans(claims, live, max);
  }

  /** No pot gets an id handed out before, and the claims of live codes are kept. */
  ghost predicate Continues(s: State, t: State) {
    && s.lastPotId <= t.lastPotId
    && (forall code :: code in t.pots && t.pots[code].id <= s.lastPotId ==>
          code in s.pots && s.pots[code].id == t.pots[code].id)
    && (forall claimer, code :: code in s.pots && Claimed(s.claims, claimer, code) ==> Claimed(t.claims, claimer, code))
  }

  lemma ClaimContinues(s: State, b: Bid)
    requires ClaimRedpack(s, b).Done?
    ensures Continues(s, ClaimRedpack(s, b).state)
  {
    var t := ClaimRedpack(s, b).state;
    forall claimer, code | Claimed(s.claims, claimer, code) ensures Claimed(t.claims, claimer, code) {
      ClaimedSnoc(s.claims, t.claims[|s.claims|], claimer, code);
    }
  }

  lemma DelClaimsContinues(s: State, maxRows: nat)
    requires DelClaims(s, maxRows).Done?
    ensures Continues(s, DelClaims(s, maxRows).state)
  {
    forall claimer, code | code in s.pots && Claimed(s.claims, claimer, code)
      ensures Claimed(DelClaims(s, maxRows).state.claims, claimer, code)
    {
      ClaimedSurvives(s.claims, s.pots.Keys, maxRows, claimer, code);
    }
  }

  lemma StepContinues(s: State, c: Call)
    ensures Continues(s, After(s, c))
  {
    if Step(s, c).Done? {
      match c.action
      case DoClaim(bid) => ClaimContinues(s, bid);
      case DoDelClaims(maxRows) => DelClaimsContinues(s, maxRows);
      case _ =>
    }
  }

  /** A step forgets no payment already made. */
  lemma StepRemembers(s: State, c: Call, e: Event)
    requires Remembered(s, e)
    ensures Remembered(After(s, c), e)
  {
    StepContinues(s, c);
  }

  /** The payment a claim makes is remembered, and nothing remembered before can be its double. */
  lemma ClaimIsNew(s: State, b: Bid, e: Event)
    requires Inv(s) && ClaimRedpack(s, b).Done?
    ensures Remembered(ClaimRedpack(s, b).state, ClaimRedpack(s, b).events[0])
    ensures Remembered(s, e) && e.ClaimPaid? && e.claimer == b.claimer ==> e.potId != s.pots[b.code].id
  {
    var t := ClaimRedpack(s, b).state;
    ClaimedSnoc(s.claims, t.claims[|s.claims|], b.claimer, b.code);
    assert PotsOk(s) && DistinctIds(s.pots);
  }

  /** Over every run from deployment, through cancelled pots, collected claims and pots opened under
      an old code, no account is paid twice from the same pot. */
  lemma {:induction false} EveryRunPaysOnce(s: State, calls: seq<Call>)
    requires Genesis(s)
    ensures PaidOnce(Log(s, calls)) && AllRemembered(Run(s, calls), Log(s, calls))
    decreases |calls|
  {
    if calls != [] {
      var before, c := calls[..|calls| - 1], calls[|calls| - 1];
      EveryRunPaysOnce(s, before);
      GenesisIsFine(s);
      EveryRunKeeps(s, before);
      PaysOnceStep(Run(s, before), c, Log(s, before));
    }
  }

  lemma PaysOnceStep(s: State, c: Call, log: seq<Event>)
    requires Inv(s) && PaidOnce(log) && AllRemembered(s, log)
    ensures PaidOnce(log + Events(s, c)) && AllRemembered(After(s, c), log + Events(s, c))
  {
    var events := Events(s, c);
    forall k | 0 <= k < |log + events| ensures Remembered(After(s, c), (log + events)[k]) {
      if k < |log| {
        StepRemembers(s, c, log[k]);
      } else if c.action.DoClaim? {
        ClaimIsNew(s, c.action.bid, events[0]);
      }
    }
    if c.action.DoClaim? && Step(s, c).Done? {
      forall k | 0 <= k < |log| && log[k].ClaimPaid? && log[k].claimer == c.action.bid.claimer
        ensures log[k].potId != events[0].potId
      {
        ClaimIsNew(s, c.action.bid, log[k]);
      }
    }
  }

  // ---------- collecting orphaned claims ----------

  function Orphans(claims: seq<Claim>, live: set<Name>): seq<Claim> {
    if claims == [] then [] else
    (if claims[0].code in live then [] else [claims[0]]) + Orphans(claims[1..], live)
  }

  function Homed(claims: seq<Claim>, live: set<Name>): seq<Claim> {
    if claims == [] then [] else
    (if claims[0].code in live then [claims[0]] else []) + Homed(claims[1..], live)
  }

  function Smaller(a: nat, b: nat): nat { if a < b then a else b }

  /** `delclaims` deletes exactly the first min(max_rows, number of orphans) orphans in key order:
      the other orphans and every claim with a live pot stay, each in its order. */
  lemma DropsFirstOrphans(claims: seq<Claim>, live: set<Name>, max: nat)
    ensures var kept := DropOrphans(claims, live, max);
            var n := Smaller(max, |Orphans(claims, live)|);
            && Orphans(kept, live) == Orphans(claims, live)[n..]
            && Homed(kept, live) == Homed(claims, live)
            && |kept| == |claims| - n
  {
    LaterOrphansStay(claims, live, max);
    HomedStay(claims, live, max);
  }

  lemma {:induction false} LaterOrphansStay(claims: seq<Claim>, live: set<Name>, max: nat)
    ensures Orphans(DropOrphans(claims, live, max), live) ==
            Orphans(claims, live)[Smaller(max, |Orphans(claims, live)|)..]
    decreases |claims|
  {
    if max != 0 && claims != [] {
      var c, rest := claims[0], claims[1..];
      if c.code in live {
        LaterOrphansStay(rest, live, max);
        assert ([c] + DropOrphans(rest, live, max))[1..] == DropOrphans(rest, live, max);
      } else {
        LaterOrphansStay(rest, live, max - 1);
      }
    }
  }

  lemma {:induction false} HomedStay(claims: seq<Claim>, live: set<Name>, max: nat)
    ensures Homed(DropOrphans(claims, live, max), live) == Homed(claims, live)
    ensures |DropOrphans(claims, live, max)| == |claims| - Smaller(max, |Orphans(claims, live)|)
    decreases |claims|
  {
    if max != 0 && claims != [] {
      var c, rest := claims[0], claims[1..];
      if c.code in live {
        HomedStay(rest, live, max);
        assert ([c] + DropOrphans(rest, live, max))[1..] == DropOrphans(rest, live, max);
      } else {
        HomedStay(rest, live, max - 1);
      }
    }
  }

  // ---------- a code used again ----------

  /** The claimer has a claim on this very pot. */
  predicate ClaimedFrom(claims: seq<Claim>, claimer: Name, potId: nat) {
    exists k :: 0 <= k < |claims| && claims[k].claimer == claimer && claims[k].potId == potId
  }

  /** The claimer has a claim on an older pot of the same code. */
  predicate ClaimedEarlier(claims: seq<Claim>, claimer: Name, code: Name, potId: nat) {
    exists k :: 0 <= k < |claims| && claims[k].claimer == claimer && claims[k].code == code && claims[k].potId < potId
  }

  /** The repeat check goes by code. Somebody who knows the password and has taken nothing from a pot is
      turned away as a repeat exactly when the table still holds a claim of theirs on an older pot that
      had the same code. */
  lemma FirstClaimRefusedIff(s: State, b: Bid)
    requires Inv(s) && b.code in s.pots && s.pots[b.code].pwhash == b.pwhash
    requires !ClaimedFrom(s.claims, b.claimer, s.pots[b.code].id)
    ensures ClaimRedpack(s, b) == Abort(NotRepeatReceive) <==>
            ClaimedEarlier(s.claims, b.claimer, b.code, s.pots[b.code].id)
  {
    if Claimed(s.claims, b.claimer, b.code) {
      var k :| 0 <= k < |s.claims| && s.claims[k].claimer == b.claimer && s.claims[k].code == b.code;
      assert ClaimOk(s, s.claims[k]);
    }
  }

  /** Some pot has this code after every call of the run. */
  ghost predicate StaysLive(s: State, calls: seq<Call>, code: Name)
    decreases |calls|
  {
    code in Run(s, calls).pots && (calls != [] ==> StaysLive(s, calls[..|calls| - 1], code))
  }

  /** While a pot of that code lives, no call clears the old claim, `delclaims` included: the claimer is
      refused to the end. */
  lemma {:induction false} OldClaimBlocks(s: State, calls: seq<Call>, b: Bid)
    requires Claimed(s.claims, b.claimer, b.code) && StaysLive(s, calls, b.code)
    ensures Claimed(Run(s, calls).claims, b.claimer, b.code) && ClaimRedpack(Run(s, calls), b).Abort?
    decreases |calls|
  {
    if calls != [] {
      OldClaimBlocks(s, calls[..|calls| - 1], b);
      StepContinues(Run(s, calls[..|calls| - 1]), calls[|calls| - 1]);
      assert StaysLive(s, calls[..|calls| - 1], b.code);
    }
  }
}
