/** A reachable instance of the stall that SplitStallsIff of VestHistory characterizes. */
module VestExample {
  import opened Tables
  import opened Ledger
  import opened VestSpec
  import opened VestSafety

  const DAY: nat := 86_400_000_000
  const TKN := Token(2, Symbol("TKN", 0))

  // A plan of ten daily unlocks, and 100 tokens issued under it by account 7 to account 8.
  const TEN_DAYS := Plan(1, "ten days", TKN, 1, 10, 0, 0, 0, Enabled)
  const ISSUE := Issue(1, 7, 8, TKN.symbol, 100, 100, 0, 0, 1, 10, Ongoing, 0)

  const START := State(3, 4, 0, map[], map[], map[], map[(TKN, 7) := 100])
  const PLANNED := START.(plans := map[1 := TEN_DAYS], lastPlan := map[1 := 1])
  const ISSUED := PLANNED.(plans := map[1 := TEN_DAYS.(totalIssued := 100)], issues := map[1 := ISSUE],
                           ledger := map[(TKN, 7) := 0, (TKN, 3) := 100])
  const HALF_OUT := ISSUED.(plans := map[1 := TEN_DAYS.(totalIssued := 100, totalUnlocked := 50)],
                            issues := map[1 := ISSUE.(unlocked := 50, locked := 50)],
                            ledger := map[(TKN, 7) := 0, (TKN, 3) := 50, (TKN, 8) := 50])

  const ADD := Call(0, DoAddPlan(1, "ten days", TKN, 1, 10))
  const PUT := Call(0, DoDeposit(7, TKN, 100, IssueMemo(8, 1, 0)))
  const OUT := Call(4 * DAY, DoUnlock(1, 1))
  const CUT := Call(4 * DAY, DoTransIssue(8, 9, 1, TKN.symbol, 40))

  lemma Planned()
    ensures After(START, ADD) == PLANNED
  {
    assert NextKey({}) == 1;
    assert START.plans.Keys == {};
  }

  lemma Issued()
    ensures After(PLANNED, PUT) == ISSUED
  {
    assert NextKey({}) == 1;
    assert PLANNED.issues.Keys == {};
    var t := After(PLANNED, PUT);
    assert t.ledger == ISSUED.ledger;
    assert t.plans == ISSUED.plans;
    assert t.issues == ISSUED.issues;
  }

  lemma HalfOut()
    ensures After(ISSUED, OUT) == HALF_OUT
  {
    assert UnlockedDays(ISSUE, 4 * DAY) == 4;
    assert Schedule(ISSUED.plans[1], ISSUE, 4 * DAY) == 50;
    var t := After(ISSUED, OUT);
    assert t.ledger == HALF_OUT.ledger;
    assert t.plans == HALF_OUT.plans;
    assert t.issues == HALF_OUT.issues;
  }

  lemma Stalled()
    ensures Unlock(After(HALF_OUT, CUT), 5 * DAY, 1, 1) == Abort(ScheduleRegressed)
  {
    var t := After(HALF_OUT, CUT);
    var rest := ISSUE.(unlocked := 50, issued := 60, locked := 10);
    assert 1 in t.issues && t.issues[1] == rest && t.plans == HALF_OUT.plans;
    assert UnlockedDays(rest, 5 * DAY) == 5;
    assert Schedule(t.plans[1], rest, 5 * DAY) == 36;
  }

  lemma RunSnoc(s: State, calls: seq<Call>, c: Call)
    ensures Run(s, calls + [c]) == After(Run(s, calls), c)
  {
    assert (calls + [c])[..|calls|] == calls;
  }

  lemma RunOfFour(s: State, a: Call, b: Call, c: Call, d: Call)
    ensures Run(s, [a, b, c, d]) == After(After(After(After(s, a), b), c), d)
  {
    RunSnoc(s, [], a);
    RunSnoc(s, [a], b);
    RunSnoc(s, [a, b], c);
    RunSnoc(s, [a, b, c], d);
    assert [] + [a] == [a] && [a] + [b] == [a, b] && [a, b] + [c] == [a, b, c] && [a, b, c] + [d] == [a, b, c, d];
  }

  /** 50 of 100 tokens are out after the fifth of ten daily unlocks; 40 of the 50 locked ones are
      transferred away; on the next day 6/10 of the remaining 60 is below the 50 already out. */
  lemma SplitCanStall()
    ensures Genesis(START)
    ensures Unlock(Run(START, [ADD, PUT, OUT, CUT]), 5 * DAY, 1, 1) == Abort(ScheduleRegressed)
  {
    RunOfFour(START, ADD, PUT, OUT, CUT);
    Planned();
    Issued();
    HalfOut();
    Stalled();
  }
}
