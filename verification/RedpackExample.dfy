/** Two reachable runs of flon.redpack: a foreign fee that empties a pot, and a code used again. */
module RedpackExample {
  import opened Tables
  import opened Ledger
  import opened RedpackSpec
  import opened RedpackSafety
  import opened RedpackHistory

  const OTHER_FLON := Token(MTOKEN, SYS_SYMBOL)

  lemma RunSnoc(s: State, calls: seq<Call>, c: Call)
    ensures Run(s, calls + [c]) == After(Run(s, calls), c)
    ensures ForeignFees(s, calls + [c]) == ForeignFees(s, calls) + ForeignFee(Run(s, calls), c)
  {
    assert (calls + [c])[..|calls|] == calls;
  }

  // ---------- a foreign fee ----------

  // A contract deployed with the fee required; account 7 owns 5000 FLON and account 8 has 1000 units of
  // FLON of another bank.
  const FEES := State(3, 4, 12, 1000, true, {}, map[], [], 0, 0, map[(FLON, 7) := 5000, (OTHER_FLON, 8) := 1000])
  const FEES_LISTED := FEES.(listed := {FLON})
  const POT := Pot(1, MeanShares, 7, false, "", FLON, 5000, 1, 5000, 1, Created, 0)
  const AWAITING := FEES_LISTED.(pots := map[9 := POT], lastPotId := 1,
                                 ledger := map[(FLON, 7) := 0, (FLON, 3) := 5000, (OTHER_FLON, 8) := 1000])

  const LIST := Call(0, DoListToken(FLON))
  const FILL := Call(0, DoDeposit(7, FLON, 5000, Wrap(9, Some(MeanShares), false, 1, "")))
  const FEE := Call(0, DoPayFee(8, OTHER_FLON, 1000, 9))

  lemma Awaiting()
    ensures After(After(FEES, LIST), FILL) == AWAITING
  {
    assert After(FEES, LIST).listed == FEES_LISTED.listed;
    var t := After(FEES_LISTED, FILL);
    assert t.ledger == AWAITING.ledger;
    assert t.pots == AWAITING.pots;
  }

  /** The fee is accepted, and 1000 of the pot's FLON leave for it. */
  lemma FeeIsForwarded()
    ensures Step(AWAITING, FEE).Done?
    ensures var t := After(AWAITING, FEE);
            BalanceOf(t.ledger, FLON, t.self) == 4000 && 9 in t.pots && t.pots[9] == POT.(status := Servicing)
  {
    var mid := Transfer(AWAITING.ledger, OTHER_FLON, 8, 3, 1000).value;
    TransferMoves(AWAITING.ledger, OTHER_FLON, 8, 3, 1000);
    assert BalanceOf(mid, FLON, 3) == BalanceOf(AWAITING.ledger, FLON, 3) == 5000;
    TransferMoves(mid, FLON, 3, 4, 1000);
  }

  /** From deployment with the fee required: the fee of another bank is accepted, the contract no longer
      has the FLON its pot promises, and the pot's only claim is refused. */
  lemma ForeignFeeBreaksFunds()
    ensures Genesis(FEES)
    ensures ForeignFees(FEES, [LIST, FILL, FEE]) == 1000 && !Funds(Run(FEES, [LIST, FILL, FEE]))
    ensures ClaimRedpack(Run(FEES, [LIST, FILL, FEE]), Bid(10, 9, "", 0, true, true)) == Abort(TransferRefused)
  {
    RunSnoc(FEES, [], LIST);
    RunSnoc(FEES, [LIST], FILL);
    RunSnoc(FEES, [LIST, FILL], FEE);
    assert [] + [LIST] == [LIST] && [LIST] + [FILL] == [LIST, FILL] && [LIST, FILL] + [FEE] == [LIST, FILL, FEE];
    Awaiting();
    FeeIsForwarded();
    GenesisIsFine(FEES);
    EveryRunIsSolventIff(FEES, [LIST, FILL, FEE]);
  }

  // ---------- a code used again ----------

  const OPEN := State(3, 4, 12, 1000, false, {}, map[], [], 0, 0, map[(FLON, 7) := 5000])
  const PAIR := Pot(1, MeanShares, 7, false, "", FLON, 5000, 2, 5000, 2, Servicing, 0)
  const FIRST := OPEN.(listed := {FLON}, pots := map[9 := PAIR], lastPotId := 1,
                       ledger := map[(FLON, 7) := 0, (FLON, 3) := 5000])
  const TAKEN := FIRST.(pots := map[9 := PAIR.(remQuant := 2500, remCount := 1)], lastClaimId := 1,
                        claims := [Claim(1, 1, 9, 7, 10, 2500)],
                        ledger := map[(FLON, 7) := 0, (FLON, 3) := 2500, (FLON, 10) := 2500])
  const GONE := TAKEN.(pots := map[], ledger := map[(FLON, 7) := 2500, (FLON, 3) := 0, (FLON, 10) := 2500])
  const AGAIN := GONE.(pots := map[9 := Pot(2, MeanShares, 7, false, "", FLON, 2500, 2, 2500, 2, Servicing, 13 * HOUR)],
                       lastPotId := 2, ledger := map[(FLON, 7) := 0, (FLON, 3) := 2500, (FLON, 10) := 2500])

  const BID := Bid(10, 9, "", 0, true, true)
  const FILL_PAIR := Call(0, DoDeposit(7, FLON, 5000, Wrap(9, Some(MeanShares), false, 2, "")))
  const TAKE := Call(0, DoClaim(BID))
  const CANCEL := Call(13 * HOUR, DoCancel(9))
  const REFILL := Call(13 * HOUR, DoDeposit(7, FLON, 2500, Wrap(9, Some(MeanShares), false, 2, "")))

  lemma First()
    ensures After(After(OPEN, LIST), FILL_PAIR) == FIRST
  {
    assert After(OPEN, LIST).listed == {FLON};
    var t := After(OPEN.(listed := {FLON}), FILL_PAIR);
    assert t.ledger == FIRST.ledger;
    assert t.pots == FIRST.pots;
  }

  lemma FirstTaken()
    ensures After(FIRST, TAKE) == TAKEN
  {
    var t := After(FIRST, TAKE);
    assert t.ledger == TAKEN.ledger;
    assert t.pots == TAKEN.pots;
    assert t.claims == TAKEN.claims;
  }

  lemma Gone()
    ensures After(TAKEN, CANCEL) == GONE
  {
    var t := After(TAKEN, CANCEL);
    assert t.ledger == GONE.ledger;
    assert t.pots == GONE.pots;
  }

  lemma Again()
    ensures After(GONE, REFILL) == AGAIN
  {
    var t := After(GONE, REFILL);
    assert t.ledger == AGAIN.ledger;
    assert t.pots == AGAIN.pots;
  }

  /** Account 10 claims from a pot, the pot is cancelled, and another is opened under its code: account 10
      has taken nothing from the new pot and is turned away as a repeat. */
  lemma ReusedCodeTurnsAway()
    ensures Genesis(OPEN)
    ensures var t := Run(OPEN, [LIST, FILL_PAIR, TAKE, CANCEL, REFILL]);
            && 9 in t.pots && t.pots[9].id == 2 && !ClaimedFrom(t.claims, 10, 2)
            && ClaimRedpack(t, BID) == Abort(NotRepeatReceive)
  {
    RunSnoc(OPEN, [], LIST);
    RunSnoc(OPEN, [LIST], FILL_PAIR);
    RunSnoc(OPEN, [LIST, FILL_PAIR], TAKE);
    RunSnoc(OPEN, [LIST, FILL_PAIR, TAKE], CANCEL);
    RunSnoc(OPEN, [LIST, FILL_PAIR, TAKE, CANCEL], REFILL);
    assert [] + [LIST] == [LIST] && [LIST] + [FILL_PAIR] == [LIST, FILL_PAIR];
    assert [LIST, FILL_PAIR] + [TAKE] == [LIST, FILL_PAIR, TAKE];
    assert [LIST, FILL_PAIR, TAKE] + [CANCEL] == [LIST, FILL_PAIR, TAKE, CANCEL];
    assert [LIST, FILL_PAIR, TAKE, CANCEL] + [REFILL] == [LIST, FILL_PAIR, TAKE, CANCEL, REFILL];
    First();
    FirstTaken();
    Gone();
    Again();
    assert AGAIN.claims[0].claimer == 10 && AGAIN.claims[0].code == 9;
  }
}
