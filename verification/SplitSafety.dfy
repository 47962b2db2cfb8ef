/** What flon.split keeps and pays: valid plans, exact division of every deposit, wallets the
    contract's balance can always cover, and their batched draining. */
module SplitSafety {
  import opened Arithmetic
  import opened Tables
  import opened Ledger
  import opened SplitSpec

  // ---------- valid receivers ----------

  predicate ValidRates(conf: seq<SplitUnit>) {
    forall k :: 0 <= k < |conf| ==> 0 < conf[k].rate <= PCT_BOOST
  }

  predicate Distinct(conf: seq<SplitUnit>) {
    forall j, k :: 0 <= j < k < |conf| ==> conf[j].receiver != conf[k].receiver
  }

  predicate ValidConf(conf: seq<SplitUnit>) {
    ValidRates(conf) && Distinct(conf) && RateSum(conf) == PCT_BOOST
  }

  lemma {:induction false} UnitFaultIff(conf: seq<SplitUnit>, seen: set<Name>)
    ensures UnitFault(conf, seen).None? <==>
            ValidRates(conf) && Distinct(conf) && forall k :: 0 <= k < |conf| ==> conf[k].receiver !in seen
    decreases |conf|
  {
    if conf != [] {
      var rest := conf[1..];
      UnitFaultIff(rest, seen + {conf[0].receiver});
      assert forall k :: 1 <= k < |conf| ==> conf[k] == rest[k - 1];
      assert ValidRates(rest) && 0 < conf[0].rate <= PCT_BOOST <==> ValidRates(conf) by {
        assert forall k :: 0 <= k < |rest| ==> rest[k] == conf[k + 1];
      }
      if Distinct(conf) {
        assert Distinct(rest) && forall k :: 0 <= k < |rest| ==> rest[k].receiver != conf[0].receiver by {
          assert forall k :: 0 <= k < |rest| ==> rest[k] == conf[k + 1];
        }
      }
    }
  }

  /** `check_rate` accepts exactly the receiver lists with rates in 1..10000, no receiver twice, and
      rates summing to 10000. */
  lemma CheckRateAcceptsIff(conf: seq<SplitUnit>)
    ensures CheckRate(conf).None? <==> ValidConf(conf)
  {
    UnitFaultIff(conf, {});
  }

  // ---------- dividing a deposit ----------

  function Total(payouts: seq<Payout>): nat {
    if payouts == [] then 0 else payouts[0].amount + Total(payouts[1..])
  }

  lemma ShareBound(quant: nat, rate: nat)
    ensures PCT_BOOST * Share(quant, rate) <= quant * rate
    ensures quant * rate < TWO64 <==> Share(quant, rate) == quant * rate / PCT_BOOST
  {
    var x := quant * rate;
    WrapBound(x);
  }

  lemma WrapBound(x: nat)
    ensures PCT_BOOST * (x % TWO64 / PCT_BOOST) <= x
    ensures x < TWO64 <==> x % TWO64 / PCT_BOOST == x / PCT_BOOST
  {
  }

  /** The division never overdraws what is left when the remaining rates claim no more than that;
      and whatever it hands out, plus what it leaves, is what there was. */
  lemma {:induction false} DivideConserves(quant: nat, left: nat, conf: seq<SplitUnit>)
    requires quant * RateSum(conf) <= PCT_BOOST * left
    ensures Divide(quant, left, conf).Parts?
    ensures var d := Divide(quant, left, conf);
            Total(d.payouts) + d.rest == left && forall k :: 0 <= k < |d.payouts| ==> d.payouts[k].amount > 0
    decreases |conf|
  {
    if conf != [] {
      var share := Share(quant, conf[0].rate);
      ShareBound(quant, conf[0].rate);
      RestClaims(quant, conf[0].rate, RateSum(conf[1..]));
      if 0 < share <= left {
        DivideConserves(quant, left - share, conf[1..]);
        var d := Divide(quant, left - share, conf[1..]);
        assert ([Payout(conf[0].receiver, share)] + d.payouts)[1..] == d.payouts;
      }
    }
  }

  lemma RestClaims(quant: nat, rate: nat, rest: nat)
    ensures quant * (rate + rest) == quant * rate + quant * rest
    ensures quant * rest >= 0
  {
  }

  lemma {:induction false} TotalBoth(a: seq<Payout>, b: seq<Payout>)
    ensures Total(a + b) == Total(a) + Total(b)
    decreases |a|
  {
    if a == [] {
      assert a + b == b;
    } else {
      assert (a + b)[1..] == a[1..] + b;
      TotalBoth(a[1..], b);
    }
  }

  /** A deposit under any valid plan is divided without the balance check ever failing, each payout is
      positive, and together they are exactly the deposit, wrap-around and early stop included. */
  lemma DivisionIsExact(quant: nat, conf: seq<SplitUnit>)
    requires ValidConf(conf)
    ensures conf != [] && AllPayouts(quant, conf).Some?
    ensures Total(AllPayouts(quant, conf).value) == quant
    ensures forall k :: 0 <= k < |AllPayouts(quant, conf).value| ==> AllPayouts(quant, conf).value[k].amount > 0
  {
    assert quant * RateSum(conf) == PCT_BOOST * quant;
    DivideConserves(quant, quant, conf);
    var d := Divide(quant, quant, conf);
    var last := if d.rest > 0 then [Payout(conf[0].receiver, d.rest)] else [];
    TotalBoth(d.payouts, last);
  }

  // ---------- who gets what ----------

  /** How many receivers the loop serves: it stops at the first share that comes to nothing. */
  function Served(quant: nat, conf: seq<SplitUnit>): (n: nat)
    ensures n <= |conf|
    ensures forall k :: 0 <= k < n ==> Share(quant, conf[k].rate) > 0
    ensures n < |conf| ==> Share(quant, conf[n].rate) == 0
  {
    if conf == [] || Share(quant, conf[0].rate) == 0 then 0 else 1 + Served(quant, conf[1..])
  }

  function Received(payouts: seq<Payout>, who: Name): nat {
    if payouts == [] then 0 else
    (if payouts[0].to == who then payouts[0].amount else 0) + Received(payouts[1..], who)
  }

  lemma {:induction false} ReceivedBoth(a: seq<Payout>, b: seq<Payout>, who: Name)
    ensures Received(a + b, who) == Received(a, who) + Received(b, who)
    decreases |a|
  {
    if a == [] {
      assert a + b == b;
    } else {
      assert (a + b)[1..] == a[1..] + b;
      ReceivedBoth(a[1..], b, who);
    }
  }

  lemma {:induction false} DividedTo(quant: nat, left: nat, conf: seq<SplitUnit>, k: nat)
    requires Divide(quant, left, conf).Parts? && Distinct(conf) && k < |conf|
    ensures Received(Divide(quant, left, conf).payouts, conf[k].receiver) ==
            if k < Served(quant, conf) then Share(quant, conf[k].rate) else 0
    decreases |conf|
  {
    var share := Share(quant, conf[0].rate);
    if share > 0 {
      var rest := conf[1..];
      var head := Payout(conf[0].receiver, share);
      var d := Divide(quant, left - share, rest);
      assert Divide(quant, left, conf).payouts == [head] + d.payouts;
      assert ([head] + d.payouts)[1..] == d.payouts;
      assert Distinct(rest) by {
        assert forall j :: 0 <= j < |rest| ==> rest[j] == conf[j + 1];
      }
      if k == 0 {
        assert forall j :: 0 <= j < |rest| ==> rest[j] == conf[j + 1] && rest[j].receiver != conf[0].receiver;
        Stranger(quant, left - share, rest, conf[0].receiver);
      } else {
        assert rest[k - 1] == conf[k] && conf[k].receiver != conf[0].receiver;
        DividedTo(quant, left - share, rest, k - 1);
      }
    }
  }

  lemma {:induction false} Stranger(quant: nat, left: nat, conf: seq<SplitUnit>, who: Name)
    requires Divide(quant, left, conf).Parts? && forall j :: 0 <= j < |conf| ==> conf[j].receiver != who
    ensures Received(Divide(quant, left, conf).payouts, who) == 0
    decreases |conf|
  {
    if conf != [] && Share(quant, conf[0].rate) > 0 {
      var share := Share(quant, conf[0].rate);
      var d := Divide(quant, left - share, conf[1..]);
      assert ([Payout(conf[0].receiver, share)] + d.payouts)[1..] == d.payouts;
      Stranger(quant, left - share, conf[1..], who);
    }
  }

  /** What each receiver of a valid plan gets: its share while the loop lasts, and the first receiver
      also everything that is left over. */
  lemma ReceiverGets(quant: nat, conf: seq<SplitUnit>, k: nat)
    requires ValidConf(conf) && k < |conf|
    ensures AllPayouts(quant, conf).Some? && Divide(quant, quant, conf).Parts?
    ensures Received(AllPayouts(quant, conf).value, conf[k].receiver) ==
            (if k < Served(quant, conf) then Share(quant, conf[k].rate) else 0)
            + (if k == 0 then Divide(quant, quant, conf).rest else 0)
  {
    DivisionIsExact(quant, conf);
    var d := Divide(quant, quant, conf);
    var last := if d.rest > 0 then [Payout(conf[0].receiver, d.rest)] else [];
    DividedTo(quant, quant, conf, k);
    ReceivedBoth(d.payouts, last, conf[k].receiver);
    assert last != [] ==> last[1..] == [];
  }

  /** Exactly when a receiver other than the first gets its proportional part, floor(quant * rate / 10000):
      if the loop still serves it, the product must not wrap at 64 bits; if the loop stopped before it,
      its part must have been nothing anyway. */
  lemma ProportionalIff(quant: nat, conf: seq<SplitUnit>, k: nat)
    requires ValidConf(conf) && 1 <= k < |conf|
    ensures AllPayouts(quant, conf).Some?
    ensures Received(AllPayouts(quant, conf).value, conf[k].receiver) == quant * conf[k].rate / 10000 <==>
            if k < Served(quant, conf) then quant * conf[k].rate < 0x1_0000_0000_0000_0000
            else quant * conf[k].rate < 10000
  {
    ReceiverGets(quant, conf, k);
    ShareBound(quant, conf[k].rate);
  }

  /** A concrete stop: of 5000 under rates 1 and 9999 the first share comes to nothing, the loop ends,
      and the second receiver, due 4999, gets nothing. */
  lemma EarlyStopStarvesLaterReceivers()
    ensures var conf := [SplitUnit(7, 1), SplitUnit(8, 9999)];
            && ValidConf(conf) && AllPayouts(5000, conf) == Some([Payout(7, 5000)])
            && 5000 * conf[1].rate / PCT_BOOST == 4999
  {
    var conf := [SplitUnit(7, 1), SplitUnit(8, 9999)];
    assert conf[1..] == [conf[1]] && conf[1..][1..] == [];
    assert RateSum(conf) == 1 + RateSum(conf[1..]) == 10000;
    assert Divide(5000, 5000, conf) == Parts([], 5000);
    assert AllPayouts(5000, conf).value == [Payout(7, 5000)];
  }

  lemma ProductAtLeast(quant: nat, rate: nat)
    requires quant >= PCT_BOOST && rate >= 1
    ensures quant * rate / PCT_BOOST > 0
  {
    MulOrder(quant, 1, rate);
  }

  lemma AllServed(quant: nat, conf: seq<SplitUnit>)
    requires ValidRates(conf) && quant >= PCT_BOOST
    requires forall k :: 0 <= k < |conf| ==> quant * conf[k].rate < TWO64
    ensures Served(quant, conf) == |conf|
  {
    var n := Served(quant, conf);
    if n < |conf| {
      ProductAtLeast(quant, conf[n].rate);
      ShareBound(quant, conf[n].rate);
      assert false;
    }
  }

  /** What each division step rounds away is less than one unit, so n steps leave less than n. */
  lemma {:induction false} RestIsSmall(quant: nat, left: nat, conf: seq<SplitUnit>)
    requires Divide(quant, left, conf).Parts? && Served(quant, conf) == |conf|
    requires forall k :: 0 <= k < |conf| ==> quant * conf[k].rate < TWO64
    requires quant * RateSum(conf) <= PCT_BOOST * left
    ensures PCT_BOOST * Divide(quant, left, conf).rest - (PCT_BOOST * left - quant * RateSum(conf)) <=
            (PCT_BOOST - 1) * |conf|
    decreases |conf|
  {
    if conf != [] {
      var share := Share(quant, conf[0].rate);
      ShareBound(quant, conf[0].rate);
      RestClaims(quant, conf[0].rate, RateSum(conf[1..]));
      assert quant * conf[0].rate - PCT_BOOST * share <= PCT_BOOST - 1;
      RestIsSmall(quant, left - share, conf[1..]);
    }
  }

  /** For at least 10000 units and products that do not wrap, every receiver gets exactly its
      proportional part, the first one up to n - 1 units more. */
  lemma LargeDepositsAreProportional(quant: nat, conf: seq<SplitUnit>)
    requires ValidConf(conf) && quant >= PCT_BOOST
    requires forall k :: 0 <= k < |conf| ==> quant * conf[k].rate < TWO64
    ensures AllPayouts(quant, conf).Some? && Divide(quant, quant, conf).Parts?
    ensures forall k :: 0 <= k < |conf| ==>
      Received(AllPayouts(quant, conf).value, conf[k].receiver) ==
      quant * conf[k].rate / PCT_BOOST + (if k == 0 then Divide(quant, quant, conf).rest else 0)
    ensures Divide(quant, quant, conf).rest <= |conf| - 1
  {
    DivisionIsExact(quant, conf);
    AllServed(quant, conf);
    forall k | 0 <= k < |conf|
      ensures Received(AllPayouts(quant, conf).value, conf[k].receiver) ==
              quant * conf[k].rate / PCT_BOOST + (if k == 0 then Divide(quant, quant, conf).rest else 0)
    {
      ReceiverGets(quant, conf, k);
      ShareBound(quant, conf[k].rate);
    }
    assert quant * RateSum(conf) == PCT_BOOST * quant;
    ReceiverGets(quant, conf, 0);
    RestIsSmall(quant, quant, conf);
  }
}
