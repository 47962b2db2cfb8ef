/** Who may move a price, exactly when a batch of quotes goes through, and what each action changes. */
module OracleEffects {
  import opened Tables
  import opened Ledger
  import opened Strings
  import opened OracleSpec
  import opened OracleSafety

  // ---------- a batch of quotes ----------

  /** The quote is accepted in state s and leads to t: it names a listed coin against the quote coin, in the
      quote symbol, within reach of the last price; the coin gets the price, as 64 bits without sign, and a
      single row with the next id. */
  ghost predicate Applies(s: State, now: nat, q: Quote, t: State) {
    var coin := CoinOf(q.tpcode);
    && q.tpcode == coin + "." + s.quoteCode && '.' !in coin && '.' !in s.quoteCode
    && q.symbol == s.quoteSymbol && coin in s.prices
    && (s.prices[coin] == 0 ||
        (15 * s.prices[coin] <= INT64_MAX && s.prices[coin] + 1 < 2 * q.amount < 3 * s.prices[coin]))
    && t == s.(prices := s.prices[coin := if q.amount < 0 then q.amount + 0x1_0000_0000_0000_0000 else q.amount],
               tables := s.tables[coin := map[LastId(RowsOf(s, coin)) + 1 := Row(q, now)]])
  }

  lemma AppliesIff(s: State, now: nat, q: Quote, t: State)
    requires Inv(s)
    ensures UpdateOne(s, now, q) == Done(t) <==> Applies(s, now, q, t)
  {
    var coin := CoinOf(q.tpcode);
    QuoteAcceptedIff(s, now, q, coin);
    if UpdateOne(s, now, q).Done? { UpdateOneSets(s, now, q); }
  }

  /** The quotes apply one after the other, each in the state left by those before it. */
  ghost predicate AllApply(now: nat, quotes: seq<Quote>, states: seq<State>) {
    && |states| == |quotes| + 1
    && forall k :: 0 <= k < |quotes| ==> Applies(states[k], now, quotes[k], states[k + 1])
  }

  lemma AllApplyRest(now: nat, quotes: seq<Quote>, states: seq<State>)
    requires |states| == |quotes| + 1 && quotes != []
    ensures AllApply(now, quotes, states) <==>
            Applies(states[0], now, quotes[0], states[1]) && AllApply(now, quotes[1..], states[1..])
  {
    var u, r := states[1..], quotes[1..];
    if AllApply(now, quotes, states) {
      forall k | 0 <= k < |r| ensures Applies(u[k], now, r[k], u[k + 1]) {
        assert Applies(states[k + 1], now, quotes[k + 1], states[k + 2]);
      }
    }
    if Applies(states[0], now, quotes[0], states[1]) && AllApply(now, r, u) {
      forall k | 0 <= k < |quotes| ensures Applies(states[k], now, quotes[k], states[k + 1]) {
        if k > 0 { assert Applies(u[k - 1], now, r[k - 1], u[k]); }
      }
    }
  }

  lemma {:induction false} UpdatedByStates(now: nat, quotes: seq<Quote>, states: seq<State>)
    requires states != [] && Inv(states[0]) && AllApply(now, quotes, states)
    ensures UpdateAll(states[0], now, quotes) == Done(states[|quotes|])
    decreases |quotes|
  {
    if quotes != [] {
      AllApplyRest(now, quotes, states);
      AppliesIff(states[0], now, quotes[0], states[1]);
      UpdateOneKeeps(states[0], now, quotes[0]);
      UpdatedByStates(now, quotes[1..], states[1..]);
    }
  }

  lemma {:induction false} StatesOfUpdate(s: State, now: nat, quotes: seq<Quote>) returns (states: seq<State>)
    requires Inv(s) && UpdateAll(s, now, quotes).Done?
    ensures AllApply(now, quotes, states) && states[0] == s
    decreases |quotes|
  {
    states := [s];
    if quotes != [] {
      var t := UpdateOne(s, now, quotes[0]).state;
      AppliesIff(s, now, quotes[0], t);
      UpdateOneKeeps(s, now, quotes[0]);
      var rest := StatesOfUpdate(t, now, quotes[1..]);
      states := [s] + rest;
      assert states[1..] == rest && states[1] == rest[0];
      AllApplyRest(now, quotes, states);
    }
  }

  /** A batch goes through, and leads to t, exactly when its sender is a listed oracle, there is a quote in
      it, and the quotes apply one after the other and lead to t. */
  lemma BatchAcceptedIff(s: State, now: nat, oracle: Name, quotes: seq<Quote>, t: State)
    requires Inv(s)
    ensures UpdatePrice(s, now, oracle, quotes) == Done(t) <==>
            && oracle in s.oracles && quotes != []
            && exists states :: AllApply(now, quotes, states) && states[0] == s && states[|quotes|] == t
  {
    if UpdatePrice(s, now, oracle, quotes) == Done(t) {
      var states := StatesOfUpdate(s, now, quotes);
      UpdatedByStates(now, quotes, states);
    }
    if exists states :: AllApply(now, quotes, states) && states[0] == s && states[|quotes|] == t {
      var states :| AllApply(now, quotes, states) && states[0] == s && states[|quotes|] == t;
      UpdatedByStates(now, quotes, states);
    }
  }

  // ---------- who may quote ----------

  /** The account was added as an oracle, by one of the calls or before them, and not removed since. */
  ghost predicate Trusted(s: State, calls: seq<Call>, who: Name) {
    || (who in s.oracles && KeptSince(calls, who, 0))
    || exists k :: 0 <= k < |calls| && AddedAt(calls, who, k)
  }

  predicate AddedAt(calls: seq<Call>, who: Name, k: nat)
    requires k < |calls|
  {
    calls[k].action == DoAddOracle(who) && KeptSince(calls, who, k)
  }

  predicate KeptSince(calls: seq<Call>, who: Name, k: nat) {
    forall j :: k <= j < |calls| ==> calls[j].action != DoRemoveOracle(who)
  }

  lemma TrustedLater(s: State, calls: seq<Call>, who: Name)
    requires calls != []
    ensures var c := calls[|calls| - 1];
            Trusted(s, calls, who) <==>
            c.action == DoAddOracle(who) ||
            (c.action != DoRemoveOracle(who) && Trusted(s, calls[..|calls| - 1], who))
  {
    var n := |calls| - 1;
    var earlier, c := calls[..n], calls[n];
    if c.action == DoAddOracle(who) { assert AddedAt(calls, who, n); }
    forall k | 0 <= k < n
      ensures AddedAt(calls, who, k) <==> c.action != DoRemoveOracle(who) && AddedAt(earlier, who, k)
    {
      assert forall j :: 0 <= j < n ==> earlier[j] == calls[j];
    }
    assert KeptSince(calls, who, 0) <==> c.action != DoRemoveOracle(who) && KeptSince(earlier, who, 0) by {
      assert forall j :: 0 <= j < n ==> earlier[j] == calls[j];
    }
  }

  lemma StepOracles(s: State, c: Call, who: Name)
    requires Inv(s)
    ensures who in After(s, c).oracles <==>
            c.action == DoAddOracle(who) || (c.action != DoRemoveOracle(who) && who in s.oracles)
  {
    if c.action.DoUpdate? && Step(s, c).Done? { UpdateAllSpares(s, c.now, c.action.quotes, ""); }
  }

  /** The oracles are at any time those added and not removed since. */
  lemma {:induction false} OraclesAre(s: State, calls: seq<Call>, who: Name)
    requires Inv(s)
    ensures who in Run(s, calls).oracles <==> Trusted(s, calls, who)
    decreases |calls|
  {
    if calls != [] {
      var earlier, c := calls[..|calls| - 1], calls[|calls| - 1];
      OraclesAre(s, earlier, who);
      EveryRunKeeps(s, earlier, "");
      StepOracles(Run(s, earlier), c, who);
      TrustedLater(s, calls, who);
    }
  }

  /** A batch leaves the oracles alone, and every coin it has no quote for. */
  lemma {:induction false} UpdateAllSpares(s: State, now: nat, quotes: seq<Quote>, coin: string)
    requires Inv(s) && UpdateAll(s, now, quotes).Done?
    ensures var t := UpdateAll(s, now, quotes).state;
            && t.oracles == s.oracles && (QuotesFor(quotes, coin) == 0 ==> PriceOf(t, coin) == PriceOf(s, coin))
    decreases |quotes|
  {
    if quotes != [] {
      UpdateOneSets(s, now, quotes[0]);
      UpdateOneKeeps(s, now, quotes[0]);
      UpdateAllSpares(UpdateOne(s, now, quotes[0]).state, now, quotes[1..], coin);
    }
  }

  lemma StepChanges(s: State, c: Call, coin: string)
    requires Inv(s) && PriceOf(After(s, c), coin) != PriceOf(s, coin)
    ensures var a := c.action;
            || (a.DoUpdate? && a.oracle in s.oracles && QuotesFor(a.quotes, coin) > 0)
            || (a == DoAddCoin(coin) && coin !in s.prices)
            || a == DoRemoveCoin(coin)
  {
    if c.action.DoUpdate? { UpdateAllSpares(s, c.now, c.action.quotes, coin); }
  }

  /** Over every run, what a coin's price is changes only when the coin is listed or removed, or by quotes
      for it from an account that was added as an oracle and not removed since. */
  lemma OnlyOraclesMovePrices(s: State, calls: seq<Call>, k: nat, coin: string)
    requires Inv(s) && k < |calls|
    requires var t := Run(s, calls[..k]); PriceOf(After(t, calls[k]), coin) != PriceOf(t, coin)
    ensures var a := calls[k].action;
            || (a.DoUpdate? && Trusted(s, calls[..k], a.oracle) && QuotesFor(a.quotes, coin) > 0)
            || (a == DoAddCoin(coin) && PriceOf(Run(s, calls[..k]), coin) == -1)
            || a == DoRemoveCoin(coin)
  {
    EveryRunKeeps(s, calls[..k], coin);
    StepChanges(Run(s, calls[..k]), calls[k], coin);
    if calls[k].action.DoUpdate? { OraclesAre(s, calls[..k], calls[k].action.oracle); }
  }

  // ---------- listing ----------

  /** Adding an oracle goes through exactly for an account that is none, and removing it undoes this. */
  lemma OracleListing(s: State, who: Name)
    ensures AddOracle(s, who).Done? <==> who !in s.oracles
    ensures RemoveOracle(s, who).Done? <==> who in s.oracles
    ensures who !in s.oracles ==> RemoveOracle(AddOracle(s, who).state, who) == Done(s)
    ensures who in s.oracles ==> AddOracle(RemoveOracle(s, who).state, who) == Done(s)
  {
    assert who !in s.oracles ==> s.oracles + {who} - {who} == s.oracles;
    assert who in s.oracles ==> s.oracles - {who} + {who} == s.oracles;
  }

  /** Listing a coin goes through exactly when it is not listed, sets its price to unknown and nothing else,
      and removing it undoes this. */
  lemma CoinListing(s: State, coin: string, other: string)
    ensures AddCoin(s, coin).Done? <==> coin !in s.prices
    ensures RemoveCoin(s, coin).Done? <==> coin in s.prices
    ensures coin !in s.prices ==>
              && RemoveCoin(AddCoin(s, coin).state, coin) == Done(s)
              && PriceOf(AddCoin(s, coin).state, coin) == 0
    ensures coin in s.prices ==>
              var t := RemoveCoin(s, coin).state;
              && t == s.(prices := t.prices) && PriceOf(t, coin) == -1
              && (other != coin ==> PriceOf(t, other) == PriceOf(s, other))
  {
    assert coin !in s.prices ==> s.prices[coin := 0] - {coin} == s.prices;
  }

  // ---------- runs ----------

  /** A run of one call is that call; one that is refused changes nothing. */
  lemma OneStep(s: State, c: Call)
    ensures Run(s, []) == s && Run(s, [c]) == match Step(s, c) case Done(t) => t case Abort(_) => s
  {
    assert [c][..0] == [];
  }

  /** A run goes on where the one before it stopped. */
  lemma {:induction false} RunsCompose(s: State, earlier: seq<Call>, later: seq<Call>)
    ensures Run(s, earlier + later) == Run(Run(s, earlier), later)
    decreases |later|
  {
    if later == [] {
      assert earlier + later == earlier;
    } else {
      var n := |later| - 1;
      assert (earlier + later)[..|earlier + later| - 1] == earlier + later[..n];
      RunsCompose(s, earlier, later[..n]);
    }
  }
}
