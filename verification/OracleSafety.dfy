/** How far prices can move, and what the price table holds, over every run of the oracle. */
module OracleSafety {
  import opened Arithmetic
  import opened Tables
  import opened Ledger
  import opened Rounding
  import opened Strings
  import opened Positional
  import opened OracleSpec

  // ---------- one step of a price ----------

  /** The step from one known price to the next, without the rounding. */
  predicate PriceMove(last: uint64, amount: int64) {
    last == 0 || (15 * last <= INT64_MAX && last + 1 < 2 * amount < 3 * last)
  }

  /** The two rounded limits leave exactly the amounts above half a unit more than half the old price
      and below one and a half times it; an old price above a fifteenth of the int64 range aborts. */
  lemma StepAcceptedIff(last: uint64, amount: int64)
    ensures CheckStep(last, amount).None? <==> PriceMove(last, amount)
  {
    assert MultiplyDecimal(last, 15, 10) == if 15 * last <= INT64_MAX then Some((15 * last + 5) / 10) else None by {
      assert TruncDiv(10 * last * 15, 10) == 15 * last;
    }
    assert MultiplyDecimal(last, 5, 10) == if 5 * last <= INT64_MAX then Some((5 * last + 5) / 10) else None by {
      assert TruncDiv(10 * last * 5, 10) == 5 * last;
    }
  }

  /** A price can ever be changed again exactly when it is unknown, or at least 2 and small enough for
      the upper limit to be computed. */
  lemma MovableIff(last: uint64)
    ensures (exists amount: int64 :: PriceMove(last, amount)) <==> last == 0 || (2 <= last && 15 * last <= INT64_MAX)
  {
    if last == 0 { assert PriceMove(last, 0); }
    if 2 <= last && 15 * last <= INT64_MAX { assert PriceMove(last, last); }
  }

  /** A quote is accepted exactly when it is for a listed coin against the quote coin, in the quote
      symbol, and its amount is within reach of the last price. */
  lemma QuoteAcceptedIff(s: State, now: nat, q: Quote, coin: string)
    requires Inv(s)
    ensures UpdateOne(s, now, q).Done? && CoinOf(q.tpcode) == coin <==>
            && q.tpcode == coin + "." + s.quoteCode && '.' !in coin && '.' !in s.quoteCode
            && q.symbol == s.quoteSymbol && coin in s.prices && PriceMove(s.prices[coin], q.amount)
  {
    SplitsInTwo(q.tpcode, '.', coin, s.quoteCode);
    if coin in s.prices {
      StepAcceptedIff(s.prices[coin], q.amount);
      OneRowIsReplaced(RowsOf(s, coin), Row(q, now));
    }
  }

  // ---------- the table ----------

  /** At most one row. */
  ghost predicate AtMostOne(rows: map<nat, Row>) {
    rows.Keys == {} || rows.Keys == {Least(rows.Keys)}
  }

  /** The id of the coin's row, or 0 while it has none. */
  ghost function LastId(rows: map<nat, Row>): nat {
    if rows.Keys == {} then 0 else Least(rows.Keys)
  }

  /** The row shows this coin's price. */
  ghost predicate Shows(s: State, coin: string) {
    var rows := RowsOf(s, coin);
    && coin in s.prices && LastId(rows) > 0 && rows.Keys == {LastId(rows)}
    && var q := rows[LastId(rows)].quote;
       q.tpcode == coin + "." + s.quoteCode && q.symbol == s.quoteSymbol && AsUint64(q.amount) == s.prices[coin]
  }

  /** No coin has more than one row, and a coin with a known price has one, which shows that price. */
  ghost predicate Inv(s: State) {
    && (forall coin :: coin in s.tables ==> AtMostOne(s.tables[coin]))
    && (forall coin :: coin in s.prices && s.prices[coin] != 0 ==> Shows(s, coin))
  }

  lemma GenesisIsFine(s: State)
    requires s.prices == map[] && s.tables == map[]
    ensures Inv(s)
  {
  }

  lemma OneRowIsReplaced(rows: map<nat, Row>, row: Row)
    requires AtMostOne(rows)
    ensures Replace(rows, row) == Some(map[LastId(rows) + 1 := row])
  {
    if rows.Keys != {} {
      var k := Least(rows.Keys);
      assert rows - {k} == map[];
    } else {
      assert rows == map[];
    }
  }

  lemma OnlyId(k: nat, row: Row)
    ensures LastId(map[k := row]) == k && map[k := row].Keys == {k}
  {
    assert k in map[k := row].Keys;
  }

  /** What an accepted quote does: its coin gets the price and a single row, whose id is one more than
      the last; no other coin is touched. */
  lemma UpdateOneSets(s: State, now: nat, q: Quote)
    requires Inv(s) && UpdateOne(s, now, q).Done?
    ensures var t, coin := UpdateOne(s, now, q).state, CoinOf(q.tpcode);
            && coin in s.prices && PriceMove(s.prices[coin], q.amount)
            && t == s.(prices := s.prices[coin := AsUint64(q.amount)],
                       tables := s.tables[coin := map[LastId(RowsOf(s, coin)) + 1 := Row(q, now)]])
            && LastId(RowsOf(t, coin)) == LastId(RowsOf(s, coin)) + 1 && Shows(t, coin)
  {
    var coin := CoinOf(q.tpcode);
    QuoteAcceptedIff(s, now, q, coin);
    OneRowIsReplaced(RowsOf(s, coin), Row(q, now));
    OnlyId(LastId(RowsOf(s, coin)) + 1, Row(q, now));
  }

  lemma UpdateOneKeeps(s: State, now: nat, q: Quote)
    requires Inv(s) && UpdateOne(s, now, q).Done?
    ensures Inv(UpdateOne(s, now, q).state)
  {
    var t, coin := UpdateOne(s, now, q).state, CoinOf(q.tpcode);
    UpdateOneSets(s, now, q);
    OnlyId(LastId(RowsOf(s, coin)) + 1, Row(q, now));
    forall c | c in t.prices && t.prices[c] != 0 ensures Shows(t, c) {
      if c != coin { assert Shows(s, c) && RowsOf(t, c) == RowsOf(s, c); }
    }
  }

  // ---------- how often and how far ----------

  /** How many of the quotes are for the coin. */
  function QuotesFor(quotes: seq<Quote>, coin: string): nat {
    if quotes == [] then 0 else (if CoinOf(quotes[0].tpcode) == coin then 1 else 0) + QuotesFor(quotes[1..], coin)
  }

  function PriceOf(s: State, coin: string): int {
    if coin in s.prices then s.prices[coin] else -1
  }

  /** p is within k steps of the positive price p0: each step less than doubles the ratio one way and
      grows it by less than half the other way. */
  predicate Within(p0: int, k: nat, p: int) {
    if k == 0 then p == p0 else p0 < Pow(2, k) * p < Pow(3, k) * p0
  }

  lemma WithinStep(p0: int, k: nat, p: int, q: int)
    requires 0 < p0 && 0 < p && Within(p0, k, p) && p < 2 * q < 3 * p
    ensures Within(p0, k + 1, q)
  {
    var a, b := Pow(2, k), Pow(3, k);
    PowPositive(2, k);
    Scaled(a, p, 2 * q);
    Scaled(a, 2 * q, 3 * p);
    assert Pow(2, k + 1) * q == a * (2 * q);
    assert a * (3 * p) == 3 * (a * p);
    assert Pow(3, k + 1) * p0 == 3 * (b * p0);
  }

  lemma Scaled(a: nat, x: int, y: int)
    requires a > 0 && x < y
    ensures a * x < a * y
  {
  }

  lemma WithinIsPositive(p0: int, k: nat, p: int)
    requires 0 < p0 && Within(p0, k, p)
    ensures 0 < p
  {
    PowPositive(2, k);
    if p <= 0 { MulOrder(Pow(2, k), p, 0); }
  }

  /** A known price that is updated moves by one step. */
  lemma UpdateOneMoves(s: State, now: nat, q: Quote, coin: string, p0: int, k: nat)
    requires Inv(s) && UpdateOne(s, now, q).Done? && 0 < p0 && Within(p0, k, PriceOf(s, coin))
    ensures Within(p0, if CoinOf(q.tpcode) == coin then k + 1 else k, PriceOf(UpdateOne(s, now, q).state, coin))
  {
    UpdateOneSets(s, now, q);
    WithinIsPositive(p0, k, PriceOf(s, coin));
    if CoinOf(q.tpcode) == coin { WithinStep(p0, k, s.prices[coin], q.amount); }
  }

  lemma {:induction false} UpdateAllMoves(s: State, now: nat, quotes: seq<Quote>, coin: string, p0: int, k: nat, n: nat)
    requires Inv(s) && UpdateAll(s, now, quotes).Done? && 0 < p0 && Within(p0, k, PriceOf(s, coin))
    requires n == k + QuotesFor(quotes, coin)
    ensures Within(p0, n, PriceOf(UpdateAll(s, now, quotes).state, coin))
    decreases |quotes|
  {
    if quotes != [] {
      UpdateOneKeeps(s, now, quotes[0]);
      UpdateOneMoves(s, now, quotes[0], coin, p0, k);
      var k1 := if CoinOf(quotes[0].tpcode) == coin then k + 1 else k;
      UpdateAllMoves(UpdateOne(s, now, quotes[0]).state, now, quotes[1..], coin, p0, k1, n);
    }
  }

  lemma {:induction false} UpdateAllKeeps(s: State, now: nat, quotes: seq<Quote>, coin: string)
    requires Inv(s) && UpdateAll(s, now, quotes).Done?
    ensures var t := UpdateAll(s, now, quotes).state;
            && Inv(t) && t.quoteCode == s.quoteCode && t.prices.Keys == s.prices.Keys
            && LastId(RowsOf(t, coin)) == LastId(RowsOf(s, coin)) + QuotesFor(quotes, coin)
    decreases |quotes|
  {
    if quotes != [] {
      UpdateOneKeeps(s, now, quotes[0]);
      UpdateOneSets(s, now, quotes[0]);
      UpdateAllKeeps(UpdateOne(s, now, quotes[0]).state, now, quotes[1..], coin);
    }
  }

  // ---------- every run ----------

  /** The accepted updates of the coin that a call brings. */
  ghost function UpdatesIn(s: State, c: Call, coin: string): nat {
    if c.action.DoUpdate? && Step(s, c).Done? then QuotesFor(c.action.quotes, coin) else 0
  }

  ghost function Updates(s: State, calls: seq<Call>, coin: string): nat {
    if calls == [] then 0 else
    var earlier := calls[..|calls| - 1];
    Updates(s, earlier, coin) + UpdatesIn(Run(s, earlier), calls[|calls| - 1], coin)
  }

  lemma StepKeeps(s: State, c: Call, coin: string)
    requires Inv(s)
    ensures Inv(After(s, c)) && LastId(RowsOf(After(s, c), coin)) == LastId(RowsOf(s, coin)) + UpdatesIn(s, c, coin)
  {
    if Step(s, c).Done? {
      match c.action
      case DoUpdate(oracle, quotes) => UpdateAllKeeps(s, c.now, quotes, coin);
      case _ => OthersKeep(s, c);
    }
  }

  lemma OthersKeep(s: State, c: Call)
    requires Inv(s) && Step(s, c).Done? && !c.action.DoUpdate?
    ensures Inv(Step(s, c).state) && Step(s, c).state.tables == s.tables
  {
    var t := Step(s, c).state;
    forall coin | coin in t.prices && t.prices[coin] != 0 ensures Shows(t, coin) {
      assert coin in s.prices && s.prices[coin] == t.prices[coin];
      assert Shows(s, coin);
    }
  }

  /** Over every run a coin's table holds at most one row, which shows the price while that is known;
      and the row's id counts the coin's accepted updates since the contract began, through removals
      and relistings. */
  lemma {:induction false} EveryRunKeeps(s: State, calls: seq<Call>, coin: string)
    requires Inv(s)
    ensures Inv(Run(s, calls))
    ensures LastId(RowsOf(Run(s, calls), coin)) == LastId(RowsOf(s, coin)) + Updates(s, calls, coin)
    decreases |calls|
  {
    if calls != [] {
      var earlier, c := calls[..|calls| - 1], calls[|calls| - 1];
      EveryRunKeeps(s, earlier, coin);
      StepKeeps(Run(s, earlier), c, coin);
    }
  }

  predicate NeverRemoved(calls: seq<Call>, coin: string) {
    forall i :: 0 <= i < |calls| ==> calls[i].action != DoRemoveCoin(coin)
  }

  lemma StepMoves(s: State, c: Call, coin: string, p0: int, k: nat, n: nat)
    requires Inv(s) && c.action != DoRemoveCoin(coin) && 0 < p0 && Within(p0, k, PriceOf(s, coin))
    requires n == k + UpdatesIn(s, c, coin)
    ensures Within(p0, n, PriceOf(After(s, c), coin))
  {
    if c.action.DoUpdate? && Step(s, c).Done? {
      UpdateAllMoves(s, c.now, c.action.quotes, coin, p0, k, n);
    } else {
      WithinIsPositive(p0, k, PriceOf(s, coin));
      OtherStepsKeepPrice(s, c, coin);
    }
  }

  lemma OtherStepsKeepPrice(s: State, c: Call, coin: string)
    requires c.action != DoRemoveCoin(coin) && !(c.action.DoUpdate? && Step(s, c).Done?) && coin in s.prices
    ensures UpdatesIn(s, c, coin) == 0 && PriceOf(After(s, c), coin) == PriceOf(s, coin)
  {
  }

  /** From a positive price p0 of a coin that is not removed, k >= 1 accepted updates lead to a price p
      with p0 < 2^k * p < 3^k * p0. So the price never falls back to 0, and the coin's one row shows it. */
  lemma {:induction false} EveryRunIsBounded(s: State, calls: seq<Call>, coin: string)
    requires Inv(s) && PriceOf(s, coin) > 0 && NeverRemoved(calls, coin)
    ensures Within(PriceOf(s, coin), Updates(s, calls, coin), PriceOf(Run(s, calls), coin))
    ensures PriceOf(Run(s, calls), coin) > 0 && Shows(Run(s, calls), coin)
    decreases |calls|
  {
    var p0 := PriceOf(s, coin);
    if calls != [] {
      var earlier, c := calls[..|calls| - 1], calls[|calls| - 1];
      EveryRunIsBounded(s, earlier, coin);
      EveryRunKeeps(s, earlier, coin);
      StepMoves(Run(s, earlier), c, coin, p0, Updates(s, earlier, coin), Updates(s, calls, coin));
    }
    EveryRunKeeps(s, calls, coin);
    WithinIsPositive(p0, Updates(s, calls, coin), PriceOf(Run(s, calls), coin));
  }

  // ---------- prices that stay for good ----------

  lemma {:induction false} StuckQuoteAborts(s: State, now: nat, quotes: seq<Quote>, coin: string)
    requires Inv(s) && PriceOf(s, coin) > 0 && !(2 <= PriceOf(s, coin) && 15 * PriceOf(s, coin) <= INT64_MAX)
    requires UpdateAll(s, now, quotes).Done?
    ensures QuotesFor(quotes, coin) == 0 && PriceOf(UpdateAll(s, now, quotes).state, coin) == PriceOf(s, coin)
    decreases |quotes|
  {
    if quotes != [] {
      UpdateOneKeeps(s, now, quotes[0]);
      UpdateOneSets(s, now, quotes[0]);
      StuckQuoteAborts(UpdateOne(s, now, quotes[0]).state, now, quotes[1..], coin);
    }
  }

  /** A price of 1, or one above a fifteenth of the int64 range, as a negative first quote becomes when
      it is stored, is never updated again until the coin is removed. */
  lemma {:induction false} StuckForGood(s: State, calls: seq<Call>, coin: string)
    requires Inv(s) && PriceOf(s, coin) > 0 && !(2 <= PriceOf(s, coin) && 15 * PriceOf(s, coin) <= INT64_MAX)
    requires NeverRemoved(calls, coin)
    ensures PriceOf(Run(s, calls), coin) == PriceOf(s, coin) && Updates(s, calls, coin) == 0
    decreases |calls|
  {
    if calls != [] {
      var earlier, c := calls[..|calls| - 1], calls[|calls| - 1];
      StuckForGood(s, earlier, coin);
      EveryRunKeeps(s, earlier, coin);
      var t := Run(s, earlier);
      if c.action.DoUpdate? && Step(t, c).Done? { StuckQuoteAborts(t, c.now, c.action.quotes, coin); }
    }
  }

  /** Removing a coin and listing it again forgets its price but not its row: whatever the price was, every
      well-formed quote for the coin is accepted next, and its row goes on counting. */
  lemma RelistingFreesPrice(s: State, now: nat, q: Quote, coin: string)
    requires Inv(s) && coin in s.prices
    requires q.tpcode == coin + "." + s.quoteCode && '.' !in coin && '.' !in s.quoteCode && q.symbol == s.quoteSymbol
    ensures RemoveCoin(s, coin).Done? && AddCoin(RemoveCoin(s, coin).state, coin).Done?
    ensures var t := AddCoin(RemoveCoin(s, coin).state, coin).state;
            && Inv(t) && t.tables == s.tables && t.prices == s.prices[coin := 0]
            && UpdateOne(t, now, q).Done?
            && LastId(RowsOf(UpdateOne(t, now, q).state, coin)) == LastId(RowsOf(s, coin)) + 1
  {
    var m := RemoveCoin(s, coin).state;
    var t := AddCoin(m, coin).state;
    OthersKeep(s, Call(now, DoRemoveCoin(coin)));
    OthersKeep(m, Call(now, DoAddCoin(coin)));
    assert t.prices == s.prices[coin := 0];
    QuoteAcceptedIff(t, now, q, coin);
    UpdateOneSets(t, now, q);
  }

  /** A negative first quote is stored as a price that is stuck. */
  lemma NegativeFirstQuoteSticks(amount: int64)
    requires amount < 0
    ensures PriceMove(0, amount) && AsUint64(amount) > 0 && 15 * AsUint64(amount) > INT64_MAX
  {
  }
}
