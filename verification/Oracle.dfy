/** The price.oracle contract: its global record and its price tables as fields, its actions as
    methods. Every method is proved to do exactly what OracleSpec says. */
module Oracle {
  import opened Tables
  import opened Ledger
  import opened Rounding
  import opened Strings
  import opened OracleSpec
  import opened OracleSafety

  /** The action had this outcome: on an abort nothing was written. */
  ghost predicate Did(before: State, o: Outcome, r: Option<Failure>, after: State) {
    match o
    case Done(t) => r == None && after == t
    case Abort(why) => r == Some(why) && after == before
  }

  lemma DidKeeps(before: State, c: Call, r: Option<Failure>, after: State, coin: string)
    requires Inv(before) && Did(before, Step(before, c), r, after)
    ensures Inv(after)
  {
    StepKeeps(before, c, coin);
  }

  class OracleContract {
    var oracles: set<Name>
    var prices: map<string, uint64>
    var tables: map<string, map<nat, Row>>
    const quoteCode: string
    const quoteSymbol: Symbol

    ghost function Now(): State
      reads this
    {
      State(oracles, prices, tables, quoteCode, quoteSymbol)
    }

    constructor ()
      ensures Now() == State({}, map[], map[], "usdt", Symbol("USDT", 6)) && Inv(Now())
    {
      oracles, prices, tables := {}, map[], map[];
      quoteCode, quoteSymbol := "usdt", Symbol("USDT", 6);
      new;
      GenesisIsFine(Now());
    }

    method AddOracle(oracle: Name) returns (r: Option<Failure>)
      modifies this
      ensures Did(old(Now()), OracleSpec.AddOracle(old(Now()), oracle), r, Now())
    {
      if oracle in oracles { return Some(NoAuth); }
      oracles := oracles + {oracle};
      return None;
    }

    method RemoveOracle(oracle: Name) returns (r: Option<Failure>)
      modifies this
      ensures Did(old(Now()), OracleSpec.RemoveOracle(old(Now()), oracle), r, Now())
    {
      if oracle !in oracles { return Some(RecordNotFound); }
      oracles := oracles - {oracle};
      return None;
    }

    method AddCoin(coin: string) returns (r: Option<Failure>)
      modifies this
      ensures Did(old(Now()), OracleSpec.AddCoin(old(Now()), coin), r, Now())
    {
      if coin in prices { return Some(RecordFound); }
      prices := prices[coin := 0];
      return None;
    }

    method RemoveCoin(coin: string) returns (r: Option<Failure>)
      modifies this
      ensures Did(old(Now()), OracleSpec.RemoveCoin(old(Now()), coin), r, Now())
    {
      if coin !in prices { return Some(RecordNotFound); }
      prices := prices - {coin};
      return None;
    }

    /** The erase and emplace at the end of `_updateprice`: one row is dropped, one with the next id added. */
    method ReplaceRow(coin: string, row: Row) returns (r: Option<Failure>)
      modifies this`tables
      ensures match Replace(RowsOf(old(Now()), coin), row)
              case None => r == Some(DuplicateKey) && tables == old(tables)
              case Some(rows) => r == None && tables == old(tables)[coin := rows]
    {
      var rows: map<nat, Row> := if coin in tables then tables[coin] else map[];
      var id := 1;
      if rows.Keys != {} {
        var first := Smallest(rows.Keys);
        id := first + 1;
        rows := rows - {first};
      }
      if id in rows { return Some(DuplicateKey); }
      tables := tables[coin := rows[id := row]];
      return None;
    }

    /** `_updateprice`. */
    method UpdateOnePrice(now: nat, q: Quote) returns (r: Option<Failure>)
      modifies this
      ensures Did(old(Now()), UpdateOne(old(Now()), now, q), r, Now())
    {
      var coins := Split(q.tpcode, '.');
      if |coins| != 2 { return Some(ParamError); }
      var baseCoin, quoteCoin := coins[0], coins[1];
      if quoteCoin != quoteCode { return Some(RecordNotFound); }
      if q.symbol != quoteSymbol { return Some(RecordNotFound); }
      if baseCoin !in prices { return Some(RecordNotFound); }
      var lastPrice := prices[baseCoin];
      if lastPrice != 0 {
        var upper := MultiplyDecimal(lastPrice, 15, 10);
        if upper.None? { return Some(MultiplyOverflow); }
        var lower := MultiplyDecimal(lastPrice, 5, 10);
        if lower.None? { return Some(MultiplyOverflow); }
        if !(q.amount > lower.value && q.amount < upper.value) { return Some(ParamError); }
      }
      var saved := prices;
      prices := prices[baseCoin := AsUint64(q.amount)];
      r := ReplaceRow(baseCoin, Row(q, now));
      if r.Some? { prices := saved; }
    }

    /** `updateprice`: the quotes in turn, all or nothing. */
    method UpdatePrice(now: nat, oracle: Name, quotes: seq<Quote>) returns (r: Option<Failure>)
      modifies this
      ensures Did(old(Now()), OracleSpec.UpdatePrice(old(Now()), now, oracle, quotes), r, Now())
    {
      if oracle !in oracles { return Some(NoAuth); }
      if quotes == [] { return Some(ParamError); }
      var savedPrices, savedTables := prices, tables;
      assert quotes[0..] == quotes;
      for i := 0 to |quotes|
        invariant Now() == old(Now()).(prices := prices, tables := tables)
        invariant UpdateAll(Now(), now, quotes[i..]) == UpdateAll(old(Now()), now, quotes)
      {
        ghost var rest := quotes[i..];
        assert rest[0] == quotes[i] && rest[1..] == quotes[i + 1..];
        r := UpdateOnePrice(now, quotes[i]);
        if r.Some? {
          prices, tables := savedPrices, savedTables;
          return;
        }
      }
      assert quotes[|quotes|..] == [];
      return None;
    }

    /** Any action at all: it takes exactly the step of the state machine, so the invariant survives. */
    method Apply(c: Call) returns (r: Option<Failure>)
      requires Inv(Now())
      modifies this
      ensures Inv(Now()) && Did(old(Now()), Step(old(Now()), c), r, Now())
    {
      ghost var before := Now();
      match c.action {
        case DoAddOracle(oracle) => r := AddOracle(oracle);
        case DoRemoveOracle(oracle) => r := RemoveOracle(oracle);
        case DoAddCoin(coin) => r := AddCoin(coin);
        case DoRemoveCoin(coin) => r := RemoveCoin(coin);
        case DoUpdate(oracle, quotes) => r := UpdatePrice(c.now, oracle, quotes);
      }
      DidKeeps(before, c, r, Now(), "");
    }
  }
}
