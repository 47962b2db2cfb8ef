/** price.oracle: the last price of every listed coin, bounded against its predecessor, and a table
    that keeps the latest quote of each coin. */
module OracleSpec {
  import opened Tables
  import opened Ledger
  import opened Rounding
  import opened Strings

  /** A name printed as text holds no space. */
  type NameText = s: string | ' ' !in s

  datatype Quote = Quote(tpcode: NameText, amount: int64, symbol: Symbol)

  datatype Row = Row(quote: Quote, updatedAt: nat)

  /** A price of 0 means that none is known yet. */
  datatype State = State(oracles: set<Name>, prices: map<string, uint64>, tables: map<string, map<nat, Row>>,
                         quoteCode: string, quoteSymbol: Symbol)

  datatype Failure = NoAuth | RecordFound | RecordNotFound | ParamError | MultiplyOverflow | DuplicateKey

  datatype Outcome = Done(state: State) | Abort(why: Failure)

  /** What an int64 becomes when it is stored in a uint64. */
  function AsUint64(x: int64): uint64 {
    if x < 0 then x + UINT64_MAX + 1 else x
  }

  function RowsOf(s: State, coin: string): map<nat, Row> {
    if coin in s.tables then s.tables[coin] else map[]
  }

  /** The coin a quote is about: what precedes the point of its pair code. */
  function CoinOf(tpcode: string): string {
    Trimmed(Pieces(tpcode, '.'))[0]
  }

  /** The check of a new price against the last one; None lets it pass. */
  function CheckStep(last: uint64, amount: int64): Option<Failure> {
    if last == 0 then None else
    match MultiplyDecimal(last, 15, 10)
    case None => Some(MultiplyOverflow)
    case Some(upper) =>
      match MultiplyDecimal(last, 5, 10)
      case None => Some(MultiplyOverflow)
      case Some(lower) => if amount > lower && amount < upper then None else Some(ParamError)
  }

  /** Replacing the first row by one with the next id. */
  ghost function Replace(rows: map<nat, Row>, row: Row): Option<map<nat, Row>> {
    if rows.Keys == {} then Some(rows[1 := row]) else
    var k := Least(rows.Keys);
    if k + 1 in rows then None else Some((rows - {k})[k + 1 := row])
  }

  /** `_updateprice`. */
  ghost function UpdateOne(s: State, now: nat, q: Quote): Outcome {
    var coins := Trimmed(Pieces(q.tpcode, '.'));
    if |coins| != 2 then Abort(ParamError)
    else if coins[1] != s.quoteCode then Abort(RecordNotFound)
    else if q.symbol != s.quoteSymbol then Abort(RecordNotFound)
    else if coins[0] !in s.prices then Abort(RecordNotFound)
    else match CheckStep(s.prices[coins[0]], q.amount)
    case Some(why) => Abort(why)
    case None =>
      match Replace(RowsOf(s, coins[0]), Row(q, now))
      case None => Abort(DuplicateKey)
      case Some(rows) =>
        Done(s.(prices := s.prices[coins[0] := AsUint64(q.amount)], tables := s.tables[coins[0] := rows]))
  }

  ghost function UpdateAll(s: State, now: nat, quotes: seq<Quote>): Outcome
    decreases |quotes|
  {
    if quotes == [] then Done(s) else
    match UpdateOne(s, now, quotes[0])
    case Abort(why) => Abort(why)
    case Done(t) => UpdateAll(t, now, quotes[1..])
  }

  ghost function UpdatePrice(s: State, now: nat, oracle: Name, quotes: seq<Quote>): Outcome {
    if oracle !in s.oracles then Abort(NoAuth)
    else if quotes == [] then Abort(ParamError)
    else UpdateAll(s, now, quotes)
  }

  function AddOracle(s: State, oracle: Name): Outcome {
    if oracle in s.oracles then Abort(NoAuth) else Done(s.(oracles := s.oracles + {oracle}))
  }

  function RemoveOracle(s: State, oracle: Name): Outcome {
    if oracle !in s.oracles then Abort(RecordNotFound) else Done(s.(oracles := s.oracles - {oracle}))
  }

  function AddCoin(s: State, coin: string): Outcome {
    if coin in s.prices then Abort(RecordFound) else Done(s.(prices := s.prices[coin := 0]))
  }

  /** Only the price goes: the coin's table keeps its row. */
  function RemoveCoin(s: State, coin: string): Outcome {
    if coin !in s.prices then Abort(RecordNotFound) else Done(s.(prices := s.prices - {coin}))
  }

  datatype Action =
    | DoAddOracle(oracle: Name)
    | DoRemoveOracle(oracle: Name)
    | DoAddCoin(coin: string)
    | DoRemoveCoin(coin: string)
    | DoUpdate(oracle: Name, quotes: seq<Quote>)

  datatype Call = Call(now: nat, action: Action)

  ghost function Step(s: State, c: Call): Outcome {
    match c.action
    case DoAddOracle(oracle) => AddOracle(s, oracle)
    case DoRemoveOracle(oracle) => RemoveOracle(s, oracle)
    case DoAddCoin(coin) => AddCoin(s, coin)
    case DoRemoveCoin(coin) => RemoveCoin(s, coin)
    case DoUpdate(oracle, quotes) => UpdatePrice(s, c.now, oracle, quotes)
  }

  ghost function After(s: State, c: Call): State {
    match Step(s, c) case Done(t) => t case Abort(_) => s
  }

  ghost function Run(s: State, calls: seq<Call>): State {
    if calls == [] then s else After(Run(s, calls[..|calls| - 1]), calls[|calls| - 1])
  }
}
