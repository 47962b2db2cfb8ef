/** flon.blindbox: booths that sell randomly picked NFTs out of a box of symbols with counts. */
module BlindboxSpec {
  import opened Tables
  import opened Ledger

  const TWO64: nat := 0x1_0000_0000_0000_0000

  type uint32 = n: nat | n < 0x1_0000_0000

  datatype NSymbol = NSymbol(id: uint32, parentId: uint32)

  /** The 64-bit key the map is ordered by: parent first. */
  function Raw(s: NSymbol): nat { s.parentId * 0x1_0000_0000 + s.id }

  datatype Entry = Entry(symbol: NSymbol, count: nat)

  /** A booth's box: the map from symbols to counts, in key order. */
  type Box = seq<Entry>

  datatype Booth = Booth(owner: Name, nftContract: Name, fund: Token, splitPlanId: nat, price: nat, fundRecd: nat,
                         boxNum: nat, nftNum: nat, nftSum: nat, enabled: bool, openedAt: nat, closedAt: nat)

  datatype State = State(self: Name, distributor: Name, maxBoxes: nat, maxPurchase: nat, lastBoothId: nat,
                         booths: map<nat, Booth>, boxes: map<nat, Box>)

  datatype Failure =
    | RecordNotFound | StatusError | DataMismatch | NoAuth | NotPositive | Oversized | SymbolMismatch | ParamError
    | AssetOverflow | TransferRefused | PastTheEnd | HashesRunOut

  datatype Goods = Goods(symbol: NSymbol, amount: nat)

  datatype Event =
    | FundsTo(distributor: Name, paid: nat)
    | ChangeTo(buyer: Name, change: nat)
    | GoodsTo(receiver: Name, goods: seq<Goods>)

  datatype Outcome = Done(state: State, events: seq<Event>) | Abort(why: Failure)

  // ---------- the box ----------

  function Total(box: Box): nat {
    if box == [] then 0 else box[0].count + Total(box[1..])
  }

  /** How many of a symbol the box holds. */
  function CountIn(box: Box, s: NSymbol): nat {
    if box == [] then 0 else (if box[0].symbol == s then box[0].count else 0) + CountIn(box[1..], s)
  }

  /** The cumulative walk: the first entry whose running total reaches the ticket, or |box| past the end. */
  function Walk(box: Box, ticket: int): (i: nat)
    ensures i <= |box|
  {
    if box == [] then 0
    else if ticket <= box[0].count then 0
    else 1 + Walk(box[1..], ticket - box[0].count)
  }

  /** Taking one from entry i, and erasing the entry when it was the last. */
  function TakeOne(box: Box, i: nat): Box
    requires i < |box| && box[i].count > 0
  {
    if box[i].count == 1 then box[..i] + box[i + 1..] else box[i := Entry(box[i].symbol, box[i].count - 1)]
  }

  /** Adding to an entry, or inserting a new one in key order. */
  function Put(box: Box, s: NSymbol, amount: nat): Box {
    if box == [] then [Entry(s, amount)]
    else if box[0].symbol == s then [Entry(s, box[0].count + amount)] + box[1..]
    else if Raw(s) < Raw(box[0].symbol) then [Entry(s, amount)] + box
    else [box[0]] + Put(box[1..], s, amount)
  }

  predicate Has(box: Box, s: NSymbol) {
    exists k :: 0 <= k < |box| && box[k].symbol == s
  }

  // ---------- the random ticket ----------

  /** The largest accepted seed: 2^64 - 1 less its remainder. */
  function Limit(range: nat): nat
    requires range > 0
  {
    TWO64 - 1 - (TWO64 - 1) % range
  }

  function Ticket(seed: nat, range: nat): nat
    requires range > 0
  {
    seed % range + 1
  }

  /** The first of a run of 64-bit hashes that is not rejected. */
  function FirstAccepted(hashes: seq<nat>, range: nat): Option<nat>
    requires range > 0
  {
    if hashes == [] then None
    else if hashes[0] <= Limit(range) then Some(hashes[0])
    else FirstAccepted(hashes[1..], range)
  }

  // ---------- buying ----------

  datatype Draw = Drawn(booth: Booth, box: Box, symbol: NSymbol) | Missed(why: Failure)

  /** Taking the NFT a ticket picks. */
  function Pick(b: Booth, box: Box, ticket: nat): Draw {
    var i := Walk(box, ticket);
    if i == |box| || box[i].count == 0 || b.nftNum == 0 || b.boxNum == 0 then Missed(PastTheEnd)
    else
      var erased := box[i].count == 1;
      Drawn(b.(nftNum := b.nftNum - 1, boxNum := if erased then b.boxNum - 1 else b.boxNum),
            TakeOne(box, i), box[i].symbol)
  }

  /** `_one_nft`, with the hash and the rehashes of its draw. When all of them are rejected the loop
      has not ended, and the transaction runs into its time limit. */
  function OneNft(b: Booth, box: Box, hashes: seq<nat>): Draw {
    if b.nftNum == 0 then Missed(PastTheEnd)
    else match FirstAccepted(hashes, b.nftNum)
    case None => Missed(HashesRunOut)
    case Some(seed) => Pick(b, box, Ticket(seed, b.nftNum))
  }

  datatype Haul = Haul(booth: Booth, box: Box, symbols: seq<NSymbol>) | Failed(why: Failure)

  /** The purchase loop: one draw for each run of hashes. */
  function DrawAll(b: Booth, box: Box, draws: seq<seq<nat>>): Haul
    decreases |draws|
  {
    if draws == [] then Haul(b, box, []) else
    match OneNft(b, box, draws[0])
    case Missed(why) => Failed(why)
    case Drawn(c, rest, symbol) =>
      match DrawAll(c, rest, draws[1..])
      case Failed(why) => Failed(why)
      case Haul(d, left, symbols) => Haul(d, left, [symbol] + symbols)
  }

  /** The goods, collected by symbol id; adding a different symbol with the same id aborts. */
  function Collect(bought: map<nat, Goods>, symbols: seq<NSymbol>): Option<map<nat, Goods>>
    decreases |symbols|
  {
    if symbols == [] then Some(bought) else
    var y := symbols[0];
    if y.id !in bought then Collect(bought[y.id := Goods(y, 1)], symbols[1..])
    else if bought[y.id].symbol != y then None
    else Collect(bought[y.id := Goods(y, bought[y.id].amount + 1)], symbols[1..])
  }

  /** The goods in key order. */
  ghost function InOrder(bought: map<nat, Goods>, keys: set<nat>): seq<Goods>
    requires keys <= bought.Keys
    decreases |keys|
  {
    if keys == {} then [] else
    var k := Least(keys);
    [bought[k]] + InOrder(bought, keys - {k})
  }

  datatype Delivery = Delivered(booth: Booth, box: Box, goods: seq<Goods>) | Undelivered(why: Failure)

  /** All the draws of a purchase, and the goods they come to. */
  ghost function Deliver(b: Booth, box: Box, draws: seq<seq<nat>>): Delivery {
    match DrawAll(b, box, draws)
    case Failed(why) => Undelivered(why)
    case Haul(c, left, symbols) =>
      match Collect(map[], symbols)
      case None => Undelivered(SymbolMismatch)
      case Some(bought) => Delivered(c, left, InOrder(bought, bought.Keys))
  }

  function ChangeEvent(from: Name, change: int): seq<Event> {
    if change > 0 then [ChangeTo(from, change)] else []
  }

  /** The hashes of the first n draws; a draw without hashes never ends. */
  function FirstDraws(draws: seq<seq<nat>>, n: nat): (d: seq<seq<nat>>)
    ensures |d| == n
  {
    seq(n, i requires i >= 0 => if i < |draws| then draws[i] else [])
  }

  /** `quantity` of `fund` has just arrived from `from` for booth `id`; `draws` gives the hashes
      of each draw. */
  ghost function Buy(s: State, now: nat, from: Name, fund: Token, quantity: nat, id: nat,
                     draws: seq<seq<nat>>): Outcome {
    if id !in s.booths then Abort(RecordNotFound) else
    var b := s.booths[id];
    if !b.enabled then Abort(StatusError)
    else if b.openedAt > now || b.closedAt < now then Abort(StatusError)
    else if b.fund.bank != fund.bank then Abort(DataMismatch)
    else if b.fund.symbol != fund.symbol then Abort(SymbolMismatch)
    else if b.nftNum == 0 then Abort(Oversized)
    else if b.price == 0 then Abort(ParamError) else
    var count := quantity / b.price;
    if count == 0 || count > b.nftNum || count > s.maxPurchase then Abort(ParamError) else
    var paid := b.price * count;
    if b.fundRecd + paid > MAX_AMOUNT then Abort(AssetOverflow)
    else if s.distributor == s.self then Abort(TransferRefused)
    else if id !in s.boxes then Abort(RecordNotFound)
    else match Deliver(b.(fundRecd := b.fundRecd + paid), s.boxes[id], FirstDraws(draws, count))
      case Undelivered(why) => Abort(why)
      case Delivered(c, box, goods) =>
        Done(s.(booths := s.booths[id := c], boxes := s.boxes[id := box]),
             [FundsTo(s.distributor, paid)] + ChangeEvent(from, quantity - paid) + [GoodsTo(from, goods)])
  }

  // ---------- stocking and closing ----------

  datatype Asset = Asset(symbol: NSymbol, amount: int)

  datatype Stock = Stocked(box: Box, newEntries: nat, newNfts: nat) | Refused(why: Failure)

  /** The loop over the assets sent: counts grow, or entries are added. */
  function PutAll(box: Box, assets: seq<Asset>): Stock
    decreases |assets|
  {
    if assets == [] then Stocked(box, 0, 0)
    else if assets[0].amount <= 0 then Refused(NotPositive)
    else
      var isNew := if Has(box, assets[0].symbol) then 0 else 1;
      match PutAll(Put(box, assets[0].symbol, assets[0].amount), assets[1..])
      case Refused(why) => Refused(why)
      case Stocked(after, entries, nfts) => Stocked(after, entries + isNew, nfts + assets[0].amount)
  }

  /** NFTs have just arrived from `from` for booth `id`. The box row must exist: the one-argument set
      of the record layer only modifies, so a first deposit aborts. */
  function Deposit(s: State, from: Name, nftContract: Name, id: nat, assets: seq<Asset>): Outcome {
    if id !in s.booths then Abort(RecordNotFound) else
    var b := s.booths[id];
    if !b.enabled then Abort(StatusError)
    else if b.nftContract != nftContract then Abort(DataMismatch)
    else if b.owner != from then Abort(NoAuth)
    else if assets != [] && assets[0].amount <= 0 then Abort(NotPositive)
    else if assets != [] && id !in s.boxes then Abort(RecordNotFound)
    else match PutAll(if id in s.boxes then s.boxes[id] else [], assets)
      case Refused(why) => Abort(why)
      case Stocked(box, entries, nfts) =>
        if b.boxNum + entries > s.maxBoxes then Abort(Oversized)
        else
          var c := b.(boxNum := b.boxNum + entries, nftNum := b.nftNum + nfts, nftSum := b.nftSum + nfts);
          Done(s.(booths := s.booths[id := c], boxes := if id in s.boxes then s.boxes[id := box] else s.boxes), [])
  }

  function AsGoods(box: Box): seq<Goods> {
    seq(|box|, k requires 0 <= k < |box| => Goods(box[k].symbol, box[k].count))
  }

  function Close(s: State, owner: Name, id: nat): Outcome {
    if id !in s.booths then Abort(RecordNotFound)
    else if !s.booths[id].enabled then Abort(StatusError)
    else if s.booths[id].owner != owner then Abort(NoAuth)
    else if id !in s.boxes then Abort(RecordNotFound)
    else
      Done(s.(booths := s.booths - {id}, boxes := s.boxes - {id}),
           if s.boxes[id] != [] then [GoodsTo(owner, AsGoods(s.boxes[id]))] else [])
  }

  /** The new booth's id is fresh, and the record layer refuses to modify a row that is not there. */
  function CreateBooth(s: State, now: nat, b: Booth): Outcome {
    if b.price == 0 then Abort(ParamError)
    else if b.closedAt <= now then Abort(ParamError)
    else
      var id := s.lastBoothId + 1;
      if id !in s.booths then Abort(RecordNotFound)
      else Done(s.(lastBoothId := id,
                   booths := s.booths[id := b.(fundRecd := 0, boxNum := 0, nftNum := 0, nftSum := 0,
                                               enabled := true)]), [])
  }

  function EnableBooth(s: State, owner: Name, id: nat, enabled: bool): Outcome {
    if id !in s.booths then Abort(RecordNotFound)
    else if s.booths[id].owner != owner then Abort(NoAuth)
    else if s.booths[id].enabled == enabled then Abort(StatusError)
    else Done(s.(booths := s.booths[id := s.booths[id].(enabled := enabled)]), [])
  }

  function SetBoothTime(s: State, now: nat, owner: Name, id: nat, openedAt: nat, closedAt: nat): Outcome {
    if id !in s.booths then Abort(RecordNotFound)
    else if s.booths[id].owner != owner then Abort(NoAuth)
    else if !(openedAt < closedAt && closedAt > now) then Abort(ParamError)
    else Done(s.(booths := s.booths[id := s.booths[id].(openedAt := openedAt, closedAt := closedAt)]), [])
  }

  datatype Action =
    | DoCreate(booth: Booth)
    | DoEnable(owner: Name, id: nat, enabled: bool)
    | DoSetTime(owner: Name, id: nat, openedAt: nat, closedAt: nat)
    | DoDeposit(from: Name, nftContract: Name, id: nat, assets: seq<Asset>)
    | DoBuy(from: Name, fund: Token, quantity: nat, id: nat, draws: seq<seq<nat>>)
    | DoClose(owner: Name, id: nat)

  datatype Call = Call(now: nat, action: Action)

  ghost function Step(s: State, c: Call): Outcome {
    match c.action
    case DoCreate(booth) => CreateBooth(s, c.now, booth)
    case DoEnable(owner, id, enabled) => EnableBooth(s, owner, id, enabled)
    case DoSetTime(owner, id, openedAt, closedAt) => SetBoothTime(s, c.now, owner, id, openedAt, closedAt)
    case DoDeposit(from, nftContract, id, assets) => Deposit(s, from, nftContract, id, assets)
    case DoBuy(from, fund, quantity, id, draws) => Buy(s, c.now, from, fund, quantity, id, draws)
    case DoClose(owner, id) => Close(s, owner, id)
  }

  ghost function After(s: State, c: Call): State {
    match Step(s, c) case Done(t, _) => t case Abort(_) => s
  }

  ghost function Run(s: State, calls: seq<Call>): State {
    if calls == [] then s else After(Run(s, calls[..|calls| - 1]), calls[|calls| - 1])
  }
}
