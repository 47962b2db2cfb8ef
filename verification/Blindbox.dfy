/** The flon.blindbox contract: its tables as fields, its actions as methods that update them in
    place. Every method is proved to do exactly what BlindboxSpec says. */
module Blindbox {
  import opened Tables
  import opened Ledger
  import opened BlindboxSpec
  import opened BlindboxSafety

  datatype Receipt = Committed(events: seq<Event>) | Aborted(why: Failure)

  /** The action had this outcome: on an abort nothing was written. */
  ghost predicate Did(before: State, o: Outcome, r: Receipt, after: State) {
    match o
    case Done(t, events) => r == Committed(events) && after == t
    case Abort(why) => r == Aborted(why) && after == before
  }

  lemma DidKeeps(before: State, c: Call, r: Receipt, after: State)
    requires Inv(before) && Did(before, Step(before, c), r, after)
    ensures Inv(after)
  {
    StepKeeps(before, c);
  }

  // ---------- the ticket ----------

  /** `_rand` over the hash and its rehashes in order; None when all of them are rejected. A ticket is
      always in 1..range. */
  method Rand(range: nat, hashes: seq<nat>) returns (ticket: Option<nat>)
    requires 0 < range
    ensures ticket == match FirstAccepted(hashes, range)
                      case None => None
                      case Some(seed) => Some(Ticket(seed, range))
    ensures ticket.Some? ==> 1 <= ticket.value <= range
  {
    var limit := TWO64 - 1 - (TWO64 - 1) % range;
    var k := 0;
    assert hashes[0..] == hashes;
    while k < |hashes| && hashes[k] > limit
      invariant k <= |hashes| && FirstAccepted(hashes[k..], range) == FirstAccepted(hashes, range)
    {
      assert hashes[k..][0] == hashes[k] && hashes[k..][1..] == hashes[k + 1..];
      k := k + 1;
    }
    if k == |hashes| { return None; }
    assert hashes[k..][0] == hashes[k];
    return Some(hashes[k] % range + 1);
  }

  // ---------- the box ----------

  /** The walk of `_one_nft`, accumulating the counts until they reach the ticket. */
  method WalkBox(box: Box, ticket: nat) returns (i: nat)
    ensures i == Walk(box, ticket)
  {
    i := 0;
    var currNum := 0;
    assert box[0..] == box;
    while i < |box|
      invariant i <= |box| && Walk(box, ticket) == i + Walk(box[i..], ticket - currNum)
    {
      assert box[i..][0] == box[i] && box[i..][1..] == box[i + 1..];
      currNum := currNum + box[i].count;
      if ticket <= currNum { break; }
      i := i + 1;
    }
  }

  /** `_one_nft` on a booth and its box. */
  method OneNft(b: Booth, box: Box, hashes: seq<nat>) returns (d: Draw)
    ensures d == BlindboxSpec.OneNft(b, box, hashes)
  {
    if b.nftNum == 0 { return Missed(PastTheEnd); }
    var randIndex := Rand(b.nftNum, hashes);
    if randIndex.None? { return Missed(HashesRunOut); }
    var i := WalkBox(box, randIndex.value);
    if i == |box| || box[i].count == 0 || b.boxNum == 0 { return Missed(PastTheEnd); }
    var nft := box[i].symbol;
    var left := box[i := Entry(nft, box[i].count - 1)];
    var c := b.(nftNum := b.nftNum - 1);
    if left[i].count == 0 {
      left := left[..i] + left[i + 1..];
      c := c.(boxNum := c.boxNum - 1);
    }
    return Drawn(c, left, nft);
  }

  /** The collected goods, in key order. */
  method Listed(bought: map<nat, Goods>) returns (goods: seq<Goods>)
    ensures goods == InOrder(bought, bought.Keys)
  {
    goods := [];
    var keys := bought.Keys;
    while keys != {}
      invariant keys <= bought.Keys && goods + InOrder(bought, keys) == InOrder(bought, bought.Keys)
      decreases |keys|
    {
      var k := Smallest(keys);
      assert goods + ([bought[k]] + InOrder(bought, keys - {k})) == goods + [bought[k]] + InOrder(bought, keys - {k});
      goods := goods + [bought[k]];
      keys := keys - {k};
    }
  }

  lemma {:induction false} PutIsUpdate(box: Box, i: nat, s: NSymbol, amount: nat)
    requires Sorted(box) && i < |box| && box[i].symbol == s
    ensures Put(box, s, amount) == box[i := Entry(s, box[i].count + amount)]
    decreases |box|
  {
    if i != 0 {
      var rest := box[1..];
      assert rest[i - 1] == box[i] && Sorted(rest) && Raw(box[0].symbol) < Raw(s);
      PutIsUpdate(rest, i - 1, s, amount);
    }
  }

  lemma {:induction false} PutIsInsert(box: Box, i: nat, s: NSymbol, amount: nat)
    requires i <= |box| && forall k :: 0 <= k < i ==> Raw(box[k].symbol) < Raw(s)
    requires i < |box| ==> Raw(s) < Raw(box[i].symbol)
    ensures Put(box, s, amount) == box[..i] + [Entry(s, amount)] + box[i..]
    decreases |box|
  {
    if i != 0 {
      var rest := box[1..];
      PutIsInsert(rest, i - 1, s, amount);
      assert rest[i - 1..] == box[i..];
      OntoFront(box[0], rest[..i - 1], Entry(s, amount), rest[i - 1..]);
      assert [box[0]] + rest[..i - 1] == box[..i];
    }
  }

  lemma OntoFront<T>(h: T, a: seq<T>, x: T, b: seq<T>)
    ensures [h] + (a + [x] + b) == [h] + a + [x] + b
  {
  }

  lemma GapHasNot(box: Box, i: nat, s: NSymbol)
    requires Sorted(box) && i <= |box| && forall k :: 0 <= k < i ==> Raw(box[k].symbol) < Raw(s)
    requires i < |box| ==> Raw(s) < Raw(box[i].symbol)
    ensures !Has(box, s)
  {
    forall k | 0 <= k < |box| ensures box[k].symbol != s {
      if k > i { assert Raw(box[i].symbol) < Raw(box[k].symbol); }
      assert Raw(box[k].symbol) != Raw(s);
    }
  }

  lemma PutStaysOrdered(box: Box, s: NSymbol, amount: nat)
    requires Positive(box) && Sorted(box) && amount > 0
    ensures Positive(Put(box, s, amount)) && Sorted(Put(box, s, amount))
  {
    PutLength(box, s, amount);
    PutSorted(box, s, amount);
  }

  /** Finding a symbol in the map and adding to its count, or inserting it. */
  method PutInto(box: Box, s: NSymbol, amount: nat) returns (after: Box, isNew: bool)
    requires Positive(box) && Sorted(box) && amount > 0
    ensures after == Put(box, s, amount) && isNew == !Has(box, s)
    ensures Positive(after) && Sorted(after)
  {
    PutStaysOrdered(box, s, amount);
    var i := 0;
    while i < |box| && Raw(box[i].symbol) < Raw(s)
      invariant i <= |box| && forall k :: 0 <= k < i ==> Raw(box[k].symbol) < Raw(s)
    {
      i := i + 1;
    }
    if i < |box| && box[i].symbol == s {
      PutIsUpdate(box, i, s, amount);
      return box[i := Entry(s, box[i].count + amount)], false;
    }
    if i < |box| { RawIsInjective(s, box[i].symbol); }
    PutIsInsert(box, i, s, amount);
    GapHasNot(box, i, s);
    return box[..i] + [Entry(s, amount)] + box[i..], true;
  }

  /** The loop of draws. */
  method DrawNfts(b: Booth, box: Box, draws: seq<seq<nat>>) returns (h: Haul)
    ensures h == DrawAll(b, box, draws)
  {
    var c, left, symbols := b, box, [];
    assert draws[0..] == draws;
    for k := 0 to |draws|
      invariant DrawAll(b, box, draws) == After(symbols, DrawAll(c, left, draws[k..]))
    {
      assert draws[k..][0] == draws[k] && draws[k..][1..] == draws[k + 1..];
      var d := OneNft(c, left, draws[k]);
      if d.Missed? { return Failed(d.why); }
      ghost var rest := DrawAll(d.booth, d.box, draws[k + 1..]);
      assert rest.Haul? ==> symbols + ([d.symbol] + rest.symbols) == symbols + [d.symbol] + rest.symbols;
      c, left, symbols := d.booth, d.box, symbols + [d.symbol];
    }
    assert draws[|draws|..] == [] && symbols + [] == symbols;
    return Haul(c, left, symbols);
  }

  ghost function After(symbols: seq<NSymbol>, h: Haul): Haul {
    match h case Failed(why) => Failed(why) case Haul(b, box, more) => Haul(b, box, symbols + more)
  }

  /** Collecting the drawn symbols into the map of what was bought. */
  method CollectNfts(symbols: seq<NSymbol>) returns (bought: Option<map<nat, Goods>>)
    ensures bought == Collect(map[], symbols)
  {
    var goods: map<nat, Goods> := map[];
    assert symbols[0..] == symbols;
    for k := 0 to |symbols|
      invariant Collect(goods, symbols[k..]) == Collect(map[], symbols)
    {
      var y := symbols[k];
      assert symbols[k..][0] == y && symbols[k..][1..] == symbols[k + 1..];
      if y.id !in goods {
        goods := goods[y.id := Goods(y, 1)];
      } else {
        if goods[y.id].symbol != y { return None; }
        goods := goods[y.id := Goods(y, goods[y.id].amount + 1)];
      }
    }
    return Some(goods);
  }

  method DeliverNfts(b: Booth, box: Box, draws: seq<seq<nat>>) returns (d: Delivery)
    ensures d == Deliver(b, box, draws)
  {
    var h := DrawNfts(b, box, draws);
    if h.Failed? { return Undelivered(h.why); }
    var bought := CollectNfts(h.symbols);
    if bought.None? { return Undelivered(SymbolMismatch); }
    var goods := Listed(bought.value);
    return Delivered(h.booth, h.box, goods);
  }

  /** What a stock is once earlier additions are counted in. */
  ghost function Combine(s: Stock, entries: nat, nfts: nat): Stock {
    match s case Refused(why) => Refused(why) case Stocked(box, e, n) => Stocked(box, e + entries, n + nfts)
  }

  lemma NextAsset(box: Box, assets: seq<Asset>, k: nat, entries: nat, nfts: nat)
    requires k < |assets|
    ensures var a := assets[k];
            Combine(PutAll(box, assets[k..]), entries, nfts) ==
            if a.amount <= 0 then Refused(NotPositive)
            else Combine(PutAll(Put(box, a.symbol, a.amount), assets[k + 1..]),
                         entries + if Has(box, a.symbol) then 0 else 1, nfts + a.amount)
  {
    assert assets[k..][0] == assets[k] && assets[k..][1..] == assets[k + 1..];
  }

  /** The loop over the assets sent, counting new entries and new NFTs. */
  method PutAssets(box: Box, assets: seq<Asset>) returns (stock: Stock)
    requires Positive(box) && Sorted(box)
    ensures stock == PutAll(box, assets)
  {
    var after := box;
    var entries: nat, nfts: nat := 0, 0;
    assert assets[0..] == assets;
    var k := 0;
    while k < |assets| && assets[k].amount > 0
      invariant k <= |assets| && Positive(after) && Sorted(after)
      invariant PutAll(box, assets) == Combine(PutAll(after, assets[k..]), entries, nfts)
    {
      var nft := assets[k];
      NextAsset(after, assets, k, entries, nfts);
      var isNew;
      after, isNew := PutInto(after, nft.symbol, nft.amount);
      if isNew { entries := entries + 1; }
      nfts := nfts + nft.amount;
      k := k + 1;
    }
    if k < |assets| {
      NextAsset(after, assets, k, entries, nfts);
      return Refused(NotPositive);
    }
    assert assets[|assets|..] == [];
    return Stocked(after, entries, nfts);
  }

  class BlindboxContract {
    const self: Name
    var distributor: Name
    var maxBoxes: nat
    var maxPurchase: nat
    var lastBoothId: nat
    var booths: map<nat, Booth>
    var boxes: map<nat, Box>

    ghost function Now(): State
      reads this
    {
      State(self, distributor, maxBoxes, maxPurchase, lastBoothId, booths, boxes)
    }

    constructor (self: Name, distributor: Name)
      ensures Now() == State(self, distributor, 30, 10, 0, map[], map[]) && Inv(Now())
    {
      this.self, this.distributor, maxBoxes, maxPurchase, lastBoothId := self, distributor, 30, 10, 0;
      booths, boxes := map[], map[];
    }

    method CreateBooth(now: nat, b: Booth) returns (r: Receipt)
      modifies this
      ensures Did(old(Now()), BlindboxSpec.CreateBooth(old(Now()), now, b), r, Now())
    {
      if b.price == 0 { return Aborted(ParamError); }
      if b.closedAt <= now { return Aborted(ParamError); }
      var id := lastBoothId + 1;
      if id !in booths { return Aborted(RecordNotFound); }
      lastBoothId := id;
      booths := booths[id := b.(fundRecd := 0, boxNum := 0, nftNum := 0, nftSum := 0, enabled := true)];
      return Committed([]);
    }

    method EnableBooth(owner: Name, id: nat, enabled: bool) returns (r: Receipt)
      modifies this
      ensures Did(old(Now()), BlindboxSpec.EnableBooth(old(Now()), owner, id, enabled), r, Now())
    {
      if id !in booths { return Aborted(RecordNotFound); }
      if booths[id].owner != owner { return Aborted(NoAuth); }
      if booths[id].enabled == enabled { return Aborted(StatusError); }
      booths := booths[id := booths[id].(enabled := enabled)];
      return Committed([]);
    }

    method SetBoothTime(now: nat, owner: Name, id: nat, openedAt: nat, closedAt: nat) returns (r: Receipt)
      modifies this
      ensures Did(old(Now()), BlindboxSpec.SetBoothTime(old(Now()), now, owner, id, openedAt, closedAt), r, Now())
    {
      if id !in booths { return Aborted(RecordNotFound); }
      if booths[id].owner != owner { return Aborted(NoAuth); }
      if !(openedAt < closedAt && closedAt > now) { return Aborted(ParamError); }
      booths := booths[id := booths[id].(openedAt := openedAt, closedAt := closedAt)];
      return Committed([]);
    }

    /** Stocking a booth: the loop over the assets, and the counters once at the end. */
    method OnTransferNtoken(from: Name, nftContract: Name, id: nat, assets: seq<Asset>) returns (r: Receipt)
      requires id in boxes ==> Positive(boxes[id]) && Sorted(boxes[id])
      modifies this
      ensures Did(old(Now()), Deposit(old(Now()), from, nftContract, id, assets), r, Now())
    {
      if id !in booths { return Aborted(RecordNotFound); }
      var b := booths[id];
      if !b.enabled { return Aborted(StatusError); }
      if b.nftContract != nftContract { return Aborted(DataMismatch); }
      if b.owner != from { return Aborted(NoAuth); }
      var box: Box := [];
      if assets != [] {
        if assets[0].amount <= 0 { return Aborted(NotPositive); }
        if id !in boxes { return Aborted(RecordNotFound); }
      }
      if id in boxes { box := boxes[id]; }
      var stock := PutAssets(box, assets);
      if stock.Refused? { return Aborted(stock.why); }
      if b.boxNum + stock.newEntries > maxBoxes { return Aborted(Oversized); }
      booths := booths[id := b.(boxNum := b.boxNum + stock.newEntries, nftNum := b.nftNum + stock.newNfts,
                                nftSum := b.nftSum + stock.newNfts)];
      if id in boxes { boxes := boxes[id := stock.box]; }
      return Committed([]);
    }

    /** The purchase: the payment is booked, then one draw after another updates booth and box. */
    method OnTransferToken(now: nat, from: Name, fund: Token, quantity: nat, id: nat, draws: seq<seq<nat>>)
      returns (r: Receipt)
      modifies this
      ensures Did(old(Now()), Buy(old(Now()), now, from, fund, quantity, id, draws), r, Now())
    {
      if id !in booths { return Aborted(RecordNotFound); }
      var b := booths[id];
      if !b.enabled { return Aborted(StatusError); }
      if !(b.openedAt <= now && b.closedAt >= now) { return Aborted(StatusError); }
      if b.fund.bank != fund.bank { return Aborted(DataMismatch); }
      if b.fund.symbol != fund.symbol { return Aborted(SymbolMismatch); }
      if b.nftNum == 0 { return Aborted(Oversized); }
      if b.price == 0 { return Aborted(ParamError); }
      var count := quantity / b.price;
      if !(count > 0 && count <= b.nftNum && count <= maxPurchase) { return Aborted(ParamError); }
      var paid := b.price * count;
      var left := quantity - paid;
      if b.fundRecd + paid > MAX_AMOUNT { return Aborted(AssetOverflow); }
      b := b.(fundRecd := b.fundRecd + paid);
      if distributor == self { return Aborted(TransferRefused); }
      if id !in boxes { return Aborted(RecordNotFound); }
      var d := DeliverNfts(b, boxes[id], FirstDraws(draws, count));
      if d.Undelivered? { return Aborted(d.why); }
      booths, boxes := booths[id := d.booth], boxes[id := d.box];
      var change: seq<Event> := if left > 0 then [ChangeTo(from, left)] else [];
      return Committed([FundsTo(distributor, paid)] + change + [GoodsTo(from, d.goods)]);
    }

    method CloseBooth(owner: Name, id: nat) returns (r: Receipt)
      modifies this
      ensures Did(old(Now()), Close(old(Now()), owner, id), r, Now())
    {
      if id !in booths { return Aborted(RecordNotFound); }
      if !booths[id].enabled { return Aborted(StatusError); }
      if booths[id].owner != owner { return Aborted(NoAuth); }
      if id !in boxes { return Aborted(RecordNotFound); }
      var box := boxes[id];
      var refund: seq<Goods> := [];
      for k := 0 to |box|
        invariant refund == AsGoods(box[..k])
      {
        assert AsGoods(box[..k + 1]) == AsGoods(box[..k]) + [Goods(box[k].symbol, box[k].count)];
        refund := refund + [Goods(box[k].symbol, box[k].count)];
      }
      assert box[..|box|] == box;
      boxes, booths := boxes - {id}, booths - {id};
      if |refund| > 0 { return Committed([GoodsTo(owner, refund)]); }
      return Committed([]);
    }

    /** Any call at all: it takes exactly the step of the state machine, so the invariant survives. */
    method Apply(c: Call) returns (r: Receipt)
      requires Inv(Now())
      modifies this
      ensures Inv(Now()) && Did(old(Now()), Step(old(Now()), c), r, Now())
    {
      ghost var before := Now();
      match c.action {
        case DoCreate(booth) => r := CreateBooth(c.now, booth);
        case DoEnable(owner, id, enabled) => r := EnableBooth(owner, id, enabled);
        case DoSetTime(owner, id, openedAt, closedAt) => r := SetBoothTime(c.now, owner, id, openedAt, closedAt);
        case DoDeposit(from, nftContract, id, assets) => r := OnTransferNtoken(from, nftContract, id, assets);
        case DoBuy(from, fund, quantity, id, draws) => r := OnTransferToken(c.now, from, fund, quantity, id, draws);
        case DoClose(owner, id) => r := CloseBooth(owner, id);
      }
      DidKeeps(before, c, r, Now());
    }
  }
}
