/** Exactly when each action of flon.blindbox goes through and what it does; for a purchase, draw by draw
    from the hashes. */
module BlindboxEffects {
  import opened Arithmetic
  import opened Tables
  import opened Ledger
  import opened BlindboxSpec
  import opened BlindboxSafety

  // ---------- one draw ----------

  /** A 64-bit hash that `_rand` keeps: at most the largest of 64 bits less its remainder by the range. */
  predicate Kept(hash: nat, range: nat)
    requires range > 0
  {
    hash <= 0xffff_ffff_ffff_ffff - 0xffff_ffff_ffff_ffff % range
  }

  /** The seed is the first hash kept. */
  predicate FirstKept(hashes: seq<nat>, range: nat, seed: nat)
    requires range > 0
  {
    exists k :: 0 <= k < |hashes| && KeptAt(hashes, range, k) && hashes[k] == seed
  }

  predicate KeptAt(hashes: seq<nat>, range: nat, k: nat)
    requires range > 0 && k < |hashes|
  {
    Kept(hashes[k], range) && forall j :: 0 <= j < k ==> !Kept(hashes[j], range)
  }

  predicate NoneKept(hashes: seq<nat>, range: nat)
    requires range > 0
  {
    forall j :: 0 <= j < |hashes| ==> !Kept(hashes[j], range)
  }

  lemma {:induction false} FirstAcceptedIs(hashes: seq<nat>, range: nat, seed: nat)
    requires range > 0
    ensures FirstAccepted(hashes, range) == Some(seed) <==> FirstKept(hashes, range, seed)
    ensures FirstAccepted(hashes, range) == None <==> NoneKept(hashes, range)
    decreases |hashes|
  {
    if hashes != [] {
      var rest := hashes[1..];
      if Kept(hashes[0], range) {
        assert KeptAt(hashes, range, 0);
        assert FirstAccepted(hashes, range) == Some(hashes[0]);
      } else {
        FirstAcceptedIs(rest, range, seed);
        if FirstKept(rest, range, seed) {
          var k :| 0 <= k < |rest| && KeptAt(rest, range, k) && rest[k] == seed;
          assert forall j :: 1 <= j <= k ==> hashes[j] == rest[j - 1];
          assert KeptAt(hashes, range, k + 1);
        }
        if FirstKept(hashes, range, seed) {
          var k :| 0 <= k < |hashes| && KeptAt(hashes, range, k) && hashes[k] == seed;
          assert k > 0 && forall j :: 0 <= j < k ==> rest[j] == hashes[j + 1];
          assert KeptAt(rest, range, k - 1);
        }
      }
    }
  }

  /** The ticket falls into entry i: past all entries before it, and not past its own count. */
  predicate FallsInto(box: Box, ticket: int, i: nat)
    requires i < |box|
  {
    Total(box[..i]) < ticket <= Total(box[..i]) + box[i].count
  }

  lemma {:induction false} WalkIs(box: Box, ticket: int, i: nat)
    requires ticket > 0 && i < |box|
    ensures Walk(box, ticket) == i <==> FallsInto(box, ticket, i)
    decreases |box|
  {
    if i > 0 {
      var rest := box[1..];
      assert box[..i][1..] == rest[..i - 1] && box[..i][0] == box[0];
      if ticket > box[0].count { WalkIs(rest, ticket - box[0].count, i - 1); }
    }
  }

  /** The box less one of entry i, whose last one takes the entry with it. */
  function OneLess(box: Box, i: nat): Box
    requires i < |box| && box[i].count > 0
  {
    var e := box[i];
    box[..i] + (if e.count > 1 then [e.(count := e.count - 1)] else []) + box[i + 1..]
  }

  /** y is sold out of the box and leaves `next`: the seed is the first hash kept, and its remainder by the
      range, plus one, is the ticket that falls into an entry of y. */
  ghost predicate Sold(box: Box, range: nat, hashes: seq<nat>, y: NSymbol, next: Box)
    requires range > 0
  {
    exists seed: nat, i: nat :: SoldAt(box, range, hashes, y, next, seed, i)
  }

  predicate SoldAt(box: Box, range: nat, hashes: seq<nat>, y: NSymbol, next: Box, seed: nat, i: nat)
    requires range > 0
  {
    && FirstKept(hashes, range, seed)
    && i < |box| && FallsInto(box, seed % range + 1, i)
    && y == box[i].symbol && next == OneLess(box, i)
  }

  lemma OneLessIs(box: Box, i: nat)
    requires i < |box| && box[i].count > 0
    ensures TakeOne(box, i) == OneLess(box, i)
  {
  }

  lemma SoldIs(box: Box, range: nat, hashes: seq<nat>, y: NSymbol, next: Box)
    requires range == Total(box) > 0 && Positive(box)
    ensures Sold(box, range, hashes, y, next) <==>
            && FirstAccepted(hashes, range).Some?
            && var i := Walk(box, Ticket(FirstAccepted(hashes, range).value, range));
               i < |box| && y == box[i].symbol && next == OneLess(box, i)
  {
    if Sold(box, range, hashes, y, next) {
      var seed: nat, i: nat :| SoldAt(box, range, hashes, y, next, seed, i);
      FirstAcceptedIs(hashes, range, seed);
      WalkIs(box, Ticket(seed, range), i);
    }
    if FirstAccepted(hashes, range).Some? {
      var seed := FirstAccepted(hashes, range).value;
      var i := Walk(box, Ticket(seed, range));
      FirstAcceptedIs(hashes, range, seed);
      if i < |box| {
        WalkIs(box, Ticket(seed, range), i);
        assert y == box[i].symbol && next == OneLess(box, i) ==> SoldAt(box, range, hashes, y, next, seed, i);
      }
    }
  }

  lemma SoldIff(b: Booth, box: Box, hashes: seq<nat>, n: nat, y: NSymbol, next: Box)
    requires Owed(b, box, n) && n > 0
    ensures Sold(box, b.nftNum, hashes, y, next) <==>
            OneNft(b, box, hashes).Drawn? && OneNft(b, box, hashes).symbol == y && OneNft(b, box, hashes).box == next
  {
    SoldIs(box, b.nftNum, hashes, y, next);
    if FirstAccepted(hashes, b.nftNum).Some? {
      var ticket := Ticket(FirstAccepted(hashes, b.nftNum).value, b.nftNum);
      WalkStops(box, ticket);
      OneLessIs(box, Walk(box, ticket));
      PickIs(b, box, ticket);
    }
  }

  lemma PickIs(b: Booth, box: Box, ticket: nat)
    requires Positive(box) && b.nftNum > 0 && b.boxNum == |box| && Walk(box, ticket) < |box|
    ensures Pick(b, box, ticket).Drawn? && Pick(b, box, ticket).symbol == box[Walk(box, ticket)].symbol
    ensures Pick(b, box, ticket).box == TakeOne(box, Walk(box, ticket))
  {
  }

  // ---------- all draws of a purchase ----------

  /** The symbols are drawn one after the other, the k-th out of boxes[k] by the k-th hashes, with n - k
      outcomes. */
  ghost predicate Trace(n: nat, draws: seq<seq<nat>>, boxes: seq<Box>, symbols: seq<NSymbol>) {
    && |boxes| == |symbols| + 1 && |symbols| <= |draws| && |symbols| <= n
    && forall k :: 0 <= k < |symbols| ==> Sold(boxes[k], n - k, draws[k], symbols[k], boxes[k + 1])
  }

  lemma TraceRest(n: nat, draws: seq<seq<nat>>, boxes: seq<Box>, symbols: seq<NSymbol>)
    requires n > 0 && |boxes| == |symbols| + 1 && symbols != [] && draws != []
    ensures Trace(n, draws, boxes, symbols) <==>
            && Sold(boxes[0], n, draws[0], symbols[0], boxes[1])
            && Trace(n - 1, draws[1..], boxes[1..], symbols[1..])
  {
    var c, r, y := boxes[1..], draws[1..], symbols[1..];
    if Trace(n, draws, boxes, symbols) {
      forall k | 0 <= k < |y| ensures Sold(c[k], n - 1 - k, r[k], y[k], c[k + 1]) {
        assert Sold(boxes[k + 1], n - (k + 1), draws[k + 1], symbols[k + 1], boxes[k + 2]);
      }
    }
    if Sold(boxes[0], n, draws[0], symbols[0], boxes[1]) && Trace(n - 1, r, c, y) {
      forall k | 0 <= k < |symbols| ensures Sold(boxes[k], n - k, draws[k], symbols[k], boxes[k + 1]) {
        if k > 0 { assert Sold(c[k - 1], n - 1 - (k - 1), r[k - 1], y[k - 1], c[k]); }
      }
    }
  }

  lemma TraceExtends(n: nat, draws: seq<seq<nat>>, box: Box, y: NSymbol, boxes: seq<Box>, symbols: seq<NSymbol>)
    requires n > 0 && draws != [] && Trace(n - 1, draws[1..], boxes, symbols)
    requires Sold(box, n, draws[0], y, boxes[0])
    ensures Trace(n, draws, [box] + boxes, [y] + symbols)
  {
    var c, ys := [box] + boxes, [y] + symbols;
    assert c[1..] == boxes && ys[1..] == symbols && c[1] == boxes[0];
    TraceRest(n, draws, c, ys);
  }

  lemma TraceOfPrefix(n: nat, draws: seq<seq<nat>>, count: nat, boxes: seq<Box>, symbols: seq<NSymbol>)
    requires |symbols| == count <= |draws|
    ensures Trace(n, draws[..count], boxes, symbols) <==> Trace(n, draws, boxes, symbols)
  {
    assert forall k :: 0 <= k < count ==> draws[..count][k] == draws[k];
  }

  lemma FirstOfTrace(b: Booth, draws: seq<seq<nat>>, boxes: seq<Box>, symbols: seq<NSymbol>) returns (c: Booth)
    requires boxes != [] && Owed(b, boxes[0], |draws|) && |symbols| == |draws| > 0
    requires Trace(b.nftNum, draws, boxes, symbols)
    ensures c == b.(nftNum := b.nftNum - 1, boxNum := |boxes[1]|) && Owed(c, boxes[1], |draws| - 1)
    ensures Trace(c.nftNum, draws[1..], boxes[1..], symbols[1..])
    ensures OneNft(b, boxes[0], draws[0]) == Drawn(c, boxes[1], symbols[0])
  {
    TraceRest(b.nftNum, draws, boxes, symbols);
    OneNftDraws(b, boxes[0], draws[0], |draws|);
    SoldIff(b, boxes[0], draws[0], |draws|, symbols[0], boxes[1]);
    c := OneNft(b, boxes[0], draws[0]).booth;
  }

  /** A trace is the haul of its draws. */
  lemma {:induction false} HaulOfTrace(b: Booth, draws: seq<seq<nat>>, boxes: seq<Box>, symbols: seq<NSymbol>)
    requires boxes != [] && Owed(b, boxes[0], |draws|) && |symbols| == |draws|
    requires Trace(b.nftNum, draws, boxes, symbols)
    ensures DrawAll(b, boxes[0], draws) ==
            Haul(b.(nftNum := b.nftNum - |symbols|, boxNum := |boxes[|symbols|]|), boxes[|symbols|], symbols)
    decreases |draws|
  {
    if draws != [] {
      var c := FirstOfTrace(b, draws, boxes, symbols);
      HaulOfTrace(c, draws[1..], boxes[1..], symbols[1..]);
      assert symbols == [symbols[0]] + symbols[1..];
    }
  }

  lemma FirstOfHaul(b: Booth, box: Box, draws: seq<seq<nat>>) returns (c: Booth, y: NSymbol, left: Box)
    requires Owed(b, box, |draws|) && draws != [] && DrawAll(b, box, draws).Haul?
    ensures Sold(box, b.nftNum, draws[0], y, left) && Owed(c, left, |draws| - 1) && c.nftNum == b.nftNum - 1
    ensures DrawAll(c, left, draws[1..]).Haul?
  {
    var d := OneNft(b, box, draws[0]);
    OneNftDraws(b, box, draws[0], |draws|);
    c, y, left := d.booth, d.symbol, d.box;
    SoldIff(b, box, draws[0], |draws|, y, left);
  }

  /** A haul has a trace. */
  lemma {:induction false} TraceOfHaul(b: Booth, box: Box, draws: seq<seq<nat>>)
    returns (boxes: seq<Box>, symbols: seq<NSymbol>)
    requires Owed(b, box, |draws|) && DrawAll(b, box, draws).Haul?
    ensures |symbols| == |draws| && Trace(b.nftNum, draws, boxes, symbols) && boxes[0] == box
    decreases |draws|
  {
    if draws == [] {
      boxes, symbols := [box], [];
    } else {
      var c, y, left := FirstOfHaul(b, box, draws);
      var rest, ys := TraceOfHaul(c, left, draws[1..]);
      TraceExtends(b.nftNum, draws, box, y, rest, ys);
      boxes, symbols := [box] + rest, [y] + ys;
    }
  }

  /** Some draw of the first `count` has no hash that is kept. */
  ghost predicate RunsOut(n: nat, draws: seq<seq<nat>>, count: nat)
    requires count <= n
  {
    exists k :: 0 <= k < count && Stuck(n, draws, k)
  }

  predicate Stuck(n: nat, draws: seq<seq<nat>>, k: nat)
    requires k < n
  {
    k >= |draws| || NoneKept(draws[k], n - k)
  }

  lemma RunsOutLater(n: nat, draws: seq<seq<nat>>)
    requires draws != [] && |draws| <= n
    ensures RunsOut(n, draws, |draws|) <==> NoneKept(draws[0], n) || RunsOut(n - 1, draws[1..], |draws| - 1)
  {
    var rest := draws[1..];
    if RunsOut(n, draws, |draws|) && !NoneKept(draws[0], n) {
      var k :| 0 <= k < |draws| && Stuck(n, draws, k);
      assert rest[k - 1] == draws[k] && Stuck(n - 1, rest, k - 1);
    }
    if RunsOut(n - 1, rest, |rest|) {
      var k :| 0 <= k < |rest| && Stuck(n - 1, rest, k);
      assert rest[k] == draws[k + 1] && Stuck(n, draws, k + 1);
    }
    if NoneKept(draws[0], n) { assert Stuck(n, draws, 0); }
  }

  lemma {:induction false} HaulFailsIff(b: Booth, box: Box, draws: seq<seq<nat>>)
    requires Owed(b, box, |draws|)
    ensures DrawAll(b, box, draws).Failed? <==> RunsOut(b.nftNum, draws, |draws|)
    decreases |draws|
  {
    if draws != [] {
      OneNftDraws(b, box, draws[0], |draws|);
      FirstAcceptedIs(draws[0], b.nftNum, 0);
      RunsOutLater(b.nftNum, draws);
      var d := OneNft(b, box, draws[0]);
      if d.Drawn? { HaulFailsIff(d.booth, d.box, draws[1..]); }
    }
  }

  /** No two different symbols share an id. */
  predicate NoClash(symbols: seq<NSymbol>) {
    forall j, k :: 0 <= j < k < |symbols| && symbols[j].id == symbols[k].id ==> symbols[j] == symbols[k]
  }

  predicate FitsIn(bought: map<nat, Goods>, symbols: seq<NSymbol>) {
    forall k :: 0 <= k < |symbols| && symbols[k].id in bought ==> bought[symbols[k].id].symbol == symbols[k]
  }

  lemma {:induction false} CollectedIff(bought: map<nat, Goods>, symbols: seq<NSymbol>)
    ensures Collect(bought, symbols).Some? <==> NoClash(symbols) && FitsIn(bought, symbols)
    decreases |symbols|
  {
    if symbols != [] {
      var y, rest := symbols[0], symbols[1..];
      if y.id !in bought || bought[y.id].symbol == y {
        var more := bought[y.id := Goods(y, if y.id in bought then bought[y.id].amount + 1 else 1)];
        CollectedIff(more, rest);
        assert Collect(bought, symbols) == Collect(more, rest);
        assert forall k :: 1 <= k < |symbols| ==> symbols[k] == rest[k - 1];
        if NoClash(symbols) && FitsIn(bought, symbols) {
          assert forall k :: 0 <= k < |rest| ==> rest[k] == symbols[k + 1];
          assert NoClash(rest) && FitsIn(more, rest);
        }
      }
    }
  }

  // ---------- purchases ----------

  /** A purchase of `count` NFTs passes the checks before its draws. */
  predicate Admitted(s: State, now: nat, fund: Token, quantity: nat, id: nat, count: nat) {
    && id in s.booths && id in s.boxes
    && var b := s.booths[id];
       && b.enabled && b.openedAt <= now <= b.closedAt && b.fund == fund
       && b.price > 0 && b.price * count <= quantity < b.price * count + b.price
       && 1 <= count <= b.nftNum && count <= s.maxPurchase
       && b.fundRecd + b.price * count <= MAX_AMOUNT && s.distributor != s.self
  }

  /** No other purchase completes. */
  lemma BuyNeeds(s: State, now: nat, from: Name, fund: Token, quantity: nat, id: nat, draws: seq<seq<nat>>)
    returns (count: nat)
    requires Buy(s, now, from, fund, quantity, id, draws).Done?
    ensures Admitted(s, now, fund, quantity, id, count)
  {
    var b := s.booths[id];
    count := Quotient(quantity, b.price);
    ChangeIsSmall(quantity, b.price);
  }

  lemma BuyDelivers(s: State, now: nat, from: Name, fund: Token, quantity: nat, id: nat, draws: seq<seq<nat>>,
                    count: nat, b: Booth, runs: seq<seq<nat>>)
    requires Inv(s) && Admitted(s, now, fund, quantity, id, count)
    requires b == s.booths[id].(fundRecd := s.booths[id].fundRecd + s.booths[id].price * count)
    requires runs == FirstDraws(draws, count)
    ensures Owed(b, s.boxes[id], count) && |runs| == count
    ensures Buy(s, now, from, fund, quantity, id, draws) ==
            match Deliver(b, s.boxes[id], runs)
            case Undelivered(why) => Abort(why)
            case Delivered(c, box, goods) =>
              Done(s.(booths := s.booths[id := c], boxes := s.boxes[id := box]),
                   [FundsTo(s.distributor, b.price * count)] + ChangeEvent(from, quantity - b.price * count)
                     + [GoodsTo(from, goods)])
  {
    var a := s.booths[id];
    DivUnique(quantity, a.price, count);
    TakingsAhead(a.price, a.nftSum - a.nftNum, count);
  }

  lemma SameRuns(n: nat, draws: seq<seq<nat>>, count: nat, runs: seq<seq<nat>>)
    requires runs == FirstDraws(draws, count) && count <= n
    ensures RunsOut(n, runs, count) <==> RunsOut(n, draws, count)
    ensures !RunsOut(n, draws, count) ==> |draws| >= count && runs == draws[..count]
  {
    forall k | 0 <= k < count ensures Stuck(n, runs, k) <==> Stuck(n, draws, k) {
      if k < |draws| { assert runs[k] == draws[k]; } else { assert runs[k] == []; }
    }
    if !RunsOut(n, draws, count) && |draws| < count {
      assert Stuck(n, draws, |draws|);
      assert false;
    }
  }

  /** A purchase runs into its time limit exactly when one of its draws has no hash that is kept. */
  lemma BuyRunsOutIff(s: State, now: nat, from: Name, fund: Token, quantity: nat, id: nat, draws: seq<seq<nat>>,
                      count: nat)
    requires Inv(s) && Admitted(s, now, fund, quantity, id, count)
    ensures Buy(s, now, from, fund, quantity, id, draws) == Abort(HashesRunOut) <==>
            RunsOut(s.booths[id].nftNum, draws, count)
  {
    var a := s.booths[id];
    var b, runs := a.(fundRecd := a.fundRecd + a.price * count), FirstDraws(draws, count);
    BuyDelivers(s, now, from, fund, quantity, id, draws, count, b, runs);
    DrawAllConserves(b, s.boxes[id], runs);
    HaulFailsIff(b, s.boxes[id], runs);
    SameRuns(b.nftNum, draws, count, runs);
  }

  /** Any other admitted purchase draws its symbols one by one out of the stored box. */
  lemma BuyHasTrace(s: State, now: nat, from: Name, fund: Token, quantity: nat, id: nat, draws: seq<seq<nat>>,
                    count: nat) returns (boxes: seq<Box>, symbols: seq<NSymbol>)
    requires Inv(s) && Admitted(s, now, fund, quantity, id, count)
    requires Buy(s, now, from, fund, quantity, id, draws) != Abort(HashesRunOut)
    ensures |symbols| == count && Trace(s.booths[id].nftNum, draws, boxes, symbols) && boxes[0] == s.boxes[id]
  {
    var a := s.booths[id];
    var b, runs := a.(fundRecd := a.fundRecd + a.price * count), FirstDraws(draws, count);
    BuyDelivers(s, now, from, fund, quantity, id, draws, count, b, runs);
    BuyRunsOutIff(s, now, from, fund, quantity, id, draws, count);
    HaulFailsIff(b, s.boxes[id], runs);
    SameRuns(b.nftNum, draws, count, runs);
    boxes, symbols := TraceOfHaul(b, s.boxes[id], runs);
    TraceOfPrefix(b.nftNum, draws, count, boxes, symbols);
  }

  /** An admitted purchase with a trace completes exactly unless two different symbols drawn share an id. */
  lemma BuyCompletesIff(s: State, now: nat, from: Name, fund: Token, quantity: nat, id: nat, draws: seq<seq<nat>>,
                        count: nat, boxes: seq<Box>, symbols: seq<NSymbol>)
    requires Inv(s) && Admitted(s, now, fund, quantity, id, count)
    requires |symbols| == count && Trace(s.booths[id].nftNum, draws, boxes, symbols) && boxes[0] == s.boxes[id]
    ensures Buy(s, now, from, fund, quantity, id, draws).Done? <==> NoClash(symbols)
    ensures Buy(s, now, from, fund, quantity, id, draws).Abort? ==>
              Buy(s, now, from, fund, quantity, id, draws).why == SymbolMismatch
  {
    var a := s.booths[id];
    var b, runs := a.(fundRecd := a.fundRecd + a.price * count), FirstDraws(draws, count);
    BuyDelivers(s, now, from, fund, quantity, id, draws, count, b, runs);
    assert runs == draws[..count];
    TraceOfPrefix(b.nftNum, draws, count, boxes, symbols);
    TraceDelivers(b, runs, boxes, symbols);
  }

  /** What is drawn is what is sold. The box is what the draws leave, the booth counts what is left, and the
      buyer is sent each symbol as often as it was drawn, after the takings and the change are paid. */
  lemma BuySellsTrace(s: State, now: nat, from: Name, fund: Token, quantity: nat, id: nat, draws: seq<seq<nat>>,
                      count: nat, boxes: seq<Box>, symbols: seq<NSymbol>) returns (goods: seq<Goods>)
    requires Inv(s) && Admitted(s, now, fund, quantity, id, count)
    requires |symbols| == count && Trace(s.booths[id].nftNum, draws, boxes, symbols) && boxes[0] == s.boxes[id]
    requires Buy(s, now, from, fund, quantity, id, draws).Done?
    ensures var b, paid := s.booths[id], s.booths[id].price * count;
            Buy(s, now, from, fund, quantity, id, draws) ==
              Done(s.(boxes := s.boxes[id := boxes[count]],
                      booths := s.booths[id := b.(fundRecd := b.fundRecd + paid, nftNum := b.nftNum - count,
                                                  boxNum := |boxes[count]|)]),
                   [FundsTo(s.distributor, paid)]
                     + (if quantity > paid then [ChangeTo(from, quantity - paid)] else []) + [GoodsTo(from, goods)])
    ensures forall y :: AmountOf(goods, y) == Occurrences(symbols, y)
  {
    var a := s.booths[id];
    var b, runs := a.(fundRecd := a.fundRecd + a.price * count), FirstDraws(draws, count);
    BuyDelivers(s, now, from, fund, quantity, id, draws, count, b, runs);
    assert runs == draws[..count];
    TraceOfPrefix(b.nftNum, draws, count, boxes, symbols);
    TraceDelivers(b, runs, boxes, symbols);
    goods := Deliver(b, s.boxes[id], runs).goods;
  }

  lemma TraceDelivers(b: Booth, draws: seq<seq<nat>>, boxes: seq<Box>, symbols: seq<NSymbol>)
    requires boxes != [] && Owed(b, boxes[0], |draws|) && |symbols| == |draws|
    requires Trace(b.nftNum, draws, boxes, symbols)
    ensures var d := Deliver(b, boxes[0], draws);
            && (d.Delivered? <==> NoClash(symbols)) && (d.Undelivered? ==> d.why == SymbolMismatch)
            && (d.Delivered? ==>
                  && d.box == boxes[|symbols|] && d.booth == b.(nftNum := b.nftNum - |symbols|, boxNum := |d.box|)
                  && forall y :: AmountOf(d.goods, y) == Occurrences(symbols, y))
  {
    HaulOfTrace(b, draws, boxes, symbols);
    CollectedIff(map[], symbols);
    if NoClash(symbols) {
      forall y ensures AmountOf(Deliver(b, boxes[0], draws).goods, y) == Occurrences(symbols, y) {
        GoodsAreSymbols(symbols, y);
      }
    }
  }

  // ---------- owners ----------

  /** Creating a booth would need a row under the next id to be there already, beside a price and a closing time
      to come; it would then start empty and open. */
  lemma CreateSucceedsIff(s: State, now: nat, b: Booth)
    ensures CreateBooth(s, now, b).Done? <==> b.price > 0 && b.closedAt > now && s.lastBoothId + 1 in s.booths
    ensures CreateBooth(s, now, b) == Abort(ParamError) <==> b.price == 0 || b.closedAt <= now
    ensures CreateBooth(s, now, b).Done? ==>
              && CreateBooth(s, now, b).state == s.(lastBoothId := s.lastBoothId + 1,
                   booths := s.booths[s.lastBoothId + 1 := Booth(b.owner, b.nftContract, b.fund, b.splitPlanId, b.price,
                                                                 0, 0, 0, 0, true, b.openedAt, b.closedAt)])
  {
  }

  /** Exactly when a booth can be closed, in any reachable state. */
  lemma CloseSucceedsIff(s: State, owner: Name, id: nat)
    requires Inv(s)
    ensures Close(s, owner, id).Done? <==>
            id in s.boxes && s.booths[id].enabled && s.booths[id].owner == owner
  {
  }

  /** Only the owner switches a booth, to the state it is not in; a booth that is off takes no deposit, sells
      nothing and is not closed; and switching it on again restores the state. */
  lemma DisablingFreezes(s: State, owner: Name, id: nat, enabled: bool, now: nat, from: Name, fund: Token,
                         quantity: nat, draws: seq<seq<nat>>, nftContract: Name, assets: seq<Asset>)
    ensures EnableBooth(s, owner, id, enabled).Done? <==>
            id in s.booths && s.booths[id].owner == owner && s.booths[id].enabled != enabled
    ensures EnableBooth(s, owner, id, enabled).Done? ==>
              var t := EnableBooth(s, owner, id, enabled).state;
              && t == s.(booths := s.booths[id := s.booths[id].(enabled := enabled)])
              && EnableBooth(t, owner, id, !enabled) == Done(s, [])
              && (!enabled ==> Buy(t, now, from, fund, quantity, id, draws).Abort? && Close(t, owner, id).Abort?
                               && Deposit(t, from, nftContract, id, assets).Abort?)
  {
    if EnableBooth(s, owner, id, enabled).Done? {
      var t := EnableBooth(s, owner, id, enabled).state;
      assert t.booths[id := t.booths[id].(enabled := !enabled)] == s.booths;
    }
  }

  /** The opening hours an owner sets are those a purchase must keep to. */
  lemma TimesTakeEffect(s: State, now: nat, owner: Name, id: nat, openedAt: nat, closedAt: nat, later: nat, from: Name,
                        fund: Token, quantity: nat, draws: seq<seq<nat>>)
    ensures SetBoothTime(s, now, owner, id, openedAt, closedAt).Done? <==>
            id in s.booths && s.booths[id].owner == owner && openedAt < closedAt && now < closedAt
    ensures SetBoothTime(s, now, owner, id, openedAt, closedAt).Done? ==>
              var t := SetBoothTime(s, now, owner, id, openedAt, closedAt).state;
              && t == s.(booths := s.booths[id := s.booths[id].(openedAt := openedAt, closedAt := closedAt)])
              && (Buy(t, later, from, fund, quantity, id, draws).Done? ==> openedAt <= later <= closedAt)
  {
  }

  // ---------- runs ----------

  /** A run of one call is that call; one that is refused changes nothing. */
  lemma OneStep(s: State, c: Call)
    ensures Run(s, []) == s && Run(s, [c]) == match Step(s, c) case Done(t, _) => t case Abort(_) => s
  {
    assert [c][..0] == [];
  }

  /** A run goes on where the one before it stopped. */
  lemma {:induction false} RunsCompose(s: State, earlier: seq<Call>, later: seq<Call>)
    ensures Run(s, earlier + later) == Run(Run(s, earlier), later)
    decreases |later|
  {
    if later == [] {
      assert earlier + later == earlier;
    } else {
      var n := |later| - 1;
      assert (earlier + later)[..|earlier + later| - 1] == earlier + later[..n];
      RunsCompose(s, earlier, later[..n]);
    }
  }
}
