/** flon.blindbox: the weighted pick, the counters that agree with the box, what a purchase
    conserves, and how fair the ticket is. */
module BlindboxSafety {
  import opened Arithmetic
  import opened Tables
  import opened Ledger
  import opened BlindboxSpec

  // ---------- the weighted pick ----------

  predicate Positive(box: Box) {
    forall k :: 0 <= k < |box| ==> box[k].count > 0
  }

  /** For a ticket in 1..total the walk always stops on an entry. */
  lemma {:induction false} WalkStops(box: Box, ticket: int)
    requires 1 <= ticket <= Total(box)
    ensures Walk(box, ticket) < |box|
  {
    if ticket > box[0].count { WalkStops(box[1..], ticket - box[0].count); }
  }

  /** Does the ticket pick this symbol? */
  predicate Picks(box: Box, ticket: int, s: NSymbol) {
    Walk(box, ticket) < |box| && box[Walk(box, ticket)].symbol == s
  }

  /** The number of tickets in lo+1..hi that pick the symbol. */
  function Hits(box: Box, s: NSymbol, lo: int, hi: int): nat
    decreases hi - lo
  {
    if hi <= lo then 0 else Hits(box, s, lo, hi - 1) + if Picks(box, hi, s) then 1 else 0
  }

  lemma {:induction false} HitsSplit(box: Box, s: NSymbol, lo: int, mid: int, hi: int)
    requires lo <= mid <= hi
    ensures Hits(box, s, lo, hi) == Hits(box, s, lo, mid) + Hits(box, s, mid, hi)
    decreases hi - mid
  {
    if mid < hi { HitsSplit(box, s, lo, mid, hi - 1); }
  }

  /** The first entry takes the first tickets, all of them and no others. */
  lemma {:induction false} HitsOfFirst(box: Box, s: NSymbol, hi: int)
    requires box != [] && 0 <= hi <= box[0].count
    ensures Hits(box, s, 0, hi) == if box[0].symbol == s then hi else 0
    decreases hi
  {
    if hi > 0 { HitsOfFirst(box, s, hi - 1); }
  }

  /** Past the first entry, the rest of the box picks as if the tickets were renumbered. */
  lemma {:induction false} HitsOfRest(box: Box, s: NSymbol, lo: int, hi: int)
    requires box != [] && 0 <= lo <= hi
    ensures Hits(box, s, box[0].count + lo, box[0].count + hi) == Hits(box[1..], s, lo, hi)
    decreases hi - lo
  {
    if lo < hi {
      HitsOfRest(box, s, lo, hi - 1);
      var i := Walk(box[1..], hi);
      assert Walk(box, box[0].count + hi) == 1 + i;
      if i < |box[1..]| { assert box[1 + i] == box[1..][i]; }
    }
  }

  lemma {:induction false} HitsAreCounts(box: Box, s: NSymbol)
    ensures Hits(box, s, 0, Total(box)) == CountIn(box, s)
  {
    if box != [] {
      HitsAreCounts(box[1..], s);
      HitsOfFirst(box, s, box[0].count);
      HitsOfRest(box, s, 0, Total(box[1..]));
      HitsSplit(box, s, 0, box[0].count, Total(box));
    }
  }

  lemma {:induction false} HitsCount(box: Box, s: NSymbol, hi: int)
    requires 0 <= hi
    ensures |set t | 1 <= t <= hi && Picks(box, t, s)| == Hits(box, s, 0, hi)
    decreases hi
  {
    var all := set t | 1 <= t <= hi && Picks(box, t, s);
    if hi == 0 {
      assert all == {};
    } else {
      HitsCount(box, s, hi - 1);
      var fewer := set t | 1 <= t <= hi - 1 && Picks(box, t, s);
      assert all == fewer + if Picks(box, hi, s) then {hi} else {};
    }
  }

  /** Selection is exactly weighted: of the tickets 1..total, exactly as many pick a symbol as the box
      holds of it. */
  lemma SelectionIsWeighted(box: Box, s: NSymbol)
    ensures |set t | 1 <= t <= Total(box) && Picks(box, t, s)| == CountIn(box, s)
  {
    HitsCount(box, s, Total(box));
    HitsAreCounts(box, s);
  }

  // ---------- the fairness of the ticket ----------

  /** Of the seeds 0..hi-1, how many draw outcome v. */
  function Preimages(range: nat, v: nat, hi: nat): nat
    requires range > 0
  {
    if hi == 0 then 0 else Preimages(range, v, hi - 1) + if Ticket(hi - 1, range) == v then 1 else 0
  }

  lemma RemainderIs(n: nat, range: nat, q: nat, r: nat)
    requires n == range * q + r && r < range
    ensures n % range == r
  {
    DivUnique(n, range, q);
    assert n == range * (n / range) + n % range;
  }

  lemma {:induction false} PreimagesInBlock(range: nat, v: nat, q: nat, r: nat)
    requires 1 <= v <= range && r <= range
    ensures Preimages(range, v, range * q + r) == Preimages(range, v, range * q) + if v <= r then 1 else 0
    decreases r
  {
    if r != 0 {
      PreimagesInBlock(range, v, q, r - 1);
      assert range * q + r - 1 == range * q + (r - 1);
      RemainderIs(range * q + (r - 1), range, q, r - 1);
    }
  }

  lemma {:induction false} PreimagesOfBlocks(range: nat, v: nat, q: nat)
    requires 1 <= v <= range
    ensures Preimages(range, v, range * q) == q
    decreases q
  {
    if q != 0 {
      PreimagesOfBlocks(range, v, q - 1);
      PreimagesInBlock(range, v, q - 1, range);
      assert range * q == range * (q - 1) + range;
    } else {
      assert range * q == 0;
    }
  }

  /** Rejection leaves the draw just short of uniform: over all accepted seeds 0..Limit every outcome
      in 1..range has the same number of preimages, except outcome 1, which has exactly one more. */
  lemma OneOutcomeHasOneMore(range: nat, v: nat)
    requires 1 <= v <= range && range < TWO64
    ensures Limit(range) % range == 0 && Limit(range) < TWO64
    ensures Preimages(range, v, Limit(range) + 1) == Limit(range) / range + if v == 1 then 1 else 0
  {
    var q := (TWO64 - 1) / range;
    assert TWO64 - 1 == range * q + (TWO64 - 1) % range;
    assert Limit(range) == range * q;
    DivUnique(range * q, range, q);
    RemainderIs(range * q, range, q, 0);
    PreimagesOfBlocks(range, v, q);
    PreimagesInBlock(range, v, q, 1);
  }

  /** The number of accepted seeds that draw outcome v. */
  function Odds(range: nat, v: nat): nat
    requires range > 0
  {
    Preimages(range, v, Limit(range) + 1)
  }

  ghost predicate Uniform(range: nat)
    requires range > 0
  {
    forall v, w :: 1 <= v <= range && 1 <= w <= range ==> Odds(range, v) == Odds(range, w)
  }

  /** So the draw is uniform exactly when there is only one outcome. */
  lemma UniformIffOneOutcome(range: nat)
    requires 1 <= range < TWO64
    ensures Uniform(range) <==> range == 1
  {
    if range > 1 {
      OneOutcomeHasOneMore(range, 1);
      OneOutcomeHasOneMore(range, 2);
      Unequal(range, Odds(range, 1), Odds(range, 2));
    }
  }

  lemma Unequal(range: nat, one: nat, two: nat)
    requires range > 1 && one == Odds(range, 1) && two == Odds(range, 2) && one == two + 1
    ensures !Uniform(range)
  {
  }

  /** Of the seeds 0..hi-1, how many draw symbol y out of the box. */
  function SeedHits(box: Box, y: NSymbol, range: nat, hi: nat): nat
    requires range > 0
  {
    if hi == 0 then 0 else SeedHits(box, y, range, hi - 1) + if Picks(box, Ticket(hi - 1, range), y) then 1 else 0
  }

  lemma {:induction false} SeedHitsInBlock(box: Box, y: NSymbol, range: nat, q: nat, r: nat)
    requires r <= range && range > 0
    ensures SeedHits(box, y, range, range * q + r) == SeedHits(box, y, range, range * q) + Hits(box, y, 0, r)
    decreases r
  {
    if r != 0 {
      SeedHitsInBlock(box, y, range, q, r - 1);
      assert range * q + r - 1 == range * q + (r - 1);
      RemainderIs(range * q + (r - 1), range, q, r - 1);
    }
  }

  lemma {:induction false} SeedHitsOfBlocks(box: Box, y: NSymbol, range: nat, q: nat)
    requires range > 0
    ensures SeedHits(box, y, range, range * q) == q * Hits(box, y, 0, range)
    decreases q
  {
    if q != 0 {
      SeedHitsOfBlocks(box, y, range, q - 1);
      SeedHitsInBlock(box, y, range, q - 1, range);
      assert range * q == range * (q - 1) + range;
      assert q * Hits(box, y, 0, range) == (q - 1) * Hits(box, y, 0, range) + Hits(box, y, 0, range);
    } else {
      assert range * q == 0;
    }
  }

  lemma {:induction false} SeedHitsCount(box: Box, y: NSymbol, range: nat, hi: nat)
    requires range > 0
    ensures |set x: nat | x < hi && Picks(box, Ticket(x, range), y)| == SeedHits(box, y, range, hi)
    decreases hi
  {
    var all := set x: nat | x < hi && Picks(box, Ticket(x, range), y);
    if hi == 0 {
      assert all == {};
    } else {
      SeedHitsCount(box, y, range, hi - 1);
      var fewer := set x: nat | x < hi - 1 && Picks(box, Ticket(x, range), y);
      assert all == fewer + if Picks(box, Ticket(hi - 1, range), y) then {hi - 1} else {};
    }
  }

  /** The two together: of the seeds `_rand` accepts for a box of n NFTs, each symbol is drawn by Limit/n
      seeds for every NFT of it in the box; and the symbol that comes first in the box by one more. */
  lemma AcceptedSeedsDraw(box: Box, y: NSymbol)
    requires 0 < Total(box) < TWO64 && Positive(box)
    ensures var n := Total(box);
            |set x: nat | x <= Limit(n) && Picks(box, Ticket(x, n), y)| ==
            Limit(n) / n * CountIn(box, y) + if box[0].symbol == y then 1 else 0
  {
    var n := Total(box);
    var q := (TWO64 - 1) / n;
    assert TWO64 - 1 == n * q + (TWO64 - 1) % n;
    assert Limit(n) == n * q;
    DivUnique(n * q, n, q);
    SeedHitsOfBlocks(box, y, n, q);
    SeedHitsInBlock(box, y, n, q, 1);
    HitsAreCounts(box, y);
    HitsOfFirst(box, y, 1);
    SeedHitsCount(box, y, n, n * q + 1);
    assert (set x: nat | x <= Limit(n) && Picks(box, Ticket(x, n), y)) ==
           set x: nat | x < n * q + 1 && Picks(box, Ticket(x, n), y);
  }

  // ---------- the counters of a booth ----------

  predicate Sorted(box: Box) {
    forall j, k :: 0 <= j < k < |box| ==> Raw(box[j].symbol) < Raw(box[k].symbol)
  }

  /** What the counters of a booth say about its box, and its takings about what was sold. */
  predicate Consistent(b: Booth, box: Box) {
    && b.nftNum == Total(box) && b.boxNum == |box| && Positive(box) && Sorted(box)
    && b.price > 0 && b.nftNum <= b.nftSum
    && b.fundRecd == b.price * (b.nftSum - b.nftNum)
  }

  lemma {:induction false} TotalSplit(a: Box, b: Box)
    ensures Total(a + b) == Total(a) + Total(b)
    decreases |a|
  {
    if a == [] {
      assert a + b == b;
    } else {
      assert (a + b)[1..] == a[1..] + b;
      TotalSplit(a[1..], b);
    }
  }

  lemma {:induction false} CountSplit(a: Box, b: Box, s: NSymbol)
    ensures CountIn(a + b, s) == CountIn(a, s) + CountIn(b, s)
    decreases |a|
  {
    if a == [] {
      assert a + b == b;
    } else {
      assert (a + b)[1..] == a[1..] + b;
      CountSplit(a[1..], b, s);
    }
  }

  lemma OneEntry(e: Entry, s: NSymbol)
    ensures Total([e]) == e.count && CountIn([e], s) == if e.symbol == s then e.count else 0
  {
    assert [e][1..] == [];
  }

  /** Taking one from entry i takes one from the total and one from the count of its symbol. */
  lemma TakeOneCounts(box: Box, i: nat, s: NSymbol)
    requires i < |box| && box[i].count > 0
    ensures Total(TakeOne(box, i)) == Total(box) - 1
    ensures CountIn(TakeOne(box, i), s) == CountIn(box, s) - if box[i].symbol == s then 1 else 0
  {
    var e := box[i];
    var less := Entry(e.symbol, e.count - 1);
    var a, z := box[..i], box[i + 1..];
    assert box == a + ([e] + z);
    TotalSplit(a, [e] + z);
    TotalSplit([e], z);
    CountSplit(a, [e] + z, s);
    CountSplit([e], z, s);
    OneEntry(e, s);
    if e.count == 1 {
      TotalSplit(a, z);
      CountSplit(a, z, s);
    } else {
      assert TakeOne(box, i) == a + ([less] + z);
      TotalSplit(a, [less] + z);
      TotalSplit([less], z);
      CountSplit(a, [less] + z, s);
      CountSplit([less], z, s);
      OneEntry(less, s);
    }
  }

  lemma TakeOneKeeps(box: Box, i: nat)
    requires i < |box| && Positive(box) && Sorted(box)
    ensures Positive(TakeOne(box, i)) && Sorted(TakeOne(box, i))
    ensures |TakeOne(box, i)| == |box| - if box[i].count == 1 then 1 else 0
  {
  }

  /** Between the payment and the end of its draws: the counters agree with the box, and the takings
      are ahead by the price of what is still to be drawn. */
  predicate Owed(b: Booth, box: Box, n: nat) {
    && b.nftNum == Total(box) && b.boxNum == |box| && Positive(box) && Sorted(box)
    && b.price > 0 && n <= b.nftNum <= b.nftSum
    && b.fundRecd == b.price * (b.nftSum - b.nftNum + n)
  }

  /** One draw misses only when its hashes run out. It takes one of the symbol its ticket picks from the
      box and nothing else, and is worth one price. */
  lemma OneNftDraws(b: Booth, box: Box, hashes: seq<nat>, n: nat)
    requires Owed(b, box, n) && n > 0
    ensures OneNft(b, box, hashes).Drawn? <==> FirstAccepted(hashes, b.nftNum).Some?
    ensures OneNft(b, box, hashes).Missed? ==> OneNft(b, box, hashes).why == HashesRunOut
    ensures var d := OneNft(b, box, hashes);
            d.Drawn? ==>
            && Owed(d.booth, d.box, n - 1) && d.booth.nftNum == b.nftNum - 1
            && d.booth == b.(nftNum := d.booth.nftNum, boxNum := d.booth.boxNum)
            && Picks(box, Ticket(FirstAccepted(hashes, b.nftNum).value, b.nftNum), d.symbol)
            && forall s :: CountIn(box, s) == CountIn(d.box, s) + if s == d.symbol then 1 else 0
  {
    if FirstAccepted(hashes, b.nftNum).Some? {
      PickDraws(b, box, Ticket(FirstAccepted(hashes, b.nftNum).value, b.nftNum), n);
    }
  }

  lemma PickDraws(b: Booth, box: Box, ticket: nat, n: nat)
    requires Owed(b, box, n) && n > 0 && 1 <= ticket <= b.nftNum
    ensures Pick(b, box, ticket).Drawn?
    ensures var d := Pick(b, box, ticket);
            && Owed(d.booth, d.box, n - 1) && d.booth.nftNum == b.nftNum - 1
            && d.booth == b.(nftNum := d.booth.nftNum, boxNum := d.booth.boxNum)
            && Picks(box, ticket, d.symbol)
            && forall s :: CountIn(box, s) == CountIn(d.box, s) + if s == d.symbol then 1 else 0
  {
    WalkStops(box, ticket);
    var i := Walk(box, ticket);
    TakeOneKeeps(box, i);
    TakeOneCounts(box, i, box[i].symbol);
    forall s ensures CountIn(box, s) == CountIn(TakeOne(box, i), s) + if s == box[i].symbol then 1 else 0 {
      TakeOneCounts(box, i, s);
    }
  }

  function Occurrences(symbols: seq<NSymbol>, s: NSymbol): nat {
    if symbols == [] then 0 else (if symbols[0] == s then 1 else 0) + Occurrences(symbols[1..], s)
  }

  /** The purchase loop fails only when the hashes of a draw run out, and takes from the box exactly the
      symbols it draws, one per draw. */
  lemma {:induction false} DrawAllConserves(b: Booth, box: Box, draws: seq<seq<nat>>)
    requires Owed(b, box, |draws|)
    ensures DrawAll(b, box, draws).Failed? ==> DrawAll(b, box, draws).why == HashesRunOut
    ensures var h := DrawAll(b, box, draws);
            h.Haul? ==>
            && Consistent(h.booth, h.box) && |h.symbols| == |draws|
            && h.booth == b.(nftNum := b.nftNum - |draws|, boxNum := h.booth.boxNum)
            && forall s :: CountIn(box, s) == CountIn(h.box, s) + Occurrences(h.symbols, s)
    decreases |draws|
  {
    if draws != [] {
      OneNftDraws(b, box, draws[0], |draws|);
      var d := OneNft(b, box, draws[0]);
      if d.Drawn? {
        DrawAllConserves(d.booth, d.box, draws[1..]);
        var rest := DrawAll(d.booth, d.box, draws[1..]);
        var h := DrawAll(b, box, draws);
        if rest.Haul? {
          assert h.symbols == [d.symbol] + rest.symbols && h.symbols[1..] == rest.symbols;
        }
      }
    }
  }

  // ---------- stocking ----------

  lemma RawIsInjective(s: NSymbol, t: NSymbol)
    ensures Raw(s) == Raw(t) ==> s == t
  {
  }

  lemma {:induction false} PutLength(box: Box, s: NSymbol, amount: nat)
    requires Positive(box) && Sorted(box) && amount > 0
    ensures Positive(Put(box, s, amount))
    ensures |Put(box, s, amount)| == |box| + if Has(box, s) then 0 else 1
    ensures forall e :: e in Put(box, s, amount) ==> e.symbol == s || Has(box, e.symbol)
    decreases |box|
  {
    if box != [] {
      var rest := box[1..];
      assert box == [box[0]] + rest;
      assert Sorted(rest) && Positive(rest);
      PutLength(rest, s, amount);
      HasSplit(box, s);
      forall e | e in Put(box, s, amount) ensures e.symbol == s || Has(box, e.symbol) {
        HasSplit(box, e.symbol);
      }
    }
  }

  lemma {:induction false} PutSorted(box: Box, s: NSymbol, amount: nat)
    requires Positive(box) && Sorted(box) && amount > 0
    ensures Sorted(Put(box, s, amount))
    decreases |box|
  {
    if box != [] {
      var rest := box[1..];
      RawIsInjective(s, box[0].symbol);
      assert Sorted(rest) && Positive(rest);
      if box[0].symbol != s && Raw(s) > Raw(box[0].symbol) {
        PutSorted(rest, s, amount);
        PutLength(rest, s, amount);
        var r := Put(rest, s, amount);
        forall k | 0 <= k < |r| ensures Raw(box[0].symbol) < Raw(r[k].symbol) {
          assert r[k] in r;
          if r[k].symbol != s { HasSplit(box, r[k].symbol); }
        }
      }
    }
  }

  lemma HasSplit(box: Box, s: NSymbol)
    requires box != []
    ensures Has(box, s) <==> box[0].symbol == s || Has(box[1..], s)
    ensures Sorted(box) && Has(box[1..], s) ==> Raw(box[0].symbol) < Raw(s)
  {
    if Has(box[1..], s) {
      var k :| 0 <= k < |box[1..]| && box[1..][k].symbol == s;
      assert box[k + 1].symbol == s;
    }
    if Has(box, s) && box[0].symbol != s {
      var k :| 0 <= k < |box| && box[k].symbol == s;
      assert box[1..][k - 1].symbol == s;
    }
  }

  lemma {:induction false} PutCounts(box: Box, s: NSymbol, amount: nat, y: NSymbol)
    ensures Total(Put(box, s, amount)) == Total(box) + amount
    ensures CountIn(Put(box, s, amount), y) == CountIn(box, y) + if y == s then amount else 0
    decreases |box|
  {
    if box == [] {
      OneEntry(Entry(s, amount), y);
    } else {
      var rest := box[1..];
      if box[0].symbol == s {
        assert ([Entry(s, box[0].count + amount)] + rest)[1..] == rest;
      } else if Raw(s) < Raw(box[0].symbol) {
        assert ([Entry(s, amount)] + box)[1..] == box;
      } else {
        PutCounts(rest, s, amount, y);
        assert ([box[0]] + Put(rest, s, amount))[1..] == Put(rest, s, amount);
      }
    }
  }

  function Sent(assets: seq<Asset>, s: NSymbol): int {
    if assets == [] then 0 else (if assets[0].symbol == s then assets[0].amount else 0) + Sent(assets[1..], s)
  }

  /** Stocking a box adds exactly what was sent of each symbol, and counts new entries and NFTs rightly,
      also when one deposit names a symbol twice. */
  lemma {:induction false} PutAllConserves(box: Box, assets: seq<Asset>)
    requires Positive(box) && Sorted(box) && PutAll(box, assets).Stocked?
    ensures var r := PutAll(box, assets);
            && Positive(r.box) && Sorted(r.box)
            && |r.box| == |box| + r.newEntries && Total(r.box) == Total(box) + r.newNfts
            && forall s :: CountIn(r.box, s) == CountIn(box, s) + Sent(assets, s)
    decreases |assets|
  {
    if assets != [] {
      var y, n := assets[0].symbol, assets[0].amount;
      PutLength(box, y, n);
      PutSorted(box, y, n);
      PutCounts(box, y, n, y);
      PutAllConserves(Put(box, y, n), assets[1..]);
      forall s ensures CountIn(PutAll(box, assets).box, s) == CountIn(box, s) + Sent(assets, s) {
        PutCounts(box, y, n, s);
      }
    }
  }

  // ---------- the goods ----------

  function AmountOf(goods: seq<Goods>, s: NSymbol): nat {
    if goods == [] then 0 else (if goods[0].symbol == s then goods[0].amount else 0) + AmountOf(goods[1..], s)
  }

  function Bought(bought: map<nat, Goods>, s: NSymbol): nat {
    if s.id in bought && bought[s.id].symbol == s then bought[s.id].amount else 0
  }

  predicate Keyed(bought: map<nat, Goods>) {
    forall k :: k in bought ==> bought[k].symbol.id == k
  }

  lemma {:induction false} CollectCounts(bought: map<nat, Goods>, symbols: seq<NSymbol>, s: NSymbol)
    requires Keyed(bought) && Collect(bought, symbols).Some?
    ensures Keyed(Collect(bought, symbols).value)
    ensures Bought(Collect(bought, symbols).value, s) == Bought(bought, s) + Occurrences(symbols, s)
    decreases |symbols|
  {
    if symbols != [] {
      var y := symbols[0];
      CollectCounts(bought[y.id := Goods(y, if y.id in bought then bought[y.id].amount + 1 else 1)], symbols[1..], s);
    }
  }

  lemma {:induction false} InOrderAmounts(bought: map<nat, Goods>, keys: set<nat>, s: NSymbol)
    requires Keyed(bought) && keys <= bought.Keys
    ensures AmountOf(InOrder(bought, keys), s) == if s.id in keys then Bought(bought, s) else 0
    decreases |keys|
  {
    if keys != {} {
      var k := Least(keys);
      InOrderAmounts(bought, keys - {k}, s);
      assert InOrder(bought, keys)[1..] == InOrder(bought, keys - {k});
    }
  }

  // ---------- the invariant ----------

  /** Wherever both rows exist, the booth's counters and takings agree with its box. */
  ghost predicate Inv(s: State) {
    && (forall id :: id in s.booths ==> id <= s.lastBoothId)
    && (forall id :: id in s.boxes ==> id in s.booths && Consistent(s.booths[id], s.boxes[id]))
  }

  /** A completed purchase: what is paid on plus the change is the quantity received, the change is
      less than one price, as many NFTs are sent as prices were paid, and of every symbol the box held
      before what it holds after plus what was sent. */
  ghost predicate PurchaseBalances(before: Booth, oldBox: Box, after: Booth, newBox: Box, quantity: nat, paid: nat,
                                   goods: seq<Goods>) {
    var count := before.nftNum - after.nftNum;
    && count > 0 && paid == before.price * count && 0 <= quantity - paid < before.price
    && after.fundRecd == before.fundRecd + paid && after.nftSum == before.nftSum
    && Total(oldBox) == Total(newBox) + count
    && forall s :: CountIn(oldBox, s) == CountIn(newBox, s) + AmountOf(goods, s)
  }

  lemma ChangeIsSmall(quantity: nat, price: nat)
    requires price > 0
    ensures 0 <= quantity - price * (quantity / price) < price
  {
    assert quantity == price * (quantity / price) + quantity % price;
  }

  lemma TakingsAhead(price: nat, sold: nat, count: nat)
    ensures price * sold + price * count == price * (sold + count)
  {
  }

  lemma BuyBalances(s: State, now: nat, from: Name, fund: Token, quantity: nat, id: nat, draws: seq<seq<nat>>)
    requires Inv(s) && Buy(s, now, from, fund, quantity, id, draws).Done?
    ensures var r := Buy(s, now, from, fund, quantity, id, draws);
            id in s.boxes && id in r.state.boxes && id in r.state.booths &&
            r.state == s.(booths := s.booths[id := r.state.booths[id]], boxes := s.boxes[id := r.state.boxes[id]]) &&
            Consistent(r.state.booths[id], r.state.boxes[id]) &&
            exists paid, goods ::
              PurchaseBalances(s.booths[id], s.boxes[id], r.state.booths[id], r.state.boxes[id], quantity, paid,
                               goods) &&
              r.events == [FundsTo(s.distributor, paid)] + ChangeEvent(from, quantity - paid) + [GoodsTo(from, goods)]
  {
    var b, box := s.booths[id], s.boxes[id];
    var count := quantity / b.price;
    ChangeIsSmall(quantity, b.price);
    DeliveryBalances(b, box, quantity, FirstDraws(draws, count));
  }

  lemma DeliveryBalances(b: Booth, box: Box, quantity: nat, draws: seq<seq<nat>>)
    requires Consistent(b, box) && 0 < |draws| == quantity / b.price <= b.nftNum
    ensures var paid := b.price * |draws|;
            var d := Deliver(b.(fundRecd := b.fundRecd + paid), box, draws);
            d.Delivered? ==>
              Consistent(d.booth, d.box) && PurchaseBalances(b, box, d.booth, d.box, quantity, paid, d.goods)
  {
    var paid := b.price * |draws|;
    ChangeIsSmall(quantity, b.price);
    TakingsAhead(b.price, b.nftSum - b.nftNum, |draws|);
    var c := b.(fundRecd := b.fundRecd + paid);
    DrawAllConserves(c, box, draws);
    var h := DrawAll(c, box, draws);
    if h.Haul? && Collect(map[], h.symbols).Some? {
      forall y ensures CountIn(box, y) == CountIn(h.box, y) + AmountOf(Deliver(c, box, draws).goods, y) {
        GoodsAreSymbols(h.symbols, y);
      }
    }
  }

  lemma GoodsAreSymbols(symbols: seq<NSymbol>, y: NSymbol)
    requires Collect(map[], symbols).Some?
    ensures var bought := Collect(map[], symbols).value;
            AmountOf(InOrder(bought, bought.Keys), y) == Occurrences(symbols, y)
  {
    CollectCounts(map[], symbols, y);
    var bought := Collect(map[], symbols).value;
    InOrderAmounts(bought, bought.Keys, y);
  }

  lemma StockingKeepsConsistent(b: Booth, box: Box, assets: seq<Asset>)
    requires Consistent(b, box) && PutAll(box, assets).Stocked?
    ensures var r := PutAll(box, assets);
            Consistent(b.(boxNum := b.boxNum + r.newEntries, nftNum := b.nftNum + r.newNfts,
                          nftSum := b.nftSum + r.newNfts), r.box)
  {
    PutAllConserves(box, assets);
    var n := PutAll(box, assets).newNfts;
    assert (b.nftSum + n) - (b.nftNum + n) == b.nftSum - b.nftNum;
  }

  /** A deposit that merges into an existing box keeps every counter right and adds exactly what was sent. */
  lemma DepositKeeps(s: State, from: Name, nftContract: Name, id: nat, assets: seq<Asset>)
    requires Inv(s) && Deposit(s, from, nftContract, id, assets).Done?
    ensures Inv(Deposit(s, from, nftContract, id, assets).state)
  {
    if id in s.boxes { StockingKeepsConsistent(s.booths[id], s.boxes[id], assets); }
  }

  lemma DepositAddsWhatWasSent(s: State, from: Name, nftContract: Name, id: nat, assets: seq<Asset>, y: NSymbol)
    requires Inv(s) && Deposit(s, from, nftContract, id, assets).Done? && id in s.boxes
    ensures CountIn(Deposit(s, from, nftContract, id, assets).state.boxes[id], y) ==
            CountIn(s.boxes[id], y) + Sent(assets, y)
  {
    PutAllConserves(s.boxes[id], assets);
  }

  /** With ids handed out upwards a booth's id is always fresh, and a fresh row is never written. */
  lemma CreateAlwaysAborts(s: State, now: nat, b: Booth)
    requires Inv(s)
    ensures CreateBooth(s, now, b).Abort?
  {
  }

  lemma {:induction false} StockedIff(box: Box, assets: seq<Asset>)
    ensures PutAll(box, assets).Stocked? <==> forall a :: a in assets ==> a.amount > 0
    decreases |assets|
  {
    if assets != [] && assets[0].amount > 0 {
      assert assets == [assets[0]] + assets[1..];
      StockedIff(Put(box, assets[0].symbol, assets[0].amount), assets[1..]);
    }
  }

  function SymbolsOf(box: Box): set<NSymbol> {
    set e | e in box :: e.symbol
  }

  function SymbolsSent(assets: seq<Asset>): set<NSymbol> {
    set a | a in assets :: a.symbol
  }

  lemma {:induction false} OneEntryEach(box: Box)
    requires Sorted(box)
    ensures |SymbolsOf(box)| == |box|
    decreases |box|
  {
    if box != [] {
      OneEntryEach(box[1..]);
      FirstIsAlone(box);
    }
  }

  lemma FirstIsAlone(box: Box)
    requires Sorted(box) && box != []
    ensures box[0].symbol !in SymbolsOf(box[1..]) && SymbolsOf(box) == SymbolsOf(box[1..]) + {box[0].symbol}
  {
    assert box == [box[0]] + box[1..];
    forall e | e in box[1..] ensures e.symbol != box[0].symbol {
      var k :| 0 < k < |box| && box[k] == e;
      assert Raw(box[0].symbol) < Raw(box[k].symbol);
    }
  }

  lemma {:induction false} PutSymbols(box: Box, s: NSymbol, amount: nat)
    ensures SymbolsOf(Put(box, s, amount)) == SymbolsOf(box) + {s}
    decreases |box|
  {
    if box != [] {
      PutSymbols(box[1..], s, amount);
      assert box == [box[0]] + box[1..];
      assert SymbolsOf(box) == {box[0].symbol} + SymbolsOf(box[1..]);
      if box[0].symbol == s {
        assert SymbolsOf([Entry(s, box[0].count + amount)] + box[1..]) == {s} + SymbolsOf(box[1..]);
      } else if Raw(s) < Raw(box[0].symbol) {
        assert SymbolsOf([Entry(s, amount)] + box) == {s} + SymbolsOf(box);
      } else {
        var rest := Put(box[1..], s, amount);
        assert SymbolsOf([box[0]] + rest) == {box[0].symbol} + SymbolsOf(rest);
      }
    } else {
      assert SymbolsOf([Entry(s, amount)]) == {s};
    }
  }

  lemma {:induction false} PutAllSymbols(box: Box, assets: seq<Asset>)
    requires PutAll(box, assets).Stocked?
    ensures SymbolsOf(PutAll(box, assets).box) == SymbolsOf(box) + SymbolsSent(assets)
    decreases |assets|
  {
    if assets != [] {
      var a := assets[0];
      PutSymbols(box, a.symbol, a.amount);
      PutAllSymbols(Put(box, a.symbol, a.amount), assets[1..]);
      assert assets == [a] + assets[1..];
      assert SymbolsSent(assets) == {a.symbol} + SymbolsSent(assets[1..]);
    }
  }

  /** Exactly when a deposit completes. The box's row must be there already, unless nothing is sent; and
      it may not end up with more symbols than a box may have entries. */
  lemma DepositSucceedsIff(s: State, from: Name, nftContract: Name, id: nat, assets: seq<Asset>)
    requires Inv(s)
    ensures Deposit(s, from, nftContract, id, assets).Done? <==>
              && id in s.booths && s.booths[id].enabled
              && s.booths[id].nftContract == nftContract && s.booths[id].owner == from
              && (forall a :: a in assets ==> a.amount > 0)
              && if id in s.boxes then |SymbolsOf(s.boxes[id]) + SymbolsSent(assets)| <= s.maxBoxes
                 else assets == [] && s.booths[id].boxNum <= s.maxBoxes
  {
    var box := if id in s.boxes then s.boxes[id] else [];
    StockedIff(box, assets);
    if id in s.boxes && PutAll(box, assets).Stocked? {
      PutAllConserves(box, assets);
      PutAllSymbols(box, assets);
      OneEntryEach(PutAll(box, assets).box);
    }
  }

  lemma StepKeeps(s: State, c: Call)
    requires Inv(s)
    ensures Inv(After(s, c)) && After(s, c).booths.Keys <= s.booths.Keys && After(s, c).boxes.Keys <= s.boxes.Keys
  {
    if Step(s, c).Done? {
      match c.action
      case DoDeposit(from, nftContract, id, assets) => DepositKeeps(s, from, nftContract, id, assets);
      case DoBuy(from, fund, quantity, id, draws) => BuyBalances(s, c.now, from, fund, quantity, id, draws);
      case DoCreate(b) => CreateAlwaysAborts(s, c.now, b);
      case _ =>
    }
  }

  /** Over every run the counters stay right, and no booth and no box ever appears: as written, a
      freshly deployed contract stays without booths for good. */
  lemma {:induction false} EveryRunKeeps(s: State, calls: seq<Call>)
    requires Inv(s)
    ensures Inv(Run(s, calls)) && Run(s, calls).booths.Keys <= s.booths.Keys && Run(s, calls).boxes.Keys <= s.boxes.Keys
    decreases |calls|
  {
    if calls != [] {
      EveryRunKeeps(s, calls[..|calls| - 1]);
      StepKeeps(Run(s, calls[..|calls| - 1]), calls[|calls| - 1]);
    }
  }

  lemma {:induction false} GoodsOfBox(box: Box, y: NSymbol)
    ensures AmountOf(AsGoods(box), y) == CountIn(box, y)
  {
    if box != [] {
      assert AsGoods(box)[1..] == AsGoods(box[1..]);
      GoodsOfBox(box[1..], y);
    }
  }

  /** How much of a symbol an account is sent. */
  function SentTo(events: seq<Event>, who: Name, y: NSymbol): nat {
    if events == [] then 0 else
    SentTo(events[1..], who, y) +
      match events[0] case GoodsTo(receiver, goods) => if receiver == who then AmountOf(goods, y) else 0 case _ => 0
  }

  /** Closing takes both rows away and sends the owner, and nobody else, exactly what the box held. */
  lemma CloseReturnsAll(s: State, owner: Name, id: nat, y: NSymbol, who: Name)
    requires Close(s, owner, id).Done?
    ensures var r := Close(s, owner, id);
            && id in s.booths && id in s.boxes && owner == s.booths[id].owner
            && r.state == s.(booths := s.booths - {id}, boxes := s.boxes - {id})
            && SentTo(r.events, who, y) == if who == s.booths[id].owner then CountIn(s.boxes[id], y) else 0
  {
    GoodsOfBox(s.boxes[id], y);
    var events := Close(s, owner, id).events;
    if events != [] { assert events[1..] == []; }
  }
}
