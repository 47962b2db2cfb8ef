/** Exactly when each action of flon.redpack goes through and what it does, on the stored fields. */
module RedpackEffects {
  import opened Arithmetic
  import opened Tables
  import opened Ledger
  import opened Names
  import opened RedpackSpec
  import opened RedpackSafety
  import opened RedpackHistory

  // ---------- claims ----------

  /** The unit of random shares: one whole token below three decimals, and 100 otherwise. */
  function UnitOf(precision: nat): (u: nat)
    ensures u > 0
  {
    if precision <= 2 then Power10(precision) else 100
  }

  /** How many units the next random share of a pot may have at most. */
  function MaxUnits(p: Pot): nat
    requires p.remCount > 0
  {
    Quotient(Quotient(p.remQuant, p.remCount) * 2, UnitOf(p.token.symbol.precision))
  }

  /** What a completed claim takes out of its pot. */
  function Taking(s: State, b: Bid): int
    requires ClaimRedpack(s, b).Done?
  {
    s.pots[b.code].remQuant - ClaimRedpack(s, b).state.pots[b.code].remQuant
  }

  /** What a completed claim pays: the last share is whatever is left; an even share is the total over the
      number of shares; and a random share is as many units as the seed picks between 1 and the most. */
  lemma ClaimPays(s: State, b: Bid)
    requires Inv(s) && ClaimRedpack(s, b).Done?
    ensures var p := s.pots[b.code];
            && p.remCount > 0 && p.totalCount > 0
            && (p.remCount > 1 && p.kind == RandomShares ==> MaxUnits(p) > 0)
            && Taking(s, b) ==
               if p.remCount == 1 then p.remQuant
               else match p.kind
                 case MeanShares => p.totalQuant / p.totalCount
                 case RandomShares => (b.seed % MaxUnits(p) + 1) * UnitOf(p.token.symbol.precision)
  {
    var p := s.pots[b.code];
    assert PotOk(p);
    UnitIs(p.token.symbol.precision);
  }

  /** Of n consecutive numbers exactly one leaves a given remainder by n. */
  lemma OneOfBlock(start: nat, n: nat, r: nat) returns (x: nat)
    requires r < n
    ensures start <= x < start + n && x % n == r
    ensures forall y: nat :: start <= y < start + n && y % n == r ==> y == x
  {
    x := InBlock(start, n, r);
    forall y: nat | start <= y < start + n && y % n == r ensures y == x { SameRemainder(x, y, n); }
  }

  lemma InBlock(start: nat, n: nat, r: nat) returns (x: nat)
    requires r < n
    ensures start <= x < start + n && x % n == r
  {
    var q, t := start / n, start % n;
    assert start == n * q + t;
    if r >= t {
      x := start + (r - t);
      RemainderIs(x, n, q, r);
    } else {
      x := start + n - t + r;
      assert n * (q + 1) == n * q + n;
      RemainderIs(x, n, q + 1, r);
    }
  }

  lemma SameRemainder(x: nat, y: nat, n: nat)
    requires n > 0 && x % n == y % n && x < y + n && y < x + n
    ensures x == y
  {
    var p, q := x / n, y / n;
    assert x == n * p + x % n && y == n * q + y % n;
    assert y - x == n * q - n * p == n * (q - p);
    MulOrder(n, 1, q - p);
    MulOrder(n, q - p, -1);
  }

  lemma RemainderIs(x: nat, n: nat, q: nat, r: nat)
    requires x == n * q + r && r < n
    ensures x % n == r
  {
    DivUnique(x, n, q);
    assert x == n * (x / n) + x % n;
  }

  /** The seed decides. Of as many consecutive seeds as there are possible random shares, exactly one pays
      any given number of units from 1 to the most. */
  lemma EveryShareOnce(s: State, b: Bid, start: nat, units: nat) returns (seed: nat)
    requires Inv(s) && Funds(s) && ClaimRedpack(s, b).Done?
    requires var p := s.pots[b.code]; p.kind == RandomShares && p.remCount > 1 && 1 <= units <= MaxUnits(p)
    ensures start <= seed < start + MaxUnits(s.pots[b.code])
    ensures forall x: nat :: ClaimRedpack(s, b.(seed := x)).Done?
    ensures forall x: nat :: start <= x < start + MaxUnits(s.pots[b.code]) ==>
              (Taking(s, b.(seed := x)) == units * UnitOf(s.pots[b.code].token.symbol.precision) <==> x == seed)
  {
    var p := s.pots[b.code];
    var n, u := MaxUnits(p), UnitOf(p.token.symbol.precision);
    forall x: nat ensures ClaimRedpack(s, b.(seed := x)).Done? {
      ClaimSucceedsIff(s, b);
      ClaimSucceedsIff(s, b.(seed := x));
    }
    seed := OneOfBlock(start, n, units - 1);
    forall x: nat | start <= x < start + n ensures Taking(s, b.(seed := x)) == units * u <==> x == seed {
      ClaimPays(s, b.(seed := x));
      SameUnits(x % n + 1, units, u);
    }
  }

  lemma SameUnits(a: nat, b: nat, u: nat)
    requires u > 0
    ensures a * u == b * u <==> a == b
  {
  }

  /** What a completed claim writes: the pot loses the share and one of its shares, and is finished with the
      last; and the claim table gets the next id with this pot, this claimer and this amount. */
  lemma ClaimWrites(s: State, b: Bid)
    requires Inv(s) && ClaimRedpack(s, b).Done?
    ensures var p, t, share := s.pots[b.code], ClaimRedpack(s, b).state, Taking(s, b);
            && share >= 0 && p.remCount > 0
            && t == s.(ledger := t.ledger, lastClaimId := s.lastClaimId + 1,
                       pots := s.pots[b.code := t.pots[b.code]],
                       claims := s.claims + [Claim(s.lastClaimId + 1, p.id, b.code, p.creator, b.claimer, share)])
            && t.pots[b.code] == p.(remQuant := p.remQuant - share, remCount := p.remCount - 1,
                                    status := if p.remCount == 1 then Exhausted else p.status)
  {
    assert PotOk(s.pots[b.code]);
  }

  // ---------- opening, paying the fee, cancelling ----------

  /** What a notified transfer into the contract needs. */
  predicate Payable(s: State, from: Name, token: Token, amount: int) {
    0 < amount <= MAX_AMOUNT && from != s.self && amount <= BalanceOf(s.ledger, token, from)
  }

  /** Exactly when a transfer with a deposit's memo opens a pot, and the pot. */
  lemma DepositSucceedsIff(s: State, now: nat, from: Name, token: Token, amount: int, w: Wrap)
    requires Heard(token.bank)
    ensures var r := Deposit(s, now, from, token, amount, w);
            && (r.Done? <==>
                && Payable(s, from, token, amount) && token in s.listed && w.code !in s.pots && w.kind.Some?
                && 1 <= w.count <= 10000 && amount / w.count >= 100
                && (w.didRequired ==> token.symbol.code == "FLON" || token.symbol.code == "USDT" ||
                                      token.symbol.code == "USDC" || token.symbol.code == "TYCHE"))
            && (r.Done? ==>
                  && r.events == [Deposited(s.lastPotId + 1, amount)] && amount >= 0 && w.count >= 0
                  && r.state == s.(ledger := r.state.ledger, lastPotId := s.lastPotId + 1,
                       pots := s.pots[w.code := Pot(s.lastPotId + 1, w.kind.value, from, w.didRequired, w.pwhash,
                                                    token, amount, w.count, amount, w.count,
                                                    if s.feeRequired then Created else Servicing, now)]))
  {
  }

  /** Exactly when a fee is accepted in a solvent state, and that it puts this pot into service. A foreign fee
      also needs the contract to have as much FLON of its pots to forward. */
  lemma FeeSucceedsIff(s: State, from: Name, token: Token, amount: int, code: Name)
    requires Heard(token.bank)
    ensures var r := PayFee(s, from, token, amount, code);
            && (r.Done? <==>
                && Payable(s, from, token, amount) && token.symbol == SYS_SYMBOL && s.feeRequired && s.unitFee > 0
                && code in s.pots && s.pots[code].status == Created
                && s.pots[code].totalCount * s.unitFee <= amount && s.admin != s.self
                && (token.bank == SYS_BANK || amount <= BalanceOf(s.ledger, FLON, s.self)))
            && (r.Done? ==>
                  r.state == s.(ledger := r.state.ledger, pots := s.pots[code := s.pots[code].(status := Servicing)]))
  {
    if Payable(s, from, token, amount) { TransferMoves(s.ledger, token, from, s.self, amount); }
  }

  /** Exactly when a pot can be cancelled: once its time is over. Then this pot goes and no other. */
  lemma CancelSucceedsIff(s: State, now: nat, code: Name)
    requires Inv(s) && Funds(s)
    ensures Cancel(s, now, code).Done? <==>
              code in s.pots && now > s.pots[code].createdAt + s.expiryHours * 3_600_000_000
    ensures Cancel(s, now, code).Done? ==>
              var p, r := s.pots[code], Cancel(s, now, code);
              && r.state == s.(ledger := r.state.ledger, pots := s.pots - {code})
              && r.events == if p.remQuant > 0 then [Refunded(p.id, p.remQuant)] else []
  {
    if code in s.pots {
      assert PotOk(s.pots[code]);
      PotIsFunded(s, code);
    }
  }

  // ---------- collecting claims ----------

  /** What a call of `delclaims` deletes: the first min(max_rows, number of orphans) claims in key order
      whose code no pot has; and it is refused exactly when that is none. */
  lemma DelClaimsDeletes(s: State, maxRows: nat)
    ensures var orphans := Orphans(s.claims, s.pots.Keys);
            var n := if maxRows < |orphans| then maxRows else |orphans|;
            var r := DelClaims(s, maxRows);
            && (r.Done? <==> n > 0)
            && (r.Done? ==>
                  && r.state == s.(claims := r.state.claims) && r.events == []
                  && |r.state.claims| == |s.claims| - n
                  && Orphans(r.state.claims, s.pots.Keys) == orphans[n..]
                  && Homed(r.state.claims, s.pots.Keys) == Homed(s.claims, s.pots.Keys))
  {
    DropsFirstOrphans(s.claims, s.pots.Keys, maxRows);
  }

  /** The orphans are exactly the claims without a pot. */
  lemma {:induction false} OrphansAre(claims: seq<Claim>, live: set<Name>, c: Claim)
    ensures c in Orphans(claims, live) <==> c in claims && c.code !in live
    ensures c in Homed(claims, live) <==> c in claims && c.code in live
    decreases |claims|
  {
    if claims != [] {
      OrphansAre(claims[1..], live, c);
      assert claims == [claims[0]] + claims[1..];
    }
  }

  // ---------- settings ----------

  /** Listing and delisting a token decide whether a deposit of it can be accepted, and of no other token. */
  lemma ListingTakesEffect(s: State, token: Token, now: nat, from: Name, t: Token, amount: int, w: Wrap)
    requires Heard(t.bank)
    ensures ListToken(s, token).Done? && (DelistToken(s, token).Done? <==> token in s.listed)
    ensures var u := ListToken(s, token).state;
            && u == s.(listed := u.listed)
            && (if t == token then t in u.listed
                else Deposit(u, now, from, t, amount, w).Done? == Deposit(s, now, from, t, amount, w).Done?)
    ensures DelistToken(s, token).Done? ==>
              var u := DelistToken(s, token).state;
              && u == s.(listed := u.listed)
              && (if t == token then Deposit(u, now, from, t, amount, w).Abort?
                  else Deposit(u, now, from, t, amount, w).Done? == Deposit(s, now, from, t, amount, w).Done?)
  {
  }

  /** The hours set by `init` are those a pot must have lived to be cancelled. */
  lemma HoursTakeEffect(s: State, admin: Name, hours: nat, now: nat, code: Name)
    ensures Init(s, admin, hours).Done? <==> hours > 0
    ensures Init(s, admin, hours).Done? ==>
              var t := Init(s, admin, hours).state;
              && t == s.(admin := admin, expiryHours := hours)
              && (Cancel(t, now, code).Done? ==> now > s.pots[code].createdAt + hours * 3_600_000_000)
  {
  }

  // ---------- runs ----------

  /** Other accounts transfer what they own among themselves, and the contract's tables do not change. */
  lemma OthersTransferFreely(s: State, token: Token, from: Name, to: Name, amount: int)
    ensures Elsewhere(s, token, from, to, amount).Done? <==>
            && from != s.self && to != s.self && from != to
            && 0 < amount <= MAX_AMOUNT && amount <= BalanceOf(s.ledger, token, from)
    ensures Elsewhere(s, token, from, to, amount).Done? ==>
            var t := Elsewhere(s, token, from, to, amount).state; t == s.(ledger := t.ledger)
  {
  }

  /** A run of one call is that call; one that is refused changes nothing. */
  lemma OneStep(s: State, c: Call)
    ensures Run(s, []) == s && Run(s, [c]) == match Step(s, c) case Done(t, _) => t case Abort(_) => s
    ensures Log(s, []) == [] && Log(s, [c]) == match Step(s, c) case Done(_, events) => events case Abort(_) => []
  {
    assert [c][..0] == [];
  }

  /** A run goes on where the one before it stopped. */
  lemma {:induction false} RunsCompose(s: State, earlier: seq<Call>, later: seq<Call>)
    ensures Run(s, earlier + later) == Run(Run(s, earlier), later)
    decreases |later|
  {
    if later == [] {
      assert earlier + later == earlier;
    } else {
      var n := |later| - 1;
      assert (earlier + later)[..|earlier + later| - 1] == earlier + later[..n];
      RunsCompose(s, earlier, later[..n]);
    }
  }

  /** The log grows by the events of each call. */
  lemma LogOn(s: State, calls: seq<Call>, c: Call)
    ensures Log(s, calls + [c]) == Log(s, calls) + Events(Run(s, calls), c)
  {
    assert (calls + [c])[..|calls|] == calls;
  }

  // ---------- the token contracts ----------

  /** The contract hears of transfers at flon.token, flon.mtoken, tyche.token, sing.token and cisum.token. */
  lemma HeardAre(bank: Name)
    ensures Heard(bank) <==>
            || bank == NameOf("flon.token..") || bank == NameOf("flon.mtoken.") || bank == NameOf("tyche.token.")
            || bank == NameOf("sing.token..") || bank == NameOf("cisum.token.")
  {
    SystemToken();
    FlonMtoken();
    TycheToken();
    SingToken();
    CisumToken();
  }
}
