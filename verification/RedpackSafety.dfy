/** What every step of flon.redpack keeps: each live pot's account of its claims, the contract's
    balances, and that nobody is paid twice from one pot. */
module RedpackSafety {
  import opened Arithmetic
  import opened Tables
  import opened Ledger
  import opened RedpackSpec

  // ---------- what a share can be ----------

  /** 10^p / 10^(p-2) is 100; below two decimals the unit is one whole token. */
  lemma UnitIs(precision: nat)
    ensures Unit(precision) == if precision <= 2 then Power10(precision) else 100
  {
    if precision > 2 {
      assert Power10(precision) == 10 * (10 * Power10(precision - 2));
      HundredFold(Power10(precision - 2));
    }
  }

  lemma HundredFold(d: nat)
    requires d > 0
    ensures Quotient(10 * (10 * d), d) == 100
  {
    DivUnique(10 * (10 * d), d, 100);
  }

  /** A random share with n >= 2 shares left is a positive multiple of the unit and at most twice the
      even share, so never more than what is left: the balance check after it cannot fail. */
  lemma RandomShareBounds(p: Pot, seed: nat)
    requires p.kind == RandomShares && p.remCount >= 2 && Share(p, seed).Yes?
    ensures var unit := Unit(p.token.symbol.precision); var share := Share(p, seed).n;
            && unit > 0 && share % unit == 0
            && 0 < share <= 2 * (p.remQuant / p.remCount) <= p.remQuant
  {
    var unit := Unit(p.token.symbol.precision);
    var quantity := p.remQuant / p.remCount * 2;
    UnitMultiple(unit, seed % (quantity / unit) + 1, quantity);
    EvenShareTwice(p.remQuant, p.remCount);
  }

  lemma UnitMultiple(unit: nat, m: nat, quantity: nat)
    requires unit > 0 && 1 <= m <= quantity / unit
    ensures 0 < m * unit <= quantity && (m * unit) % unit == 0
  {
    var x := unit * m;
    MulOrder(unit, m, quantity / unit);
    MulOrder(unit, 1, m);
    assert quantity == unit * (quantity / unit) + quantity % unit;
    DivUnique(x, unit, m);
    assert x == unit * (x / unit) + x % unit;
  }

  lemma EvenShareTwice(r: nat, n: nat)
    requires n >= 2
    ensures 2 * (r / n) <= r
    ensures n >= 3 && r > 0 ==> 2 * (r / n) < r
  {
    var q := r / n;
    assert r == n * q + r % n;
    MulOrder(q, 2, n);
    if n >= 3 { MulOrder(q, 3, n); }
  }

  // ---------- the claims of a pot ----------

  function ClaimedQuant(claims: seq<Claim>, potId: nat): nat {
    if claims == [] then 0 else
    var c := claims[|claims| - 1];
    ClaimedQuant(claims[..|claims| - 1], potId) + if c.potId == potId then c.quantity else 0
  }

  function ClaimCount(claims: seq<Claim>, potId: nat): nat {
    if claims == [] then 0 else
    ClaimCount(claims[..|claims| - 1], potId) + if claims[|claims| - 1].potId == potId then 1 else 0
  }

  lemma ClaimsSnoc(claims: seq<Claim>, c: Claim, potId: nat)
    ensures ClaimedQuant(claims + [c], potId) ==
            ClaimedQuant(claims, potId) + if c.potId == potId then c.quantity else 0
    ensures ClaimCount(claims + [c], potId) == ClaimCount(claims, potId) + if c.potId == potId then 1 else 0
  {
    assert (claims + [c])[..|claims|] == claims;
  }

  lemma {:induction false} ClaimsConcat(a: seq<Claim>, b: seq<Claim>, potId: nat)
    ensures ClaimedQuant(a + b, potId) == ClaimedQuant(a, potId) + ClaimedQuant(b, potId)
    ensures ClaimCount(a + b, potId) == ClaimCount(a, potId) + ClaimCount(b, potId)
  {
    if b == [] {
      assert a + b == a;
    } else {
      var b', c := b[..|b| - 1], b[|b| - 1];
      assert a + b == (a + b') + [c] && b == b' + [c];
      ClaimsConcat(a, b', potId);
      ClaimsSnoc(a + b', c, potId);
      ClaimsSnoc(b', c, potId);
    }
  }

  lemma {:induction false} NoClaims(claims: seq<Claim>, potId: nat)
    requires forall k :: 0 <= k < |claims| ==> claims[k].potId != potId
    ensures ClaimedQuant(claims, potId) == 0 && ClaimCount(claims, potId) == 0
  {
    if claims != [] { NoClaims(claims[..|claims| - 1], potId); }
  }

  /** Dropping orphans takes nothing from a pot all of whose claims carry a live code. */
  lemma {:induction false} DropOrphansSpares(claims: seq<Claim>, live: set<Name>, max: nat, potId: nat)
    requires forall k :: 0 <= k < |claims| && claims[k].potId == potId ==> claims[k].code in live
    ensures ClaimedQuant(DropOrphans(claims, live, max), potId) == ClaimedQuant(claims, potId)
    ensures ClaimCount(DropOrphans(claims, live, max), potId) == ClaimCount(claims, potId)
    decreases |claims|
  {
    if max != 0 && claims != [] {
      var c, rest := claims[0], claims[1..];
      assert claims == [c] + rest;
      ClaimsConcat([c], rest, potId);
      if c.code in live {
        DropOrphansSpares(rest, live, max, potId);
        ClaimsConcat([c], DropOrphans(rest, live, max), potId);
      } else {
        DropOrphansSpares(rest, live, max - 1, potId);
        NoClaims([c], potId);
      }
    }
  }

  /** What is left after dropping orphans is part of what was there, and holds every claim with a live code. */
  lemma {:induction false} DropOrphansKeeps(claims: seq<Claim>, live: set<Name>, max: nat)
    ensures forall c :: c in DropOrphans(claims, live, max) ==> c in claims
    ensures forall c :: c in claims && c.code in live ==> c in DropOrphans(claims, live, max)
    decreases |claims|
  {
    if max != 0 && claims != [] {
      assert claims == [claims[0]] + claims[1..];
      DropOrphansKeeps(claims[1..], live, if claims[0].code in live then max else max - 1);
    }
  }

  lemma {:induction false} DropOrphansInOrder(claims: seq<Claim>, live: set<Name>, max: nat)
    requires InKeyOrder(claims)
    ensures InKeyOrder(DropOrphans(claims, live, max))
    decreases |claims|
  {
    if max != 0 && claims != [] {
      var left := if claims[0].code in live then max else max - 1;
      DropOrphansInOrder(claims[1..], live, left);
      FirstIdIsLeast(claims, live, left);
    }
  }

  lemma FirstIdIsLeast(claims: seq<Claim>, live: set<Name>, max: nat)
    requires InKeyOrder(claims) && claims != []
    ensures forall k :: 0 <= k < |DropOrphans(claims[1..], live, max)| ==>
              claims[0].id < DropOrphans(claims[1..], live, max)[k].id
  {
    DropOrphansKeeps(claims[1..], live, max);
    forall k | 0 <= k < |DropOrphans(claims[1..], live, max)|
      ensures claims[0].id < DropOrphans(claims[1..], live, max)[k].id
    {
      var c := DropOrphans(claims[1..], live, max)[k];
      assert c in claims[1..];
      var j :| 0 < j < |claims| && claims[j] == c;
    }
  }

  // ---------- the invariant ----------

  /** A pot pays `even` per share until the last one, which takes whatever is left. */
  predicate MeanSchedule(p: Pot)
    requires p.totalCount > 0
  {
    p.remQuant == if p.remCount == 0 then 0
                  else p.totalQuant - (p.totalCount - p.remCount) * (p.totalQuant / p.totalCount)
  }

  predicate PotOk(p: Pot) {
    && 0 < p.totalCount && p.remCount <= p.totalCount && p.remQuant <= p.totalQuant <= MAX_AMOUNT
    && p.totalQuant / p.totalCount >= 100
    && (p.remCount == 0 <==> p.status == Exhausted)
    && (p.remCount == 0 ==> p.remQuant == 0)
    && (p.remQuant == 0 ==> p.remCount <= 1)
    && (p.kind == MeanShares ==> MeanSchedule(p))
  }

  /** A live pot's account: its claims make up exactly what it no longer has, in amount and in number. */
  predicate Accounted(p: Pot, claims: seq<Claim>) {
    && p.totalQuant == p.remQuant + ClaimedQuant(claims, p.id)
    && p.totalCount == p.remCount + ClaimCount(claims, p.id)
  }

  ghost predicate PotsOk(s: State) {
    forall code :: code in s.pots ==>
      PotOk(s.pots[code]) && s.pots[code].id <= s.lastPotId && s.pots[code].creator != s.self &&
      Heard(s.pots[code].token.bank)
  }

  ghost predicate DistinctIds(pots: map<Name, Pot>) {
    forall c, d :: c in pots && d in pots && pots[c].id == pots[d].id ==> c == d
  }

  /** The claim table is in key order. */
  ghost predicate InKeyOrder(claims: seq<Claim>) {
    forall j, k :: 0 <= j < k < |claims| ==> claims[j].id < claims[k].id
  }

  /** Ids are handed out upwards, a claim on a live pot carries that pot's code, and a claim that carries
      the code of a live pot is on it or on an older one. */
  ghost predicate ClaimsOk(s: State) {
    InKeyOrder(s.claims) && forall k :: 0 <= k < |s.claims| ==> ClaimOk(s, s.claims[k])
  }

  ghost predicate ClaimOk(s: State, c: Claim) {
    && c.potId <= s.lastPotId && c.id <= s.lastClaimId
    && (forall code :: code in s.pots && s.pots[code].id == c.potId ==> code == c.code)
    && (c.code in s.pots ==> c.potId <= s.pots[c.code].id)
  }

  ghost predicate Books(s: State) {
    forall code :: code in s.pots ==> Accounted(s.pots[code], s.claims)
  }

  ghost predicate Inv(s: State) {
    PotsOk(s) && DistinctIds(s.pots) && ClaimsOk(s) && Books(s)
  }

  ghost predicate Genesis(s: State) {
    s.pots == map[] && s.claims == [] && forall t :: BalanceOf(s.ledger, t, s.self) == 0
  }

  lemma GenesisIsFine(s: State)
    requires Genesis(s)
    ensures Inv(s) && Funds(s)
  {
  }

  function HeldAs(t: Token): Pot -> int {
    (p: Pot) => if p.token == t then p.remQuant else 0
  }

  /** What the contract owns of a token beyond what its pots have left; negative when it falls short. */
  ghost function Excess(s: State, t: Token): int {
    BalanceOf(s.ledger, t, s.self) - Sum(s.pots, HeldAs(t))
  }

  /** The contract owns of each token it can hear of exactly what its pots have left. */
  ghost predicate Solvent(s: State, t: Token) {
    Heard(t.bank) ==> Excess(s, t) == 0
  }

  ghost predicate Funds(s: State) {
    forall t :: Solvent(s, t)
  }

  // ---------- the rows and the account of each pot ----------

  lemma NewPotOk(p: Pot)
    requires p.remQuant == p.totalQuant && p.remCount == p.totalCount > 0 && p.status != Exhausted
    requires p.totalQuant / p.totalCount >= 100 && p.totalQuant <= MAX_AMOUNT
    ensures PotOk(p)
  {
  }

  lemma OpenPotKeeps(s: State, now: nat, from: Name, token: Token, amount: nat, w: Wrap)
    requires Inv(s) && from != s.self && amount <= MAX_AMOUNT && Heard(token.bank)
             && OpenPot(s, now, from, token, amount, w).Done?
    ensures Inv(OpenPot(s, now, from, token, amount, w).state)
  {
    var t := OpenPot(s, now, from, token, amount, w).state;
    NewPotOk(t.pots[w.code]);
    FreshPotKeeps(s, t, w.code, t.pots[w.code]);
  }

  /** Adding a pot with a new code and the next id. */
  lemma FreshPotKeeps(s: State, t: State, code: Name, p: Pot)
    requires Inv(s) && code !in s.pots && PotOk(p) && p.creator != s.self && Heard(p.token.bank)
    requires p.id == s.lastPotId + 1 && p.remQuant == p.totalQuant && p.remCount == p.totalCount
    requires t == s.(pots := s.pots[code := p], lastPotId := p.id)
    ensures Inv(t)
  {
    forall k | 0 <= k < |t.claims| ensures ClaimOk(t, t.claims[k]) && t.claims[k].potId != p.id {
      assert ClaimOk(s, s.claims[k]);
    }
    NoClaims(s.claims, p.id);
    forall c | c in t.pots ensures Accounted(t.pots[c], t.claims) {
      if c != code { assert Accounted(s.pots[c], s.claims); }
    }
  }

  /** Writing a pot without touching its id or its account. */
  lemma PotTouchKeeps(s: State, t: State, code: Name, p: Pot)
    requires Inv(s) && code in s.pots && p == s.pots[code].(status := p.status) && PotOk(p)
    requires t == s.(pots := s.pots[code := p], ledger := t.ledger)
    ensures Inv(t)
  {
    SameIdsKeepClaims(s, t);
    forall c | c in t.pots ensures Accounted(t.pots[c], t.claims) {
      assert Accounted(s.pots[c], s.claims);
    }
  }

  lemma SameIdsKeepClaims(s: State, t: State)
    requires ClaimsOk(s) && t.claims == s.claims && t.lastPotId == s.lastPotId && t.lastClaimId >= s.lastClaimId
    requires forall c :: c in t.pots ==> c in s.pots && t.pots[c].id == s.pots[c].id
    ensures ClaimsOk(t)
  {
    forall k | 0 <= k < |t.claims| ensures ClaimOk(t, t.claims[k]) {
      assert ClaimOk(s, s.claims[k]);
    }
  }

  /** The pot after a claim took `share`. */
  function Taken(p: Pot, share: nat): Pot
    requires share <= p.remQuant && p.remCount > 0
  {
    p.(remQuant := p.remQuant - share, remCount := p.remCount - 1,
       status := if p.remCount == 1 then Exhausted else p.status)
  }

  lemma MeanArithmetic(total: nat, count: nat, left: nat, even: nat)
    requires count > 0 && 1 <= left <= count && even == total / count
    ensures total - (count - left) * even >= left * even
    ensures total - (count - (left - 1)) * even == total - (count - left) * even - even
  {
    assert total == count * even + total % count;
    assert (count - left) * even == count * even - left * even;
    assert (count - (left - 1)) * even == (count - left) * even + even;
  }

  /** Every share there is fits what is left, and leaves the pot in order. */
  lemma ShareKeepsPot(p: Pot, seed: nat)
    requires PotOk(p) && p.remCount > 0 && Share(p, seed).Yes?
    ensures Share(p, seed).n <= p.remQuant
    ensures PotOk(Taken(p, Share(p, seed).n))
  {
    var share := Share(p, seed).n;
    if p.remCount > 1 {
      match p.kind
      case MeanShares =>
        MeanArithmetic(p.totalQuant, p.totalCount, p.remCount, share);
        MulOrder(share, 2, p.remCount);
      case RandomShares =>
        RandomShareBounds(p, seed);
        EvenShareTwice(p.remQuant, p.remCount);
    }
  }

  /** A pot shared evenly pays floor(T/N) to each but the last claim, which takes T - (N-1) floor(T/N). */
  lemma MeanSharePays(p: Pot, seed: nat)
    requires PotOk(p) && p.kind == MeanShares && p.remCount > 0
    ensures Share(p, seed) ==
            Yes(if p.remCount == 1 then p.totalQuant - (p.totalCount - 1) * (p.totalQuant / p.totalCount)
                                  else p.totalQuant / p.totalCount)
  {
  }

  /** A pot is exhausted once its last share is claimed, and then its claims are exactly as many as
      its shares and took exactly its total. */
  lemma ExhaustedIsPaidOut(s: State, code: Name)
    requires Inv(s) && code in s.pots
    ensures var p := s.pots[code];
            p.status == Exhausted <==> ClaimCount(s.claims, p.id) == p.totalCount
    ensures var p := s.pots[code];
            p.status == Exhausted ==> ClaimedQuant(s.claims, p.id) == p.totalQuant
  {
    assert PotOk(s.pots[code]) && Accounted(s.pots[code], s.claims);
  }

  /** Exactly when a claim goes through. The last clause is a random share that rounds to no unit at
      all, where the source divides by zero. */
  lemma ClaimSucceedsIff(s: State, b: Bid)
    requires Inv(s) && Funds(s)
    ensures ClaimRedpack(s, b).Done? <==>
              && b.code in s.pots && s.pots[b.code].pwhash == b.pwhash
              && !Claimed(s.claims, b.claimer, b.code) && b.claimer != s.self
              && var p := s.pots[b.code];
                 p.status == Servicing && p.remQuant > 0 && (p.didRequired ==> b.didSupported && b.didMatched) &&
                 (p.kind == RandomShares && p.remCount > 1 ==>
                    p.remQuant / p.remCount * 2 >= Unit(p.token.symbol.precision))
  {
    if b.code in s.pots && s.pots[b.code].status == Servicing && s.pots[b.code].remQuant > 0 {
      assert PotOk(s.pots[b.code]);
      ShareThereIs(s.pots[b.code], b.seed);
      PotIsFunded(s, b.code);
    }
  }

  lemma PotIsFunded(s: State, code: Name)
    requires Funds(s) && code in s.pots && Heard(s.pots[code].token.bank)
    ensures s.pots[code].remQuant <= BalanceOf(s.ledger, s.pots[code].token, s.self)
  {
    var t := s.pots[code].token;
    assert Solvent(s, t);
    SumCovers(s.pots, HeldAs(t));
    assert HeldAs(t)(s.pots[code]) == s.pots[code].remQuant;
  }

  /** A pot with something left has a share to give, positive and within what is left, unless a random
      share would round to no unit at all. */
  lemma ShareThereIs(p: Pot, seed: nat)
    requires PotOk(p) && p.remCount > 0 && p.remQuant > 0
    ensures Share(p, seed).Yes? <==>
            (p.kind == RandomShares && p.remCount > 1 ==> p.remQuant / p.remCount * 2 >= Unit(p.token.symbol.precision))
    ensures Share(p, seed).Yes? ==> 0 < Share(p, seed).n <= p.remQuant
  {
    UnitPositive(p.token.symbol.precision);
    if p.kind == RandomShares && p.remCount > 1 {
      QuotientZeroIff(p.remQuant / p.remCount * 2, Unit(p.token.symbol.precision));
    }
    if Share(p, seed).Yes? {
      ShareKeepsPot(p, seed);
      SharePositive(p, seed);
    }
  }

  lemma UnitPositive(precision: nat)
    ensures Unit(precision) > 0
  {
    UnitIs(precision);
  }

  lemma QuotientZeroIff(a: nat, b: nat)
    requires b > 0
    ensures a / b == 0 <==> a < b
  {
    assert a == b * (a / b) + a % b;
    MulOrder(b, 1, a / b);
  }

  lemma SharePositive(p: Pot, seed: nat)
    requires PotOk(p) && p.remCount > 0 && p.remQuant > 0 && Share(p, seed).Yes?
    ensures Share(p, seed).n > 0
  {
    if p.kind == RandomShares && p.remCount > 1 { RandomShareBounds(p, seed); }
  }

  lemma ClaimKeeps(s: State, b: Bid)
    requires Inv(s) && ClaimRedpack(s, b).Done?
    ensures Inv(ClaimRedpack(s, b).state)
  {
    var t := ClaimRedpack(s, b).state;
    var p := s.pots[b.code];
    var c := t.claims[|s.claims|];
    ShareKeepsPot(p, b.seed);
    assert t.claims == s.claims + [c] && t.pots == s.pots[b.code := Taken(p, c.quantity)];
    AppendKeepsRows(s, t, b.code, c);
    AppendKeepsBooks(s, t, b.code, c);
  }

  lemma AppendKeepsRows(s: State, t: State, code: Name, c: Claim)
    requires PotsOk(s) && DistinctIds(s.pots) && ClaimsOk(s) && code in s.pots && c.quantity <= s.pots[code].remQuant
    requires s.pots[code].remCount > 0 && PotOk(Taken(s.pots[code], c.quantity))
    requires c.potId == s.pots[code].id && c.code == code && c.id == t.lastClaimId == s.lastClaimId + 1
    requires t == s.(pots := s.pots[code := Taken(s.pots[code], c.quantity)], claims := s.claims + [c],
                     lastClaimId := t.lastClaimId, ledger := t.ledger)
    ensures PotsOk(t) && DistinctIds(t.pots) && ClaimsOk(t)
  {
    forall k | 0 <= k < |t.claims| ensures ClaimOk(t, t.claims[k]) {
      if k < |s.claims| { assert ClaimOk(s, s.claims[k]); }
    }
  }

  lemma AppendKeepsBooks(s: State, t: State, code: Name, c: Claim)
    requires Books(s) && DistinctIds(s.pots) && code in s.pots && c.quantity <= s.pots[code].remQuant
    requires s.pots[code].remCount > 0 && c.potId == s.pots[code].id
    requires t.claims == s.claims + [c] && t.pots == s.pots[code := Taken(s.pots[code], c.quantity)]
    ensures Books(t)
  {
    forall d | d in t.pots ensures Accounted(t.pots[d], t.claims) {
      assert Accounted(s.pots[d], s.claims);
      ClaimsSnoc(s.claims, c, s.pots[d].id);
    }
  }

  lemma CancelKeeps(s: State, now: nat, code: Name)
    requires Inv(s) && Cancel(s, now, code).Done?
    ensures Inv(Cancel(s, now, code).state)
  {
    var t := Cancel(s, now, code).state;
    SameIdsKeepClaims(s, t);
    forall c | c in t.pots ensures Accounted(t.pots[c], t.claims) {
      assert Accounted(s.pots[c], s.claims);
    }
  }

  /** Collecting claims never touches the claims of a live pot. */
  lemma DelClaimsKeeps(s: State, maxRows: nat)
    requires Inv(s)
    ensures Inv(s.(claims := DropOrphans(s.claims, s.pots.Keys, maxRows)))
  {
    var t := s.(claims := DropOrphans(s.claims, s.pots.Keys, maxRows));
    DropOrphansKeeps(s.claims, s.pots.Keys, maxRows);
    DropOrphansInOrder(s.claims, s.pots.Keys, maxRows);
    forall k | 0 <= k < |t.claims| ensures ClaimOk(t, t.claims[k]) {
      assert t.claims[k] in s.claims;
    }
    forall code | code in t.pots ensures Accounted(t.pots[code], t.claims) {
      assert Accounted(s.pots[code], s.claims);
      forall k | 0 <= k < |s.claims| && s.claims[k].potId == s.pots[code].id ensures s.claims[k].code in s.pots.Keys {
        assert ClaimOk(s, s.claims[k]);
      }
      DropOrphansSpares(s.claims, s.pots.Keys, maxRows, s.pots[code].id);
    }
  }

  lemma SameTablesKeep(s: State, t: State)
    requires Inv(s) && t.pots == s.pots && t.claims == s.claims && t.self == s.self
    requires t.lastPotId == s.lastPotId && t.lastClaimId == s.lastClaimId
    ensures Inv(t)
  {
    SameIdsKeepClaims(s, t);
    forall c | c in t.pots ensures Accounted(t.pots[c], t.claims) {
      assert Accounted(s.pots[c], s.claims);
    }
  }

  /** One step of any kind keeps the rows and the account of every live pot. */
  lemma StepKeeps(s: State, c: Call)
    requires Inv(s)
    ensures Inv(After(s, c))
  {
    if Step(s, c).Done? {
      var t := After(s, c);
      match c.action
      case DoDeposit(from, token, amount, wrap) =>
        var u := s.(ledger := Transfer(s.ledger, token, from, s.self, amount).value);
        SameTablesKeep(s, u);
        if Heard(token.bank) { OpenPotKeeps(u, c.now, from, token, amount, wrap); }
      case DoPayFee(_, token, _, code) =>
        if Heard(token.bank) { PotTouchKeeps(s, t, code, t.pots[code]); } else { SameTablesKeep(s, t); }
      case DoClaim(bid) => ClaimKeeps(s, bid);
      case DoCancel(code) => CancelKeeps(s, c.now, code);
      case DoDelClaims(maxRows) => DelClaimsKeeps(s, maxRows);
      case _ => SameTablesKeep(s, t);
    }
  }

  /** Over every run: a live pot's total is what it has left plus what its claims took, its share
      count likewise, an exhausted pot has nothing left, and an empty one at most one share. */
  lemma {:induction false} EveryRunKeeps(s: State, calls: seq<Call>)
    requires Inv(s)
    ensures Inv(Run(s, calls))
    decreases |calls|
  {
    if calls != [] {
      EveryRunKeeps(s, calls[..|calls| - 1]);
      StepKeeps(Run(s, calls[..|calls| - 1]), calls[|calls| - 1]);
    }
  }

  // ---------- the contract's balances ----------

  /** What an accepted call pays as a fee in FLON of another bank than the system's. */
  function ForeignFee(s: State, c: Call): nat {
    if c.action.DoPayFee? && Heard(c.action.token.bank) && c.action.token.bank != SYS_BANK && Step(s, c).Done?
    then c.action.amount else 0
  }

  /** How a call moves the excess of a token: a foreign fee stays as excess of its own token, and is
      forwarded out of the FLON of the pots. */
  function Shift(s: State, c: Call, t: Token): int {
    if t == FLON then 0 - ForeignFee(s, c)
    else if c.action.DoPayFee? && c.action.token == t then ForeignFee(s, c)
    else 0
  }

  lemma WritePotFunds(s: State, code: Name, p: Pot, t: Token)
    ensures Sum(s.pots[code := p], HeldAs(t)) == Sum(s.pots, HeldAs(t))
              + (if p.token == t then p.remQuant else 0)
              - (if code in s.pots && s.pots[code].token == t then s.pots[code].remQuant else 0)
  {
    SumWrite(s.pots, HeldAs(t), code, p);
  }

  lemma DepositExcess(s: State, now: nat, from: Name, token: Token, amount: int, w: Wrap, t: Token)
    requires Deposit(s, now, from, token, amount, w).Done? && Heard(t.bank)
    ensures Excess(Deposit(s, now, from, token, amount, w).state, t) == Excess(s, t)
  {
    TransferMoves(s.ledger, token, from, s.self, amount);
    var r := Deposit(s, now, from, token, amount, w).state;
    if Heard(token.bank) { WritePotFunds(s, w.code, r.pots[w.code], t); }
  }

  lemma FeeExcess(s: State, from: Name, token: Token, amount: int, code: Name, t: Token)
    requires PayFee(s, from, token, amount, code).Done? && Heard(t.bank)
    ensures Excess(PayFee(s, from, token, amount, code).state, t) == Excess(s, t)
              + (if t == token && Heard(token.bank) then amount else 0)
              - (if t == FLON && Heard(token.bank) then amount else 0)
  {
    TransferMoves(s.ledger, token, from, s.self, amount);
    if Heard(token.bank) {
      var mid := Transfer(s.ledger, token, from, s.self, amount).value;
      TransferMoves(mid, FLON, s.self, s.admin, amount);
      var r := PayFee(s, from, token, amount, code).state;
      WritePotFunds(s, code, r.pots[code], t);
    }
  }

  lemma ClaimExcess(s: State, b: Bid, t: Token)
    requires ClaimRedpack(s, b).Done?
    ensures Excess(ClaimRedpack(s, b).state, t) == Excess(s, t)
  {
    var p := s.pots[b.code];
    TransferMoves(s.ledger, p.token, s.self, b.claimer, Share(p, b.seed).n);
    WritePotFunds(s, b.code, ClaimRedpack(s, b).state.pots[b.code], t);
  }

  lemma CancelExcess(s: State, now: nat, code: Name, t: Token)
    requires Inv(s) && Cancel(s, now, code).Done?
    ensures Excess(Cancel(s, now, code).state, t) == Excess(s, t)
  {
    var p := s.pots[code];
    assert PotOk(p);
    if p.remQuant > 0 { TransferMoves(s.ledger, p.token, s.self, p.creator, p.remQuant); }
    SumErase(s.pots, HeldAs(t), code);
  }

  /** Every call moves the excess of each token by its shift: only foreign fees move any. */
  lemma StepExcess(s: State, c: Call, t: Token)
    requires Inv(s) && Heard(t.bank)
    ensures Excess(After(s, c), t) == Excess(s, t) + Shift(s, c, t)
  {
    if Step(s, c).Done? {
      match c.action
      case DoDeposit(from, token, amount, wrap) => DepositExcess(s, c.now, from, token, amount, wrap, t);
      case DoPayFee(from, token, amount, code) => FeeExcess(s, from, token, amount, code, t);
      case DoClaim(bid) => ClaimExcess(s, bid, t);
      case DoCancel(code) => CancelExcess(s, c.now, code, t);
      case DoElsewhere(token, from, to, amount) => TransferMoves(s.ledger, token, from, to, amount);
      case _ =>
    }
  }

  /** A call leaves the balances matching the pots exactly unless it is an accepted foreign fee. */
  lemma StepIsSolventIff(s: State, c: Call)
    requires Inv(s) && Funds(s)
    ensures Funds(After(s, c)) <==> ForeignFee(s, c) == 0
  {
    forall t: Token | Heard(t.bank) ensures Excess(After(s, c), t) == Shift(s, c, t) {
      StepExcess(s, c, t);
      assert Solvent(s, t);
    }
    if Funds(After(s, c)) { assert Solvent(After(s, c), FLON); }
  }

  /** All the foreign fees a run accepts, and how they shift the excess of a token. */
  function ForeignFees(s: State, calls: seq<Call>): nat {
    if calls == [] then 0 else
    ForeignFees(s, calls[..|calls| - 1]) + ForeignFee(Run(s, calls[..|calls| - 1]), calls[|calls| - 1])
  }

  function Shifts(s: State, calls: seq<Call>, t: Token): int {
    if calls == [] then 0 else
    Shifts(s, calls[..|calls| - 1], t) + Shift(Run(s, calls[..|calls| - 1]), calls[|calls| - 1], t)
  }

  lemma {:induction false} RunExcess(s: State, calls: seq<Call>, t: Token)
    requires Inv(s) && Heard(t.bank)
    ensures Excess(Run(s, calls), t) == Excess(s, t) + Shifts(s, calls, t)
    decreases |calls|
  {
    if calls != [] {
      RunExcess(s, calls[..|calls| - 1], t);
      EveryRunKeeps(s, calls[..|calls| - 1]);
      StepExcess(Run(s, calls[..|calls| - 1]), calls[|calls| - 1], t);
    }
  }

  lemma {:induction false} ShiftsAreFees(s: State, calls: seq<Call>, t: Token)
    ensures t == FLON ==> Shifts(s, calls, t) == 0 - ForeignFees(s, calls)
    ensures t != FLON ==> 0 <= Shifts(s, calls, t) <= ForeignFees(s, calls)
    decreases |calls|
  {
    if calls != [] { ShiftsAreFees(s, calls[..|calls| - 1], t); }
  }

  /** Over every run, the FLON the contract owns falls short of what its FLON pots have left by exactly
      the foreign fees it accepted. So the balance of each token of the five banks is the sum of what the
      pots in it have left if and only if no foreign fee was accepted. */
  lemma EveryRunIsSolventIff(s: State, calls: seq<Call>)
    requires Inv(s) && Funds(s)
    ensures BalanceOf(Run(s, calls).ledger, FLON, Run(s, calls).self) ==
            Sum(Run(s, calls).pots, HeldAs(FLON)) - ForeignFees(s, calls)
    ensures Funds(Run(s, calls)) <==> ForeignFees(s, calls) == 0
  {
    forall t: Token | Heard(t.bank) ensures Excess(Run(s, calls), t) == Shifts(s, calls, t) {
      RunExcess(s, calls, t);
      assert Solvent(s, t);
    }
    ShiftsAreFees(s, calls, FLON);
    if ForeignFees(s, calls) == 0 {
      forall t ensures Solvent(Run(s, calls), t) { ShiftsAreFees(s, calls, t); }
    } else {
      assert !Solvent(Run(s, calls), FLON);
    }
  }

  lemma {:induction false} NoFeesUnlessRequired(s: State, calls: seq<Call>)
    requires !s.feeRequired
    ensures !Run(s, calls).feeRequired && ForeignFees(s, calls) == 0
    decreases |calls|
  {
    if calls != [] { NoFeesUnlessRequired(s, calls[..|calls| - 1]); }
  }

  /** As deployed the contract asks for no fee, and no action changes that. So over every run from
      deployment the balance of each token of the five banks is what its pots have left. */
  lemma EveryRunIsSolvent(s: State, calls: seq<Call>)
    requires Genesis(s) && !s.feeRequired
    ensures Funds(Run(s, calls))
  {
    GenesisIsFine(s);
    NoFeesUnlessRequired(s, calls);
    EveryRunIsSolventIff(s, calls);
  }
}
