/** The wallets of flon.split: the contract can always cover them, and claiming drains them. */
module SplitWallets {
  import opened Tables
  import opened Ledger
  import opened SplitSpec
  import opened SplitSafety

  // ---------- the invariant ----------

  function Holding(t: Token): Wallet -> int {
    (w: Wallet) => Amount(w, t)
  }

  predicate WalletOk(w: Wallet) {
    |w| > 0 && forall t :: t in w ==> 0 < w[t] <= MAX_AMOUNT
  }

  ghost predicate PlansOk(s: State) {
    forall id :: id in s.plans ==> ValidConf(s.plans[id].conf) && id <= s.lastPlanId
  }

  ghost predicate Rows(s: State) {
    PlansOk(s) && forall key :: key in s.wallets ==> key.0 in s.plans && WalletOk(s.wallets[key])
  }

  /** The contract owns `extra` of `token` beyond what its wallets hold of each token. */
  ghost predicate OwnsBeyond(s: State, token: Token, extra: int, t: Token) {
    BalanceOf(s.ledger, t, s.self) == Sum(s.wallets, Holding(t)) + if t == token then extra else 0
  }

  ghost predicate Beyond(s: State, token: Token, extra: int) {
    forall t :: OwnsBeyond(s, token, extra, t)
  }

  /** The contract owns of each token exactly what its wallets hold. */
  ghost predicate Solvent(s: State, t: Token) {
    BalanceOf(s.ledger, t, s.self) == Sum(s.wallets, Holding(t))
  }

  ghost predicate Funds(s: State) {
    forall t :: Solvent(s, t)
  }

  ghost predicate Inv(s: State) {
    Rows(s) && Funds(s)
  }

  ghost predicate Genesis(s: State) {
    s.plans == map[] && s.wallets == map[] && forall t :: BalanceOf(s.ledger, t, s.self) == 0
  }

  lemma GenesisIsFine(s: State)
    requires Genesis(s)
    ensures Inv(s)
  {
  }

  // ---------- splitting ----------

  /** Awarding one payout uses up that much of what the contract owns beyond its wallets. */
  lemma AwardUses(s: State, planId: nat, auto: bool, token: Token, p: Payout, extra: int)
    requires p.amount > 0 && Beyond(s, token, extra) && Award(s, planId, auto, token, p).Done?
    ensures Beyond(Award(s, planId, auto, token, p).state, token, extra - p.amount)
  {
    var r := Award(s, planId, auto, token, p).state;
    if auto { TransferMoves(s.ledger, token, s.self, p.to, p.amount); }
    var left := extra - p.amount;
    forall t ensures OwnsBeyond(r, token, left, t) {
      assert OwnsBeyond(s, token, extra, t);
      if !auto {
        SumWrite(s.wallets, Holding(t), (planId, p.to), r.wallets[(planId, p.to)]);
      }
    }
  }

  lemma AwardKeepsRows(s: State, planId: nat, auto: bool, token: Token, p: Payout)
    requires Rows(s) && planId in s.plans && p.amount > 0 && Award(s, planId, auto, token, p).Done?
    ensures Rows(Award(s, planId, auto, token, p).state) && planId in Award(s, planId, auto, token, p).state.plans
  {
  }

  lemma {:induction false} AwardAllUses(s: State, planId: nat, auto: bool, token: Token, payouts: seq<Payout>,
                                        extra: int)
    requires Beyond(s, token, extra) && forall k :: 0 <= k < |payouts| ==> payouts[k].amount > 0
    requires AwardAll(s, planId, auto, token, payouts).Done?
    ensures Beyond(AwardAll(s, planId, auto, token, payouts).state, token, extra - Total(payouts))
    decreases |payouts|
  {
    if payouts != [] {
      AwardUses(s, planId, auto, token, payouts[0], extra);
      var t := Award(s, planId, auto, token, payouts[0]).state;
      AwardAllUses(t, planId, auto, token, payouts[1..], extra - payouts[0].amount);
      assert AwardAll(s, planId, auto, token, payouts) == AwardAll(t, planId, auto, token, payouts[1..]);
    }
  }

  lemma {:induction false} AwardAllKeepsRows(s: State, planId: nat, auto: bool, token: Token, payouts: seq<Payout>)
    requires Rows(s) && planId in s.plans && forall k :: 0 <= k < |payouts| ==> payouts[k].amount > 0
    requires AwardAll(s, planId, auto, token, payouts).Done?
    ensures Rows(AwardAll(s, planId, auto, token, payouts).state)
    decreases |payouts|
  {
    if payouts != [] {
      AwardKeepsRows(s, planId, auto, token, payouts[0]);
      var t := Award(s, planId, auto, token, payouts[0]).state;
      AwardAllKeepsRows(t, planId, auto, token, payouts[1..]);
      assert AwardAll(s, planId, auto, token, payouts) == AwardAll(t, planId, auto, token, payouts[1..]);
    }
  }

  function WalletOf(s: State, planId: nat, who: Name): Wallet {
    if (planId, who) in s.wallets then s.wallets[(planId, who)] else map[]
  }

  /** Where the payouts go: an auto plan moves each receiver's total into its balance and leaves the
      wallets alone; a manual plan moves it into the receiver's wallet and leaves the ledger alone. */
  lemma {:induction false} AwardAllPays(s: State, planId: nat, auto: bool, token: Token, payouts: seq<Payout>,
                                        who: Name)
    requires AwardAll(s, planId, auto, token, payouts).Done? && who != s.self
    ensures var t := AwardAll(s, planId, auto, token, payouts).state;
            if auto then
              t.wallets == s.wallets &&
              BalanceOf(t.ledger, token, who) == BalanceOf(s.ledger, token, who) + Received(payouts, who)
            else
              t.ledger == s.ledger &&
              Amount(WalletOf(t, planId, who), token) ==
              Amount(WalletOf(s, planId, who), token) + Received(payouts, who)
    decreases |payouts|
  {
    if payouts != [] {
      var p := payouts[0];
      if auto { TransferMoves(s.ledger, token, s.self, p.to, p.amount); }
      var m := Award(s, planId, auto, token, p).state;
      AwardAllPays(m, planId, auto, token, payouts[1..], who);
      assert AwardAll(s, planId, auto, token, payouts) == AwardAll(m, planId, auto, token, payouts[1..]);
    }
  }

  /** A deposit takes its amount from the payer and pays every account but the contract, the payer
      included, exactly its payouts: under an auto plan into its balance, under a manual one into its wallet. */
  lemma DepositPays(s: State, from: Name, token: Token, quant: int, planId: nat, who: Name)
    requires Inv(s) && Deposit(s, from, token, quant, planId).Done? && who != s.self
    ensures planId in s.plans && quant > 0 && s.plans[planId].conf != []
    ensures AllPayouts(quant, s.plans[planId].conf).Some?
    ensures var plan, t := s.plans[planId], Deposit(s, from, token, quant, planId).state;
            var due := Received(AllPayouts(quant, plan.conf).value, who);
            && BalanceOf(t.ledger, token, who) == BalanceOf(s.ledger, token, who)
                 - (if who == from then quant else 0) + (if plan.auto then due else 0)
            && Amount(WalletOf(t, planId, who), token) ==
               Amount(WalletOf(s, planId, who), token) + (if plan.auto then 0 else due)
  {
    TransferMoves(s.ledger, token, from, s.self, quant);
    var m := s.(ledger := Transfer(s.ledger, token, from, s.self, quant).value);
    var plan := s.plans[planId];
    DivisionIsExact(quant, plan.conf);
    AwardAllPays(m, planId, plan.auto, token, AllPayouts(quant, plan.conf).value, who);
  }

  lemma DepositKeeps(s: State, from: Name, token: Token, quant: int, planId: nat)
    requires Inv(s) && Deposit(s, from, token, quant, planId).Done?
    ensures Inv(Deposit(s, from, token, quant, planId).state)
  {
    TransferMoves(s.ledger, token, from, s.self, quant);
    var m := s.(ledger := Transfer(s.ledger, token, from, s.self, quant).value);
    forall t ensures OwnsBeyond(m, token, quant, t) { assert Solvent(s, t); }
    var plan := s.plans[planId];
    DivisionIsExact(quant, plan.conf);
    var payouts := AllPayouts(quant, plan.conf).value;
    AwardAllUses(m, planId, plan.auto, token, payouts, quant);
    AwardAllKeepsRows(m, planId, plan.auto, token, payouts);
    var r := AwardAll(m, planId, plan.auto, token, payouts).state;
    forall t ensures Solvent(r, t) { assert OwnsBeyond(r, token, quant - Total(payouts), t); }
  }

  // ---------- paying wallets ----------

  /** What a paid wallet does to every balance. */
  lemma {:induction false} PayTokensMoves(b: Balances, from: Name, to: Name, w: Wallet)
    requires PayTokens(b, from, to, w).Some? && from != to
    ensures forall t, who :: BalanceOf(PayTokens(b, from, to, w).value, t, who) ==
              BalanceOf(b, t, who) + (if who == to then Amount(w, t) else 0) - (if who == from then Amount(w, t) else 0)
    decreases |w|
  {
    if w.Keys != {} {
      var k := AnyOf(w.Keys);
      if w[k] > 0 { TransferMoves(b, k, from, to, w[k]); }
      PayTokensMoves(PayToken(b, from, to, k, w[k]).value, from, to, w - {k});
    }
  }

  /** A wallet with positive amounts is paid exactly when its owner is not the payer and the payer
      holds every amount. */
  lemma {:induction false} PayTokensIff(b: Balances, from: Name, to: Name, w: Wallet)
    requires forall t :: t in w ==> 0 < w[t] <= MAX_AMOUNT
    ensures PayTokens(b, from, to, w).Some? <==>
            w == map[] || (from != to && forall t :: t in w ==> w[t] <= BalanceOf(b, t, from))
    decreases |w|
  {
    if w.Keys != {} {
      var k := AnyOf(w.Keys);
      var paid := PayToken(b, from, to, k, w[k]);
      if paid.Some? {
        TransferMoves(b, k, from, to, w[k]);
        var rest := w - {k};
        PayTokensIff(paid.value, from, to, rest);
        assert forall t :: t in w <==> t == k || t in rest;
      }
    }
  }

  /** The order in which a wallet's tokens are sent does not matter. */
  lemma {:induction false} PayInAnyOrder(b: Balances, from: Name, to: Name, w: Wallet, k: Token)
    requires k in w
    ensures PayTokens(b, from, to, w) ==
            match PayToken(b, from, to, k, w[k])
            case None => None
            case Some(after) => PayTokens(after, from, to, w - {k})
    decreases |w|
  {
    var j := AnyOf(w.Keys);
    if j != k {
      var viaJ, viaK := PayToken(b, from, to, j, w[j]), PayToken(b, from, to, k, w[k]);
      PaymentsCommute(b, from, to, j, w[j], k, w[k]);
      assert w - {j} - {k} == w - {k} - {j};
      if viaJ.Some? { PayInAnyOrder(viaJ.value, from, to, w - {j}, k); }
      if viaK.Some? { PayInAnyOrder(viaK.value, from, to, w - {k}, j); }
    }
  }

  function Then(o: Option<Balances>, from: Name, to: Name, t: Token, amount: nat): Option<Balances> {
    match o case None => None case Some(b) => PayToken(b, from, to, t, amount)
  }

  lemma PaymentsCommute(b: Balances, from: Name, to: Name, j: Token, m: nat, k: Token, n: nat)
    requires j != k
    ensures Then(PayToken(b, from, to, j, m), from, to, k, n) == Then(PayToken(b, from, to, k, n), from, to, j, m)
  {
    if m > 0 && n > 0 {
      var x, y := Transfer(b, j, from, to, m), Transfer(b, k, from, to, n);
      if x.Some? { TransferMoves(b, j, from, to, m); }
      if y.Some? { TransferMoves(b, k, from, to, n); }
      if x.Some? && y.Some? {
        assert Transfer(x.value, k, from, to, n).value == Transfer(y.value, j, from, to, m).value;
      }
    }
  }

  lemma WalletIsCovered(s: State, key: (nat, Name), t: Token)
    requires Funds(s) && key in s.wallets
    ensures Amount(s.wallets[key], t) <= BalanceOf(s.ledger, t, s.self)
  {
    assert Solvent(s, t);
    SumCovers(s.wallets, Holding(t));
    assert Holding(t)(s.wallets[key]) == Amount(s.wallets[key], t);
  }

  /** From any reachable state a wallet can be paid out exactly unless its owner is the contract, and
      paying it keeps the invariant, moves exactly the wallet's tokens, and touches nothing else. */
  lemma PayWalletPays(s: State, planId: nat, owner: Name)
    requires Inv(s) && (planId, owner) in s.wallets
    ensures PayWallet(s, planId, owner).Done? <==> owner != s.self
    ensures PayWallet(s, planId, owner).Done? ==>
      var t, w := PayWallet(s, planId, owner).state, s.wallets[(planId, owner)];
      && Inv(t) && t.plans == s.plans && t.self == s.self && t.wallets == s.wallets - {(planId, owner)}
      && forall u, who :: who != s.self ==>
           BalanceOf(t.ledger, u, who) == BalanceOf(s.ledger, u, who) + if who == owner then Amount(w, u) else 0
  {
    var key := (planId, owner);
    var w := s.wallets[key];
    forall t | t in w ensures w[t] <= BalanceOf(s.ledger, t, s.self) { WalletIsCovered(s, key, t); }
    PayTokensIff(s.ledger, s.self, owner, w);
    if owner != s.self {
      PayTokensMoves(s.ledger, s.self, owner, w);
      var r := PayWallet(s, planId, owner).state;
      forall t ensures Solvent(r, t) {
        assert Solvent(s, t);
        SumErase(s.wallets, Holding(t), key);
      }
    }
  }

  // ---------- claiming in batches ----------

  /** `t` is `s` with the wallets of these owners of the plan paid out in full: gone from the table,
      every owner richer by exactly its wallet, and no other account but the contract's touched. */
  ghost predicate PaidOff(s: State, t: State, planId: nat, owners: set<Name>) {
    && owners <= Owners(s.wallets, planId) && t.plans == s.plans && t.self == s.self
    && (forall key :: key in t.wallets <==> key in s.wallets && !(key.0 == planId && key.1 in owners))
    && (forall key :: key in t.wallets ==> t.wallets[key] == s.wallets[key])
    && forall who :: who != s.self ==> Credited(s, t, planId, owners, who)
  }

  ghost predicate Credited(s: State, t: State, planId: nat, owners: set<Name>, who: Name) {
    forall u :: BalanceOf(t.ledger, u, who) == BalanceOf(s.ledger, u, who) +
                if who in owners && (planId, who) in s.wallets then Amount(s.wallets[(planId, who)], u) else 0
  }

  lemma OwnersAfterPay(wallets: Wallets, planId: nat, o: Name)
    requires (planId, o) in wallets
    ensures Owners(wallets - {(planId, o)}, planId) == Owners(wallets, planId) - {o}
    ensures o in Owners(wallets, planId)
  {
    var less := wallets - {(planId, o)};
    forall p | p in Owners(wallets, planId) - {o} ensures p in Owners(less, planId) {
      assert (planId, p) in less;
    }
    assert (planId, o) in wallets;
  }

  lemma OwnerHasWallet(wallets: Wallets, planId: nat, o: Name)
    requires o in Owners(wallets, planId)
    ensures (planId, o) in wallets
  {
    var key :| key in wallets && key.0 == planId && key.1 == o;
    assert key == (planId, o);
  }

  /** The first n owners in table order, or all of them when there are fewer. */
  ghost function FirstOwners(owners: set<Name>, n: nat): set<Name>
    decreases n
  {
    if n == 0 || owners == {} then {} else {Least(owners)} + FirstOwners(owners - {Least(owners)}, n - 1)
  }

  lemma {:induction false} FirstOwnersAre(owners: set<Name>, n: nat)
    ensures FirstOwners(owners, n) <= owners
    ensures |FirstOwners(owners, n)| == if n < |owners| then n else |owners|
    ensures forall p, q :: p in FirstOwners(owners, n) && q in owners && q !in FirstOwners(owners, n) ==> p < q
    decreases n
  {
    if n != 0 && owners != {} {
      var o := Least(owners);
      var fewer := owners - {o};
      assert |fewer| == |owners| - 1;
      FirstOwnersAre(fewer, n - 1);
      var rest := FirstOwners(fewer, n - 1);
      assert FirstOwners(owners, n) == {o} + rest;
      forall p, q | p in {o} + rest && q in owners && q !in {o} + rest ensures p < q {
        assert q in fewer;
      }
    }
  }

  /** Emptying n wallets of a plan none of which belongs to the contract always succeeds and keeps
      the invariant. */
  lemma EmptyWalletsSucceeds(s: State, planId: nat, n: nat)
    requires Inv(s) && s.self !in Owners(s.wallets, planId)
    ensures EmptyWallets(s, planId, n).Done? && Inv(EmptyWallets(s, planId, n).state)
  {
    EmptyWalletsIff(s, planId, n);
    EmptyWalletsKeeps(s, planId, n);
  }

  /** The state after the first owner's wallet is paid. */
  ghost predicate PaidFirst(s: State, m: State, planId: nat, o: Name) {
    && (planId, o) in s.wallets && m.wallets == s.wallets - {(planId, o)} && m.plans == s.plans && m.self == s.self
    && forall u, who :: who != s.self ==>
         BalanceOf(m.ledger, u, who) ==
         BalanceOf(s.ledger, u, who) + if who == o then Amount(s.wallets[(planId, o)], u) else 0
  }

  lemma FirstWalletPays(s: State, planId: nat, n: nat) returns (m: State, o: Name)
    requires Inv(s) && n != 0 && EmptyWallets(s, planId, n).Done? && Owners(s.wallets, planId) != {}
    ensures Inv(m) && EmptyWallets(s, planId, n) == EmptyWallets(m, planId, n - 1)
    ensures PaidFirst(s, m, planId, o) && Owners(m.wallets, planId) == Owners(s.wallets, planId) - {o}
    ensures o == Least(Owners(s.wallets, planId))
  {
    o := Least(Owners(s.wallets, planId));
    OwnerHasWallet(s.wallets, planId, o);
    OwnersAfterPay(s.wallets, planId, o);
    PayWalletPays(s, planId, o);
    m := PayWallet(s, planId, o).state;
  }

  /** Whenever it completes, it pays off exactly the first n owners. */
  lemma {:induction false} EmptyWalletsPays(s: State, planId: nat, n: nat, t: State)
    requires Inv(s) && EmptyWallets(s, planId, n) == Done(t)
    ensures PaidOff(s, t, planId, FirstOwners(Owners(s.wallets, planId), n))
    decreases n, 1
  {
    if n == 0 || Owners(s.wallets, planId) == {} {
      PaidOffNobody(s, planId);
    } else {
      var m, o := FirstWalletPays(s, planId, n);
      RestPays(s, m, t, planId, o, n);
    }
  }

  lemma {:induction false} RestPays(s: State, m: State, t: State, planId: nat, o: Name, n: nat)
    requires n != 0 && Owners(s.wallets, planId) != {} && o == Least(Owners(s.wallets, planId))
    requires PaidFirst(s, m, planId, o) && Owners(m.wallets, planId) == Owners(s.wallets, planId) - {o}
    requires Inv(m) && EmptyWallets(m, planId, n - 1) == Done(t)
    ensures PaidOff(s, t, planId, FirstOwners(Owners(s.wallets, planId), n))
    decreases n, 0
  {
    EmptyWalletsPays(m, planId, n - 1, t);
    PaidOffFirst(s, m, t, planId, o, n);
  }

  lemma PaidOffFirst(s: State, m: State, t: State, planId: nat, o: Name, n: nat)
    requires n != 0 && Owners(s.wallets, planId) != {} && o == Least(Owners(s.wallets, planId))
    requires PaidFirst(s, m, planId, o) && Owners(m.wallets, planId) == Owners(s.wallets, planId) - {o}
    requires PaidOff(m, t, planId, FirstOwners(Owners(m.wallets, planId), n - 1))
    ensures PaidOff(s, t, planId, FirstOwners(Owners(s.wallets, planId), n))
  {
    PaidOffCompose(s, m, t, planId, o, FirstOwners(Owners(m.wallets, planId), n - 1));
    assert FirstOwners(Owners(s.wallets, planId), n) == FirstOwners(Owners(m.wallets, planId), n - 1) + {o};
  }

  lemma PaidOffNobody(s: State, planId: nat)
    ensures PaidOff(s, s, planId, {})
  {
  }

  lemma PaidOffCompose(s: State, m: State, t: State, planId: nat, o: Name, rest: set<Name>)
    requires PaidFirst(s, m, planId, o)
    requires PaidOff(m, t, planId, rest)
    ensures PaidOff(s, t, planId, rest + {o})
  {
    OwnersAfterPay(s.wallets, planId, o);
    forall who | who != s.self ensures Credited(s, t, planId, rest + {o}, who) {
      assert Credited(m, t, planId, rest, who);
    }
  }

  /** The contract itself can be a receiver. A batch fails exactly when it reaches that wallet: when
      fewer than `n` owners come before it in table order. */
  lemma {:induction false} EmptyWalletsIff(s: State, planId: nat, n: nat)
    requires Inv(s)
    ensures EmptyWallets(s, planId, n).Abort? <==>
            s.self in Owners(s.wallets, planId) && |Before(Owners(s.wallets, planId), s.self)| < n
    decreases n
  {
    var owners := Owners(s.wallets, planId);
    if n != 0 && owners != {} {
      if Least(owners) == s.self {
        OwnerHasWallet(s.wallets, planId, s.self);
        PayWalletPays(s, planId, s.self);
        assert Before(owners, s.self) == {};
      } else {
        var m, o := OneWalletOn(s, planId, n);
        EmptyWalletsIff(m, planId, n - 1);
        OneFewerBefore(owners, s.self, o);
      }
    }
  }

  lemma OneWalletOn(s: State, planId: nat, n: nat) returns (m: State, o: Name)
    requires Inv(s) && n != 0
    requires Owners(s.wallets, planId) != {} && Least(Owners(s.wallets, planId)) != s.self
    ensures Inv(m) && m.self == s.self && o == Least(Owners(s.wallets, planId))
    ensures Owners(m.wallets, planId) == Owners(s.wallets, planId) - {o}
    ensures EmptyWallets(s, planId, n) == EmptyWallets(m, planId, n - 1)
  {
    o := Least(Owners(s.wallets, planId));
    OwnerHasWallet(s.wallets, planId, o);
    PayWalletPays(s, planId, o);
    OwnersAfterPay(s.wallets, planId, o);
    m := PayWallet(s, planId, o).state;
  }

  function Before(owners: set<Name>, who: Name): set<Name> {
    set p | p in owners && p < who
  }

  lemma OneFewerBefore(owners: set<Name>, who: Name, o: Name)
    requires o in owners && who != o && forall p :: p in owners ==> o <= p
    ensures who in owners ==> |Before(owners - {o}, who)| == |Before(owners, who)| - 1
  {
    if who in owners {
      assert Before(owners, who) == Before(owners - {o}, who) + {o};
    }
  }

  /** k calls of claimall in a row; a refused one changes nothing. */
  ghost function ClaimAllTimes(s: State, planId: nat, k: nat): State {
    if k == 0 then s else After(ClaimAllTimes(s, planId, k - 1), DoClaimAll(planId))
  }

  lemma {:induction false} EmptyInBatches(s: State, planId: nat, m: nat, n: nat)
    requires EmptyWallets(s, planId, m).Done?
    ensures EmptyWallets(s, planId, m + n) == EmptyWallets(EmptyWallets(s, planId, m).state, planId, n)
    decreases m
  {
    var owners := Owners(s.wallets, planId);
    if m != 0 && owners != {} {
      EmptyInBatches(PayWallet(s, planId, Least(owners)).state, planId, m - 1, n);
    } else if owners == {} {
      assert EmptyWallets(s, planId, n) == Done(s);
    }
  }

  /** One more call of claimall empties one more batch, whatever the size of a batch. */
  lemma OneMoreBatch(s: State, planId: nat, m: nat, t: State, batch: nat)
    requires Inv(s) && planId in s.plans && s.self !in Owners(s.wallets, planId)
    requires EmptyWallets(s, planId, m) == Done(t)
    requires batch == BATCH
    ensures EmptyWallets(s, planId, m + batch) == Done(After(t, DoClaimAll(planId)))
  {
    EmptyInBatches(s, planId, m, batch);
    BatchesSucceed(s, planId, m, m + batch);
    ClaimAllIsBatch(t, planId, batch);
  }

  lemma BatchesSucceed(s: State, planId: nat, m: nat, n: nat)
    requires Inv(s) && planId in s.plans && s.self !in Owners(s.wallets, planId)
    ensures EmptyWallets(s, planId, m).Done? && planId in EmptyWallets(s, planId, m).state.plans
    ensures EmptyWallets(s, planId, n).Done?
  {
    EmptyWalletsSucceeds(s, planId, m);
    EmptyWalletsPays(s, planId, m, EmptyWallets(s, planId, m).state);
    EmptyWalletsSucceeds(s, planId, n);
  }

  lemma ClaimAllIsBatch(t: State, planId: nat, batch: nat)
    requires planId in t.plans && EmptyWallets(t, planId, batch).Done? && batch == BATCH
    ensures EmptyWallets(t, planId, batch) == Done(After(t, DoClaimAll(planId)))
  {
    if Owners(t.wallets, planId) == {} {
      assert EmptyWallets(t, planId, batch) == Done(t);
    } else {
      assert Step(t, DoClaimAll(planId)) == ClaimAll(t, planId) == EmptyWallets(t, planId, batch);
    }
  }

  lemma {:induction false} ClaimAllTimesIs(s: State, planId: nat, k: nat, n: nat)
    requires Inv(s) && planId in s.plans && s.self !in Owners(s.wallets, planId) && n == BATCH * k
    ensures EmptyWallets(s, planId, n) == Done(ClaimAllTimes(s, planId, k))
    decreases k
  {
    if k != 0 {
      ClaimAllTimesIs(s, planId, k - 1, n - BATCH);
      OneMoreBatch(s, planId, n - BATCH, ClaimAllTimes(s, planId, k - 1), BATCH);
    }
  }

  /** Repeated claimall drains a plan: with n wallets, none of them the contract's own, ceil(n / 20)
      calls pay every owner exactly its wallet and leave none. */
  lemma ClaimAllDrains(s: State, planId: nat)
    requires Inv(s) && planId in s.plans && s.self !in Owners(s.wallets, planId)
    ensures var n := |Owners(s.wallets, planId)|;
            var t := ClaimAllTimes(s, planId, (n + 19) / 20);
            Inv(t) && PaidOff(s, t, planId, Owners(s.wallets, planId)) && Owners(t.wallets, planId) == {}
  {
    var owners := Owners(s.wallets, planId);
    var k := (|owners| + 19) / 20;
    ClaimAllTimesIs(s, planId, k, BATCH * k);
    EmptyWalletsSucceeds(s, planId, BATCH * k);
    var t := ClaimAllTimes(s, planId, k);
    EmptyWalletsPays(s, planId, BATCH * k, t);
    FirstOwnersAre(owners, BATCH * k);
    SubsetOfSameSize(FirstOwners(owners, BATCH * k), owners);
    NoneLeft(s, t, planId);
  }

  lemma NoneLeft(s: State, t: State, planId: nat)
    requires PaidOff(s, t, planId, Owners(s.wallets, planId))
    ensures Owners(t.wallets, planId) == {}
  {
    if Owners(t.wallets, planId) != {} {
      OwnerHasWallet(t.wallets, planId, AnyOf(Owners(t.wallets, planId)));
      assert false;
    }
  }

  lemma {:induction false} SubsetOfSameSize(a: set<Name>, b: set<Name>)
    requires a <= b && |a| == |b|
    ensures a == b
    decreases |a|
  {
    if a != {} {
      var x := AnyOf(a);
      SubsetOfSameSize(a - {x}, b - {x});
      assert a == (a - {x}) + {x} && b == (b - {x}) + {x};
    }
  }

  // ---------- every run ----------

  lemma AddPlanKeeps(s: State, owner: Name, title: string, conf: seq<SplitUnit>, auto: bool)
    requires Inv(s) && AddPlan(s, owner, title, conf, auto).Done?
    ensures Inv(AddPlan(s, owner, title, conf, auto).state)
  {
    CheckRateAcceptsIff(conf);
    assert forall t :: Solvent(s, t) ==> Solvent(AddPlan(s, owner, title, conf, auto).state, t);
  }

  lemma {:induction false} EmptyWalletsKeeps(s: State, planId: nat, n: nat)
    requires Inv(s) && EmptyWallets(s, planId, n).Done?
    ensures Inv(EmptyWallets(s, planId, n).state)
    decreases n
  {
    if n == 0 || Owners(s.wallets, planId) == {} {
      assert EmptyWallets(s, planId, n) == Done(s);
    } else {
      var o := Least(Owners(s.wallets, planId));
      OwnerHasWallet(s.wallets, planId, o);
      PayWalletPays(s, planId, o);
      var m := PayWallet(s, planId, o).state;
      EmptyWalletsKeeps(m, planId, n - 1);
      assert EmptyWallets(s, planId, n) == EmptyWallets(m, planId, n - 1);
    }
  }

  lemma EditPlanKeeps(s: State, owner: Name, planId: nat, conf: seq<SplitUnit>, auto: bool)
    requires Inv(s) && EditPlan(s, owner, planId, conf, auto).Done?
    ensures Inv(EditPlan(s, owner, planId, conf, auto).state)
  {
    CheckRateAcceptsIff(conf);
    var t := s.(plans := s.plans[planId := s.plans[planId].(conf := conf, auto := auto)]);
    SameWalletsKeep(s, t);
    if auto && Owners(t.wallets, planId) != {} { EmptyWalletsKeeps(t, planId, BATCH); }
  }

  lemma SameWalletsKeep(s: State, t: State)
    requires Inv(s) && t.wallets == s.wallets && t.self == s.self && PlansOk(t) && s.plans.Keys <= t.plans.Keys
    requires forall u :: BalanceOf(t.ledger, u, s.self) == BalanceOf(s.ledger, u, s.self)
    ensures Inv(t)
  {
    forall u ensures Solvent(t, u) { assert Solvent(s, u); }
  }

  lemma StepKeeps(s: State, a: Action)
    requires Inv(s)
    ensures Inv(After(s, a))
  {
    if Step(s, a).Done? {
      match a
      case DoAddPlan(owner, title, conf, auto) => AddPlanKeeps(s, owner, title, conf, auto);
      case DoEditPlan(owner, planId, conf, auto) => EditPlanKeeps(s, owner, planId, conf, auto);
      case DoDeposit(from, token, amount, planId) => DepositKeeps(s, from, token, amount, planId);
      case DoClaim(planId, owner) => PayWalletPays(s, planId, owner);
      case DoClaimAll(planId) => EmptyWalletsKeeps(s, planId, BATCH);
      case DoElsewhere(token, from, to, amount) =>
        TransferMoves(s.ledger, token, from, to, amount);
        SameWalletsKeep(s, After(s, a));
      case DoInit(_, _) => SameWalletsKeep(s, After(s, a));
    }
  }

  /** Over every run: stored rates are positive, distinct in receiver and sum to 10000; no wallet is
      empty or holds a zero; and the contract's balance of each token is the sum over all wallets. */
  lemma {:induction false} EveryRunKeeps(s: State, actions: seq<Action>)
    requires Inv(s)
    ensures Inv(Run(s, actions))
    decreases |actions|
  {
    if actions != [] {
      EveryRunKeeps(s, actions[..|actions| - 1]);
      StepKeeps(Run(s, actions[..|actions| - 1]), actions[|actions| - 1]);
    }
  }
}
