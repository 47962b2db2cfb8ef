/** flon.split as a state machine: plans that divide what arrives among their receivers by rate,
    paid at once (auto) or into wallets (manual) that are claimed later. An abort writes nothing. */
module SplitSpec {
  import opened Tables
  import opened Ledger

  const PCT_BOOST: nat := 10000
  const TWO64: nat := 0x1_0000_0000_0000_0000
  const BATCH: nat := 20

  datatype SplitUnit = SplitUnit(receiver: Name, rate: nat)
  datatype Plan = Plan(creator: Name, title: string, conf: seq<SplitUnit>, auto: bool)

  type Wallet = map<Token, nat>
  type Wallets = map<(nat, Name), Wallet>

  /** Wallets are keyed by plan (their scope) and owner. */
  datatype State = State(self: Name, minCount: nat, maxCount: nat, lastPlanId: nat,
                         plans: map<nat, Plan>, wallets: Wallets, ledger: Balances)

  datatype Failure =
    | ParamError | Oversized | RecordNotFound | NoAuth | RateOverload | AssetOverflow | TransferRefused

  datatype Outcome = Done(state: State) | Abort(why: Failure)

  // ---------- plans ----------

  /** The first fault `check_rate` finds while it walks the receivers. */
  function UnitFault(conf: seq<SplitUnit>, seen: set<Name>): Option<Failure> {
    if conf == [] then None
    else if !(0 < conf[0].rate <= PCT_BOOST) then Some(Oversized)
    else if conf[0].receiver in seen then Some(ParamError)
    else UnitFault(conf[1..], seen + {conf[0].receiver})
  }

  function RateSum(conf: seq<SplitUnit>): nat {
    if conf == [] then 0 else conf[0].rate + RateSum(conf[1..])
  }

  function CheckRate(conf: seq<SplitUnit>): Option<Failure> {
    match UnitFault(conf, {})
    case Some(why) => Some(why)
    case None => if RateSum(conf) == PCT_BOOST then None else Some(Oversized)
  }

  function Init(s: State, minCount: nat, maxCount: nat): Outcome {
    if minCount >= 1 && maxCount <= 50 then Done(s.(minCount := minCount, maxCount := maxCount)) else Abort(ParamError)
  }

  function AddPlan(s: State, owner: Name, title: string, conf: seq<SplitUnit>, auto: bool): Outcome {
    if !(s.minCount <= |conf| <= s.maxCount) then Abort(Oversized)
    else if !(4 <= |title| <= 255) then Abort(Oversized)
    else match CheckRate(conf)
    case Some(why) => Abort(why)
    case None =>
      var id := s.lastPlanId + 1;
      Done(s.(lastPlanId := id, plans := s.plans[id := Plan(owner, title, conf, auto)]))
  }

  // ---------- wallets ----------

  function Amount(w: Wallet, t: Token): nat {
    if t in w then w[t] else 0
  }

  function Owners(wallets: Wallets, planId: nat): set<Name> {
    set key | key in wallets && key.0 == planId :: key.1
  }

  function PayToken(b: Balances, from: Name, to: Name, t: Token, amount: nat): Option<Balances> {
    if amount > 0 then Transfer(b, t, from, to, amount) else Some(b)
  }

  /** Paying every token of a wallet, one transfer a token; PayInAnyOrder of SplitWallets shows that
      the order does not matter. */
  ghost function PayTokens(b: Balances, from: Name, to: Name, w: Wallet): Option<Balances>
    decreases |w|
  {
    if w.Keys == {} then Some(b) else
    var t := AnyOf(w.Keys);
    match PayToken(b, from, to, t, w[t])
    case None => None
    case Some(after) => PayTokens(after, from, to, w - {t})
  }

  /** Paying out and erasing one wallet. */
  ghost function PayWallet(s: State, planId: nat, owner: Name): Outcome
    requires (planId, owner) in s.wallets
  {
    match PayTokens(s.ledger, s.self, owner, s.wallets[(planId, owner)])
    case None => Abort(TransferRefused)
    case Some(after) => Done(s.(wallets := s.wallets - {(planId, owner)}, ledger := after))
  }

  ghost function Claim(s: State, planId: nat, owner: Name): Outcome {
    if planId !in s.plans then Abort(RecordNotFound)
    else if (planId, owner) !in s.wallets then Abort(RecordNotFound)
    else if s.wallets[(planId, owner)] == map[] then Abort(RecordNotFound)
    else PayWallet(s, planId, owner)
  }

  /** Emptying the first n wallets of a plan in table order, or all of them when there are fewer. */
  ghost function EmptyWallets(s: State, planId: nat, n: nat): Outcome
    decreases n
  {
    var owners := Owners(s.wallets, planId);
    if n == 0 || owners == {} then Done(s)
    else match PayWallet(s, planId, Least(owners))
    case Abort(why) => Abort(why)
    case Done(t) => EmptyWallets(t, planId, n - 1)
  }

  ghost function ClaimAll(s: State, planId: nat): Outcome {
    if planId !in s.plans then Abort(RecordNotFound)
    else if Owners(s.wallets, planId) == {} then Abort(RecordNotFound)
    else EmptyWallets(s, planId, BATCH)
  }

  /** Switching to auto also claims the first batch of the wallets there are. */
  ghost function EditPlan(s: State, owner: Name, planId: nat, conf: seq<SplitUnit>, auto: bool): Outcome {
    if !(s.minCount <= |conf| <= s.maxCount) then Abort(Oversized)
    else match CheckRate(conf)
    case Some(why) => Abort(why)
    case None =>
      if planId !in s.plans then Abort(RecordNotFound)
      else if s.plans[planId].creator != owner then Abort(NoAuth)
      else
        var t := s.(plans := s.plans[planId := s.plans[planId].(conf := conf, auto := auto)]);
        if auto && Owners(t.wallets, planId) != {} then ClaimAll(t, planId) else Done(t)
  }

  // ---------- splitting ----------

  /** A receiver's share. The product is taken in 64 bits and may wrap. */
  function Share(quant: nat, rate: nat): nat {
    (quant * rate) % TWO64 / PCT_BOOST
  }

  datatype Payout = Payout(to: Name, amount: nat)
  datatype Division = Parts(payouts: seq<Payout>, rest: nat) | Overload

  /** The loop over the receivers, with `left` still to give: it stops for good at the first share
      that comes to nothing. */
  function Divide(quant: nat, left: nat, conf: seq<SplitUnit>): Division {
    if conf == [] then Parts([], left) else
    var share := Share(quant, conf[0].rate);
    if share == 0 then Parts([], left)
    else if share > left then Overload
    else match Divide(quant, left - share, conf[1..])
      case Overload => Overload
      case Parts(payouts, rest) => Parts([Payout(conf[0].receiver, share)] + payouts, rest)
  }

  /** Giving one payout its tokens: a transfer, or an entry in the receiver's wallet. */
  function Award(s: State, planId: nat, auto: bool, token: Token, p: Payout): Outcome {
    if auto then
      match Transfer(s.ledger, token, s.self, p.to, p.amount)
      case None => Abort(TransferRefused)
      case Some(after) => Done(s.(ledger := after))
    else
      var key := (planId, p.to);
      var w := if key in s.wallets then s.wallets[key] else map[];
      if Amount(w, token) + p.amount > MAX_AMOUNT then Abort(AssetOverflow)
      else Done(s.(wallets := s.wallets[key := w[token := Amount(w, token) + p.amount]]))
  }

  function AwardAll(s: State, planId: nat, auto: bool, token: Token, payouts: seq<Payout>): Outcome
    decreases |payouts|
  {
    if payouts == [] then Done(s)
    else match Award(s, planId, auto, token, payouts[0])
    case Abort(why) => Abort(why)
    case Done(t) => AwardAll(t, planId, auto, token, payouts[1..])
  }

  /** Everything `_split` hands out, what is left over going to the first receiver. */
  function AllPayouts(quant: nat, conf: seq<SplitUnit>): Option<seq<Payout>>
    requires conf != []
  {
    match Divide(quant, quant, conf)
    case Overload => None
    case Parts(payouts, rest) =>
      Some(payouts + if rest > 0 then [Payout(conf[0].receiver, rest)] else [])
  }

  function Split(s: State, planId: nat, token: Token, quant: nat): Outcome {
    if planId !in s.plans then Abort(RecordNotFound)
    else if s.plans[planId].conf == [] then Abort(ParamError)
    else match AllPayouts(quant, s.plans[planId].conf)
    case None => Abort(RateOverload)
    case Some(payouts) => AwardAll(s, planId, s.plans[planId].auto, token, payouts)
  }

  function Deposit(s: State, from: Name, token: Token, quant: int, planId: nat): Outcome {
    match Transfer(s.ledger, token, from, s.self, quant)
    case None => Abort(TransferRefused)
    case Some(after) => Split(s.(ledger := after), planId, token, quant)
  }

  function Elsewhere(s: State, token: Token, from: Name, to: Name, amount: int): Outcome {
    if from == s.self || to == s.self then Abort(TransferRefused)
    else match Transfer(s.ledger, token, from, to, amount)
    case None => Abort(TransferRefused)
    case Some(after) => Done(s.(ledger := after))
  }

  datatype Action =
    | DoInit(minCount: nat, maxCount: nat)
    | DoAddPlan(owner: Name, title: string, conf: seq<SplitUnit>, auto: bool)
    | DoEditPlan(owner: Name, planId: nat, conf: seq<SplitUnit>, auto: bool)
    | DoDeposit(from: Name, token: Token, amount: int, planId: nat)
    | DoClaim(planId: nat, owner: Name)
    | DoClaimAll(planId: nat)
    | DoElsewhere(token: Token, from: Name, to: Name, amount: int)

  ghost function Step(s: State, a: Action): Outcome {
    match a
    case DoInit(minCount, maxCount) => Init(s, minCount, maxCount)
    case DoAddPlan(owner, title, conf, auto) => AddPlan(s, owner, title, conf, auto)
    case DoEditPlan(owner, planId, conf, auto) => EditPlan(s, owner, planId, conf, auto)
    case DoDeposit(from, token, amount, planId) => Deposit(s, from, token, amount, planId)
    case DoClaim(planId, owner) => Claim(s, planId, owner)
    case DoClaimAll(planId) => ClaimAll(s, planId)
    case DoElsewhere(token, from, to, amount) => Elsewhere(s, token, from, to, amount)
  }

  ghost function After(s: State, a: Action): State {
    match Step(s, a) case Done(t) => t case Abort(_) => s
  }

  ghost function Run(s: State, actions: seq<Action>): State {
    if actions == [] then s else After(Run(s, actions[..|actions| - 1]), actions[|actions| - 1])
  }
}
