/** flon.redpack as a state machine: pots of tokens paid out by share, their claims, refunds, and
    the collection of claims whose pot is gone. An abort leaves every table as it was. */
module RedpackSpec {
  import opened Arithmetic
  import opened Tables
  import opened Ledger

  const MTOKEN: Name := 0x5c69_304b_3482_a600
  const TYCHE_TOKEN: Name := 0xcf90_d503_3482_a600
  const SING_TOKEN: Name := 0xc3a6_c066_9054_c000
  const CISUM_TOKEN: Name := 0x43b1_a903_3482_a600

  /** The five token contracts whose transfers the contract is notified of. */
  predicate Heard(bank: Name) {
    bank == SYS_BANK || bank == MTOKEN || bank == TYCHE_TOKEN || bank == SING_TOKEN || bank == CISUM_TOKEN
  }

  const HOUR: nat := 3_600_000_000

  datatype Kind = RandomShares | MeanShares
  datatype Status = Created | Servicing | Exhausted

  datatype Pot = Pot(id: nat, kind: Kind, creator: Name, didRequired: bool, pwhash: string, token: Token,
                     totalQuant: nat, totalCount: nat, remQuant: nat, remCount: nat,
                     status: Status, createdAt: nat)

  datatype Claim = Claim(id: nat, potId: nat, code: Name, creator: Name, claimer: Name, quantity: nat)

  /** `claims` is the claim table in key order. */
  datatype State = State(self: Name, admin: Name, expiryHours: nat, unitFee: int, feeRequired: bool,
                         listed: set<Token>, pots: map<Name, Pot>, claims: seq<Claim>,
                         lastPotId: nat, lastClaimId: nat, ledger: Balances)

  /** The contract's error codes, with the aborts raised below it at the end. */
  datatype Failure =
    | RecordNotFound | RedpackExist | TypeInvalid | NotPositive | AmountTooLarge | InsufficientQuantity
    | DidPackSymbolErr | FeeNotRequired | SymbolMismatch | FeeNotPositive | Expired | PwhashInvalid
    | NotRepeatReceive | DidNotSupported | DidNotAuth | NotExpired | NoneDeleted | TimeInvalid
    | AssetOverflow | DivisionTrap | TransferRefused

  datatype Event =
    | Deposited(potId: nat, amount: nat)
    | ClaimPaid(potId: nat, amount: nat, claimer: Name)
    | Refunded(potId: nat, amount: nat)
    | FeeForwarded(code: Name, fee: nat)

  datatype Outcome = Done(state: State, events: seq<Event>) | Abort(why: Failure)

  // ---------- shares ----------

  function Power10(n: nat): (p: nat)
    ensures p > 0
  {
    if n == 0 then 1 else 10 * Power10(n - 1)
  }

  /** The smallest amount a random share is a multiple of: 10^precision / 10^max(precision - 2, 0). */
  function Unit(precision: nat): nat {
    Quotient(Power10(precision), Power10(if precision <= 2 then 0 else precision - 2))
  }

  datatype Answer = Yes(n: nat) | No(why: Failure)

  /** The share the next claim gets; `seed` is the hash the random share is drawn from. */
  function Share(p: Pot, seed: nat): Answer
    requires p.remCount > 0
  {
    if p.remCount == 1 then Yes(p.remQuant)
    else match p.kind
      case MeanShares =>
        if p.totalCount == 0 then No(DivisionTrap) else Yes(p.totalQuant / p.totalCount)
      case RandomShares =>
        var quantity := p.remQuant / p.remCount * 2;
        var unit := Unit(p.token.symbol.precision);
        if unit == 0 || quantity / unit == 0 then No(DivisionTrap)
        else Yes((seed % (quantity / unit) + 1) * unit)
  }

  // ---------- the actions ----------

  function Init(s: State, admin: Name, hours: nat): Outcome {
    if hours == 0 then Abort(TimeInvalid) else Done(s.(admin := admin, expiryHours := hours), [])
  }

  function ListToken(s: State, token: Token): Outcome { Done(s.(listed := s.listed + {token}), []) }

  function DelistToken(s: State, token: Token): Outcome {
    if token !in s.listed then Abort(RecordNotFound) else Done(s.(listed := s.listed - {token}), [])
  }

  /** A deposit's memo, already parsed; `kind` is None for any other type name. */
  datatype Wrap = Wrap(code: Name, kind: Option<Kind>, didRequired: bool, count: int, pwhash: string)

  /** `amount` of `token` has just arrived from `from` to fill a new pot. */
  function OpenPot(s: State, now: nat, from: Name, token: Token, amount: nat, w: Wrap): Outcome {
    if token !in s.listed then Abort(RecordNotFound)
    else if w.code in s.pots then Abort(RedpackExist)
    else if w.kind.None? then Abort(TypeInvalid)
    else if w.count <= 0 then Abort(NotPositive)
    else if w.count > 10000 then Abort(AmountTooLarge)
    else if amount / w.count < 100 then Abort(InsufficientQuantity)
    else if w.didRequired && token.symbol.code !in ["FLON", "USDT", "USDC", "TYCHE"] then Abort(DidPackSymbolErr)
    else
      var id := s.lastPotId + 1;
      var pot := Pot(id, w.kind.value, from, w.didRequired, w.pwhash, token, amount, w.count, amount, w.count,
                     if s.feeRequired then Created else Servicing, now);
      Done(s.(pots := s.pots[w.code := pot], lastPotId := id), [Deposited(id, amount)])
  }

  /** A transfer to the contract with a deposit's memo. If the bank is not one of the five, the tokens
      arrive and nothing else happens. */
  function Deposit(s: State, now: nat, from: Name, token: Token, amount: int, w: Wrap): Outcome {
    match Transfer(s.ledger, token, from, s.self, amount)
    case None => Abort(TransferRefused)
    case Some(after) =>
      var t := s.(ledger := after);
      if Heard(token.bank) then OpenPot(t, now, from, token, amount, w) else Done(t, [])
  }

  /** `amount` of `token` has just arrived as the fee of pot `code`. The contract looks at the symbol
      but not at which bank sent it, and forwards the same amount from SYS_BANK. */
  function ForwardFee(s: State, token: Token, amount: nat, code: Name): Outcome {
    if s.unitFee <= 0 || !s.feeRequired then Abort(FeeNotRequired)
    else if token.symbol != SYS_SYMBOL then Abort(SymbolMismatch)
    else if code !in s.pots then Abort(RedpackExist)
    else if s.pots[code].totalCount * s.unitFee > MAX_AMOUNT then Abort(AssetOverflow)
    else if amount < s.pots[code].totalCount * s.unitFee then Abort(FeeNotPositive)
    else if s.pots[code].status != Created then Abort(Expired)
    else match Transfer(s.ledger, FLON, s.self, s.admin, amount)
      case None => Abort(TransferRefused)
      case Some(after) =>
        Done(s.(ledger := after, pots := s.pots[code := s.pots[code].(status := Servicing)]),
             [FeeForwarded(code, amount)])
  }

  function PayFee(s: State, from: Name, token: Token, amount: int, code: Name): Outcome {
    match Transfer(s.ledger, token, from, s.self, amount)
    case None => Abort(TransferRefused)
    case Some(after) =>
      var t := s.(ledger := after);
      if Heard(token.bank) then ForwardFee(t, token, amount, code) else Done(t, [])
  }

  predicate Claimed(claims: seq<Claim>, claimer: Name, code: Name) {
    exists k :: 0 <= k < |claims| && claims[k].claimer == claimer && claims[k].code == code
  }

  /** A claim with the outcome of its DID check: `didSupported` that some DID is configured,
      `didMatched` that the claimer holds one. */
  datatype Bid = Bid(claimer: Name, code: Name, pwhash: string, seed: nat, didSupported: bool, didMatched: bool)

  function ClaimRedpack(s: State, b: Bid): Outcome {
    if b.code !in s.pots then Abort(RecordNotFound) else
    var p := s.pots[b.code];
    if p.pwhash != b.pwhash then Abort(PwhashInvalid)
    else if Claimed(s.claims, b.claimer, b.code) then Abort(NotRepeatReceive)
    else if p.status != Servicing then Abort(Expired)
    else if p.didRequired && !b.didSupported then Abort(DidNotSupported)
    else if p.didRequired && !b.didMatched then Abort(DidNotAuth)
    else if p.remCount == 0 then Abort(InsufficientQuantity)
    else if p.remQuant == 0 then Abort(InsufficientQuantity)
    else match Share(p, b.seed)
      case No(why) => Abort(why)
      case Yes(share) =>
        if p.remQuant < share then Abort(InsufficientQuantity)
        else match Transfer(s.ledger, p.token, s.self, b.claimer, share)
          case None => Abort(TransferRefused)
          case Some(after) =>
            var q := p.(remQuant := p.remQuant - share, remCount := p.remCount - 1,
                        status := if p.remCount == 1 then Exhausted else p.status);
            var id := s.lastClaimId + 1;
            Done(s.(ledger := after, pots := s.pots[b.code := q], lastClaimId := id,
                    claims := s.claims + [Claim(id, p.id, b.code, p.creator, b.claimer, share)]),
                 [ClaimPaid(p.id, share, b.claimer)])
  }

  function Cancel(s: State, now: nat, code: Name): Outcome {
    if code !in s.pots then Abort(RecordNotFound) else
    var p := s.pots[code];
    if now <= p.createdAt + s.expiryHours * HOUR then Abort(NotExpired)
    else if p.status != Exhausted && p.remQuant > 0 then
      match Transfer(s.ledger, p.token, s.self, p.creator, p.remQuant)
      case None => Abort(TransferRefused)
      case Some(after) => Done(s.(ledger := after, pots := s.pots - {code}), [Refunded(p.id, p.remQuant)])
    else
      Done(s.(pots := s.pots - {code}), [])
  }

  /** One scan of the claim table in key order that drops the first `max` claims whose pot is gone. */
  function DropOrphans(claims: seq<Claim>, live: set<Name>, max: nat): seq<Claim> {
    if max == 0 || claims == [] then claims
    else if claims[0].code in live then [claims[0]] + DropOrphans(claims[1..], live, max)
    else DropOrphans(claims[1..], live, max - 1)
  }

  function DelClaims(s: State, maxRows: nat): Outcome {
    var kept := DropOrphans(s.claims, s.pots.Keys, maxRows);
    if |kept| == |s.claims| then Abort(NoneDeleted) else Done(s.(claims := kept), [])
  }

  function Elsewhere(s: State, token: Token, from: Name, to: Name, amount: int): Outcome {
    if from == s.self || to == s.self then Abort(TransferRefused)
    else match Transfer(s.ledger, token, from, to, amount)
    case None => Abort(TransferRefused)
    case Some(after) => Done(s.(ledger := after), [])
  }

  datatype Action =
    | DoInit(admin: Name, hours: nat)
    | DoListToken(token: Token)
    | DoDelistToken(token: Token)
    | DoDeposit(from: Name, token: Token, amount: int, wrap: Wrap)
    | DoPayFee(from: Name, token: Token, amount: int, code: Name)
    | DoClaim(bid: Bid)
    | DoCancel(code: Name)
    | DoDelClaims(maxRows: nat)
    | DoElsewhere(token: Token, from: Name, to: Name, amount: int)

  datatype Call = Call(now: nat, action: Action)

  function Step(s: State, c: Call): Outcome {
    match c.action
    case DoInit(admin, hours) => Init(s, admin, hours)
    case DoListToken(token) => ListToken(s, token)
    case DoDelistToken(token) => DelistToken(s, token)
    case DoDeposit(from, token, amount, wrap) => Deposit(s, c.now, from, token, amount, wrap)
    case DoPayFee(from, token, amount, code) => PayFee(s, from, token, amount, code)
    case DoClaim(bid) => ClaimRedpack(s, bid)
    case DoCancel(code) => Cancel(s, c.now, code)
    case DoDelClaims(maxRows) => DelClaims(s, maxRows)
    case DoElsewhere(token, from, to, amount) => Elsewhere(s, token, from, to, amount)
  }

  function After(s: State, c: Call): State {
    match Step(s, c) case Done(t, _) => t case Abort(_) => s
  }

  function Events(s: State, c: Call): seq<Event> {
    match Step(s, c) case Done(_, events) => events case Abort(_) => []
  }

  function Run(s: State, calls: seq<Call>): State {
    if calls == [] then s else After(Run(s, calls[..|calls| - 1]), calls[|calls| - 1])
  }

  function Log(s: State, calls: seq<Call>): seq<Event> {
    if calls == [] then [] else
    Log(s, calls[..|calls| - 1]) + Events(Run(s, calls[..|calls| - 1]), calls[|calls| - 1])
  }
}
