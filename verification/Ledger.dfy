/** The token contracts, reduced to what the toolkit contracts rely on: `transfer` moves a valid
    positive amount between two distinct accounts, the sender must hold it, and nothing else moves. */
module Ledger {
  import opened Tables

  /** An account name is its 64-bit value; tables are ordered by it. */
  type Name = nat

  datatype Symbol = Symbol(code: string, precision: nat)

  /** A token is a symbol at the contract (the bank) that keeps its balances. */
  datatype Token = Token(bank: Name, symbol: Symbol)

  /** The system token: FLON with eight decimals, kept by flon.token. */
  const SYS_BANK: Name := 0x5c69_3066_9054_c000
  const SYS_SYMBOL := Symbol("FLON", 8)
  const FLON := Token(SYS_BANK, SYS_SYMBOL)

  type Balances = map<(Token, Name), nat>

  /** The largest amount an asset may hold, 2^62 - 1. */
  const MAX_AMOUNT: int := 0x3fff_ffff_ffff_ffff
  const INT64_MAX: int := 0x7fff_ffff_ffff_ffff
  const INT64_MIN: int := -0x8000_0000_0000_0000
  const UINT64_MAX: int := 0xffff_ffff_ffff_ffff

  type int64 = x: int | INT64_MIN <= x <= INT64_MAX
  type uint64 = x: int | 0 <= x <= UINT64_MAX

  function BalanceOf(b: Balances, t: Token, who: Name): nat {
    if (t, who) in b then b[(t, who)] else 0
  }

  /** A balance is what was last written for its token and owner, and nothing before that. */
  lemma BalancesAreWritten(b: Balances, t: Token, who: Name, amount: nat, u: Token, x: Name)
    ensures BalanceOf(map[], t, who) == 0
    ensures BalanceOf(b[(t, who) := amount], u, x) == if u == t && x == who then amount else BalanceOf(b, u, x)
  {
  }

  /** The balances after a transfer, or None when the token contract refuses it. */
  function Transfer(b: Balances, t: Token, from: Name, to: Name, amount: int): Option<Balances> {
    if 0 < amount <= MAX_AMOUNT && from != to && amount <= BalanceOf(b, t, from) then
      Some(b[(t, from) := BalanceOf(b, t, from) - amount][(t, to) := BalanceOf(b, t, to) + amount])
    else
      None
  }

  /** What an accepted transfer does to every balance of every token. */
  lemma TransferMoves(b: Balances, t: Token, from: Name, to: Name, amount: int)
    requires Transfer(b, t, from, to, amount).Some?
    ensures forall u, who {:trigger BalanceOf(Transfer(b, t, from, to, amount).value, u, who)} ::
              BalanceOf(Transfer(b, t, from, to, amount).value, u, who) ==
              BalanceOf(b, u, who)
              + (if u == t && who == to then amount else 0)
              - (if u == t && who == from then amount else 0)
  {
  }
}
