# Verified models of the toolkit contracts

This project models the hard parts of a set of token contracts in Dafny and proves what they are
meant to guarantee: five table-backed contracts (vesting, red packets, blind boxes, split payments
and a price oracle), and the arithmetic and text handling beside them (two-stage rounding, Base58,
checked 64-bit integers, and printing and parsing amounts).

Verify everything with `dafny verify dfyconfig.toml`.

## How a contract is modelled

Each contract comes in four layers.

* `XxxSpec` defines a state (the tables, the counters and an abstract token ledger), one function per
  action giving the new state and the events, or the check at which it aborts, and `Step`, `After`,
  `Run` and `Log` over sequences of calls. An abort leaves the state as it was.
* `XxxSafety` and `XxxHistory` (for split payments `SplitSafety` and `SplitWallets`) prove what holds
  after every step, over every run, and exactly when a step succeeds.
* `XxxEffects` says of each action, without the functions that compute it, exactly when it goes through
  and what it does to the stored fields: on the clock's seconds, the seed and the hashes as they come in.
* the module named after the contract is a class with the tables as fields. Its methods change them
  in place, with the source's branches and loops, and each is proved to have exactly the outcome of its
  specification function. `Apply` takes any call at all and keeps the invariant.

`Ledger` stands for the token contracts: a transfer needs a positive amount of at most 2^62 - 1, two
different accounts and enough funds, and moves that amount and nothing else. Calls also include
transfers between other accounts, so a run covers everything that can happen to the balances.
Table sums, rounding, positional notation and strings are in `Tables`, `Rounding`, `Positional` and
`Strings`. `VestExample` and `RedpackExample` hold concrete runs.

## Where the code differs from what it promises

The models follow the code. These are the places where that is not what its comments or messages say.

* Vesting: `transissue` shrinks `issued` but not `unlocked`. The next unlock before the last interval
  then runs into an assertion exactly when too much was transferred away (`VestHistory.SplitStallsIff`,
  with a reachable run in `VestExample.SplitCanStall`). `setfirstdays` can bring the same stall about by
  moving the first day back (`VestHistory.FirstDaysStallIff`). The last unlock still drains the issue.
* Red packets: the repeat check goes by code, not by pot. Somebody with a claim left on a pot that is gone is
  turned away from every later pot under its code, and no call clears that claim while such a pot lives
  (`RedpackHistory.FirstClaimRefusedIff`, `RedpackHistory.OldClaimBlocks`, concrete in
  `RedpackExample.ReusedCodeTurnsAway`).
* Red packets: the fee handler checks the symbol of a fee but not which contract sent it, and forwards
  the same amount from `flon.token`. The FLON of the pots falls short by exactly such foreign fees
  (`RedpackSafety.EveryRunIsSolventIff`, with a run from deployment in
  `RedpackExample.ForeignFeeBreaksFunds`). As the code stands this cannot happen: the fee is taken only while
  `unwrap_fee_required` is set, it is off by default and no action sets it, so over every run the balances
  match the pots (`RedpackSafety.EveryRunIsSolvent`). It would take effect with the flag.
* Split payments: the loop stops at the first share that rounds to nothing, so later receivers can get
  less than their part; and the product wraps at 64 bits (`SplitSafety.ProportionalIff`).
* Blind boxes: the one-argument `set` of the record layer only modifies, so a booth is never created and
  a first deposit aborts (`BlindboxSafety.CreateAlwaysAborts`, `BlindboxSafety.DepositSucceedsIff`). The
  rejection sampling that is to avoid bias still gives outcome 1 one seed more than every other, and so the
  symbol that comes first in the box (`BlindboxSafety.OneOutcomeHasOneMore`,
  `BlindboxSafety.AcceptedSeedsDraw`).
* Price oracle: an odd price's rounded-up half is inside "0.5x~1.5x" and refused
  (`OracleSafety.StepAcceptedIff`); a price of 1, a price above a fifteenth of the int64 range, and what a
  negative first quote is stored as can never be updated again (`OracleSafety.StuckForGood`).
* Amount parser: the number of fraction digits is kept in a byte and then read as a signed one, so a
  text with 128 or more of them can slip past the limit of 18 and be misread (`AssetText.FaithfulIff`,
  `AssetText.ZerosSlipThrough`). Characters between the digits and the space are overlooked, so "12abc FLON"
  is read as "12 FLON"; and a minus sign behind the point is taken for a digit, so "1.-5 FLON" is read as
  "0.95 FLON" (`AssetText.JunkIsOverlooked`, `AssetText.MinusInFraction`).

## Model

| member | source | states |
|---|---|---|
| `Ledger.TransferMoves` | contracts/flon.vest/src/vest.cpp:16-19 | an accepted transfer moves its amount from payer to payee and changes no other balance of any token |
| `Names.SystemToken` | contracts/flon.vest/include/vestdb.hpp:44-45 | the system token is FLON with eight decimals at the account flon.token, whose 64-bit value packs its characters five bits each |
| `Rounding.TwoStageIsNearest` | contracts/flon.vest/include/utils.hpp:53-60 | rounding first to tenths and then to units equals rounding once, halves up |
| `Rounding.MultiplyDecimalIsNearest` | contracts/flon.vest/include/utils.hpp:44-60 | on non-negative operands both helpers abort exactly when the tenths do not fit an int64, and otherwise give the quotient rounded half up |
| `Rounding.NearestIsFloorOfHalfMore` | contracts/flon.vest/include/utils.hpp:53-60 | the rounded quotient is floor(x + 1/2) read over the reals |
| `Rounding.NearestMonotone` | contracts/flon.vest/include/utils.hpp:53-60 | rounding keeps order |
| `Rounding.NearestOfShare` | contracts/flon.vest/src/vest.cpp:336-338 | a rounded part of an amount is never above the amount, and the whole rounds to itself |
| `Base58.TablesAreInverse` | contracts/pubkey.token/include/pubkey_utils.hpp:13-31 | the alphabet string and the 256-entry table invert each other |
| `Base58.AlphabetMembers` | contracts/pubkey.token/include/pubkey_utils.hpp:13-31 | a character has a digit exactly when it is one of the 58 letters |
| `Base58.LettersInOrder` | contracts/pubkey.token/include/pubkey_utils.hpp:13-31 | the letters are the digits and letters without 0, O, I and l, and their values go up with their codes |
| `Base58.BufferSuffices` | contracts/pubkey.token/include/pubkey_utils.hpp:42-44 | for every length n, n base-58 digits fit n * 733 / 1000 + 1 bytes |
| `Base58.MultiplyAdd` | contracts/pubkey.token/include/pubkey_utils.hpp:51-56 | the inner loop multiplies the buffer's base-256 value by 58 and adds the digit, in place; what does not fit is the returned carry, and the bytes above those in use stay zero |
| `Base58.NoCarry` | contracts/pubkey.token/include/pubkey_utils.hpp:43-57 | the carry after every character is 0, so the failure on a non-zero carry never happens |
| `Base58.ConvertWord` | contracts/pubkey.token/include/pubkey_utils.hpp:42-60 | the outer loop leaves the base-58 value of the characters read as the buffer's base-256 value, and stops at whitespace, at the end or on a character outside the alphabet |
| `Base58.SkipZeroes` | contracts/pubkey.token/include/pubkey_utils.hpp:64-69 | dropping the leading zero bytes leaves the shortest base-256 digits of the value |
| `Base58.DecodeBase58` | contracts/pubkey.token/include/pubkey_utils.hpp:33-71 | the decoder over its buffer agrees with the mathematical decoding on every string |
| `Base58.DecodeAccepts` | contracts/pubkey.token/include/pubkey_utils.hpp:35-63 | decoding succeeds exactly on a word over the alphabet with only whitespace around it |
| `Base58.DecodePadded` | contracts/pubkey.token/include/pubkey_utils.hpp:35-70 | a padded word decodes to one zero byte for each leading '1' followed by the value of the rest |
| `Base58.DecodeOfEncode` | contracts/pubkey.token/include/pubkey_utils.hpp:33-71 | every byte string is decoded from its encoding |
| `Base58.EncodeOfDecode` | contracts/pubkey.token/include/pubkey_utils.hpp:33-71 | every word over the alphabet, of any length, is the encoding of what it decodes to |
| `VestSpec.UnlockTarget` | contracts/flon.vest/src/vest.cpp:323-343 | whatever total unlock arrives at is the schedule's, and at most what was issued |
| `VestSafety.PlanFeePassesThrough` | contracts/flon.vest/src/vest.cpp:140-168 | a plan fee reaches the fee receiver in full and leaves the contract's balances and issues as they were |
| `VestSafety.HeldIsCovered` | contracts/flon.vest/src/vest.cpp:288-301 | the contract's balance and the plan's books cover what any one issue holds |
| `VestSafety.StepKeeps` | contracts/flon.vest/src/vest.cpp:126-391 | every action of any kind keeps rows, books and funds in order |
| `VestSafety.EveryRunKeeps` | contracts/flon.vest/src/vest.cpp:21-391 | over every run: locked + unlocked = issued, an ongoing issue holds something, each plan's issued = unlocked + refunded + what its ongoing issues hold, and the contract's balance of every token = what its ongoing issues hold |
| `VestSafety.EveryReachableStateIsSound` | contracts/flon.vest/src/vest.cpp:21-391 | the same from deployment on, each of the three equations written out |
| `VestHistory.ScheduleMonotone` | contracts/flon.vest/src/vest.cpp:323-338 | the schedule never goes back and never passes the issued amount |
| `VestHistory.UnlockFollowsSchedule` | contracts/flon.vest/src/vest.cpp:307-362 | a successful unlock brings the issue up to the schedule and pays exactly the difference |
| `VestHistory.UnlockSparesOthers` | contracts/flon.vest/src/vest.cpp:348-361 | and changes no other issue, nor any terms, and pays for no other |
| `VestHistory.UnlockedIsScheduled` | contracts/flon.vest/src/vest.cpp:307-362 | over any run in which an issue's amount and first unlock day never change, whatever calls name it, its unlocked part and everything paid for it equal the schedule at the last successful unlock |
| `VestHistory.HistoryIndependent` | contracts/flon.vest/src/vest.cpp:323-343 | two runs that last unlock the issue at the same time have paid the same for it |
| `VestHistory.ScheduleNeverRegresses` | contracts/flon.vest/src/vest.cpp:337-338 | for such an issue the assertion that the schedule is not behind never fires |
| `VestHistory.LastUnlockDrains` | contracts/flon.vest/src/vest.cpp:331-361 | from any reachable state, once the last interval has come one unlock pays exactly what is locked and finishes the issue, unless the contract itself is the receiver |
| `VestHistory.EndIssueRefunds` | contracts/flon.vest/src/vest.cpp:271-302 | ending an ongoing issue of an enabled plan refunds exactly what is locked, unless the contract itself is the issuer |
| `VestHistory.UnlockSucceedsIff` | contracts/flon.vest/src/vest.cpp:307-362 | exactly when an unlock goes through, including the overflow of the tenths and the receiver that is the contract itself |
| `VestHistory.UnlockMoves` | contracts/flon.vest/src/vest.cpp:341-353 | an unlock moves what it newly unlocks from the contract to the receiver and no other balance of any token |
| `VestHistory.EndIssueMoves` | contracts/flon.vest/src/vest.cpp:288-296 | ending an issue moves what it holds from the contract to the issuer and no other balance |
| `VestHistory.SplitCopiesTerms` | contracts/flon.vest/src/vest.cpp:239-268 | passing on part of an issue opens one for the new receiver with the same plan, issuer, clock and terms and exactly the amount taken, and erases the old one exactly when all that was locked is taken |
| `VestHistory.SplitReleasesTheSame` | contracts/flon.vest/src/vest.cpp:222-269 | at any time the two parts have together released what the whole would have, within one unit of rounding, and exactly that from the last interval on |
| `VestHistory.NearestOfSum` | contracts/flon.vest/include/utils.hpp:53-60 | rounding two parts separately is off from rounding the whole by at most one |
| `VestHistory.UnlockStallsIff` | contracts/flon.vest/src/vest.cpp:335-339 | an unlock before the last interval stops at the assertion exactly when the rounded share is below what is unlocked |
| `VestHistory.SplitStallsIff` | contracts/flon.vest/src/vest.cpp:222-269 | after a partial transfer the next such unlock stalls exactly when too much was transferred, as an inequality on amounts known before |
| `VestHistory.FirstDaysStallIff` | contracts/flon.vest/src/vest.cpp:376-391 | after `setfirstdays` the next unlock before the last interval stalls exactly when the schedule from the new day is behind what is unlocked |
| `VestHistory.OnlyTheFeeEnables` | contracts/flon.vest/src/vest.cpp:108-168 | a plan waiting for its fee leaves that state only by a transfer of exactly the fee in the system token, is enabled by it, and no plan ever comes to wait again |
| `VestHistory.EveryRunContinuesPlans` | contracts/flon.vest/src/vest.cpp:44-362 | over every run a plan stays, keeps its token, interval and number of unlocks, and none of its totals shrinks |
| `VestExample.SplitCanStall` | contracts/flon.vest/src/vest.cpp:260-268 | a concrete run from deployment that ends in such a stall |
| `Vest.AvailableKey` | contracts/flon.vest/src/vest.cpp:59-60 | the scan for the next key gives one more than the largest key in use, and 1 for an empty table |
| `Vest.MultiplyDecimal64` | contracts/flon.vest/src/vest.cpp:337 | on unlock's operands, the rounded share, or the overflow abort exactly when its tenths do not fit |
| `Vest.TotalUnlocked` | contracts/flon.vest/src/vest.cpp:323-343 | the arithmetic of unlock arrives at the specified total or stops where specified |
| `Vest.VestContract.AddPlan` | contracts/flon.vest/src/vest.cpp:44-81 | the whole effect of adding a plan, whose status depends on the fee, or the failed check |
| `Vest.VestContract.OnPlanFee` | contracts/flon.vest/src/vest.cpp:140-168 | the whole effect of a plan fee, or the failed check |
| `Vest.VestContract.OnIssue` | contracts/flon.vest/src/vest.cpp:170-215 | the whole effect of locking a deposit as an issue, or the failed check |
| `Vest.VestContract.OnTransfer` | contracts/flon.vest/src/vest.cpp:126-220 | transfer and notification are one transaction: both happen or neither |
| `Vest.VestContract.TransIssue` | contracts/flon.vest/src/vest.cpp:222-269 | the whole effect of passing on part of an issue, or the failed check |
| `Vest.VestContract.EndIssue` | contracts/flon.vest/src/vest.cpp:271-302 | the whole effect of ending an issue, or the failed check |
| `Vest.VestContract.Unlock` | contracts/flon.vest/src/vest.cpp:307-362 | the whole effect of an unlock on plan, issue and ledger, or the failed check |
| `Vest.VestContract.DelFinIssues` | contracts/flon.vest/src/vest.cpp:364-374 | all the named finished issues go, or, when one of them fails its check, none |
| `Vest.VestContract.Apply` | contracts/flon.vest/src/vest.cpp:21-391 | any call takes exactly one step of the state machine and keeps the invariant |
| `VestEffects.UnlockWaits` | contracts/flon.vest/src/vest.cpp:323-329 | a completed unlock comes at least first_unlock_days * 86400 whole seconds after the issue |
| `VestEffects.UnlockReleases` | contracts/flon.vest/src/vest.cpp:323-348 | with m whole intervals of interval * 86400 seconds gone since that day, a completed unlock leaves unlocked all that was issued if m + 1 reaches the number of unlocks, and issued * (m + 1) / times rounded half up before |
| `VestEffects.PrematureIff` | contracts/flon.vest/src/vest.cpp:323-343 | for an ongoing issue of an enabled plan, "premature" exactly before the first unlock day or when that share is what is unlocked already |
| `VestEffects.UnlockOnTheClockIff` | contracts/flon.vest/src/vest.cpp:307-362 | exactly when an unlock goes through, from the clock and the stored fields alone |
| `VestEffects.ScheduleOnTheClock` | contracts/flon.vest/src/vest.cpp:323-338 | the schedule every other result speaks of, in whole intervals counted in seconds |
| `VestEffects.AddPlanAdds` | contracts/flon.vest/src/vest.cpp:44-81 | exactly which plans are accepted, and the row each field of which is written under the new id |
| `VestEffects.NewOwnerRules` | contracts/flon.vest/src/vest.cpp:82-123 | only the owner gives a plan away, and then exactly the new owner can switch it |
| `VestEffects.DisablingFreezes` | contracts/flon.vest/src/vest.cpp:108-123 | a disabled plan takes no deposit, unlocks and refunds nothing, and enabling it again restores the state |
| `VestEffects.FeeSucceedsIff` | contracts/flon.vest/src/vest.cpp:126-168 | exactly when a plan fee is accepted, for the plan named or the payer's latest, and that this plan alone is enabled |
| `VestEffects.IssueSucceedsIff` | contracts/flon.vest/src/vest.cpp:170-215 | exactly when a deposit is locked, and the issue it opens field by field |
| `VestEffects.TransIssueSucceedsIff` | contracts/flon.vest/src/vest.cpp:222-258 | exactly when part of an issue can be passed on, in any reachable state |
| `VestEffects.TransIssueShares` | contracts/flon.vest/src/vest.cpp:239-268 | what was locked for the old receiver is locked for the two of them, and the old issue goes exactly when nothing is left of it |
| `VestEffects.EndIssueSucceedsIff` | contracts/flon.vest/src/vest.cpp:271-302 | exactly who can end an issue and when, in any reachable state; it pays the issuer what is locked and books it as refunded |
| `VestEffects.DelFinIssuesIff` | contracts/flon.vest/src/vest.cpp:364-374 | a list of issues can be deleted exactly when each is there, finished and named once, and then exactly these go |
| `VestEffects.FirstDaysTakeEffect` | contracts/flon.vest/src/vest.cpp:376-391 | a new first unlock day is at most 3650, and no later unlock comes before it |
| `VestEffects.ReceiverTakesEffect` | contracts/flon.vest/src/vest.cpp:29-39 | the next unlock pays the new receiver |
| `VestEffects.FeeTakesEffect` | contracts/flon.vest/src/vest.cpp:21-27 | the fee and receiver set are those of the next plan fee accepted |
| `RedpackSafety.UnitIs` | contracts/flon.redpack/src/redpack.cpp:397-400 | the unit of random shares is 100, or one whole token below three decimals |
| `RedpackSafety.RandomShareBounds` | contracts/flon.redpack/src/redpack.cpp:371-410 | with at least two shares left a random share is a positive multiple of the unit and at most twice the even share, so at most what is left |
| `RedpackSafety.ShareKeepsPot` | contracts/flon.redpack/src/redpack.cpp:262-290 | every share fits what is left, so the balance check after it never fails, and leaves the pot in order |
| `RedpackSafety.MeanSharePays` | contracts/flon.redpack/src/redpack.cpp:268-271 | an evenly shared pot pays floor(T/N) to every claim but the last, which takes the rest |
| `RedpackSafety.ExhaustedIsPaidOut` | contracts/flon.redpack/src/redpack.cpp:284-288 | a pot is finished exactly when it has as many claims as shares, and then they took its whole total |
| `RedpackSafety.ClaimSucceedsIff` | contracts/flon.redpack/src/redpack.cpp:217-306 | exactly when a claim goes through, including the division by zero of a random share below one unit |
| `RedpackSafety.DropOrphansSpares` | contracts/flon.redpack/src/redpack.cpp:332-362 | collecting claims takes nothing from a pot whose claims carry a live code |
| `RedpackSafety.DelClaimsKeeps` | contracts/flon.redpack/src/redpack.cpp:332-369 | collecting claims keeps the account of every live pot |
| `RedpackSafety.StepKeeps` | contracts/flon.redpack/src/redpack.cpp:90-369 | every action keeps the rows and the account of every live pot |
| `RedpackSafety.EveryRunKeeps` | contracts/flon.redpack/src/redpack.cpp:90-369 | over every run a live pot's total is what it has left plus what its claims took, its share count likewise, a finished pot has nothing left and an empty one at most one share |
| `RedpackSafety.StepExcess` | contracts/flon.redpack/src/redpack.cpp:90-330 | every call moves what the contract owns of a token beyond its pots by exactly the accepted foreign fee: down for FLON, up for the fee's own token |
| `RedpackSafety.StepIsSolventIff` | contracts/flon.redpack/src/redpack.cpp:194-215 | a call leaves the balances matching the pots exactly unless it is an accepted foreign fee |
| `RedpackSafety.EveryRunIsSolventIff` | contracts/flon.redpack/src/redpack.cpp:90-330 | over every run the contract's FLON falls short of its pots by exactly the foreign fees it accepted, and the balance of each token of the five notified banks is what its pots have left if and only if there were none |
| `RedpackSafety.EveryRunIsSolvent` | contracts/flon.redpack/include/redpackdb.hpp:45-46 | with the fee flag at its default, over every run from deployment the balance of each token of the five notified banks is what its pots have left |
| `RedpackHistory.StepFlows` | contracts/flon.redpack/src/redpack.cpp:165-330 | each step moves into and out of each pot exactly what its events say |
| `RedpackHistory.EveryPotIsConserved` | contracts/flon.redpack/src/redpack.cpp:165-330 | for every pot ever opened, over every run: deposit = claims paid + refund + what a live pot has left |
| `RedpackHistory.GonePotIsPaidOut` | contracts/flon.redpack/src/redpack.cpp:310-331 | the deposit of a pot that is gone equals its claims plus its refund |
| `RedpackHistory.ClaimMoves` | contracts/flon.redpack/src/redpack.cpp:280-285 | a claim moves what the pot loses from the contract to the claimer and no other balance |
| `RedpackHistory.CancelMoves` | contracts/flon.redpack/src/redpack.cpp:319-330 | cancelling moves what the pot has left from the contract to its creator and no other balance, and only this pot goes |
| `RedpackHistory.ClaimIsNew` | contracts/flon.redpack/src/redpack.cpp:231-235 | a claim's payment is remembered by the table, and no payment remembered before is its double |
| `RedpackHistory.EveryRunPaysOnce` | contracts/flon.redpack/src/redpack.cpp:231-362 | over every run, through cancelled pots, collected claims and reused codes, no account is paid twice from one pot id |
| `RedpackHistory.DropsFirstOrphans` | contracts/flon.redpack/src/redpack.cpp:332-362 | exactly the first min(max_rows, number of orphans) orphan claims in key order go; everything else stays in its order |
| `RedpackHistory.FirstClaimRefusedIff` | contracts/flon.redpack/src/redpack.cpp:231-235 | somebody who took nothing from a pot is turned away as a repeat exactly when a claim of theirs on an older pot of the same code is still in the table |
| `RedpackHistory.OldClaimBlocks` | contracts/flon.redpack/src/redpack.cpp:231-362 | over every run in which a pot of that code lives, such a claim stays and the claimer is refused |
| `RedpackExample.ReusedCodeTurnsAway` | contracts/flon.redpack/src/redpack.cpp:231-331 | a concrete run from deployment: claim, cancel, a new pot under the code, and the claimer is refused |
| `RedpackExample.ForeignFeeBreaksFunds` | contracts/flon.redpack/src/redpack.cpp:194-215 | a concrete run from a deployment with the fee flag set: a fee of another bank is accepted, and the pot's only claim is refused for want of funds |
| `Redpack.RandomShare` | contracts/flon.redpack/src/redpack.cpp:388-410 | the draw is a positive multiple of the unit and at most the quantity, and traps exactly when the quantity is below one unit |
| `Redpack.AssignShare` | contracts/flon.redpack/src/redpack.cpp:262-274 | the next share, for both kinds of pot and for the last share |
| `Redpack.RedpackContract.HandleDeposit` | contracts/flon.redpack/src/redpack.cpp:117-192 | the whole effect of opening a pot, or the failed check |
| `Redpack.RedpackContract.HandleFeePayment` | contracts/flon.redpack/src/redpack.cpp:194-215 | the whole effect of a fee, or the failed check |
| `Redpack.RedpackContract.OnDeposit` | contracts/flon.redpack/include/redpack.hpp:83-96 | a deposit and its notification are one transaction; tokens of a bank that does not notify just arrive |
| `Redpack.RedpackContract.OnFee` | contracts/flon.redpack/include/redpack.hpp:83-96 | a fee and its notification are one transaction; tokens of a bank that does not notify just arrive |
| `Redpack.RedpackContract.ClaimRedpack` | contracts/flon.redpack/src/redpack.cpp:217-306 | the whole effect of a claim on pot, claim table, counters and ledger, or the failed check |
| `Redpack.RedpackContract.Cancel` | contracts/flon.redpack/src/redpack.cpp:310-331 | the whole effect of cancelling, with the refund if there is one, or the failed check |
| `Redpack.RedpackContract.DelClaims` | contracts/flon.redpack/src/redpack.cpp:332-369 | the loop with its cache of missing codes ends and deletes what a scan without a cache deletes |
| `Redpack.RedpackContract.Apply` | contracts/flon.redpack/src/redpack.cpp:90-369 | any call takes exactly one step and keeps the invariant, and solvency exactly unless it is an accepted foreign fee |
| `RedpackEffects.ClaimPays` | contracts/flon.redpack/src/redpack.cpp:262-274 | what a completed claim takes from its pot, on the stored fields and the seed: the rest, the even share, or seed % (remaining / shares * 2 / unit) + 1 units |
| `RedpackEffects.EveryShareOnce` | contracts/flon.redpack/src/redpack.cpp:388-410 | of as many consecutive seeds as there are possible random shares, exactly one pays any given number of units from 1 to the most |
| `RedpackEffects.ClaimWrites` | contracts/flon.redpack/src/redpack.cpp:280-305 | a completed claim takes the share and one of the shares from this pot, finishes it with the last, and adds the row with the next id to the claims |
| `RedpackEffects.DepositSucceedsIff` | contracts/flon.redpack/src/redpack.cpp:117-192 | exactly when a transfer opens a pot, and the pot field by field |
| `RedpackEffects.FeeSucceedsIff` | contracts/flon.redpack/src/redpack.cpp:194-215 | exactly when a fee is accepted, including the FLON a foreign fee needs, and that this pot alone comes into service |
| `RedpackEffects.CancelSucceedsIff` | contracts/flon.redpack/src/redpack.cpp:310-331 | a pot can be cancelled exactly once its hours are over, and then it alone goes |
| `RedpackEffects.DelClaimsDeletes` | contracts/flon.redpack/src/redpack.cpp:332-369 | the first min(max_rows, number of orphans) claims without a pot go, and the call is refused exactly when that is none |
| `RedpackEffects.OrphansAre` | contracts/flon.redpack/src/redpack.cpp:332-362 | the orphans are exactly the claims whose code no pot has |
| `RedpackEffects.ListingTakesEffect` | contracts/flon.redpack/src/redpack.cpp:31-56 | listing and delisting a token decide whether it can be deposited, and about no other token |
| `RedpackEffects.HoursTakeEffect` | contracts/flon.redpack/src/redpack.cpp:15-29 | the hours set are positive, and those a pot must have lived to be cancelled |
| `RedpackEffects.HeardAre` | contracts/flon.redpack/include/redpack.hpp:83-96 | the transfers heard of are those at the five accounts named there |
| `SplitSafety.CheckRateAcceptsIff` | contracts/flon.split/src/tokensplit.cpp:62-78 | the check accepts exactly the lists with rates in 1..10000, no receiver twice and a sum of 10000 |
| `SplitSafety.DivideConserves` | contracts/flon.split/src/tokensplit.cpp:232-257 | the loop never overdraws, and what it hands out plus what it leaves is what there was |
| `SplitSafety.DivisionIsExact` | contracts/flon.split/src/tokensplit.cpp:224-268 | under any valid plan the balance check never fails and the payouts sum to exactly the deposit, wrap-around and early stop included |
| `SplitSafety.ReceiverGets` | contracts/flon.split/src/tokensplit.cpp:232-267 | what each receiver gets: its share while the loop lasts, and the first also the rest |
| `SplitSafety.ProportionalIff` | contracts/flon.split/src/tokensplit.cpp:235-236 | exactly when a later receiver gets floor(quant * rate / 10000) |
| `SplitSafety.EarlyStopStarvesLaterReceivers` | contracts/flon.split/src/tokensplit.cpp:236 | a concrete deposit of 5000 that pays a receiver due 4999 nothing |
| `SplitSafety.LargeDepositsAreProportional` | contracts/flon.split/src/tokensplit.cpp:232-267 | from 10000 units on and without a wrap every receiver gets its floor, the first at most n - 1 units more |
| `SplitWallets.AwardAllPays` | contracts/flon.split/src/tokensplit.cpp:250-254 | an auto plan moves each receiver's total into its balance, a manual plan into its wallet, and neither touches the other |
| `SplitWallets.DepositPays` | contracts/flon.split/src/tokensplit.cpp:195-292 | a deposit takes its amount from the payer and pays every account but the contract, the payer included, exactly its payouts, into its balance under an auto plan and into its wallet under a manual one |
| `SplitWallets.PayTokensMoves` | contracts/flon.split/src/tokensplit.cpp:153-157 | paying a wallet moves exactly its amounts and no other balance |
| `SplitWallets.PayTokensIff` | contracts/flon.split/src/tokensplit.cpp:153-157 | a wallet can be paid exactly when its owner is not the payer and the payer holds every amount |
| `SplitWallets.PayInAnyOrder` | contracts/flon.split/src/tokensplit.cpp:303-308 | the order in which a wallet's tokens are sent does not matter |
| `SplitWallets.PayWalletPays` | contracts/flon.split/src/tokensplit.cpp:140-161 | from any reachable state a wallet is paid out in full unless its owner is the contract, and nothing else changes |
| `SplitWallets.EmptyWalletsPays` | contracts/flon.split/src/tokensplit.cpp:294-317 | a batch that completes pays off exactly the first n owners |
| `SplitWallets.FirstOwnersAre` | contracts/flon.split/src/tokensplit.cpp:296-313 | the first n owners are min(n, all) of them, and come before all others in table order |
| `SplitWallets.EmptyWalletsIff` | contracts/flon.split/src/tokensplit.cpp:294-317 | a batch fails exactly when it reaches a wallet of the contract itself |
| `SplitWallets.ClaimAllDrains` | contracts/flon.split/src/tokensplit.cpp:163-172 | with n wallets, ceil(n / 20) calls pay every owner exactly its wallet and leave none |
| `SplitWallets.StepKeeps` | contracts/flon.split/src/tokensplit.cpp:80-317 | every action keeps plans, wallets and funds in order |
| `SplitWallets.EveryRunKeeps` | contracts/flon.split/src/tokensplit.cpp:80-317 | over every run stored rates are valid, no wallet is empty or holds a zero, and the balance of each token is the sum over all wallets |
| `TokenSplit.CheckRates` | contracts/flon.split/src/tokensplit.cpp:62-78 | the loop over the receivers accepts exactly the valid lists |
| `TokenSplit.ShareOf` | contracts/flon.split/src/tokensplit.cpp:235 | the share is never above the proportional part and equals it exactly when the product does not wrap at 64 bits |
| `TokenSplit.TokenSplitContract.AddPlan` | contracts/flon.split/src/tokensplit.cpp:91-114 | the whole effect of adding a plan, or the failed check |
| `TokenSplit.TokenSplitContract.EditPlan` | contracts/flon.split/src/tokensplit.cpp:116-138 | the whole effect of editing a plan, with the batch paid on switching to auto, or the failed check |
| `TokenSplit.TokenSplitContract.PayWallet` | contracts/flon.split/src/tokensplit.cpp:153-160 | the loop over a wallet's tokens, in some order, has the specified effect, and the row goes |
| `TokenSplit.TokenSplitContract.Claim` | contracts/flon.split/src/tokensplit.cpp:140-161 | the whole effect of a claim, or the failed check |
| `TokenSplit.TokenSplitContract.EmptyWallets` | contracts/flon.split/src/tokensplit.cpp:294-317 | the loop that erases while it iterates pays the specified owners |
| `TokenSplit.TokenSplitContract.ClaimAll` | contracts/flon.split/src/tokensplit.cpp:163-172 | the whole effect of one batch, or the failed check |
| `TokenSplit.TokenSplitContract.Award` | contracts/flon.split/src/tokensplit.cpp:270-292 | the whole effect of one payout, at once or into the wallet |
| `TokenSplit.TokenSplitContract.GiveShares` | contracts/flon.split/src/tokensplit.cpp:232-257 | the loop hands out the specified shares and keeps the specified rest; a payout that fails undoes those before it |
| `TokenSplit.TokenSplitContract.Split` | contracts/flon.split/src/tokensplit.cpp:224-268 | shares and rest together have the specified effect, all or nothing |
| `TokenSplit.TokenSplitContract.OnTransfer` | contracts/flon.split/src/tokensplit.cpp:195-221 | a deposit and its notification are one transaction |
| `TokenSplit.TokenSplitContract.Apply` | contracts/flon.split/src/tokensplit.cpp:80-317 | any action takes exactly one step and keeps the invariant |
| `SplitEffects.DepositSucceedsIff` | contracts/flon.split/src/tokensplit.cpp:195-292 | exactly when a deposit goes through, in any reachable state: the payer holds it, the plan exists, and the contract is due nothing under an auto plan, or no wallet outgrows the largest amount under a manual one |
| `SplitEffects.DepositSpares` | contracts/flon.split/src/tokensplit.cpp:224-292 | a deposit changes no plan, no wallet of another plan and no other token |
| `SplitEffects.StrangersGetNothing` | contracts/flon.split/src/tokensplit.cpp:232-267 | an account that is no receiver of the plan is due nothing |
| `SplitEffects.AddPlanIff` | contracts/flon.split/src/tokensplit.cpp:91-114 | exactly which plans are accepted, and the row under the next id |
| `SplitEffects.EditPlanIff` | contracts/flon.split/src/tokensplit.cpp:116-138 | exactly when a plan can be edited, in any reachable state, including the batch a switch to auto pays |
| `SplitEffects.EditPlanSets` | contracts/flon.split/src/tokensplit.cpp:128-138 | an edit gives this plan the new receivers, rates and type, changes no other plan, and pays the first twenty owners exactly on a switch to auto |
| `SplitEffects.ClaimSucceedsIff` | contracts/flon.split/src/tokensplit.cpp:140-161 | a wallet can be claimed exactly when there is one and its owner is not the contract; then it alone is paid |
| `SplitEffects.ClaimAllSucceedsIff` | contracts/flon.split/src/tokensplit.cpp:163-172 | exactly when a batch goes through, and that it pays the first twenty owners |
| `SplitEffects.LimitsTakeEffect` | contracts/flon.split/src/tokensplit.cpp:80-89 | the limits set are within 1 and 50, and the next plan keeps to them |
| `BlindboxSafety.WalkStops` | contracts/flon.blindbox/src/blindbox.cpp:261-267 | for a ticket in 1..total the cumulative walk always stops on an entry |
| `BlindboxSafety.SelectionIsWeighted` | contracts/flon.blindbox/src/blindbox.cpp:256-281 | of the tickets 1..total exactly as many pick a symbol as the box holds of it |
| `BlindboxSafety.OneOutcomeHasOneMore` | contracts/flon.blindbox/src/blindbox.cpp:301-311 | over all accepted seeds every outcome has the same number of preimages, except outcome 1, which has one more |
| `BlindboxSafety.UniformIffOneOutcome` | contracts/flon.blindbox/src/blindbox.cpp:301-311 | so the draw is uniform if and only if there is one outcome |
| `BlindboxSafety.AcceptedSeedsDraw` | contracts/flon.blindbox/src/blindbox.cpp:256-311 | of the seeds accepted for a box of n NFTs, Limit/n draw a symbol for every NFT of it, and one more draws the symbol that comes first |
| `BlindboxSafety.OneNftDraws` | contracts/flon.blindbox/src/blindbox.cpp:256-281 | one draw misses only when its hashes run out; it takes one of the symbol its ticket picks and nothing else, and keeps counters and box in step |
| `BlindboxSafety.DrawAllConserves` | contracts/flon.blindbox/src/blindbox.cpp:199-207 | a purchase fails in its draws only for want of hashes, and per symbol the box before is the box after plus the symbols drawn |
| `BlindboxSafety.PutAllConserves` | contracts/flon.blindbox/src/blindbox.cpp:121-145 | stocking adds per symbol exactly what was sent and counts new entries and NFTs rightly, also when a symbol is named twice |
| `BlindboxSafety.DeliveryBalances` | contracts/flon.blindbox/src/blindbox.cpp:184-224 | paid + change = quantity with change below one price, as many NFTs as prices paid, and per symbol inventory before = inventory after + goods sent |
| `BlindboxSafety.BuyBalances` | contracts/flon.blindbox/src/blindbox.cpp:166-226 | every completed purchase balances so, leaves counters and takings right, and touches no other booth |
| `BlindboxSafety.DepositKeeps` | contracts/flon.blindbox/src/blindbox.cpp:103-155 | a merging deposit keeps counters and box in step |
| `BlindboxSafety.DepositAddsWhatWasSent` | contracts/flon.blindbox/src/blindbox.cpp:121-145 | and adds to the stored box exactly what was sent of each symbol |
| `BlindboxSafety.CreateAlwaysAborts` | contracts/flon.blindbox/include/wasm_db.hpp:73-85 | in every state whose ids were handed out upwards, creating a booth aborts |
| `BlindboxSafety.DepositSucceedsIff` | contracts/flon.blindbox/src/blindbox.cpp:103-155 | exactly when a deposit completes: among the rest, its box row must exist unless nothing is sent, and the symbols in the box and those sent are not too many together |
| `BlindboxSafety.EveryRunKeeps` | contracts/flon.blindbox/src/blindbox.cpp:27-249 | over every run nft_num = sum of the box, nft_box_num = its entries, counts are positive, takings = price * sold; and no booth or box ever appears |
| `BlindboxSafety.CloseReturnsAll` | contracts/flon.blindbox/src/blindbox.cpp:229-249 | closing takes both rows away and sends the owner, and nobody else, exactly what the box held of each symbol |
| `Blindbox.Rand` | contracts/flon.blindbox/src/blindbox.cpp:285-312 | the loop takes the first accepted hash, and a ticket it returns is in 1..range |
| `Blindbox.WalkBox` | contracts/flon.blindbox/src/blindbox.cpp:261-267 | the accumulating loop stops where the cumulative walk does |
| `Blindbox.OneNft` | contracts/flon.blindbox/src/blindbox.cpp:256-281 | one draw, from the hashes through the walk to the decrements, has the specified effect on booth and box, or finds none |
| `Blindbox.PutInto` | contracts/flon.blindbox/src/blindbox.cpp:128-140 | finding or inserting in key order is the specified merge, and the flag says whether the symbol was new |
| `Blindbox.PutAssets` | contracts/flon.blindbox/src/blindbox.cpp:121-145 | the loop over the assets stocks the box as specified |
| `Blindbox.DrawNfts` | contracts/flon.blindbox/src/blindbox.cpp:199-207 | the loop of draws is the specified sequence of picks |
| `Blindbox.CollectNfts` | contracts/flon.blindbox/src/blindbox.cpp:199-207 | the goods are collected by symbol id; two symbols of one id abort |
| `Blindbox.BlindboxContract.CreateBooth` | contracts/flon.blindbox/src/blindbox.cpp:27-62 | the outcome of creating a booth |
| `Blindbox.BlindboxContract.OnTransferNtoken` | contracts/flon.blindbox/src/blindbox.cpp:103-155 | the whole effect of a deposit on booth and box, or the failed check |
| `Blindbox.BlindboxContract.OnTransferToken` | contracts/flon.blindbox/src/blindbox.cpp:166-226 | the whole effect of a purchase on booth, box and payments, or the failed check |
| `Blindbox.BlindboxContract.CloseBooth` | contracts/flon.blindbox/src/blindbox.cpp:229-249 | the whole effect of closing a booth, or the failed check |
| `Blindbox.BlindboxContract.Apply` | contracts/flon.blindbox/src/blindbox.cpp:27-249 | any call takes exactly one step and keeps the invariant |
| `BlindboxEffects.BuyNeeds` | contracts/flon.blindbox/src/blindbox.cpp:166-197 | a completed purchase of n NFTs is of an open booth, for its token, within its limits, and for n times its price but not n + 1 times |
| `BlindboxEffects.BuyRunsOutIff` | contracts/flon.blindbox/src/blindbox.cpp:285-312 | such a purchase runs out of hashes exactly when one of its draws has none that is kept |
| `BlindboxEffects.BuyHasTrace` | contracts/flon.blindbox/src/blindbox.cpp:199-207 | otherwise its symbols are drawn one by one: the k-th by the first kept hash of the k-th draw, out of what the draws before it left of the stored box |
| `BlindboxEffects.BuyCompletesIff` | contracts/flon.blindbox/src/blindbox.cpp:199-224 | and it completes exactly unless two different symbols drawn share an id |
| `BlindboxEffects.BuySellsTrace` | contracts/flon.blindbox/src/blindbox.cpp:184-226 | what is drawn is what is sold: the box is what the draws left, the booth counts what is left, and the buyer is sent each symbol as often as it was drawn |
| `BlindboxEffects.SoldIs` | contracts/flon.blindbox/src/blindbox.cpp:256-312 | one draw: the remainder of the first kept hash by the number left, plus one, is the ticket, and it falls into the entry whose counts it reaches |
| `BlindboxEffects.FirstAcceptedIs` | contracts/flon.blindbox/src/blindbox.cpp:296-308 | the seed is the first hash of at most 2^64 - 1 less its remainder by the range, and there is none exactly when all are above |
| `BlindboxEffects.WalkIs` | contracts/flon.blindbox/src/blindbox.cpp:261-267 | the walk stops on the one entry whose running total reaches the ticket while that before it does not |
| `BlindboxEffects.CreateSucceedsIff` | contracts/flon.blindbox/src/blindbox.cpp:27-62 | creating a booth completes exactly with a price, a closing time to come and a row already under the next id, and would open it empty |
| `BlindboxEffects.CloseSucceedsIff` | contracts/flon.blindbox/src/blindbox.cpp:229-249 | exactly when a booth can be closed, in any reachable state |
| `BlindboxEffects.DisablingFreezes` | contracts/flon.blindbox/src/blindbox.cpp:64-77 | only the owner switches a booth; one that is off sells nothing, takes nothing and is not closed; switching back restores the state |
| `BlindboxEffects.TimesTakeEffect` | contracts/flon.blindbox/src/blindbox.cpp:79-96 | the opening hours set are those a purchase keeps to |
| `OracleSafety.StepAcceptedIff` | contracts/price.oracle/src/price.oracle.cpp:74-81 | from a last price p > 0 exactly the amounts a with p + 1 < 2a < 3p are accepted, provided 15p is an int64 |
| `OracleSafety.MovableIff` | contracts/price.oracle/src/price.oracle.cpp:74-81 | a price can be changed by some quote exactly when it is unknown, or at least 2 with 15p an int64 |
| `OracleSafety.QuoteAcceptedIff` | contracts/price.oracle/src/price.oracle.cpp:52-81 | exactly which quotes are accepted for a coin: its pair code, the quote symbol, a listed coin and an amount within reach |
| `OracleSafety.UpdateOneSets` | contracts/price.oracle/src/price.oracle.cpp:83-100 | an accepted quote sets its coin's price and leaves it one row with the next id; no other coin is touched |
| `OracleSafety.UpdateOneMoves` | contracts/price.oracle/src/price.oracle.cpp:74-84 | an accepted quote moves its coin's known price by one bounded step |
| `OracleSafety.EveryRunKeeps` | contracts/price.oracle/src/price.oracle.cpp:13-101 | over every run a coin has at most one row, which shows its price while that is known, and the row's id counts its accepted updates through removals and relistings |
| `OracleSafety.EveryRunIsBounded` | contracts/price.oracle/src/price.oracle.cpp:74-100 | from p0 > 0 of a coin never removed, k >= 1 accepted updates lead to p with p0 < 2^k p < 3^k p0, so the price never returns to 0 and the one row shows it |
| `OracleSafety.StuckForGood` | contracts/price.oracle/src/price.oracle.cpp:74-81 | a price of 1, or one whose 15-fold is no int64, survives every run in which the coin is not removed |
| `OracleSafety.RelistingFreesPrice` | contracts/price.oracle/src/price.oracle.cpp:28-39 | removing and relisting a coin keeps its row and its count but lets the next quote through whatever the price was |
| `OracleSafety.NegativeFirstQuoteSticks` | contracts/price.oracle/src/price.oracle.cpp:76-84 | a negative first quote is accepted and stored as such a price |
| `Oracle.OracleContract.ReplaceRow` | contracts/price.oracle/src/price.oracle.cpp:86-100 | erasing the first row and emplacing the next id has the specified effect on the coin's table |
| `Oracle.OracleContract.UpdateOnePrice` | contracts/price.oracle/src/price.oracle.cpp:52-101 | the whole effect of one quote on price and table, or the failed check |
| `Oracle.OracleContract.UpdatePrice` | contracts/price.oracle/src/price.oracle.cpp:41-49 | the quotes of a batch take effect in order, all or nothing |
| `Oracle.OracleContract.Apply` | contracts/price.oracle/src/price.oracle.cpp:13-101 | any call takes exactly one step and keeps the invariant |
| `OracleEffects.BatchAcceptedIff` | contracts/price.oracle/src/price.oracle.cpp:41-49 | a batch goes through, to a given state, exactly when its sender is a listed oracle, it is not empty, and its quotes apply one after the other and lead there |
| `OracleEffects.OraclesAre` | contracts/price.oracle/src/price.oracle.cpp:13-26 | over every run the oracles are exactly the accounts added and not removed since |
| `OracleEffects.OnlyOraclesMovePrices` | contracts/price.oracle/src/price.oracle.cpp:13-49 | over every run what is known of a coin's price changes only when the coin is listed or removed, or by quotes for it from an account added as an oracle and not removed since |
| `OracleEffects.AppliesIff` | contracts/price.oracle/src/price.oracle.cpp:52-101 | one quote on the stored fields: which is accepted, and the state it leads to |
| `OracleEffects.OracleListing` | contracts/price.oracle/src/price.oracle.cpp:13-26 | adding and removing an oracle go through exactly when they change something, and undo each other |
| `OracleEffects.CoinListing` | contracts/price.oracle/src/price.oracle.cpp:28-39 | listing a coin sets its price to unknown, and removing it undoes that and touches no other coin |
| `Strings.TrimIs` | contracts/flon.proxyswap/include/utils.hpp:83-87 | trimming takes spaces off both ends and nothing else, and leaves none there |
| `Strings.JoinOfPieces` | contracts/price.oracle/include/price.oracle/utils.hpp:83-95 | splitting loses nothing and cuts at every delimiter |
| `Strings.PiecesOfJoin` | contracts/price.oracle/include/price.oracle/utils.hpp:83-95 | the pieces are the only delimiter-free ones that join to the text |
| `Strings.Split` | contracts/price.oracle/include/price.oracle/utils.hpp:83-95 | the loop yields every piece, trimmed, in order |
| `Strings.SplitsInTwo` | contracts/price.oracle/src/price.oracle.cpp:54-59 | a pair code splits in two exactly when it has one point, and where |
| `Safe.Plus` | contracts/flon.proxyswap/include/safe.hpp:36-41 | checked addition aborts exactly when the sum is no int64, and its guards never overflow |
| `Safe.Minus` | contracts/flon.proxyswap/include/safe.hpp:42-47 | checked subtraction aborts exactly when the difference is no int64, and its guards never overflow |
| `Safe.Times` | contracts/flon.proxyswap/include/safe.hpp:49-75 | checked multiplication aborts exactly when the product is no int64 |
| `Safe.GuardsAreExact` | contracts/flon.proxyswap/include/safe.hpp:51-72 | the four sign cases with their truncated quotients catch exactly the products that do not fit |
| `Safe.SafeInt.PlusAssign` | contracts/flon.proxyswap/include/safe.hpp:96-100 | the assignment form adds in place, or aborts and leaves the value |
| `Safe.SafeInt.MinusAssign` | contracts/flon.proxyswap/include/safe.hpp:101-105 | the assignment form subtracts in place, or aborts and leaves the value |
| `Safe.SafeInt.TimesAssign` | contracts/flon.proxyswap/include/safe.hpp:106-110 | the assignment form multiplies in place, or aborts and leaves the value |
| `Safe.SafeInt.Increment` | contracts/flon.proxyswap/include/safe.hpp:122-126 | increment aborts exactly at the largest int64 |
| `Safe.SafeInt.Decrement` | contracts/flon.proxyswap/include/safe.hpp:134-138 | decrement aborts exactly at the least int64 |
| `AmountPrinter.DecimalTextMeans` | contracts/tokensummary/src/tokensummary.cpp:25 | the printed number has only digits, no leading zero, and stands for the amount |
| `AmountPrinter.PaddedIs` | contracts/tokensummary/src/tokensummary.cpp:26-27 | the zero-padded text is the whole units followed by exactly `precision` digits of the rest |
| `AmountPrinter.FormatAmount` | contracts/tokensummary/src/tokensummary.cpp:22-32 | the string built in place is sign, whole units without leading zeros, and, for a positive precision, a point and exactly that many digits |
| `AssetParser.PrecisionFromDecimals` | contracts/flon.proxyswap/include/utils.hpp:120-129 | the loop refuses exactly the precisions above 18 and otherwise yields 10^precision without an overflow, 1 for a negative one |
| `AssetParser.ReadFraction` | contracts/flon.proxyswap/include/utils.hpp:172-173 | the fraction with its sign, or the failure |
| `AssetParser.AssembleAsset` | contracts/flon.proxyswap/include/utils.hpp:178-183 | the checked scaling and sum give whole * 10^precision + fraction, or the failure |
| `AssetParser.AssetFromString` | contracts/flon.proxyswap/include/utils.hpp:144-184 | the parser on checked integers agrees with its specification on every text |
| `AssetText.DecimalIsParsed` | contracts/flon.proxyswap/include/utils.hpp:144-184 | parsing a decimal and a code depends only on the sign, the values of its two digit texts and the number of fraction digits |
| `AssetText.DecimalAcceptedIff` | contracts/flon.proxyswap/include/utils.hpp:155-183 | with up to 18 fraction digits a decimal is accepted exactly when its value is in an asset's range, and then that value is the amount |
| `AssetText.WholeAcceptedIff` | contracts/flon.proxyswap/include/utils.hpp:174-183 | the same for a number without a point, with precision 0 |
| `AssetText.WrittenMeans` | contracts/tokensummary/src/tokensummary.cpp:25-28 | the digits printed on both sides of the point stand for the amount |
| `AssetText.RoundTrip` | contracts/tokensummary/src/tokensummary.cpp:22-32 | for every precision 0..18 and every amount up to 2^62 - 1 either way, parsing the printed text with its symbol gives amount and precision back |
| `AssetText.PrintsBackIff` | contracts/tokensummary/src/tokensummary.cpp:22-32 | a parsed decimal is printed back as written exactly when it had no needless leading zero and was no negated zero |
| `AssetText.FaithfulIff` | contracts/flon.proxyswap/include/utils.hpp:161-179 | of the accepted decimals with any number of digits, exactly which are read for what they say |
| `AssetText.ZerosSlipThrough` | contracts/flon.proxyswap/include/utils.hpp:120-129 | whole units followed by 128 to 255 zeros are accepted and misread |
| `AssetText.CodeAcceptedIff` | contracts/flon.proxyswap/include/utils.hpp:155-183 | behind a number in range exactly the codes of one to seven capital letters are accepted |
| `AssetText.SpaceIsNeeded` | contracts/flon.proxyswap/include/utils.hpp:149-152 | a text without a space is refused |
| `AssetText.OuterSpacesAreIgnored` | contracts/flon.proxyswap/include/utils.hpp:147 | spaces around the text do not matter |
| `AssetText.PointNeedsDigits` | contracts/flon.proxyswap/include/utils.hpp:158-160 | a point right before the space is refused |
| `AssetText.JunkIsOverlooked` | contracts/flon.proxyswap/include/utils.hpp:168-183 | characters between the digits of a whole number and the space are overlooked |
| `AssetText.LeadIsOverlooked` | contracts/flon.proxyswap/include/utils.hpp:105-110 | a plus sign or a tab before a whole number is overlooked too |
| `AssetText.NoDigitsIsZero` | contracts/flon.proxyswap/include/utils.hpp:105-110 | without a digit where the number should begin the text is an error or reads as 0, as the C library has it |
| `AssetText.MinusInFraction` | contracts/flon.proxyswap/include/utils.hpp:112-117 | a minus sign behind the point counts as a fraction digit and takes the fraction off |

## Left out

- Authorisation, `is_account`, RAM payers, ricardian text, printing and inline notifications of traces: platform plumbing that moves no tokens.
- Memo texts: the notification handlers take the parsed arguments; a memo that does not parse aborts before anything is written.
- The token contracts and the NFT contract: token transfers are the abstract ledger; NFT transfers and the payments of the blind box are events, so its fund balance is not part of this model.
- sha256 and tapos: the random numbers are arbitrary inputs, so every claim holds for all of them.
- Timestamps kept only for display, titles beyond their length, cover codes and creators' names in claims.
- `Blindbox.Rand`: does not say that the rehash loop ends; the hashes of a draw are given as a finite list, and a draw whose hashes are all rejected aborts, as a transaction out of time does.
- `Base58.DecodeBase58`: does not model the width of C `int` for the buffer size, which wraps for texts of several megabytes, nor locale-dependent `isspace`.
- `AmountPrinter.FormatAmount`: does not cover the least int64, whose negation is undefined in the source.
- `AssetParser.AssetFromString`: takes as a parameter whether the C library reports a conversion without digits as an error; the symbol's rules (at most seven capital letters) and the asset's range are those of the platform library, which is not part of this model.
- `Vest.TotalUnlocked`: seconds are unbounded, while the platform's are 32 bits wide; the 128-bit intermediate product is unbounded too, and stays far below its limit for any number of days a 32-bit clock can give.
- `Redpack.AssignShare`: symbols have any precision; the powers of ten of a precision above 18 do not wrap.
- Row ids and counters (plan, issue, pot, claim, booth and row ids) are unbounded, while the source's are 64 bits wide.
- Each contract starts with no balance of its own; tokens sent to it with a memo that is ignored do not occur, since every handler aborts on an unknown memo.
- Red packets: `setglobalidx` (it would break the uniqueness of ids), the whitelist's numeric ids, and the DID lookup, which is two booleans of the claim. `unwrap_fee_required` has no action that sets it, so it is part of the initial state (off as deployed), and `unwrapped_by_admin` keeps its default.
- Actions that check and write one field (plan owner and status, first day and receiver of an issue, token lists, booth status and times, oracles and coins, the limits of `init`) are methods and part of every run; the methods have no row of their own, what the actions bring about is in the `XxxEffects` rows.
- Split payments: the `boost` argument, which the source reads and does not use, and the plan events sent for chain scanners.
- Blind boxes: payments are taken from any token contract the booth names, while the source is notified by two of them only; `delboothbox`, `fixboothbox` and the setters of limits, which repair rows behind the counters; the check that the split plan exists.
- `flon.proxyswap` orders, `flon.airdrop`, `flon.faucet`, `flon.creator`, `flon.applybp`, `flon.test`, the token list of `tokensummary`: only single-step or lookup properties.
- `pubkey.token` accounts: gas is bought without debiting the row, so no clean ledger property holds.
- `pow_decimal` of safemath.hpp: called by no contract. The copies of safe.hpp, utils.hpp and wasm_db.hpp in other contracts are modelled once; division and remainder of safe.hpp are not.
