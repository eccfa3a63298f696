# Trender: a verified model of the post liquidity pools

Trender is a Solana program written with Anchor. Anyone can open a *post pool* by depositing SOL. The public can then buy and sell HYPE, a unit derived from that deposit, on a constant-product bonding curve.

**Opening a pool.** A pool opened with a deposit of D lamports starts with:
- `reserved_sol = D`;
- `reserved_hype = 10 D`;
- a creator bonus `creator_hype_balance = D`;
- `total_hype = D` in circulation.

**Instructions.**
- `hype` (buy) and `unhype` (sell) price trades with `amm_price` and `amm_refund`. These are u128 checked-arithmetic formulas over the product of the reserves.
- `creator_release_hype` lets the creator cash out the bonus.
- Fees go to a treasury. The admin set by `initialize_treasury` can drain it through `withdraw_treasury`.

**Atomicity.** Every instruction is all-or-nothing. A panic in a checked operation, a failed `require!`, or a failed Anchor or runtime check leaves every account as it was.

**The model.** The project models that program and its pricing engine. It also models the BigNum copy of the two formulas in the integration test, and that test's scenarios.

- `Amm.dfy`: u128 checked arithmetic as `Option` (`None` is an `unwrap()` panic), and the two curve formulas.
  - Their contracts say exactly when each formula aborts and that a refund never exceeds the SOL reserve.
  - The `Bounds` lemmas characterise each result as the extreme payment that keeps the product of the reserves from rising.
- `Ledger.dfy`: the accounts (`Config`, `PostPool`, `HypeRecord`, the vaults, the treasury, the wallets) and the error codes.
  - Each instruction is a pure transition `State -> Result<State>` whose guards come in the handler's order.
  - Anchor's account checks come first: `init` on an existing account, and an account that does not exist.
  - `Inv` is the accounting invariant. The treasury is never short of rent, and while the program owns it the config exists. Each vault holds its rent floor plus exactly `reserved_sol`, and `total_hype` is the creator's bonus plus the sum of the buyers' records.
- `Effects.dfy`: for every instruction, a declarative reference.
  - `XAccepted` says when it succeeds and `XApplied` gives the new accounts.
  - `XEffect` and `XSucceeds` prove the transition agrees with the reference in both directions.
- `Invariants.dfy`: `Inv` holds at genesis and is kept by every successful instruction.
- `Program.dfy`: the program as a mutable ledger, `class Trender`, with one method per instruction that updates the accounts in place.
  - Each method returns `Done` or `Failed(error)`.
  - Each is proved to commit exactly the transition of `Ledger`, or to change nothing when that transition fails.
  - Each is proved to keep `Inv`.
- `Mirror.dfy`: the test's `ammPrice`/`ammRefund` over signed integers with truncating, throwing BigNum division, and their agreement with the program.
- `Properties.dfy`: the order of each instruction's checks, conservation laws, the buy-then-sell round trip, slippage quotes, and treasury withdrawal.
- `Trace.dfy`: sequences of transactions, where a failed one changes nothing. The invariant, each pool's HYPE supply and every buyer's record survive any sequence, and a deleted treasury is never recovered.
- `Scenarios.dfy`: each `it(...)` of the integration test as a lemma with the test's amounts, plus one example of the release formula draining a pool. Each starts from a ledger on which `initialize_treasury` has run, as the test's set-up makes sure (trender.ts:26-39).

**Modelling choices.**
- Lamports of signers and recipients are a `wallets` map.
- The runtime refuses a transaction that leaves an account holding some lamports but fewer than its rent-exempt minimum. For the vaults and for a treasury the program owns, that minimum is `rentFloor`, the figure for an 8-byte account. For a treasury address the program does not own, it is `emptyRentFloor`, the figure for an account without data.
- The rent check applies to every payment into the treasury as well as out of it. Before `initialize_treasury` the treasury holds nothing, and a fee below `emptyRentFloor` is refused.
- `initialize_treasury` creates the treasury as the program's account and tops it up to `rentFloor`.
- A withdrawal of the whole balance deletes the treasury, and the address goes back to the system program. From then on the runtime refuses every withdrawal of a positive amount, since the program no longer owns the account. `initialize_treasury` cannot recreate it, because the config still exists.
- The rent check and ownership are the only limits on `withdraw_treasury` beyond the admin check and the lamport subtraction.
- Anchor's `has_one = user` on unhype's record runs with the account checks, before the handler, and fails `ConstraintHasOne`. The handler's own `Unauthorized` check after it can never fail.
- `initialize_post` pays the floor into the new vault, so a vault holds `rentFloor + reserved_sol`.

Where the program's written description and its code differ, the model follows the code:
- A buyer's record is created with Anchor `init` and never accumulated: a second `hype` by the same buyer on the same pool fails (`Properties.SecondHypeRefused`, `Trace.HypeAtMostOnce`).
- `creator_release_hype` prices the released HYPE with the buy formula `amm_price`, not the sell formula, and charges no fee. This can empty the SOL reserve (`Scenarios.ReleaseDrainsReserve`).
- `withdraw_treasury` has no `InsufficientFunds` check. An overdraft is refused only by the lamport subtraction or by the runtime's rent check, and the error `InsufficientFunds` is never raised.
- A buy of exactly `reserved_hype` passes the `InsufficientHypeReserve` guard and aborts in the price's division by zero.
- The fees are fixed in the code: 2% of the deposit, 0.5% of a buy's price, 0.5% of a sale's refund, and nothing on a release.
- `MIN_SOL_DEPOSIT` is declared but never checked.
- The product of the reserves is not kept exactly. A buy or a sale never raises it. A buy of `a` followed by a sale of `a` restores `reserved_hype` exactly, and the seller may get back one lamport more than the buy cost.

## Model

| member | source | states |
|---|---|---|
| Ledger.InitializeTreasury | trender-contract/programs/trender/src/lib.rs:20-25 | the step-by-step transition; its contract is carried by `Effects.InitializeTreasuryEffect` and `Effects.InitializeTreasurySucceeds` |
| Ledger.InitializePost | trender-contract/programs/trender/src/lib.rs:27-76 | the step-by-step transition, checks in the handler's order; its contract is carried by `Effects.InitializePostEffect`, `Effects.InitializePostSucceeds`, `Properties.InitializePostRejects` and `Properties.InitializePostTreasuryRent` |
| Ledger.Hype | trender-contract/programs/trender/src/lib.rs:78-149 | the step-by-step transition; its contract is carried by `Effects.HypeEffect`, `Effects.HypeSucceeds`, `Properties.HypeRejects` and `Properties.HypeTreasuryRent` |
| Ledger.Unhype | trender-contract/programs/trender/src/lib.rs:151-208 | the step-by-step transition, `has_one` before the handler's checks; its contract is carried by `Effects.UnhypeEffect`, `Effects.UnhypeSucceeds`, `Properties.UnhypeRejects` and `Properties.UnhypeTreasuryRent` |
| Ledger.CreatorReleaseHype | trender-contract/programs/trender/src/lib.rs:210-256 | the step-by-step transition; its contract is carried by `Effects.CreatorReleaseHypeEffect`, `Effects.CreatorReleaseHypeSucceeds` and `Properties.CreatorReleaseHypeRejects` |
| Ledger.WithdrawTreasury | trender-contract/programs/trender/src/lib.rs:258-269 | the step-by-step transition; its contract is carried by `Effects.WithdrawTreasuryEffect`, `Effects.WithdrawTreasurySucceeds` and `Properties.WithdrawAllDeletesTreasury` |
| Ledger.Inv | trender-contract/programs/trender/src/lib.rs:62-71 | the accounting invariant as the handlers' writes establish it; that it holds in every reachable state is `Trace.ReachableInv` |
| Amm.AmmPrice | trender-contract/programs/trender/src/lib.rs:272-279 | the buy price is defined exactly when `reserved_sol * reserved_hype` fits in u128 and the buy leaves HYPE in the pool (aborting when `bought >= reserved_hype`); the new SOL reserve then still fits in u128 |
| Amm.AmmPriceBounds | trender-contract/programs/trender/src/lib.rs:272-279 | the price is the greatest payment after which the product of the reserves is at most k; one lamport more takes it above k: `(rs + p)(rh - b) <= rs*rh < (rs + p + 1)(rh - b)` |
| Amm.AmmRefund | trender-contract/programs/trender/src/lib.rs:281-288 | the refund is defined exactly when the product and the new HYPE reserve fit in u128 and that reserve is positive; it never exceeds `reserved_sol` |
| Amm.AmmRefundBounds | trender-contract/programs/trender/src/lib.rs:281-288 | the refund is the least payout after which the product is at most k; one lamport less takes it above k: `(rs - r)(rh + s) <= rs*rh < (rs - r + 1)(rh + s)` |
| Effects.InitializeTreasuryEffect | trender-contract/programs/trender/src/lib.rs:20-25 | a successful initialize_treasury was accepted (no config yet, payer can fund the treasury's rent) and made the payer admin, giving the program the treasury and topping it up to its rent floor |
| Effects.InitializeTreasurySucceeds | trender-contract/programs/trender/src/lib.rs:291-302 | when there is no config and the payer can pay the shortfall, initialize_treasury succeeds with exactly that effect |
| Effects.InitializePostEffect | trender-contract/programs/trender/src/lib.rs:27-76 | a successful initialize_post had a new key, `0 < D <= u64::MAX`, funds for rent, deposit and 2% fee, and a treasury the fee leaves rent exempt, and opened the pool `rs = D, rh = 10 D, chb = total = D` with vault `rentFloor + D` |
| Effects.InitializePostSucceeds | trender-contract/programs/trender/src/lib.rs:27-76 | conversely every such request succeeds with that effect, including the runtime's rent check on the fee paid into the treasury |
| Effects.HypeEffect | trender-contract/programs/trender/src/lib.rs:78-149 | a successful hype had no record yet, `amount >= 1_000_000`, a defined price within the limit and u64, funds for price plus 0.5% fee, and a treasury the fee leaves rent exempt; it moved price to the vault, fee to the treasury, `amount` from reserve to circulation and created the record holding `amount` |
| Effects.HypeSucceeds | trender-contract/programs/trender/src/lib.rs:78-149 | conversely every accepted hype, one whose fee leaves the treasury at 0 or at least its rent floor, succeeds with that effect (the per-unit price of the event always fits) |
| Effects.UnhypeEffect | trender-contract/programs/trender/src/lib.rs:151-208 | a successful unhype was signed by the record's user, sold between 1_000_000 and the record's amount, met the refund floor, and left both the vault and the treasury rent exempt; the vault paid exactly the refund, the seller got it less the 0.5% fee and the treasury the fee |
| Effects.UnhypeSucceeds | trender-contract/programs/trender/src/lib.rs:151-208 | conversely every accepted unhype, one whose fee leaves the treasury at 0 or at least its rent floor, succeeds with that effect |
| Effects.CreatorReleaseHypeEffect | trender-contract/programs/trender/src/lib.rs:210-256 | a successful release was signed by the creator for `0 < amount <= creator_hype_balance`; the vault paid the creator the buy price `amm_price` of `amount` with no fee, and `amount` went from the bonus back to the reserve |
| Effects.CreatorReleaseHypeSucceeds | trender-contract/programs/trender/src/lib.rs:210-256 | conversely every accepted release succeeds with that effect |
| Effects.WithdrawTreasuryEffect | trender-contract/programs/trender/src/lib.rs:258-269 | a successful withdrawal was signed by the admin, took a positive amount only from a treasury the program owns, and left the treasury empty or rent exempt; exactly `amount` moved to the recipient, and a treasury left empty is no longer the program's |
| Effects.WithdrawTreasurySucceeds | trender-contract/programs/trender/src/lib.rs:258-269 | conversely every such withdrawal succeeds with that effect; none of a positive amount succeeds after the treasury was deleted |
| Invariants.GenesisInv | trender-contract/programs/trender/src/lib.rs:417-441 | the empty ledger, with no treasury yet, satisfies the accounting invariant |
| Invariants.InitializeTreasuryKeepsInv | trender-contract/programs/trender/src/lib.rs:20-25 | initialize_treasury's effect keeps the invariant |
| Invariants.InitializePostKeepsInv | trender-contract/programs/trender/src/lib.rs:62-71 | a new pool is consistent: vault is rent plus `reserved_sol`, and `total_hype` is the bonus since no buyer holds any of it |
| Invariants.HypeKeepsInv | trender-contract/programs/trender/src/lib.rs:124-132 | hype's effect keeps vault = rent + `reserved_sol` and `total_hype` = bonus + sum of records |
| Invariants.UnhypeKeepsInv | trender-contract/programs/trender/src/lib.rs:175-191 | unhype's effect keeps the same two identities |
| Invariants.CreatorReleaseHypeKeepsInv | trender-contract/programs/trender/src/lib.rs:227-241 | the release's effect keeps the same two identities |
| Invariants.WithdrawTreasuryKeepsInv | trender-contract/programs/trender/src/lib.rs:258-269 | withdrawal's effect keeps the invariant, the treasury's rent included |
| Invariants.InitializeTreasuryPreservesInv | trender-contract/programs/trender/src/lib.rs:20-25 | every successful initialize_treasury keeps the invariant |
| Invariants.InitializePostPreservesInv | trender-contract/programs/trender/src/lib.rs:27-76 | every successful initialize_post keeps the invariant |
| Invariants.HypePreservesInv | trender-contract/programs/trender/src/lib.rs:78-149 | every successful hype keeps the invariant |
| Invariants.UnhypePreservesInv | trender-contract/programs/trender/src/lib.rs:151-208 | every successful unhype keeps the invariant |
| Invariants.CreatorReleaseHypePreservesInv | trender-contract/programs/trender/src/lib.rs:210-256 | every successful release keeps the invariant |
| Invariants.WithdrawTreasuryPreservesInv | trender-contract/programs/trender/src/lib.rs:258-269 | every successful withdrawal keeps the invariant |
| Program.Trender.constructor | trender-contract/programs/trender/src/lib.rs:417-441 | the ledger starts empty, with the invariant |
| Program.Trender.InitializeTreasury | trender-contract/programs/trender/src/lib.rs:20-25 | updates the accounts in place to exactly the transition's new state, or leaves them all unchanged and reports its error; keeps the invariant |
| Program.Trender.InitializePost | trender-contract/programs/trender/src/lib.rs:27-76 | the same for initialize_post, refusing a fee that would leave the treasury short of rent |
| Program.Trender.SettlePost | trender-contract/programs/trender/src/lib.rs:36-71 | once accepted, the transfers and pool writes yield exactly the reference effect |
| Program.Trender.Hype | trender-contract/programs/trender/src/lib.rs:78-149 | the same all-or-nothing commitment for hype, refusing a fee that would leave the treasury short of rent |
| Program.Trender.SettleHype | trender-contract/programs/trender/src/lib.rs:96-132 | the transfers and writes of hype yield exactly its reference effect at the given price |
| Program.Trender.Unhype | trender-contract/programs/trender/src/lib.rs:151-208 | the same all-or-nothing commitment for unhype, `has_one` first, refusing a fee that would leave the treasury short of rent |
| Program.Trender.SettleUnhype | trender-contract/programs/trender/src/lib.rs:175-191 | the lamport moves and writes of unhype yield exactly its reference effect at the given refund |
| Program.Trender.CreatorReleaseHype | trender-contract/programs/trender/src/lib.rs:210-256 | the same all-or-nothing commitment for creator_release_hype |
| Program.Trender.SettleRelease | trender-contract/programs/trender/src/lib.rs:227-241 | the lamport moves and writes of the release yield exactly its reference effect at the given payout |
| Program.Trender.WithdrawTreasury | trender-contract/programs/trender/src/lib.rs:258-269 | the same all-or-nothing commitment for withdraw_treasury, refusing a positive withdrawal from a deleted treasury and marking a treasury it empties as deleted |
| Mirror.TruncDiv | trender-contract/tests/trender.ts:14 | BigNum division agrees with floor division on a non-negative dividend and positive divisor, and is minus the floor quotient for a negative divisor |
| Mirror.AmmPriceMirrorAgrees | trender-contract/tests/trender.ts:11-16 | whenever the product fits and the buy leaves HYPE, the mirror computes exactly the program's price; every other buy aborts in the program |
| Mirror.AmmPriceMirrorBeyondReserve | trender-contract/tests/trender.ts:11-16 | a buy of the whole reserve throws in the mirror as it aborts in the program; a larger buy aborts in the program but the mirror returns a quote of at most minus the SOL reserve |
| Mirror.AmmRefundMirrorAgrees | trender-contract/tests/trender.ts:18-23 | whenever the product and the new reserve fit, the mirror's refund is the program's, aborts included |
| Mirror.AmmPriceMirror | trender-contract/tests/trender.ts:11-16 | the test's `ammPrice`; its contract is carried by `AmmPriceMirrorAgrees` (equal to the program's price wherever the program does not abort) and `AmmPriceMirrorBeyondReserve` |
| Mirror.AmmRefundMirror | trender-contract/tests/trender.ts:18-23 | the test's `ammRefund`; its contract is carried by `AmmRefundMirrorAgrees` (equal to the program's refund, aborts included) |
| Mirror.WithTolerance | trender-contract/tests/trender.ts:217 | the test's `quote.mul(percent).div(100)`; its contract is carried by `ToleranceBrackets` |
| Mirror.ToleranceBrackets | trender-contract/tests/trender.ts:217 | a quote raised by at least 100% is at least the quote; lowered by at most 100% it lies in [0, quote] |
| Properties.RoundTripRefund | trender-contract/programs/trender/src/lib.rs:272-288 | selling back at once what was just bought refunds at most the price plus one lamport |
| Properties.InitializePostOpensPool | trender-contract/programs/trender/src/lib.rs:27-76 | on success `0 < D <= u64::MAX`, `rs = D`, `rh = 10 D`, `chb = total = rh / 10`, `rh + total = 11 D`, vault = rent + D, treasury + D·2/100, and the creator paid rent, deposit and fee |
| Properties.InitializePostRejects | trender-contract/programs/trender/src/lib.rs:28-30 | a zero deposit fails InvalidDepositAmount and one beyond u64 fails AmountTooLarge |
| Properties.MinSolDepositNotEnforced | trender-contract/programs/trender/src/lib.rs:10 | a one-lamport deposit, below the declared minimum, succeeds |
| Properties.InitializePostTreasuryRent | trender-contract/programs/trender/src/lib.rs:47-59 | once every check has passed, initialize_post fails InsufficientFundsForRent exactly when the 2% fee leaves the treasury holding some lamports but less than its rent floor; a treasury the program owns takes every fee |
| Properties.HypeRejects | trender-contract/programs/trender/src/lib.rs:81-89 | InvalidHypeAmount exactly when `amount < 1_000_000`; then InsufficientHypeReserve when `amount > rh`; a buy of exactly `rh` panics; then SlippageExceeded when the price exceeds the limit |
| Properties.HypeTreasuryRent | trender-contract/programs/trender/src/lib.rs:102-122 | once every check has passed, hype fails InsufficientFundsForRent exactly when the 0.5% fee leaves the treasury short of rent; a treasury the program owns takes every fee |
| Properties.SecondHypeRefused | trender-contract/programs/trender/src/lib.rs:129-132 | hype creates the record holding exactly `amount`, and a second hype by the same buyer on the pool fails AccountAlreadyInUse |
| Properties.HypeConserves | trender-contract/programs/trender/src/lib.rs:124-127 | hype changes only its pool and vault, keeps `rh + total` and `vault - rs`, and the product of the reserves does not rise (by less than one lamport's worth) |
| Properties.QuotedHypeNeverSlips | trender-contract/tests/trender.ts:208-230 | a hype limited to the mirror's quote times a tolerance of at least 100% never fails SlippageExceeded |
| Properties.UnhypeRejects | trender-contract/programs/trender/src/lib.rs:151-208 | ConstraintHasOne (Anchor's `has_one = user`, lib.rs:371) exactly when the record's user is not the signer; then InvalidHypeAmount below 1_000_000; then InsufficientHypeBalance; then SlippageExceeded below the refund floor |
| Properties.UnhypeGuardsNeverFire | trender-contract/programs/trender/src/lib.rs:154-163 | unhype never fails the handler's Unauthorized check; in every state satisfying the invariant it never fails `has_one` nor InsufficientSolReserve either |
| Properties.UnhypeTreasuryRent | trender-contract/programs/trender/src/lib.rs:183-184 | once every check has passed, unhype fails InsufficientFundsForRent exactly when the 0.5% fee leaves the treasury short of rent; a treasury the program owns takes every fee |
| Properties.UnhypeConserves | trender-contract/programs/trender/src/lib.rs:170-189 | unhype changes only its pool and vault; the vault loses exactly what the seller and the treasury gain; `rh + total` and `vault - rs` are kept; the product does not rise |
| Properties.UnhypeSettlementConserves | trender-contract/programs/trender/src/lib.rs:180-189 | the same facts about the reference effect at the curve refund |
| Properties.QuotedUnhypeNeverSlips | trender-contract/tests/trender.ts:488-509 | an unhype floored at the mirror's refund times a tolerance of at most 100% never fails SlippageExceeded |
| Properties.BuyThenSell | trender-contract/tests/trender.ts:511-535 | buying a then selling a empties the record and restores `reserved_hype`, `total_hype` and the bonus exactly; `reserved_sol` ends at most one lamport lower |
| Properties.RoundTripSettlement | trender-contract/programs/trender/src/lib.rs:124-191 | the same round trip over the reference effects |
| Properties.CreatorReleaseHypeRejects | trender-contract/programs/trender/src/lib.rs:211-213 | Unauthorized exactly when the signer is not the creator; then InvalidHypeAmount exactly for 0 (no 1_000_000 minimum); then InsufficientHypeBalance |
| Properties.CreatorReleaseHypeConserves | trender-contract/programs/trender/src/lib.rs:218-241 | a release pays the creator exactly the buy price `amm_price(rs, rh, amount)` from the vault, charges no fee, changes only its pool and vault, and keeps `rh + total` and `vault - rs` |
| Properties.OnlyInitializerWithdraws | trender-contract/programs/trender/src/lib.rs:20-25 | after initialize_treasury by `payer`, a withdrawal fails Unauthorized exactly when signed by someone else |
| Properties.WithdrawTreasuryMovesOnlyAmount | trender-contract/programs/trender/src/lib.rs:258-269 | a withdrawal moves exactly `amount` from the treasury to the recipient and leaves every other account unchanged |
| Properties.WithdrawDownToRentFloor | trender-contract/tests/trender.ts:787-863 | withdrawing all above the rent floor of a treasury the program owns succeeds and leaves the floor, after which withdrawing 1 more fails |
| Properties.WithdrawAllDeletesTreasury | trender-contract/programs/trender/src/lib.rs:258-269 | withdrawing the whole balance succeeds and deletes the treasury; afterwards every positive withdrawal fails and initialize_treasury fails AccountAlreadyInUse |
| Trace.ApplyPreservesInv | trender-contract/programs/trender/src/lib.rs:16-270 | one transaction, successful or not, keeps the invariant |
| Trace.RunPreservesInv | trender-contract/programs/trender/src/lib.rs:16-270 | any sequence of transactions keeps the invariant |
| Trace.ReachableInv | trender-contract/programs/trender/src/lib.rs:16-270 | every state reachable from the empty ledger satisfies the invariant |
| Trace.ApplyKeepsSupply | trender-contract/programs/trender/src/lib.rs:68-71 | one transaction keeps every open pool open and its `rh + total` unchanged |
| Trace.RunKeepsSupply | trender-contract/programs/trender/src/lib.rs:68-71 | any sequence keeps every open pool and its `rh + total` (11 times its deposit) |
| Trace.ApplyKeepsRecord | trender-contract/programs/trender/src/lib.rs:348 | no transaction closes a buyer's record |
| Trace.HypeAtMostOnce | trender-contract/programs/trender/src/lib.rs:348 | after any sequence of transactions, a buyer who has a record on a pool cannot hype that pool again |
| Trace.ApplyKeepsTreasuryLost | trender-contract/programs/trender/src/lib.rs:291-302 | no transaction gives a deleted treasury back to the program while the config exists |
| Trace.TreasuryLostForGood | trender-contract/programs/trender/src/lib.rs:265 | after the treasury was deleted, whatever transactions follow, every withdrawal of a positive amount fails |
| Scenarios.InitializePostScenario | trender-contract/tests/trender.ts:41-98 | a 0.5 SOL deposit opens the pool with `rs = D`, `rh = 10 D`, `total = chb`, vault at least D |
| Scenarios.PricePositiveScenario | trender-contract/tests/trender.ts:145-150 | on a fresh 0.5 SOL pool the mirror and the program both quote 1000 > 0 for 10_000 HYPE |
| Scenarios.BuyWithSlippageScenario | trender-contract/tests/trender.ts:153-261 | a 1_000_000 buy with a 5% limit succeeds; record = 1_000_000, `rh` drops and `total` rises by exactly that |
| Scenarios.BuyThenSellScenario | trender-contract/tests/trender.ts:400-536 | buying and selling 10_000_000 on a 2 SOL pool both succeed; the record is 0, `rh` is restored exactly, `total = chb`; the refund is one lamport above the price |
| Scenarios.BuyBeyondReserveScenario | trender-contract/tests/trender.ts:538-606 | buying `reserved_hype + 1` fails InsufficientHypeReserve |
| Scenarios.ReleaseScenario | trender-contract/tests/trender.ts:608-687 | releasing half the bonus succeeds; bonus and circulation drop and reserve rises by that; the creator gains and the vault loses 26_315_789 lamports |
| Scenarios.TreasuryAccumulationScenario | trender-contract/tests/trender.ts:689-785 | the treasury gains 20_000_000 on opening a 1 SOL pool and 500 on the minimum buy; the total change is their sum |
| Scenarios.ReleaseDrainsReserve | trender-contract/programs/trender/src/lib.rs:218-225 | after a buyer pays 9_000_000 into a 1_000_000 pool, releasing 500_000 of the bonus pays out the whole reserve, leaving that buyer a zero refund, and releasing 600_000 fails InsufficientSolReserve |

## Left out

- Cross-program invocations, PDA seed and bump derivation, and account-owner constraints are abstracted. Transfers are plain balance updates, and accounts are addressed by their seeds' values (`PoolKey`, `RecordKey`).
- The unconstrained `post_vault` of `creator_release_hype` (lib.rs:391-392) is taken to be the pool's own vault. Passing another program-owned account is not modelled.
- `emit!` events and `Clock::get()` are left out, along with the `post_id` argument of hype, unhype and release, which only feeds the events. The u64 conversions of the event fields are modelled because they can abort.
- The lamports of the `Config`, `PostPool` and `HypeRecord` accounts are not tracked. These are the rent their payers deposit. Only the treasury's and the vaults' rent floors are modelled.
- Transaction fees, compute limits and the wallets' own rent are left out. Wallet balances are unbounded naturals, and a wallet credited from zero to less than its rent minimum is not refused.
- The ledger is a closed world. The wallets, the vaults and the treasury are separate maps, so the model cannot express a vault or the treasury as `withdraw_treasury`'s unchecked recipient (lib.rs:406-408). Nor can it express a direct transfer from a wallet into a vault or the treasury. On chain those can only add lamports, so only `vault >= rentFloor + reserved_sol` survives them. `Inv` states the equality, which holds in this closed world. The per-instruction facts of the `Conserves` lemmas, that `vault - reserved_sol` is unchanged, hold either way.
- Concurrency between transactions is the runtime's concern. Transactions run one after another.
- The record-accumulation test (trender.ts:263-398) asserts behaviour the code does not have, and is not modelled. `Trace.HypeAtMostOnce` shows its second buy is refused.
- The withdrawal test's check that the recipient balance rises exactly (trender.ts:836-846) is covered by `Properties.WithdrawTreasuryMovesOnlyAmount` and `Properties.WithdrawDownToRentFloor`. Its account set-up is not modelled.
- The front-end price mirrors (floating point, display only), the React pages, the RPC wrappers, the API routes and the link detector are not part of this model.
- The product of the reserves is proved not to rise across hype and unhype only. A release's payout is rounded down, so a tiny release can raise the product.
