# The FalariChain token ledger in Dafny

A model of the state machines that move tokens and place data in FalariChain, with proofs about
all of their runs. Operations that update state in place are classes and methods with loops over
maps in arbitrary order, with the clamps, saturating additions and 64-bit wrap-around of the code.
Each is proved to compute a closed-form step; the whole-run theorems are about those steps, and
for every formula inside a step a lemma states in record fields, units, days and votes what the
step does with it (`EligibleEarns`, `ClaimPaysByDay`, `FiniteSpendIs`, `PickIsAhead`, and so on).

| module | models |
|---|---|
| `RewardIndex` | the storage reward-per-weight index with carried remainder, settled lazily |
| `Vesting` | day buckets, linear vesting, claims, oldest-first slashing |
| `Escrow`, `StorageLedger`, `StorageTotals`, `StorageExact`, `StorageStore`, `StoragePayments`, `StorageTerms`, `StorageTokens` | finite deals, permanent funds, renewals, termination, settlement, pool totals, reward quotes and payments, conservation |
| `Emission` | per-block validator release and the producer / staking / commission / delegator split |
| `Staking` | delegation, unbonding, double-vote slashing |
| `Finality` | vote certificates, accountable safety, double-vote evidence |
| `Proposer` | the availability window and the weighted proposer choice |
| `Mempool`, `Selection` | admission with fee replacement; choosing a block's transactions |
| `Allocator` | shard placement, reservation, release |
| `Bridge` | locks, claims and the shared daily limit |
| `Governance` | votes, thresholds, execution, rejection, expiry |
| `Numbers`, `Sums` | 64-bit arithmetic and sums over maps |

`uint64` values are naturals; every wrap, saturation and truncation that the code performs is
written out. Where a theorem needs amounts to fit in 64 bits it says so; the total supply of 10^10
tokens at 10^8 units does.

## What does not hold, and exactly when

Several promises fail on some inputs. The model follows the code; each has a counterexample or an
exact condition.

- `LockedStorage` is not the sum of remaining escrow: finalizing a deal subtracts the burned part
  both from the locked fee and again as a burn, so that amount stays locked for good
  (`RunKeepsExactly`, `LockedIsRemainingExactly`, `FinalizeStrands`).
- Finalizing refuses only a finalized deal. One that was settled (an upload past its deadline) or
  terminated before ends insolvent or uncovered (`FinalizeKeepsInvExactly`, `RunKeepsInvExactly`,
  `SettledUploadIsUnsafe`, `SettledThenFinalized`).
- Settling, terminating, closing or topping up a deal that was never finalized skews the pool totals:
  it creates a record that was never charged or moves a fund total that never included it
  (`RunKeepsTotals`, `EarlySettleSkewsTotals`, `EarlyTerminateSkewsTotals`, `EarlyCloseSkewsTotals`,
  `ToppedUpBooks`). So does closing a fund whose owner has too little locked, which an unsafe
  finalization of another deal can cause (`OverdrawnCloseSkewsTotals`, `StarvedFundRun`).
- A finalized deal whose owner is the retrieval or foundation address loses that share, because the
  owner's record is written back last; and when the clamp binds, shares are minted
  (`DistributionConservesExactly`, `RunConservesExactly`, `OwnShareIsLost`).
- A top-up replayed from a block is accepted before finalization, unlike the local one. It breaks
  nothing itself, but a later distribution of a fee that splits, or a later refund, leaves the fund
  above its deal (`EarlyTopUpOverstatesFund`, `EarlyTopUpSurvivesSettlement`, `RunKeepsInvExactly`).
- The escrow record counts the last permanent payment twice (`RecordOverstatesLastPayment`).
- A block whose index increment rounds to zero feeds its miner share to the remainder without
  charging the pool (`ReleaseChargesPool`, `StalledBlockIsNotCharged`).
- Claim schedules pay differently once Total x 89 reaches 2^64 (`SchedulesAgreeExactly`).
- A quote differs from its payment when the fund has no recorded age and the subsidy applies
  (`QuoteIsPaid`).
- A delegated stake below its delegations overpays (`SplitIsExactWhen`, `UnderstatedStakeOverpays`).
- Unbonding ids, documented as free of collisions, are reused when a maturity is processed after an
  unbonding at the same time, and the overwritten entry's tokens vanish (`UndelegateConservesExactly`,
  `LateMaturityReusesId`).
- A bridge transfer between the pool and itself mints (`ClaimMovesPool`, `RunKeepsSupplyExactly`).
- A stake power whose product with the score passes 2^64 wraps, down to zero
  (`EffectivePowerScales`, `LargeStakeWraps`).
- Repair pool ids are not validated: equal ids, or negative ones that map onto a segment number,
  place a key twice (`PlacedOnce`).

## Model

| member | source | states |
|---|---|---|
| `RewardIndex.VisitKeepsBalance` | internal/chain/storage_reward_index.go:67-107 | accruing or settling a miner moves its scaled pending reward into `accrued`/`settled` and loses only the remainder below one base unit; neither the cap nor saturation binds while what was fed fits a uint64 |
| `RewardIndex.ReleaseKeepsInv` | internal/chain/token_release.go:192-233 | a block release keeps every lazy account equal to its eager one and total eager pay + unclaimed + remainder equal to 10^18 × fed |
| `RewardIndex.StepKeepsInv` | internal/chain/miner_weight.go:175-208 | every step, including accrue-before-reweigh, penalties and registration, keeps the ledger invariant |
| `RewardIndex.RunKeepsInv` | internal/chain/storage_reward_index.go:42-131 | the invariant holds after every run |
| `RewardIndex.NeverOverpays` | internal/chain/token_release.go:192-233 | over every run 10^18 × (accrued + settled) + pending + remainder plus the exact losses equals 10^18 × fed, so it never exceeds it; rounding is below one base unit per visit |
| `RewardIndex.LazyAgreesWithEager` | internal/chain/storage_reward_index.go:86-131 | per miner, lazy settlement is never ahead of eager block-by-block payment and behind by less than one base unit per visit plus forfeits |
| `RewardIndex.EagerIsProRata` | internal/chain/token_release.go:192-233 | while the total weight and the miner's weight stay the same, eager pay × total weight equals weight × (10^18 × fed − carried remainder) |
| `RewardIndex.MinersGetTheirShare` | internal/chain/storage_reward_index.go:42-131 | so each miner has its true share of what was fed: never more, less only by visit rounding, penalties and its part of the remainder |
| `RewardIndex.IndexedRunsLoseNothing` | internal/chain/storage_reward_index.go:86-107 | once every miner carries an index nobody loses it and no reward goes unclaimed |
| `RewardIndex.ReleaseChargesPool` | internal/chain/token_release.go:207-232 | the pool is charged what fund and index receive if and only if share × 10^18 + remainder reaches the total weight (or nothing is released) |
| `RewardIndex.StalledBlockIsNotCharged` | internal/chain/token_release.go:213-220 | concrete run in which a block whose increment rounds to zero feeds the index without charging the pool |
| `RewardIndex.PoolChargedForFed` | internal/chain/token_release.go:192-233 | over every run the pool pays for the fund share and all that was fed except the stalled shares |
| `RewardIndex.RecomputeOrderIrrelevant` | internal/chain/miner_weight.go:175-183 | recomputing all weights is a run of reweighings whose outcome does not depend on map order |
| `RewardIndex.RewardLedger.EligibleWeight` | internal/chain/storage_reward_index.go:53-65 | the loop over the miner map computes the sum of reward weights in any order; `EarnsOneWeight` says what each weight is |
| `RewardIndex.RewardLedger.ReleasePerBlock` | internal/chain/token_release.go:192-233 | the in-place release computes the specified step |
| `RewardIndex.RewardLedger.Accrue` | internal/chain/storage_reward_index.go:86-107 | in-place accrual computes the specified step and returns the amount added; `IneligibleEarnsNothing` and `EligibleEarns` give that amount in record fields |
| `RewardIndex.RewardLedger.Settle` | internal/chain/storage_reward_index.go:109-131 | in-place settlement computes the specified step and returns what is vested |
| `RewardIndex.RewardLedger.RecomputeAll` | internal/chain/miner_weight.go:175-183 | the loop accrues each miner before storing its new weight, whatever the map order |
| `RewardIndex.Injection` | internal/chain/token_release.go:24-45 | the fund injection never exceeds the gross release nor the lifetime cap |
| `RewardIndex.EarnsOneWeight` | internal/chain/storage_reward_index.go:42-51 | the weight of a miner, status by status: 0 when jailed, exiting or exited; used bytes when active with effective weight 0; effective weight otherwise |
| `RewardIndex.IneligibleEarnsNothing` | internal/chain/storage_reward_index.go:42-131 | a jailed, exiting or exited miner gains nothing from a block, accrued or settled, and without it every other miner gains the same |
| `RewardIndex.EligibleEarns` | internal/chain/storage_reward_index.go:67-131 | any other miner gains floor((global − own index) × its weight / 10^18), accrued or settled |
| `RewardIndex.ReleaseIsExact` | internal/chain/token_release.go:192-233 | a block release in values: gross, fund part in whole basis points under the lifetime cap, and index increment × Σ earning weights + new remainder = miner share × 10^18 + old remainder |
| `RewardIndex.InjectionIs` | internal/chain/token_release.go:24-45 | the fund's part is the wrapped product in basis points, at most what the cap leaves |
| `RewardIndex.WeightChangesAre` | internal/chain/miner_weight.go:175-208 | new weight inputs are stored after accruing at the old ones; penalties do not accrue; a new miner starts at the global index with nothing |
| `Vesting.ReleaseOneExtends` | internal/chain/mining_vesting.go:61-95 | one turn of the release loop extends the closed form by one bucket, and its clamp on pending never binds |
| `Vesting.ReleasableIsPending` | internal/chain/mining_vesting.go:61-135 | for any set of buckets what is releasable never exceeds the account's pending counter |
| `Vesting.SlashIsOldestFirst` | internal/chain/mining_vesting.go:228-267 | a bucket is cut only once every older bucket of the account is gone |
| `Vesting.CutsAddUp` | internal/chain/mining_vesting.go:213-269 | the cuts of one slash add up to the slash and other accounts keep everything |
| `Vesting.VestKeepsInv` | internal/chain/mining_vesting.go:19-59 | vesting keeps pending equal to the unreleased total |
| `Vesting.ReleaseKeepsInv` | internal/chain/mining_vesting.go:61-135 | releasing only moves tokens from pending to balance inside each account |
| `Vesting.SlashKeepsInv` | internal/chain/mining_vesting.go:213-269 | a slash removes exactly the returned amount from the buckets |
| `Vesting.RunKeepsInv` | internal/chain/mining_vesting.go:19-269 | after every run of vests, releases, claims and slashes PendingMiningRewards equals Σ(Total − Released) and every stored bucket has Released < Total |
| `Vesting.FullyVestedIsRemoved` | internal/chain/mining_vesting.go:177-196 | after the vesting period a release pays all that is left, slashed or not, and removes the bucket |
| `Vesting.SmallTotalsClaimAlike` | internal/chain/mining_vesting.go:97-135 | with Total × 89 below 2^64 any nondecreasing claim schedule releases what one claim at its end would |
| `Vesting.LargeTotalsDrop` | internal/chain/mining_vesting.go:177-196 | past that bound the wrapped product drops on some day |
| `Vesting.SchedulesAgreeExactly` | internal/chain/mining_vesting.go:177-196 | claim schedules do not matter if and only if Total × 89 < 2^64 |
| `Vesting.ClaimReleases` | internal/chain/mining_vesting.go:177-196 | with d whole days passed, below 90, a claim brings Released to the larger of itself and floor((Total × d modulo 2^64) / 90) |
| `Vesting.ClaimPaysByDay` | internal/chain/mining_vesting.go:61-135 | in the ledger, a claim or a release pass does that to every bucket concerned and keeps it |
| `Vesting.VestingEnds` | internal/chain/mining_vesting.go:177-196 | 90 × 86400 seconds on the bucket is paid out and gone; before the first full day, or dated zero, it keeps everything |
| `Vesting.ClaimPaysOwner` | internal/chain/mining_vesting.go:97-135 | a claim moves tokens from pending to balance in its own account only |
| `Vesting.RewardIsDated` | internal/chain/mining_vesting.go:19-59 | a reward is added to the bucket of its whole 86400-second day and to the pending counter |
| `Vesting.DeductWalkSlashes` | internal/chain/mining_vesting.go:246-267 | deducting bucket after bucket along the sorted walk is the closed form of the slash |
| `Vesting.SortByDay` | internal/chain/mining_vesting.go:239-244 | the in-place insertion sort orders the entries by day and keeps them |
| `Vesting.VestingLedger.VestReward` | internal/chain/mining_vesting.go:19-59 | in-place vest computes the specified step and keeps the invariant |
| `Vesting.VestingLedger.ReleaseBucket` | internal/chain/mining_vesting.go:61-95 | one loop body, clamps included |
| `Vesting.VestingLedger.ReleaseVested` | internal/chain/mining_vesting.go:61-95 | the global release loop, in any map order, computes the closed form, whose rate `ClaimPaysByDay` states in days and units |
| `Vesting.VestingLedger.Claim` | internal/chain/mining_vesting.go:97-140 | the per-address loop computes the closed form on that address's buckets only; `ClaimPaysByDay` states what it pays |
| `Vesting.VestingLedger.Collect` | internal/chain/mining_vesting.go:228-238 | collects exactly the buckets of one address |
| `Vesting.VestingLedger.SlashVesting` | internal/chain/mining_vesting.go:213-269 | the whole slash: returns min(amount, pending) and computes the oldest-first closed form |
| `Vesting.VestingLedger.DeductBucket` | internal/chain/mining_vesting.go:246-267 | one deduction and removal of an emptied bucket |
| `Vesting.VestingLedger.DeductInOrder` | internal/chain/mining_vesting.go:246-267 | the deduction loop along the sorted walk |
| `Escrow.SolventRemaining` | internal/chain/storage_payments.go:194-200 | a solvent deal's remaining escrow is locked − paid − refunded − burned, without wrap |
| `Escrow.AccrualIsProportional` | internal/chain/storage_fee_pool.go:190-218 | accrual is floor(LockedFee × elapsed / duration) while elapsed is below the duration and all of it from then on; `AccruesOverTerm` gives start and end of the term |
| `Escrow.AccruesOverTerm` | internal/chain/storage_fee_pool.go:198-218 | in record fields, defaults for missing dates included: nothing at the start of the term, floor(LockedFee × (now − start) / (end − start)) during it, LockedFee from its end on |
| `Escrow.RecordedTermAccrues` | internal/chain/storage_fee_pool.go:198-218 | the same for a record that carries start and expiry |
| `Escrow.AccruedMonotone` | internal/chain/storage_fee_pool.go:190-218 | accrual never falls with time and never exceeds the locked fee |
| `Escrow.PayoutIsTimeProportional` | internal/chain/storage_fee_pool.go:122-154 | no sequence of spends made by time t takes PaidFee above what has accrued at t |
| `Escrow.ExpiredDealPaysTheRest` | internal/chain/storage_fee_pool.go:122-154 | from the end of the deal's term on, dates as recorded, a sufficient request draws exactly what is left of the locked fee |
| `StorageLedger.AccountCoversIntent` | internal/chain/storage_payments.go:194-200 | under the invariant each owner's LockedStorage covers every deal |
| `StorageLedger.InvBacks` | internal/chain/storage_fee_pool.go:122-154 | under the invariant every deal is solvent and backed by its owner's account and its fund |
| `StorageLedger.ClampsNeverBind` | internal/chain/storage_fee_pool.go:122-154 | under the invariant no clamp binds: finite and permanent spends, closures, burns and refunds all take their full amount |
| `StorageLedger.OpenKeepsInv` | internal/chain/state.go:1008-1045 | opening a deal moves the fee from balance to LockedStorage and keeps solvency |
| `StorageLedger.SpendFiniteKeepsInv` | internal/chain/storage_fee_pool.go:122-154 | a finite spend keeps solvency |
| `StorageLedger.SpendPermanentKeepsInv` | internal/chain/permanent_fund.go:194-236 | a permanent spend keeps solvency and the fund equal to remaining escrow, before or after finalization |
| `StorageLedger.TopUpKeepsInv` | internal/chain/permanent_fund.go:16-87 | a top-up keeps solvency and reopens the fund at the right balance |
| `StorageLedger.ReplayedTopUpKeepsInv` | internal/chain/permanent_fund.go:89-148 | the form a block applies, which accepts a deal that is not finalized, keeps coverage, solvency and the fund |
| `StorageLedger.EarlyTopUpOverstatesFund` | internal/chain/state.go:1184-1240 | distributing the fee of a deal whose fund is stored already leaves the fund above the deal by the shares that left and the burn; the two agree if and only if the fee does not split |
| `StorageLedger.EarlyTopUpSurvivesSettlement` | internal/chain/state.go:1350-1415 | settling such a deal leaves fund and deal equal if and only if it is not due or nothing remains of it |
| `StorageLedger.RenewKeepsInv` | internal/chain/renewal.go:161-269 | a renewal keeps solvency |
| `StorageLedger.AutoRenewKeepsInv` | internal/chain/renewal.go:271-307 | an automatic renewal keeps solvency |
| `StorageLedger.CloseFundKeepsInv` | internal/chain/permanent_fund.go:238-280 | closing a fund burns exactly its balance and keeps solvency |
| `StorageLedger.TerminateKeepsInv` | internal/chain/lifecycle.go:153-206 | early termination keeps solvency |
| `StorageLedger.SettleKeepsInv` | internal/chain/state.go:1350-1415 | settlement refunds exactly what remains and keeps solvency, unless it refunds a deal whose fund is stored already |
| `StorageLedger.SettleKeepsInvExactly` | internal/chain/state.go:1350-1415 | settling keeps every promise if and only if it is not such a refund |
| `StorageLedger.FinalizeKeepsInv` | internal/chain/state.go:1242-1309 | finalizing a safe deal, or one whose fee was distributed before, keeps the invariant |
| `StorageLedger.FinalizeKeepsInvExactly` | internal/chain/state.go:1184-1309 | finalizing keeps coverage, solvency and the fund if and only if nothing was burned before, paid + refunded + the new burn fit in the miner part, and a fund stored before has a fee that does not split; finite or permanent, whether or not the clamp binds |
| `StorageLedger.SettledUploadIsUnsafe` | internal/chain/state.go:1242-1415 | an upload that missed its deadline and was refunded can be finalized safely only if its fee is too small to split |
| `StorageLedger.SettledThenFinalized` | internal/chain/state.go:1242-1415 | the run open, settle, finalize ends with 910 locked, 1000 refunded and 90 burned |
| `StorageLedger.RunKeepsInv` | internal/chain/permanent_fund.go:194-280 | after every run LockedStorage equals Σ(remaining + stranded) per owner, Paid + Refunded + Burned ≤ LockedFee, and every fund balance equals its deal's remaining escrow |
| `StorageLedger.RunKeepsInvExactly` | internal/chain/state.go:1184-1415 | over runs of all steps, replayed top-ups included: every promise (coverage, solvency, funds) holds at every point if and only if every finalization and settlement was safe |
| `StorageLedger.LockedExceedsRemainingByStranded` | internal/chain/state.go:1184-1240 | LockedStorage is Σ remaining escrow plus exactly the burns recorded at finalization |
| `StorageLedger.FinalizeStrands` | internal/chain/state.go:1184-1240 | finalizing strands nothing if and only if fee × 300 (modulo 2^64) is below 10000 |
| `StorageLedger.LockedIsRemainingExactly` | internal/chain/state.go:1184-1240 | over every run from an empty ledger whose finalizations and settlements are safe, LockedStorage equals Σ remaining escrow if and only if no deal of the owner was finalized with a fee that splits |
| `StorageExact.StepKeepsExactly` | internal/chain/state.go:1184-1240 | a step keeps LockedStorage = Σ remaining escrow, solvency and matching funds, with no allowance for stranded amounts, if and only if a distribution finds an earlier burn of exactly its own burn and what the clamp withholds (and, with a fund stored before, changes nothing that remains), and a settlement refunds no deal with a stored fund |
| `StorageExact.RunKeepsExactly` | internal/chain/permanent_fund.go:16-280 | LockedStorage equals Σ remaining escrow, Paid + Refunded + Burned ≤ LockedFee and every fund balance equals its deal's remaining escrow, at every point of a run, if and only if every step meets that condition; safe and unsafe runs alike |
| `StorageExact.UnburnedKeeps` | internal/chain/state.go:1184-1240 | finalizing a deal of which nothing was burned keeps it if and only if the fee does not split |
| `StorageLedger.FinalizeCoversExactly` | internal/chain/state.go:1184-1240 | the distribution keeps LockedStorage covered if and only if what was burned before equals what the clamp lets slip (nothing when the account has enough locked) |
| `StorageLedger.DistributionCovers` | internal/chain/state.go:1184-1240 | with z counted as stranded, a distribution keeps LockedStorage covered if and only if z and the earlier burn make up the new burn and what the clamp withholds |
| `StorageTotals.StepKeepsTotals` | internal/chain/storage_fee_pool.go:67-112 | in every state of the ledger, solvent or not, a step keeps TotalLocked and PermanentFundBalance equal to a rebuild if and only if it is clean: it creates no record for a fee never charged, moves the fund total by exactly what the stored fund moves (clamps included), and charges nothing twice |
| `StorageTotals.RunKeepsTotals` | internal/chain/storage_fee_pool.go:45-112 | the running totals equal a rebuild from scratch at every point of a run if and only if every step is clean |
| `StorageTotals.DistributedIsClean` | internal/chain/storage_fee_pool.go:67-112 | every step on a distributed deal is clean as long as its owner's account backs it |
| `StorageTotals.OverdrawnCloseSkewsTotals` | internal/chain/permanent_fund.go:247-268 | closing a stored fund whose owner has less locked leaves the fund total too high by exactly the difference |
| `StorageTotals.StarvedFundRun` | internal/chain/permanent_fund.go:238-280 | the run open, terminate, open, finalize, finalize, close ends with a fund total of 870 and no open fund |
| `StorageTotals.DistributeBooks` | internal/chain/state.go:1184-1240 | a distribution keeps the totals right if and only if the fee was not charged and the fund not counted before |
| `StorageTotals.ToppedUpBooks` | internal/chain/permanent_fund.go:89-148 | a top-up keeps them right if and only if the deal has its escrow record and its fund, or nothing to record |
| `StorageTotals.SpendPermanentBooks` | internal/chain/permanent_fund.go:194-236 | the exact condition for a payment, the minimum of request, fund and locked storage, out of a permanent fund |
| `StorageTotals.PoolCoversFund` | internal/chain/permanent_fund.go:229-271 | the pool's fund balance covers every open fund, so its clamp never binds |
| `StorageTotals.EarlyBurnSkewsTotals` | internal/chain/lifecycle.go:153-206 | a burn, clamped to the owner's LockedStorage, keeps the totals right if and only if there is an escrow record or it takes nothing |
| `StorageTotals.EarlyCloseSkewsTotals` | internal/chain/permanent_fund.go:238-280 | closing a fund keeps them right if and only if it is stored and closed or fully covered by LockedStorage, or is not stored and takes nothing or the fund total is zero |
| `StorageTotals.EarlyRefundSkewsTotals` | internal/chain/storage_fee_pool.go:156-165 | a refund, clamped likewise, creates a missing escrow record uncharged: right if and only if there is a record or it takes nothing |
| `StorageTotals.EarlySettleSkewsTotals` | internal/chain/state.go:1350-1415 | settling a deal, as happens to every upload that misses its deadline, keeps them right if and only if it is not due or its refund does |
| `StorageTotals.EarlyTerminateSkewsTotals` | internal/chain/lifecycle.go:153-206 | terminating keeps them right if and only if its closure or burn does |
| `StorageLedger.RecordOverstatesLastPayment` | internal/chain/permanent_fund.go:223-228 | after a permanent spend the escrow record counts the payment twice |
| `StoragePayments.SpendTakesFee` | internal/chain/storage_payments.go:57-92 | the spend takes exactly the minimum of the reward and what the quote calls available |
| `StoragePayments.QuoteIsPaid` | internal/chain/storage_payments.go:14-92 | paying the quoted amount vests exactly the quoted amount, for finite and permanent deals, with or without the subsidy, if and only if the fund's age is known or makes no difference |
| `StoragePayments.PermanentQuote` | internal/chain/storage_payments.go:133-192 | the quote of a permanent deal is escrow plus subsidy, and quote and payment subsidy agree under exactly that condition |
| `StoragePayments.PaymentConserves` | internal/chain/storage_payments.go:57-92 | what is vested left the owner's LockedStorage or the reserve, and never exceeds the reward |
| `StorageTerms.FinalizeSetsTerm` | internal/chain/state.go:1242-1309 | finalizing at t0 with duration d leaves the deal finalized and active and its record with start t0 (unless it had one) and expiry t0 + d |
| `StorageTerms.FinalizeSplitsFee` | internal/chain/state.go:1184-1240 | three shares of floor(3% of the fee), the product wrapped: retrieval and foundation credited, the rest of the three burned, the miner part locked |
| `StorageTerms.FiniteSpendIs` | internal/chain/storage_fee_pool.go:122-154 | a finite spend takes min(request, accrued − paid, fee − paid − refunded − burned, locked storage), with accrual in dates |
| `StorageTerms.FinalizedDealPaysByTime` | internal/chain/storage_fee_pool.go:81-218 | finalize at t0, ask for everything at now: paid is the elapsed fraction of the miner part, or the part less the recorded burn if that is smaller |
| `StorageTerms.PermanentRewardIs` | internal/chain/storage_payments.go:57-192 | a permanent reward takes min(reward, fund, locked storage), then the reserve only for an open fund that has reached the takeover age |
| `StorageTerms.TopUpIs` | internal/chain/permanent_fund.go:16-87 | a top-up is accepted if and only if its conditions on the fields hold; what it moves |
| `StorageTerms.RenewIs` | internal/chain/renewal.go:161-269 | a renewal is accepted if and only if the deal is renewable, its user's, unexpired or within seven days, no longer than before and affordable; deal and record then expire one duration from now |
| `StorageTerms.AutoRenewIs` | internal/chain/renewal.go:271-307 | the same for the automatic renewal: only in the seven days after expiry, thirty days for a deal without a duration |
| `StorageTerms.SettleIs` | internal/chain/state.go:1350-1415 | settlement refunds what is left if and only if the upload is past its deadline, the unretained finite deal seven days past its expiry, or the deal expired |
| `StorageTerms.TerminateBurns` | internal/chain/lifecycle.go:153-206 | early termination burns min(what is left, locked storage); the owner's balance gains nothing |
| `StorageTerms.TerminateClosesFund` | internal/chain/permanent_fund.go:238-280 | terminating a permanent deal burns min(fund, locked storage) of an open fund and closes it |
| `StorageStore.Store.Unlock` | internal/chain/storage_fee_pool.go:135-145 | the clamped withdrawal from LockedStorage |
| `StorageStore.Store.SpendFiniteFee` | internal/chain/storage_fee_pool.go:122-154 | the in-place spend computes the specified step, clamps included, in every state; `StorageTerms.FiniteSpendIs` gives its amount in record fields |
| `StorageStore.Store.SpendPermanentFund` | internal/chain/permanent_fund.go:194-236 | same, for permanent funds |
| `StorageStore.Store.TopUpFund` | internal/chain/permanent_fund.go:16-87 | top-up as a node accepts it from its user, with the exact acceptance condition |
| `StorageStore.Store.ReplayTopUp` | internal/chain/permanent_fund.go:89-148 | the same transaction arriving in a block, with its own acceptance condition |
| `StorageStore.Store.Prolong` | internal/chain/renewal.go:253-263 | the money part both renewals share |
| `StorageStore.Store.RenewDeal` | internal/chain/renewal.go:161-269 | renewal with its exact acceptance condition |
| `StorageStore.Store.AutoRenewDeal` | internal/chain/renewal.go:271-307 | one automatic renewal |
| `StorageStore.Store.AutoRenewAll` | internal/chain/renewal.go:271-307 | the pass over all deals, in any map order, is a run of single renewals and keeps the invariant |
| `StorageStore.Store.ClosePermanentFund` | internal/chain/permanent_fund.go:238-280 | the in-place closure computes the specified step, clamp included, in every state |
| `StorageStore.Store.BurnRemaining` | internal/chain/lifecycle.go:168-192 | burns what remains, up to what the owner has locked |
| `StorageStore.Store.TerminateDeal` | internal/chain/lifecycle.go:153-206 | early termination of finite and permanent deals |
| `StorageStore.Store.RefundRemaining` | internal/chain/state.go:1396-1407 | refunds what remains, up to what the owner has locked |
| `StorageStore.Store.SettleIntent` | internal/chain/state.go:1350-1415 | settlement with its status conditions |
| `StorageStore.Store.MarkSettling` | internal/chain/state.go:1350-1395 | the status and time checks, including the suspended (retained) and refused cases, and what they write |
| `StorageStore.Store.FinalizeDeal` | internal/chain/state.go:1242-1309 | finalizing a deal in any state but finalized: distribution, or reactivation of one distributed before |
| `StorageStore.Store.ExecuteDeferredBurn` | internal/chain/state.go:1184-1240 | the deferred distribution, for every deal and account, clamp included |
| `StorageStore.Store.DistributeShares` | internal/chain/state.go:1184-1240 | credits shares that have a recipient and burns the others |
| `StorageStore.Store.CreateRecords` | internal/chain/storage_fee_pool.go:67-94 | creates fund and escrow record and charges the totals |
| `StorageStore.Store.Rebuild` | internal/chain/storage_fee_pool.go:45-65 | recomputing the totals from scratch gives the running ones |
| `StorageStore.Store.PayStorageReward` | internal/chain/storage_payments.go:57-92 | pays from the deal, then from the reserve, as specified |
| `StorageTokens.DistributionConservesExactly` | internal/chain/state.go:1184-1240 | a distribution changes the supply by what the clamp mints less what is credited to the owner's own record and overwritten; it conserves tokens if and only if the two are equal |
| `StorageTokens.RunConservesExactly` | internal/chain/state.go:1184-1240 | over every run, safe or not, the supply changes by exactly what clamped distributions mint less the shares credited to owners; conserved if and only if the two are equal |
| `StorageTokens.SafeRunsMintNothing` | internal/chain/state.go:1184-1240 | runs whose finalizations and settlements are safe mint nothing |
| `StorageTokens.StepConserves` | internal/chain/permanent_fund.go:16-280 | each step changes balances + locked + paid + burned only by what a clamped distribution mints and what is credited to the owner's own record; in every state |
| `StorageTokens.OwnShareIsLost` | internal/chain/state.go:1203-1222 | a 1000-unit deal whose owner is the retrieval address loses 30 units |
| `Finality.BlockFinality` | internal/chain/block.go:766-814 | the vote loop counts each accepted voter's power once and finalizes exactly at the threshold |
| `Finality.TotalVotingPower` | internal/chain/block.go:884-893 | the loop computes the sum of member powers |
| `Finality.Overlap` | internal/chain/block.go:923-936 | powers of two signer sets add up to at most the total plus what they share |
| `Finality.ConflictIsEvidence` | internal/chain/validator_evidence.go:121-257 | any two accepted votes of one validator for different blocks at one height pass every evidence check |
| `Finality.AccountableSafety` | internal/chain/block.go:766-936 | two final conflicting blocks imply more than a third of total power signed both, and each such validator is caught by a vote pair from the certificates |
| `Finality.EvidenceIdSymmetric` | internal/chain/validator_evidence.go:275-279 | the evidence id does not depend on the order of the two votes |
| `Finality.PowerIs` | internal/chain/block.go:911-921 | voting power is own plus delegated stake, at least one |
| `Finality.ThresholdIs` | internal/chain/block.go:923-936 | k meets the threshold if and only if 3k > 2 × total |
| `Finality.FinalMeansTwoThirds` | internal/chain/block.go:766-936 | a final block has verified votes for it by active consensus members, under their registered keys and powers, holding more than two thirds of the total |
| `Finality.BuiltIsValid` | internal/chain/validator_evidence.go:121-257 | whatever evidence is built for two votes passes validation |
| `Finality.EvidenceMeansTwoVotes` | internal/chain/validator_evidence.go:121-289 | valid evidence holds two verified votes of an active validator for different blocks at one height, and half its locked stake as slash |
| `Finality.HonestIsNeverConvicted` | internal/chain/validator_evidence.go:121-182 | no evidence is valid against a validator whose key signs at most one block a height |
| `Emission.SharesTotal` | internal/chain/token_release.go:318-343 | delegator shares add up to the floors, with a shortfall going to the last |
| `Emission.FloorsFit` | internal/chain/token_release.go:318-343 | proportional floors never exceed the pot while delegations fit the delegated stake |
| `Emission.SplitIsExactWhen` | internal/chain/token_release.go:293-344 | a reward is split exactly if and only if the floors before the last delegator leave something |
| `Emission.RewardIsSplitExactly` | internal/chain/token_release.go:293-344 | with DelegatedStake covering the delegations every reward is split exactly, in every order |
| `Emission.UnderstatedStakeOverpays` | internal/chain/token_release.go:293-344 | concrete validator whose understated DelegatedStake makes the split pay out more than the reward |
| `Emission.RewardsFit` | internal/chain/token_release.go:258-291 | rewards never exceed the amount even with amount × power taken modulo 2^64 |
| `Emission.RoundingIsSmall` | internal/chain/token_release.go:258-291 | without wrap, rounding loses less than one unit per validator |
| `Emission.SplitIsConserved` | internal/chain/token_release.go:293-344 | vesting a split vests exactly the reward |
| `Emission.PlanBlock` | internal/chain/token_release.go:133-186 | fund share + producer credit + staking equal the release, which fits the pool |
| `Emission.PlanIs` | internal/chain/token_release.go:133-175 | the plan in units: configured amount or 22 tokens up to the pool, fund part, producer part (30% unless configured, wrapped product), the rest for staking |
| `Emission.OwnPartIs` | internal/chain/token_release.go:293-317 | a validator keeps floor(commission) + floor(own-stake share), capped at the reward |
| `Emission.StakelessKeepsAll` | internal/chain/token_release.go:293-306 | without stake it keeps everything |
| `Emission.DelegatorShareIs` | internal/chain/token_release.go:318-343 | each delegator but the last gets floor(pot × delegation / delegated); the last what the others left, or its floor |
| `Emission.RewardIsByPower` | internal/chain/token_release.go:258-291 | a validator's reward is floor(amount × power / total) |
| `Emission.EmissionLedger.PayDelegators` | internal/chain/token_release.go:318-343 | the delegator loop vests the specified shares |
| `Emission.EmissionLedger.DistributeReward` | internal/chain/token_release.go:293-344 | one validator's reward ends up vested entirely |
| `Emission.EmissionLedger.DistributePool` | internal/chain/token_release.go:258-291 | distributes by power and carries rounding back to the pool |
| `Emission.EmissionLedger.SumPowers` | internal/chain/token_release.go:49-55 | the loop computes the total power |
| `Emission.EmissionLedger.ReleasePerBlock` | internal/chain/token_release.go:133-186 | what leaves the pool equals fund share + producer credit + vested rewards, and the token total is constant |
| `Emission.EmissionLedger.TakeRelease` | internal/chain/token_release.go:133-175 | the part before the distribution, as planned |
| `Staking.DelegateKeepsInv` | internal/chain/validator_delegation.go:45-84 | delegating keeps DelegatedStake = Σ delegations and the token total |
| `Staking.UndelegateKeepsInv` | internal/chain/validator_delegation.go:126-174 | undelegating keeps DelegatedStake = Σ delegations |
| `Staking.UndelegateConservesExactly` | internal/chain/validator_delegation.go:152-174 | undelegating conserves tokens if and only if its unbonding id is new |
| `Staking.MatureKeepsInv` | internal/chain/validator_delegation.go:369-385 | a maturity conserves tokens |
| `Staking.DelegateIs` | internal/chain/validator_delegation.go:45-84 | a delegation is accepted if and only if named, of at least 1000 tokens, to an active validator and affordable; what it moves |
| `Staking.UnbondingTakesAWeek` | internal/chain/validator_delegation.go:126-174 | an unbonding entry pays nothing for 604800 seconds and exactly its amount from then on |
| `Staking.SlashTakesHalf` | internal/chain/validator_evidence.go:44-119 | evidence counts once and takes half the locked stake, rounded down (all of one unit) |
| `Staking.SlashCutsDelegation` | internal/chain/validator_evidence.go:72-101 | every delegation to the validator loses floor(amount × slash / stake) and goes when that is all; others keep theirs |
| `Staking.SlashDocksUnbonding` | internal/chain/validator_evidence.go:72-101 | the cut also comes off the delegator's unbonding counter where that is large enough |
| `Staking.CutsAddUp` | internal/chain/validator_evidence.go:72-101 | what a slash takes from delegations is what their total and the validator's delegated stake lose |
| `Staking.SlashKeepsInv` | internal/chain/validator_evidence.go:44-119 | a double-vote slash moves everything it takes into the permanent fund |
| `Staking.StepKeepsLedger` | internal/chain/validator_delegation.go:45-174 | every scheduled step keeps the ledger and the token total |
| `Staking.RunKeepsLedger` | internal/chain/validator_delegation.go:45-385 | over every scheduled run balances + locked stake + delegations + unbonding entries + fund is constant and DelegatedStake is the sum of delegations |
| `Staking.RunConservesExactly` | internal/chain/validator_delegation.go:45-385 | over every run, scheduled or not, DelegatedStake is the sum of delegations and tokens fall short by exactly the overwritten unbonding entries; conserved if and only if none was overwritten |
| `Staking.IdsAreNeverReused` | internal/chain/validator_delegation.go:152-174 | with nondecreasing times and maturities first at each time, no unbonding id is issued twice |
| `Staking.LateMaturityReusesId` | internal/chain/validator_delegation.go:152-174 | a maturity after an unbonding at the same time makes the next id collide and tokens disappear |
| `Staking.StakingLedger.DelegateStake` | internal/chain/validator_delegation.go:45-84 | in-place delegation |
| `Staking.StakingLedger.UndelegateStake` | internal/chain/validator_delegation.go:126-174 | in-place undelegation |
| `Staking.StakingLedger.ProcessMatured` | internal/chain/validator_delegation.go:369-385 | the loop pays every matured entry, in any map order, as a walk of single maturities |
| `Staking.StakingLedger.SlashDelegators` | internal/chain/validator_evidence.go:72-101 | the slashing loop over delegations, in any map order |
| `Staking.StakingLedger.ApplyEvidence` | internal/chain/validator_evidence.go:44-119 | evidence is applied at most once per id and computes the specified slash |
| `Proposer.FullTurn` | internal/chain/availability.go:25-48 | a turn on a full buffer drops the oldest and appends the new one |
| `Proposer.BufferRefinesHistory` | internal/chain/availability.go:8-49 | for a fixed window the buffer holds exactly the last min(n, W) turns, Head is the oldest slot once full, and the counters are exact |
| `Proposer.ScoreIsRatio` | internal/chain/availability.go:54-67 | the score is produced turns over recorded turns in basis points |
| `Proposer.TurnWindow.RecordTurn` | internal/chain/availability.go:8-49 | the in-place update computes the specified window |
| `Proposer.EffectivePowerScales` | internal/chain/availability.go:72-79 | effective power is floor(raw × score / 10000) if and only if raw × score < 2^64 |
| `Proposer.LargeStakeWraps` | internal/chain/availability.go:72-79 | a validator of about 18.4 million tokens at full availability has effective power zero |
| `Proposer.SelectProposer` | internal/chain/consensus_engine.go:47-86 | computes every effective power, then chooses the owner of seed mod total; the fallback is unreachable and zero power is never chosen |
| `Proposer.MeasurePowers` | internal/chain/consensus_engine.go:53-59 | the first loop computes every effective power and their sum |
| `Proposer.FindOwner` | internal/chain/consensus_engine.go:77-85 | the second loop finds the owner of the threshold |
| `Proposer.ChoiceIsProportional` | internal/chain/consensus_engine.go:47-86 | the number of thresholds selecting a validator equals its effective power, wrapped stake × score / 10000 |
| `Proposer.ChoiceFollowsHistory` | internal/chain/availability.go:54-79 | that number is floor(stake power × availability of its recent turns / 10000) if and only if the product fits in 64 bits |
| `Proposer.EveryThresholdHasAnOwner` | internal/chain/consensus_engine.go:77-85 | every threshold below the total selects someone |
| `Proposer.OwnerIsUnique` | internal/chain/consensus_engine.go:77-85 | no threshold selects two |
| `Mempool.EnqueueKeepsInv` | internal/chain/block.go:1008-1051 | admission, including replacement, keeps slots unique and both size limits |
| `Mempool.RunKeepsInv` | internal/chain/block.go:991-1051 | in every run no two pending transactions share an id, or a sender and protected nonce, and both limits hold |
| `Mempool.AppliedIsNeverReplaced` | internal/chain/block.go:1026-1028 | over every run an applied pending transaction leaves only in a block or when withdrawn by id |
| `Mempool.SlotFeeOnlyRises` | internal/chain/block.go:1016-1034 | a protected slot is given up only to a strictly higher fee |
| `Mempool.ReceiveIs` | internal/chain/block.go:1008-1051 | exactly when a received transaction is ignored, takes over a slot, is appended or refused |
| `Mempool.ConfirmedStaysOut` | internal/chain/block.go:1008-1011 | over every run a confirmed transaction is never pending again |
| `Mempool.BlockIsForGood` | internal/chain/block.go:991-1006 | a block's transactions leave the pool for good and nothing else does |
| `Mempool.Pool.EnqueuePending` | internal/chain/block.go:1008-1051 | the scan, replacement and limit checks compute the specified admission |
| `Mempool.Pool.SenderCount` | internal/chain/block.go:1039-1045 | counts a sender's pending transactions |
| `Mempool.Pool.Record` | internal/chain/block.go:31-67 | a locally recorded transaction is marked applied exactly when admitted |
| `Mempool.Pool.Withdraw` | internal/chain/block.go:69-77 | removes one transaction by id |
| `Mempool.Pool.RemovePending` | internal/chain/block.go:991-1006 | keeps exactly what a block has not taken |
| `Selection.BeforeTotal` | internal/chain/block.go:1129-1145 | the priority order is total on different ids and antisymmetric |
| `Selection.BeforeTransitive` | internal/chain/block.go:1129-1145 | the priority order is transitive |
| `Selection.SortOrdered` | internal/chain/block.go:1129-1145 | sorting puts the pool in priority order; `SortPutsAhead` says which order that is |
| `Selection.OrderIsUnique` | internal/chain/block.go:1129-1145 | a pool has one priority order, whatever the order of arrival |
| `Selection.BeforeIsAhead` | internal/chain/block.go:1129-1145 | priority is a higher fee, then an earlier sender, a smaller nonce, an earlier creation, an earlier id |
| `Selection.SortPutsAhead` | internal/chain/block.go:1129-1145 | in the sorted pool every transaction is ahead, in those fields, of all after it |
| `Selection.LimitsAre` | internal/chain/block.go:1425-1456 | each limit in numbers: defaults for zeroes, one-mebibyte cap, target within the maximum |
| `Selection.BlockLimits` | internal/chain/block.go:1425-1456 | effective byte limits are ordered and capped |
| `Selection.SelectionIsUnique` | internal/chain/block.go:1059-1127 | the greedy specification has one result |
| `Selection.SelectionFits` | internal/chain/block.go:1068-1083 | no repeats, only pending transactions, within count, byte and per-transaction limits |
| `Selection.PicksAreConsecutive` | internal/chain/block.go:1103-1125 | each sender's unapplied picks carry consecutive nonces from the account nonce |
| `Selection.AppliedComeFirst` | internal/chain/block.go:1094-1101 | no unapplied transaction enters before every applied one |
| `Selection.PicksAreBest` | internal/chain/block.go:1104-1115 | every unapplied pick has priority over every other ready transaction; `PickIsAhead` says so in fees, senders, nonces, ages and ids |
| `Selection.PickIsAhead` | internal/chain/block.go:1094-1125 | every pick is ahead, field by field, of whatever else could have been taken there: applied picks of the applied ones waiting, others of those whose nonce is next |
| `Selection.EndsAtApplied` | internal/chain/block.go:1094-1101 | if an applied transaction is left out, the one ahead of all of them exceeds the count, its size limit or the block size |
| `Selection.EndsAtReady` | internal/chain/block.go:1103-1126 | otherwise the one ahead of all ready ones exceeds the target, or none is ready |
| `Selection.BlockKeepsLimits` | internal/chain/block.go:1059-1127 | the block stays 8192 bytes below the maximum, and below the target where it takes an unapplied transaction |
| `Selection.ArrivalOrderIsIrrelevant` | internal/chain/block.go:1059-1145 | the same pending transactions give the same block in whatever order they arrived |
| `Selection.StartNonces` | internal/chain/block.go:1085-1093 | senders start at their account nonces |
| `Selection.AddTx` | internal/chain/block.go:1068-1083 | accepts exactly what fits |
| `Selection.TakeApplied` | internal/chain/block.go:1094-1101 | the first loop, with its early return |
| `Selection.Fill` | internal/chain/block.go:1103-1126 | the second loop reaches a selection and terminates |
| `Selection.SelectForBlock` | internal/chain/block.go:1059-1127 | the whole selection meets the greedy specification, whose picks and end `PickIsAhead`, `EndsAtApplied` and `EndsAtReady` describe field by field |
| `Allocator.AtIsModular` | internal/chain/storage_assignment.go:222 | the rotation index is (start + offset) mod n |
| `Allocator.PickAvoids` | internal/chain/storage_assignment.go:218-232 | a chosen miner has room, and is one to avoid only if every other miner lacks space |
| `Allocator.PickFails` | internal/chain/storage_assignment.go:218-232 | no choice if and only if no miner has room |
| `Allocator.PlannedSizeIs` | internal/chain/storage_assignment.go:246-262 | a fixed size is taken as it is; otherwise size × data shards ≥ the segment's bytes > (size − 1) × data shards, and each error has its exact condition |
| `Allocator.PlanCarriesEveryStep` | internal/chain/storage_assignment.go:11-100 | every successful plan places each required shard in order, each with room left at that point, repeating a miner in a segment (or a paired holder) only when all others lack space |
| `Allocator.PlanFits` | internal/chain/storage_assignment.go:11-100 | no plan takes more than a miner's free bytes |
| `Allocator.FailsOnlyWhenStuck` | internal/chain/storage_assignment.go:25-86 | planning fails only on an invalid segment or when no miner has room for the next shard |
| `Allocator.PlanCovers` | internal/chain/storage_assignment.go:24-97 | a successful plan has exactly the (segment, shard) and (pool, shard) keys |
| `Allocator.PlacedOnce` | internal/chain/storage_assignment.go:25-57 | each key is placed once if and only if pool ids differ and none maps onto a segment number |
| `Allocator.RowsAreEven` | internal/chain/storage_assignment.go:24-97 | a successful plan is rows of one entry a shard: row i is segment i, and the pools follow |
| `Allocator.SegmentEntry` | internal/chain/storage_assignment.go:25-51 | entry j of segment i is that shard with its own hash and planned size |
| `Allocator.PoolEntry` | internal/chain/storage_assignment.go:55-96 | entry j of a pool is its cross-parity shard, with the pool's hash and size or the planned size of its first segment |
| `Allocator.DataShardsHold` | internal/chain/storage_assignment.go:246-262 | the data shards of a segment together store its bytes if and only if the parity count is not negative, as state.go:957 demands, or the shards placed suffice anyway |
| `Allocator.FixedShardsStore` | internal/chain/storage_assignment.go:246-249 | with a fixed shard size the data shards of a segment store exactly that size each |
| `Allocator.AvailableIs` | internal/chain/storage_assignment.go:264-270 | free bytes are capacity less used and reserved, or none |
| `Allocator.ShardGoesTo` | internal/chain/storage_assignment.go:218-244 | shard j of segment i is on the first miner from position hash mod n with room and no earlier shard of the segment; on one with such a shard only if all others are full |
| `Allocator.PoolShardGoesTo` | internal/chain/storage_assignment.go:62-86 | shard j of a pool likewise avoids the miners of shard j of its two segments |
| `Allocator.ReservationFits` | internal/chain/storage_assignment.go:113-121 | after reserving, no miner is over capacity and each has exactly its share less free |
| `Allocator.ReleaseUndoesReserve` | internal/chain/storage_assignment.go:113-135 | releasing a plan's assignments in any order undoes the reservation |
| `Allocator.MinerStore.ReserveAssignments` | internal/chain/storage_assignment.go:113-121 | the reservation loop |
| `Allocator.MinerStore.ReleaseReservation` | internal/chain/storage_assignment.go:123-135 | one release, with its clamp |
| `Allocator.Scan` | internal/chain/storage_assignment.go:220-230 | one pass over the rotation |
| `Allocator.ChooseMiner` | internal/chain/storage_assignment.go:218-232 | the two-pass choice |
| `Allocator.PlaceShard` | internal/chain/storage_assignment.go:36-50 | places one shard and lowers the budget by its size |
| `Allocator.PlaceSegment` | internal/chain/storage_assignment.go:34-50 | the shard loop of a segment |
| `Allocator.PlanSegment` | internal/chain/storage_assignment.go:25-51 | one segment with its error checks |
| `Allocator.AssignmentForShard` | internal/chain/storage_assignment.go:179-186 | finds the first holder of a shard |
| `Allocator.PlacePool` | internal/chain/storage_assignment.go:62-96 | the shard loop of a repair pool |
| `Allocator.BuildAssignments` | internal/chain/storage_assignment.go:11-100 | the whole planner computes the specified plan or its error; `DataShardsHold`, `ShardGoesTo` and `PoolShardGoesTo` say what is in it |
| `Bridge.CreditedOnce` | internal/chain/bridge.go:140-263 | in every run each source transaction hash is credited at most once |
| `Bridge.ClaimMovesPool` | internal/chain/bridge.go:219-245 | a claim lowers the pool by its amount if and only if its recipient is not the pool |
| `Bridge.StepMovesPool` | internal/chain/bridge.go:34-263 | every step moves the pool by its flow, plus twice the amount of a claim paid to the pool |
| `Bridge.PoolBalanceIsFlows` | internal/chain/bridge.go:34-263 | over every run the pool is its start plus locked amounts and fees minus claims, if and only if no claim was paid to the pool; otherwise it exceeds that by twice those claims |
| `Bridge.RunKeepsSupplyExactly` | internal/chain/bridge.go:34-263 | over every run the sum of balances grows by exactly what transfers between the pool and itself mint; conserved if and only if there were none |
| `Bridge.RunKeepsLimit` | internal/chain/bridge.go:48-60 | over every run each counting day stays within the largest limit in force |
| `Bridge.TwoDaysAtMost` | internal/chain/bridge.go:48-60 | an interval of 86400 seconds meets at most two counting days |
| `Bridge.DailyLimitHolds` | internal/chain/bridge.go:34-373 | any 86400-second interval accepts at most twice the largest daily limit in force |
| `Bridge.LockIs` | internal/chain/bridge.go:34-134 | a lock is accepted if and only if its conditions on the fields hold, the counting day restarting after 86400 seconds; what it moves |
| `Bridge.ClaimIs` | internal/chain/bridge.go:140-263 | a claim is accepted if and only if authorized, new, unclaimed, claimable, of the recorded amount and within limits and pool; otherwise no money moves and nothing is used up |
| `Bridge.ClosedBridgeIsStill` | internal/chain/bridge.go:34-263 | off, paused or unconfigured, nothing changes |
| `Bridge.ReconfigureIs` | internal/chain/bridge.go:269-373 | a new configuration is taken if and only if its minimum, limit and delay are in range; the running day stays |
| `Bridge.BridgeStore.RollDay` | internal/chain/bridge.go:48-60 | rolls the day over and tests the limit |
| `Bridge.BridgeStore.BridgeOut` | internal/chain/bridge.go:34-134 | in-place lock computes the specified step |
| `Bridge.BridgeStore.BridgeInClaim` | internal/chain/bridge.go:140-263 | in-place claim computes the specified step |
| `Governance.ThresholdIsCeiling` | internal/chain/governance_proposals.go:943-974 | k meets the threshold if and only if k × den ≥ n × num |
| `Governance.ThresholdMeansEnough` | internal/chain/governance_proposals.go:943-974 | k of n meets a proposal's threshold if and only if k × den ≥ n × num, with the privileged or the data fraction; all of them without a denominator |
| `Governance.TallyCountsApprovers` | internal/chain/governance_proposals.go:883-912 | the tally is the number of distinct approving members |
| `Governance.TallyFits` | internal/chain/governance_proposals.go:883-912 | approvals plus rejections are the members that voted |
| `Governance.NoFurtherVotesReach` | internal/chain/governance_proposals.go:301-323 | no further votes can exceed the members minus the rejections in hand |
| `Governance.StepKeepsInv` | internal/chain/governance_proposals.go:225-434 | every step keeps one vote each and distinct snapshots |
| `Governance.StepKeepsDecision` | internal/chain/governance_proposals.go:225-434 | a decided proposal keeps status, snapshot and votes |
| `Governance.DecisionIsFinal` | internal/chain/governance_proposals.go:225-434 | in every run a proposal leaves pending at most once; a decided one keeps status, snapshot and votes |
| `Governance.ExecutedHasApproval` | internal/chain/governance_proposals.go:422-434 | a step executes a proposal only with the threshold of distinct approving operators of its snapshot, or of those enabled at that moment without one |
| `Governance.ExecutedRunHadApproval` | internal/chain/governance_proposals.go:225-434 | a proposal executed in a run met the threshold at the step that executed it, by operators entitled at that step, and those approvals are still recorded at the end |
| `Governance.RejectedIsHopeless` | internal/chain/governance_proposals.go:301-323 | a proposal is auto-rejected or expired as unreachable only when no further votes could reach the threshold, with or without a snapshot |
| `Governance.RejectedRunWasHopeless` | internal/chain/governance_proposals.go:225-336 | a proposal rejected at the end of a run was rejected at a step at which no votes still to come could have reached the threshold |
| `Governance.VoteDecides` | internal/chain/governance_proposals.go:225-323 | an accepted vote executes the proposal if enough approve, rejects it if even all who have not rejected it would not be enough, and else leaves it pending |
| `Governance.OtherVotesAreRefused` | internal/chain/governance_proposals.go:225-289 | any other vote changes nothing, except that one more than seven days after creation expires the proposal |
| `Governance.ExecutionTakesEnough` | internal/chain/governance_proposals.go:341-434 | manual execution takes an enabled operator, its nonce and enough approvals within seven days |
| `Governance.AgedExpire` | internal/chain/governance_proposals.go:831-841 | the pass expires exactly the pending proposals older than seven days |
| `Governance.HopelessExpire` | internal/chain/governance_proposals.go:847-873 | the other pass expires exactly the pending ones that can no longer get enough approvals |
| `Governance.GovernanceStore.CountVotes` | internal/chain/governance_proposals.go:883-912 | the loop computes both tallies |
| `Governance.GovernanceStore.CastVote` | internal/chain/governance_proposals.go:225-336 | in-place vote computes the specified step |
| `Governance.GovernanceStore.AcceptVote` | internal/chain/governance_proposals.go:290-323 | records, counts and acts on a vote that passed every check |
| `Governance.GovernanceStore.Decide` | internal/chain/governance_proposals.go:301-323 | execute, reject or stay pending |
| `Governance.GovernanceStore.ExecuteProposal` | internal/chain/governance_proposals.go:341-434 | manual execution, with the expiry, threshold and failed-action paths |
| `Governance.GovernanceStore.ExpireOldProposals` | internal/chain/governance_proposals.go:831-841 | the expiry loop, in any map order |

## Left out

- Address normalization, JSON, hashing, signatures, chain ids, clock skew and agent keys: opaque parameters or booleans; addresses are taken as already normalized, and an owner and its operator as one identity.
- `register_validator` transactions inside the block being voted on: their stake counts as voting power but not in the total, so certificates are over blocks without them.
- Cross-height consensus, rounds, time-outs and precommit finality: only certificates over one validator set.
- The full block production and acceptance pipeline, replay, rollback and WASM hooks.
- Foundation and retrieval releases, delegator counts, per-source bucket totals, reward statistics and event logs: record keeping that moves no modelled amount.
- The scoring formula behind a miner's effective weight and the renewal price formula: any value is allowed.
- Repair rewards (storage_payments.go:94-127): they reuse the two spends that are modelled.
- `RenewDeal` on the node that receives the request: the model follows the replayed form (renewal.go:161-269); account nonces are not part of the escrow state.
- The `last updated` fields and status strings of escrow records and funds.
- What an executed governance action does: operators and threshold fractions may change arbitrarily between steps.
- Proposal creation, direct governance actions, multisig, blacklists, sharing, collections, manifests, provider ranking, setters of mining and fee parameters: easy record keeping.
- The order of `assignableMinersLocked` (storage_assignment.go:198-216) and its filter: the planner takes the resulting list, with distinct addresses, as input.
- Shard CIDs, which follow from the hashes, and 64-bit overflow of segment number times segment size in `plannedShardSize`.
- The two capacity errors of the planner are one error in the model.
- StorageLedger.RunKeepsInv: deals are finalized and settled only when safe; `RunKeepsInvExactly` shows that this is exactly what the promises need.
- Staking.RunKeepsLedger: times do not go back and maturities come first at each time; `RunConservesExactly` covers every other run. The liability is the unbonding entries, not the `UnbondingBalance` counter that a slash may lower.
- An account that is missing and one that is empty are the same in the model.
- StorageLedger.AutoRenewKeepsInv: the clock is past the first week of the epoch; a permanent deal, which has no expiry, would count as due before that.
- RewardIndex.NeverOverpays: the miner shares fed in over the run fit in 64 bits, as the supply does.
- Mempool.RunKeepsInv: an id fixes sender, nonce and protection, as a hash of the payload does.
- Selection.SelectForBlock: pending ids are distinct, which `Mempool.RunKeepsInv` provides; the library sort is an insertion sort on values.
- Proposer.ScoreIsRatio: the window size is fixed during a run and times 10000 fits in 64 bits.
