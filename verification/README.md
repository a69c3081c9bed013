# Bridge Watch contracts: a verified model

Soroban contracts that collect protocol fees, insure bridges, limit transfers, decide by vote, check reserve proofs,
record pool history, hold escrows, and keep an asset registry, a ranking and a replay log. Each is modelled twice: as a
value, where every entrypoint is a function from state to new state or error and a run is a sequence of calls, and as a
class whose methods have the contract's own loops and assignments and are proved equal to those functions. The theorems
are about runs of the functions, so they hold of the classes.

`dafny verify dfyconfig.toml` checks everything. Modules and what they rest on:

| contract | state and calls | invariants and theorems | imperative form |
|---|---|---|---|
| fee distribution | `FeeDistribution` | `FeeDistributionInvariant`, `FeeDistributionTheorems`, `FeeDistributionClaims`, `FeeDistributionAmounts`, `FeeDistributionShortfall` | `FeeDistributionContract` |
| insurance pool | `InsurancePool` | `InsurancePoolInvariant`, `InsurancePoolTheorems`, `InsurancePoolAmounts` | `InsurancePoolContract` |
| rate limiter | `RateLimiter` | `RateLimiterBounds`, `RateLimiterWindows`, `RateLimiterChecks`, `RateLimiterLimits` | `RateLimiterContract` |
| governance | `Governance` | `GovernancePower`, `GovernanceProposals`, `GovernanceTerms` | `GovernanceContract` |
| bridge reserve verifier | `ReserveVerifier` | `MerkleProofs`, `ReserveVerifier`, `ReserveVerifierTerms` | `ReserveVerifierContract` |
| liquidity pool | `LiquidityPool` | `RingBuffers`, `WindowFilters`, `LiquidityPool`, `LiquidityPoolAmounts` | `LiquidityPoolContract` |
| escrow | `Escrow` | `EscrowConservation`, `EscrowTerms` | `EscrowContract` |
| asset registry | `AssetRegistry` | `AssetRegistry`, `AssetRegistryTerms` | `AssetRegistryContract` |
| asset ranking | | `AssetRanking` | `AssetRanking` |
| event query | | `EventLog` | `EventLog.ReplayLog` |

The modules named Amounts, Terms and Limits say in plain arithmetic, apart from the functions the calls are made of, when
each call completes and what it moves; the laws and bounds of the others hold of many ways to move it.

`Sums`, `Quotients` and `IntegerRoot` hold what several of them share.

Conventions. Storage is maps and sequences; addresses, names and codes are opaque values with equality, codes also with
an order. The ledger time is an argument. A panic or an error leaves the state as it was; the one exception in the
source, a rejected consume of the rate limiter, returns normally and keeps its side effects. Integers are unbounded: a
checked operation that would overflow is a call that does not happen. Division is the source's, truncating toward
zero; where a dividend can be negative it is written `Truncate`, elsewhere the invariants keep it non-negative. An
`Audit` inside a state, and the ghost fields of the classes, are bookkeeping that no step reads and the contracts do not
store; theorems use them to say what was ever paid, distributed or recorded.

How the accumulator proofs go. A staker's potential is the scaled stored reward, minus the scaled debt, plus stake times
accumulator. A distribution raises the sum of potentials by exactly the scaled slice less a remainder; a payment lowers
it by the scaled payment; a harvest leaves it alone; and a debt reset changes it by the difference of two remainders,
which is less than one unit. Summed over a run that is the reward law; the same bookkeeping on balances is the custody
law; subtracting the two gives the exact surplus and from it the bound. The insurance pool uses the same argument with
withdrawals, slashes and payouts on top.

Where the code and its documentation part, the code is modelled and the difference is a theorem:

- The fee distributor calls its allocation provably fair (`soroban/src/fee_distribution.rs:29-32`). Resetting a debt to a
  fresh floor can gain a staker less than a unit, so the contract can be short by one unit per reset: `OneUnitShort` is a
  run where it is, `ExactSurplus` says exactly when it is not, `Solvency` is what holds always.
- The daily limit is not a limit on every day: windows start at the first call after the last one ran out.
  `TwiceTheLimitReached` passes twice the limit in two seconds and `IntervalBound` shows that twice is all.
  `WindowRuleExact` says exactly how much passes by the window found when the interval begins, and that the limit itself
  holds if and only if no window with room left was then open.
- A passing `check_limit` does not promise that a consume passes (`CheckPassesConsumeFails`); `ConsumeIsCheckAndMore`
  says what it leaves out.
- `get_pending_rewards` reports nothing for a staker without stake even when rewards are stored (`ViewHidesReward`);
  `ClaimTakesView` says when the view and the claim agree.
- `set_voting_power` on an address with a live delegation breaks the total of effective power (`TotalBroken`), and
  `SetPowerKeepsTotalIff` says exactly when it does not.
- The proof check does not fix a path length, so inner nodes pass as leaves (`EveryNodeVerifies`);
  `AcceptedMeansMember` says what a proof of any length proves and `AcceptedMeansLeafIff` when that is a leaf.
- A slash is meant to take stake away. Initialised with a negative amount the verifier adds to it (`SlashThatPays`);
  `StakesFallIff` gives the condition.
- An emergency recovery can pay an escrow out twice (`RecoveryPaysTwice`); `EscrowConserved` and
  `RecoveryKeepsBoundIff` say exactly when the bound survives.
- The ordering key shifts the time into the upper 32 bits of 64, so it orders events only while the low 32 bits of the
  time do not fall: `KeysAscendIff`, `KeysWrap`.

## Model

| member | source | states |
|---|---|---|
| FeeDistributionTheorems.Solvency | soroban/src/fee_distribution.rs:906-1077 | On every run without an emergency withdrawal, and for every token other than the staking token, the balance plus one unit per debt reset made on that token covers pending fees, governance pool, unclaimed vesting and every staker's stored and live reward |
| FeeDistributionTheorems.ExactSurplus | soroban/src/fee_distribution.rs:906-1077 | The surplus behind that bound, exactly: scaled balance (plus emergency withdrawals) minus liabilities equals fractions still held + rounding dust + compounded rewards − what debt resets gained; hence full cover if and only if the resets gained no more than the rest |
| FeeDistributionTheorems.CreditedAtMostDistributed | soroban/src/fee_distribution.rs:906-966 | Rewards paid, compounded and still owed never exceed the staker slices distributed by more than one unit per debt reset |
| FeeDistributionTheorems.FairShare | soroban/src/fee_distribution.rs:906-1049 | Over any stretch in which a staker's stake s does not change, the credit is floor(s·A1/P) − floor(s·A0/P) whatever was harvested or claimed in between; it is below exact pro rata + 1 and above exact − s·rounds/P − 1 |
| FeeDistributionTheorems.SteadyStep | soroban/src/fee_distribution.rs:906-1049 | No call of anyone else, and no distribution, harvest or claim, moves a staker's settled part; the accumulator moves with the unrounded per-share sum to within one per round |
| FeeDistributionTheorems.DistributeOneTracks | soroban/src/fee_distribution.rs:1027-1034 | One distribution moves the accumulator by less than one below, and never above, its unrounded step |
| FeeDistributionTheorems.CallFrame | soroban/src/fee_distribution.rs:202-757 | A call resets a debt on a token if and only if it completes, is a stake, an unstake or a compounding of something, and the token has a pool; it books an emergency withdrawal if and only if it is a completed one; only the two vesting calls touch schedules |
| FeeDistributionTheorems.RunAudit | soroban/src/fee_distribution.rs:951-966 | Over a run the debt resets booked for a token are exactly the completed calls that reset one: panicked calls, plain claims and empty compoundings count for nothing |
| FeeDistributionTheorems.PotentialsSplit | soroban/src/fee_distribution.rs:906-966 | The potential of all stakers is the scaled sum of what they are owed plus their non-negative fractions |
| FeeDistributionInvariant.RunInv | soroban/src/fee_distribution.rs:202-1077 | Both conservation laws and the shape of the ledger hold after every run from initialisation |
| FeeDistributionInvariant.CallCarries | soroban/src/fee_distribution.rs:235-757 | Every call, completed or panicked, keeps both laws for every token |
| FeeDistributionInvariant.HarvestEffect | soroban/src/fee_distribution.rs:906-945 | Harvesting leaves stored minus debt unchanged for everyone, touches only its staker's stored rewards, and brings every debt up to the accumulator |
| FeeDistributionInvariant.HarvestCarries | soroban/src/fee_distribution.rs:906-945 | Harvesting keeps both laws |
| FeeDistributionInvariant.SyncEffect | soroban/src/fee_distribution.rs:951-966 | A sync sets exactly the given staker's debts, for exactly the pools listed, to what the new stake has accrued |
| FeeDistributionInvariant.ReweighCarries | soroban/src/fee_distribution.rs:951-966 | A debt reset after a harvest keeps both laws and moves no stored reward; what it gains is less than one unit and is booked |
| FeeDistributionInvariant.ReweighPotential | soroban/src/fee_distribution.rs:951-966 | A debt reset changes its staker's potential by the difference of two remainders of stake·acc modulo the precision, and nobody else's |
| FeeDistributionInvariant.PotentialsMove | soroban/src/fee_distribution.rs:906-966 | If only one staker's claim on a token changes, the sum over stakers changes by as much |
| FeeDistributionInvariant.CutsSplit | soroban/src/fee_distribution.rs:1018-1023 | The three cuts are non-negative and the treasury remainder makes them add up to the pending amount |
| FeeDistributionInvariant.DeltaSplit | soroban/src/fee_distribution.rs:1027-1034 | Accumulator step times total stake plus the remainder is the scaled staker slice |
| FeeDistributionInvariant.DistributeOneGap | soroban/src/fee_distribution.rs:1003-1057 | A distribution of one token keeps the reward law and the custody law of every token |
| FeeDistributionInvariant.DistributeEachCarries | soroban/src/fee_distribution.rs:1003-1077 | A distribution round over any list of tokens, repeated ones included, keeps both laws |
| FeeDistributionInvariant.StakeCarries | soroban/src/fee_distribution.rs:408-461 | Staking keeps both laws |
| FeeDistributionInvariant.UnstakeCarries | soroban/src/fee_distribution.rs:470-506 | Unstaking keeps both laws |
| FeeDistributionInvariant.ClaimCarries | soroban/src/fee_distribution.rs:519-566 | A claim keeps both laws whether it is paid out or compounded |
| FeeDistributionInvariant.CompoundCarries | soroban/src/fee_distribution.rs:575-615 | Compounding keeps both laws of the fee tokens |
| FeeDistributionInvariant.RestakeCarries | soroban/src/fee_distribution.rs:550-560 | Turning a stored reward into stake keeps both laws, with the reset it causes booked |
| FeeDistributionInvariant.PayOutCarries | soroban/src/fee_distribution.rs:561-565 | Paying a stored reward keeps both laws |
| FeeDistributionInvariant.CollectCarries | soroban/src/fee_distribution.rs:327-369 | Collecting fees, with or without the automatic distribution, keeps both laws |
| FeeDistributionInvariant.AddTokenCarries | soroban/src/fee_distribution.rs:243-271 | Registering a token keeps both laws |
| FeeDistributionInvariant.CreateVestingCarries | soroban/src/fee_distribution.rs:634-680 | A vesting schedule moves its amount from the governance pool to what vesting owes |
| FeeDistributionInvariant.ClaimVestedCarries | soroban/src/fee_distribution.rs:691-733 | A vesting claim pays what vesting then no longer owes |
| FeeDistributionInvariant.WithdrawCarries | soroban/src/fee_distribution.rs:749-757 | An emergency withdrawal is booked in full |
| FeeDistributionInvariant.VestedBounds | soroban/src/fee_distribution.rs:706-715 | The schedule has released between nothing and the total at any time |
| FeeDistributionClaims.ClaimTakesView | soroban/src/fee_distribution.rs:519-566 | A claim succeeds if and only if there is no emergency, something is due and it is compounded or can be paid; with stake it takes exactly what `get_pending_rewards` (787-816) reports; without stake it takes the stored reward the view hides, so the two agree if and only if there is stake |
| FeeDistributionClaims.StakingIsNeutral | soroban/src/fee_distribution.rs:408-461 | Staking changes nobody's whole-unit claim on any token, and a first stake starts with none, whatever was distributed before |
| FeeDistributionClaims.UnstakingIsNeutral | soroban/src/fee_distribution.rs:470-506 | Unstaking changes nobody's whole-unit claim on any token |
| FeeDistributionClaims.HarvestStoresView | soroban/src/fee_distribution.rs:787-816 | After a harvest the stored reward is what the view reported, or for a staker without stake what was stored |
| FeeDistributionClaims.ReleaseSchedule | soroban/src/fee_distribution.rs:691-733 | Releasable vesting is monotone in time, zero before the cliff, at most the total, and the total once the duration has passed |
| FeeDistributionClaims.CallVestings | soroban/src/fee_distribution.rs:634-733 | No call changes an existing schedule except a successful claim on it, after which claimed equals releasable at that time |
| FeeDistributionClaims.TakenDependsOnLastClaim | soroban/src/fee_distribution.rs:691-733 | Over any run the total taken from a schedule is what was releasable at the last successful claim, however the claims were spaced |
| FeeDistributionShortfall.OneUnitShort | soroban/src/fee_distribution.rs:906-1077 | A concrete run in which five units are distributed, both views report three and the second claim panics: solvency without the one-unit term is false |
| FeeDistributionShortfall.ViewHidesReward | soroban/src/fee_distribution.rs:787-816 | A concrete run after which the view reports nothing to a staker who has unstaked everything and a claim pays two units |
| FeeDistributionAmounts.DistributionAmounts | soroban/src/fee_distribution.rs:1000-1057 | For every token with something pending: there are s and g, the pending amount times the stakers' and the governance ratio over 10 000, each rounded down; the call completes if and only if the rest can be paid, and then the balance falls by exactly the rest, the governance pool rises by g (and s without stakers), the accumulator by s times 10^12 over the total stake rounded down, and the totals follow; no other pool or balance moves |
| FeeDistributionAmounts.RoundExact | soroban/src/fee_distribution.rs:383-393 | A completed round leaves nothing pending in the tokens it names (all if none), no other pool changed, and the interval restarted |
| FeeDistributionAmounts.CollectAmounts | soroban/src/fee_distribution.rs:327-369 | Collected, pending and held amounts rise by what was paid in; a round follows if and only if an interval is set and has elapsed |
| FeeDistributionAmounts.StakeAmounts | soroban/src/fee_distribution.rs:408-461 | When staking completes, and that stake, total and holdings rise by the amount |
| FeeDistributionAmounts.UnstakeAmounts | soroban/src/fee_distribution.rs:470-506 | When unstaking completes, and that stake, total and holdings fall by the amount |
| FeeDistributionAmounts.CompoundAmounts | soroban/src/fee_distribution.rs:575-615 | Compounding is for those who opted in and adds exactly what is stored and live to stake and total, paying nothing |
| FeeDistributionAmounts.VestingTerms | soroban/src/fee_distribution.rs:634-680 | When a schedule is granted, its terms, and that the governance pool falls by its amount |
| FeeDistributionAmounts.VestedExact | soroban/src/fee_distribution.rs:691-733 | The released amount is total times elapsed over duration rounded down, all of it from the end; a claim completes if and only if the cliff has passed, something is left and it can be paid, and pays exactly the unclaimed part |
| FeeDistributionAmounts.SettingsExact | soroban/src/fee_distribution.rs:235-306 | Ratios are accepted if and only if they add up to 10 000, a token is registered once with an empty pool, flag and interval are replaced |
| FeeDistributionAmounts.WithdrawalExact | soroban/src/fee_distribution.rs:749-757 | An emergency withdrawal needs the emergency and at most what is held |
| FeeDistributionContract.Contract.constructor | soroban/src/fee_distribution.rs:202-229 | The empty ledger with valid ratios |
| FeeDistributionContract.Contract.UpdateRatios | soroban/src/fee_distribution.rs:235-239 | Replaces the ratios if they sum to 10 000, else panics unchanged |
| FeeDistributionContract.Contract.AddFeeToken | soroban/src/fee_distribution.rs:243-271 | Registers a token once; a repeated call changes nothing |
| FeeDistributionContract.Contract.HarvestRewards | soroban/src/fee_distribution.rs:906-945 | The loop over tokens ends in the specified harvest |
| FeeDistributionContract.Contract.SyncDebts | soroban/src/fee_distribution.rs:951-966 | The loop over tokens ends in the specified sync |
| FeeDistributionContract.Contract.ReweighStaker | soroban/src/fee_distribution.rs:440-461 | New stake, all debts and total together |
| FeeDistributionContract.Contract.DistributePool | soroban/src/fee_distribution.rs:1003-1057 | One token's split, accumulator step, orphan rule and treasury transfer; panics exactly when the transfer cannot be paid |
| FeeDistributionContract.Contract.Distribution | soroban/src/fee_distribution.rs:994-1077 | The loop over tokens; a panic in any round undoes all of them |
| FeeDistributionContract.Contract.CollectFees | soroban/src/fee_distribution.rs:327-369 | Guards, credit, and the automatic distribution once the interval (970-990) has elapsed |
| FeeDistributionContract.Contract.DistributeFees | soroban/src/fee_distribution.rs:383-393 | An empty list means every registered token; panics in an emergency |
| FeeDistributionContract.Contract.StakeForFees | soroban/src/fee_distribution.rs:408-461 | Harvest, deposit, reset and compounding flag in the contract's order |
| FeeDistributionContract.Contract.Unstake | soroban/src/fee_distribution.rs:470-506 | Guards, harvest, reset, transfer; panics unchanged |
| FeeDistributionContract.Contract.RestakeReward | soroban/src/fee_distribution.rs:550-560 | A stored reward becomes stake |
| FeeDistributionContract.Contract.PayReward | soroban/src/fee_distribution.rs:561-565 | A stored reward is emptied and transferred |
| FeeDistributionContract.Contract.ClaimFees | soroban/src/fee_distribution.rs:519-566 | Harvest, then restake or pay; a claim of nothing undoes the harvest |
| FeeDistributionContract.Contract.CompoundRewards | soroban/src/fee_distribution.rs:575-615 | Permissionless compounding for stakers who opted in |
| FeeDistributionContract.Contract.CreateVestingSchedule | soroban/src/fee_distribution.rs:634-680 | All guards, governance pool debited, schedule appended |
| FeeDistributionContract.Contract.ClaimVested | soroban/src/fee_distribution.rs:691-733 | Cliff, linear release, payment of the difference |
| FeeDistributionContract.Contract.SetEmergency | soroban/src/fee_distribution.rs:741-744 | Sets the flag and nothing else |
| FeeDistributionContract.Contract.SetDistributionInterval | soroban/src/fee_distribution.rs:303-306 | Sets the interval and nothing else |
| FeeDistributionContract.Contract.EmergencyWithdraw | soroban/src/fee_distribution.rs:749-757 | Only in an emergency, only what is held |
| InsurancePoolTheorems.PremiumsCovered | soroban/src/insurance_pool.rs:402-447 | On every run, claimed + accrued + live premium over all positions of a pool is at most the premium collected plus one unit per debt reset made there |
| InsurancePoolTheorems.RunResets | soroban/src/insurance_pool.rs:272-543 | Over a run the debt resets booked for a pool are exactly its completed stakes, withdrawal requests and rejections |
| InsurancePoolTheorems.PremiumSurplus | soroban/src/insurance_pool.rs:402-447 | The exact scaled difference of the two, and that plain coverage holds if and only if debt resets gained no more than the fractions and dust outstanding |
| InsurancePoolTheorems.ClaimPremiumExact | soroban/src/insurance_pool.rs:598-611 | A premium claim never panics for an existing pool, pays exactly accrued + live, and leaves the total earned unchanged |
| InsurancePoolTheorems.PoolLedger | soroban/src/insurance_pool.rs:272-595 | On every run: total liquidity + payouts = staked + queued; staked and queued are the sums of the positions; a position's queue is the sum of its unclaimed requests; payouts are the sum of paid claims and their number is counted |
| InsurancePoolTheorems.WithdrawalOnlyNeedsLiquidity | soroban/src/insurance_pool.rs:340-385 | A matured, unclaimed request of its owner succeeds if and only if total liquidity covers it: the pending-withdrawal and queue mismatch panics are unreachable |
| InsurancePoolTheorems.RequestsSettleOnce | soroban/src/insurance_pool.rs:340-385 | A request is only ever changed by its owner's execution after the unlock time, and stays claimed |
| InsurancePoolTheorems.CallFollows | soroban/src/insurance_pool.rs:490-595 | A call changes a claim only along the lifecycle; it becomes paid only from approved, by its own payout |
| InsurancePoolTheorems.RunFollows | soroban/src/insurance_pool.rs:490-595 | Over any run a claim keeps its terms, only gains approvals and stages, and never changes once rejected or paid |
| InsurancePoolTheorems.PayoutExact | soroban/src/insurance_pool.rs:570-595 | A payout needs an approved claim, whose approvals are non-empty and pairwise distinct, moves exactly its amount, and cannot be repeated |
| InsurancePoolTheorems.ApprovalTrail | soroban/src/insurance_pool.rs:546-595 | Every approved or paid claim of every run was approved by the call of a listed approver that brought a verified claim to at least the threshold then in force, all signatures distinct |
| InsurancePoolTheorems.PremiumSplit | soroban/src/insurance_pool.rs:728-742 | A pool's premium potential is the scaled sum of what positions earned plus their non-negative fractions |
| InsurancePoolInvariant.RunInv | soroban/src/insurance_pool.rs:123-611 | The pool ledger, the premium law and the queue law hold after every run |
| InsurancePoolInvariant.CallInv | soroban/src/insurance_pool.rs:148-611 | Every call keeps them |
| InsurancePoolInvariant.RestakedEffect | soroban/src/insurance_pool.rs:728-742 | A sync moves live premium into storage and nothing else; a new stake then starts less than one unit away, by the difference of two remainders |
| InsurancePoolInvariant.TotalPut | soroban/src/insurance_pool.rs:662-689 | Saving a position changes each of its pool's totals by the new position less the one loaded, and a missing position, loaded as empty, counts for nothing |
| InsurancePoolInvariant.Saved | soroban/src/insurance_pool.rs:662-689 | If pool totals and one position move together, the laws of every pool survive |
| InsurancePoolInvariant.PartOfTotal | soroban/src/insurance_pool.rs:272-385 | A stake is at most the pool's total and a queued amount at most the queue |
| InsurancePoolInvariant.StakeInv | soroban/src/insurance_pool.rs:272-290 | Staking keeps all laws |
| InsurancePoolInvariant.RequestInv | soroban/src/insurance_pool.rs:293-337 | A withdrawal request moves its amount from stake to queue, for pool and position alike |
| InsurancePoolInvariant.ExecuteInv | soroban/src/insurance_pool.rs:340-385 | Executing a request removes its amount from liquidity, queue and position alike |
| InsurancePoolInvariant.ClaimPremiumInv | soroban/src/insurance_pool.rs:598-611 | A premium claim keeps all laws |
| InsurancePoolInvariant.SlashInv | soroban/src/insurance_pool.rs:506-543 | A rejection slashes at most the claimant's stake, from both pool totals, and keeps all laws |
| InsurancePoolInvariant.SaleNeedsStake | soroban/src/insurance_pool.rs:402-447 | Coverage is only ever sold against positive stake, because the cap of an unstaked pool is zero |
| InsurancePoolInvariant.PremiumGrowth | soroban/src/insurance_pool.rs:402-447 | An accumulator step d raises the pool's premium potential by d times its stake |
| InsurancePoolInvariant.PurchaseInv | soroban/src/insurance_pool.rs:402-447 | A sale keeps all laws, the remainder booked as dust |
| InsurancePoolInvariant.SubmitInv | soroban/src/insurance_pool.rs:450-487 | Submitting keeps all laws |
| InsurancePoolInvariant.VerifyInv | soroban/src/insurance_pool.rs:490-543 | Verification, valid or not, keeps all laws |
| InsurancePoolInvariant.ApproveInv | soroban/src/insurance_pool.rs:546-567 | Approval keeps approvers distinct and all laws |
| InsurancePoolInvariant.PayoutInv | soroban/src/insurance_pool.rs:570-595 | A payout keeps all laws |
| InsurancePoolInvariant.ConfigInv | soroban/src/insurance_pool.rs:148-269 | Configuration calls keep all laws |
| InsurancePoolAmounts.SaleExact | soroban/src/insurance_pool.rs:402-447 | There is a b, coverage times rate over 10 000 rounded down, and a premium q, b times (10 000 + risk) times 800, 1 000 or 1 400 by tier over 10^8 rounded down; the sale completes if and only if the coverage is positive, the offer reaches q and all coverage times 10 000 is at most the stake times 5 000, 7 000 or 8 500; then q is collected, the coverage active, and the accumulator up by q times 10^9 over the stake rounded down |
| InsurancePoolAmounts.PremiumRises | soroban/src/insurance_pool.rs:770-784 | A premium never falls as coverage, rate, risk score or tier rise |
| InsurancePoolAmounts.StakeAmounts | soroban/src/insurance_pool.rs:272-290 | When staking completes, and that both totals and the position rise by the amount |
| InsurancePoolAmounts.RequestTerms | soroban/src/insurance_pool.rs:293-337 | When a request completes; its amount moves from stake to queue and it unlocks after the configured delay |
| InsurancePoolAmounts.ExecuteAmounts | soroban/src/insurance_pool.rs:340-385 | An executed request leaves liquidity, queue and position, and no stake |
| InsurancePoolAmounts.SubmitExact | soroban/src/insurance_pool.rs:450-487 | A claim is taken if and only if it is positive, within active coverage, within the absolute cap, within the share of liquidity (cross-multiplied) and at least the cooldown after the claimant's last (795-829), zero switching each of the last three off |
| InsurancePoolAmounts.CooldownCounts | soroban/src/insurance_pool.rs:832-837 | On every run the time the cooldown counts from is that of the claimant's last accepted claim in the pool |
| InsurancePoolAmounts.SlashExact | soroban/src/insurance_pool.rs:506-543 | A rejection takes from the position and from both pool totals the smaller of the stake and claim times share over 10 000 rounded down, and records it |
| InsurancePoolAmounts.ReviewExact | soroban/src/insurance_pool.rs:490-504 | When a review completes, and what a valid one changes |
| InsurancePoolAmounts.ApproveExact | soroban/src/insurance_pool.rs:546-567 | When an approval completes, and that the claim is approved once signatures reach the threshold |
| InsurancePoolAmounts.PayoutAmounts | soroban/src/insurance_pool.rs:570-595 | When a payout completes, and that the amount moves from liquidity and coverage into the payouts |
| InsurancePoolAmounts.ConfigurationExact | soroban/src/insurance_pool.rs:148-269 | The bounds of thresholds, rates, scores and limits, and the terms of a new pool |
| InsurancePoolContract.Contract.constructor | soroban/src/insurance_pool.rs:123-145 | Initial governance of one approver, threshold one and a day's delay |
| InsurancePoolContract.Contract.ConfigureGovernance | soroban/src/insurance_pool.rs:148-172 | Panics unless 1 ≤ threshold ≤ number of approvers |
| InsurancePoolContract.Contract.CreatePool | soroban/src/insurance_pool.rs:175-225 | A new pool with defaults, or new rates for an old one |
| InsurancePoolContract.Contract.SetRiskScore | soroban/src/insurance_pool.rs:228-239 | Replaces the risk score within its bound |
| InsurancePoolContract.Contract.ConfigureClaimLimits | soroban/src/insurance_pool.rs:246-269 | Replaces the claim limits within their bounds |
| InsurancePoolContract.Contract.StakeLiquidity | soroban/src/insurance_pool.rs:272-290 | Sync, both totals, new debt |
| InsurancePoolContract.Contract.RequestWithdrawal | soroban/src/insurance_pool.rs:293-337 | Sync, stake to queue, numbered request with its unlock time |
| InsurancePoolContract.Contract.ExecuteWithdrawal | soroban/src/insurance_pool.rs:340-385 | All guards in order, then liquidity, queue, position and request together |
| InsurancePoolContract.Contract.PurchaseCoverage | soroban/src/insurance_pool.rs:402-447 | Charges the computed premium, never more than was offered, under the tier's cap |
| InsurancePoolContract.Contract.SubmitClaim | soroban/src/insurance_pool.rs:450-487 | Coverage, caps (795-810) and per-claimant cooldown (813-829), then a numbered claim |
| InsurancePoolContract.Contract.VerifyClaim | soroban/src/insurance_pool.rs:490-543 | A submitted claim becomes verified, or rejected with a slash |
| InsurancePoolContract.Contract.RejectClaim | soroban/src/insurance_pool.rs:506-543 | The slash of stake and both totals, capped at the claimant's stake |
| InsurancePoolContract.Contract.IsApprover | soroban/src/insurance_pool.rs:744-752 | The scan finds an address if and only if it is listed |
| InsurancePoolContract.Contract.ApproveClaim | soroban/src/insurance_pool.rs:546-567 | One approval per approver; approved once the threshold is met |
| InsurancePoolContract.Contract.ExecutePayout | soroban/src/insurance_pool.rs:570-595 | Liquidity and coverage fall, payout total rises, claim becomes paid |
| InsurancePoolContract.Contract.ClaimPremium | soroban/src/insurance_pool.rs:598-611 | The amount returned is the rise of the claimed premium |
| RateLimiterBounds.IntervalBound | soroban/src/rate_limiter.rs:455-587 | For every counter (value or count of a user per day, week, month; global value per day, week) and every half-open interval as long as its window, what any run allows there is at most 2L when every limit applied there is at most L |
| RateLimiterBounds.RunWithin | soroban/src/rate_limiter.rs:455-587 | The induction behind it: at most two windows meet the interval, each charged at most L there |
| RateLimiterBounds.StepWindow | soroban/src/rate_limiter.rs:1019-1029 | Every call leaves a counter's window alone, stores it restarted, or charges it within the limit in force; breaches, clearances and unpersisted decays included |
| RateLimiterBounds.StepWithin | soroban/src/rate_limiter.rs:1019-1029 | How one call moves the split of an interval between its first and second window |
| RateLimiterBounds.SplitAddsUp | soroban/src/rate_limiter.rs:455-587 | The two parts always add up to what was allowed in the interval |
| RateLimiterChecks.TwiceTheLimitReached | soroban/src/rate_limiter.rs:455-587 | A concrete run that passes twice the daily limit within two seconds: the factor two cannot be improved |
| RateLimiterChecks.ConsumeIsCheckAndMore | soroban/src/rate_limiter.rs:388-444 | A consume (455-587) is allowed if and only if `check_limit` says so, the amount is positive, and the weekly and monthly counts and global values it skips hold as well |
| RateLimiterChecks.CheckPassesConsumeFails | soroban/src/rate_limiter.rs:388-444 | A concrete run after which the check allows a transfer that a consume at the same moment rejects for the weekly count |
| RateLimiterChecks.BreachIffExceeded | soroban/src/rate_limiter.rs:494-532 | The six user checks pass if and only if recording the amount leaves all six counters within the limits in force, and otherwise name the first, values before counts and day before week before month, that recording it would exceed |
| RateLimiterChecks.StepKeepsCooldown | soroban/src/rate_limiter.rs:455-587 | Only a clearance for the same user ends a cooldown early, and a consume inside it fails without effect |
| RateLimiterChecks.CooldownHolds | soroban/src/rate_limiter.rs:1132-1157 | After a user breach at t every consume of that user fails without effect until t plus the cooldown then configured, over any run without a clearance |
| RateLimiterChecks.FactorFalls | soroban/src/rate_limiter.rs:1049-1061 | More risk never raises the adjustment factor, which lies between 5 000 and 12 000 |
| RateLimiterChecks.FactorsBounded | soroban/src/rate_limiter.rs:699-727 | In every reachable state every stored factor is at most 12 000 |
| RateLimiterChecks.AdjustedBounds | soroban/src/rate_limiter.rs:1068-1129 | In every reachable state an adjusted limit lies between 1 and 3.6 times its base |
| RateLimiterWindows.BoundByWindowFound | soroban/src/rate_limiter.rs:455-587 | On every run, by the window in storage when an interval of its length begins: what passes there is at most what that window has left (none if it has expired) plus, unless it began in the interval, one full limit; so L itself is the bound whenever the window is absent, expired, began at the start or is used up |
| RateLimiterWindows.WindowRuleExact | soroban/src/rate_limiter.rs:1019-1029 | For the window rule alone (decay, then the limit test): that amount is the most any sequence of transfers inside the interval passes, it is reached, and L bounds every such sequence if and only if no window with room left was open before the interval |
| RateLimiterWindows.MostWithinLimitIff | soroban/src/rate_limiter.rs:1019-1029 | The most is at most L exactly then, and otherwise 2L less what the open window had used |
| RateLimiterWindows.PlanTakesMost | soroban/src/rate_limiter.rs:1019-1029 | The sequence that takes the most: the rest of the open window at once, then a full limit the moment the next can start |
| RateLimiterWindows.RunSince | soroban/src/rate_limiter.rs:455-587 | Along every run, what has passed since the interval began, split by the window it passed in |
| RateLimiterLimits.EffectiveExact | soroban/src/rate_limiter.rs:1068-1129 | The limits applied: each value limit is the base (custom, else default), doubled for the whitelist, times the stored factor over 10 000 rounded down, times 10 000 plus the bonus over 10 000 rounded down, but at least one; each count limit is the base, doubled for the whitelist |
| RateLimiterLimits.TenureExact | soroban/src/rate_limiter.rs:1099-1117 | The bonus is 500 for each whole thirty days since first activity, at most 5 000 |
| RateLimiterLimits.ValueLimitUnique | soroban/src/rate_limiter.rs:1068-1129 | That description fixes the value limit |
| RateLimiterLimits.RiskUpdateExact | soroban/src/rate_limiter.rs:699-727 | An update stores score, time and the factor of the score: 12 000 up to 2 000, 5 000 from 7 000, on the straight line between; breaches stay; a score above 10 000 changes nothing |
| RateLimiterLimits.FactorOfLastScore | soroban/src/rate_limiter.rs:1049-1061 | On every run a user's factor is that of the last accepted score, 10 000 without one |
| RateLimiterLimits.AllowedExact | soroban/src/rate_limiter.rs:534-587 | An allowed transfer is charged once on each of the five windows, restarted first if they have run their length, and on the lifetime totals; nothing else changes |
| RateLimiterLimits.RejectionExact | soroban/src/rate_limiter.rs:1132-1157 | A broken user limit starts the configured cooldown and counts one breach; a broken global limit changes nothing |
| RateLimiterLimits.BreachStoresWindows | soroban/src/rate_limiter.rs:486-492 | A breach stores the windows as the transfer found them |
| RateLimiterLimits.CheckExact | soroban/src/rate_limiter.rs:388-444 | The check reports what is left of each value limit and of the daily count, and allows what fits |
| RateLimiterLimits.ReductionExact | soroban/src/rate_limiter.rs:821-860 | An emergency cut takes its share off each default value limit, rounded down, leaving at least one |
| RateLimiterLimits.ClearanceExact | soroban/src/rate_limiter.rs:880-890 | A clearance sets the cooldown to zero and keeps the rest of the record |
| RateLimiterLimits.SettingsExact | soroban/src/rate_limiter.rs:594-877 | Which limits, scores and flags are accepted, and that an anomaly score of 8 000 trips the breaker |
| RateLimiterLimits.InitialLimits | soroban/src/rate_limiter.rs:314-380 | The limits before anyone sets any |
| RateLimiterLimits.WhitelistAllowsMore | soroban/src/rate_limiter.rs:1081-1089 | A concrete run on which a listed user sends one and a half times the default daily limit at once |
| RateLimiterContract.Contract.constructor | soroban/src/rate_limiter.rs:314-380 | The initial limits and empty windows |
| RateLimiterContract.Contract.ComputeEffectiveLimits | soroban/src/rate_limiter.rs:1068-1129 | Whitelist, risk factor, tenure and minimum in sequence give the specified limits |
| RateLimiterContract.Contract.TenureBonus | soroban/src/rate_limiter.rs:1099-1117 | The tenure bonus, never above its maximum |
| RateLimiterContract.Contract.HandleBreach | soroban/src/rate_limiter.rs:1132-1157 | Decayed windows stored, cooldown started, breach counted |
| RateLimiterContract.Contract.ConsumeLimit | soroban/src/rate_limiter.rs:455-587 | Result and new state of a consume, rejections with their side effects |
| RateLimiterContract.Contract.ConsumeGlobal | soroban/src/rate_limiter.rs:534-587 | Global check, then all five windows charged together or nothing |
| RateLimiterContract.Contract.UpdateRiskScore | soroban/src/rate_limiter.rs:699-727 | Score, factor and time; the breach count stays |
| RateLimiterContract.Contract.EmergencyReduceLimits | soroban/src/rate_limiter.rs:821-860 | Default value limits cut in proportion, never below one |
| RateLimiterContract.Contract.ClearCooldown | soroban/src/rate_limiter.rs:880-890 | Ends one user's cooldown and nothing else |
| RateLimiterContract.Contract.Administer | soroban/src/rate_limiter.rs:594-877 | The remaining administrative calls: argument checks, then one setting replaced |
| IntegerRoot.Isqrt | soroban/src/governance.rs:1015-1026 | The unsigned Newton loop ends and returns the floor of the square root |
| IntegerRoot.IsqrtSigned | soroban/src/liquidity_pool.rs:768-783 | The signed loop: zero for n ≤ 0, else the floor of the square root |
| IntegerRoot.Descend | soroban/src/governance.rs:1018-1025 | Newton's iteration from n ends at the root, never below it |
| IntegerRoot.Root | soroban/src/governance.rs:1015-1026 | The number r with r² ≤ n < (r+1)² |
| IntegerRoot.RootUnique | soroban/src/governance.rs:1015-1026 | There is only one such number |
| IntegerRoot.NewtonStaysAbove | soroban/src/liquidity_pool.rs:768-783 | A Newton step from any positive number does not fall below the root |
| IntegerRoot.RootSubadditive | soroban/src/governance.rs:458-465 | Quadratic weight is subadditive: the root of a sum is at most the sum of the roots, so splitting power never loses weight |
| GovernancePower.PowerConserved | soroban/src/governance.rs:306-332 | On every run that never sets the power of an address with a live delegation: effective powers sum to the total supply and each delegate's received power is the sum of the raw powers delegated to it |
| GovernancePower.EffectiveIsSupply | soroban/src/governance.rs:970-989 | Under the invariant effective powers sum to the supply |
| GovernancePower.ClampNeverFires | soroban/src/governance.rs:991-1012 | What a removed delegation takes back is covered by what its delegate received |
| GovernancePower.SetPowerKeepsTotalIff | soroban/src/governance.rs:232-253 | Setting a power keeps that total if and only if the address has no live delegation or its power does not change |
| GovernancePower.TotalBroken | soroban/src/governance.rs:232-253 | A concrete run that sets a delegator's power: the supply is thirty and effective powers sum to something else |
| GovernancePower.DelegateInv | soroban/src/governance.rs:306-326 | Delegating, also away from an earlier delegate, keeps the invariant |
| GovernancePower.RemoveDelegationInv | soroban/src/governance.rs:991-1012 | Removing a delegation keeps the invariant |
| GovernanceProposals.ProposalTrail | soroban/src/governance.rs:507-705 | On every run: a passed proposal was finalised after its voting period with quorum and threshold met, in cross-multiplied form, on the ballot it still has; a queued one was finalised, then queued with the timelock then configured; an executed one was finalised, queued and executed in that order at or after its time, or was an emergency executed by a guardian on enough distinct guardian approvals |
| GovernanceProposals.TalliesAreSums | soroban/src/governance.rs:439-504 | On every run the three tallies are the sums over one record per voter, and the approval count is the number of distinct guardians that approved |
| GovernanceProposals.RoundingIsExact | soroban/src/governance.rs:507-554 | The rounded-down percentages decide exactly as the exact cross-multiplied conditions |
| GovernanceProposals.CallMoves | soroban/src/governance.rs:412-746 | Everything a call can do to an existing proposal, with the status, time and caller it needs |
| GovernanceProposals.FinalIsForever | soroban/src/governance.rs:507-746 | Failed, executed and cancelled proposals never change again |
| GovernanceProposals.VotesAreForever | soroban/src/governance.rs:439-504 | A recorded vote is never changed or withdrawn |
| GovernanceProposals.VoteCounted | soroban/src/governance.rs:439-504 | A vote enters exactly one tally of one proposal with its recorded weight |
| GovernanceProposals.ApproveInv | soroban/src/governance.rs:619-649 | An approval counts each guardian once |
| GovernanceTerms.VoteExact | soroban/src/governance.rs:439-504 | A vote completes if and only if the proposal is active and within its period, the voter has not voted and has power, its own unless delegated plus power received; the record has the choice, time, that power, and as weight the power or under quadratic voting the w with w² ≤ power < (w+1)²; exactly the named tally rises by it |
| GovernanceTerms.VoteTrail | soroban/src/governance.rs:439-504 | Every record of every run was put there by such a call, with the power and rule of that moment |
| GovernanceTerms.CreationExact | soroban/src/governance.rs:336-409 | A proposal needs power of at least the deposit, starts after the delay and ends one period later |
| GovernanceTerms.LifecycleExact | soroban/src/governance.rs:412-746 | Exactly when activation, finalisation, queueing, execution, guardian execution and cancellation complete, and what they set; a finalised proposal passes if and only if quorum and threshold hold cross-multiplied |
| GovernanceTerms.DelegationExact | soroban/src/governance.rs:306-326 | Delegating moves exactly the delegator's own power, away from the delegate before |
| GovernanceTerms.PowerCallsExact | soroban/src/governance.rs:232-253 | Setting a power moves the supply by the difference; a negative one panics |
| GovernanceTerms.GuardiansExact | soroban/src/governance.rs:257-301 | Guardians join and leave one at a time and approve once per proposal (619-649) |
| GovernanceTerms.ConfigurationExact | soroban/src/governance.rs:1037-1053 | Which configurations are accepted |
| GovernanceContract.Contract.constructor | soroban/src/governance.rs:170-227 | The empty state with a valid configuration |
| GovernanceContract.Contract.SetVotingPower | soroban/src/governance.rs:232-253 | Power and supply together; a negative power panics |
| GovernanceContract.Contract.AddGuardian | soroban/src/governance.rs:257-278 | Counts a guardian once |
| GovernanceContract.Contract.RemoveGuardian | soroban/src/governance.rs:280-301 | Removes and uncounts a guardian that is one |
| GovernanceContract.Contract.RemoveDelegationInternal | soroban/src/governance.rs:991-1012 | Takes back the raw power, clamped at zero, and forgets the delegation |
| GovernanceContract.Contract.DelegateVotes | soroban/src/governance.rs:306-326 | Removes an old delegation, then credits the new delegate; to oneself panics |
| GovernanceContract.Contract.UndelegateVotes | soroban/src/governance.rs:329-332 | Removes a delegation if there is one |
| GovernanceContract.Contract.CreateProposal | soroban/src/governance.rs:336-409 | Needs power for the deposit; appends a numbered pending proposal with its voting period |
| GovernanceContract.Contract.ActivateProposal | soroban/src/governance.rs:412-437 | Pending to active from the start time |
| GovernanceContract.Contract.CastVote | soroban/src/governance.rs:439-504 | One vote per voter within the period, weighted by the root if quadratic |
| GovernanceContract.Contract.FinalizeProposal | soroban/src/governance.rs:507-554 | Active to passed or failed after the end |
| GovernanceContract.Contract.QueueProposal | soroban/src/governance.rs:557-582 | Passed to queued with its execution time |
| GovernanceContract.Contract.ExecuteProposal | soroban/src/governance.rs:585-615 | Queued to executed once the timelock has run |
| GovernanceContract.Contract.GuardianApprove | soroban/src/governance.rs:619-649 | One approval per guardian and proposal |
| GovernanceContract.Contract.GuardianExecute | soroban/src/governance.rs:652-705 | Guardian, approvals, emergency kind and open status, then executed |
| GovernanceContract.Contract.CancelProposal | soroban/src/governance.rs:708-746 | Proposer or admin, open status only |
| GovernanceContract.Contract.UpdateConfig | soroban/src/governance.rs:750-892 | Replaces a valid configuration |
| MerkleProofs.EveryLeafVerifies | soroban/src/bridge_reserve_verifier.rs:539-565 | For every hash, depth and leaf of a perfect tree the sibling path is accepted, under every index equal to the leaf's modulo 2^depth |
| MerkleProofs.ProofsBind | soroban/src/bridge_reserve_verifier.rs:539-565 | Two accepted proofs of equal path length and equal index modulo 2^length against one root have the same leaf and path, or two different 64-byte inputs with the same hash are computed from them |
| MerkleProofs.AcceptedMeansMember | soroban/src/bridge_reserve_verifier.rs:539-565 | What an accepted proof proves at every path length, unless it yields a collision: as long as the tree is deep, its leaf is the one at its index; shorter, it is the inner node that its length and index name; longer, its first steps climb to the leaf that the remaining index names |
| MerkleProofs.EveryNodeVerifies | soroban/src/bridge_reserve_verifier.rs:539-565 | Every node of every height, not only a leaf, is accepted with its own shorter path |
| MerkleProofs.AcceptedMeansNode | soroban/src/bridge_reserve_verifier.rs:539-565 | An accepted proof no longer than the tree is deep has the leaf and path of the node at its length and index, or yields a collision |
| MerkleProofs.AcceptedMeansLeafIff | soroban/src/bridge_reserve_verifier.rs:539-565 | Every accepted proof of length n is of a leaf (or yields a collision) if and only if all nodes n steps below the root are themselves leaves, so at full length always |
| MerkleProofs.LongerProofs | soroban/src/bridge_reserve_verifier.rs:539-565 | An accepted proof longer than the tree is deep hashes up to a leaf of the tree, or yields a collision |
| MerkleProofs.ExtractWorks | soroban/src/bridge_reserve_verifier.rs:539-565 | The extraction is right: it reports equality only of equal proofs and otherwise a real collision |
| MerkleProofs.IndexModulo | soroban/src/bridge_reserve_verifier.rs:547-560 | Only as many low bits of the index matter as the path is long |
| MerkleProofs.PathFolds | soroban/src/bridge_reserve_verifier.rs:539-565 | The sibling path of a leaf folds to the root of its tree |
| MerkleProofs.PairInjective | soroban/src/bridge_reserve_verifier.rs:549-558 | The 64 bytes hashed at a level determine node and sibling |
| ReserveVerifierTerms.CommitExact | soroban/src/bridge_reserve_verifier.rs:216-273 | A commitment needs an active operator and non-negative reserves, and stores root, amount, time and ledger under the next number |
| ReserveVerifierTerms.RegisterExact | soroban/src/bridge_reserve_verifier.rs:158-213 | A bridge registers once, with at least the minimum stake |
| ReserveVerifierTerms.VerifyExact | soroban/src/bridge_reserve_verifier.rs:277-321 | A commitment advances if and only if the proof is accepted and it is pending after its window |
| ReserveVerifierTerms.ChallengeExact | soroban/src/bridge_reserve_verifier.rs:362-414 | A challenge completes if and only if the commitment is pending inside its window, and counts if and only if the proof fails |
| ReserveVerifierTerms.ResolveExact | soroban/src/bridge_reserve_verifier.rs:418-458 | A challenged commitment is resolved, or slashed with its operator's stake, count and activity |
| ReserveVerifierTerms.ConfigurationExact | soroban/src/bridge_reserve_verifier.rs:130-156 | An update refuses negative amounts |
| ReserveVerifier.RunSequenced | soroban/src/bridge_reserve_verifier.rs:216-273 | On every run a bridge's commitments are numbered 1 to the latest without gaps, and exist only for registered bridges, each registered once |
| ReserveVerifier.CommitmentsEndure | soroban/src/bridge_reserve_verifier.rs:216-458 | Over any run a commitment's root, amount and date never change, and verified, resolved and slashed are final |
| ReserveVerifier.CommitmentTrail | soroban/src/bridge_reserve_verifier.rs:277-458 | On every run: a verified commitment was never challenged and met an accepted proof after its window; a challenged one met a rejected proof inside it; a resolved or slashed one was challenged first and then judged so |
| ReserveVerifier.CallMoves | soroban/src/bridge_reserve_verifier.rs:277-458 | Everything a call can do to an existing commitment |
| ReserveVerifier.OperatorsOnlyFall | soroban/src/bridge_reserve_verifier.rs:507-535 | From an initial configuration without negative amounts, over any run and any further run: stakes stay non-negative and never rise, change only with a counted slash, and an inactive operator stays inactive |
| ReserveVerifier.OperatorMoves | soroban/src/bridge_reserve_verifier.rs:507-535 | Under any configuration a call leaves an operator alone or slashes it once, by the configured amount or all it has; an inactive operator can commit nothing |
| ReserveVerifier.StakesFallIff | soroban/src/bridge_reserve_verifier.rs:99-128 | Stakes fall on every run if and only if the contract was initialised with non-negative slash amount and minimum stake, which `initialize`, unlike `update_config`, does not check |
| ReserveVerifier.SlashThatPays | soroban/src/bridge_reserve_verifier.rs:99-128 | A concrete run on which a slash raises a stake of 100 to 105 |
| ReserveVerifierContract.VerifyMerkleProof | soroban/src/bridge_reserve_verifier.rs:539-565 | The loop that updates node and index accepts exactly the proofs whose fold is the root |
| ReserveVerifierContract.Contract.constructor | soroban/src/bridge_reserve_verifier.rs:99-128 | The empty state with its configuration and hash |
| ReserveVerifierContract.Contract.UpdateConfig | soroban/src/bridge_reserve_verifier.rs:130-156 | Replaces the configuration, negative amounts panic |
| ReserveVerifierContract.Contract.RegisterBridge | soroban/src/bridge_reserve_verifier.rs:158-213 | Once per bridge with at least the minimum stake |
| ReserveVerifierContract.Contract.CommitReserves | soroban/src/bridge_reserve_verifier.rs:216-273 | Active operators only; the next sequence number, returned |
| ReserveVerifierContract.Contract.VerifyProof | soroban/src/bridge_reserve_verifier.rs:277-321 | The answer is the proof's own; a pending commitment advances only after its window |
| ReserveVerifierContract.Contract.BatchVerifyProofs | soroban/src/bridge_reserve_verifier.rs:324-358 | One answer per proof, in order, changing nothing |
| ReserveVerifierContract.Contract.ChallengeCommitment | soroban/src/bridge_reserve_verifier.rs:362-414 | Pending, inside the window; only a failing proof challenges |
| ReserveVerifierContract.Contract.SlashOperatorInternal | soroban/src/bridge_reserve_verifier.rs:507-535 | The stake falls, the slash is counted, activity is reviewed |
| ReserveVerifierContract.Contract.ResolveChallenge | soroban/src/bridge_reserve_verifier.rs:418-458 | A challenged commitment is resolved, or slashed with its operator |
| RingBuffers.PushHolds | soroban/src/liquidity_pool.rs:271-281 | Writing at the head and advancing it appends to the history of which the ring holds the last entries |
| RingBuffers.ReplaceNewestHolds | soroban/src/liquidity_pool.rs:672-692 | Rewriting the newest slot rewrites the end of the history |
| RingBuffers.WalkFinds | soroban/src/liquidity_pool.rs:590-635 | Reading i steps from the start slot finds the i-th retained entry, also after wrapping |
| RingBuffers.NewestSlot | soroban/src/liquidity_pool.rs:568-587 | The slot before the head holds the newest entry, also when the head is at zero |
| LiquidityPool.BucketsFaithful | soroban/src/liquidity_pool.rs:638-720 | With time that never decreases, buckets are distinct ascending days, every recorded day has one, and each summarises exactly the snapshots of its day: open, close, greatest and least price, sums of volume and fees, running averages |
| LiquidityPool.MergedSummarises | soroban/src/liquidity_pool.rs:672-692 | Merging one snapshot keeps a bucket truthful |
| LiquidityPool.AverageStep | soroban/src/liquidity_pool.rs:683-687 | For non-negative reserves, n·avg falls short of the sum by at most n(n−1)/2 and avg lies between the least and the greatest |
| LiquidityPool.LossBounds | soroban/src/liquidity_pool.rs:399-459 | For positive prices and a non-negative position the loss percentage lies in [0, PRECISION] with the clamp never firing, 0 ≤ current ≤ held value, net loss is their non-negative difference, and equal prices lose nothing |
| LiquidityPool.FactorBounds | soroban/src/liquidity_pool.rs:424-440 | The loss factor of any non-negative price ratio lies in [0, PRECISION] |
| LiquidityPool.RootMean | soroban/src/liquidity_pool.rs:424-440 | Twice the integer root of a product is at most the sum of its factors |
| LiquidityPoolAmounts.LossExact | soroban/src/liquidity_pool.rs:399-459 | For positive prices and a non-negative value there are r, the ratio in ten-millionths rounded down, and s with s² ≤ r·10^7 < (s+1)², and x, 2s·10^7 over 10^7 + r rounded down; the loss is 10^7 − x, holding is worth value times 10^7 + r over 2·10^7, the position that times x over 10^7, both rounded down, and the net loss is their difference |
| LiquidityPoolAmounts.NoPriceNoLoss | soroban/src/liquidity_pool.rs:409-422 | Without two positive prices the value is returned as it was |
| LiquidityPoolAmounts.FourfoldRise | soroban/src/liquidity_pool.rs:399-459 | A concrete loss: a fifth after a fourfold rise |
| LiquidityPoolAmounts.PriceExact | soroban/src/liquidity_pool.rs:240-260 | A recorded price is reserve B over reserve A in ten-millionths rounded down, zero without reserve A |
| LiquidityPoolAmounts.AverageExact | soroban/src/liquidity_pool.rs:683-687 | The running average weighs the old average by the values behind it, rounded down |
| LiquidityPoolAmounts.DayExact | soroban/src/liquidity_pool.rs:638-650 | A day begins at a multiple of 86 400 seconds |
| LiquidityPoolContract.PoolMonitor.constructor | soroban/src/liquidity_pool.rs:231-260 | Nothing recorded |
| LiquidityPoolContract.PoolMonitor.RecordPoolState | soroban/src/liquidity_pool.rs:231-309 | Ring and buckets together represent the history with one more snapshot, whatever was recorded before |
| LiquidityPoolContract.PoolMonitor.UpdateDailyBucket | soroban/src/liquidity_pool.rs:638-720 | The newest bucket of the same day is merged, any other day opens a bucket; the ring of buckets represents the result |
| LiquidityPoolContract.PoolMonitor.GetLatestSnapshot | soroban/src/liquidity_pool.rs:568-587 | The last snapshot recorded, also right after wrapping, or none |
| LiquidityPoolContract.PoolMonitor.GetSnapshotsInWindow | soroban/src/liquidity_pool.rs:590-635 | Exactly the last min(count, 720) snapshots filtered by timestamp, oldest first |
| LiquidityPoolContract.PoolMonitor.GetDailyHistory | soroban/src/liquidity_pool.rs:503-553 | Exactly the last min(count, 90) buckets filtered by day, oldest first |
| LiquidityPoolContract.PoolMonitor.CalculateImpermanentLoss | soroban/src/liquidity_pool.rs:399-459 | The loss against the last recorded price, with invalid prices giving zero |
| WindowFilters.WithinPicks | soroban/src/liquidity_pool.rs:590-635 | The filter is an order-preserving selection: the entries at an ascending list of positions that are exactly those stamped in the window, equal stamps in their original order |
| WindowFilters.PicksAreWithin | soroban/src/liquidity_pool.rs:590-635 | Any order-preserving selection of exactly those entries is the filter's result |
| LiquidityPoolContract.HistoryIsFaithful | soroban/src/liquidity_pool.rs:503-553 | With time that never decreases, a daily history has ascending days of its window, each summarising all snapshots of its day, and misses no recorded day of the window unless more than 90 days were recorded and it is older than those kept |
| EscrowConservation.EscrowConserved | escrow_contract/src/lib.rs:433-987 | On every run from initialisation: what left an escrow reaches amount − fee if and only if it is released or refunded; it stays within that if and only if every completed emergency recovery of it was of an unrefunded escrow and left the fee, in particular whenever there was none; accrued plus collected fees are the sum of all fees; a resolved dispute has exactly the required number of pairwise distinct approvers |
| EscrowConservation.BoundIffCareful | escrow_contract/src/lib.rs:900-944 | The bound holds after a run if and only if each recovery of the escrow was careful in the state it met |
| EscrowConservation.RunInv | escrow_contract/src/lib.rs:433-987 | The per-escrow books, disputes and fee account hold over every run, emergency recoveries included |
| EscrowConservation.CallInv | escrow_contract/src/lib.rs:433-987 | Every call keeps them |
| EscrowConservation.RecoveryKeepsBoundIff | escrow_contract/src/lib.rs:900-944 | In every reachable state a recovery leaves the payout within amount − fee if and only if it was within before, the escrow is not refunded and the amount leaves the fee |
| EscrowConservation.RecoveryPaysTwice | escrow_contract/src/lib.rs:900-944 | A concrete run, refund then recover, on which an escrow of 100 pays out 200 |
| EscrowConservation.PaidOnlyWhenUnlocked | escrow_contract/src/lib.rs:679-801 | Only a release of a pending, verified escrow at or after its lock pays a recipient, never more than is left; locks only move later; parties, amount and fee never change |
| EscrowConservation.NothingBeforeTheLock | escrow_contract/src/lib.rs:688-757 | Over any run whose releases all come before an escrow's lock, nothing is paid to its recipient |
| EscrowConservation.ReleaseInv | escrow_contract/src/lib.rs:688-757 | A release keeps the books |
| EscrowConservation.ReleaseEachInv | escrow_contract/src/lib.rs:759-801 | A batch, repeated ids included, keeps the books |
| EscrowConservation.RefundInv | escrow_contract/src/lib.rs:803-859 | A refund pays exactly what is left and keeps the books |
| EscrowConservation.ResolveInv | escrow_contract/src/lib.rs:603-677 | A resolution step keeps approvers distinct and resolves exactly at the required number |
| EscrowConservation.ChallengeInv | escrow_contract/src/lib.rs:553-601 | A challenge keeps the books |
| EscrowConservation.CreateInv | escrow_contract/src/lib.rs:433-514 | A new escrow's fee is less than its amount and enters the fee account |
| EscrowConservation.ReleaseEachSteps | escrow_contract/src/lib.rs:759-801 | What a batch can do to any one escrow |
| EscrowTerms.CreationExact | escrow_contract/src/lib.rs:433-514 | When a creation completes; the fee is the configured share rounded down and the lock is now plus the period set for bridge and asset, an hour if none is |
| EscrowTerms.ReleaseExact | escrow_contract/src/lib.rs:688-757 | Exactly when a release completes, and that it pays its amount and closes the escrow if and only if nothing is left |
| EscrowTerms.RefundExact | escrow_contract/src/lib.rs:803-859 | Exactly when a refund completes: pending and never verified, or challenged with a dispute resolved against release; it pays back all that is left beside the fee |
| EscrowTerms.ResolutionExact | escrow_contract/src/lib.rs:603-677 | Exactly when a resolution step completes, whose decision and number it follows, and that only a resolved release reopens the escrow |
| EscrowTerms.ChallengeExact | escrow_contract/src/lib.rs:553-601 | Exactly when a challenge completes |
| EscrowTerms.RecoveryExact | escrow_contract/src/lib.rs:900-944 | Exactly when a recovery completes, and what it leaves |
| EscrowTerms.SmallCallsExact | escrow_contract/src/lib.rs:516-551 | Exactly when verification, lock extension (861-898) and fee collection (946-987) complete, and what they change |
| EscrowTerms.SettingsExact | escrow_contract/src/lib.rs:272-347 | Which lock periods, fees and approvers are accepted |
| EscrowContract.Contract.constructor | escrow_contract/src/lib.rs:234-270 | The empty state with valid fee and approvers |
| EscrowContract.Contract.Configure | escrow_contract/src/lib.rs:272-347 | The configuration calls: one setting replaced, or the contract's error |
| EscrowContract.Contract.CreateEscrow | escrow_contract/src/lib.rs:433-514 | Guards in order, fee, lock from the configured period, numbered escrow |
| EscrowContract.Contract.SyncVerification | escrow_contract/src/lib.rs:516-551 | Only the escrow's verifier, only while open |
| EscrowContract.Contract.ChallengeEscrow | escrow_contract/src/lib.rs:553-601 | Only pending escrows inside the lock, once |
| EscrowContract.Contract.ContainsAddr | escrow_contract/src/lib.rs:1095-1102 | The scan finds an address if and only if it is listed |
| EscrowContract.Contract.ResolveChallenge | escrow_contract/src/lib.rs:603-677 | First approver fixes the decision and the required number; a release decision reopens the escrow |
| EscrowContract.Contract.ReleaseEscrow | escrow_contract/src/lib.rs:688-757 | All guards in order, then amount and status, or the contract's error unchanged |
| EscrowContract.Contract.BatchRelease | escrow_contract/src/lib.rs:759-801 | Releases in turn; the first error undoes all of them |
| EscrowContract.Contract.RefundEscrow | escrow_contract/src/lib.rs:803-859 | All guards in order, then the rest to the depositor |
| EscrowContract.Contract.ExtendLock | escrow_contract/src/lib.rs:861-898 | Moves an open escrow's lock later |
| EscrowContract.Contract.EmergencyRecover | escrow_contract/src/lib.rs:900-944 | Only while paused; raises the released amount, whatever the status |
| EscrowContract.Contract.CollectFees | escrow_contract/src/lib.rs:946-987 | Only the collector, only what has accrued |
| AssetRanking.RankingIgnoresInputOrder | soroban/src/asset_ranking.rs:153-212 | Any reordering of the inputs gives the identical ranking |
| AssetRanking.SortedUnique | soroban/src/asset_ranking.rs:176-201 | A multiset of records has one sorted arrangement when equal keys mean equal records |
| AssetRanking.ComputeAllRankings | soroban/src/asset_ranking.rs:153-212 | Score, insertion sort and numbering give a permutation of the scored inputs, by score descending then code ascending, ranked 1 to n |
| AssetRanking.RankedScores | soroban/src/asset_ranking.rs:153-212 | Every place of a ranking is held by an input with its code and with score health, stability and liquidity each times its own weight over 100 rounded down, and every input holds a place |
| AssetRanking.InsertionSort | soroban/src/asset_ranking.rs:176-201 | The sort in place orders the array and permutes it |
| AssetRanking.Insert | soroban/src/asset_ranking.rs:179-201 | One round: lift, shift, place, keeping the multiset |
| AssetRanking.ScoreIsMean | soroban/src/asset_ranking.rs:123-144 | With weights summing to 100 a score lies between the least and the greatest input score, so inputs ≤ 100 give scores ≤ 100 |
| AssetRanking.SetWeights | soroban/src/asset_ranking.rs:82-111 | Weights are stored if and only if they sum to 100 |
| AssetRanking.LessTrichotomy | soroban/src/asset_ranking.rs:184-192 | The code order decides any two different codes one way |
| AssetRanking.LessTransitive | soroban/src/asset_ranking.rs:184-192 | The code order is transitive |
| AssetRanking.AheadOrder | soroban/src/asset_ranking.rs:184-192 | Score then code is a strict weak order whose ties are equal keys |
| EventLog.PagesComplete | soroban/src/event_query.rs:162-192 | Repeating the query from the last key + 1 until it reports no more ends and returns every matching event of an unchanged log exactly once, in order, for every limit |
| EventLog.QueryExact | soroban/src/event_query.rs:162-192 | There is an ascending list of positions that are exactly the entries at or past the cursor with the type and subject asked for; the result has the first of them up to the limit (50 if none is given, at most 100), their full number, and whether it had to stop |
| EventLog.MatchingSelects | soroban/src/event_query.rs:97-112 | The matches are the entries at those positions, in order |
| EventLog.RetainedAscends | soroban/src/event_query.rs:115-157 | With time below 2^32 that never decreases, the retained log is in strictly increasing key order |
| EventLog.KeysAscendIff | soroban/src/event_query.rs:133 | Keys of consecutive numbers increase if and only if the low 32 bits of the time do not fall |
| EventLog.KeysWrap | soroban/src/event_query.rs:133 | At the 32-bit boundary of the time the later event sorts first |
| EventLog.MatchingMembers | soroban/src/event_query.rs:97-112 | The matches are exactly the entries at or past the cursor with the wanted type and asset, in order |
| EventLog.MatchingAfter | soroban/src/event_query.rs:162-192 | A cursor just past a match leaves exactly the matches after it |
| EventLog.ReplayLog.constructor | soroban/src/event_query.rs:77-82 | An empty log |
| EventLog.ReplayLog.AppendEvent | soroban/src/event_query.rs:115-157 | The log stays the last min(n, 1000) of all events, the new one numbered and keyed; a number beyond 32 bits panics unchanged |
| EventLog.ReplayLog.QueryEvents | soroban/src/event_query.rs:162-192 | Up to the effective limit of the matches, the full count, and whether there are more |
| EventLog.ReplayLog.GetReplayPage | soroban/src/event_query.rs:195-216 | The first entries at or past a key; a limit above 100 panics |
| AssetRegistry.RegistryAgrees | soroban/src/asset_registry.rs:368-880 | On every run each status and category index is duplicate-free and holds exactly the registered codes with that value; each version list is the contiguous last min(50, version) snapshots ending in the current record |
| AssetRegistry.CallInv | soroban/src/asset_registry.rs:368-880 | Every call keeps that agreement |
| AssetRegistry.VersionsNumbered | soroban/src/asset_registry.rs:1392-1430 | Entry i of a version list carries its own number and is the snapshot saved under it |
| AssetRegistry.DeprecatedForever | soroban/src/asset_registry.rs:628-678 | Over any run an asset stays registered, its version only grows, and once deprecated it stays deprecated with its texts frozen |
| AssetRegistry.CallFollows | soroban/src/asset_registry.rs:504-880 | What one call can do to a record |
| AssetRegistry.RegisterInv | soroban/src/asset_registry.rs:368-493 | Registration enters list, both indexes and the first version together |
| AssetRegistry.StatusInv | soroban/src/asset_registry.rs:628-826 | A status change moves the code between status lists and saves a version |
| AssetRegistry.CategoryInv | soroban/src/asset_registry.rs:544-578 | A category change moves the code between category lists and saves a version |
| AssetRegistry.PlainSaveInv | soroban/src/asset_registry.rs:504-541 | A save that changes neither keeps every index |
| AssetRegistry.MovedHolds | soroban/src/asset_registry.rs:1433-1465 | Out of one list and into another: the target gains the code, the source loses it, the others stay, also when both are the same |
| AssetRegistry.RemovedEffect | soroban/src/asset_registry.rs:1451-1465 | The filter removes exactly one code and keeps a list duplicate-free |
| AssetRegistryTerms.RecordExact | soroban/src/asset_registry.rs:504-880 | Exactly when each call that changes a record completes, with the listed life steps (638-650), and that it changes that record alone by its own field, the version and the time |
| AssetRegistryTerms.RegistrationExact | soroban/src/asset_registry.rs:368-493 | Exactly when a registration completes, and the record it starts with |
| AssetRegistryTerms.ListsExact | soroban/src/asset_registry.rs:1084-1237 | Exactly when listing, unlisting and freezing complete, and what they change |
| AssetRegistryContract.AddToList | soroban/src/asset_registry.rs:1433-1448 | Scan, then append unless present |
| AssetRegistryContract.FilterOut | soroban/src/asset_registry.rs:1451-1465 | The rebuilt list, and whether the code was there |
| AssetRegistryContract.Contract.constructor | soroban/src/asset_registry.rs:349-360 | The empty registry |
| AssetRegistryContract.Contract.SaveWithVersion | soroban/src/asset_registry.rs:1392-1430 | Record and snapshot stored; a full list of fifty loses its oldest |
| AssetRegistryContract.Contract.RegisterAsset | soroban/src/asset_registry.rs:368-493 | Whitelist and duplicate guards, then record, list and indexes |
| AssetRegistryContract.Contract.AddToCategory | soroban/src/asset_registry.rs:1433-1448 | One category list gains the code |
| AssetRegistryContract.Contract.AddToStatus | soroban/src/asset_registry.rs:1433-1448 | One status list gains the code |
| AssetRegistryContract.Contract.UpdateMetadata | soroban/src/asset_registry.rs:504-541 | Frozen and deprecated assets refuse |
| AssetRegistryContract.Contract.UpdateCategory | soroban/src/asset_registry.rs:544-578 | Index and record together |
| AssetRegistryContract.Contract.UpdateRisk | soroban/src/asset_registry.rs:581-614 | Scores above 10 000 refuse |
| AssetRegistryContract.Contract.ChangeStatus | soroban/src/asset_registry.rs:652-678 | Index and record move together |
| AssetRegistryContract.Contract.UpdateStatus | soroban/src/asset_registry.rs:628-678 | Only the listed transitions (638-650) |
| AssetRegistryContract.Contract.DeactivateAsset | soroban/src/asset_registry.rs:709-755 | Only from active |
| AssetRegistryContract.Contract.RestoreAsset | soroban/src/asset_registry.rs:780-826 | Only from deactivated, to active |
| AssetRegistryContract.Contract.UpdateCompliance | soroban/src/asset_registry.rs:834-880 | Compliance status with a new version |
| AssetRegistryContract.Contract.WhitelistAdd | soroban/src/asset_registry.rs:1084-1112 | Refuses a code already listed |
| AssetRegistryContract.Contract.WhitelistRemove | soroban/src/asset_registry.rs:1119-1152 | Refuses a code not listed |
| AssetRegistryContract.Contract.SetFrozen | soroban/src/asset_registry.rs:1183-1237 | Freezes or unfreezes a registered asset |
| AssetRegistryContract.Contract.GetMetadataAtVersion | soroban/src/asset_registry.rs:1339-1351 | Found if and only if the asset is registered and the number is among its last fifty, and then the snapshot saved under it |

## Left out

What the model does not capture, in general:

- Authentication: `require_auth` and administrator checks count as passed; a caller who fails them is a call that does
  not happen. Comparisons with stored parties (recipient, depositor, verifier, approvers, guardians, proposer) are kept.
- One-time initialisation: a second `initialize` is a call that does not happen, and constructors require the arguments
  that `initialize` accepts.
- Events, storage lifetimes, symbols, and text that no branch reads (titles, calldata, reasons of challenges,
  verification references, policy holders).
- Machine integers: overflow and saturation at the type's bounds, and the conversion of large tallies between signed and
  unsigned types. The 64-bit ordering key of the replay log is modelled with its truncation.
- Token contracts: only the modelled contract's own balance is kept where it matters, transfers into it are taken as paid,
  and its users and treasury are taken to be other accounts.

By contract:

- Fee distribution: the list of authorised collectors, the treasury address, stake times and the distribution records.
- `FeeDistributionContract.Contract.CollectFees`: does not check the collector against the list, which is taken as authentication.
- `FeeDistributionContract.Contract.DistributePool`: does not append the distribution record, which only a view reads.
- `FeeDistributionContract.Contract.StakeForFees`: does not store the time of the first stake, which nothing reads.
- Fee distribution: nothing is claimed about the balance of the staking token, because compounding adds fee-token rewards
  to the staking-token stake (`soroban/src/fee_distribution.rs:550-560`).
- `FeeDistributionTheorems.Solvency`: states the bound with one unit per debt reset, because without it the claim is false.
- Insurance pool: policies themselves; coverage within the cap after withdrawals and full backing of stakes by liquidity
  are not claimed, because requests do not check the cap and payouts do not reduce stakes.
- Insurance pool: `quote_premium`, which evaluates the same premium without effect.
- Rate limiter: `cross_contract_check`, which is `check_limit` under another name.
- `RateLimiterContract.Contract.ConsumeLimit`: does not append to the daily usage history, which no limit reads.
- `RateLimiterContract.Contract.ConsumeGlobal`: does not append to the daily usage history either.
- `RateLimiterContract.Contract.Administer`: keeps of the circuit breaker only whether it is tripped, not score, time or count.
- `RateLimiterBounds.IntervalBound`: bounds by twice the limit, because once the limit is false; `RateLimiterWindows` has the exact amount.
- Governance: deposits are compared, never moved, as in the source; tallies are not bounded by the supply, because power is
  read at the vote and can be delegated on afterwards.
- `GovernancePower.PowerConserved`: excludes setting the power of an address with a live delegation, because the total then changes.
- Reserve verifier: SHA-256 is an arbitrary function from bytes to 32-byte digests, so binding is shown by handing over a
  collision, and nothing is assumed about the function.
- Liquidity pool: window metrics, the depth score and the significant-change event.
- `LiquidityPoolContract.PoolMonitor.RecordPoolState`: one object per monitored pool stands for the keyed storage, so the
  list of registered pools is not kept.
- Escrow: the guardian and reason of the circuit breaker, kept as one flag.
- `EscrowContract.Contract.ChallengeEscrow`: keeps the set of challenged escrows, not challenger, reason and time.
- Asset registry: chain links, oracle feeds, bridge and pool associations.
- `AssetRegistryContract.Contract.RegisterAsset`: does not store the empty association lists.
- `AssetRegistryContract.Contract.UpdateCompliance`: sets the status, and does not append the compliance record.
- `AssetRegistryContract.Contract.SetFrozen`: keeps whether an asset is frozen, not who froze it, when and why.
- Asset ranking: the stored weights' version counts up in `SetWeights`, and nothing reads it.
- Event query: `to_record`, which copies fields.

Other parts of the repository:

- `multisig_treasury.rs`: reaching the threshold sets a status that execution refuses, so its lifecycle does not run.
- `reputation_system.rs`: history is written under the reputation key.
- `acl.rs`, `source_priority.rs`, `source_blessing.rs`, `operator_rotation.rs`: roles, rankings of data sources and the
  handover of operators, each a table with an authorised writer.
- `circuit_breaker.rs`, `emergency_fund_recovery.rs`, `alert_system.rs`: switches and notifications of the monitoring
  service.
- `migration.rs`, `sidecar_state.rs`, `rollup_flush.rs`, `batch_query.rs`, `report_hash.rs`, `analytics_aggregator.rs`:
  schema versions, references to off-contract state, buffering, and read-only aggregation.
- `bridge_asset_metadata.rs`, `asset_deprecation.rs`: texts of assets and pointers to their replacements.
