# StellarInsure: a verification model

StellarInsure is a parametric insurance protocol: a Soroban contract that sells
policies, takes claims and pays them along three paths (an admin, a multi-signature
ballot, an oracle quorum); a risk pool that holds liquidity and shares out yield; an
actuarial premium; a backend with an idempotent transaction store and a cached policy
listing; and a frontend that prints trigger conditions and formats amounts. This
project models that behaviour in Dafny and proves properties of it.

## How the model is built

* `Premium.dfy` is the premium, pure as in the source; `PremiumLaws.dfy` its laws.
* `Pool.dfy` is the risk pool as a value with one step per entry point,
  `PoolContract.dfy` the same contract as an object that rewrites its storage in place
  (with the distribution loop), each body proved against its step, `PoolEffects.dfy`
  what each call needs and leaves, provider by provider, and `PoolLaws.dfy` the laws of
  the steps and of whole runs.
* `Insurance.dfy` is the insurance contract as a state machine over transactions;
  `InsureContract.dfy` is the contract as an object with one field per storage key,
  each entry point proved against the machine, and `Invoke` adding the host's rollback.
  `Refusals.dfy` states for every call the first reason for which it is refused, and
  `Effects.dfy` what an accepted one leaves, both read off the stored fields and the token
  balances (`Tokens.dfy`), not off the machine's transitions.
  The laws of runs are in `Coverage.dfy` (payout ledger, coverage cap, life cycle),
  `Deployment.dfy` (the cap counted from deployment, across init),
  `LazyExpiry.dfy` (lazy against eager expiry), `Treasury.dfy` (token conservation),
  `Ballots.dfy` (multi-signature voting), `Oracles.dfy` (registry and quorum) and
  `PoolInRuns.dfy` (the pool inside runs of both contracts). `Runs.dfy` and
  `Sequences.dfy` hold shared lemmas and the vector loops.
* `Idempotency.dfy` is the transaction store as interleaved workers with crashes.
* `Listing.dfy`, `ListingLaws.dfy`, `ListingSteps.dfy` and `ListingApi.dfy` are the
  cached listing: the query and its cache keys, the laws, the same with commit and key
  deletion taken apart, and the handlers over a Redis object. `ListingEffects.dfy` states
  what each request needs, answers and leaves.
* `Conditions.dfy` is the trigger-condition printer and parser, `ConditionGrammar.dfy` the
  language it reads, stated without the parser, and `Amounts.dfy` the amount input.

Every lemma switches automatic induction off and gives its own.

Conventions. A call that returns an error or traps leaves all storage as it was, so a
pause set just before an error survives only inside an outer call that succeeds.
Unchecked i128 and u64 arithmetic traps on overflow; `HostTrap` stands for every host
abort. `require_auth` is membership in the set of addresses that authorised the
transaction. Ledger time never decreases. `Error::InvalidQuorumThreshold` and
`DataKey::OracleQuorumThreshold` are used by the contract but declared nowhere; the
model assumes they exist. The pool has no entry point that sets its own token, so the
token is fixed at construction and may be absent. Runs may also hold tokens moved by
their owners outside the two contracts, or newly issued (`MoveTokens`).

## What turned out not to hold

* "Yield is never over-allocated": contributions are not written down by
  `fund_payout`. While contributions do not exceed the liquidity no accepted
  distribution over-allocates (`BalancedNeverOverAllocates`); otherwise some accepted one
  does, provided distributing an amount equal to the liquidity stays within i128
  (`OverAllocatesIff`, an instance reached from deployment in `OverAllocationReached`).
  Without that headroom overflow can refuse every distribution that would
  (`OverflowShieldsAllocation`).
* "The votes counted belong to the claim": nothing but an accepted vote ever changes a
  ballot (`BallotKept`), so it outlives a rejection or partial approval by `process_claim`
  and stands under the next claim (`BallotSurvivesReclaim`). Approval takes
  threshold-many approvals of this claim exactly when the ballot began without approvals,
  rejection takes more of its own rejections than the admins can spare exactly when it
  began without rejections, so both hold exactly on an empty ballot
  (`OwnApprovalsNeededIff`, `OwnRejectionsNeededIff`, `OwnVotesDecideIff`).
* "A full ballot always decides": whatever happened to the admins before, once every
  current admin has voted the claim is decided if and only if some current admin was
  not on the ballot at the start (`FullBallotDecidesIff`). Removing an admin leaves a
  pending claim that no vote can decide if and only if every other admin had voted
  (`RemovalStallsIff`), even with enough approvals (`RemovalStallsBallot`).
* "The order of votes does not matter": on an open ballot it does not if and only if
  every name already on it is a current admin's (`OrderFreeIff`). With a removed
  admin's name on it, the same votes pay in one order and reject in another.
* "A rejection is forced exactly when approval is out of reach": rejections of removed
  admins are counted too, so it can be forced while approval is still reachable, exactly
  when those names make up the difference (`ForcedIffUnreachable`); then even an approving
  vote rejects (`ApprovalRejects`).
* "A policy is never paid more than its coverage": `create_policy` works before `init`,
  and `init` starts the ids again at zero, so a policy left over can be paid and then
  overwritten by a smaller one (`CapBroken`, from an empty treasury). After `init` the
  cap holds over every continuation if and only if every policy left over from before is
  cancelled, or past its end and its grace period (`CapAfterInitIff`); in particular
  when there is none. No tokens from outside are needed to break it: the holder's own
  premiums fund it (`CapBreaks`). The id count itself is exact after `init` exactly when
  no policy preceded it (`InitLedgerIff`, `PolicyLostToInit`). The pool's init forgets
  liquidity in the same way (`InitBalancesIff`, `ReachablePool`).
* "A missing price pauses the contract": asked directly, `verify_oracle_condition`
  never does (`DirectCheckNeverPauses`); an accepted evaluation leaves the contract paused
  exactly when it was, or a registered price is missing or stale, and never for one in the
  future (`EvaluationPausesIff`).
* "A retry completes the request": in every reachable state a keyed request can still be
  answered, by any interleaving of retries, exactly when it is recorded with its
  fingerprint, its key and hash are free, or a worker is about to record it
  (`AnswerableIff`). A worker that ends without an answer after committing its row, by a
  crash or by losing the key to another worker, ends that for good; one that ends
  earlier changes nothing (`EndedIsAnswerableIff`, `CrashStrands`, `RaceStrands`). A
  request without a key blocks every keyed one with its hash (`UnkeyedBlocks`).
* "The listing is fresh": the claim route under `/policies` deletes no keys; exactly
  the cached pages that show the policy go stale (`SubmitStaleIff`). The other handlers
  delete keys only after they commit: a listing served in between is answered wrongly if
  and only if the write reaches it (`HitWhileDueIff`), and only for a user with a deletion
  due (`FreshUnlessDue`). A listing whose
  query and cache write are separated by a write caches an old page if and only if that
  write reaches the listing: its filters admit the row before or after but not both, or
  the row stands on the page (`LateFillIff`, `LateFillCanBeStale`).
* "Conditions round-trip": exactly when every kept field is a word and every kept value
  is trimmed, on one line and makes no separator with the blanks around it
  (`RoundTripIff`).
* Splitting an extension does save something: at most two stroops a piece, and
  sometimes both (`SplitSavesAtMostTwo`, `SplitSavesTwo`).
* The renewal comment (smartcontract/src/lib.rs:1194-1200) says the original premium
  is collected; the code recalculates it, and the model follows the code. The
  repository's tests expect `ClaimRejected` and `ClaimApproved` after partial claims; the
  code returns such policies to `Active`, and `ClaimRejected` is unreachable.

## Model

| member | source | states |
|---|---|---|
| Coverage.CoverageCap | smartcontract/src/lib.rs:326-395 | Over every run from an exact ledger (as after an init that no create_policy preceded), through any mix of the admin, ballot and oracle paths, the payouts published on a policy add up to between 0 and its coverage, and TotalPayouts is the sum over all policies of total_claimed plus the claim of an oracle-approved one |
| Coverage.RunKeepsLedger | smartcontract/src/lib.rs:160-189 | Every run keeps the ledger (ids are exactly 0..counter-1, each policy well formed, claims in step with pending policies, totals and published payouts equal to what the policies say) and moves each policy only forward: holder, type and start fixed; coverage, total_claimed and end time never decrease |
| Coverage.StepKeepsLedger | smartcontract/src/lib.rs:337-366 | The same for one transaction of any kind |
| Coverage.EveryOpIsEffective | smartcontract/src/lib.rs:651-679 | Whatever an accepted policy call adds to what a policy has been paid is added to TotalPayouts and published as one payout to the policyholder; nothing else is |
| Coverage.FinalStatuses | smartcontract/src/lib.rs:707-730 | A Cancelled or ClaimApproved policy is never changed again by any run |
| Coverage.RunClosesInFull | smartcontract/src/lib.rs:340-347 | Over every run from an exact ledger, a policy that a settlement has closed (ClaimApproved with no claim amount) has been paid its whole coverage: a partial settlement never closes one |
| Coverage.InitLedgerIff | smartcontract/src/lib.rs:59-74 | After any history without init, init yields an exact ledger if and only if no policy had been created |
| Coverage.PolicyLostToInit | smartcontract/src/lib.rs:153-188 | A policy created before init is overwritten by the first one created after it |
| Deployment.CapAfterInitIff | smartcontract/src/lib.rs:59-74 | After any history without init, whatever the balances, init leaves a contract whose cap holds over every continuation if and only if every policy left over is dead (cancelled, or lapsed beyond renewal); the clock below its last value |
| Deployment.CapAfterInit | smartcontract/src/lib.rs:59-74 | The positive half |
| Deployment.CapBreaks | smartcontract/src/lib.rs:326-395 | For each live leftover a continuation of contract calls alone (premiums or a renewal paid in by the holder, claim, approve, overwrite, claim, approve) pays a policy beyond its coverage, when the contract's balance and n payments of the holder exceed the coverage; a pending claim needs the balance alone |
| Deployment.PaysPremiums | smartcontract/src/lib.rs:208-258 | n premium payments on a policy in force move n premiums from the holder to the contract and leave the policies alone |
| Deployment.CapBroken | smartcontract/src/lib.rs:153-188 | Such a run from deployment and an empty treasury: coverage 10 bought before init, its premium paid and a claim paid in full after it, overwritten by a policy of coverage 1 |
| Deployment.RunForgets | smartcontract/src/storage.rs:142-153 | As long as the leftovers are dead, every run goes exactly as if they were not there |
| Coverage.CreateShape | smartcontract/src/lib.rs:130-205 | A successful create_policy stores one well-formed active policy under the next id and moves only the counter |
| LazyExpiry.CheckingIsUnobservable | smartcontract/src/lib.rs:1272-1276 | Inserting check_expiration anywhere in a run, for any policy, changes no other reply and no later view of any policy |
| LazyExpiry.LazyMatchesEager | smartcontract/src/storage.rs:168-174 | Expiry on read gives the same replies, over every run, as a machine that expires every lapsed policy before each call |
| LazyExpiry.ApplyAlike | smartcontract/src/lib.rs:26-43 | States that differ only in which lapsed policies were written back give the same reply to every call and stay alike |
| LazyExpiry.PolicyExpiredIsDead | smartcontract/src/lib.rs:291-294 | No call ever returns PolicyExpired: the branch of submit_claim is dead |
| Treasury.RunConserves | smartcontract/src/lib.rs:1298-1308 | With one token and no aliased addresses, over every run, before init or after, the contract's balance (plus the pool's, when there is a pool) changes by exactly premiums counted minus payouts counted, plus what others send it, minus what the pool's admin paid out directly |
| Treasury.RunBalances | smartcontract/src/lib.rs:226-246 | Each balance by itself over every run: the contract gets the premiums paid while there is no pool and every modification premium, and pays the ballot payouts and those made without a pool; the pool gets the premiums paid into it and pays the claims paid through it and what its admin pays out directly; what others send counts on each side, and the premium and payout totals are the sums of both |
| Treasury.EveryOpBalances | smartcontract/src/lib.rs:226-246 | Every policy call moves the tokens of the contract and of the pool, each by itself, by exactly what it adds to the premium and payout totals, on all four premium paths and all three payout paths |
| Treasury.StepExplained | smartcontract/src/risk_pool.rs:197-217 | The same for any transaction; only a direct fund_payout or tokens moved from outside change a balance without being counted |
| Refusals.EveryCallAnswers | smartcontract/src/lib.rs:57-1309 | Every call of either contract is refused with the first reason that holds of the stored fields and balances, in the source's order, and is accepted when none does |
| Refusals.PolicyCallAnswers | smartcontract/src/lib.rs:208-1276 | The same for each call on a policy; a lapsed policy counts as not active throughout |
| Refusals.RefusedChangesNothing | smartcontract/src/lib.rs:57-1309 | A refused call leaves the state as it was |
| Effects.ReachableCalls | smartcontract/src/lib.rs:57-1309 | In every state reachable from deployment every call either is refused with its first reason and changes nothing, or is accepted and leaves exactly the stated policy, settings, totals, pool and balances, and nothing else |
| Effects.DeployedDefaults | smartcontract/src/storage.rs:436-455 | A deployed contract stores nothing and reads every key at its default: threshold and quorum one, a million policies, a day's freshness, a pool reserve of a fifth |
| Effects.EveryCallLeft | smartcontract/src/lib.rs:57-1309 | What each accepted call leaves and answers, field by field and balance by balance |
| Effects.EveryOpLeft | smartcontract/src/lib.rs:208-1276 | What each accepted call on a policy leaves of it, of the claims, ballots, payouts and totals, and of the tokens |
| Effects.EverySettingLeft | smartcontract/src/lib.rs:59-119 | What each accepted change of the settings leaves: the named fields with the given values, the lists of admins and oracle types in order, and everything else as it was |
| Effects.SettlementStatusIff | smartcontract/src/lib.rs:337-347 | After an accepted process_claim(true), or the vote that reaches the threshold, on a claim of amount a, the policy is active if and only if its old total_claimed plus a is below the coverage, total_claimed has grown by a and claim_amount is zero |
| Effects.RemainderClaimable | smartcontract/src/lib.rs:1112-1119 | After a partial settlement the holder's claim for the whole remainder is accepted at any later time while the policy is in force and the contract not paused |
| Effects.PremiumReaches | smartcontract/src/lib.rs:226-246 | An accepted pay_premium lowers the holder's balance by the premium and raises the pool's when there is a pool, the contract's otherwise, leaving the other alone |
| Effects.ModificationCosts | smartcontract/src/lib.rs:764-777 | An accepted increase_coverage moves exactly the premium of the added coverage for the remaining time from holder to contract and counts it; extend_duration that of the coverage for the extra time, renew_policy that of the coverage for the new duration |
| Ballots.RunKeepsAdmins | smartcontract/src/lib.rs:988-1053 | Over every run admins stay non-empty and distinct with 1 <= threshold <= their number, and nobody is twice on a ballot |
| Ballots.InitAdmins | smartcontract/src/lib.rs:59-74 | init establishes that invariant |
| Ballots.ReachableAdmins | smartcontract/src/lib.rs:1081-1095 | In every state reachable from deployment nobody is twice on a ballot, and once there is an admin the admin set is well formed |
| Ballots.BallotOutcome | smartcontract/src/lib.rs:1060-1178 | From any pending claim that can be paid, with any ballot on it, removed admins' names included, running the votes of admins not yet on it one transaction each ends in exactly the state of the first vote that decides: paid, rejected, or all recorded |
| Ballots.CountsDecide | smartcontract/src/multisig.rs:31-47 | On an open ballot of current admins the first verdict is the one the final counts give |
| Ballots.FullBallotDecidesIff | smartcontract/src/lib.rs:1110-1175 | From any pending claim and any ballot, once every current admin has voted, the claim is decided if and only if some current admin was not on the ballot at the start |
| Ballots.FullBallotDecides | smartcontract/src/lib.rs:1110-1175 | A fresh ballot on which every admin votes always decides, for approval exactly when approvals reach the threshold and for rejection otherwise |
| Ballots.OrderDoesNotMatter | smartcontract/src/lib.rs:1081-1095 | On an open ballot of current admins the same votes in any order end in the same state when they decide, and otherwise differ only in the order of names on the ballot |
| Ballots.OrderFreeIff | smartcontract/src/lib.rs:1003-1032 | On an open ballot all orders of all votes end with the same policies and payouts if and only if every name on it is a current admin's |
| Ballots.DelaysDoNotMatter | smartcontract/src/lib.rs:1070-1073 | Letting any time pass before each vote changes nothing but the clock |
| Ballots.NeverBoth | smartcontract/src/multisig.rs:31-47 | Approval and forced rejection exclude each other on every ballot of current admins |
| Ballots.ForcedIffUnreachable | smartcontract/src/multisig.rs:36-47 | For any ballot, rejection_forced agrees with approval being unreachable if and only if removed admins' names do not make up the difference between the rejections and what the admins can spare; it always agrees on a ballot of current admins |
| Ballots.UnreachableIff | smartcontract/src/multisig.rs:36-47 | For any ballot, no votes of the remaining admins reach the threshold if and only if rejections exceed admins minus threshold plus the names of removed admins |
| Ballots.ApprovalRejects | smartcontract/src/lib.rs:1154-1175 | With a removed admin's rejection on the ballot an approving vote rejects the claim, though the remaining two admins could both approve |
| Ballots.BallotSurvivesReclaim | smartcontract/src/lib.rs:326-395 | Rejection by the primary admin followed by a new claim leaves the old votes on the new claim |
| Ballots.OwnApprovalsNeededIff | smartcontract/src/lib.rs:1076-1079 | On any open ballot, approval takes threshold-many approvals of this claim if and only if the ballot began without approvals |
| Ballots.OwnRejectionsNeededIff | smartcontract/src/lib.rs:1076-1079 | On any open ballot, rejection takes more rejections of this claim than admins minus threshold if and only if the ballot began without rejections |
| Ballots.OwnVotesDecideIff | smartcontract/src/lib.rs:1076-1079 | Both hold if and only if the ballot began empty |
| Ballots.BallotKept | smartcontract/src/storage.rs:368-384 | Over every run without an accepted vote on a policy its ballot stays as it is, whatever becomes of its claims |
| Ballots.VotableIff | smartcontract/src/lib.rs:1081-1086 | Some vote on a payable pending claim is accepted if and only if some current admin is not on its ballot |
| Ballots.RemovalStallsIff | smartcontract/src/lib.rs:1003-1032 | After any accepted remove_admin a pending claim keeps its ballot, and every further vote is refused if and only if every other admin had already voted |
| Ballots.RemovalStallsBallot | smartcontract/src/lib.rs:1003-1032 | With two admins, threshold two and one approval, removing the admin who has not voted leaves a claim with enough approvals pending and every vote refused |
| Oracles.RunKeepsOracles | smartcontract/src/storage.rs:459-531 | Over every run the listed oracle types are distinct and are exactly those with an address |
| Oracles.ReachableOracles | smartcontract/src/storage.rs:459-531 | The same in every state reachable from deployment |
| Oracles.PollCounts | smartcontract/src/lib.rs:624-639 | The quorum loop counts every listed type but a price feed that is missing, stale or in the future, and pauses exactly when that feed is missing or stale |
| Oracles.EvaluationQuorum | smartcontract/src/lib.rs:592-704 | Past the pause and authorisation checks, an evaluation is accepted if and only if a claim is pending, the oracle is registered and confirms, the caller is that oracle or the admin, the registered types that confirm meet the quorum, and the payout goes through; it then leaves the contract paused exactly when it was or a registered price is missing or stale |
| Oracles.EvaluationAcceptedIff | smartcontract/src/lib.rs:592-704 | The whole call is accepted if and only if those conditions hold on a known policy, the contract is not paused and the caller authorised it |
| Oracles.EvaluationPausesIff | smartcontract/src/oracle.rs:82-88 | An accepted evaluation leaves the contract paused if and only if it already was, or Price is registered and its time is zero or more than the freshness window ago; a price in the future never pauses it |
| Oracles.DirectCheckNeverPauses | smartcontract/src/lib.rs:398-435 | Called directly, verify_oracle_condition changes nothing; for Price it returns OracleDataUnavailable exactly when the price is missing or stale and InvalidOracleTimestamp exactly when it is in the future, and any other type is verified |
| PoolInRuns.RunKeepsSound | smartcontract/src/risk_pool.rs:49-217 | Over every run of both contracts together, pool initialised or not, the pool stays sound and its contributions exceed its liquidity by exactly what it paid out and what its init forgot |
| PoolInRuns.OpKeepsSound | smartcontract/src/lib.rs:236-240 | Each policy call keeps the pool sound; only a claim paid through the pool widens that gap, by the claim |
| PoolInRuns.ReachablePool | smartcontract/src/storage.rs:256-295 | In every state of the two contracts reachable from deployment the pool's registry is duplicate-free and exact, its liquidity non-negative, and that account exact |
| PoolInRuns.YieldNeverRunsAhead | smartcontract/src/lib.rs:236-240 | Over every run of both contracts without a payout from a balanced pool, premiums deposited and distributed on the way, accrued plus claimed yield never exceeds the yield distributed and lags it by at most the summed n-1 dust |
| InsureContract.StellarInsure.Invoke | smartcontract/src/lib.rs:57-1309 | One transaction on the contract object, rollback included, has exactly the reply and final state of the state machine |
| InsureContract.StellarInsure.constructor | smartcontract/src/storage.rs:148-153 | A deployed contract reads every absent key as its default |
| InsureContract.StellarInsure.CreatePolicyBody | smartcontract/src/lib.rs:130-205 | Refuses in the source's order; otherwise stores one active policy under the next id for exactly the calculated premium, and moves only the counter |
| InsureContract.StellarInsure.PayPremiumBody | smartcontract/src/lib.rs:208-258 | Writes a lapsed policy down and refuses it; otherwise moves exactly the policy's premium to the contract, or to the pool with a deposit and a distribution in the contract's name, and counts it |
| InsureContract.StellarInsure.SubmitClaimBody | smartcontract/src/lib.rs:261-323 | Refuses in the source's order (paused, unknown, not active, unauthorised, above the remaining coverage, not positive, proof too long); otherwise stores the claim unapproved at the ledger time and the policy as pending with that amount |
| InsureContract.StellarInsure.ProcessClaimBody | smartcontract/src/lib.rs:326-395 | Only with the primary admin's authorisation; an approval counts the claim on the policy, pays it through the pool or the contract, books it and closes or reactivates the policy; a rejection reactivates it and changes nothing else |
| InsureContract.StellarInsure.EvaluateOracleBody | smartcontract/src/lib.rs:592-704 | Counts the quorum, then asks the named oracle, and on success pays the pending claim and closes the policy as approved, leaving total_claimed and claim_amount as they were |
| InsureContract.StellarInsure.CountConfirmations | smartcontract/src/lib.rs:624-639 | The quorum loop returns the count and leaves the pause flag that polling the listed types in order gives |
| InsureContract.StellarInsure.CancelPolicyBody | smartcontract/src/lib.rs:707-730 | Authorisation before status; an active policy in force becomes Cancelled and nothing else changes |
| InsureContract.StellarInsure.IncreaseCoverageBody | smartcontract/src/lib.rs:737-797 | Charges the premium of the coverage delta for the remaining time into the contract and raises the coverage, or changes nothing |
| InsureContract.StellarInsure.ExtendDurationBody | smartcontract/src/lib.rs:800-857 | Charges the premium of the extra time and moves the end, trapping when the end leaves u64 |
| InsureContract.StellarInsure.ChangeBeneficiaryBody | smartcontract/src/lib.rs:872-905 | Replaces the beneficiary of an active policy with its holder's authorisation |
| InsureContract.StellarInsure.VoteClaimBody | smartcontract/src/lib.rs:1060-1178 | Adds one vote of an admin not yet on the ballot, and settles, rejects or records as the counts then say; a ballot payout never goes through the pool |
| InsureContract.StellarInsure.RenewPolicyBody | smartcontract/src/lib.rs:1201-1268 | Within the grace period charges the recalculated premium and restarts the policy from the later of now and its end |
| InsureContract.StellarInsure.CheckExpirationBody | smartcontract/src/lib.rs:1272-1276 | Returns the status get_policy presents and writes a lapsed one down |
| InsureContract.StellarInsure.ExpireIfNeeded | smartcontract/src/lib.rs:26-43 | Given the policy as get_policy presents it, expire_policy_if_needed stores exactly that presentation |
| InsureContract.StellarInsure.RemoveAdminBody | smartcontract/src/lib.rs:1003-1032 | Removes a listed admin, lowers the threshold to the number left if it exceeds it, and never removes the last one |
| InsureContract.StellarInsure.AddAdminBody | smartcontract/src/lib.rs:988-998 | Appends a new admin at an admin's request and refuses a known one |
| InsureContract.StellarInsure.SetThresholdBody | smartcontract/src/lib.rs:1036-1053 | Stores a threshold between one and the number of admins and refuses any other |
| InsureContract.StellarInsure.InitBody | smartcontract/src/lib.rs:59-74 | Once only: one admin, threshold one, counter zero, default limits |
| InsureContract.StellarInsure.UpdatePriceFeedBody | smartcontract/src/lib.rs:451-468 | Anyone stores a price and its time; one older than the freshness window pauses the contract |
| InsureContract.StellarInsure.OracleSettingBody | smartcontract/src/lib.rs:472-583 | For the primary admin only, registers, updates or removes an oracle type, keeping the list of types in order, or sets a positive quorum; updating or removing an unknown type is refused |
| InsureContract.StellarInsure.LimitSettingBody | smartcontract/src/lib.rs:77-88 | set_max_policies (not zero) and the freshness window, for the primary admin only |
| InsureContract.StellarInsure.AddressSettingBody | smartcontract/src/lib.rs:96-119 | set_premium_token and set_risk_pool store the address, for the primary admin only |
| InsureContract.StellarInsure.PauseSettingBody | smartcontract/src/lib.rs:939-978 | pause and unpause set the flag and are idempotent, for the primary admin only |
| Sequences.VecContains | smartcontract/src/multisig.rs:54-61 | The search loop answers exactly membership |
| Sequences.FilterOut | smartcontract/src/lib.rs:1012-1017 | The copy loop returns the list without the target, in order |
| PoolContract.RiskPool.DistributeYieldBody | smartcontract/src/risk_pool.rs:127-163 | The loop over the registry credits each position its share of the amount in place, or fails as the step does, and counts the amount |
| PoolContract.RiskPool.AddLiquidityBody | smartcontract/src/risk_pool.rs:49-80 | Adds to the provider's position and the total, registers a new provider once, and traps on overflow |
| PoolContract.RiskPool.WithdrawLiquidityBody | smartcontract/src/risk_pool.rs:82-125 | Takes from the position and the total what the reserve leaves available, and unregisters a position left with nothing |
| PoolContract.RiskPool.ClaimYieldBody | smartcontract/src/risk_pool.rs:165-183 | Returns the accrued yield and zeroes it, leaving the position registered |
| PoolContract.RiskPool.FundPayoutBody | smartcontract/src/risk_pool.rs:197-217 | For the pool's admin, takes the amount off the liquidity and transfers that much of the pool's token, leaving contributions alone |
| PoolContract.RiskPool.Invoke | smartcontract/src/risk_pool.rs:12-217 | Any call on the pool object, rollback included, performs the pool's step or changes nothing |
| PoolEffects.PoolCallAnswers | smartcontract/src/risk_pool.rs:13-217 | On a sound pool each call fails with the first reason that holds, in the source's order, and succeeds when none does |
| PoolEffects.WithdrawsIff | smartcontract/src/risk_pool.rs:82-105 | A withdrawal succeeds if and only if the provider has authorised it and has a position, the amount is positive and within its contribution, and more than the reserve less one stroop is left; without overflow of liquidity times ratio |
| PoolEffects.PoolCallLeaves | smartcontract/src/risk_pool.rs:49-217 | What each successful call leaves of every provider's contribution and accrued yield, of the totals and the registry; a distribution credits every provider the whole part of its pro-rata share |
| PoolLaws.LoopIsSimultaneous | smartcontract/src/risk_pool.rs:140-147 | With an exact registry the loop credits each provider once, equals one simultaneous update, never reports a missing provider, and fails exactly when some credit overflows |
| PoolLaws.AllocationIsTight | smartcontract/src/risk_pool.rs:140-147 | When contributions match the liquidity, n providers are credited between amount-(n-1) and amount |
| PoolLaws.AllocationAtMost | smartcontract/src/risk_pool.rs:143-144 | In general at most floor(amount * contributions / liquidity) is credited |
| PoolLaws.OverAllocatesIff | smartcontract/src/risk_pool.rs:127-156 | Within the i128 headroom of distributing the whole liquidity, some accepted distribution credits more than it distributes if and only if contributions exceed the liquidity |
| PoolLaws.BalancedNeverOverAllocates | smartcontract/src/risk_pool.rs:135-147 | While contributions do not exceed the liquidity no accepted distribution of any amount credits more than it, headroom or not |
| PoolLaws.OverAllocationReached | smartcontract/src/risk_pool.rs:197-210 | From deployment, init, a deposit of 10 and a payout of 5 reach a pool on which an accepted distribution of 5 credits 10 |
| PoolLaws.OverflowShieldsAllocation | smartcontract/src/risk_pool.rs:143 | A pool whose contributions exceed its liquidity but on which every distribution that would over-allocate overflows and is refused |
| PoolLaws.SplittingNeverGains | smartcontract/src/risk_pool.rs:143 | A position split over two addresses is credited no more than the whole |
| PoolLaws.StepAccounts | smartcontract/src/risk_pool.rs:49-217 | Every successful call, on a pool initialised or not, keeps it sound (registry exact and distinct, amounts non-negative, contributions at least the liquidity) and moves contributions, liquidity, accrued yield and total yield exactly as its kind says |
| PoolLaws.DistributeFindsAll | smartcontract/src/risk_pool.rs:127-163 | On a sound pool distribute_yield never returns ProviderNotFound |
| PoolLaws.WithdrawPermitted | smartcontract/src/risk_pool.rs:95-105 | When a withdrawal succeeds the reserve is left behind |
| PoolLaws.RunConserves | smartcontract/src/risk_pool.rs:197-210 | Over every run, init anywhere in it, contributions minus liquidity grows by exactly the payouts and the liquidity init set to zero, the registry stays exact and provider_count is the number of positions |
| PoolLaws.ReachablePool | smartcontract/src/storage.rs:256-295 | The same in every state reachable from deployment: registry duplicate-free and exact, liquidity non-negative, provider_count right |
| PoolLaws.YieldNeverRunsAhead | smartcontract/src/risk_pool.rs:149-183 | In payout-free runs of a balanced pool, accrued plus claimed yield never exceeds TotalYieldDistributed and lags it by at most the summed n-1 dust |
| PoolLaws.YieldAfterDeployment | smartcontract/src/risk_pool.rs:149-183 | In particular in every payout-free run of a pool initialised when deployed |
| PoolLaws.ReserveOverRuns | smartcontract/src/risk_pool.rs:43-47 | With the ratio fixed and no payout, k withdrawals with anything in between leave at least the reserve function applied k times to the starting liquidity |
| PoolLaws.InitBalancesIff | smartcontract/src/risk_pool.rs:13-24 | After the pool's init contributions match the liquidity if and only if nothing had been deposited |
| PremiumLaws.RoundingBound | smartcontract/src/premium.rs:79-105 | The exact total loss of the three floors lies between 0 and the sum of what the three remainders allow |
| PremiumLaws.Monotone | smartcontract/src/premium.rs:67-131 | The premium never falls when coverage (across both tiers) or duration grows, and an input that does not overflow vouches for every smaller positive one |
| PremiumLaws.NoOverflow | smartcontract/src/premium.rs:79-105 | No checked multiplication fails for coverage up to 2^67 and any u64 duration |
| PremiumLaws.PricedIff | smartcontract/src/premium.rs:67-106 | InvalidDuration exactly for no time on positive coverage; InvalidAmount exactly for no coverage or when one of the three products leaves i128; otherwise a premium |
| PremiumLaws.YearPrice | smartcontract/src/premium.rs:20-50 | A year on round coverage costs exactly the type's rate with the tier's surcharge |
| PremiumLaws.MinimumCharge | smartcontract/src/premium.rs:23 | Up to 2 500 000 stroops and a year exactly the minimum of 100 000 is charged |
| PremiumLaws.SplitSavesAtMostTwo | smartcontract/src/premium.rs:84-105 | Buying a duration in two pieces saves at most two stroops, minimum charge included |
| PremiumLaws.SplitSavesTwo | smartcontract/src/premium.rs:84-105 | A concrete extension whose split saves both stroops: the bound is tight |
| PremiumLaws.ManyPiecesSaveLittle | smartcontract/src/lib.rs:827-842 | Over any number of extensions each extra piece saves at most two stroops |
| Premium.CalculatePremium | smartcontract/src/premium.rs:67-106 | A computed premium is at least the minimum charge and is the larger of it and the value of the three floors in unbounded integers |
| Idempotency.ReachableTables | backend/src/models.py:142-144 | Over any interleaving with any crashes, at most one row per hash, at most one record per user, scope and key, and every record names a row of that user with its fingerprint |
| Idempotency.AnswersAgree | backend/src/services/stellar_service.py:450-458 | Two answered requests under one key got the same row and had the same fingerprint |
| Idempotency.RetriesLeaveOneRow | backend/src/services/stellar_service.py:460-482 | However often one request is retried, at most one row carries its hash, and every answer to it names that row |
| Idempotency.CrashStrands | backend/src/services/stellar_service.py:470-480 | In every reachable state, a crash of a worker between its two commits leaves its request unanswerable by any retry in any continuation |
| Idempotency.AnswerableIff | backend/src/services/stellar_service.py:436-482 | In every reachable state some continuation answers a keyed request if and only if it is recorded with its fingerprint, its key and hash are free, or a worker is about to record it under that key |
| Idempotency.AnsweredIff | backend/src/services/stellar_service.py:436-482 | Run alone, a keyed request is answered if and only if it is recorded with its fingerprint or both its key and its hash are free |
| Idempotency.EndedIsAnswerableIff | backend/src/services/stellar_service.py:467-480 | When a worker ends unanswered, by a crash or a refusal at any step, its request can still be answered if and only if the worker had not committed its row and the request was answerable before |
| Idempotency.RaceStrands | backend/src/services/stellar_service.py:450-480 | Two requests under one key with different hashes, stepped in turn without a crash: both commit a row, the second loses the record and is never answered |
| Idempotency.UnkeyedBlocks | backend/src/models.py:121 | After a request without a key commits its row, no keyed request with that hash is ever answered |
| Idempotency.StrandedForever | backend/src/services/stellar_service.py:436-482 | Once a row is neither recorded nor about to be, no keyed request with its hash is ever answered, in any continuation |
| Idempotency.ReplayIsIdempotent | backend/src/services/stellar_service.py:436-482 | Run alone, an answered request replayed gets the same row and changes nothing, and a refused one changes nothing |
| Idempotency.DifferentReuseRefused | backend/src/services/stellar_service.py:455-457 | Reusing an answered key for a different request is refused and changes nothing |
| Idempotency.ReusedIff | backend/src/services/stellar_service.py:436-458 | After an answered request, another one under the same user, key and scope (the given one, or the transaction type when none is given) gets its row if and only if it agrees in amount, claim, policy, status, hash and type, is refused otherwise, and changes nothing |
| Idempotency.AloneLeaves | backend/src/services/stellar_service.py:436-482 | What one call answers and leaves in any sound tables: the recorded row or a refusal when its key is recorded, a unique violation when its hash is taken, else its own row and, for a non-empty key, a record pointing to it |
| Idempotency.TransactionStore.StoreTransactionRecord | backend/src/services/stellar_service.py:405-482 | With nothing in between, the query and the two commits give the answer and tables of the three worker steps |
| ListingLaws.KeyInjective | backend/src/routes/policies.py:118-121 | Different users or different valid queries never share a cache key |
| ListingLaws.PatternHitsOneUser | backend/src/cache.py:111-113 | The pattern delete matches a listing key if and only if it is that user's |
| ListingLaws.WriteFrames | backend/src/routes/policies.py:254 | A change alters no listing of any user but the one it invalidates |
| ListingLaws.CacheIsUnobservable | backend/src/routes/policies.py:123-179 | With each write and its deletion as one step, over any run of listings, create_policy, cancel_policy, both claim routes of /claims, update_claim_status and key expiry, from any cache whose pages are right, every cached page is what its query would answer, and all replies and rows are those of the system without a cache |
| ListingLaws.EmptyCacheIsUnobservable | backend/src/cache.py:43-71 | The same from an empty cache |
| ListingSteps.FreshUnlessDue | backend/src/routes/policies.py:251-254 | With commit and key deletion apart, over every interleaving of listings, expiries, commits and deletions, every cached page of a user for whom no deletion is due is right and so is that user's next answer; with none due the cache is right throughout |
| ListingSteps.HitWhileDueIff | backend/src/routes/claims.py:103-106 | Between a commit and its deletion a cached listing is answered wrongly if and only if the write reaches it |
| ListingSteps.CommitThenDrop | backend/src/routes/policies.py:251-254 | A commit followed at once by its deletion is one step of the undivided model |
| ListingLaws.PagesTile | backend/src/routes/policies.py:143-174 | Pages 1 to total_pages put together are the filtered list; has_next says whether a page is before the last; a page is empty exactly when it is after the last |
| ListingLaws.MatchingSpec | backend/src/routes/policies.py:127-147 | That list holds exactly the rows the filters admit, newest first |
| ListingLaws.SubmitStaleIff | backend/src/routes/policies.py:283-325 | After the claim route under /policies a cached page is stale if and only if it is that user's and shows the policy: on the page without a status filter, or filtered to active or claim_pending |
| ListingLaws.RunKeepsKeys | backend/src/models.py:59 | Over every run primary keys stay 1, 2, 3, ..., as the result on stale pages assumes |
| ListingLaws.LateFill | backend/src/routes/policies.py:127-177 | A page queried before other requests and cached after them stays right when none of them changes its user's policies |
| ListingLaws.LateFillIff | backend/src/routes/policies.py:127-177 | With one write of any kind between the query and the cache write, the cached page is right if and only if the write does not reach that listing |
| ListingLaws.WriteChangesIff | backend/src/routes/policies.py:127-147 | For every write and every listing, the answer changes if and only if the filters admit an added row, or admit a rewritten row before or after but not both, or the rewritten row stands on the page |
| ListingLaws.LateFillCanBeStale | backend/src/routes/policies.py:177 | A cancellation between the query and the cache write leaves a wrong page cached |
| ListingEffects.EveryWriteLeft | backend/src/routes/policies.py:43-67 | Every write is refused with the first reason of its handler and then changes nothing, and otherwise leaves exactly the stated rows and claims and invalidates the stated user |
| ListingEffects.SubmitLeft | backend/src/routes/policies.py:283-325 | The claim route under /policies, likewise: no look at the amount, nobody invalidated |
| ListingEffects.MatchingIs | backend/src/routes/policies.py:127-147 | The filtered list holds the user's rows with the asked status and type, each once, newest first and by key among equals; OrderedOnce makes it the only such list |
| ListingEffects.ListingServed | backend/src/routes/policies.py:109-179 | A listing is refused outside its bounds, served from the cache when it is there, and otherwise is the page of that list with its three counts, which is cached; a foreign account is answered empty and not cached |
| ListingEffects.WriteDrops | backend/src/cache.py:111-113 | A write deletes a listing from the cache exactly when it is of the user it invalidates, and keeps every other as it was |
| ListingApi.Redis.CacheDeletePattern | backend/src/cache.py:89-103 | Listing the matching keys and deleting them leaves exactly the others |
| ListingApi.Api.GetUserPolicies | backend/src/routes/policies.py:109-179 | Answers from the cache, or queries, fills the cache and answers; a foreign account is answered empty and not cached |
| ListingApi.Api.CreatePolicy | backend/src/routes/policies.py:43-67 | Appends an active policy under the next key and deletes the creator's listing keys; an end not after the start changes nothing |
| ListingApi.Api.CancelPolicy | backend/src/routes/policies.py:233-254 | Cancels the caller's policy unless its status is terminal, and deletes the caller's listing keys |
| ListingApi.Api.CreateClaim | backend/src/routes/claims.py:68-106 | For an active policy in force of the caller and an amount within its remaining coverage, appends the claim, marks the policy pending and deletes the caller's listing keys; refuses in the source's order otherwise |
| ListingApi.Api.CreateClaimWithFile | backend/src/routes/claims.py:137-180 | As create_claim with the stored file's path as proof; a failed upload changes nothing |
| ListingApi.Api.UpdateClaimStatus | backend/src/routes/claims.py:295-321 | Marks the claim and sets the policy's status and amount without a guard on its status, then deletes the keys of the policy's holder, whoever asked |
| Conditions.RoundTripIff | frontend/src/components/trigger-condition-builder.tsx:56-62 | For every list of rules, parsing what the builder prints gives back the rules with non-blank values, in order, if and only if each of those has a word for a field and a value that is trimmed, on one line and forms no separator with the blanks around it; an all-blank list parses to undefined |
| Conditions.SimpleValuesAreClean | frontend/src/app/create/create-page-client.tsx:61-75 | Every value without blanks other than the word AND meets that condition, whatever its neighbours |
| Conditions.JoinRoundTrip | frontend/src/app/create/create-page-client.tsx:63-73 | The same for any non-empty list of rules with non-blank values |
| Conditions.FirstSeparator | frontend/src/app/create/create-page-client.tsx:63 | The first separator of a printed condition is the one after the first rule exactly when that rule's value forms none with its surroundings |
| Conditions.MatchPrinted | frontend/src/app/create/create-page-client.tsx:66-72 | The pattern matches a printed rule back to its field, operator and value, never to a longer or shorter operator |
| Conditions.ParseConditionString | frontend/src/app/create/create-page-client.tsx:61-75 | The loop that pushes rules and gives up at the first part that does not match computes the parse |
| ConditionGrammar.ParseIff | frontend/src/app/create/create-page-client.tsx:61-75 | For every text and every list of rules, the text parses to the list if and only if the list is not empty and the pieces between the separators, taken from the left and the blank ones left out, read one by one as its rules |
| ConditionGrammar.MatchIff | frontend/src/app/create/create-page-client.tsx:66-72 | A part matches as a rule if and only if it is the word, blanks, the operator, blanks and a one-line text with that trimmed value, and no longer operator would do |
| ConditionGrammar.PrintLists | frontend/src/components/trigger-condition-builder.tsx:56-62 | The builder prints the rules with a value, each as field, operator and value, separated by AND, in order |
| ConditionGrammar.TrimIs | frontend/src/app/create/create-page-client.tsx:63 | Trimming takes away the blanks at both ends and nothing else |
| Amounts.KeptIff | frontend/src/components/amount-input.tsx:16-37 | Normalising leaves a text alone if and only if it is empty, or a grouped integer without leading zeros with at most a dot and maxDecimals digits |
| Amounts.NormalizeTwice | frontend/src/components/amount-input.tsx:16-37 | Normalising twice is normalising once with the smaller number of decimals, for every string; in particular it is idempotent |
| Amounts.CommasAreOnlyAdded | frontend/src/components/amount-input.tsx:24-36 | Deleting the commas gives the digits typed before the dot without leading zeros (0 for none) and the decimals cut to maxDecimals; the integer's value is unchanged |
| Amounts.ShowsWhatWasTyped | frontend/src/components/amount-input.tsx:16-37 | For every text, given its digits and dots in order: nothing is shown for none, else the number before the first dot, grouped and without leading zeros, and after a dot the first maxDecimals of the digits behind it |
| Amounts.AlwaysNormal | frontend/src/components/amount-input.tsx:5-14 | Every result is in that form: a comma exactly before each remaining multiple of three integer digits |
| Amounts.GroupIsUnique | frontend/src/components/amount-input.tsx:13 | A text with commas exactly in those places is the grouping of its digits |
| Amounts.GroupSpec | frontend/src/components/amount-input.tsx:13 | Grouping puts commas exactly there and nothing else |

## Left out

- Signatures: authorisation is a set of addresses; the cryptography behind `require_auth` is not modelled.
- Storage lifetimes, `upgrade`, `version` and events other than the payout event carry no state the results use.
- Oracle data: the weather, flight and smart-contract providers always confirm, as their code does; only price freshness is modelled.
- Tokens are balance maps with a transfer that can trap; other behaviour of token contracts is not part of this model.
- A risk-pool address other than the pool contract answers every call with a trap.
- Pool liquidity is not claimed to be backed by the pool's token balance: deposits and withdrawals move no tokens.
- u32 counts and u64 identifiers are unbounded naturals; only sums of times and i128 amounts are range-checked.
- Length checks are the only use of proof and trigger texts on chain.
- VoteClaimBody: stores the ballot only when it stays undecided; the source stores it first and clears it when the claim is settled, with the same final storage.
- SubmitClaimBody: leaves out the call that would write the expiry just before returning PolicyExpired; that branch is dead and its write would be rolled back.
- StoreTransactionRecord: its contract is the sequential one; interleavings and crashes are in the worker machine.
- OverAllocatesIff: assumes the headroom it names; without it, whether some accepted amount over-allocates depends on which products overflow.
- LateFillIff: is about one write in between; for several, LateFill covers those that leave the user's policies alone.
- Fingerprints are the fields they digest, with amounts in units of the seventh decimal: hash collisions and float rounding are not modelled.
- CreateClaim: the branch for a duplicate pending claim is dead after the eligibility check and is kept only in the specification.
- CreateClaimWithFile: the wait for the upload is not a point where other requests run.
- CacheIsUnobservable: a write and its key deletion are one step (ListingSteps takes them apart), Redis is reachable throughout, rows created at the same instant are listed in key order, and the claim route under `/policies` and `delete_account` are outside the run because they invalidate nothing.
- JSON encoding of cached pages is the identity, and amounts are exact rather than floats.
- HTTP, sessions, admin checks, webhooks, rate limiting and file storage of the backend are wrappers that keep no state the results use.
- `maxDecimals` is a natural number; a negative slice bound is not modelled.
- `parseAmountInput`, `formatAssetAmount` and the React components around the modelled functions add only easy members.
