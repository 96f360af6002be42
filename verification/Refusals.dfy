/**
 Why a call is refused, read off the stored state before it: the first reason that
 holds, in the order in which the contracts look.  A call without a reason is accepted.
 */
module Refusals {
  import opened Types
  import opened Tokens
  import opened Premium
  import opened Insurance
  import opened Oracles
  import opened Runs
  import Pool
  import PoolLaws
  import PoolEffects

  type Reason = Option<Error>

  /** Active, and not past its end. */
  predicate InForce(p: Policy, now: nat) { p.status == Active && now <= p.endTime }

  /** The pool, called by the contract, takes the deposit and then shares it out. */
  predicate PoolTakes(w: World, auth: set<Address>, amount: int) {
    var callers := auth + {InsuranceContract};
    var added := Pool.Apply(w.pool, w.bank, callers, Pool.AddLiquidity(InsuranceContract, amount));
    && w.inst.riskPool == Some(RiskPoolContract)
    && added.Done?
    && Pool.Apply(added.pool, added.bank, callers, Pool.DistributeYield(amount)).Done?
  }

  /** The pool pays a claim: its admin, who may be the contract itself, has authorised it. */
  predicate PoolPays(w: World, auth: set<Address>, to: Address, amount: int) {
    && w.inst.riskPool == Some(RiskPoolContract)
    && w.pool.admin.Some? && (w.pool.admin.value in auth || w.pool.admin.value == InsuranceContract)
    && 0 < amount <= w.pool.totalLiquidity
    && w.pool.token.Some? && CanSend(w.bank, w.pool.token.value, RiskPoolContract, to, amount)
  }

  /** Why a stored claim cannot be paid, through the pool if there is one or from the contract. */
  function NoPayout(w: World, auth: set<Address>, to: Address, amount: int, viaPool: bool): Reason {
    if viaPool && w.inst.riskPool.Some? then
      if !PoolPays(w, auth, to, amount) then Some(HostTrap)
      else if !FitsI128(w.inst.totalPayouts + amount) then Some(ClaimAmountOverflow)
      else None
    else if w.inst.premiumToken.None? then Some(NotInitialized)
    else if Balance(w.bank, w.inst.premiumToken.value, InsuranceContract) < amount then
      Some(InsufficientContractBalance)
    else if !CanSend(w.bank, w.inst.premiumToken.value, InsuranceContract, to, amount) then Some(HostTrap)
    else if !FitsI128(w.inst.totalPayouts + amount) then Some(ClaimAmountOverflow)
    else None
  }

  /** Why the premium of a modification cannot be collected. */
  function NoCharge(w: World, p: Policy, coverage: int, duration: nat): Reason {
    var premium := CalculatePremium(p.kind, coverage, duration);
    if premium.Err? then Some(premium.error)
    else if w.inst.premiumToken.None? then Some(NotInitialized)
    else if !CanSend(w.bank, w.inst.premiumToken.value, p.policyholder, InsuranceContract, premium.value) then
      Some(HostTrap)
    else if !FitsI128(w.inst.totalPremium + premium.value) then Some(PremiumOverflow)
    else None
  }

  function NoPremium(w: World, auth: set<Address>, p: Policy, amount: int): Reason {
    var pool := w.inst.riskPool;
    if !InForce(p, w.now) then Some(PolicyNotActive)
    else if p.policyholder !in auth then Some(HostTrap)
    else if amount != p.premium then Some(InvalidPremium)
    else if w.inst.premiumToken.None? then Some(NotInitialized)
    else if !CanSend(w.bank, w.inst.premiumToken.value, p.policyholder,
                     if pool.Some? then pool.value else InsuranceContract, amount) then Some(HostTrap)
    else if pool.Some? && !PoolTakes(w, auth, amount) then Some(HostTrap)
    else if !FitsI128(w.inst.totalPremium + amount) then Some(PremiumOverflow)
    else None
  }

  function NoClaim(w: World, auth: set<Address>, p: Policy, amount: int, proof: string): Reason {
    if !InForce(p, w.now) then Some(PolicyNotActive)
    else if p.policyholder !in auth then Some(HostTrap)
    else if p.totalClaimed + amount > p.coverage then Some(ClaimExceedsCoverage)
    else if amount <= 0 then Some(InvalidClaimAmount)
    else if |proof| > 256 then Some(ProofTooLong)
    else None
  }

  /** Why an approved claim cannot be settled. */
  function NoSettlement(w: World, auth: set<Address>, id: nat, p: Policy, viaPool: bool): Reason {
    if id !in w.inst.claims then Some(ClaimNotFound)
    else if !FitsI128(p.totalClaimed + w.inst.claims[id].amount) then Some(ClaimAmountOverflow)
    else NoPayout(w, auth, p.policyholder, w.inst.claims[id].amount, viaPool)
  }

  function NoProcessing(w: World, auth: set<Address>, id: nat, p: Policy, approved: bool): Reason {
    if id !in w.inst.claims then Some(ClaimNotFound)
    else if p.status != ClaimPending then Some(NoPendingClaim)
    else if approved then NoSettlement(w, auth, id, p, true)
    else None
  }

  /** With this vote the approvals reach the threshold. */
  predicate Approves(i: Instance, id: nat, approve: bool) {
    (if id in i.votes then |i.votes[id].approvals| else 0) + (if approve then 1 else 0) >= i.threshold
  }

  /** With this vote there are more rejections than the admins can spare. */
  predicate Rejects(i: Instance, id: nat, approve: bool) {
    var rejections := (if id in i.votes then |i.votes[id].rejections| else 0) + if approve then 0 else 1;
    !Approves(i, id, approve) && (i.threshold > |i.admins| || rejections + i.threshold > |i.admins|)
  }

  function NoVote(w: World, id: nat, p: Policy, voter: Address, approve: bool): Reason {
    if p.status != ClaimPending then Some(NoPendingClaim)
    else if id in w.inst.votes && (voter in w.inst.votes[id].approvals || voter in w.inst.votes[id].rejections) then
      Some(AlreadyVoted)
    else if Approves(w.inst, id, approve) then NoSettlement(w, {}, id, p, false)
    else if Rejects(w.inst, id, approve) && id !in w.inst.claims then Some(ClaimNotFound)
    else None
  }

  function NoIncrease(w: World, auth: set<Address>, p: Policy, newCoverage: int): Reason {
    if !InForce(p, w.now) then Some(PolicyNotActive)
    else if p.policyholder !in auth then Some(HostTrap)
    else if newCoverage <= p.coverage then Some(CoverageDecrease)
    else if w.now == p.endTime then Some(PolicyAlreadyExpired)
    else NoCharge(w, p, newCoverage - p.coverage, p.endTime - w.now)
  }

  function NoExtension(w: World, auth: set<Address>, p: Policy, extra: nat): Reason {
    if !InForce(p, w.now) then Some(PolicyNotActive)
    else if p.policyholder !in auth then Some(HostTrap)
    else if w.now == p.endTime then Some(PolicyAlreadyExpired)
    else if NoCharge(w, p, p.coverage, extra).Some? then NoCharge(w, p, p.coverage, extra)
    else if p.endTime + extra > U64_MAX then Some(HostTrap)
    else None
  }

  /** A policy may be renewed while in force and for seven days after its end. */
  function NoRenewal(w: World, auth: set<Address>, p: Policy, duration: nat): Reason {
    if p.policyholder !in auth then Some(HostTrap)
    else if duration == 0 then Some(InvalidDuration)
    else if p.status != Active && p.status != Expired then Some(PolicyNotRenewable)
    else if w.now > p.endTime && p.endTime + 604_800 > U64_MAX then Some(HostTrap)
    else if w.now > p.endTime + 604_800 then Some(RenewalGracePeriodExpired)
    else if w.now + duration > U64_MAX || (p.endTime + duration > U64_MAX && w.now <= p.endTime) then Some(HostTrap)
    else NoCharge(w, p, p.coverage, duration)
  }

  /** One of the listed admins, or the primary admin while none is listed. */
  predicate Administers(i: Instance, a: Address) { a in i.admins || (i.admins == [] && i.admin == Some(a)) }

  function NotAdmin(i: Instance, auth: set<Address>, caller: Address): Reason {
    if caller !in auth then Some(HostTrap) else if !Administers(i, caller) then Some(Unauthorized) else None
  }

  /** What is checked before the policy is looked up. */
  function NoEntry(i: Instance, auth: set<Address>, op: PolicyOp): Reason {
    if op.CheckExpiration? then None
    else if op.ProcessClaim? then
      if i.admin.Some? && i.admin.value in auth then None else Some(HostTrap)
    else if i.paused then Some(ContractPaused)
    else if op.EvaluateOracle? && op.caller !in auth then Some(HostTrap)
    else if op.VoteClaim? then NotAdmin(i, auth, op.voter)
    else if op.ExtendDuration? && op.extra == 0 then Some(InvalidDuration)
    else None
  }

  function NoEvaluation(w: World, auth: set<Address>, id: nat, p: Policy, caller: Address, oracle: Symbol): Reason {
    if p.status != ClaimPending then Some(NoPendingClaim)
    else if oracle !in w.inst.oracles then Some(OracleNotRegistered)
    else if w.inst.admin.None? then Some(HostTrap)
    else if caller != w.inst.oracles[oracle] && Some(caller) != w.inst.admin then Some(Unauthorized)
    else NoTrigger(w, auth, id, p, oracle)
  }

  function NoTrigger(w: World, auth: set<Address>, id: nat, p: Policy, oracle: Symbol): Reason {
    if NoPrice(w.inst, w.now, oracle).Some? then NoPrice(w.inst, w.now, oracle)
    else if Confirming(w.inst, w.now) < w.inst.quorum then Some(OracleConditionNotMet)
    else if id !in w.inst.claims then Some(ClaimNotFound)
    else NoPayout(w, auth, p.policyholder, w.inst.claims[id].amount, true)
  }

  /** Only the price oracle refuses: without a recent price, or with one in the future. */
  function NoPrice(i: Instance, now: nat, oracle: Symbol): Reason {
    if oracle != "Price" then None
    else if i.priceTime == 0 || now > i.priceTime + i.freshness then Some(OracleDataUnavailable)
    else if i.priceTime > now then Some(InvalidOracleTimestamp)
    else None
  }

  /** Why a call on a stored policy is refused. */
  function NoOp(w: World, auth: set<Address>, id: nat, p: Policy, op: PolicyOp): Reason {
    match op
    case PayPremium(amount) => NoPremium(w, auth, p, amount)
    case SubmitClaim(amount, proof) => NoClaim(w, auth, p, amount, proof)
    case ProcessClaim(approved) => NoProcessing(w, auth, id, p, approved)
    case EvaluateOracle(caller, oracle) => NoEvaluation(w, auth, id, p, caller, oracle)
    case CancelPolicy =>
      if p.policyholder !in auth then Some(HostTrap)
      else if !InForce(p, w.now) then Some(PolicyNotActive)
      else None
    case IncreaseCoverage(newCoverage) => NoIncrease(w, auth, p, newCoverage)
    case ExtendDuration(extra) => NoExtension(w, auth, p, extra)
    case ChangeBeneficiary(_) =>
      if !InForce(p, w.now) then Some(PolicyNotActive)
      else if p.policyholder !in auth then Some(HostTrap)
      else None
    case VoteClaim(voter, approve) => NoVote(w, id, p, voter, approve)
    case RenewPolicy(duration) => NoRenewal(w, auth, p, duration)
    case CheckExpiration => None
  }

  function NoPolicyCall(s: State, auth: set<Address>, id: nat, op: PolicyOp): Reason {
    if NoEntry(s.world.inst, auth, op).Some? then NoEntry(s.world.inst, auth, op)
    else if id !in s.policies then Some(PolicyNotFound)
    else NoOp(s.world, auth, id, s.policies[id], op)
  }

  /** The premium must be the calculated one, to the stroop. */
  function NoCreation(s: State, auth: set<Address>, call: Call): Reason
    requires call.CreatePolicy?
  {
    var i, premium := s.world.inst, CalculatePremium(call.kind, call.coverage, call.duration);
    if i.paused then Some(ContractPaused)
    else if call.holder !in auth then Some(HostTrap)
    else if call.coverage <= 0 then Some(InvalidAmount)
    else if call.premium <= 0 then Some(InvalidPremium)
    else if call.duration == 0 then Some(InvalidDuration)
    else if |call.trigger| > 256 then Some(TriggerConditionTooLong)
    else if i.policyCounter >= i.maxPolicies then Some(MaxPoliciesReached)
    else if premium.Err? then Some(InvalidAmount)
    else if call.premium != premium.value then Some(PremiumMismatch)
    else if s.world.now + call.duration > U64_MAX then Some(HostTrap)
    else None
  }

  /** Most settings are the primary admin's alone. */
  function NotOwner(i: Instance, auth: set<Address>, caller: Address): Reason {
    if caller !in auth || i.admin.None? then Some(HostTrap)
    else if i.admin != Some(caller) then Some(Unauthorized)
    else None
  }

  function NoSetting(i: Instance, auth: set<Address>, setting: Setting): Reason {
    match setting
    case Init(_) => if i.admin.Some? then Some(AlreadyInitialized) else None
    case UpdatePriceFeed(_, _) => None
    case SetMaxPolicies(admin, max) => Then(NotOwner(i, auth, admin), max == 0, InvalidAmount)
    case SetPremiumToken(admin, _) => NotOwner(i, auth, admin)
    case SetRiskPool(admin, _) => NotOwner(i, auth, admin)
    case SetFreshness(admin, _) => NotOwner(i, auth, admin)
    case RegisterOracle(admin, _, _) => NotOwner(i, auth, admin)
    case UpdateOracle(admin, oracle, _) => Then(NotOwner(i, auth, admin), oracle !in i.oracles, OracleNotRegistered)
    case RemoveOracle(admin, oracle) => Then(NotOwner(i, auth, admin), oracle !in i.oracles, OracleNotRegistered)
    case SetQuorum(admin, quorum) => Then(NotOwner(i, auth, admin), quorum == 0, InvalidQuorumThreshold)
    case Pause(admin) => NotOwner(i, auth, admin)
    case Unpause(admin) => NotOwner(i, auth, admin)
    case AddAdmin(caller, target) => Then(NotAdmin(i, auth, caller), Administers(i, target), AdminAlreadyExists)
    case RemoveAdmin(caller, target) =>
      Then(Then(NotAdmin(i, auth, caller), !Administers(i, target), AdminNotFound), |i.admins| <= 1, Unauthorized)
    case SetThreshold(caller, threshold) =>
      Then(NotAdmin(i, auth, caller), !(0 < threshold <= |i.admins|), InvalidThreshold)
  }

  /** A further reason, looked at after the others. */
  function Then(reason: Reason, holds: bool, error: Error): Reason {
    if reason.Some? then reason else if holds then Some(error) else None
  }

  /** Why any call is refused. */
  ghost function NoCall(s: State, auth: set<Address>, call: Call): Reason {
    match call
    case OnPolicy(id, op) => NoPolicyCall(s, auth, id, op)
    case CreatePolicy(_, _, _, _, _, _) => NoCreation(s, auth, call)
    case Configure(setting) => NoSetting(s.world.inst, auth, setting)
    case VerifyOracle(oracle) => NoPrice(s.world.inst, s.world.now, oracle)
    case GetPolicy(id) => if id in s.policies then None else Some(PolicyNotFound)
    case GetTreasuryStats => if s.world.inst.premiumToken.None? then Some(NotInitialized) else None
    case CallPool(poolCall) => PoolEffects.NoPoolCall(s.world.pool, s.world.bank, auth, poolCall)
    case MoveTokens(token, from, to, amount) =>
      var bank := s.world.bank;
      var goes := if from.Some? then from.value in auth && CanSend(bank, token, from.value, to, amount)
                  else amount >= 0 && FitsI128(Balance(bank, token, to) + amount);
      if goes then None else Some(HostTrap)
  }

  /** The reply is the error of the first reason, and an acceptance when there is none. */
  predicate Answers<T>(r: Result<T>, reason: Reason) {
    if reason.Some? then r == Err(reason.value) else r.Ok?
  }

  predicate Meets(v: Verdict, reason: Reason) {
    if reason.Some? then v == Refuse(reason.value) else v.Accept?
  }

  lemma {:induction false} PayoutMeets(w: World, auth: set<Address>, id: nat, to: Address, viaPool: bool)
    requires id in w.inst.claims
    ensures var r := PayOut(w, auth, id, to, viaPool);
      Answers(r, NoPayout(w, auth, to, w.inst.claims[id].amount, viaPool))
  {
  }

  lemma {:induction false} SettlementMeets(w: World, auth: set<Address>, id: nat, p: Policy, viaPool: bool)
    ensures Meets(Settle(w, auth, id, p, viaPool), NoSettlement(w, auth, id, p, viaPool))
  {
    if id in w.inst.claims { PayoutMeets(w, auth, id, p.policyholder, viaPool); }
  }

  lemma {:induction false} PremiumMeets(w: World, auth: set<Address>, p: Policy, amount: int)
    ensures Meets(PayPremiumOn(w, auth, View(p, w.now), amount), NoPremium(w, auth, p, amount))
  {
  }

  lemma {:induction false} ProcessingMeets(w: World, auth: set<Address>, id: nat, p: Policy, approved: bool)
    ensures Meets(ProcessClaimOn(w, auth, id, View(p, w.now), approved), NoProcessing(w, auth, id, p, approved))
  {
    SettlementMeets(w, auth, id, p, true);
  }

  lemma {:induction false} VoteMeets(w: World, id: nat, p: Policy, voter: Address, approve: bool)
    ensures Meets(VoteClaimOn(w, id, View(p, w.now), voter, approve), NoVote(w, id, p, voter, approve))
  {
    SettlementMeets(w, {}, id, p, false);
  }

  lemma {:induction false} ChargeMeets(w: World, p: Policy, coverage: int, duration: nat)
    ensures Answers(Charge(w, p.policyholder, p.kind, coverage, duration), NoCharge(w, p, coverage, duration))
  {
  }

  lemma {:induction false} IncreaseMeets(w: World, auth: set<Address>, p: Policy, newCoverage: int)
    ensures Meets(IncreaseCoverageOn(w, auth, View(p, w.now), newCoverage), NoIncrease(w, auth, p, newCoverage))
  {
    if w.now < p.endTime { ChargeMeets(w, p, newCoverage - p.coverage, p.endTime - w.now); }
  }

  lemma {:induction false} ExtensionMeets(w: World, auth: set<Address>, p: Policy, extra: nat)
    ensures Meets(ExtendDurationOn(w, auth, View(p, w.now), extra), NoExtension(w, auth, p, extra))
  {
    ChargeMeets(w, p, p.coverage, extra);
  }

  lemma {:induction false} RenewalMeets(w: World, auth: set<Address>, p: Policy, duration: nat)
    ensures Meets(RenewPolicyOn(w, auth, View(p, w.now), duration), NoRenewal(w, auth, p, duration))
  {
    ChargeMeets(w, p, p.coverage, duration);
  }

  lemma {:induction false} PausedPayoutMeets(w: World, auth: set<Address>, id: nat, to: Address, paused: bool)
    requires id in w.inst.claims
    ensures Answers(PayOut(w.(inst := w.inst.(paused := paused)), auth, id, to, true),
                    NoPayout(w, auth, to, w.inst.claims[id].amount, true))
  {
    PayoutMeets(w.(inst := w.inst.(paused := paused)), auth, id, to, true);
  }

  lemma {:induction false} PriceAnswers(inst: Instance, now: nat, oracle: Symbol)
    ensures var r := Verify(inst, now, oracle);
      && Answers(r.1, NoPrice(inst, now, oracle))
      && (r.1.Ok? ==> r.0 == inst)
  {
  }

  lemma {:induction false} TriggerMeets(w: World, auth: set<Address>, id: nat, p: Policy, oracle: Symbol)
    requires OraclesAgree(w.inst)
    ensures Meets(Trigger(w, auth, id, p, oracle), NoTrigger(w, auth, id, p, oracle))
  {
    var (polled, confirmations) := Poll(w.inst, w.now, w.inst.oracleTypes);
    ListedOracles(w.inst);
    PollCounts(w.inst, w.now, w.inst.oracleTypes);
    PollOnlyPauses(w.inst, w.now, w.inst.oracleTypes);
    PriceAnswers(polled, w.now, oracle);
    assert NoPrice(polled, w.now, oracle) == NoPrice(w.inst, w.now, oracle);
    if id in w.inst.claims { PausedPayoutMeets(w, auth, id, p.policyholder, polled.paused); }
  }

  lemma {:induction false} OpMeets(w: World, auth: set<Address>, id: nat, p: Policy, op: PolicyOp)
    requires OraclesAgree(w.inst)
    ensures Meets(Operate(w, auth, id, View(p, w.now), op), NoOp(w, auth, id, p, op))
  {
    match op
    case PayPremium(amount) => PremiumMeets(w, auth, p, amount);
    case ProcessClaim(approved) => ProcessingMeets(w, auth, id, p, approved);
    case EvaluateOracle(_, oracle) => TriggerMeets(w, auth, id, p, oracle);
    case VoteClaim(voter, approve) => VoteMeets(w, id, p, voter, approve);
    case IncreaseCoverage(newCoverage) => IncreaseMeets(w, auth, p, newCoverage);
    case ExtendDuration(extra) => ExtensionMeets(w, auth, p, extra);
    case RenewPolicy(duration) => RenewalMeets(w, auth, p, duration);
    case SubmitClaim(_, _) =>
    case CancelPolicy =>
    case ChangeBeneficiary(_) =>
    case CheckExpiration =>
  }

  lemma {:induction false} PolicyCallAnswers(s: State, auth: set<Address>, id: nat, op: PolicyOp)
    requires OraclesAgree(s.world.inst)
    ensures Answers(Apply(s, auth, OnPolicy(id, op)).1, NoPolicyCall(s, auth, id, op))
  {
    assert NoEntry(s.world.inst, auth, op) == Gate(s.world.inst, auth, op);
    if id in s.policies { OpMeets(s.world, auth, id, s.policies[id], op); }
  }

  lemma {:induction false} SettingAnswers(inst: Instance, now: nat, auth: set<Address>, setting: Setting)
    ensures var c, reason := Update(inst, now, auth, setting), NoSetting(inst, auth, setting);
      if reason.Some? then c == Denied(reason.value) else c.Updated?
  {
  }

  lemma {:induction false} CreationAnswers(s: State, auth: set<Address>, call: Call)
    requires call.CreatePolicy?
    ensures Answers(Apply(s, auth, call).1, NoCreation(s, auth, call))
  {
  }

  /** Every call is refused with its first reason, and accepted when it has none. */
  lemma {:induction false} EveryCallAnswers(s: State, auth: set<Address>, call: Call)
    requires OraclesAgree(s.world.inst) && PoolLaws.Sound(s.world.pool)
    ensures Answers(Apply(s, auth, call).1, NoCall(s, auth, call))
  {
    match call
    case OnPolicy(id, op) => PolicyCallAnswers(s, auth, id, op);
    case CreatePolicy(_, _, _, _, _, _) => CreationAnswers(s, auth, call);
    case Configure(setting) => SettingAnswers(s.world.inst, s.world.now, auth, setting);
    case CallPool(poolCall) => PoolEffects.PoolCallAnswers(s.world.pool, s.world.bank, auth, poolCall);
    case VerifyOracle(_) =>
    case GetPolicy(_) =>
    case GetTreasuryStats =>
    case MoveTokens(_, _, _, _) =>
  }

  /** A refused call leaves everything as it was. */
  lemma {:induction false} RefusedChangesNothing(s: State, auth: set<Address>, call: Call)
    ensures Apply(s, auth, call).1.Err? ==> Apply(s, auth, call).0 == s
  {
  }
}
