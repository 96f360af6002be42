/**
 The insurance contract as a state machine.  A policy call is described by what
 it does to the policy as get_policy presents it (lazily expired) and to the
 rest of the world; a call that fails changes nothing but the clock.
 */
module Insurance {
  import opened Types
  import opened Sequences
  import opened Premium
  import Pool

  type Symbol = string

  datatype PolicyStatus = Active | Expired | Cancelled | ClaimPending | ClaimApproved | ClaimRejected

  datatype Policy = Policy(
    id: nat,
    policyholder: Address,
    beneficiary: Address,
    kind: PolicyType,
    coverage: int,
    premium: int,
    startTime: nat,
    endTime: nat,
    trigger: string,
    status: PolicyStatus,
    claimAmount: int,
    totalClaimed: int)
  {
    predicate IsExpired(now: nat) { now > endTime }

    function RemainingCoverage(): int { coverage - totalClaimed }
  }

  datatype Claim = Claim(policyId: nat, amount: int, proof: string, timestamp: nat, approved: bool)

  datatype ClaimVotes = ClaimVotes(approvals: seq<Address>, rejections: seq<Address>)

  /** A published PayoutEvent. */
  datatype Payout = Payout(policyId: nat, to: Address, amount: int)

  /** The contract's storage apart from the policies. */
  datatype Instance = Instance(
    admin: Option<Address>,
    admins: seq<Address>,
    threshold: nat,
    policyCounter: nat,
    maxPolicies: nat,
    premiumToken: Option<Address>,
    riskPool: Option<Address>,
    paused: bool,
    totalPremium: int,
    totalPayouts: int,
    claims: map<nat, Claim>,
    votes: map<nat, ClaimVotes>,
    payouts: seq<Payout>,
    oracles: map<Symbol, Address>,
    oracleTypes: seq<Symbol>,
    quorum: nat,
    freshness: nat,
    price: int,
    priceTime: nat)

  datatype World = World(inst: Instance, pool: Pool.PoolState, bank: Bank, now: nat)

  type Book = map<nat, Policy>

  datatype State = State(policies: Book, world: World)

  const MAX_POLICIES: nat := 1_000_000
  const MAX_TEXT_LEN: nat := 256
  const RENEWAL_GRACE_PERIOD: nat := 604_800

  /** Storage nobody has written: every absent key read as its default. */
  const DEPLOYED: Instance := Instance(None, [], 1, 0, MAX_POLICIES, None, None, false, 0, 0,
                                       map[], map[], [], map[], [], 1, 86400, 0, 0)

  /** The calls that read one stored policy and write it back. */
  datatype PolicyOp =
    | PayPremium(amount: int)
    | SubmitClaim(amount: int, proof: string)
    | ProcessClaim(approved: bool)
    | EvaluateOracle(caller: Address, oracle: Symbol)
    | CancelPolicy
    | IncreaseCoverage(newCoverage: int)
    | ExtendDuration(extra: nat)
    | ChangeBeneficiary(beneficiary: Address)
    | VoteClaim(voter: Address, approve: bool)
    | RenewPolicy(duration: nat)
    | CheckExpiration

  /** The calls that touch only the contract's own settings. */
  datatype Setting =
    | Init(admin: Address)
    | SetMaxPolicies(admin: Address, max: nat)
    | SetPremiumToken(admin: Address, token: Address)
    | SetRiskPool(admin: Address, pool: Address)
    | SetFreshness(admin: Address, window: nat)
    | UpdatePriceFeed(price: int, timestamp: nat)
    | RegisterOracle(admin: Address, oracle: Symbol, address: Address)
    | UpdateOracle(admin: Address, oracle: Symbol, address: Address)
    | RemoveOracle(admin: Address, oracle: Symbol)
    | SetQuorum(admin: Address, quorum: nat)
    | Pause(admin: Address)
    | Unpause(admin: Address)
    | AddAdmin(caller: Address, target: Address)
    | RemoveAdmin(caller: Address, target: Address)
    | SetThreshold(caller: Address, newThreshold: nat)

  datatype Call =
    | CreatePolicy(holder: Address, kind: PolicyType, coverage: int, premium: int, duration: nat, trigger: string)
    | OnPolicy(id: nat, op: PolicyOp)
    | Configure(setting: Setting)
    | VerifyOracle(oracle: Symbol)
    | GetPolicy(id: nat)
    | GetTreasuryStats
    | CallPool(call: Pool.PoolCall)
    | MoveTokens(token: Address, from: Option<Address>, to: Address, amount: int)

  datatype Reply =
    | Unit
    | NewPolicy(id: nat)
    | Status(status: PolicyStatus)
    | Found(policy: Policy)
    | Verified
    | Stats(premiumCollected: int, payoutsDistributed: int, balance: int)
    | PoolAmount(amount: int)

  datatype Verdict = Refuse(error: Error) | Accept(world: World, policy: Policy, reply: Reply)

  /** storage::get_policy: an Active policy past its end reads as Expired. */
  function View(p: Policy, now: nat): Policy {
    if p.status == Active && p.IsExpired(now) then p.(status := Expired) else p
  }

  // ----------------------------------------------------------------- payments

  /** Pay from the contract's own balance. */
  function PayFromContract(w: World, to: Address, amount: int): Result<World> {
    if w.inst.premiumToken.None? then Err(NotInitialized)
    else if Balance(w.bank, w.inst.premiumToken.value, InsuranceContract) < amount then Err(InsufficientContractBalance)
    else
      var moved := Transfer(w.bank, w.inst.premiumToken.value, InsuranceContract, to, amount);
      if moved.None? then Err(HostTrap) else Ok(w.(bank := moved.value))
  }

  /** Pay through the configured risk pool, or else from the contract.  An
      address that is not the risk pool answers no call. */
  function PayClaim(w: World, auth: set<Address>, to: Address, amount: int): Result<World> {
    if w.inst.riskPool.None? then PayFromContract(w, to, amount)
    else if w.inst.riskPool.value != RiskPoolContract then Err(HostTrap)
    else
      match Pool.FundStep(w.pool, w.bank, auth + {InsuranceContract}, to, amount)
      case Failed(_) => Err(HostTrap)
      case Done(pool, bank, _) => Ok(w.(pool := pool, bank := bank))
  }

  /** Collect a premium into the contract and count it. */
  function CollectPremium(w: World, from: Address, amount: int): Result<World> {
    if w.inst.premiumToken.None? then Err(NotInitialized)
    else
      var moved := Transfer(w.bank, w.inst.premiumToken.value, from, InsuranceContract, amount);
      if moved.None? then Err(HostTrap)
      else if !FitsI128(w.inst.totalPremium + amount) then Err(PremiumOverflow)
      else Ok(w.(bank := moved.value, inst := w.inst.(totalPremium := w.inst.totalPremium + amount)))
  }

  /** Count and publish a payout that has been transferred. */
  function BookPayout(w: World, id: nat, to: Address, amount: int): Result<World> {
    if !FitsI128(w.inst.totalPayouts + amount) then Err(ClaimAmountOverflow)
    else Ok(w.(inst := w.inst.(totalPayouts := w.inst.totalPayouts + amount,
                               payouts := w.inst.payouts + [Payout(id, to, amount)])))
  }

  // ------------------------------------------------------------- policy calls

  function PayPremiumOn(w: World, auth: set<Address>, p: Policy, amount: int): Verdict {
    if p.status != Active then Refuse(PolicyNotActive)
    else if p.policyholder !in auth then Refuse(HostTrap)
    else if amount != p.premium then Refuse(InvalidPremium)
    else
      match RoutePremium(w, auth, p.policyholder, amount)
      case Err(e) => Refuse(e)
      case Ok(w') =>
        if !FitsI128(w.inst.totalPremium + amount) then Refuse(PremiumOverflow)
        else Accept(w'.(inst := w.inst.(totalPremium := w.inst.totalPremium + amount)), p, Unit)
  }

  /** A premium goes to the pool, when there is one, and otherwise to the contract. */
  function RoutePremium(w: World, auth: set<Address>, from: Address, amount: int): Result<World> {
    if w.inst.premiumToken.None? then Err(NotInitialized)
    else
      var destination := if w.inst.riskPool.Some? then w.inst.riskPool.value else InsuranceContract;
      var moved := Transfer(w.bank, w.inst.premiumToken.value, from, destination, amount);
      if moved.None? then Err(HostTrap)
      else if w.inst.riskPool.Some? then DepositAndDistribute(w.(bank := moved.value), auth, amount)
      else Ok(w.(bank := moved.value))
  }

  /** add_liquidity in the contract's own name, then distribute_yield of the same amount. */
  function DepositAndDistribute(w: World, auth: set<Address>, amount: int): Result<World> {
    if w.inst.riskPool != Some(RiskPoolContract) then Err(HostTrap)
    else
      match Pool.AddStep(w.pool, w.bank, auth + {InsuranceContract}, InsuranceContract, amount)
      case Failed(_) => Err(HostTrap)
      case Done(added, bank, _) =>
        match Pool.DistributeStep(added, bank, auth + {InsuranceContract}, amount)
        case Failed(_) => Err(HostTrap)
        case Done(pool, bank', _) => Ok(w.(pool := pool, bank := bank'))
  }

  function SubmitClaimOn(w: World, auth: set<Address>, id: nat, p: Policy, amount: int, proof: string): Verdict {
    if p.status != Active then Refuse(PolicyNotActive)
    else if p.policyholder !in auth then Refuse(HostTrap)
    else if amount > p.RemainingCoverage() then Refuse(ClaimExceedsCoverage)
    else if amount <= 0 then Refuse(InvalidClaimAmount)
    else if |proof| > MAX_TEXT_LEN then Refuse(ProofTooLong)
    else if w.now > p.endTime then Refuse(PolicyExpired)
    else Accept(w.(inst := w.inst.(claims := w.inst.claims[id := Claim(id, amount, proof, w.now, false)])),
                p.(claimAmount := amount, status := ClaimPending), Unit)
  }

  /** The policy after a claim of this amount has been approved by an admin or a ballot. */
  function Approved(p: Policy, amount: int): Policy {
    p.(totalClaimed := p.totalClaimed + amount,
       status := if p.totalClaimed + amount >= p.coverage then ClaimApproved else Active,
       claimAmount := 0)
  }

  function Rejected(p: Policy): Policy { p.(status := Active, claimAmount := 0) }

  /** Settle a pending claim: count it on the policy, pay it, book it, and mark it approved. */
  function Settle(w: World, auth: set<Address>, id: nat, p: Policy, viaPool: bool): Verdict {
    if id !in w.inst.claims then Refuse(ClaimNotFound)
    else if !FitsI128(p.totalClaimed + w.inst.claims[id].amount) then Refuse(ClaimAmountOverflow)
    else
      match PayOut(w, auth, id, p.policyholder, viaPool)
      case Err(e) => Refuse(e)
      case Ok(paid) => Accept(paid, Approved(p, w.inst.claims[id].amount), Unit)
  }

  /** What all three payout paths do: pay the stored claim, book it, mark it approved. */
  function PayOut(w: World, auth: set<Address>, id: nat, to: Address, viaPool: bool): Result<World> {
    if id !in w.inst.claims then Err(ClaimNotFound)
    else
      var claim := w.inst.claims[id];
      var paid := if viaPool then PayClaim(w, auth, to, claim.amount) else PayFromContract(w, to, claim.amount);
      if paid.Err? then paid else
      var booked := BookPayout(paid.value, id, to, claim.amount);
      if booked.Err? then booked
      else Ok(booked.value.(inst := booked.value.inst.(claims := w.inst.claims[id := claim.(approved := true)])))
  }

  function ProcessClaimOn(w: World, auth: set<Address>, id: nat, p: Policy, approved: bool): Verdict {
    if id !in w.inst.claims then Refuse(ClaimNotFound)
    else if p.status != ClaimPending then Refuse(NoPendingClaim)
    else if approved then Settle(w, auth, id, p, true)
    else Accept(w, Rejected(p), Unit)
  }

  predicate ThresholdReached(inst: Instance, count: nat) { count >= inst.threshold }

  /** threshold > total is treated as a forced rejection too. */
  predicate RejectionForced(inst: Instance, count: nat) {
    inst.threshold > |inst.admins| || count > |inst.admins| - inst.threshold
  }

  function Ballot(inst: Instance, id: nat): ClaimVotes {
    if id in inst.votes then inst.votes[id] else ClaimVotes([], [])
  }

  datatype Vote = Vote(voter: Address, approve: bool)

  function Cast(b: ClaimVotes, v: Vote): ClaimVotes {
    if v.approve then b.(approvals := b.approvals + [v.voter]) else b.(rejections := b.rejections + [v.voter])
  }

  function VoteClaimOn(w: World, id: nat, p: Policy, voter: Address, approve: bool): Verdict {
    if p.status != ClaimPending then Refuse(NoPendingClaim)
    else
      var ballot := Ballot(w.inst, id);
      if voter in ballot.approvals || voter in ballot.rejections then Refuse(AlreadyVoted)
      else Decide(w, id, p, Cast(ballot, Vote(voter, approve)))
  }

  /** What the ballot comes to with the new vote on it. */
  function Decide(w: World, id: nat, p: Policy, cast: ClaimVotes): Verdict {
    if ThresholdReached(w.inst, |cast.approvals|) then
      match Settle(w, {}, id, p, false)
      case Refuse(e) => Refuse(e)
      case Accept(w', q, reply) => Accept(w'.(inst := w'.inst.(votes := w.inst.votes - {id})), q, reply)
    else if RejectionForced(w.inst, |cast.rejections|) then
      if id !in w.inst.claims then Refuse(ClaimNotFound)
      else Accept(w.(inst := w.inst.(votes := w.inst.votes - {id})), Rejected(p), Unit)
    else Accept(w.(inst := w.inst.(votes := w.inst.votes[id := cast])), p, Unit)
  }

  // ------------------------------------------------------------------ oracles

  datatype Answer = Confirmed | BadTimestamp | NoData

  /** PriceOracle checks freshness; the other providers always confirm. */
  function Consult(inst: Instance, now: nat, oracle: Symbol): Answer {
    if oracle != "Price" then Confirmed
    else if inst.priceTime == 0 then NoData
    else if inst.priceTime > now then BadTimestamp
    else if now - inst.priceTime > inst.freshness then NoData
    else Confirmed
  }

  /** verify_oracle_condition: missing data pauses the contract as it fails. */
  function Verify(inst: Instance, now: nat, oracle: Symbol): (Instance, Result<Reply>) {
    match Consult(inst, now, oracle)
    case Confirmed => (inst, Ok(Verified))
    case NoData => (inst.(paused := true), Err(OracleDataUnavailable))
    case BadTimestamp => (inst, Err(InvalidOracleTimestamp))
  }

  /** The quorum loop: consult each registered oracle type in order and count
      the confirmations; a pause set on the way stays set. */
  function Poll(inst: Instance, now: nat, types: seq<Symbol>): (Instance, nat)
    decreases |types|
  {
    if types == [] then (inst, 0)
    else if types[0] in inst.oracles then
      var (inst', r) := Verify(inst, now, types[0]);
      var (inst'', n) := Poll(inst', now, types[1..]);
      (inst'', n + if r.Ok? then 1 else 0)
    else Poll(inst, now, types[1..])
  }

  function EvaluateOracleOn(w: World, auth: set<Address>, id: nat, p: Policy, caller: Address,
                            oracle: Symbol): Verdict {
    if p.status != ClaimPending then Refuse(NoPendingClaim)
    else if oracle !in w.inst.oracles then Refuse(OracleNotRegistered)
    else if w.inst.admin.None? then Refuse(HostTrap)
    else if caller != w.inst.oracles[oracle] && caller != w.inst.admin.value then Refuse(Unauthorized)
    else Trigger(w, auth, id, p, oracle)
  }

  /** The quorum is counted before the named oracle is asked, and decides after it. */
  function Trigger(w: World, auth: set<Address>, id: nat, p: Policy, oracle: Symbol): Verdict {
    var (polled, confirmations) := Poll(w.inst, w.now, w.inst.oracleTypes);
    var (inst, primary) := Verify(polled, w.now, oracle);
    if primary.Err? then Refuse(primary.error)
    else if confirmations < w.inst.quorum then Refuse(OracleConditionNotMet)
    else
      match PayOut(w.(inst := inst), auth, id, p.policyholder, true)
      case Err(e) => Refuse(e)
      case Ok(paid) => Accept(paid, p.(status := ClaimApproved), Unit)
  }

  // ------------------------------------------------------------ modifications

  /** The calculated premium of a modification, collected. */
  function Charge(w: World, from: Address, kind: PolicyType, coverage: int, duration: nat): (r: Result<World>)
    ensures r.Ok? ==> CalculatePremium(kind, coverage, duration).Ok?
  {
    var premium := CalculatePremium(kind, coverage, duration);
    if premium.Err? then Err(premium.error) else CollectPremium(w, from, premium.value)
  }

  function CancelPolicyOn(w: World, auth: set<Address>, p: Policy): Verdict {
    if p.policyholder !in auth then Refuse(HostTrap)
    else if p.status != Active then Refuse(PolicyNotActive)
    else Accept(w, p.(status := Cancelled), Unit)
  }

  function IncreaseCoverageOn(w: World, auth: set<Address>, p: Policy, newCoverage: int): Verdict {
    if p.status != Active then Refuse(PolicyNotActive)
    else if p.policyholder !in auth then Refuse(HostTrap)
    else
      match ChargeIncrease(w, p, newCoverage)
      case Err(e) => Refuse(e)
      case Ok(charged) => Accept(charged, p.(coverage := newCoverage), Unit)
  }

  /** The premium of the added coverage for the remaining time. */
  function ChargeIncrease(w: World, p: Policy, newCoverage: int): Result<World> {
    if newCoverage <= p.coverage then Err(CoverageDecrease)
    else if w.now >= p.endTime then Err(PolicyAlreadyExpired)
    else Charge(w, p.policyholder, p.kind, newCoverage - p.coverage, p.endTime - w.now)
  }

  function ExtendDurationOn(w: World, auth: set<Address>, p: Policy, extra: nat): Verdict {
    if p.status != Active then Refuse(PolicyNotActive)
    else if p.policyholder !in auth then Refuse(HostTrap)
    else if w.now >= p.endTime then Refuse(PolicyAlreadyExpired)
    else
      match Charge(w, p.policyholder, p.kind, p.coverage, extra)
      case Err(e) => Refuse(e)
      case Ok(charged) =>
        if p.endTime + extra > U64_MAX then Refuse(HostTrap)
        else Accept(charged, p.(endTime := p.endTime + extra), Unit)
  }

  function ChangeBeneficiaryOn(w: World, auth: set<Address>, p: Policy, beneficiary: Address): Verdict {
    if p.status != Active then Refuse(PolicyNotActive)
    else if p.policyholder !in auth then Refuse(HostTrap)
    else Accept(w, p.(beneficiary := beneficiary), Unit)
  }

  function RenewPolicyOn(w: World, auth: set<Address>, p: Policy, duration: nat): Verdict {
    if p.policyholder !in auth then Refuse(HostTrap)
    else if duration == 0 then Refuse(InvalidDuration)
    else if p.status != Active && p.status != Expired then Refuse(PolicyNotRenewable)
    else
      match RenewedEnd(p, w.now, duration)
      case Err(e) => Refuse(e)
      case Ok(end) =>
        match Charge(w, p.policyholder, p.kind, p.coverage, duration)
        case Err(e) => Refuse(e)
        case Ok(charged) =>
          var premium := CalculatePremium(p.kind, p.coverage, duration).value;
          Accept(charged, p.(premium := premium, endTime := end, status := Active), Unit)
  }

  /** The end a renewal leads to, within the grace period. */
  function RenewedEnd(p: Policy, now: nat, duration: nat): Result<nat> {
    if now > p.endTime && p.endTime + RENEWAL_GRACE_PERIOD > U64_MAX then Err(HostTrap)
    else if now > p.endTime && now > p.endTime + RENEWAL_GRACE_PERIOD then Err(RenewalGracePeriodExpired)
    else
      var base := if now > p.endTime then now else p.endTime;
      if base + duration > U64_MAX then Err(HostTrap) else Ok(base + duration)
  }

  function Operate(w: World, auth: set<Address>, id: nat, p: Policy, op: PolicyOp): Verdict {
    match op
    case PayPremium(amount) => PayPremiumOn(w, auth, p, amount)
    case SubmitClaim(amount, proof) => SubmitClaimOn(w, auth, id, p, amount, proof)
    case ProcessClaim(approved) => ProcessClaimOn(w, auth, id, p, approved)
    case EvaluateOracle(caller, oracle) => EvaluateOracleOn(w, auth, id, p, caller, oracle)
    case CancelPolicy => CancelPolicyOn(w, auth, p)
    case IncreaseCoverage(newCoverage) => IncreaseCoverageOn(w, auth, p, newCoverage)
    case ExtendDuration(extra) => ExtendDurationOn(w, auth, p, extra)
    case ChangeBeneficiary(beneficiary) => ChangeBeneficiaryOn(w, auth, p, beneficiary)
    case VoteClaim(voter, approve) => VoteClaimOn(w, id, p, voter, approve)
    case RenewPolicy(duration) => RenewPolicyOn(w, auth, p, duration)
    case CheckExpiration => Accept(w, p, Status(p.status))
  }

  // ------------------------------------------------------- guards and settings

  predicate IsAdmin(inst: Instance, a: Address) {
    if inst.admins == [] then inst.admin == Some(a) else a in inst.admins
  }

  function RequireAdmin(inst: Instance, auth: set<Address>, caller: Address): Option<Error> {
    if caller !in auth then Some(HostTrap)
    else if !IsAdmin(inst, caller) then Some(Unauthorized)
    else None
  }

  /** The check shared by the calls reserved to the primary admin. */
  function RequireOwner(inst: Instance, auth: set<Address>, caller: Address): Option<Error> {
    if caller !in auth || inst.admin.None? then Some(HostTrap)
    else if caller != inst.admin.value then Some(Unauthorized)
    else None
  }

  /** What a call checks before it looks a policy up. */
  function Gate(inst: Instance, auth: set<Address>, op: PolicyOp): Option<Error> {
    match op
    case ProcessClaim(_) =>
      if inst.admin.None? || inst.admin.value !in auth then Some(HostTrap) else None
    case CheckExpiration => None
    case EvaluateOracle(caller, _) =>
      if inst.paused then Some(ContractPaused) else if caller !in auth then Some(HostTrap) else None
    case VoteClaim(voter, _) =>
      if inst.paused then Some(ContractPaused) else RequireAdmin(inst, auth, voter)
    case ExtendDuration(extra) =>
      if inst.paused then Some(ContractPaused) else if extra == 0 then Some(InvalidDuration) else None
    case _ => if inst.paused then Some(ContractPaused) else None
  }

  datatype Change = Denied(error: Error) | Updated(inst: Instance)

  function SetOracle(inst: Instance, oracle: Symbol, address: Address): Instance {
    inst.(oracles := inst.oracles[oracle := address],
          oracleTypes := if oracle in inst.oracleTypes then inst.oracleTypes else inst.oracleTypes + [oracle])
  }

  function DropOracle(inst: Instance, oracle: Symbol): Instance {
    inst.(oracles := inst.oracles - {oracle}, oracleTypes := Without(inst.oracleTypes, oracle))
  }

  function OwnerSets(inst: Instance, auth: set<Address>, admin: Address, value: Instance): Change {
    var denied := RequireOwner(inst, auth, admin);
    if denied.Some? then Denied(denied.value) else Updated(value)
  }

  function Update(inst: Instance, now: nat, auth: set<Address>, setting: Setting): Change {
    match setting
    case Init(admin) =>
      if inst.admin.Some? then Denied(AlreadyInitialized)
      else Updated(inst.(admin := Some(admin), admins := [admin], threshold := 1, policyCounter := 0,
                         maxPolicies := MAX_POLICIES, quorum := 1))
    case SetMaxPolicies(admin, max) =>
      var s := OwnerSets(inst, auth, admin, inst.(maxPolicies := max));
      if s.Updated? && max == 0 then Denied(InvalidAmount) else s
    case SetPremiumToken(admin, token) => OwnerSets(inst, auth, admin, inst.(premiumToken := Some(token)))
    case SetRiskPool(admin, pool) => OwnerSets(inst, auth, admin, inst.(riskPool := Some(pool)))
    case SetFreshness(admin, window) => OwnerSets(inst, auth, admin, inst.(freshness := window))
    case UpdatePriceFeed(price, timestamp) =>
      var fed := inst.(price := price, priceTime := timestamp);
      Updated(if now > timestamp && now - timestamp > inst.freshness then fed.(paused := true) else fed)
    case RegisterOracle(admin, oracle, address) => OwnerSets(inst, auth, admin, SetOracle(inst, oracle, address))
    case UpdateOracle(admin, oracle, address) =>
      var s := OwnerSets(inst, auth, admin, SetOracle(inst, oracle, address));
      if s.Updated? && oracle !in inst.oracles then Denied(OracleNotRegistered) else s
    case RemoveOracle(admin, oracle) =>
      var s := OwnerSets(inst, auth, admin, DropOracle(inst, oracle));
      if s.Updated? && oracle !in inst.oracles then Denied(OracleNotRegistered) else s
    case SetQuorum(admin, quorum) =>
      var s := OwnerSets(inst, auth, admin, inst.(quorum := quorum));
      if s.Updated? && quorum == 0 then Denied(InvalidQuorumThreshold) else s
    case Pause(admin) => OwnerSets(inst, auth, admin, inst.(paused := true))
    case Unpause(admin) => OwnerSets(inst, auth, admin, inst.(paused := false))
    case AddAdmin(caller, target) =>
      var denied := RequireAdmin(inst, auth, caller);
      if denied.Some? then Denied(denied.value)
      else if IsAdmin(inst, target) then Denied(AdminAlreadyExists)
      else Updated(inst.(admins := inst.admins + [target]))
    case RemoveAdmin(caller, target) =>
      var denied := RequireAdmin(inst, auth, caller);
      if denied.Some? then Denied(denied.value)
      else if !IsAdmin(inst, target) then Denied(AdminNotFound)
      else if |inst.admins| <= 1 then Denied(Unauthorized)
      else
        var left := Without(inst.admins, target);
        Updated(inst.(admins := left, threshold := if inst.threshold > |left| then |left| else inst.threshold))
    case SetThreshold(caller, newThreshold) =>
      var denied := RequireAdmin(inst, auth, caller);
      if denied.Some? then Denied(denied.value)
      else if newThreshold == 0 || newThreshold > |inst.admins| then Denied(InvalidThreshold)
      else Updated(inst.(threshold := newThreshold))
  }

  // ----------------------------------------------------------------- the step

  function Create(s: State, auth: set<Address>, holder: Address, kind: PolicyType, coverage: int, premium: int,
                  duration: nat, trigger: string): (State, Result<Reply>)
  {
    var inst, now := s.world.inst, s.world.now;
    if inst.paused then (s, Err(ContractPaused))
    else if holder !in auth then (s, Err(HostTrap))
    else if coverage <= 0 then (s, Err(InvalidAmount))
    else if premium <= 0 then (s, Err(InvalidPremium))
    else if duration == 0 then (s, Err(InvalidDuration))
    else if |trigger| > MAX_TEXT_LEN then (s, Err(TriggerConditionTooLong))
    else if inst.policyCounter >= inst.maxPolicies then (s, Err(MaxPoliciesReached))
    else
      var due := CalculatePremium(kind, coverage, duration);
      if due.Err? then (s, Err(due.error))
      else if premium != due.value then (s, Err(PremiumMismatch))
      else if now + duration > U64_MAX then (s, Err(HostTrap))
      else
        var id := inst.policyCounter;
        (State(s.policies[id := Policy(id, holder, holder, kind, coverage, premium, now, now + duration, trigger,
                                       Active, 0, 0)],
               s.world.(inst := inst.(policyCounter := id + 1))),
         Ok(NewPolicy(id)))
  }

  /** One call at the current time. */
  function Apply(s: State, auth: set<Address>, call: Call): (State, Result<Reply>) {
    var w := s.world;
    match call
    case OnPolicy(id, op) =>
      (var denied := Gate(w.inst, auth, op);
       if denied.Some? then (s, Err(denied.value))
       else if id !in s.policies then (s, Err(PolicyNotFound))
       else
         match Operate(w, auth, id, View(s.policies[id], w.now), op)
         case Refuse(e) => (s, Err(e))
         case Accept(w', p, reply) => (State(s.policies[id := p], w'), Ok(reply)))
    case CreatePolicy(holder, kind, coverage, premium, duration, trigger) =>
      Create(s, auth, holder, kind, coverage, premium, duration, trigger)
    case Configure(setting) =>
      (match Update(w.inst, w.now, auth, setting)
       case Denied(e) => (s, Err(e))
       case Updated(inst) => (s.(world := w.(inst := inst)), Ok(Unit)))
    case GetPolicy(id) =>
      if id !in s.policies then (s, Err(PolicyNotFound)) else (s, Ok(Found(View(s.policies[id], w.now))))
    case GetTreasuryStats =>
      if w.inst.premiumToken.None? then (s, Err(NotInitialized))
      else (s, Ok(Stats(w.inst.totalPremium, w.inst.totalPayouts,
                        Balance(w.bank, w.inst.premiumToken.value, InsuranceContract))))
    case VerifyOracle(oracle) =>
      // The write it makes before failing is rolled back with the failure.
      (s, Verify(w.inst, w.now, oracle).1)
    case MoveTokens(token, from, to, amount) =>
      (var moved := Move(w.bank, token, from, to, amount);
       if (from.Some? && from.value !in auth) || moved.None? then (s, Err(HostTrap))
       else (s.(world := w.(bank := moved.value)), Ok(Unit)))
    case CallPool(poolCall) =>
      match Pool.Apply(w.pool, w.bank, auth, poolCall)
      case Failed(e) => (s, Err(e))
      case Done(pool, bank, amount) => (s.(world := w.(pool := pool, bank := bank)), Ok(PoolAmount(amount)))
  }

  /** A transaction: the ledger clock moves forward, then one call runs with the
      authorisations it carries. */
  datatype Tx = Tx(elapsed: nat, auth: set<Address>, call: Call)

  function Advance(s: State, elapsed: nat): State {
    s.(world := s.world.(now := s.world.now + elapsed))
  }

  function Step(s: State, tx: Tx): (State, Result<Reply>) {
    Apply(Advance(s, tx.elapsed), tx.auth, tx.call)
  }

  function Run(s: State, txs: seq<Tx>): State
    decreases |txs|
  {
    if txs == [] then s else Run(Step(s, txs[0]).0, txs[1..])
  }

  function Replies(s: State, txs: seq<Tx>): (rs: seq<Result<Reply>>)
    ensures |rs| == |txs|
    decreases |txs|
  {
    if txs == [] then [] else [Step(s, txs[0]).1] + Replies(Step(s, txs[0]).0, txs[1..])
  }

  /** A freshly deployed contract beside a freshly deployed pool. */
  function Genesis(bank: Bank, poolToken: Option<Address>, now: nat): State {
    State(map[], World(DEPLOYED, Pool.Deployed(poolToken), bank, now))
  }
}
