/**
 The StellarInsure contract in its own form: an object whose entry points read
 and rewrite storage step by step, expire policies as they go, and call the
 token and the risk pool.  Each body is proved against the state machine of
 module Insurance; Invoke adds the host's rollback of a failed call.
 */
module InsureContract {
  import opened Types
  import opened Sequences
  import opened Premium
  import opened Insurance
  import opened PoolContract

  /** A body implements a step when it returns the step's reply and, on success,
      has written exactly the step's state. */
  ghost predicate Implements(step: (State, Result<Reply>), r: Result<Reply>, state: State) {
    r == step.1 && (r.Ok? ==> state == step.0)
  }

  /** A policy body performs an operation when, past its gate and its lookup, it
      delivers the verdict the operation has on the policy as loaded. */
  ghost predicate Performs(s: State, id: nat, gate: Option<Error>, verdict: Verdict, r: Result<Reply>, state: State) {
    if gate.Some? then r == Err(gate.value)
    else if id !in s.policies then r == Err(PolicyNotFound)
    else
      match verdict
      case Refuse(e) => r == Err(e)
      case Accept(w, p, reply) => r == Ok(reply) && state == State(s.policies[id := p], w)
  }

  /** A settings body makes the change it should and touches nothing else. */
  ghost predicate Changes(change: Change, r: Result<Reply>, before: State, after: State) {
    match change
    case Denied(e) => r == Err(e)
    case Updated(inst) => r == Ok(Unit) && after == before.(world := before.world.(inst := inst))
  }

  /** The policy an operation works on. */
  ghost function Loaded(s: State, id: nat): Policy {
    if id in s.policies then View(s.policies[id], s.world.now)
    else Policy(0, RiskPoolContract, RiskPoolContract, Weather, 0, 0, 0, 0, "", Active, 0, 0)
  }

  /** The same for a payment made on the way: None is success. */
  ghost predicate Pays(payment: Result<World>, failed: Option<Error>, world: World) {
    match payment
    case Err(e) => failed == Some(e)
    case Ok(w) => failed == None && world == w
  }

  class StellarInsure {
    const host: Host
    const pool: RiskPool
    var policies: Book
    var admin: Option<Address>
    var admins: seq<Address>
    var threshold: nat
    var policyCounter: nat
    var maxPolicies: nat
    var premiumToken: Option<Address>
    var riskPool: Option<Address>
    var paused: bool
    var totalPremium: int
    var totalPayouts: int
    var claims: map<nat, Claim>
    var votes: map<nat, ClaimVotes>
    var payouts: seq<Payout>
    var oracles: map<Symbol, Address>
    var oracleTypes: seq<Symbol>
    var quorum: nat
    var freshness: nat
    var price: int
    var priceTime: nat

    predicate Valid() { pool.host == host }

    function Inst(): Instance
      reads this
    {
      Instance(admin, admins, threshold, policyCounter, maxPolicies, premiumToken, riskPool, paused, totalPremium,
               totalPayouts, claims, votes, payouts, oracles, oracleTypes, quorum, freshness, price, priceTime)
    }

    function Outside(): World
      reads this, pool, host
    {
      World(Inst(), pool.State(), host.bank, host.time)
    }

    function Whole(): State
      reads this, pool, host
    {
      State(policies, Outside())
    }

    constructor (host: Host, pool: RiskPool)
      requires pool.host == host
      ensures Valid() && this.host == host && this.pool == pool
      ensures Whole() == State(map[], World(DEPLOYED, pool.State(), host.bank, host.time))
    {
      this.host := host;
      this.pool := pool;
      policies := map[];
      admin, admins, threshold, policyCounter, maxPolicies := None, [], 1, 0, MAX_POLICIES;
      premiumToken, riskPool, paused, totalPremium, totalPayouts := None, None, false, 0, 0;
      claims, votes, payouts, oracles, oracleTypes := map[], map[], [], map[], [];
      quorum, freshness, price, priceTime := 1, 86400, 0, 0;
    }

    // ------------------------------------------------------- storage helpers

    /** storage::get_policy, which expires on read. */
    function Load(id: nat): Result<Policy>
      reads this, host
    {
      if id !in policies then Err(PolicyNotFound) else Ok(View(policies[id], host.time))
    }

    /** expire_policy_if_needed looks at the raw stored status, not at the copy
        it is handed, before writing the expiry down. */
    method ExpireIfNeeded(policy: Policy, id: nat) returns (current: Policy)
      requires Load(id) == Ok(policy)
      modifies this`policies
      ensures current == policy
      ensures policies == old(policies)[id := policy]
    {
      current := policy;
      if id in policies {
        var raw := policies[id];
        if raw.status == Active && raw.IsExpired(host.time) {
          current := current.(status := Expired);
          policies := policies[id := current];
        }
      }
    }

    method IsAdminNow(a: Address) returns (yes: bool)
      ensures yes == IsAdmin(Inst(), a)
    {
      if |admins| == 0 { return admin == Some(a); }
      yes := VecContains(admins, a);
    }

    method RequireAdminNow(auth: set<Address>, caller: Address) returns (denied: Option<Error>)
      ensures denied == RequireAdmin(Inst(), auth, caller)
    {
      if caller !in auth { return Some(HostTrap); }
      var yes := IsAdminNow(caller);
      if !yes { return Some(Unauthorized); }
      return None;
    }

    // -------------------------------------------------------------- payments

    method PayFromContractNow(to: Address, amount: int) returns (failed: Option<Error>)
      modifies host`bank
      ensures Pays(PayFromContract(old(Outside()), to, amount), failed, Outside())
    {
      if premiumToken.None? { return Some(NotInitialized); }
      var currentBalance := Balance(host.bank, premiumToken.value, InsuranceContract);
      if currentBalance < amount { return Some(InsufficientContractBalance); }
      var ok := host.TransferToken(premiumToken.value, InsuranceContract, to, amount);
      if !ok { return Some(HostTrap); }
      return None;
    }

    method PayClaimNow(auth: set<Address>, to: Address, amount: int) returns (failed: Option<Error>)
      requires Valid()
      modifies pool, host`bank
      ensures Pays(PayClaim(old(Outside()), auth, to, amount), failed, Outside())
    {
      if riskPool.Some? {
        if riskPool.value != RiskPoolContract { return Some(HostTrap); }
        var r := pool.FundPayoutBody(auth + {InsuranceContract}, to, amount);
        if r.Err? { return Some(HostTrap); }
        return None;
      } else {
        failed := PayFromContractNow(to, amount);
      }
    }

    method CollectPremiumNow(from: Address, amount: int) returns (failed: Option<Error>)
      modifies this`totalPremium, host`bank
      ensures Pays(CollectPremium(old(Outside()), from, amount), failed, Outside())
    {
      if premiumToken.None? { return Some(NotInitialized); }
      var ok := host.TransferToken(premiumToken.value, from, InsuranceContract, amount);
      if !ok { return Some(HostTrap); }
      if !FitsI128(totalPremium + amount) { return Some(PremiumOverflow); }
      totalPremium := totalPremium + amount;
      return None;
    }

    /** Price a modification and collect it. */
    method ChargeNow(from: Address, kind: PolicyType, coverage: int, duration: nat) returns (r: Result<int>)
      modifies this`totalPremium, host`bank
      ensures match Charge(old(Outside()), from, kind, coverage, duration)
              case Err(e) => r == Err(e)
              case Ok(w) => r == CalculatePremium(kind, coverage, duration) && Outside() == w
    {
      var premium := CalculatePremium(kind, coverage, duration);
      if premium.Err? { return premium; }
      var failed := CollectPremiumNow(from, premium.value);
      if failed.Some? { return Err(failed.value); }
      return premium;
    }

    method BookPayoutNow(id: nat, to: Address, amount: int) returns (failed: Option<Error>)
      modifies this`totalPayouts, this`payouts
      ensures Pays(BookPayout(old(Outside()), id, to, amount), failed, Outside())
    {
      if !FitsI128(totalPayouts + amount) { return Some(ClaimAmountOverflow); }
      totalPayouts := totalPayouts + amount;
      payouts := payouts + [Payout(id, to, amount)];
      return None;
    }

    /** The lines process_claim and vote_claim share: count the claim on the
        policy, pay it, book it, and store both records. */
    method SettleNow(auth: set<Address>, id: nat, pending: Policy, viaPool: bool) returns (failed: Option<Error>)
      requires Valid()
      modifies this`policies, this`claims, this`totalPayouts, this`payouts, pool, host`bank
      ensures match Settle(old(Outside()), auth, id, pending, viaPool)
              case Refuse(e) => failed == Some(e)
              case Accept(w, p, _) => failed == None && Whole() == State(old(policies)[id := p], w)
    {
      if id !in claims { return Some(ClaimNotFound); }
      var policy, claim := pending, claims[id];
      if !FitsI128(policy.totalClaimed + claim.amount) { return Some(ClaimAmountOverflow); }
      policy := policy.(totalClaimed := policy.totalClaimed + claim.amount);
      if policy.totalClaimed >= policy.coverage {
        policy := policy.(status := ClaimApproved);
      } else {
        policy := policy.(status := Active);
      }
      policy := policy.(claimAmount := 0);
      failed := PayOutNow(auth, id, policy.policyholder, viaPool);
      if failed.Some? { return; }
      policies := policies[id := policy];
    }

    /** Pay the stored claim, book the payout, store the claim as approved. */
    method PayOutNow(auth: set<Address>, id: nat, to: Address, viaPool: bool) returns (failed: Option<Error>)
      requires Valid()
      modifies this`claims, this`totalPayouts, this`payouts, pool, host`bank
      ensures Pays(PayOut(old(Outside()), auth, id, to, viaPool), failed, Outside())
    {
      if id !in claims { return Some(ClaimNotFound); }
      var claim := claims[id];
      claim := claim.(approved := true);
      if viaPool {
        failed := PayClaimNow(auth, to, claim.amount);
      } else {
        failed := PayFromContractNow(to, claim.amount);
      }
      if failed.Some? { return; }
      failed := BookPayoutNow(id, to, claim.amount);
      if failed.Some? { return; }
      claims := claims[id := claim];
    }

    /** A premium paid into the pool is deposited in the contract's own name and
        distributed to the providers. */
    method DepositAndDistributeNow(auth: set<Address>, amount: int) returns (failed: Option<Error>)
      requires Valid()
      modifies pool
      ensures Pays(DepositAndDistribute(old(Outside()), auth, amount), failed, Outside())
    {
      if riskPool != Some(RiskPoolContract) { return Some(HostTrap); }
      var added := pool.AddLiquidityBody(auth + {InsuranceContract}, InsuranceContract, amount);
      if added.Err? { return Some(HostTrap); }
      var shared := pool.DistributeYieldBody(auth + {InsuranceContract}, amount);
      if shared.Err? { return Some(HostTrap); }
      return None;
    }

    method RoutePremiumNow(auth: set<Address>, from: Address, amount: int) returns (failed: Option<Error>)
      requires Valid()
      modifies pool, host`bank
      ensures Pays(RoutePremium(old(Outside()), auth, from, amount), failed, Outside())
    {
      if premiumToken.None? { return Some(NotInitialized); }
      var destination := if riskPool.Some? then riskPool.value else InsuranceContract;
      var ok := host.TransferToken(premiumToken.value, from, destination, amount);
      if !ok { return Some(HostTrap); }
      if riskPool.Some? {
        failed := DepositAndDistributeNow(auth, amount);
        return;
      }
      return None;
    }

    // ---------------------------------------------------------- policy calls

    method CreatePolicyBody(auth: set<Address>, holder: Address, kind: PolicyType, coverage: int, premium: int,
                            duration: nat, trigger: string) returns (r: Result<Reply>)
      modifies this
      ensures Implements(Create(old(Whole()), auth, holder, kind, coverage, premium, duration, trigger), r, Whole())
    {
      if paused { return Err(ContractPaused); }
      if holder !in auth { return Err(HostTrap); }
      if coverage <= 0 { return Err(InvalidAmount); }
      if premium <= 0 { return Err(InvalidPremium); }
      if duration == 0 { return Err(InvalidDuration); }
      if |trigger| > MAX_TEXT_LEN { return Err(TriggerConditionTooLong); }
      var id := policyCounter;
      if id >= maxPolicies { return Err(MaxPoliciesReached); }
      var calculated := CalculatePremium(kind, coverage, duration);
      if calculated.Err? { return Err(calculated.error); }
      if premium != calculated.value { return Err(PremiumMismatch); }
      var nextId := id + 1;
      var now := host.time;
      if now + duration > U64_MAX { return Err(HostTrap); }
      var policy := Policy(id, holder, holder, kind, coverage, premium, now, now + duration, trigger, Active, 0, 0);
      policies := policies[id := policy];
      policyCounter := nextId;
      return Ok(NewPolicy(id));
    }

    method PayPremiumBody(auth: set<Address>, id: nat, amount: int) returns (r: Result<Reply>)
      requires Valid()
      modifies this, pool, host`bank
      ensures Performs(old(Whole()), id, Gate(old(Inst()), auth, PayPremium(amount)),
                       PayPremiumOn(old(Outside()), auth, Loaded(old(Whole()), id), amount), r, Whole())
    {
      if paused { return Err(ContractPaused); }
      var found := Load(id);
      if found.Err? { return Err(found.error); }
      var policy := ExpireIfNeeded(found.value, id);
      if policy.status != Active { return Err(PolicyNotActive); }
      if policy.policyholder !in auth { return Err(HostTrap); }
      if amount != policy.premium { return Err(InvalidPremium); }
      var failed := RoutePremiumNow(auth, policy.policyholder, amount);
      if failed.Some? { return Err(failed.value); }
      if !FitsI128(totalPremium + amount) { return Err(PremiumOverflow); }
      totalPremium := totalPremium + amount;
      return Ok(Unit);
    }

    method SubmitClaimBody(auth: set<Address>, id: nat, amount: int, proof: string) returns (r: Result<Reply>)
      modifies this
      ensures Performs(old(Whole()), id, Gate(old(Inst()), auth, SubmitClaim(amount, proof)),
                       SubmitClaimOn(old(Outside()), auth, id, Loaded(old(Whole()), id), amount, proof), r, Whole())
    {
      if paused { return Err(ContractPaused); }
      var found := Load(id);
      if found.Err? { return Err(found.error); }
      var policy := found.value;
      if policy.status != Active { return Err(PolicyNotActive); }
      if policy.policyholder !in auth { return Err(HostTrap); }
      if amount > policy.RemainingCoverage() { return Err(ClaimExceedsCoverage); }
      if amount <= 0 { return Err(InvalidClaimAmount); }
      if |proof| > MAX_TEXT_LEN { return Err(ProofTooLong); }
      if host.time > policy.endTime {
        return Err(PolicyExpired);
      }
      policy := policy.(claimAmount := amount, status := ClaimPending);
      policies := policies[id := policy];
      claims := claims[id := Claim(id, amount, proof, host.time, false)];
      return Ok(Unit);
    }

    method ProcessClaimBody(auth: set<Address>, id: nat, approved: bool) returns (r: Result<Reply>)
      requires Valid()
      modifies this, pool, host`bank
      ensures Performs(old(Whole()), id, Gate(old(Inst()), auth, ProcessClaim(approved)),
                       ProcessClaimOn(old(Outside()), auth, id, Loaded(old(Whole()), id), approved), r, Whole())
    {
      if admin.None? || admin.value !in auth { return Err(HostTrap); }
      var found := Load(id);
      if found.Err? { return Err(found.error); }
      var policy := found.value;
      if id !in claims { return Err(ClaimNotFound); }
      if policy.status != ClaimPending { return Err(NoPendingClaim); }
      if approved {
        var failed := SettleNow(auth, id, policy, true);
        if failed.Some? { return Err(failed.value); }
      } else {
        policy := policy.(status := Active);
        policy := policy.(claimAmount := 0);
        policies := policies[id := policy];
      }
      return Ok(Unit);
    }

    /** verify_oracle_condition.  Called directly, a failure undoes the pause;
        called from the quorum loop, the pause stays. */
    method VerifyOracleBody(oracle: Symbol) returns (r: Result<Reply>)
      modifies this`paused
      ensures (Inst(), r) == Verify(old(Inst()), host.time, oracle)
    {
      if oracle == "Price" {
        if priceTime == 0 {
          paused := true;
          return Err(OracleDataUnavailable);
        }
        if priceTime > host.time { return Err(InvalidOracleTimestamp); }
        if host.time - priceTime > freshness {
          paused := true;
          return Err(OracleDataUnavailable);
        }
      }
      return Ok(Verified);
    }

    /** The quorum loop of evaluate_oracle_trigger. */
    method CountConfirmations() returns (confirmations: nat)
      modifies this`paused
      ensures (Inst(), confirmations) == Poll(old(Inst()), host.time, oracleTypes)
    {
      confirmations := 0;
      for i := 0 to |oracleTypes|
        invariant Inst() == old(Inst()).(paused := paused)
        invariant var (end, rest) := Poll(Inst(), host.time, oracleTypes[i..]);
                  (end, rest + confirmations) == Poll(old(Inst()), host.time, oracleTypes)
      {
        var kind := oracleTypes[i];
        assert oracleTypes[i..][0] == kind && oracleTypes[i..][1..] == oracleTypes[i + 1..];
        if kind in oracles {
          var result := VerifyOracleBody(kind);
          if result.Ok? {
            confirmations := confirmations + 1;
          }
        }
      }
    }

    method EvaluateOracleBody(auth: set<Address>, id: nat, caller: Address, oracle: Symbol) returns (r: Result<Reply>)
      requires Valid()
      modifies this, pool, host`bank
      ensures Performs(old(Whole()), id, Gate(old(Inst()), auth, EvaluateOracle(caller, oracle)),
                       EvaluateOracleOn(old(Outside()), auth, id, Loaded(old(Whole()), id), caller, oracle), r, Whole())
    {
      if paused { return Err(ContractPaused); }
      if caller !in auth { return Err(HostTrap); }
      var found := Load(id);
      if found.Err? { return Err(found.error); }
      var policy := found.value;
      if policy.status != ClaimPending { return Err(NoPendingClaim); }
      if oracle !in oracles { return Err(OracleNotRegistered); }
      if admin.None? { return Err(HostTrap); }
      if caller != oracles[oracle] && caller != admin.value { return Err(Unauthorized); }
      var failed := TriggerNow(auth, id, policy, oracle);
      if failed.Some? { return Err(failed.value); }
      return Ok(Unit);
    }

    method TriggerNow(auth: set<Address>, id: nat, pending: Policy, oracle: Symbol) returns (failed: Option<Error>)
      requires Valid()
      modifies this`paused, this`policies, this`claims, this`totalPayouts, this`payouts, pool, host`bank
      ensures match Trigger(old(Outside()), auth, id, pending, oracle)
              case Refuse(e) => failed == Some(e)
              case Accept(w, p, _) => failed == None && Whole() == State(old(policies)[id := p], w)
    {
      var confirmations := CountConfirmations();
      var conditionMet := confirmations >= quorum;
      var primary := VerifyOracleBody(oracle);
      if primary.Err? { return Some(primary.error); }
      if conditionMet {
        var policy := pending.(status := ClaimApproved);
        failed := PayOutNow(auth, id, policy.policyholder, true);
        if failed.Some? { return; }
        policies := policies[id := policy];
      } else {
        return Some(OracleConditionNotMet);
      }
      return None;
    }

    method CancelPolicyBody(auth: set<Address>, id: nat) returns (r: Result<Reply>)
      modifies this`policies
      ensures Performs(old(Whole()), id, Gate(old(Inst()), auth, CancelPolicy),
                       CancelPolicyOn(old(Outside()), auth, Loaded(old(Whole()), id)), r, Whole())
    {
      if paused { return Err(ContractPaused); }
      var found := Load(id);
      if found.Err? { return Err(found.error); }
      var policy := found.value;
      if policy.policyholder !in auth { return Err(HostTrap); }
      if policy.status != Active { return Err(PolicyNotActive); }
      policy := policy.(status := Cancelled);
      policies := policies[id := policy];
      return Ok(Unit);
    }

    method IncreaseCoverageBody(auth: set<Address>, id: nat, newCoverage: int) returns (r: Result<Reply>)
      modifies this`policies, this`totalPremium, host`bank
      ensures Performs(old(Whole()), id, Gate(old(Inst()), auth, IncreaseCoverage(newCoverage)),
                       IncreaseCoverageOn(old(Outside()), auth, Loaded(old(Whole()), id), newCoverage), r, Whole())
    {
      if paused { return Err(ContractPaused); }
      var found := Load(id);
      if found.Err? { return Err(found.error); }
      var policy := ExpireIfNeeded(found.value, id);
      if policy.status != Active { return Err(PolicyNotActive); }
      if policy.policyholder !in auth { return Err(HostTrap); }
      r := ChargeIncreaseNow(policy, newCoverage);
      if r.Err? { return; }
      policy := policy.(coverage := newCoverage);
      ghost var charged := Outside();
      policies := policies[id := policy];
      assert Outside() == charged && policies == old(policies)[id := policy];
    }

    method ChargeIncreaseNow(policy: Policy, newCoverage: int) returns (r: Result<Reply>)
      modifies this`totalPremium, host`bank
      ensures match ChargeIncrease(old(Outside()), policy, newCoverage)
              case Err(e) => r == Err(e)
              case Ok(w) => r == Ok(Unit) && Outside() == w
    {
      if newCoverage <= policy.coverage { return Err(CoverageDecrease); }
      var currentTime := host.time;
      if currentTime >= policy.endTime { return Err(PolicyAlreadyExpired); }
      var coverageDelta, remaining := newCoverage - policy.coverage, policy.endTime - currentTime;
      var additional := ChargeNow(policy.policyholder, policy.kind, coverageDelta, remaining);
      if additional.Err? { return Err(additional.error); }
      return Ok(Unit);
    }

    method ExtendDurationBody(auth: set<Address>, id: nat, extra: nat) returns (r: Result<Reply>)
      modifies this`policies, this`totalPremium, host`bank
      ensures Performs(old(Whole()), id, Gate(old(Inst()), auth, ExtendDuration(extra)),
                       ExtendDurationOn(old(Outside()), auth, Loaded(old(Whole()), id), extra), r, Whole())
    {
      if paused { return Err(ContractPaused); }
      if extra == 0 { return Err(InvalidDuration); }
      var found := Load(id);
      if found.Err? { return Err(found.error); }
      var policy := ExpireIfNeeded(found.value, id);
      if policy.status != Active { return Err(PolicyNotActive); }
      if policy.policyholder !in auth { return Err(HostTrap); }
      if host.time >= policy.endTime { return Err(PolicyAlreadyExpired); }
      var additional := ChargeNow(policy.policyholder, policy.kind, policy.coverage, extra);
      if additional.Err? { return Err(additional.error); }
      if policy.endTime + extra > U64_MAX { return Err(HostTrap); }
      policy := policy.(endTime := policy.endTime + extra);
      ghost var charged := Outside();
      policies := policies[id := policy];
      assert Outside() == charged;
      return Ok(Unit);
    }

    method ChangeBeneficiaryBody(auth: set<Address>, id: nat, beneficiary: Address) returns (r: Result<Reply>)
      modifies this`policies
      ensures Performs(old(Whole()), id, Gate(old(Inst()), auth, ChangeBeneficiary(beneficiary)),
                       ChangeBeneficiaryOn(old(Outside()), auth, Loaded(old(Whole()), id), beneficiary), r, Whole())
    {
      if paused { return Err(ContractPaused); }
      var found := Load(id);
      if found.Err? { return Err(found.error); }
      var policy := ExpireIfNeeded(found.value, id);
      if policy.status != Active { return Err(PolicyNotActive); }
      if policy.policyholder !in auth { return Err(HostTrap); }
      policy := policy.(beneficiary := beneficiary);
      policies := policies[id := policy];
      return Ok(Unit);
    }

    /** Refuse a second vote, or add the vote to the stored ballot. */
    method CastNow(id: nat, voter: Address, approve: bool) returns (r: Result<ClaimVotes>)
      ensures var b := Ballot(Inst(), id);
        r == if voter in b.approvals || voter in b.rejections then Err(AlreadyVoted)
             else Ok(Cast(b, Vote(voter, approve)))
    {
      var ballot := ClaimVotes([], []);
      if id in votes {
        ballot := votes[id];
      }
      var already := VecContains(ballot.approvals, voter);
      if !already {
        already := VecContains(ballot.rejections, voter);
      }
      if already { return Err(AlreadyVoted); }
      if approve {
        ballot := ballot.(approvals := ballot.approvals + [voter]);
      } else {
        ballot := ballot.(rejections := ballot.rejections + [voter]);
      }
      return Ok(ballot);
    }

    method VoteClaimBody(auth: set<Address>, id: nat, voter: Address, approve: bool) returns (r: Result<Reply>)
      requires Valid()
      modifies this, pool, host`bank
      ensures Performs(old(Whole()), id, Gate(old(Inst()), auth, VoteClaim(voter, approve)),
                       VoteClaimOn(old(Outside()), id, Loaded(old(Whole()), id), voter, approve), r, Whole())
    {
      if paused { return Err(ContractPaused); }
      var denied := RequireAdminNow(auth, voter);
      if denied.Some? { return Err(denied.value); }
      var found := Load(id);
      if found.Err? { return Err(found.error); }
      var policy := found.value;
      if policy.status != ClaimPending { return Err(NoPendingClaim); }
      var cast := CastNow(id, voter, approve);
      if cast.Err? { return Err(cast.error); }
      var failed := DecideNow(id, policy, cast.value);
      if failed.Some? { return Err(failed.value); }
      return Ok(Unit);
    }

    /** The source stores the ballot before it decides and removes it again when
        the vote settles the claim; here it is stored only when it stays. */
    method DecideNow(id: nat, pending: Policy, ballot: ClaimVotes) returns (failed: Option<Error>)
      requires Valid() && Load(id) == Ok(pending) && pending.status == ClaimPending
      modifies this`policies, this`claims, this`votes, this`totalPayouts, this`payouts, pool, host`bank
      ensures match Decide(old(Outside()), id, pending, ballot)
              case Refuse(e) => failed == Some(e)
              case Accept(w, p, _) => failed == None && Whole() == State(old(policies)[id := p], w)
    {
      if ThresholdReached(Inst(), |ballot.approvals|) {
        failed := SettleNow({}, id, pending, false);
        if failed.Some? { return; }
        votes := votes - {id};
      } else if RejectionForced(Inst(), |ballot.rejections|) {
        if id !in claims { return Some(ClaimNotFound); }
        policies := policies[id := pending.(status := Active, claimAmount := 0)];
        votes := votes - {id};
      } else {
        votes := votes[id := ballot];
      }
      return None;
    }

    method RenewedEndNow(policy: Policy, duration: nat) returns (r: Result<nat>)
      ensures r == RenewedEnd(policy, host.time, duration)
    {
      var currentTime := host.time;
      if currentTime > policy.endTime {
        if policy.endTime + RENEWAL_GRACE_PERIOD > U64_MAX { return Err(HostTrap); }
        if currentTime > policy.endTime + RENEWAL_GRACE_PERIOD { return Err(RenewalGracePeriodExpired); }
      }
      var base := if currentTime > policy.endTime then currentTime else policy.endTime;
      if base + duration > U64_MAX { return Err(HostTrap); }
      return Ok(base + duration);
    }

    method RenewPolicyBody(auth: set<Address>, id: nat, duration: nat) returns (r: Result<Reply>)
      modifies this`policies, this`totalPremium, host`bank
      ensures Performs(old(Whole()), id, Gate(old(Inst()), auth, RenewPolicy(duration)),
                       RenewPolicyOn(old(Outside()), auth, Loaded(old(Whole()), id), duration), r, Whole())
    {
      if paused { return Err(ContractPaused); }
      var found := Load(id);
      if found.Err? { return Err(found.error); }
      var policy := found.value;
      if policy.policyholder !in auth { return Err(HostTrap); }
      if duration == 0 { return Err(InvalidDuration); }
      if policy.status != Active && policy.status != Expired { return Err(PolicyNotRenewable); }
      var newEnd := RenewedEndNow(policy, duration);
      if newEnd.Err? { return Err(newEnd.error); }
      var renewal := ChargeNow(policy.policyholder, policy.kind, policy.coverage, duration);
      if renewal.Err? { return Err(renewal.error); }
      policy := policy.(premium := renewal.value, endTime := newEnd.value, status := Active);
      ghost var charged := Outside();
      policies := policies[id := policy];
      assert Outside() == charged;
      return Ok(Unit);
    }

    method CheckExpirationBody(auth: set<Address>, id: nat) returns (r: Result<Reply>)
      modifies this
      ensures Implements(Apply(old(Whole()), auth, OnPolicy(id, CheckExpiration)), r, Whole())
    {
      var found := Load(id);
      if found.Err? { return Err(found.error); }
      var policy := ExpireIfNeeded(found.value, id);
      return Ok(Status(policy.status));
    }

    // -------------------------------------------------------------- settings

    /** set_oracle_address: store the address and list a type not seen before. */
    method SetOracleNow(oracle: Symbol, address: Address)
      modifies this`oracles, this`oracleTypes
      ensures Inst() == SetOracle(old(Inst()), oracle, address)
    {
      oracles := oracles[oracle := address];
      var alreadyExists := VecContains(oracleTypes, oracle);
      if !alreadyExists {
        oracleTypes := oracleTypes + [oracle];
      }
    }

    method RemoveOracleNow(oracle: Symbol)
      modifies this`oracles, this`oracleTypes
      ensures Inst() == DropOracle(old(Inst()), oracle)
    {
      oracles := oracles - {oracle};
      oracleTypes := FilterOut(oracleTypes, oracle);
    }

    method AddAdminBody(auth: set<Address>, caller: Address, target: Address) returns (r: Result<Reply>)
      modifies this
      ensures Changes(Update(old(Inst()), host.time, auth, AddAdmin(caller, target)), r, old(Whole()), Whole())
    {
      var denied := RequireAdminNow(auth, caller);
      if denied.Some? { return Err(denied.value); }
      var known := IsAdminNow(target);
      if known { return Err(AdminAlreadyExists); }
      admins := admins + [target];
      return Ok(Unit);
    }

    method RemoveAdminBody(auth: set<Address>, caller: Address, target: Address) returns (r: Result<Reply>)
      modifies this
      ensures Changes(Update(old(Inst()), host.time, auth, RemoveAdmin(caller, target)), r, old(Whole()), Whole())
    {
      var denied := RequireAdminNow(auth, caller);
      if denied.Some? { return Err(denied.value); }
      var known := IsAdminNow(target);
      if !known { return Err(AdminNotFound); }
      if |admins| <= 1 { return Err(Unauthorized); }
      var filtered := FilterOut(admins, target);
      if threshold > |filtered| {
        threshold := |filtered|;
      }
      admins := filtered;
      return Ok(Unit);
    }

    method SetThresholdBody(auth: set<Address>, caller: Address, newThreshold: nat) returns (r: Result<Reply>)
      modifies this
      ensures Changes(Update(old(Inst()), host.time, auth, SetThreshold(caller, newThreshold)), r,
                      old(Whole()), Whole())
    {
      var denied := RequireAdminNow(auth, caller);
      if denied.Some? { return Err(denied.value); }
      if newThreshold == 0 { return Err(InvalidThreshold); }
      if newThreshold > |admins| { return Err(InvalidThreshold); }
      threshold := newThreshold;
      return Ok(Unit);
    }

    method UpdatePriceFeedBody(newPrice: int, timestamp: nat) returns (r: Result<Reply>)
      modifies this
      ensures Changes(Update(old(Inst()), host.time, {}, UpdatePriceFeed(newPrice, timestamp)), r,
                      old(Whole()), Whole())
    {
      price := newPrice;
      priceTime := timestamp;
      if host.time > timestamp && host.time - timestamp > freshness {
        paused := true;
      }
      return Ok(Unit);
    }

    method InitBody(newAdmin: Address) returns (r: Result<Reply>)
      modifies this`admin, this`admins, this`threshold, this`policyCounter, this`maxPolicies, this`quorum
      ensures Changes(Update(old(Inst()), host.time, {}, Init(newAdmin)), r, old(Whole()), Whole())
    {
      if admin.Some? { return Err(AlreadyInitialized); }
      ghost var was := Inst();
      StoreAdmins(newAdmin);
      StoreDefaults();
      assert Inst() == was.(admin := Some(newAdmin), admins := [newAdmin], threshold := 1, policyCounter := 0,
                            maxPolicies := MAX_POLICIES, quorum := 1);
      return Ok(Unit);
    }

    method StoreAdmins(newAdmin: Address)
      modifies this`admin, this`admins, this`threshold
      ensures admin == Some(newAdmin) && admins == [newAdmin] && threshold == 1
    {
      admin := Some(newAdmin);
      admins := [newAdmin];
      threshold := 1;
    }

    method StoreDefaults()
      modifies this`policyCounter, this`maxPolicies, this`quorum
      ensures policyCounter == 0 && maxPolicies == MAX_POLICIES && quorum == 1
    {
      policyCounter := 0;
      maxPolicies := MAX_POLICIES;
      quorum := 1;
    }

    /** The settings reserved to the primary admin share one guard. */
    method RequireOwnerNow(auth: set<Address>, caller: Address) returns (denied: Option<Error>)
      ensures denied == RequireOwner(Inst(), auth, caller)
    {
      if caller !in auth || admin.None? { return Some(HostTrap); }
      if caller != admin.value { return Some(Unauthorized); }
      return None;
    }

    method OracleSettingBody(auth: set<Address>, setting: Setting) returns (r: Result<Reply>)
      requires setting.RegisterOracle? || setting.UpdateOracle? || setting.RemoveOracle? || setting.SetQuorum?
      modifies this
      ensures Changes(Update(old(Inst()), host.time, auth, setting), r, old(Whole()), Whole())
    {
      var denied := RequireOwnerNow(auth, setting.admin);
      if denied.Some? { return Err(denied.value); }
      match setting {
        case RegisterOracle(_, oracle, address) => SetOracleNow(oracle, address);
        case UpdateOracle(_, oracle, address) =>
          if oracle !in oracles { return Err(OracleNotRegistered); }
          SetOracleNow(oracle, address);
        case RemoveOracle(_, oracle) =>
          if oracle !in oracles { return Err(OracleNotRegistered); }
          RemoveOracleNow(oracle);
        case SetQuorum(_, newQuorum) =>
          if newQuorum == 0 { return Err(InvalidQuorumThreshold); }
          quorum := newQuorum;
      }
      return Ok(Unit);
    }

    method LimitSettingBody(auth: set<Address>, setting: Setting) returns (r: Result<Reply>)
      requires setting.SetMaxPolicies? || setting.SetFreshness?
      modifies this
      ensures Changes(Update(old(Inst()), host.time, auth, setting), r, old(Whole()), Whole())
    {
      var denied := RequireOwnerNow(auth, setting.admin);
      if denied.Some? { return Err(denied.value); }
      match setting {
        case SetMaxPolicies(_, max) =>
          if max == 0 { return Err(InvalidAmount); }
          maxPolicies := max;
        case SetFreshness(_, window) => freshness := window;
      }
      return Ok(Unit);
    }

    method AddressSettingBody(auth: set<Address>, setting: Setting) returns (r: Result<Reply>)
      requires setting.SetPremiumToken? || setting.SetRiskPool?
      modifies this
      ensures Changes(Update(old(Inst()), host.time, auth, setting), r, old(Whole()), Whole())
    {
      var denied := RequireOwnerNow(auth, setting.admin);
      if denied.Some? { return Err(denied.value); }
      match setting {
        case SetPremiumToken(_, token) => premiumToken := Some(token);
        case SetRiskPool(_, address) => riskPool := Some(address);
      }
      return Ok(Unit);
    }

    method PauseSettingBody(auth: set<Address>, setting: Setting) returns (r: Result<Reply>)
      requires setting.Pause? || setting.Unpause?
      modifies this
      ensures Changes(Update(old(Inst()), host.time, auth, setting), r, old(Whole()), Whole())
    {
      var denied := RequireOwnerNow(auth, setting.admin);
      if denied.Some? { return Err(denied.value); }
      match setting {
        case Pause(_) =>
          if paused { return Ok(Unit); }
          paused := true;
        case Unpause(_) =>
          if !paused { return Ok(Unit); }
          paused := false;
      }
      return Ok(Unit);
    }

    // ---------------------------------------------------- the call from outside

    method ConfigureBody(auth: set<Address>, setting: Setting) returns (r: Result<Reply>)
      modifies this
      ensures Changes(Update(old(Inst()), host.time, auth, setting), r, old(Whole()), Whole())
    {
      match setting {
        case Init(newAdmin) => r := InitBody(newAdmin);
        case UpdatePriceFeed(newPrice, timestamp) => r := UpdatePriceFeedBody(newPrice, timestamp);
        case AddAdmin(caller, target) => r := AddAdminBody(auth, caller, target);
        case RemoveAdmin(caller, target) => r := RemoveAdminBody(auth, caller, target);
        case SetThreshold(caller, newThreshold) => r := SetThresholdBody(auth, caller, newThreshold);
        case RegisterOracle(_, _, _) => r := OracleSettingBody(auth, setting);
        case UpdateOracle(_, _, _) => r := OracleSettingBody(auth, setting);
        case RemoveOracle(_, _) => r := OracleSettingBody(auth, setting);
        case SetQuorum(_, _) => r := OracleSettingBody(auth, setting);
        case SetMaxPolicies(_, _) => r := LimitSettingBody(auth, setting);
        case SetPremiumToken(_, _) => r := AddressSettingBody(auth, setting);
        case SetRiskPool(_, _) => r := AddressSettingBody(auth, setting);
        case SetFreshness(_, _) => r := LimitSettingBody(auth, setting);
        case Pause(_) => r := PauseSettingBody(auth, setting);
        case Unpause(_) => r := PauseSettingBody(auth, setting);
      }
    }

    method OnPolicyBody(auth: set<Address>, id: nat, op: PolicyOp) returns (r: Result<Reply>)
      requires Valid()
      modifies this, pool, host`bank
      ensures Implements(Apply(old(Whole()), auth, OnPolicy(id, op)), r, Whole())
    {
      match op {
        case PayPremium(amount) => r := PayPremiumBody(auth, id, amount);
        case SubmitClaim(amount, proof) => r := SubmitClaimBody(auth, id, amount, proof);
        case ProcessClaim(approved) => r := ProcessClaimBody(auth, id, approved);
        case EvaluateOracle(caller, oracle) => r := EvaluateOracleBody(auth, id, caller, oracle);
        case VoteClaim(voter, approve) => r := VoteClaimBody(auth, id, voter, approve);
        case CheckExpiration => r := CheckExpirationBody(auth, id);
        case CancelPolicy => r := ModifyBody(auth, id, op);
        case IncreaseCoverage(_) => r := ModifyBody(auth, id, op);
        case ExtendDuration(_) => r := ModifyBody(auth, id, op);
        case ChangeBeneficiary(_) => r := ModifyBody(auth, id, op);
        case RenewPolicy(_) => r := ModifyBody(auth, id, op);
      }
    }

    /** The calls of the policyholder that modify a policy. */
    method ModifyBody(auth: set<Address>, id: nat, op: PolicyOp) returns (r: Result<Reply>)
      requires op.CancelPolicy? || op.IncreaseCoverage? || op.ExtendDuration? || op.ChangeBeneficiary?
               || op.RenewPolicy?
      modifies this`policies, this`totalPremium, host`bank
      ensures Implements(Apply(old(Whole()), auth, OnPolicy(id, op)), r, Whole())
    {
      match op {
        case CancelPolicy => r := CancelPolicyBody(auth, id);
        case IncreaseCoverage(newCoverage) => r := IncreaseCoverageBody(auth, id, newCoverage);
        case ExtendDuration(extra) => r := ExtendDurationBody(auth, id, extra);
        case ChangeBeneficiary(beneficiary) => r := ChangeBeneficiaryBody(auth, id, beneficiary);
        case RenewPolicy(duration) => r := RenewPolicyBody(auth, id, duration);
      }
    }

    /** The host's undo: every key goes back to its value before the call. */
    method Restore(saved: State)
      requires Valid() && saved.world.now == host.time && saved.world.pool.token == pool.token
      modifies this, pool, host`bank
      ensures Whole() == saved
    {
      var i := saved.world.inst;
      host.bank := saved.world.bank;
      pool.Restore(saved.world.pool);
      policies, claims, votes, payouts := saved.policies, i.claims, i.votes, i.payouts;
      RestoreSettings(i);
    }

    method RestoreSettings(i: Instance)
      requires claims == i.claims && votes == i.votes && payouts == i.payouts
      modifies this`admin, this`admins, this`threshold, this`policyCounter, this`maxPolicies, this`premiumToken,
               this`riskPool, this`paused, this`totalPremium, this`totalPayouts, this`oracles, this`oracleTypes,
               this`quorum, this`freshness, this`price, this`priceTime
      ensures Inst() == i
    {
      RestoreAdmins(i);
      RestoreMoney(i);
      RestoreOracles(i);
    }

    method RestoreAdmins(i: Instance)
      modifies this`admin, this`admins, this`threshold, this`policyCounter, this`maxPolicies
      ensures admin == i.admin && admins == i.admins && threshold == i.threshold
      ensures policyCounter == i.policyCounter && maxPolicies == i.maxPolicies
    {
      admin, admins, threshold := i.admin, i.admins, i.threshold;
      policyCounter, maxPolicies := i.policyCounter, i.maxPolicies;
    }

    method RestoreMoney(i: Instance)
      modifies this`premiumToken, this`riskPool, this`paused, this`totalPremium, this`totalPayouts
      ensures premiumToken == i.premiumToken && riskPool == i.riskPool && paused == i.paused
      ensures totalPremium == i.totalPremium && totalPayouts == i.totalPayouts
    {
      premiumToken, riskPool, paused := i.premiumToken, i.riskPool, i.paused;
      totalPremium, totalPayouts := i.totalPremium, i.totalPayouts;
    }

    method RestoreOracles(i: Instance)
      modifies this`oracles, this`oracleTypes, this`quorum, this`freshness, this`price, this`priceTime
      ensures oracles == i.oracles && oracleTypes == i.oracleTypes && quorum == i.quorum
      ensures freshness == i.freshness && price == i.price && priceTime == i.priceTime
    {
      oracles, oracleTypes, quorum := i.oracles, i.oracleTypes, i.quorum;
      freshness, price, priceTime := i.freshness, i.price, i.priceTime;
    }

    /** One transaction: the clock has moved on, the body runs, and a failed body
        leaves no trace. */
    method Invoke(tx: Tx) returns (r: Result<Reply>)
      requires Valid()
      modifies this, pool, host
      ensures (Whole(), r) == Step(old(Whole()), tx)
    {
      host.time := host.time + tx.elapsed;
      var saved := Whole();
      match tx.call {
        case CreatePolicy(holder, kind, coverage, premium, duration, trigger) =>
          r := CreatePolicyBody(tx.auth, holder, kind, coverage, premium, duration, trigger);
        case OnPolicy(id, op) => r := OnPolicyBody(tx.auth, id, op);
        case Configure(setting) => r := ConfigureBody(tx.auth, setting);
        case VerifyOracle(oracle) => r := VerifyOracleBody(oracle);
        case GetPolicy(id) =>
          var found := Load(id);
          r := if found.Ok? then Ok(Found(found.value)) else Err(found.error);
        case GetTreasuryStats =>
          if premiumToken.None? {
            r := Err(NotInitialized);
          } else {
            r := Ok(Stats(totalPremium, totalPayouts, Balance(host.bank, premiumToken.value, InsuranceContract)));
          }
        case MoveTokens(token, from, to, amount) =>
          var ok := from.None? || from.value in tx.auth;
          if ok { ok := host.MoveTokens(token, from, to, amount); }
          r := if ok then Ok(Unit) else Err(HostTrap);
        case CallPool(call) =>
          var answer := pool.Invoke(tx.auth, call);
          r := if answer.Ok? then Ok(PoolAmount(answer.value)) else Err(answer.error);
      }
      if r.Err? {
        Restore(saved);
      }
    }
  }
}
