/**
 What each accepted call leaves: the policy, the settings and totals, the pool and
 the token balances after it, read off those before it.
 */
module Effects {
  import opened Types
  import opened Sequences
  import opened Tokens
  import opened Premium
  import opened Insurance
  import opened Runs
  import opened Oracles
  import opened Refusals
  import Pool
  import PoolLaws
  import PoolEffects
  import PoolInRuns

  // ------------------------------------------------------------ money and claims

  /** A premium paid goes to the pool when there is one, as a deposit by the contract
      that is then shared out as yield, and otherwise to the contract. */
  ghost predicate Paid(w: World, auth: set<Address>, from: Address, amount: int, w': World) {
    && w'.now == w.now && w'.inst == w.inst.(totalPremium := w.inst.totalPremium + amount)
    && w.inst.premiumToken.Some?
    && (w.inst.riskPool.None? ==>
          && w'.pool == w.pool
          && Moves(w.bank, w'.bank, w.inst.premiumToken.value, from, InsuranceContract, amount))
    && (w.inst.riskPool.Some? ==>
          && Moves(w.bank, w'.bank, w.inst.premiumToken.value, from, RiskPoolContract, amount)
          && Deposited(w, auth, amount, w'.pool))
  }

  ghost predicate Deposited(w: World, auth: set<Address>, amount: int, pool: Pool.PoolState) {
    var added := Pool.Apply(w.pool, w.bank, auth + {InsuranceContract}, Pool.AddLiquidity(InsuranceContract, amount));
    added.Done? &&
    var shared := Pool.Apply(added.pool, w.bank, auth + {InsuranceContract}, Pool.DistributeYield(amount));
    shared.Done? && shared.pool == pool
  }

  /** The premium of a modification goes to the contract, pool or no pool. */
  ghost predicate Charged(w: World, p: Policy, coverage: int, duration: nat, w': World) {
    var premium := CalculatePremium(p.kind, coverage, duration);
    && premium.Ok? && w.inst.premiumToken.Some?
    && w'.now == w.now && w'.pool == w.pool
    && w'.inst == w.inst.(totalPremium := w.inst.totalPremium + premium.value)
    && Moves(w.bank, w'.bank, w.inst.premiumToken.value, p.policyholder, InsuranceContract, premium.value)
  }

  /** The tokens of a payout come from the pool on the admin's and the oracle's way when
      there is one, and otherwise from the contract. */
  ghost predicate Handed(w: World, to: Address, amount: int, viaPool: bool, w': World) {
    && w' == w.(pool := w'.pool, bank := w'.bank)
    && if viaPool && w.inst.riskPool.Some? then
         && w.pool.token.Some? && w'.pool == w.pool.(totalLiquidity := w.pool.totalLiquidity - amount)
         && Moves(w.bank, w'.bank, w.pool.token.value, RiskPoolContract, to, amount)
       else
         && w.inst.premiumToken.Some? && w'.pool == w.pool
         && Moves(w.bank, w'.bank, w.inst.premiumToken.value, InsuranceContract, to, amount)
  }

  /** The stored claim is marked, counted, published and paid. */
  ghost predicate ClaimPaid(w: World, id: nat, to: Address, viaPool: bool, w': World) {
    && id in w.inst.claims
    && var claim := w.inst.claims[id];
    && Handed(w, to, claim.amount, viaPool, w'.(inst := w.inst))
    && w'.inst == w.inst.(claims := w.inst.claims[id := claim.(approved := true)],
                          totalPayouts := w.inst.totalPayouts + claim.amount,
                          payouts := w.inst.payouts + [Payout(id, to, claim.amount)],
                          votes := w'.inst.votes, paused := w'.inst.paused)
  }

  /** A settlement counts the claim, and closes the policy only when nothing is left to claim. */
  predicate Settled(p: Policy, amount: int, q: Policy) {
    q == p.(totalClaimed := p.totalClaimed + amount, claimAmount := 0, status := q.status)
    && q.status == if p.totalClaimed + amount < p.coverage then Active else ClaimApproved
  }

  /** What becomes of the ballot: it goes when it decides, and holds the vote otherwise. */
  ghost predicate Balloted(i: Instance, id: nat, voter: Address, approve: bool, votes: map<nat, ClaimVotes>) {
    if Approves(i, id, approve) || Rejects(i, id, approve) then votes == i.votes - {id}
    else
      var before := if id in i.votes then i.votes[id] else ClaimVotes([], []);
      votes == i.votes[id := if approve then before.(approvals := before.approvals + [voter])
                             else before.(rejections := before.rejections + [voter])]
  }

  // ------------------------------------------------------------------- one policy

  /** What an accepted call on policy p leaves of it, q, and of the world. */
  ghost predicate OpLeft(w: World, auth: set<Address>, id: nat, p: Policy, op: PolicyOp, q: Policy, w': World) {
    match op
    case PayPremium(amount) => q == p && Paid(w, auth, p.policyholder, amount, w')
    case SubmitClaim(amount, proof) =>
      && q == p.(status := ClaimPending, claimAmount := amount)
      && w' == w.(inst := w.inst.(claims := w.inst.claims[id := Claim(id, amount, proof, w.now, false)]))
    case ProcessClaim(approved) =>
      if !approved then w' == w && q == p.(status := Active, claimAmount := 0)
      else
        && ClaimPaid(w, id, p.policyholder, true, w') && Settled(p, w.inst.claims[id].amount, q)
        && w'.inst.votes == w.inst.votes && w'.inst.paused == w.inst.paused
    case EvaluateOracle(_, _) =>
      && ClaimPaid(w, id, p.policyholder, true, w') && q == p.(status := ClaimApproved)
      && w'.inst.votes == w.inst.votes
      && w'.inst.paused == (w.inst.paused || ("Price" in w.inst.oracles && Missing(w.inst, w.now)))
    case CancelPolicy => w' == w && q == p.(status := Cancelled)
    case IncreaseCoverage(newCoverage) =>
      && w.now < p.endTime && q == p.(coverage := newCoverage)
      && Charged(w, p, newCoverage - p.coverage, p.endTime - w.now, w')
    case ExtendDuration(extra) =>
      q == p.(endTime := p.endTime + extra) && Charged(w, p, p.coverage, extra, w')
    case ChangeBeneficiary(beneficiary) => w' == w && q == p.(beneficiary := beneficiary)
    case VoteClaim(voter, approve) =>
      && Balloted(w.inst, id, voter, approve, w'.inst.votes)
      && if Approves(w.inst, id, approve) then
           && ClaimPaid(w, id, p.policyholder, false, w') && Settled(p, w.inst.claims[id].amount, q)
           && w'.inst.paused == w.inst.paused
         else
           && w' == w.(inst := w.inst.(votes := w'.inst.votes))
           && q == if Rejects(w.inst, id, approve) then p.(status := Active, claimAmount := 0) else p
    case RenewPolicy(duration) =>
      && Charged(w, p, p.coverage, duration, w')
      && q == p.(premium := w'.inst.totalPremium - w.inst.totalPremium, status := Active,
                 endTime := (if w.now > p.endTime then w.now else p.endTime) + duration)
    case CheckExpiration =>
      w' == w && q == p.(status := if p.status == Active && w.now > p.endTime then Expired else p.status)
  }

  ghost predicate Left(w: World, auth: set<Address>, id: nat, p: Policy, op: PolicyOp, v: Verdict) {
    v.Accept? ==>
      && OpLeft(w, auth, id, p, op, v.policy, v.world)
      && v.reply == if op.CheckExpiration? then Status(v.policy.status) else Unit
  }

  lemma {:induction false} PremiumLeft(w: World, auth: set<Address>, id: nat, p: Policy, amount: int)
    ensures Left(w, auth, id, p, PayPremium(amount), PayPremiumOn(w, auth, View(p, w.now), amount))
  {
    if w.inst.premiumToken.Some? {
      var to := if w.inst.riskPool.Some? then w.inst.riskPool.value else InsuranceContract;
      TransferMoves(w.bank, w.inst.premiumToken.value, p.policyholder, to, amount);
    }
  }

  lemma {:induction false} ContractHands(w: World, to: Address, amount: int)
    ensures var r := PayFromContract(w, to, amount); r.Ok? ==> Handed(w, to, amount, false, r.value)
  {
    if w.inst.premiumToken.Some? {
      TransferMoves(w.bank, w.inst.premiumToken.value, InsuranceContract, to, amount);
    }
  }

  lemma {:induction false} PoolHands(w: World, auth: set<Address>, to: Address, amount: int)
    ensures var r := PayClaim(w, auth, to, amount); r.Ok? ==> Handed(w, to, amount, true, r.value)
  {
    ContractHands(w, to, amount);
    if w.pool.token.Some? { TransferMoves(w.bank, w.pool.token.value, RiskPoolContract, to, amount); }
  }

  lemma {:induction false} PayoutLeft(w: World, auth: set<Address>, id: nat, to: Address, viaPool: bool)
    ensures var r := PayOut(w, auth, id, to, viaPool);
      r.Ok? ==> ClaimPaid(w, id, to, viaPool, r.value) && r.value.inst.votes == w.inst.votes
                && r.value.inst.paused == w.inst.paused
  {
    if id in w.inst.claims {
      PoolHands(w, auth, to, w.inst.claims[id].amount);
      ContractHands(w, to, w.inst.claims[id].amount);
    }
  }

  lemma {:induction false} SettlementLeft(w: World, auth: set<Address>, id: nat, p: Policy, viaPool: bool)
    ensures var v := Settle(w, auth, id, p, viaPool);
      v.Accept? ==>
        && ClaimPaid(w, id, p.policyholder, viaPool, v.world) && Settled(p, w.inst.claims[id].amount, v.policy)
        && v.world.inst.votes == w.inst.votes && v.world.inst.paused == w.inst.paused && v.reply == Unit
  {
    PayoutLeft(w, auth, id, p.policyholder, viaPool);
  }

  lemma {:induction false} ProcessingLeft(w: World, auth: set<Address>, id: nat, p: Policy, approved: bool)
    ensures Left(w, auth, id, p, ProcessClaim(approved), ProcessClaimOn(w, auth, id, View(p, w.now), approved))
  {
    SettlementLeft(w, auth, id, p, true);
  }

  lemma {:induction false} VoteLeft(w: World, auth: set<Address>, id: nat, p: Policy, voter: Address, approve: bool)
    ensures Left(w, auth, id, p, VoteClaim(voter, approve), VoteClaimOn(w, id, View(p, w.now), voter, approve))
  {
    SettlementLeft(w, {}, id, p, false);
    if Approves(w.inst, id, approve) { ClearedLeft(w, id, p); }
  }

  /** Clearing the ballot leaves the payment as it is. */
  lemma {:induction false} ClearedLeft(w: World, id: nat, p: Policy)
    ensures var v := Settle(w, {}, id, p, false);
      v.Accept? ==>
        ClaimPaid(w, id, p.policyholder, false, v.world.(inst := v.world.inst.(votes := w.inst.votes - {id})))
  {
    SettlementLeft(w, {}, id, p, false);
  }

  lemma {:induction false} EvaluationLeft(w: World, auth: set<Address>, id: nat, p: Policy, caller: Address,
                                          oracle: Symbol)
    requires OraclesAgree(w.inst)
    ensures Left(w, auth, id, p, EvaluateOracle(caller, oracle),
                 EvaluateOracleOn(w, auth, id, View(p, w.now), caller, oracle))
  {
    var polled := Poll(w.inst, w.now, w.inst.oracleTypes).0;
    ListedOracles(w.inst);
    PollCounts(w.inst, w.now, w.inst.oracleTypes);
    PollOnlyPauses(w.inst, w.now, w.inst.oracleTypes);
    PriceAnswers(polled, w.now, oracle);
    PayoutLeft(w.(inst := polled), auth, id, p.policyholder, true);
  }

  lemma {:induction false} ChargeLeft(w: World, p: Policy, coverage: int, duration: nat)
    ensures var r := Charge(w, p.policyholder, p.kind, coverage, duration);
      r.Ok? ==> Charged(w, p, coverage, duration, r.value)
  {
    var premium := CalculatePremium(p.kind, coverage, duration);
    if w.inst.premiumToken.Some? && premium.Ok? {
      TransferMoves(w.bank, w.inst.premiumToken.value, p.policyholder, InsuranceContract, premium.value);
    }
  }

  lemma {:induction false} IncreaseLeft(w: World, auth: set<Address>, id: nat, p: Policy, newCoverage: int)
    ensures Left(w, auth, id, p, IncreaseCoverage(newCoverage),
                 IncreaseCoverageOn(w, auth, View(p, w.now), newCoverage))
  {
    if w.now < p.endTime { ChargeLeft(w, p, newCoverage - p.coverage, p.endTime - w.now); }
  }

  lemma {:induction false} ExtensionLeft(w: World, auth: set<Address>, id: nat, p: Policy, extra: nat)
    ensures Left(w, auth, id, p, ExtendDuration(extra), ExtendDurationOn(w, auth, View(p, w.now), extra))
  {
    ChargeLeft(w, p, p.coverage, extra);
  }

  lemma {:induction false} RenewalLeft(w: World, auth: set<Address>, id: nat, p: Policy, duration: nat)
    ensures Left(w, auth, id, p, RenewPolicy(duration), RenewPolicyOn(w, auth, View(p, w.now), duration))
  {
    ChargeLeft(w, p, p.coverage, duration);
  }

  lemma {:induction false} ModificationLeft(w: World, auth: set<Address>, id: nat, p: Policy, op: PolicyOp)
    requires op.IncreaseCoverage? || op.ExtendDuration? || op.RenewPolicy?
    ensures Left(w, auth, id, p, op, Operate(w, auth, id, View(p, w.now), op))
  {
    match op
    case IncreaseCoverage(newCoverage) => IncreaseLeft(w, auth, id, p, newCoverage);
    case ExtendDuration(extra) => ExtensionLeft(w, auth, id, p, extra);
    case RenewPolicy(duration) => RenewalLeft(w, auth, id, p, duration);
  }

  /** Every accepted call on a policy leaves exactly that. */
  lemma {:induction false} EveryOpLeft(w: World, auth: set<Address>, id: nat, p: Policy, op: PolicyOp)
    requires OraclesAgree(w.inst)
    ensures Left(w, auth, id, p, op, Operate(w, auth, id, View(p, w.now), op))
  {
    match op
    case PayPremium(amount) => PremiumLeft(w, auth, id, p, amount);
    case ProcessClaim(approved) => ProcessingLeft(w, auth, id, p, approved);
    case EvaluateOracle(caller, oracle) => EvaluationLeft(w, auth, id, p, caller, oracle);
    case VoteClaim(voter, approve) => VoteLeft(w, auth, id, p, voter, approve);
    case IncreaseCoverage(_) => ModificationLeft(w, auth, id, p, op);
    case ExtendDuration(_) => ModificationLeft(w, auth, id, p, op);
    case RenewPolicy(_) => ModificationLeft(w, auth, id, p, op);
    case SubmitClaim(_, _) =>
    case CancelPolicy =>
    case ChangeBeneficiary(_) =>
    case CheckExpiration =>
  }

  // --------------------------------------------------------------------- any call

  /** What an accepted change of the settings leaves. */
  ghost predicate SettingLeft(i: Instance, now: nat, setting: Setting, i': Instance) {
    match setting
    case Init(admin) =>
      i' == i.(admin := Some(admin), admins := [admin], threshold := 1, policyCounter := 0, maxPolicies := 1_000_000,
               quorum := 1)
    case SetMaxPolicies(_, max) => i' == i.(maxPolicies := max)
    case SetPremiumToken(_, token) => i' == i.(premiumToken := Some(token))
    case SetRiskPool(_, pool) => i' == i.(riskPool := Some(pool))
    case SetFreshness(_, window) => i' == i.(freshness := window)
    case UpdatePriceFeed(price, time) =>
      i' == i.(price := price, priceTime := time, paused := i.paused || now > time + i.freshness)
    case RegisterOracle(_, oracle, address) => OracleSet(i, oracle, address, i')
    case UpdateOracle(_, oracle, address) => OracleSet(i, oracle, address, i')
    case RemoveOracle(_, oracle) =>
      && i' == i.(oracles := i'.oracles, oracleTypes := i'.oracleTypes)
      && i'.oracles == (map o | o in i.oracles && o != oracle :: i.oracles[o])
      && Filtered(i.oracleTypes, oracle, i'.oracleTypes)
    case SetQuorum(_, quorum) => i' == i.(quorum := quorum)
    case Pause(_) => i' == i.(paused := true)
    case Unpause(_) => i' == i.(paused := false)
    case AddAdmin(_, target) => i' == i.(admins := i.admins + [target])
    case RemoveAdmin(_, target) =>
      && i' == i.(admins := i'.admins, threshold := i'.threshold)
      && Filtered(i.admins, target, i'.admins)
      && i'.threshold == if i.threshold <= |i'.admins| then i.threshold else |i'.admins|
    case SetThreshold(_, threshold) => i' == i.(threshold := threshold)
  }

  /** The oracle has this address, and is listed last when it was not listed. */
  ghost predicate OracleSet(i: Instance, oracle: Symbol, address: Address, i': Instance) {
    && i' == i.(oracles := i.oracles[oracle := address], oracleTypes := i'.oracleTypes)
    && i'.oracleTypes == if oracle in i.oracleTypes then i.oracleTypes else i.oracleTypes + [oracle]
  }

  lemma {:induction false} EverySettingLeft(inst: Instance, now: nat, auth: set<Address>, setting: Setting)
    ensures var c := Update(inst, now, auth, setting); c.Updated? ==> SettingLeft(inst, now, setting, c.inst)
  {
    match setting
    case RemoveOracle(_, oracle) =>
      WithoutFilters(inst.oracleTypes, oracle);
      assert inst.oracles - {oracle} == (map o | o in inst.oracles && o != oracle :: inst.oracles[o]);
    case RemoveAdmin(_, target) => WithoutFilters(inst.admins, target);
    case _ =>
  }

  /** A new policy under the next id, its beneficiary the holder, from now on. */
  ghost predicate Created(s: State, call: Call, t: State, reply: Reply)
    requires call.CreatePolicy?
  {
    var w, id := s.world, s.world.inst.policyCounter;
    && reply == NewPolicy(id)
    && t.world == w.(inst := w.inst.(policyCounter := id + 1))
    && t.policies == s.policies[id :=
         Policy(id, call.holder, call.holder, call.kind, call.coverage, call.premium, w.now, w.now + call.duration,
                call.trigger, Active, 0, 0)]
  }

  /** What an accepted call leaves, and answers. */
  ghost predicate CallLeft(s: State, auth: set<Address>, call: Call, t: State, reply: Reply) {
    var w, i := s.world, s.world.inst;
    match call
    case OnPolicy(id, op) =>
      && id in s.policies && id in t.policies
      && t.policies == s.policies[id := t.policies[id]]
      && OpLeft(w, auth, id, s.policies[id], op, t.policies[id], t.world)
      && reply == if op.CheckExpiration? then Status(t.policies[id].status) else Unit
    case CreatePolicy(_, _, _, _, _, _) => Created(s, call, t, reply)
    case Configure(setting) =>
      && SettingLeft(i, w.now, setting, t.world.inst)
      && t == s.(world := w.(inst := t.world.inst)) && reply == Unit
    case GetPolicy(id) =>
      && t == s && id in s.policies
      && reply == Found(if InForce(s.policies[id], w.now) || s.policies[id].status != Active then s.policies[id]
                        else s.policies[id].(status := Expired))
    case GetTreasuryStats =>
      && t == s && i.premiumToken.Some?
      && reply == Stats(i.totalPremium, i.totalPayouts, Balance(w.bank, i.premiumToken.value, InsuranceContract))
    case VerifyOracle(_) => t == s && reply == Verified
    case CallPool(poolCall) =>
      && t == s.(world := w.(pool := t.world.pool, bank := t.world.bank)) && reply.PoolAmount?
      && PoolEffects.Leaves(w.pool, w.bank, poolCall, t.world.pool, t.world.bank, reply.amount)
    case MoveTokens(token, from, to, amount) =>
      && t == s.(world := w.(bank := t.world.bank)) && reply == Unit
      && (from.Some? ==> Moves(w.bank, t.world.bank, token, from.value, to, amount))
      && (from.None? ==> Issues(w.bank, t.world.bank, token, to, amount))
  }

  lemma {:induction false} CreationLeft(s: State, auth: set<Address>, call: Call)
    requires call.CreatePolicy?
    ensures var (t, r) := Apply(s, auth, call); r.Ok? ==> Created(s, call, t, r.value)
  {
  }

  lemma {:induction false} PolicyCallLeft(s: State, auth: set<Address>, id: nat, op: PolicyOp)
    requires OraclesAgree(s.world.inst)
    ensures var (t, r) := Apply(s, auth, OnPolicy(id, op)); r.Ok? ==> CallLeft(s, auth, OnPolicy(id, op), t, r.value)
  {
    if id in s.policies { EveryOpLeft(s.world, auth, id, s.policies[id], op); }
  }

  lemma {:induction false} EveryCallLeft(s: State, auth: set<Address>, call: Call)
    requires OraclesAgree(s.world.inst) && PoolLaws.Sound(s.world.pool)
    ensures var (t, r) := Apply(s, auth, call); r.Ok? ==> CallLeft(s, auth, call, t, r.value)
  {
    var w := s.world;
    match call
    case OnPolicy(id, op) => PolicyCallLeft(s, auth, id, op);
    case CreatePolicy(_, _, _, _, _, _) => CreationLeft(s, auth, call);
    case Configure(setting) => EverySettingLeft(w.inst, w.now, auth, setting);
    case CallPool(poolCall) => PoolEffects.PoolCallLeaves(w.pool, w.bank, auth, poolCall);
    case MoveTokens(token, from, to, amount) =>
      MoveMoves(w.bank, token, from, to, amount);
      if from.Some? { TransferMoves(w.bank, token, from.value, to, amount); }
    case VerifyOracle(_) =>
    case GetPolicy(_) =>
    case GetTreasuryStats =>
  }

  /** Contract and pool as deployed: nothing stored, every key at its default. */
  lemma {:induction false} DeployedDefaults(bank: Bank, token: Option<Address>, now: nat)
    ensures var s := Genesis(bank, token, now); var i, p := s.world.inst, s.world.pool;
      && s.policies == map[] && s.world.bank == bank && s.world.now == now
      && i.admin.None? && i.admins == [] && i.threshold == 1 && i.policyCounter == 0 && i.maxPolicies == 1_000_000
      && i.premiumToken.None? && i.riskPool.None? && !i.paused && i.totalPremium == 0 && i.totalPayouts == 0
      && i.claims == map[] && i.votes == map[] && i.payouts == [] && i.oracles == map[] && i.oracleTypes == []
      && i.quorum == 1 && i.freshness == 86_400 && i.priceTime == 0
      && p.admin.None? && p.totalLiquidity == 0 && p.totalYield == 0 && p.reserveRatio == 2000
      && p.positions == map[] && p.providers == [] && p.token == token
  {
  }

  /** In every state reachable from deployment each call is refused with its first reason
      and changes nothing, or has none and leaves exactly that. */
  lemma {:induction false} ReachableCalls(bank: Bank, token: Option<Address>, now: nat, txs: seq<Tx>,
                                          auth: set<Address>, call: Call)
    ensures var s := Run(Genesis(bank, token, now), txs);
      var (t, r) := Apply(s, auth, call);
      if NoCall(s, auth, call).Some? then t == s && r == Err(NoCall(s, auth, call).value)
      else r.Ok? && CallLeft(s, auth, call, t, r.value)
  {
    var s := Run(Genesis(bank, token, now), txs);
    ReachableOracles(bank, token, now, txs);
    PoolLaws.DeployedSound(token);
    PoolInRuns.RunKeepsSound(Genesis(bank, token, now), txs);
    EveryCallAnswers(s, auth, call);
    EveryCallLeft(s, auth, call);
    RefusedChangesNothing(s, auth, call);
  }

  // --------------------------------------------------------- read off one policy

  /** The two ways to settle a claim: the primary admin's approval, or the vote with
      which the approvals reach the threshold. */
  predicate Settles(i: Instance, id: nat, op: PolicyOp) {
    || op == ProcessClaim(true)
    || (op.VoteClaim? && Approves(i, id, op.approve))
  }

  /** A settlement counts the claim in full, and leaves the policy active if and only if
      something is left to claim. */
  lemma {:induction false} SettlementStatusIff(s: State, auth: set<Address>, id: nat, op: PolicyOp)
    requires Settles(s.world.inst, id, op) && Apply(s, auth, OnPolicy(id, op)).1.Ok?
    ensures id in s.policies && id in s.world.inst.claims
    ensures var p, a := s.policies[id], s.world.inst.claims[id].amount;
      var q := Apply(s, auth, OnPolicy(id, op)).0.policies[id];
      && (q.status == Active <==> p.totalClaimed + a < p.coverage)
      && (q.status == ClaimApproved <==> p.totalClaimed + a >= p.coverage)
      && q.totalClaimed == p.totalClaimed + a && q.claimAmount == 0
  {
    if id in s.policies {
      match op
      case ProcessClaim(_) => ProcessingLeft(s.world, auth, id, s.policies[id], true);
      case VoteClaim(voter, approve) => VoteLeft(s.world, auth, id, s.policies[id], voter, approve);
    }
  }

  /** After a partial settlement the holder can claim the whole remainder, for as long as
      the policy is in force and the contract not paused. */
  lemma {:induction false} RemainderClaimable(s: State, auth: set<Address>, id: nat, op: PolicyOp, later: nat,
                                              claimant: set<Address>, proof: string)
    requires Settles(s.world.inst, id, op) && Apply(s, auth, OnPolicy(id, op)).1.Ok?
    requires id in s.policies && id in s.world.inst.claims
    requires !s.world.inst.paused && s.world.now + later <= s.policies[id].endTime
    requires s.policies[id].policyholder in claimant && |proof| <= 256
    ensures var remainder := s.policies[id].coverage - s.policies[id].totalClaimed - s.world.inst.claims[id].amount;
      var t := Apply(s, auth, OnPolicy(id, op)).0;
      remainder > 0 ==> Step(t, Tx(later, claimant, OnPolicy(id, SubmitClaim(remainder, proof)))).1.Ok?
  {
    match op
    case ProcessClaim(_) => ProcessingLeft(s.world, auth, id, s.policies[id], true);
    case VoteClaim(voter, approve) => VoteLeft(s.world, auth, id, s.policies[id], voter, approve);
  }

  /** A premium lowers the holder's balance and raises the pool's when there is a pool,
      and otherwise the contract's; the other of the two stays as it is. */
  lemma {:induction false} PremiumReaches(s: State, auth: set<Address>, id: nat, amount: int)
    requires Apply(s, auth, OnPolicy(id, PayPremium(amount))).1.Ok?
    requires id in s.policies && s.policies[id].policyholder.Account?
    ensures s.world.inst.premiumToken.Some? && amount == s.policies[id].premium
    ensures var w, w' := s.world, Apply(s, auth, OnPolicy(id, PayPremium(amount))).0.world;
      var token, holder := w.inst.premiumToken.value, s.policies[id].policyholder;
      && Balance(w'.bank, token, holder) == Balance(w.bank, token, holder) - amount
      && Balance(w'.bank, token, RiskPoolContract)
         == Balance(w.bank, token, RiskPoolContract) + (if w.inst.riskPool.Some? then amount else 0)
      && Balance(w'.bank, token, InsuranceContract)
         == Balance(w.bank, token, InsuranceContract) + (if w.inst.riskPool.Some? then 0 else amount)
      && w'.inst.totalPremium == w.inst.totalPremium + amount
  {
    PremiumLeft(s.world, auth, id, s.policies[id], amount);
  }

  /** What a modification buys: this coverage for this time. */
  function Bought(p: Policy, now: nat, op: PolicyOp): (int, int) {
    match op
    case IncreaseCoverage(newCoverage) => (newCoverage - p.coverage, p.endTime - now)
    case ExtendDuration(extra) => (p.coverage, extra)
    case RenewPolicy(duration) => (p.coverage, duration)
    case _ => (0, 0)
  }

  /** A modification costs its holder exactly the premium of what it buys, and the
      contract gets and counts exactly that. */
  lemma {:induction false} ModificationCosts(s: State, auth: set<Address>, id: nat, op: PolicyOp)
    requires op.IncreaseCoverage? || op.ExtendDuration? || op.RenewPolicy?
    requires Apply(s, auth, OnPolicy(id, op)).1.Ok?
    requires id in s.policies && s.policies[id].policyholder.Account?
    ensures s.world.inst.premiumToken.Some?
    ensures var w, w', p := s.world, Apply(s, auth, OnPolicy(id, op)).0.world, s.policies[id];
      var (coverage, duration) := Bought(p, w.now, op);
      var token := w.inst.premiumToken.value;
      && duration > 0 && CalculatePremium(p.kind, coverage, duration).Ok?
      && var premium := CalculatePremium(p.kind, coverage, duration).value;
      && Balance(w'.bank, token, p.policyholder) == Balance(w.bank, token, p.policyholder) - premium
      && Balance(w'.bank, token, InsuranceContract) == Balance(w.bank, token, InsuranceContract) + premium
      && Balance(w'.bank, token, RiskPoolContract) == Balance(w.bank, token, RiskPoolContract)
      && w'.inst.totalPremium == w.inst.totalPremium + premium
  {
    ModificationLeft(s.world, auth, id, s.policies[id], op);
  }
}
