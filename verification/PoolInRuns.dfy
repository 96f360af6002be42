/**
 The risk pool inside the insurance contract's runs: premiums deposited into it
 and claims paid from it keep it as sound as its own calls do.
 */
module PoolInRuns {
  import opened Types
  import opened Insurance
  import opened Runs
  import Pool
  import PoolLaws

  /** How far the contributions run ahead of the liquidity. */
  function Gap(p: Pool.PoolState): int { PoolLaws.TotalContribution(p) - p.totalLiquidity }

  lemma {:induction false} DepositKeepsSound(w: World, auth: set<Address>, amount: int)
    requires PoolLaws.Sound(w.pool)
    ensures var r := DepositAndDistribute(w, auth, amount);
      r.Ok? ==> PoolLaws.Sound(r.value.pool) && Gap(r.value.pool) == Gap(w.pool)
                && r.value.pool.totalYield == w.pool.totalYield + amount
  {
    var auth' := auth + {InsuranceContract};
    PoolLaws.AddAccounts(w.pool, w.bank, auth', InsuranceContract, amount);
    var added := Pool.AddStep(w.pool, w.bank, auth', InsuranceContract, amount);
    if added.Done? {
      PoolLaws.DistributeAccounts(added.pool, added.bank, auth', amount);
    }
  }

  lemma {:induction false} PayoutKeepsSound(w: World, auth: set<Address>, to: Address, amount: int)
    requires PoolLaws.Sound(w.pool)
    ensures var r := PayClaim(w, auth, to, amount);
      r.Ok? ==> PoolLaws.Sound(r.value.pool)
                && Gap(r.value.pool) == Gap(w.pool) + (if w.inst.riskPool.Some? then amount else 0)
  {
    PoolLaws.StepAccounts(w.pool, w.bank, auth + {InsuranceContract}, Pool.FundPayout(to, amount));
  }

  /** The amount a policy call pays out through the pool. */
  function ThroughPool(w: World, id: nat, op: PolicyOp): int {
    if w.inst.riskPool.Some? && id in w.inst.claims && (op.EvaluateOracle? || (op.ProcessClaim? && op.approved))
    then w.inst.claims[id].amount else 0
  }

  lemma {:induction false} EvaluationKeepsSound(w: World, auth: set<Address>, id: nat, p: Policy, op: PolicyOp)
    requires PoolLaws.Sound(w.pool) && op.EvaluateOracle?
    ensures var v := Operate(w, auth, id, p, op);
      v.Accept? ==> PoolLaws.Sound(v.world.pool) && Gap(v.world.pool) == Gap(w.pool) + ThroughPool(w, id, op)
  {
    PollOnlyPauses(w.inst, w.now, w.inst.oracleTypes);
    if id in w.inst.claims {
      var inst := Verify(Poll(w.inst, w.now, w.inst.oracleTypes).0, w.now, op.oracle).0;
      PayoutKeepsSound(w.(inst := inst), auth, p.policyholder, w.inst.claims[id].amount);
    }
  }

  /** Every policy call keeps the pool sound, and only a claim paid through the
      pool widens the gap, by exactly the claim. */
  lemma {:induction false} OpKeepsSound(w: World, auth: set<Address>, id: nat, p: Policy, op: PolicyOp)
    requires PoolLaws.Sound(w.pool)
    ensures var v := Operate(w, auth, id, p, op);
      v.Accept? ==> PoolLaws.Sound(v.world.pool) && Gap(v.world.pool) == Gap(w.pool) + ThroughPool(w, id, op)
  {
    match op
    case PayPremium(amount) =>
      if w.inst.premiumToken.Some? && w.inst.riskPool.Some? {
        var moved := Transfer(w.bank, w.inst.premiumToken.value, p.policyholder, w.inst.riskPool.value, amount);
        if moved.Some? { DepositKeepsSound(w.(bank := moved.value), auth, amount); }
      }
    case ProcessClaim(approved) =>
      if id in w.inst.claims { PayoutKeepsSound(w, auth, p.policyholder, w.inst.claims[id].amount); }
    case EvaluateOracle(_, _) => EvaluationKeepsSound(w, auth, id, p, op);
    case SubmitClaim(_, _) =>
    case CancelPolicy =>
    case IncreaseCoverage(_) =>
    case ExtendDuration(_) =>
    case ChangeBeneficiary(_) =>
    case VoteClaim(_, _) =>
    case RenewPolicy(_) =>
    case CheckExpiration =>
  }

  /** What a transaction takes off the pool's liquidity without writing the
      contributions down: a payout, whoever asks for it, or the pool's init. */
  function PoolPayout(s: State, tx: Tx): int {
    if Step(s, tx).1.Err? then 0
    else
      match tx.call
      case OnPolicy(id, op) => ThroughPool(s.world, id, op)
      case CallPool(call) => PoolLaws.PaidOut(call) + PoolLaws.Forgotten(s.world.pool, call)
      case _ => 0
  }

  function PoolPayouts(s: State, txs: seq<Tx>): int
    decreases |txs|
  {
    if txs == [] then 0 else PoolPayout(s, txs[0]) + PoolPayouts(Step(s, txs[0]).0, txs[1..])
  }

  lemma {:induction false} StepKeepsSound(s: State, tx: Tx)
    requires PoolLaws.Sound(s.world.pool)
    ensures PoolLaws.Sound(Step(s, tx).0.world.pool)
    ensures Gap(Step(s, tx).0.world.pool) == Gap(s.world.pool) + PoolPayout(s, tx)
  {
    var t := Advance(s, tx.elapsed);
    match tx.call
    case OnPolicy(id, op) =>
      if id in t.policies {
        OpKeepsSound(t.world, tx.auth, id, View(t.policies[id], t.world.now), op);
      }
    case CallPool(call) => PoolLaws.StepAccounts(t.world.pool, t.world.bank, tx.auth, call);
    case _ =>
  }

  /** Over every run of both contracts together the pool stays sound, and its
      contributions exceed its liquidity by exactly what it has paid out and what
      its init forgot. */
  lemma {:induction false} RunKeepsSound(s: State, txs: seq<Tx>)
    requires PoolLaws.Sound(s.world.pool)
    ensures PoolLaws.Sound(Run(s, txs).world.pool)
    ensures Gap(Run(s, txs).world.pool) == Gap(s.world.pool) + PoolPayouts(s, txs)
    decreases |txs|
  {
    if txs != [] {
      StepKeepsSound(s, txs[0]);
      RunKeepsSound(Step(s, txs[0]).0, txs[1..]);
    }
  }

  /** The same from deployment: in every reachable state the pool's registry is
      exact and its liquidity non-negative, whether or when it was initialised. */
  lemma {:induction false} ReachablePool(bank: Bank, token: Option<Address>, now: nat, txs: seq<Tx>)
    ensures var pool := Run(Genesis(bank, token, now), txs).world.pool;
      && PoolLaws.RegistryAgrees(pool) && pool.totalLiquidity >= 0 && |pool.providers| == |pool.positions|
      && Gap(pool) == PoolPayouts(Genesis(bank, token, now), txs)
  {
    PoolLaws.DeployedSound(token);
    RunKeepsSound(Genesis(bank, token, now), txs);
    PoolLaws.ListLength(Run(Genesis(bank, token, now), txs).world.pool.providers);
  }

  // ------------------------------------------------------------------- yield

  /** The yield a transaction pays out to a provider. */
  function YieldClaimed(s: State, tx: Tx): int {
    if tx.call.CallPool? && tx.call.call.ClaimYield? && Step(s, tx).1.Ok? && Step(s, tx).1.value.PoolAmount?
    then Step(s, tx).1.value.amount else 0
  }

  /** The dust a transaction's distribution may leave, a premium's included: one less
      than the number of providers it goes to. */
  function DustLeft(s: State, tx: Tx): int {
    var premium := tx.call.OnPolicy? && tx.call.op.PayPremium? && s.world.inst.riskPool.Some?;
    if Step(s, tx).1.Ok? && (premium || (tx.call.CallPool? && tx.call.call.DistributeYield?))
    then |Step(s, tx).0.world.pool.providers| - 1 else 0
  }

  /** What is credited lies between what is distributed less the dust and what is
      distributed. */
  ghost predicate Yields(p: Pool.PoolState, p': Pool.PoolState, claimed: int, dust: int) {
    var held := PoolLaws.TotalAccrued(p') - PoolLaws.TotalAccrued(p) + claimed;
    held <= p'.totalYield - p.totalYield <= held + dust
  }

  ghost predicate Balanced(p: Pool.PoolState) { PoolLaws.Sound(p) && p.admin.Some? && Gap(p) == 0 }

  lemma {:induction false} DistributionYields(p: Pool.PoolState, bank: Bank, auth: set<Address>, amount: int)
    requires Balanced(p)
    ensures var out := Pool.DistributeStep(p, bank, auth, amount);
      out.Done? ==> out.pool.admin == p.admin && out.pool.providers == p.providers
                    && Yields(p, out.pool, 0, |p.providers| - 1)
  {
    PoolLaws.DistributeFindsAll(p, bank, auth, amount);
    PoolLaws.DistributeAccounts(p, bank, auth, amount);
    if Pool.DistributeStep(p, bank, auth, amount).Done? { PoolLaws.AllocationIsTight(p, amount); }
  }

  lemma {:induction false} DepositYields(w: World, auth: set<Address>, amount: int)
    requires Balanced(w.pool)
    ensures var r := DepositAndDistribute(w, auth, amount);
      r.Ok? ==> r.value.pool.admin == w.pool.admin
                && Yields(w.pool, r.value.pool, 0, |r.value.pool.providers| - 1)
  {
    var auth' := auth + {InsuranceContract};
    PoolLaws.AddAccounts(w.pool, w.bank, auth', InsuranceContract, amount);
    var added := Pool.AddStep(w.pool, w.bank, auth', InsuranceContract, amount);
    if added.Done? { DistributionYields(added.pool, added.bank, auth', amount); }
  }

  lemma {:induction false} PoolCallYields(p: Pool.PoolState, bank: Bank, auth: set<Address>, call: Pool.PoolCall)
    requires Balanced(p)
    ensures var out := Pool.Apply(p, bank, auth, call);
      out.Done? ==>
        && out.pool.admin == p.admin
        && Yields(p, out.pool, if call.ClaimYield? then out.amount else 0,
                  if call.DistributeYield? then |out.pool.providers| - 1 else 0)
  {
    PoolLaws.StepAccounts(p, bank, auth, call);
    if call.DistributeYield? { DistributionYields(p, bank, auth, call.amount); }
  }

  /** Payouts leave the accrued yield and its total alone. */
  lemma {:induction false} PayOutYields(w: World, auth: set<Address>, id: nat, to: Address, viaPool: bool)
    ensures var r := PayOut(w, auth, id, to, viaPool);
      r.Ok? ==> r.value.pool == w.pool.(totalLiquidity := r.value.pool.totalLiquidity)
  {
  }

  lemma {:induction false} OpYields(w: World, auth: set<Address>, id: nat, p: Policy, op: PolicyOp)
    requires Balanced(w.pool)
    ensures var v := Operate(w, auth, id, p, op);
      v.Accept? ==>
        && v.world.pool.admin == w.pool.admin
        && Yields(w.pool, v.world.pool, 0,
                  if op.PayPremium? && w.inst.riskPool.Some? then |v.world.pool.providers| - 1 else 0)
  {
    match op
    case PayPremium(amount) =>
      if w.inst.premiumToken.Some? && w.inst.riskPool.Some? {
        var moved := Transfer(w.bank, w.inst.premiumToken.value, p.policyholder, w.inst.riskPool.value, amount);
        if moved.Some? { DepositYields(w.(bank := moved.value), auth, amount); }
      }
    case ProcessClaim(_) => PayOutYields(w, auth, id, p.policyholder, true);
    case EvaluateOracle(_, oracle) =>
      PollOnlyPauses(w.inst, w.now, w.inst.oracleTypes);
      var inst := Verify(Poll(w.inst, w.now, w.inst.oracleTypes).0, w.now, oracle).0;
      PayOutYields(w.(inst := inst), auth, id, p.policyholder, true);
    case VoteClaim(_, _) => PayOutYields(w, {}, id, p.policyholder, false);
    case SubmitClaim(_, _) =>
    case CancelPolicy =>
    case IncreaseCoverage(_) =>
    case ExtendDuration(_) =>
    case ChangeBeneficiary(_) =>
    case RenewPolicy(_) =>
    case CheckExpiration =>
  }

  lemma {:induction false} StepYields(s: State, tx: Tx)
    requires Balanced(s.world.pool)
    ensures var t := Step(s, tx).0;
      t.world.pool.admin == s.world.pool.admin
      && Yields(s.world.pool, t.world.pool, YieldClaimed(s, tx), DustLeft(s, tx))
  {
    var t := Advance(s, tx.elapsed);
    match tx.call
    case OnPolicy(id, op) =>
      OpShape(t, tx.auth, id, op);
      if id in t.policies { OpYields(t.world, tx.auth, id, View(t.policies[id], t.world.now), op); }
    case CallPool(call) => PoolCallYields(t.world.pool, t.world.bank, tx.auth, call);
    case _ =>
  }

  predicate NoPoolPayout(s: State, txs: seq<Tx>)
    decreases |txs|
  {
    txs != [] ==> PoolPayout(s, txs[0]) == 0 && NoPoolPayout(Step(s, txs[0]).0, txs[1..])
  }

  function YieldsClaimed(s: State, txs: seq<Tx>): int
    decreases |txs|
  {
    if txs == [] then 0 else YieldClaimed(s, txs[0]) + YieldsClaimed(Step(s, txs[0]).0, txs[1..])
  }

  function DustsLeft(s: State, txs: seq<Tx>): int
    decreases |txs|
  {
    if txs == [] then 0 else DustLeft(s, txs[0]) + DustsLeft(Step(s, txs[0]).0, txs[1..])
  }

  /** Over every run of both contracts without a payout from the pool, premiums
      deposited and distributed on the way, accrued plus claimed yield never exceeds
      the yield distributed and lags it by at most the summed dust. */
  lemma {:induction false} YieldNeverRunsAhead(s: State, txs: seq<Tx>)
    requires Balanced(s.world.pool) && NoPoolPayout(s, txs)
    ensures Balanced(Run(s, txs).world.pool)
    ensures Yields(s.world.pool, Run(s, txs).world.pool, YieldsClaimed(s, txs), DustsLeft(s, txs))
    decreases |txs|
  {
    if txs != [] {
      StepYields(s, txs[0]);
      StepKeepsSound(s, txs[0]);
      YieldNeverRunsAhead(Step(s, txs[0]).0, txs[1..]);
    }
  }
}
