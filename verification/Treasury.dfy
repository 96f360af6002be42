/**
 Treasury conservation: over any run with one token, the contract and the pool each
 hold what they started with, plus the premiums that went to them, minus the claims
 paid from them, plus what others send them, minus what the pool's own admin paid
 out directly.
 */
module Treasury {
  import opened Types
  import opened Tokens
  import opened Premium
  import opened Insurance
  import opened Coverage
  import opened Runs
  import opened Refusals
  import opened Effects
  import Pool

  /** Where the money of policy calls went: premiums to the contract, claims from it,
      premiums to the pool, claims from it. */
  datatype Flow = Flow(premiums: int, claims: int, poolPremiums: int, poolClaims: int)
  {
    function Plus(f: Flow): Flow {
      Flow(premiums + f.premiums, claims + f.claims, poolPremiums + f.poolPremiums, poolClaims + f.poolClaims)
    }
  }

  const NOTHING: Flow := Flow(0, 0, 0, 0)

  /** A payment that goes through the pool when there is one. */
  function ClaimFlow(w: World, id: nat, viaPool: bool): Flow {
    var amount := if id in w.inst.claims then w.inst.claims[id].amount else 0;
    if viaPool && w.inst.riskPool.Some? then Flow(0, 0, 0, amount) else Flow(0, amount, 0, 0)
  }

  /** What an accepted call on a policy moves: a premium goes to the pool when there is
      one, the premium of a modification never does; a claim approved by ballot is paid by
      the contract, any other by the pool when there is one. */
  function OpFlow(w: World, id: nat, p: Policy, op: PolicyOp): Flow {
    match op
    case PayPremium(amount) => if w.inst.riskPool.Some? then Flow(0, 0, amount, 0) else Flow(amount, 0, 0, 0)
    case ProcessClaim(approved) => if approved then ClaimFlow(w, id, true) else NOTHING
    case EvaluateOracle(_, _) => ClaimFlow(w, id, true)
    case VoteClaim(_, approve) => if Approves(w.inst, id, approve) then ClaimFlow(w, id, false) else NOTHING
    case SubmitClaim(_, _) => NOTHING
    case CancelPolicy => NOTHING
    case ChangeBeneficiary(_) => NOTHING
    case CheckExpiration => NOTHING
    case _ =>
      var (coverage, duration) := Bought(p, w.now, op);
      var premium := if duration < 0 then Err(InvalidDuration) else CalculatePremium(p.kind, coverage, duration);
      if premium.Ok? then Flow(premium.value, 0, 0, 0) else NOTHING
  }

  /** The two balances and the two totals differ by exactly this flow. */
  ghost predicate Flows(w: World, w': World, token: Address, f: Flow) {
    && Balance(w'.bank, token, InsuranceContract) == Balance(w.bank, token, InsuranceContract) + f.premiums - f.claims
    && Balance(w'.bank, token, RiskPoolContract)
       == Balance(w.bank, token, RiskPoolContract) + f.poolPremiums - f.poolClaims
    && w'.inst.totalPremium == w.inst.totalPremium + f.premiums + f.poolPremiums
    && w'.inst.totalPayouts == w.inst.totalPayouts + f.claims + f.poolClaims
  }

  ghost predicate OneToken(w: World, token: Address) {
    && (w.inst.premiumToken == None || w.inst.premiumToken == Some(token))
    && (w.pool.token == None || w.pool.token == Some(token))
  }

  ghost predicate SameTokens(w: World, v: World) {
    v.inst.premiumToken == w.inst.premiumToken && v.pool.token == w.pool.token && v.inst.riskPool == w.inst.riskPool
  }

  ghost predicate Balanced(w: World, p: Policy, v: Verdict, token: Address, f: Flow) {
    v.Accept? ==>
      Flows(w, v.world, token, f) && SameTokens(w, v.world) && v.policy.policyholder == p.policyholder
  }

  lemma {:induction false} PayoutFlows(w: World, id: nat, to: Address, viaPool: bool, w': World, token: Address)
    requires OneToken(w, token) && to.Account? && ClaimPaid(w, id, to, viaPool, w')
    ensures Flows(w, w', token, ClaimFlow(w, id, viaPool)) && SameTokens(w, w')
  {
  }

  lemma {:induction false} EvaluationBalances(w: World, auth: set<Address>, id: nat, p: Policy, caller: Address,
                                              oracle: Symbol, token: Address)
    requires OneToken(w, token) && p.policyholder.Account?
    ensures Balanced(w, p, EvaluateOracleOn(w, auth, id, p, caller, oracle), token, ClaimFlow(w, id, true))
  {
    var v := EvaluateOracleOn(w, auth, id, p, caller, oracle);
    PollOnlyPauses(w.inst, w.now, w.inst.oracleTypes);
    if v.Accept? {
      var inst := Verify(Poll(w.inst, w.now, w.inst.oracleTypes).0, w.now, oracle).0;
      PayoutLeft(w.(inst := inst), auth, id, p.policyholder, true);
      PayoutFlows(w.(inst := inst), id, p.policyholder, true, v.world, token);
    }
  }

  lemma {:induction false} ProcessBalances(w: World, auth: set<Address>, id: nat, p: Policy, approved: bool,
                                           token: Address)
    requires OneToken(w, token) && p.policyholder.Account?
    ensures Balanced(w, p, ProcessClaimOn(w, auth, id, View(p, w.now), approved), token,
                     OpFlow(w, id, p, ProcessClaim(approved)))
  {
    var v := ProcessClaimOn(w, auth, id, View(p, w.now), approved);
    ProcessingLeft(w, auth, id, p, approved);
    if v.Accept? && approved { PayoutFlows(w, id, p.policyholder, true, v.world, token); }
  }

  lemma {:induction false} VoteBalances(w: World, id: nat, p: Policy, voter: Address, approve: bool, token: Address)
    requires OneToken(w, token) && p.policyholder.Account?
    ensures Balanced(w, p, VoteClaimOn(w, id, View(p, w.now), voter, approve), token,
                     OpFlow(w, id, p, VoteClaim(voter, approve)))
  {
    var v := VoteClaimOn(w, id, View(p, w.now), voter, approve);
    VoteLeft(w, {}, id, p, voter, approve);
    if v.Accept? && Approves(w.inst, id, approve) { PayoutFlows(w, id, p.policyholder, false, v.world, token); }
  }

  lemma {:induction false} PremiumBalances(w: World, auth: set<Address>, id: nat, p: Policy, amount: int,
                                           token: Address)
    requires OneToken(w, token) && p.policyholder.Account?
    ensures Balanced(w, p, PayPremiumOn(w, auth, View(p, w.now), amount), token, OpFlow(w, id, p, PayPremium(amount)))
  {
    PremiumLeft(w, auth, id, p, amount);
    DepositKeepsToken(w.pool, w.bank, auth + {InsuranceContract}, amount);
  }

  lemma {:induction false} DepositKeepsToken(p: Pool.PoolState, bank: Bank, auth: set<Address>, amount: int)
    ensures var added := Pool.Apply(p, bank, auth, Pool.AddLiquidity(InsuranceContract, amount));
      added.Done? ==>
        var shared := Pool.Apply(added.pool, bank, auth, Pool.DistributeYield(amount));
        shared.Done? ==> shared.pool.token == p.token
  {
  }

  lemma {:induction false} ModificationBalances(w: World, auth: set<Address>, id: nat, p: Policy, op: PolicyOp,
                                                token: Address)
    requires OneToken(w, token) && p.policyholder.Account?
    requires op.IncreaseCoverage? || op.ExtendDuration? || op.RenewPolicy?
    ensures Balanced(w, p, Operate(w, auth, id, View(p, w.now), op), token, OpFlow(w, id, p, op))
  {
    ModificationLeft(w, auth, id, p, op);
  }

  /** Every policy call moves the tokens of both contracts exactly as it counts them. */
  lemma {:induction false} EveryOpBalances(w: World, auth: set<Address>, id: nat, p: Policy, op: PolicyOp,
                                           token: Address)
    requires OneToken(w, token) && p.policyholder.Account?
    ensures Balanced(w, p, Operate(w, auth, id, View(p, w.now), op), token, OpFlow(w, id, p, op))
  {
    match op
    case PayPremium(amount) => PremiumBalances(w, auth, id, p, amount, token);
    case EvaluateOracle(caller, oracle) => EvaluationBalances(w, auth, id, View(p, w.now), caller, oracle, token);
    case ProcessClaim(approved) => ProcessBalances(w, auth, id, p, approved, token);
    case VoteClaim(voter, approve) => VoteBalances(w, id, p, voter, approve, token);
    case IncreaseCoverage(_) => ModificationBalances(w, auth, id, p, op, token);
    case ExtendDuration(_) => ModificationBalances(w, auth, id, p, op, token);
    case RenewPolicy(_) => ModificationBalances(w, auth, id, p, op, token);
    case SubmitClaim(_, _) =>
    case CancelPolicy =>
    case ChangeBeneficiary(_) =>
    case CheckExpiration =>
  }

  // --------------------------------------------------------------------- one step

  /** Everything is paid in one token, and no policyholder is one of the two contracts. */
  ghost predicate InScope(s: State, token: Address) {
    && OneToken(s.world, token)
    && (forall id :: id in s.policies ==> s.policies[id].policyholder.Account?)
  }

  /** A contract address cannot sign, and the run does not switch tokens. */
  predicate TxInScope(tx: Tx, token: Address) {
    && InsuranceContract !in tx.auth && RiskPoolContract !in tx.auth
    && (tx.call.Configure? && tx.call.setting.SetPremiumToken? ==> tx.call.setting.token == token)
  }

  /** What the policy call of a transaction moves. */
  function TxFlow(s: State, tx: Tx): Flow {
    if tx.call.OnPolicy? && tx.call.id in s.policies && Step(s, tx).1.Ok?
    then OpFlow(Advance(s, tx.elapsed).world, tx.call.id, s.policies[tx.call.id], tx.call.op)
    else NOTHING
  }

  /** What tokens moved outside the two contracts, or newly issued, add to a balance. */
  function Donation(s: State, tx: Tx, token: Address, owner: Address): int {
    if tx.call.MoveTokens? && tx.call.token == token && tx.call.to == owner && Step(s, tx).1.Ok?
    then tx.call.amount else 0
  }

  /** What a direct fund_payout by the pool's admin takes from the pool, or sends to an owner. */
  function DirectPayout(s: State, tx: Tx, owner: Address): int {
    if !(tx.call.CallPool? && tx.call.call.FundPayout? && Step(s, tx).1.Ok?) then 0
    else
      var f := tx.call.call;
      (if owner == RiskPoolContract then f.amount else 0) - (if owner == f.to then f.amount else 0)
  }

  /** One transaction changes the two balances and totals by exactly these parts. */
  ghost predicate Explained(s: State, tx: Tx, token: Address) {
    var t, f := Step(s, tx).0, TxFlow(s, tx);
    && InScope(t, token)
    && Balance(t.world.bank, token, InsuranceContract)
       == Balance(s.world.bank, token, InsuranceContract) + f.premiums - f.claims
          + Donation(s, tx, token, InsuranceContract) - DirectPayout(s, tx, InsuranceContract)
    && Balance(t.world.bank, token, RiskPoolContract)
       == Balance(s.world.bank, token, RiskPoolContract) + f.poolPremiums - f.poolClaims
          + Donation(s, tx, token, RiskPoolContract) - DirectPayout(s, tx, RiskPoolContract)
    && t.world.inst.totalPremium == s.world.inst.totalPremium + f.premiums + f.poolPremiums
    && t.world.inst.totalPayouts == s.world.inst.totalPayouts + f.claims + f.poolClaims
  }

  lemma {:induction false} OpExplained(s: State, tx: Tx, token: Address)
    requires InScope(s, token) && tx.call.OnPolicy?
    ensures Explained(s, tx, token)
  {
    var t, id := Advance(s, tx.elapsed), tx.call.id;
    OpShape(t, tx.auth, id, tx.call.op);
    if id in s.policies { EveryOpBalances(t.world, tx.auth, id, s.policies[id], tx.call.op, token); }
  }

  /** Only fund_payout among the pool's own entry points moves tokens. */
  lemma {:induction false} PoolCallMoves(p: Pool.PoolState, bank: Bank, auth: set<Address>, call: Pool.PoolCall,
                                         token: Address)
    requires p.token == None || p.token == Some(token)
    ensures var out := Pool.Apply(p, bank, auth, call);
      out.Done? ==>
        && out.pool.token == p.token
        && (!call.FundPayout? ==> out.bank == bank)
        && (call.FundPayout? ==> Moves(bank, out.bank, token, RiskPoolContract, call.to, call.amount))
  {
    if call.FundPayout? && p.token.Some? { TransferMoves(bank, token, RiskPoolContract, call.to, call.amount); }
  }

  lemma {:induction false} PoolCallExplained(s: State, tx: Tx, token: Address)
    requires InScope(s, token) && tx.call.CallPool?
    ensures Explained(s, tx, token)
  {
    PoolCallMoves(s.world.pool, s.world.bank, tx.auth, tx.call.call, token);
  }

  lemma {:induction false} CreateExplained(s: State, tx: Tx, token: Address)
    requires InScope(s, token) && TxInScope(tx, token) && tx.call.CreatePolicy?
    ensures Explained(s, tx, token)
  {
    var t := Advance(s, tx.elapsed);
    if Step(s, tx).1.Ok? {
      CreateShape(t, tx.auth, tx.call);
      assert Step(s, tx).0.policies[s.world.inst.policyCounter].policyholder in tx.auth;
    }
  }

  lemma {:induction false} SettingTokens(inst: Instance, now: nat, auth: set<Address>, setting: Setting)
    ensures match Update(inst, now, auth, setting)
            case Denied(_) => true
            case Updated(i) =>
              && i.totalPremium == inst.totalPremium && i.totalPayouts == inst.totalPayouts
              && (i.premiumToken == inst.premiumToken
                  || (setting.SetPremiumToken? && i.premiumToken == Some(setting.token)))
              && (i.riskPool == inst.riskPool || setting.SetRiskPool?)
  {
  }

  lemma {:induction false} MovedBalance(bank: Bank, token: Address, from: Option<Address>, to: Address, amount: int,
                                        of: Address, owner: Address)
    requires from != Some(owner)
    ensures var moved := Move(bank, token, from, to, amount);
      moved.Some? ==>
        Balance(moved.value, of, owner) == Balance(bank, of, owner) + if of == token && owner == to then amount else 0
  {
    MoveMoves(bank, token, from, to, amount);
    if from.Some? { TransferMoves(bank, token, from.value, to, amount); }
  }

  lemma {:induction false} MoveExplained(s: State, tx: Tx, token: Address)
    requires InScope(s, token) && TxInScope(tx, token) && tx.call.MoveTokens?
    ensures Explained(s, tx, token)
  {
    var call := tx.call;
    if Step(s, tx).1.Ok? {
      MovedBalance(s.world.bank, call.token, call.from, call.to, call.amount, token, InsuranceContract);
      MovedBalance(s.world.bank, call.token, call.from, call.to, call.amount, token, RiskPoolContract);
    }
  }

  lemma {:induction false} StepExplained(s: State, tx: Tx, token: Address)
    requires InScope(s, token) && TxInScope(tx, token)
    ensures Explained(s, tx, token)
  {
    var t := Advance(s, tx.elapsed);
    match tx.call
    case OnPolicy(_, _) => OpExplained(s, tx, token);
    case CallPool(_) => PoolCallExplained(s, tx, token);
    case CreatePolicy(_, _, _, _, _, _) => CreateExplained(s, tx, token);
    case Configure(setting) => SettingTokens(t.world.inst, t.world.now, tx.auth, setting);
    case MoveTokens(_, _, _, _) => MoveExplained(s, tx, token);
    case GetPolicy(_) => assert Step(s, tx).0 == t;
    case GetTreasuryStats => assert Step(s, tx).0 == t;
    case VerifyOracle(_) => assert Step(s, tx).0 == t;
  }

  // -------------------------------------------------------------------- whole runs

  function RunFlow(s: State, txs: seq<Tx>): Flow
    decreases |txs|
  {
    if txs == [] then NOTHING else TxFlow(s, txs[0]).Plus(RunFlow(Step(s, txs[0]).0, txs[1..]))
  }

  function Donations(s: State, txs: seq<Tx>, token: Address, owner: Address): int
    decreases |txs|
  {
    if txs == [] then 0
    else Donation(s, txs[0], token, owner) + Donations(Step(s, txs[0]).0, txs[1..], token, owner)
  }

  function DirectPayouts(s: State, txs: seq<Tx>, owner: Address): int
    decreases |txs|
  {
    if txs == [] then 0 else DirectPayout(s, txs[0], owner) + DirectPayouts(Step(s, txs[0]).0, txs[1..], owner)
  }

  /** Each of the two balances, and each of the two totals, over every run. */
  lemma {:induction false} RunBalances(s: State, txs: seq<Tx>, token: Address)
    requires InScope(s, token)
    requires forall i :: 0 <= i < |txs| ==> TxInScope(txs[i], token)
    ensures var t, f := Run(s, txs), RunFlow(s, txs);
      && Balance(t.world.bank, token, InsuranceContract)
         == Balance(s.world.bank, token, InsuranceContract) + f.premiums - f.claims
            + Donations(s, txs, token, InsuranceContract) - DirectPayouts(s, txs, InsuranceContract)
      && Balance(t.world.bank, token, RiskPoolContract)
         == Balance(s.world.bank, token, RiskPoolContract) + f.poolPremiums - f.poolClaims
            + Donations(s, txs, token, RiskPoolContract) - DirectPayouts(s, txs, RiskPoolContract)
      && t.world.inst.totalPremium == s.world.inst.totalPremium + f.premiums + f.poolPremiums
      && t.world.inst.totalPayouts == s.world.inst.totalPayouts + f.claims + f.poolClaims
    decreases |txs|
  {
    if txs != [] {
      StepExplained(s, txs[0], token);
      RunBalances(Step(s, txs[0]).0, txs[1..], token);
    }
  }

  lemma {:induction false} StepWithoutPool(s: State, tx: Tx)
    requires s.world.inst.riskPool == None && !(tx.call.Configure? && tx.call.setting.SetRiskPool?)
    ensures Step(s, tx).0.world.inst.riskPool == None
  {
    var t := Advance(s, tx.elapsed);
    match tx.call
    case OnPolicy(id, op) =>
      OpShape(t, tx.auth, id, op);
      if id in t.policies { OpFrames(t.world, tx.auth, id, View(t.policies[id], t.world.now), op); }
    case Configure(setting) => SettingTokens(t.world.inst, t.world.now, tx.auth, setting);
    case _ =>
  }

  /** Without a pool, everything goes through the contract. */
  lemma {:induction false} WithoutPool(s: State, txs: seq<Tx>)
    requires s.world.inst.riskPool == None
    requires forall i :: 0 <= i < |txs| ==> !(txs[i].call.Configure? && txs[i].call.setting.SetRiskPool?)
    ensures RunFlow(s, txs).poolPremiums == 0 && RunFlow(s, txs).poolClaims == 0
    decreases |txs|
  {
    if txs != [] {
      StepWithoutPool(s, txs[0]);
      FlowWithoutPool(s, txs[0]);
      WithoutPool(Step(s, txs[0]).0, txs[1..]);
    }
  }

  lemma {:induction false} FlowWithoutPool(s: State, tx: Tx)
    requires s.world.inst.riskPool == None
    ensures TxFlow(s, tx).poolPremiums == 0 && TxFlow(s, tx).poolClaims == 0
  {
  }

  /** What the treasury holds: the contract's balance and, with a pool, the pool's too. */
  function Held(w: World, token: Address, withPool: bool): int {
    Balance(w.bank, token, InsuranceContract) + if withPool then Balance(w.bank, token, RiskPoolContract) else 0
  }

  /** So the totals explain the treasury's holding, with a pool or with none in the run. */
  lemma {:induction false} RunConserves(s: State, txs: seq<Tx>, token: Address, withPool: bool)
    requires InScope(s, token) && (withPool || s.world.inst.riskPool == None)
    requires forall i :: 0 <= i < |txs| ==>
      TxInScope(txs[i], token) && (txs[i].call.Configure? && txs[i].call.setting.SetRiskPool? ==> withPool)
    ensures var t := Run(s, txs);
      var counted := (t.world.inst.totalPremium - s.world.inst.totalPremium)
                     - (t.world.inst.totalPayouts - s.world.inst.totalPayouts);
      var outside := (a: Address) => Donations(s, txs, token, a) - DirectPayouts(s, txs, a);
      Held(t.world, token, withPool)
        == Held(s.world, token, withPool) + counted
           + outside(InsuranceContract) + if withPool then outside(RiskPoolContract) else 0
  {
    RunBalances(s, txs, token);
    if !withPool { WithoutPool(s, txs); }
  }
}
