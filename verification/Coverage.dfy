/**
 The payout ledger and the policy life cycle over whole runs: what every call
 keeps, the coverage cap across the three payout paths, and the history each
 policy follows.
 */
module Coverage {
  import opened Types
  import opened Premium
  import opened Insurance
  import opened Runs

  // ------------------------------------------------------------- the invariant

  /** What has been paid on a policy, read off its own fields: the admin and
      ballot paths fold a payout into totalClaimed, the oracle path leaves it in
      claimAmount and closes the policy. */
  function Due(p: Policy): int {
    p.totalClaimed + if p.status == ClaimApproved then p.claimAmount else 0
  }

  ghost predicate PolicyOk(id: nat, p: Policy, claims: map<nat, Claim>) {
    && p.id == id
    && p.coverage > 0
    && p.premium >= MIN_PREMIUM_STROOPS
    && p.startTime < p.endTime
    && 0 <= p.totalClaimed
    && p.status != ClaimRejected
    && (p.status == ClaimApproved ==> 0 <= p.claimAmount && p.totalClaimed + p.claimAmount <= p.coverage)
    && (p.status != ClaimApproved ==> p.totalClaimed < p.coverage)
    && (p.status == ClaimPending ==>
          id in claims && claims[id].amount == p.claimAmount && 0 < p.claimAmount <= p.RemainingCoverage())
    && (p.status != ClaimPending && p.status != ClaimApproved ==> p.claimAmount == 0)
  }

  /** How a stored policy may change: identity is fixed, coverage, claims and end
      time only grow, and Cancelled and ClaimApproved are final. */
  predicate Later(p: Policy, q: Policy) {
    && q.id == p.id && q.policyholder == p.policyholder && q.kind == p.kind && q.startTime == p.startTime
    && p.coverage <= q.coverage
    && p.totalClaimed <= q.totalClaimed
    && p.endTime <= q.endTime
    && (p.status == Cancelled || p.status == ClaimApproved ==> q == p)
  }

  /** The amounts of the published payouts on one policy. */
  function PaidOn(payouts: seq<Payout>, id: nat): int {
    if payouts == [] then 0
    else
      var last := payouts[|payouts| - 1];
      PaidOn(payouts[..|payouts| - 1], id) + if last.policyId == id then last.amount else 0
  }

  function TotalDue(policies: Book, n: nat): int {
    if n == 0 then 0
    else TotalDue(policies, n - 1) + if n - 1 in policies then Due(policies[n - 1]) else 0
  }

  /** The ids issued so far, and nothing else, are stored. */
  ghost predicate IdsExact(s: State) {
    forall id: nat :: id in s.policies <==> id < s.world.inst.policyCounter
  }

  ghost predicate Ledger(s: State) {
    && s.world.inst.admin.Some?
    && IdsExact(s)
    && (forall id :: id in s.policies ==> PolicyOk(id, s.policies[id], s.world.inst.claims))
    && s.world.inst.totalPayouts == TotalDue(s.policies, s.world.inst.policyCounter)
    && (forall id: nat ::
          PaidOn(s.world.inst.payouts, id) == if id in s.policies then Due(s.policies[id]) else 0)
  }

  // ------------------------------------------------------- what one call does

  /** The effect of an accepted policy call: the policy stays well formed and
      moves forward, other claims are untouched, and whatever Due grew by has
      been counted and published as one payout to the policyholder. */
  ghost predicate Effect(w: World, id: nat, p: Policy, w': World, q: Policy) {
    var paid := Due(q) - Due(p);
    && PolicyOk(id, q, w'.inst.claims)
    && Later(p, q)
    && w'.inst.policyCounter == w.inst.policyCounter
    && w'.inst.admin == w.inst.admin
    && (forall j: nat :: j != id ==>
          (j in w'.inst.claims <==> j in w.inst.claims)
          && (j in w.inst.claims ==> w'.inst.claims[j] == w.inst.claims[j]))
    && paid >= 0
    && w'.inst.totalPayouts == w.inst.totalPayouts + paid
    && w'.inst.payouts == w.inst.payouts + if paid > 0 then [Payout(id, p.policyholder, paid)] else []
  }

  ghost predicate Effective(w: World, id: nat, p: Policy, v: Verdict) {
    v.Accept? ==> Effect(w, id, p, v.world, v.policy)
  }

  lemma {:induction false} ClaimsAreEffective(w: World, auth: set<Address>, id: nat, p: Policy, approved: bool)
    requires PolicyOk(id, p, w.inst.claims)
    ensures Effective(w, id, p, ProcessClaimOn(w, auth, id, p, approved))
  {
  }

  lemma {:induction false} VotesAreEffective(w: World, id: nat, p: Policy, voter: Address, approve: bool)
    requires PolicyOk(id, p, w.inst.claims)
    ensures Effective(w, id, p, VoteClaimOn(w, id, p, voter, approve))
  {
  }

  lemma {:induction false} OraclesAreEffective(w: World, auth: set<Address>, id: nat, p: Policy, caller: Address,
      oracle: Symbol)
    requires PolicyOk(id, p, w.inst.claims)
    ensures Effective(w, id, p, EvaluateOracleOn(w, auth, id, p, caller, oracle))
  {
    PollOnlyPauses(w.inst, w.now, w.inst.oracleTypes);
  }

  lemma {:induction false} EveryOpIsEffective(w: World, auth: set<Address>, id: nat, p: Policy, op: PolicyOp)
    requires PolicyOk(id, p, w.inst.claims)
    ensures Effective(w, id, p, Operate(w, auth, id, p, op))
  {
    match op
    case PayPremium(_) =>
    case SubmitClaim(_, _) =>
    case ProcessClaim(approved) => ClaimsAreEffective(w, auth, id, p, approved);
    case EvaluateOracle(caller, oracle) => OraclesAreEffective(w, auth, id, p, caller, oracle);
    case CancelPolicy =>
    case IncreaseCoverage(_) =>
    case ExtendDuration(_) =>
    case ChangeBeneficiary(_) =>
    case VoteClaim(voter, approve) => VotesAreEffective(w, id, p, voter, approve);
    case RenewPolicy(_) =>
    case CheckExpiration =>
  }

  // ------------------------------------------------------------ sums and books

  lemma {:induction false} TotalDueUpdate(policies: Book, n: nat, id: nat, q: Policy)
    requires id in policies
    ensures TotalDue(policies[id := q], n)
         == TotalDue(policies, n) + if id < n then Due(q) - Due(policies[id]) else 0
  {
    if n > 0 {
      TotalDueUpdate(policies, n - 1, id, q);
    }
  }

  lemma {:induction false} TotalDueBelow(policies: Book, policies': Book, n: nat)
    requires forall id: nat :: id < n ==>
      (id in policies <==> id in policies') && (id in policies ==> Due(policies[id]) == Due(policies'[id]))
    ensures TotalDue(policies, n) == TotalDue(policies', n)
  {
    if n > 0 {
      TotalDueBelow(policies, policies', n - 1);
    }
  }

  lemma {:induction false} PaidOnSnoc(payouts: seq<Payout>, x: Payout, id: nat)
    ensures PaidOn(payouts + [x], id) == PaidOn(payouts, id) + if x.policyId == id then x.amount else 0
  {
    assert (payouts + [x])[..|payouts|] == payouts;
  }

  lemma {:induction false} OpKeepsLedger(s: State, id: nat, w': World, q: Policy)
    requires Ledger(s) && id in s.policies
    requires Effect(s.world, id, View(s.policies[id], s.world.now), w', q)
    ensures Ledger(State(s.policies[id := q], w'))
  {
    var p := View(s.policies[id], s.world.now);
    assert Due(p) == Due(s.policies[id]);
    TotalDueUpdate(s.policies, s.world.inst.policyCounter, id, q);
    var paid := Due(q) - Due(p);
    forall j: nat
      ensures PaidOn(w'.inst.payouts, j) == PaidOn(s.world.inst.payouts, j) + if j == id then paid else 0
    {
      if paid > 0 {
        PaidOnSnoc(s.world.inst.payouts, Payout(id, p.policyholder, paid), j);
      } else {
        assert w'.inst.payouts == s.world.inst.payouts;
      }
    }
  }

  lemma {:induction false} CreateKeepsLedger(s: State, id: nat, p: Policy)
    requires Ledger(s) && id == s.world.inst.policyCounter
    requires PolicyOk(id, p, s.world.inst.claims) && Due(p) == 0
    ensures Ledger(State(s.policies[id := p], s.world.(inst := s.world.inst.(policyCounter := id + 1))))
  {
    TotalDueBelow(s.policies, s.policies[id := p], id);
  }

  // --------------------------------------------------------------- the theorem

  ghost predicate AllLater(s: State, t: State) {
    forall id :: id in s.policies ==> id in t.policies && Later(s.policies[id], t.policies[id])
  }

  /** Settings, once initialised, never touch the ledger's fields. */
  lemma {:induction false} SettingsKeepLedger(inst: Instance, now: nat, auth: set<Address>, setting: Setting)
    requires inst.admin.Some?
    ensures var c := Update(inst, now, auth, setting);
      c.Updated? ==>
        && c.inst.admin == inst.admin && c.inst.policyCounter == inst.policyCounter && c.inst.claims == inst.claims
        && c.inst.totalPayouts == inst.totalPayouts && c.inst.payouts == inst.payouts
        && c.inst.totalPremium == inst.totalPremium
  {
  }

  lemma {:induction false} VerdictStep(s: State, id: nat, v: Verdict, t: State)
    requires Ledger(s) && id in s.policies
    requires Effective(s.world, id, View(s.policies[id], s.world.now), v)
    requires OpLeaves(s, id, v, t)
    ensures Ledger(t) && AllLater(s, t)
  {
    if t != s {
      OpKeepsLedger(s, id, v.world, v.policy);
    }
  }

  lemma {:induction false} OpStep(s: State, auth: set<Address>, id: nat, op: PolicyOp)
    requires Ledger(s)
    ensures var t := Apply(s, auth, OnPolicy(id, op)).0; Ledger(t) && AllLater(s, t)
  {
    OpShape(s, auth, id, op);
    if id in s.policies {
      var p := View(s.policies[id], s.world.now);
      EveryOpIsEffective(s.world, auth, id, p, op);
      VerdictStep(s, id, Operate(s.world, auth, id, p, op), Apply(s, auth, OnPolicy(id, op)).0);
    }
  }

  /** A successful create_policy stores one well-formed active policy under the next id. */
  lemma {:induction false} CreateShape(s: State, auth: set<Address>, call: Call)
    requires call.CreatePolicy? && Apply(s, auth, call).1.Ok?
    ensures var id := s.world.inst.policyCounter;
      var t := Apply(s, auth, call).0;
      && id in t.policies
      && t == State(s.policies[id := t.policies[id]],
                    s.world.(inst := s.world.inst.(policyCounter := id + 1)))
      && PolicyOk(id, t.policies[id], s.world.inst.claims) && Due(t.policies[id]) == 0
  {
  }

  lemma {:induction false} CreateStep(s: State, auth: set<Address>, call: Call)
    requires Ledger(s) && call.CreatePolicy?
    ensures var t := Apply(s, auth, call).0; Ledger(t) && AllLater(s, t)
  {
    var (t, r) := Apply(s, auth, call);
    if r.Ok? {
      CreateShape(s, auth, call);
      CreateKeepsLedger(s, s.world.inst.policyCounter, t.policies[s.world.inst.policyCounter]);
    } else {
      assert t == s;
    }
  }

  /** The ledger reads only the policies and these fields of the world. */
  lemma {:induction false} LedgerFields(s: State, w: World)
    requires Ledger(s) && w.inst.admin.Some?
    requires w.inst.policyCounter == s.world.inst.policyCounter && w.inst.claims == s.world.inst.claims
    requires w.inst.totalPayouts == s.world.inst.totalPayouts && w.inst.payouts == s.world.inst.payouts
    ensures Ledger(s.(world := w))
  {
  }

  /** One call keeps the ledger exact and moves every policy forward only. */
  lemma {:induction false} StepKeepsLedger(s: State, tx: Tx)
    requires Ledger(s)
    ensures Ledger(Step(s, tx).0)
    ensures AllLater(s, Step(s, tx).0)
  {
    var t := Advance(s, tx.elapsed);
    LedgerFields(s, t.world);
    match tx.call
    case OnPolicy(id, op) => OpStep(t, tx.auth, id, op);
    case CreatePolicy(_, _, _, _, _, _) => CreateStep(t, tx.auth, tx.call);
    case Configure(setting) =>
      SettingsKeepLedger(t.world.inst, t.world.now, tx.auth, setting);
      LedgerFields(t, Step(s, tx).0.world);
    case _ => LedgerFields(t, Step(s, tx).0.world);
  }

  lemma {:induction false} RunKeepsLedger(s: State, txs: seq<Tx>)
    requires Ledger(s)
    ensures Ledger(Run(s, txs))
    ensures AllLater(s, Run(s, txs))
    decreases |txs|
  {
    if txs != [] {
      StepKeepsLedger(s, txs[0]);
      RunKeepsLedger(Step(s, txs[0]).0, txs[1..]);
    }
  }

  /** The coverage cap over every run: through any mix of process_claim,
      vote_claim and evaluate_oracle_trigger, the payouts ever published on a
      policy add up to at most its coverage, and TotalPayouts is their sum over
      all policies. */
  lemma {:induction false} CoverageCap(s: State, txs: seq<Tx>, id: nat)
    requires Ledger(s) && id in Run(s, txs).policies
    ensures var t := Run(s, txs);
      && 0 <= PaidOn(t.world.inst.payouts, id) <= t.policies[id].coverage
      && t.world.inst.totalPayouts == TotalDue(t.policies, t.world.inst.policyCounter)
  {
    RunKeepsLedger(s, txs);
  }

  /** A closed policy is final: nothing that happens later changes it. */
  lemma {:induction false} FinalStatuses(s: State, txs: seq<Tx>, id: nat)
    requires Ledger(s) && id in s.policies
    requires s.policies[id].status == Cancelled || s.policies[id].status == ClaimApproved
    ensures id in Run(s, txs).policies && Run(s, txs).policies[id] == s.policies[id]
  {
    RunKeepsLedger(s, txs);
  }

  // ----------------------------------------------------- what closing a policy means

  /** Nothing is left to claim on a policy that a settlement has closed; one that the
      oracle has closed still shows the claim it paid. */
  predicate ClosedInFull(p: Policy) {
    p.status == ClaimApproved && p.claimAmount == 0 ==> p.totalClaimed == p.coverage
  }

  lemma {:induction false} OpClosesInFull(w: World, auth: set<Address>, id: nat, p: Policy, op: PolicyOp)
    requires PolicyOk(id, p, w.inst.claims) && ClosedInFull(p)
    ensures var v := Operate(w, auth, id, p, op); v.Accept? ==> ClosedInFull(v.policy)
  {
    EveryOpIsEffective(w, auth, id, p, op);
  }

  ghost predicate AllClosedInFull(s: State) { forall id :: id in s.policies ==> ClosedInFull(s.policies[id]) }

  lemma {:induction false} StepClosesInFull(s: State, tx: Tx)
    requires Ledger(s) && AllClosedInFull(s)
    ensures AllClosedInFull(Step(s, tx).0)
  {
    var t := Advance(s, tx.elapsed);
    match tx.call
    case OnPolicy(id, op) =>
      OpShape(t, tx.auth, id, op);
      if id in t.policies { OpClosesInFull(t.world, tx.auth, id, View(t.policies[id], t.world.now), op); }
    case CreatePolicy(_, _, _, _, _, _) => if Apply(t, tx.auth, tx.call).1.Ok? { CreateShape(t, tx.auth, tx.call); }
    case _ =>
  }

  /** Over every run a partial settlement never closes a policy. */
  lemma {:induction false} RunClosesInFull(s: State, txs: seq<Tx>)
    requires Ledger(s) && AllClosedInFull(s)
    ensures AllClosedInFull(Run(s, txs))
    decreases |txs|
  {
    if txs != [] {
      StepKeepsLedger(s, txs[0]);
      StepClosesInFull(s, txs[0]);
      RunClosesInFull(Step(s, txs[0]).0, txs[1..]);
    }
  }

  // -------------------------------------------------------------- initialising

  /** init resets the id counter whatever was created before it.  Right after it
      the ledger is exact if and only if no policy had been created. */
  lemma {:induction false} InitLedgerIff(bank: Bank, token: Option<Address>, now: nat, before: seq<Tx>, admin: Address)
    requires forall i :: 0 <= i < |before| ==> !(before[i].call.Configure? && before[i].call.setting.Init?)
    ensures var s := Run(Genesis(bank, token, now), before);
      var t := Apply(s, {}, Configure(Init(admin))).0;
      Ledger(t) <==> s.policies == map[]
  {
    var s := Run(Genesis(bank, token, now), before);
    BeforeInit(Genesis(bank, token, now), before);
    var t := Apply(s, {}, Configure(Init(admin))).0;
    assert t.policies == s.policies && t.world.inst.policyCounter == 0;
    if s.policies == map[] {
      assert Ledger(t);
    } else {
      var id :| id in s.policies;
      assert !IdsExact(t);
    }
  }

  /** Until init, nobody is an admin and no token is set, so nothing is ever paid. */
  ghost predicate Uninitialised(s: State) {
    var i := s.world.inst;
    && i.admin.None? && i.admins == [] && i.premiumToken.None? && i.totalPayouts == 0 && i.payouts == []
  }

  lemma {:induction false} BeforeInit(s: State, txs: seq<Tx>)
    requires Uninitialised(s)
    requires forall i :: 0 <= i < |txs| ==> !(txs[i].call.Configure? && txs[i].call.setting.Init?)
    ensures Uninitialised(Run(s, txs))
    decreases |txs|
  {
    if txs != [] {
      var tx := txs[0];
      assert !(tx.call.Configure? && tx.call.setting.Init?);
      var t := Advance(s, tx.elapsed);
      match tx.call {
        case OnPolicy(id, op) =>
          if id in t.policies { UninitialisedOp(t, tx.auth, id, op); }
        case Configure(setting) => UninitialisedSetting(t, tx.auth, setting);
        case _ =>
      }
      BeforeInit(Step(s, tx).0, txs[1..]);
    }
  }

  lemma {:induction false} UninitialisedSetting(s: State, auth: set<Address>, setting: Setting)
    requires Uninitialised(s) && !setting.Init?
    ensures Uninitialised(Apply(s, auth, Configure(setting)).0)
  {
  }

  lemma {:induction false} UninitialisedOp(s: State, auth: set<Address>, id: nat, op: PolicyOp)
    requires Uninitialised(s) && id in s.policies
    ensures Uninitialised(Apply(s, auth, OnPolicy(id, op)).0)
  {
  }

  /** A concrete loss: the policy created before init is overwritten by the
      first policy created after it. */
  lemma {:induction false} PolicyLostToInit(holder: Address, other: Address)
    requires holder != other
    ensures
      var create := (a: Address) => Tx(0, {a}, CreatePolicy(a, Flight, 10_000_000, 100_000, 1, ""));
      var s := Run(Genesis(map[], None, 5), [create(holder), Tx(0, {}, Configure(Init(other))), create(other)]);
      s.policies.Keys == {0} && s.policies[0].policyholder == other
  {
    var g := Genesis(map[], None, 5);
    var first := Tx(0, {holder}, CreatePolicy(holder, Flight, 10_000_000, 100_000, 1, ""));
    var init := Tx(0, {}, Configure(Init(other)));
    var second := Tx(0, {other}, CreatePolicy(other, Flight, 10_000_000, 100_000, 1, ""));
    assert CalculatePremium(Flight, 10_000_000, 1) == Ok(100_000);
    var s1 := Step(g, first).0;
    assert s1.policies.Keys == {0};
    var s2 := Step(s1, init).0;
    var s3 := Step(s2, second).0;
    assert s3.policies.Keys == {0};
    assert [first, init, second][1..] == [init, second] && [init, second][1..] == [second] && [second][1..] == [];
    assert Run(s3, []) == s3;
    assert Run(s2, [second]) == s3;
    assert Run(s1, [init, second]) == s3;
  }
}
