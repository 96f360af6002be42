/**
 The coverage cap counted from deployment.  create_policy works before init, and
 init starts the ids again at zero; a policy left over from before is overwritten
 when its id comes up, while the payouts already made on it are not.
 */
module Deployment {
  import opened Types
  import opened Premium
  import opened PremiumLaws
  import opened Insurance
  import opened Runs
  import opened Coverage

  /** No policy has been paid more than its coverage. */
  ghost predicate CapHolds(s: State) {
    forall id :: id in s.policies ==> 0 <= PaidOn(s.world.inst.payouts, id) <= s.policies[id].coverage
  }

  /** A policy some call can still change: a claim is pending, or it is in force, or
      it has lapsed but can be renewed. */
  predicate Live(p: Policy, now: nat) {
    || p.status == ClaimPending
    || ((p.status == Active || p.status == Expired)
        && (now <= p.endTime || now <= p.endTime + RENEWAL_GRACE_PERIOD <= U64_MAX))
  }

  // ------------------------------------------------------------ dead leftovers

  /** The state without the policies whose ids have not been issued since init. */
  function Kept(s: State): State {
    s.(policies := map id | id in s.policies && id < s.world.inst.policyCounter :: s.policies[id])
  }

  ghost predicate LeftoversDead(s: State) {
    forall id :: id in s.policies && id >= s.world.inst.policyCounter ==>
      !Live(s.policies[id], s.world.now) && s.policies[id].coverage >= 0
  }

  /** No call succeeds on a dead policy except to write down its expiry. */
  lemma {:induction false} DeadOp(w: World, auth: set<Address>, id: nat, raw: Policy, op: PolicyOp)
    requires !Live(raw, w.now)
    ensures var v := Operate(w, auth, id, View(raw, w.now), op);
      v.Accept? ==> v.world == w && v.policy == View(raw, w.now) && !Live(v.policy, w.now)
  {
  }

  /** As long as the leftovers are dead, forgetting them commutes with every call. */
  lemma {:induction false} StepForgets(s: State, tx: Tx)
    requires s.world.inst.admin.Some? && LeftoversDead(s)
    ensures var t := Step(s, tx).0;
      t.world.inst.admin.Some? && LeftoversDead(t) && Kept(t) == Step(Kept(s), tx).0
  {
    var u := Advance(s, tx.elapsed);
    assert Advance(Kept(s), tx.elapsed) == Kept(u);
    assert LeftoversDead(u);
    match tx.call
    case OnPolicy(id, op) => OpForgets(u, tx.auth, id, op);
    case CreatePolicy(_, _, _, _, _, _) => CreateForgets(u, tx.auth, tx.call);
    case Configure(setting) =>
      SettingsKeepLedger(u.world.inst, u.world.now, tx.auth, setting);
      SameBook(u, Step(s, tx).0);
    case _ => SameBook(u, Step(s, tx).0);
  }

  lemma {:induction false} SameBook(s: State, t: State)
    requires LeftoversDead(s) && t.policies == s.policies && t.world.now == s.world.now
    requires t.world.inst.policyCounter == s.world.inst.policyCounter
    ensures LeftoversDead(t) && Kept(t) == Kept(s).(world := t.world)
  {
    assert Kept(t).policies == Kept(s).policies;
  }

  lemma {:induction false} OpForgets(s: State, auth: set<Address>, id: nat, op: PolicyOp)
    requires s.world.inst.admin.Some? && LeftoversDead(s)
    ensures var t := Apply(s, auth, OnPolicy(id, op)).0;
      t.world.inst.admin.Some? && LeftoversDead(t) && Kept(t) == Apply(Kept(s), auth, OnPolicy(id, op)).0
  {
    OpShape(s, auth, id, op);
    OpShape(Kept(s), auth, id, op);
    if id in s.policies {
      var v := Operate(s.world, auth, id, View(s.policies[id], s.world.now), op);
      OpFrames(s.world, auth, id, View(s.policies[id], s.world.now), op);
      if id >= s.world.inst.policyCounter { DeadOp(s.world, auth, id, s.policies[id], op); }
      if v.Accept? { WriteForgets(s, id, v.world, v.policy); }
    }
  }

  lemma {:induction false} WriteForgets(s: State, id: nat, w: World, q: Policy)
    requires LeftoversDead(s) && id in s.policies
    requires w.now == s.world.now && w.inst.policyCounter == s.world.inst.policyCounter
    requires id >= s.world.inst.policyCounter ==> w == s.world && !Live(q, w.now) && q.coverage >= 0
    ensures var t := State(s.policies[id := q], w);
      && LeftoversDead(t)
      && Kept(t) == if id < w.inst.policyCounter then State(Kept(s).policies[id := q], w) else Kept(s)
  {
    var t := State(s.policies[id := q], w);
    if id < w.inst.policyCounter {
      assert Kept(t).policies == Kept(s).policies[id := q];
    } else {
      assert Kept(t).policies == Kept(s).policies;
    }
  }

  lemma {:induction false} CreateForgets(s: State, auth: set<Address>, call: Call)
    requires s.world.inst.admin.Some? && LeftoversDead(s) && call.CreatePolicy?
    ensures var t := Apply(s, auth, call).0;
      t.world.inst.admin.Some? && LeftoversDead(t) && Kept(t) == Apply(Kept(s), auth, call).0
  {
    var (t, r) := Apply(s, auth, call);
    if r.Ok? {
      var id := s.world.inst.policyCounter;
      CreateShape(s, auth, call);
      CreateShape(Kept(s), auth, call);
      assert Kept(t).policies == Kept(s).policies[id := t.policies[id]];
    }
  }

  lemma {:induction false} RunForgets(s: State, txs: seq<Tx>)
    requires s.world.inst.admin.Some? && LeftoversDead(s)
    ensures LeftoversDead(Run(s, txs)) && Kept(Run(s, txs)) == Run(Kept(s), txs)
    decreases |txs|
  {
    if txs != [] {
      StepForgets(s, txs[0]);
      RunForgets(Step(s, txs[0]).0, txs[1..]);
    }
  }

  /** With dead leftovers only, the cap holds over every run. */
  lemma {:induction false} DeadLeftoversKeepCap(s: State, txs: seq<Tx>)
    requires Ledger(Kept(s)) && LeftoversDead(s)
    ensures CapHolds(Run(s, txs))
  {
    RunForgets(s, txs);
    RunKeepsLedger(Kept(s), txs);
    var t := Run(s, txs);
    forall id | id in t.policies ensures 0 <= PaidOn(t.world.inst.payouts, id) <= t.policies[id].coverage {
      if id in Kept(t).policies { CoverageCap(Kept(s), txs, id); }
    }
  }

  // --------------------------------------------------------------- before init

  /** What every history without init leaves. */
  ghost predicate PreInit(s: State) {
    var i := s.world.inst;
    && Uninitialised(s) && i.riskPool.None? && i.maxPolicies == MAX_POLICIES && i.totalPremium == 0
    && i.policyCounter <= MAX_POLICIES && IdsExact(s)
    && forall id :: id in s.policies ==> Unpaid(id, s.policies[id], i.claims, s.world.now)
  }

  ghost predicate Unpaid(id: nat, p: Policy, claims: map<nat, Claim>, now: nat) {
    && PolicyOk(id, p, claims) && p.totalClaimed == 0 && p.status != ClaimApproved
    && (p.status == Expired ==> now > p.endTime)
    && CalculatePremium(p.kind, p.coverage, 1).Ok?
  }

  predicate IsInit(tx: Tx) { tx.call.Configure? && tx.call.setting.Init? }

  lemma {:induction false} StepKeepsPreInit(s: State, tx: Tx)
    requires PreInit(s) && !IsInit(tx)
    ensures PreInit(Step(s, tx).0)
  {
    var t := Advance(s, tx.elapsed);
    assert PreInit(t);
    match tx.call
    case OnPolicy(id, op) => if id in t.policies { OpKeepsPreInit(t, tx.auth, id, op); }
    case CreatePolicy(_, _, _, _, _, _) => CreateKeepsPreInit(t, tx.auth, tx.call);
    case Configure(setting) => SettingKeepsPreInit(t.world.inst, t.world.now, tx.auth, setting);
    case _ =>
  }

  /** Without an admin only the price feed can be set. */
  lemma {:induction false} SettingKeepsPreInit(inst: Instance, now: nat, auth: set<Address>, setting: Setting)
    requires inst.admin.None? && inst.admins == [] && !setting.Init?
    ensures var c := Update(inst, now, auth, setting);
      c.Updated? ==> c.inst == inst.(price := c.inst.price, priceTime := c.inst.priceTime, paused := c.inst.paused)
  {
  }

  lemma {:induction false} CreateKeepsPreInit(s: State, auth: set<Address>, call: Call)
    requires PreInit(s) && call.CreatePolicy?
    ensures PreInit(Apply(s, auth, call).0)
  {
    var (t, r) := Apply(s, auth, call);
    if r.Ok? {
      CreateShape(s, auth, call);
      Monotone(call.kind, call.coverage, call.duration, call.coverage, 1);
    }
  }

  lemma {:induction false} OpKeepsPreInit(s: State, auth: set<Address>, id: nat, op: PolicyOp)
    requires PreInit(s) && id in s.policies
    ensures PreInit(Apply(s, auth, OnPolicy(id, op)).0)
  {
    OpShape(s, auth, id, op);
    var p := View(s.policies[id], s.world.now);
    var v := Operate(s.world, auth, id, p, op);
    EveryOpIsEffective(s.world, auth, id, p, op);
    if Apply(s, auth, OnPolicy(id, op)).0 != s {
      OpUnpaid(s.world, auth, id, p, op);
      OthersUnpaid(s, id, v.world.inst.claims, v.policy);
    }
  }

  lemma {:induction false} OthersUnpaid(s: State, id: nat, claims: map<nat, Claim>, q: Policy)
    requires PreInit(s) && id in s.policies && Unpaid(id, q, claims, s.world.now)
    requires forall j: nat :: j != id ==>
      (j in claims <==> j in s.world.inst.claims) && (j in claims ==> claims[j] == s.world.inst.claims[j])
    ensures PreInit(State(s.policies[id := q], s.world.(inst := s.world.inst.(claims := claims))))
  {
  }

  /** Without an admin or a token no call pays, so nothing but the claims changes. */
  lemma {:induction false} OpUnpaid(w: World, auth: set<Address>, id: nat, p: Policy, op: PolicyOp)
    requires w.inst.admin.None? && w.inst.admins == [] && w.inst.premiumToken.None?
    requires Gate(w.inst, auth, op).None? && Unpaid(id, p, w.inst.claims, w.now)
    ensures var v := Operate(w, auth, id, p, op);
      v.Accept? ==> v.world == w.(inst := w.inst.(claims := v.world.inst.claims))
                    && Unpaid(id, v.policy, v.world.inst.claims, w.now)
  {
  }

  lemma {:induction false} RunKeepsPreInit(s: State, txs: seq<Tx>)
    requires PreInit(s) && forall i :: 0 <= i < |txs| ==> !IsInit(txs[i])
    ensures PreInit(Run(s, txs))
    decreases |txs|
  {
    if txs != [] {
      StepKeepsPreInit(s, txs[0]);
      RunKeepsPreInit(Step(s, txs[0]).0, txs[1..]);
    }
  }

  lemma {:induction false} GenesisPreInit(bank: Bank, token: Option<Address>, now: nat)
    ensures PreInit(Genesis(bank, token, now))
  {
  }

  // --------------------------------------------------------- live leftovers

  /** No tokens are moved outside the contracts. */
  predicate Inside(txs: seq<Tx>) { forall i :: 0 <= i < |txs| ==> !txs[i].call.MoveTokens? }

  ghost predicate Reach(s: State, t: State) { exists txs :: Inside(txs) && Run(s, txs) == t }

  lemma {:induction false} ReachSelf(s: State)
    ensures Reach(s, s)
  {
    assert Inside([]) && Run(s, []) == s;
  }

  lemma {:induction false} ReachStep(s: State, t: State, tx: Tx)
    requires Reach(s, t) && !tx.call.MoveTokens?
    ensures Reach(s, Step(t, tx).0)
  {
    var txs :| Inside(txs) && Run(s, txs) == t;
    RunAppend(s, txs, [tx]);
    RunOne(t, tx);
    assert Inside(txs + [tx]) && Run(s, txs + [tx]) == Step(t, tx).0;
  }

  /** A running contract that pays in this token from its own balance. */
  predicate Running(s: State, admin: Address, token: Address) {
    var i := s.world.inst;
    && i.admin == Some(admin) && !i.paused && i.premiumToken == Some(token) && i.riskPool == None
    && i.maxPolicies == MAX_POLICIES && s.world.now < U64_MAX
  }

  /** The contract can pay the holder so much without any sum leaving i128. */
  predicate CanPay(s: State, token: Address, holder: Address, need: int) {
    var b, h := Balance(s.world.bank, token, InsuranceContract), Balance(s.world.bank, token, holder);
    && b >= need && h >= 0 && b + h <= I128_MAX
    && 0 <= s.world.inst.totalPayouts && s.world.inst.totalPayouts + need <= I128_MAX
  }

  /** A pending claim of a policy on which nothing has been claimed before. */
  predicate Claimed(s: State, id: nat, holder: Address, amount: int) {
    && id in s.policies && s.policies[id].status == ClaimPending && s.policies[id].policyholder == holder
    && s.policies[id].totalClaimed == 0
    && id in s.world.inst.claims && s.world.inst.claims[id].amount == amount
  }

  /** An active policy of the holder in force, nothing claimed on it yet. */
  predicate InForce(s: State, id: nat, holder: Address) {
    && id in s.policies && s.policies[id].status == Active && s.policies[id].policyholder == holder
    && s.world.now <= s.policies[id].endTime && s.policies[id].totalClaimed == 0 && s.policies[id].coverage >= 1
  }

  lemma {:induction false} Claim(s: State, id: nat, admin: Address, token: Address, holder: Address, need: int)
    requires Running(s, admin, token) && InForce(s, id, holder) && CanPay(s, token, holder, need)
    ensures var t := Step(s, Tx(0, {holder}, OnPolicy(id, SubmitClaim(1, "")))).0;
      && Running(t, admin, token) && Claimed(t, id, holder, 1) && CanPay(t, token, holder, need)
      && t.world.inst.payouts == s.world.inst.payouts && t.world.inst.policyCounter == s.world.inst.policyCounter
      && t.policies[id].coverage == s.policies[id].coverage
  {
    assert Advance(s, 0) == s;
  }

  lemma {:induction false} Settled(s: State, id: nat, admin: Address, token: Address, holder: Address, amount: int,
                                   need: int)
    requires Running(s, admin, token) && Claimed(s, id, holder, amount) && 1 <= amount <= need
      && CanPay(s, token, holder, need)
    ensures var t := Step(s, Tx(0, {admin}, OnPolicy(id, ProcessClaim(true)))).0;
      && Running(t, admin, token) && CanPay(t, token, holder, need - amount)
      && t.world.inst.payouts == s.world.inst.payouts + [Payout(id, holder, amount)]
      && t.world.inst.policyCounter == s.world.inst.policyCounter
      && t.policies.Keys == s.policies.Keys && id in t.policies && t.policies[id].coverage == s.policies[id].coverage
  {
    assert Advance(s, 0) == s;
    PaysHolder(s.world, id, admin, token, holder);
  }

  lemma {:induction false} PaysHolder(w: World, id: nat, admin: Address, token: Address, holder: Address)
    requires w.inst.premiumToken == Some(token) && w.inst.riskPool == None && id in w.inst.claims
    requires var amount := w.inst.claims[id].amount;
      && amount >= 1 && CanPay(State(map[], w), token, holder, amount)
    ensures var amount, r := w.inst.claims[id].amount, PayOut(w, {admin}, id, holder, true);
      && r.Ok?
      && r.value.inst == w.inst.(claims := r.value.inst.claims, totalPayouts := w.inst.totalPayouts + amount,
                                 payouts := w.inst.payouts + [Payout(id, holder, amount)])
      && r.value.now == w.now
      && Balance(r.value.bank, token, InsuranceContract) + Balance(r.value.bank, token, holder)
         == Balance(w.bank, token, InsuranceContract) + Balance(w.bank, token, holder)
      && Balance(r.value.bank, token, InsuranceContract) >= Balance(w.bank, token, InsuranceContract) - amount
      && Balance(r.value.bank, token, holder) >= 0
  {
  }

  /** The policy that the holder can always take out for the minimum premium. */
  function Smallest(id: nat, holder: Address, now: nat): Policy {
    Policy(id, holder, holder, Flight, 1, MIN_PREMIUM_STROOPS, now, now + 1, "", Active, 0, 0)
  }

  lemma {:induction false} TakeOut(s: State, admin: Address, token: Address, holder: Address)
    requires Running(s, admin, token) && s.world.inst.policyCounter < MAX_POLICIES
    ensures var n := s.world.inst.policyCounter;
      Step(s, Tx(0, {holder}, CreatePolicy(holder, Flight, 1, MIN_PREMIUM_STROOPS, 1, ""))).0
        == State(s.policies[n := Smallest(n, holder, s.world.now)],
                 s.world.(inst := s.world.inst.(policyCounter := n + 1)))
  {
    assert Advance(s, 0) == s;
    assert CalculatePremium(Flight, 1, 1) == Ok(MIN_PREMIUM_STROOPS);
  }

  /** Policies taken out one after the other reach and overwrite any id. */
  lemma {:induction false} Overwritten(s0: State, s: State, id: nat, admin: Address, token: Address, holder: Address)
    returns (t: State)
    requires Reach(s0, s) && Running(s, admin, token) && s.world.inst.policyCounter <= id < MAX_POLICIES
    ensures Reach(s0, t)
    ensures t.world == s.world.(inst := s.world.inst.(policyCounter := id + 1))
    ensures id in t.policies && t.policies[id] == Smallest(id, holder, s.world.now)
    decreases id - s.world.inst.policyCounter
  {
    var tx := Tx(0, {holder}, CreatePolicy(holder, Flight, 1, MIN_PREMIUM_STROOPS, 1, ""));
    TakeOut(s, admin, token, holder);
    ReachStep(s0, s, tx);
    t := Step(s, tx).0;
    if s.world.inst.policyCounter < id { t := Overwritten(s0, t, id, admin, token, holder); }
  }

  /** A pending claim on a leftover: pay it, overwrite the policy by one of coverage
      1, claim and pay that too. */
  lemma {:induction false} PaidTwice(s0: State, s: State, id: nat, admin: Address, token: Address, holder: Address,
                                     amount: int)
    returns (t: State)
    requires Reach(s0, s) && Running(s, admin, token) && Claimed(s, id, holder, amount)
    requires amount >= 1 && CanPay(s, token, holder, amount + 1)
    requires s.world.inst.policyCounter <= id < MAX_POLICIES && s.world.inst.payouts == []
    ensures Reach(s0, t) && !CapHolds(t)
  {
    var pay := Tx(0, {admin}, OnPolicy(id, ProcessClaim(true)));
    var claim := Tx(0, {holder}, OnPolicy(id, SubmitClaim(1, "")));
    Settled(s, id, admin, token, holder, amount, amount + 1);
    ReachStep(s0, s, pay);
    var u := Overwritten(s0, Step(s, pay).0, id, admin, token, holder);
    Claim(u, id, admin, token, holder, 1);
    ReachStep(s0, u, claim);
    var v := Step(u, claim).0;
    Settled(v, id, admin, token, holder, 1, 1);
    ReachStep(s0, v, pay);
    t := Step(v, pay).0;
    PaidOnSnoc([], Payout(id, holder, amount), id);
    PaidOnSnoc([] + [Payout(id, holder, amount)], Payout(id, holder, 1), id);
    assert PaidOn([], id) == 0;
    assert t.world.inst.payouts == [] + [Payout(id, holder, amount)] + [Payout(id, holder, 1)];
    assert t.policies[id].coverage == 1;
  }

  // ------------------------------------------------------------ raising the money

  /** No balance of the two or total of theirs can leave i128, and nothing is paid yet. */
  predicate Solvent(s: State, token: Address, holder: Address) {
    var b, h := Balance(s.world.bank, token, InsuranceContract), Balance(s.world.bank, token, holder);
    && b >= 0 && h >= 0 && b + h <= I128_MAX && s.world.inst.totalPayouts == 0
    && 0 <= s.world.inst.totalPremium && s.world.inst.totalPremium + h <= I128_MAX
  }

  /** What a payment of the holder into the contract does to their balances. */
  predicate PaidIn(s: State, t: State, token: Address, holder: Address, amount: int) {
    var moved := if holder == InsuranceContract then 0 else amount;
    && Balance(t.world.bank, token, InsuranceContract) == Balance(s.world.bank, token, InsuranceContract) + moved
    && Balance(t.world.bank, token, holder) == Balance(s.world.bank, token, holder) - moved
    && t.world.inst.payouts == s.world.inst.payouts && t.world.inst.policyCounter == s.world.inst.policyCounter
  }

  lemma {:induction false} Collected(w: World, token: Address, holder: Address, amount: int)
    requires w.inst.premiumToken == Some(token) && Solvent(State(map[], w), token, holder)
    requires 0 <= amount <= Balance(w.bank, token, holder)
    ensures var r := CollectPremium(w, holder, amount);
      && r.Ok? && r.value.inst == w.inst.(totalPremium := w.inst.totalPremium + amount) && r.value.now == w.now
      && PaidIn(State(map[], w), State(map[], r.value), token, holder, amount)
  {
  }

  predicate Lapsed(p: Policy, now: nat) { (p.status == Active || p.status == Expired) && now > p.endTime }

  /** What the holder pays at a time: the premium, after a renewal for one second the
      premium of that. */
  function Rate(p: Policy, now: nat): int {
    if !Lapsed(p, now) then p.premium
    else if CalculatePremium(p.kind, p.coverage, 1).Ok? then CalculatePremium(p.kind, p.coverage, 1).value
    else 0
  }

  /** The holder renews a lapsed policy for one second. */
  lemma {:induction false} Renewed(s: State, id: nat, admin: Address, token: Address)
    requires Running(s, admin, token) && id in s.policies && Solvent(s, token, s.policies[id].policyholder)
    requires Live(s.policies[id], s.world.now) && Lapsed(s.policies[id], s.world.now)
    requires CalculatePremium(s.policies[id].kind, s.policies[id].coverage, 1).Ok?
    requires 0 <= Rate(s.policies[id], s.world.now) <= Balance(s.world.bank, token, s.policies[id].policyholder)
    requires s.policies[id].totalClaimed == 0 && s.policies[id].coverage >= 1
    ensures var p := s.policies[id];
      var t := Step(s, Tx(0, {p.policyholder}, OnPolicy(id, RenewPolicy(1)))).0;
      && Running(t, admin, token) && InForce(t, id, p.policyholder)
      && t.policies[id].coverage == p.coverage && t.policies[id].premium == Rate(p, s.world.now)
      && PaidIn(s, t, token, p.policyholder, Rate(p, s.world.now))
      && t.world.inst.totalPayouts == s.world.inst.totalPayouts
      && t.world.inst.totalPremium == s.world.inst.totalPremium + Rate(p, s.world.now)
  {
    assert Advance(s, 0) == s;
    Collected(s.world, token, s.policies[id].policyholder, Rate(s.policies[id], s.world.now));
  }

  /** The holder pays the premium once. */
  lemma {:induction false} PaysOnce(s: State, id: nat, admin: Address, token: Address, holder: Address)
    requires Running(s, admin, token) && InForce(s, id, holder) && Solvent(s, token, holder)
    requires holder != InsuranceContract && 0 <= s.policies[id].premium <= Balance(s.world.bank, token, holder)
    ensures var amount := s.policies[id].premium;
      var t := Step(s, Tx(0, {holder}, OnPolicy(id, PayPremium(amount)))).0;
      && Running(t, admin, token) && t.policies == s.policies && t.world.now == s.world.now
      && PaidIn(s, t, token, holder, amount) && Solvent(t, token, holder)
      && t.world.inst.claims == s.world.inst.claims
  {
    assert Advance(s, 0) == s;
    assert s.policies[id := s.policies[id]] == s.policies;
  }

  lemma {:induction false} PaysPremiums(s0: State, s: State, id: nat, admin: Address, token: Address, holder: Address,
                                        n: nat) returns (t: State)
    requires Reach(s0, s) && Running(s, admin, token) && InForce(s, id, holder) && Solvent(s, token, holder)
    requires holder != InsuranceContract
    requires 0 <= s.policies[id].premium && n * s.policies[id].premium <= Balance(s.world.bank, token, holder)
    ensures Reach(s0, t) && Running(t, admin, token) && InForce(t, id, holder) && Solvent(t, token, holder)
    ensures t.policies == s.policies && PaidIn(s, t, token, holder, n * s.policies[id].premium)
    decreases n
  {
    t := s;
    if n > 0 {
      var r := s.policies[id].premium;
      OneLess(n, r);
      var pay := Tx(0, {holder}, OnPolicy(id, PayPremium(r)));
      PaysOnce(s, id, admin, token, holder);
      ReachStep(s0, s, pay);
      t := PaysPremiums(s0, Step(s, pay).0, id, admin, token, holder, n - 1);
    }
  }

  lemma {:induction false} OneLess(n: nat, r: int)
    requires n > 0 && r >= 0
    ensures n * r == (n - 1) * r + r && 0 <= (n - 1) * r && r <= n * r
  {
    ProductMonotone(0, n - 1, r);
  }

  /** Enough money in this token without any from outside: a pending claim needs it in
      the contract already; otherwise n payments of the holder, a renewal among them
      if the policy has lapsed, bring up what the contract lacks. */
  predicate Funded(w: World, p: Policy, token: Address, n: nat) {
    var b, h := Balance(w.bank, token, InsuranceContract), Balance(w.bank, token, p.policyholder);
    var payments := n * Rate(p, w.now);
    && 0 <= b && 0 <= h && b + h <= I128_MAX
    && (Lapsed(p, w.now) ==> n >= 1) && payments <= h
    && (p.status == ClaimPending ==> p.coverage < b)
    && p.coverage < b + if p.policyholder == InsuranceContract then 0 else payments
  }

  /** A live leftover that is not pending comes to be in force with the money there. */
  lemma {:induction false} ComesInForce(s0: State, s: State, id: nat, admin: Address, token: Address, n: nat)
    returns (t: State)
    requires Reach(s0, s) && Running(s, admin, token) && id in s.policies && Live(s.policies[id], s.world.now)
    requires s.policies[id].status != ClaimPending && Funded(s.world, s.policies[id], token, n)
    requires Unpaid(id, s.policies[id], s.world.inst.claims, s.world.now)
    requires s.world.inst.totalPremium == 0 && s.world.inst.totalPayouts == 0
    ensures var holder, need := s.policies[id].policyholder, s.policies[id].coverage + 1;
      && Reach(s0, t) && Running(t, admin, token) && InForce(t, id, holder) && CanPay(t, token, holder, need)
      && t.world.inst.payouts == s.world.inst.payouts && t.world.inst.policyCounter == s.world.inst.policyCounter
  {
    var p := s.policies[id];
    var holder, r := p.policyholder, Rate(p, s.world.now);
    t := s;
    if Lapsed(p, s.world.now) {
      OneLess(n, r);
      var renew := Tx(0, {holder}, OnPolicy(id, RenewPolicy(1)));
      Renewed(s, id, admin, token);
      ReachStep(s0, s, renew);
      t := Step(s, renew).0;
    }
    if Balance(t.world.bank, token, InsuranceContract) <= p.coverage {
      t := PaysPremiums(s0, t, id, admin, token, holder, if Lapsed(p, s.world.now) then n - 1 else n);
    }
  }

  /** A live leftover, once the contract is unpaused and given its token, comes to a
      pending claim that can be paid, with one unit more. */
  lemma {:induction false} ComesToClaim(s0: State, s: State, id: nat, admin: Address, token: Address, n: nat)
    returns (t: State, amount: int)
    requires Reach(s0, s) && Running(s, admin, token) && id in s.policies && Live(s.policies[id], s.world.now)
    requires Funded(s.world, s.policies[id], token, n)
    requires Unpaid(id, s.policies[id], s.world.inst.claims, s.world.now)
    requires s.world.inst.totalPremium == 0 && s.world.inst.totalPayouts == 0
    ensures Reach(s0, t) && Running(t, admin, token)
    ensures amount >= 1 && Claimed(t, id, s.policies[id].policyholder, amount)
    ensures CanPay(t, token, s.policies[id].policyholder, amount + 1)
    ensures t.world.inst.payouts == s.world.inst.payouts && t.world.inst.policyCounter == s.world.inst.policyCounter
  {
    var p := s.policies[id];
    if p.status == ClaimPending {
      t, amount := s, p.claimAmount;
    } else {
      var u := ComesInForce(s0, s, id, admin, token, n);
      var claim := Tx(0, {p.policyholder}, OnPolicy(id, SubmitClaim(1, "")));
      Claim(u, id, admin, token, p.policyholder, p.coverage + 1);
      ReachStep(s0, u, claim);
      t, amount := Step(u, claim).0, 1;
    }
  }

  // ------------------------------------------------------------------- after init

  /** init, after any history without one. */
  function AfterInit(bank: Bank, poolToken: Option<Address>, now: nat, before: seq<Tx>, admin: Address): State {
    Apply(Run(Genesis(bank, poolToken, now), before), {}, Configure(Init(admin))).0
  }

  /** What any such state is like, whatever the balances. */
  ghost predicate JustInit(s: State, admin: Address) {
    var i := s.world.inst;
    && i.admin == Some(admin) && i.riskPool.None? && i.maxPolicies == MAX_POLICIES && i.policyCounter == 0
    && i.totalPremium == 0 && i.totalPayouts == 0 && i.payouts == []
    && forall id :: id in s.policies ==> id < MAX_POLICIES && Unpaid(id, s.policies[id], i.claims, s.world.now)
  }

  lemma {:induction false} AfterInitIs(bank: Bank, poolToken: Option<Address>, now: nat, before: seq<Tx>,
                                       admin: Address)
    requires forall i :: 0 <= i < |before| ==> !IsInit(before[i])
    ensures JustInit(AfterInit(bank, poolToken, now, before, admin), admin)
  {
    GenesisPreInit(bank, poolToken, now);
    RunKeepsPreInit(Genesis(bank, poolToken, now), before);
  }

  /** After init the cap holds over every continuation if no policy was left over
      that some call could still change. */
  lemma {:induction false} CapAfterInit(bank: Bank, poolToken: Option<Address>, now: nat, before: seq<Tx>,
                                        admin: Address, txs: seq<Tx>)
    requires forall i :: 0 <= i < |before| ==> !IsInit(before[i])
    requires var t := AfterInit(bank, poolToken, now, before, admin);
      forall id :: id in t.policies ==> !Live(t.policies[id], t.world.now)
    ensures CapHolds(Run(AfterInit(bank, poolToken, now, before, admin), txs))
  {
    var t := AfterInit(bank, poolToken, now, before, admin);
    AfterInitIs(bank, poolToken, now, before, admin);
    assert Kept(t).policies == map[];
    assert Ledger(Kept(t));
    DeadLeftoversKeepCap(t, txs);
  }

  /** The admin unpauses the contract and sets its token. */
  lemma {:induction false} Started(s: State, admin: Address, token: Address) returns (t: State)
    requires s.world.inst.admin == Some(admin)
    ensures Reach(s, t)
    ensures t == s.(world := s.world.(inst := s.world.inst.(paused := false, premiumToken := Some(token))))
  {
    var unpause := Tx(0, {admin}, Configure(Unpause(admin)));
    var setToken := Tx(0, {admin}, Configure(SetPremiumToken(admin, token)));
    ReachSelf(s);
    ReachStep(s, s, unpause);
    var u := Step(s, unpause).0;
    ReachStep(s, u, setToken);
    t := Step(u, setToken).0;
    assert Advance(s, 0) == s && Advance(u, 0) == u;
  }

  lemma {:induction false} LeftoverBreaks(s: State, admin: Address, token: Address, id: nat, n: nat)
    requires JustInit(s, admin) && s.world.now < U64_MAX && id in s.policies
    requires Live(s.policies[id], s.world.now) && Funded(s.world, s.policies[id], token, n)
    ensures exists txs :: Inside(txs) && !CapHolds(Run(s, txs))
  {
    var t := Started(s, admin, token);
    var u, amount := ComesToClaim(s, t, id, admin, token, n);
    var v := PaidTwice(s, u, id, admin, token, s.policies[id].policyholder, amount);
  }

  /** If a live policy was left over, calls of the two contracts alone pay it beyond its
      cap, whenever the token's balances allow: with the money there already, or, from
      an empty treasury, paid in as premiums by the holder. */
  lemma {:induction false} CapBreaks(bank: Bank, poolToken: Option<Address>, now: nat, before: seq<Tx>,
                                     admin: Address, token: Address, id: nat, n: nat)
    requires forall i :: 0 <= i < |before| ==> !IsInit(before[i])
    requires var t := AfterInit(bank, poolToken, now, before, admin);
      && t.world.now < U64_MAX && id in t.policies && Live(t.policies[id], t.world.now)
      && Funded(t.world, t.policies[id], token, n)
    ensures exists txs :: Inside(txs) && !CapHolds(Run(AfterInit(bank, poolToken, now, before, admin), txs))
  {
    AfterInitIs(bank, poolToken, now, before, admin);
    LeftoverBreaks(AfterInit(bank, poolToken, now, before, admin), admin, token, id, n);
  }

  // ------------------------------------------------------- a token never seen before

  lemma {:induction false} Bound(keys: set<(Address, Address)>) returns (n: nat)
    ensures forall k :: k in keys && k.0.Account? ==> k.0.key < n
  {
    n := 0;
    if keys != {} {
      var k :| k in keys;
      n := Bound(keys - {k});
      if k.0.Account? && k.0.key >= n { n := k.0.key + 1; }
    }
  }

  /** Prices stay far below the i128 bound. */
  lemma {:induction false} PricesFit(kind: PolicyType, coverage: int)
    requires CalculatePremium(kind, coverage, 1).Ok?
    ensures 0 < coverage <= I128_MAX / 200 && 0 <= CalculatePremium(kind, coverage, 1).value <= I128_MAX / 200
  {
    ProductMonotone(200, BaseRateBps(kind), coverage);
    var adjusted := AnnualBase(kind, coverage) * 1 / SECONDS_PER_YEAR;
    assert FitsI128(adjusted * (BPS_DENOM + CoverageFactorBps(coverage)));
  }

  lemma {:induction false} Issued(s: State, token: Address, to: Address, amount: int)
    requires amount >= 0 && FitsI128(Balance(s.world.bank, token, to) + amount)
    ensures Step(s, Tx(0, {}, MoveTokens(token, None, to, amount))).0
      == s.(world := s.world.(bank := s.world.bank[(token, to) := Balance(s.world.bank, token, to) + amount]))
  {
    assert Advance(s, 0) == s;
  }

  /** The balances of a new token after its issuer has provided two owners with it. */
  lemma {:induction false} TwiceIssued(s: State, token: Address, a: Address, x: int, b: Address, y: int)
    returns (txs: seq<Tx>)
    requires 0 <= x <= I128_MAX / 4 && 0 <= y <= I128_MAX / 4 && forall o :: (token, o) !in s.world.bank
    ensures var t := Run(s, txs);
      && t == s.(world := s.world.(bank := t.world.bank))
      && Balance(t.world.bank, token, a) == x + (if a == b then y else 0)
      && Balance(t.world.bank, token, b) == y + (if a == b then x else 0)
  {
    var first, second := Tx(0, {}, MoveTokens(token, None, a, x)), Tx(0, {}, MoveTokens(token, None, b, y));
    txs := [first] + [second];
    RunAppend(s, [first], [second]);
    RunOne(s, first);
    Issued(s, token, a, x);
    var u := Step(s, first).0;
    RunOne(u, second);
    Issued(u, token, b, y);
  }

  /** Whatever the balances, once the issuer of some token has provided the contract and
      the holder with it, a live leftover is funded. */
  lemma {:induction false} Provided(s: State, admin: Address, id: nat) returns (token: Address, txs: seq<Tx>, n: nat)
    requires JustInit(s, admin) && id in s.policies
    ensures var t := Run(s, txs);
      && t == s.(world := s.world.(bank := t.world.bank))
      && Funded(t.world, s.policies[id], token, n)
  {
    var p := s.policies[id];
    var k := Bound(s.world.bank.Keys);
    token := Account(k);
    assert forall o :: (token, o) !in s.world.bank;
    PricesFit(p.kind, p.coverage);
    n := if Lapsed(p, s.world.now) then 1 else 0;
    var rate := Rate(p, s.world.now);
    var payment := if Lapsed(p, s.world.now) then rate else 0;
    txs := TwiceIssued(s, token, InsuranceContract, p.coverage + 1, p.policyholder, payment);
    assert n * rate == payment;
  }

  lemma {:induction false} LiveBreaks(t: State, admin: Address, id: nat)
    requires JustInit(t, admin) && t.world.now < U64_MAX && id in t.policies && Live(t.policies[id], t.world.now)
    ensures exists txs :: !CapHolds(Run(t, txs))
  {
    var token, first, n := Provided(t, admin, id);
    LeftoverBreaks(Run(t, first), admin, token, id, n);
    var more :| Inside(more) && !CapHolds(Run(Run(t, first), more));
    RunAppend(t, first, more);
    assert !CapHolds(Run(t, first + more));
  }

  /** The exact condition.  After init the cap holds over every continuation if and
      only if every policy left over from before is dead: cancelled, or past its end
      and its grace period. */
  lemma {:induction false} CapAfterInitIff(bank: Bank, poolToken: Option<Address>, now: nat, before: seq<Tx>,
                                           admin: Address)
    requires forall i :: 0 <= i < |before| ==> !IsInit(before[i])
    requires AfterInit(bank, poolToken, now, before, admin).world.now < U64_MAX
    ensures var t := AfterInit(bank, poolToken, now, before, admin);
      (forall txs :: CapHolds(Run(t, txs))) <==> forall id :: id in t.policies ==> !Live(t.policies[id], t.world.now)
  {
    var t := AfterInit(bank, poolToken, now, before, admin);
    AfterInitIs(bank, poolToken, now, before, admin);
    if id :| id in t.policies && Live(t.policies[id], t.world.now) {
      LiveBreaks(t, admin, id);
    } else {
      forall txs ensures CapHolds(Run(t, txs)) { CapAfterInit(bank, poolToken, now, before, admin, txs); }
    }
  }

  /** A run that does it, from an empty treasury: a policy of coverage 10 taken out
      before init pays its premium after it, is paid in full out of that, and is then
      overwritten by one of coverage 1. */
  lemma {:induction false} CapBroken(a: Address, admin: Address, token: Address)
    requires a != InsuranceContract
    ensures
      var bank: Bank := map[(token, a) := MIN_PREMIUM_STROOPS];
      var txs := [Tx(0, {a}, CreatePolicy(a, Flight, 10, MIN_PREMIUM_STROOPS, 1, "")),
                  Tx(0, {}, Configure(Init(admin))),
                  Tx(0, {admin}, Configure(SetPremiumToken(admin, token))),
                  Tx(0, {a}, OnPolicy(0, PayPremium(MIN_PREMIUM_STROOPS))),
                  Tx(0, {a}, OnPolicy(0, SubmitClaim(10, ""))),
                  Tx(0, {admin}, OnPolicy(0, ProcessClaim(true))),
                  Tx(0, {a}, CreatePolicy(a, Flight, 1, MIN_PREMIUM_STROOPS, 1, ""))];
      var t := Run(Genesis(bank, None, 5), txs);
      && 0 in t.policies && t.policies[0].coverage == 1 && PaidOn(t.world.inst.payouts, 0) == 10
      && !CapHolds(t)
  {
    var bank: Bank := map[(token, a) := MIN_PREMIUM_STROOPS];
    var create := Tx(0, {a}, CreatePolicy(a, Flight, 10, MIN_PREMIUM_STROOPS, 1, ""));
    var init := Tx(0, {}, Configure(Init(admin)));
    var setToken := Tx(0, {admin}, Configure(SetPremiumToken(admin, token)));
    var payIn := Tx(0, {a}, OnPolicy(0, PayPremium(MIN_PREMIUM_STROOPS)));
    var claim := Tx(0, {a}, OnPolicy(0, SubmitClaim(10, "")));
    var pay := Tx(0, {admin}, OnPolicy(0, ProcessClaim(true)));
    var again := Tx(0, {a}, CreatePolicy(a, Flight, 1, MIN_PREMIUM_STROOPS, 1, ""));
    var g := Genesis(bank, None, 5);
    var s3 := Step(Step(Step(g, create).0, init).0, setToken).0;
    LeftoverInForce(a, admin, token);
    PaidThenOverwritten(s3, admin, token, a);
    RunSeven(g, create, init, setToken, payIn, claim, pay, again);
  }

  /** From the leftover of coverage 10 in force and an empty treasury. */
  lemma {:induction false} PaidThenOverwritten(s: State, admin: Address, token: Address, a: Address)
    requires Running(s, admin, token) && InForce(s, 0, a) && Solvent(s, token, a) && a != InsuranceContract
    requires s.policies[0].coverage == 10 && s.policies[0].premium == MIN_PREMIUM_STROOPS
    requires Balance(s.world.bank, token, a) >= MIN_PREMIUM_STROOPS
    requires s.world.inst.policyCounter == 0 && s.world.inst.payouts == []
    ensures var paid := Step(s, Tx(0, {a}, OnPolicy(0, PayPremium(MIN_PREMIUM_STROOPS)))).0;
      var claimed := Step(paid, Tx(0, {a}, OnPolicy(0, SubmitClaim(10, "")))).0;
      var settled := Step(claimed, Tx(0, {admin}, OnPolicy(0, ProcessClaim(true)))).0;
      var t := Step(settled, Tx(0, {a}, CreatePolicy(a, Flight, 1, MIN_PREMIUM_STROOPS, 1, ""))).0;
      && 0 in t.policies && t.policies[0].coverage == 1 && PaidOn(t.world.inst.payouts, 0) == 10
  {
    PaysOnce(s, 0, admin, token, a);
    var s4 := Step(s, Tx(0, {a}, OnPolicy(0, PayPremium(MIN_PREMIUM_STROOPS)))).0;
    FullClaim(s4, 0, admin, token, a);
    var s5 := Step(s4, Tx(0, {a}, OnPolicy(0, SubmitClaim(10, "")))).0;
    Settled(s5, 0, admin, token, a, 10, 10);
    var s6 := Step(s5, Tx(0, {admin}, OnPolicy(0, ProcessClaim(true)))).0;
    TakeOut(s6, admin, token, a);
    PaidOnSnoc([], Payout(0, a, 10), 0);
    assert PaidOn([], 0) == 0 && [] + [Payout(0, a, 10)] == [Payout(0, a, 10)];
  }

  lemma {:induction false} FullClaim(s: State, id: nat, admin: Address, token: Address, holder: Address)
    requires Running(s, admin, token) && InForce(s, id, holder)
    ensures var t := Step(s, Tx(0, {holder}, OnPolicy(id, SubmitClaim(s.policies[id].coverage, "")))).0;
      && Running(t, admin, token) && Claimed(t, id, holder, s.policies[id].coverage)
      && t.world == s.world.(inst := s.world.inst.(claims := t.world.inst.claims))
  {
    assert Advance(s, 0) == s;
  }

  lemma {:induction false} LeftoverInForce(a: Address, admin: Address, token: Address)
    ensures
      var bank: Bank := map[(token, a) := MIN_PREMIUM_STROOPS];
      var s1 := Step(Genesis(bank, None, 5), Tx(0, {a}, CreatePolicy(a, Flight, 10, MIN_PREMIUM_STROOPS, 1, ""))).0;
      var s2 := Step(s1, Tx(0, {}, Configure(Init(admin)))).0;
      var t := Step(s2, Tx(0, {admin}, Configure(SetPremiumToken(admin, token)))).0;
      && Running(t, admin, token) && t.world.inst.policyCounter == 0 && t.world.bank == bank
      && InForce(t, 0, a) && t.policies[0].coverage == 10 && t.policies[0].premium == MIN_PREMIUM_STROOPS
      && t.world.inst.payouts == [] && t.world.inst.totalPayouts == 0 && t.world.inst.totalPremium == 0
  {
    assert CalculatePremium(Flight, 10, 1) == Ok(MIN_PREMIUM_STROOPS);
  }

  lemma {:induction false} RunSeven(s: State, a: Tx, b: Tx, c: Tx, d: Tx, e: Tx, f: Tx, g: Tx)
    ensures Run(s, [a, b, c, d, e, f, g])
      == Step(Step(Step(Step(Step(Step(Step(s, a).0, b).0, c).0, d).0, e).0, f).0, g).0
  {
    var s3 := Step(Step(Step(s, a).0, b).0, c).0;
    RunThree(s, a, b, c);
    RunThree(s3, d, e, f);
    RunAppend(s, [a, b, c], [d, e, f]);
    RunOne(Run(s3, [d, e, f]), g);
    RunAppend(s, [a, b, c] + [d, e, f], [g]);
    assert [a, b, c, d, e, f, g] == [a, b, c] + [d, e, f] + [g];
  }

  lemma {:induction false} RunThree(s: State, a: Tx, b: Tx, c: Tx)
    ensures Run(s, [a, b, c]) == Step(Step(Step(s, a).0, b).0, c).0
  {
    RunOne(s, a);
    RunOne(Step(s, a).0, b);
    RunOne(Step(Step(s, a).0, b).0, c);
    RunAppend(s, [a], [b]);
    RunAppend(s, [a] + [b], [c]);
    assert [a, b, c] == [a] + [b] + [c];
  }
}
