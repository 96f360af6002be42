/**
 The oracle registry and the quorum: the type list stays in step with the
 address map, the quorum loop counts exactly the registered types that confirm,
 and the pause raised by missing price data survives only inside a payout.
 */
module Oracles {
  import opened Types
  import opened Sequences
  import opened Insurance
  import opened Runs

  /** The listed oracle types are distinct and are exactly the registered ones. */
  ghost predicate OraclesAgree(inst: Instance) {
    && Distinct(inst.oracleTypes)
    && Elements(inst.oracleTypes) == inst.oracles.Keys
  }

  lemma {:induction false} SettingKeepsOracles(inst: Instance, now: nat, auth: set<Address>, setting: Setting)
    requires OraclesAgree(inst)
    ensures var c := Update(inst, now, auth, setting); c.Updated? ==> OraclesAgree(c.inst)
  {
    match setting
    case RegisterOracle(_, oracle, address) => SetKeepsOracles(inst, oracle, address);
    case UpdateOracle(_, oracle, address) => SetKeepsOracles(inst, oracle, address);
    case RemoveOracle(_, oracle) =>
      WithoutDistinct(inst.oracleTypes, oracle);
      assert Elements(Without(inst.oracleTypes, oracle)) == Elements(inst.oracleTypes) - {oracle};
    case _ =>
  }

  lemma {:induction false} SetKeepsOracles(inst: Instance, oracle: Symbol, address: Address)
    requires OraclesAgree(inst)
    ensures OraclesAgree(SetOracle(inst, oracle, address))
  {
    assert oracle in inst.oracleTypes <==> oracle in Elements(inst.oracleTypes);
    if oracle !in inst.oracleTypes {
      DistinctSnoc(inst.oracleTypes, oracle);
      assert Elements(inst.oracleTypes + [oracle]) == Elements(inst.oracleTypes) + {oracle};
    } else {
      assert inst.oracles[oracle := address].Keys == inst.oracles.Keys;
    }
  }

  /** The registry agrees over every run, so every listed type has an address. */
  lemma {:induction false} RunKeepsOracles(s: State, txs: seq<Tx>)
    requires OraclesAgree(s.world.inst)
    ensures OraclesAgree(Run(s, txs).world.inst)
    decreases |txs|
  {
    if txs != [] {
      var tx, t := txs[0], Advance(s, txs[0].elapsed);
      match tx.call {
        case OnPolicy(id, op) =>
          OpShape(t, tx.auth, id, op);
          if id in t.policies { OpFrames(t.world, tx.auth, id, View(t.policies[id], t.world.now), op); }
        case Configure(setting) => SettingKeepsOracles(t.world.inst, t.world.now, tx.auth, setting);
        case _ =>
      }
      RunKeepsOracles(Step(s, tx).0, txs[1..]);
    }
  }

  lemma {:induction false} ReachableOracles(bank: Bank, token: Option<Address>, now: nat, txs: seq<Tx>)
    ensures OraclesAgree(Run(Genesis(bank, token, now), txs).world.inst)
  {
    RunKeepsOracles(Genesis(bank, token, now), txs);
  }

  /** The price was never set, or is older than the freshness window. */
  predicate Missing(inst: Instance, now: nat) { inst.priceTime == 0 || now > inst.priceTime + inst.freshness }

  /** Whether an oracle type confirms: all do but a price that is missing or in the future. */
  predicate Confirms(inst: Instance, now: nat, oracle: Symbol) {
    oracle == "Price" ==> !Missing(inst, now) && inst.priceTime <= now
  }

  /** The registered types that confirm. */
  function Confirming(inst: Instance, now: nat): int {
    |inst.oracles| - if "Price" in inst.oracles && !Confirms(inst, now, "Price") then 1 else 0
  }

  /** The quorum loop counts the listed types that confirm, and pauses when it meets a
      missing price; whether the contract was paused before makes no difference. */
  lemma {:induction false} PollCounts(inst: Instance, now: nat, types: seq<Symbol>)
    requires Distinct(types) && forall t :: t in types ==> t in inst.oracles
    ensures var (inst', n) := Poll(inst, now, types);
      && n == |types| - (if "Price" in types && !Confirms(inst, now, "Price") then 1 else 0)
      && inst'.paused == (inst.paused || ("Price" in types && Missing(inst, now)))
    decreases |types|
  {
    if types != [] {
      assert types == [types[0]] + types[1..];
      assert types[0] !in types[1..];
      PollCounts(Verify(inst, now, types[0]).0, now, types[1..]);
    }
  }

  /** An evaluation is accepted exactly when a claim is pending, the oracle is
      registered and confirms, the caller is that oracle or the admin, the payout
      goes through, and the quorum is met by the registered types that confirm: all
      of them, less a price feed that is missing, stale or in the future.  It then
      leaves the contract paused exactly when that feed had no data. */
  lemma {:induction false} EvaluationQuorum(w: World, auth: set<Address>, id: nat, p: Policy, caller: Address,
                                            oracle: Symbol)
    requires OraclesAgree(w.inst)
    ensures var v := EvaluateOracleOn(w, auth, id, p, caller, oracle);
      && (v.Accept? <==>
            && p.status == ClaimPending
            && oracle in w.inst.oracles && Confirms(w.inst, w.now, oracle)
            && w.inst.admin.Some? && (caller == w.inst.oracles[oracle] || caller == w.inst.admin.value)
            && w.inst.quorum <= Confirming(w.inst, w.now)
            && PayOut(w, auth, id, p.policyholder, true).Ok?)
      && (v.Accept? ==>
            v.world.inst.paused
            == (w.inst.paused || ("Price" in w.inst.oracles && Missing(w.inst, w.now))))
  {
    PayOutIgnoresPause(w, auth, id, p.policyholder, Poll(w.inst, w.now, w.inst.oracleTypes).0.paused);
    ListedOracles(w.inst);
    PollCounts(w.inst, w.now, w.inst.oracleTypes);
    PollOnlyPauses(w.inst, w.now, w.inst.oracleTypes);
  }

  lemma {:induction false} ListedOracles(inst: Instance)
    requires OraclesAgree(inst)
    ensures |inst.oracleTypes| == |inst.oracles|
    ensures forall t :: t in inst.oracleTypes <==> t in inst.oracles
  {
    assert forall t :: t in inst.oracleTypes <==> t in Elements(inst.oracleTypes);
    DistinctSize(inst.oracleTypes);
  }

  /** The whole call: also not paused, authorised, and on a known policy. */
  lemma {:induction false} EvaluationAcceptedIff(s: State, auth: set<Address>, id: nat, caller: Address, oracle: Symbol)
    requires OraclesAgree(s.world.inst)
    ensures var w := s.world;
      Apply(s, auth, OnPolicy(id, EvaluateOracle(caller, oracle))).1.Ok? <==>
        && !w.inst.paused && caller in auth && id in s.policies && s.policies[id].status == ClaimPending
        && oracle in w.inst.oracles && Confirms(w.inst, w.now, oracle)
        && w.inst.admin.Some? && (caller == w.inst.oracles[oracle] || caller == w.inst.admin.value)
        && w.inst.quorum <= Confirming(w.inst, w.now)
        && PayOut(w, auth, id, s.policies[id].policyholder, true).Ok?
  {
    if id in s.policies {
      EvaluationQuorum(s.world, auth, id, View(s.policies[id], s.world.now), caller, oracle);
    }
  }

  /** An accepted evaluation leaves the contract paused exactly when a price is
      registered and is missing or stale: one in the future does not pause it. */
  lemma {:induction false} EvaluationPausesIff(s: State, auth: set<Address>, id: nat, caller: Address, oracle: Symbol)
    requires OraclesAgree(s.world.inst)
    requires Apply(s, auth, OnPolicy(id, EvaluateOracle(caller, oracle))).1.Ok?
    ensures var i, t := s.world.inst, Apply(s, auth, OnPolicy(id, EvaluateOracle(caller, oracle))).0;
      t.world.inst.paused <==>
        i.paused || ("Price" in i.oracles && (i.priceTime == 0 || s.world.now > i.priceTime + i.freshness))
  {
    EvaluationQuorum(s.world, auth, id, View(s.policies[id], s.world.now), caller, oracle);
  }

  lemma {:induction false} PayOutIgnoresPause(w: World, auth: set<Address>, id: nat, to: Address, paused: bool)
    ensures var r, r' := PayOut(w, auth, id, to, true),
          PayOut(w.(inst := w.inst.(paused := paused)), auth, id, to, true);
      r.Ok? == r'.Ok? && (r'.Ok? ==> r'.value.inst.paused == paused)
  {
  }

  lemma {:induction false} DistinctSize(s: seq<Symbol>)
    requires Distinct(s)
    ensures |Elements(s)| == |s|
  {
    if s != [] {
      assert s == [s[0]] + s[1..];
      assert s[0] !in s[1..];
      DistinctSize(s[1..]);
      assert Elements(s) == {s[0]} + Elements(s[1..]);
    }
  }

  /** Asked on its own, verify_oracle_condition never pauses the contract: the
      pause it sets on missing data is undone with the error it returns.  Only the
      price oracle refuses, and says why. */
  lemma {:induction false} DirectCheckNeverPauses(s: State, tx: Tx)
    requires tx.call.VerifyOracle?
    ensures Step(s, tx).0.world.inst == s.world.inst && Step(s, tx).0.policies == s.policies
    ensures var i, now, r := s.world.inst, s.world.now + tx.elapsed, Step(s, tx).1;
      && (tx.call.oracle != "Price" ==> r == Ok(Verified))
      && (tx.call.oracle == "Price" ==>
            && (r == Err(OracleDataUnavailable) <==> i.priceTime == 0 || now > i.priceTime + i.freshness)
            && (r == Err(InvalidOracleTimestamp) <==> i.priceTime > now)
            && (r == Ok(Verified) <==> 0 != i.priceTime <= now <= i.priceTime + i.freshness))
  {
  }
}
