/**
 Runs put together from shorter runs.
 */
module Runs {
  import opened Types
  import opened Insurance

  /** What a policy call leaves: the old state, or the accepted policy and world. */
  ghost predicate OpLeaves(s: State, id: nat, v: Verdict, t: State) {
    t == s || (id in s.policies && v.Accept? && t == State(s.policies[id := v.policy], v.world))
  }

  lemma {:induction false} OpShape(s: State, auth: set<Address>, id: nat, op: PolicyOp)
    ensures id !in s.policies ==> Apply(s, auth, OnPolicy(id, op)).0 == s
    ensures id in s.policies ==>
      OpLeaves(s, id, Operate(s.world, auth, id, View(s.policies[id], s.world.now), op),
               Apply(s, auth, OnPolicy(id, op)).0)
  {
  }

  lemma {:induction false} PollOnlyPauses(inst: Instance, now: nat, types: seq<Symbol>)
    ensures Poll(inst, now, types).0 == inst.(paused := Poll(inst, now, types).0.paused)
    decreases |types|
  {
    if types != [] {
      if types[0] in inst.oracles {
        PollOnlyPauses(Verify(inst, now, types[0]).0, now, types[1..]);
      } else {
        PollOnlyPauses(inst, now, types[1..]);
      }
    }
  }

  /** What a policy call may write besides the policy: claims, ballots, payouts,
      the two totals and the pause flag; every setting and the clock stay. */
  ghost predicate Frames(w: World, op: PolicyOp, v: Verdict) {
    v.Accept? ==>
      && v.world.now == w.now
      && v.world.inst == w.inst.(claims := v.world.inst.claims, votes := v.world.inst.votes,
                                 payouts := v.world.inst.payouts, totalPremium := v.world.inst.totalPremium,
                                 totalPayouts := v.world.inst.totalPayouts, paused := v.world.inst.paused)
      && (!op.VoteClaim? ==> v.world.inst.votes == w.inst.votes)
      && (!op.EvaluateOracle? ==> v.world.inst.paused == w.inst.paused)
  }

  lemma {:induction false} EvaluationFrames(w: World, auth: set<Address>, id: nat, p: Policy, op: PolicyOp)
    requires op.EvaluateOracle?
    ensures Frames(w, op, Operate(w, auth, id, p, op))
  {
    PollOnlyPauses(w.inst, w.now, w.inst.oracleTypes);
  }

  lemma {:induction false} SettlementFrames(w: World, auth: set<Address>, id: nat, p: Policy, op: PolicyOp)
    requires op.ProcessClaim? || op.VoteClaim?
    ensures Frames(w, op, Operate(w, auth, id, p, op))
  {
    PayOutFrames(w, auth, id, p.policyholder, true);
    PayOutFrames(w, {}, id, p.policyholder, false);
  }

  lemma {:induction false} PayOutFrames(w: World, auth: set<Address>, id: nat, to: Address, viaPool: bool)
    ensures var r := PayOut(w, auth, id, to, viaPool);
      r.Ok? ==>
        && r.value.now == w.now
        && r.value.inst == w.inst.(claims := r.value.inst.claims, payouts := r.value.inst.payouts,
                                   totalPayouts := r.value.inst.totalPayouts)
  {
  }

  lemma {:induction false} OpFrames(w: World, auth: set<Address>, id: nat, p: Policy, op: PolicyOp)
    ensures Frames(w, op, Operate(w, auth, id, p, op))
  {
    if op.EvaluateOracle? {
      EvaluationFrames(w, auth, id, p, op);
    } else if op.ProcessClaim? || op.VoteClaim? {
      SettlementFrames(w, auth, id, p, op);
    }
  }

  lemma {:induction false} RunAppend(s: State, xs: seq<Tx>, ys: seq<Tx>)
    ensures Run(s, xs + ys) == Run(Run(s, xs), ys)
    ensures Replies(s, xs + ys) == Replies(s, xs) + Replies(Run(s, xs), ys)
    decreases |xs|
  {
    if xs == [] {
      assert xs + ys == ys;
    } else {
      assert (xs + ys)[1..] == xs[1..] + ys;
      RunAppend(Step(s, xs[0]).0, xs[1..], ys);
    }
  }

  lemma {:induction false} RunOne(s: State, tx: Tx)
    ensures Run(s, [tx]) == Step(s, tx).0
    ensures Replies(s, [tx]) == [Step(s, tx).1]
  {
    assert [tx][1..] == [];
    assert Run(Step(s, tx).0, []) == Step(s, tx).0;
    assert Replies(Step(s, tx).0, []) == [];
  }
}
