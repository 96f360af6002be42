/**
 Lazy expiry is unobservable.  A policy past its end is only presented as
 Expired; whether and when the stored status is rewritten makes no difference
 to any later reply or view.
 */
module LazyExpiry {
  import opened Types
  import opened Insurance
  import opened Runs

  /** The state with every policy expired eagerly, as of its own clock. */
  function Sweep(s: State): State {
    s.(policies := map id | id in s.policies :: View(s.policies[id], s.world.now))
  }

  /** Two states are alike when they differ at most in which lapsed policies have
      had their expiry written down. */
  predicate Alike(s: State, t: State) { Sweep(s) == Sweep(t) }

  lemma {:induction false} AlikePointwise(s: State, t: State)
    requires s.world == t.world
    requires forall id :: id in s.policies <==> id in t.policies
    requires forall id :: id in s.policies ==> View(s.policies[id], s.world.now) == View(t.policies[id], s.world.now)
    ensures Alike(s, t)
  {
  }

  lemma {:induction false} AlikeAt(s: State, t: State, id: nat)
    requires Alike(s, t)
    ensures s.world == t.world
    ensures id in s.policies <==> id in t.policies
    ensures id in s.policies ==> View(s.policies[id], s.world.now) == View(t.policies[id], t.world.now)
  {
    assert Sweep(s).world == s.world && Sweep(t).world == t.world;
    assert id in s.policies <==> id in Sweep(s).policies;
    assert id in t.policies <==> id in Sweep(t).policies;
  }

  /** Time passing keeps states alike: a view taken now is a prefix of any later view. */
  lemma {:induction false} AdvanceAlike(s: State, t: State, elapsed: nat)
    requires Alike(s, t)
    ensures Alike(Advance(s, elapsed), Advance(t, elapsed))
  {
    var s', t' := Advance(s, elapsed), Advance(t, elapsed);
    AlikeAt(s, t, 0);
    forall id
      ensures id in s'.policies <==> id in t'.policies
      ensures id in s'.policies ==> View(s'.policies[id], s'.world.now) == View(t'.policies[id], s'.world.now)
    {
      if id in s.policies || id in t.policies { AlikeAt(s, t, id); }
    }
    AlikePointwise(s', t');
  }

  lemma {:induction false} WriteAlike(s: State, t: State, id: nat, w: World, p: Policy)
    requires Alike(s, t) && w.now == s.world.now
    ensures Alike(State(s.policies[id := p], w), State(t.policies[id := p], w))
  {
    var s', t' := State(s.policies[id := p], w), State(t.policies[id := p], w);
    forall j
      ensures j in s'.policies <==> j in t'.policies
      ensures j in s'.policies ==> View(s'.policies[j], w.now) == View(t'.policies[j], w.now)
    {
      if j in s.policies || j in t.policies { AlikeAt(s, t, j); }
    }
    AlikePointwise(s', t');
  }

  lemma {:induction false} WorldAlike(s: State, t: State, w: World)
    requires Alike(s, t) && w.now == s.world.now
    ensures Alike(s.(world := w), t.(world := w))
  {
    forall j
      ensures j in s.policies <==> j in t.policies
      ensures j in s.policies ==> View(s.policies[j], w.now) == View(t.policies[j], w.now)
    {
      if j in s.policies || j in t.policies { AlikeAt(s, t, j); }
    }
    AlikePointwise(s.(world := w), t.(world := w));
  }

  lemma {:induction false} OpAlike(s: State, t: State, auth: set<Address>, id: nat, op: PolicyOp)
    requires Alike(s, t)
    ensures Apply(s, auth, OnPolicy(id, op)).1 == Apply(t, auth, OnPolicy(id, op)).1
    ensures Alike(Apply(s, auth, OnPolicy(id, op)).0, Apply(t, auth, OnPolicy(id, op)).0)
  {
    AlikeAt(s, t, id);
    if id in s.policies {
      var v := Operate(s.world, auth, id, View(s.policies[id], s.world.now), op);
      OpFrames(s.world, auth, id, View(s.policies[id], s.world.now), op);
      if v.Accept? {
        WriteAlike(s, t, id, v.world, v.policy);
      }
    }
  }

  lemma {:induction false} CreateAlike(s: State, t: State, auth: set<Address>, call: Call)
    requires Alike(s, t) && call.CreatePolicy?
    ensures Apply(s, auth, call).1 == Apply(t, auth, call).1
    ensures Alike(Apply(s, auth, call).0, Apply(t, auth, call).0)
  {
    AlikeAt(s, t, 0);
    var id := s.world.inst.policyCounter;
    var (s', r) := Apply(s, auth, call);
    if r.Ok? {
      WriteAlike(s, t, id, s'.world, s'.policies[id]);
    }
  }

  /** The same call from alike states gives the same reply and alike states. */
  lemma {:induction false} ApplyAlike(s: State, t: State, auth: set<Address>, call: Call)
    requires Alike(s, t)
    ensures Apply(s, auth, call).1 == Apply(t, auth, call).1
    ensures Alike(Apply(s, auth, call).0, Apply(t, auth, call).0)
  {
    AlikeAt(s, t, 0);
    match call
    case OnPolicy(id, op) => OpAlike(s, t, auth, id, op);
    case CreatePolicy(_, _, _, _, _, _) => CreateAlike(s, t, auth, call);
    case GetPolicy(id) => AlikeAt(s, t, id);
    case Configure(_) => WorldAlike(s, t, Apply(s, auth, call).0.world);
    case CallPool(_) => WorldAlike(s, t, Apply(s, auth, call).0.world);
    case MoveTokens(_, _, _, _) => WorldAlike(s, t, Apply(s, auth, call).0.world);
    case VerifyOracle(_) =>
    case GetTreasuryStats =>
  }

  /** Alike states cannot be told apart by any run of calls. */
  lemma {:induction false} RunAlike(s: State, t: State, txs: seq<Tx>)
    requires Alike(s, t)
    ensures Replies(s, txs) == Replies(t, txs)
    ensures Alike(Run(s, txs), Run(t, txs))
    decreases |txs|
  {
    if txs != [] {
      AdvanceAlike(s, t, txs[0].elapsed);
      ApplyAlike(Advance(s, txs[0].elapsed), Advance(t, txs[0].elapsed), txs[0].auth, txs[0].call);
      RunAlike(Step(s, txs[0]).0, Step(t, txs[0]).0, txs[1..]);
    }
  }

  lemma {:induction false} SweepAlike(s: State)
    ensures Alike(s, Sweep(s))
  {
    AlikePointwise(s, Sweep(s));
  }

  lemma {:induction false} CheckAlike(s: State, auth: set<Address>, id: nat)
    ensures Alike(s, Apply(s, auth, OnPolicy(id, CheckExpiration)).0)
  {
    AlikePointwise(s, Apply(s, auth, OnPolicy(id, CheckExpiration)).0);
  }

  /** Inserting check_expiration at any point of a run, for any policy, changes
      no other reply, and every policy's view at the end is the same. */
  lemma {:induction false} CheckingIsUnobservable(s: State, before: seq<Tx>, after: seq<Tx>, auth: set<Address>,
                                                  id: nat)
    ensures
      var check := Tx(0, auth, OnPolicy(id, CheckExpiration));
      var without, with := before + after, before + [check] + after;
      && Replies(s, with) == Replies(s, before) + [Step(Run(s, before), check).1] + Replies(s, without)[|before|..]
      && Alike(Run(s, with), Run(s, without))
  {
    var check := Tx(0, auth, OnPolicy(id, CheckExpiration));
    var m := Run(s, before);
    RunAppend(s, before, after);
    RunAppend(s, before + [check], after);
    RunAppend(s, before, [check]);
    RunOne(m, check);
    assert Advance(m, 0) == m;
    CheckAlike(m, auth, id);
    RunAlike(m, Step(m, check).0, after);
  }

  /** The eager machine: the clock sweeps every lapsed policy before the call runs. */
  function EagerStep(s: State, tx: Tx): (State, Result<Reply>) {
    Apply(Sweep(Advance(s, tx.elapsed)), tx.auth, tx.call)
  }

  function EagerRun(s: State, txs: seq<Tx>): State
    decreases |txs|
  {
    if txs == [] then s else EagerRun(EagerStep(s, txs[0]).0, txs[1..])
  }

  function EagerReplies(s: State, txs: seq<Tx>): seq<Result<Reply>>
    decreases |txs|
  {
    if txs == [] then [] else [EagerStep(s, txs[0]).1] + EagerReplies(EagerStep(s, txs[0]).0, txs[1..])
  }

  /** Reading the expiry lazily bisimulates the machine that writes it eagerly. */
  lemma {:induction false} LazyMatchesEager(s: State, t: State, txs: seq<Tx>)
    requires Alike(s, t)
    ensures Replies(s, txs) == EagerReplies(t, txs)
    ensures Alike(Run(s, txs), EagerRun(t, txs))
    decreases |txs|
  {
    if txs != [] {
      var s', t' := Advance(s, txs[0].elapsed), Advance(t, txs[0].elapsed);
      AdvanceAlike(s, t, txs[0].elapsed);
      SweepAlike(t');
      assert Alike(s', Sweep(t'));
      ApplyAlike(s', Sweep(t'), txs[0].auth, txs[0].call);
      LazyMatchesEager(Step(s, txs[0]).0, EagerStep(t, txs[0]).0, txs[1..]);
    }
  }

  /** The PolicyExpired branch of submit_claim is dead: an expired policy is
      already refused as not active. */
  lemma {:induction false} PolicyExpiredIsDead(s: State, tx: Tx)
    ensures Step(s, tx).1 != Err(PolicyExpired)
  {
    var t := Advance(s, tx.elapsed);
    match tx.call
    case OnPolicy(id, op) =>
      if id in t.policies {
        NoOpRefusesExpired(t.world, tx.auth, id, t.policies[id], op);
      }
    case CallPool(call) =>
    case _ =>
  }

  lemma {:induction false} NoOpRefusesExpired(w: World, auth: set<Address>, id: nat, raw: Policy, op: PolicyOp)
    ensures Operate(w, auth, id, View(raw, w.now), op) != Refuse(PolicyExpired)
  {
  }
}
