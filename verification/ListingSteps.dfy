/**
 The cached listing with each handler's commit and its key deletion taken apart:
 other requests may be served between the two.
 */
module ListingSteps {
  import opened Types
  import opened Listing
  import opened ListingLaws

  /** drops counts, per user, the handlers that have committed and not yet deleted. */
  datatype Server = Server(db: Database, cache: map<string, Page>, drops: multiset<nat>)

  datatype Event =
    | Read(user: nat, query: Query)
    | Lapse(keys: set<string>)
    | Commit(clock: Clock, write: Write)
    | Drop(user: nat)

  function Due(invalidated: Option<nat>): multiset<nat> {
    if invalidated.Some? then multiset{invalidated.value} else multiset{}
  }

  function Handle(s: Server, e: Event): (Server, Reply) {
    match e
    case Read(user, q) =>
      var (t, reply) := ListOn(System(s.db, s.cache), user, q);
      (s.(cache := t.cache), reply)
    case Lapse(keys) => (s.(cache := s.cache - keys), Quiet)
    case Commit(clock, w) =>
      var effect := WriteOn(s.db, clock, w);
      (Server(effect.db, s.cache, s.drops + Due(effect.invalidated)), effect.reply)
    case Drop(user) =>
      if user !in s.drops then (s, Quiet)
      else (Server(s.db, Without(s.cache, Pattern(user)), s.drops - multiset{user}), Quiet)
  }

  function Run(s: Server, es: seq<Event>): Server
    decreases |es|
  {
    if es == [] then s else Run(Handle(s, es[0]).0, es[1..])
  }

  /** A commit followed at once by its deletion is one step of the undivided model. */
  lemma {:induction false} CommitThenDrop(s: Server, clock: Clock, w: Write)
    ensures var user := WriteOn(s.db, clock, w).invalidated;
      var t := Handle(s, Commit(clock, w)).0;
      var done := if user.Some? then Handle(t, Drop(user.value)).0 else t;
      && System(done.db, done.cache) == Step(System(s.db, s.cache), clock, Change(w)).0
      && done.drops == s.drops
      && Handle(s, Commit(clock, w)).1 == Step(System(s.db, s.cache), clock, Change(w)).1
  {
    var user := WriteOn(s.db, clock, w).invalidated;
    if user.Some? { assert s.drops + multiset{user.value} - multiset{user.value} == s.drops; }
  }

  /** A cached page is right unless a deletion of its user's keys is still due. */
  ghost predicate Tracked(s: Server) {
    forall u: nat, q: Query :: ValidQuery(q) && Key(u, q) in s.cache && u !in s.drops
      ==> s.cache[Key(u, q)] == Answer(s.db, u, q)
  }

  lemma {:induction false} ReadKeepsTracked(s: Server, user: nat, q: Query)
    requires Tracked(s)
    ensures Tracked(Handle(s, Read(user, q)).0)
    ensures ValidQuery(q) && user !in s.drops ==> Handle(s, Read(user, q)).1 == Listed(Answer(s.db, user, q))
  {
    var t := Handle(s, Read(user, q)).0;
    forall v: nat, p: Query | ValidQuery(p) && Key(v, p) in t.cache && v !in t.drops
      ensures t.cache[Key(v, p)] == Answer(t.db, v, p)
    {
      if ValidQuery(q) && Key(v, p) == Key(user, q) { KeyInjective(v, p, user, q); }
    }
  }

  lemma {:induction false} CommitKeepsTracked(s: Server, clock: Clock, w: Write)
    requires Tracked(s)
    ensures Tracked(Handle(s, Commit(clock, w)).0)
  {
    var t := Handle(s, Commit(clock, w)).0;
    forall v: nat, p: Query | ValidQuery(p) && Key(v, p) in t.cache && v !in t.drops
      ensures t.cache[Key(v, p)] == Answer(t.db, v, p)
    {
      assert v !in s.drops && WriteOn(s.db, clock, w).invalidated != Some(v);
      WriteFrames(s.db, clock, w, v, p);
    }
  }

  lemma {:induction false} DropKeepsTracked(s: Server, user: nat)
    requires Tracked(s)
    ensures Tracked(Handle(s, Drop(user)).0)
  {
    var t := Handle(s, Drop(user)).0;
    forall v: nat, p: Query | ValidQuery(p) && Key(v, p) in t.cache && v !in t.drops
      ensures t.cache[Key(v, p)] == Answer(t.db, v, p)
    {
      if user in s.drops { PatternHitsOneUser(user, v, p); }
    }
  }

  /** Over every interleaving of listings, expiries, commits and deletions, every
      cached page of a user for whom no deletion is due is what its query would
      answer now, and such a user's listings are answered as without a cache. */
  lemma {:induction false} FreshUnlessDue(s: Server, es: seq<Event>, user: nat, q: Query)
    requires Tracked(s) && ValidQuery(q)
    ensures var t := Run(s, es);
      && Tracked(t)
      && (user !in t.drops ==> Handle(t, Read(user, q)).1 == Listed(Answer(t.db, user, q)))
      && (t.drops == multiset{} ==> Coherent(System(t.db, t.cache)))
    decreases |es|
  {
    if es == [] {
      ReadKeepsTracked(s, user, q);
    } else {
      match es[0] {
        case Read(v, p) => ReadKeepsTracked(s, v, p);
        case Lapse(_) =>
        case Commit(clock, w) => CommitKeepsTracked(s, clock, w);
        case Drop(v) => DropKeepsTracked(s, v);
      }
      FreshUnlessDue(Handle(s, es[0]).0, es[1..], user, q);
    }
  }

  /** While the deletion is due, a cached listing is answered wrongly if and only if
      the write reached it. */
  lemma {:induction false} HitWhileDueIff(s: Server, clock: Clock, w: Write, reader: nat, q: Query)
    requires Coherent(System(s.db, s.cache)) && KeysCount(s.db.policies) && ValidQuery(q) && Key(reader, q) in s.cache
    ensures var t := Handle(s, Commit(clock, w)).0;
      Handle(t, Read(reader, q)).1 != Listed(Answer(t.db, reader, q)) <==> Affects(s.db, t.db, reader, q)
  {
    WriteChangesIff(s.db, clock, w, reader, q);
  }
}
