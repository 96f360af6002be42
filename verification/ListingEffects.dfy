/**
 What each request on the listing and its database needs, answers and leaves, read
 off the rows before and after it.
 */
module ListingEffects {
  import opened Types
  import opened Listing
  import Laws = ListingLaws

  // ------------------------------------------------------------------ the writes

  /** Whether the policy exists and is this user's. */
  predicate Owns(db: Database, user: nat, id: nat) { 1 <= id <= |db.policies| && db.policies[id - 1].holder == user }

  function NoClaim(db: Database, clock: Clock, user: nat, id: nat, amount: int): Option<ApiError> {
    if !Owns(db, user, id) then Some(NoSuchPolicy)
    else
      var row := db.policies[id - 1];
      if row.status != Active || clock.seconds > row.end then Some(NotEligible)
      else if row.claimAmount + amount > row.coverage then Some(InsufficientCoverage)
      else None
  }

  /** Why a write is refused: the first reason that holds, in the order of the handlers. */
  function NoWrite(db: Database, clock: Clock, w: Write): Option<ApiError> {
    match w
    case CreatePolicy(_, data) => if data.end <= data.start then Some(InvalidTimeRange) else None
    case CancelPolicy(user, id) =>
      if !Owns(db, user, id) then Some(NoSuchPolicy)
      else if db.policies[id - 1].status != Active && db.policies[id - 1].status != ClaimPending then
        Some(AlreadyTerminal)
      else None
    case CreateClaim(user, id, amount, _) => NoClaim(db, clock, user, id, amount)
    case CreateClaimWithFile(user, id, amount, upload) =>
      var refused := NoClaim(db, clock, user, id, amount);
      if refused.None? && upload.None? then Some(UploadFailed) else refused
    case UpdateClaimStatus(id, _) => if 1 <= id <= |db.claims| then None else Some(NoSuchClaim)
  }

  /** The row of this key is rewritten to this one, its time stamp moved if it changed. */
  predicate Rewritten(db: Database, after: Database, id: nat, row: Row, stamp: int)
    requires 1 <= id <= |db.policies|
  {
    after.policies == db.policies[id - 1 := if row == db.policies[id - 1] then row else row.(updatedAt := stamp)]
  }

  /** One more claim, unapproved, and its policy pending. */
  predicate ClaimMade(db: Database, clock: Clock, user: nat, id: nat, amount: int, proof: string, e: Effect)
    requires Owns(db, user, id)
  {
    var claim := ClaimRow(|db.claims| + 1, id, user, amount, proof, false);
    && e.db.users == db.users && e.db.claims == db.claims + [claim] && e.reply == Claimed(claim)
    && Rewritten(db, e.db, id, db.policies[id - 1].(status := ClaimPending), clock.stamp)
  }

  predicate WriteLeft(db: Database, clock: Clock, w: Write, e: Effect)
    requires NoWrite(db, clock, w).None?
  {
    match w
    case CreatePolicy(user, d) =>
      var row := Row(|db.policies| + 1, user, d.policyType, d.coverage, d.premium, d.start, d.end, d.trigger, Active,
                     0, clock.stamp, clock.stamp);
      e == Effect(db.(policies := db.policies + [row]), Some(user), Created(row))
    case CancelPolicy(user, id) =>
      && e.db == db.(policies := e.db.policies) && e.invalidated == Some(user) && e.reply == Message
      && Rewritten(db, e.db, id, db.policies[id - 1].(status := Cancelled), clock.stamp)
    case CreateClaim(user, id, amount, proof) =>
      e.invalidated == Some(user) && ClaimMade(db, clock, user, id, amount, proof, e)
    case CreateClaimWithFile(user, id, amount, upload) =>
      e.invalidated == Some(user) && ClaimMade(db, clock, user, id, amount, upload.value, e)
    case UpdateClaimStatus(id, approved) =>
      var claim := db.claims[id - 1].(approved := approved);
      && e.db.users == db.users && e.db.claims == db.claims[id - 1 := claim] && e.reply == Claimed(claim)
      && if 1 <= claim.policy <= |db.policies| then
           var row := db.policies[claim.policy - 1];
           && e.invalidated == Some(row.holder)
           && Rewritten(db, e.db, claim.policy,
                        if approved then row.(status := ClaimApproved, claimAmount := row.claimAmount + claim.amount)
                        else row.(status := ClaimRejected),
                        clock.stamp)
         else e.db.policies == db.policies && e.invalidated == None
  }

  /** Each write is refused with its first reason and then changes nothing, and leaves
      exactly that without one. */
  lemma {:induction false} EveryWriteLeft(db: Database, clock: Clock, w: Write)
    ensures var e, refused := WriteOn(db, clock, w), NoWrite(db, clock, w);
      if refused.Some? then e == Effect(db, None, Failed(refused.value)) else WriteLeft(db, clock, w, e)
  {
  }

  /** The claim route under /policies looks at no amount and invalidates nobody. */
  lemma {:induction false} SubmitLeft(db: Database, clock: Clock, user: nat, id: nat, amount: int, proof: string)
    ensures var e := SubmitOn(db, clock, user, id, amount, proof);
      if !Owns(db, user, id) then e == Effect(db, None, Failed(NoSuchPolicy))
      else if db.policies[id - 1].status != Active || clock.seconds > db.policies[id - 1].end then
        e == Effect(db, None, Failed(NotEligible))
      else e.invalidated == None && ClaimMade(db, clock, user, id, amount, proof, e)
  {
  }

  // ----------------------------------------------------------------- the listing

  /** Newest first, and by key among those of the same moment. */
  predicate Before(r: Row, x: Row) { r.createdAt > x.createdAt || (r.createdAt == x.createdAt && r.id < x.id) }

  predicate Ordered(rows: seq<Row>) {
    forall i, j :: 0 <= i < j < |rows| ==> Before(rows[i], rows[j])
  }

  /** The user's rows with this status and type, where asked for, each once and in order. */
  ghost predicate IsListing(db: Database, user: nat, q: Query, rows: seq<Row>) {
    && Ordered(rows)
    && forall r :: r in rows <==>
         && r in db.policies && r.holder == user
         && (q.status == None || q.status == Some(r.status))
         && (q.policyType == None || q.policyType == Some(r.policyType))
  }

  lemma {:induction false} OrderedPush(r: Row, rows: seq<Row>)
    requires Ordered(rows) && forall x :: x in rows ==> Before(r, x)
    ensures Ordered([r] + rows)
  {
  }

  lemma {:induction false} InsertOrdered(r: Row, rows: seq<Row>)
    requires Ordered(rows) && forall x :: x in rows ==> r.id < x.id
    ensures Ordered(Insert(r, rows)) && forall x :: x in Insert(r, rows) <==> x == r || x in rows
  {
    if rows == [] || r.createdAt >= rows[0].createdAt {
      OrderedPush(r, rows);
    } else {
      assert rows == [rows[0]] + rows[1..];
      InsertOrdered(r, rows[1..]);
      OrderedPush(rows[0], Insert(r, rows[1..]));
    }
  }

  predicate Ascending(rows: seq<Row>) { forall i, j :: 0 <= i < j < |rows| ==> rows[i].id < rows[j].id }

  lemma {:induction false} NewestOrdered(rows: seq<Row>)
    requires Ascending(rows)
    ensures Ordered(Newest(rows)) && forall x :: x in Newest(rows) <==> x in rows
  {
    if rows != [] {
      assert rows == [rows[0]] + rows[1..];
      NewestOrdered(rows[1..]);
      InsertOrdered(rows[0], Newest(rows[1..]));
    }
  }

  lemma {:induction false} SelectAscending(rows: seq<Row>, user: nat, q: Query)
    requires Ascending(rows)
    ensures Ascending(Select(rows, user, q))
    ensures forall r :: r in Select(rows, user, q) <==>
      && r in rows && r.holder == user
      && (q.status == None || q.status == Some(r.status))
      && (q.policyType == None || q.policyType == Some(r.policyType))
  {
    if rows != [] {
      assert rows == [rows[0]] + rows[1..];
      SelectAscending(rows[1..], user, q);
    }
  }

  /** What the filtered list is, and it is the only such list. */
  lemma {:induction false} MatchingIs(db: Database, user: nat, q: Query)
    requires Laws.KeysCount(db.policies)
    ensures IsListing(db, user, q, Matching(db, user, q))
  {
    SelectAscending(db.policies, user, q);
    NewestOrdered(Select(db.policies, user, q));
  }

  lemma {:induction false} OrderedOnce(s: seq<Row>, t: seq<Row>)
    requires Ordered(s) && Ordered(t) && forall r :: r in s <==> r in t
    ensures s == t
  {
    assert (s != [] ==> s[0] in t) && (t != [] ==> t[0] in s);
    if s != [] {
      assert s == [s[0]] + s[1..] && t == [t[0]] + t[1..];
      forall r ensures r in s[1..] <==> r in t[1..] {
        if r in s[1..] { assert r in t && r != s[0]; }
        if r in t[1..] { assert r in s && r != t[0]; }
      }
      OrderedOnce(s[1..], t[1..]);
    }
  }

  /** The part of a list on a page, and the three counts that go with it. */
  predicate IsPage(rows: seq<Row>, q: Query, page: Page)
    requires ValidQuery(q)
  {
    var from, to := (q.page - 1) * q.perPage, q.page * q.perPage;
    && page.total == |rows| && page.page == q.page && page.perPage == q.perPage
    && |page.policies| == (if |rows| <= from then 0 else if |rows| <= to then |rows| - from else q.perPage)
    && (forall k :: 0 <= k < |page.policies| && from + k < |rows| ==> page.policies[k] == rows[from + k])
    && (page.hasNext <==> to < |rows|)
    && (page.totalPages - 1) * q.perPage < |rows| <= page.totalPages * q.perPage
  }

  lemma {:induction false} PagedIs(rows: seq<Row>, q: Query)
    requires ValidQuery(q)
    ensures IsPage(rows, q, Paged(rows, q))
  {
    NextOffset(q.page, q.perPage);
    LastPage(|rows|, q.perPage);
  }

  lemma {:induction false} NextOffset(page: nat, d: nat)
    requires page >= 1
    ensures page * d == (page - 1) * d + d
  {
  }

  lemma {:induction false} LastPage(total: nat, d: nat)
    requires d > 0
    ensures (TotalPages(total, d) - 1) * d < total <= TotalPages(total, d) * d
  {
    var n := total + d - 1;
    assert n / d * d + n % d == n;
    assert (n / d - 1) * d == n / d * d - d;
  }

  /** A page number from one, one to a hundred rows, and an account of 56 characters. */
  predicate Asked(q: Query) { 1 <= q.page && 1 <= q.perPage <= 100 && (q.account.None? || |q.account.value| == 56) }

  /** Someone else's account, or nobody's. */
  predicate Foreign(db: Database, user: nat, q: Query) {
    q.account.Some? && (q.account.value !in db.users || db.users[q.account.value] != user)
  }

  /** A listing is served from the cache when it is there; else it is the page of the
      filtered rows, which is cached, or empty and not cached for a foreign account. */
  lemma {:induction false} ListingServed(s: System, clock: Clock, user: nat, q: Query, rows: seq<Row>)
    requires Laws.KeysCount(s.db.policies) && IsListing(s.db, user, q, rows)
    ensures var (t, reply) := Step(s, clock, List(user, q));
      && t.db == s.db
      && (!Asked(q) ==> t == s && reply == Failed(BadQuery))
      && (Asked(q) && Key(user, q) in s.cache ==> t == s && reply == Listed(s.cache[Key(user, q)]))
      && (Asked(q) && Key(user, q) !in s.cache && Foreign(s.db, user, q) ==>
            t == s && reply == Listed(Page([], 0, q.page, q.perPage, false, 0)))
      && (Asked(q) && Key(user, q) !in s.cache && !Foreign(s.db, user, q) ==>
            reply.Listed? && IsPage(rows, q, reply.page) && t.cache == s.cache[Key(user, q) := reply.page])
  {
    if Asked(q) {
      MatchingIs(s.db, user, q);
      OrderedOnce(Matching(s.db, user, q), rows);
      PagedIs(rows, q);
    }
  }

  /** A write deletes from the cache exactly the keys of the user it invalidates. */
  lemma {:induction false} WriteDrops(s: System, clock: Clock, w: Write, owner: nat, q: Query)
    requires ValidQuery(q)
    ensures var (t, reply) := Step(s, clock, Change(w));
      var e := WriteOn(s.db, clock, w);
      && t.db == e.db && reply == e.reply
      && (Key(owner, q) in t.cache <==> Key(owner, q) in s.cache && e.invalidated != Some(owner))
      && (Key(owner, q) in t.cache ==> t.cache[Key(owner, q)] == s.cache[Key(owner, q)])
  {
    var e := WriteOn(s.db, clock, w);
    if e.invalidated.Some? { Laws.PatternHitsOneUser(e.invalidated.value, owner, q); }
  }
}
