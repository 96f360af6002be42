/**
 Laws of the cached listing: keys tell pages apart, an invalidation deletes one
 user's keys and no others, and no run of requests can observe the cache.
 */
module ListingLaws {
  import opened Types
  import opened Listing
  import Amounts

  // ------------------------------------------------------------ keys are injective

  lemma {:induction false} FirstColon(a: string, x: string, b: string, y: string)
    requires ':' !in a && ':' !in b && a + (":" + x) == b + (":" + y)
    ensures a == b && x == y
  {
    var s, t := a + (":" + x), b + (":" + y);
    assert s[|a|] == ':' && t[|b|] == ':';
    assert forall i :: 0 <= i < |a| ==> s[i] == a[i];
    assert forall i :: 0 <= i < |b| ==> t[i] == b[i];
    assert |a| == |b|;
    assert s[..|a|] == a && t[..|b|] == b;
    assert s[|a| + 1..] == x && t[|b| + 1..] == y;
  }

  lemma {:induction false} LastColon(x: string, a: string, y: string, b: string)
    requires ':' !in a && ':' !in b && x + ":" + a == y + ":" + b
    ensures x == y && a == b
  {
    var s, t := x + ":" + a, y + ":" + b;
    assert s[|x|] == ':' && t[|y|] == ':';
    assert forall i :: |x| < i < |s| ==> s[i] == a[i - |x| - 1];
    assert forall i :: |y| < i < |t| ==> t[i] == b[i - |y| - 1];
    assert |x| == |y|;
    assert s[..|x|] == x && t[..|y|] == y;
    assert s[|x| + 1..] == a && t[|y| + 1..] == b;
  }

  lemma {:induction false} DecimalSpec(n: nat)
    ensures Amounts.Digits(Decimal(n)) && Amounts.Number(Decimal(n)) == n
    ensures ':' !in Decimal(n)
  {
    if n >= 10 {
      DecimalSpec(n / 10);
      var d := Decimal(n);
      assert d[..|d| - 1] == Decimal(n / 10);
    } else {
      assert Decimal(n)[..0] == "";
    }
  }

  lemma {:induction false} FieldsHaveNoColon(q: Query)
    ensures ':' !in StatusField(q) && ':' !in TypeField(q)
  {
  }

  lemma {:induction false} StatusInjective(p: Query, q: Query)
    requires StatusField(p) == StatusField(q)
    ensures p.status == q.status
  {
  }

  lemma {:induction false} TypeInjective(p: Query, q: Query)
    requires TypeField(p) == TypeField(q)
    ensures p.policyType == q.policyType
  {
  }

  lemma {:induction false} PagingInjective(p: Query, q: Query)
    requires ValidQuery(p) && ValidQuery(q) && Paging(p) == Paging(q)
    ensures p.account == q.account && p.page == q.page && p.perPage == q.perPage
  {
    DecimalSpec(p.perPage);
    DecimalSpec(q.perPage);
    DecimalSpec(p.page);
    DecimalSpec(q.page);
    LastColon(AccountField(p) + ":" + Decimal(p.page), Decimal(p.perPage),
              AccountField(q) + ":" + Decimal(q.page), Decimal(q.perPage));
    LastColon(AccountField(p), Decimal(p.page), AccountField(q), Decimal(q.page));
  }

  function Behind(user: nat, rest: string): string { UserPrefix(user) + rest }

  lemma {:induction false} UserInKey(u: nat, x: string, v: nat, y: string)
    requires Behind(u, x) == Behind(v, y)
    ensures u == v && x == y
  {
    var head := "policies:user:";
    assert Behind(u, x) == head + (Decimal(u) + (":" + x));
    assert Behind(v, y) == head + (Decimal(v) + (":" + y));
    assert Behind(u, x)[|head|..] == Decimal(u) + (":" + x);
    assert Behind(v, y)[|head|..] == Decimal(v) + (":" + y);
    DecimalSpec(u);
    DecimalSpec(v);
    FirstColon(Decimal(u), x, Decimal(v), y);
  }

  lemma {:induction false} FiltersInjective(p: Query, q: Query)
    requires ValidQuery(p) && ValidQuery(q) && Filters(p) == Filters(q)
    ensures p == q
  {
    FieldsHaveNoColon(p);
    FieldsHaveNoColon(q);
    FirstColon(StatusField(p), TypeField(p) + (":" + Paging(p)), StatusField(q), TypeField(q) + (":" + Paging(q)));
    FirstColon(TypeField(p), Paging(p), TypeField(q), Paging(q));
    StatusInjective(p, q);
    TypeInjective(p, q);
    PagingInjective(p, q);
  }

  /** Different users or different valid queries never share a cache key. */
  lemma {:induction false} KeyInjective(u: nat, p: Query, v: nat, q: Query)
    requires ValidQuery(p) && ValidQuery(q) && Key(u, p) == Key(v, q)
    ensures u == v && p == q
  {
    UserInKey(u, Filters(p), v, Filters(q));
    FiltersInjective(p, q);
  }

  predicate NoWildcard(s: string) { forall i :: 0 <= i < |s| ==> s[i] != '*' && s[i] != '?' }

  lemma {:induction false} StarMatches(key: string)
    ensures Matches("*", key)
  {
    assert "*"[1..] == "";
    if key != "" { StarMatches(key[1..]); }
  }

  lemma {:induction false} PrefixPattern(prefix: string, key: string)
    requires NoWildcard(prefix)
    ensures Matches(prefix + "*", key) <==> prefix <= key
  {
    if prefix == "" {
      assert prefix + "*" == "*";
      StarMatches(key);
    } else {
      assert (prefix + "*")[1..] == prefix[1..] + "*";
      if key != "" {
        PrefixPattern(prefix[1..], key[1..]);
        assert prefix <= key <==> prefix[0] == key[0] && prefix[1..] <= key[1..];
      }
    }
  }

  lemma {:induction false} PrefixIsPlain(user: nat)
    ensures NoWildcard(UserPrefix(user))
  {
    DecimalSpec(user);
    var s := UserPrefix(user);
    forall i | 0 <= i < |s| ensures s[i] != '*' && s[i] != '?' {
      if 14 <= i < 14 + |Decimal(user)| { assert s[i] == Decimal(user)[i - 14]; }
    }
  }

  /** The pattern delete hits exactly one user's keys. */
  lemma {:induction false} PatternHitsOneUser(user: nat, owner: nat, q: Query)
    ensures Matches(Pattern(user), Key(owner, q)) <==> user == owner
  {
    PrefixIsPlain(user);
    PrefixPattern(UserPrefix(user), Key(owner, q));
    var key, prefix := Key(owner, q), UserPrefix(user);
    if prefix <= key {
      assert key == Behind(user, key[|prefix|..]);
      UserInKey(user, key[|prefix|..], owner, Filters(q));
    }
  }

  // ------------------------------------------------------------------ the frame

  lemma {:induction false} SelectAppend(rows: seq<Row>, r: Row, user: nat, q: Query)
    ensures Select(rows + [r], user, q) == Select(rows, user, q) + (if Admits(user, q, r) then [r] else [])
  {
    if rows == [] {
      assert rows + [r] == [r] && [r][1..] == [];
    } else {
      assert (rows + [r])[1..] == rows[1..] + [r];
      SelectAppend(rows[1..], r, user, q);
    }
  }

  lemma {:induction false} SelectElsewhere(rows: seq<Row>, i: nat, r: Row, user: nat, q: Query)
    requires i < |rows| && !Admits(user, q, rows[i]) && !Admits(user, q, r)
    ensures Select(rows[i := r], user, q) == Select(rows, user, q)
  {
    if i == 0 {
      assert rows[0 := r][1..] == rows[1..];
    } else {
      assert rows[i := r][1..] == rows[1..][i - 1 := r];
      SelectElsewhere(rows[1..], i - 1, r, user, q);
    }
  }

  /** A write adds or rewrites at most one policy, of the user it invalidates. */
  lemma {:induction false} WriteShape(db: Database, clock: Clock, w: Write) returns (i: nat, r: Row)
    ensures var e := WriteOn(db, clock, w);
      && e.db.users == db.users
      && (e.db.policies == db.policies
          || (e.invalidated == Some(r.holder)
              && (e.db.policies == db.policies + [r]
                   || (i < |db.policies| && Rewrites(db.policies[i], r) && e.db.policies == db.policies[i := r]))))
  {
    var e := WriteOn(db, clock, w);
    match w
    case CreatePolicy(_, _) =>
      i := 0;
      if e.invalidated.Some? { r := e.db.policies[|db.policies|]; } else { r := *; }
    case CancelPolicy(_, id) => r := *; i := RowAt(db, id); if e.invalidated.Some? { r := e.db.policies[i]; }
    case CreateClaim(_, id, _, _) => r := *; i := RowAt(db, id); if e.invalidated.Some? { r := e.db.policies[i]; }
    case CreateClaimWithFile(_, id, _, _) =>
      r := *;
      i := RowAt(db, id);
      if e.invalidated.Some? { r := e.db.policies[i]; }
    case UpdateClaimStatus(id, _) =>
      r := *;
      i := 0;
      if e.invalidated.Some? {
        i := RowAt(db, db.claims[id - 1].policy);
        r := e.db.policies[i];
      }
  }

  function RowAt(db: Database, id: nat): nat { if id > 0 then id - 1 else 0 }

  /** A write changes no other user's listing. */
  lemma {:induction false} WriteFrames(db: Database, clock: Clock, w: Write, user: nat, q: Query)
    requires ValidQuery(q) && WriteOn(db, clock, w).invalidated != Some(user)
    ensures Answer(WriteOn(db, clock, w).db, user, q) == Answer(db, user, q)
  {
    var i, r := WriteShape(db, clock, w);
    var e := WriteOn(db, clock, w);
    if e.db.policies != db.policies { RowsFrame(db.policies, e.db.policies, i, r, user, q); }
  }

  lemma {:induction false} RowsFrame(was: seq<Row>, now: seq<Row>, i: nat, r: Row, user: nat, q: Query)
    requires r.holder != user
    requires now == was + [r] || (i < |was| && was[i].holder == r.holder && now == was[i := r])
    ensures Select(now, user, q) == Select(was, user, q)
  {
    if now == was + [r] {
      SelectAppend(was, r, user, q);
    } else {
      SelectElsewhere(was, i, r, user, q);
    }
  }

  // ------------------------------------------------------------------- coherence

  /** Every cached page is what its query would answer now. */
  ghost predicate Coherent(s: System) {
    forall u: nat, q: Query :: ValidQuery(q) && Key(u, q) in s.cache ==> s.cache[Key(u, q)] == Answer(s.db, u, q)
  }

  lemma {:induction false} ListKeepsCoherent(s: System, user: nat, q: Query)
    requires Coherent(s)
    ensures Coherent(ListOn(s, user, q).0)
    ensures ValidQuery(q) ==> ListOn(s, user, q).1 == Listed(Answer(s.db, user, q))
  {
    var t := ListOn(s, user, q).0;
    forall v: nat, p: Query | ValidQuery(p) && Key(v, p) in t.cache
      ensures t.cache[Key(v, p)] == Answer(t.db, v, p)
    {
      if ValidQuery(q) && Key(v, p) == Key(user, q) { KeyInjective(v, p, user, q); }
    }
  }

  lemma {:induction false} WriteKeepsCoherent(s: System, clock: Clock, w: Write)
    requires Coherent(s)
    ensures Coherent(Step(s, clock, Change(w)).0)
  {
    var e, t := WriteOn(s.db, clock, w), Step(s, clock, Change(w)).0;
    forall v: nat, p: Query | ValidQuery(p) && Key(v, p) in t.cache
      ensures t.cache[Key(v, p)] == Answer(t.db, v, p)
    {
      if e.invalidated.Some? { PatternHitsOneUser(e.invalidated.value, v, p); }
      WriteFrames(s.db, clock, w, v, p);
    }
  }

  lemma {:induction false} StepKeepsCoherent(s: System, clock: Clock, r: Request)
    requires Coherent(s)
    ensures Coherent(Step(s, clock, r).0)
    ensures Step(s, clock, r).0.db == PlainStep(s.db, clock, r).0
    ensures Step(s, clock, r).1 == PlainStep(s.db, clock, r).1
  {
    match r
    case List(user, q) => ListKeepsCoherent(s, user, q);
    case Change(w) => WriteKeepsCoherent(s, clock, w);
    case Expiry(_) =>
  }

  /** Over any run of requests from a coherent cache, every reply and the database
      are those of the system without a cache, and the cache stays coherent. */
  lemma {:induction false} CacheIsUnobservable(s: System, rs: seq<Timed>)
    requires Coherent(s)
    ensures Coherent(Run(s, rs))
    ensures Run(s, rs).db == PlainRun(s.db, rs) && Replies(s, rs) == PlainReplies(s.db, rs)
    decreases |rs|
  {
    if rs != [] {
      StepKeepsCoherent(s, rs[0].clock, rs[0].request);
      CacheIsUnobservable(Step(s, rs[0].clock, rs[0].request).0, rs[1..]);
    }
  }

  /** In particular from an empty cache. */
  lemma {:induction false} EmptyCacheIsUnobservable(db: Database, rs: seq<Timed>)
    ensures Replies(System(db, map[]), rs) == PlainReplies(db, rs)
    ensures Coherent(Run(System(db, map[]), rs))
  {
    CacheIsUnobservable(System(db, map[]), rs);
  }

  // --------------------------------------------------------- what a listing shows

  predicate NewestFirst(rows: seq<Row>) {
    forall i, j :: 0 <= i < j < |rows| ==> rows[i].createdAt >= rows[j].createdAt
  }

  lemma {:induction false} InsertAdds(r: Row, rows: seq<Row>)
    ensures multiset(Insert(r, rows)) == multiset{r} + multiset(rows) && |Insert(r, rows)| == |rows| + 1
  {
    if !(rows == [] || r.createdAt >= rows[0].createdAt) {
      InsertAdds(r, rows[1..]);
      assert rows == [rows[0]] + rows[1..];
    }
  }

  lemma {:induction false} InsertSpec(r: Row, rows: seq<Row>)
    requires NewestFirst(rows)
    ensures NewestFirst(Insert(r, rows)) && multiset(Insert(r, rows)) == multiset{r} + multiset(rows)
    ensures |Insert(r, rows)| == |rows| + 1
  {
    InsertAdds(r, rows);
    if !(rows == [] || r.createdAt >= rows[0].createdAt) {
      InsertSpec(r, rows[1..]);
      var rest := Insert(r, rows[1..]);
      forall i | 0 <= i < |rest| ensures rows[0].createdAt >= rest[i].createdAt {
        assert rest[i] in multiset{r} + multiset(rows[1..]);
        assert rest[i] == r || rest[i] in rows[1..];
      }
      FirstIsNewest(rows[0], rest);
    } else {
      FirstIsNewest(r, rows);
    }
  }

  lemma {:induction false} FirstIsNewest(r: Row, rest: seq<Row>)
    requires NewestFirst(rest) && forall i :: 0 <= i < |rest| ==> r.createdAt >= rest[i].createdAt
    ensures NewestFirst([r] + rest)
  {
  }

  lemma {:induction false} NewestSpec(rows: seq<Row>)
    ensures NewestFirst(Newest(rows)) && multiset(Newest(rows)) == multiset(rows) && |Newest(rows)| == |rows|
  {
    if rows != [] {
      NewestSpec(rows[1..]);
      InsertSpec(rows[0], Newest(rows[1..]));
      assert rows == [rows[0]] + rows[1..];
    }
  }

  lemma {:induction false} SelectSpec(rows: seq<Row>, user: nat, q: Query, r: Row)
    ensures multiset(Select(rows, user, q))[r] == if Admits(user, q, r) then multiset(rows)[r] else 0
  {
    if rows != [] {
      SelectSpec(rows[1..], user, q, r);
      assert rows == [rows[0]] + rows[1..];
    }
  }

  /** The filtered list holds exactly the admitted rows, newest first. */
  lemma {:induction false} MatchingSpec(db: Database, user: nat, q: Query, r: Row)
    ensures NewestFirst(Matching(db, user, q))
    ensures multiset(Matching(db, user, q))[r] == if Admits(user, q, r) then multiset(db.policies)[r] else 0
  {
    NewestSpec(Select(db.policies, user, q));
    SelectSpec(db.policies, user, q, r);
  }

  lemma {:induction false} TotalPagesSpec(total: nat, perPage: nat, page: nat)
    requires perPage > 0 && page > 0
    ensures page <= TotalPages(total, perPage) <==> Offset(page, perPage) < total
    ensures Offset(page + 1, perPage) == Offset(page, perPage) + perPage && Offset(1, perPage) == 0
  {
    var n, d := total + perPage - 1, perPage;
    var k := n / d;
    assert k * d + n % d == n;
    assert page * d == (page - 1) * d + d;
    if page <= k { TimesMonotone(page, k, d); } else { TimesMonotone(k, page - 1, d); }
  }

  lemma {:induction false} TimesMonotone(a: nat, b: nat, d: nat)
    requires a <= b
    ensures a * d <= b * d
  {
    assert b * d == a * d + (b - a) * d;
  }

  /** The pages from one on, up to the last, put together. */
  function PagesFrom(db: Database, user: nat, q: Query, from: nat): seq<Row>
    requires ValidQuery(q) && from >= 1
    decreases Answer(db, user, q).totalPages + 1 - from
  {
    if from > Answer(db, user, q).totalPages then []
    else Answer(db, user, q.(page := from)).policies + PagesFrom(db, user, q, from + 1)
  }

  lemma {:induction false} PagesTileFrom(db: Database, user: nat, q: Query, from: nat)
    requires ValidQuery(q) && OwnAccount(db, user, q) && from >= 1
    ensures var rows, offset := Matching(db, user, q), Offset(from, q.perPage);
      PagesFrom(db, user, q, from) == if offset < |rows| then rows[offset..] else []
    decreases Answer(db, user, q).totalPages + 1 - from
  {
    var rows := Matching(db, user, q);
    TotalPagesSpec(|rows|, q.perPage, from);
    if from <= Answer(db, user, q).totalPages {
      PagesTileFrom(db, user, q, from + 1);
      SamePages(db, user, q, from);
      SliceThen(rows, Offset(from, q.perPage), q.perPage);
    }
  }

  lemma {:induction false} SliceThen(rows: seq<Row>, offset: nat, limit: nat)
    requires offset < |rows|
    ensures Slice(rows, offset, limit) + (if offset + limit < |rows| then rows[offset + limit..] else [])
      == rows[offset..]
  {
  }

  lemma {:induction false} SelectIgnoresPaging(rows: seq<Row>, user: nat, q: Query, page: nat)
    ensures Select(rows, user, q.(page := page)) == Select(rows, user, q)
  {
    if rows != [] { SelectIgnoresPaging(rows[1..], user, q, page); }
  }

  lemma {:induction false} SamePages(db: Database, user: nat, q: Query, page: nat)
    requires ValidQuery(q) && OwnAccount(db, user, q) && page >= 1
    ensures Answer(db, user, q.(page := page)).policies
      == Slice(Matching(db, user, q), Offset(page, q.perPage), q.perPage)
  {
    SelectIgnoresPaging(db.policies, user, q, page);
  }

  /** Pages 1 to total_pages, put together, are the filtered list, newest first;
      has_next says whether a page is before the last, and pages after it are empty. */
  lemma {:induction false} PagesTile(db: Database, user: nat, q: Query)
    requires ValidQuery(q) && OwnAccount(db, user, q)
    ensures PagesFrom(db, user, q, 1) == Matching(db, user, q)
    ensures Answer(db, user, q).hasNext <==> q.page < Answer(db, user, q).totalPages
    ensures Answer(db, user, q).policies == [] <==> q.page > Answer(db, user, q).totalPages
  {
    var rows := Matching(db, user, q);
    PagesTileFrom(db, user, q, 1);
    TotalPagesSpec(|rows|, q.perPage, q.page);
    TotalPagesSpec(|rows|, q.perPage, q.page + 1);
  }

  // ----------------------------------------------------- a route that forgets to

  /** Primary keys count from 1. */
  predicate KeysCount(rows: seq<Row>) { forall i :: 0 <= i < |rows| ==> rows[i].id == i + 1 }

  lemma {:induction false} RunKeepsKeys(db: Database, rs: seq<Timed>)
    requires KeysCount(db.policies)
    ensures KeysCount(PlainRun(db, rs).policies)
    decreases |rs|
  {
    if rs != [] { RunKeepsKeys(PlainStep(db, rs[0].clock, rs[0].request).0, rs[1..]); }
  }

  /** Whether lodging a claim on a policy changes a listing: the policy enters or
      leaves the list, or stands on the page. */
  predicate Shows(db: Database, user: nat, row: Row, q: Query)
    requires ValidQuery(q)
  {
    OwnAccount(db, user, q) && (q.policyType.Some? ==> row.policyType == q.policyType.value)
    && if q.status.None? then row in Answer(db, user, q).policies
       else q.status.value == Active || q.status.value == ClaimPending
  }

  function Swap(rows: seq<Row>, was: Row, now: Row): (s: seq<Row>)
    ensures |s| == |rows|
  {
    seq(|rows|, i requires 0 <= i < |rows| => if rows[i] == was then now else rows[i])
  }

  lemma {:induction false} SwapTail(rows: seq<Row>, was: Row, now: Row)
    requires rows != []
    ensures Swap(rows, was, now) == [if rows[0] == was then now else rows[0]] + Swap(rows[1..], was, now)
  {
  }

  lemma {:induction false} SelectSwap(rows: seq<Row>, was: Row, now: Row, user: nat, q: Query)
    requires Admits(user, q, was) && Admits(user, q, now)
    ensures Select(Swap(rows, was, now), user, q) == Swap(Select(rows, user, q), was, now)
  {
    if rows != [] {
      SwapTail(rows, was, now);
      assert Swap(rows, was, now)[1..] == Swap(rows[1..], was, now);
      SelectSwap(rows[1..], was, now, user, q);
    }
  }

  lemma {:induction false} InsertSwap(r: Row, rows: seq<Row>, was: Row, now: Row)
    requires was.createdAt == now.createdAt
    ensures Insert(if r == was then now else r, Swap(rows, was, now)) == Swap(Insert(r, rows), was, now)
  {
    if rows != [] && r.createdAt < rows[0].createdAt {
      SwapTail(rows, was, now);
      InsertSwap(r, rows[1..], was, now);
      assert Swap(rows, was, now)[1..] == Swap(rows[1..], was, now);
      SwapTail(Insert(r, rows), was, now);
    }
  }

  lemma {:induction false} NewestSwap(rows: seq<Row>, was: Row, now: Row)
    requires was.createdAt == now.createdAt
    ensures Newest(Swap(rows, was, now)) == Swap(Newest(rows), was, now)
  {
    if rows != [] {
      SwapTail(rows, was, now);
      assert Swap(rows, was, now)[1..] == Swap(rows[1..], was, now);
      NewestSwap(rows[1..], was, now);
      InsertSwap(rows[0], Newest(rows[1..]), was, now);
    }
  }

  lemma {:induction false} SliceSwap(rows: seq<Row>, was: Row, now: Row, offset: nat, limit: nat)
    ensures Slice(Swap(rows, was, now), offset, limit) == Swap(Slice(rows, offset, limit), was, now)
  {
  }

  lemma {:induction false} SwapShows(rows: seq<Row>, was: Row, now: Row)
    requires was != now
    ensures Swap(rows, was, now) == rows <==> was !in rows
  {
    if was in rows {
      var i :| 0 <= i < |rows| && rows[i] == was;
      assert Swap(rows, was, now)[i] == now;
    }
  }

  lemma {:induction false} SelectCount(rows: seq<Row>, i: nat, r: Row, user: nat, q: Query)
    requires i < |rows|
    ensures |Select(rows[i := r], user, q)| + (if Admits(user, q, rows[i]) then 1 else 0)
      == |Select(rows, user, q)| + (if Admits(user, q, r) then 1 else 0)
  {
    if i == 0 {
      assert rows[0 := r][1..] == rows[1..];
    } else {
      assert rows[i := r][1..] == rows[1..][i - 1 := r];
      SelectCount(rows[1..], i - 1, r, user, q);
    }
  }

  /** One row rewritten in place: any status, amount or time stamp may change. */
  predicate Rewrites(was: Row, now: Row) {
    now.id == was.id && now.holder == was.holder && now.createdAt == was.createdAt
  }

  /** Whether rewriting a row changes a listing: the row enters or leaves the list,
      or it stands on the page. */
  predicate Touches(db: Database, user: nat, q: Query, was: Row, now: Row)
    requires ValidQuery(q)
  {
    Admits(user, q, was) != Admits(user, q, now)
    || (Admits(user, q, was) && was in Answer(db, user, q).policies)
  }

  lemma {:induction false} RewrittenIsSwapped(rows: seq<Row>, i: nat, now: Row)
    requires i < |rows| && KeysCount(rows)
    ensures rows[i := now] == Swap(rows, rows[i], now)
  {
    forall k | 0 <= k < |rows| ensures rows[i := now][k] == Swap(rows, rows[i], now)[k] {
      if k != i { assert rows[k].id != rows[i].id; }
    }
  }

  lemma {:induction false} KeptRowChanges(db: Database, after: Database, i: nat, user: nat, q: Query)
    requires i < |db.policies| && KeysCount(db.policies) && ValidQuery(q)
    requires i < |after.policies| && after.policies == db.policies[i := after.policies[i]] && after.users == db.users
    requires Rewrites(db.policies[i], after.policies[i]) && after.policies[i] != db.policies[i]
    requires Admits(user, q, db.policies[i]) && Admits(user, q, after.policies[i]) && OwnAccount(db, user, q)
    ensures Answer(after, user, q) == Answer(db, user, q) <==> db.policies[i] !in Answer(db, user, q).policies
  {
    var was, now := db.policies[i], after.policies[i];
    RewrittenIsSwapped(db.policies, i, now);
    SelectSwap(db.policies, was, now, user, q);
    NewestSwap(Select(db.policies, user, q), was, now);
    var rows, offset := Matching(db, user, q), Offset(q.page, q.perPage);
    SliceSwap(rows, was, now, offset, q.perPage);
    SwapShows(Slice(rows, offset, q.perPage), was, now);
  }

  /** A listing counts the rows its filters admit. */
  lemma {:induction false} CountedRows(db: Database, user: nat, q: Query)
    requires ValidQuery(q) && OwnAccount(db, user, q)
    ensures Answer(db, user, q).total == |Select(db.policies, user, q)|
  {
    NewestSpec(Select(db.policies, user, q));
  }

  /** A listing changes exactly when the rewritten row touches it. */
  lemma {:induction false} RewriteChangesIff(db: Database, after: Database, i: nat, user: nat, q: Query)
    requires i < |db.policies| && KeysCount(db.policies) && ValidQuery(q)
    requires i < |after.policies| && after.policies == db.policies[i := after.policies[i]] && after.users == db.users
    requires Rewrites(db.policies[i], after.policies[i]) && after.policies[i] != db.policies[i]
    ensures Answer(after, user, q) != Answer(db, user, q)
       <==> OwnAccount(db, user, q) && Touches(db, user, q, db.policies[i], after.policies[i])
  {
    var was, now := db.policies[i], after.policies[i];
    if !OwnAccount(db, user, q) {
    } else if !Admits(user, q, was) && !Admits(user, q, now) {
      SelectElsewhere(db.policies, i, now, user, q);
    } else if Admits(user, q, was) && Admits(user, q, now) {
      KeptRowChanges(db, after, i, user, q);
    } else {
      SelectCount(db.policies, i, now, user, q);
      CountedRows(db, user, q);
      CountedRows(after, user, q);
    }
  }

  lemma {:induction false} AddedChangesIff(db: Database, after: Database, r: Row, user: nat, q: Query)
    requires ValidQuery(q) && after.policies == db.policies + [r] && after.users == db.users
    ensures Answer(after, user, q) != Answer(db, user, q) <==> OwnAccount(db, user, q) && Admits(user, q, r)
  {
    SelectAppend(db.policies, r, user, q);
    if OwnAccount(db, user, q) && Admits(user, q, r) {
      CountedRows(db, user, q);
      CountedRows(after, user, q);
      assert Answer(after, user, q).total == Answer(db, user, q).total + 1;
    } else {
      SameSelection(db, after, user, q);
    }
  }

  lemma {:induction false} SameSelection(db: Database, after: Database, user: nat, q: Query)
    requires ValidQuery(q) && after.users == db.users
    requires OwnAccount(db, user, q) ==> Select(after.policies, user, q) == Select(db.policies, user, q)
    ensures Answer(after, user, q) == Answer(db, user, q)
  {
  }

  /** Whether a change of the policies reaches a listing: an added row its filters
      admit, or a rewritten row that touches it. */
  predicate Affects(db: Database, after: Database, user: nat, q: Query)
    requires ValidQuery(q)
  {
    OwnAccount(db, user, q) &&
    if |after.policies| > |db.policies| then Admits(user, q, after.policies[|db.policies|])
    else exists i :: 0 <= i < |after.policies| && after.policies[i] != db.policies[i]
                     && Touches(db, user, q, db.policies[i], after.policies[i])
  }

  /** For every write, accepted or refused, and every listing of every user. */
  lemma {:induction false} WriteChangesIff(db: Database, clock: Clock, w: Write, user: nat, q: Query)
    requires KeysCount(db.policies) && ValidQuery(q)
    ensures var after := WriteOn(db, clock, w).db;
      Answer(after, user, q) != Answer(db, user, q) <==> Affects(db, after, user, q)
  {
    var after := WriteOn(db, clock, w).db;
    var i, r := WriteShape(db, clock, w);
    if after.policies == db.policies {
    } else if after.policies == db.policies + [r] {
      AddedChangesIff(db, after, r, user, q);
    } else {
      assert after.policies[i] == r;
      assert forall k :: 0 <= k < |db.policies| && k != i ==> after.policies[k] == db.policies[k];
      RewriteChangesIff(db, after, i, user, q);
    }
  }

  /** After a claim through /policies, which deletes no keys, a cached page of that
      user is stale exactly when it shows the policy; other users' pages stay right. */
  lemma {:induction false} SubmitStaleIff(s: System, clock: Clock, user: nat, id: nat, amount: int, proof: string,
      reader: nat, q: Query)
    requires Coherent(s) && KeysCount(s.db.policies) && ValidQuery(q) && Key(reader, q) in s.cache
    requires SubmitOn(s.db, clock, user, id, amount, proof).reply.Claimed?
    ensures var after := SubmitOn(s.db, clock, user, id, amount, proof).db;
      (s.cache[Key(reader, q)] != Answer(after, reader, q))
      <==> reader == user && Shows(s.db, user, s.db.policies[id - 1], q)
  {
    var after := SubmitOn(s.db, clock, user, id, amount, proof).db;
    if reader == user {
      RewriteChangesIff(s.db, after, id - 1, user, q);
    } else {
      RowsFrame(s.db.policies, after.policies, id - 1, after.policies[id - 1], reader, q);
    }
  }

  // --------------------------------------------------------------- a slow listing

  /** Whether a run changes a user's policies. */
  predicate Invalidates(db: Database, rs: seq<Timed>, user: nat)
    decreases |rs|
  {
    rs != [] &&
    ((rs[0].request.Change? && WriteOn(db, rs[0].clock, rs[0].request.write).invalidated == Some(user))
     || Invalidates(PlainStep(db, rs[0].clock, rs[0].request).0, rs[1..], user))
  }

  lemma {:induction false} AnswerKeeps(db: Database, rs: seq<Timed>, user: nat, q: Query)
    requires ValidQuery(q) && !Invalidates(db, rs, user)
    ensures Answer(PlainRun(db, rs), user, q) == Answer(db, user, q)
    decreases |rs|
  {
    if rs != [] {
      if rs[0].request.Change? { WriteFrames(db, rs[0].clock, rs[0].request.write, user, q); }
      AnswerKeeps(PlainStep(db, rs[0].clock, rs[0].request).0, rs[1..], user, q);
    }
  }

  /** A listing that queries, lets other requests through and only then fills the
      cache keeps it coherent when none of them changed its user's policies. */
  lemma {:induction false} LateFill(s: System, rs: seq<Timed>, user: nat, q: Query)
    requires Coherent(s) && ValidQuery(q) && !Invalidates(s.db, rs, user)
    ensures var t := Run(s, rs); Coherent(t.(cache := t.cache[Key(user, q) := Answer(s.db, user, q)]))
  {
    CacheIsUnobservable(s, rs);
    AnswerKeeps(s.db, rs, user, q);
    var t := Run(s, rs);
    var filled := t.(cache := t.cache[Key(user, q) := Answer(s.db, user, q)]);
    forall v: nat, p: Query | ValidQuery(p) && Key(v, p) in filled.cache
      ensures filled.cache[Key(v, p)] == Answer(filled.db, v, p)
    {
      if Key(v, p) == Key(user, q) { KeyInjective(v, p, user, q); }
    }
  }

  /** With one write in between, the page filled late is right if and only if the
      write does not reach that listing. */
  lemma {:induction false} LateFillIff(s: System, clock: Clock, w: Write, user: nat, q: Query)
    requires Coherent(s) && KeysCount(s.db.policies) && ValidQuery(q)
    ensures var t := Step(s, clock, Change(w)).0;
      Coherent(t.(cache := t.cache[Key(user, q) := Answer(s.db, user, q)])) <==> !Affects(s.db, t.db, user, q)
  {
    var t := Step(s, clock, Change(w)).0;
    var filled := t.(cache := t.cache[Key(user, q) := Answer(s.db, user, q)]);
    WriteKeepsCoherent(s, clock, w);
    WriteChangesIff(s.db, clock, w, user, q);
    assert Key(user, q) in filled.cache;
    if !Affects(s.db, t.db, user, q) {
      forall v: nat, p: Query | ValidQuery(p) && Key(v, p) in filled.cache
        ensures filled.cache[Key(v, p)] == Answer(filled.db, v, p)
      {
        if Key(v, p) == Key(user, q) { KeyInjective(v, p, user, q); }
      }
    }
  }

  /** Otherwise it may not: a cancellation in between leaves the old page cached. */
  lemma {:induction false} LateFillCanBeStale(clock: Clock)
    ensures var row := Row(1, 7, Weather, 10, 1, 0, 9, "", Active, 0, 0, 0);
      var db := Database(map[], [row], []);
      var q := Query(None, None, None, 1, 10);
      var t := Step(System(db, map[]), clock, Change(CancelPolicy(7, 1))).0;
      && t.db.policies[0].status == Cancelled
      && !Coherent(t.(cache := t.cache[Key(7, q) := Answer(db, 7, q)]))
  {
    var row := Row(1, 7, Weather, 10, 1, 0, 9, "", Active, 0, 0, 0);
    var db := Database(map[], [row], []);
    var q := Query(None, None, None, 1, 10);
    var t := Step(System(db, map[]), clock, Change(CancelPolicy(7, 1))).0;
    OneRow(db, row, q);
    OneRow(t.db, t.db.policies[0], q);
    assert Key(7, q) in t.cache[Key(7, q) := Answer(db, 7, q)];
  }

  lemma {:induction false} OneRow(db: Database, row: Row, q: Query)
    requires db.policies == [row] && row.holder == 7 && q == Query(None, None, None, 1, 10)
    ensures Answer(db, 7, q).policies == [row]
  {
    assert [row][1..] == [];
    assert Newest([row]) == Insert(row, Newest([])) == [row];
    assert Select(db.policies, 7, q) == [row] + Select([], 7, q) == [row];
  }
}
