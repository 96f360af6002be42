/**
 The cached policy listing: database rows, the Redis cache in front of the listing
 query, and the requests that fill or invalidate it.
 */
module Listing {
  import opened Types

  datatype PolicyType = Weather | SmartContract | Flight | Health | Asset

  datatype Status = Active | Expired | Cancelled | ClaimPending | ClaimApproved | ClaimRejected

  function TypeValue(t: PolicyType): string {
    match t
    case Weather => "weather"
    case SmartContract => "smart_contract"
    case Flight => "flight"
    case Health => "health"
    case Asset => "asset"
  }

  function StatusValue(s: Status): string {
    match s
    case Active => "active"
    case Expired => "expired"
    case Cancelled => "cancelled"
    case ClaimPending => "claim_pending"
    case ClaimApproved => "claim_approved"
    case ClaimRejected => "claim_rejected"
  }

  /** Amounts are in units of the seventh decimal. */
  datatype Row = Row(
    id: nat, holder: nat, policyType: PolicyType, coverage: int, premium: int, start: int, end: int,
    trigger: string, status: Status, claimAmount: int, createdAt: int, updatedAt: int)

  datatype ClaimRow = ClaimRow(id: nat, policy: nat, claimant: nat, amount: int, proof: string, approved: bool)

  /** Rows are kept by primary key, which counts from 1; users by their unique address. */
  datatype Database = Database(users: map<string, nat>, policies: seq<Row>, claims: seq<ClaimRow>)

  datatype Query = Query(
    status: Option<Status>, policyType: Option<PolicyType>, account: Option<string>, page: nat, perPage: nat)

  datatype Page = Page(policies: seq<Row>, total: nat, page: nat, perPage: nat, hasNext: bool, totalPages: nat)

  predicate ValidQuery(q: Query) {
    q.page >= 1 && 1 <= q.perPage <= 100 && (q.account.Some? ==> |q.account.value| == 56)
  }

  // ------------------------------------------------------------------ the query

  predicate Admits(user: nat, q: Query, r: Row) {
    r.holder == user
    && (q.status.Some? ==> r.status == q.status.value)
    && (q.policyType.Some? ==> r.policyType == q.policyType.value)
  }

  function Select(rows: seq<Row>, user: nat, q: Query): seq<Row> {
    if rows == [] then []
    else (if Admits(user, q, rows[0]) then [rows[0]] else []) + Select(rows[1..], user, q)
  }

  /** order_by(created_at.desc()), rows created at the same moment in key order. */
  function Newest(rows: seq<Row>): seq<Row> {
    if rows == [] then [] else Insert(rows[0], Newest(rows[1..]))
  }

  function Insert(r: Row, rows: seq<Row>): seq<Row> {
    if rows == [] || r.createdAt >= rows[0].createdAt then [r] + rows
    else [rows[0]] + Insert(r, rows[1..])
  }

  /** offset(...).limit(...) */
  function Slice(rows: seq<Row>, offset: nat, limit: nat): seq<Row> {
    if offset >= |rows| then []
    else if offset + limit >= |rows| then rows[offset..]
    else rows[offset..offset + limit]
  }

  function Offset(page: nat, perPage: nat): nat
    requires page >= 1
  {
    (page - 1) * perPage
  }

  function TotalPages(total: nat, perPage: nat): nat
    requires perPage > 0
  {
    (total + perPage - 1) / perPage
  }

  predicate OwnAccount(db: Database, user: nat, q: Query) {
    q.account.Some? ==> q.account.value in db.users && db.users[q.account.value] == user
  }

  function Matching(db: Database, user: nat, q: Query): seq<Row> { Newest(Select(db.policies, user, q)) }

  function Paged(rows: seq<Row>, q: Query): Page
    requires ValidQuery(q)
  {
    var offset := Offset(q.page, q.perPage);
    Page(Slice(rows, offset, q.perPage), |rows|, q.page, q.perPage,
         offset + q.perPage < |rows|, TotalPages(|rows|, q.perPage))
  }

  /** What the listing answers without a cache. */
  function Answer(db: Database, user: nat, q: Query): Page
    requires ValidQuery(q)
  {
    if OwnAccount(db, user, q) then Paged(Matching(db, user, q), q)
    else Page([], 0, q.page, q.perPage, false, 0)
  }

  // ------------------------------------------------------------------ cache keys

  function Digit(n: nat): char
    requires n < 10
  {
    ['0', '1', '2', '3', '4', '5', '6', '7', '8', '9'][n]
  }

  function Decimal(n: nat): string {
    if n < 10 then [Digit(n)] else Decimal(n / 10) + [Digit(n % 10)]
  }

  function StatusField(q: Query): string { if q.status.Some? then StatusValue(q.status.value) else "all" }

  function TypeField(q: Query): string { if q.policyType.Some? then TypeValue(q.policyType.value) else "all" }

  function AccountField(q: Query): string { if q.account.Some? then q.account.value else "all" }

  function UserPrefix(user: nat): string { "policies:user:" + (Decimal(user) + ":") }

  function Filters(q: Query): string {
    StatusField(q) + (":" + (TypeField(q) + (":" + Paging(q))))
  }

  function Paging(q: Query): string { AccountField(q) + ":" + Decimal(q.page) + ":" + Decimal(q.perPage) }

  function Key(user: nat, q: Query): string { UserPrefix(user) + Filters(q) }

  /** Redis glob patterns, as far as `*` and `?`. */
  predicate Matches(pattern: string, key: string)
    decreases |pattern| + |key|
  {
    if pattern == "" then key == ""
    else if pattern[0] == '*' then Matches(pattern[1..], key) || (key != "" && Matches(pattern, key[1..]))
    else key != "" && (pattern[0] == '?' || pattern[0] == key[0]) && Matches(pattern[1..], key[1..])
  }

  function Without(cache: map<string, Page>, pattern: string): map<string, Page> {
    map k | k in cache && !Matches(pattern, k) :: cache[k]
  }

  // ---------------------------------------------------------------- the requests

  datatype PolicyData = PolicyData(
    policyType: PolicyType, coverage: int, premium: int, start: int, end: int, trigger: string)

  datatype Clock = Clock(stamp: int, seconds: int)

  datatype ApiError = BadQuery | InvalidTimeRange | NoSuchPolicy | AlreadyTerminal | NotEligible
    | InsufficientCoverage | DuplicatePendingClaim | UploadFailed | NoSuchClaim

  datatype Reply =
    | Created(policy: Row)
    | Listed(page: Page)
    | Message
    | Claimed(claim: ClaimRow)
    | Quiet
    | Failed(error: ApiError)

  datatype Write =
    | CreatePolicy(creator: nat, data: PolicyData)
    | CancelPolicy(canceller: nat, cancelled: nat)
    | CreateClaim(claimant: nat, policy: nat, amount: int, proof: string)
    | CreateClaimWithFile(uploader: nat, insured: nat, asked: int, upload: Option<string>)
    | UpdateClaimStatus(claim: nat, approved: bool)

  datatype Request = List(reader: nat, query: Query) | Change(write: Write) | Expiry(keys: set<string>)

  /** A change of the database and the user whose listings are invalidated for it. */
  datatype Effect = Effect(db: Database, invalidated: Option<nat>, reply: Reply)

  function Fail(db: Database, e: ApiError): Effect { Effect(db, None, Failed(e)) }

  function Find(rows: seq<Row>, id: nat): Option<Row> {
    if 1 <= id <= |rows| then Some(rows[id - 1]) else None
  }

  function FindClaim(claims: seq<ClaimRow>, id: nat): Option<ClaimRow> {
    if 1 <= id <= |claims| then Some(claims[id - 1]) else None
  }

  function Owned(rows: seq<Row>, id: nat, user: nat): Option<Row> {
    var found := Find(rows, id);
    if found.Some? && found.value.holder == user then found else None
  }

  /** An UPDATE is sent, and the time stamp moved, only when a column changes. */
  function Touch(was: Row, now: Row, stamp: int): Row { if now == was then was else now.(updatedAt := stamp) }

  predicate CanClaim(r: Row, seconds: int) { r.status == Active && !(seconds > r.end) }

  predicate Terminal(s: Status) { s in {Cancelled, Expired, ClaimApproved, ClaimRejected} }

  function CreatePolicyOn(db: Database, clock: Clock, user: nat, d: PolicyData): Effect {
    if d.end <= d.start then Fail(db, InvalidTimeRange)
    else
      var row := Row(|db.policies| + 1, user, d.policyType, d.coverage, d.premium, d.start, d.end, d.trigger,
                     Active, 0, clock.stamp, clock.stamp);
      Effect(db.(policies := db.policies + [row]), Some(user), Created(row))
  }

  function CancelPolicyOn(db: Database, clock: Clock, user: nat, id: nat): Effect {
    var found := Owned(db.policies, id, user);
    if found.None? then Fail(db, NoSuchPolicy)
    else if Terminal(found.value.status) then Fail(db, AlreadyTerminal)
    else
      var row := Touch(found.value, found.value.(status := Cancelled), clock.stamp);
      Effect(db.(policies := db.policies[id - 1 := row]), Some(user), Message)
  }

  /** Both ways of making a claim; the proof is a text or the path of an uploaded file. */
  function ClaimOn(db: Database, clock: Clock, user: nat, id: nat, amount: int, proof: Option<string>): Effect {
    var found := Owned(db.policies, id, user);
    if found.None? then Fail(db, NoSuchPolicy)
    else if !CanClaim(found.value, clock.seconds) then Fail(db, NotEligible)
    else if amount > found.value.coverage - found.value.claimAmount then Fail(db, InsufficientCoverage)
    else if found.value.status == ClaimPending then Fail(db, DuplicatePendingClaim)
    else if proof.None? then Fail(db, UploadFailed)
    else Lodged(db, clock, user, id, amount, proof.value)
  }

  function Lodged(db: Database, clock: Clock, user: nat, id: nat, amount: int, proof: string): Effect
    requires Find(db.policies, id).Some?
  {
    var was := db.policies[id - 1];
    var claim := ClaimRow(|db.claims| + 1, id, user, amount, proof, false);
    var row := Touch(was, was.(status := ClaimPending), clock.stamp);
    Effect(db.(policies := db.policies[id - 1 := row], claims := db.claims + [claim]), Some(user), Claimed(claim))
  }

  function UpdateClaimStatusOn(db: Database, clock: Clock, id: nat, approved: bool): Effect {
    var found := FindClaim(db.claims, id);
    if found.None? then Fail(db, NoSuchClaim)
    else
      var claim := found.value.(approved := approved);
      var claims := db.claims[id - 1 := claim];
      var policy := Find(db.policies, claim.policy);
      if policy.None? then Effect(db.(claims := claims), None, Claimed(claim))
      else
        var was := policy.value;
        var now := if approved then was.(status := ClaimApproved, claimAmount := was.claimAmount + claim.amount)
                   else was.(status := ClaimRejected);
        Effect(db.(claims := claims, policies := db.policies[claim.policy - 1 := Touch(was, now, clock.stamp)]),
               Some(was.holder), Claimed(claim))
  }

  /** The claim route under /policies: no coverage check, and nothing is invalidated. */
  function SubmitOn(db: Database, clock: Clock, user: nat, id: nat, amount: int, proof: string): Effect {
    var found := Owned(db.policies, id, user);
    if found.None? then Fail(db, NoSuchPolicy)
    else if !CanClaim(found.value, clock.seconds) then Fail(db, NotEligible)
    else Lodged(db, clock, user, id, amount, proof).(invalidated := None)
  }

  function WriteOn(db: Database, clock: Clock, w: Write): Effect {
    match w
    case CreatePolicy(user, data) => CreatePolicyOn(db, clock, user, data)
    case CancelPolicy(user, id) => CancelPolicyOn(db, clock, user, id)
    case CreateClaim(user, id, amount, proof) => ClaimOn(db, clock, user, id, amount, Some(proof))
    case CreateClaimWithFile(user, id, amount, upload) => ClaimOn(db, clock, user, id, amount, upload)
    case UpdateClaimStatus(id, approved) => UpdateClaimStatusOn(db, clock, id, approved)
  }

  datatype System = System(db: Database, cache: map<string, Page>)

  function Pattern(user: nat): string { UserPrefix(user) + "*" }

  function Invalidate(cache: map<string, Page>, user: Option<nat>): map<string, Page> {
    if user.None? then cache else Without(cache, Pattern(user.value))
  }

  /** One request served with the cache: the listing answers from it on a hit and
      fills it on a miss, unless it filtered on someone else's account; the other
      requests change the database and then delete one user's keys.  Entries may
      also expire. */
  function Step(s: System, clock: Clock, r: Request): (System, Reply) {
    match r
    case List(user, q) => ListOn(s, user, q)
    case Expiry(keys) => (s.(cache := s.cache - keys), Quiet)
    case Change(w) =>
      var e := WriteOn(s.db, clock, w);
      (System(e.db, Invalidate(s.cache, e.invalidated)), e.reply)
  }

  function ListOn(s: System, user: nat, q: Query): (System, Reply) {
    if !ValidQuery(q) then (s, Failed(BadQuery))
    else if Key(user, q) in s.cache then (s, Listed(s.cache[Key(user, q)]))
    else
      var page := Answer(s.db, user, q);
      (if OwnAccount(s.db, user, q) then s.(cache := s.cache[Key(user, q) := page]) else s, Listed(page))
  }

  datatype Timed = Timed(clock: Clock, request: Request)

  function Run(s: System, rs: seq<Timed>): System
    decreases |rs|
  {
    if rs == [] then s else Run(Step(s, rs[0].clock, rs[0].request).0, rs[1..])
  }

  function Replies(s: System, rs: seq<Timed>): seq<Reply>
    decreases |rs|
  {
    if rs == [] then []
    else var (t, r) := Step(s, rs[0].clock, rs[0].request); [r] + Replies(t, rs[1..])
  }

  /** The same requests without a cache. */
  function PlainStep(db: Database, clock: Clock, r: Request): (Database, Reply) {
    match r
    case List(user, q) => (db, if ValidQuery(q) then Listed(Answer(db, user, q)) else Failed(BadQuery))
    case Expiry(_) => (db, Quiet)
    case Change(w) => var e := WriteOn(db, clock, w); (e.db, e.reply)
  }

  function PlainRun(db: Database, rs: seq<Timed>): Database
    decreases |rs|
  {
    if rs == [] then db else PlainRun(PlainStep(db, rs[0].clock, rs[0].request).0, rs[1..])
  }

  function PlainReplies(db: Database, rs: seq<Timed>): seq<Reply>
    decreases |rs|
  {
    if rs == [] then []
    else var (t, r) := PlainStep(db, rs[0].clock, rs[0].request); [r] + PlainReplies(t, rs[1..])
  }
}
