/**
 The idempotent transaction store.  A request looks its key up, commits a
 transaction row, then commits an idempotency record; other requests run in
 between, and any of them may crash between its two commits.
 */
module Idempotency {
  import opened Types

  /** amount counts units of 10^-7, the precision of both the column and the fingerprint. */
  datatype Request = Request(
    user: nat, hash: string, amount: int, kind: string, policyId: Option<nat>, claimId: Option<nat>,
    status: string, key: Option<string>, scope: Option<string>)
  {
    /** An empty key counts as none, and an empty scope falls back to the type. */
    predicate HasKey() { key.Some? && key.value != "" }

    function Scope(): string { if scope.Some? && scope.value != "" then scope.value else kind }

    function Print(): Fingerprint { Fingerprint(amount, claimId, policyId, status, hash, kind) }

    function ToRow(): Row { Row(user, policyId, claimId, hash, amount, kind, status) }
  }

  /** The request fingerprint, idealised as the fields it digests. */
  datatype Fingerprint = Fingerprint(
    amount: int, claimId: Option<nat>, policyId: Option<nat>, status: string, hash: string, kind: string)

  datatype Row = Row(
    user: nat, policyId: Option<nat>, claimId: Option<nat>, hash: string, amount: int, kind: string, status: string)
  {
    function Print(): Fingerprint { Fingerprint(amount, claimId, policyId, status, hash, kind) }
  }

  datatype Record = Record(user: nat, scope: string, key: string, digest: Fingerprint, rowId: nat)
  {
    predicate Names(req: Request) {
      req.HasKey() && user == req.user && scope == req.Scope() && key == req.key.value
    }
  }

  /** The committed tables, in insertion order; a row's id is its position. */
  datatype Tables = Tables(rows: seq<Row>, records: seq<Record>)

  predicate HashTaken(rows: seq<Row>, hash: string) {
    exists i :: 0 <= i < |rows| && rows[i].hash == hash
  }

  predicate KeyTaken(records: seq<Record>, req: Request) {
    exists i :: 0 <= i < |records| && records[i].Names(req)
  }

  /** The first record under the request's key. */
  function FirstRecord(records: seq<Record>, req: Request): (r: Option<Record>)
    ensures r.Some? <==> KeyTaken(records, req)
    ensures r.Some? ==> r.value in records && r.value.Names(req)
  {
    if records == [] then None
    else if records[0].Names(req) then
      Some(records[0])
    else
      assert records == [records[0]] + records[1..];
      var r := FirstRecord(records[1..], req);
      assert KeyTaken(records[1..], req) <==> KeyTaken(records, req) by {
        if KeyTaken(records, req) {
          var i :| 0 <= i < |records| && records[i].Names(req);
          assert records[1..][i - 1].Names(req);
        }
        if KeyTaken(records[1..], req) {
          var i :| 0 <= i < |records[1..]| && records[1..][i].Names(req);
          assert records[i + 1].Names(req);
        }
      }
      r
  }

  // ------------------------------------------------------------- worker steps

  datatype Outcome = Returned(rowId: nat) | KeyReused | UniqueViolation | Crashed

  /** Where a request stands: about to query, to commit its row, to commit its
      record for a committed row, or finished. */
  datatype Pc = Querying | InsertingRow | InsertingRecord(rowId: nat) | Finished(outcome: Outcome)

  datatype Worker = Worker(req: Request, pc: Pc) {
    /** Whether its call has returned a transaction. */
    predicate Answered() { pc.Finished? && pc.outcome.Returned? }
  }

  function WorkerStep(t: Tables, w: Worker): (Tables, Worker) {
    match w.pc
    case Querying =>
      (var found := FirstRecord(t.records, w.req);
       if found.None? then (t, w.(pc := InsertingRow))
       else if found.value.digest != w.req.Print() then (t, w.(pc := Finished(KeyReused)))
       else (t, w.(pc := Finished(Returned(found.value.rowId)))))
    case InsertingRow =>
      if HashTaken(t.rows, w.req.hash) then (t, w.(pc := Finished(UniqueViolation)))
      else
        (t.(rows := t.rows + [w.req.ToRow()]),
         w.(pc := if w.req.HasKey() then InsertingRecord(|t.rows|) else Finished(Returned(|t.rows|))))
    case InsertingRecord(rowId) =>
      if KeyTaken(t.records, w.req) || !w.req.HasKey() then (t, w.(pc := Finished(UniqueViolation)))
      else
        (t.(records := t.records + [Record(w.req.user, w.req.Scope(), w.req.key.value, w.req.Print(), rowId)]),
         w.(pc := Finished(Returned(rowId))))
    case Finished(_) => (t, w)
  }

  datatype System = System(tables: Tables, workers: seq<Worker>)

  datatype Action = Arrive(req: Request) | Proceed(worker: nat) | Crash(worker: nat)

  function Act(s: System, a: Action): System {
    match a
    case Arrive(req) => s.(workers := s.workers + [Worker(req, Querying)])
    case Proceed(i) =>
      if i >= |s.workers| then s
      else var (t, w) := WorkerStep(s.tables, s.workers[i]); System(t, s.workers[i := w])
    case Crash(i) =>
      if i >= |s.workers| || s.workers[i].pc.Finished? then s
      else s.(workers := s.workers[i := s.workers[i].(pc := Finished(Crashed))])
  }

  function Run(s: System, actions: seq<Action>): System
    decreases |actions|
  {
    if actions == [] then s else Run(Act(s, actions[0]), actions[1..])
  }

  const EMPTY: System := System(Tables([], []), [])

  // ------------------------------------------------------------------ invariant

  ghost predicate HashesUnique(rows: seq<Row>) {
    forall i, j :: 0 <= i < j < |rows| ==> rows[i].hash != rows[j].hash
  }

  ghost predicate KeysUnique(records: seq<Record>) {
    forall i, j :: 0 <= i < j < |records| ==>
      !(records[i].user == records[j].user && records[i].scope == records[j].scope && records[i].key == records[j].key)
  }

  /** A record belongs to the row it points to. */
  ghost predicate Matches(rows: seq<Row>, r: Record) {
    r.rowId < |rows| && rows[r.rowId].Print() == r.digest && rows[r.rowId].user == r.user && r.key != ""
  }

  /** What a worker may rely on: a row it has committed, and, once it has
      answered a keyed request, a record that says so. */
  ghost predicate WorkerOk(t: Tables, w: Worker) {
    match w.pc
    case InsertingRecord(rowId) => w.req.HasKey() && rowId < |t.rows| && t.rows[rowId] == w.req.ToRow()
    case Finished(Returned(rowId)) =>
      && rowId < |t.rows| && t.rows[rowId].Print() == w.req.Print() && t.rows[rowId].user == w.req.user
      && (w.req.HasKey() ==>
            exists r :: r in t.records && r.Names(w.req) && r.rowId == rowId && r.digest == w.req.Print())
    case _ => true
  }

  ghost predicate Inv(s: System) {
    && HashesUnique(s.tables.rows)
    && KeysUnique(s.tables.records)
    && (forall r :: r in s.tables.records ==> Matches(s.tables.rows, r))
    && (forall i :: 0 <= i < |s.workers| ==> WorkerOk(s.tables, s.workers[i]))
  }

  /** Tables only grow, so what a worker relies on stays true. */
  lemma {:induction false} GrowKeepsWorker(t: Tables, t': Tables, w: Worker)
    requires WorkerOk(t, w)
    requires t.rows <= t'.rows && t.records <= t'.records
    ensures WorkerOk(t', w)
  {
    assert forall r :: r in t.records ==> r in t'.records;
  }

  lemma {:induction false} StepKeepsInv(t: Tables, w: Worker)
    requires Inv(System(t, [w]))
    ensures var (t', w') := WorkerStep(t, w);
      && Inv(System(t', [w']))
      && t.rows <= t'.rows && t.records <= t'.records && w'.req == w.req
  {
    assert System(t, [w]).workers[0] == w;
    var (t', w') := WorkerStep(t, w);
    if w.pc.InsertingRecord? && t'.records != t.records {
      var r := t'.records[|t.records|];
      assert r in t'.records;
      forall i | 0 <= i < |t.records|
        ensures !(t.records[i].user == r.user && t.records[i].scope == r.scope && t.records[i].key == r.key)
      {
        assert !t.records[i].Names(w.req);
      }
    }
  }

  lemma {:induction false} ActKeepsInv(s: System, a: Action)
    requires Inv(s)
    ensures Inv(Act(s, a))
    ensures s.tables.rows <= Act(s, a).tables.rows && s.tables.records <= Act(s, a).tables.records
  {
    if a.Proceed? && a.worker < |s.workers| {
      var w := s.workers[a.worker];
      var s' := Act(s, a);
      assert Inv(System(s.tables, [w]));
      StepKeepsInv(s.tables, w);
      var one := System(s'.tables, [s'.workers[a.worker]]);
      assert one.workers[0] == s'.workers[a.worker];
      forall i | 0 <= i < |s'.workers| ensures WorkerOk(s'.tables, s'.workers[i]) {
        if i != a.worker { GrowKeepsWorker(s.tables, s'.tables, s.workers[i]); }
      }
    }
  }

  lemma {:induction false} RunKeepsInv(s: System, actions: seq<Action>)
    requires Inv(s)
    ensures Inv(Run(s, actions))
    decreases |actions|
  {
    if actions != [] {
      ActKeepsInv(s, actions[0]);
      RunKeepsInv(Act(s, actions[0]), actions[1..]);
    }
  }

  // ----------------------------------------------------------------- guarantees

  /** Over any interleaving with any crashes: at most one row per transaction
      hash, at most one record per key, and every record points to a row of the
      same user with the same fingerprint. */
  lemma {:induction false} ReachableTables(actions: seq<Action>)
    ensures var t := Run(EMPTY, actions).tables;
      && HashesUnique(t.rows) && KeysUnique(t.records)
      && forall r :: r in t.records ==> Matches(t.rows, r)
  {
    RunKeepsInv(EMPTY, actions);
  }

  /** Two answered requests under one key were given the same row, and were the
      same request as far as the fingerprint can tell. */
  lemma {:induction false} AnswersAgree(actions: seq<Action>, i: nat, j: nat)
    requires var ws := Run(EMPTY, actions).workers;
      && i < |ws| && j < |ws|
      && ws[i].Answered() && ws[j].Answered()
      && ws[i].req.HasKey() && ws[j].req.HasKey()
      && ws[i].req.user == ws[j].req.user && ws[i].req.Scope() == ws[j].req.Scope()
      && ws[i].req.key == ws[j].req.key
    ensures var ws := Run(EMPTY, actions).workers;
      ws[i].pc.outcome.rowId == ws[j].pc.outcome.rowId && ws[i].req.Print() == ws[j].req.Print()
  {
    RunKeepsInv(EMPTY, actions);
    var s := Run(EMPTY, actions);
    assert WorkerOk(s.tables, s.workers[i]) && WorkerOk(s.tables, s.workers[j]);
    var r :| r in s.tables.records && r.Names(s.workers[i].req) && r.rowId == s.workers[i].pc.outcome.rowId
             && r.digest == s.workers[i].req.Print();
    var q :| q in s.tables.records && q.Names(s.workers[j].req) && q.rowId == s.workers[j].pc.outcome.rowId
             && q.digest == s.workers[j].req.Print();
    var a :| 0 <= a < |s.tables.records| && s.tables.records[a] == r;
    var b :| 0 <= b < |s.tables.records| && s.tables.records[b] == q;
    assert a == b;
  }

  /** However often one request is retried, by however many workers, at most one
      row carries its hash, and every worker it was answered through names that row. */
  lemma {:induction false} RetriesLeaveOneRow(actions: seq<Action>, req: Request, i: nat, j: nat)
    requires var s := Run(EMPTY, actions);
      i < |s.tables.rows| && j < |s.tables.rows|
      && s.tables.rows[i].hash == req.hash && s.tables.rows[j].hash == req.hash
    ensures i == j
    ensures var s := Run(EMPTY, actions);
      forall k :: 0 <= k < |s.workers| && s.workers[k].req == req && s.workers[k].Answered()
        ==> s.workers[k].pc.outcome.rowId == i
  {
    RunKeepsInv(EMPTY, actions);
    var s := Run(EMPTY, actions);
    forall k | 0 <= k < |s.workers| && s.workers[k].req == req && s.workers[k].Answered()
      ensures s.workers[k].pc.outcome.rowId == i
    {
      assert WorkerOk(s.tables, s.workers[k]);
      var row := s.tables.rows[s.workers[k].pc.outcome.rowId];
      assert row.Print().hash == row.hash && req.Print().hash == req.hash;
    }
  }

  // --------------------------------------------------------- who owns a committed row

  /** A row waiting for its record belongs to one worker, and no record names it. */
  ghost predicate Owned(s: System) {
    && (forall j, k :: 0 <= j < k < |s.workers| && s.workers[j].pc.InsertingRecord? && s.workers[k].pc.InsertingRecord?
          ==> s.workers[j].pc.rowId != s.workers[k].pc.rowId)
    && (forall r, k :: r in s.tables.records && 0 <= k < |s.workers| && s.workers[k].pc.InsertingRecord?
          ==> r.rowId != s.workers[k].pc.rowId)
  }

  ghost predicate Good(s: System) { Inv(s) && Owned(s) }

  lemma {:induction false} ActKeepsOwned(s: System, a: Action)
    requires Good(s)
    ensures Owned(Act(s, a))
  {
    if a.Proceed? && a.worker < |s.workers| {
      var w := s.workers[a.worker];
      assert WorkerOk(s.tables, w);
      if w.pc.InsertingRow? { FreshRowUnclaimed(s); }
    }
  }

  lemma {:induction false} FreshRowUnclaimed(s: System)
    requires Inv(s)
    ensures forall k :: 0 <= k < |s.workers| && s.workers[k].pc.InsertingRecord? ==>
              s.workers[k].pc.rowId < |s.tables.rows|
    ensures forall r :: r in s.tables.records ==> r.rowId < |s.tables.rows|
  {
    forall k | 0 <= k < |s.workers| && s.workers[k].pc.InsertingRecord?
      ensures s.workers[k].pc.rowId < |s.tables.rows|
    {
      assert WorkerOk(s.tables, s.workers[k]);
    }
  }

  lemma {:induction false} RunKeepsGood(s: System, actions: seq<Action>)
    requires Good(s)
    ensures Good(Run(s, actions))
    decreases |actions|
  {
    if actions != [] {
      ActKeepsInv(s, actions[0]);
      ActKeepsOwned(s, actions[0]);
      RunKeepsGood(Act(s, actions[0]), actions[1..]);
    }
  }

  // ----------------------------------------------------------- one call at a time

  /** One request run from query to answer with nothing in between. */
  function StoreAlone(t: Tables, req: Request): (Tables, Outcome) {
    var (t1, w1) := WorkerStep(t, Worker(req, Querying));
    var (t2, w2) := WorkerStep(t1, w1);
    var (t3, w3) := WorkerStep(t2, w2);
    (t3, if w3.pc.Finished? then w3.pc.outcome else Crashed)
  }

  ghost predicate TablesOk(t: Tables) { Inv(System(t, [])) }

  /** A sequential call ends, keeps the tables sound, and when it answers, an
      immediate replay answers with the same row and changes nothing. */
  lemma {:induction false} ReplayIsIdempotent(t: Tables, req: Request)
    requires TablesOk(t) && req.HasKey()
    ensures var (t', out) := StoreAlone(t, req);
      && TablesOk(t') && out != Crashed
      && (out.Returned? ==> StoreAlone(t', req) == (t', out))
      && (!out.Returned? ==> t' == t)
  {
    var (t', out) := StoreAlone(t, req);
    AloneKeepsTables(t, req);
    if out.Returned? {
      var r :| r in t'.records && r.Names(req) && r.rowId == out.rowId && r.digest == req.Print();
      SoleRecord(t', req, r);
      RecordedIsAnswered(t', req, r);
    }
  }

  lemma {:induction false} AloneKeepsTables(t: Tables, req: Request)
    requires TablesOk(t)
    ensures var (t', out) := StoreAlone(t, req);
      TablesOk(t') && (out.Returned? ==> WorkerOk(t', Worker(req, Finished(out))))
  {
    var w := Worker(req, Querying);
    assert Inv(System(t, [w]));
    StepKeepsInv(t, w);
    var (t1, w1) := WorkerStep(t, w);
    StepKeepsInv(t1, w1);
    var (t2, w2) := WorkerStep(t1, w1);
    StepKeepsInv(t2, w2);
    var (t3, w3) := WorkerStep(t2, w2);
    assert System(t3, [w3]).workers[0] == w3;
  }

  lemma {:induction false} RecordedIsAnswered(t: Tables, req: Request, r: Record)
    requires FirstRecord(t.records, req) == Some(r) && r.digest == req.Print()
    ensures StoreAlone(t, req) == (t, Returned(r.rowId))
  {
  }

  lemma {:induction false} SoleRecord(t: Tables, req: Request, r: Record)
    requires KeysUnique(t.records) && r in t.records && r.Names(req)
    ensures FirstRecord(t.records, req) == Some(r)
  {
    assert KeyTaken(t.records, req) by {
      var i :| 0 <= i < |t.records| && t.records[i] == r;
      assert t.records[i].Names(req);
    }
    var q := FirstRecord(t.records, req).value;
    var a :| 0 <= a < |t.records| && t.records[a] == r;
    var b :| 0 <= b < |t.records| && t.records[b] == q;
    assert a == b;
  }

  /** Reusing an answered key for a different request is refused and changes
      nothing. */
  lemma {:induction false} DifferentReuseRefused(t: Tables, req: Request, other: Request)
    requires TablesOk(t) && req.HasKey() && StoreAlone(t, req).1.Returned?
    requires other.HasKey() && other.user == req.user && other.Scope() == req.Scope() && other.key == req.key
    requires other.Print() != req.Print()
    ensures var t' := StoreAlone(t, req).0; StoreAlone(t', other) == (t', KeyReused)
  {
    var (t', out) := StoreAlone(t, req);
    ReplayIsIdempotent(t, req);
    var r := FirstRecord(t'.records, req).value;
    assert r.Names(other);
    SoleRecord(t', other, r);
  }

  /** Whether this user, scope and key are the request's: an empty key is none, and a
      missing or empty scope is the transaction type. */
  predicate Carries(req: Request, user: nat, scope: string, key: string) {
    && req.user == user && key != "" && req.key == Some(key)
    && scope == if req.scope == None || req.scope == Some("") then req.kind else req.scope.value
  }

  /** Whether the record digests the request's own details, all six of them. */
  predicate Digests(r: Record, req: Request) {
    && r.digest.amount == req.amount && r.digest.claimId == req.claimId && r.digest.policyId == req.policyId
    && r.digest.status == req.status && r.digest.hash == req.hash && r.digest.kind == req.kind
  }

  /** What one call leaves and answers: the recorded row when the key is recorded with
      these details; else, when key and hash are free, a new row and its record. */
  lemma {:induction false} AloneLeaves(t: Tables, req: Request)
    requires TablesOk(t)
    ensures var (t', out) := StoreAlone(t, req);
      && (forall r :: r in t.records && Carries(req, r.user, r.scope, r.key) ==>
            t' == t && out == if Digests(r, req) then Returned(r.rowId) else KeyReused)
      && ((forall r :: r in t.records ==> !Carries(req, r.user, r.scope, r.key)) ==>
            if exists i :: 0 <= i < |t.rows| && t.rows[i].hash == req.hash then t' == t && out == UniqueViolation
            else Stored(t, req, t', out))
  {
    forall r | r in t.records && Carries(req, r.user, r.scope, r.key)
      ensures FirstRecord(t.records, req) == Some(r)
    {
      SoleRecord(t, req, r);
    }
    if FirstRecord(t.records, req).Some? {
      var r := FirstRecord(t.records, req).value;
      assert r.Names(req) && Matches(t.rows, r);
      assert Carries(req, r.user, r.scope, r.key);
    }
  }

  /** The request's own row is the last, and a keyed request's record points to it. */
  ghost predicate Stored(t: Tables, req: Request, t': Tables, out: Outcome) {
    && t'.rows == t.rows + [Row(req.user, req.policyId, req.claimId, req.hash, req.amount, req.kind, req.status)]
    && out == Returned(|t.rows|)
    && if req.key == None || req.key == Some("") then t'.records == t.records
       else
         && |t'.records| == |t.records| + 1 && t.records <= t'.records
         && var r := t'.records[|t.records|];
         && r.rowId == |t.rows| && Carries(req, r.user, r.scope, r.key) && Digests(r, req)
  }

  /** An answered key is answered again exactly for a request that agrees in all six
      details, by the same row; any other is refused, and neither changes anything. */
  lemma {:induction false} ReusedIff(t: Tables, req: Request, other: Request, scope: string, key: string)
    requires TablesOk(t) && StoreAlone(t, req).1.Returned?
    requires Carries(req, req.user, scope, key) && Carries(other, req.user, scope, key)
    ensures var (t', out) := StoreAlone(t, req);
      StoreAlone(t', other) == (t',
        if other.amount == req.amount && other.claimId == req.claimId && other.policyId == req.policyId
           && other.status == req.status && other.hash == req.hash && other.kind == req.kind
        then out else KeyReused)
  {
    var t' := StoreAlone(t, req).0;
    ReplayIsIdempotent(t, req);
    var r := FirstRecord(t'.records, req).value;
    assert Carries(req, r.user, r.scope, r.key) && Carries(other, r.user, r.scope, r.key);
    RecordedLeaves(t', req, r);
    RecordedLeaves(t', other, r);
  }

  lemma {:induction false} RecordedLeaves(t: Tables, req: Request, r: Record)
    requires TablesOk(t) && r in t.records && Carries(req, r.user, r.scope, r.key)
    ensures StoreAlone(t, req) == (t, if Digests(r, req) then Returned(r.rowId) else KeyReused)
  {
    AloneLeaves(t, req);
  }

  // ------------------------------------------------- requests that can be answered

  /** Recorded with this fingerprint, or both the key and the hash are free. */
  ghost predicate Retriable(t: Tables, req: Request) {
    var found := FirstRecord(t.records, req);
    if found.Some? then found.value.digest == req.Print() else !HashTaken(t.rows, req.hash)
  }

  /** A keyed request run alone is answered exactly then. */
  lemma {:induction false} AnsweredIff(t: Tables, req: Request)
    requires req.HasKey()
    ensures StoreAlone(t, req).1.Returned? <==> Retriable(t, req)
  {
  }

  /** A worker about to record the same request under the same key. */
  predicate AboutToRecord(w: Worker, req: Request) {
    && w.pc.InsertingRecord? && w.req.HasKey() && req.HasKey()
    && w.req.user == req.user && w.req.Scope() == req.Scope() && w.req.key == req.key
    && w.req.Print() == req.Print()
  }

  /** Answered at once, or once such a worker has proceeded. */
  ghost predicate Answerable(s: System, req: Request) {
    || Retriable(s.tables, req)
    || (!KeyTaken(s.tables.records, req) && exists k :: 0 <= k < |s.workers| && AboutToRecord(s.workers[k], req))
  }

  lemma {:induction false} RunAppend(s: System, xs: seq<Action>, ys: seq<Action>)
    ensures Run(s, xs + ys) == Run(Run(s, xs), ys)
    decreases |xs|
  {
    if xs == [] {
      assert xs + ys == ys;
    } else {
      assert (xs + ys)[1..] == xs[1..] + ys;
      RunAppend(Act(s, xs[0]), xs[1..], ys);
    }
  }

  lemma {:induction false} RunOne(s: System, a: Action)
    ensures Run(s, [a]) == Act(s, a)
  {
    assert [a][1..] == [] && Run(Act(s, a), []) == Act(s, a);
  }

  /** A new worker run to its end does what the request does alone. */
  lemma {:induction false} FreshWorker(s: System, req: Request)
    ensures var n := |s.workers|;
      var t := Run(s, [Arrive(req), Proceed(n), Proceed(n), Proceed(n)]);
      |t.workers| == n + 1 && t.workers[n].req == req && t.tables == StoreAlone(s.tables, req).0
      && (StoreAlone(s.tables, req).1.Returned? ==> t.workers[n].Answered())
  {
    var n := |s.workers|;
    var s1 := Act(s, Arrive(req));
    var s2 := Act(s1, Proceed(n));
    var s3 := Act(s2, Proceed(n));
    var s4 := Act(s3, Proceed(n));
    assert [Arrive(req), Proceed(n), Proceed(n), Proceed(n)]
        == [Arrive(req)] + ([Proceed(n)] + ([Proceed(n)] + [Proceed(n)]));
    RunAppend(s, [Arrive(req)], [Proceed(n)] + ([Proceed(n)] + [Proceed(n)]));
    RunAppend(s1, [Proceed(n)], [Proceed(n)] + [Proceed(n)]);
    RunAppend(s2, [Proceed(n)], [Proceed(n)]);
    RunOne(s, Arrive(req));
    RunOne(s1, Proceed(n));
    RunOne(s2, Proceed(n));
    RunOne(s3, Proceed(n));
  }

  /** An answered worker shows that its request is recorded. */
  lemma {:induction false} AnsweredIsRetriable(s: System, k: nat)
    requires Inv(s) && k < |s.workers| && s.workers[k].Answered() && s.workers[k].req.HasKey()
    ensures Retriable(s.tables, s.workers[k].req)
  {
    var w := s.workers[k];
    assert WorkerOk(s.tables, w);
    var r :| r in s.tables.records && r.Names(w.req) && r.rowId == w.pc.outcome.rowId && r.digest == w.req.Print();
    SoleRecord(s.tables, w.req, r);
  }

  /** No step makes an unanswerable request answerable. */
  lemma {:induction false} ActKeepsUnanswerable(s: System, a: Action, req: Request)
    requires Good(s) && req.HasKey() && !Answerable(s, req)
    ensures !Answerable(Act(s, a), req)
  {
    var s' := Act(s, a);
    ActKeepsInv(s, a);
    var found := FirstRecord(s.tables.records, req);
    if found.Some? {
      assert found.value in s'.tables.records;
      SoleRecord(s'.tables, req, found.value);
    } else if a.Proceed? && a.worker < |s.workers| {
      StepKeepsUnrecorded(s, a.worker, req);
    }
  }

  lemma {:induction false} StepKeepsUnrecorded(s: System, k: nat, req: Request)
    requires Good(s) && req.HasKey() && !Answerable(s, req) && !KeyTaken(s.tables.records, req) && k < |s.workers|
    ensures !Answerable(Act(s, Proceed(k)), req)
  {
    var s', w := Act(s, Proceed(k)), s.workers[k];
    ActKeepsInv(s, Proceed(k));
    assert WorkerOk(s.tables, w) && !AboutToRecord(w, req);
    assert HashTaken(s'.tables.rows, req.hash) by {
      var i :| 0 <= i < |s.tables.rows| && s.tables.rows[i].hash == req.hash;
      assert s'.tables.rows[i].hash == req.hash;
    }
    assert !AboutToRecord(s'.workers[k], req);
    forall j | 0 <= j < |s'.workers| ensures !AboutToRecord(s'.workers[j], req) {
      if j != k { assert s'.workers[j] == s.workers[j]; }
    }
    if KeyTaken(s'.tables.records, req) {
      var r := s'.tables.records[|s.tables.records|];
      var i :| 0 <= i < |s'.tables.records| && s'.tables.records[i].Names(req);
      assert forall j :: 0 <= j < |s.tables.records| ==> s'.tables.records[j] == s.tables.records[j];
      assert i == |s.tables.records|;
      assert r in s'.tables.records && r.Names(req) && r.digest == w.req.Print() != req.Print();
      SoleRecord(s'.tables, req, r);
    }
  }

  lemma {:induction false} RunKeepsUnanswerable(s: System, actions: seq<Action>, req: Request)
    requires Good(s) && req.HasKey() && !Answerable(s, req)
    ensures Good(Run(s, actions)) && !Answerable(Run(s, actions), req)
    decreases |actions|
  {
    if actions != [] {
      ActKeepsInv(s, actions[0]);
      ActKeepsOwned(s, actions[0]);
      ActKeepsUnanswerable(s, actions[0], req);
      RunKeepsUnanswerable(Act(s, actions[0]), actions[1..], req);
    }
  }

  /** Some continuation of this history has answered the request. */
  ghost predicate EverAnswered(s: System, req: Request) {
    exists more :: AnsweredAfter(s, more, req)
  }

  ghost predicate AnsweredAfter(s: System, more: seq<Action>, req: Request) {
    var ws := Run(s, more).workers;
    exists k :: 0 <= k < |ws| && ws[k].req == req && ws[k].Answered()
  }

  /** In every reachable state a keyed request can still be answered, by any
      interleaving of any retries, exactly when it is recorded with its fingerprint,
      its key and hash are free, or a worker is about to record it. */
  lemma {:induction false} AnswerableIff(actions: seq<Action>, req: Request)
    requires req.HasKey()
    ensures var s := Run(EMPTY, actions); EverAnswered(s, req) <==> Answerable(s, req)
  {
    var s := Run(EMPTY, actions);
    RunKeepsGood(EMPTY, actions);
    if Retriable(s.tables, req) {
      RetryAnswers(s, [], req);
    } else if Answerable(s, req) {
      var k :| 0 <= k < |s.workers| && AboutToRecord(s.workers[k], req);
      RunOne(s, Proceed(k));
      RecordingSucceeds(s, k, req);
      RetryAnswers(s, [Proceed(k)], req);
    } else if EverAnswered(s, req) {
      var more :| AnsweredAfter(s, more, req);
      RunKeepsUnanswerable(s, more, req);
      var t := Run(s, more);
      var k :| 0 <= k < |t.workers| && t.workers[k].req == req && t.workers[k].Answered();
      AnsweredIsRetriable(t, k);
    }
  }

  lemma {:induction false} RetryAnswers(s: System, first: seq<Action>, req: Request)
    requires req.HasKey() && Retriable(Run(s, first).tables, req)
    ensures EverAnswered(s, req)
  {
    var t := Run(s, first);
    var n := |t.workers|;
    var retry := [Arrive(req), Proceed(n), Proceed(n), Proceed(n)];
    AnsweredIff(t.tables, req);
    FreshWorker(t, req);
    RunAppend(s, first, retry);
    assert AnsweredAfter(s, first + retry, req) by {
      assert Run(s, first + retry).workers[n].Answered();
    }
  }

  lemma {:induction false} RecordingSucceeds(s: System, k: nat, req: Request)
    requires Good(s) && req.HasKey() && k < |s.workers| && AboutToRecord(s.workers[k], req)
    requires !KeyTaken(s.tables.records, req)
    ensures Retriable(Act(s, Proceed(k)).tables, req)
  {
    var t, w := Act(s, Proceed(k)).tables, s.workers[k];
    ActKeepsInv(s, Proceed(k));
    assert !KeyTaken(s.tables.records, w.req) by {
      assert forall r: Record :: r.Names(w.req) <==> r.Names(req);
    }
    var r := t.records[|s.tables.records|];
    assert r in t.records && r.Names(req) && r.digest == req.Print();
    SoleRecord(t, req, r);
  }

  // -------------------------------------------------- workers that end unanswered

  /** Whether the action ends worker k without an answer: a crash anywhere, a key
      reused, a hash taken, or the record's key taken by another worker meanwhile. */
  predicate EndsUnanswered(s: System, a: Action, k: nat) {
    && k < |s.workers| && !s.workers[k].pc.Finished? && (a == Crash(k) || a == Proceed(k))
    && Act(s, a).workers[k].pc.Finished? && !Act(s, a).workers[k].Answered()
  }

  /** In every reachable state, a keyed request whose worker ends unanswered can
      still be answered exactly when the worker had not committed its row and the
      request was answerable before.  So a crash between the two commits, or a lost
      race for the key there, is final; anywhere else it makes no difference. */
  lemma {:induction false} EndedIsAnswerableIff(actions: seq<Action>, a: Action, k: nat)
    requires var s := Run(EMPTY, actions); EndsUnanswered(s, a, k) && s.workers[k].req.HasKey()
    ensures var s := Run(EMPTY, actions); var req := s.workers[k].req;
      EverAnswered(Act(s, a), req) <==> !s.workers[k].pc.InsertingRecord? && EverAnswered(s, req)
  {
    var s := Run(EMPTY, actions);
    var req, t := s.workers[k].req, Act(s, a);
    RunKeepsGood(EMPTY, actions);
    RunAppend(EMPTY, actions, [a]);
    RunOne(s, a);
    AnswerableIff(actions, req);
    AnswerableIff(actions + [a], req);
    if s.workers[k].pc.InsertingRecord? {
      ActKeepsInv(s, a);
      CommittedEndsStranded(s, a, k);
      StrandedIsUnanswerable(t, req);
    } else {
      UncommittedEndChangesNothing(s, a, k);
    }
  }

  lemma {:induction false} UncommittedEndChangesNothing(s: System, a: Action, k: nat)
    requires EndsUnanswered(s, a, k) && !s.workers[k].pc.InsertingRecord?
    ensures Act(s, a).tables == s.tables
    ensures forall req :: Answerable(Act(s, a), req) <==> Answerable(s, req)
  {
    var t := Act(s, a);
    forall req ensures Answerable(t, req) <==> Answerable(s, req) {
      if j :| 0 <= j < |t.workers| && AboutToRecord(t.workers[j], req) { assert AboutToRecord(s.workers[j], req); }
      if j :| 0 <= j < |s.workers| && AboutToRecord(s.workers[j], req) { assert AboutToRecord(t.workers[j], req); }
    }
  }

  /** A row nobody will ever record: no record names it and no worker is about to. */
  ghost predicate StrandedAt(s: System, hash: string, i: nat)
    requires i < |s.tables.rows|
  {
    && s.tables.rows[i].hash == hash
    && (forall r :: r in s.tables.records ==> r.rowId != i)
    && (forall w :: 0 <= w < |s.workers| ==> s.workers[w].pc != InsertingRecord(i))
  }

  ghost predicate Stranded(s: System, hash: string) {
    exists i :: 0 <= i < |s.tables.rows| && StrandedAt(s, hash, i)
  }

  /** Every record and every worker about to record with this hash is for its one row. */
  lemma {:induction false} RowOfHash(s: System, hash: string, i: nat)
    requires Inv(s) && i < |s.tables.rows| && s.tables.rows[i].hash == hash
    ensures forall r :: r in s.tables.records && r.digest.hash == hash ==> r.rowId == i
    ensures forall k :: 0 <= k < |s.workers| && s.workers[k].pc.InsertingRecord? && s.workers[k].req.hash == hash
              ==> s.workers[k].pc.rowId == i
  {
    assert forall j :: 0 <= j < |s.tables.rows| ==> s.tables.rows[j].Print().hash == s.tables.rows[j].hash;
    forall k | 0 <= k < |s.workers| && s.workers[k].pc.InsertingRecord? && s.workers[k].req.hash == hash
      ensures s.workers[k].pc.rowId == i
    {
      assert WorkerOk(s.tables, s.workers[k]);
    }
  }

  lemma {:induction false} StrandedIsUnanswerable(s: System, req: Request)
    requires Inv(s) && Stranded(s, req.hash)
    ensures !Answerable(s, req)
  {
    var i :| 0 <= i < |s.tables.rows| && StrandedAt(s, req.hash, i);
    RowOfHash(s, req.hash, i);
    assert HashTaken(s.tables.rows, req.hash);
    assert forall r: Record :: r.digest == req.Print() ==> r.digest.hash == req.hash;
    forall w: Worker ensures AboutToRecord(w, req) ==> w.req.hash == req.hash {
      assert w.req.Print().hash == w.req.hash;
    }
  }

  /** Once its row is stranded, no keyed request with that hash is ever answered. */
  lemma {:induction false} StrandedForever(actions: seq<Action>, req: Request)
    requires Stranded(Run(EMPTY, actions), req.hash) && req.HasKey()
    ensures !EverAnswered(Run(EMPTY, actions), req)
  {
    RunKeepsGood(EMPTY, actions);
    StrandedIsUnanswerable(Run(EMPTY, actions), req);
    AnswerableIff(actions, req);
  }

  lemma {:induction false} CommittedEndsStranded(s: System, a: Action, k: nat)
    requires Good(s) && EndsUnanswered(s, a, k) && s.workers[k].pc.InsertingRecord?
    ensures Act(s, a).tables == s.tables
    ensures Stranded(Act(s, a), s.workers[k].req.hash)
  {
    var w, t := s.workers[k], Act(s, a);
    assert WorkerOk(s.tables, w);
    assert StrandedAt(t, w.req.hash, w.pc.rowId);
  }

  /** A request without a key blocks every keyed request with its hash: after its
      row none of them is ever answered. */
  lemma {:induction false} UnkeyedBlocks(actions: seq<Action>, k: nat, req: Request)
    requires var s := Run(EMPTY, actions);
      && k < |s.workers| && s.workers[k].pc.InsertingRow? && !s.workers[k].req.HasKey()
      && !HashTaken(s.tables.rows, s.workers[k].req.hash)
      && req.HasKey() && req.hash == s.workers[k].req.hash
    ensures var t := Act(Run(EMPTY, actions), Proceed(k));
      t.workers[k].Answered() && !EverAnswered(t, req)
  {
    var s := Run(EMPTY, actions);
    var t := Act(s, Proceed(k));
    RunKeepsGood(EMPTY, actions);
    RunAppend(EMPTY, actions, [Proceed(k)]);
    RunOne(s, Proceed(k));
    FreshRowUnclaimed(s);
    assert StrandedAt(t, req.hash, |s.tables.rows|);
    StrandedForever(actions + [Proceed(k)], req);
  }

  /** A crash between the two commits, in any reachable state. */
  lemma {:induction false} CrashStrands(actions: seq<Action>, k: nat)
    requires var s := Run(EMPTY, actions); k < |s.workers| && s.workers[k].pc.InsertingRecord?
    ensures var s := Run(EMPTY, actions); !EverAnswered(Act(s, Crash(k)), s.workers[k].req)
  {
    RunKeepsGood(EMPTY, actions);
    assert WorkerOk(Run(EMPTY, actions).tables, Run(EMPTY, actions).workers[k]);
    EndedIsAnswerableIff(actions, Crash(k), k);
  }

  /** No crash is needed: two requests under one key, stepped in turn, each commit a
      row; the second loses the record and is never answered. */
  lemma {:induction false} RaceStrands(a: Request, b: Request)
    requires a.HasKey() && b.HasKey() && a.user == b.user && a.Scope() == b.Scope() && a.key == b.key
      && a.hash != b.hash
    ensures
      var race := [Arrive(a), Arrive(b), Proceed(0), Proceed(1), Proceed(0), Proceed(1), Proceed(0)];
      var s := Run(EMPTY, race);
      && |s.workers| == 2 && s.workers[0].Answered() && s.workers[1].pc == InsertingRecord(1)
      && EndsUnanswered(s, Proceed(1), 1) && !EverAnswered(Act(s, Proceed(1)), b)
  {
    var race := [Arrive(a), Arrive(b), Proceed(0), Proceed(1), Proceed(0), Proceed(1), Proceed(0)];
    RaceRuns(a, b);
    var s7 := Run(EMPTY, race);
    assert KeyTaken(s7.tables.records, b) by { assert s7.tables.records[0].Names(b); }
    EndedIsAnswerableIff(race, Proceed(1), 1);
  }

  lemma {:induction false} RaceRuns(a: Request, b: Request)
    requires a.HasKey() && b.HasKey() && a.hash != b.hash
    ensures
      Run(EMPTY, [Arrive(a), Arrive(b), Proceed(0), Proceed(1), Proceed(0), Proceed(1), Proceed(0)])
        == System(Tables([a.ToRow(), b.ToRow()], [Record(a.user, a.Scope(), a.key.value, a.Print(), 0)]),
                  [Worker(a, Finished(Returned(0))), Worker(b, InsertingRecord(1))])
  {
    var race := [Arrive(a), Arrive(b), Proceed(0), Proceed(1), Proceed(0), Proceed(1), Proceed(0)];
    var s2 := System(Tables([], []), [Worker(a, Querying), Worker(b, Querying)]);
    var s4 := System(Tables([], []), [Worker(a, InsertingRow), Worker(b, InsertingRow)]);
    var s6 := System(Tables([a.ToRow(), b.ToRow()], []),
                     [Worker(a, InsertingRecord(0)), Worker(b, InsertingRecord(1))]);
    var first, middle, last := [Arrive(a), Arrive(b)], [Proceed(0), Proceed(1)], [Proceed(0)];
    assert race == first + (middle + (middle + last));
    RunAppend(EMPTY, first, middle + (middle + last));
    RunAppend(s2, middle, middle + last);
    RunAppend(s4, middle, last);
    RunTwo(EMPTY, Arrive(a), Arrive(b));
    RunTwo(s2, Proceed(0), Proceed(1));
    RunTwo(s4, Proceed(0), Proceed(1));
    RunOne(s6, Proceed(0));
    assert Act(Act(EMPTY, Arrive(a)), Arrive(b)) == s2;
    assert Act(Act(s2, Proceed(0)), Proceed(1)) == s4;
    assert Act(Act(s4, Proceed(0)), Proceed(1)) == s6;
  }

  lemma {:induction false} RunTwo(s: System, a: Action, b: Action)
    ensures Run(s, [a, b]) == Act(Act(s, a), b)
  {
    assert [a, b] == [a] + [b];
    RunAppend(s, [a], [b]);
    RunOne(s, a);
    RunOne(Act(s, a), b);
  }

  /** The service method in its own form: query, commit the row, commit the record. */
  class TransactionStore {
    var rows: seq<Row>
    var records: seq<Record>

    constructor ()
      ensures Contents() == Tables([], [])
    {
      rows, records := [], [];
    }

    function Contents(): Tables
      reads this
    {
      Tables(rows, records)
    }

    /** The unique constraints refuse a second row with a hash and a second record
        with a key; the record's own insert cannot fail when nothing ran in between. */
    method StoreTransactionRecord(req: Request) returns (out: Outcome)
      modifies this
      ensures (Contents(), out) == StoreAlone(old(Contents()), req)
    {
      if req.HasKey() {
        var existing := FirstRecord(records, req);
        if existing.Some? {
          if existing.value.digest != req.Print() { return KeyReused; }
          return Returned(existing.value.rowId);
        }
      }
      assert FirstRecord(records, req).None?;
      if HashTaken(rows, req.hash) { return UniqueViolation; }
      var rowId := |rows|;
      rows := rows + [req.ToRow()];
      if req.HasKey() {
        records := records + [Record(req.user, req.Scope(), req.key.value, req.Print(), rowId)];
      }
      return Returned(rowId);
    }
  }
}
