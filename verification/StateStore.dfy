/** The managed-operation ledger of apps/agent/src/state-store.js: rows and
    transactions as values, and the store object that updates them in place. */
module StateStore {
  import opened Results
  import opened Text

  type SessionId = string
  type OperationId = string

  datatype Status = Accepted | Running | Succeeded | Failed | Interrupted | Unknown

  datatype Reason =
    | ExitZero | ExitNonzero | ControlRecordInvalid | SessionLost | SessionHostRestart
    | SpawnResultUncertain | ControlChannelUnavailable | OwnerInterrupt

  datatype Operation = Operation(
    session: SessionId, key: string, fingerprint: string, status: Status,
    acceptedAt: int, startedAt: Option<int>, completedAt: Option<int>,
    exitCode: Option<nat>, reason: Option<Reason>, startCursor: nat)

  datatype Session = Session(closed: bool)

  datatype Database = Database(
    sessions: map<SessionId, Session>, operations: map<OperationId, Operation>)

  // The statuses covered by the partial unique index operations_one_writer.
  predicate Active(s: Status) { s in {Accepted, Running, Unknown} }

  ghost predicate ActiveIn(db: Database, session: SessionId, id: OperationId) {
    id in db.operations && db.operations[id].session == session && Active(db.operations[id].status)
  }

  ghost predicate HoldsKey(db: Database, session: SessionId, key: string, id: OperationId) {
    id in db.operations && db.operations[id].session == session && db.operations[id].key == key
  }

  /** What SQLite enforces: the foreign key, UNIQUE(session_id, idempotency_key)
      and the one-writer index. */
  ghost predicate Constraints(db: Database) {
    && (forall id | id in db.operations :: db.operations[id].session in db.sessions)
    && (forall a, b, session, key ::
          HoldsKey(db, session, key, a) && HoldsKey(db, session, key, b) ==> a == b)
    && (forall a, b, session ::
          ActiveIn(db, session, a) && ActiveIn(db, session, b) ==> a == b)
  }

  // ---------- admission ----------

  datatype Request = Request(
    id: OperationId, session: SessionId, key: string, fingerprint: string, at: int, startCursor: nat)

  datatype Outcome =
    | Fresh
    | Duplicate(existing: OperationId)
    | Conflict
    | Busy(active: OperationId)
    | AdmissionFailed

  function NewOperation(req: Request): Operation {
    Operation(req.session, req.key, req.fingerprint, Accepted, req.at, None, None, None, None, req.startCursor)
  }

  ghost function Decide(db: Database, req: Request): Outcome {
    if exists id :: HoldsKey(db, req.session, req.key, id) then
      var id :| HoldsKey(db, req.session, req.key, id);
      if db.operations[id].fingerprint == req.fingerprint then Duplicate(id) else Conflict
    else if exists id :: ActiveIn(db, req.session, id) then
      var id :| ActiveIn(db, req.session, id);
      Busy(id)
    else if req.session !in db.sessions || req.id in db.operations then AdmissionFailed
    else Fresh
  }

  ghost function Admit(db: Database, req: Request): Database {
    if Decide(db, req).Fresh? then db.(operations := db.operations[req.id := NewOperation(req)]) else db
  }

  /** A key finds its own row, and conflicts exactly when another command is bound to it; a
      new key is refused while the session has an active operation; otherwise the row is new
      and says what was asked, and nothing else changes. */
  lemma DecidesExactly(db: Database, req: Request)
    requires Constraints(db)
    ensures var bound := exists id :: HoldsKey(db, req.session, req.key, id);
            var busy := exists id :: ActiveIn(db, req.session, id);
            var outcome, after := Decide(db, req), Admit(db, req);
            && (forall id :: outcome == Duplicate(id) <==>
                  HoldsKey(db, req.session, req.key, id) && db.operations[id].fingerprint == req.fingerprint)
            && (outcome == Conflict <==>
                  exists id ::
                    HoldsKey(db, req.session, req.key, id) && db.operations[id].fingerprint != req.fingerprint)
            && (forall id :: outcome == Busy(id) <==> !bound && ActiveIn(db, req.session, id))
            && (outcome == Fresh <==> !bound && !busy && req.session in db.sessions && req.id !in db.operations)
            && (outcome != Fresh ==> after == db)
            && (outcome == Fresh ==>
                  && after.sessions == db.sessions && after.operations.Keys == db.operations.Keys + {req.id}
                  && (forall id | id in db.operations :: after.operations[id] == db.operations[id])
                  && var row := after.operations[req.id];
                  && row.session == req.session && row.key == req.key && row.fingerprint == req.fingerprint
                  && row.status == Accepted && row.acceptedAt == req.at && row.startCursor == req.startCursor
                  && row.startedAt == None && row.completedAt == None && row.exitCode == None && row.reason == None)
  {
  }

  // ---------- unconditional row update ----------

  datatype Fields = Fields(
    startedAt: Option<int>, completedAt: Option<int>, exitCode: Option<nat>, reason: Option<Reason>)

  function Coalesce<T>(first: Option<T>, second: Option<T>): Option<T> {
    if first.Some? then first else second
  }

  function Write(op: Operation, status: Status, fields: Fields): Operation {
    op.(status := status,
        startedAt := Coalesce(fields.startedAt, op.startedAt),
        completedAt := Coalesce(fields.completedAt, op.completedAt),
        exitCode := fields.exitCode,
        reason := fields.reason)
  }

  /** The one-writer index refuses the statement. */
  ghost predicate Refused(db: Database, id: OperationId, status: Status) {
    && id in db.operations
    && Active(status)
    && exists other :: other != id && ActiveIn(db, db.operations[id].session, other)
  }

  ghost function Update(db: Database, id: OperationId, status: Status, fields: Fields): Database {
    if id !in db.operations || Refused(db, id, status) then db
    else db.(operations := db.operations[id := Write(db.operations[id], status, fields)])
  }

  lemma UpdateKeepsConstraints(db: Database, id: OperationId, status: Status, fields: Fields)
    requires Constraints(db)
    ensures Constraints(Update(db, id, status, fields))
  {
    var post := Update(db, id, status, fields);
    forall a, session, key ensures HoldsKey(post, session, key, a) == HoldsKey(db, session, key, a) {}
    forall a, session | a != id ensures ActiveIn(post, session, a) == ActiveIn(db, session, a) {}
  }

  lemma AdmitKeepsConstraints(db: Database, req: Request)
    requires Constraints(db)
    ensures Constraints(Admit(db, req))
  {
    var post := Admit(db, req);
    if Decide(db, req).Fresh? {
      forall a, session, key | a != req.id
        ensures HoldsKey(post, session, key, a) == HoldsKey(db, session, key, a) {}
      forall a, session | a != req.id ensures ActiveIn(post, session, a) == ActiveIn(db, session, a) {}
    }
  }

  // ---------- completion evidence ----------

  /** A completion file: its text and its modification time. */
  datatype RecordFile = RecordFile(raw: string, mtime: int)

  datatype Evidence = Missing | Invalid | Exit(code: nat, at: int)

  function Body(raw: string): string { if raw != [] && raw[|raw| - 1] == '\n' then raw[..|raw| - 1] else raw }

  /** The regular expression ^(0|[1-9]\d{0,2})\n?$ and the bound 255. */
  function ParseExitRecord(raw: string): Option<nat> {
    var body := Body(raw);
    if Canonical(body) && |body| <= 3 && DigitsValue(body) <= 255 then Some(DigitsValue(body)) else None
  }

  /** The text is what the shell wrapper prints for an exit code. */
  predicate Records(raw: string, n: nat) { n <= 255 && (raw == Decimal(n) || raw == Decimal(n) + "\n") }

  lemma BodyIs(raw: string, text: string)
    requires text != [] && text[|text| - 1] != '\n'
    ensures Body(raw) == text <==> raw == text || raw == text + "\n"
  {
    if raw != [] && raw[|raw| - 1] == '\n' {
      assert raw == raw[..|raw| - 1] + "\n";
    }
    if raw == text + "\n" {
      assert raw[..|raw| - 1] == text;
    }
  }

  lemma NumeralIs(s: string, n: nat)
    ensures Canonical(s) && DigitsValue(s) == n <==> s == Decimal(n)
    ensures n <= 255 ==> |Decimal(n)| <= 3
    ensures Decimal(n) != [] && Decimal(n)[|Decimal(n)| - 1] != '\n'
  {
    DecimalReadsBack(n);
    if Canonical(s) {
      CanonicalIsDecimal(s);
    }
    if n <= 255 {
      assert |Decimal(n / 10)| <= 2;
    }
    LastDigit(Decimal(n));
  }

  lemma LastDigit(s: string)
    requires Canonical(s)
    ensures s[|s| - 1] != '\n'
  {
  }

  /** Exactly the numerals of 0..255, with at most one final newline, are read,
      each as the number it denotes: what the shell wrapper prints comes back. */
  lemma ExitRecordReadsBack(raw: string, n: nat)
    ensures ParseExitRecord(raw) == Some(n) <==> Records(raw, n)
  {
    hide Body, Canonical, DigitsValue, Decimal;
    NumeralIs(Body(raw), n);
    BodyIs(raw, Decimal(n));
  }

  function Interpret(file: RecordFile): Evidence {
    match ParseExitRecord(file.raw)
    case Some(code) => Exit(code, file.mtime)
    case None => Invalid
  }

  function Examine(records: map<OperationId, RecordFile>, id: OperationId): Evidence {
    if id in records then Interpret(records[id]) else Missing
  }

  lemma ExaminesExactly(records: map<OperationId, RecordFile>, id: OperationId)
    ensures var e := Examine(records, id);
            && (e == Missing <==> id !in records)
            && (forall n: nat, at: int ::
                  e == Exit(n, at) <==> id in records && at == records[id].mtime && Records(records[id].raw, n))
            && (e == Invalid <==> id in records && forall n: nat :: !Records(records[id].raw, n))
  {
    if id in records {
      forall n: nat ensures ParseExitRecord(records[id].raw) == Some(n) <==> Records(records[id].raw, n) {
        ExitRecordReadsBack(records[id].raw, n);
      }
    }
  }

  /** The row update that completion evidence leads to. */
  function Verdict(e: Evidence): Status {
    match e
    case Exit(code, _) => if code == 0 then Succeeded else Failed
    case _ => Unknown
  }

  function VerdictFields(e: Evidence, absent: Reason, now: int): Fields {
    match e
    case Exit(code, at) => Fields(None, Some(at), Some(code), Some(if code == 0 then ExitZero else ExitNonzero))
    case Invalid => Fields(None, Some(now), None, Some(ControlRecordInvalid))
    case Missing => Fields(None, Some(now), None, Some(absent))
  }

  // ---------- what evidence leads to ----------

  /** The columns that no outcome changes. */
  predicate SameRequest(a: Operation, b: Operation) {
    && b.session == a.session && b.key == a.key && b.fingerprint == a.fingerprint
    && b.acceptedAt == a.acceptedAt && b.startedAt == a.startedAt && b.startCursor == a.startCursor
  }

  predicate Ends(before: Operation, after: Operation, status: Status, at: int, code: Option<nat>, reason: Reason) {
    && SameRequest(before, after) && after.status == status && after.completedAt == Some(at)
    && after.exitCode == code && after.reason == Some(reason)
  }

  /** The row reports what the control record says: the exit code and the time of a record of
      that code, an uncertain outcome when there is no record or one of nothing. */
  ghost predicate Reports(before: Operation, after: Operation, file: Option<RecordFile>, absent: Reason, now: int) {
    match file
    case None => Ends(before, after, Unknown, now, None, absent)
    case Some(f) =>
      && (Records(f.raw, 0) ==> Ends(before, after, Succeeded, f.mtime, Some(0), ExitZero))
      && (forall n: nat | n > 0 && Records(f.raw, n) :: Ends(before, after, Failed, f.mtime, Some(n), ExitNonzero))
      && ((forall n: nat :: !Records(f.raw, n)) ==> Ends(before, after, Unknown, now, None, ControlRecordInvalid))
  }

  function FileOf(records: map<OperationId, RecordFile>, id: OperationId): Option<RecordFile> {
    if id in records then Some(records[id]) else None
  }

  lemma VerdictSettles(op: Operation, file: Option<RecordFile>, absent: Reason, now: int)
    ensures var e := if file.Some? then Interpret(file.value) else Missing;
            Reports(op, Write(op, Verdict(e), VerdictFields(e, absent, now)), file, absent, now)
  {
    hide ParseExitRecord, Records;
    if file.Some? {
      forall n: nat ensures ParseExitRecord(file.value.raw) == Some(n) <==> Records(file.value.raw, n) {
        ExitRecordReadsBack(file.value.raw, n);
      }
    }
  }

  function Judged(op: Operation, e: Evidence, at: int): Operation {
    Write(op, Verdict(e), VerdictFields(e, SessionHostRestart, at))
  }

  lemma ExaminedSettles(op: Operation, records: map<OperationId, RecordFile>, id: OperationId, at: int)
    ensures Reports(op, Judged(op, Examine(records, id), at), FileOf(records, id), SessionHostRestart, at)
  {
    VerdictSettles(op, FileOf(records, id), SessionHostRestart, at);
  }

  // ---------- purge ----------

  predicate OwnedBy(db: Database, session: SessionId, id: OperationId) {
    id in db.operations && db.operations[id].session == session
  }

  /** DELETE FROM sessions, with ON DELETE CASCADE on the operations. */
  function PurgeSession(db: Database, session: SessionId): Database {
    Database(db.sessions - {session},
             map id | id in db.operations && db.operations[id].session != session :: db.operations[id])
  }

  /** The session goes with all its operations, and nothing else does. */
  lemma PurgesExactly(db: Database, session: SessionId)
    ensures var after := PurgeSession(db, session);
            && (forall s :: s in after.sessions <==> s in db.sessions && s != session)
            && (forall s | s in after.sessions :: after.sessions[s] == db.sessions[s])
            && (forall id :: id in after.operations <==>
                               id in db.operations && db.operations[id].session != session)
            && (forall id | id in after.operations :: after.operations[id] == db.operations[id])
  {
  }

  lemma PurgeKeepsConstraints(db: Database, session: SessionId)
    requires Constraints(db)
    ensures Constraints(PurgeSession(db, session))
  {
    var post := PurgeSession(db, session);
    forall a, s, key | HoldsKey(post, s, key, a) ensures HoldsKey(db, s, key, a) {}
    forall a, s | ActiveIn(post, s, a) ensures ActiveIn(db, s, a) {}
  }

  // ---------- the store object ----------

  predicate Pending(s: Status) { s in {Accepted, Running} }

  /** The ledger after reconciliation, row by row: an accepted or running row reports what
      its own control record says, every other row is untouched. */
  ghost predicate Reconciled(before: Database, records: map<OperationId, RecordFile>, at: int, after: Database) {
    && after.sessions == before.sessions
    && after.operations.Keys == before.operations.Keys
    && forall id | id in before.operations ::
         if Pending(before.operations[id].status)
         then Reports(before.operations[id], after.operations[id], FileOf(records, id), SessionHostRestart, at)
         else after.operations[id] == before.operations[id]
  }

  class Store {
    var sessions: map<SessionId, Session>
    var operations: map<OperationId, Operation>
    var records: map<OperationId, RecordFile>

    ghost function State(): Database reads this { Database(sessions, operations) }

    ghost predicate Valid() reads this { Constraints(State()) }

    constructor ()
      ensures Valid() && State() == Database(map[], map[]) && records == map[]
    {
      sessions, operations, records := map[], map[], map[];
    }

    method AdmitOperation(req: Request) returns (outcome: Outcome)
      requires Valid()
      modifies this`operations
      ensures Valid()
      ensures outcome == Decide(old(State()), req)
      ensures State() == Admit(old(State()), req)
    {
      AdmitKeepsConstraints(State(), req);
      ghost var db := State();
      if id :| id in operations && operations[id].session == req.session && operations[id].key == req.key {
        assert HoldsKey(db, req.session, req.key, id);
        return if operations[id].fingerprint != req.fingerprint then Conflict else Duplicate(id);
      }
      assert !exists id :: HoldsKey(db, req.session, req.key, id);
      if id :| id in operations && operations[id].session == req.session && Active(operations[id].status) {
        assert ActiveIn(db, req.session, id);
        return Busy(id);
      }
      assert !exists id :: ActiveIn(db, req.session, id);
      if req.session !in sessions || req.id in operations {
        return AdmissionFailed;
      }
      operations := operations[req.id := NewOperation(req)];
      return Fresh;
    }

    /** `ok` is false when the one-writer index refuses the statement, which throws. */
    method UpdateOperation(id: OperationId, status: Status, fields: Fields) returns (ok: bool)
      requires Valid()
      modifies this`operations
      ensures Valid()
      ensures ok <==> !Refused(old(State()), id, status)
      ensures State() == Update(old(State()), id, status, fields)
    {
      UpdateKeepsConstraints(State(), id, status, fields);
      ghost var db := State();
      if id !in operations {
        return true;
      }
      if Active(status) {
        if other :| other in operations && other != id
                    && operations[other].session == operations[id].session
                    && Active(operations[other].status) {
          assert ActiveIn(db, operations[id].session, other);
          return false;
        }
        assert !exists other :: other != id && ActiveIn(db, operations[id].session, other);
      }
      operations := operations[id := Write(operations[id], status, fields)];
      return true;
    }

    method InterruptActiveOperation(session: SessionId, at: int) returns (hit: Option<OperationId>)
      requires Valid()
      modifies this`operations
      ensures Valid()
      ensures hit.None? ==> State() == old(State()) && forall id :: !ActiveIn(old(State()), session, id)
      ensures hit.Some? ==>
                && ActiveIn(old(State()), session, hit.value)
                && State() == Update(old(State()), hit.value, Interrupted,
                                     Fields(None, Some(at), None, Some(OwnerInterrupt)))
    {
      ghost var db := State();
      if id :| id in operations && operations[id].session == session && Active(operations[id].status) {
        assert ActiveIn(db, session, id);
        var _ := UpdateOperation(id, Interrupted, Fields(None, Some(at), None, Some(OwnerInterrupt)));
        return Some(id);
      }
      return None;
    }

    /** Evidence is the plain decimal of an exit code up to 255, alone or on one line; a
        file that holds anything else is invalid, and no file is no evidence. */
    method ReadOperationCompletion(id: OperationId) returns (e: Evidence)
      ensures e == Missing <==> id !in records
      ensures forall n: nat, at: int ::
                e == Exit(n, at) <==> id in records && at == records[id].mtime && Records(records[id].raw, n)
      ensures e == Invalid <==> id in records && forall n: nat :: !Records(records[id].raw, n)
    {
      ExaminesExactly(records, id);
      if id !in records {
        return Missing;
      }
      return Interpret(records[id]);
    }

    method EvidenceOf(id: OperationId) returns (e: Evidence)
      ensures e == Examine(records, id)
    {
      e := ReadOperationCompletion(id);
      ExaminesExactly(records, id);
    }

    /** One pending row takes the verdict of its own record. */
    method ReconcileOne(id: OperationId, at: int)
      requires Valid() && id in operations && Pending(operations[id].status)
      modifies this`operations
      ensures Valid()
      ensures operations == old(operations)[id := Judged(old(operations)[id], Examine(records, id), at)]
    {
      ghost var db := State();
      var e := EvidenceOf(id);
      assert ActiveIn(db, operations[id].session, id);
      var ok := UpdateOperation(id, Verdict(e), VerdictFields(e, SessionHostRestart, at));
    }

    method ReconcileUncertainOperations(at: int)
      requires Valid()
      modifies this`operations
      ensures Valid()
      ensures Reconciled(old(State()), records, at, State())
    {
      hide Examine, Reports, Judged, Constraints;
      var todo := set id | id in operations && Pending(operations[id].status);
      ghost var was := State();
      while todo != {}
        invariant Valid() && sessions == was.sessions && operations.Keys == was.operations.Keys
        invariant forall id | id in todo :: id in operations && Pending(was.operations[id].status)
        invariant forall id | id in was.operations ::
            operations[id] == if Pending(was.operations[id].status) && id !in todo
                              then Judged(was.operations[id], Examine(records, id), at)
                              else was.operations[id]
        decreases |todo|
      {
        var id :| id in todo;
        ReconcileOne(id, at);
        todo := todo - {id};
      }
      forall id | id in was.operations && Pending(was.operations[id].status)
        ensures Reports(was.operations[id], operations[id], FileOf(records, id), SessionHostRestart, at)
      {
        ExaminedSettles(was.operations[id], records, id, at);
      }
    }

    method Purge(session: SessionId) returns (ok: bool)
      requires Valid()
      modifies this
      ensures Valid()
      ensures ok <==> session in old(sessions) && old(sessions)[session].closed
      ensures !ok ==> State() == old(State()) && records == old(records)
      ensures ok ==>
                && State() == PurgeSession(old(State()), session)
                && records == map id | id in old(records) && !OwnedBy(old(State()), session, id) :: old(records)[id]
    {
      if session !in sessions || !sessions[session].closed {
        return false;
      }
      PurgeKeepsConstraints(State(), session);
      ghost var was := State();
      var doomed := set id | id in operations && operations[id].session == session;
      sessions := sessions - {session};
      operations := operations - doomed;
      assert State() == PurgeSession(was, session);
      records := records - doomed;
      return true;
    }
  }
}
