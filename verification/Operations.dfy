/** Every interleaving of runCommand, its monitor, interrupts, session saves,
    purges, crashes and restart reconciliation (apps/agent/src/tmux.js), as steps
    between awaits over one ledger. */
module Operations {
  import opened Results
  import opened StateStore

  /** Where the one writer of an operation, runCommand and then its monitor, is
      suspended. An operation without an entry has no code left that may write it. */
  datatype Pc =
    | Preparing              // prepareOperationCompletion has been called
    | Prepared               // it has returned; the RUNNING write is next
    | Pasting                // paste has been called; nothing reached the pane yet
    | Pasted                 // the command reached the pane; paste has not returned
    | Watching               // the monitor is between polls
    | Reading                // the monitor saw RUNNING and awaits the record
    | Judging(e: Evidence)   // the monitor holds what it read
    | Probing                // no record: the monitor awaits isAlive

  datatype Phase =
    | Serving
    | Starting(todo: set<OperationId>, read: Option<(OperationId, Evidence)>)

  datatype Admitted = Admitted(session: SessionId, key: string, fingerprint: string, life: nat)

  /** `admitted`, `pasted`, `published` and `lives` record the past: every operation
      ever admitted, every injection, every completion record ever written, and how
      often each session was purged. */
  datatype System = System(
    db: Database, records: map<OperationId, Evidence>, actors: map<OperationId, Pc>, phase: Phase,
    admitted: map<OperationId, Admitted>, pasted: multiset<OperationId>,
    published: set<(OperationId, Evidence)>, lives: map<SessionId, nat>)

  datatype Step =
    | AdmitStep(req: Request)
    | PrepareReturns(id: OperationId)
    | PrepareFails(id: OperationId, now: int)
    | WriteRunning(id: OperationId, now: int)
    | Paste(id: OperationId)
    | PasteFails(id: OperationId, now: int)
    | PasteReturns(id: OperationId, monitored: bool)
    | Poll(id: OperationId)
    | Read(id: OperationId)
    | MonitorDies(id: OperationId)
    | Judge(id: OperationId, now: int)
    | Probe(id: OperationId, alive: bool, now: int)
    | Interrupt(session: SessionId, id: OperationId, now: int)
    | SaveSession(session: SessionId, closed: bool)
    | PurgeStep(session: SessionId)
    | Publish(id: OperationId, file: RecordFile)
    | DropRecord(id: OperationId)
    | Crash
    | ReconcileRead(id: OperationId)
    | ReconcileWrite(now: int)
    | Serve

  function Life(s: System, session: SessionId): nat {
    if session in s.lives then s.lives[session] else 0
  }

  function Seen(s: System, id: OperationId): Evidence {
    if id in s.records then s.records[id] else Missing
  }

  predicate At(s: System, id: OperationId, pc: Pc) { id in s.actors && s.actors[id] == pc }

  function Move(s: System, id: OperationId, pc: Pc): System { s.(actors := s.actors[id := pc]) }

  function Finish(s: System, id: OperationId): System { s.(actors := s.actors - {id}) }

  /** The row update a step issues, if it issues one. */
  datatype Issue = Issue(id: OperationId, status: Status, fields: Fields)

  function Issued(s: System, step: Step): Option<Issue> {
    match step
    case PrepareFails(id, now) =>
      Some(Issue(id, Failed, Fields(None, Some(now), None, Some(ControlChannelUnavailable))))
    case WriteRunning(id, now) => Some(Issue(id, Running, Fields(Some(now), None, None, None)))
    case PasteFails(id, now) => Some(Issue(id, Unknown, Fields(None, Some(now), None, Some(SpawnResultUncertain))))
    case Judge(id, now) =>
      if id in s.actors && s.actors[id].Judging? && s.actors[id].e != Missing
      then Some(Issue(id, Verdict(s.actors[id].e), VerdictFields(s.actors[id].e, SessionLost, now))) else None
    case Probe(id, alive, now) =>
      if alive then None else Some(Issue(id, Unknown, VerdictFields(Missing, SessionLost, now)))
    case Interrupt(_, id, now) => Some(Issue(id, Interrupted, Fields(None, Some(now), None, Some(OwnerInterrupt))))
    case ReconcileWrite(now) =>
      if s.phase.Starting? && s.phase.read.Some?
      then var (id, e) := s.phase.read.value; Some(Issue(id, Verdict(e), VerdictFields(e, SessionHostRestart, now)))
      else None
    case _ => None
  }

  ghost function Issuing(s: System, step: Step): System {
    match Issued(s, step)
    case None => s
    case Some(i) => s.(db := Update(s.db, i.id, i.status, i.fields))
  }

  ghost predicate Rejected(s: System, step: Step) {
    Issued(s, step).Some? && Refused(s.db, Issued(s, step).value.id, Issued(s, step).value.status)
  }

  ghost predicate Enabled(s: System, step: Step) {
    match step
    case AdmitStep(req) => s.phase.Serving? && req.id !in s.admitted
    case PrepareReturns(id) => At(s, id, Preparing)
    case PrepareFails(id, _) => At(s, id, Preparing)
    case WriteRunning(id, _) => At(s, id, Prepared)
    case Paste(id) => At(s, id, Pasting)
    case PasteFails(id, _) => At(s, id, Pasting) || At(s, id, Pasted)
    case PasteReturns(id, _) => At(s, id, Pasted)
    case Poll(id) => At(s, id, Watching)
    case Read(id) => At(s, id, Reading)
    case MonitorDies(id) => At(s, id, Reading)
    case Judge(id, _) => id in s.actors && s.actors[id].Judging?
    case Probe(id, _, _) => At(s, id, Probing)
    case Interrupt(session, id, _) => s.phase.Serving? && ActiveIn(s.db, session, id)
    case SaveSession(_, _) => s.phase.Serving?
    case PurgeStep(session) => s.phase.Serving? && session in s.db.sessions && s.db.sessions[session].closed
    case Publish(id, _) => id in s.pasted
    case DropRecord(_) => true
    case Crash => true
    case ReconcileRead(id) => s.phase.Starting? && id in s.phase.todo && s.phase.read.None?
    case ReconcileWrite(_) => s.phase.Starting? && s.phase.read.Some?
    case Serve => s.phase.Starting? && s.phase.todo == {} && s.phase.read.None?
  }

  ghost function Apply(s: System, step: Step): System
    requires Enabled(s, step)
  {
    match step
    case AdmitStep(req) =>
      if Decide(s.db, req).Fresh? then
        s.(db := Admit(s.db, req),
           actors := s.actors[req.id := Preparing],
           admitted := s.admitted[req.id := Admitted(req.session, req.key, req.fingerprint, Life(s, req.session))])
      else s
    case PrepareReturns(id) => Move(s, id, Prepared).(records := s.records - {id})
    case PrepareFails(id, _) => Finish(Issuing(s, step), id)
    case WriteRunning(id, _) => if Rejected(s, step) then Finish(s, id) else Move(Issuing(s, step), id, Pasting)
    case Paste(id) => Move(s, id, Pasted).(pasted := s.pasted + multiset{id})
    case PasteFails(id, _) => Finish(Issuing(s, step), id)
    case PasteReturns(id, monitored) => if monitored then Move(s, id, Watching) else Finish(s, id)
    case Poll(id) =>
      if id in s.db.operations && s.db.operations[id].status == Running then Move(s, id, Reading) else Finish(s, id)
    case Read(id) => Move(s, id, Judging(Seen(s, id)))
    case MonitorDies(id) => Finish(s, id)
    case Judge(id, _) => if s.actors[id].e == Missing then Move(s, id, Probing) else Finish(Issuing(s, step), id)
    case Probe(id, alive, _) => if alive then Move(s, id, Watching) else Finish(Issuing(s, step), id)
    case Interrupt(_, _, _) => Issuing(s, step)
    case SaveSession(session, closed) => s.(db := s.db.(sessions := s.db.sessions[session := Session(closed)]))
    case PurgeStep(session) =>
      s.(db := PurgeSession(s.db, session), lives := s.lives[session := Life(s, session) + 1])
    case Publish(id, file) =>
      s.(records := s.records[id := Interpret(file)], published := s.published + {(id, Interpret(file))})
    case DropRecord(id) => s.(records := s.records - {id})
    case Crash =>
      s.(actors := map[],
         phase := Starting((set id | id in s.db.operations && Pending(s.db.operations[id].status)), None))
    case ReconcileRead(id) => s.(phase := Starting(s.phase.todo, Some((id, Seen(s, id)))))
    case ReconcileWrite(_) => Issuing(s, step).(phase := Starting(s.phase.todo - {s.phase.read.value.0}, None))
    case Serve => s.(phase := Serving)
  }

  // ---------- the invariant ----------

  ghost predicate Fresh(s: System) {
    && s.db == Database(map[], map[]) && s.records == map[] && s.actors == map[] && s.phase == Serving
    && s.admitted == map[] && s.pasted == multiset{} && s.published == {} && s.lives == map[]
  }

  /** An operation's writer and its row agree: only an interrupt can intervene. */
  predicate Agrees(status: Status, pc: Pc) {
    status == Interrupted || status == if pc in {Preparing, Prepared} then Accepted else Running
  }

  /** The row is the one admitted in this life of its session; rows vanish only by a purge. */
  ghost predicate RowAdmitted(s: System, id: OperationId) {
    if id in s.db.operations then
      var op := s.db.operations[id];
      id in s.admitted && s.admitted[id] == Admitted(op.session, op.key, op.fingerprint, Life(s, op.session))
    else
      id in s.admitted ==> s.admitted[id].life < Life(s, s.admitted[id].session)
  }

  ghost predicate WriterAgrees(s: System, id: OperationId) {
    && (id in s.actors ==> s.phase.Serving? && id in s.admitted)
    && (id in s.actors && id in s.db.operations ==> Agrees(s.db.operations[id].status, s.actors[id]))
    && (id in s.db.operations && s.db.operations[id].status == Accepted ==>
          At(s, id, Preparing) || At(s, id, Prepared) || s.phase.Starting?)
  }

  ghost predicate ToReconcile(s: System, id: OperationId) {
    s.phase.Starting? ==>
      && (id in s.phase.todo <==> id in s.db.operations && Pending(s.db.operations[id].status))
      && (s.phase.read.Some? && s.phase.read.value.0 == id ==> id in s.phase.todo)
  }

  ghost predicate PastedOnce(s: System, id: OperationId) {
    && s.pasted[id] <= 1
    && (id in s.pasted ==> id in s.admitted)
    && (id in s.pasted && id in s.actors ==> s.actors[id] !in {Preparing, Prepared, Pasting})
    && (id in s.pasted && id in s.db.operations ==> s.db.operations[id].status != Accepted)
  }

  /** Evidence held anywhere was published by the operation's own pasted command. */
  ghost predicate Held(s: System, id: OperationId, e: Evidence) { e.Missing? || (id, e) in s.published }

  ghost predicate EvidenceHeld(s: System, id: OperationId) {
    && (forall e | (id, e) in s.published :: id in s.pasted)
    && Held(s, id, Seen(s, id))
    && (id in s.actors && s.actors[id].Judging? ==> Held(s, id, s.actors[id].e))
    && (s.phase.Starting? && s.phase.read.Some? && s.phase.read.value.0 == id ==> Held(s, id, s.phase.read.value.1))
  }

  ghost predicate OutcomeJustified(s: System, id: OperationId) {
    id in s.db.operations ==>
      var op := s.db.operations[id];
      match op.status
      case Succeeded =>
        op.exitCode == Some(0) && op.reason == Some(ExitZero) && op.completedAt.Some?
        && (id, Exit(0, op.completedAt.value)) in s.published
      case Failed =>
        if op.exitCode.None? then op.reason == Some(ControlChannelUnavailable) && id !in s.pasted
        else op.exitCode.value != 0 && op.reason == Some(ExitNonzero) && op.completedAt.Some?
             && (id, Exit(op.exitCode.value, op.completedAt.value)) in s.published
      case _ => op.exitCode.None?
  }

  ghost predicate OperationInv(s: System, id: OperationId) {
    && RowAdmitted(s, id) && WriterAgrees(s, id) && ToReconcile(s, id)
    && PastedOnce(s, id) && EvidenceHeld(s, id) && OutcomeJustified(s, id)
  }

  /** Within one life of a session a key was admitted once. */
  ghost predicate KeysOnce(s: System) {
    forall a, b | a in s.admitted && b in s.admitted && a != b ::
      (s.admitted[a].session, s.admitted[a].key, s.admitted[a].life)
      != (s.admitted[b].session, s.admitted[b].key, s.admitted[b].life)
  }

  ghost predicate Inv(s: System) {
    Constraints(s.db) && KeysOnce(s) && forall id :: OperationInv(s, id)
  }

  predicate Writes(step: Step) { !step.AdmitStep? && !step.SaveSession? && !step.PurgeStep? }

  /** Apart from admission, saves and purges, a step changes the tables only by the
      row update it issues. */
  lemma DatabaseAfter(s: System, step: Step)
    requires Enabled(s, step) && Writes(step)
    ensures Apply(s, step).db ==
            match Issued(s, step) { case None => s.db case Some(i) => Update(s.db, i.id, i.status, i.fields) }
  {}

  lemma SaveKeepsConstraints(db: Database, session: SessionId, closed: bool)
    requires Constraints(db)
    ensures Constraints(db.(sessions := db.sessions[session := Session(closed)]))
  {
    var post := db.(sessions := db.sessions[session := Session(closed)]);
    forall a, s, key ensures HoldsKey(post, s, key, a) == HoldsKey(db, s, key, a) {}
    forall a, s ensures ActiveIn(post, s, a) == ActiveIn(db, s, a) {}
  }

  lemma StepKeepsConstraints(s: System, step: Step)
    requires Constraints(s.db) && Enabled(s, step)
    ensures Constraints(Apply(s, step).db)
  {
    if step.AdmitStep? {
      AdmitKeepsConstraints(s.db, step.req);
    } else if step.PurgeStep? {
      PurgeKeepsConstraints(s.db, step.session);
    } else if step.SaveSession? {
      SaveKeepsConstraints(s.db, step.session, step.closed);
    } else {
      DatabaseAfter(s, step);
      match Issued(s, step)
      case None =>
      case Some(i) => UpdateKeepsConstraints(s.db, i.id, i.status, i.fields);
    }
  }

  lemma StepKeepsKeysOnce(s: System, step: Step)
    requires Inv(s) && Enabled(s, step)
    ensures KeysOnce(Apply(s, step))
  {
    if step.AdmitStep? && Decide(s.db, step.req).Fresh? {
      var req := step.req;
      forall b | b in s.admitted && s.admitted[b].session == req.session && s.admitted[b].key == req.key
        ensures s.admitted[b].life != Life(s, req.session)
      {
        assert OperationInv(s, b);
        assert !HoldsKey(s.db, req.session, req.key, b);
      }
    }
  }

  /** A row that is itself active is never refused: the index has no other entry. */
  lemma ActiveRowNotRefused(db: Database, id: OperationId, status: Status)
    requires Constraints(db) && id in db.operations && Active(db.operations[id].status)
    ensures !Refused(db, id, status)
  {
    assert ActiveIn(db, db.operations[id].session, id);
  }

  /** A writer may move between two points that agree with the same row statuses. */
  lemma MoveKeeps(s: System, who: OperationId, pc: Pc, id: OperationId)
    requires OperationInv(s, id) && who in s.actors
    requires (pc in {Preparing, Prepared}) == (s.actors[who] in {Preparing, Prepared})
    requires pc == Pasting ==> s.actors[who] == Pasting
    requires pc.Judging? ==> Held(s, who, pc.e)
    ensures OperationInv(Move(s, who, pc), id)
  {
  }

  /** A writer may end once its row no longer waits for it. */
  lemma FinishKeeps(s: System, who: OperationId, id: OperationId)
    requires OperationInv(s, id)
    requires who == id && id in s.db.operations ==> s.db.operations[id].status != Accepted
    ensures OperationInv(Finish(s, who), id)
  {
  }

  lemma PasteKeeps(s: System, who: OperationId, id: OperationId)
    requires OperationInv(s, id) && At(s, who, Pasting) && (id == who || OperationInv(s, who))
    ensures OperationInv(Move(s, who, Pasted).(pasted := s.pasted + multiset{who}), id)
  {
  }

  /** Steps about completion records. */
  lemma RecordStep(s: System, step: Step, id: OperationId)
    requires OperationInv(s, id) && Enabled(s, step)
    requires step.PrepareReturns? || step.Publish? || step.DropRecord? || step.Read? || step.ReconcileRead?
    ensures OperationInv(Apply(s, step), id)
  {
  }

  lemma PhaseStep(s: System, step: Step, id: OperationId)
    requires OperationInv(s, id) && Enabled(s, step)
    requires step.Crash? || step.Serve?
    ensures OperationInv(Apply(s, step), id)
  {
  }

  lemma AdmitStepKeeps(s: System, step: Step, id: OperationId)
    requires OperationInv(s, id) && Enabled(s, step) && step.AdmitStep?
    ensures OperationInv(Apply(s, step), id)
  {
  }

  lemma PurgeStepKeeps(s: System, step: Step, id: OperationId)
    requires OperationInv(s, id) && Enabled(s, step) && step.PurgeStep?
    ensures OperationInv(Apply(s, step), id)
  {
  }

  lemma SaveStepKeeps(s: System, step: Step, id: OperationId)
    requires OperationInv(s, id) && Enabled(s, step) && step.SaveSession?
    ensures OperationInv(Apply(s, step), id)
  {
  }

  lemma TableStep(s: System, step: Step, id: OperationId)
    requires OperationInv(s, id) && Enabled(s, step) && !Writes(step)
    ensures OperationInv(Apply(s, step), id)
  {
    hide Apply, OperationInv;
    if step.AdmitStep? {
      AdmitStepKeeps(s, step, id);
    } else if step.PurgeStep? {
      PurgeStepKeeps(s, step, id);
    } else {
      SaveStepKeeps(s, step, id);
    }
  }

  /** The end of a writer with its last row update, when the update's outcome is justified. */
  lemma LastWriteKeeps(s: System, i: Issue, id: OperationId)
    requires Constraints(s.db) && OperationInv(s, id) && i.id in s.actors
    requires i.status in {Succeeded, Failed, Unknown}
    requires i.id == id ==> Justified(s, i)
    requires s.actors[i.id] in {Preparing, Prepared} ==> i.status == Failed
    ensures OperationInv(Finish(s.(db := Update(s.db, i.id, i.status, i.fields)), i.id), id)
  {
  }

  /** The fields of an update fit the status it sets. */
  ghost predicate Justified(s: System, i: Issue) {
    match i.status
    case Succeeded =>
      i.fields.exitCode == Some(0) && i.fields.reason == Some(ExitZero) && i.fields.completedAt.Some?
      && (i.id, Exit(0, i.fields.completedAt.value)) in s.published
    case Failed =>
      if i.fields.exitCode.None? then i.fields.reason == Some(ControlChannelUnavailable) && i.id !in s.pasted
      else i.fields.exitCode.value != 0 && i.fields.reason == Some(ExitNonzero) && i.fields.completedAt.Some?
           && (i.id, Exit(i.fields.exitCode.value, i.fields.completedAt.value)) in s.published
    case _ => i.fields.exitCode.None?
  }

  /** Exactly when the one-writer index refuses a row update that the program issues:
      an owner's interrupt released the slot and another operation took it. */
  lemma RejectedExactly(s: System, step: Step)
    requires Inv(s) && Enabled(s, step)
    ensures Rejected(s, step) <==>
              && Issued(s, step).Some?
              && var i := Issued(s, step).value;
              && Active(i.status)
              && i.id in s.db.operations && s.db.operations[i.id].status == Interrupted
              && exists other :: ActiveIn(s.db, s.db.operations[i.id].session, other)
  {
    if Issued(s, step).Some? {
      var i := Issued(s, step).value;
      assert OperationInv(s, i.id);
      if i.id in s.db.operations && Active(s.db.operations[i.id].status) {
        ActiveRowNotRefused(s.db, i.id, i.status);
      }
    }
  }

  lemma RunningKeeps(s: System, step: Step, id: OperationId)
    requires OperationInv(s, id) && step.WriteRunning? && Enabled(s, step)
    requires s.db.operations.Keys !! {step.id} || Agrees(s.db.operations[step.id].status, Prepared)
    requires Rejected(s, step) ==> s.db.operations[step.id].status == Interrupted
    ensures OperationInv(Apply(s, step), id)
  {
  }

  lemma InterruptKeeps(s: System, step: Step, id: OperationId)
    requires OperationInv(s, id) && step.Interrupt? && Enabled(s, step)
    ensures OperationInv(Apply(s, step), id)
  {
  }

  lemma ReconcileKeeps(s: System, step: Step, id: OperationId)
    requires OperationInv(s, id) && step.ReconcileWrite? && Enabled(s, step)
    requires !Rejected(s, step)
    ensures OperationInv(Apply(s, step), id)
  {
  }

  lemma WriterStep(s: System, step: Step, id: OperationId)
    requires OperationInv(s, id) && Enabled(s, step) && Constraints(s.db)
    requires step.PrepareFails? || step.PasteFails? || step.Judge? || step.Probe?
             || step.MonitorDies? || step.PasteReturns? || step.Poll?
    requires OperationInv(s, step.id)
    ensures OperationInv(Apply(s, step), id)
  {
    if Issued(s, step).Some? {
      LastWriteKeeps(s, Issued(s, step).value, id);
    } else if Apply(s, step) == Finish(s, step.id) {
      FinishKeeps(s, step.id, id);
    } else {
      MoveKeeps(s, step.id, Apply(s, step).actors[step.id], id);
    }
  }

  lemma StepKeepsOperation(s: System, step: Step, id: OperationId)
    requires Inv(s) && Enabled(s, step)
    ensures OperationInv(Apply(s, step), id)
  {
    assert OperationInv(s, id);
    if !Writes(step) {
      TableStep(s, step, id);
    } else if step.Crash? || step.Serve? {
      PhaseStep(s, step, id);
    } else if step.PrepareReturns? || step.Publish? || step.DropRecord? || step.Read? || step.ReconcileRead? {
      RecordStep(s, step, id);
    } else {
      RejectedExactly(s, step);
      var who := if step.ReconcileWrite? then s.phase.read.value.0 else step.id;
      assert OperationInv(s, who);
      SubjectStep(s, step, who, id);
    }
  }

  lemma SubjectStep(s: System, step: Step, who: OperationId, id: OperationId)
    requires OperationInv(s, id) && OperationInv(s, who) && Constraints(s.db) && Enabled(s, step)
    requires Writes(step) && !step.Crash? && !step.Serve?
    requires !(step.PrepareReturns? || step.Publish? || step.DropRecord? || step.Read? || step.ReconcileRead?)
    requires who == if step.ReconcileWrite? then s.phase.read.value.0 else step.id
    requires Rejected(s, step) ==> s.db.operations[who].status == Interrupted
    ensures OperationInv(Apply(s, step), id)
  {
    if step.Interrupt? {
      InterruptKeeps(s, step, id);
    } else if step.ReconcileWrite? {
      ReconcileKeeps(s, step, id);
    } else if step.WriteRunning? {
      RunningKeeps(s, step, id);
    } else if step.Paste? {
      PasteKeeps(s, who, id);
    } else {
      WriterStep(s, step, id);
    }
  }

  lemma StepKeepsInv(s: System, step: Step)
    requires Inv(s) && Enabled(s, step)
    ensures Inv(Apply(s, step))
  {
    StepKeepsConstraints(s, step);
    StepKeepsKeysOnce(s, step);
    forall id ensures OperationInv(Apply(s, step), id) {
      StepKeepsOperation(s, step, id);
    }
  }

  // ---------- whole runs ----------

  ghost predicate Run(states: seq<System>, steps: seq<Step>) {
    && |states| == |steps| + 1
    && Fresh(states[0])
    && forall i | 0 <= i < |steps| :: StepAt(states, steps, i)
  }

  ghost predicate StepAt(states: seq<System>, steps: seq<Step>, i: nat)
    requires |states| == |steps| + 1 && i < |steps|
  {
    Enabled(states[i], steps[i]) && states[i + 1] == Apply(states[i], steps[i])
  }

  lemma {:induction false} RunKeepsInv(states: seq<System>, steps: seq<Step>, i: nat)
    requires Run(states, steps) && i < |states|
    ensures Inv(states[i])
  {
    if i > 0 {
      RunKeepsInv(states, steps, i - 1);
      assert StepAt(states, steps, i - 1);
      StepKeepsInv(states[i - 1], steps[i - 1]);
    }
  }

  /** Nothing left in the program can write the row: its writer is gone, or is a
      monitor that will find the row not RUNNING. */
  ghost predicate NoWriter(s: System, id: OperationId) {
    id in s.admitted && (id in s.actors ==> s.actors[id] == Watching)
  }

  ghost predicate StatusIn(s: System, id: OperationId, statuses: set<Status>) {
    id in s.db.operations ==> s.db.operations[id].status in statuses
  }

  ghost predicate Settled(s: System, id: OperationId) {
    NoWriter(s, id) && StatusIn(s, id, {Succeeded, Failed, Interrupted})
  }

  /** A row, and whether it still has a writer, change only by a step of its own. */
  lemma UntouchedRow(s: System, step: Step, id: OperationId)
    requires Enabled(s, step) && id in s.admitted
    requires Issued(s, step).Some? ==> Issued(s, step).value.id != id
    ensures id in Apply(s, step).db.operations ==>
              id in s.db.operations && Apply(s, step).db.operations[id] == s.db.operations[id]
  {
    if Writes(step) { DatabaseAfter(s, step); }
  }

  lemma AdmittedStays(s: System, step: Step, id: OperationId)
    requires Enabled(s, step) && id in s.admitted
    ensures id in Apply(s, step).admitted && Apply(s, step).admitted[id] == s.admitted[id]
    ensures id in Apply(s, step).db.operations ==> id in s.db.operations
  {
    if Writes(step) { DatabaseAfter(s, step); }
  }

  /** A monitor about to poll a row that is not RUNNING ends; no other writer starts. */
  lemma ActorStays(s: System, step: Step, id: OperationId)
    requires Enabled(s, step) && id in s.admitted && StatusIn(s, id, {Succeeded, Failed, Interrupted, Unknown})
    requires id in s.actors ==> s.actors[id] == Watching
    ensures id in Apply(s, step).actors ==> Apply(s, step).actors[id] == Watching
  {
    hide Update, Refused, Verdict, VerdictFields, Interpret, PurgeSession, Admit, Decide;
  }

  lemma NoWriterStays(s: System, step: Step, id: OperationId)
    requires Enabled(s, step) && NoWriter(s, id) && StatusIn(s, id, {Succeeded, Failed, Interrupted, Unknown})
    ensures NoWriter(Apply(s, step), id)
  {
    ActorStays(s, step, id);
    AdmittedStays(s, step, id);
  }

  lemma NoWriterNoIssue(s: System, step: Step, id: OperationId)
    requires OperationInv(s, id) && Enabled(s, step) && NoWriter(s, id)
    requires Issued(s, step).Some? && Issued(s, step).value.id == id
    ensures step.Interrupt? || step.ReconcileWrite?
    ensures id in s.db.operations && Active(s.db.operations[id].status)
    ensures step.ReconcileWrite? ==> Pending(s.db.operations[id].status)
  {
  }

  lemma SettledStep(s: System, step: Step, id: OperationId)
    requires OperationInv(s, id) && Enabled(s, step) && Settled(s, id)
    ensures Settled(Apply(s, step), id)
    ensures id in Apply(s, step).db.operations ==>
              id in s.db.operations && Apply(s, step).db.operations[id] == s.db.operations[id]
  {
    if Issued(s, step).Some? && Issued(s, step).value.id == id {
      NoWriterNoIssue(s, step, id);
    }
    UntouchedRow(s, step, id);
    NoWriterStays(s, step, id);
  }

  lemma {:induction false} SettledIsFinal(states: seq<System>, steps: seq<Step>, i: nat, j: nat, id: OperationId)
    requires Run(states, steps) && i <= j < |states| && Settled(states[i], id)
    ensures Settled(states[j], id)
    ensures id in states[j].db.operations ==>
              id in states[i].db.operations && states[j].db.operations[id] == states[i].db.operations[id]
  {
    if i < j {
      SettledIsFinal(states, steps, i, j - 1, id);
      RunKeepsInv(states, steps, j - 1);
      assert StepAt(states, steps, j - 1);
      SettledStep(states[j - 1], steps[j - 1], id);
    }
  }

  /** SUCCEEDED and FAILED are absorbing: no later step of any run changes any
      column of the row. */
  lemma OutcomeIsFinal(states: seq<System>, steps: seq<Step>, i: nat, j: nat, id: OperationId)
    requires Run(states, steps) && i <= j < |states|
    requires id in states[i].db.operations && states[i].db.operations[id].status in {Succeeded, Failed}
    ensures id in states[j].db.operations ==> states[j].db.operations[id] == states[i].db.operations[id]
  {
    RunKeepsInv(states, steps, i);
    assert OperationInv(states[i], id);
    SettledIsFinal(states, steps, i, j, id);
  }

  ghost predicate InDoubt(s: System, id: OperationId) {
    NoWriter(s, id) && StatusIn(s, id, {Unknown, Interrupted})
  }

  lemma DoubtStep(s: System, step: Step, id: OperationId)
    requires OperationInv(s, id) && Enabled(s, step) && InDoubt(s, id)
    ensures InDoubt(Apply(s, step), id)
  {
    NoWriterStays(s, step, id);
    if Issued(s, step).Some? && Issued(s, step).value.id == id {
      NoWriterNoIssue(s, step, id);
      DatabaseAfter(s, step);
    } else {
      UntouchedRow(s, step, id);
    }
  }

  lemma {:induction false} DoubtLasts(states: seq<System>, steps: seq<Step>, i: nat, j: nat, id: OperationId)
    requires Run(states, steps) && i <= j < |states| && InDoubt(states[i], id)
    ensures InDoubt(states[j], id)
  {
    if i < j {
      DoubtLasts(states, steps, i, j - 1, id);
      RunKeepsInv(states, steps, j - 1);
      assert OperationInv(states[j - 1], id);
      assert StepAt(states, steps, j - 1);
      DoubtStep(states[j - 1], steps[j - 1], id);
    }
  }

  /** UNKNOWN is never resolved by execution, retry or restart: only an interrupt
      takes a row out of it, and then for good. */
  lemma UnknownLeavesOnlyToInterrupted(states: seq<System>, steps: seq<Step>, i: nat, j: nat, k: nat, id: OperationId)
    requires Run(states, steps) && i <= j <= k < |states|
    requires id in states[i].db.operations && states[i].db.operations[id].status == Unknown
    requires id in states[k].db.operations
    ensures id in states[j].db.operations && states[j].db.operations[id].status in {Unknown, Interrupted}
    ensures states[j].db.operations[id].status == Interrupted ==>
              states[k].db.operations[id] == states[j].db.operations[id]
  {
    RunKeepsInv(states, steps, i);
    assert OperationInv(states[i], id);
    DoubtLasts(states, steps, i, j, id);
    RowsDoNotReturn(states, steps, j, k, id);
    if states[j].db.operations[id].status == Interrupted {
      SettledIsFinal(states, steps, j, k, id);
    }
  }

  lemma {:induction false} RowsDoNotReturn(states: seq<System>, steps: seq<Step>, i: nat, j: nat, id: OperationId)
    requires Run(states, steps) && i <= j < |states| && id in states[i].admitted
    ensures id in states[j].admitted && states[j].admitted[id] == states[i].admitted[id]
    ensures id in states[j].db.operations ==> id in states[i].db.operations
  {
    if i < j {
      RowsDoNotReturn(states, steps, i, j - 1, id);
      assert StepAt(states, steps, j - 1);
      AdmittedStays(states[j - 1], steps[j - 1], id);
    }
  }

  /** SUCCEEDED is reported only for a command that was injected and whose own
      completion record said exit status 0; FAILED only for a recorded nonzero status
      or for a command that never reached the terminal. */
  lemma OutcomeHasEvidence(states: seq<System>, steps: seq<Step>, i: nat, id: OperationId)
    requires Run(states, steps) && i < |states| && id in states[i].db.operations
    ensures var s := states[i]; var op := s.db.operations[id];
            && (op.status == Succeeded ==>
                  && op.exitCode == Some(0) && s.pasted[id] == 1
                  && exists at :: (id, Exit(0, at)) in s.published)
            && (op.status == Failed && op.exitCode.Some? ==>
                  && op.exitCode.value != 0 && s.pasted[id] == 1
                  && exists at :: (id, Exit(op.exitCode.value, at)) in s.published)
            && (op.status == Failed && op.exitCode.None? ==> s.pasted[id] == 0)
  {
    RunKeepsInv(states, steps, i);
    assert OperationInv(states[i], id);
  }

  /** In one life of a session (between purges) a key injects at most one command,
      at most once, however often it is retried and the host restarts. */
  lemma InjectedAtMostOnce(states: seq<System>, steps: seq<Step>, i: nat, a: OperationId, b: OperationId)
    requires Run(states, steps) && i < |states|
    requires a in states[i].pasted && b in states[i].pasted
    ensures a in states[i].admitted && b in states[i].admitted
    ensures states[i].pasted[a] == 1
    ensures var x, y := states[i].admitted[a], states[i].admitted[b];
            x.session == y.session && x.key == y.key && x.life == y.life ==> a == b
  {
    RunKeepsInv(states, steps, i);
    assert OperationInv(states[i], a) && OperationInv(states[i], b);
  }

  ghost predicate NotPurged(steps: seq<Step>, i: nat, j: nat, session: SessionId)
    requires i <= j <= |steps|
  {
    forall k | i <= k < j :: steps[k] != PurgeStep(session)
  }

  lemma LifeStays(s: System, step: Step, session: SessionId)
    requires Enabled(s, step) && step != PurgeStep(session)
    ensures Life(Apply(s, step), session) == Life(s, session)
  {
  }

  lemma {:induction false} LifeLasts(states: seq<System>, steps: seq<Step>, i: nat, j: nat, session: SessionId)
    requires Run(states, steps) && i <= j < |states| && NotPurged(steps, i, j, session)
    ensures Life(states[j], session) == Life(states[i], session)
  {
    if i < j {
      LifeLasts(states, steps, i, j - 1, session);
      assert StepAt(states, steps, j - 1);
      LifeStays(states[j - 1], steps[j - 1], session);
    }
  }

  /** While its session is not purged, a retry finds the row of the first request:
      the same command gets that row back, another command is refused, and neither
      changes anything. */
  lemma RetryReturnsTheRow(states: seq<System>, steps: seq<Step>, i: nat, j: nat, id: OperationId, req: Request)
    requires Run(states, steps) && i <= j < |states|
    requires id in states[i].db.operations
    requires var op := states[i].db.operations[id];
             op.session == req.session && op.key == req.key && NotPurged(steps, i, j, op.session)
    ensures id in states[j].db.operations
    ensures Decide(states[j].db, req) ==
            if states[i].db.operations[id].fingerprint == req.fingerprint then Duplicate(id) else Conflict
    ensures Enabled(states[j], AdmitStep(req)) ==> Apply(states[j], AdmitStep(req)) == states[j]
  {
    RunKeepsInv(states, steps, i);
    assert OperationInv(states[i], id);
    RunKeepsInv(states, steps, j);
    assert OperationInv(states[j], id);
    RowsDoNotReturn(states, steps, i, j, id);
    LifeLasts(states, steps, i, j, req.session);
    assert HoldsKey(states[j].db, req.session, req.key, id);
  }

  // ---------- the one-writer index ----------

  lemma StillUninterrupted(s: System, step: Step, id: OperationId)
    requires Enabled(s, step) && !step.Interrupt?
    requires id in s.db.operations ==> s.db.operations[id].status != Interrupted
    ensures id in Apply(s, step).db.operations ==> Apply(s, step).db.operations[id].status != Interrupted
  {
    if Writes(step) { DatabaseAfter(s, step); }
  }

  lemma {:induction false} NeverInterrupted(states: seq<System>, steps: seq<Step>, i: nat, id: OperationId)
    requires Run(states, steps) && i < |states| && forall k | 0 <= k < i :: !steps[k].Interrupt?
    ensures id in states[i].db.operations ==> states[i].db.operations[id].status != Interrupted
  {
    if i > 0 {
      NeverInterrupted(states, steps, i - 1, id);
      assert StepAt(states, steps, i - 1);
      StillUninterrupted(states[i - 1], steps[i - 1], id);
    }
  }

  /** As long as nobody interrupts, the admission check alone keeps one active
      operation per session: the index never refuses an update. */
  lemma IndexIdleWithoutInterrupt(states: seq<System>, steps: seq<Step>, i: nat)
    requires Run(states, steps) && i < |steps| && forall k | 0 <= k < i :: !steps[k].Interrupt?
    ensures !Rejected(states[i], steps[i])
  {
    RunKeepsInv(states, steps, i);
    assert StepAt(states, steps, i);
    RejectedExactly(states[i], steps[i]);
    if Issued(states[i], steps[i]).Some? {
      NeverInterrupted(states, steps, i, Issued(states[i], steps[i]).value.id);
    }
  }

  lemma Extend(states: seq<System>, steps: seq<Step>, step: Step)
    requires Run(states, steps) && Enabled(states[|steps|], step)
    ensures Run(states + [Apply(states[|steps|], step)], steps + [step])
  {
    var after, taken := states + [Apply(states[|steps|], step)], steps + [step];
    forall i | 0 <= i < |taken| ensures StepAt(after, taken, i) {
      if i < |steps| {
        assert StepAt(states, steps, i);
      }
    }
  }

  /** One session, and the request "a" interrupted while it is being prepared. */
  lemma InterruptedWhilePreparing() returns (states: seq<System>, steps: seq<Step>)
    ensures Run(states, steps)
    ensures var s := states[|steps|];
            && s.db.sessions == map["s" := Session(false)] && s.db.operations.Keys == {"a"}
            && s.db.operations["a"].session == "s" && s.db.operations["a"].key == "k"
            && s.db.operations["a"].status == Interrupted
            && s.phase == Serving && At(s, "a", Preparing) && s.admitted.Keys == {"a"}
  {
    var s0 := System(Database(map[], map[]), map[], map[], Serving, map[], multiset{}, {}, map[]);
    states, steps := [s0], [];
    var save := SaveSession("s", false);
    Extend(states, steps, save);
    var s1 := Apply(s0, save);
    states, steps := states + [s1], steps + [save];
    var admit := AdmitStep(Request("a", "s", "k", "f", 0, 0));
    assert Decide(s1.db, admit.req) == Outcome.Fresh;
    Extend(states, steps, admit);
    var s2 := Apply(s1, admit);
    states, steps := states + [s2], steps + [admit];
    var interrupt := Interrupt("s", "a", 0);
    assert ActiveIn(s2.db, "s", "a");
    Extend(states, steps, interrupt);
    states, steps := states + [Apply(s2, interrupt)], steps + [interrupt];
  }

  /** With an interrupt it can: the slot of an operation that is still being prepared
      is released, the next request takes it, and the first RUNNING write is refused. */
  lemma IndexCanRefuse() returns (states: seq<System>, steps: seq<Step>, step: Step)
    ensures Run(states, steps) && Enabled(states[|steps|], step) && Rejected(states[|steps|], step)
  {
    states, steps := InterruptedWhilePreparing();
    var s3 := states[|steps|];
    var admit := AdmitStep(Request("b", "s", "l", "f", 0, 0));
    assert Decide(s3.db, admit.req) == Outcome.Fresh;
    Extend(states, steps, admit);
    var s4 := Apply(s3, admit);
    states, steps := states + [s4], steps + [admit];
    var prepared := PrepareReturns("a");
    Extend(states, steps, prepared);
    states, steps := states + [Apply(s4, prepared)], steps + [prepared];
    step := WriteRunning("a", 0);
    var s5 := states[|steps|];
    assert At(s5, "a", Prepared) && s5.db == s4.db;
    assert s5.db.operations["a"].session == "s" && ActiveIn(s5.db, "s", "b");
    assert Refused(s5.db, "a", Running);
  }

  // ---------- INTERRUPTED is not final ----------

  ghost predicate Leads(s: System, steps: seq<Step>, t: System)
    decreases |steps|
  {
    if steps == [] then s == t
    else Enabled(s, steps[0]) && Leads(Apply(s, steps[0]), steps[1..], t)
  }

  ghost predicate InterruptedRow(s: System, id: OperationId) {
    id in s.db.operations && s.db.operations[id].status == Interrupted
  }

  ghost predicate SlotTaken(s: System, session: SessionId) { exists id :: ActiveIn(s.db, session, id) }

  function Distance(pc: Pc): nat {
    match pc
    case Reading => 2
    case Judging(e) => if e == Missing then 1 else 0
    case _ => 0
  }

  /** The next step towards overwriting an interrupted row whose writer lives on. */
  ghost function Overwriting(s: System, id: OperationId): Step
    requires InterruptedRow(s, id) && id in s.actors
  {
    var session := s.db.operations[id].session;
    if SlotTaken(s, session) then (var other :| ActiveIn(s.db, session, other); Interrupt(session, other, 0))
    else
      match s.actors[id]
      case Preparing => PrepareFails(id, 0)
      case Prepared => WriteRunning(id, 0)
      case Reading => Read(id)
      case Judging(_) => Judge(id, 0)
      case Probing => Probe(id, false, 0)
      case Watching => Poll(id)
      case _ => PasteFails(id, 0)
  }

  lemma OverwritingEnabled(s: System, id: OperationId)
    requires WriterAgrees(s, id) && InterruptedRow(s, id) && id in s.actors
    ensures Enabled(s, Overwriting(s, id))
  {
  }

  lemma SlotFreed(s: System, id: OperationId)
    requires Inv(s) && InterruptedRow(s, id) && id in s.actors
    requires SlotTaken(s, s.db.operations[id].session)
    ensures var step := Overwriting(s, id);
            && Enabled(s, step)
            && var t := Apply(s, step);
            && id in t.db.operations && t.db.operations[id] == s.db.operations[id]
            && t.actors == s.actors && t.admitted == s.admitted && !SlotTaken(t, s.db.operations[id].session)
  {
    assert OperationInv(s, id);
    OverwritingEnabled(s, id);
    var step := Overwriting(s, id);
    DatabaseAfter(s, step);
    var session := s.db.operations[id].session;
    forall a | ActiveIn(Apply(s, step).db, session, a) ensures false {
      assert ActiveIn(s.db, session, a);
    }
  }

  lemma SlotUsed(s: System, id: OperationId)
    requires OperationInv(s, id) && InterruptedRow(s, id) && !NoWriter(s, id)
    requires id in s.actors && !SlotTaken(s, s.db.operations[id].session)
    ensures var step := Overwriting(s, id);
            && Enabled(s, step)
            && var t := Apply(s, step);
            && id in t.db.operations
            && (t.db.operations[id].status == Interrupted ==>
                  && t.db == s.db && t.admitted == s.admitted && id in t.actors && t.actors[id] != Watching
                  && Distance(t.actors[id]) < Distance(s.actors[id]))
  {
    OverwritingEnabled(s, id);
    DatabaseAfter(s, Overwriting(s, id));
  }

  /** An interrupted row whose writer has not finished can still be overwritten; with
      SettledIsFinal, INTERRUPTED is final exactly when NoWriter holds. */
  lemma {:induction false} InterruptedCanBeOverwritten(s: System, id: OperationId) returns (steps: seq<Step>, t: System)
    requires Inv(s) && InterruptedRow(s, id) && !NoWriter(s, id)
    ensures Leads(s, steps, t)
    ensures id in t.db.operations && t.db.operations[id].status != Interrupted
    decreases SlotTaken(s, s.db.operations[id].session), if id in s.actors then Distance(s.actors[id]) else 0
  {
    assert OperationInv(s, id);
    if SlotTaken(s, s.db.operations[id].session) {
      SlotFreed(s, id);
    } else {
      SlotUsed(s, id);
    }
    var step := Overwriting(s, id);
    var next := Apply(s, step);
    if next.db.operations[id].status != Interrupted {
      steps, t := [step], next;
      assert Leads(next, [], next);
    } else {
      StepKeepsInv(s, step);
      var rest;
      rest, t := InterruptedCanBeOverwritten(next, id);
      steps := [step] + rest;
      assert steps[1..] == rest;
    }
  }
}
