/** What the writers of an operation make of its row, column by column: the monitor and the
    reconciliation from the control record they read, the others from what has happened. */
module Outcomes {
  import opened Operations
  import opened Results
  import opened StateStore

  /** Only this row changes. */
  ghost predicate OnlyRow(s: System, t: System, id: OperationId) {
    && t.db.sessions == s.db.sessions && id in s.db.operations && id in t.db.operations
    && t.db.operations == s.db.operations[id := t.db.operations[id]]
  }

  /** The record that is held, as it was published. */
  predicate RecordIs(s: System, id: OperationId, file: Option<RecordFile>) {
    if file.Some? then id in s.records && s.records[id] == Interpret(file.value) else id !in s.records
  }

  lemma PublishedIs(s: System, id: OperationId, file: RecordFile)
    requires Enabled(s, Publish(id, file))
    ensures RecordIs(Apply(s, Publish(id, file)), id, Some(file))
  {
  }

  /** A step that issues a verdict settles the row by the file it was drawn from, unless the
      one-writer index refuses it. */
  lemma VerdictIssued(s: System, id: OperationId, file: Option<RecordFile>, absent: Reason, now: int)
    requires id in s.db.operations
    ensures var e := if file.Some? then Interpret(file.value) else Missing;
            var after := Update(s.db, id, Verdict(e), VerdictFields(e, absent, now));
            if Refused(s.db, id, Verdict(e)) then after == s.db
            else
              && after.sessions == s.db.sessions && id in after.operations
              && after.operations == s.db.operations[id := after.operations[id]]
              && Reports(s.db.operations[id], after.operations[id], file, absent, now)
  {
    hide Reports, Verdict, VerdictFields, Write, Interpret;
    VerdictSettles(s.db.operations[id], file, absent, now);
  }

  /** A monitor that has read a record reports it: the row is settled by the file, and the
      monitor ends. A stored row that is still RUNNING is always settled; the index can refuse
      the verdict only for a row that was interrupted, and then nothing changes. */
  lemma JudgesExactly(s: System, id: OperationId, file: RecordFile, now: int)
    requires Inv(s) && At(s, id, Judging(Interpret(file))) && id in s.db.operations
    ensures Enabled(s, Judge(id, now))
    ensures var t := Apply(s, Judge(id, now));
            && id !in t.actors
            && (s.db.operations[id].status == Running ==> !Rejected(s, Judge(id, now)))
            && (Rejected(s, Judge(id, now)) ==> t.db == s.db)
            && (!Rejected(s, Judge(id, now)) ==>
                  && OnlyRow(s, t, id)
                  && Reports(s.db.operations[id], t.db.operations[id], Some(file), SessionLost, now))
  {
    hide Reports, Verdict, VerdictFields, Update, Refused, OperationInv;
    VerdictIssued(s, id, Some(file), SessionLost, now);
    if s.db.operations[id].status == Running {
      NeverRefused(s.db, id, Verdict(Interpret(file)));
    }
  }

  lemma NeverRefused(db: Database, id: OperationId, status: Status)
    requires Constraints(db) && id in db.operations && Active(db.operations[id].status)
    ensures !Refused(db, id, status)
  {
    ActiveRowNotRefused(db, id, status);
  }

  /** A monitor that has found no record: while the terminal lives it goes on watching; when
      it is gone the row becomes UNKNOWN, lost with its session, under the same exception. */
  lemma ProbesExactly(s: System, id: OperationId, alive: bool, now: int)
    requires Inv(s) && At(s, id, Probing) && id in s.db.operations
    ensures Enabled(s, Probe(id, alive, now))
    ensures var t := Apply(s, Probe(id, alive, now));
            && (alive ==> t.db == s.db && At(t, id, Watching))
            && (!alive ==> id !in t.actors)
            && (s.db.operations[id].status == Running ==> !Rejected(s, Probe(id, alive, now)))
            && (Rejected(s, Probe(id, alive, now)) ==> t.db == s.db)
            && (!alive && !Rejected(s, Probe(id, alive, now)) ==>
                  && OnlyRow(s, t, id)
                  && Ends(s.db.operations[id], t.db.operations[id], Unknown, now, None, SessionLost))
  {
    hide Update, Refused, OperationInv;
    VerdictIssued(s, id, None, SessionLost, now);
    if s.db.operations[id].status == Running {
      NeverRefused(s.db, id, Unknown);
    }
  }

  /** The monitor from the read on, undisturbed: what the control file says is what the stored
      RUNNING row reports, and without a file nothing is reported while the terminal lives. */
  lemma MonitorReports(s: System, id: OperationId, file: Option<RecordFile>, now: int)
    requires Inv(s) && At(s, id, Reading) && RecordIs(s, id, file)
    requires id in s.db.operations && s.db.operations[id].status == Running
    ensures Enabled(s, Read(id)) && Enabled(Apply(s, Read(id)), Judge(id, now))
    ensures var t := Apply(Apply(s, Read(id)), Judge(id, now));
            && (file.Some? ==>
                  && id !in t.actors && OnlyRow(s, t, id)
                  && Reports(s.db.operations[id], t.db.operations[id], file, SessionLost, now))
            && (file.None? ==> t.db == s.db && At(t, id, Probing))
  {
    hide Reports, Inv, Update, Interpret;
    var r := Apply(s, Read(id));
    StepKeepsInv(s, Read(id));
    if file.Some? {
      SomeEvidence(file.value);
      JudgesExactly(r, id, file.value, now);
    }
  }

  lemma SomeEvidence(file: RecordFile)
    ensures Interpret(file) != Missing
  {
  }

  /** Restart reconciliation in the machine, one row: the record it has read settles the row. */
  lemma ReconcilesExactly(s: System, id: OperationId, file: Option<RecordFile>, now: int)
    requires Inv(s) && s.phase.Starting? && id in s.db.operations
    requires s.phase.read == Some((id, if file.Some? then Interpret(file.value) else Missing))
    ensures Enabled(s, ReconcileWrite(now)) && !Rejected(s, ReconcileWrite(now))
    ensures var t := Apply(s, ReconcileWrite(now));
            && OnlyRow(s, t, id)
            && Reports(s.db.operations[id], t.db.operations[id], file, SessionHostRestart, now)
  {
    hide Reports, Verdict, VerdictFields, Update, Refused, Interpret;
    assert OperationInv(s, id);
    VerdictIssued(s, id, file, SessionHostRestart, now);
    NeverRefused(s.db, id, Verdict(s.phase.read.value.1));
  }

  /** What the other writers report. A command that is started keeps what was asked and says
      when; one whose control directory could not be prepared has failed without a code; one
      whose paste went wrong is uncertain; an interrupt says so. */
  lemma WritesExactly(s: System, step: Step)
    requires Enabled(s, step) && !Rejected(s, step)
    requires step.WriteRunning? || step.PrepareFails? || step.PasteFails? || step.Interrupt?
    requires step.id in s.db.operations
    ensures var t, before := Apply(s, step), s.db.operations[step.id];
            && OnlyRow(s, t, step.id)
            && var after := t.db.operations[step.id];
            && (step.WriteRunning? ==>
                  && SameRequest(before, after.(startedAt := before.startedAt))
                  && after.status == Running && after.startedAt == Some(step.now)
                  && after.completedAt == before.completedAt && after.exitCode == None && after.reason == None)
            && (step.PrepareFails? ==> Ends(before, after, Failed, step.now, None, ControlChannelUnavailable))
            && (step.PasteFails? ==> Ends(before, after, Unknown, step.now, None, SpawnResultUncertain))
            && (step.Interrupt? ==> Ends(before, after, Interrupted, step.now, None, OwnerInterrupt))
  {
  }
}
