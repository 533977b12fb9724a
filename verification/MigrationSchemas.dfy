/** The two schemas that are migrated, and what their migrations mean for the rows. */
module MigrationSchemas {
  import opened Results
  import opened Migration
  import AuthTables
  import AuthInvariant
  import AuthSeal
  import StateStore
  import Transcript

  // ---------- the state store ----------

  datatype Capture = CaptureActive | CaptureStopped

  /** The columns that version 2 adds to a session. */
  datatype TranscriptColumns = TranscriptColumns(
    streamId: string, epoch: nat, earliest: nat, capture: Capture, gapReason: Option<string>)

  datatype SessionRow = SessionRow(
    title: string, cwd: string, createdAt: string, closedAt: Option<string>, transcript: Option<TranscriptColumns>)

  datatype StateRows = StateRows(
    sessions: map<StateStore.SessionId, SessionRow>, operations: map<StateStore.OperationId, StateStore.Operation>)

  /** The stream ids drawn for the sessions of a migration: 16 random bytes in hex. */
  type Streams = StateStore.SessionId -> string

  predicate HexDigit(c: char) { '0' <= c <= '9' || 'a' <= c <= 'f' }

  ghost predicate Drawn(streams: Streams) {
    forall id :: |streams(id)| == 32 && forall i | 0 <= i < 32 :: HexDigit(streams(id)[i])
  }

  function WithTranscript(row: SessionRow, streamId: string): SessionRow {
    row.(transcript := Some(TranscriptColumns(streamId, 1, 0,
                                              if row.closedAt.Some? then CaptureStopped else CaptureActive, None)))
  }

  // Versions below 1 only create the tables, IF NOT EXISTS; version 2 adds the columns.
  function UpgradeState(streams: Streams, from: nat, rows: StateRows): StateRows {
    if from >= 2 then rows
    else rows.(sessions := map id | id in rows.sessions :: WithTranscript(rows.sessions[id], streams(id)))
  }

  function StateSchema(streams: Streams): Schema<StateRows> {
    Schema(2, StateRows(map[], map[]), (from, rows) => UpgradeState(streams, from, rows), false, true)
  }

  /** The row as it was, with this stream from its first epoch and offset on, stopped exactly if
      the session was closed. */
  predicate SessionMigrated(before: SessionRow, after: SessionRow, streamId: string) {
    && after.(transcript := before.transcript) == before
    && after.transcript.Some?
    && var t := after.transcript.value;
    && Transcript.ValidSession(Transcript.Session(t.streamId, t.epoch, t.earliest))
    && t.streamId == streamId && t.epoch == 1 && t.earliest == 0 && t.gapReason == None
    && (t.capture == CaptureStopped <==> before.closedAt.Some?)
  }

  lemma StreamAccepted(streams: Streams, id: StateStore.SessionId)
    requires Drawn(streams)
    ensures Transcript.ValidSession(Transcript.Session(streams(id), 1, 0))
  {
    assert |streams(id)| == 32;
    forall i | 0 <= i < 32 ensures Transcript.StreamChar(streams(id)[i]) {
      assert HexDigit(streams(id)[i]);
    }
  }

  /** Whatever crashes interrupt it, an init of the state store that completes has kept
      every session and operation of an older database, and given each session a stream
      that its cursors can name. */
  lemma StateMigrationSafe(streams: Streams, s: State<StateRows>, steps: seq<Step<StateRows>>)
    requires Drawn(streams) && Initial(StateSchema(streams), s) && s.kept.version < 2
    requires forall i | 0 <= i < |steps| :: !steps[i].Commit?
    ensures var t := Run(StateSchema(streams), s, steps);
            t.pc.Ready? ==>
              && t.disk.db.Whole? && t.disk.db.image.version == 2
              && var rows := t.disk.db.image.rows;
              && rows.operations == s.kept.rows.operations
              && rows.sessions.Keys == s.kept.rows.sessions.Keys
              && forall id | id in rows.sessions ::
                   SessionMigrated(s.kept.rows.sessions[id], rows.sessions[id], streams(id))
  {
    CrashSafety(StateSchema(streams), s, steps);
    OriginalKept(StateSchema(streams), s, steps);
    forall id | id in s.kept.rows.sessions
      ensures var row := s.kept.rows.sessions[id];
              SessionMigrated(row, WithTranscript(row, streams(id)), streams(id))
    {
      StreamAccepted(streams, id);
    }
  }

  // ---------- the auth store ----------

  // Version 1 creates the owner, client and grant tables, version 2 the token tables.
  function UpgradeAuth(from: nat, t: AuthTables.Tables): AuthTables.Tables {
    if from < 2 then t.(families := map[], tokens := map[]) else t
  }

  function AuthSchema(): Schema<AuthTables.Tables> {
    Schema(2, AuthTables.Tables(map[], map[], map[], map[], map[]), UpgradeAuth, true, false)
  }

  /** What version 1 kept: the rules of the tables it had. */
  ghost predicate VersionOne(t: AuthTables.Tables, supported: set<string>) {
    && AuthInvariant.SingleOwner(t)
    && (forall c :: AuthInvariant.ClientInv(t, c) && AuthSeal.ClientSealed(t, c))
    && forall g :: AuthInvariant.GrantInv(t, supported, g) && AuthSeal.GrantSealed(t, g)
  }

  lemma UpgradedAuthInvariant(t: AuthTables.Tables, supported: set<string>)
    requires VersionOne(t, supported)
    ensures AuthInvariant.Inv(UpgradeAuth(1, t), supported) && AuthSeal.Sealed(UpgradeAuth(1, t))
  {
    var u := UpgradeAuth(1, t);
    forall c ensures AuthInvariant.ClientInv(u, c) && AuthSeal.ClientSealed(u, c) {
      assert AuthInvariant.ClientInv(t, c) && AuthSeal.ClientSealed(t, c);
    }
    forall g ensures AuthInvariant.GrantInv(u, supported, g) && AuthSeal.GrantSealed(u, g) {
      assert AuthInvariant.GrantInv(t, supported, g) && AuthSeal.GrantSealed(t, g);
    }
  }

  /** Whatever crashes interrupt it, an init of the auth store that completes has kept the
      owner, clients and grants of version 1, with the token invariant and the reset barrier. */
  lemma AuthMigrationSafe(supported: set<string>, s: State<AuthTables.Tables>, steps: seq<Step<AuthTables.Tables>>)
    requires Initial(AuthSchema(), s) && s.kept.version == 1 && VersionOne(s.kept.rows, supported)
    requires forall i | 0 <= i < |steps| :: !steps[i].Commit?
    ensures var t := Run(AuthSchema(), s, steps);
            t.pc.Ready? ==>
              && t.disk.db.Whole? && t.disk.db.image.version == 2
              && var rows := t.disk.db.image.rows;
              && rows.owners == s.kept.rows.owners && rows.clients == s.kept.rows.clients
              && rows.grants == s.kept.rows.grants
              && AuthInvariant.Inv(rows, supported) && AuthSeal.Sealed(rows)
  {
    CrashSafety(AuthSchema(), s, steps);
    OriginalKept(AuthSchema(), s, steps);
    UpgradedAuthInvariant(s.kept.rows, supported);
  }
}
