/** Schema migration of the two SQLite stores, and its recovery after a crash at any
    point: packages/auth/src/auth-store.js and apps/agent/src/state-store.js. A database
    file is one value; a copy that was cut short fails the integrity check. */
module Migration {
  import opened Results

  datatype Image<R> = Image(version: nat, rows: R)

  datatype File<R> = Missing | Torn | Whole(image: Image<R>)

  /** The marker file: absent, cut short while it was written, or whole. A backup is
      named by the version in its file name. */
  datatype Marker = NoMarker | TornMarker | Marker(from: nat, target: nat, backup: Option<nat>)

  datatype Disk<R> = Disk(db: File<R>, backups: map<nat, File<R>>, marker: Marker)

  /** What distinguishes the stores. The auth store refuses markers it would not have
      written, and looks for an existing file before it opens the database; the state
      store does neither. */
  datatype Schema<!R> = Schema(target: nat, empty: R, upgrade: (nat, R) -> R, checksMarker: bool, statsAfterOpen: bool)

  /** What an opened image becomes once it is at the target version. */
  function Upgraded<R>(schema: Schema<R>, image: Image<R>): Image<R> {
    if image.version < schema.target then Image(schema.target, schema.upgrade(image.version, image.rows)) else image
  }

  function Blank<R>(schema: Schema<R>): Image<R> { Image(0, schema.empty) }

  // ---------- one run of init, as the points between its awaits ----------

  datatype Pc =
    | Down
    | Reading
    | Restoring(version: nat) | CopyingBack(version: nat) | Removing | Unmarking
    | Opening | Opened(existed: bool)
    | BackingUp(from: nat) | CopyingOut(from: nat)
    | Marking(from: nat, backup: Option<nat>) | WritingMarker(from: nat, backup: Option<nat>)
    | Migrating | Finishing
    | Ready

  /** `kept` is a ghost of the model: the last image that a reader of the store could rely
      on, the original one or, once the store is in use, the last committed one. */
  datatype State<R> = State(disk: Disk<R>, pc: Pc, kept: Image<R>)

  predicate Trusted<R>(schema: Schema<R>, m: Marker)
    requires m.Marker?
  {
    m.target == schema.target && (m.backup == None || m.backup == Some(m.from))
  }

  /** A marker that recovery refuses. */
  predicate Blocked<R>(schema: Schema<R>, m: Marker) {
    m == TornMarker || (m.Marker? && schema.checksMarker && !Trusted(schema, m))
  }

  predicate Completed<R>(db: File<R>, target: nat) { db.Whole? && db.image.version == target }

  function AfterReading<R>(schema: Schema<R>, disk: Disk<R>): Pc {
    var m := disk.marker;
    if m == NoMarker then Opening
    else if Blocked(schema, m) then Down
    else if Completed(disk.db, m.target) then Unmarking
    else if m.backup.Some? then Restoring(m.backup.value)
    else Removing
  }

  /** What recovery does with a marker: none lets the database open; a torn one stops the init,
      and so does, where markers are checked, one for another version or with another backup
      than its own; a completed migration only loses its marker; otherwise the backup that the
      marker names comes back, or without one the database goes. */
  lemma RecoversExactly<R>(schema: Schema<R>, disk: Disk<R>)
    ensures var pc := AfterReading(schema, disk);
            match disk.marker
            case NoMarker => pc == Opening
            case TornMarker => pc == Down
            case Marker(from, target, backup) =>
              var refused := schema.checksMarker
                             && (target != schema.target || (backup.Some? && backup.value != from));
              var completed := disk.db.Whole? && disk.db.image.version == target;
              && (pc == Down <==> refused)
              && (pc == Unmarking <==> !refused && completed)
              && (!refused && !completed ==> pc == if backup.Some? then Restoring(backup.value) else Removing)
  {
  }

  /** Whether a file of non-zero size is found; `sized` says how large an empty database
      happens to be. */
  predicate Existed<R(==)>(schema: Schema<R>, db: File<R>, sized: bool) {
    (db.Whole? && (db.image != Blank(schema) || sized)) || db.Torn? || (db.Missing? && schema.statsAfterOpen && sized)
  }

  function AfterOpened<R>(schema: Schema<R>, db: File<R>, existed: bool): Pc {
    if !db.Whole? || db.image.version > schema.target then Down
    else if db.image.version == schema.target then Ready
    else if existed then BackingUp(db.image.version)
    else Marking(db.image.version, None)
  }

  function Opens<R>(schema: Schema<R>, db: File<R>): File<R> {
    if db.Missing? then Whole(Blank(schema)) else db
  }

  /** The next step of init. Copies and the marker are written in two steps, between which
      the file is torn; the migrating transaction commits in one. */
  function Go<R(==)>(schema: Schema<R>, s: State<R>, sized: bool): State<R> {
    var d := s.disk;
    match s.pc
    case Down => s
    case Reading => s.(pc := AfterReading(schema, d))
    case Restoring(v) =>
      if v in d.backups && d.backups[v] != Missing
      then s.(disk := d.(db := Torn), pc := CopyingBack(v))
      else s.(pc := Down)
    case CopyingBack(v) => s.(disk := d.(db := if v in d.backups then d.backups[v] else Torn), pc := Unmarking)
    case Removing => s.(disk := d.(db := Missing), pc := Unmarking)
    case Unmarking => s.(disk := d.(marker := NoMarker), pc := Opening)
    case Opening => s.(disk := d.(db := Opens(schema, d.db)), pc := Opened(Existed(schema, d.db, sized)))
    case Opened(existed) => s.(pc := AfterOpened(schema, d.db, existed))
    case BackingUp(v) => s.(disk := d.(backups := d.backups[v := Torn]), pc := CopyingOut(v))
    case CopyingOut(v) => s.(disk := d.(backups := d.backups[v := d.db]), pc := Marking(v, Some(v)))
    case Marking(v, b) => s.(disk := d.(marker := TornMarker), pc := WritingMarker(v, b))
    case WritingMarker(v, b) => s.(disk := d.(marker := Marker(v, schema.target, b)), pc := Migrating)
    case Migrating =>
      if d.db.Whole? then s.(disk := d.(db := Whole(Upgraded(schema, d.db.image))), pc := Finishing) else s.(pc := Down)
    case Finishing => s.(disk := d.(marker := NoMarker), pc := Ready)
    case Ready => s
  }

  /** Everything that can happen: init starts or moves on, the process stops at any point
      (a failed file operation or transaction stops it where it is), and a ready store
      commits new rows. */
  datatype Step<R> = Start | Move(sized: bool) | Crash | Commit(rows: R)

  function Next<R(==)>(schema: Schema<R>, s: State<R>, step: Step<R>): State<R> {
    match step
    case Start => if s.pc.Down? then s.(pc := Reading) else s
    case Move(sized) => Go(schema, s, sized)
    case Crash => s.(pc := Down)
    case Commit(rows) =>
      if s.pc.Ready? && s.disk.db.Whole? then
        var image := Image(s.disk.db.image.version, rows);
        s.(disk := s.disk.(db := Whole(image)), kept := image)
      else s
  }

  function Run<R(==)>(schema: Schema<R>, s: State<R>, steps: seq<Step<R>>): State<R>
    decreases |steps|
  {
    if steps == [] then s else Run(schema, Next(schema, s, steps[0]), steps[1..])
  }

  // ---------- what every crash schedule keeps ----------

  /** The database is the kept image, untouched. */
  predicate Untouched<R(==)>(schema: Schema<R>, s: State<R>) {
    s.disk.db == Whole(s.kept) || (s.disk.db == Missing && s.kept == Blank(schema))
  }

  predicate Migrated<R(==)>(schema: Schema<R>, s: State<R>) {
    s.disk.db == Whole(Upgraded(schema, s.kept)) && s.kept.version <= schema.target
  }

  predicate HasBackup<R(==)>(s: State<R>, v: nat) {
    v == s.kept.version && v in s.disk.backups && s.disk.backups[v] == Whole(s.kept)
  }

  /** A whole marker was written by this release for the kept image, and what it names
      is the kept image. */
  predicate MarkerInv<R(==)>(schema: Schema<R>, s: State<R>)
    requires s.disk.marker.Marker?
  {
    var m := s.disk.marker;
    && m.target == schema.target && m.from == s.kept.version < schema.target
    && match m.backup
       case Some(v) => HasBackup(s, v) && (Untouched(schema, s) || Migrated(schema, s) || s.disk.db == Torn)
       case None => s.kept == Blank(schema) && (Untouched(schema, s) || Migrated(schema, s))
  }

  predicate DiskInv<R(==)>(schema: Schema<R>, s: State<R>) {
    match s.disk.marker
    case NoMarker => Untouched(schema, s) || Migrated(schema, s)
    case TornMarker => Untouched(schema, s)
    case Marker(_, _, _) => MarkerInv(schema, s)
  }

  predicate BackupNamed<R(==)>(schema: Schema<R>, s: State<R>, from: nat, backup: Option<nat>) {
    && s.disk.db == Whole(s.kept) && from == s.kept.version < schema.target
    && match backup
       case Some(v) => HasBackup(s, v)
       case None => s.kept == Blank(schema)
  }

  predicate PcInv<R(==)>(schema: Schema<R>, s: State<R>) {
    var m := s.disk.marker;
    match s.pc
    case Down => true
    case Reading => true
    case Restoring(v) => m.Marker? && m.backup == Some(v)
    case CopyingBack(v) => m.Marker? && m.backup == Some(v)
    case Removing => m.Marker? && m.backup == None
    case Unmarking => m.Marker? && s.disk.db != Torn
    case Opening => m.NoMarker?
    case Opened(existed) =>
      m.NoMarker? && s.disk.db.Whole?
      && (!existed ==> s.disk.db.image.version >= schema.target || s.kept == Blank(schema))
    case BackingUp(v) => m.NoMarker? && s.disk.db == Whole(s.kept) && v == s.kept.version < schema.target
    case CopyingOut(v) => m.NoMarker? && s.disk.db == Whole(s.kept) && v == s.kept.version < schema.target
    case Marking(v, b) => m.NoMarker? && BackupNamed(schema, s, v, b)
    case WritingMarker(v, b) => m.TornMarker? && BackupNamed(schema, s, v, b)
    case Migrating => m.Marker? && s.disk.db == Whole(s.kept)
    case Finishing => m.Marker? && Migrated(schema, s)
    case Ready => m.NoMarker? && Migrated(schema, s)
  }

  predicate Inv<R(==)>(schema: Schema<R>, s: State<R>) { DiskInv(schema, s) && PcInv(schema, s) }

  /** Any starting version, including a newer one or no database at all. */
  predicate Initial<R(==)>(schema: Schema<R>, s: State<R>) {
    s.pc == Down && s.disk.marker == NoMarker && Untouched(schema, s)
  }

  function Rank(pc: Pc): nat {
    match pc
    case Down => 0
    case Ready => 0
    case Finishing => 1
    case Migrating => 2
    case WritingMarker(_, _) => 3
    case Marking(_, _) => 4
    case CopyingOut(_) => 5
    case BackingUp(_) => 6
    case Opened(_) => 7
    case Opening => 8
    case Unmarking => 9
    case Removing => 10
    case CopyingBack(_) => 10
    case Restoring(_) => 11
    case Reading => 12
  }

  predicate Recovering(pc: Pc) { Rank(pc) >= 9 }

  lemma RecoveryKeepsInv<R>(schema: Schema<R>, s: State<R>, sized: bool)
    requires Inv(schema, s) && Recovering(s.pc)
    ensures Inv(schema, Go(schema, s, sized))
  {
  }

  lemma MigrationKeepsInv<R>(schema: Schema<R>, s: State<R>, sized: bool)
    requires Inv(schema, s) && !Recovering(s.pc)
    ensures Inv(schema, Go(schema, s, sized))
  {
  }

  lemma StepKeepsInv<R>(schema: Schema<R>, s: State<R>, step: Step<R>)
    requires Inv(schema, s)
    ensures Inv(schema, Next(schema, s, step))
  {
    if step.Move? {
      if Recovering(s.pc) {
        RecoveryKeepsInv(schema, s, step.sized);
      } else {
        MigrationKeepsInv(schema, s, step.sized);
      }
    }
  }

  lemma {:induction false} RunKeepsInv<R>(schema: Schema<R>, s: State<R>, steps: seq<Step<R>>)
    requires Inv(schema, s)
    ensures Inv(schema, Run(schema, s, steps))
    decreases |steps|
  {
    if steps != [] {
      StepKeepsInv(schema, s, steps[0]);
      RunKeepsInv(schema, Next(schema, s, steps[0]), steps[1..]);
    }
  }

  /** Where the kept rows are found. */
  predicate Recoverable<R(==)>(schema: Schema<R>, s: State<R>) {
    || s.disk.db == Whole(s.kept) || s.disk.db == Whole(Upgraded(schema, s.kept))
    || s.kept == Blank(schema)
    || (s.disk.marker.Marker? && s.disk.marker.backup == Some(s.kept.version) && HasBackup(s, s.kept.version))
  }

  /** In every state of every schedule of crashes the kept rows are on the disk, and a
      store that is ready holds them, fully migrated, with no marker left. */
  lemma CrashSafety<R>(schema: Schema<R>, s: State<R>, steps: seq<Step<R>>)
    requires Initial(schema, s)
    ensures var t := Run(schema, s, steps);
            && Recoverable(schema, t)
            && (t.pc.Ready? ==> t.disk.marker == NoMarker && t.disk.db == Whole(Upgraded(schema, t.kept))
                                && t.disk.db.image.version == schema.target)
  {
    RunKeepsInv(schema, s, steps);
  }

  /** While nothing is committed, the kept image is the original one. */
  lemma {:induction false} OriginalKept<R>(schema: Schema<R>, s: State<R>, steps: seq<Step<R>>)
    requires forall i | 0 <= i < |steps| :: !steps[i].Commit?
    ensures Run(schema, s, steps).kept == s.kept
    decreases |steps|
  {
    if steps != [] {
      assert !steps[0].Commit?;
      OriginalKept(schema, Next(schema, s, steps[0]), steps[1..]);
    }
  }

  // ---------- when init completes ----------

  /** Init from where it is to its end, undisturbed. */
  function Finish<R(==)>(schema: Schema<R>, s: State<R>, sized: bool): State<R>
    decreases Rank(s.pc)
  {
    if s.pc.Down? || s.pc.Ready? then s else Finish(schema, Go(schema, s, sized), sized)
  }

  function Init<R(==)>(schema: Schema<R>, s: State<R>, sized: bool): State<R> {
    Finish(schema, s.(pc := Reading), sized)
  }

  /** Past the reading of the marker, an init on a database of this release or an older
      one runs to its end. */
  lemma {:induction false} FinishReady<R>(schema: Schema<R>, s: State<R>, sized: bool)
    requires Inv(schema, s) && !s.pc.Down? && !s.pc.Reading?
    ensures Finish(schema, s, sized).kept == s.kept && Inv(schema, Finish(schema, s, sized))
    ensures Finish(schema, s, sized).pc == if s.kept.version <= schema.target then Ready else Down
    ensures s.kept.version > schema.target ==> Finish(schema, s, sized).disk == s.disk
    decreases Rank(s.pc)
  {
    if !s.pc.Ready? {
      StepKeepsInv(schema, s, Move(sized));
      var t := Go(schema, s, sized);
      if t.pc.Down? {
        assert s.pc.Opened?;
      } else {
        FinishReady(schema, t, sized);
      }
    }
  }

  /** Exactly when an undisturbed init completes, from any state that any schedule of
      crashes leaves: unless the crash cut the marker short, or the database is of a newer
      release. Then every init fails and changes nothing. */
  lemma CompletesExactly<R>(schema: Schema<R>, s: State<R>, sized: bool)
    requires Inv(schema, s) && s.pc.Down?
    ensures var t := Init(schema, s, sized);
            if s.disk.marker != TornMarker && s.kept.version <= schema.target
            then t.pc.Ready? && t.disk.marker == NoMarker && t.disk.db == Whole(Upgraded(schema, s.kept))
            else t.pc.Down? && t.disk == s.disk
  {
    var start := s.(pc := Reading);
    StepKeepsInv(schema, start, Move(sized));
    var t := Go(schema, start, sized);
    assert Init(schema, s, sized) == Finish(schema, t, sized);
    if !t.pc.Down? {
      FinishReady(schema, t, sized);
    }
  }

  /** A marker that recovery refuses blocks the store for good: under any schedule no init
      completes and the files stay as they are. */
  lemma {:induction false} BlockedForever<R>(schema: Schema<R>, s: State<R>, steps: seq<Step<R>>)
    requires Blocked(schema, s.disk.marker) && (s.pc.Down? || s.pc.Reading?)
    ensures Run(schema, s, steps).disk == s.disk && !Run(schema, s, steps).pc.Ready?
    decreases |steps|
  {
    if steps != [] {
      BlockedForever(schema, Next(schema, s, steps[0]), steps[1..]);
    }
  }

  lemma RunFour<R>(schema: Schema<R>, s: State<R>, a: Step<R>, b: Step<R>, c: Step<R>, d: Step<R>, rest: seq<Step<R>>)
    ensures Run(schema, s, [a, b, c, d] + rest) ==
            Run(schema, Next(schema, Next(schema, Next(schema, Next(schema, s, a), b), c), d), rest)
  {
    var all := [a, b, c, d] + rest;
    var s1 := Next(schema, s, a);
    var s2 := Next(schema, s1, b);
    var s3 := Next(schema, s2, c);
    assert Run(schema, s, all) == Run(schema, s1, all[1..]);
    assert all[1..][1..] == all[2..] && all[2..][1..] == all[3..] && all[3..][1..] == rest;
    assert Run(schema, s1, all[1..]) == Run(schema, s2, all[2..]);
    assert Run(schema, s2, all[2..]) == Run(schema, s3, all[3..]);
  }

  /** The marker can indeed be cut short: a crash while it is written, on any database
      that was to be migrated. */
  lemma MarkerCanBeTorn<R>(schema: Schema<R>, image: Image<R>, sized: bool) returns (steps: seq<Step<R>>)
    requires image.version < schema.target && image != Blank(schema)
    ensures var s := State(Disk(Whole(image), map[], NoMarker), Down, image);
            var t := Run(schema, s, steps);
            Initial(schema, s) && t.pc == Down && t.disk.marker == TornMarker && t.disk.db == Whole(image)
  {
    var s := State(Disk(Whole(image), map[], NoMarker), Down, image);
    var m := Move(sized);
    var rest := [m, m, m, Crash] + [];
    steps := [Start, m, m, m] + rest;
    RunFour(schema, s, Start, m, m, m, rest);
    RunFour(schema, s.(pc := BackingUp(image.version)), m, m, m, Crash, []);
  }
}
