/** The init method of the two stores as it runs undisturbed, in its own imperative form. */
module MigrationInit {
  import opened Results
  import opened Migration

  datatype InitError = InvalidMarker | UntrustedMarker | BackupMissing | Unreadable | Incompatible(version: nat)

  lemma Forward<R>(schema: Schema<R>, s: State<R>, sized: bool)
    ensures Finish(schema, s, sized) == Finish(schema, Go(schema, s, sized), sized)
  {
  }

  class Store<R(==)> {
    const schema: Schema<R>
    var db: File<R>
    var backups: map<nat, File<R>>
    var marker: Marker

    constructor (schema: Schema<R>, disk: Disk<R>)
      ensures this.schema == schema && Contents() == disk
    {
      this.schema := schema;
      db, backups, marker := disk.db, disk.backups, disk.marker;
    }

    function Contents(): Disk<R>
      reads this
    {
      Disk(db, backups, marker)
    }

    /** Where the rest of init leads, once it has got to `pc`. */
    ghost function From(pc: Pc, kept: Image<R>, sized: bool): State<R>
      reads this
    {
      Finish(schema, State(Contents(), pc, kept), sized)
    }

    method RecoverInterruptedMigration(ghost kept: Image<R>, ghost sized: bool) returns (r: Result<(), InitError>)
      modifies this
      ensures r.Ok? ==> old(From(Reading, kept, sized)) == From(Opening, kept, sized)
      ensures r.Err? ==> old(From(Reading, kept, sized)) == State(Contents(), Down, kept)
      ensures old(marker) == NoMarker ==> r == Ok(()) && Contents() == old(Contents())
      ensures Blocked(schema, old(marker)) ==>
                r == Err(if old(marker).TornMarker? then InvalidMarker else UntrustedMarker)
      ensures r.Ok? ==> marker == NoMarker
    {
      Forward(schema, State(Contents(), Reading, kept), sized);
      if marker == NoMarker {
        return Ok(());
      }
      if marker.TornMarker? {
        return Err(InvalidMarker);
      }
      if schema.checksMarker && !Trusted(schema, marker) {
        return Err(UntrustedMarker);
      }
      var completed := Completed(db, marker.target);
      if !completed {
        if marker.backup.Some? {
          var v := marker.backup.value;
          Forward(schema, State(Contents(), Restoring(v), kept), sized);
          if v !in backups || backups[v] == Missing {
            return Err(BackupMissing);
          }
          db := Torn;
          Forward(schema, State(Contents(), CopyingBack(v), kept), sized);
          db := backups[v];
        } else {
          Forward(schema, State(Contents(), Removing, kept), sized);
          db := Missing;
        }
      }
      Forward(schema, State(Contents(), Unmarking, kept), sized);
      marker := NoMarker;
      return Ok(());
    }

    method Migrate(from: nat, existed: bool, ghost kept: Image<R>, ghost sized: bool)
      requires db.Whole?
      modifies this
      ensures old(From(if existed then BackingUp(from) else Marking(from, None), kept, sized)) ==
              State(Contents(), Ready, kept)
      ensures marker == NoMarker && db == Whole(Upgraded(schema, old(db.image)))
      ensures backups == if existed then old(backups)[from := old(db)] else old(backups)
    {
      var backup := if existed then Some(from) else None;
      if existed {
        Forward(schema, State(Contents(), BackingUp(from), kept), sized);
        backups := backups[from := Torn];
        Forward(schema, State(Contents(), CopyingOut(from), kept), sized);
        backups := backups[from := db];
      }
      Forward(schema, State(Contents(), Marking(from, backup), kept), sized);
      marker := TornMarker;
      Forward(schema, State(Contents(), WritingMarker(from, backup), kept), sized);
      marker := Marker(from, schema.target, backup);
      Forward(schema, State(Contents(), Migrating, kept), sized);
      db := Whole(Upgraded(schema, db.image));
      Forward(schema, State(Contents(), Finishing, kept), sized);
      marker := NoMarker;
    }

    /** Init is the undisturbed run of the step machine, so CompletesExactly says when it
        succeeds and what it leaves. */
    method Init(sized: bool, ghost kept: Image<R>) returns (r: Result<(), InitError>)
      modifies this
      ensures State(Contents(), if r.Ok? then Ready else Down, kept) ==
              old(Migration.Init(schema, State(Contents(), Down, kept), sized))
    {
      var recovered := RecoverInterruptedMigration(kept, sized);
      if recovered.Err? {
        return recovered;
      }
      Forward(schema, State(Contents(), Opening, kept), sized);
      var existed := Existed(schema, db, sized);
      db := Opens(schema, db);
      Forward(schema, State(Contents(), Opened(existed), kept), sized);
      if !db.Whole? {
        return Err(Unreadable);
      }
      if db.image.version > schema.target {
        return Err(Incompatible(db.image.version));
      }
      if db.image.version < schema.target {
        Migrate(db.image.version, existed, kept, sized);
      }
      return Ok(());
    }
  }
}
