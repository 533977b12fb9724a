/** Publication, copy and move of workspace files: apps/agent/src/files.js. Every file
    system call may fail, unless its kind is said to be reliable; `trace` is a ghost that
    records every state of the disk. */
module Files {
  import opened Results
  import opened PathPolicy

  type Name = string
  type Inode = nat
  type Bytes = seq<int>

  datatype Node = Regular(inode: Inode) | Directory | Symlink

  datatype Disk = Disk(names: map<Name, Node>, data: map<Inode, Bytes>)

  datatype FileError =
    | TransferBusy | TooLarge | StorageReserve | DestinationExists | UnsupportedComplex | CrossDevice | PathRefused
    | NotFound | Exists | IsDirectory | Loop | Failed(call: Call)

  datatype Call =
    | OpenCall | StatCall | StatfsCall | WriteCall | RenameCall | LinkCall | UnlinkCall | RemoveCall | ParentCall
    | CloseCall

  ghost predicate WellFormed(d: Disk) {
    forall n | n in d.names && d.names[n].Regular? :: d.names[n].inode in d.data
  }

  predicate RegularAt(d: Disk, n: Name) { n in d.names && d.names[n].Regular? }

  predicate DirectoryAt(d: Disk, n: Name) { n in d.names && d.names[n].Directory? }

  /** The file of this name holds these bytes. */
  predicate Holds(d: Disk, n: Name, bytes: Bytes) {
    n in d.names && d.names[n].Regular? && d.names[n].inode in d.data && d.data[d.names[n].inode] == bytes
  }

  /** rename(2): two names of one file are left as they are. */
  function Renamed(d: Disk, from: Name, to: Name): Disk
    requires from in d.names
  {
    if to in d.names && d.names[from].Regular? && d.names[to] == d.names[from] then d
    else d.(names := (d.names - {from})[to := d.names[from]])
  }

  /** Nothing but the names in `changing` is different, and no file that existed has other
      contents. */
  ghost predicate Apart(before: Disk, after: Disk, changing: set<Name>) {
    && after.names - changing == before.names - changing
    && forall i | i in before.data :: i in after.data && after.data[i] == before.data[i]
  }

  predicate SameEntry(before: Disk, after: Disk, n: Name) {
    (n in after.names <==> n in before.names) && (n in before.names ==> after.names[n] == before.names[n])
  }

  lemma ApartElsewhere(before: Disk, after: Disk, changing: set<Name>, n: Name)
    requires Apart(before, after, changing) && n !in changing
    ensures SameEntry(before, after, n)
  {
    assert n in after.names <==> n in after.names - changing;
    assert n in before.names <==> n in before.names - changing;
    assert n in after.names ==> (after.names - changing)[n] == after.names[n];
    assert n in before.names ==> (before.names - changing)[n] == before.names[n];
  }

  /** A publication: where, through which temporary name, what, and whether it may replace
      what is there. */
  datatype Publication = Publication(destination: Name, temporary: Name, content: Bytes, overwrite: bool)

  /** A state of the disk during a publication: the destination is what it was, or the
      whole new content; without overwrite nothing is replaced. */
  ghost predicate Publishes(before: Disk, after: Disk, p: Publication) {
    && Apart(before, after, {p.temporary, p.destination})
    && (SameEntry(before, after, p.destination)
        || (Holds(after, p.destination, p.content) && (p.overwrite || p.destination !in before.names)))
  }

  ghost predicate AllPublish(before: Disk, trace: seq<Disk>, start: nat, p: Publication) {
    forall k | start <= k < |trace| :: Publishes(before, trace[k], p)
  }

  /** The temporary name holds a new file, and nothing else has changed. */
  ghost predicate Staged(before: Disk, now: Disk, p: Publication, inode: Inode) {
    && p.temporary != p.destination && p.temporary !in before.names
    && inode !in before.data && inode in now.data
    && now.names == before.names[p.temporary := Regular(inode)]
    && now.data == before.data[inode := now.data[inode]]
  }

  lemma StagedPublishes(before: Disk, now: Disk, p: Publication, inode: Inode)
    requires Staged(before, now, p, inode)
    ensures Publishes(before, now, p)
  {
  }

  lemma SamePublishes(d: Disk, p: Publication)
    ensures Publishes(d, d, p)
  {
  }

  /** Appending to the new file keeps it staged. */
  lemma AppendStages(before: Disk, now: Disk, p: Publication, inode: Inode, bytes: Bytes)
    requires Staged(before, now, p, inode)
    ensures Staged(before, now.(data := now.data[inode := bytes]), p, inode)
  {
  }

  predicate HasEntry(d: Disk, n: Name, node: Node) { n in d.names && d.names[n] == node }

  /** A state of the disk during a move: the file is reachable at its source or at its
      destination, and nothing else has changed. */
  ghost predicate Moves(before: Disk, after: Disk, source: Name, destination: Name, node: Node) {
    && Apart(before, after, {source, destination}) && after.data == before.data
    && (HasEntry(after, source, node) || HasEntry(after, destination, node))
    && (HasEntry(after, destination, node) || SameEntry(before, after, destination))
  }

  ghost predicate AllMove(before: Disk, trace: seq<Disk>, start: nat, source: Name, destination: Name, node: Node) {
    forall k | start <= k < |trace| :: Moves(before, trace[k], source, destination, node)
  }

  function Concat(chunks: seq<Bytes>): Bytes {
    if chunks == [] then [] else Concat(chunks[..|chunks| - 1]) + chunks[|chunks| - 1]
  }

  lemma {:induction false} ConcatGrows(chunks: seq<Bytes>, i: nat)
    requires i <= |chunks|
    ensures |Concat(chunks[..i])| <= |Concat(chunks)|
    decreases |chunks| - i
  {
    if i == |chunks| {
      assert chunks[..i] == chunks;
    } else {
      ConcatGrows(chunks, i + 1);
      assert chunks[..i + 1][..i] == chunks[..i];
    }
  }

  /** The calls that publish a file once it has been written, and write it. */
  function PublishCalls(overwrite: bool): set<Call> {
    {WriteCall} + if overwrite then {RenameCall} else {LinkCall, UnlinkCall}
  }

  function ErrorOf<T>(r: Result<T, FileError>): Option<FileError> { if r.Err? then Some(r.error) else None }

  /** What stands against a publication when no call fails: it does not replace what it was
      not told to replace, nor a directory. */
  function Obstacle(d: Disk, p: Publication): Option<FileError> {
    if p.destination !in d.names then None
    else if !p.overwrite then Some(DestinationExists)
    else if d.names[p.destination].Directory? then Some(IsDirectory)
    else None
  }

  function UploadCalls(overwrite: bool): set<Call> { {ParentCall, StatfsCall} + PublishCalls(overwrite) }

  class FileManager {
    const maxConcurrent: nat
    const uploadMaxBytes: nat
    const reliable: set<Call> // calls of these kinds do not fail
    const broken: set<Call> // calls of these kinds do; all others may
    var activeTransfers: nat
    var disk: Disk
    ghost var trace: seq<Disk>
    ghost var strays: set<Name> // temporary files whose removal failed

    constructor (maxConcurrent: nat, uploadMaxBytes: nat, reliable: set<Call>, broken: set<Call>, disk: Disk)
      ensures this.maxConcurrent == maxConcurrent && this.uploadMaxBytes == uploadMaxBytes
      ensures this.reliable == reliable && this.broken == broken
      ensures this.disk == disk && activeTransfers == 0 && strays == {}
    {
      this.maxConcurrent, this.uploadMaxBytes := maxConcurrent, uploadMaxBytes;
      this.reliable, this.broken := reliable, broken;
      this.disk, activeTransfers, strays := disk, 0, {};
    }

    // ---------- file system calls ----------

    method Fails(call: Call) returns (fails: bool)
      ensures call in reliable ==> !fails
      ensures call in broken && call !in reliable ==> fails
    {
      fails := *;
      fails := call !in reliable && (fails || call in broken);
    }

    method Rename(from: Name, to: Name) returns (r: Result<(), FileError>)
      modifies `disk, `trace
      ensures r.Ok? ==> from in old(disk.names) && disk == Renamed(old(disk), from, to) && trace == old(trace) + [disk]
      ensures r.Ok? && to in old(disk.names) ==> !old(disk.names[to]).Directory?
      ensures r.Err? ==> disk == old(disk) && trace == old(trace)
      ensures r.Err? ==> r.error in {NotFound, IsDirectory, CrossDevice, Failed(RenameCall)}
      ensures r == Err(IsDirectory) ==> to in old(disk.names) && old(disk.names)[to].Directory?
      ensures RenameCall in reliable && from in old(disk.names) ==>
                (r == Err(IsDirectory) <==> to in old(disk.names) && old(disk.names)[to].Directory?)
                && (r.Err? ==> r.error == IsDirectory)
    {
      var fails := Fails(RenameCall);
      var crosses: bool := *;
      if from !in disk.names {
        return Err(NotFound);
      }
      if to in disk.names && disk.names[to].Directory? {
        return Err(IsDirectory);
      }
      if fails {
        return Err(if crosses then CrossDevice else Failed(RenameCall));
      }
      disk := Renamed(disk, from, to);
      trace := trace + [disk];
      return Ok(());
    }

    method Link(from: Name, to: Name) returns (r: Result<(), FileError>)
      modifies `disk, `trace
      ensures r.Ok? ==> from in old(disk.names) && to !in old(disk.names)
                        && disk == old(disk).(names := old(disk.names)[to := old(disk.names)[from]])
                        && trace == old(trace) + [disk]
      ensures r.Err? ==> disk == old(disk) && trace == old(trace)
      ensures r == Err(Exists) <==> from in old(disk.names) && to in old(disk.names)
      ensures LinkCall in reliable && from in old(disk.names) ==> (r.Err? <==> to in old(disk.names))
      ensures r.Err? ==> r.error in {NotFound, Exists, CrossDevice, Failed(LinkCall)}
    {
      var fails := Fails(LinkCall);
      var crosses: bool := *;
      if from !in disk.names {
        return Err(NotFound);
      }
      if to in disk.names {
        return Err(Exists);
      }
      if fails {
        return Err(if crosses then CrossDevice else Failed(LinkCall));
      }
      disk := disk.(names := disk.names[to := disk.names[from]]);
      trace := trace + [disk];
      return Ok(());
    }

    method Unlink(name: Name) returns (r: Result<(), FileError>)
      modifies `disk, `trace
      ensures r.Ok? ==> name in old(disk.names) && trace == old(trace) + [disk]
                        && disk == old(disk).(names := old(disk.names) - {name})
      ensures r.Err? ==> disk == old(disk) && trace == old(trace)
      ensures r.Err? ==> r.error == Failed(UnlinkCall) || (r.error == NotFound && name !in old(disk.names))
      ensures UnlinkCall in reliable && name in old(disk.names) ==> r.Ok?
    {
      var fails := Fails(UnlinkCall);
      if name !in disk.names {
        return Err(NotFound);
      }
      if fails {
        return Err(Failed(UnlinkCall));
      }
      disk := disk.(names := disk.names - {name});
      trace := trace + [disk];
      return Ok(());
    }

    method Create(name: Name, inode: Inode) returns (r: Result<(), FileError>)
      requires inode !in disk.data
      modifies `disk, `trace
      ensures r.Ok? ==> name !in old(disk.names) && trace == old(trace) + [disk]
                        && disk == Disk(old(disk.names)[name := Regular(inode)], old(disk.data)[inode := []])
      ensures r.Err? ==> disk == old(disk) && trace == old(trace) && r.error in {Exists, Failed(WriteCall)}
      ensures WriteCall in reliable && name !in old(disk.names) ==> r.Ok?
    {
      var fails := Fails(WriteCall);
      if name in disk.names {
        return Err(Exists);
      }
      if fails {
        return Err(Failed(WriteCall));
      }
      disk := Disk(disk.names[name := Regular(inode)], disk.data[inode := []]);
      trace := trace + [disk];
      return Ok(());
    }

    /** A write that fails may have written a part. */
    method Append(inode: Inode, bytes: Bytes) returns (r: Result<(), FileError>)
      requires inode in disk.data
      modifies `disk, `trace
      ensures exists n: nat | n <= |bytes| ::
                disk == old(disk).(data := old(disk.data)[inode := old(disk.data)[inode] + bytes[..n]])
                && (r.Ok? ==> n == |bytes|)
      ensures trace == old(trace) + [disk]
      ensures r.Err? ==> r.error == Failed(WriteCall) && WriteCall !in reliable
    {
      var fails := Fails(WriteCall);
      var written: int := *;
      if !fails || !(0 <= written <= |bytes|) {
        written := |bytes|;
      }
      disk := disk.(data := disk.data[inode := disk.data[inode] + bytes[..written]]);
      trace := trace + [disk];
      return if fails then Err(Failed(WriteCall)) else Ok(());
    }

    // ---------- publication ----------

    /** The destination names the new file. */
    predicate Published(d: Disk, p: Publication, inode: Inode) { HasEntry(d, p.destination, Regular(inode)) }

    /** What the outcome of a publication says of its destination. */
    ghost predicate Tells(before: Disk, after: Disk, p: Publication, inode: Inode, r: Result<nat, FileError>) {
      && (Published(after, p, inode) <==> r.Ok? || r == Err(Failed(UnlinkCall)))
      && (Published(after, p, inode) ==> Holds(after, p.destination, p.content))
      && (!Published(after, p, inode) ==> SameEntry(before, after, p.destination))
      && (r.Ok? ==> r.value == |p.content| <= uploadMaxBytes)
      && (r.Err? ==> r.error != Failed(CloseCall))
    }

    method CommitTemporary(p: Publication, inode: Inode, ghost before: Disk) returns (r: Result<(), FileError>)
      requires WellFormed(before) && Staged(before, disk, p, inode) && disk.data[inode] == p.content
      modifies `disk, `trace
      ensures old(trace) <= trace
      ensures AllPublish(before, trace, |old(trace)|, p) && Publishes(before, disk, p)
      ensures r.Ok? ==> disk == Disk(before.names[p.destination := Regular(inode)], old(disk.data))
                        && (p.overwrite || p.destination !in before.names)
      ensures r == Err(Failed(UnlinkCall)) ==>
                disk == Disk(old(disk.names)[p.destination := Regular(inode)], old(disk.data))
                && !p.overwrite && p.destination !in before.names
      ensures r.Err? && r.error != Failed(UnlinkCall) ==> disk == old(disk)
      ensures r == Err(DestinationExists) <==> !p.overwrite && p.destination in before.names
      ensures r.Err? ==> r.error !in {PathRefused, Failed(CloseCall)}
      ensures PublishCalls(p.overwrite) <= reliable ==> ErrorOf(r) == Obstacle(before, p)
    {
      if p.overwrite {
        r := Rename(p.temporary, p.destination);
        return;
      }
      var linked := Link(p.temporary, p.destination);
      if linked.Err? {
        return Err(if linked.error == Exists then DestinationExists else linked.error);
      }
      r := Unlink(p.temporary);
    }

    /** rm with force, its failure ignored. */
    method RemoveQuietly(name: Name)
      modifies `disk, `trace, `strays
      ensures name in disk.names ==> disk == old(disk) && name in strays
      ensures name !in disk.names ==> disk == old(disk).(names := old(disk.names) - {name}) && strays == old(strays)
      ensures old(strays) <= strays
      ensures trace == old(trace) + [disk]
    {
      var fails := Fails(RemoveCall);
      if fails && name in disk.names {
        strays := strays + {name};
      } else {
        disk := disk.(names := disk.names - {name});
      }
      trace := trace + [disk];
    }

    /** The body of an upload, through the meter, into the temporary file. */
    method WriteChunks(chunks: seq<Bytes>, p: Publication, inode: Inode, ghost before: Disk)
      returns (r: Result<nat, FileError>)
      requires WellFormed(before) && Staged(before, disk, p, inode) && inode in disk.data && disk.data[inode] == []
      modifies `disk, `trace
      ensures Staged(before, disk, p, inode)
      ensures old(trace) <= trace && AllPublish(before, trace, |old(trace)|, p)
      ensures r.Ok? ==> disk.data[inode] == Concat(chunks) && r.value == |Concat(chunks)| <= uploadMaxBytes
      ensures r.Err? ==> r.error in {TooLarge, StorageReserve, Failed(WriteCall)}
      ensures {WriteCall, StatfsCall} <= reliable ==>
                r == if |Concat(chunks)| <= uploadMaxBytes then Ok(|Concat(chunks)|) else Err(TooLarge)
    {
      hide Publishes, Staged;
      var size := 0;
      for i := 0 to |chunks|
        invariant size == |Concat(chunks[..i])| && (i > 0 ==> size <= uploadMaxBytes)
        invariant Staged(before, disk, p, inode) && inode in disk.data && disk.data[inode] == Concat(chunks[..i])
        invariant old(trace) <= trace && AllPublish(before, trace, |old(trace)|, p)
      {
        assert chunks[..i + 1][..i] == chunks[..i];
        size := size + |chunks[i]|;
        if size > uploadMaxBytes {
          ConcatGrows(chunks, i + 1);
          return Err(TooLarge);
        }
        var short := Fails(StatfsCall);
        if short {
          return Err(StorageReserve);
        }
        ghost var staged := disk;
        var written := Append(inode, chunks[i]);
        AppendStages(before, staged, p, inode, disk.data[inode]);
        StagedPublishes(before, disk, p, inode);
        if written.Err? {
          return Err(written.error);
        }
        assert chunks[i][..|chunks[i]|] == chunks[i];
      }
      assert chunks[..|chunks|] == chunks;
      return Ok(size);
    }

    /** The removal of the temporary file after a failure. */
    method CleanUp(p: Publication, ghost before: Disk)
      requires Publishes(before, disk, p) && p.temporary != p.destination && p.temporary !in before.names
      modifies `disk, `trace, `strays
      ensures old(trace) <= trace && AllPublish(before, trace, |old(trace)|, p) && Publishes(before, disk, p)
      ensures p.temporary in disk.names ==> p.temporary in strays
      ensures SameEntry(old(disk), disk, p.destination) && disk.data == old(disk.data)
    {
      RemoveQuietly(p.temporary);
    }

    /** Creates, fills and publishes the temporary file. */
    method StageAndCommit(chunks: seq<Bytes>, p: Publication, inode: Inode) returns (r: Result<nat, FileError>)
      requires WellFormed(disk) && p.temporary != p.destination && p.temporary !in disk.names && inode !in disk.data
      requires p.content == Concat(chunks)
      modifies `disk, `trace
      ensures old(trace) <= trace && AllPublish(old(disk), trace, |old(trace)|, p) && Publishes(old(disk), disk, p)
      ensures r.Ok? ==> p.temporary !in disk.names
      ensures Tells(old(disk), disk, p, inode, r)
      ensures !p.overwrite && p.destination in old(disk.names) ==> r.Err?
      ensures r == Err(Failed(UnlinkCall)) ==> !p.overwrite
      ensures UploadCalls(p.overwrite) <= reliable ==> ErrorOf(r) == Refusal(old(disk), p, None)
    {
      hide Publishes;
      ghost var before := disk;
      var created := Create(p.temporary, inode);
      if created.Err? {
        SamePublishes(before, p);
        return Err(created.error);
      }
      StagedPublishes(before, disk, p, inode);
      ghost var first := trace;
      r := WriteChunks(chunks, p, inode, before);
      assert AllPublish(before, trace, |old(trace)|, p) by {
        assert Publishes(before, first[|old(trace)|], p);
      }
      StagedPublishes(before, disk, p, inode);
      if r.Err? {
        return;
      }
      var parentLost := Fails(ParentCall);
      if parentLost {
        return Err(Failed(ParentCall));
      }
      ghost var second := trace;
      var committed := CommitTemporary(p, inode, before);
      assert AllPublish(before, trace, |old(trace)|, p) by {
        forall k | |old(trace)| <= k < |trace| ensures Publishes(before, trace[k], p) {
          assert k < |second| ==> trace[k] == second[k];
        }
      }
      if committed.Err? {
        return Err(committed.error);
      }
    }

    /** Publishes the chunks, and removes the temporary file when anything fails. */
    method PublishChunks(chunks: seq<Bytes>, p: Publication, inode: Inode) returns (r: Result<nat, FileError>)
      requires WellFormed(disk) && p.temporary != p.destination && p.temporary !in disk.names && inode !in disk.data
      requires p.content == Concat(chunks)
      modifies `disk, `trace, `strays
      ensures old(trace) <= trace && AllPublish(old(disk), trace, |old(trace)|, p) && Publishes(old(disk), disk, p)
      ensures p.temporary in disk.names ==> r.Err? && p.temporary in strays
      ensures Tells(old(disk), disk, p, inode, r)
      ensures !p.overwrite && p.destination in old(disk.names) ==> r.Err?
      ensures r == Err(Failed(UnlinkCall)) ==> !p.overwrite
      ensures UploadCalls(p.overwrite) <= reliable ==> ErrorOf(r) == Refusal(old(disk), p, None)
    {
      ghost var before := disk;
      r := StageAndCommit(chunks, p, inode);
      ghost var staged := trace;
      if r.Err? {
        CleanUp(p, before);
      }
      assert AllPublish(before, trace, |old(trace)|, p) by {
        forall k | |old(trace)| <= k < |trace| ensures Publishes(before, trace[k], p) {
          assert k < |staged| ==> trace[k] == staged[k];
        }
      }
    }

    // ---------- transfers ----------

    method AcquireTransfer() returns (r: Result<(), FileError>)
      modifies `activeTransfers
      ensures r == if old(activeTransfers) >= maxConcurrent then Err(TransferBusy) else Ok(())
      ensures activeTransfers == old(activeTransfers) + if r.Ok? then 1 else 0
      ensures old(activeTransfers) <= maxConcurrent ==> activeTransfers <= maxConcurrent
    {
      if activeTransfers >= maxConcurrent {
        return Err(TransferBusy);
      }
      activeTransfers := activeTransfers + 1;
      return Ok(());
    }

    /** An upload, with the temporary name and the inode it happens to be given. `outcome` is
        what it comes to before the parent directory is closed: a failing close takes its
        place. So an error has published exactly when the publication went through and the
        close failed, or the unlink did; after any other the destination is what it was. */
    method Upload(chunks: seq<Bytes>, declaredLength: Option<nat>, p: Publication, inode: Inode)
      returns (r: Result<nat, FileError>, ghost outcome: Result<nat, FileError>)
      requires WellFormed(disk) && p.temporary != p.destination && p.temporary !in disk.names && inode !in disk.data
      requires p.content == Concat(chunks)
      modifies `activeTransfers, `disk, `trace, `strays
      ensures activeTransfers == old(activeTransfers)
      ensures old(activeTransfers) >= maxConcurrent ==> r == Err(TransferBusy) && disk == old(disk)
      ensures old(trace) <= trace && AllPublish(old(disk), trace, |old(trace)|, p) && Publishes(old(disk), disk, p)
      ensures p.temporary in disk.names ==> outcome.Err? && p.temporary in strays
      ensures !p.overwrite && p.destination in old(disk.names) ==> r.Err?
      ensures Tells(old(disk), disk, p, inode, outcome)
      ensures r == outcome || (r == Err(Failed(CloseCall)) && CloseCall !in reliable)
      ensures r.Err? ==> (Published(disk, p, inode) <==> outcome.Ok? || outcome == Err(Failed(UnlinkCall)))
      ensures r.Ok? || r == Err(Failed(UnlinkCall)) ==> Published(disk, p, inode)
      ensures r.Err? && r.error !in {Failed(UnlinkCall), Failed(CloseCall)} ==>
                SameEntry(old(disk), disk, p.destination)
      ensures UploadCalls(p.overwrite) <= reliable && old(activeTransfers) < maxConcurrent ==>
                && (outcome == Err(TooLarge) <==>
                      |p.content| > uploadMaxBytes
                      || (declaredLength.Some? && declaredLength.value > uploadMaxBytes))
                && (outcome != Err(TooLarge) ==>
                      && (outcome == Err(DestinationExists) <==> !p.overwrite && p.destination in old(disk.names))
                      && (outcome == Err(IsDirectory) <==>
                            p.overwrite && DirectoryAt(old(disk), p.destination))
                      && (outcome.Err? ==> outcome.error in {DestinationExists, IsDirectory}))
                && (CloseCall in broken - reliable ==> r == Err(Failed(CloseCall)))
    {
      var acquired := AcquireTransfer();
      if acquired.Err? {
        r := Err(acquired.error);
        return r, r;
      }
      var parentRefused := Fails(ParentCall);
      if parentRefused {
        r, outcome := Err(Failed(ParentCall)), Err(Failed(ParentCall));
      } else {
        r := UploadInto(chunks, declaredLength, p, inode);
        outcome := r;
        var closeFails := Fails(CloseCall);
        if closeFails {
          r := Err(Failed(CloseCall));
        }
      }
      activeTransfers := activeTransfers - 1;
    }

    predicate Declares(length: Option<nat>) { length.None? || length.value <= uploadMaxBytes }

    /** What stands against an upload when no call fails. */
    function Refusal(d: Disk, p: Publication, length: Option<nat>): Option<FileError> {
      if Declares(length) && |p.content| <= uploadMaxBytes then Obstacle(d, p) else Some(TooLarge)
    }

    /** An upload while its parent directory is held open. */
    method UploadInto(chunks: seq<Bytes>, declaredLength: Option<nat>, p: Publication, inode: Inode)
      returns (r: Result<nat, FileError>)
      requires WellFormed(disk) && p.temporary != p.destination && p.temporary !in disk.names && inode !in disk.data
      requires p.content == Concat(chunks)
      modifies `disk, `trace, `strays
      ensures old(trace) <= trace && AllPublish(old(disk), trace, |old(trace)|, p) && Publishes(old(disk), disk, p)
      ensures p.temporary in disk.names ==> r.Err? && p.temporary in strays
      ensures Tells(old(disk), disk, p, inode, r)
      ensures !p.overwrite && p.destination in old(disk.names) ==> r.Err?
      ensures UploadCalls(p.overwrite) <= reliable ==> ErrorOf(r) == Refusal(old(disk), p, declaredLength)
    {
      if !Declares(declaredLength) {
        return Err(TooLarge);
      }
      var short := Fails(StatfsCall);
      if short {
        return Err(StorageReserve);
      }
      r := PublishChunks(chunks, p, inode);
    }

    method StageCopy(p: Publication, inode: Inode) returns (r: Result<(), FileError>)
      requires WellFormed(disk) && p.temporary != p.destination && p.temporary !in disk.names && inode !in disk.data
      modifies `disk, `trace
      ensures old(trace) <= trace && AllPublish(old(disk), trace, |old(trace)|, p) && Publishes(old(disk), disk, p)
      ensures r.Ok? ==> p.temporary !in disk.names && Holds(disk, p.destination, p.content)
      ensures !p.overwrite && p.destination in old(disk.names) ==> r.Err?
      ensures r == Err(Failed(UnlinkCall)) ==> Holds(disk, p.destination, p.content) && !p.overwrite
      ensures r.Err? && r.error != Failed(UnlinkCall) ==> SameEntry(old(disk), disk, p.destination)
      ensures r.Err? ==> r.error !in {PathRefused, Failed(CloseCall)}
      ensures PublishCalls(p.overwrite) <= reliable ==> ErrorOf(r) == Obstacle(old(disk), p)
    {
      hide Publishes;
      ghost var before := disk;
      r := Create(p.temporary, inode);
      if r.Err? {
        SamePublishes(before, p);
        return;
      }
      StagedPublishes(before, disk, p, inode);
      r := Append(inode, p.content);
      StagedPublishes(before, disk, p, inode);
      assert AllPublish(before, trace, |old(trace)|, p);
      if r.Err? {
        return;
      }
      assert p.content[..|p.content|] == p.content;
      ghost var staged := trace;
      r := CommitTemporary(p, inode, before);
      assert AllPublish(before, trace, |old(trace)|, p) by {
        forall k | |old(trace)| <= k < |trace| ensures Publishes(before, trace[k], p) {
          assert k < |staged| ==> trace[k] == staged[k];
        }
      }
    }

    method PublishCopy(p: Publication, inode: Inode) returns (r: Result<(), FileError>)
      requires WellFormed(disk) && p.temporary != p.destination && p.temporary !in disk.names && inode !in disk.data
      modifies `disk, `trace, `strays
      ensures old(trace) <= trace && AllPublish(old(disk), trace, |old(trace)|, p) && Publishes(old(disk), disk, p)
      ensures p.temporary in disk.names ==> r.Err? && p.temporary in strays
      ensures r.Ok? ==> Holds(disk, p.destination, p.content)
      ensures !p.overwrite && p.destination in old(disk.names) ==> r.Err?
      ensures r == Err(Failed(UnlinkCall)) ==> Holds(disk, p.destination, p.content) && !p.overwrite
      ensures r.Err? && r.error != Failed(UnlinkCall) ==> SameEntry(old(disk), disk, p.destination)
      ensures r.Err? ==> r.error != PathRefused
      ensures PublishCalls(p.overwrite) <= reliable ==> ErrorOf(r) == Obstacle(old(disk), p)
    {
      ghost var before := disk;
      r := StageCopy(p, inode);
      ghost var staged := trace;
      if r.Err? {
        CleanUp(p, before);
      }
      assert AllPublish(before, trace, |old(trace)|, p) by {
        forall k | |old(trace)| <= k < |trace| ensures Publishes(before, trace[k], p) {
          assert k < |staged| ==> trace[k] == staged[k];
        }
      }
    }

    /** The bytes a copy publishes: those of the file at the source. */
    ghost function ContentOf(source: Name): Bytes
      reads `disk
    {
      if source in disk.names && disk.names[source].Regular? && disk.names[source].inode in disk.data
      then disk.data[disk.names[source].inode] else []
    }

    method Copy(from: Mutation, to: Mutation, overwrite: bool, temporary: Name, inode: Inode, ghost p: Publication)
      returns (r: Result<bool, FileError>)
      requires WellFormed(disk) && inode !in disk.data && temporary !in disk.names && temporary != DisplayPath(to)
      requires p == Publication(DisplayPath(to), temporary, ContentOf(DisplayPath(from)), overwrite)
      modifies `disk, `trace, `strays
      ensures r == Ok(false) <==> DisplayPath(from) == DisplayPath(to)
      ensures r == Err(PathRefused) <==>
              DisplayPath(from) != DisplayPath(to) && AssertNoDangerousOverlap(from, to).Err?
      ensures DisplayPath(from) != DisplayPath(to) && AssertNoDangerousOverlap(from, to).Ok?
              && {ParentCall, OpenCall, StatfsCall} + PublishCalls(overwrite) <= reliable ==>
                && (r == Err(NotFound) <==> DisplayPath(from) !in old(disk.names))
                && (r == Err(UnsupportedComplex) <==>
                      DisplayPath(from) in old(disk.names) && !old(disk.names)[DisplayPath(from)].Regular?)
                && (RegularAt(old(disk), DisplayPath(from)) ==>
                      && (r == Err(DestinationExists) <==> !overwrite && DisplayPath(to) in old(disk.names))
                      && (r == Err(IsDirectory) <==> overwrite && DirectoryAt(old(disk), DisplayPath(to)))
                      && (r.Ok? <==> if overwrite then !DirectoryAt(old(disk), DisplayPath(to))
                                     else DisplayPath(to) !in old(disk.names)))
      ensures r == Ok(false) || r == Err(PathRefused) ==> disk == old(disk) && trace == old(trace)
      ensures old(trace) <= trace && AllPublish(old(disk), trace, |old(trace)|, p) && Publishes(old(disk), disk, p)
      ensures temporary in disk.names ==> r.Err? && temporary in strays
      ensures r == Ok(true) ==>
                Holds(old(disk), DisplayPath(from), p.content) && Holds(disk, DisplayPath(to), p.content)
      ensures r == Ok(true) ==>
                SameEntry(old(disk), disk, DisplayPath(from)) && (overwrite || DisplayPath(to) !in old(disk.names))
      ensures r == Err(Failed(UnlinkCall)) ==> Holds(disk, DisplayPath(to), p.content) && !overwrite
      ensures r.Err? && r.error != Failed(UnlinkCall) ==> SameEntry(old(disk), disk, DisplayPath(to))
    {
      ghost var before := disk;
      var source, destination := DisplayPath(from), DisplayPath(to);
      if source == destination {
        return Ok(false);
      }
      if AssertNoDangerousOverlap(from, to).Err? {
        return Err(PathRefused);
      }
      var parentsRefused := Fails(ParentCall);
      var unreadable := Fails(OpenCall);
      var short := Fails(StatfsCall);
      if parentsRefused {
        return Err(Failed(ParentCall));
      }
      if source !in disk.names {
        return Err(NotFound);
      }
      if !disk.names[source].Regular? {
        return Err(UnsupportedComplex);
      }
      if unreadable {
        return Err(Failed(OpenCall));
      }
      if short {
        return Err(StorageReserve);
      }
      var copied := PublishCopy(Publication(destination, temporary, disk.data[disk.names[source].inode], overwrite),
                                inode);
      if copied.Err? {
        return Err(copied.error);
      }
      ApartElsewhere(before, disk, {temporary, destination}, source);
      return Ok(true);
    }

    // ---------- move ----------

    function MoveCalls(overwrite: bool): set<Call> {
      {ParentCall, StatCall} + if overwrite then {RenameCall} else {LinkCall, UnlinkCall}
    }

    method MoveOver(source: Name, destination: Name, node: Node) returns (r: Result<(), FileError>)
      requires source != destination && HasEntry(disk, source, node) && node.Regular?
      modifies `disk, `trace
      ensures r.Ok? ==> disk == Renamed(old(disk), source, destination)
      ensures r.Err? ==> disk == old(disk)
      ensures old(trace) <= trace && AllMove(old(disk), trace, |old(trace)|, source, destination, node)
      ensures r.Err? ==> r.error in {NotFound, UnsupportedComplex, CrossDevice, IsDirectory, Failed(StatCall),
                                     Failed(RenameCall)}
      ensures {StatCall, RenameCall} <= reliable ==>
                ErrorOf(r) == if destination in old(disk.names) && old(disk.names)[destination].Directory?
                              then Some(UnsupportedComplex) else None
    {
      var unseen := Fails(StatCall);
      if unseen {
        return Err(Failed(StatCall));
      }
      if destination in disk.names && disk.names[destination].Directory? {
        return Err(UnsupportedComplex);
      }
      r := Rename(source, destination);
    }

    method MoveAside(source: Name, destination: Name, node: Node) returns (r: Result<(), FileError>)
      requires source != destination && HasEntry(disk, source, node) && node.Regular?
      modifies `disk, `trace
      ensures r.Ok? ==> destination !in old(disk.names)
                        && disk == old(disk).(names := (old(disk.names) - {source})[destination := node])
      ensures r == Err(DestinationExists) <==> destination in old(disk.names)
      ensures r.Err? ==> disk == old(disk)
                         || (r.error == Failed(UnlinkCall)
                             && disk == old(disk).(names := old(disk.names)[destination := node]))
      ensures old(trace) <= trace && AllMove(old(disk), trace, |old(trace)|, source, destination, node)
      ensures r.Err? ==> r.error in {NotFound, DestinationExists, CrossDevice, Failed(LinkCall), Failed(UnlinkCall)}
      ensures {LinkCall, UnlinkCall} <= reliable ==>
                ErrorOf(r) == if destination in old(disk.names) then Some(DestinationExists) else None
    {
      var linked := Link(source, destination);
      if linked.Err? {
        return Err(if linked.error == Exists then DestinationExists else linked.error);
      }
      r := Unlink(source);
      if r.Err? {
        var undone := Unlink(destination);
        assert undone.Ok? ==> disk.names == old(disk.names);
      }
    }

    /** A move never loses the file, and never replaces a destination it was not told to.
        When it succeeds the source is gone, except for an overwriting move between two
        names of one file, which changes nothing. */
    method Move(from: Mutation, to: Mutation, overwrite: bool) returns (r: Result<bool, FileError>)
      modifies `disk, `trace
      ensures r == Ok(false) <==> DisplayPath(from) == DisplayPath(to)
      ensures r == Ok(false) || r == Err(PathRefused) ==> disk == old(disk) && trace == old(trace)
      ensures r == Err(PathRefused) <==>
              DisplayPath(from) != DisplayPath(to) && AssertNoDangerousOverlap(from, to).Err?
      ensures DisplayPath(from) != DisplayPath(to) && AssertNoDangerousOverlap(from, to).Ok?
              && MoveCalls(overwrite) <= reliable ==>
                && (r == Err(NotFound) <==> DisplayPath(from) !in old(disk.names))
                && (r == Err(UnsupportedComplex) <==>
                      DisplayPath(from) in old(disk.names)
                      && (!RegularAt(old(disk), DisplayPath(from))
                          || (overwrite && DirectoryAt(old(disk), DisplayPath(to)))))
                && (r == Err(DestinationExists) <==>
                      RegularAt(old(disk), DisplayPath(from)) && !overwrite && DisplayPath(to) in old(disk.names))
                && (r == Ok(true) <==>
                      && RegularAt(old(disk), DisplayPath(from))
                      && if overwrite then !DirectoryAt(old(disk), DisplayPath(to))
                         else DisplayPath(to) !in old(disk.names))
      ensures r == Ok(true) ==> DisplayPath(from) in old(disk.names) && old(disk.names)[DisplayPath(from)].Regular?
      ensures r == Ok(true) ==> disk == Renamed(old(disk), DisplayPath(from), DisplayPath(to))
      ensures r == Ok(true) ==>
                (DisplayPath(from) in disk.names <==>
                 overwrite && HasEntry(old(disk), DisplayPath(to), old(disk.names)[DisplayPath(from)]))
      ensures !overwrite && DisplayPath(to) in old(disk.names) && DisplayPath(from) != DisplayPath(to) ==>
                r.Err? && disk == old(disk)
      ensures r.Err? ==> disk == old(disk)
                         || (r.error == Failed(UnlinkCall) && DisplayPath(from) in old(disk.names)
                             && DisplayPath(to) !in old(disk.names)
                             && disk == old(disk).(names :=
                                  old(disk.names)[DisplayPath(to) := old(disk.names)[DisplayPath(from)]]))
      ensures old(trace) <= trace
      ensures DisplayPath(from) in old(disk.names) ==>
                AllMove(old(disk), trace, |old(trace)|, DisplayPath(from), DisplayPath(to),
                        old(disk.names)[DisplayPath(from)])
      ensures DisplayPath(from) !in old(disk.names) ==> trace == old(trace)
    {
      var source, destination := DisplayPath(from), DisplayPath(to);
      if source == destination {
        return Ok(false);
      }
      if AssertNoDangerousOverlap(from, to).Err? {
        return Err(PathRefused);
      }
      var parentsRefused := Fails(ParentCall);
      var unseen := Fails(StatCall);
      if parentsRefused {
        return Err(Failed(ParentCall));
      }
      if source !in disk.names {
        return Err(NotFound);
      }
      if unseen {
        return Err(Failed(StatCall));
      }
      if !disk.names[source].Regular? {
        return Err(UnsupportedComplex);
      }
      var moved;
      if overwrite {
        moved := MoveOver(source, destination, disk.names[source]);
      } else {
        moved := MoveAside(source, destination, disk.names[source]);
      }
      if moved.Err? {
        return Err(moved.error);
      }
      return Ok(true);
    }
  }

  /** It does happen: on every disk, whatever is uploaded over whatever file, an upload all of
      whose calls go well but for the close has published and reports an error. */
  method CloseFailsAfterPublishing(disk: Disk, chunks: seq<Bytes>, p: Publication, inode: Inode)
    returns (manager: FileManager, r: Result<nat, FileError>)
    requires WellFormed(disk) && p.temporary != p.destination && p.temporary !in disk.names && inode !in disk.data
    requires p.content == Concat(chunks) && p.overwrite
    requires !(p.destination in disk.names && disk.names[p.destination].Directory?)
    ensures r == Err(Failed(CloseCall)) && Holds(manager.disk, p.destination, p.content)
    ensures manager.Published(manager.disk, p, inode) && p.temporary !in manager.disk.names
  {
    var kinds := {WriteCall, StatfsCall, RenameCall, ParentCall};
    manager := new FileManager(1, |p.content|, kinds, {CloseCall}, disk);
    ghost var outcome;
    r, outcome := manager.Upload(chunks, None, p, inode);
  }
}
