/** readOutput of apps/agent/src/tmux.js over the files themselves: the inventory, then two
    reads through it, while the writer goes on appending. */
module TranscriptFiles {
  import opened Capture
  import opened Numbers
  import opened Results
  import opened Segments
  import opened Transcript
  import opened Utf8

  datatype FilesError = Inventory(inspect: InspectError) | Cursor(cursor: CursorError)

  /** What the files hold when they are read: nothing listed has been taken away. */
  predicate Grown(files: Files, later: Files) {
    |files| <= |later| && forall i | 0 <= i < |files| :: files[i] <= later[i]
  }

  /** A slice of the listed log, through the inventory. */
  method ReadSliceOf(disk: Disk, segments: seq<Segment>, offset: nat, length: nat, ghost log: seq<byte>)
    returns (r: Result<seq<byte>, ReadError>)
    requires Consecutive(segments) && Intact(disk, segments) && Log(disk, segments) == log
    requires offset + length <= |log| && length <= MAX_READ
    ensures r == Ok(log[offset..offset + length])
  {
    r := ReadTranscriptBytes(disk, segments, offset, length);
    assert length == 0 ==> log[offset..offset + length] == [];
  }

  lemma WindowOf(log: seq<byte>, start: nat, skipped: nat, max: nat)
    requires start + skipped <= |log|
    ensures var rest := log[start..];
            && rest[skipped..] == log[start + skipped..]
            && Window(rest[skipped..], max) ==
               log[start + skipped..start + skipped + Min(|log| - start - skipped, max + 3)]
  {
    assert log[start..][skipped..] == log[start + skipped..];
    var n := Min(|log| - start - skipped, max + 3);
    assert log[start + skipped..][..n] == log[start + skipped..start + skipped + n];
  }

  /** The two reads of a chunk. */
  method ReadChunkOf(disk: Disk, segments: seq<Segment>, start: nat, requestedMax: nat, size: nat, ghost log: seq<byte>)
    returns (r: Result<(nat, seq<byte>), ReadError>)
    requires Consecutive(segments) && Intact(disk, segments) && Log(disk, segments) == log && size == |log|
    requires start <= |log| && requestedMax + 3 <= MAX_READ
    ensures r.Ok? && (r.value.0, |r.value.1|) == Chunk(log[start..], requestedMax)
    ensures r.value.0 + |r.value.1| <= |log[start..]|
    ensures r.value.1 == log[start..][r.value.0..r.value.0 + |r.value.1|]
  {
    hide Taken, Skipped, SafePrefix;
    ghost var rest := log[start..];
    var n := Min(4, size - start);
    SkippedPrefix(rest, n);
    assert log[start..start + n] == rest[..n];
    var first := ReadSliceOf(disk, segments, start, n, log);
    var skipped := CountContinuations(first.value);
    WindowOf(log, start, skipped, requestedMax);
    var buffer := ReadSliceOf(disk, segments, start + skipped, Min(size - start - skipped, requestedMax + 3), log);
    var safeLength := TakenOf(buffer.value, requestedMax, rest[skipped..]);
    assert buffer.value[..safeLength] == rest[skipped..skipped + safeLength];
    return Ok((skipped, buffer.value[..safeLength]));
  }

  method TakenOf(buffer: seq<byte>, requestedMax: nat, ghost rest: seq<byte>) returns (length: nat)
    requires buffer == Window(rest, requestedMax)
    ensures length == Taken(rest, requestedMax) && length <= |buffer|
  {
    length := Utf8SafePrefixLength(buffer, Min(requestedMax, |buffer|));
  }

  /** Reading the files is reading the log that the inventory found in them: whatever has been
      appended since the inventory, the answer is that of ReadOutput on the listed bytes. */
  method ReadFiles(session: Session, files: Files, later: Files, configured: nat, cursor: Cursor, maxBytes: Option<int>)
    returns (r: Result<Reading, FilesError>)
    requires Grown(files, later)
    ensures !Accepted(files) ==> r.Err? && r.error.Inventory?
    ensures Accepted(files) ==>
              r == match ReadOutput(session, Flat(files), cursor, maxBytes)
                   case Ok(reading) => Ok(reading)
                   case Err(e) => Err(FilesError.Cursor(e))
  {
    var inventory := InspectTranscriptSegments(files, configured);
    if inventory.Err? {
      return Err(FilesError.Inventory(inventory.error));
    }
    var parsed := ParseCursor(cursor, session);
    if parsed.Err? {
      return Err(FilesError.Cursor(parsed.error));
    }
    InventoryIsSnapshot(inventory.value.segments, files, later);
    var slice := ReadSliceFrom(session.earliest, OnDisk(later), inventory.value.segments, inventory.value.size,
                               parsed.value, RequestedMax(maxBytes), Flat(files));
    return Ok(Reading(EncodeCursor(session, slice.next), slice.output,
                      slice.next < session.earliest + inventory.value.size, slice.gap));
  }

  method ReadSliceFrom(earliest: nat, disk: Disk, segments: seq<Segment>, size: nat, requested: Position,
                       requestedMax: nat, ghost log: seq<byte>)
    returns (slice: Slice)
    requires Consecutive(segments) && Intact(disk, segments) && Log(disk, segments) == log && size == |log|
    requires requestedMax + 3 <= MAX_READ
    ensures slice == ReadSlice(earliest, log, requested, requestedMax)
  {
    hide Chunk, Clamp, Consecutive, Intact, Segments.Log;
    var end := earliest + size;
    var logicalStart, gap := ClampStart(requested, earliest, end);
    var physicalStart := logicalStart - earliest;
    ghost var rest := log[physicalStart..];
    assert ReadSlice(earliest, log, requested, requestedMax) ==
           SliceOf(earliest, logicalStart, gap, rest, requestedMax);
    if end - logicalStart == 0 {
      return Slice(logicalStart, [], gap);
    }
    var chunk := ReadChunkOf(disk, segments, physicalStart, requestedMax, size, log);
    var (skipped, output) := chunk.value;
    slice := Slice(logicalStart + skipped + |output|, output, gap);
    if skipped > 0 && gap.None? {
      slice := slice.(gap := Some(Gap(Utf8Boundary, logicalStart, earliest)));
    }
  }
}
