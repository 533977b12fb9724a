/** The writer of the segmented transcript, scripts/transcript-capture.mjs, and the
    inventory of scripts/transcript-segments.mjs that its readers start from. */
module Capture {
  import opened Numbers
  import opened Results
  import opened Utf8
  import opened Segments

  const MAX_SEGMENTS: nat := 1024

  /** terminal.log and its numbered siblings, in order; none when there is no log yet. */
  type Files = seq<seq<byte>>

  function Flat(files: Files): seq<byte> {
    if files == [] then [] else Flat(files[..|files| - 1]) + files[|files| - 1]
  }

  /** Every file but the last is full, and the last is not over-full. */
  predicate Shaped(files: Files, segmentBytes: nat) {
    && (forall i | 0 <= i < |files| - 1 :: |files[i]| == segmentBytes)
    && (files != [] ==> |files[|files| - 1]| <= segmentBytes)
  }

  // ---------- the inventory ----------

  datatype InspectError = TooMany | EmptyFirst | InvalidLength

  datatype Inventory = Inventory(segments: seq<Segment>, size: nat, segmentBytes: nat)

  /** What the inventory accepts: a single file of any size, or full segments and a tail. */
  predicate Accepted(files: Files) {
    |files| <= 1 || (|files| - 1 <= MAX_SEGMENTS && files[0] != [] && Shaped(files, |files[0]|))
  }

  function OnDisk(files: Files): Disk { map i: nat | i < |files| :: files[i] }

  /** The inventory lists every file where it starts, so it describes the whole log. */
  predicate Describes(segments: seq<Segment>, files: Files) {
    && |segments| == |files|
    && (forall i | 0 <= i < |files| :: segments[i].file == i && segments[i].size == |files[i]|)
    && Consecutive(segments)
  }

  lemma {:induction false} DescribedLog(segments: seq<Segment>, files: Files, disk: Disk)
    requires Describes(segments, files) && forall i: nat | i < |files| :: i in disk && disk[i] == files[i]
    ensures Intact(disk, segments) && Log(disk, segments) == Flat(files)
  {
    forall i | 0 <= i < |segments| ensures Holds(disk, segments[i]) {}
    if files != [] {
      var n := |files| - 1;
      DescribedLog(segments[..n], files[..n], disk);
      assert disk[segments[n].file][..segments[n].size] == files[n];
    }
  }

  lemma DescribesMore(segments: seq<Segment>, files: Files, i: nat)
    requires i < |files| && Describes(segments, files[..i])
    ensures var more := segments + [Segment(i, Total(segments), |files[i]|)];
            Describes(more, files[..i + 1]) && Total(more) == Total(segments) + |files[i]|
  {
    var more := segments + [Segment(i, Total(segments), |files[i]|)];
    assert more[..i] == segments;
  }

  /** A reader that holds an inventory reads the log as it was listed, whatever the writer
      has appended since. */
  lemma InventoryIsSnapshot(segments: seq<Segment>, files: Files, grown: Files)
    requires Describes(segments, files) && |files| <= |grown| && forall i | 0 <= i < |files| :: files[i] <= grown[i]
    ensures Consecutive(segments) && Intact(OnDisk(grown), segments) && Log(OnDisk(grown), segments) == Flat(files)
  {
    DescribedLog(segments, files, OnDisk(files));
    GrowthKeepsLog(OnDisk(files), OnDisk(grown), segments);
  }

  /** The numbered siblings: full ones of the first file's size, and a tail. */
  predicate Sized(files: Files, actual: nat, i: nat)
    requires i < |files|
  {
    |files[i]| <= actual && (i < |files| - 1 ==> |files[i]| == actual)
  }

  method ListSegments(files: Files, actual: nat) returns (r: Result<Inventory, InspectError>)
    requires files != []
    ensures r.Ok? <==> forall i | 1 <= i < |files| :: Sized(files, actual, i)
    ensures r.Err? ==> r.error == InvalidLength
    ensures r.Ok? ==> Describes(r.value.segments, files) && r.value.size == Total(r.value.segments)
                      && r.value.segmentBytes == actual
  {
    var segments := [Segment(0, 0, |files[0]|)];
    var size := |files[0]|;
    assert segments[..0] == [] && Consecutive(segments[..0]) && Total(segments[..0]) == 0;
    for index := 1 to |files|
      invariant Describes(segments, files[..index]) && size == Total(segments)
      invariant forall i | 1 <= i < index :: Sized(files, actual, i)
    {
      var length := |files[index]|;
      if length > actual || (index < |files| - 1 && length != actual) {
        assert !Sized(files, actual, index);
        return Err(InvalidLength);
      }
      DescribesMore(segments, files, index);
      segments := segments + [Segment(index, size, length)];
      size := size + length;
    }
    assert files[..|files|] == files;
    return Ok(Inventory(segments, size, actual));
  }

  lemma AcceptedExactly(files: Files)
    requires |files| > 1
    ensures Accepted(files) <==>
              |files| - 1 <= MAX_SEGMENTS && files[0] != []
              && forall i | 1 <= i < |files| :: Sized(files, |files[0]|, i)
  {
    if forall i | 1 <= i < |files| :: Sized(files, |files[0]|, i) {
      assert Sized(files, |files[0]|, |files| - 1);
      forall i | 0 <= i < |files| - 1 ensures |files[i]| == |files[0]| {
        assert i > 0 ==> Sized(files, |files[0]|, i);
      }
    }
  }

  method InspectTranscriptSegments(files: Files, configured: nat) returns (r: Result<Inventory, InspectError>)
    ensures r.Ok? <==> Accepted(files)
    ensures r == Err(TooMany) <==> |files| - 1 > MAX_SEGMENTS
    ensures r == Err(EmptyFirst) <==> 1 < |files| <= MAX_SEGMENTS + 1 && files[0] == []
    ensures r.Ok? ==> Describes(r.value.segments, files) && r.value.size == Total(r.value.segments) == |Flat(files)|
    ensures r.Ok? ==> r.value.segmentBytes == if |files| > 1 then |files[0]| else configured
  {
    if files == [] {
      return Ok(Inventory([], 0, configured));
    }
    if |files| > 1 {
      AcceptedExactly(files);
    }
    if |files| - 1 > MAX_SEGMENTS {
      return Err(TooMany);
    }
    var actual := if |files| > 1 then |files[0]| else configured;
    if |files| > 1 && actual < 1 {
      return Err(EmptyFirst);
    }
    r := ListSegments(files, actual);
    if r.Ok? {
      DescribedLog(r.value.segments, files, OnDisk(files));
    }
  }

  // ---------- the writer ----------

  datatype Stop = TranscriptLimit | StorageReserveStop

  datatype CaptureError = BadInventory | SegmentLimit | WriteFailed

  lemma FlatAppend(files: Files, portion: seq<byte>)
    ensures Flat(files + [portion]) == Flat(files) + portion
  {
    assert (files + [portion])[..|files|] == files;
  }

  /** One portion, into the last file or, when that is full or there is none, a new one. */
  function Extended(files: Files, portion: seq<byte>, newSegment: bool): Files
    requires !newSegment ==> files != []
  {
    if newSegment then files + [portion] else files[..|files| - 1] + [files[|files| - 1] + portion]
  }

  lemma ExtendedFlat(files: Files, portion: seq<byte>, newSegment: bool)
    requires !newSegment ==> files != []
    ensures Flat(Extended(files, portion, newSegment)) == Flat(files) + portion
  {
    FlatAppend(files, portion);
    if !newSegment {
      var front, last := files[..|files| - 1], files[|files| - 1];
      FlatAppend(front, last + portion);
      assert Flat(front) + (last + portion) == Flat(files) + portion;
    }
  }

  predicate Full(files: Files, segmentBytes: nat) { files == [] || |files[|files| - 1]| == segmentBytes }

  lemma {:induction false} FullSize(files: Files, segmentBytes: nat)
    requires Shaped(files, segmentBytes) && Full(files, segmentBytes)
    ensures |Flat(files)| == |files| * segmentBytes
  {
    if files != [] {
      var front := files[..|files| - 1];
      if front != [] {
        assert front[|front| - 1] == files[|files| - 2];
      }
      FullSize(front, segmentBytes);
      assert |files| * segmentBytes == |front| * segmentBytes + segmentBytes;
    }
  }

  function Used(files: Files, segmentBytes: nat): nat {
    if Full(files, segmentBytes) then 0 else |files[|files| - 1]|
  }

  lemma ExtendedShaped(files: Files, portion: seq<byte>, segmentBytes: nat)
    requires Shaped(files, segmentBytes) && Used(files, segmentBytes) + |portion| <= segmentBytes
    ensures Shaped(Extended(files, portion, Full(files, segmentBytes)), segmentBytes)
  {
  }

  lemma {:induction false} FlatFront(chunks: Files, i: nat)
    requires i <= |chunks|
    ensures Flat(chunks[..i]) <= Flat(chunks)
    decreases |chunks| - i
  {
    if i == |chunks| {
      assert chunks[..i] == chunks;
    } else {
      FlatFront(chunks, i + 1);
      assert chunks[..i + 1][..i] == chunks[..i];
    }
  }

  /** What is captured in the middle of the `i`-th chunk is a prefix of the input. */
  lemma FlatPrefix(chunks: Files, i: nat, n: nat)
    requires i < |chunks| && n <= |chunks[i]|
    ensures Flat(chunks[..i + 1]) == Flat(chunks[..i]) + chunks[i]
    ensures |Flat(chunks[..i])| + n <= |Flat(chunks)|
    ensures Flat(chunks)[..|Flat(chunks[..i])| + n] == Flat(chunks[..i]) + chunks[i][..n]
  {
    FlatFront(chunks, i + 1);
    assert chunks[..i + 1][..i] == chunks[..i];
  }

  lemma PrefixSplit(s: seq<byte>, i: nat, n: nat)
    requires i + n <= |s|
    ensures s[..i + n] == s[..i] + s[i..][..n]
  {
  }

  /** What a log of this size may still take. */
  function Room(maximum: nat, size: nat): nat { if size < maximum then maximum - size else 0 }

  /** The segment size with which a capture goes on. */
  function SegmentBytes(files: Files, configured: nat, maximum: nat): nat {
    if |files| > 1 then |files[0]|
    else if |files| == 1 && |files[0]| > configured then maximum
    else configured
  }

  /** Segments of this size can hold what the ceiling allows. */
  predicate Suffices(segmentBytes: nat, maximum: nat) { maximum <= segmentBytes * (MAX_SEGMENTS + 1) }

  lemma AcceptedShape(files: Files, configured: nat, maximum: nat)
    requires Accepted(files) && |Flat(files)| < maximum
    ensures Shaped(files, SegmentBytes(files, configured, maximum)) && |files| <= MAX_SEGMENTS + 1
    ensures 1 <= configured ==> SegmentBytes(files, configured, maximum) >= 1
    ensures Shaped(files, configured) ==> SegmentBytes(files, configured, maximum) == configured
  {
    if |files| == 1 {
      assert files[..0] == [];
      assert Flat(files) == files[0];
    }
  }

  lemma ShapedAccepted(files: Files, segmentBytes: nat)
    requires Shaped(files, segmentBytes) && segmentBytes >= 1 && |files| <= MAX_SEGMENTS + 1
    ensures Accepted(files)
  {
  }

  lemma TooFewSegments(files: Files, segmentBytes: nat)
    requires Shaped(files, segmentBytes) && Full(files, segmentBytes) && |files| == MAX_SEGMENTS + 1
    ensures |Flat(files)| == segmentBytes * (MAX_SEGMENTS + 1)
  {
    FullSize(files, segmentBytes);
  }

  class Writer {
    const steady: bool // no write fails, and the storage reserve is never reached
    var files: Files

    constructor (files: Files, steady: bool)
      ensures this.files == files && this.steady == steady
    {
      this.files, this.steady := files, steady;
    }

    /** Some of the portion, all of it unless the write fails. */
    method WritePortion(portion: seq<byte>, segmentBytes: nat) returns (n: nat, ok: bool)
      requires Shaped(files, segmentBytes) && Used(files, segmentBytes) + |portion| <= segmentBytes
      modifies this
      ensures n <= |portion| && (ok ==> n == |portion|) && (steady ==> ok)
      ensures |files| == old(|files|) + if old(Full(files, segmentBytes)) then 1 else 0
      ensures Shaped(files, segmentBytes) && Flat(files) == old(Flat(files)) + portion[..n]
    {
      ok := *;
      ok := ok || steady;
      var partial: int := *;
      n := if ok || !(0 <= partial <= |portion|) then |portion| else partial;
      var newSegment := Full(files, segmentBytes);
      ExtendedFlat(files, portion[..n], newSegment);
      ExtendedShaped(files, portion[..n], segmentBytes);
      files := Extended(files, portion[..n], newSegment);
    }

    /** What one file takes of the input that is left. */
    method CaptureNext(input: seq<byte>, segmentBytes: nat, remaining: nat)
      returns (n: nat, stopped: Option<Stop>, error: Option<CaptureError>)
      requires input != [] && segmentBytes >= 1 && remaining >= 1 && Shaped(files, segmentBytes)
               && |files| <= MAX_SEGMENTS + 1
      modifies this
      ensures Shaped(files, segmentBytes) && |files| <= MAX_SEGMENTS + 1 && n <= |input| && n <= remaining
      ensures Flat(files) == old(Flat(files)) + input[..n]
      ensures stopped == None && error == None ==> 1 <= n < remaining
      ensures stopped == Some(TranscriptLimit) ==> n == remaining
      ensures error == Some(SegmentLimit) ==> Full(files, segmentBytes) && |files| > MAX_SEGMENTS && n == 0
      ensures steady ==> stopped != Some(StorageReserveStop) && error != Some(WriteFailed)
      ensures stopped == None || error == None
      ensures error != Some(BadInventory)
    {
      n, stopped, error := 0, None, None;
      assert input[..0] == [];
      if Full(files, segmentBytes) && |files| > MAX_SEGMENTS {
        error := Some(SegmentLimit);
        return;
      }
      var sufficient: bool := *;
      if !sufficient && !steady {
        stopped := Some(StorageReserveStop);
        return;
      }
      var size := Min(Min(|input|, remaining), segmentBytes - Used(files, segmentBytes));
      var ok;
      n, ok := WritePortion(input[..size], segmentBytes);
      assert input[..size][..n] == input[..n];
      if !ok {
        error := Some(WriteFailed);
      } else if n == remaining {
        stopped := Some(TranscriptLimit);
      }
    }

    /** Appends one chunk of the input. `remaining` is what the log may still take. */
    method CaptureChunk(chunk: seq<byte>, segmentBytes: nat, remaining: nat)
      returns (written: nat, stopped: Option<Stop>, error: Option<CaptureError>)
      requires segmentBytes >= 1 && remaining >= 1 && Shaped(files, segmentBytes) && |files| <= MAX_SEGMENTS + 1
      modifies this
      ensures Shaped(files, segmentBytes) && |files| <= MAX_SEGMENTS + 1 && written <= |chunk| && written <= remaining
      ensures Flat(files) == old(Flat(files)) + chunk[..written]
      ensures stopped == None && error == None ==> written == |chunk| && written < remaining
      ensures stopped == Some(TranscriptLimit) ==> written == remaining
      ensures error == Some(SegmentLimit) ==> Full(files, segmentBytes) && |files| > MAX_SEGMENTS && written < remaining
      ensures steady ==> stopped != Some(StorageReserveStop) && error != Some(WriteFailed)
      ensures stopped == None || error == None
      ensures error != Some(BadInventory)
    {
      hide Shaped, Full, Flat;
      written, stopped, error := 0, None, None;
      while written < |chunk|
        invariant 0 <= written <= |chunk| && written < remaining && Shaped(files, segmentBytes)
        invariant Flat(files) == old(Flat(files)) + chunk[..written] && |files| <= MAX_SEGMENTS + 1
        invariant stopped == None && error == None
      {
        var n;
        n, stopped, error := CaptureNext(chunk[written..], segmentBytes, remaining - written);
        PrefixSplit(chunk, written, n);
        written := written + n;
        if stopped.Some? || error.Some? {
          return;
        }
      }
      assert chunk[..|chunk|] == chunk;
    }

    method CaptureChunks(chunks: seq<seq<byte>>, segmentBytes: nat, room: nat)
      returns (stopped: Option<Stop>, error: Option<CaptureError>, ghost captured: nat)
      requires segmentBytes >= 1 && room >= 1 && Shaped(files, segmentBytes) && |files| <= MAX_SEGMENTS + 1
      modifies this
      ensures Shaped(files, segmentBytes) && |files| <= MAX_SEGMENTS + 1
      ensures captured <= |Flat(chunks)| && captured <= room
              && Flat(files) == old(Flat(files)) + Flat(chunks)[..captured]
      ensures stopped == None && error == None ==> captured == |Flat(chunks)| < room
      ensures stopped == Some(TranscriptLimit) ==> captured == room
      ensures steady ==> stopped != Some(StorageReserveStop) && error != Some(WriteFailed)
      ensures stopped == None || error == None
      ensures error == Some(SegmentLimit) ==> Full(files, segmentBytes) && |files| > MAX_SEGMENTS && captured < room
      ensures error != Some(BadInventory)
    {
      hide Shaped, Full;
      stopped, error, captured := None, None, 0;
      var remaining := room;
      for i := 0 to |chunks|
        invariant Shaped(files, segmentBytes) && |files| <= MAX_SEGMENTS + 1
        invariant Flat(files) == old(Flat(files)) + Flat(chunks[..i]) && captured == |Flat(chunks[..i])|
        invariant remaining == room - captured >= 1 && stopped == None && error == None
      {
        var written;
        written, stopped, error := CaptureChunk(chunks[i], segmentBytes, remaining);
        FlatPrefix(chunks, i, written);
        remaining := remaining - written;
        captured := captured + written;
        if stopped.Some? || error.Some? {
          return;
        }
        assert chunks[i][..written] == chunks[i];
      }
      assert chunks[..|chunks|] == chunks;
    }

    /** Captures the input after whatever the log already holds: the log grows by a prefix
        of the input, never beyond the ceiling, and stays one that the inventory accepts. */
    method CaptureTranscript(chunks: seq<seq<byte>>, maximum: nat, configured: nat)
      returns (stopped: Option<Stop>, error: Option<CaptureError>, ghost captured: nat)
      requires maximum >= 1 && configured >= 1
      modifies this
      ensures captured <= |Flat(chunks)| && Flat(files) == old(Flat(files)) + Flat(chunks)[..captured]
      ensures |Flat(files)| <= Max(maximum, old(|Flat(files)|))
      ensures stopped == None && error == None ==> captured == |Flat(chunks)|
      ensures stopped == Some(TranscriptLimit) ==> |Flat(files)| >= maximum
      ensures steady && error == None ==> captured == Min(|Flat(chunks)|, Room(maximum, old(|Flat(files)|)))
      ensures steady && error == None ==>
                (stopped == Some(TranscriptLimit) <==> old(|Flat(files)|) + |Flat(chunks)| >= maximum)
                && stopped != Some(StorageReserveStop)
      ensures Suffices(old(SegmentBytes(files, Min(configured, maximum), maximum)), maximum) ==>
                steady && old(Accepted(files)) ==> error == None
      ensures error == Some(BadInventory) <==> !old(Accepted(files))
      ensures old(Accepted(files)) ==> Accepted(files)
      ensures Suffices(old(SegmentBytes(files, Min(configured, maximum), maximum)), maximum) ==>
                error != Some(SegmentLimit)
      ensures old(Shaped(files, Min(configured, maximum))) && Suffices(Min(configured, maximum), maximum) ==>
                error != Some(SegmentLimit)
    {
      hide Shaped, Full, Flat;
      ghost var start := files;
      stopped, error, captured := None, None, 0;
      var existing := InspectTranscriptSegments(files, Min(configured, maximum));
      if existing.Err? {
        error := Some(BadInventory);
        return;
      }
      var segmentBytes := existing.value.segmentBytes;
      if |files| == 1 && existing.value.size > segmentBytes {
        segmentBytes := maximum;
      }
      if existing.value.size >= maximum {
        stopped := Some(TranscriptLimit);
        return;
      }
      AcceptedShape(start, Min(configured, maximum), maximum);
      stopped, error, captured := CaptureChunks(chunks, segmentBytes, maximum - existing.value.size);
      ShapedAccepted(files, segmentBytes);
      if error == Some(SegmentLimit) {
        TooFewSegments(files, segmentBytes);
      }
      assert stopped.Some? ==> stopped.value.TranscriptLimit? || stopped.value.StorageReserveStop?;
      assert error.Some? ==> error.value.BadInventory? || error.value.SegmentLimit? || error.value.WriteFailed?;
    }
  }
}
