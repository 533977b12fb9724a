/** The segmented transcript of scripts/transcript-segments.mjs: one logical byte log in
    several files, read back through an inventory taken earlier. */
module Segments {
  import opened Numbers
  import opened Results
  import opened Utf8

  const MAX_READ: nat := 256 * 1024 + 3

  /** One file of the inventory: where it starts in the log, and its size when listed. */
  datatype Segment = Segment(file: nat, start: nat, size: nat)

  type Disk = map<nat, seq<byte>>

  datatype ReadError = InvalidBounds | SegmentGap | Changed | Incomplete

  predicate Holds(disk: Disk, s: Segment) { s.file in disk && |disk[s.file]| >= s.size }

  /** Every listed file still holds what was listed: files only grow. */
  predicate Intact(disk: Disk, segments: seq<Segment>) {
    forall i | 0 <= i < |segments| :: Holds(disk, segments[i])
  }

  /** Each segment starts where the one before ends, as the inventory lists them. */
  predicate Consecutive(segments: seq<Segment>) {
    segments == []
    || (Consecutive(segments[..|segments| - 1]) && segments[|segments| - 1].start == Total(segments[..|segments| - 1]))
  }

  function Total(segments: seq<Segment>): nat {
    if segments == [] then 0 else Total(segments[..|segments| - 1]) + segments[|segments| - 1].size
  }

  /** The log the inventory describes. */
  function Log(disk: Disk, segments: seq<Segment>): (log: seq<byte>)
    requires Intact(disk, segments)
    ensures |log| == Total(segments)
  {
    if segments == [] then []
    else
      var last := segments[|segments| - 1];
      assert Holds(disk, last);
      Log(disk, segments[..|segments| - 1]) + disk[last.file][..last.size]
  }

  /** Bytes appended after the listing change nothing that a reader of the listing sees. */
  lemma {:induction false} GrowthKeepsLog(before: Disk, after: Disk, segments: seq<Segment>)
    requires Intact(before, segments)
    requires forall f | f in before :: f in after && before[f] <= after[f]
    ensures Intact(after, segments) && Log(after, segments) == Log(before, segments)
  {
    forall i | 0 <= i < |segments| ensures Holds(after, segments[i]) {
      assert Holds(before, segments[i]);
    }
    if segments != [] {
      var last := segments[|segments| - 1];
      assert Holds(before, last);
      GrowthKeepsLog(before, after, segments[..|segments| - 1]);
      assert after[last.file][..last.size] == before[last.file][..last.size];
    }
  }

  lemma LogStep(disk: Disk, segments: seq<Segment>, i: nat)
    requires i < |segments| && Intact(disk, segments) && Consecutive(segments[..i + 1])
    ensures Holds(disk, segments[i]) && Consecutive(segments[..i]) && segments[i].start == Total(segments[..i])
    ensures Total(segments[..i + 1]) == segments[i].start + segments[i].size
    ensures Log(disk, segments[..i + 1]) == Log(disk, segments[..i]) + disk[segments[i].file][..segments[i].size]
  {
    assert segments[..i + 1][..i] == segments[..i];
  }

  lemma {:induction false} ConsecutiveFront(segments: seq<Segment>, i: nat)
    requires i <= |segments| && Consecutive(segments)
    ensures Consecutive(segments[..i]) && Total(segments[..i]) <= Total(segments)
    decreases |segments| - i
  {
    if i == |segments| {
      assert segments[..i] == segments;
    } else {
      ConsecutiveFront(segments, i + 1);
      assert segments[..i + 1][..i] == segments[..i];
    }
  }

  lemma {:induction false} LogFront(disk: Disk, segments: seq<Segment>, i: nat)
    requires i <= |segments| && Intact(disk, segments)
    ensures Log(disk, segments[..i]) <= Log(disk, segments)
    decreases |segments| - i
  {
    if i == |segments| {
      assert segments[..i] == segments;
    } else {
      LogFront(disk, segments, i + 1);
      assert segments[..i + 1][..i] == segments[..i];
      assert Holds(disk, segments[i]);
    }
  }

  /** What has been copied after the first `i` segments: the log from `offset` on, and
      all of it that they hold unless the read is complete. */
  ghost predicate Copied(log: seq<byte>, offset: nat, length: nat, copied: seq<byte>) {
    && |copied| <= length
    && (copied != [] ==> offset + |copied| <= |log| && copied == log[offset..offset + |copied|])
    && (|copied| != length ==> |log| <= offset + |copied|)
  }

  lemma CopiedMore(log: seq<byte>, next: seq<byte>, offset: nat, length: nat, copied: seq<byte>)
    requires Copied(log, offset, length, copied) && |copied| != length
    ensures offset + |copied| >= |log| + |next| ==> Copied(log + next, offset, length, copied)
    ensures offset + |copied| < |log| + |next| ==>
              var start := offset + |copied| - |log|;
              var count := Min(length - |copied|, |next| - start);
              start >= 0 && Copied(log + next, offset, length, copied + next[start..start + count])
  {
    var grown := log + next;
    if copied != [] {
      assert log[offset..offset + |copied|] == grown[offset..offset + |copied|];
    }
    if offset + |copied| < |grown| {
      var start := offset + |copied| - |log|;
      var count := Min(length - |copied|, |next| - start);
      var all := copied + next[start..start + count];
      AppendedSlice(log, next, start, count);
      if copied == [] {
        assert all == next[start..start + count];
      } else {
        SliceJoin(grown, offset, offset + |copied|, offset + |all|);
      }
    }
  }

  lemma AppendedSlice(log: seq<byte>, next: seq<byte>, start: nat, count: nat)
    requires start + count <= |next|
    ensures next[start..start + count] == (log + next)[|log| + start..|log| + start + count]
  {
  }

  lemma SliceJoin(s: seq<byte>, a: nat, b: nat, c: nat)
    requires a <= b <= c <= |s|
    ensures s[a..b] + s[b..c] == s[a..c]
  {
  }

  lemma CopiedAll(log: seq<byte>, offset: nat, length: nat, front: seq<byte>, copied: seq<byte>)
    requires Copied(front, offset, length, copied) && front <= log
    requires |copied| == length || front == log
    ensures |copied| == length && length > 0 ==> offset + length <= |log| && copied == log[offset..offset + length]
    ensures |copied| != length ==> offset + length > |log|
  {
  }

  method CopyInto(target: array<byte>, at: nat, source: seq<byte>)
    requires at + |source| <= target.Length
    modifies target
    ensures target[..at + |source|] == old(target[..at]) + source
  {
    forall k | 0 <= k < |source| {
      target[at + k] := source[k];
    }
  }

  /** The part of one segment that a read needs. */
  method CopySegment(disk: Disk, entry: Segment, offset: nat, length: nat, result: array<byte>, copied: nat,
                     ghost log: seq<byte>)
    returns (r: Result<nat, ReadError>)
    requires copied < length == result.Length
    modifies result
    ensures r.Ok? ==> r.value <= length
    ensures Holds(disk, entry) && entry.start == |log| && old(Copied(log, offset, length, result[..copied])) ==>
              r.Ok? && Copied(log + disk[entry.file][..entry.size], offset, length, result[..r.value])
  {
    if Holds(disk, entry) && entry.start == |log| && Copied(log, offset, length, result[..copied]) {
      CopiedMore(log, disk[entry.file][..entry.size], offset, length, result[..copied]);
    }
    if offset + copied >= entry.start + entry.size {
      return Ok(copied);
    }
    if offset + copied < entry.start {
      return Err(SegmentGap);
    }
    var start := offset + copied - entry.start;
    var count := Min(length - copied, entry.size - start);
    if !Holds(disk, entry) {
      return Err(Changed);
    }
    assert disk[entry.file][start..start + count] == disk[entry.file][..entry.size][start..start + count];
    CopyInto(result, copied, disk[entry.file][start..start + count]);
    return Ok(copied + count);
  }

  method CopySegments(disk: Disk, segments: seq<Segment>, offset: nat, length: nat, result: array<byte>)
    returns (r: Result<nat, ReadError>)
    requires length == result.Length
    modifies result
    ensures r.Ok? ==> r.value <= length
    ensures Intact(disk, segments) && Consecutive(segments) ==> r.Ok?
    ensures Intact(disk, segments) && Consecutive(segments) && r.value < length ==> Total(segments) < offset + length
    ensures Intact(disk, segments) && Consecutive(segments) && r.value == length > 0 ==>
              offset + length <= Total(segments) && result[..] == Log(disk, segments)[offset..offset + length]
  {
    ghost var sound := Intact(disk, segments) && Consecutive(segments);
    var copied := 0;
    var i := 0;
    while i < |segments| && copied != length
      invariant 0 <= i <= |segments| && 0 <= copied <= length
      invariant sound ==> Copied(Log(disk, segments[..i]), offset, length, result[..copied])
    {
      ghost var log := [];
      if sound {
        log := Log(disk, segments[..i]);
        ConsecutiveFront(segments, i + 1);
        LogStep(disk, segments, i);
      }
      var step := CopySegment(disk, segments[i], offset, length, result, copied, log);
      if step.Err? {
        return step;
      }
      copied := step.value;
      i := i + 1;
    }
    if sound {
      LogFront(disk, segments, i);
      assert segments[..|segments|] == segments;
      CopiedAll(Log(disk, segments), offset, length, Log(disk, segments[..i]), result[..copied]);
      assert copied == length ==> result[..copied] == result[..];
    }
    return Ok(copied);
  }

  /** On an intact, consecutive inventory a read returns exactly the slice of the log it
      was asked for, or reports that the log is shorter. */
  method ReadTranscriptBytes(disk: Disk, segments: seq<Segment>, offset: nat, length: nat)
    returns (r: Result<seq<byte>, ReadError>)
    ensures r.Ok? ==> |r.value| == length
    ensures length > MAX_READ ==> r == Err(InvalidBounds)
    ensures length <= MAX_READ && Intact(disk, segments) && Consecutive(segments) ==>
              if length == 0 then r == Ok([])
              else if offset + length <= Total(segments) then r == Ok(Log(disk, segments)[offset..offset + length])
              else r == Err(Incomplete)
  {
    if length > MAX_READ {
      return Err(InvalidBounds);
    }
    var result := new byte[length];
    var copied := CopySegments(disk, segments, offset, length, result);
    if copied.Err? {
      return Err(copied.error);
    }
    if copied.value != length {
      return Err(Incomplete);
    }
    return Ok(result[..]);
  }
}
