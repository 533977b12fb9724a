/** The transcript reader of apps/agent/src/tmux.js: cursors, and chunked reads of a
    growing byte log. */
module Transcript {
  import opened Numbers
  import opened Results
  import opened Text
  import opened Utf8

  const MAX_SAFE_INTEGER: nat := 0x1F_FFFF_FFFF_FFFF

  datatype Session = Session(streamId: string, epoch: nat, earliest: nat)

  // ---------- cursors ----------

  predicate StreamChar(c: char) {
    'a' <= c <= 'z' || 'A' <= c <= 'Z' || IsDigit(c) || c == '_' || c == '-'
  }

  predicate StreamId(s: string) { 1 <= |s| <= 80 && forall i | 0 <= i < |s| :: StreamChar(s[i]) }

  /** What the session store keeps: an accepted stream id and a safe epoch from 1 up. */
  predicate ValidSession(s: Session) { StreamId(s.streamId) && 1 <= s.epoch <= MAX_SAFE_INTEGER }

  function EncodeCursor(session: Session, offset: nat): string {
    "v" + Decimal(1) + ":" + session.streamId + ":" + Decimal(session.epoch) + ":" + Decimal(offset)
  }

  datatype Cursor = Absent | Numeric(value: int) | Written(text: string)

  datatype CursorError = InvalidCursor | UnsupportedCursor

  datatype Position = Position(offset: nat, mismatch: bool)

  predicate Numeral(s: string) { s != "" && AllDigits(s) }

  /** The four groups of ^v(\d+):([a-zA-Z0-9_-]{1,80}):(\d+):(\d+)$. */
  predicate Versioned(parts: seq<string>) {
    && |parts| == 4
    && parts[0] != "" && parts[0][0] == 'v' && Numeral(parts[0][1..])
    && StreamId(parts[1]) && Numeral(parts[2]) && Numeral(parts[3])
  }

  function ParseCursor(cursor: Cursor, session: Session): Result<Position, CursorError> {
    match cursor
    case Absent => Ok(Position(session.earliest, false))
    case Numeric(n) => if 0 <= n <= MAX_SAFE_INTEGER then Ok(Position(n, false)) else Err(InvalidCursor)
    case Written(text) =>
      if text == "" then Ok(Position(session.earliest, false))
      else if AllDigits(text) then
        if DigitsValue(text) <= MAX_SAFE_INTEGER then Ok(Position(DigitsValue(text), false)) else Err(InvalidCursor)
      else
        var parts := Split(text, ':');
        if !Versioned(parts) then Err(InvalidCursor)
        else
          var version, epoch, offset := DigitsValue(parts[0][1..]), DigitsValue(parts[2]), DigitsValue(parts[3]);
          if version != 1 || epoch > MAX_SAFE_INTEGER || epoch < 1 || offset > MAX_SAFE_INTEGER
          then Err(UnsupportedCursor)
          else Ok(Position(offset, parts[1] != session.streamId || epoch != session.epoch))
  }

  lemma JoinFour(a: string, b: string, c: string, d: string)
    ensures Join([a, b, c, d], ':') == a + ":" + b + ":" + c + ":" + d
  {
    assert [a, b, c, d][1..] == [b, c, d] && [b, c, d][1..] == [c, d] && [c, d][1..] == [d];
    assert Join([c, d], ':') == c + [':'] + d;
    assert Join([b, c, d], ':') == b + [':'] + Join([c, d], ':');
    assert a + ":" + b + ":" + c + ":" + d == a + [':'] + (b + [':'] + (c + [':'] + d));
  }

  lemma CursorParts(session: Session, offset: nat)
    requires ValidSession(session)
    ensures var parts := ["v1", session.streamId, Decimal(session.epoch), Decimal(offset)];
            Split(EncodeCursor(session, offset), ':') == parts && Versioned(parts)
  {
    DecimalReadsBack(session.epoch);
    DecimalReadsBack(offset);
    JoinFour("v1", session.streamId, Decimal(session.epoch), Decimal(offset));
    assert "v" + Decimal(1) == "v1";
    SplitOfJoin(["v1", session.streamId, Decimal(session.epoch), Decimal(offset)], ':');
  }

  /** A written cursor reads back as its offset in the session that wrote it, and as a
      mismatch exactly in sessions with another stream or epoch. */
  lemma CursorRoundTrip(writer: Session, reader: Session, offset: nat)
    requires ValidSession(writer) && offset <= MAX_SAFE_INTEGER
    ensures ParseCursor(Written(EncodeCursor(writer, offset)), reader) ==
            Ok(Position(offset, writer.streamId != reader.streamId || writer.epoch != reader.epoch))
  {
    CursorParts(writer, offset);
    DecimalReadsBack(writer.epoch);
    DecimalReadsBack(offset);
    var text := EncodeCursor(writer, offset);
    assert text[0] == 'v';
    assert "v1"[1..] == Decimal(1);
    DecimalReadsBack(1);
  }

  // ---------- reading ----------

  datatype GapReason = StreamChanged | Retention | CursorAhead | Utf8Boundary

  datatype Gap = Gap(reason: GapReason, requested: nat, earliest: nat)

  datatype Reading = Reading(cursor: string, output: seq<byte>, hasMore: bool, gap: Option<Gap>)

  // Number(maxBytes) || 64 KiB, at most 256 KiB, at least 1; None stands for NaN.
  function RequestedMax(maxBytes: Option<int>): nat {
    var wanted := if maxBytes.None? || maxBytes.value == 0 then 64 * 1024 else maxBytes.value;
    var capped := if wanted <= 256 * 1024 then wanted else 256 * 1024;
    if capped < 1 then 1 else capped
  }

  /** Where a read starts: inside the retained range, with the reason for any move. */
  function Clamp(p: Position, earliest: nat, end: nat): (nat, Option<Gap>)
    requires earliest <= end
  {
    if p.mismatch then (earliest, Some(Gap(StreamChanged, p.offset, earliest)))
    else if p.offset < earliest then (earliest, Some(Gap(Retention, p.offset, earliest)))
    else if p.offset > end then (end, Some(Gap(CursorAhead, p.offset, earliest)))
    else (p.offset, None)
  }

  /** How many of the first `limit` bytes are continuations with no lead byte before them. */
  function Skipped(bytes: seq<byte>, limit: nat): (n: nat)
    requires limit <= |bytes|
    ensures n <= limit
    decreases limit
  {
    if limit == 0 || !Continuation(bytes[0]) then 0 else 1 + Skipped(bytes[1..], limit - 1)
  }

  /** A read looks three bytes beyond its limit, enough to complete one character. */
  function Window(readable: seq<byte>, max: nat): seq<byte> { readable[..Min(|readable|, max + 3)] }

  function Taken(readable: seq<byte>, max: nat): (n: nat)
    ensures n <= |readable| && n <= Max(max, 4)
  {
    var buffer := Window(readable, max);
    SafePrefix(buffer, Min(max, |buffer|))
  }

  /** One chunk of the bytes from the starting point on: how much is skipped and how
      much is returned. */
  function Chunk(rest: seq<byte>, max: nat): (c: (nat, nat))
    ensures c.0 + c.1 <= |rest| && c.1 <= Max(max, 4)
  {
    var skipped := Skipped(rest, Min(4, |rest|));
    (skipped, Taken(rest[skipped..], max))
  }

  /** A read without its cursors: where it ends, what it returns, what it reports. */
  datatype Slice = Slice(next: nat, output: seq<byte>, gap: Option<Gap>)

  /** What a read of `rest`, the bytes from the clamped start on, returns. */
  function SliceOf(earliest: nat, start: nat, gap: Option<Gap>, rest: seq<byte>, max: nat): Slice {
    var (skipped, length) := Chunk(rest, max);
    Slice(start + skipped + length,
          rest[skipped..skipped + length],
          if gap.None? && skipped > 0 then Some(Gap(Utf8Boundary, start, earliest)) else gap)
  }

  function ReadSlice(earliest: nat, transcript: seq<byte>, from: Position, max: nat): Slice {
    var (start, gap) := Clamp(from, earliest, earliest + |transcript|);
    SliceOf(earliest, start, gap, transcript[start - earliest..], max)
  }

  function ReadOutput(session: Session, transcript: seq<byte>, cursor: Cursor, maxBytes: Option<int>)
    : Result<Reading, CursorError>
  {
    match ParseCursor(cursor, session)
    case Err(e) => Err(e)
    case Ok(from) =>
      var slice := ReadSlice(session.earliest, transcript, from, RequestedMax(maxBytes));
      Ok(Reading(EncodeCursor(session, slice.next), slice.output,
                 slice.next < session.earliest + |transcript|, slice.gap))
  }

  method CountContinuations(first: seq<byte>) returns (skipped: nat)
    ensures skipped == Skipped(first, |first|)
  {
    skipped := 0;
    while skipped < |first| && Continuation(first[skipped])
      invariant skipped <= |first|
      invariant Skipped(first, |first|) == skipped + Skipped(first[skipped..], |first| - skipped)
    {
      assert first[skipped..][1..] == first[skipped + 1..];
      skipped := skipped + 1;
    }
  }

  lemma {:induction false} SkippedPrefix(bytes: seq<byte>, limit: nat)
    requires limit <= |bytes|
    ensures Skipped(bytes[..limit], limit) == Skipped(bytes, limit)
    decreases limit
  {
    if limit > 0 && Continuation(bytes[0]) {
      assert bytes[..limit][1..] == bytes[1..][..limit - 1];
      SkippedPrefix(bytes[1..], limit - 1);
    }
  }

  method ReadWindow(transcript: seq<byte>, start: nat, requestedMax: nat) returns (output: seq<byte>)
    requires start <= |transcript|
    ensures |output| == Taken(transcript[start..], requestedMax)
    ensures output == transcript[start..][..|output|]
  {
    var readable := |transcript| - start;
    var buffer := transcript[start..start + Min(readable, requestedMax + 3)];
    assert buffer == Window(transcript[start..], requestedMax);
    var safeLength := Utf8SafePrefixLength(buffer, Min(requestedMax, |buffer|));
    output := buffer[..safeLength];
  }

  /** The two reads of a chunk, from a starting point inside the transcript. */
  method ReadChunk(transcript: seq<byte>, start: nat, requestedMax: nat) returns (skipped: nat, output: seq<byte>)
    requires start <= |transcript|
    ensures (skipped, |output|) == Chunk(transcript[start..], requestedMax)
    ensures skipped + |output| <= |transcript[start..]|
    ensures output == transcript[start..][skipped..skipped + |output|]
  {
    hide Taken, Skipped;
    ghost var rest := transcript[start..];
    var size := Min(4, |transcript| - start);
    SkippedPrefix(rest, size);
    assert transcript[start..start + size] == rest[..size];
    skipped := CountContinuations(transcript[start..start + size]);
    output := ReadWindow(transcript, start + skipped, requestedMax);
    assert transcript[start + skipped..] == rest[skipped..];
    assert rest[skipped..][..|output|] == rest[skipped..skipped + |output|];
  }

  method ClampStart(requested: Position, earliest: nat, end: nat) returns (logicalStart: nat, gap: Option<Gap>)
    requires earliest <= end
    ensures (logicalStart, gap) == Clamp(requested, earliest, end)
    ensures earliest <= logicalStart <= end
  {
    logicalStart := requested.offset;
    gap := None;
    if requested.mismatch {
      gap := Some(Gap(StreamChanged, requested.offset, earliest));
      logicalStart := earliest;
    } else if logicalStart < earliest {
      gap := Some(Gap(Retention, logicalStart, earliest));
      logicalStart := earliest;
    } else if logicalStart > end {
      gap := Some(Gap(CursorAhead, logicalStart, earliest));
      logicalStart := end;
    }
  }

  method ReadFrom(earliest: nat, transcript: seq<byte>, requested: Position, requestedMax: nat) returns (slice: Slice)
    ensures slice == ReadSlice(earliest, transcript, requested, requestedMax)
  {
    var end := earliest + |transcript|;
    var logicalStart, gap := ClampStart(requested, earliest, end);
    var physicalStart := logicalStart - earliest;
    ghost var rest := transcript[physicalStart..];
    assert ReadSlice(earliest, transcript, requested, requestedMax)
        == SliceOf(earliest, logicalStart, gap, rest, requestedMax);
    if end - logicalStart == 0 {
      return Slice(logicalStart, [], gap);
    }
    var skipped, output := ReadChunk(transcript, physicalStart, requestedMax);
    slice := Slice(logicalStart + skipped + |output|, output, gap);
    if skipped > 0 && gap.None? {
      slice := slice.(gap := Some(Gap(Utf8Boundary, logicalStart, earliest)));
    }
  }

  method ReadTranscript(session: Session, transcript: seq<byte>, cursor: Cursor, maxBytes: Option<int>)
    returns (r: Result<Reading, CursorError>)
    ensures r == ReadOutput(session, transcript, cursor, maxBytes)
  {
    var parsed := ParseCursor(cursor, session);
    if parsed.Err? {
      return Err(parsed.error);
    }
    var slice := ReadFrom(session.earliest, transcript, parsed.value, RequestedMax(maxBytes));
    return Ok(Reading(EncodeCursor(session, slice.next), slice.output,
                      slice.next < session.earliest + |transcript|, slice.gap));
  }

  // ---------- progress on arbitrary bytes ----------

  /** Nothing is left, or what is left is the beginning of a character that has not been
      completed yet, as far as this read may look. */
  predicate Waiting(rest: seq<byte>, max: nat) {
    rest == [] ||
    (!Continuation(rest[0]) && SequenceLength(rest[0]) > |rest|
     && forall m | 1 <= m < Min(max, |rest|) :: Continuation(rest[m]))
  }

  /** Exactly when a read does not advance, whatever the bytes are. */
  lemma ProgressExactly(rest: seq<byte>, max: nat)
    requires max >= 1
    ensures Chunk(rest, max) == (0, 0) <==> Waiting(rest, max)
    ensures Waiting(rest, max) ==> |rest| < 4
  {
    assert rest[0..] == rest;
    if rest != [] && !Continuation(rest[0]) {
      var buffer := Window(rest, max);
      var length := Min(max, |buffer|);
      var lead := Lead(buffer, length - 1);
      LeadIsLast(buffer, length - 1);
      assert Chunk(rest, max) == (0, SafePrefix(buffer, length));
      assert lead == 0 || !Continuation(rest[lead]);
    }
  }

  // ---------- reassembly ----------

  /** From a character boundary of a growing text, one read returns whole characters. */
  lemma ChunkAligned(text: seq<scalar>, rest: seq<byte>, max: nat) returns (j: nat)
    requires rest <= EncodeAll(text)
    ensures j <= |text|
    ensures Chunk(rest, max) == (0, Offset(text, j)) && Offset(text, j) <= |rest|
    ensures rest[..Offset(text, j)] == EncodeAll(text[..j])
    ensures j < |text| ==> Offset(text, j + 1) > Min(max, |rest|)
    ensures j <= 1 || Offset(text, j) <= max
  {
    var buffer := Window(rest, max);
    if rest != [] {
      CharacterAt(text, 0);
      assert rest[0] == EncodeAll(text)[0];
    }
    assert rest[0..] == rest;
    j := CutAtBoundary(text, buffer, Min(max, |buffer|));
    OffsetWithin(text, j);
  }

  /** The log when `n` bytes of the text have been captured. */
  function Captured(text: seq<scalar>, n: nat): seq<byte>
    requires n <= |EncodeAll(text)|
  {
    EncodeAll(text)[..n]
  }

  /** One call of readOutput: the size the log had then, the bound, the answer. */
  datatype Read = Read(size: nat, max: Option<int>, reading: Reading)

  /** The cursor to pass after these reads. */
  function Resume(calls: seq<Read>): Cursor {
    if calls == [] then Absent else Written(calls[|calls| - 1].reading.cursor)
  }

  /** Reads of a growing log, each resumed at the cursor the one before returned. */
  ghost predicate Reads(session: Session, text: seq<scalar>, calls: seq<Read>) {
    calls == [] ||
    var before, last := calls[..|calls| - 1], calls[|calls| - 1];
    && Reads(session, text, before)
    && Captures(before) <= last.size <= |EncodeAll(text)|
    && ReadOutput(session, Captured(text, last.size), Resume(before), last.max) == Ok(last.reading)
  }

  function Captures(calls: seq<Read>): nat {
    if calls == [] then 0 else calls[|calls| - 1].size
  }

  function Outputs(calls: seq<Read>): seq<byte> {
    if calls == [] then [] else Outputs(calls[..|calls| - 1]) + calls[|calls| - 1].reading.output
  }

  ghost predicate Addressable(session: Session, text: seq<scalar>) {
    ValidSession(session) && session.earliest + |EncodeAll(text)| <= MAX_SAFE_INTEGER
  }

  lemma OffsetAdd(text: seq<scalar>, j: nat, k: nat)
    requires j + k <= |text|
    ensures Offset(text, j + k) == Offset(text, j) + Offset(text[j..], k)
    ensures text[j..][..k] == text[j..j + k]
  {
    assert text[..j + k] == text[..j] + text[j..][..k];
    EncodeAllAppend(text[..j], text[j..][..k]);
  }

  /** One chunk from the boundary before the `j`-th character ends at another one. */
  lemma AlignedFrom(text: seq<scalar>, j: nat, rest: seq<byte>, max: nat) returns (j': nat)
    requires j <= |text| && rest <= EncodeAll(text[j..])
    ensures j <= j' <= |text| && Offset(text, j) <= Offset(text, j') <= Offset(text, j) + |rest|
    ensures Chunk(rest, max) == (0, Offset(text, j') - Offset(text, j))
    ensures rest[..Offset(text, j') - Offset(text, j)] == EncodeAll(text[j..j'])
    ensures j' < |text| ==> Offset(text, j' + 1) - Offset(text, j) > Min(max, |rest|)
    ensures j' <= j + 1 || Offset(text, j') - Offset(text, j) <= max
  {
    hide Offset, EncodeAll, Chunk;
    var tail := text[j..];
    var k := ChunkAligned(tail, rest, max);
    j' := j + k;
    OffsetAdd(text, j, k);
    if j' < |text| {
      OffsetAdd(text, j, k + 1);
    }
  }

  lemma SliceFrom(earliest: nat, log: seq<byte>, o: nat, max: nat, length: nat)
    requires o <= |log| && Chunk(log[o..], max) == (0, length)
    ensures ReadSlice(earliest, log, Position(earliest + o, false), max)
            == Slice(earliest + o + length, log[o..][..length], None)
  {
  }

  lemma CapturedAfter(text: seq<scalar>, n: nat, j: nat)
    requires j <= |text| && Offset(text, j) <= n <= |EncodeAll(text)|
    ensures Captured(text, n)[Offset(text, j)..] <= EncodeAll(text[j..])
    ensures Offset(text, j) + |Captured(text, n)[Offset(text, j)..]| == n
  {
    OffsetWithin(text, j);
    var o := Offset(text, j);
    assert EncodeAll(text)[..n][o..] == EncodeAll(text)[o..][..n - o];
  }

  lemma SliceOfLog(earliest: nat, text: seq<scalar>, log: seq<byte>, o: nat, max: nat, j: nat) returns (j': nat)
    requires j <= |text| && o == Offset(text, j) && o <= |log| && log[o..] <= EncodeAll(text[j..])
    ensures j <= j' <= |text| && o <= Offset(text, j') <= |log|
    ensures Chunk(log[o..], max) == (0, Offset(text, j') - o)
    ensures ReadSlice(earliest, log, Position(earliest + o, false), max)
            == Slice(earliest + Offset(text, j'), EncodeAll(text[j..j']), None)
    ensures j' < |text| ==> Offset(text, j' + 1) > Min(o + max, |log|)
    ensures j' <= j + 1 || Offset(text, j') <= o + max
  {
    hide EncodeAll, Skipped, Taken, Chunk;
    j' := AlignedFrom(text, j, log[o..], max);
    SliceFrom(earliest, log, o, max, Offset(text, j') - o);
  }

  /** One read from the boundary before the `j`-th character. */
  lemma SliceAt(earliest: nat, text: seq<scalar>, n: nat, max: nat, j: nat) returns (j': nat)
    requires j <= |text| && Offset(text, j) <= n <= |EncodeAll(text)| && max >= 1
    ensures j <= j' <= |text| && Offset(text, j') <= n
    ensures ReadSlice(earliest, Captured(text, n), Position(earliest + Offset(text, j), false), max)
            == Slice(earliest + Offset(text, j'), EncodeAll(text[j..j']), None)
    ensures j == j' ==> Chunk(Captured(text, n)[Offset(text, j)..], max) == (0, 0)
    ensures j' < |text| ==> Offset(text, j' + 1) > Min(Offset(text, j) + max, n)
    ensures j' <= j + 1 || Offset(text, j') <= Offset(text, j) + max
  {
    hide EncodeAll, Offset, Chunk, ReadSlice;
    CapturedAfter(text, n, j);
    j' := SliceOfLog(earliest, text, Captured(text, n), Offset(text, j), max, j);
  }

  lemma CompleteNeverWaits(text: seq<scalar>, j: nat, max: nat)
    requires j < |text| && max >= 1
    ensures Offset(text, j) <= |EncodeAll(text)| && Chunk(EncodeAll(text)[Offset(text, j)..], max) != (0, 0)
  {
    OffsetWithin(text, j);
    CharacterAt(text[j..], 0);
    ProgressExactly(EncodeAll(text[j..]), max);
  }

  /** A read that starts at offset `o`: the first one, or one resumed there. */
  ghost predicate StartsAt(session: Session, cursor: Cursor, o: nat) {
    (o == session.earliest && cursor == Absent) || cursor == Written(EncodeCursor(session, o))
  }

  lemma ReadingFrom(session: Session, log: seq<byte>, cursor: Cursor, max: Option<int>, o: nat)
    requires ValidSession(session) && o <= MAX_SAFE_INTEGER && StartsAt(session, cursor, o)
    ensures var slice := ReadSlice(session.earliest, log, Position(o, false), RequestedMax(max));
            ReadOutput(session, log, cursor, max) ==
            Ok(Reading(EncodeCursor(session, slice.next), slice.output, slice.next < session.earliest + |log|,
                       slice.gap))
  {
    CursorRoundTrip(session, session, o);
  }

  /** The slice read from the boundary before the `j`-th character, on any log: whole
      characters, and at least one of them when the log is complete. */
  lemma SliceAdvances(earliest: nat, text: seq<scalar>, n: nat, max: nat, j: nat) returns (j': nat)
    requires j <= |text| && Offset(text, j) <= n <= |EncodeAll(text)| && max >= 1
    ensures j <= j' <= |text| && Offset(text, j') <= n
    ensures ReadSlice(earliest, Captured(text, n), Position(earliest + Offset(text, j), false), max)
            == Slice(earliest + Offset(text, j'), EncodeAll(text[j..j']), None)
    ensures n == |EncodeAll(text)| && j < |text| ==> j < j'
    ensures j' < |text| ==> Offset(text, j' + 1) > Min(Offset(text, j) + max, n)
    ensures j' <= j + 1 || Offset(text, j') <= Offset(text, j) + max
  {
    j' := SliceAt(earliest, text, n, max, j);
    if n == |EncodeAll(text)| && j < |text| {
      assert Captured(text, n) == EncodeAll(text);
      CompleteNeverWaits(text, j, max);
    }
  }

  /** A resumed read starts where the one before ended, and returns all the characters that fit:
      the next one has not been captured, or does not fit into what was asked for; and unless
      it returns a single one, no more than that. */
  lemma Resumed(session: Session, text: seq<scalar>, n: nat, cursor: Cursor, max: Option<int>, j: nat, reading: Reading)
    returns (j': nat)
    requires Addressable(session, text) && j <= |text| && Offset(text, j) <= n <= |EncodeAll(text)|
    requires StartsAt(session, cursor, session.earliest + Offset(text, j))
    requires ReadOutput(session, Captured(text, n), cursor, max) == Ok(reading)
    ensures j <= j' <= |text| && Offset(text, j') <= n
    ensures reading.cursor == EncodeCursor(session, session.earliest + Offset(text, j'))
    ensures reading.output == EncodeAll(text[j..j']) && reading.gap == None
    ensures n == |EncodeAll(text)| && j < |text| ==> j < j'
    ensures j' < |text| ==> Offset(text, j' + 1) > Min(Offset(text, j) + RequestedMax(max), n)
    ensures j' <= j + 1 || Offset(text, j') <= Offset(text, j) + RequestedMax(max)
  {
    hide EncodeAll, Captured, Offset, ReadSlice, ReadOutput, EncodeCursor;
    ReadingFrom(session, Captured(text, n), cursor, max, session.earliest + Offset(text, j));
    j' := SliceAdvances(session.earliest, text, n, RequestedMax(max), j);
  }

  /** The first `j` characters have been returned, and the next read starts after them. */
  ghost predicate Returned(session: Session, text: seq<scalar>, calls: seq<Read>, j: nat) {
    && j <= |text|
    && Outputs(calls) == EncodeAll(text[..j])
    && StartsAt(session, Resume(calls), session.earliest + Offset(text, j))
    && forall i | 0 <= i < |calls| :: calls[i].reading.gap == None
  }

  lemma ReturnedMore(session: Session, text: seq<scalar>, calls: seq<Read>, last: Read, j: nat, j': nat)
    requires j <= j' <= |text| && Returned(session, text, calls, j)
    requires last.reading.cursor == EncodeCursor(session, session.earliest + Offset(text, j'))
    requires last.reading.output == EncodeAll(text[j..j']) && last.reading.gap == None
    ensures Returned(session, text, calls + [last], j')
  {
    assert text[..j'] == text[..j] + text[j..j'];
    EncodeAllAppend(text[..j], text[j..j']);
    assert (calls + [last])[..|calls|] == calls;
  }

  lemma NextRead(session: Session, text: seq<scalar>, calls: seq<Read>, last: Read, j: nat) returns (j': nat)
    requires Addressable(session, text) && Returned(session, text, calls, j)
    requires Offset(text, j) <= last.size <= |EncodeAll(text)|
    requires ReadOutput(session, Captured(text, last.size), Resume(calls), last.max) == Ok(last.reading)
    ensures j <= j' <= |text| && Offset(text, j') <= last.size
    ensures Returned(session, text, calls + [last], j')
    ensures last.size == |EncodeAll(text)| && j < |text| ==> j < j'
  {
    j' := Resumed(session, text, last.size, Resume(calls), last.max, j, last.reading);
    ReturnedMore(session, text, calls, last, j, j');
  }

  /** Reassembly: however the log grows and however small the chunks, the outputs
      concatenate to whole characters of the text up to the returned cursor, and no gap
      is reported. By EncodeAllInjective their decoding is unique: text[..j]. */
  lemma {:induction false} Reassembly(session: Session, text: seq<scalar>, calls: seq<Read>) returns (j: nat)
    requires Addressable(session, text) && Reads(session, text, calls)
    ensures Returned(session, text, calls, j) && Offset(text, j) <= Captures(calls)
  {
    hide EncodeCursor, ReadOutput, Captured;
    if calls == [] {
      j := 0;
    } else {
      var before, last := calls[..|calls| - 1], calls[|calls| - 1];
      var i := Reassembly(session, text, before);
      j := NextRead(session, text, before, last, i);
      assert before + [last] == calls;
    }
  }

  /** Reading can always go on: whatever has been captured by then and whatever is asked
      for, the returned cursor is never refused. */
  lemma ReadsContinue(session: Session, text: seq<scalar>, calls: seq<Read>, size: nat, max: Option<int>)
    returns (call: Read)
    requires Addressable(session, text) && Reads(session, text, calls)
    requires Captures(calls) <= size <= |EncodeAll(text)|
    ensures call.size == size && call.max == max && Reads(session, text, calls + [call])
  {
    hide EncodeCursor, ParseCursor, Captured, ReadSlice, EncodeAll;
    var j := Reassembly(session, text, calls);
    OffsetWithin(text, j);
    ReadingFrom(session, Captured(text, size), Resume(calls), max, session.earliest + Offset(text, j));
    call := Read(size, max, ReadOutput(session, Captured(text, size), Resume(calls), max).value);
    assert (calls + [call])[..|calls|] == calls;
  }

  predicate Complete(text: seq<scalar>, calls: seq<Read>) {
    calls == [] || (Complete(text, calls[..|calls| - 1]) && calls[|calls| - 1].size == |EncodeAll(text)|)
  }

  /** On a log that is complete, every read returns at least one more character. */
  lemma {:induction false} CompleteReads(session: Session, text: seq<scalar>, calls: seq<Read>) returns (j: nat)
    requires Addressable(session, text) && Reads(session, text, calls) && Complete(text, calls)
    ensures Returned(session, text, calls, j) && j >= Min(|calls|, |text|)
  {
    hide EncodeCursor, ReadOutput, Captured;
    if calls == [] {
      j := 0;
    } else {
      var before, last := calls[..|calls| - 1], calls[|calls| - 1];
      var i := CompleteReads(session, text, before);
      OffsetWithin(text, i);
      j := NextRead(session, text, before, last, i);
      assert before + [last] == calls;
    }
  }

  /** Read to the end: on a complete log, as many reads as there are characters are
      enough, and together they return the whole text. */
  lemma ReadsToTheEnd(session: Session, text: seq<scalar>, calls: seq<Read>)
    requires Addressable(session, text) && Reads(session, text, calls) && Complete(text, calls)
    requires |calls| >= |text|
    ensures Outputs(calls) == EncodeAll(text)
  {
    var j := CompleteReads(session, text, calls);
    assert text[..j] == text;
  }
}
