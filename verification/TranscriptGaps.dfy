/** What a reader is told when it asks for something that is not there: which cursors are
    accepted, where a read then starts, and which gap it reports. */
module TranscriptGaps {
  import opened Numbers
  import opened Results
  import opened Text
  import opened Transcript
  import opened Utf8

  // ---------- cursors ----------

  /** The text of a versioned cursor, by its four parts. */
  predicate IsVersioned(text: string, v: string, stream: string, e: string, o: string) {
    Numeral(v) && StreamId(stream) && Numeral(e) && Numeral(o)
    && text == "v" + v + ":" + stream + ":" + e + ":" + o
  }

  /** Its numbers are in range. */
  predicate InRange(v: string, e: string, o: string)
    requires AllDigits(v) && AllDigits(e) && AllDigits(o)
  {
    DigitsValue(v) == 1 && 1 <= DigitsValue(e) <= MAX_SAFE_INTEGER && DigitsValue(o) <= MAX_SAFE_INTEGER
  }

  lemma DigitsFree(s: string)
    requires AllDigits(s)
    ensures Free(s, ':')
  {
  }

  lemma StreamFree(s: string)
    requires StreamId(s)
    ensures Free(s, ':')
  {
  }

  lemma VersionedParts(text: string, v: string, stream: string, e: string, o: string)
    requires IsVersioned(text, v, stream, e, o)
    ensures Split(text, ':') == ["v" + v, stream, e, o] && Versioned(Split(text, ':')) && text != "" && !AllDigits(text)
  {
    JoinFour("v" + v, stream, e, o);
    DigitsFree(v);
    DigitsFree(e);
    DigitsFree(o);
    StreamFree(stream);
    var parts := ["v" + v, stream, e, o];
    assert Free("v" + v, ':');
    SplitOfJoin(parts, ':');
    assert ("v" + v)[1..] == v;
    assert text[0] == 'v';
  }

  lemma PartsVersioned(text: string)
    requires Versioned(Split(text, ':'))
    ensures var parts := Split(text, ':'); IsVersioned(text, parts[0][1..], parts[1], parts[2], parts[3])
  {
    var parts := Split(text, ':');
    JoinOfSplit(text, ':');
    JoinFour(parts[0], parts[1], parts[2], parts[3]);
    assert parts == [parts[0], parts[1], parts[2], parts[3]];
    assert parts[0] == "v" + parts[0][1..];
  }

  /** Which cursors are accepted, and what each asks for. Nothing, or an empty text, asks for
      all that is retained; a number or a numeral for that offset; a versioned text for its
      offset, as a mismatch exactly when stream or epoch are not the session's. Everything
      else, and everything beyond the safe integers, is refused. */
  lemma ParsesExactly(cursor: Cursor, session: Session)
    ensures var p := ParseCursor(cursor, session);
            match cursor
            case Absent => p == Ok(Position(session.earliest, false))
            case Numeric(n) =>
              (p.Ok? <==> 0 <= n <= MAX_SAFE_INTEGER) && (p.Ok? ==> p.value.offset == n && !p.value.mismatch)
            case Written(text) =>
              && (text == "" ==> p == Ok(Position(session.earliest, false)))
              && (Numeral(text) ==>
                    && (p.Ok? <==> DigitsValue(text) <= MAX_SAFE_INTEGER)
                    && (p.Ok? ==> p.value.offset == DigitsValue(text) && !p.value.mismatch))
              && (text != "" && !Numeral(text) ==>
                    (p.Ok? <==> exists v, stream, e, o :: IsVersioned(text, v, stream, e, o) && InRange(v, e, o)))
              && (forall v, stream, e, o | IsVersioned(text, v, stream, e, o) && InRange(v, e, o) ::
                    p == Ok(Position(DigitsValue(o), stream != session.streamId || DigitsValue(e) != session.epoch)))
  {
    hide DigitsValue;
    if cursor.Written? && cursor.text != "" && !Numeral(cursor.text) {
      var text := cursor.text;
      forall v, stream, e, o | IsVersioned(text, v, stream, e, o) && InRange(v, e, o)
        ensures ParseCursor(cursor, session) ==
                Ok(Position(DigitsValue(o), stream != session.streamId || DigitsValue(e) != session.epoch))
      {
        VersionedParts(text, v, stream, e, o);
        assert ("v" + v)[1..] == v;
      }
      if ParseCursor(cursor, session).Ok? {
        PartsVersioned(text);
      }
    }
    if cursor.Written? {
      forall v, stream, e, o | IsVersioned(cursor.text, v, stream, e, o)
        ensures !Numeral(cursor.text) && cursor.text != ""
      {
        VersionedParts(cursor.text, v, stream, e, o);
      }
    }
  }

  /** At least one byte, at most 256 KiB, 64 KiB when nothing usable was asked for. */
  lemma RequestedMaxExactly(maxBytes: Option<int>)
    ensures 1 <= RequestedMax(maxBytes) <= 0x40000
    ensures maxBytes == None || maxBytes == Some(0) ==> RequestedMax(maxBytes) == 0x10000
    ensures forall n | maxBytes == Some(n) && n != 0 ::
              && (n < 0 ==> RequestedMax(maxBytes) == 1)
              && (1 <= n <= 0x40000 ==> RequestedMax(maxBytes) == n)
              && (n > 0x40000 ==> RequestedMax(maxBytes) == 0x40000)
  {
  }

  // ---------- where a read starts ----------

  /** The first bytes of the log from this offset that cannot begin a character. */
  predicate Skips(log: seq<byte>, at: nat, skipped: nat) {
    && at + skipped <= |log| && skipped <= 4
    && (forall k | at <= k < at + skipped :: Continuation(log[k]))
    && (skipped < 4 && at + skipped < |log| ==> !Continuation(log[at + skipped]))
  }

  /** The reading is a piece of the log from this offset on, after what it skips; its cursor
      is where the piece ends, and there is more exactly if that is before the end. */
  predicate Piece(session: Session, log: seq<byte>, at: nat, skipped: nat, next: nat, max: nat, r: Reading) {
    && Skips(log, at, skipped) && at + skipped <= next <= |log|
    && r.cursor == EncodeCursor(session, session.earliest + next)
    && r.output == log[at + skipped..next] && |r.output| <= Max(max, 4)
    && (r.hasMore <==> next < |log|)
  }

  ghost predicate Pieces(session: Session, log: seq<byte>, at: nat, max: nat, gap: Option<Gap>, r: Reading) {
    exists skipped, next ::
      && Piece(session, log, at, skipped, next, max, r)
      && r.gap == if gap.None? && skipped > 0
                  then Some(Gap(Utf8Boundary, session.earliest + at, session.earliest)) else gap
  }

  /** The same as a first read, but for the gap. */
  predicate Restarted(session: Session, log: seq<byte>, maxBytes: Option<int>, gap: Gap, r: Reading) {
    var first := ReadOutput(session, log, Absent, maxBytes);
    first.Ok? && r == first.value.(gap := Some(gap))
  }

  lemma {:induction false} SkippedExactly(bytes: seq<byte>, limit: nat)
    requires limit <= |bytes|
    ensures var n := Skipped(bytes, limit);
            (forall k | 0 <= k < n :: Continuation(bytes[k])) && (n < limit ==> !Continuation(bytes[n]))
    decreases limit
  {
    if limit > 0 && Continuation(bytes[0]) {
      SkippedExactly(bytes[1..], limit - 1);
      var n := Skipped(bytes[1..], limit - 1);
      forall k | 0 <= k < 1 + n ensures Continuation(bytes[k]) {
        assert k > 0 ==> bytes[k] == bytes[1..][k - 1];
      }
    }
  }

  /** What one read returns, whatever is asked for: from the retained offset asked for, or,
      with a gap that names the offset asked for, from the earliest retained byte when the
      cursor is another stream's or too old, and nothing at the end when it is ahead. */
  lemma ReadsExactly(session: Session, log: seq<byte>, cursor: Cursor, maxBytes: Option<int>)
    ensures var p, r := ParseCursor(cursor, session), ReadOutput(session, log, cursor, maxBytes);
            var earliest, end, max := session.earliest, session.earliest + |log|, RequestedMax(maxBytes);
            if p.Err? then r == Err(p.error)
            else
              && r.Ok?
              && (p.value.mismatch ==>
                    && Restarted(session, log, maxBytes, Gap(StreamChanged, p.value.offset, earliest), r.value)
                    && Pieces(session, log, 0, max, Some(Gap(StreamChanged, p.value.offset, earliest)), r.value))
              && (!p.value.mismatch && p.value.offset < earliest ==>
                    && Restarted(session, log, maxBytes, Gap(Retention, p.value.offset, earliest), r.value)
                    && Pieces(session, log, 0, max, Some(Gap(Retention, p.value.offset, earliest)), r.value))
              && (!p.value.mismatch && p.value.offset > end ==>
                    r.value == Reading(EncodeCursor(session, end), [], false,
                                       Some(Gap(CursorAhead, p.value.offset, earliest))))
              && (!p.value.mismatch && earliest <= p.value.offset <= end ==>
                    Pieces(session, log, p.value.offset - earliest, max, None, r.value))
  {
    hide EncodeCursor, ParseCursor, Pieces, SliceOf, ReadOutput, RequestedMax;
    var p := ParseCursor(cursor, session);
    if p.Ok? {
      OutputOf(session, log, cursor, maxBytes);
      var (at, gap) := Clamp(p.value, session.earliest, session.earliest + |log|);
      PieceOf(session, log, at - session.earliest, RequestedMax(maxBytes), gap);
      FirstRead(session, log, maxBytes);
      Regapped(session.earliest, at, gap, log, RequestedMax(maxBytes));
    } else {
      Refused(session, log, cursor, maxBytes);
    }
  }

  lemma Refused(session: Session, log: seq<byte>, cursor: Cursor, maxBytes: Option<int>)
    requires ParseCursor(cursor, session).Err?
    ensures ReadOutput(session, log, cursor, maxBytes) == Err(ParseCursor(cursor, session).error)
  {
  }

  /** The reading that a slice is answered with. */
  function Answered(session: Session, log: seq<byte>, slice: Slice): Reading {
    Reading(EncodeCursor(session, slice.next), slice.output, slice.next < session.earliest + |log|, slice.gap)
  }

  lemma OutputOf(session: Session, log: seq<byte>, cursor: Cursor, maxBytes: Option<int>)
    requires ParseCursor(cursor, session).Ok?
    ensures var (at, gap) := Clamp(ParseCursor(cursor, session).value, session.earliest, session.earliest + |log|);
            session.earliest <= at <= session.earliest + |log|
            && ReadOutput(session, log, cursor, maxBytes) ==
               Ok(Answered(session, log,
                           SliceOf(session.earliest, at, gap, log[at - session.earliest..], RequestedMax(maxBytes))))
  {
    hide ParseCursor, SliceOf, EncodeCursor, RequestedMax;
  }

  lemma FirstRead(session: Session, log: seq<byte>, maxBytes: Option<int>)
    ensures ReadOutput(session, log, Absent, maxBytes) ==
            Ok(Answered(session, log, SliceOf(session.earliest, session.earliest, None, log, RequestedMax(maxBytes))))
  {
    assert log[0..] == log;
  }

  /** A gap at the start changes nothing else, and nothing is left at the end. */
  lemma Regapped(earliest: nat, at: nat, gap: Option<Gap>, log: seq<byte>, max: nat)
    requires earliest <= at <= earliest + |log|
    ensures gap.Some? ==>
              SliceOf(earliest, at, gap, log[at - earliest..], max) ==
              SliceOf(earliest, at, None, log[at - earliest..], max).(gap := gap)
    ensures at == earliest ==> log[at - earliest..] == log
    ensures at == earliest + |log| && gap.Some? ==>
              SliceOf(earliest, at, gap, log[at - earliest..], max) == Slice(at, [], gap)
  {
    if at == earliest + |log| {
      assert log[at - earliest..] == [];
    }
  }

  lemma PieceOf(session: Session, log: seq<byte>, at: nat, max: nat, gap: Option<Gap>)
    requires at <= |log|
    ensures Pieces(session, log, at, max, gap,
                   Answered(session, log, SliceOf(session.earliest, session.earliest + at, gap, log[at..], max)))
  {
    hide EncodeCursor, Taken, Skipped;
    var rest := log[at..];
    var (skipped, length) := Chunk(rest, max);
    SkippedExactly(rest, Min(4, |rest|));
    LogSkips(log, at, skipped);
    assert rest[skipped..skipped + length] == log[at + skipped..at + skipped + length];
    var r := Answered(session, log, SliceOf(session.earliest, session.earliest + at, gap, rest, max));
    assert Piece(session, log, at, skipped, at + skipped + length, max, r);
  }

  lemma LogSkips(log: seq<byte>, at: nat, skipped: nat)
    requires at <= |log| && skipped == Skipped(log[at..], Min(4, |log[at..]|))
    ensures Skips(log, at, skipped)
  {
    var rest := log[at..];
    SkippedExactly(rest, Min(4, |rest|));
    forall k | at <= k < at + skipped ensures Continuation(log[k]) {
      assert log[k] == rest[k - at];
    }
    assert at + skipped < |log| ==> log[at + skipped] == rest[skipped];
  }

  // ---------- reading everything after a restart ----------

  /** Reads of a growing log, the first with this cursor, each other resumed at the cursor that
      the one before returned. */
  ghost predicate ReadsFrom(session: Session, text: seq<scalar>, first: Cursor, calls: seq<Read>)
    requires calls != []
  {
    var before, last := calls[..|calls| - 1], calls[|calls| - 1];
    && last.size <= |EncodeAll(text)|
    && (before == [] || (ReadsFrom(session, text, first, before) && Captures(before) <= last.size))
    && ReadOutput(session, Captured(text, last.size), if before == [] then first else Resume(before), last.max) ==
       Ok(last.reading)
  }

  function Ungapped(call: Read): Read { call.(reading := call.reading.(gap := None)) }

  lemma FirstRestarts(session: Session, text: seq<scalar>, first: Cursor, call: Read)
    requires Addressable(session, text) && ReadsFrom(session, text, first, [call])
    requires ParseCursor(first, session).Ok?
    requires var p := ParseCursor(first, session).value; p.mismatch || p.offset < session.earliest
    ensures Reads(session, text, [Ungapped(call)])
    ensures var p := ParseCursor(first, session).value;
            call.reading.gap ==
            Some(Gap(if p.mismatch then StreamChanged else Retention, p.offset, session.earliest))
  {
    hide ParseCursor, EncodeCursor, EncodeAll, Captured, Pieces;
    var log := Captured(text, call.size);
    assert [call][..0] == [] && [Ungapped(call)][..0] == [];
    ReadsExactly(session, log, first, call.max);
    var answer := ReadOutput(session, log, Absent, call.max);
    EmptyOffset(text);
    var j := Resumed(session, text, call.size, Absent, call.max, 0, answer.value);
    assert answer.value == call.reading.(gap := None);
  }

  lemma EmptyOffset(text: seq<scalar>)
    ensures Offset(text, 0) == 0
  {
    assert text[..0] == [];
  }

  /** Apart from the gap of the first, they are reads from the beginning. */
  lemma {:induction false} RestartReads(session: Session, text: seq<scalar>, first: Cursor, calls: seq<Read>)
    requires calls != [] && Addressable(session, text) && ReadsFrom(session, text, first, calls)
    requires ParseCursor(first, session).Ok?
    requires var p := ParseCursor(first, session).value; p.mismatch || p.offset < session.earliest
    ensures var plain := calls[0 := Ungapped(calls[0])];
            Reads(session, text, plain) && Outputs(plain) == Outputs(calls) && Captures(plain) == Captures(calls)
            && Resume(plain) == Resume(calls)
    ensures Complete(text, calls) ==> Complete(text, calls[0 := Ungapped(calls[0])])
    ensures var p := ParseCursor(first, session).value;
            calls[0].reading.gap ==
            Some(Gap(if p.mismatch then StreamChanged else Retention, p.offset, session.earliest))
  {
    hide ParseCursor, ReadOutput, EncodeAll, Captured;
    var n := |calls| - 1;
    var plain := calls[0 := Ungapped(calls[0])];
    assert plain[..n] == if n == 0 then [] else calls[..n][0 := Ungapped(calls[0])];
    if n == 0 {
      assert calls == [calls[0]] && plain == [Ungapped(calls[0])];
      FirstRestarts(session, text, first, calls[0]);
    } else {
      RestartReads(session, text, first, calls[..n]);
      assert calls[..n] + [calls[n]] == calls;
    }
  }

  /** A reader that comes back with a cursor of another stream, or one that is too old, is told
      so once, and then reads the whole retained text. */
  lemma RestartsReadAll(session: Session, text: seq<scalar>, first: Cursor, calls: seq<Read>)
    requires calls != [] && Addressable(session, text) && ReadsFrom(session, text, first, calls)
    requires ParseCursor(first, session).Ok? && Complete(text, calls) && |calls| >= |text|
    requires var p := ParseCursor(first, session).value; p.mismatch || p.offset < session.earliest
    ensures Outputs(calls) == EncodeAll(text)
    ensures var p := ParseCursor(first, session).value;
            calls[0].reading.gap ==
            Some(Gap(if p.mismatch then StreamChanged else Retention, p.offset, session.earliest))
    ensures forall i | 1 <= i < |calls| :: calls[i].reading.gap == None
  {
    hide ParseCursor, Reads, ReadsFrom, Complete, Outputs, EncodeAll;
    RestartReads(session, text, first, calls);
    var plain := calls[0 := Ungapped(calls[0])];
    ReadsToTheEnd(session, text, plain);
    var j := Reassembly(session, text, plain);
    forall i | 1 <= i < |calls| ensures calls[i].reading.gap == None {
      assert plain[i] == calls[i];
    }
  }
}
