/** Reading the journal back: the streaming scanner with torn-tail repair, and the lockless second
    reader. */
module Scan {
  import opened Bytes
  import opened StoredPayload
  import opened Frame

  datatype JournalScan = JournalScan(last: Option<Record>, validEnd: nat, truncateTo: Option<nat>)

  datatype ScanError =
    | JournalTooLarge
    | TooManyRecords
    | UnparsableFrame(at: nat)
    | ForeignFrame(at: nat)
    | CorruptFrame(at: nat)

  // ---- what a scan means ----

  /** A complete frame of this session starts somewhere after `start`. */
  ghost predicate LaterValid(w: World, hash: Hash, b: seq<byte>, start: nat) {
    exists o: nat :: start < o <= |b| && ValidFrameAt(w, hash, b[o..])
  }

  /** The scan resumed at byte `start`, `records` frames in. */
  ghost function ScanFrom(w: World, hash: Hash, b: seq<byte>, start: nat, last: Option<Record>, records: nat)
    : Result<JournalScan, ScanError>
    requires start <= |b|
    decreases |b| - start
  {
    var rest := b[start..];
    if rest == [] then Ok(JournalScan(last, start, None))
    else if !Checksummed(w, rest) then
      if LaterValid(w, hash, b, start) then Err(CorruptFrame(start))
      else Ok(JournalScan(last, start, Some(start)))
    else if w.decode(Body(rest)).None? then Err(UnparsableFrame(start))
    else if !Binds(w.decode(Body(rest)).value, hash) then Err(ForeignFrame(start))
    else if records + 1 > MAX_RECORDS then Err(TooManyRecords)
    else ScanFrom(w, hash, b, start + FrameLen(rest), Some(RecordAt(w, rest)), records + 1)
  }

  ghost function ScanFile(w: World, hash: Hash, file: Option<seq<byte>>): Result<JournalScan, ScanError> {
    match file
    case None => Ok(JournalScan(None, 0, None))
    case Some(b) => if |b| > MAX_JOURNAL_BYTES then Err(JournalTooLarge) else ScanFrom(w, hash, b, 0, None, 0)
  }

  // ---- the code ----

  /** `read` answers with any number of available bytes, zero only at the end of the file. */
  method OsRead(content: seq<byte>, pos: nat, want: nat, short: nat) returns (count: nat)
    requires pos <= |content| && want > 0
    ensures count <= want && pos + count <= |content|
    ensures count == 0 <==> pos == |content|
  {
    var available := |content| - pos;
    count := if available < want then available else want;
    if 0 < short < count { count := short; }
  }

  /** `read_partial`: short reads are retried until the buffer is full or the file ends, so what comes
      back does not depend on how the kernel split it (`short` per call). */
  method ReadPartial(content: seq<byte>, pos: nat, want: nat, short: nat -> nat) returns (buffer: seq<byte>, next: nat)
    requires pos <= |content|
    ensures next == (if pos + want <= |content| then pos + want else |content|)
    ensures buffer == content[pos..next]
  {
    buffer, next := [], pos;
    while |buffer| < want
      invariant pos <= next <= |content| && buffer == content[pos..next] && |buffer| <= want
      decreases |content| - next, if next == |content| then 0 else 1
    {
      var count := OsRead(content, next, want - |buffer|, short(next));
      if count == 0 { break; }
      buffer := buffer + content[next..next + count];
      next := next + count;
    }
  }

  /** `has_valid_later_frame`: try every offset that leaves room for a header. */
  method HasValidLaterFrame(w: World, hash: Hash, content: seq<byte>, start: nat) returns (found: bool)
    requires start < |content|
    ensures found <==> LaterValid(w, hash, content, start)
  {
    var suffix := content[start + 1..];
    var limit := if |suffix| < HEADER_BYTES - 1 then 0 else |suffix| - (HEADER_BYTES - 1);
    for offset := 0 to limit
      invariant forall o :: 0 <= o < offset ==> !ValidFrameAt(w, hash, suffix[o..])
    {
      if MAGIC <= suffix[offset..] && ValidFrameAt(w, hash, suffix[offset..]) {
        assert content[start + 1 + offset..] == suffix[offset..];
        return true;
      }
    }
    forall o: nat | start < o <= |content|
      ensures !ValidFrameAt(w, hash, content[o..])
    {
      var at := o - start - 1;
      assert content[o..] == suffix[at..];
      if at >= limit { assert |suffix[at..]| < HEADER_BYTES; }
    }
    found := false;
  }

  /** `terminal_corruption` */
  method TerminalCorruption(w: World, hash: Hash, content: seq<byte>, start: nat, last: Option<Record>, validEnd: nat)
    returns (r: Result<JournalScan, ScanError>)
    requires start < |content|
    ensures r == if LaterValid(w, hash, content, start) then Err(CorruptFrame(start))
                 else Ok(JournalScan(last, validEnd, Some(validEnd)))
  {
    var later := HasValidLaterFrame(w, hash, content, start);
    r := if later then Err(CorruptFrame(start)) else Ok(JournalScan(last, validEnd, Some(validEnd)));
  }

  /** What reading one frame at the cursor finds. */
  datatype Reading = AtEnd | Damaged | Whole(epoch: u64, state: HandoffState, body: seq<byte>)

  /** The part of `scan`'s loop that reads: header, bounds, body, state, checksum. */
  method ReadFrame(w: World, content: seq<byte>, start: nat, short: nat -> nat) returns (reading: Reading, cursor: nat)
    requires start <= |content|
    ensures reading.AtEnd? <==> start == |content|
    ensures reading.Whole? <==> Checksummed(w, content[start..])
    ensures reading.Whole? ==>
              var rest := content[start..];
              && reading == Whole(EpochOf(rest), StateOf(rest[17]).value, Body(rest))
              && cursor == start + FrameLen(rest)
  {
    ghost var rest := content[start..];
    var header;
    header, cursor := ReadPartial(content, start, HEADER_BYTES, short);
    if |header| == 0 { return AtEnd, cursor; }
    if |header| != HEADER_BYTES { return Damaged, cursor; }
    assert header == rest[..HEADER_BYTES];
    assert header[..4] == rest[..4] && header[5..9] == rest[5..9] && header[9..17] == rest[9..17];
    if header[..4] != MAGIC || header[4] != VERSION { return Damaged, cursor; }
    var length := LeNat(header[5..9]);
    if length > MAX_PAYLOAD_BYTES { return Damaged, cursor; }
    var body;
    body, cursor := ReadPartial(content, cursor, length + CHECKSUM_BYTES, short);
    if |body| != length + CHECKSUM_BYTES { return Damaged, cursor; }
    assert body == rest[HEADER_BYTES..HEADER_BYTES + length + CHECKSUM_BYTES];
    assert body[..length] == Body(rest);
    assert body[length..] == rest[HEADER_BYTES + length..FrameLen(rest)];
    assert header + body[..length] == rest[..HEADER_BYTES + length];
    var state := StateOf(header[17]);
    if state.None? || w.sha(header + body[..length]) != body[length..] { return Damaged, cursor; }
    LeNat8Bound(header[9..17]);
    reading := Whole(LeNat(header[9..17]), state.value, body[..length]);
  }

  /** What the frame at the cursor makes of the scan. */
  lemma ScanStep(w: World, hash: Hash, b: seq<byte>, start: nat, last: Option<Record>, records: nat)
    requires start <= |b|
    ensures var rest, answer := b[start..], ScanFrom(w, hash, b, start, last, records);
            && (start == |b| ==> answer == Ok(JournalScan(last, start, None)))
            && (start < |b| && !Checksummed(w, rest) ==>
                  answer == if LaterValid(w, hash, b, start) then Err(CorruptFrame(start)) else Ok(JournalScan(last, start, Some(start))))
            && (start < |b| && Checksummed(w, rest) ==>
                  && HEADER_BYTES <= |rest| && StateOf(rest[17]).Some? && 0 < FrameLen(rest) <= |rest|
                  && var stored := w.decode(Body(rest));
                     answer == if stored.None? then Err(UnparsableFrame(start))
                               else if stored.value.sessionHash != hash || stored.value.source.pid == 0 then Err(ForeignFrame(start))
                               else if records + 1 > MAX_RECORDS then Err(TooManyRecords)
                               else ScanFrom(w, hash, b, start + FrameLen(rest),
                                             Some(Record(EpochOf(rest),
                                                 StateOf(rest[17]).value, stored.value.payload, stored.value.source)),
                                             records + 1))
  {
  }

  /** `scan`: one pass with a file cursor. */
  method ScanJournal(w: World, hash: Hash, file: Option<seq<byte>>, short: nat -> nat)
    returns (r: Result<JournalScan, ScanError>)
    ensures r == ScanFile(w, hash, file)
  {
    hide LaterValid, Checksummed, ScanFrom, Body, EpochOf, StateOf, FrameLen, LeNat, ValidFrameAt, RecordAt, Binds;
    if file.None? { return Ok(JournalScan(None, 0, None)); }
    var content := file.value;
    if |content| > MAX_JOURNAL_BYTES { return Err(JournalTooLarge); }
    var validEnd, last, records := 0, None, 0;
    while true
      invariant validEnd <= |content|
      invariant ScanFile(w, hash, file) == ScanFrom(w, hash, content, validEnd, last, records)
      decreases |content| - validEnd
    {
      var start := validEnd;
      ScanStep(w, hash, content, start, last, records);
      var reading, cursor := ReadFrame(w, content, start, short);
      match reading
      case AtEnd => return Ok(JournalScan(last, validEnd, None));
      case Damaged =>
        r := TerminalCorruption(w, hash, content, start, last, validEnd);
        return;
      case Whole(epoch, state, body) =>
        var stored := w.decode(body);
        if stored.None? { return Err(UnparsableFrame(start)); }
        if stored.value.sessionHash != hash || stored.value.source.pid == 0 { return Err(ForeignFrame(start)); }
        records := records + 1;
        if records > MAX_RECORDS { return Err(TooManyRecords); }
        last := Some(Record(epoch, state, stored.value.payload, stored.value.source));
        validEnd := cursor;
    }
  }

  // ---- scan is exact on any byte string ----

  /** The records of the longest run of valid frames from `start`, and where that run ends. */
  function Records(w: World, hash: Hash, b: seq<byte>, start: nat): (rs: seq<Record>)
    requires start <= |b|
    decreases |b| - start
  {
    if ValidFrameAt(w, hash, b[start..])
    then [RecordAt(w, b[start..])] + Records(w, hash, b, start + FrameLen(b[start..]))
    else []
  }

  function RunEnd(w: World, hash: Hash, b: seq<byte>, start: nat): (e: nat)
    requires start <= |b|
    ensures start <= e <= |b|
    ensures !ValidFrameAt(w, hash, b[e..])
    decreases |b| - start
  {
    if ValidFrameAt(w, hash, b[start..]) then RunEnd(w, hash, b, start + FrameLen(b[start..])) else start
  }

  lemma ValidIsStep(w: World, hash: Hash, b: seq<byte>, start: nat)
    requires start <= |b| && ValidFrameAt(w, hash, b[start..])
    ensures var next := start + FrameLen(b[start..]);
            && next <= |b|
            && Records(w, hash, b, start) == [RecordAt(w, b[start..])] + Records(w, hash, b, next)
            && RunEnd(w, hash, b, start) == RunEnd(w, hash, b, next)
  {
  }

  /** What a whole scan answers, in terms of the longest valid run alone. */
  ghost function Verdict(w: World, hash: Hash, b: seq<byte>, start: nat, last: Option<Record>, records: nat)
    : Result<JournalScan, ()>
    requires start <= |b|
  {
    var rs := Records(w, hash, b, start);
    var end := RunEnd(w, hash, b, start);
    var newest := if rs == [] then last else Some(rs[|rs| - 1]);
    if records + |rs| > MAX_RECORDS then Err(())
    else if end == |b| then Ok(JournalScan(newest, end, None))
    else if Checksummed(w, b[end..]) || LaterValid(w, hash, b, end) then Err(())
    else Ok(JournalScan(newest, end, Some(end)))
  }

  /** A valid frame moves the verdict one frame on. */
  lemma VerdictStep(w: World, hash: Hash, b: seq<byte>, start: nat, last: Option<Record>, records: nat)
    requires start <= |b| && ValidFrameAt(w, hash, b[start..])
    ensures start + FrameLen(b[start..]) <= |b|
    ensures Verdict(w, hash, b, start, last, records)
         == Verdict(w, hash, b, start + FrameLen(b[start..]), Some(RecordAt(w, b[start..])), records + 1)
  {
    ValidIsStep(w, hash, b, start);
    var tail := Records(w, hash, b, start + FrameLen(b[start..]));
    var rs := [RecordAt(w, b[start..])] + tail;
    assert rs[|rs| - 1] == if tail == [] then RecordAt(w, b[start..]) else tail[|tail| - 1];
  }

  lemma RunStopsAt(w: World, hash: Hash, b: seq<byte>, start: nat)
    requires start <= |b| && !ValidFrameAt(w, hash, b[start..])
    ensures Records(w, hash, b, start) == [] && RunEnd(w, hash, b, start) == start
  {
  }

  lemma {:induction false} ScanFromVerdict(w: World, hash: Hash, b: seq<byte>, start: nat, last: Option<Record>, records: nat)
    requires start <= |b| && records <= MAX_RECORDS
    ensures var s := ScanFrom(w, hash, b, start, last, records);
            var v := Verdict(w, hash, b, start, last, records);
            (s.Ok? <==> v.Ok?) && (s.Ok? ==> s.value == v.value)
    decreases |b| - start
  {
    hide Checksummed, RecordAt, Body, Binds, LaterValid;
    var rest := b[start..];
    if !ValidFrameAt(w, hash, rest) {
      RunStopsAt(w, hash, b, start);
    } else if records + 1 > MAX_RECORDS {
      ValidIsStep(w, hash, b, start);
    } else {
      VerdictStep(w, hash, b, start, last, records);
      ScanFromVerdict(w, hash, b, start + FrameLen(rest), Some(RecordAt(w, rest)), records + 1);
    }
  }

  /** Scan, exactly: it answers when the journal is within both limits and what follows the longest
      valid run is either nothing or damage with no complete frame behind it (and is not itself a
      checksummed frame of something else); the answer is the newest record of that run. */
  lemma ScanExact(w: World, hash: Hash, b: seq<byte>)
    ensures var s := ScanFile(w, hash, Some(b));
            var rs := Records(w, hash, b, 0);
            var end := RunEnd(w, hash, b, 0);
            && (s.Ok? <==> |b| <= MAX_JOURNAL_BYTES && |rs| <= MAX_RECORDS
                           && (end == |b| || (!Checksummed(w, b[end..]) && !LaterValid(w, hash, b, end))))
            && (s.Ok? ==> s.value == JournalScan(LastOf(rs), end, if end == |b| then None else Some(end)))
  {
    if |b| <= MAX_JOURNAL_BYTES { ScanFromVerdict(w, hash, b, 0, None, 0); }
  }

  /** Truncation is safe: no frame the scanner would accept begins at or after the cut. */
  lemma NothingValidIsTruncated(w: World, hash: Hash, b: seq<byte>, o: nat)
    requires ScanFile(w, hash, Some(b)).Ok? && ScanFile(w, hash, Some(b)).value.truncateTo.Some?
    requires ScanFile(w, hash, Some(b)).value.truncateTo.value <= o <= |b|
    ensures !ValidFrameAt(w, hash, b[o..])
  {
    ScanExact(w, hash, b);
  }

  /** A damaged frame with an intact frame of this session anywhere behind it is an error, never a
      truncation and never skipped. */
  lemma DamageBeforeIntactIsError(w: World, hash: Hash, b: seq<byte>, damaged: nat, intact: nat)
    requires RunEnd(w, hash, b, 0) == damaged < intact <= |b|
    requires ValidFrameAt(w, hash, b[intact..])
    ensures ScanFile(w, hash, Some(b)).Err?
  {
    ScanExact(w, hash, b);
  }

  // ---- the lockless reader ----

  /** `latest_checksummed_source`: the run of frames whose checksum, body and payload all check, bound
      to no session. */
  ghost predicate LocklessAt(w: World, b: seq<byte>) {
    Checksummed(w, b) && w.decode(Body(b)).Some? && w.decode(Body(b)).value.source.pid != 0
    && w.parses(w.decode(Body(b)).value.payload)
  }

  ghost function LatestFrom(w: World, b: seq<byte>, start: nat, last: Option<Record>, records: nat): Result<Option<Record>, ()>
    requires start <= |b|
    decreases |b| - start
  {
    if start == |b| then Ok(last)
    else if !LocklessAt(w, b[start..]) || records + 1 > MAX_RECORDS then Err(())
    else LatestFrom(w, b, start + FrameLen(b[start..]), Some(RecordAt(w, b[start..])), records + 1)
  }

  /** The reader's checks on one frame; nothing when any of them fails. */
  method CheckFrame(w: World, b: seq<byte>, offset: nat) returns (r: Option<(HandoffState, Lease, nat)>)
    requires offset < |b|
    ensures r.Some? <==> LocklessAt(w, b[offset..])
    ensures r.Some? ==> var rec := RecordAt(w, b[offset..]); r.value == (rec.state, rec.source, FrameLen(b[offset..])) && r.value.2 > 0
  {
    ghost var rest := b[offset..];
    if |b| - offset < HEADER_BYTES { return None; }
    var header := b[offset..offset + HEADER_BYTES];
    assert header == rest[..HEADER_BYTES] && header[..4] == rest[..4] && header[5..9] == rest[5..9];
    if header[..4] != MAGIC || header[4] != VERSION { return None; }
    var length := LeNat(header[5..9]);
    if length > MAX_PAYLOAD_BYTES { return None; }
    var frameLen := HEADER_BYTES + length + CHECKSUM_BYTES;
    if |b| - offset < frameLen { return None; }
    var frame := b[offset..offset + frameLen];
    assert frame == rest[..frameLen];
    assert frame[..HEADER_BYTES + length] == rest[..HEADER_BYTES + length];
    assert frame[HEADER_BYTES..HEADER_BYTES + length] == Body(rest);
    assert frame[HEADER_BYTES + length..] == rest[HEADER_BYTES + length..frameLen];
    var state := StateOf(header[17]);
    if state.None? { return None; }
    if w.sha(frame[..HEADER_BYTES + length]) != frame[HEADER_BYTES + length..] { return None; }
    var stored := w.decode(frame[HEADER_BYTES..HEADER_BYTES + length]);
    if stored.None? || stored.value.source.pid == 0 || !w.parses(stored.value.payload) { return None; }
    r := Some((state.value, stored.value.source, frameLen));
  }

  lemma LatestEnd(w: World, b: seq<byte>, last: Option<Record>, records: nat)
    ensures LatestFrom(w, b, |b|, last, records) == Ok(last)
  {
  }

  /** One more frame, or the end of it. */
  lemma LatestStep(w: World, b: seq<byte>, start: nat, last: Option<Record>, records: nat) returns (next: Option<Record>)
    requires start < |b|
    ensures !LocklessAt(w, b[start..]) || records + 1 > MAX_RECORDS ==> LatestFrom(w, b, start, last, records).Err?
    ensures LocklessAt(w, b[start..]) ==> next.Some? && next == Some(RecordAt(w, b[start..]))
    ensures LocklessAt(w, b[start..]) && records + 1 <= MAX_RECORDS ==>
              && start + FrameLen(b[start..]) <= |b|
              && LatestFrom(w, b, start, last, records) == LatestFrom(w, b, start + FrameLen(b[start..]), next, records + 1)
  {
    next := None;
    if LocklessAt(w, b[start..]) { next := Some(RecordAt(w, b[start..])); }
  }

  method LatestChecksummedSource(w: World, b: seq<byte>) returns (r: Result<Option<(HandoffState, Lease)>, ()>)
    ensures r.Ok? <==> |b| <= MAX_JOURNAL_BYTES && LatestFrom(w, b, 0, None, 0).Ok?
    ensures r.Ok? ==> r.value == StateAndSource(LatestFrom(w, b, 0, None, 0).value)
  {
    hide LatestFrom, LocklessAt, RecordAt, FrameLen, BodyLen, Checksummed, Framed;
    if |b| > MAX_JOURNAL_BYTES { return Err(()); }
    var offset, records := 0, 0;
    var last: Option<(HandoffState, Lease)> := None;
    ghost var newest: Option<Record> := None;
    while offset < |b|
      invariant offset <= |b| && last == StateAndSource(newest)
      invariant LatestFrom(w, b, 0, None, 0) == LatestFrom(w, b, offset, newest, records)
    {
      ghost var next := LatestStep(w, b, offset, newest, records);
      var frame := CheckFrame(w, b, offset);
      if frame.None? { return Err(()); }
      records := records + 1;
      if records > MAX_RECORDS { return Err(()); }
      newest := next;
      last := Some((frame.value.0, frame.value.1));
      offset := offset + frame.value.2;
    }
    LatestEnd(w, b, newest, records);
    r := Ok(last);
  }

  function StateAndSource(r: Option<Record>): Option<(HandoffState, Lease)> {
    match r
    case None => None
    case Some(rec) => Some((rec.state, rec.source))
  }

  /** Every frame the lockless reader walks over belongs to the session `hash`. */
  ghost predicate AllBound(w: World, hash: Hash, b: seq<byte>, start: nat)
    requires start <= |b|
    decreases |b| - start
  {
    Checksummed(w, b[start..]) && w.decode(Body(b[start..])).Some? ==>
      w.decode(Body(b[start..])).value.sessionHash == hash && AllBound(w, hash, b, start + FrameLen(b[start..]))
  }

  /** Every record of the valid run carries a payload the lockless reader's stricter parse accepts. */
  ghost predicate AllPayloadsParse(w: World, rs: seq<Record>) {
    forall i :: 0 <= i < |rs| ==> w.parses(rs[i].payload)
  }

  lemma PayloadsOfCons(w: World, rec: Record, tail: seq<Record>)
    ensures AllPayloadsParse(w, [rec] + tail) <==> w.parses(rec.payload) && AllPayloadsParse(w, tail)
  {
    assert ([rec] + tail)[0] == rec;
    if AllPayloadsParse(w, [rec] + tail) {
      forall i | 0 <= i < |tail| ensures w.parses(tail[i].payload) { assert ([rec] + tail)[i + 1] == tail[i]; }
    }
  }

  lemma {:induction false} ReadersAgreeFrom(w: World, hash: Hash, b: seq<byte>, start: nat, last: Option<Record>, records: nat)
    requires start <= |b| && records <= MAX_RECORDS
    ensures var lockless := LatestFrom(w, b, start, last, records);
            var s := ScanFrom(w, hash, b, start, last, records);
            && (lockless.Ok? && AllBound(w, hash, b, start)
                <==> s.Ok? && s.value.truncateTo.None? && AllPayloadsParse(w, Records(w, hash, b, start)))
            && (lockless.Ok? && s.Ok? ==> s.value == JournalScan(lockless.value, |b|, None))
    decreases |b| - start
  {
    var rest := b[start..];
    if start < |b| && Checksummed(w, rest) && w.decode(Body(rest)).Some? {
      var next := start + FrameLen(rest);
      var rec := RecordAt(w, rest);
      if records + 1 <= MAX_RECORDS {
        ReadersAgreeFrom(w, hash, b, next, Some(rec), records + 1);
      }
      if ValidFrameAt(w, hash, rest) {
        var tail := Records(w, hash, b, next);
        assert Records(w, hash, b, start) == [rec] + tail;
        PayloadsOfCons(w, rec, tail);
      }
    }
  }

  /** The two readers agree: whenever the lockless reader answers and the frames are this session's,
      the scanner gives the same newest state and source with nothing to truncate; and those are
      exactly the journals whose clean scan has only parseable payloads. */
  lemma ReadersAgree(w: World, hash: Hash, b: seq<byte>)
    requires |b| <= MAX_JOURNAL_BYTES
    ensures var lockless := LatestFrom(w, b, 0, None, 0);
            var s := ScanFile(w, hash, Some(b));
            && (lockless.Ok? && AllBound(w, hash, b, 0)
                <==> s.Ok? && s.value.truncateTo.None? && AllPayloadsParse(w, Records(w, hash, b, 0)))
            && (lockless.Ok? && s.Ok? ==> s.value.truncateTo.None? && s.value.validEnd == |b|
                                          && StateAndSource(s.value.last) == StateAndSource(lockless.value))
  {
    ReadersAgreeFrom(w, hash, b, 0, None, 0);
  }
}
