/** What stands between a journal's bytes and an answer: both readers, on the bytes as they lie in the file. */
module Integrity {
  import opened Bytes
  import opened StoredPayload
  import opened Frame
  import opened Scan
  import opened CrashSafety

  /** The number a state is written as. */
  function StateByte(s: HandoffState): int {
    match s
    case Prepare => 1
    case Commit => 2
    case OwnedAbandon => 3
    case Claim => 4
    case Abort => 5
  }

  /** At byte `o` lies a whole frame with a body of `n` bytes: "HRHJ", version 1, the length, the epoch, a
      known state, the body, and the digest of all that. */
  ghost predicate Sealed(w: World, b: seq<byte>, o: nat, n: nat) {
    && o + 18 + n + 32 <= |b| && n <= 65536
    && b[o] == 0x48 && b[o + 1] == 0x52 && b[o + 2] == 0x48 && b[o + 3] == 0x4A && b[o + 4] == 1
    && LeNat(b[o + 5..o + 9]) == n && 1 <= b[o + 17] <= 5
    && w.sha(b[o..o + 18 + n]) == b[o + 18 + n..o + 18 + n + 32]
  }

  /** And its body parses, so that it carries `r`. */
  ghost predicate Lies(w: World, b: seq<byte>, o: nat, n: nat, stored: Stored, r: Record) {
    && Sealed(w, b, o, n) && w.decode(b[o + 18..o + 18 + n]) == Some(stored)
    && LeNat(b[o + 9..o + 17]) == r.epoch && b[o + 17] as int == StateByte(r.state)
    && r.source == stored.source && r.payload == stored.payload
  }

  /** What a reader asks of a frame besides: the scan, that it is of its session; the lockless reader, that
      its payload parses. */
  ghost predicate Suits(w: World, session: Option<Hash>, stored: Stored) {
    stored.source.pid != 0 && match session case Some(hash) => stored.sessionHash == hash case None => w.parses(stored.payload)
  }

  ghost predicate LiesFor(w: World, session: Option<Hash>, b: seq<byte>, o: nat, n: nat, r: Record) {
    exists stored :: Lies(w, b, o, n, stored, r) && Suits(w, session, stored)
  }

  /** From byte `o` to byte `end` lie the frames of `rs`, one behind the other. */
  ghost predicate LiesRun(w: World, session: Option<Hash>, b: seq<byte>, o: nat, rs: seq<Record>, end: nat)
    decreases |rs|
  {
    if rs == [] then o == end
    else exists n: nat :: LiesFor(w, session, b, o, n, rs[0]) && LiesRun(w, session, b, o + 18 + n + 32, rs[1..], end)
  }

  // ---- the decoder sees just those ----

  lemma HeadOf(b: seq<byte>, o: nat)
    requires o + 18 <= |b|
    ensures var c := b[o..];
            && |c| == |b| - o && c[4] == b[o + 4] && c[17] == b[o + 17]
            && (c[..4] == MAGIC <==> b[o] == 0x48 && b[o + 1] == 0x52 && b[o + 2] == 0x48 && b[o + 3] == 0x4A)
            && c[5..9] == b[o + 5..o + 9] && c[9..17] == b[o + 9..o + 17]
  {
    var c := b[o..];
    assert forall i :: 0 <= i < 4 ==> c[..4][i] == b[o + i];
    if b[o] == 0x48 && b[o + 1] == 0x52 && b[o + 2] == 0x48 && b[o + 3] == 0x4A { assert c[..4] == MAGIC; }
  }

  lemma PartsOf(b: seq<byte>, o: nat, n: nat)
    requires o + 18 + n + 32 <= |b|
    ensures var c := b[o..];
            && c[..18 + n] == b[o..o + 18 + n] && c[18..18 + n] == b[o + 18..o + 18 + n]
            && c[18 + n..18 + n + 32] == b[o + 18 + n..o + 18 + n + 32]
  {
  }

  lemma StateOfByte(x: byte)
    ensures StateOf(x).Some? <==> 1 <= x <= 5
    ensures forall s :: StateOf(x) == Some(s) <==> x as int == StateByte(s)
  {
  }

  lemma ChecksummedSealed(w: World, b: seq<byte>, o: nat)
    requires o <= |b| && Checksummed(w, b[o..])
    ensures var n := BodyLen(b[o..]);
            && Sealed(w, b, o, n) && FrameLen(b[o..]) == 18 + n + 32 && Body(b[o..]) == b[o + 18..o + 18 + n]
            && EpochOf(b[o..]) == LeNat(b[o + 9..o + 17]) && StateOf(b[o..][17]) == StateOf(b[o + 17])
  {
    HeadOf(b, o);
    PartsOf(b, o, BodyLen(b[o..]));
    StateOfByte(b[o + 17]);
  }

  lemma SealedChecksummed(w: World, b: seq<byte>, o: nat, n: nat)
    requires Sealed(w, b, o, n)
    ensures Checksummed(w, b[o..]) && BodyLen(b[o..]) == n
  {
    HeadOf(b, o);
    PartsOf(b, o, n);
    StateOfByte(b[o + 17]);
  }

  /** The tests of a reader, in the decoder's terms. */
  ghost predicate Accepts(w: World, session: Option<Hash>, c: seq<byte>) {
    match session case Some(hash) => ValidFrameAt(w, hash, c) case None => LocklessAt(w, c)
  }

  lemma AcceptsLies(w: World, session: Option<Hash>, b: seq<byte>, o: nat)
    requires o <= |b| && Accepts(w, session, b[o..])
    ensures Checksummed(w, b[o..]) && w.decode(Body(b[o..])).Some?
    ensures LiesFor(w, session, b, o, BodyLen(b[o..]), RecordAt(w, b[o..]))
    ensures FrameLen(b[o..]) == 18 + BodyLen(b[o..]) + 32 && o + FrameLen(b[o..]) <= |b|
  {
    ChecksummedSealed(w, b, o);
    StateOfByte(b[o + 17]);
    assert Lies(w, b, o, BodyLen(b[o..]), w.decode(Body(b[o..])).value, RecordAt(w, b[o..]));
  }

  lemma LiesAccepts(w: World, session: Option<Hash>, b: seq<byte>, o: nat, n: nat, r: Record)
    requires LiesFor(w, session, b, o, n, r)
    ensures o + 18 + n + 32 <= |b| && Accepts(w, session, b[o..])
    ensures w.decode(Body(b[o..])).Some? && RecordAt(w, b[o..]) == r && FrameLen(b[o..]) == 18 + n + 32
  {
    var stored :| Lies(w, b, o, n, stored, r) && Suits(w, session, stored);
    SealedChecksummed(w, b, o, n);
    ChecksummedSealed(w, b, o);
    StateOfByte(b[o + 17]);
  }

  /** No whole frame of the session starts there. */
  ghost predicate NoneLies(w: World, hash: Hash, b: seq<byte>, o: nat) {
    forall n: nat, r: Record :: !LiesFor(w, Some(hash), b, o, n, r)
  }

  lemma NoneLiesExactly(w: World, hash: Hash, b: seq<byte>, o: nat)
    requires o <= |b|
    ensures NoneLies(w, hash, b, o) <==> !ValidFrameAt(w, hash, b[o..])
  {
    hide ValidFrameAt, LiesFor, RecordAt, BodyLen, FrameLen, Body, Checksummed;
    if ValidFrameAt(w, hash, b[o..]) { AcceptsLies(w, Some(hash), b, o); }
    forall n: nat, r: Record | LiesFor(w, Some(hash), b, o, n, r)
      ensures ValidFrameAt(w, hash, b[o..])
    {
      LiesAccepts(w, Some(hash), b, o, n, r);
    }
  }

  // ---- the scan, on the bytes ----

  lemma OneMoreLies(w: World, session: Option<Hash>, b: seq<byte>, o: nat, n: nat, r: Record, rs: seq<Record>, end: nat)
    requires LiesFor(w, session, b, o, n, r) && LiesRun(w, session, b, o + 18 + n + 32, rs, end)
    ensures LiesRun(w, session, b, o, [r] + rs, end)
  {
    hide LiesFor;
    var all := [r] + rs;
    assert all[1..] == rs;
    assert LiesFor(w, session, b, o, n, all[0]) && LiesRun(w, session, b, o + 18 + n + 32, all[1..], end);
  }

  lemma {:induction false} RunLies(w: World, hash: Hash, b: seq<byte>, o: nat)
    requires o <= |b|
    ensures LiesRun(w, Some(hash), b, o, Records(w, hash, b, o), RunEnd(w, hash, b, o))
    decreases |b| - o
  {
    hide LiesFor, RecordAt, BodyLen, FrameLen, Body, Checksummed, ValidFrameAt;
    if ValidFrameAt(w, hash, b[o..]) {
      AcceptsLies(w, Some(hash), b, o);
      ValidIsStep(w, hash, b, o);
      var next := o + FrameLen(b[o..]);
      RunLies(w, hash, b, next);
      OneMoreLies(w, Some(hash), b, o, BodyLen(b[o..]), RecordAt(w, b[o..]), Records(w, hash, b, next), RunEnd(w, hash, b, next));
    } else {
      RunStopsAt(w, hash, b, o);
    }
  }

  lemma {:induction false} LiesRunIs(w: World, hash: Hash, b: seq<byte>, o: nat, rs: seq<Record>, end: nat)
    requires o <= |b| && end <= |b| && LiesRun(w, Some(hash), b, o, rs, end) && NoneLies(w, hash, b, end)
    ensures Records(w, hash, b, o) == rs && RunEnd(w, hash, b, o) == end
    decreases |rs|
  {
    hide LiesFor, RecordAt, BodyLen, FrameLen, Body, Checksummed, ValidFrameAt, NoneLies;
    if rs == [] {
      NoneLiesExactly(w, hash, b, o);
      RunStopsAt(w, hash, b, o);
    } else {
      var n: nat :| LiesFor(w, Some(hash), b, o, n, rs[0]) && LiesRun(w, Some(hash), b, o + 18 + n + 32, rs[1..], end);
      LiesAccepts(w, Some(hash), b, o, n, rs[0]);
      ValidIsStep(w, hash, b, o);
      LiesRunIs(w, hash, b, o + 18 + n + 32, rs[1..], end);
    }
  }

  /** What follows the frames a scan answers from: nothing, or bytes in which no frame of the session starts
      and which are not themselves a sealed frame of anything else. */
  ghost predicate Trails(w: World, hash: Hash, b: seq<byte>, end: nat) {
    end <= |b| && (end == |b| || ((forall n: nat :: !Sealed(w, b, end, n)) && forall o: nat :: end <= o <= |b| ==> NoneLies(w, hash, b, o)))
  }

  lemma SealedExactly(w: World, b: seq<byte>, o: nat)
    requires o <= |b|
    ensures Checksummed(w, b[o..]) <==> exists n: nat :: Sealed(w, b, o, n)
  {
    hide Sealed, Checksummed, FrameLen, BodyLen, Body, EpochOf, StateOf;
    if Checksummed(w, b[o..]) { ChecksummedSealed(w, b, o); }
    if n: nat :| Sealed(w, b, o, n) { SealedChecksummed(w, b, o, n); }
  }

  lemma TrailsExactly(w: World, hash: Hash, b: seq<byte>, end: nat)
    requires end <= |b|
    ensures end < |b| ==>
              (Trails(w, hash, b, end) <==> !Checksummed(w, b[end..]) && !LaterValid(w, hash, b, end) && !ValidFrameAt(w, hash, b[end..]))
  {
    hide Sealed, NoneLies, Checksummed, ValidFrameAt;
    SealedExactly(w, b, end);
    forall o: nat | end <= o <= |b|
      ensures NoneLies(w, hash, b, o) <==> !ValidFrameAt(w, hash, b[o..])
    {
      NoneLiesExactly(w, hash, b, o);
    }
  }

  lemma EndTrails(w: World, hash: Hash, b: seq<byte>)
    ensures Trails(w, hash, b, |b|) && NoneLies(w, hash, b, |b|)
  {
  }

  lemma TrailsHasNone(w: World, hash: Hash, b: seq<byte>, end: nat)
    requires Trails(w, hash, b, end)
    ensures end <= |b| && NoneLies(w, hash, b, end)
  {
    if end == |b| { EndTrails(w, hash, b); }
  }

  /** A scan answers, exactly: a file within both limits whose bytes are a run of frames of the session, each
      under its own digest, and then a harmless end. The answer is the last of them and where they end. */
  lemma ScanReadsExactly(w: World, hash: Hash, b: seq<byte>, s: JournalScan)
    ensures ScanFile(w, hash, Some(b)) == Ok(s)
            <==> (|b| <= 4194304 && Trails(w, hash, b, s.validEnd)
                  && s.truncateTo == (if s.validEnd == |b| then None else Some(s.validEnd))
                  && exists rs :: LiesRun(w, Some(hash), b, 0, rs, s.validEnd) && |rs| <= 1024 && s.last == LastOf(rs))
  {
    hide Trails, LiesRun, NoneLies, Records, RunEnd, Checksummed, LaterValid, ScanFile, ValidFrameAt;
    ScanExact(w, hash, b);
    var rs, end := Records(w, hash, b, 0), RunEnd(w, hash, b, 0);
    RunLies(w, hash, b, 0);
    TrailsExactly(w, hash, b, end);
    EndTrails(w, hash, b);
    if Trails(w, hash, b, s.validEnd) && exists other :: LiesRun(w, Some(hash), b, 0, other, s.validEnd) && s.last == LastOf(other) && |other| <= 1024 {
      var other :| LiesRun(w, Some(hash), b, 0, other, s.validEnd) && s.last == LastOf(other) && |other| <= 1024;
      TrailsHasNone(w, hash, b, s.validEnd);
      LiesRunIs(w, hash, b, 0, other, s.validEnd);
    }
  }

  // ---- the lockless reader, on the bytes ----

  lemma {:induction false} LatestReads(w: World, b: seq<byte>, o: nat, last: Option<Record>, records: nat) returns (rs: seq<Record>)
    requires o <= |b| && LatestFrom(w, b, o, last, records).Ok? && records <= MAX_RECORDS
    ensures LiesRun(w, None, b, o, rs, |b|) && records + |rs| <= MAX_RECORDS
    ensures LatestFrom(w, b, o, last, records).value == if rs == [] then last else LastOf(rs)
    decreases |b| - o
  {
    hide LiesFor, RecordAt, BodyLen, FrameLen, Body, Checksummed, LocklessAt;
    if o == |b| {
      rs := [];
    } else {
      AcceptsLies(w, None, b, o);
      var next := LatestStep(w, b, o, last, records);
      var rest := LatestReads(w, b, o + FrameLen(b[o..]), next, records + 1);
      rs := [RecordAt(w, b[o..])] + rest;
      OneMoreLies(w, None, b, o, BodyLen(b[o..]), RecordAt(w, b[o..]), rest, |b|);
    }
  }

  lemma {:induction false} LatestOfRun(w: World, b: seq<byte>, o: nat, last: Option<Record>, records: nat, rs: seq<Record>)
    requires o <= |b| && LiesRun(w, None, b, o, rs, |b|) && records + |rs| <= MAX_RECORDS
    ensures LatestFrom(w, b, o, last, records) == Ok(if rs == [] then last else LastOf(rs))
    decreases |rs|
  {
    hide LiesFor, RecordAt, BodyLen, FrameLen, Body, Checksummed, LocklessAt;
    if rs == [] {
      LatestEnd(w, b, last, records);
    } else {
      var n: nat :| LiesFor(w, None, b, o, n, rs[0]) && LiesRun(w, None, b, o + 18 + n + 32, rs[1..], |b|);
      LiesAccepts(w, None, b, o, n, rs[0]);
      var next := LatestStep(w, b, o, last, records);
      LatestOfRun(w, b, o + 18 + n + 32, next, records + 1, rs[1..]);
    }
  }

  /** The lockless reader answers, exactly: the whole file is a run of frames under their own digests, with
      payloads it can parse, and not too many. */
  lemma LatestReadsExactly(w: World, b: seq<byte>, last: Option<Record>)
    ensures LatestFrom(w, b, 0, None, 0) == Ok(last)
            <==> exists rs :: LiesRun(w, None, b, 0, rs, |b|) && |rs| <= 1024 && last == LastOf(rs)
  {
    hide LiesRun, LatestFrom;
    if LatestFrom(w, b, 0, None, 0).Ok? { var rs := LatestReads(w, b, 0, None, 0); }
    if rs :| LiesRun(w, None, b, 0, rs, |b|) && |rs| <= 1024 && last == LastOf(rs) { LatestOfRun(w, b, 0, None, 0, rs); }
  }

  // ---- damage ----

  lemma WrongDigest(w: World, hash: Hash, r: Record, p: seq<byte>, c: seq<byte>, rest: seq<byte>)
    requires Frameable(hash, r) && |p| + 32 == |FrameOf(w, hash, r)| && |c| == 32
    requires p[..9] == FrameOf(w, hash, r)[..9] && w.sha(p) != c
    ensures !Checksummed(w, p + c + rest)
  {
    var f, t := FrameOf(w, hash, r), p + c + rest;
    FrameBodyLen(w, hash, r);
    hide FrameOf;
    assert t[5..9] == p[..9][5..9] == f[..9][5..9] == f[5..9];
    assert BodyLen(t) == BodyLen(f) && 18 + BodyLen(t) == |p|;
    assert t[..|p|] == p && t[|p|..|p| + 32] == c;
  }

  lemma {:induction false} LatestStopsAt(w: World, hash: Hash, b: seq<byte>, o: nat, log: seq<Record>, t: seq<byte>, last: Option<Record>,
                                         records: nat)
    requires Sound(w) && AllFrameable(hash, log) && t != [] && !Checksummed(w, t)
    requires o <= |b| && b[o..] == JournalOf(w, hash, log) + t
    ensures LatestFrom(w, b, o, last, records).Err?
    decreases |log|
  {
    hide FrameOf, ValidFrameAt, RecordAt, FrameLen, Checksummed, Frameable;
    if log == [] {
      assert b[o..] == t by { assert [] + t == t; }
    } else if LatestFrom(w, b, o, last, records).Ok? {
      var f, more := FrameOf(w, hash, log[0]), JournalOf(w, hash, log[1..]) + t;
      JournalCons(w, hash, log, t);
      assert b[o..] == f + more;
      FrameRoundTrip(w, hash, log[0], more);
      DropPrefix(b, o, f, more);
      var next := LatestStep(w, b, o, last, records);
      LatestStopsAt(w, hash, b, o + |f|, log[1..], t, next, records + 1);
    }
  }

  /** A frame is never answered from once its digest is not that of its header and body, by either reader. The
      scan cuts there if nothing of the session follows whole, with the record before it as its answer, and
      errs otherwise. */
  lemma DamagedIsNeverAnswered(w: World, hash: Hash, log: seq<Record>, r: Record, p: seq<byte>, c: seq<byte>, rest: seq<byte>)
    requires Sound(w) && AllFrameable(hash, log) && Frameable(hash, r)
    requires |p| + 32 == |FrameOf(w, hash, r)| && |c| == 32 && p[..9] == FrameOf(w, hash, r)[..9] && w.sha(p) != c
    ensures var at, b := |JournalOf(w, hash, log)|, JournalOf(w, hash, log) + (p + c + rest);
            && (ScanFile(w, hash, Some(b)).Ok?
                <==> |b| <= 4194304 && |log| <= 1024 && forall o: nat :: at < o <= |b| ==> NoneLies(w, hash, b, o))
            && (ScanFile(w, hash, Some(b)).Ok? ==> ScanFile(w, hash, Some(b)).value == JournalScan(LastOf(log), at, Some(at)))
            && LatestFrom(w, b, 0, None, 0).Err?
  {
    var j, t := JournalOf(w, hash, log), p + c + rest;
    var b := j + t;
    WrongDigest(w, hash, r, p, c, rest);
    NotChecksummedNotValid(w, hash, t);
    hide *;
    assert b[0..] == j + t && b[|j|..] == t;
    LogIsRun(w, hash, b, 0, log, t);
    ScanExact(w, hash, b);
    LaterLies(w, hash, b, |j|);
    LatestStopsAt(w, hash, b, 0, log, t, None, 0);
  }

  lemma NotChecksummedNotValid(w: World, hash: Hash, t: seq<byte>)
    requires !Checksummed(w, t)
    ensures !ValidFrameAt(w, hash, t)
  {
  }

  lemma LaterLies(w: World, hash: Hash, b: seq<byte>, at: nat)
    ensures !LaterValid(w, hash, b, at) <==> forall o: nat :: at < o <= |b| ==> NoneLies(w, hash, b, o)
  {
    hide NoneLies, ValidFrameAt;
    forall o: nat | at < o <= |b|
      ensures NoneLies(w, hash, b, o) <==> !ValidFrameAt(w, hash, b[o..])
    {
      NoneLiesExactly(w, hash, b, o);
    }
  }

  lemma FrameSeal(w: World, hash: Hash, r: Record)
    requires Frameable(hash, r)
    ensures var f := FrameOf(w, hash, r); |f| >= 50 && w.sha(f[..|f| - 32]) == f[|f| - 32..]
  {
    FrameLayout(w, hash, r);
    hide FrameOf;
  }

  /** In particular after any byte of its epoch, state, body or checksum has changed, where the digest notices:
      a Prepare whose state byte now says Commit is no Commit. */
  lemma FlippedByteIsNeverAnswered(w: World, hash: Hash, log: seq<Record>, r: Record, k: nat, x: byte, rest: seq<byte>)
    requires Sound(w) && AllFrameable(hash, log) && Frameable(hash, r)
    requires 9 <= k < |FrameOf(w, hash, r)| && x != FrameOf(w, hash, r)[k]
    requires var n := |FrameOf(w, hash, r)| - 32;
             k < n ==> w.sha(FrameOf(w, hash, r)[..n][k := x]) != w.sha(FrameOf(w, hash, r)[..n])
    ensures var at, b := |JournalOf(w, hash, log)|, JournalOf(w, hash, log) + (FrameOf(w, hash, r)[k := x] + rest);
            && (ScanFile(w, hash, Some(b)).Ok?
                <==> |b| <= 4194304 && |log| <= 1024 && forall o: nat :: at < o <= |b| ==> NoneLies(w, hash, b, o))
            && (ScanFile(w, hash, Some(b)).Ok? ==> ScanFile(w, hash, Some(b)).value == JournalScan(LastOf(log), at, Some(at)))
            && LatestFrom(w, b, 0, None, 0).Err?
  {
    hide *;
    FrameSeal(w, hash, r);
    var f := FrameOf(w, hash, r);
    var n := |f| - 32;
    var p, c := f[k := x][..n], f[k := x][n..];
    assert f[k := x] + rest == p + c + rest;
    assert p[..9] == f[..9];
    if k < n { assert p == f[..n][k := x] && c == f[n..]; } else { assert p == f[..n] && c[k - n] != f[n..][k - n]; }
    DamagedIsNeverAnswered(w, hash, log, r, p, c, rest);
  }
}
