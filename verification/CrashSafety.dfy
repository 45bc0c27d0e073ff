/** Journals as sequences of records: what a crash can leave behind, and what a scan makes of it. */
module CrashSafety {
  import opened Bytes
  import opened StoredPayload
  import opened Frame
  import opened Scan

  ghost predicate AllFrameable(hash: Hash, log: seq<Record>) {
    forall i :: 0 <= i < |log| ==> Frameable(hash, log[i])
  }

  /** The bytes of a journal holding exactly the frames of `log`. */
  ghost function JournalOf(w: World, hash: Hash, log: seq<Record>): seq<byte>
    requires AllFrameable(hash, log)
  {
    if log == [] then [] else FrameOf(w, hash, log[0]) + JournalOf(w, hash, log[1..])
  }

  /** What an interrupted append leaves at the end: nothing, or a proper prefix of some frame. */
  ghost predicate TornTail(w: World, hash: Hash, t: seq<byte>) {
    t == [] || exists r: Record, k: nat :: Frameable(hash, r) && 0 < k < |FrameOf(w, hash, r)| && t == FrameOf(w, hash, r)[..k]
  }

  lemma {:induction false} JournalSnoc(w: World, hash: Hash, log: seq<Record>, r: Record)
    requires AllFrameable(hash, log) && Frameable(hash, r)
    ensures AllFrameable(hash, log + [r])
    ensures JournalOf(w, hash, log + [r]) == JournalOf(w, hash, log) + FrameOf(w, hash, r)
  {
    var more := log + [r];
    assert AllFrameable(hash, more);
    if log == [] {
      assert more[1..] == [] && more[0] == r;
    } else {
      assert more[0] == log[0] && more[1..] == log[1..] + [r];
      JournalSnoc(w, hash, log[1..], r);
      assert FrameOf(w, hash, log[0]) + (JournalOf(w, hash, log[1..]) + FrameOf(w, hash, r))
          == (FrameOf(w, hash, log[0]) + JournalOf(w, hash, log[1..])) + FrameOf(w, hash, r);
    }
  }

  /** One step of the run: a written frame at `start`, whatever follows it. */
  lemma FrameIsStep(w: World, hash: Hash, b: seq<byte>, start: nat, r: Record, rest: seq<byte>)
    requires Sound(w) && Frameable(hash, r)
    requires start <= |b| && b[start..] == FrameOf(w, hash, r) + rest
    ensures var next := start + |FrameOf(w, hash, r)|;
            && next <= |b| && b[next..] == rest
            && Records(w, hash, b, start) == [r] + Records(w, hash, b, next)
            && RunEnd(w, hash, b, start) == RunEnd(w, hash, b, next)
  {
    hide FrameOf, ValidFrameAt, RecordAt, FrameLen;
    FrameRoundTrip(w, hash, r, rest);
    ValidIsStep(w, hash, b, start);
    DropPrefix(b, start, FrameOf(w, hash, r), rest);
  }

  lemma DropPrefix<T>(b: seq<T>, start: nat, f: seq<T>, rest: seq<T>)
    requires start <= |b| && b[start..] == f + rest
    ensures start + |f| <= |b| && b[start + |f|..] == rest
  {
    assert b[start + |f|..] == b[start..][|f|..];
  }

  lemma ConcatAssoc<T>(a: seq<T>, b: seq<T>, c: seq<T>)
    ensures (a + b) + c == a + (b + c)
  {
  }

  lemma JournalCons(w: World, hash: Hash, log: seq<Record>, t: seq<byte>)
    requires AllFrameable(hash, log) && log != []
    ensures JournalOf(w, hash, log) + t == FrameOf(w, hash, log[0]) + (JournalOf(w, hash, log[1..]) + t)
    ensures |JournalOf(w, hash, log)| == |FrameOf(w, hash, log[0])| + |JournalOf(w, hash, log[1..])|
  {
    hide FrameOf;
    var f, rest := FrameOf(w, hash, log[0]), JournalOf(w, hash, log[1..]);
    assert JournalOf(w, hash, log) == f + rest;
    hide *;
    ConcatAssoc(f, rest, t);
  }

  /** A written log is read back frame by frame, wherever it starts and whatever follows it. */
  lemma {:induction false} LogIsRun(w: World, hash: Hash, b: seq<byte>, start: nat, log: seq<Record>, t: seq<byte>)
    requires Sound(w) && AllFrameable(hash, log) && !ValidFrameAt(w, hash, t)
    requires start <= |b| && b[start..] == JournalOf(w, hash, log) + t
    ensures Records(w, hash, b, start) == log
    ensures RunEnd(w, hash, b, start) == start + |JournalOf(w, hash, log)|
    decreases |log|
  {
    hide FrameOf, ValidFrameAt, RecordAt, FrameLen;
    if log == [] {
      assert b[start..] == t by { assert [] + t == t; }
      RunStopsAt(w, hash, b, start);
    } else {
      JournalCons(w, hash, log, t);
      FrameIsStep(w, hash, b, start, log[0], JournalOf(w, hash, log[1..]) + t);
      LogIsRun(w, hash, b, start + |FrameOf(w, hash, log[0])|, log[1..], t);
      assert [log[0]] + log[1..] == log;
    }
  }

  lemma PrefixIsNotFramed(w: World, hash: Hash, r: Record, k: nat)
    requires Frameable(hash, r) && k < |FrameOf(w, hash, r)|
    ensures !Framed(FrameOf(w, hash, r)[..k])
  {
    var f := FrameOf(w, hash, r);
    var t := f[..k];
    FrameBodyLen(w, hash, r);
    hide FrameOf;
    if k >= HEADER_BYTES { assert t[5..9] == f[5..9]; }
  }

  /** A torn tail is not a frame, and no frame starts anywhere in it. */
  lemma TornTailHoldsNoFrame(w: World, hash: Hash, t: seq<byte>)
    requires TornTail(w, hash, t)
    ensures !Framed(t)
    ensures forall o: nat :: o <= |t| ==> !ValidFrameAt(w, hash, t[o..])
  {
    if t != [] {
      var r: Record, k: nat :| Frameable(hash, r) && 0 < k < |FrameOf(w, hash, r)| && t == FrameOf(w, hash, r)[..k];
      PrefixIsNotFramed(w, hash, r, k);
      hide FrameOf, Framed, Frameable;
      forall o: nat | o <= |t|
        ensures !ValidFrameAt(w, hash, t[o..])
      {
        if o == 0 { assert t[0..] == t; } else { NoFrameInTorn(w, hash, hash, r, k, o); }
      }
    }
  }

  /** Reading a journal that a crash may have torn: the complete frames, all of them and nothing else. */
  lemma ScanOfTornJournal(w: World, hash: Hash, log: seq<Record>, t: seq<byte>)
    requires Sound(w) && AllFrameable(hash, log) && TornTail(w, hash, t)
    ensures var j := JournalOf(w, hash, log);
            var s := ScanFile(w, hash, Some(j + t));
            && (s.Ok? <==> |j + t| <= MAX_JOURNAL_BYTES && |log| <= MAX_RECORDS)
            && (s.Ok? ==> s.value == JournalScan(LastOf(log), |j|, if t == [] then None else Some(|j|)))
  {
    hide JournalOf, Records, RunEnd, AllFrameable, TornTail, Checksummed, LaterValid;
    var j := JournalOf(w, hash, log);
    var b := j + t;
    TornTailHoldsNoFrame(w, hash, t);
    assert t[0..] == t;
    assert b[0..] == j + t;
    LogIsRun(w, hash, b, 0, log, t);
    assert b[|j|..] == t;
    TornTailHidesNothing(w, hash, b, |j|, t);
    ScanExact(w, hash, b);
  }

  lemma TornTailHidesNothing(w: World, hash: Hash, b: seq<byte>, at: nat, t: seq<byte>)
    requires TornTail(w, hash, t) && at <= |b| && b[at..] == t
    ensures !Checksummed(w, t) && !LaterValid(w, hash, b, at)
  {
    TornTailHoldsNoFrame(w, hash, t);
    forall o: nat | at < o <= |b|
      ensures !ValidFrameAt(w, hash, b[o..])
    {
      assert b[o..] == t[o - at..];
    }
  }

  /** Crash-safe append. However much of a new frame reaches the disk, the next scan finds the new
      record if the frame is whole and otherwise the old newest record with the cut at the old length.
      The scan answers at all exactly when the file is within the two limits, which append itself does
      not check. */
  lemma CrashSafeAppend(w: World, hash: Hash, log: seq<Record>, r: Record, reached: nat)
    requires Sound(w) && AllFrameable(hash, log) && Frameable(hash, r) && reached <= |FrameOf(w, hash, r)|
    ensures var f := FrameOf(w, hash, r);
            var journal := JournalOf(w, hash, log);
            var s := ScanFile(w, hash, Some(journal + f[..reached]));
            var whole := reached == |f|;
            && (s.Ok? <==> |journal| + reached <= MAX_JOURNAL_BYTES && |log| + (if whole then 1 else 0) <= MAX_RECORDS)
            && (s.Ok? && whole ==> s.value == JournalScan(Some(r), |journal| + |f|, None))
            && (s.Ok? && !whole ==> s.value.last == LastOf(log) && s.value.validEnd == |journal|
                                    && s.value.truncateTo == if reached == 0 then None else Some(|journal|))
  {
    var f := FrameOf(w, hash, r);
    if reached == |f| {
      assert f[..reached] == f;
      JournalSnoc(w, hash, log, r);
      ScanOfTornJournal(w, hash, log + [r], []);
      assert JournalOf(w, hash, log + [r]) + [] == JournalOf(w, hash, log) + f;
    } else {
      assert TornTail(w, hash, f[..reached]);
      ScanOfTornJournal(w, hash, log, f[..reached]);
    }
  }
}
