/** What a claim that fails leaves behind, and which journals an append carries past the limits. */
module ClaimOutcome {
  import opened Bytes
  import opened StoredPayload
  import opened Frame
  import opened Scan
  import opened CrashSafety
  import opened HandoffJournal

  // ---- one file, one log ----

  /** A file holds one log at most: what follows the complete frames is never a frame itself. */
  lemma HeldLogIsUnique(w: World, hash: Hash, content: Option<seq<byte>>, log: seq<Record>, other: seq<Record>)
    requires Sound(w) && Holds(w, hash, content, log) && Holds(w, hash, content, other)
    ensures log == other
  {
    if content.Some? {
      HeldIsRun(w, hash, content.value, log);
      HeldIsRun(w, hash, content.value, other);
    }
  }

  lemma HeldIsRun(w: World, hash: Hash, b: seq<byte>, log: seq<Record>)
    requires Sound(w) && Holds(w, hash, Some(b), log)
    ensures Records(w, hash, b, 0) == log
  {
    hide *;
    HeldParts(w, hash, b, log);
    var t := b[|JournalOf(w, hash, log)|..];
    TornTailHoldsNoFrame(w, hash, t);
    assert t[0..] == t && b[0..] == b;
    LogIsRun(w, hash, b, 0, log, t);
  }

  // ---- a failed claim ----

  /** The newest record of the log a file holds. */
  ghost predicate NewestIs(w: World, hash: Hash, content: Option<seq<byte>>, r: Record) {
    exists log :: Holds(w, hash, content, log) && LastOf(log) == Some(r)
  }

  /** After a claim that got as far as writing, the Commit is still the newest record exactly when the
      Claim's frame did not land: the scan, the open or the truncation failed, or part of the frame is
      missing. Only then does the session still ask for recovery. */
  lemma CommitStaysNewest(w: World, hash: Hash, before: Option<seq<byte>>, log: seq<Record>, commit: Record, claimer: Lease, disk: Disk)
    requires Sound(w) && Holds(w, hash, before, log) && LastOf(log) == Some(commit) && commit.state == Commit
    requires Frameable(hash, ClaimRecord(commit, claimer))
    ensures var claim := ClaimRecord(commit, claimer);
            var after := AfterAppend(w, hash, before, claim, disk);
            && (NewestIs(w, hash, after, commit) <==> !FrameLands(w, hash, before, claim, disk))
            && (NewestIs(w, hash, after, claim) <==> FrameLands(w, hash, before, claim, disk))
            && RequiresRecovery(Some(commit.state)) && !RequiresRecovery(Some(claim.state))
  {
    var claim := ClaimRecord(commit, claimer);
    hide Holds, AfterAppend, FrameLands, Frameable, ScanFile, JournalOf, AllFrameable, NewestIs;
    AfterAppendHolds(w, hash, before, log, claim, disk);
    var held := if FrameLands(w, hash, before, claim, disk) then log + [claim] else log;
    NewestOfHeld(w, hash, AfterAppend(w, hash, before, claim, disk), held, commit);
    NewestOfHeld(w, hash, AfterAppend(w, hash, before, claim, disk), held, claim);
  }

  lemma NewestOfHeld(w: World, hash: Hash, content: Option<seq<byte>>, log: seq<Record>, r: Record)
    requires Sound(w) && Holds(w, hash, content, log)
    ensures NewestIs(w, hash, content, r) <==> LastOf(log) == Some(r)
  {
    hide Holds;
    forall other | Holds(w, hash, content, other)
      ensures other == log
    {
      HeldLogIsUnique(w, hash, content, log, other);
    }
  }

  /** The sync alone fails: the claim is reported as failed, yet its whole frame is in the file, the Commit
      is not newest any more, and nobody is told to recover the session. */
  lemma SyncFailureLeavesTheClaim(w: World, hash: Hash, commit: Record, claimer: Lease)
    requires Sound(w) && commit.state == Commit && commit.source.pid != 0 && claimer.pid != 0 && |commit.payload| <= 16000
    ensures var claim := ClaimRecord(commit, claimer);
            && AllFrameable(hash, [commit]) && Frameable(hash, claim)
            && var before, disk := Some(JournalOf(w, hash, [commit])), Disk(true, true, |FrameOf(w, hash, claim)|, false);
               && ScanFile(w, hash, before).Ok? && ScanFile(w, hash, before).value.last == Some(commit)
               && !AppendSucceeds(w, hash, before, claim, disk)
               && !NewestIs(w, hash, AfterAppend(w, hash, before, claim, disk), commit)
               && NewestIs(w, hash, AfterAppend(w, hash, before, claim, disk), claim)
  {
    var claim := ClaimRecord(commit, claimer);
    SmallIsFrameable(w, hash, commit);
    SmallIsFrameable(w, hash, claim);
    var j := JournalOf(w, hash, [commit]);
    assert j == FrameOf(w, hash, commit) + JournalOf(w, hash, [commit][1..]);
    hide FrameOf, JournalOf, Frameable, Holds;
    NoTail(w, hash);
    ScanOfTornJournal(w, hash, [commit], []);
    HoldsParts(w, hash, [commit], []);
    assert j + [] == j;
    CommitStaysNewest(w, hash, Some(j), [commit], commit, claimer, Disk(true, true, |FrameOf(w, hash, claim)|, false));
  }

  // ---- past the limits ----

  function Repeat(r: Record, k: nat): seq<Record> { seq(k, _ => r) }

  lemma {:induction false} RepeatLen(w: World, hash: Hash, r: Record, k: nat)
    requires Frameable(hash, r)
    ensures AllFrameable(hash, Repeat(r, k)) && |JournalOf(w, hash, Repeat(r, k))| == k * |FrameOf(w, hash, r)|
  {
    if k > 0 {
      RepeatLen(w, hash, r, k - 1);
      var rest := Repeat(r, k - 1);
      assert Repeat(r, k) == [r] + rest && ([r] + rest)[1..] == rest;
      assert JournalOf(w, hash, [r] + rest) == FrameOf(w, hash, r) + JournalOf(w, hash, rest);
      hide *;
      OneFrameMore(k - 1, |FrameOf(w, hash, r)|);
    }
  }

  lemma OneFrameMore(k: nat, f: nat)
    ensures f + k * f == (k + 1) * f
  {
  }

  /** How often `f` goes into the byte limit. */
  lemma FramesThatFit(f: nat) returns (k: nat)
    requires f > 4096
    ensures k < MAX_RECORDS && k * f <= MAX_JOURNAL_BYTES < k * f + f
  {
    k := MAX_JOURNAL_BYTES / f;
    assert MAX_JOURNAL_BYTES == k * f + MAX_JOURNAL_BYTES % f;
  }

  lemma WholeScans(w: World, hash: Hash, log: seq<Record>)
    requires Sound(w) && AllFrameable(hash, log)
    ensures ScanFile(w, hash, Some(JournalOf(w, hash, log))).Ok?
            <==> |JournalOf(w, hash, log)| <= MAX_JOURNAL_BYTES && |log| <= MAX_RECORDS
  {
    hide *;
    NoTail(w, hash);
    ScanOfTornJournal(w, hash, log, []);
    assert JournalOf(w, hash, log) + [] == JournalOf(w, hash, log);
  }

  /** An append onto a whole journal that the disk carries out succeeds whatever the journal's size, and the
      next scan answers exactly when it is within both limits. */
  lemma AppendThenScan(w: World, hash: Hash, log: seq<Record>, r: Record, disk: Disk)
    requires Sound(w) && AllFrameable(hash, log) && Frameable(hash, r)
    requires |JournalOf(w, hash, log)| <= MAX_JOURNAL_BYTES && |log| <= MAX_RECORDS
    requires disk.opens && disk.reached >= |FrameOf(w, hash, r)| && disk.synced
    ensures var before := Some(JournalOf(w, hash, log));
            && AppendSucceeds(w, hash, before, r, disk)
            && (ScanFile(w, hash, AfterAppend(w, hash, before, r, disk)).Ok?
                <==> |log| < MAX_RECORDS && |JournalOf(w, hash, log)| + |FrameOf(w, hash, r)| <= MAX_JOURNAL_BYTES)
  {
    var j, f := JournalOf(w, hash, log), FrameOf(w, hash, r);
    NoTail(w, hash);
    ScanOfTornJournal(w, hash, log, []);
    HoldsParts(w, hash, log, []);
    assert j + [] == j && j + f[..|f|] == j + f;
    AfterAppendHolds(w, hash, Some(j), log, r, disk);
    JournalSnoc(w, hash, log, r);
    CrashSafeAppend(w, hash, log, r, |f|);
  }

  /** A journal of `MAX_RECORDS` small records: the append of one more succeeds, the scan after it fails. */
  lemma AppendCrossesRecordLimit(w: World, hash: Hash, r: Record)
    requires Sound(w) && r.source.pid != 0 && r.payload == []
    ensures Frameable(hash, r) && AllFrameable(hash, Repeat(r, MAX_RECORDS))
    ensures var before, disk := Some(JournalOf(w, hash, Repeat(r, MAX_RECORDS))), Disk(true, true, |FrameOf(w, hash, r)|, true);
            && ScanFile(w, hash, before).Ok? && AppendSucceeds(w, hash, before, r, disk)
            && ScanFile(w, hash, AfterAppend(w, hash, before, r, disk)).Err?
  {
    SmallIsFrameable(w, hash, r);
    hide FrameOf, JournalOf, Frameable, AllFrameable, AfterAppend, AppendSucceeds, ScanFile;
    RepeatLen(w, hash, r, MAX_RECORDS);
    WholeScans(w, hash, Repeat(r, MAX_RECORDS));
    AppendThenScan(w, hash, Repeat(r, MAX_RECORDS), r, Disk(true, true, |FrameOf(w, hash, r)|, true));
  }

  /** The longest journal of records of 4096 bytes that is within the byte limit: the append of one more
      crosses it, though the records are few. */
  lemma AppendCrossesByteLimit(w: World, hash: Hash, r: Record) returns (k: nat)
    requires Sound(w) && r.source.pid != 0 && |r.payload| == 4096
    ensures Frameable(hash, r) && AllFrameable(hash, Repeat(r, k)) && k < MAX_RECORDS
    ensures var before, disk := Some(JournalOf(w, hash, Repeat(r, k))), Disk(true, true, |FrameOf(w, hash, r)|, true);
            && ScanFile(w, hash, before).Ok? && AppendSucceeds(w, hash, before, r, disk)
            && ScanFile(w, hash, AfterAppend(w, hash, before, r, disk)).Err?
  {
    SmallIsFrameable(w, hash, r);
    var f := |FrameOf(w, hash, r)|;
    k := FramesThatFit(f);
    hide FrameOf, JournalOf, Frameable, AllFrameable, AfterAppend, AppendSucceeds, ScanFile;
    RepeatLen(w, hash, r, k);
    WholeScans(w, hash, Repeat(r, k));
    AppendThenScan(w, hash, Repeat(r, k), r, Disk(true, true, f, true));
  }
}
