/** The journal object: append, claim, and the decisions around them. */
module HandoffJournal {
  import opened Bytes
  import opened StoredPayload
  import opened Frame
  import opened Scan
  import opened CrashSafety

  datatype Claimant = Recovery | Successor
  datatype Liveness = Live | Dead | Replaced | Unknown

  datatype JournalError =
    | NoLease
    | BadFrame(frame: FrameError)
    | BadScan(scan: ScanError)
    | SourceNotGone
    | CommittedByAnother
    | ValidationFailed
    | DiskFailed

  /** How the operating system answers one append: whether the file opens and truncates, how many bytes
      of the write reach it, and whether flush and sync report success. */
  datatype Disk = Disk(opens: bool, truncates: bool, reached: nat, synced: bool)

  /** `source_claimable_by`. Recovery needs proof that the committing process is gone; a successor must
      be that very process instance. */
  function SourceClaimableBy(source: Lease, claimant: Claimant, liveness: Liveness, current: Option<Lease>)
    : Result<(), JournalError>
  {
    match claimant
    case Recovery => if liveness == Dead || liveness == Replaced then Ok(()) else Err(SourceNotGone)
    case Successor => if current == Some(source) then Ok(()) else Err(CommittedByAnother)
  }

  function ClaimRecord(commit: Record, claimer: Lease): Record {
    Record(commit.epoch, Claim, commit.payload, claimer)
  }

  /** `requires_recovery_state`: whether a session whose journal ends like this asks to be recovered. */
  predicate RequiresRecovery(state: Option<HandoffState>) {
    state == Some(Commit) || state == Some(OwnedAbandon)
  }

  /** The bytes present before an append writes, once a torn tail is cut. */
  ghost function Repaired(content: Option<seq<byte>>, scan: JournalScan): seq<byte> {
    match content
    case None => []
    case Some(b) => match scan.truncateTo case None => b case Some(k) => if k <= |b| then b[..k] else b
  }

  /** A file holding the frames of `log` and perhaps a torn tail. */
  ghost predicate Holds(w: World, hash: Hash, content: Option<seq<byte>>, log: seq<Record>) {
    AllFrameable(hash, log)
    && match content
       case None => log == []
       case Some(b) =>
         JournalOf(w, hash, log) <= b && TornTail(w, hash, b[|JournalOf(w, hash, log)|..])
  }

  lemma NothingHeld(w: World, hash: Hash, log: seq<Record>)
    requires Holds(w, hash, None, log) && ScanFile(w, hash, None).Ok?
    ensures ScanFile(w, hash, None).value.last == LastOf(log)
    ensures Repaired(None, ScanFile(w, hash, None).value) == JournalOf(w, hash, log)
  {
  }

  lemma HeldParts(w: World, hash: Hash, b: seq<byte>, log: seq<Record>)
    requires Holds(w, hash, Some(b), log)
    ensures var j := JournalOf(w, hash, log);
            |j| <= |b| && b == j + b[|j|..] && TornTail(w, hash, b[|j|..]) && AllFrameable(hash, log)
  {
    hide JournalOf, TornTail, AllFrameable;
  }

  lemma RepairCuts(j: seq<byte>, t: seq<byte>, last: Option<Record>)
    ensures Repaired(Some(j + t), JournalScan(last, |j|, if t == [] then None else Some(|j|))) == j
  {
    assert (j + t)[..|j|] == j;
  }

  /** The scan of such a file, when it answers, sees exactly `log`, and its repair leaves exactly the
      frames of `log`. */
  lemma ScanOfHolding(w: World, hash: Hash, content: Option<seq<byte>>, log: seq<Record>)
    requires Sound(w) && Holds(w, hash, content, log) && ScanFile(w, hash, content).Ok?
    ensures ScanFile(w, hash, content).value.last == LastOf(log)
    ensures Repaired(content, ScanFile(w, hash, content).value) == JournalOf(w, hash, log)
  {
    hide *;
    match content {
      case None =>
        NothingHeld(w, hash, log);
      case Some(b) =>
        HeldParts(w, hash, b, log);
        var j := JournalOf(w, hash, log);
        var t := b[|j|..];
        ScanOfTornJournal(w, hash, log, t);
        RepairCuts(j, t, LastOf(log));
    }
  }

  lemma HoldsParts(w: World, hash: Hash, log: seq<Record>, t: seq<byte>)
    requires AllFrameable(hash, log) && TornTail(w, hash, t)
    ensures Holds(w, hash, Some(JournalOf(w, hash, log) + t), log)
  {
    hide JournalOf, TornTail, AllFrameable;
    var j := JournalOf(w, hash, log);
    assert (j + t)[..|j|] == j && (j + t)[|j|..] == t;
  }

  lemma NoTail(w: World, hash: Hash)
    ensures TornTail(w, hash, [])
  {
  }

  lemma PrefixIsTail(w: World, hash: Hash, r: Record, k: nat)
    requires Frameable(hash, r) && k < |FrameOf(w, hash, r)|
    ensures TornTail(w, hash, FrameOf(w, hash, r)[..k])
  {
    hide FrameOf;
  }

  lemma FrameableSnoc(hash: Hash, log: seq<Record>, r: Record)
    requires AllFrameable(hash, log) && Frameable(hash, r)
    ensures AllFrameable(hash, log + [r])
  {
    hide Frameable;
  }

  /** Writing any part of a frame after the repair keeps the file of this form: the new record counts
      exactly when all of its frame arrived. */
  lemma WriteKeepsHolding(w: World, hash: Hash, log: seq<Record>, r: Record, reached: nat)
    requires AllFrameable(hash, log) && Frameable(hash, r) && reached <= |FrameOf(w, hash, r)|
    ensures Holds(w, hash, Some(JournalOf(w, hash, log) + FrameOf(w, hash, r)[..reached]),
                  if reached == |FrameOf(w, hash, r)| then log + [r] else log)
  {
    FrameableSnoc(hash, log, r);
    hide *;
    var f := FrameOf(w, hash, r);
    var j := JournalOf(w, hash, log);
    NoTail(w, hash);
    if reached == |f| {
      JournalSnoc(w, hash, log, r);
      assert f[..reached] == f && (j + f) + [] == j + f;
      HoldsParts(w, hash, log + [r], []);
    } else {
      PrefixIsTail(w, hash, r, reached);
      HoldsParts(w, hash, log, f[..reached]);
    }
  }

  /** The file after an append onto `log`, whole or torn. */
  ghost predicate AppendedTo(w: World, hash: Hash, content: Option<seq<byte>>, log: seq<Record>, r: Record, whole: bool) {
    if whole
    then Holds(w, hash, content, log + [r]) && content == Some(JournalOf(w, hash, log + [r]))
    else Holds(w, hash, content, log)
  }

  /** Scan, repair, write `reached` bytes: nothing but the tail changes. */
  lemma AppendOntoHolding(w: World, hash: Hash, before: Option<seq<byte>>, log: seq<Record>, r: Record, reached: nat)
    requires Sound(w) && Holds(w, hash, before, log) && ScanFile(w, hash, before).Ok?
    requires Frameable(hash, r) && reached <= |FrameOf(w, hash, r)|
    ensures var after := Some(Repaired(before, ScanFile(w, hash, before).value) + FrameOf(w, hash, r)[..reached]);
            AppendedTo(w, hash, after, log, r, reached == |FrameOf(w, hash, r)|)
  {
    ScanOfHolding(w, hash, before, log);
    WriteKeepsHolding(w, hash, log, r, reached);
    if reached == |FrameOf(w, hash, r)| {
      JournalSnoc(w, hash, log, r);
      assert FrameOf(w, hash, r)[..reached] == FrameOf(w, hash, r);
    }
  }

  /** The exact file an append of `r` leaves: untouched when the scan, the open or the truncation
      fails, and otherwise the repaired journal with as much of the frame as reached the disk. */
  ghost function AfterAppend(w: World, hash: Hash, before: Option<seq<byte>>, r: Record, disk: Disk): Option<seq<byte>>
    requires Frameable(hash, r)
  {
    var scan := ScanFile(w, hash, before);
    if scan.Err? || !disk.opens || (scan.value.truncateTo.Some? && !disk.truncates) then before
    else
      var frame := FrameOf(w, hash, r);
      Some(Repaired(before, scan.value) + frame[..if disk.reached < |frame| then disk.reached else |frame|])
  }

  /** The whole frame ends up in the file, and newest: nothing stopped the write and all of it arrived. */
  ghost predicate FrameLands(w: World, hash: Hash, before: Option<seq<byte>>, r: Record, disk: Disk)
    requires Frameable(hash, r)
  {
    var scan := ScanFile(w, hash, before);
    scan.Ok? && disk.opens && (scan.value.truncateTo.Some? ==> disk.truncates) && disk.reached >= |FrameOf(w, hash, r)|
  }

  /** An append reports success: that, and the sync does too. No limit is checked. */
  ghost predicate AppendSucceeds(w: World, hash: Hash, before: Option<seq<byte>>, r: Record, disk: Disk)
    requires Frameable(hash, r)
  {
    FrameLands(w, hash, before, r, disk) && disk.synced
  }

  /** What any append makes of a file that holds a log: the log and the record if the frame landed, the log
      alone if not. */
  lemma AfterAppendHolds(w: World, hash: Hash, before: Option<seq<byte>>, log: seq<Record>, r: Record, disk: Disk)
    requires Sound(w) && Holds(w, hash, before, log) && Frameable(hash, r)
    ensures var after := AfterAppend(w, hash, before, r, disk);
            if FrameLands(w, hash, before, r, disk)
            then AllFrameable(hash, log + [r]) && Holds(w, hash, after, log + [r]) && after == Some(JournalOf(w, hash, log + [r]))
            else Holds(w, hash, after, log)
  {
    FrameableSnoc(hash, log, r);
    hide *;
    AfterAppendIs(w, hash, before, r, disk);
    var scan, frame := ScanFile(w, hash, before), FrameOf(w, hash, r);
    if scan.Ok? && disk.opens && (scan.value.truncateTo.Some? ==> disk.truncates) {
      var reached := if disk.reached < |frame| then disk.reached else |frame|;
      AppendOntoHolding(w, hash, before, log, r, reached);
      AppendedToIs(w, hash, AfterAppend(w, hash, before, r, disk), log, r, reached == |frame|);
    }
  }

  lemma AfterAppendIs(w: World, hash: Hash, before: Option<seq<byte>>, r: Record, disk: Disk)
    requires Frameable(hash, r)
    ensures var scan, frame := ScanFile(w, hash, before), FrameOf(w, hash, r);
            var writes := scan.Ok? && disk.opens && (scan.value.truncateTo.Some? ==> disk.truncates);
            var reached := if disk.reached < |frame| then disk.reached else |frame|;
            && AfterAppend(w, hash, before, r, disk) == (if writes then Some(Repaired(before, scan.value) + frame[..reached]) else before)
            && FrameLands(w, hash, before, r, disk) == (writes && reached == |frame|)
  {
    hide ScanFile, FrameOf, Repaired, Frameable;
  }

  lemma AppendedToIs(w: World, hash: Hash, content: Option<seq<byte>>, log: seq<Record>, r: Record, whole: bool)
    requires AppendedTo(w, hash, content, log, r, whole) && AllFrameable(hash, log + [r])
    ensures if whole then Holds(w, hash, content, log + [r]) && content == Some(JournalOf(w, hash, log + [r]))
            else Holds(w, hash, content, log)
  {
    hide Holds, JournalOf, AllFrameable;
  }

  /** The Claim a `claim_by` goes on to write: the newest record is a Commit whose source test and
      validation pass, this process has a lease, and the frame can be built. */
  ghost function ClaimReady<T>(w: World, hash: Hash, content: Option<seq<byte>>, claimant: Claimant, liveness: Lease -> Liveness,
                               current: Option<Lease>, validate: seq<byte> -> Option<T>): (claim: Option<Record>)
    ensures claim.Some? ==> Frameable(hash, claim.value)
  {
    var scan := ScanFile(w, hash, content);
    if scan.Err? || scan.value.last.None? then None
    else
      var commit := scan.value.last.value;
      if commit.state != Commit || SourceClaimableBy(commit.source, claimant, liveness(commit.source), current).Err?
         || validate(commit.payload).None? || current.None? || !Frameable(hash, ClaimRecord(commit, current.value))
      then None
      else Some(ClaimRecord(commit, current.value))
  }

  /** What a claim of the Commit a held log ends in takes: a file within the limits, a payload that validates,
      a lease, a Claim that can be built, a disk that does its part, and grounds. For a recovery the source
      is dead or replaced; for a successor it is the claimer itself. */
  ghost predicate Claims<T>(w: World, hash: Hash, content: Option<seq<byte>>, log: seq<Record>, claimant: Claimant,
                            liveness: Lease -> Liveness, current: Option<Lease>, validate: seq<byte> -> Option<T>, disk: Disk)
    requires Holds(w, hash, content, log) && log != []
  {
    var commit := log[|log| - 1];
    && content.Some? && |content.value| <= 4194304 && |log| <= 1024
    && validate(commit.payload).Some? && current.Some?
    && (claimant == Recovery ==> liveness(commit.source) == Dead || liveness(commit.source) == Replaced)
    && (claimant == Successor ==> current.value == commit.source)
    && var claim := Record(commit.epoch, Claim, commit.payload, current.value);
       && Frameable(hash, claim)
       && disk.opens && (|content.value| > |JournalOf(w, hash, log)| ==> disk.truncates)
       && disk.reached >= |FrameOf(w, hash, claim)| && disk.synced
  }

  lemma ScanOfHeld(w: World, hash: Hash, content: Option<seq<byte>>, log: seq<Record>)
    requires Sound(w) && Holds(w, hash, content, log) && log != []
    ensures content.Some?
    ensures ScanFile(w, hash, content).Ok? <==> |content.value| <= 4194304 && |log| <= 1024
    ensures ScanFile(w, hash, content).Ok? ==>
              && ScanFile(w, hash, content).value.last == LastOf(log)
              && (ScanFile(w, hash, content).value.truncateTo.Some? <==> |content.value| > |JournalOf(w, hash, log)|)
  {
    hide ScanFile, JournalOf, Holds, TornTail, AllFrameable, FrameOf, Frameable;
    HeldIsSome(w, hash, content, log);
    HeldParts(w, hash, content.value, log);
    var j := JournalOf(w, hash, log);
    var t := content.value[|j|..];
    assert content == Some(j + t);
    ScanOfTornJournal(w, hash, log, t);
  }

  /** A claim is written and succeeds exactly then. */
  lemma ClaimsExactly<T>(w: World, hash: Hash, content: Option<seq<byte>>, log: seq<Record>, claimant: Claimant,
                         liveness: Lease -> Liveness, current: Option<Lease>, validate: seq<byte> -> Option<T>, disk: Disk)
    requires Sound(w) && Holds(w, hash, content, log) && log != [] && log[|log| - 1].state == Commit
    ensures var ready := ClaimReady(w, hash, content, claimant, liveness, current, validate);
            Claims(w, hash, content, log, claimant, liveness, current, validate, disk)
            <==> ready.Some? && AppendSucceeds(w, hash, content, ready.value, disk)
  {
    hide ScanFile, Frameable, FrameOf, JournalOf, Holds, AllFrameable, Encode;
    ScanOfHeld(w, hash, content, log);
  }

  lemma HeldIsSome(w: World, hash: Hash, content: Option<seq<byte>>, log: seq<Record>)
    requires Holds(w, hash, content, log) && log != []
    ensures content.Some?
  {
  }

  /** `<id>.handoff` on disk; `None` while it does not exist. */
  class JournalFile {
    var content: Option<seq<byte>>
  }

  class Journal {
    const file: JournalFile
    const w: World
    const hash: Hash

    constructor (file: JournalFile, w: World, hash: Hash)
      ensures this.file == file && this.w == w && this.hash == hash
    {
      this.file, this.w, this.hash := file, w, hash;
    }

    method Scanned(short: nat -> nat) returns (r: Result<JournalScan, ScanError>)
      ensures r == ScanFile(w, hash, file.content)
    {
      r := ScanJournal(w, hash, file.content, short);
    }

    /** `append_frame_locked`, the shared tail of `append` and `claim_by`: scan, open, cut a torn tail,
        write at the end, sync. */
    method AppendFrameLocked(r: Record, disk: Disk, short: nat -> nat) returns (res: Result<(), JournalError>)
      requires Sound(w) && Frameable(hash, r)
      modifies file
      ensures file.content == AfterAppend(w, hash, old(file.content), r, disk)
      ensures res.Ok? <==> AppendSucceeds(w, hash, old(file.content), r, disk)
      ensures forall log {:trigger Holds(w, hash, old(file.content), log)} :: Holds(w, hash, old(file.content), log) ==>
                Holds(w, hash, file.content, log) || Holds(w, hash, file.content, log + [r])
      ensures forall log {:trigger Holds(w, hash, old(file.content), log)} :: res.Ok? && Holds(w, hash, old(file.content), log) ==>
                AllFrameable(hash, log + [r]) && file.content == Some(JournalOf(w, hash, log + [r]))
    {
      var scan := Scanned(short);
      if scan.Err? { return Err(BadScan(scan.error)); }
      if !disk.opens { return Err(DiskFailed); }
      ghost var before := file.content;
      if file.content.None? { file.content := Some([]); }
      if scan.value.truncateTo.Some? {
        if !disk.truncates { return Err(DiskFailed); }
        ScanExact(w, hash, file.content.value);
        file.content := Some(file.content.value[..scan.value.truncateTo.value]);
      }
      assert file.content == Some(Repaired(before, scan.value));
      var frame := FrameOf(w, hash, r);
      var reached := if disk.reached < |frame| then disk.reached else |frame|;
      file.content := Some(file.content.value + frame[..reached]);
      forall log | Holds(w, hash, before, log)
        ensures AppendedTo(w, hash, file.content, log, r, reached == |frame|)
      {
        AppendOntoHolding(w, hash, before, log, r, reached);
      }
      res := if reached == |frame| && disk.synced then Ok(()) else Err(DiskFailed);
    }

    /** `append`: the source is this process's own lease, never the caller's word. */
    method Append(epoch: u64, state: HandoffState, payload: seq<byte>, current: Option<Lease>, disk: Disk, short: nat -> nat)
      returns (res: Result<(), JournalError>)
      requires Sound(w)
      modifies file
      ensures current.None? ==> res.Err? && file.content == old(file.content)
      ensures current.Some? ==>
                var r := Record(epoch, state, payload, current.value);
                && (!Frameable(hash, r) ==> res == Err(BadFrame(MakeFrame(w, hash, r).error)) && file.content == old(file.content))
                && (Frameable(hash, r) ==> file.content == AfterAppend(w, hash, old(file.content), r, disk))
                && (res.Ok? <==> Frameable(hash, r) && AppendSucceeds(w, hash, old(file.content), r, disk))
      ensures forall log {:trigger Holds(w, hash, old(file.content), log)} :: current.Some? && Holds(w, hash, old(file.content), log) ==>
                || Holds(w, hash, file.content, log)
                || Holds(w, hash, file.content, log + [Record(epoch, state, payload, current.value)])
      ensures forall log {:trigger Holds(w, hash, old(file.content), log)} :: res.Ok? && Holds(w, hash, old(file.content), log) ==>
                var more := log + [Record(epoch, state, payload, current.value)];
                AllFrameable(hash, more) && file.content == Some(JournalOf(w, hash, more))
    {
      if current.None? { return Err(NoLease); }
      var r := Record(epoch, state, payload, current.value);
      var frame := MakeFrame(w, hash, r);
      if frame.Err? { return Err(BadFrame(frame.error)); }
      res := AppendFrameLocked(r, disk, short);
    }

    /** `claimable_by`: the newest record, when it is a Commit this claimant may take. */
    method ClaimableBy(claimant: Claimant, liveness: Lease -> Liveness, current: Option<Lease>, short: nat -> nat)
      returns (res: Result<Option<Record>, JournalError>)
      ensures var s := ScanFile(w, hash, file.content);
              && (res.Err? <==>
                    (s.Err? || (s.value.last.Some? && s.value.last.value.state == Commit
                                && SourceClaimableBy(s.value.last.value.source, claimant,
                                                     liveness(s.value.last.value.source), current).Err?)))
              && (s.Ok? && s.value.last.Some? && s.value.last.value.state == Commit ==>
                    var source := s.value.last.value.source;
                    (match claimant
                     case Recovery =>
                       res == if liveness(source) == Dead || liveness(source) == Replaced then Ok(s.value.last) else Err(SourceNotGone)
                     case Successor => res == if current == Some(source) then Ok(s.value.last) else Err(CommittedByAnother)))
              && (res.Ok? && res.value.Some? ==> s.value.last == res.value && res.value.value.state == Commit)
              && (res.Ok? && res.value.None? ==> s.value.last.None? || s.value.last.value.state != Commit)
    {
      var scan := Scanned(short);
      if scan.Err? { return Err(BadScan(scan.error)); }
      if scan.value.last.None? { return Ok(None); }
      var record := scan.value.last.value;
      if record.state != Commit { return Ok(None); }
      var allowed := SourceClaimableBy(record.source, claimant, liveness(record.source), current);
      if allowed.Err? { return Err(allowed.error); }
      res := Ok(Some(record));
    }

    /** `claim_by`: check, validate, then write the Claim, all under the append lock. A claim succeeds
        exactly when the newest record is a Commit whose source test and validation pass, there is a
        lease, the Claim's frame can be built and its append succeeds; then the journal is the old frames
        plus one Claim of the same epoch and payload. Until the write the file is as it was; after it the
        journal holds the old frames, and the Claim just when its whole frame landed. */
    method ClaimBy<T>(claimant: Claimant, liveness: Lease -> Liveness, current: Option<Lease>,
                      validate: seq<byte> -> Option<T>, disk: Disk, short: nat -> nat)
      returns (res: Result<Option<(Record, T)>, JournalError>)
      requires Sound(w)
      modifies file
      ensures res.Ok? && res.value.Some? ==>
                var commit := res.value.value.0;
                && ScanFile(w, hash, old(file.content)).Ok?
                && ScanFile(w, hash, old(file.content)).value.last == Some(commit)
                && commit.state == Commit && current.Some?
                && SourceClaimableBy(commit.source, claimant, liveness(commit.source), current).Ok?
                && validate(commit.payload) == Some(res.value.value.1)
      ensures forall log {:trigger Holds(w, hash, old(file.content), log)} ::
                res.Ok? && res.value.Some? && Holds(w, hash, old(file.content), log) ==>
                && log != [] && log[|log| - 1] == res.value.value.0
                && AllFrameable(hash, log + [ClaimRecord(res.value.value.0, current.value)])
                && file.content == Some(JournalOf(w, hash, log + [ClaimRecord(res.value.value.0, current.value)]))
      ensures var ready := ClaimReady(w, hash, old(file.content), claimant, liveness, current, validate);
              && (ready.None? ==> file.content == old(file.content) && (res.Err? || res.value.None?))
              && (ready.Some? ==> Frameable(hash, ready.value)
                                  && file.content == AfterAppend(w, hash, old(file.content), ready.value, disk)
                                  && (res.Ok? <==> AppendSucceeds(w, hash, old(file.content), ready.value, disk)))
      ensures forall log: seq<Record> {:trigger Holds(w, hash, old(file.content), log)} ::
                Holds(w, hash, old(file.content), log) && log != [] && log[|log| - 1].state == Commit ==>
                  (res.Ok? && res.value.Some?
                   <==> Claims(w, hash, old(file.content), log, claimant, liveness, current, validate, disk))
      ensures res.Ok? && res.value.None? <==>
              var s := ScanFile(w, hash, old(file.content)); s.Ok? && (s.value.last.None? || s.value.last.value.state != Commit)
      ensures forall log {:trigger Holds(w, hash, old(file.content), log)} ::
                res.Err? && Holds(w, hash, old(file.content), log) ==>
                var ready := ClaimReady(w, hash, old(file.content), claimant, liveness, current, validate);
                if ready.Some? && FrameLands(w, hash, old(file.content), ready.value, disk)
                then Holds(w, hash, file.content, log + [ready.value]) else Holds(w, hash, file.content, log)
    {
      hide Holds, ScanFile, FrameOf, JournalOf, AllFrameable, Frameable, AfterAppend, FrameLands, Encode, Claims;
      forall log: seq<Record> | Holds(w, hash, file.content, log) && log != [] && log[|log| - 1].state == Commit
        ensures var ready := ClaimReady(w, hash, file.content, claimant, liveness, current, validate);
                Claims(w, hash, file.content, log, claimant, liveness, current, validate, disk)
                <==> ready.Some? && AppendSucceeds(w, hash, file.content, ready.value, disk)
      {
        ClaimsExactly(w, hash, file.content, log, claimant, liveness, current, validate, disk);
      }
      var claimable := ClaimableBy(claimant, liveness, current, short);
      if claimable.Err? { return Err(claimable.error); }
      if claimable.value.None? { return Ok(None); }
      var record := claimable.value.value;
      var intent := validate(record.payload);
      if intent.None? { return Err(ValidationFailed); }
      if current.None? { return Err(NoLease); }
      var claim := ClaimRecord(record, current.value);
      var frame := MakeFrame(w, hash, claim);
      if frame.Err? { return Err(BadFrame(frame.error)); }
      ghost var before := file.content;
      forall log | Holds(w, hash, before, log)
        ensures log != [] && log[|log| - 1] == record
        ensures if FrameLands(w, hash, before, claim, disk)
                then Holds(w, hash, AfterAppend(w, hash, before, claim, disk), log + [claim])
                else Holds(w, hash, AfterAppend(w, hash, before, claim, disk), log)
      {
        ScanOfHolding(w, hash, before, log);
        AfterAppendHolds(w, hash, before, log, claim, disk);
      }
      var written := AppendFrameLocked(claim, disk, short);
      if written.Err? { return Err(written.error); }
      res := Ok(Some((record, intent.value)));
    }
  }
}
