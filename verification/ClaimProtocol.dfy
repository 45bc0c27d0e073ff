/** Every interleaving of appends and claims, across threads and processes, with crashes.

    A process holds the session's exclusive lock while it has the journal open; within it a thread
    holds the path's append lock for a whole append or claim. Between a thread's scan and its write
    other threads and processes may do anything their locks allow, and any process may die. */
module ClaimProtocol {
  import opened Bytes
  import opened StoredPayload
  import opened Frame
  import opened Scan
  import opened CrashSafety
  import opened HandoffJournal

  datatype Thread = Thread(process: nat, id: nat)

  /** What a thread was asked to do. */
  datatype Op = DoAppend(record: Record) | DoClaim(claimant: Claimant)

  /** Where a thread inside the append lock stands. `evidence` is the liveness answer a claim got. */
  datatype Pc =
    | Locked(op: Op)
    | Checked(claimant: Claimant, commit: Record, evidence: Liveness)
    | Ready(write: Record, claims: Option<(Claimant, Record, Liveness)>)
    | Rescanned(write: Record, claims: Option<(Claimant, Record, Liveness)>, scan: JournalScan)

  /** A `claim_by` that returned a record: which frame it claimed, and on what grounds. */
  datatype ClaimEvent = ClaimEvent(index: nat, commit: Record, claimer: Lease, claimant: Claimant, evidence: Liveness)

  datatype Env = Env(w: World, hash: Hash, leaseOf: nat -> Option<Lease>)

  /** `log` and `claims` are history: the complete frames written so far and the claims that succeeded. */
  datatype State = State(
    content: Option<seq<byte>>,
    session: Option<nat>,
    append: map<nat, Thread>,
    pcs: map<Thread, Pc>,
    log: seq<Record>,
    claims: seq<ClaimEvent>)

  datatype Step =
    | OpenSession(process: nat)
    | CloseSession(process: nat)
    | Crash(process: nat)
    | Lock(thread: Thread, op: Op)
    | PrepareAppend(thread: Thread)
    | CheckClaimable(thread: Thread, evidence: Liveness)
    | Validate(thread: Thread, accepted: bool)
    | Rescan(thread: Thread)
    | Write(thread: Thread, reached: nat, synced: bool)
    | GiveUp(thread: Thread)

  ghost predicate Init(s: State) {
    s.content.None? && s.session.None? && s.append == map[] && s.pcs == map[] && s.log == [] && s.claims == []
  }

  /** The thread gives up the append lock. */
  ghost function Release(s: State, t: Thread): State {
    s.(pcs := s.pcs - {t}, append := s.append - {t.process})
  }

  ghost predicate Next(e: Env, s: State, s': State, step: Step) {
    match step
    case OpenSession(p) => s.session.None? && s' == s.(session := Some(p))
    // a journal borrows its lock, so the lock outlives every append and claim in flight
    case CloseSession(p) => s.session == Some(p) && p !in s.append && s' == s.(session := None)
    case Crash(p) => NextCrash(s, s', p)
    case Lock(t, op) => NextLock(s, s', t, op)
    case PrepareAppend(t) => NextPrepareAppend(e, s, s', t)
    case CheckClaimable(t, evidence) => NextCheck(e, s, s', t, evidence)
    case Validate(t, accepted) => NextValidate(e, s, s', t, accepted)
    case Rescan(t) => NextRescan(e, s, s', t)
    case Write(t, reached, synced) => NextWrite(e, s, s', t, reached, synced)
    // any other error return: the file would not open, truncate, or be read
    case GiveUp(t) => t in s.pcs && s' == Release(s, t)
  }

  /** Every thread of the process dies where it stands, and its locks are released. */
  ghost predicate NextCrash(s: State, s': State, p: nat) {
    s' == s.(session := if s.session == Some(p) then None else s.session,
             append := s.append - {p},
             pcs := map t | t in s.pcs && t.process != p :: s.pcs[t])
  }

  ghost predicate NextLock(s: State, s': State, t: Thread, op: Op) {
    s.session == Some(t.process) && t.process !in s.append
    && s' == s.(append := s.append[t.process := t], pcs := s.pcs[t := Locked(op)])
  }

  /** `append`: the record's source is this process's lease; the frame must be buildable. */
  ghost predicate NextPrepareAppend(e: Env, s: State, s': State, t: Thread) {
    t in s.pcs && s.pcs[t].Locked? && s.pcs[t].op.DoAppend?
    && var r := s.pcs[t].op.record;
    if Some(r.source) == e.leaseOf(t.process) && Frameable(e.hash, r)
    then s' == s.(pcs := s.pcs[t := Ready(r, None)]) else s' == Release(s, t)
  }

  /** `claimable_by`: scan, newest is a Commit, source test. */
  ghost predicate NextCheck(e: Env, s: State, s': State, t: Thread, evidence: Liveness) {
    t in s.pcs && s.pcs[t].Locked? && s.pcs[t].op.DoClaim?
    && var claimant := s.pcs[t].op.claimant;
    var scan := ScanFile(e.w, e.hash, s.content);
    if scan.Ok? && scan.value.last.Some? && scan.value.last.value.state == Commit
       && SourceClaimableBy(scan.value.last.value.source, claimant, evidence, e.leaseOf(t.process)).Ok?
    then s' == s.(pcs := s.pcs[t := Checked(claimant, scan.value.last.value, evidence)]) else s' == Release(s, t)
  }

  ghost predicate NextValidate(e: Env, s: State, s': State, t: Thread, accepted: bool) {
    t in s.pcs && s.pcs[t].Checked?
    && var Checked(claimant, commit, evidence) := s.pcs[t];
    var lease := e.leaseOf(t.process);
    if accepted && lease.Some? && Frameable(e.hash, ClaimRecord(commit, lease.value))
    then s' == s.(pcs := s.pcs[t := Ready(ClaimRecord(commit, lease.value), Some((claimant, commit, evidence)))])
    else s' == Release(s, t)
  }

  /** `append_frame_locked` scans again before it opens the file. */
  ghost predicate NextRescan(e: Env, s: State, s': State, t: Thread) {
    t in s.pcs && s.pcs[t].Ready?
    && var scan := ScanFile(e.w, e.hash, s.content);
    if scan.Ok? then s' == s.(pcs := s.pcs[t := Rescanned(s.pcs[t].write, s.pcs[t].claims, scan.value)]) else s' == Release(s, t)
  }

  /** Cut what the scan said to cut, and write as much of the frame as reaches the disk. */
  ghost predicate NextWrite(e: Env, s: State, s': State, t: Thread, reached: nat, synced: bool) {
    t in s.pcs && s.pcs[t].Rescanned?
    && var Rescanned(r, claims, scan) := s.pcs[t];
    Frameable(e.hash, r) && reached <= |FrameOf(e.w, e.hash, r)|
    && var whole := reached == |FrameOf(e.w, e.hash, r)|;
    s' == Release(s, t).(
      content := Some(Repaired(s.content, scan) + FrameOf(e.w, e.hash, r)[..reached]),
      log := if whole then s.log + [r] else s.log,
      claims := if whole && synced && claims.Some? && s.log != []
                then s.claims + [ClaimEvent(|s.log| - 1, claims.value.1, r.source, claims.value.0, claims.value.2)]
                else s.claims)
  }

  /** The grounds of one successful claim, as the journal shows them for ever after. */
  ghost predicate ClaimStands(e: Env, log: seq<Record>, c: ClaimEvent) {
    c.index + 1 < |log|
    && log[c.index] == c.commit && c.commit.state == Commit
    && log[c.index + 1] == Record(c.commit.epoch, Claim, c.commit.payload, c.claimer)
    && (c.claimant == Recovery ==> c.evidence == Dead || c.evidence == Replaced)
    && (c.claimant == Successor ==> c.claimer == c.commit.source)
  }

  ghost predicate PcFits(e: Env, s: State, t: Thread) requires t in s.pcs {
    match s.pcs[t]
    case Locked(_) => true
    case Checked(claimant, commit, evidence) => Grounded(e, s, t, claimant, commit, evidence)
    case Ready(r, claims) => Frameable(e.hash, r) && WritesFor(e, s, t, r, claims)
    case Rescanned(r, claims, scan) =>
      Frameable(e.hash, r) && WritesFor(e, s, t, r, claims) && ScanFile(e.w, e.hash, s.content) == Ok(scan)
  }

  /** The newest record is the Commit being claimed, and the source test passed. */
  ghost predicate Grounded(e: Env, s: State, t: Thread, claimant: Claimant, commit: Record, evidence: Liveness) {
    LastOf(s.log) == Some(commit) && commit.state == Commit
    && SourceClaimableBy(commit.source, claimant, evidence, e.leaseOf(t.process)).Ok?
  }

  ghost predicate WritesFor(e: Env, s: State, t: Thread, r: Record, claims: Option<(Claimant, Record, Liveness)>) {
    claims.Some? ==>
      && Grounded(e, s, t, claims.value.0, claims.value.1, claims.value.2)
      && e.leaseOf(t.process) == Some(r.source) && r == ClaimRecord(claims.value.1, r.source)
  }

  ghost predicate Inv(e: Env, s: State) {
    // the file is the complete frames plus at most a torn tail
    && Holds(e.w, e.hash, s.content, s.log)
    // only the process with the session lock has an append lock taken, and only its holder is active
    && (forall p :: p in s.append ==> s.session == Some(p))
    && (forall t :: t in s.pcs ==> t.process in s.append && s.append[t.process] == t)
    && (forall t :: t in s.pcs ==> PcFits(e, s, t))
    && (forall i :: 0 <= i < |s.claims| ==> ClaimStands(e, s.log, s.claims[i]))
    && (forall i, j :: 0 <= i < j < |s.claims| ==> s.claims[i].index < s.claims[j].index)
  }

  lemma InitInv(e: Env, s: State)
    requires Init(s)
    ensures Inv(e, s)
  {
  }

  /** At most one thread in the whole system is inside the append lock. */
  lemma OneActiveThread(e: Env, s: State, t: Thread, u: Thread)
    requires Inv(e, s) && t in s.pcs && u in s.pcs
    ensures t == u
  {
  }

  lemma ClaimsStandOnLongerLog(e: Env, log: seq<Record>, more: seq<Record>, claims: seq<ClaimEvent>)
    requires log <= more
    requires forall i :: 0 <= i < |claims| ==> ClaimStands(e, log, claims[i])
    ensures forall i :: 0 <= i < |claims| ==> ClaimStands(e, more, claims[i])
    ensures forall i :: 0 <= i < |claims| ==> claims[i].index < |log| - 1
  {
    forall i | 0 <= i < |claims|
      ensures ClaimStands(e, more, claims[i]) && claims[i].index < |log| - 1
    {
      assert ClaimStands(e, log, claims[i]);
    }
  }

  lemma WriterIsAlone(e: Env, s: State, t: Thread)
    requires Inv(e, s) && t in s.pcs
    ensures s.pcs - {t} == map[]
  {
    forall u | u in s.pcs ensures u == t { OneActiveThread(e, s, t, u); }
  }

  /** The claim a writer is about to complete will stand once its frame is whole. */
  lemma PendingClaimStands(e: Env, s: State, t: Thread)
    requires t in s.pcs && s.pcs[t].Rescanned? && s.pcs[t].claims.Some? && PcFits(e, s, t)
    ensures var Rescanned(r, claims, scan) := s.pcs[t];
            s.log != [] && ClaimStands(e, s.log + [r], ClaimEvent(|s.log| - 1, claims.value.1, r.source, claims.value.0, claims.value.2))
  {
  }

  lemma FileStaysSound(e: Env, s: State, s': State, t: Thread, reached: nat, synced: bool)
    requires Sound(e.w) && Holds(e.w, e.hash, s.content, s.log) && NextWrite(e, s, s', t, reached, synced) && PcFits(e, s, t)
    ensures Holds(e.w, e.hash, s'.content, s'.log)
  {
    AppendOntoHolding(e.w, e.hash, s.content, s.log, s.pcs[t].write, reached);
  }

  lemma WritePreservesInv(e: Env, s: State, s': State, t: Thread, reached: nat, synced: bool)
    requires Sound(e.w) && Inv(e, s) && NextWrite(e, s, s', t, reached, synced)
    ensures Inv(e, s')
  {
    hide Holds, Sound, ClaimStands, ScanFile, AllFrameable, JournalOf;
    assert PcFits(e, s, t);
    FileStaysSound(e, s, s', t, reached, synced);
    WriterIsAlone(e, s, t);
    ClaimsStandOnLongerLog(e, s.log, s'.log, s.claims);
    if s'.claims != s.claims {
      PendingClaimStands(e, s, t);
      AddClaim(e, s.log, s'.log, s.claims, s'.claims[|s.claims|]);
    }
  }

  lemma AddClaim(e: Env, log: seq<Record>, more: seq<Record>, claims: seq<ClaimEvent>, c: ClaimEvent)
    requires forall i :: 0 <= i < |claims| ==> ClaimStands(e, more, claims[i]) && claims[i].index < |log| - 1
    requires forall i, j :: 0 <= i < j < |claims| ==> claims[i].index < claims[j].index
    requires ClaimStands(e, more, c) && c.index == |log| - 1
    ensures forall i :: 0 <= i < |claims + [c]| ==> ClaimStands(e, more, (claims + [c])[i])
    ensures forall i, j :: 0 <= i < j < |claims + [c]| ==> (claims + [c])[i].index < (claims + [c])[j].index
  {
  }

  /** A step that leaves the file and its history alone keeps every other thread in place. */
  lemma OthersKeepTheirPlace(e: Env, s: State, s': State)
    requires Inv(e, s) && s'.log == s.log && s'.content == s.content && s'.claims == s.claims
    requires forall p :: p in s'.append ==> s'.session == Some(p)
    requires forall t :: t in s'.pcs ==> t.process in s'.append && s'.append[t.process] == t
    requires forall t :: t in s'.pcs ==> (t in s.pcs && s'.pcs[t] == s.pcs[t]) || PcFits(e, s', t)
    ensures Inv(e, s')
  {
    forall t | t in s'.pcs
      ensures PcFits(e, s', t)
    {
      if t in s.pcs && s'.pcs[t] == s.pcs[t] { assert PcFits(e, s, t); }
    }
  }

  lemma CheckPreservesInv(e: Env, s: State, s': State, t: Thread, evidence: Liveness)
    requires Sound(e.w) && Inv(e, s) && NextCheck(e, s, s', t, evidence)
    ensures Inv(e, s')
  {
    if ScanFile(e.w, e.hash, s.content).Ok? { ScanOfHolding(e.w, e.hash, s.content, s.log); }
    if t in s'.pcs { assert PcFits(e, s', t); }
    OthersKeepTheirPlace(e, s, s');
  }

  lemma ValidatePreservesInv(e: Env, s: State, s': State, t: Thread, accepted: bool)
    requires Inv(e, s) && NextValidate(e, s, s', t, accepted)
    ensures Inv(e, s')
  {
    assert PcFits(e, s, t);
    if t in s'.pcs { assert PcFits(e, s', t); }
    OthersKeepTheirPlace(e, s, s');
  }

  lemma RescanPreservesInv(e: Env, s: State, s': State, t: Thread)
    requires Inv(e, s) && NextRescan(e, s, s', t)
    ensures Inv(e, s')
  {
    assert PcFits(e, s, t);
    if t in s'.pcs { assert PcFits(e, s', t); }
    OthersKeepTheirPlace(e, s, s');
  }

  lemma PreparePreservesInv(e: Env, s: State, s': State, t: Thread)
    requires Inv(e, s) && NextPrepareAppend(e, s, s', t)
    ensures Inv(e, s')
  {
    OthersKeepTheirPlace(e, s, s');
  }

  lemma LockPreservesInv(e: Env, s: State, s': State, t: Thread, op: Op)
    requires Inv(e, s) && NextLock(s, s', t, op)
    ensures Inv(e, s')
  {
    OthersKeepTheirPlace(e, s, s');
  }

  lemma CrashPreservesInv(e: Env, s: State, s': State, p: nat)
    requires Inv(e, s) && NextCrash(s, s', p)
    ensures Inv(e, s')
  {
    OthersKeepTheirPlace(e, s, s');
  }

  /** Opening and closing the session, and giving up. */
  lemma SessionPreservesInv(e: Env, s: State, s': State, step: Step)
    requires Inv(e, s) && Next(e, s, s', step)
    requires step.OpenSession? || step.CloseSession? || step.GiveUp?
    ensures Inv(e, s')
  {
    OthersKeepTheirPlace(e, s, s');
  }

  lemma NextPreservesInv(e: Env, s: State, s': State, step: Step)
    requires Sound(e.w) && Inv(e, s) && Next(e, s, s', step)
    ensures Inv(e, s')
  {
    hide NextWrite, NextCheck, NextValidate, NextRescan, NextPrepareAppend, NextLock, NextCrash, Inv;
    match step {
      case Write(t, reached, synced) => WritePreservesInv(e, s, s', t, reached, synced);
      case CheckClaimable(t, evidence) => CheckPreservesInv(e, s, s', t, evidence);
      case Validate(t, accepted) => ValidatePreservesInv(e, s, s', t, accepted);
      case Rescan(t) => RescanPreservesInv(e, s, s', t);
      case PrepareAppend(t) => PreparePreservesInv(e, s, s', t);
      case Lock(t, op) => LockPreservesInv(e, s, s', t, op);
      case Crash(p) => CrashPreservesInv(e, s, s', p);
      case _ => SessionPreservesInv(e, s, s', step);
    }
  }

  // ---- whole runs ----

  datatype Run = Run(states: seq<State>, steps: seq<Step>)

  ghost predicate IsRun(e: Env, run: Run) {
    |run.states| == |run.steps| + 1 && Init(run.states[0])
    && forall i :: 0 <= i < |run.steps| ==> Next(e, run.states[i], run.states[i + 1], run.steps[i])
  }

  lemma RunSteps(e: Env, run: Run)
    requires IsRun(e, run)
    ensures |run.states| == |run.steps| + 1
    ensures forall i :: 0 <= i < |run.steps| ==> Next(e, run.states[i], run.states[i + 1], run.steps[i])
  {
  }

  lemma {:induction false} RunKeepsInv(e: Env, run: Run, n: nat)
    requires Sound(e.w) && IsRun(e, run) && n < |run.states|
    ensures Inv(e, run.states[n])
  {
    if n == 0 {
      InitInv(e, run.states[0]);
    } else {
      RunKeepsInv(e, run, n - 1);
      NextPreservesInv(e, run.states[n - 1], run.states[n], run.steps[n - 1]);
    }
  }

  /** At most once: along any run no two successful claims took the same Commit frame; each stands
      directly after its Commit with the same epoch and payload; a Recovery claim had the source dead or
      replaced, and a Successor claim was made by the committing process instance. */
  lemma AtMostOneClaim(e: Env, run: Run, n: nat)
    requires Sound(e.w) && IsRun(e, run) && n < |run.states|
    ensures var s := run.states[n];
            && (forall i, j :: 0 <= i < j < |s.claims| ==> s.claims[i].index != s.claims[j].index)
            && (forall i :: 0 <= i < |s.claims| ==> ClaimStands(e, s.log, s.claims[i]))
  {
    RunKeepsInv(e, run, n);
  }

  /** No crash, repair or race ever removes a complete frame: the log only grows. */
  lemma {:induction false} CompleteFramesSurvive(e: Env, run: Run, m: nat, n: nat)
    requires IsRun(e, run) && m <= n < |run.states|
    ensures run.states[m].log <= run.states[n].log
    decreases n - m
  {
    hide *;
    RunSteps(e, run);
    if m < n {
      CompleteFramesSurvive(e, run, m, n - 1);
      LogGrows(e, run.states[n - 1], run.states[n], run.steps[n - 1]);
    }
  }

  lemma LogGrows(e: Env, s: State, s': State, step: Step)
    requires Next(e, s, s', step)
    ensures s.log <= s'.log
  {
  }

  /** And whatever a scan answers along a run is the newest record ever completed. */
  lemma ScanSeesNewest(e: Env, run: Run, n: nat)
    requires Sound(e.w) && IsRun(e, run) && n < |run.states|
    requires ScanFile(e.w, e.hash, run.states[n].content).Ok?
    ensures ScanFile(e.w, e.hash, run.states[n].content).value.last == LastOf(run.states[n].log)
  {
    RunKeepsInv(e, run, n);
    ScanOfHolding(e.w, e.hash, run.states[n].content, run.states[n].log);
  }

  /** A rejected validation leaves the Commit newest, for a later attempt. */
  lemma RejectedValidationKeepsCommit(e: Env, s: State, s': State, t: Thread)
    requires Sound(e.w) && Inv(e, s) && NextValidate(e, s, s', t, false)
    ensures s'.content == s.content && s'.claims == s.claims
    ensures LastOf(s'.log) == Some(s.pcs[t].commit) && s.pcs[t].commit.state == Commit
  {
    assert PcFits(e, s, t);
  }

  /** A claimed Commit cannot be claimed again: with its Claim newest, the check sends every later
      claimant away. */
  lemma ClaimedIsNotClaimable(e: Env, s: State, s': State, t: Thread, evidence: Liveness)
    requires Sound(e.w) && Inv(e, s) && NextCheck(e, s, s', t, evidence)
    requires |s.claims| > 0 && s.claims[|s.claims| - 1].index + 2 == |s.log|
    ensures t !in s'.pcs
  {
    var c := s.claims[|s.claims| - 1];
    assert ClaimStands(e, s.log, c);
    assert LastOf(s.log) == Some(ClaimRecord(c.commit, c.claimer));
    if ScanFile(e.w, e.hash, s.content).Ok? { ScanOfHolding(e.w, e.hash, s.content, s.log); }
    assert s' == Release(s, t);
  }

  lemma NewClaimsTakeTheNewest(e: Env, s: State, s': State, step: Step)
    requires Next(e, s, s', step)
    ensures s.claims <= s'.claims
    ensures forall i :: |s.claims| <= i < |s'.claims| ==> s'.claims[i].index == |s.log| - 1
  {
  }

  /** Once anything is written behind a Commit, be it the frame of a claim that was reported as failed, no
      later claimant gets that Commit: every claim of it along the run was made before. */
  lemma {:induction false} SupersededIsNeverClaimed(e: Env, run: Run, m: nat, n: nat, i: nat)
    requires IsRun(e, run) && m <= n < |run.states| && i + 1 < |run.states[m].log|
    ensures run.states[m].claims <= run.states[n].claims
    ensures forall k :: |run.states[m].claims| <= k < |run.states[n].claims| ==> run.states[n].claims[k].index != i
    decreases n - m
  {
    hide *;
    RunSteps(e, run);
    if m < n {
      SupersededIsNeverClaimed(e, run, m, n - 1, i);
      CompleteFramesSurvive(e, run, m, n - 1);
      NewClaimsTakeTheNewest(e, run.states[n - 1], run.states[n], run.steps[n - 1]);
      var before, after := run.states[n - 1].claims, run.states[n].claims;
      forall k | |run.states[m].claims| <= k < |after|
        ensures after[k].index != i
      {
        if k < |before| { assert after[k] == before[k]; }
      }
    }
  }
}
