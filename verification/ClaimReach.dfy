/** The other half of the protocol: a claim that has grounds can be made. */
module ClaimReach {
  import opened Bytes
  import opened StoredPayload
  import opened Frame
  import opened Scan
  import opened CrashSafety
  import opened HandoffJournal
  import opened ClaimProtocol

  /** The grounds of a claim, as the operating system gives them. */
  predicate HasGrounds(claimant: Claimant, source: Lease, evidence: Liveness, claimer: Option<Lease>) {
    match claimant
    case Recovery => evidence.Dead? || evidence.Replaced?
    case Successor => claimer.Some? && claimer.value.pid == source.pid && claimer.value.created == source.created
  }

  /** A file within the limits. */
  ghost predicate WithinLimits(s: State) {
    |s.log| <= 1024 && (s.content.Some? ==> |s.content.value| <= 4194304)
  }

  lemma ScanOfState(e: Env, s: State)
    requires Sound(e.w) && Inv(e, s) && WithinLimits(s)
    ensures ScanFile(e.w, e.hash, s.content).Ok? && ScanFile(e.w, e.hash, s.content).value.last == LastOf(s.log)
    ensures Repaired(s.content, ScanFile(e.w, e.hash, s.content).value) == JournalOf(e.w, e.hash, s.log)
  {
    hide PcFits, ClaimStands, JournalOf, TornTail, AllFrameable, Frameable, FrameOf, ScanFrom;
    if s.content.Some? {
      HeldParts(e.w, e.hash, s.content.value, s.log);
      var j := JournalOf(e.w, e.hash, s.log);
      assert s.content == Some(j + s.content.value[|j|..]);
      ScanOfTornJournal(e.w, e.hash, s.log, s.content.value[|j|..]);
    }
    ScanOfHolding(e.w, e.hash, s.content, s.log);
  }

  /** The check lets a claimant on exactly when the newest record is a Commit and it has grounds. */
  lemma CheckExactly(e: Env, s: State, s': State, t: Thread, evidence: Liveness)
    requires Sound(e.w) && Inv(e, s) && WithinLimits(s) && NextCheck(e, s, s', t, evidence)
    ensures t in s'.pcs <==> s.log != [] && s.log[|s.log| - 1].state == Commit
                             && HasGrounds(s.pcs[t].op.claimant, s.log[|s.log| - 1].source, evidence, e.leaseOf(t.process))
  {
    ScanOfState(e, s);
    hide Inv, ScanFile, Repaired, JournalOf, WithinLimits, SourceClaimableBy, HasGrounds;
    if s.log != [] { GroundsExactly(s.pcs[t].op.claimant, s.log[|s.log| - 1].source, evidence, e.leaseOf(t.process)); }
  }

  lemma GroundsExactly(claimant: Claimant, source: Lease, evidence: Liveness, claimer: Option<Lease>)
    ensures SourceClaimableBy(source, claimant, evidence, claimer).Ok? <==> HasGrounds(claimant, source, evidence, claimer)
  {
  }

  // ---- runs, one step longer ----

  ghost function Fresh(): State { State(None, None, map[], map[], [], []) }

  ghost function Last(run: Run): State { if run.states == [] then Fresh() else run.states[|run.states| - 1] }

  lemma OneMoreStep(e: Env, run: Run, step: Step, s: State) returns (more: Run)
    requires IsRun(e, run) && Next(e, Last(run), s, step)
    ensures IsRun(e, more) && Last(more) == s
  {
    hide Next, Init;
    more := Run(run.states + [s], run.steps + [step]);
    forall i | 0 <= i < |more.steps|
      ensures Next(e, more.states[i], more.states[i + 1], more.steps[i])
    {
      if i == |run.steps| { assert more.states[i] == Last(run); }
    }
  }

  lemma LastKeepsInv(e: Env, run: Run)
    requires Sound(e.w) && IsRun(e, run)
    ensures Inv(e, Last(run))
  {
    hide Inv, Next, Init;
    RunKeepsInv(e, run, |run.states| - 1);
  }

  // ---- one write ----

  ghost function At(s: State, t: Thread, pc: Pc): State { s.(pcs := s.pcs[t := pc]) }

  lemma RescanStep(e: Env, s: State, t: Thread, r: Record, claims: Option<(Claimant, Record, Liveness)>)
    requires t in s.pcs && s.pcs[t] == Ready(r, claims) && ScanFile(e.w, e.hash, s.content).Ok?
    ensures Next(e, s, At(s, t, Rescanned(r, claims, ScanFile(e.w, e.hash, s.content).value)), Rescan(t))
  {
    hide ScanFile;
  }

  ghost function Events(s: State, r: Record, claims: Option<(Claimant, Record, Liveness)>): seq<ClaimEvent> {
    if claims.Some? && s.log != [] then [ClaimEvent(|s.log| - 1, claims.value.1, r.source, claims.value.0, claims.value.2)] else []
  }

  /** What a completed write makes of a state. */
  ghost function Wrote(s: State, t: Thread, content: seq<byte>, r: Record, claims: Option<(Claimant, Record, Liveness)>): State {
    Release(s, t).(content := Some(content), log := s.log + [r], claims := s.claims + Events(s, r, claims))
  }

  lemma WriteStep(e: Env, s: State, t: Thread, r: Record, claims: Option<(Claimant, Record, Liveness)>, scan: JournalScan)
    requires t in s.pcs && s.pcs[t] == Rescanned(r, claims, scan) && Frameable(e.hash, r)
    ensures var f := FrameOf(e.w, e.hash, r);
            Next(e, s, Wrote(s, t, Repaired(s.content, scan) + f, r, claims), Write(t, |f|, true))
  {
    hide FrameOf, Frameable, Repaired;
    var f := FrameOf(e.w, e.hash, r);
    assert f[..|f|] == f;
    assert s.claims + [] == s.claims;
  }

  /** A thread with a frame to write can scan again and write all of it. */
  lemma WriteCanFollow(e: Env, run: Run, t: Thread, s: State, r: Record, claims: Option<(Claimant, Record, Liveness)>) returns (more: Run)
    requires Sound(e.w) && IsRun(e, run) && s == Last(run) && WithinLimits(s)
    requires t in s.pcs && s.pcs[t] == Ready(r, claims) && Frameable(e.hash, r)
    ensures IsRun(e, more) && AllFrameable(e.hash, s.log + [r])
    ensures Last(more) == Wrote(s, t, JournalOf(e.w, e.hash, s.log + [r]), r, claims)
  {
    hide *;
    LastKeepsInv(e, run);
    ScanOfState(e, s);
    InvHolds(e, s);
    JournalSnoc(e.w, e.hash, s.log, r);
    var scan, f := ScanFile(e.w, e.hash, s.content).value, FrameOf(e.w, e.hash, r);
    var s1 := At(s, t, Rescanned(r, claims, scan));
    AtIs(s, t, Rescanned(r, claims, scan));
    RescanStep(e, s, t, r, claims);
    var run1 := OneMoreStep(e, run, Rescan(t), s1);
    WriteStep(e, s1, t, r, claims, scan);
    WroteSkips(s, t, Rescanned(r, claims, scan), Repaired(s.content, scan) + f, r, claims);
    more := OneMoreStep(e, run1, Write(t, |f|, true), Wrote(s1, t, Repaired(s.content, scan) + f, r, claims));
  }

  lemma AtIs(s: State, t: Thread, pc: Pc)
    ensures At(s, t, pc).content == s.content && At(s, t, pc).log == s.log && At(s, t, pc).claims == s.claims
    ensures t in At(s, t, pc).pcs && At(s, t, pc).pcs[t] == pc
  {
  }

  lemma WroteSkips(s: State, t: Thread, pc: Pc, content: seq<byte>, r: Record, claims: Option<(Claimant, Record, Liveness)>)
    ensures Wrote(At(s, t, pc), t, content, r, claims) == Wrote(s, t, content, r, claims)
  {
    assert s.pcs[t := pc] - {t} == s.pcs - {t};
  }

  lemma InvHolds(e: Env, s: State)
    requires Inv(e, s)
    ensures AllFrameable(e.hash, s.log)
  {
    hide PcFits, ClaimStands, Frameable;
  }

  // ---- one append, one claim ----

  /** The process has the session, and nobody is in its append lock. */
  predicate Idle(s: State, t: Thread) { s.session == Some(t.process) && t.process !in s.append && t !in s.pcs }

  ghost function LockedFor(s: State, t: Thread, pc: Pc): State {
    s.(append := s.append[t.process := t], pcs := s.pcs[t := pc])
  }

  lemma LockStep(e: Env, s: State, t: Thread, op: Op)
    requires Idle(s, t)
    ensures Next(e, s, LockedFor(s, t, Locked(op)), Lock(t, op))
  {
  }

  lemma LockedIs(s: State, t: Thread, pc: Pc, next: Pc)
    ensures At(LockedFor(s, t, pc), t, next) == LockedFor(s, t, next)
    ensures var s1 := LockedFor(s, t, pc); s1.content == s.content && s1.log == s.log && s1.claims == s.claims && t in s1.pcs && s1.pcs[t] == pc
  {
    assert s.pcs[t := pc][t := next] == s.pcs[t := next];
  }

  /** The state with the session as it was and the thread gone again. */
  lemma WroteReleases(s: State, t: Thread, pc: Pc, content: seq<byte>, r: Record, claims: Option<(Claimant, Record, Liveness)>)
    requires Idle(s, t)
    ensures Wrote(LockedFor(s, t, pc), t, content, r, claims)
         == s.(content := Some(content), log := s.log + [r], claims := s.claims + Events(s, r, claims))
  {
    assert s.pcs[t := pc] - {t} == s.pcs;
    assert s.append[t.process := t] - {t.process} == s.append;
  }

  lemma PrepareStep(e: Env, s: State, t: Thread, r: Record)
    requires t in s.pcs && s.pcs[t] == Locked(DoAppend(r)) && Frameable(e.hash, r) && e.leaseOf(t.process) == Some(r.source)
    ensures Next(e, s, At(s, t, Ready(r, None)), PrepareAppend(t))
  {
    hide Frameable;
  }

  lemma AppendCanFollow(e: Env, run: Run, t: Thread, r: Record) returns (more: Run)
    requires Sound(e.w) && IsRun(e, run) && Idle(Last(run), t) && WithinLimits(Last(run))
    requires Frameable(e.hash, r) && e.leaseOf(t.process) == Some(r.source)
    ensures IsRun(e, more) && AllFrameable(e.hash, Last(run).log + [r])
    ensures var s := Last(run);
            Last(more) == s.(content := Some(JournalOf(e.w, e.hash, s.log + [r])), log := s.log + [r], claims := s.claims + Events(s, r, None))
  {
    hide *;
    var s := Last(run);
    LockStep(e, s, t, DoAppend(r));
    var run1 := OneMoreStep(e, run, Lock(t, DoAppend(r)), LockedFor(s, t, Locked(DoAppend(r))));
    LockedIs(s, t, Locked(DoAppend(r)), Ready(r, None));
    PrepareStep(e, Last(run1), t, r);
    var run2 := OneMoreStep(e, run1, PrepareAppend(t), LockedFor(s, t, Ready(r, None)));
    LockedIs(s, t, Ready(r, None), Ready(r, None));
    SameFile(s, Last(run2));
    more := WriteCanFollow(e, run2, t, Last(run2), r, None);
    WroteReleases(s, t, Ready(r, None), JournalOf(e.w, e.hash, s.log + [r]), r, None);
  }

  lemma SameFile(s: State, s': State)
    requires WithinLimits(s) && s'.content == s.content && s'.log == s.log
    ensures WithinLimits(s')
  {
  }

  lemma CheckStep(e: Env, s: State, t: Thread, claimant: Claimant, commit: Record, evidence: Liveness)
    requires t in s.pcs && s.pcs[t] == Locked(DoClaim(claimant)) && commit.state == Commit
    requires ScanFile(e.w, e.hash, s.content).Ok? && ScanFile(e.w, e.hash, s.content).value.last == Some(commit)
    requires HasGrounds(claimant, commit.source, evidence, e.leaseOf(t.process))
    ensures Next(e, s, At(s, t, Checked(claimant, commit, evidence)), CheckClaimable(t, evidence))
  {
    GroundsExactly(claimant, commit.source, evidence, e.leaseOf(t.process));
    hide ScanFile, SourceClaimableBy, HasGrounds;
  }

  lemma ValidateStep(e: Env, s: State, t: Thread, claimant: Claimant, commit: Record, evidence: Liveness, lease: Lease)
    requires t in s.pcs && s.pcs[t] == Checked(claimant, commit, evidence) && e.leaseOf(t.process) == Some(lease)
    requires Frameable(e.hash, Record(commit.epoch, Claim, commit.payload, lease))
    ensures Next(e, s, At(s, t, Ready(Record(commit.epoch, Claim, commit.payload, lease), Some((claimant, commit, evidence)))), Validate(t, true))
  {
    hide Frameable;
  }

  /** From any state a run reaches, whoever has the session and grounds for the newest Commit can claim it:
      lock, check, validate, scan and write. */
  lemma ClaimCanFollow(e: Env, run: Run, t: Thread, claimant: Claimant, evidence: Liveness, commit: Record, lease: Lease) returns (more: Run)
    requires Sound(e.w) && IsRun(e, run) && Idle(Last(run), t) && WithinLimits(Last(run))
    requires LastOf(Last(run).log) == Some(commit) && commit.state == Commit && e.leaseOf(t.process) == Some(lease)
    requires HasGrounds(claimant, commit.source, evidence, Some(lease)) && Frameable(e.hash, Record(commit.epoch, Claim, commit.payload, lease))
    ensures IsRun(e, more)
    ensures Last(more).log == Last(run).log + [Record(commit.epoch, Claim, commit.payload, lease)]
    ensures Last(more).claims == Last(run).claims + [ClaimEvent(|Last(run).log| - 1, commit, lease, claimant, evidence)]
  {
    hide *;
    var s := Last(run);
    LastKeepsInv(e, run);
    ScanOfState(e, s);
    var claim, claims := Record(commit.epoch, Claim, commit.payload, lease), Some((claimant, commit, evidence));
    var pc1, pc2, pc3 := Locked(DoClaim(claimant)), Checked(claimant, commit, evidence), Ready(claim, claims);
    LockStep(e, s, t, DoClaim(claimant));
    LockedIs(s, t, pc1, pc2);
    LockedIs(s, t, pc2, pc3);
    LockedIs(s, t, pc3, pc3);
    var run1 := OneMoreStep(e, run, Lock(t, DoClaim(claimant)), LockedFor(s, t, pc1));
    CheckStep(e, Last(run1), t, claimant, commit, evidence);
    var run2 := OneMoreStep(e, run1, CheckClaimable(t, evidence), LockedFor(s, t, pc2));
    ValidateStep(e, Last(run2), t, claimant, commit, evidence, lease);
    var run3 := OneMoreStep(e, run2, Validate(t, true), LockedFor(s, t, pc3));
    SameFile(s, Last(run3));
    more := WriteCanFollow(e, run3, t, Last(run3), claim, claims);
    WroteReleases(s, t, pc3, JournalOf(e.w, e.hash, s.log + [claim]), claim, claims);
    ClaimIsEvent(s, claim, claimant, commit, evidence);
  }

  lemma ClaimIsEvent(s: State, claim: Record, claimant: Claimant, commit: Record, evidence: Liveness)
    requires LastOf(s.log) == Some(commit)
    ensures Events(s, claim, Some((claimant, commit, evidence))) == [ClaimEvent(|s.log| - 1, commit, claim.source, claimant, evidence)]
  {
  }

  // ---- and is: a run for each claimant ----

  /** A process opens the session and commits. */
  lemma CommitRun(e: Env, t: Thread, commit: Record) returns (run: Run)
    requires Sound(e.w) && Frameable(e.hash, commit) && e.leaseOf(t.process) == Some(commit.source)
    ensures IsRun(e, run) && AllFrameable(e.hash, [commit])
    ensures Last(run) == State(Some(JournalOf(e.w, e.hash, [commit])), Some(t.process), map[], map[], [commit], [])
  {
    hide Frameable, JournalOf, AllFrameable;
    var start := Run([Fresh()], []);
    assert IsRun(e, start);
    hide IsRun;
    var r0 := OneMoreStep(e, start, OpenSession(t.process), Fresh().(session := Some(t.process)));
    run := AppendCanFollow(e, r0, t, commit);
    assert Last(r0).log + [commit] == [commit];
  }

  lemma OneFrameWithinLimits(e: Env, s: State, commit: Record)
    requires Sound(e.w) && commit.source.pid != 0 && |commit.payload| <= 16000 && s.log == [commit]
    requires AllFrameable(e.hash, [commit]) && s.content == Some(JournalOf(e.w, e.hash, [commit]))
    ensures WithinLimits(s)
  {
    SmallIsFrameable(e.w, e.hash, commit);
    assert JournalOf(e.w, e.hash, [commit]) == FrameOf(e.w, e.hash, commit) + JournalOf(e.w, e.hash, [commit][1..]);
    hide FrameOf, Frameable;
  }

  /** The image that committed is gone, and a process opens the session anew. */
  lemma Reopened(e: Env, t: Thread, commit: Record, p: nat) returns (run: Run)
    requires Sound(e.w) && commit.source.pid != 0 && |commit.payload| <= 16000 && e.leaseOf(t.process) == Some(commit.source)
    ensures IsRun(e, run) && WithinLimits(Last(run)) && Last(run).log == [commit] && Last(run).claims == []
    ensures Last(run).session == Some(p) && Last(run).append == map[] && Last(run).pcs == map[]
  {
    SmallIsFrameable(e.w, e.hash, commit);
    hide IsRun, Frameable, FrameOf, JournalOf, AllFrameable;
    var r1 := CommitRun(e, t, commit);
    OneFrameWithinLimits(e, Last(r1), commit);
    var left, taken := Last(r1).(session := None), Last(r1).(session := Some(p));
    assert left.append - {t.process} == left.append;
    var r2 := OneMoreStep(e, r1, Crash(t.process), left);
    run := OneMoreStep(e, r2, OpenSession(p), taken);
    SameFile(Last(r1), taken);
  }

  /** The process that committed comes back in a new image, with its identity, and claims its Commit. */
  lemma SuccessorClaims(e: Env, t: Thread, commit: Record, evidence: Liveness) returns (run: Run)
    requires Sound(e.w) && commit.state == Commit && commit.source.pid != 0 && |commit.payload| <= 16000
    requires e.leaseOf(t.process) == Some(commit.source)
    ensures IsRun(e, run) && Last(run).claims == [ClaimEvent(0, commit, commit.source, Successor, evidence)]
  {
    SmallIsFrameable(e.w, e.hash, Record(commit.epoch, Claim, commit.payload, commit.source));
    hide IsRun, Frameable, FrameOf, WithinLimits;
    var r1 := Reopened(e, t, commit, t.process);
    run := ClaimCanFollow(e, r1, t, Successor, evidence, commit, commit.source);
  }

  /** The process that committed dies; another finds it dead or replaced, and claims. */
  lemma RecoveryClaims(e: Env, t: Thread, u: Thread, commit: Record, evidence: Liveness, claimer: Lease) returns (run: Run)
    requires Sound(e.w) && commit.state == Commit && commit.source.pid != 0 && |commit.payload| <= 16000
    requires e.leaseOf(t.process) == Some(commit.source) && e.leaseOf(u.process) == Some(claimer) && claimer.pid != 0
    requires evidence == Dead || evidence == Replaced
    ensures IsRun(e, run) && Last(run).claims == [ClaimEvent(0, commit, claimer, Recovery, evidence)]
  {
    SmallIsFrameable(e.w, e.hash, Record(commit.epoch, Claim, commit.payload, claimer));
    hide IsRun, Frameable, FrameOf, WithinLimits;
    var r1 := Reopened(e, t, commit, u.process);
    run := ClaimCanFollow(e, r1, u, Recovery, evidence, commit, claimer);
  }
}
