/** Blob collection against concurrent saves: every interleaving of savers, a collector and the clock.

    A save touches or writes one blob at a time and then writes the session naming them. A collector
    marks one session file at a time and then unlinks one blob at a time. Each of those is one step;
    looking whether a blob is there and refreshing its age is a single step, as is checking a blob's
    age and unlinking it. */
module BlobGc {
  import opened Bytes
  import opened Attachments

  const BLOB_GRACE_SECS: nat := 60 * 60

  type Name = string
  type Actor = nat

  datatype Job =
    | Saving(id: Name, todo: seq<Name>, locked: bool, touches: map<Name, nat>)   // when each blob so far was touched
    | Marking(due: set<Name>, seen: set<Name>, keep: set<Name>, late: map<Name, nat>)
    | Sweeping(keep: set<Name>, started: nat)

  datatype State = State(
    now: nat,
    blobs: map<Name, nat>,            // name to modification time
    sessions: map<Name, set<Name>>,   // session file to the digests it names
    lock: Option<Actor>,
    jobs: map<Actor, Job>)

  datatype Step =
    | Tick(seconds: nat)
    | BeginSave(a: Actor, id: Name, digests: seq<Name>, locked: bool)
    | Touch(a: Actor, refreshed: bool)
    | WriteSession(a: Actor)
    | BeginCollect(a: Actor)
    | Mark(a: Actor, id: Name)
    | BeginSweep(a: Actor)
    | Remove(a: Actor, name: Name)
    | Leave(a: Actor)                 // a failed save, an abandoned or finished collection, a crash
    | Purge(id: Name)

  predicate NeedsLock(j: Job) { j.Marking? || j.Sweeping? || j.locked }

  predicate Enabled(s: State, step: Step) {
    match step
    case Tick(_) => true
    // A save without attachments takes no lock; one with attachments goes on without it if it must.
    case BeginSave(a, id, digests, locked) => a !in s.jobs && (locked ==> s.lock.None? && digests != [])
    case Touch(a, refreshed) => a in s.jobs && s.jobs[a].Saving? && s.jobs[a].todo != [] && (refreshed || s.jobs[a].locked)
    case WriteSession(a) => a in s.jobs && s.jobs[a].Saving? && s.jobs[a].todo == []
    case BeginCollect(a) => a !in s.jobs && s.lock.None?
    case Mark(a, id) => a in s.jobs && s.jobs[a].Marking? && id in s.sessions
    // Every session file that was there when marking began, and still is, has been read.
    case BeginSweep(a) =>
      && a in s.jobs && s.jobs[a].Marking?
      && forall id :: id in s.jobs[a].due && id in s.sessions ==> id in s.jobs[a].seen
    case Remove(a, name) => a in s.jobs && s.jobs[a].Sweeping? && name in s.blobs && name !in s.jobs[a].keep
                            && s.jobs[a].started >= s.blobs[name] + BLOB_GRACE_SECS
    case Leave(a) => a in s.jobs
    case Purge(_) => true
  }

  function Released(s: State, a: Actor): State {
    s.(lock := if s.lock == Some(a) then None else s.lock, jobs := s.jobs - {a})
  }

  /** A session file lands. A collector that is marking, and has read this file or may not list it at
      all, will not see what it now names. */
  function Landed(j: Job, id: Name, touches: map<Name, nat>): Job {
    if j.Marking? && (id in j.seen || id !in j.due) then j.(late := j.late + touches) else j
  }

  function After(s: State, step: Step): State
    requires Enabled(s, step)
  {
    match step
    case Tick(seconds) => s.(now := s.now + seconds)
    case BeginSave(a, id, digests, locked) =>
      s.(lock := if locked then Some(a) else s.lock, jobs := s.jobs[a := Saving(id, digests, locked, map[])])
    case Touch(a, refreshed) =>
      var j := s.jobs[a];
      var age := if refreshed || j.todo[0] !in s.blobs then s.now else s.blobs[j.todo[0]];
      s.(blobs := s.blobs[j.todo[0] := age],
         jobs := s.jobs[a := j.(todo := j.todo[1..], touches := j.touches[j.todo[0] := age])])
    case WriteSession(a) =>
      var j := s.jobs[a];
      var s1 := Released(s, a);
      s1.(sessions := s.sessions[j.id := j.touches.Keys],
          jobs := map b | b in s1.jobs :: Landed(s1.jobs[b], j.id, j.touches))
    case BeginCollect(a) =>
      s.(lock := Some(a), jobs := s.jobs[a := Marking(s.sessions.Keys, {}, {}, map[])])
    case Mark(a, id) =>
      var j := s.jobs[a];
      s.(jobs := s.jobs[a := j.(seen := j.seen + {id}, keep := j.keep + s.sessions[id])])
    case BeginSweep(a) => s.(jobs := s.jobs[a := Sweeping(s.jobs[a].keep, s.now)])
    case Remove(a, name) => s.(blobs := s.blobs - {name})
    case Leave(a) => Released(s, a)
    case Purge(id) => s.(sessions := s.sessions - {id})
  }

  /** No live blob is missing. */
  predicate Live(s: State) {
    forall id, d :: id in s.sessions && d in s.sessions[id] ==> d in s.blobs
  }

  /** A save under way has touched this blob and will not again. */
  predicate Settled(j: Job, d: Name) { j.Saving? && d in j.touches && d !in j.todo }

  ghost predicate Named(s: State, d: Name) { exists id :: id in s.sessions && d in s.sessions[id] }

  /** When the sweep begins, every blob that a session names, or that a save under way will name without
      touching it again, is marked or younger than the grace period. */
  ghost predicate SafeSweep(s: State, a: Actor) {
    a in s.jobs && s.jobs[a].Marking? ==>
      forall d :: d !in s.jobs[a].keep && (Named(s, d) || exists b :: b in s.jobs && Settled(s.jobs[b], d)) ==> Spared(s, d, s.now)
  }

  /** What keeps a sweep safe: when it begins, less than the grace period has gone by since any save touched
      each blob, if its session file is still to come or landed behind the marking. */
  ghost predicate Prompt(s: State, a: Actor) {
    a in s.jobs && s.jobs[a].Marking? ==>
      && (forall d :: d in s.jobs[a].late ==> s.now < s.jobs[a].late[d] + BLOB_GRACE_SECS)
      && (forall b, d :: b in s.jobs && Settled(s.jobs[b], d) ==> s.now < s.jobs[b].touches[d] + BLOB_GRACE_SECS)
  }

  // ---- the invariant ----

  predicate LockHeld(s: State) {
    && (s.lock.Some? ==> s.lock.value in s.jobs)
    && forall a :: a in s.jobs ==> (NeedsLock(s.jobs[a]) <==> s.lock == Some(a))
  }

  predicate Touched(s: State, touches: map<Name, nat>) {
    forall d :: d in touches ==> d in s.blobs && touches[d] <= s.blobs[d]
  }

  /** What a job in progress relies on. */
  ghost predicate JobFits(s: State, j: Job) {
    match j
    case Saving(_, _, _, touches) => forall d :: Settled(j, d) ==> d in s.blobs && touches[d] <= s.blobs[d]
    case Marking(due, seen, keep, late) =>
      && Touched(s, late)
      && forall id, d :: id in s.sessions && d in s.sessions[id] ==> d in keep || d in late || (id in due && id !in seen)
    case Sweeping(keep, started) =>
      && started <= s.now
      && (forall id, d :: id in s.sessions && d in s.sessions[id] ==> d in keep || Spared(s, d, started))
      && (forall b, d :: b in s.jobs && Settled(s.jobs[b], d) ==> d in keep || Spared(s, d, started))
  }

  predicate Spared(s: State, d: Name, started: nat) {
    d in s.blobs && started < s.blobs[d] + BLOB_GRACE_SECS
  }

  predicate ClockAhead(s: State) { forall d :: d in s.blobs ==> s.blobs[d] <= s.now }

  ghost predicate Inv(s: State) {
    LockHeld(s) && Live(s) && ClockAhead(s) && forall a :: a in s.jobs ==> JobFits(s, s.jobs[a])
  }

  lemma LockStaysHeld(s: State, step: Step)
    requires LockHeld(s) && Enabled(s, step)
    ensures LockHeld(After(s, step))
  {
  }

  lemma TouchKeepsInv(s: State, a: Actor, refreshed: bool)
    requires Inv(s) && Enabled(s, Touch(a, refreshed))
    ensures Inv(After(s, Touch(a, refreshed)))
  {
    var t := After(s, Touch(a, refreshed));
    LockStaysHeld(s, Touch(a, refreshed));
    var d := s.jobs[a].todo[0];
    assert JobFits(s, s.jobs[a]);
    forall b | b in t.jobs
      ensures JobFits(t, t.jobs[b])
    {
      assert JobFits(s, s.jobs[b]);
      if b != a && s.jobs[b].Sweeping? { TouchUnderSweep(s, a, b, refreshed); }
    }
  }

  /** A blob made or refreshed now is spared by any sweep, and only its own save has touched it just now. */
  lemma SweepSurvivesTouch(s: State, t: State, j: Job, a: Actor, d: Name)
    requires j.Sweeping? && JobFits(s, j)
    requires t.blobs == s.blobs[d := s.now] && t.sessions == s.sessions && t.now == s.now && t.jobs.Keys == s.jobs.Keys
    requires forall c, x :: c in t.jobs && Settled(t.jobs[c], x) ==> Settled(s.jobs[c], x) || (c == a && x == d)
    requires forall x :: x in s.blobs ==> s.blobs[x] <= s.now
    ensures JobFits(t, j)
  {
    hide Settled;
    forall x, started: nat | Spared(s, x, started) && started <= s.now
      ensures Spared(t, x, started)
    {
    }
    assert Spared(t, d, j.started);
  }

  lemma TouchSettles(s: State, a: Actor, refreshed: bool, c: Actor, x: Name)
    requires Enabled(s, Touch(a, refreshed)) && c in After(s, Touch(a, refreshed)).jobs
             && Settled(After(s, Touch(a, refreshed)).jobs[c], x)
    ensures c in s.jobs && (Settled(s.jobs[c], x) || (c == a && x == s.jobs[a].todo[0]))
  {
  }

  /** A sweep under way means the toucher has no lock, so the touch is a fresh one. */
  lemma TouchUnderSweep(s: State, a: Actor, b: Actor, refreshed: bool)
    requires Inv(s) && Enabled(s, Touch(a, refreshed)) && b in s.jobs && s.jobs[b].Sweeping?
    ensures JobFits(After(s, Touch(a, refreshed)), s.jobs[b])
  {
    hide Live, JobFits, Settled;
    assert refreshed;
    var t := After(s, Touch(a, refreshed));
    forall c, x | c in t.jobs && Settled(t.jobs[c], x)
      ensures Settled(s.jobs[c], x) || (c == a && x == s.jobs[a].todo[0])
    {
      TouchSettles(s, a, refreshed, c, x);
    }
    SweepSurvivesTouch(s, t, s.jobs[b], a, s.jobs[a].todo[0]);
  }

  /** The new session file names only what its save has touched, so a job that knew of those touches
      knows of the file. */
  lemma JobSeesFile(s: State, t: State, j: Job, id: Name, touches: map<Name, nat>)
    requires JobFits(s, j) && Touched(s, touches)
    requires j.Sweeping? ==> forall d :: d in touches ==> d in j.keep || Spared(s, d, j.started)
    requires t.blobs == s.blobs && t.now == s.now && t.sessions == s.sessions[id := touches.Keys]
    requires j.Sweeping? ==> forall c :: c in t.jobs && t.jobs[c].Saving? ==> c in s.jobs && t.jobs[c] == s.jobs[c]
    ensures JobFits(t, Landed(j, id, touches))
  {
    assert Touched(t, touches);
  }

  lemma JobSeesWrite(s: State, a: Actor, b: Actor)
    requires Inv(s) && Enabled(s, WriteSession(a)) && b in s.jobs && b != a
    ensures b in After(s, WriteSession(a)).jobs
    ensures JobFits(After(s, WriteSession(a)), After(s, WriteSession(a)).jobs[b])
  {
    var t := After(s, WriteSession(a));
    var i, j := s.jobs[a], s.jobs[b];
    assert JobFits(s, i) && JobFits(s, j);
    JobSeesFile(s, t, j, i.id, i.touches);
  }

  lemma WriteKeepsInv(s: State, a: Actor)
    requires Inv(s) && Enabled(s, WriteSession(a))
    ensures Inv(After(s, WriteSession(a)))
  {
    var t := After(s, WriteSession(a));
    LockStaysHeld(s, WriteSession(a));
    assert JobFits(s, s.jobs[a]);
    assert Live(t) && ClockAhead(t);
    assert t.jobs.Keys == s.jobs.Keys - {a};
    hide JobFits, After;
    forall b | b in t.jobs
      ensures JobFits(t, t.jobs[b])
    {
      JobSeesWrite(s, a, b);
    }
  }

  lemma SweepKeepsInv(s: State, a: Actor)
    requires Inv(s) && Enabled(s, BeginSweep(a)) && SafeSweep(s, a)
    ensures Inv(After(s, BeginSweep(a)))
  {
    var t := After(s, BeginSweep(a));
    forall b | b in t.jobs
      ensures JobFits(t, t.jobs[b])
    {
      assert JobFits(s, s.jobs[b]) && JobFits(s, s.jobs[a]);
      if b == a {
        forall id, d | id in t.sessions && d in t.sessions[id] && d !in s.jobs[a].keep
          ensures Spared(t, d, t.now)
        {
          assert Named(s, d);
        }
        forall c, d | c in t.jobs && Settled(t.jobs[c], d) && d !in s.jobs[a].keep
          ensures Spared(t, d, t.now)
        {
          assert c != a && Settled(s.jobs[c], d);
        }
      }
    }
  }

  /** A prompt sweep is safe: what the marking did not see landed lately. */
  lemma PromptIsSafe(s: State, a: Actor)
    requires Inv(s) && Enabled(s, BeginSweep(a)) && Prompt(s, a)
    ensures SafeSweep(s, a)
  {
    hide LockHeld, ClockAhead;
    assert JobFits(s, s.jobs[a]);
    forall d | d !in s.jobs[a].keep && (Named(s, d) || exists b :: b in s.jobs && Settled(s.jobs[b], d))
      ensures Spared(s, d, s.now)
    {
      if Named(s, d) {
        var id :| id in s.sessions && d in s.sessions[id];
        assert d in s.jobs[a].late;
      } else {
        var b :| b in s.jobs && Settled(s.jobs[b], d);
        assert JobFits(s, s.jobs[b]);
      }
    }
  }

  lemma RemoveKeepsInv(s: State, a: Actor, name: Name)
    requires Inv(s) && Enabled(s, Remove(a, name))
    ensures Inv(After(s, Remove(a, name)))
  {
    var t := After(s, Remove(a, name));
    forall b | b in t.jobs
      ensures JobFits(t, t.jobs[b])
    {
      assert JobFits(s, s.jobs[b]) && JobFits(s, s.jobs[a]);
    }
    assert JobFits(s, s.jobs[a]);
  }

  lemma CollectKeepsInv(s: State, step: Step)
    requires Inv(s) && Enabled(s, step) && (step.BeginCollect? || step.Mark?)
    ensures Inv(After(s, step))
  {
    var t := After(s, step);
    LockStaysHeld(s, step);
    hide LockHeld;
    forall b | b in t.jobs
      ensures JobFits(t, t.jobs[b])
    {
      if b in s.jobs { assert JobFits(s, s.jobs[b]); }
    }
  }

  lemma JobUnmoved(s: State, t: State, j: Job)
    requires JobFits(s, j) && t.blobs == s.blobs && t.sessions == s.sessions && t.now == s.now
    requires forall c :: c in t.jobs && t.jobs[c].Saving? ==> t.jobs[c].touches == map[] || (c in s.jobs && t.jobs[c] == s.jobs[c])
    ensures JobFits(t, j)
  {
  }

  lemma ComingAndGoingKeepsInv(s: State, step: Step)
    requires Inv(s) && Enabled(s, step) && (step.BeginSave? || step.Leave?)
    ensures Inv(After(s, step))
  {
    var t := After(s, step);
    LockStaysHeld(s, step);
    hide LockHeld;
    forall b | b in t.jobs
      ensures JobFits(t, t.jobs[b])
    {
      if step.Leave? || b != step.a {
        assert t.jobs[b] == s.jobs[b];
        JobUnmoved(s, t, s.jobs[b]);
      }
    }
  }

  lemma OutsideStepKeepsInv(s: State, step: Step)
    requires Inv(s) && Enabled(s, step)
    requires step.Tick? || step.Purge?
    ensures Inv(After(s, step))
  {
    var t := After(s, step);
    LockStaysHeld(s, step);
    hide LockHeld;
    assert Live(t) && ClockAhead(t);
    hide Live, ClockAhead;
    forall b | b in t.jobs
      ensures JobFits(t, t.jobs[b])
    {
      if b in s.jobs { assert JobFits(s, s.jobs[b]); }
    }
  }

  ghost predicate Safe(s: State, step: Step) { step.BeginSweep? ==> SafeSweep(s, step.a) }

  lemma SafeStep(s: State, step: Step)
    requires step.BeginSweep? && Safe(s, step)
    ensures SafeSweep(s, step.a)
  {
  }

  lemma StepKeepsInv(s: State, step: Step)
    requires Inv(s) && Enabled(s, step) && Safe(s, step)
    ensures Inv(After(s, step))
  {
    hide *;
    if step.BeginSweep? { SafeStep(s, step); }
    match step {
      case Touch(a, refreshed) => TouchKeepsInv(s, a, refreshed);
      case WriteSession(a) => WriteKeepsInv(s, a);
      case BeginSweep(a) => SweepKeepsInv(s, a);
      case Remove(a, name) => RemoveKeepsInv(s, a, name);
      case Tick(_) => OutsideStepKeepsInv(s, step);
      case Purge(_) => OutsideStepKeepsInv(s, step);
      case BeginCollect(_) => CollectKeepsInv(s, step);
      case Mark(_, _) => CollectKeepsInv(s, step);
      case _ => ComingAndGoingKeepsInv(s, step);
    }
  }

  // ---- the sweep itself ----

  /** `sweep_blobs` unlinks only what has a blob's name, is not kept, and is not recent. An age that
      cannot be read does not make a blob recent. */
  predicate Victim(name: Name, modified: Option<nat>, keep: set<Name>, now: nat) {
    IsBlobName(name) && name !in keep && (modified.None? || now >= modified.value + BLOB_GRACE_SECS)
  }

  lemma VictimIs(name: Name, modified: Option<nat>, keep: set<Name>, now: nat)
    ensures Victim(name, modified, keep, now)
            <==> name !in keep && |name| == 64 && (forall i :: 0 <= i < 64 ==> name[i] in "0123456789abcdef")
                 && (modified.None? || now - modified.value >= 3600)
  {
    assert forall c: char :: c in "0123456789abcdef" <==> '0' <= c <= '9' || 'a' <= c <= 'f';
  }

  class BlobDir {
    var files: map<Name, Option<nat>>

    constructor (files: map<Name, Option<nat>>) ensures this.files == files { this.files := files; }

    /** `sweep_blobs`, with the unlinks that fail given. */
    method SweepBlobs(keep: set<Name>, now: nat, stuck: Name -> bool)
      modifies this
      ensures files == map n | n in old(files) && (!Victim(n, old(files)[n], keep, now) || stuck(n)) :: old(files)[n]
      ensures forall n :: n in old(files) ==>
                (n !in files <==>
                  && !stuck(n) && n !in keep
                  && |n| == 64 && (forall i :: 0 <= i < 64 ==> n[i] in "0123456789abcdef")
                  && (old(files)[n].None? || now - old(files)[n].value >= 3600))
    {
      hide IsBlobName;
      ghost var was := files;
      var entries := files.Keys;
      while entries != {}
        invariant entries <= old(files).Keys
        invariant files == map n | n in old(files) && (n in entries || !Victim(n, old(files)[n], keep, now) || stuck(n)) :: old(files)[n]
        decreases |entries|
      {
        var name :| name in entries;
        entries := entries - {name};
        if IsBlobName(name) && name !in keep {
          var recent := files[name].Some? && (if now < files[name].value then 0 else now - files[name].value) < BLOB_GRACE_SECS;
          if !recent && !stuck(name) { files := files - {name}; }
        }
      }
      hide Victim;
      forall n | n in was {
        VictimIs(n, was[n], keep, now);
      }
    }
  }

  /** The sweep of the state machine unlinks exactly those. */
  lemma SweptAreVictims(s: State, a: Actor, name: Name)
    requires a in s.jobs && s.jobs[a].Sweeping? && IsBlobName(name)
    ensures Enabled(s, Remove(a, name))
       <==> name in s.blobs && Victim(name, Some(s.blobs[name]), s.jobs[a].keep, s.jobs[a].started)
  {
  }

  // ---- whole runs ----

  function Start(): State { State(0, map[], map[], None, map[]) }

  /** The steps can be taken one after another. */
  predicate Runs(s: State, steps: seq<Step>)
    decreases |steps|
  {
    steps == [] || (Enabled(s, steps[0]) && Runs(After(s, steps[0]), steps[1..]))
  }

  function Reached(s: State, steps: seq<Step>): State
    requires Runs(s, steps)
    decreases |steps|
  {
    if steps == [] then s else Reached(After(s, steps[0]), steps[1..])
  }

  lemma {:induction false} Extend(s: State, steps: seq<Step>, step: Step)
    requires Runs(s, steps) && Enabled(Reached(s, steps), step)
    ensures Runs(s, steps + [step]) && Reached(s, steps + [step]) == After(Reached(s, steps), step)
    decreases |steps|
  {
    if steps != [] {
      hide Enabled, After;
      Extend(After(s, steps[0]), steps[1..], step);
      assert (steps + [step])[1..] == steps[1..] + [step];
    } else {
      assert [step][1..] == [];
    }
  }

  /** Every sweep of the run is safe when it begins. */
  ghost predicate SafeRun(s: State, steps: seq<Step>)
    requires Runs(s, steps)
    decreases |steps|
  {
    steps == [] || (Safe(s, steps[0]) && SafeRun(After(s, steps[0]), steps[1..]))
  }

  /** Then no live blob is collected. */
  lemma {:induction false} SafeRunKeepsBlobs(s: State, steps: seq<Step>)
    requires Inv(s) && Runs(s, steps) && SafeRun(s, steps)
    ensures Inv(Reached(s, steps)) && Live(Reached(s, steps))
    decreases |steps|
  {
    hide Enabled, After, Safe, LockHeld, Live, ClockAhead, JobFits;
    if steps != [] {
      StepKeepsInv(s, steps[0]);
      SafeRunKeepsBlobs(After(s, steps[0]), steps[1..]);
    }
  }

  ghost predicate PromptRun(s: State, steps: seq<Step>)
    requires Runs(s, steps)
    decreases |steps|
  {
    steps == [] || ((steps[0].BeginSweep? ==> Prompt(s, steps[0].a)) && PromptRun(After(s, steps[0]), steps[1..]))
  }

  lemma {:induction false} PromptRunIsSafe(s: State, steps: seq<Step>)
    requires Inv(s) && Runs(s, steps) && PromptRun(s, steps)
    ensures SafeRun(s, steps)
    decreases |steps|
  {
    hide Enabled, After, Prompt, SafeSweep, Inv;
    if steps != [] {
      if steps[0].BeginSweep? { PromptIsSafe(s, steps[0].a); }
      StepKeepsInv(s, steps[0]);
      PromptRunIsSafe(After(s, steps[0]), steps[1..]);
    }
  }

  /** Whenever the unlocked saves of a run keep within the grace period, no live blob is collected. */
  lemma PromptRunKeepsBlobs(steps: seq<Step>)
    requires Runs(Start(), steps) && PromptRun(Start(), steps)
    ensures Inv(Reached(Start(), steps)) && Live(Reached(Start(), steps))
  {
    assert Inv(Start());
    hide *;
    PromptRunIsSafe(Start(), steps);
    SafeRunKeepsBlobs(Start(), steps);
  }

  /** Every save with attachments has the lock. */
  predicate LockedRun(steps: seq<Step>) {
    forall k :: 0 <= k < |steps| && steps[k].BeginSave? ==> steps[k].locked || steps[k].digests == []
  }

  predicate NoLateBlobs(s: State) {
    && LockHeld(s)
    && forall a :: a in s.jobs ==>
                     && (s.jobs[a].Saving? && !s.jobs[a].locked ==> s.jobs[a].todo == [] && s.jobs[a].touches == map[])
                     && (s.jobs[a].Marking? ==> s.jobs[a].late == map[])
  }

  lemma LockedStep(s: State, step: Step)
    requires NoLateBlobs(s) && Enabled(s, step)
    requires step.BeginSave? ==> step.locked || step.digests == []
    ensures NoLateBlobs(After(s, step)) && (step.BeginSweep? ==> Prompt(s, step.a))
  {
    LockStaysHeld(s, step);
  }

  lemma {:induction false} LockedRunIsPrompt(s: State, steps: seq<Step>)
    requires NoLateBlobs(s) && Runs(s, steps) && LockedRun(steps)
    ensures PromptRun(s, steps)
    decreases |steps|
  {
    hide Enabled, After, Prompt, NoLateBlobs;
    if steps != [] {
      LockedStep(s, steps[0]);
      LockedRunIsPrompt(After(s, steps[0]), steps[1..]);
    }
  }

  /** With the lock no timing matters at all: however slow a save is, no live blob is collected. */
  lemma LockedRunKeepsBlobs(steps: seq<Step>)
    requires Runs(Start(), steps) && LockedRun(steps)
    ensures Live(Reached(Start(), steps))
  {
    assert NoLateBlobs(Start());
    hide *;
    LockedRunIsPrompt(Start(), steps);
    PromptRunKeepsBlobs(steps);
  }

  // ---- exactly when a sweep is safe ----

  /** Whatever happens next, no live blob is collected while later sweeps are safe. */
  ghost predicate StaysLive(s: State) {
    forall steps :: Runs(s, steps) && SafeRun(s, steps) ==> Live(Reached(s, steps))
  }

  /** A save that is left to finish names what it has touched, there or not. */
  lemma {:induction false} SaveFinishes(s: State, b: Actor, d: Name) returns (steps: seq<Step>)
    requires b in s.jobs && Settled(s.jobs[b], d) && d !in s.blobs
    ensures Runs(s, steps) && SafeRun(s, steps) && !Live(Reached(s, steps))
    decreases if b in s.jobs && s.jobs[b].Saving? then |s.jobs[b].todo| else 0
  {
    hide Live;
    if s.jobs[b].todo == [] {
      steps := [WriteSession(b)];
      var t := After(s, steps[0]);
      assert steps[1..] == [] && Runs(t, []);
      NamedMissing(t, s.jobs[b].id, d);
    } else {
      var t := After(s, Touch(b, true));
      var rest := SaveFinishes(t, b, d);
      steps := [Touch(b, true)] + rest;
      assert steps[1..] == rest;
    }
  }

  lemma NamedMissing(s: State, id: Name, d: Name)
    requires id in s.sessions && d in s.sessions[id] && d !in s.blobs
    ensures !Live(s)
  {
  }

  lemma RemoveOf(s: State, a: Actor, d: Name)
    requires Enabled(s, BeginSweep(a)) && d in s.blobs && d !in s.jobs[a].keep && !Spared(s, d, s.now)
    ensures var t := After(s, BeginSweep(a));
            && Enabled(t, Remove(a, d)) && d !in After(t, Remove(a, d)).blobs && After(t, Remove(a, d)).sessions == s.sessions
            && forall b :: b in s.jobs && b != a ==> b in After(t, Remove(a, d)).jobs && After(t, Remove(a, d)).jobs[b] == s.jobs[b]
  {
  }

  lemma InvKeepsSettled(s: State, b: Actor, d: Name)
    requires Inv(s) && b in s.jobs && Settled(s.jobs[b], d)
    ensures d in s.blobs
  {
    assert JobFits(s, s.jobs[b]);
  }

  /** An unsafe sweep unlinks a blob that a session names, or that a save under way goes on to name. */
  lemma UnsafeSweepLoses(s: State, a: Actor) returns (steps: seq<Step>)
    requires Inv(s) && Enabled(s, BeginSweep(a)) && !SafeSweep(s, a)
    ensures var t := After(s, BeginSweep(a)); Runs(t, steps) && SafeRun(t, steps) && !Live(Reached(t, steps))
  {
    hide Enabled, After, Live, Spared, JobFits, LockHeld, ClockAhead, Settled;
    var d :| d !in s.jobs[a].keep && (Named(s, d) || exists b :: b in s.jobs && Settled(s.jobs[b], d)) && !Spared(s, d, s.now);
    var rest: seq<Step>;
    if Named(s, d) {
      var id :| id in s.sessions && d in s.sessions[id];
      LiveHas(s, id, d);
      RemoveOf(s, a, d);
      NamedMissing(After(After(s, BeginSweep(a)), Remove(a, d)), id, d);
      rest := [];
    } else {
      var b :| b in s.jobs && Settled(s.jobs[b], d);
      InvKeepsSettled(s, b, d);
      RemoveOf(s, a, d);
      SettledSaves(s.jobs[b], d);
      SweepMarks(s, a);
      rest := SaveFinishes(After(After(s, BeginSweep(a)), Remove(a, d)), b, d);
    }
    steps := [Remove(a, d)] + rest;
    assert steps[1..] == rest;
  }

  lemma LiveHas(s: State, id: Name, d: Name)
    requires Live(s) && id in s.sessions && d in s.sessions[id]
    ensures d in s.blobs
  {
  }

  lemma SettledSaves(j: Job, d: Name)
    requires Settled(j, d)
    ensures j.Saving?
  {
  }

  lemma SweepMarks(s: State, a: Actor)
    requires Enabled(s, BeginSweep(a))
    ensures a in s.jobs && s.jobs[a].Marking?
  {
  }

  /** A sweep is safe exactly when nothing that can happen afterwards loses a live blob. */
  lemma SweepIsSafeExactly(s: State, a: Actor)
    requires Inv(s) && Enabled(s, BeginSweep(a))
    ensures SafeSweep(s, a) <==> StaysLive(After(s, BeginSweep(a)))
  {
    hide Inv, Runs, Reached, SafeRun, Live, SafeSweep, Enabled, After;
    if SafeSweep(s, a) {
      SweepKeepsInv(s, a);
      forall steps | Runs(After(s, BeginSweep(a)), steps) && SafeRun(After(s, BeginSweep(a)), steps)
        ensures Live(Reached(After(s, BeginSweep(a)), steps))
      {
        SafeRunKeepsBlobs(After(s, BeginSweep(a)), steps);
      }
    } else {
      var steps := UnsafeSweepLoses(s, a);
    }
  }

  // ---- undisturbed, both run to their end ----

  lemma Prepend(s: State, step: Step, rest: seq<Step>)
    requires Enabled(s, step) && Runs(After(s, step), rest)
    ensures Runs(s, [step] + rest) && Reached(s, [step] + rest) == Reached(After(s, step), rest)
  {
    hide Enabled, After;
    assert ([step] + rest)[1..] == rest;
  }

  lemma NoSteps(s: State)
    ensures Runs(s, []) && Reached(s, []) == s
  {
  }

  /** The blobs of `after` are those of `before` and those touched at `now`. */
  ghost predicate TouchedAt(before: map<Name, nat>, after: map<Name, nat>, touched: seq<Name>, now: nat) {
    forall d :: (d in after <==> d in before || d in touched)
             && (d in touched && d in after ==> after[d] == now)
             && (d in before && d in after && d !in touched ==> after[d] == before[d])
  }

  lemma OneTouch(s: State, a: Actor)
    requires a in s.jobs && s.jobs[a].Saving? && s.jobs[a].todo != []
    ensures Enabled(s, Touch(a, true))
    ensures var j, r := s.jobs[a], After(s, Touch(a, true));
            && r.now == s.now && r.sessions == s.sessions && r.lock == s.lock && r.jobs.Keys == s.jobs.Keys
            && r.jobs[a].Saving? && r.jobs[a].todo == j.todo[1..] && r.jobs[a].id == j.id
            && r.jobs[a].touches.Keys == j.touches.Keys + {j.todo[0]}
            && r.blobs == s.blobs[j.todo[0] := s.now]
  {
  }

  /** The touches a save has still to make. */
  lemma {:induction false} TouchesRun(s: State, a: Actor) returns (steps: seq<Step>)
    requires a in s.jobs && s.jobs[a].Saving?
    ensures Runs(s, steps)
    ensures var j, r := s.jobs[a], Reached(s, steps);
            && r.sessions == s.sessions && r.lock == s.lock && r.jobs.Keys == s.jobs.Keys
            && r.jobs[a].Saving? && r.jobs[a].todo == [] && r.jobs[a].id == j.id
            && (forall d :: d in r.jobs[a].touches.Keys <==> d in j.touches.Keys || d in j.todo)
            && TouchedAt(s.blobs, r.blobs, j.todo, s.now)
    decreases |s.jobs[a].todo|
  {
    hide Runs, Reached, Enabled, After;
    var todo := s.jobs[a].todo;
    if todo == [] {
      NoSteps(s);
      steps := [];
    } else {
      OneTouch(s, a);
      var s1 := After(s, Touch(a, true));
      var rest := TouchesRun(s1, a);
      Prepend(s, Touch(a, true), rest);
      TouchedFirst(s.blobs, Reached(s1, rest).blobs, todo, s.now);
      assert forall d :: d in todo <==> d == todo[0] || d in todo[1..];
      steps := [Touch(a, true)] + rest;
    }
  }

  lemma TouchedFirst(before: map<Name, nat>, after: map<Name, nat>, todo: seq<Name>, now: nat)
    requires todo != [] && TouchedAt(before[todo[0] := now], after, todo[1..], now)
    ensures TouchedAt(before, after, todo, now)
  {
    assert forall d :: d in todo <==> d == todo[0] || d in todo[1..];
  }

  /** A save that may begin can go on to its end: the session then names its blobs, which are all there and
      new, and no other blob or session has changed. */
  lemma SaveRuns(s: State, a: Actor, id: Name, digests: seq<Name>, locked: bool) returns (steps: seq<Step>)
    requires a !in s.jobs && (locked ==> s.lock.None? && digests != [])
    ensures Runs(s, steps)
    ensures var r := Reached(s, steps);
            && id in r.sessions && (forall d :: d in r.sessions[id] <==> d in digests)
            && r.sessions - {id} == s.sessions - {id}
            && TouchedAt(s.blobs, r.blobs, digests, s.now)
            && (locked ==> r.lock == None) && r.jobs.Keys == s.jobs.Keys
  {
    var begin := BeginSave(a, id, digests, locked);
    var s1 := After(s, begin);
    hide Runs, Reached, TouchedAt;
    var rest := TouchesRun(s1, a);
    Extend(s1, rest, WriteSession(a));
    Prepend(s, begin, rest + [WriteSession(a)]);
    steps := [begin] + (rest + [WriteSession(a)]);
  }

  /** Reading the session files still to be read. */
  lemma {:induction false} MarksRun(s: State, a: Actor, todo: set<Name>) returns (steps: seq<Step>)
    requires a in s.jobs && s.jobs[a].Marking? && todo <= s.sessions.Keys
    ensures Runs(s, steps)
    ensures var j, r := s.jobs[a], Reached(s, steps);
            && r.now == s.now && r.blobs == s.blobs && r.sessions == s.sessions && r.lock == s.lock
            && r.jobs.Keys == s.jobs.Keys && r.jobs[a].Marking? && r.jobs[a].due == j.due && r.jobs[a].seen == j.seen + todo
            && forall d :: d in r.jobs[a].keep <==> d in j.keep || exists id :: id in todo && d in s.sessions[id]
    decreases |todo|
  {
    hide Runs, Reached;
    if todo == {} {
      NoSteps(s);
      steps := [];
    } else {
      var id :| id in todo;
      var rest := MarksRun(After(s, Mark(a, id)), a, todo - {id});
      Prepend(s, Mark(a, id), rest);
      steps := [Mark(a, id)] + rest;
    }
  }

  lemma {:induction false} RemovalsRun(s: State, a: Actor, victims: set<Name>) returns (steps: seq<Step>)
    requires a in s.jobs && s.jobs[a].Sweeping?
    requires forall d :: d in victims ==> d in s.blobs && d !in s.jobs[a].keep && s.jobs[a].started >= s.blobs[d] + 3600
    ensures Runs(s, steps) && Reached(s, steps) == s.(blobs := s.blobs - victims)
    decreases |victims|
  {
    hide Runs, Reached;
    if victims == {} {
      NoSteps(s);
      assert s.blobs - {} == s.blobs;
      steps := [];
    } else {
      var d :| d in victims;
      var rest := RemovalsRun(After(s, Remove(a, d)), a, victims - {d});
      Prepend(s, Remove(a, d), rest);
      assert s.blobs - {d} - (victims - {d}) == s.blobs - victims;
      steps := [Remove(a, d)] + rest;
    }
  }

  /** A collection that may begin can go on to its end, and by itself it collects exactly the garbage: the blobs
      that no session names and that are an hour old. */
  lemma CollectionRuns(s: State, a: Actor) returns (steps: seq<Step>)
    requires a !in s.jobs && s.lock.None?
    ensures Runs(s, steps)
    ensures var r := Reached(s, steps);
            && r.sessions == s.sessions && r.lock == None && r.jobs.Keys == s.jobs.Keys
            && forall d :: (d in r.blobs ==> d in s.blobs && r.blobs[d] == s.blobs[d])
                  && (d in s.blobs && d !in r.blobs
                      <==> d in s.blobs && s.now - s.blobs[d] >= 3600 && !exists id :: id in s.sessions && d in s.sessions[id])
  {
    hide Runs, Reached;
    var s1 := After(s, BeginCollect(a));
    var marks := MarksRun(s1, a, s.sessions.Keys);
    var s2 := Reached(s1, marks);
    var s3 := After(s2, BeginSweep(a));
    var victims := set d | d in s3.blobs && d !in s3.jobs[a].keep && s3.now >= s3.blobs[d] + 3600;
    var removals := RemovalsRun(s3, a, victims);
    Extend(s3, removals, Leave(a));
    Prepend(s2, BeginSweep(a), removals + [Leave(a)]);
    var tail := [BeginSweep(a)] + (removals + [Leave(a)]);
    Joined(s1, marks, tail);
    Prepend(s, BeginCollect(a), marks + tail);
    steps := [BeginCollect(a)] + (marks + tail);
  }

  lemma {:induction false} Joined(s: State, front: seq<Step>, back: seq<Step>)
    requires Runs(s, front) && Runs(Reached(s, front), back)
    ensures Runs(s, front + back) && Reached(s, front + back) == Reached(Reached(s, front), back)
    decreases |front|
  {
    hide Enabled, After;
    if front == [] {
      assert front + back == back;
    } else {
      Joined(After(s, front[0]), front[1..], back);
      assert (front + back)[1..] == front[1..] + back;
    }
  }

  // ---- the grace period ----

  const SLOW_SAVE := Saving("s", [], false, map["d" := 0])

  /** An unlocked save writes its blob and waits; a collection begins meanwhile. */
  function SlowSave(wait: nat): seq<Step> {
    [BeginSave(0, "s", ["d"], false), Touch(0, true), Tick(wait), BeginCollect(1), BeginSweep(1)]
  }

  lemma AfterTouch() returns (s2: State)
    ensures Enabled(Start(), BeginSave(0, "s", ["d"], false))
    ensures Enabled(After(Start(), BeginSave(0, "s", ["d"], false)), Touch(0, true))
    ensures s2 == After(After(Start(), BeginSave(0, "s", ["d"], false)), Touch(0, true))
    ensures s2.now == 0 && s2.blobs == map["d" := 0] && s2.sessions == map[] && s2.lock == None && s2.jobs == map[0 := SLOW_SAVE]
  {
    s2 := After(After(Start(), BeginSave(0, "s", ["d"], false)), Touch(0, true));
    assert ["d"][1..] == [];
    assert s2.jobs[0] == SLOW_SAVE;
  }

  lemma SweepBegins(s2: State, wait: nat) returns (s5: State)
    requires s2.now == 0 && s2.blobs == map["d" := 0] && s2.sessions == map[] && s2.lock == None && s2.jobs == map[0 := SLOW_SAVE]
    ensures Enabled(s2, Tick(wait))
    ensures var s3 := After(s2, Tick(wait));
            && Enabled(s3, BeginCollect(1)) && Enabled(After(s3, BeginCollect(1)), BeginSweep(1))
            && s5 == After(After(s3, BeginCollect(1)), BeginSweep(1))
    ensures s5.blobs == map["d" := 0] && s5.jobs == map[0 := SLOW_SAVE, 1 := Sweeping({}, wait)]
  {
    s5 := After(After(After(s2, Tick(wait)), BeginCollect(1)), BeginSweep(1));
  }

  lemma BlobLost(s5: State, wait: nat)
    requires s5.blobs == map["d" := 0] && s5.jobs == map[0 := SLOW_SAVE, 1 := Sweeping({}, wait)]
    ensures Enabled(s5, Remove(1, "d")) <==> wait >= BLOB_GRACE_SECS
    ensures wait >= BLOB_GRACE_SECS ==>
              && Enabled(After(s5, Remove(1, "d")), WriteSession(0))
              && !Live(After(After(s5, Remove(1, "d")), WriteSession(0)))
  {
    if wait >= BLOB_GRACE_SECS {
      var s7 := After(After(s5, Remove(1, "d")), WriteSession(0));
      assert "d" in s7.sessions["s"] && "d" !in s7.blobs;
    }
  }

  lemma RunUpToSweep(wait: nat)
    ensures Runs(Start(), SlowSave(wait))
    ensures Reached(Start(), SlowSave(wait)).blobs == map["d" := 0]
    ensures Reached(Start(), SlowSave(wait)).jobs == map[0 := SLOW_SAVE, 1 := Sweeping({}, wait)]
  {
    var s2 := AfterTouch();
    var s5 := SweepBegins(s2, wait);
    var r0: seq<Step> := [];
    assert Runs(Start(), r0) && Reached(Start(), r0) == Start();
    hide Runs, Reached, Start, After, Enabled;
    var r1, r2 := r0 + [BeginSave(0, "s", ["d"], false)], r0 + [BeginSave(0, "s", ["d"], false)] + [Touch(0, true)];
    Extend(Start(), r0, BeginSave(0, "s", ["d"], false));
    Extend(Start(), r1, Touch(0, true));
    Extend(Start(), r2, Tick(wait));
    Extend(Start(), r2 + [Tick(wait)], BeginCollect(1));
    Extend(Start(), r2 + [Tick(wait)] + [BeginCollect(1)], BeginSweep(1));
    assert SlowSave(wait) == r2 + [Tick(wait)] + [BeginCollect(1)] + [BeginSweep(1)];
  }

  /** The collection can unlink that blob exactly when the save has waited out the grace period; the session
      file that then lands names a blob that is gone. */
  lemma SlowUnlockedSaveLosesItsBlob(wait: nat)
    ensures Runs(Start(), SlowSave(wait))
    ensures Runs(Start(), SlowSave(wait) + [Remove(1, "d")]) <==> wait >= BLOB_GRACE_SECS
    ensures wait >= BLOB_GRACE_SECS ==>
              var steps := SlowSave(wait) + [Remove(1, "d")] + [WriteSession(0)];
              Runs(Start(), steps) && !Live(Reached(Start(), steps))
  {
    RunUpToSweep(wait);
    hide Runs, Reached, After, Live, Enabled, Start, SlowSave;
    BlobLost(Reached(Start(), SlowSave(wait)), wait);
    if wait >= BLOB_GRACE_SECS {
      Extend(Start(), SlowSave(wait), Remove(1, "d"));
      Extend(Start(), SlowSave(wait) + [Remove(1, "d")], WriteSession(0));
    } else if Runs(Start(), SlowSave(wait) + [Remove(1, "d")]) {
      LastEnabled(Start(), SlowSave(wait), Remove(1, "d"));
    }
  }

  lemma {:induction false} LastEnabled(s: State, steps: seq<Step>, step: Step)
    requires Runs(s, steps) && Runs(s, steps + [step])
    ensures Enabled(Reached(s, steps), step)
    decreases |steps|
  {
    if steps != [] {
      hide Enabled, After;
      assert (steps + [step])[1..] == steps[1..] + [step];
      LastEnabled(After(s, steps[0]), steps[1..], step);
    }
  }
}
