/** How many failed proactive compactions a window allows before the context is past it. */
module RetryBound {
  import opened Bytes
  import opened Messages
  import opened Agent
  import opened History

  /** One look at a filling context, and whether the compaction it would start fails. An attempt that
      neither fails nor replaces the history leaves the failure mark alone. */
  datatype Probe = Probe(reading: u32, fails: bool)

  /** The failed attempts, at readings within the window, of a run no success resets. */
  function Failures(w: u32, reserved: u32, failedAt: Option<u32>, run: seq<Probe>): nat
    decreases |run|
  {
    if run == [] then 0
    else if Attempts(run[0].reading, Some(w), reserved, true, failedAt) && run[0].fails then
      (if run[0].reading <= w then 1 else 0) + Failures(w, reserved, Some(run[0].reading), run[1..])
    else Failures(w, reserved, failedAt, run[1..])
  }

  /** The least reading the next attempt can happen at. */
  function Floor(w: u32, reserved: u32, failedAt: Option<u32>): u32 {
    var trigger := CompactionTrigger(w, reserved);
    if failedAt.Some? then Max(trigger, SatAdd(failedAt.value, RetryGrowth(Some(w)))) else trigger
  }

  /** The room above the trigger. */
  function Headroom(w: u32, reserved: u32): u32 { Min(reserved, w / 4) }

  lemma OneMoreGrowth(k: nat, g: nat)
    ensures k * g >= 0 && k * g + g == (k + 1) * g
  {
  }

  lemma MoreGrowths(j: nat, k: nat, g: nat)
    requires j <= k
    ensures j * g <= k * g
  {
    assert k * g == j * g + (k - j) * g && (k - j) * g >= 0;
  }

  lemma FloorAfterFailure(w: u32, reserved: u32, reading: u32)
    requires w < U32_MAX
    ensures Floor(w, reserved, Some(reading)) <= w ==> Floor(w, reserved, Some(reading)) >= reading + w / 16
    ensures reading > w ==> Floor(w, reserved, Some(reading)) > w
  {
  }

  /** A failure at `reading`, and `c` more above the floor it leaves. */
  lemma OneMoreFailure(w: nat, reading: nat, floor: nat, next: nat, g: nat, c: nat)
    requires floor <= reading && (c > 0 ==> (c - 1) * g <= w - next)
    requires (next <= w ==> next >= reading + g) && (reading > w ==> next > w)
    ensures var k := (if reading <= w then 1 else 0) + c; k > 0 ==> (k - 1) * g <= w - floor
  {
    if c > 0 { OneMoreGrowth(c - 1, g); }
  }

  lemma {:induction false} FailuresFitAboveFloor(w: u32, reserved: u32, failedAt: Option<u32>, run: seq<Probe>)
    requires w < U32_MAX
    ensures var k := Failures(w, reserved, failedAt, run);
            k > 0 ==> (k - 1) * (w / 16) <= w - Floor(w, reserved, failedAt)
    decreases |run|
  {
    if run != [] {
      var e := run[0];
      if Attempts(e.reading, Some(w), reserved, true, failedAt) && e.fails {
        FailuresFitAboveFloor(w, reserved, Some(e.reading), run[1..]);
        assert e.reading >= Floor(w, reserved, failedAt);
        FloorAfterFailure(w, reserved, e.reading);
        OneMoreFailure(w, e.reading, Floor(w, reserved, failedAt), Floor(w, reserved, Some(e.reading)), w / 16,
                       Failures(w, reserved, Some(e.reading), run[1..]));
      } else {
        FailuresFitAboveFloor(w, reserved, failedAt, run[1..]);
      }
    }
  }

  /** The run that fails as often as it can: at the trigger, then each time the growth is reached. */
  function Climb(w: u32, reserved: u32, k: nat): seq<Probe> {
    ClimbFrom(CompactionTrigger(w, reserved), w / 16, k)
  }

  function ClimbFrom(start: nat, g: nat, k: nat): seq<Probe>
    decreases k
  {
    if k == 0 || start > U32_MAX then [] else [Probe(start, true)] + ClimbFrom(start + g, g, k - 1)
  }

  lemma ClimbStep(w: u32, reserved: u32, failedAt: Option<u32>, start: u32, k: nat)
    requires 0 < w < U32_MAX && Floor(w, reserved, failedAt) <= start <= w && k > 0
    ensures Failures(w, reserved, failedAt, ClimbFrom(start, w / 16, k))
         == 1 + Failures(w, reserved, Some(start), ClimbFrom(start + w / 16, w / 16, k - 1))
    ensures start + w / 16 <= w ==> Floor(w, reserved, Some(start)) <= start + w / 16
  {
    assert ClimbFrom(start, w / 16, k)[1..] == ClimbFrom(start + w / 16, w / 16, k - 1);
  }

  lemma {:induction false} ClimbFails(w: u32, reserved: u32, failedAt: Option<u32>, start: nat, k: nat)
    requires 0 < w < U32_MAX && Floor(w, reserved, failedAt) <= start
    requires k > 0 ==> start + (k - 1) * (w / 16) <= w
    ensures Failures(w, reserved, failedAt, ClimbFrom(start, w / 16, k)) == k
    decreases k
  {
    if k > 0 {
      hide Floor, Failures;
      OneMoreGrowth(k - 1, w / 16);
      ClimbStep(w, reserved, failedAt, start, k);
      if k > 1 {
        OneMoreGrowth(k - 2, w / 16);
        ClimbFails(w, reserved, Some(start), start + w / 16, k - 1);
      }
    }
  }

  /** Exactly how many: a run with `k` failures within the window exists just when `k - 1` growths fit in
      the headroom above the trigger. */
  lemma FailuresPossible(w: u32, reserved: u32, k: nat)
    requires 0 < w < U32_MAX && k > 0
    ensures (exists run :: Failures(w, reserved, None, run) == k) <==> (k - 1) * (w / 16) <= Headroom(w, reserved)
  {
    if run :| Failures(w, reserved, None, run) == k {
      FailuresFitAboveFloor(w, reserved, None, run);
    }
    if (k - 1) * (w / 16) <= Headroom(w, reserved) {
      ClimbFails(w, reserved, None, CompactionTrigger(w, reserved), k);
      assert Failures(w, reserved, None, Climb(w, reserved, k)) == k;
    }
  }

  /** The documented bound, a first failure and at most four further ones whatever mark is left over, holds
      just when five growths do not fit in the headroom. */
  lemma AtMostFiveFailures(w: u32, reserved: u32)
    requires 0 < w < U32_MAX
    ensures (forall run, failedAt :: Failures(w, reserved, failedAt, run) <= 5) <==> Headroom(w, reserved) < 5 * (w / 16)
  {
    if Headroom(w, reserved) < 5 * (w / 16) {
      forall run, failedAt
        ensures Failures(w, reserved, failedAt, run) <= 5
      {
        FailuresFitAboveFloor(w, reserved, failedAt, run);
        var k := Failures(w, reserved, failedAt, run);
        hide *;
        if k > 5 { MoreGrowths(5, k - 1, w / 16); }
      }
    } else {
      FailuresPossible(w, reserved, 6);
    }
  }

  /** Any window of at least 64 tokens meets that condition, whatever the reserve. */
  lemma LargeWindowsBound(w: u32, reserved: u32, failedAt: Option<u32>, run: seq<Probe>)
    requires 64 <= w < U32_MAX
    ensures Failures(w, reserved, failedAt, run) <= 5
  {
    AtMostFiveFailures(w, reserved);
  }

  /** Below that the bound can fail: sixty tokens leave room for a sixth failure. */
  lemma SmallWindowFailsSixTimes()
    ensures exists run :: Failures(60, 15, None, run) == 6
  {
    FailuresPossible(60, 15, 6);
  }

  /** At the largest window the required growth saturates, and a reading at the limit fails every time. */
  lemma {:induction false} SaturatedWindowNeverStops(reserved: u32, failedAt: Option<u32>, k: nat)
    ensures Failures(U32_MAX, reserved, failedAt, seq(k, i => Probe(U32_MAX, true))) == k
    decreases k
  {
    if k > 0 {
      var run := seq(k, i => Probe(U32_MAX, true));
      assert run[1..] == seq(k - 1, i => Probe(U32_MAX, true));
      SaturatedWindowNeverStops(reserved, Some(U32_MAX), k - 1);
    }
  }

  // ---- the agent itself ----

  /** What a round of the turn loop leaves for the check before the next: a history, perhaps a reading,
      and how a compaction would go. */
  datatype Round = Round(messages: seq<Message>, lastPrompt: Option<u32>, outcomes: seq<Attempt>, built: Option<(seq<byte>, Option<nat>)>)

  /** The failure mark a run without a success leaves. */
  function MarkAfter(w: u32, reserved: u32, failedAt: Option<u32>, run: seq<Probe>): Option<u32>
    decreases |run|
  {
    if run == [] then failedAt
    else if Attempts(run[0].reading, Some(w), reserved, true, failedAt) && run[0].fails then
      MarkAfter(w, reserved, Some(run[0].reading), run[1..])
    else MarkAfter(w, reserved, failedAt, run[1..])
  }

  /** One look more at the end of a run. */
  lemma {:induction false} OneMoreProbe(w: u32, reserved: u32, failedAt: Option<u32>, run: seq<Probe>, p: Probe)
    ensures var mark := MarkAfter(w, reserved, failedAt, run);
            var fails := Attempts(p.reading, Some(w), reserved, true, mark) && p.fails;
            && Failures(w, reserved, failedAt, run + [p])
               == Failures(w, reserved, failedAt, run) + (if fails && p.reading <= w then 1 else 0)
            && MarkAfter(w, reserved, failedAt, run + [p]) == if fails then Some(p.reading) else mark
    decreases |run|
  {
    hide Attempts;
    if run == [] {
      assert [p][1..] == [];
    } else {
      assert (run + [p])[1..] == run[1..] + [p];
      var failed := Attempts(run[0].reading, Some(w), reserved, true, failedAt) && run[0].fails;
      OneMoreProbe(w, reserved, if failed then Some(run[0].reading) else failedAt, run[1..], p);
    }
  }

  /** How a compaction of this round would go. */
  function CourseIn(a: AgentState, w: u32, trigger: seq<byte>, round: Round): Course
    reads a`tail
  {
    a.CourseOf(round.messages, OrZero(round.lastPrompt), ContextFilling, trigger, round.outcomes, Some(w))
  }

  /** What the check finds: the effective reading, and whether a compaction would fail. */
  function ProbeOf(a: AgentState, w: u32, trigger: seq<byte>, round: Round): Probe
    reads a`tail
  {
    Probe(Max(OrZero(round.lastPrompt), SatAdd(Estimate(round.messages, a.tail.target), a.toolTokens)),
          CourseIn(a, w, trigger, round).Refused?)
  }

  /** The check of this round compacts, and replaces the history. */
  predicate Succeeds(a: AgentState, w: u32, trigger: seq<byte>, round: Round, mark: Option<u32>)
    reads a`tail, a`reserved, a`autoCompact
  {
    Attempts(ProbeOf(a, w, trigger, round).reading, Some(w), a.reserved, a.autoCompact, mark) && CourseIn(a, w, trigger, round).Replaced?
  }

  /** None of these rounds' checks succeeds. */
  ghost predicate NoneSucceeds(a: AgentState, w: u32, trigger: seq<byte>,
      rounds: seq<Round>, failedAt: Option<u32>, probes: seq<Probe>, n: nat)
    requires n <= |probes| <= |rounds|
    reads a`tail, a`reserved, a`autoCompact
  {
    forall k :: 0 <= k < n ==> !Succeeds(a, w, trigger, rounds[k], MarkAfter(w, a.reserved, failedAt, probes[..k]))
  }

  /** The last of these rounds' checks is the first that does. */
  ghost predicate Succeeded(a: AgentState, w: u32, trigger: seq<byte>, rounds: seq<Round>, failedAt: Option<u32>, probes: seq<Probe>)
    reads a`tail, a`reserved, a`autoCompact
  {
    var n := |probes| - 1;
    && 0 <= n < |rounds| && NoneSucceeds(a, w, trigger, rounds, failedAt, probes, n)
    && Succeeds(a, w, trigger, rounds[n], MarkAfter(w, a.reserved, failedAt, probes[..n]))
  }

  /** `probes` is what the checks found, one for each of these rounds. */
  ghost predicate Probed(a: AgentState, w: u32, trigger: seq<byte>, rounds: seq<Round>, probes: seq<Probe>)
    reads a`tail
  {
    |probes| <= |rounds| && forall k :: 0 <= k < |probes| ==> probes[k] == ProbeOf(a, w, trigger, rounds[k])
  }

  /** The agent's own checks, round after round up to the first compaction that succeeds: `probes` is what they
      found, and `failures` counts those that failed at readings within the window, none when automatic
      compaction is off. The mark left is the last failure's. */
  method RunRounds(a: AgentState, w: u32, trigger: seq<byte>, rounds: seq<Round>) returns (failures: nat, ghost probes: seq<Probe>)
    requires 0 < w < U32_MAX && a.contextWindow == Some(w)
    modifies a
    ensures a.reserved == old(a.reserved) && a.autoCompact == old(a.autoCompact) && a.tail == old(a.tail) && a.contextWindow == Some(w)
    ensures Probed(a, w, trigger, rounds, probes)
    ensures || Succeeded(a, w, trigger, rounds, old(a.failedAt), probes)
            || (|probes| == |rounds| && NoneSucceeds(a, w, trigger, rounds, old(a.failedAt), probes, |probes|))
    ensures failures == if a.autoCompact then Failures(w, a.reserved, old(a.failedAt), probes) else 0
    ensures NoneSucceeds(a, w, trigger, rounds, old(a.failedAt), probes, |probes|) ==>
              a.failedAt == if a.autoCompact then MarkAfter(w, a.reserved, old(a.failedAt), probes) else old(a.failedAt)
    ensures Succeeded(a, w, trigger, rounds, old(a.failedAt), probes) ==> a.failedAt == None
    ensures failures > 0 ==> (failures - 1) * (w / 16) <= Headroom(w, a.reserved)
  {
    hide *;
    failures, probes := 0, [];
    ghost var mark := a.failedAt;
    NoProbes(a, w, trigger, rounds, mark);
    var i := 0;
    while i < |rounds|
      invariant 0 <= i <= |rounds| && a.reserved == old(a.reserved) && a.autoCompact == old(a.autoCompact) && a.tail == old(a.tail)
      invariant a.contextWindow == Some(w) && |probes| == i
      invariant Probed(a, w, trigger, rounds, probes) && NoneSucceeds(a, w, trigger, rounds, mark, probes, i)
      invariant failures == if a.autoCompact then Failures(w, a.reserved, mark, probes) else 0
      invariant a.failedAt == if a.autoCompact then MarkAfter(w, a.reserved, mark, probes) else mark
    {
      a.messages, a.lastPrompt := rounds[i].messages, rounds[i].lastPrompt;
      ghost var p := ProbeOf(a, w, trigger, rounds[i]);
      CheckFinds(a, w, trigger, rounds[i], a.failedAt);
      CheckFinds(a, w, trigger, rounds[i], MarkAfter(w, a.reserved, mark, probes));
      OneMoreProbe(w, a.reserved, mark, probes, p);
      OneMoreCheck(a, w, trigger, rounds, mark, probes);
      var succeeds := Succeeds(a, w, trigger, rounds[i], a.failedAt);
      var attempted, failed, sent := a.MaybeSelfCompact(trigger, rounds[i].outcomes, rounds[i].built);
      assert (probes + [p])[..i] == probes;
      probes := probes + [p];
      if failed && a.failedAt.value <= w { failures := failures + 1; }
      if succeeds { break; }
      i := i + 1;
    }
    if i == |rounds| { NotBoth(a, w, trigger, rounds, mark, probes); }
    FailuresInHeadroom(w, a.reserved, mark, probes);
  }

  lemma NotBoth(a: AgentState, w: u32, trigger: seq<byte>, rounds: seq<Round>, failedAt: Option<u32>, probes: seq<Probe>)
    requires |probes| <= |rounds| && NoneSucceeds(a, w, trigger, rounds, failedAt, probes, |probes|)
    ensures !Succeeded(a, w, trigger, rounds, failedAt, probes)
  {
    hide Succeeds;
  }

  lemma FailuresInHeadroom(w: u32, reserved: u32, failedAt: Option<u32>, run: seq<Probe>)
    requires w < U32_MAX
    ensures Failures(w, reserved, failedAt, run) > 0 ==> (Failures(w, reserved, failedAt, run) - 1) * (w / 16) <= Headroom(w, reserved)
  {
    FailuresFitAboveFloor(w, reserved, failedAt, run);
    hide Failures;
  }

  lemma NoProbes(a: AgentState, w: u32, trigger: seq<byte>, rounds: seq<Round>, failedAt: Option<u32>)
    ensures Probed(a, w, trigger, rounds, []) && NoneSucceeds(a, w, trigger, rounds, failedAt, [], 0)
    ensures Failures(w, a.reserved, failedAt, []) == 0 && MarkAfter(w, a.reserved, failedAt, []) == failedAt
  {
  }

  /** The agent's own check of a round is that probe. */
  lemma CheckFinds(a: AgentState, w: u32, trigger: seq<byte>, round: Round, failedAt: Option<u32>)
    requires a.messages == round.messages && a.lastPrompt == round.lastPrompt && a.contextWindow == Some(w)
    ensures var p, course := ProbeOf(a, w, trigger, round), CourseIn(a, w, trigger, round);
            && a.EffectiveReading() == p.reading && a.LearnedWindow() == Some(w)
            && a.CourseOf(a.messages, OrZero(a.lastPrompt), ContextFilling, trigger, round.outcomes, a.LearnedWindow()) == course
            && (p.fails <==> course.Refused?)
            && (Attempts(p.reading, Some(w), a.reserved, a.autoCompact, failedAt) ==> a.autoCompact)
            && (Succeeds(a, w, trigger, round, failedAt)
                <==> Attempts(p.reading, Some(w), a.reserved, a.autoCompact, failedAt) && course.Replaced?)
  {
    hide Estimate;
  }

  lemma OneMoreCheck(a: AgentState, w: u32, trigger: seq<byte>, rounds: seq<Round>, failedAt: Option<u32>, probes: seq<Probe>)
    requires |probes| < |rounds| && Probed(a, w, trigger, rounds, probes)
    requires NoneSucceeds(a, w, trigger, rounds, failedAt, probes, |probes|)
    ensures var more := probes + [ProbeOf(a, w, trigger, rounds[|probes|])];
            && Probed(a, w, trigger, rounds, more) && NoneSucceeds(a, w, trigger, rounds, failedAt, more, |probes|)
            && (NoneSucceeds(a, w, trigger, rounds, failedAt, more, |more|)
                <==> !Succeeds(a, w, trigger, rounds[|probes|], MarkAfter(w, a.reserved, failedAt, probes)))
            && (Succeeded(a, w, trigger, rounds, failedAt, more)
                <==> Succeeds(a, w, trigger, rounds[|probes|], MarkAfter(w, a.reserved, failedAt, probes)))
  {
    hide ProbeOf, Succeeds, MarkAfter;
    var more := probes + [ProbeOf(a, w, trigger, rounds[|probes|])];
    assert forall k :: 0 <= k <= |probes| ==> more[..k] == probes[..k];
    assert probes[..|probes|] == probes;
  }
}
