/** Choosing which recent messages a compaction keeps verbatim. */
module TailChoice {
  import opened Bytes
  import opened Messages

  // ---- alignment ----

  /** The first message at or after `start` that is not a tool result. */
  function Aligned(msgs: seq<Message>, start: nat): (r: nat)
    requires start <= |msgs|
    ensures start <= r <= |msgs|
    ensures r == |msgs| || msgs[r].role != Tool
    ensures forall i :: start <= i < r ==> msgs[i].role == Tool
    decreases |msgs| - start
  {
    if start < |msgs| && msgs[start].role == Tool then Aligned(msgs, start + 1) else start
  }

  lemma AlignedMonotone(msgs: seq<Message>, i: nat, j: nat)
    requires i <= j <= |msgs|
    ensures Aligned(msgs, i) <= Aligned(msgs, j)
  {
  }

  /** `align_past_tool_results` */
  method AlignPastToolResults(msgs: seq<Message>, from: nat) returns (start: nat)
    requires from <= |msgs|
    ensures start == Aligned(msgs, from)
  {
    start := from;
    while start < |msgs| && msgs[start].role == Tool
      invariant start <= |msgs| && Aligned(msgs, from) == Aligned(msgs, start)
    {
      start := start + 1;
    }
  }

  // ---- the best start among some candidates ----

  /** `r` is the earliest of the ascending `candidates` whose suffix fits the budget, or the newest
      candidate when none does. */
  ghost predicate EarliestFitting(msgs: seq<Message>, candidates: seq<nat>, budget: nat, target: TokenTarget, r: nat)
    requires forall c :: c in candidates ==> c <= |msgs|
  {
    r in candidates
    && (r == candidates[|candidates| - 1] || Exact(msgs[r..], target) <= budget)
    && forall c :: c in candidates && c < r ==> Exact(msgs[c..], target) > budget
  }

  predicate Within(s: seq<nat>, n: nat) { forall k :: 0 <= k < |s| ==> s[k] <= n }

  ghost predicate Ascending(s: seq<nat>) { forall i, j :: 0 <= i < j < |s| ==> s[i] < s[j] }

  /** That pins the start down completely. */
  lemma EarliestFittingUnique(msgs: seq<Message>, candidates: seq<nat>, budget: nat, target: TokenTarget, r: nat, q: nat)
    requires forall c :: c in candidates ==> c <= |msgs|
    requires Ascending(candidates)
    requires EarliestFitting(msgs, candidates, budget, target, r) && EarliestFitting(msgs, candidates, budget, target, q)
    ensures r == q
  {
    var newest := candidates[|candidates| - 1];
    assert r <= newest && q <= newest;
  }

  // ---- whole turns ----

  /** Where the real user turns after the system prompt begin, in order. */
  function TurnStarts(msgs: seq<Message>, from: nat): (s: seq<nat>)
    requires from <= |msgs|
    ensures forall i :: 0 <= i < |s| ==> from <= s[i] < |msgs| && IsUserTurn(msgs[s[i]])
    ensures Ascending(s)
    ensures forall k :: from <= k < |msgs| && IsUserTurn(msgs[k]) ==> k in s
    decreases |msgs| - from
  {
    if from == |msgs| then []
    else if IsUserTurn(msgs[from]) then [from] + TurnStarts(msgs, from + 1)
    else TurnStarts(msgs, from + 1)
  }

  function LastN<T>(s: seq<T>, n: nat): seq<T> { if |s| <= n then s else s[|s| - n..] }

  /** The turns `compaction_tail_start` looks at: the last `tailTurns` of them. */
  function Candidates(msgs: seq<Message>, tailTurns: nat): (s: seq<nat>)
    requires |msgs| > 0
    ensures forall c :: c in s ==> 1 <= c < |msgs| && IsUserTurn(msgs[c])
    ensures Ascending(s) && Within(s, |msgs|)
    ensures tailTurns > 0 ==> (s == [] <==> TurnStarts(msgs, 1) == [])
  {
    LastN(TurnStarts(msgs, 1), tailTurns)
  }

  lemma {:induction false} AscendingSize(s: seq<nat>, all: set<nat>)
    requires Ascending(s) && forall x :: x in all <==> x in s
    ensures |all| == |s|
  {
    if s == [] {
      assert all == {};
    } else {
      var front, last := s[..|s| - 1], s[|s| - 1];
      FrontAscends(s);
      hide Ascending;
      assert s == front + [last];
      AscendingSize(front, all - {last});
    }
  }

  lemma FrontAscends(s: seq<nat>)
    requires Ascending(s) && s != []
    ensures Ascending(s[..|s| - 1]) && s[|s| - 1] !in s[..|s| - 1]
  {
  }

  /** The turns behind one are those after it in the list. */
  lemma TurnsBehind(msgs: seq<Message>, s: seq<nat>, q: nat)
    requires q < |s| && Ascending(s)
    requires forall i :: 0 <= i < |s| ==> s[i] < |msgs| && IsUserTurn(msgs[s[i]])
    requires forall k :: s[q] < k < |msgs| && IsUserTurn(msgs[k]) ==> k in s
    ensures |set k | s[q] < k < |msgs| && msgs[k].role == User && msgs[k].origin == FromUser| == |s| - 1 - q
  {
    var behind := s[q + 1..];
    forall k | s[q] < k < |msgs| && IsUserTurn(msgs[k])
      ensures k in behind
    {
      var i :| 0 <= i < |s| && s[i] == k;
      assert i > q && behind[i - q - 1] == k;
    }
    AscendingSize(behind, set k | s[q] < k < |msgs| && msgs[k].role == User && msgs[k].origin == FromUser);
  }

  /** The turns whole-turn selection may start at: messages the user sent, behind the prompt, with fewer than
      `tailTurns` such messages behind them. */
  lemma CandidatesAre(msgs: seq<Message>, tailTurns: nat, c: nat)
    requires |msgs| > 0
    ensures c in Candidates(msgs, tailTurns)
       <==> 1 <= c < |msgs| && msgs[c].role == User && msgs[c].origin == FromUser
            && |set k | c < k < |msgs| && msgs[k].role == User && msgs[k].origin == FromUser| < tailTurns
  {
    var s := TurnStarts(msgs, 1);
    if c in s {
      var q :| 0 <= q < |s| && s[q] == c;
      TurnsBehind(msgs, s, q);
      InLastN(s, tailTurns, q);
    }
  }

  lemma InLastN(s: seq<nat>, n: nat, q: nat)
    requires q < |s| && Ascending(s)
    ensures s[q] in LastN(s, n) <==> |s| - 1 - q < n
  {
    var l := LastN(s, n);
    if |s| - 1 - q < n { assert l[q - (|s| - |l|)] == s[q]; }
  }

  /** Where whole-turn selection cuts. */
  ghost predicate TurnCut(msgs: seq<Message>, tailTurns: nat, preserve: u32, target: TokenTarget, cut: nat)
    requires |msgs| > 0
  {
    if tailTurns == 0 || Candidates(msgs, tailTurns) == [] then cut == |msgs|
    else EarliestFitting(msgs, Candidates(msgs, tailTurns), preserve, target, cut)
  }

  /** What the estimates make of the suffix from `i` on: its cost, wrapped. */
  function Reading(msgs: seq<Message>, i: nat, target: TokenTarget): u32
    requires i <= |msgs|
  {
    Estimate(msgs[i..], target)
  }

  lemma WrapSum(a: nat, b: nat)
    ensures Wrap(Wrap(a) + Wrap(b)) == Wrap(a + b)
  {
    WrapAdd(a, Wrap(b));
    WrapAdd(b, a);
  }

  lemma ReadingWraps(msgs: seq<Message>, i: nat, target: TokenTarget)
    requires i <= |msgs|
    ensures Reading(msgs, i, target) == Wrap(Exact(msgs[i..], target))
    ensures i == |msgs| ==> Reading(msgs, i, target) == 0
  {
    hide Estimate, Exact, Wrap;
    EstimateWraps(msgs[i..], target);
    if i == |msgs| {
      assert msgs[i..] == [];
      EmptyEstimate(target);
    }
  }

  lemma EmptyEstimate(target: TokenTarget)
    ensures Estimate([], target) == 0
  {
  }

  /** Adding a window's estimate to the reading behind it gives the reading from its start, wrapped or not. */
  lemma ReadingGrows(msgs: seq<Message>, i: nat, j: nat, target: TokenTarget)
    requires i <= j <= |msgs|
    ensures Wrap(Reading(msgs, j, target) + Estimate(msgs[i..j], target)) == Reading(msgs, i, target)
  {
    hide *;
    ReadingWraps(msgs, i, target);
    ReadingWraps(msgs, j, target);
    EstimateWraps(msgs[i..j], target);
    ExactSplit(msgs, i, j, target);
    WrapSum(Exact(msgs[j..], target), Exact(msgs[i..j], target));
  }

  lemma ReadingIsExact(msgs: seq<Message>, i: nat, target: TokenTarget)
    requires i <= |msgs| && FitsU32(msgs, target)
    ensures Reading(msgs, i, target) as nat == Exact(msgs[i..], target)
  {
    EstimateIsExact(msgs, i, |msgs|, target);
    assert msgs[i..|msgs|] == msgs[i..];
  }

  /** Where the walk over whole turns ends: the newest always, older ones while what they read as is within
      the budget. `candidates[i..]` are taken already. */
  function TurnStop(msgs: seq<Message>, candidates: seq<nat>, i: nat, preserve: u32, target: TokenTarget): (start: nat)
    requires i <= |candidates| && Within(candidates, |msgs|)
    ensures start <= |msgs|
  {
    var start := if i == |candidates| then |msgs| else candidates[i];
    if i == 0 || (i < |candidates| && Reading(msgs, candidates[i - 1], target) > preserve) then start
    else TurnStop(msgs, candidates, i - 1, preserve, target)
  }

  function TailStart(msgs: seq<Message>, tailTurns: nat, preserve: u32, target: TokenTarget): (start: nat)
    requires |msgs| > 0
    ensures start <= |msgs|
  {
    if tailTurns == 0 then |msgs|
    else TurnStop(msgs, Candidates(msgs, tailTurns), |Candidates(msgs, tailTurns)|, preserve, target)
  }

  /** `compaction_tail_start`: newest to oldest, whole turns while the budget lasts, the newest always.
      When the estimates fit their 32 bits, the answer is the earliest candidate turn whose whole
      suffix fits. */
  method CompactionTailStart(msgs: seq<Message>, tailTurns: nat, preserve: u32, target: TokenTarget) returns (start: nat)
    requires |msgs| > 0
    ensures start == TailStart(msgs, tailTurns, preserve, target)
    ensures tailTurns == 0 ==> start == |msgs|
    ensures tailTurns > 0 && Candidates(msgs, tailTurns) == [] ==> start == |msgs|
    ensures tailTurns > 0 && Candidates(msgs, tailTurns) != [] ==> start in Candidates(msgs, tailTurns)
    ensures FitsU32(msgs, target) ==> TurnCut(msgs, tailTurns, preserve, target, start)
  {
    hide Exact, Estimate, Wrap, FitsU32, TurnStarts, LastN, Candidates, IsUserTurn, EarliestFitting, Reading;
    if tailTurns == 0 { return |msgs|; }
    var candidates := Candidates(msgs, tailTurns);
    if TurnStarts(msgs, 1) == [] { return |msgs|; }
    var newest := candidates[|candidates| - 1];
    start := |msgs|;
    var tokens: u32 := 0;
    var i := |candidates|;
    ReadingWraps(msgs, |msgs|, target);
    while i > 0
      invariant 0 <= i <= |candidates|
      invariant start == (if i == |candidates| then |msgs| else candidates[i]) && start <= |msgs|
      invariant tokens == Reading(msgs, start, target)
      invariant TailStart(msgs, tailTurns, preserve, target) == TurnStop(msgs, candidates, i, preserve, target)
    {
      var turn := candidates[i - 1];
      assert turn in candidates && (i < |candidates| ==> turn < candidates[i]);
      var turnTokens := Estimate(msgs[turn..start], target);
      ReadingGrows(msgs, turn, start, target);
      if turn != newest && Wrap(tokens + turnTokens) > preserve { break; }
      tokens := Wrap(tokens + turnTokens);
      start := turn;
      i := i - 1;
    }
    TurnStopIsBest(msgs, candidates, preserve, target);
  }

  /** Where the walk stopped: at a candidate, with everything from it on read as within the budget but
      perhaps the newest, and the next older one read as over it. */
  lemma {:induction false} TurnStopped(msgs: seq<Message>, candidates: seq<nat>, i: nat, preserve: u32, target: TokenTarget)
      returns (k: nat)
    requires i <= |candidates| && Within(candidates, |msgs|)
    ensures k <= i && TurnStop(msgs, candidates, i, preserve, target) == (if k == |candidates| then |msgs| else candidates[k])
    ensures forall q :: k <= q < i && q < |candidates| - 1 ==> Reading(msgs, candidates[q], target) <= preserve
    ensures k == 0 || (k < |candidates| && Reading(msgs, candidates[k - 1], target) > preserve)
  {
    hide Reading;
    if i == 0 || (i < |candidates| && Reading(msgs, candidates[i - 1], target) > preserve) {
      k := i;
    } else {
      k := TurnStopped(msgs, candidates, i - 1, preserve, target);
    }
  }

  lemma AscendingOrder(s: seq<nat>, i: nat, k: nat)
    requires Ascending(s) && i < |s| && k < |s| && s[k] < s[i]
    ensures k < i && s[k] <= s[i - 1]
  {
  }

  lemma OlderDoNotFit(msgs: seq<Message>, candidates: seq<nat>, k: nat, preserve: nat, target: TokenTarget)
    requires Ascending(candidates) && Within(candidates, |msgs|) && k < |candidates|
    requires k > 0 ==> Exact(msgs[candidates[k - 1]..], target) > preserve
    ensures forall c :: c in candidates && c < candidates[k] ==> c <= |msgs| && Exact(msgs[c..], target) > preserve
  {
    hide Exact;
    forall c | c in candidates && c < candidates[k]
      ensures c <= |msgs| && Exact(msgs[c..], target) > preserve
    {
      var q :| 0 <= q < |candidates| && candidates[q] == c;
      AscendingOrder(candidates, k, q);
      ExactSuffixLe(msgs, c, candidates[k - 1], target);
    }
  }

  /** That is the best start: everything from it on fits, nothing older does. */
  lemma TurnStopIsBest(msgs: seq<Message>, candidates: seq<nat>, preserve: u32, target: TokenTarget)
    requires candidates != [] && Ascending(candidates) && Within(candidates, |msgs|) && forall c :: c in candidates ==> c <= |msgs|
    ensures var start := TurnStop(msgs, candidates, |candidates|, preserve, target);
            start in candidates && (FitsU32(msgs, target) ==> EarliestFitting(msgs, candidates, preserve, target, start))
  {
    hide Reading, Exact, Ascending, TurnStop, FitsU32;
    var k := TurnStopped(msgs, candidates, |candidates|, preserve, target);
    var start := candidates[k];
    if FitsU32(msgs, target) {
      ReadingIsExact(msgs, start, target);
      if k > 0 { ReadingIsExact(msgs, candidates[k - 1], target); }
      OlderDoNotFit(msgs, candidates, k, preserve, target);
    }
  }

  // ---- single messages, inside one huge turn ----

  function Range(first: nat, end: nat): (s: seq<nat>)
    requires first <= end
    ensures |s| == end - first && (first < end ==> s[|s| - 1] == end - 1)
    ensures forall c :: (c in s) <==> (first <= c && c < end)
    decreases end - first
  {
    if first == end then [] else [first] + Range(first + 1, end)
  }

  /** Where the message-by-message split of `msgs[from..]` cuts. */
  ghost predicate MegaCut(msgs: seq<Message>, from: nat, preserve: u32, target: TokenTarget, cut: nat) {
    from < |msgs|
    && exists raw :: EarliestFitting(msgs, Range(from, |msgs|), preserve, target, raw) && cut == Aligned(msgs, raw)
  }

  /** Where the walk over single messages of `msgs[from..]` ends; `msgs[raw..]` are taken already. */
  function MegaStop(msgs: seq<Message>, from: nat, raw: nat, preserve: u32, target: TokenTarget): (r: nat)
    requires from <= raw <= |msgs|
    ensures from <= r <= raw
  {
    if raw == from || (raw < |msgs| && Reading(msgs, raw - 1, target) > preserve) then raw
    else MegaStop(msgs, from, raw - 1, preserve, target)
  }

  function MegaStart(msgs: seq<Message>, turnStart: nat, preserve: u32, target: TokenTarget): (start: nat)
    ensures turnStart <= start && (turnStart < |msgs| ==> start <= |msgs| && (start == |msgs| || msgs[start].role != Tool))
  {
    if turnStart >= |msgs| then turnStart else Aligned(msgs, MegaStop(msgs, turnStart, |msgs|, preserve, target))
  }

  /** `mega_turn_tail_start`: the same walk message by message, then forward past tool results. */
  method MegaTurnTailStart(msgs: seq<Message>, turnStart: nat, preserve: u32, target: TokenTarget) returns (start: nat)
    ensures start == MegaStart(msgs, turnStart, preserve, target)
    ensures turnStart < |msgs| && FitsU32(msgs, target) ==> MegaCut(msgs, turnStart, preserve, target, start)
  {
    hide Exact, Estimate, Wrap, FitsU32, Reading, MegaCut;
    if turnStart >= |msgs| { return turnStart; }
    var raw := |msgs|;
    var tokens: u32 := 0;
    ReadingWraps(msgs, |msgs|, target);
    while raw > turnStart
      invariant turnStart <= raw <= |msgs|
      invariant tokens == Reading(msgs, raw, target)
      invariant MegaStop(msgs, turnStart, |msgs|, preserve, target) == MegaStop(msgs, turnStart, raw, preserve, target)
    {
      var messageTokens := Estimate(msgs[raw - 1..raw], target);
      ReadingGrows(msgs, raw - 1, raw, target);
      if raw != |msgs| && Wrap(tokens + messageTokens) > preserve { break; }
      tokens := Wrap(tokens + messageTokens);
      raw := raw - 1;
    }
    start := AlignPastToolResults(msgs, raw);
    MegaStopIsBest(msgs, turnStart, preserve, target);
  }

  /** Where that walk stopped: all but the last message read as within the budget, the one before as over. */
  lemma {:induction false} MegaStopped(msgs: seq<Message>, from: nat, raw: nat, preserve: u32, target: TokenTarget)
    requires from <= raw <= |msgs|
    ensures var r := MegaStop(msgs, from, raw, preserve, target);
            && (forall q :: r <= q < raw && q < |msgs| - 1 ==> Reading(msgs, q, target) <= preserve)
            && (r == from || (r < |msgs| && Reading(msgs, r - 1, target) > preserve))
  {
    hide Reading;
    if !(raw == from || (raw < |msgs| && Reading(msgs, raw - 1, target) > preserve)) {
      MegaStopped(msgs, from, raw - 1, preserve, target);
    }
  }

  lemma EarliestInRange(msgs: seq<Message>, from: nat, raw: nat, preserve: nat, target: TokenTarget)
    requires from <= raw < |msgs|
    requires raw == |msgs| - 1 || Exact(msgs[raw..], target) <= preserve
    requires raw == from || Exact(msgs[raw - 1..], target) > preserve
    ensures EarliestFitting(msgs, Range(from, |msgs|), preserve, target, raw)
  {
    hide Exact;
    forall c | from <= c < raw
      ensures Exact(msgs[c..], target) > preserve
    {
      ExactSuffixLe(msgs, c, raw - 1, target);
    }
  }

  lemma MegaStopIsBest(msgs: seq<Message>, from: nat, preserve: u32, target: TokenTarget)
    requires from < |msgs|
    ensures FitsU32(msgs, target) ==> MegaCut(msgs, from, preserve, target, MegaStart(msgs, from, preserve, target))
  {
    hide Reading, Exact, MegaStop, FitsU32, EarliestFitting, Range;
    if FitsU32(msgs, target) {
      var raw := MegaStop(msgs, from, |msgs|, preserve, target);
      MegaStopped(msgs, from, |msgs|, preserve, target);
      ReadingIsExact(msgs, raw, target);
      if raw > from { ReadingIsExact(msgs, raw - 1, target); }
      EarliestInRange(msgs, from, raw, preserve, target);
    }
  }

  // ---- compact's choice ----

  /** The kept tail is small: within the budget, or a single message at most. */
  ghost predicate Bounded(msgs: seq<Message>, start: nat, preserve: u32, target: TokenTarget)
    requires start <= |msgs|
  {
    Exact(msgs[start..], target) <= preserve || |msgs| - start <= 1
  }

  lemma MegaBounded(msgs: seq<Message>, from: nat, preserve: u32, target: TokenTarget, cut: nat)
    requires MegaCut(msgs, from, preserve, target, cut)
    ensures cut <= |msgs| && Bounded(msgs, cut, preserve, target)
  {
    var raw :| EarliestFitting(msgs, Range(from, |msgs|), preserve, target, raw) && cut == Aligned(msgs, raw);
    ExactSuffixLe(msgs, raw, cut, target);
  }

  /** The kept tail is within the budget or a single message. */
  lemma ChosenTailBounded(msgs: seq<Message>, tailTurns: nat, preserve: u32, target: TokenTarget, choice: Option<nat>)
    requires |msgs| > 0 && ChosenTail(msgs, tailTurns, preserve, target, choice) && choice.Some?
    ensures choice.value <= |msgs| && Bounded(msgs, choice.value, preserve, target)
  {
    hide TurnCut, MegaCut, Exact;
    var turn: nat, cut: nat :|
      TurnCut(msgs, tailTurns, preserve, target, turn)
      && (if turn < |msgs| && Exact(msgs[turn..], target) > preserve as nat
          then MegaCut(msgs, turn, preserve, target, cut) else cut == turn)
      && SplitWhole(msgs, preserve, target, cut, choice);
    if cut <= 1 {
      var whole: nat :| MegaCut(msgs, 1, preserve, target, whole) && choice == if whole <= 1 then None else Some(whole);
      MegaBounded(msgs, 1, preserve, target, whole);
    } else if turn < |msgs| && Exact(msgs[turn..], target) > preserve as nat {
      MegaBounded(msgs, turn, preserve, target, cut);
    } else {
      TurnCutInRange(msgs, tailTurns, preserve, target, turn);
    }
  }

  lemma TurnCutInRange(msgs: seq<Message>, tailTurns: nat, preserve: u32, target: TokenTarget, cut: nat)
    requires |msgs| > 0 && TurnCut(msgs, tailTurns, preserve, target, cut)
    ensures cut <= |msgs|
  {
  }

  lemma EstimateOfTail(msgs: seq<Message>, start: nat, target: TokenTarget)
    requires start <= |msgs| && FitsU32(msgs, target)
    ensures Estimate(msgs[start..], target) as nat == Exact(msgs[start..], target)
  {
    EstimateIsExact(msgs, start, |msgs|, target);
    assert msgs[start..|msgs|] == msgs[start..];
  }

  /** The whole selection: whole turns, split inside the newest turn when it alone is over budget, and
      split inside the whole history when that leaves nothing in front of the tail. */
  ghost predicate ChosenTail(msgs: seq<Message>, tailTurns: nat, preserve: u32, target: TokenTarget, choice: Option<nat>)
    requires |msgs| > 0
  {
    exists turn: nat, cut: nat ::
      TurnCut(msgs, tailTurns, preserve, target, turn)
      && (if turn < |msgs| && Exact(msgs[turn..], target) > preserve as nat
          then MegaCut(msgs, turn, preserve, target, cut) else cut == turn)
      && SplitWhole(msgs, preserve, target, cut, choice)
  }

  ghost predicate SplitWhole(msgs: seq<Message>, preserve: u32, target: TokenTarget, cut: nat, choice: Option<nat>) {
    if cut > 1 then choice == Some(cut)
    else exists whole: nat :: MegaCut(msgs, 1, preserve, target, whole) && choice == if whole <= 1 then None else Some(whole)
  }

  /** The same selection as the code computes it, estimates wrapped or not. */
  function Chosen(msgs: seq<Message>, tailTurns: nat, preserve: u32, target: TokenTarget): (choice: Option<nat>)
    requires |msgs| > 2
    ensures choice.Some? ==> 2 <= choice.value <= |msgs|
  {
    var start := TailStart(msgs, tailTurns, preserve, target);
    var cut := if start < |msgs| && Reading(msgs, start, target) > preserve then MegaStart(msgs, start, preserve, target) else start;
    if cut > 1 then Some(cut)
    else
      var whole := MegaStart(msgs, 1, preserve, target);
      if whole <= 1 then None else Some(whole)
  }

  /** `compact`'s own selection: whole turns first, then a split inside a turn that is over budget or is
      the whole history. `None` means there is nothing to summarize. Whatever is kept starts after the
      first message, never on a tool result, and is bounded. */
  method ChooseTail(msgs: seq<Message>, tailTurns: nat, preserve: u32, target: TokenTarget) returns (choice: Option<nat>)
    requires |msgs| > 2
    ensures choice == Chosen(msgs, tailTurns, preserve, target)
    ensures choice.Some? ==> 2 <= choice.value <= |msgs| && (choice.value == |msgs| || msgs[choice.value].role != Tool)
    ensures choice.Some? && FitsU32(msgs, target) ==> Bounded(msgs, choice.value, preserve, target)
    ensures FitsU32(msgs, target) ==> ChosenTail(msgs, tailTurns, preserve, target, choice)
  {
    hide Exact, Estimate, FitsU32, TurnCut, MegaCut, Bounded, Candidates, TailStart, MegaStart, TurnStarts, LastN;
    hide Aligned, Ascending, Within, EarliestFitting, Range, TurnStop, MegaStop, Wrap;
    var start := CompactionTailStart(msgs, tailTurns, preserve, target);
    var tailTokens := Estimate(msgs[start..], target);
    ghost var turn := start;
    if FitsU32(msgs, target) { EstimateOfTail(msgs, turn, target); }
    if start < |msgs| && tailTokens > preserve {
      start := MegaTurnTailStart(msgs, start, preserve, target);
    }
    ghost var cut := start;
    if start <= 1 {
      start := MegaTurnTailStart(msgs, 1, preserve, target);
      if start <= 1 { return None; }
    }
    choice := Some(start);
    if FitsU32(msgs, target) {
      assert SplitWhole(msgs, preserve, target, cut, choice);
      ChosenTailBounded(msgs, tailTurns, preserve, target, choice);
    }
  }
}
