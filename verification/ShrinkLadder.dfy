/** The five-rung ladder a too-large summarization request is shrunk down, and the sizing pass that
    picks a starting rung without building any of the requests. */
module ShrinkLadder {
  import opened Bytes
  import opened Messages
  import opened TailChoice
  import opened ToolProtocol

  datatype ShrinkStage = Full | Elided | Half | Quarter | Eighth

  const LADDER: seq<ShrinkStage> := [Full, Elided, Half, Quarter, Eighth]

  function Rank(s: ShrinkStage): nat {
    match s
    case Full => 0
    case Elided => 1
    case Half => 2
    case Quarter => 3
    case Eighth => 4
  }

  function NextStage(s: ShrinkStage): (n: Option<ShrinkStage>)
    ensures n.Some? ==> Rank(n.value) == Rank(s) + 1
    ensures n.None? <==> s == Eighth
  {
    match s
    case Full => Some(Elided)
    case Elided => Some(Half)
    case Half => Some(Quarter)
    case Quarter => Some(Eighth)
    case Eighth => None
  }

  /** How much of the history a windowed stage keeps: `1/div` of it, at least two messages. */
  function KeepCount(n: nat, div: nat): (k: nat)
    ensures k <= n
  {
    var share := n / (if div < 1 then 1 else div);
    var most := if share < n then share else n;
    var least := if n < 2 then n else 2;
    if most < least then least else most
  }

  function WindowStart(msgs: seq<Message>, div: nat): (start: nat)
    ensures start <= |msgs| && (start == |msgs| || msgs[start].role != Tool)
  {
    Aligned(msgs, |msgs| - KeepCount(|msgs|, div))
  }

  /** `tail_window` */
  function TailWindow(msgs: seq<Message>, div: nat): seq<Message> { msgs[WindowStart(msgs, div)..] }

  predicate OpensOnSummary(msgs: seq<Message>) { msgs != [] && IsSummary(msgs[0]) }

  /** `carry_prior_summary` */
  function CarryPriorSummary(full: seq<Message>, window: seq<Message>): seq<Message> {
    if |window| >= |full| then window
    else if OpensOnSummary(full) then [full[0]] + window
    else window
  }

  function Divisor(stage: ShrinkStage): nat {
    match stage
    case Full => 1
    case Elided => 1
    case Half => 2
    case Quarter => 4
    case Eighth => 8
  }

  /** What `compact_stage_history` builds. */
  function StageHistory(stage: ShrinkStage, full: seq<Message>): seq<Message> {
    if stage == Full then full
    else if stage == Elided then ElideToolResults(full)
    else CarryPriorSummary(ElideToolResults(full), TailWindow(ElideToolResults(full), Divisor(stage)))
  }

  /** What `estimate_tail_window` computes without building it. */
  function EstimateTailWindow(msgs: seq<Message>, div: nat, target: TokenTarget): u32 {
    var start := WindowStart(msgs, div);
    var est := Estimate(msgs[start..], target);
    if start > 0 && OpensOnSummary(msgs) then SatAdd(est, Estimate([msgs[0]], target)) else est
  }

  function FastEstimate(stage: ShrinkStage, full: seq<Message>, target: TokenTarget): u32 {
    if stage == Full then Estimate(full, target)
    else if stage == Elided then Estimate(ElideToolResults(full), target)
    else EstimateTailWindow(ElideToolResults(full), Divisor(stage), target)
  }

  // ---- the two entry points, with their shared memo of the elided copy ----

  predicate MemoFits(memo: Option<seq<Message>>, full: seq<Message>) {
    memo.Some? ==> memo.value == ElideToolResults(full)
  }

  method ElidedOnce(full: seq<Message>, memo: Option<seq<Message>>) returns (elided: seq<Message>, kept: Option<seq<Message>>)
    requires MemoFits(memo, full)
    ensures elided == ElideToolResults(full) && kept == Some(elided)
  {
    elided := if memo.Some? then memo.value else ElideToolResults(full);
    kept := Some(elided);
  }

  method CompactStageHistory(stage: ShrinkStage, full: seq<Message>, memo: Option<seq<Message>>)
    returns (history: seq<Message>, kept: Option<seq<Message>>)
    requires MemoFits(memo, full)
    ensures history == StageHistory(stage, full) && MemoFits(kept, full)
  {
    if stage == Full { return full, memo; }
    var elided;
    elided, kept := ElidedOnce(full, memo);
    if stage == Elided { return elided, kept; }
    history := CarryPriorSummary(elided, TailWindow(elided, Divisor(stage)));
  }

  method EstimateStageHistory(stage: ShrinkStage, full: seq<Message>, memo: Option<seq<Message>>, target: TokenTarget)
    returns (estimate: u32, kept: Option<seq<Message>>)
    requires MemoFits(memo, full)
    ensures estimate == FastEstimate(stage, full, target) && MemoFits(kept, full)
  {
    if stage == Full { return Estimate(full, target), memo; }
    var elided;
    elided, kept := ElidedOnce(full, memo);
    estimate := if stage == Elided then Estimate(elided, target) else EstimateTailWindow(elided, Divisor(stage), target);
  }

  // ---- the fast estimate refines the slow one ----

  /** The summary is re-attached to this stage's window. */
  predicate Carries(stage: ShrinkStage, full: seq<Message>) {
    Rank(stage) >= 2 && OpensOnSummary(ElideToolResults(full))
    && WindowStart(ElideToolResults(full), Divisor(stage)) > 0
  }

  /** What a window costs next to the summary it carries. */
  function CarriedSum(stage: ShrinkStage, full: seq<Message>, target: TokenTarget): nat
    requires Carries(stage, full)
  {
    var elided := ElideToolResults(full);
    Estimate(elided[WindowStart(elided, Divisor(stage))..], target) + Estimate([elided[0]], target)
  }

  /** Counting in place gives the estimate of the history that would have been built, exactly unless
      the window and its carried summary together pass 32 bits: there one saturates and the other
      wraps. */
  lemma EstimatorRefines(stage: ShrinkStage, full: seq<Message>, target: TokenTarget)
    ensures FastEstimate(stage, full, target) == Estimate(StageHistory(stage, full), target)
            <==> !(Carries(stage, full) && CarriedSum(stage, full, target) > U32_MAX)
  {
    hide Estimate, WindowStart, ElideToolResults, SatAdd, Wrap;
    if Rank(stage) >= 2 {
      var elided := ElideToolResults(full);
      var start := WindowStart(elided, Divisor(stage));
      var window := elided[start..];
      if Carries(stage, full) {
        assert StageHistory(stage, full) == [elided[0]] + window;
        SumOfCarried(elided[0], window, target);
        SaturateOrWrap(Estimate(window, target), Estimate([elided[0]], target));
      } else {
        assert StageHistory(stage, full) == window;
      }
    }
  }

  lemma SaturateOrWrap(a: u32, b: u32)
    ensures SatAdd(a, b) == Wrap(a + b) <==> a + b <= U32_MAX
  {
  }

  lemma SumOfCarried(m: Message, window: seq<Message>, target: TokenTarget)
    ensures Estimate([m] + window, target) == Wrap(Estimate(window, target) + Estimate([m], target))
  {
    hide MessageTokens, Wrap, Estimate, Exact;
    EstimateWraps([m] + window, target);
    EstimateWraps(window, target);
    EstimateWraps([m], target);
    ExactConcat([m], window, target);
    ExactOne(m, target);
    WrapSmall(MessageTokens(m, target));
    WrapAdd(Exact(window, target), MessageTokens(m, target));
  }

  /** They part on a history of four: a summary, a message, and two whose images bring the window to just
      under 2^32. With the summary the count saturates; the history built reads as nothing. */
  lemma EstimatorSaturates()
    ensures var summary := UserMessage([]).(origin := Summary(UserRequested));
            var full := [summary, UserMessage([]), WithImage(HUGE_IMAGE), WithImage(LARGE_IMAGE)];
            && Carries(Half, full) && CarriedSum(Half, full, OpenAi) == 0x1_0000_0000
            && FastEstimate(Half, full, OpenAi) == U32_MAX && Estimate(StageHistory(Half, full), OpenAi) == 0
  {
    var summary := UserMessage([]).(origin := Summary(UserRequested));
    var full := [summary, UserMessage([]), WithImage(HUGE_IMAGE), WithImage(LARGE_IMAGE)];
    ImageCosts(HUGE_IMAGE);
    ImageCosts(LARGE_IMAGE);
    SummaryCosts(summary);
    SaturatingWindow(full);
    hide *;
    SaturatedReadings(full, summary);
  }

  lemma HalfOfFour(full: seq<Message>, target: TokenTarget)
    requires |full| == 4 && IsSummary(full[0]) && ElideToolResults(full) == full && WindowStart(full, 2) == 2
    ensures Carries(Half, full) && CarriedSum(Half, full, target) == Estimate(full[2..], target) + Estimate([full[0]], target)
    ensures FastEstimate(Half, full, target) == SatAdd(Estimate(full[2..], target), Estimate([full[0]], target))
    ensures StageHistory(Half, full) == [full[0]] + full[2..]
  {
    hide Estimate, WindowStart, ElideToolResults, SatAdd;
  }

  lemma SaturatedReadings(full: seq<Message>, summary: Message)
    requires |full| == 4 && full[0] == summary && full[2] == WithImage(HUGE_IMAGE) && full[3] == WithImage(LARGE_IMAGE)
    requires IsSummary(summary) && ElideToolResults(full) == full && WindowStart(full, 2) == 2
    requires Estimate([summary], OpenAi) == 4
    requires Estimate([full[2]], OpenAi) == 0x8000_0000 && Estimate([full[3]], OpenAi) == 0x7FFF_FFFC
    ensures Carries(Half, full) && CarriedSum(Half, full, OpenAi) == 0x1_0000_0000
    ensures FastEstimate(Half, full, OpenAi) == U32_MAX && Estimate(StageHistory(Half, full), OpenAi) == 0
  {
    hide Estimate, Carries, CarriedSum, FastEstimate, StageHistory, ElideToolResults, WindowStart, WithImage;
    HalfOfFour(full, OpenAi);
    assert full[2..] == [full[2]] + [full[3]];
    SumOfCarried(full[2], [full[3]], OpenAi);
    SumOfCarried(summary, full[2..], OpenAi);
  }

  lemma ImageCosts(image: Attached)
    requires image.openAi <= U32_MAX - 4
    ensures Estimate([WithImage(image)], OpenAi) == image.openAi + 4
  {
    var m := WithImage(image);
    assert m.attachments[..0] == [];
    assert AttachedTokens(m.attachments, OpenAi) == image.openAi;
    assert MessageTokens(m, OpenAi) == image.openAi + 4;
    hide MessageTokens;
    assert [m][..0] == [];
  }

  lemma SummaryCosts(summary: Message)
    requires summary == UserMessage([]).(origin := Summary(UserRequested))
    ensures Estimate([summary], OpenAi) == 4
  {
    assert MessageTokens(summary, OpenAi) == 4;
    hide MessageTokens;
    assert [summary][..0] == [];
  }

  lemma SaturatingWindow(full: seq<Message>)
    requires |full| == 4 && forall m :: m in full ==> m.role == User
    ensures ElideToolResults(full) == full && WindowStart(full, 2) == 2
  {
    assert KeepCount(4, 2) == 2;
    assert full[2] in full;
  }

  /** In particular it is exact on every history whose elided form fits 32 bits. */
  lemma EstimatorExact(stage: ShrinkStage, full: seq<Message>, target: TokenTarget)
    requires FitsU32(ElideToolResults(full), target)
    ensures FastEstimate(stage, full, target) == Estimate(StageHistory(stage, full), target)
    ensures stage != Full ==>
            FastEstimate(stage, full, target) as nat == Exact(StageHistory(stage, full), target) <= Exact(ElideToolResults(full), target)
  {
    hide Estimate, Exact, Wrap, WindowStart, MessageTokens;
    EstimatorRefines(stage, full, target);
    var elided := ElideToolResults(full);
    if Carries(stage, full) {
      var start := WindowStart(elided, Divisor(stage));
      var window := elided[start..];
      EstimateIsExact(elided, start, |elided|, target);
      assert elided[start..|elided|] == window;
      ExactSplit(elided, 0, 1, target);
      ExactSuffixLe(elided, 1, start, target);
      assert elided[0..] == elided && elided[0..1] == [elided[0]];
      ExactConcat([elided[0]], window, target);
      EstimateWraps([elided[0]], target);
      WrapSmall(Exact([elided[0]], target));
    }
    if stage != Full { StageWithinElided(stage, full, target); }
    EstimateWraps(StageHistory(stage, full), target);
    if stage != Full { WrapSmall(Exact(StageHistory(stage, full), target)); }
  }

  // ---- the windows are nested ----

  /** The messages a stage from Elided on sends: its window and, when cut, the carried summary. */
  function StageStart(stage: ShrinkStage, full: seq<Message>): (start: nat)
    requires stage != Full
    ensures start <= |full|
  {
    if stage == Elided then 0 else WindowStart(ElideToolResults(full), Divisor(stage))
  }

  lemma StageTokens(stage: ShrinkStage, full: seq<Message>, target: TokenTarget)
    requires stage != Full
    ensures var elided := ElideToolResults(full);
            var start := StageStart(stage, full);
            Exact(StageHistory(stage, full), target)
              == Exact(elided[start..], target) + if start > 0 && OpensOnSummary(elided) then MessageTokens(elided[0], target) else 0
  {
    var elided := ElideToolResults(full);
    var start := StageStart(stage, full);
    if start > 0 && OpensOnSummary(elided) {
      assert StageHistory(stage, full) == [elided[0]] + elided[start..];
      ExactConcat([elided[0]], elided[start..], target);
      ExactOne(elided[0], target);
    } else {
      assert StageHistory(stage, full) == elided[start..];
    }
  }

  /** A later cut never costs more, even counting the summary it has to carry. */
  lemma LaterCutCostsLess(elided: seq<Message>, s: nat, t: nat, target: TokenTarget)
    requires s <= t <= |elided|
    ensures Exact(elided[t..], target) + (if t > 0 && OpensOnSummary(elided) then MessageTokens(elided[0], target) else 0)
         <= Exact(elided[s..], target) + (if s > 0 && OpensOnSummary(elided) then MessageTokens(elided[0], target) else 0)
  {
    ExactSuffixLe(elided, s, t, target);
    if s == 0 && t > 0 && elided != [] {
      ExactSplit(elided, 0, 1, target);
      ExactSuffixLe(elided, 1, t, target);
      assert elided[0..1] == [elided[0]];
      ExactOne(elided[0], target);
    }
  }

  lemma KeepShrinks(n: nat)
    ensures KeepCount(n, 8) <= KeepCount(n, 4) <= KeepCount(n, 2) <= n
  {
  }

  /** From Elided on each stage keeps a suffix of what the stage before it kept. */
  lemma WindowsNested(full: seq<Message>, s: ShrinkStage, t: ShrinkStage)
    requires 1 <= Rank(s) <= Rank(t)
    ensures StageStart(s, full) <= StageStart(t, full)
  {
    hide ElideToolResults, Aligned, KeepCount;
    var elided := ElideToolResults(full);
    var n := |elided|;
    KeepShrinks(n);
    AlignedMonotone(elided, n - KeepCount(n, 2), n - KeepCount(n, 4));
    AlignedMonotone(elided, n - KeepCount(n, 4), n - KeepCount(n, 8));
  }

  /** And costs no more. */
  lemma StagesShrink(full: seq<Message>, s: ShrinkStage, t: ShrinkStage, target: TokenTarget)
    requires 1 <= Rank(s) <= Rank(t)
    ensures Exact(StageHistory(t, full), target) <= Exact(StageHistory(s, full), target)
  {
    StageTokens(s, full, target);
    StageTokens(t, full, target);
    WindowsNested(full, s, t);
    LaterCutCostsLess(ElideToolResults(full), StageStart(s, full), StageStart(t, full), target);
  }

  lemma StageWithinElided(stage: ShrinkStage, full: seq<Message>, target: TokenTarget)
    requires stage != Full
    ensures Exact(StageHistory(stage, full), target) <= Exact(ElideToolResults(full), target)
  {
    StagesShrink(full, Elided, stage, target);
  }

  /** From Full to Elided the order can turn: a tool body barely over the limit grows by its note. */
  lemma ElisionCanGrow(target: TokenTarget)
    ensures var body := seq(401, _ => 0x61);
            var m := ToolResult("call", body);
            MessageTokens(ElideOne(m), target) > MessageTokens(m, target)
  {
    var body: seq<byte> := seq(401, _ => 0x61);
    var m := ToolResult("call", body);
    assert |ELISION_NOTE| == 39;
    assert FloorCharBoundary(body, 400) == 400;
    assert TextBytes(m) == 401 && TextBytes(ElideOne(m)) == 439;
  }

  /** It cannot for a body of 439 bytes or more (and less than 4 GiB with its calls), nor for one left
      alone. */
  lemma ElisionShrinks(m: Message, target: TokenTarget)
    requires TextBytes(m) <= U32_MAX
    requires m.role == Tool && m.content.Some? ==> |m.content.value| <= 400 || |m.content.value| >= 439
    ensures MessageTokens(ElideOne(m), target) <= MessageTokens(m, target)
  {
    assert |ELISION_NOTE| == 39;
    assert TextBytes(ElideOne(m)) <= TextBytes(m);
    WrapSmall(TextBytes(m));
    WrapSmall(TextBytes(ElideOne(m)));
  }

  predicate Elides(m: Message) { m.role == Tool && m.content.Some? && |m.content.value| > ELIDE_TOOL_RESULT_BYTES }

  /** In between it is a matter of four-byte rounding: what replaces the body is its first characters up to
      400 bytes and the 39 of the note. */
  lemma ElisionShrinksExactly(m: Message, target: TokenTarget)
    requires TextBytes(m) <= U32_MAX && TextBytes(ElideOne(m)) <= U32_MAX
    ensures MessageTokens(ElideOne(m), target) <= MessageTokens(m, target)
            <==> Elides(m) ==>
                   var calls := if m.calls.Some? then CallBytes(m.calls.value) else 0;
                   var body := m.content.value;
                   || (FloorCharBoundary(body, 400) + 39 + calls) / 4 <= (|body| + calls) / 4
                   || (|body| + calls) / 4 + 4 + AttachedTokens(m.attachments, target) >= U32_MAX
  {
    assert |ELISION_NOTE| == 39;
    hide CallBytes, AttachedTokens, FloorCharBoundary;
    WrapSmall(TextBytes(m));
    WrapSmall(TextBytes(ElideOne(m)));
  }

  // ---- what a windowed stage sends ----

  /** From `cut` on the first message that is no tool result is `start`. */
  predicate FirstPlain(msgs: seq<Message>, cut: nat, start: nat) {
    cut <= start <= |msgs| && (start < |msgs| ==> msgs[start].role != Tool) && forall i :: cut <= i < start ==> msgs[i].role == Tool
  }

  /** A stage sends this much of the elided history: its last `keep` messages less the tool results they open
      on, and, when anything is cut, the summary in front. */
  ghost predicate SendsLast(keep: nat, full: seq<Message>, sent: seq<Message>) {
    var elided := ElideToolResults(full);
    keep <= |full| &&
    exists start: nat ::
      FirstPlain(elided, |full| - keep, start)
      && sent == (if start > 0 && full != [] && elided[0].origin.Summary? then [elided[0]] else []) + elided[start..]
  }

  lemma AlignedIsFirstPlain(msgs: seq<Message>, cut: nat)
    requires cut <= |msgs|
    ensures FirstPlain(msgs, cut, Aligned(msgs, cut))
  {
  }

  function AtLeastTwo(share: nat, n: nat): nat { if n < 2 then n else if share < 2 then 2 else share }

  lemma KeptShares(n: nat)
    ensures KeepCount(n, Divisor(Half)) == AtLeastTwo(n / 2, n) <= n
    ensures KeepCount(n, Divisor(Quarter)) == AtLeastTwo(n / 4, n) <= n
    ensures KeepCount(n, Divisor(Eighth)) == AtLeastTwo(n / 8, n) <= n
  {
  }

  /** Half, a quarter, an eighth of the messages, but two at least. */
  lemma WindowsAre(full: seq<Message>)
    ensures SendsLast(AtLeastTwo(|full| / 2, |full|), full, StageHistory(Half, full))
    ensures SendsLast(AtLeastTwo(|full| / 4, |full|), full, StageHistory(Quarter, full))
    ensures SendsLast(AtLeastTwo(|full| / 8, |full|), full, StageHistory(Eighth, full))
  {
    hide StageHistory, SendsLast, KeepCount, Divisor, AtLeastTwo;
    KeptShares(|full|);
    WindowIs(Half, full);
    WindowIs(Quarter, full);
    WindowIs(Eighth, full);
  }

  lemma WindowIs(stage: ShrinkStage, full: seq<Message>)
    requires Rank(stage) >= 2
    ensures SendsLast(KeepCount(|full|, Divisor(stage)), full, StageHistory(stage, full))
  {
    var elided := ElideToolResults(full);
    var cut := |full| - KeepCount(|full|, Divisor(stage));
    var start := Aligned(elided, cut);
    AlignedIsFirstPlain(elided, cut);
    SentWindow(stage, full, start);
    hide StageHistory, Divisor, KeepCount, ElideToolResults, Aligned, FirstPlain;
  }

  lemma SentWindow(stage: ShrinkStage, full: seq<Message>, start: nat)
    requires Rank(stage) >= 2 && |ElideToolResults(full)| == |full|
    requires start == Aligned(ElideToolResults(full), |full| - KeepCount(|full|, Divisor(stage)))
    ensures start <= |full|
    ensures var elided := ElideToolResults(full);
            StageHistory(stage, full)
            == (if start > 0 && full != [] && elided[0].origin.Summary? then [elided[0]] else []) + elided[start..]
  {
    StageIsWindow(stage, full);
    WindowFrom(ElideToolResults(full), Divisor(stage));
    hide *;
    CarriedIs(ElideToolResults(full), start);
  }

  lemma StageIsWindow(stage: ShrinkStage, full: seq<Message>)
    requires Rank(stage) >= 2
    ensures var elided := ElideToolResults(full);
            StageHistory(stage, full) == CarryPriorSummary(elided, TailWindow(elided, Divisor(stage)))
  {
    hide ElideToolResults, CarryPriorSummary, TailWindow, Divisor;
  }

  lemma WindowFrom(msgs: seq<Message>, div: nat)
    ensures TailWindow(msgs, div) == msgs[Aligned(msgs, |msgs| - KeepCount(|msgs|, div))..]
  {
    hide Aligned, KeepCount;
  }

  lemma CarriedIs(msgs: seq<Message>, start: nat)
    requires start <= |msgs|
    ensures CarryPriorSummary(msgs, msgs[start..])
         == (if start > 0 && msgs != [] && msgs[0].origin.Summary? then [msgs[0]] else []) + msgs[start..]
  {
    assert [] + msgs[start..] == msgs[start..];
  }

  /** Without tool results exactly that many messages go out, and the summary if it is not among them. */
  lemma WindowSizes(full: seq<Message>)
    requires |full| > 2 && forall m :: m in full ==> m.role != Tool
    ensures var n, carried := |full|, if full[0].origin.Summary? then 1 else 0;
            && |StageHistory(Half, full)| == (if n < 4 then 2 else n / 2) + carried
            && |StageHistory(Quarter, full)| == (if n < 8 then 2 else n / 4) + carried
            && |StageHistory(Eighth, full)| == (if n < 16 then 2 else n / 8) + carried
  {
    var n := |full|;
    WindowsAre(full);
    ElidesNothing(full);
    hide StageHistory, SendsLast, ElideToolResults;
    SentSize(AtLeastTwo(n / 2, n), full, StageHistory(Half, full));
    SentSize(AtLeastTwo(n / 4, n), full, StageHistory(Quarter, full));
    SentSize(AtLeastTwo(n / 8, n), full, StageHistory(Eighth, full));
  }

  lemma ElidesNothing(full: seq<Message>)
    requires forall m :: m in full ==> m.role != Tool
    ensures ElideToolResults(full) == full
  {
    forall i | 0 <= i < |full|
      ensures ElideToolResults(full)[i] == full[i]
    {
      assert full[i] in full;
    }
  }

  lemma SentSize(keep: nat, full: seq<Message>, sent: seq<Message>)
    requires keep < |full| && SendsLast(keep, full, sent) && ElideToolResults(full) == full && forall m :: m in full ==> m.role != Tool
    ensures |sent| == keep + if full[0].origin.Summary? then 1 else 0
  {
    hide ElideToolResults;
    var start: nat :| FirstPlain(full, |full| - keep, start)
      && sent == (if start > 0 && full != [] && full[0].origin.Summary? then [full[0]] else []) + full[start..];
    assert keep > 0 ==> full[|full| - keep].role != Tool;
  }

  // ---- choosing the first rung ----

  const COMPACT_INPUT_SLACK: u32 := 8192

  /** What is left of the window for the history: headroom for the answer and slack, and the parts of
      the request no stage can shrink, come off first. */
  function HistoryBudget(window: u32, outputAllowance: u32, fixedTokens: u32): u32 {
    SatSub(SatSub(window, SatAdd(outputAllowance, COMPACT_INPUT_SLACK)), fixedTokens)
  }

  /** The least stage from the `i`th on that fits, Eighth when none does. */
  function LeastFitting(full: seq<Message>, budget: u32, target: TokenTarget, i: nat): (stage: ShrinkStage)
    requires i < |LADDER|
    decreases |LADDER| - i
  {
    if i == |LADDER| - 1 || FastEstimate(LADDER[i], full, target) <= budget then LADDER[i]
    else LeastFitting(full, budget, target, i + 1)
  }

  /** Where a summarization starts, with nothing to size against at Full. */
  function FirstStage(full: seq<Message>, window: Option<u32>, outputAllowance: u32, fixedTokens: u32, target: TokenTarget): ShrinkStage {
    if window.None? || HistoryBudget(window.value, outputAllowance, fixedTokens) == 0 then Full
    else LeastFitting(full, HistoryBudget(window.value, outputAllowance, fixedTokens), target, 0)
  }

  /** `first_viable_compact_stage`: the least stage that fits, Eighth when none does; Full when there is
      nothing to size against. */
  method FirstViableStage(full: seq<Message>, memo: Option<seq<Message>>, window: Option<u32>, outputAllowance: u32,
                          fixedTokens: u32, target: TokenTarget)
    returns (stage: ShrinkStage, kept: Option<seq<Message>>)
    requires MemoFits(memo, full)
    ensures MemoFits(kept, full)
    ensures stage == FirstStage(full, window, outputAllowance, fixedTokens, target)
    ensures var headroom := if outputAllowance + 8192 > 0xFFFF_FFFF then 0xFFFF_FFFF else outputAllowance + 8192;
            var budget := if window.None? then 0 else window.value - headroom - fixedTokens;
            if budget <= 0 then stage == Full
            else
              && (stage == Eighth || FastEstimate(stage, full, target) <= budget)
              && forall s: ShrinkStage :: Rank(s) < Rank(stage) ==> FastEstimate(s, full, target) > budget
  {
    hide FastEstimate, ElideToolResults, MemoFits;
    kept := memo;
    if window.None? { return Full, kept; }
    var budget := HistoryBudget(window.value, outputAllowance, fixedTokens);
    hide HistoryBudget;
    if budget == 0 { return Full, kept; }
    for i := 0 to |LADDER|
      invariant MemoFits(kept, full)
      invariant i < |LADDER| ==> LeastFitting(full, budget, target, 0) == LeastFitting(full, budget, target, i)
      invariant i == |LADDER| ==> LeastFitting(full, budget, target, 0) == Eighth
      invariant forall s: ShrinkStage :: Rank(s) < i ==> FastEstimate(s, full, target) > budget
    {
      var estimate;
      estimate, kept := EstimateStageHistory(LADDER[i], full, kept, target);
      if estimate <= budget { return LADDER[i], kept; }
      assert Rank(LADDER[i]) == i && forall s: ShrinkStage :: Rank(s) == i ==> s == LADDER[i];
    }
    stage := Eighth;
  }

  lemma {:induction false} LeastFittingIs(full: seq<Message>, budget: u32, target: TokenTarget, i: nat)
    requires i < |LADDER|
    ensures var stage := LeastFitting(full, budget, target, i);
            && (stage == Eighth || FastEstimate(stage, full, target) <= budget)
            && forall s: ShrinkStage :: i <= Rank(s) < Rank(stage) ==> FastEstimate(s, full, target) > budget
    decreases |LADDER| - i
  {
    hide FastEstimate;
    assert Rank(LADDER[i]) == i && forall s: ShrinkStage :: Rank(s) == i ==> s == LADDER[i];
    if !(i == |LADDER| - 1 || FastEstimate(LADDER[i], full, target) <= budget) { LeastFittingIs(full, budget, target, i + 1); }
  }

  /** Where a summarization starts: the least stage that fits what the window leaves for the history. */
  lemma FirstStageExactly(full: seq<Message>, window: Option<u32>, outputAllowance: u32, fixedTokens: u32, target: TokenTarget)
    ensures var stage := FirstStage(full, window, outputAllowance, fixedTokens, target);
            var headroom := if outputAllowance + 8192 > 0xFFFF_FFFF then 0xFFFF_FFFF else outputAllowance + 8192;
            var budget := if window.None? then 0 else window.value - headroom - fixedTokens;
            if budget <= 0 then stage == Full
            else
              && (stage == Eighth || FastEstimate(stage, full, target) <= budget)
              && forall s: ShrinkStage :: Rank(s) < Rank(stage) ==> FastEstimate(s, full, target) > budget
  {
    hide FastEstimate, LeastFitting, Rank;
    if window.Some? && HistoryBudget(window.value, outputAllowance, fixedTokens) > 0 {
      RanksAreNatural();
      LeastFittingIs(full, HistoryBudget(window.value, outputAllowance, fixedTokens), target, 0);
    }
  }

  lemma RanksAreNatural()
    ensures forall s: ShrinkStage :: 0 <= Rank(s)
  {
  }

  /** Once a stage below Full fits the budget, every stage the escalation can reach from it fits too. */
  lemma EscalationStaysWithinBudget(full: seq<Message>, s: ShrinkStage, t: ShrinkStage, budget: u32, target: TokenTarget)
    requires FitsU32(ElideToolResults(full), target) && 1 <= Rank(s) <= Rank(t)
    requires FastEstimate(s, full, target) <= budget
    ensures Estimate(StageHistory(t, full), target) <= budget
  {
    EstimatorExact(s, full, target);
    EstimatorExact(t, full, target);
    StagesShrink(full, s, t, target);
  }

  // ---- what a stage's history still is ----

  lemma StageKeepsProtocol(stage: ShrinkStage, full: seq<Message>)
    requires Protocol(full)
    requires OpensOnSummary(full) ==> full[0].role == User
    ensures Protocol(StageHistory(stage, full))
  {
    if stage != Full {
      var elided := ElideToolResults(full);
      ProtocolOfElided(full);
      if stage != Elided {
        var start := WindowStart(elided, Divisor(stage));
        ProtocolSuffix(elided, start);
        if start > 0 && OpensOnSummary(elided) {
          PlainIsProtocol(elided[0]);
          ProtocolConcat([elided[0]], elided[start..]);
        }
      }
    }
  }

  /** Summaries in a history. */
  function CountSummaries(msgs: seq<Message>): nat {
    if msgs == [] then 0 else (if IsSummary(msgs[0]) then 1 else 0) + CountSummaries(msgs[1..])
  }

  lemma {:induction false} CountConcat(a: seq<Message>, b: seq<Message>)
    ensures CountSummaries(a + b) == CountSummaries(a) + CountSummaries(b)
  {
    if a == [] { assert a + b == b; } else { CountConcat(a[1..], b); assert (a + b)[1..] == a[1..] + b; }
  }

  lemma {:induction false} CountNone(msgs: seq<Message>)
    requires forall m :: m in msgs ==> !IsSummary(m)
    ensures CountSummaries(msgs) == 0
  {
    if msgs != [] { assert msgs[0] in msgs; CountNone(msgs[1..]); }
  }

  /** Only the first message of the history can be a summary. */
  ghost predicate SummaryOnlyFirst(full: seq<Message>) {
    forall i :: 1 <= i < |full| ==> !IsSummary(full[i])
  }

  /** Every stage sends the prior summary exactly once when there is one, and never otherwise. */
  lemma StageCarriesSummaryOnce(stage: ShrinkStage, full: seq<Message>)
    requires SummaryOnlyFirst(full)
    ensures CountSummaries(StageHistory(stage, full)) == if OpensOnSummary(full) then 1 else 0
    ensures OpensOnSummary(full) ==> OpensOnSummary(StageHistory(stage, full))
  {
    var elided := ElideToolResults(full);
    hide WindowStart, ElideToolResults, CountSummaries;
    assert CountSummaries([]) == 0 by { CountNone([]); }
    SummaryOnce(full);
    SummaryOnce(elided);
    if Rank(stage) >= 2 {
      var start := WindowStart(elided, Divisor(stage));
      if start > 0 {
        forall m | m in elided[start..] ensures !IsSummary(m) {
          var i :| 0 <= i < |elided[start..]| && elided[start..][i] == m;
          assert elided[start + i] == m;
        }
        CountNone(elided[start..]);
        if OpensOnSummary(elided) {
          SummaryOnce([elided[0]]);
          CountConcat([elided[0]], elided[start..]);
        }
      } else {
        assert elided[0..] == elided;
      }
    }
  }

  lemma SummaryOnce(full: seq<Message>)
    requires SummaryOnlyFirst(full)
    ensures CountSummaries(full) == if OpensOnSummary(full) then 1 else 0
  {
    if full != [] {
      forall m | m in full[1..] ensures !IsSummary(m) {
        var i :| 0 <= i < |full[1..]| && full[1..][i] == m;
        assert full[1 + i] == m;
      }
      CountNone(full[1..]);
    }
  }
}
