/** The agent's side of compaction: the call itself, doing it unasked, and switching models through it. */
module Agent {
  import opened Bytes
  import opened Messages
  import opened TailChoice
  import opened ToolProtocol
  import opened ShrinkLadder
  import opened History
  import Budget

  const COMPACT_TOOL_CALL_ATTEMPTS: nat := 2
  const COMPACT_ASSUMED_OUTPUT_TOKENS: u32 := 32768

  /** How one summarization request ends. `Failed` asks the retry budget. */
  datatype Attempt = BudgetRefused | Summarized(text: seq<byte>) | CalledTool | Overflowed | Failed(retry: bool)

  datatype CompactError = BudgetExhausted | ToolCallInstead | ContextOverflowed | RequestFailed | EmptySummary | Cancelled

  datatype Report = Report(reason: Reason, before: nat, after: nat, contextAfter: u32, stage: ShrinkStage, attempts: nat)

  function NothingToDo(reason: Reason, messages: nat): Report { Report(reason, messages, messages, 0, Full, 0) }

  /** How a compaction goes: too few messages; no cut worth making; a summary that did not come, from
      `first` on; or the history replaced from `start` on. */
  datatype Course =
    | TooShort
    | NoCut
    | Refused(first: ShrinkStage, error: CompactError)
    | Replaced(start: nat, first: ShrinkStage, text: seq<byte>, stage: ShrinkStage, attempts: nat)

  function ReportOf(course: Course, reason: Reason, before: nat, after: nat, contextAfter: u32): Report {
    match course
    case Replaced(_, _, _, stage, attempts) => Report(reason, before, after, contextAfter, stage, attempts)
    case _ => NothingToDo(reason, before).(contextAfter := contextAfter)
  }

  /** The prose around a summary, and whether a reply is blank once trimmed. */
  datatype Prompts = Prompts(framing: (Reason, bool) -> seq<byte>, blank: seq<byte> -> bool)

  /** The identity a reference resolves to: its name, its endpoint's dialect, its derived window. */
  datatype Resolved = Resolved(reference: string, target: TokenTarget, window: Option<u32>)

  datatype SwitchError = Unresolved | CompactFailed(error: CompactError) | StillTooLarge(after: u32, trigger: u32)

  /** The window a switch goes by: the caller's, if it knows one. */
  function SwitchWindow(identity: Resolved, knownWindow: Option<u32>): Option<u32> {
    if knownWindow.Some? then knownWindow else identity.window
  }

  // ---- when compaction fires by itself ----

  function Min(a: u32, b: u32): u32 { if a < b then a else b }
  function Max(a: u32, b: u32): u32 { if a < b then b else a }

  /** `compaction_trigger` */
  function CompactionTrigger(window: u32, reserved: u32): u32 { SatSub(window, Min(reserved, window / 4)) }

  /** At the trigger: what is left of the window is within the reserve and a quarter of the window. */
  lemma PastTrigger(reading: u32, window: u32, reserved: u32)
    ensures reading >= CompactionTrigger(window, reserved) <==> window - reading <= reserved && window - reading <= window / 4
  {
  }

  /** `should_auto_compact` */
  predicate ShouldAutoCompact(reading: u32, window: Option<u32>, reserved: u32, enabled: bool) {
    enabled && window.Some? && window.value > 0 && reading >= CompactionTrigger(window.value, reserved)
  }

  /** `self_compact_retry_growth` */
  function RetryGrowth(window: Option<u32>): u32 {
    match window case None => U32_MAX case Some(w) => w / 16
  }

  /** `self_compact_suppressed` */
  predicate Suppressed(failedAt: Option<u32>, reading: u32, window: Option<u32>) {
    failedAt.Some? && reading < SatAdd(failedAt.value, RetryGrowth(window))
  }

  /** A proactive compaction is attempted at this reading. */
  predicate Attempts(reading: u32, window: Option<u32>, reserved: u32, enabled: bool, failedAt: Option<u32>) {
    ShouldAutoCompact(reading, window, reserved, enabled) && !Suppressed(failedAt, reading, window)
  }

  function OrZero(x: Option<u32>): u32 { if x.Some? then x.value else 0 }

  /** A check compacts when what is left of the window is within the reserve and a quarter of the window, and
      the reading is a sixteenth of the window past the last failure, or as large as can be. */
  lemma AttemptsWhen(reading: u32, window: Option<u32>, reserved: u32, enabled: bool, failedAt: Option<u32>)
    ensures Attempts(reading, window, reserved, enabled, failedAt)
            <==> (enabled && window.Some? && window.value > 0
                  && window.value - reading <= reserved && window.value - reading <= window.value / 4
                  && (failedAt.None? || reading >= failedAt.value + window.value / 16 || reading == 0xFFFF_FFFF))
  {
  }

  // ---- the request loop of `compact` ----

  function Overflows(outcomes: seq<Attempt>): nat {
    if outcomes == [] then 0 else Overflows(outcomes[..|outcomes| - 1]) + if outcomes[|outcomes| - 1].Overflowed? then 1 else 0
  }

  function ToolCalls(outcomes: seq<Attempt>): nat {
    if outcomes == [] then 0 else ToolCalls(outcomes[..|outcomes| - 1]) + if outcomes[|outcomes| - 1].CalledTool? then 1 else 0
  }

  /** A request that ends like this may be followed by another. */
  predicate MayGoOn(o: Attempt) { o.CalledTool? || o.Overflowed? || (o.Failed? && o.retry) }

  /** The loop goes on past the first `n` requests: none ended it, the ladder has a rung for each overflow,
      and the model called a tool twice at most. */
  predicate GoesOn(first: ShrinkStage, outcomes: seq<Attempt>, n: nat) {
    && n <= |outcomes| && (forall i :: 0 <= i < n ==> MayGoOn(outcomes[i]))
    && Rank(first) + Overflows(outcomes[..n]) < |LADDER|
    && ToolCalls(outcomes[..n]) <= COMPACT_TOOL_CALL_ATTEMPTS
  }

  /** One rung down for each overflow so far. */
  function StageAt(first: ShrinkStage, outcomes: seq<Attempt>, n: nat): ShrinkStage
    requires GoesOn(first, outcomes, n)
  {
    LADDER[Rank(first) + Overflows(outcomes[..n])]
  }

  /** The request the loop stops at, from the `n`th on; past the last outcome it is cancelled. */
  function StopFrom(first: ShrinkStage, outcomes: seq<Attempt>, n: nat): (stop: nat)
    requires GoesOn(first, outcomes, n)
    ensures n <= stop && GoesOn(first, outcomes, stop) && !GoesOn(first, outcomes, stop + 1)
    decreases |outcomes| - n
  {
    if GoesOn(first, outcomes, n + 1) then StopFrom(first, outcomes, n + 1) else n
  }

  lemma StartsOn(first: ShrinkStage, outcomes: seq<Attempt>)
    ensures GoesOn(first, outcomes, 0)
  {
  }

  function Stop(first: ShrinkStage, outcomes: seq<Attempt>): (stop: nat)
    ensures GoesOn(first, outcomes, stop) && !GoesOn(first, outcomes, stop + 1)
  {
    StartsOn(first, outcomes);
    StopFrom(first, outcomes, 0)
  }

  type SummaryResult = Result<(seq<byte>, ShrinkStage, nat), CompactError>

  /** What the loop answers when the request it stops at ends like this. */
  function Verdict(o: Attempt, stage: ShrinkStage, attempts: nat): SummaryResult {
    match o
    case BudgetRefused => Err(BudgetExhausted)
    case Summarized(text) => Ok((text, stage, attempts))
    case CalledTool => Err(ToolCallInstead)
    case Overflowed => Err(ContextOverflowed)
    case Failed(_) => Err(RequestFailed)
  }

  /** What a summarization comes to. */
  function SummaryOf(first: ShrinkStage, outcomes: seq<Attempt>): SummaryResult {
    var stop := Stop(first, outcomes);
    if stop == |outcomes| then Err(Cancelled) else Verdict(outcomes[stop], StageAt(first, outcomes, stop), stop + 1)
  }

  /** How many requests it uploads: a refused one is not sent. */
  function Requests(first: ShrinkStage, outcomes: seq<Attempt>): nat {
    var stop := Stop(first, outcomes);
    if stop == |outcomes| || outcomes[stop].BudgetRefused? then stop else stop + 1
  }

  lemma {:induction false} GoesOnEarlier(first: ShrinkStage, outcomes: seq<Attempt>, k: nat, n: nat)
    requires k <= n && GoesOn(first, outcomes, n)
    ensures GoesOn(first, outcomes, k)
    decreases n
  {
    if k < n {
      assert outcomes[..n][..n - 1] == outcomes[..n - 1];
      GoesOnEarlier(first, outcomes, k, n - 1);
    }
  }

  /** It succeeds exactly at a request that is answered with a summary and that every request before let the
      loop reach; the stage then is one rung down for each overflow on the way. */
  lemma SummaryExactly(first: ShrinkStage, outcomes: seq<Attempt>, text: seq<byte>, stage: ShrinkStage, attempts: nat)
    ensures SummaryOf(first, outcomes) == Ok((text, stage, attempts))
            <==> (0 < attempts <= |outcomes| && GoesOn(first, outcomes, attempts - 1)
                  && outcomes[attempts - 1] == Summarized(text) && stage == StageAt(first, outcomes, attempts - 1))
  {
    var stop := Stop(first, outcomes);
    hide Stop, Overflows, ToolCalls;
    if 0 < attempts <= |outcomes| && GoesOn(first, outcomes, attempts - 1) && outcomes[attempts - 1] == Summarized(text) {
      if stop < attempts - 1 { GoesOnEarlier(first, outcomes, stop + 1, attempts - 1); }
    }
  }

  /** The requests of the first `n` that ended like this, and the number of them. */
  lemma {:induction false} CountsAre(outcomes: seq<Attempt>, n: nat)
    requires n <= |outcomes|
    ensures Overflows(outcomes[..n]) == |set i | 0 <= i < n && outcomes[i].Overflowed?|
    ensures ToolCalls(outcomes[..n]) == |set i | 0 <= i < n && outcomes[i].CalledTool?|
  {
    hide *;
    if n > 0 {
      CountsAre(outcomes, n - 1);
      OneMoreOutcome(Full, outcomes, n - 1);
      OneMoreCounted(outcomes, n - 1);
    } else {
      NoneCounted(outcomes, n);
    }
  }

  lemma NoneCounted(outcomes: seq<Attempt>, n: nat)
    requires n <= |outcomes|
    ensures (Overflows(outcomes[..n]) == 0 && ToolCalls(outcomes[..n]) == 0) || n > 0
    ensures |set i | 0 <= i < n && outcomes[i].Overflowed?| == 0 || n > 0
    ensures |set i | 0 <= i < n && outcomes[i].CalledTool?| == 0 || n > 0
  {
    var o, c := set i | 0 <= i < n && outcomes[i].Overflowed?, set i | 0 <= i < n && outcomes[i].CalledTool?;
    assert (o == {} && c == {}) || n > 0;
  }

  lemma OneMoreCounted(outcomes: seq<Attempt>, n: nat)
    requires n < |outcomes|
    ensures |set i | 0 <= i < n + 1 && outcomes[i].Overflowed?|
         == |set i | 0 <= i < n && outcomes[i].Overflowed?| + if outcomes[n].Overflowed? then 1 else 0
    ensures |set i | 0 <= i < n + 1 && outcomes[i].CalledTool?|
         == |set i | 0 <= i < n && outcomes[i].CalledTool?| + if outcomes[n].CalledTool? then 1 else 0
  {
    var o, c := set i | 0 <= i < n && outcomes[i].Overflowed?, set i | 0 <= i < n && outcomes[i].CalledTool?;
    assert (set i | 0 <= i < n + 1 && outcomes[i].Overflowed?) == if outcomes[n].Overflowed? then o + {n} else o;
    assert (set i | 0 <= i < n + 1 && outcomes[i].CalledTool?) == if outcomes[n].CalledTool? then c + {n} else c;
  }

  /** Outcome by outcome: a summary is had from request `attempts` exactly when each before it was a tool call,
      one of two at most, an overflow with a rung left, or a failure worth retrying. */
  lemma SummaryWhen(first: ShrinkStage, outcomes: seq<Attempt>, text: seq<byte>, stage: ShrinkStage, attempts: nat)
    ensures SummaryOf(first, outcomes) == Ok((text, stage, attempts))
            <==> (0 < attempts <= |outcomes| && outcomes[attempts - 1] == Summarized(text)
                  && (forall i :: 0 <= i < attempts - 1 ==>
                        outcomes[i].CalledTool? || outcomes[i].Overflowed? || outcomes[i] == Failed(true))
                  && |set i | 0 <= i < attempts - 1 && outcomes[i].CalledTool?| <= 2
                  && Rank(stage) == Rank(first) + |set i | 0 <= i < attempts - 1 && outcomes[i].Overflowed?|)
  {
    SummaryExactly(first, outcomes, text, stage, attempts);
    if 0 < attempts <= |outcomes| {
      CountsAre(outcomes, attempts - 1);
      hide SummaryOf, Overflows, ToolCalls;
      assert forall n: nat :: n < |LADDER| ==> Rank(LADDER[n]) == n;
      assert forall s: ShrinkStage :: Rank(s) < |LADDER| && LADDER[Rank(s)] == s;
    }
  }

  /** The requests themselves, in order. */
  function Sent(h: seq<Message>, first: ShrinkStage, outcomes: seq<Attempt>, trigger: seq<byte>): seq<seq<Message>>
    requires |h| > 0
  {
    seq(Requests(first, outcomes), k requires 0 <= k < Requests(first, outcomes) =>
      GoesOnEarlier(first, outcomes, k, Stop(first, outcomes));
      Request(h, StageAt(first, outcomes, k), trigger))
  }

  lemma OneMoreOutcome(first: ShrinkStage, outcomes: seq<Attempt>, i: nat)
    requires i < |outcomes|
    ensures Overflows(outcomes[..i + 1]) == Overflows(outcomes[..i]) + if outcomes[i].Overflowed? then 1 else 0
    ensures ToolCalls(outcomes[..i + 1]) == ToolCalls(outcomes[..i]) + if outcomes[i].CalledTool? then 1 else 0
  {
    assert outcomes[..i + 1][..i] == outcomes[..i];
  }

  /** How one more request moves the loop on. */
  lemma AfterOutcome(first: ShrinkStage, outcomes: seq<Attempt>, i: nat)
    requires i < |outcomes| && GoesOn(first, outcomes, i)
    ensures var o, stage := outcomes[i], StageAt(first, outcomes, i);
            && (GoesOn(first, outcomes, i + 1) <==>
                  && MayGoOn(o)
                  && (o.CalledTool? ==> ToolCalls(outcomes[..i]) < COMPACT_TOOL_CALL_ATTEMPTS)
                  && (o.Overflowed? ==> NextStage(stage).Some?))
            && (GoesOn(first, outcomes, i + 1) ==>
                  StageAt(first, outcomes, i + 1) == if o.Overflowed? then NextStage(stage).value else stage)
            && ToolCalls(outcomes[..i + 1]) == ToolCalls(outcomes[..i]) + if o.CalledTool? then 1 else 0
  {
    OneMoreOutcome(first, outcomes, i);
    hide Overflows, ToolCalls;
  }

  lemma StopsHere(first: ShrinkStage, outcomes: seq<Attempt>, i: nat)
    requires GoesOn(first, outcomes, i) && !GoesOn(first, outcomes, i + 1)
    ensures SummaryOf(first, outcomes)
         == if i == |outcomes| then Err(Cancelled) else Verdict(outcomes[i], StageAt(first, outcomes, i), i + 1)
    ensures Requests(first, outcomes) == if i == |outcomes| || outcomes[i].BudgetRefused? then i else i + 1
  {
    var stop := Stop(first, outcomes);
    assert i <= |outcomes|;
    hide Stop, GoesOn, StageAt, Verdict;
    if stop < i { GoesOnEarlier(first, outcomes, stop + 1, i); }
    if i < stop { GoesOnEarlier(first, outcomes, i + 1, stop); }
  }

  /** What `sent` is at any point of the loop. */
  ghost predicate SentSoFar(h: seq<Message>, first: ShrinkStage, outcomes: seq<Attempt>, trigger: seq<byte>, sent: seq<seq<Message>>)
    requires |h| > 0
  {
    forall k :: 0 <= k < |sent| ==> GoesOn(first, outcomes, k) && sent[k] == Request(h, StageAt(first, outcomes, k), trigger)
  }

  lemma SentIs(h: seq<Message>, first: ShrinkStage, outcomes: seq<Attempt>, trigger: seq<byte>, sent: seq<seq<Message>>)
    requires |h| > 0 && SentSoFar(h, first, outcomes, trigger, sent) && |sent| == Requests(first, outcomes)
    ensures sent == Sent(h, first, outcomes, trigger)
    ensures forall q :: q in sent ==> exists stage: ShrinkStage :: Rank(first) <= Rank(stage) && q == Request(h, stage, trigger)
  {
    hide GoesOn, Requests, Request;
    forall q | q in sent
      ensures exists stage: ShrinkStage :: Rank(first) <= Rank(stage) && q == Request(h, stage, trigger)
    {
      var k :| 0 <= k < |sent| && sent[k] == q;
      StageIsBelow(first, outcomes, k);
    }
  }

  lemma StageIsBelow(first: ShrinkStage, outcomes: seq<Attempt>, k: nat)
    requires GoesOn(first, outcomes, k)
    ensures Rank(StageAt(first, outcomes, k)) >= Rank(first)
  {
    hide Overflows;
    assert forall n: nat :: n < |LADDER| ==> Rank(LADDER[n]) == n;
  }

  lemma StartsAt(first: ShrinkStage, outcomes: seq<Attempt>)
    ensures outcomes[..0] == [] && ToolCalls([]) == 0 && GoesOn(first, outcomes, 0) && StageAt(first, outcomes, 0) == first
  {
  }

  lemma RequestIs(h: seq<Message>, stage: ShrinkStage, trigger: seq<byte>)
    requires |h| > 0
    ensures Request(h, stage, trigger) == [h[0]] + StageHistory(stage, h[1..]) + [UserMessage(trigger)]
  {
  }

  /** A request: the prompt, the stage's history, and the instruction. */
  lemma RequestShape(h: seq<Message>, stage: ShrinkStage, trigger: seq<byte>)
    requires |h| > 0
    ensures var q := Request(h, stage, trigger);
            && |q| >= 2 && q[0] == h[0] && q[1..|q| - 1] == StageHistory(stage, h[1..])
            && q[|q| - 1] == Message(User, FromUser, Some(trigger), None, None, [])
  {
    hide StageHistory;
  }

  lemma PastTheLast(first: ShrinkStage, outcomes: seq<Attempt>)
    ensures !GoesOn(first, outcomes, |outcomes| + 1)
  {
  }

  /** The request loop of `compact`: retry what may be retried, step down the ladder on overflow, refuse
      a tool call after the third. `sent` is every request uploaded. */
  method Summarize(h: seq<Message>, memo: Option<seq<Message>>, first: ShrinkStage, trigger: seq<byte>, outcomes: seq<Attempt>)
    returns (r: SummaryResult, sent: seq<seq<Message>>)
    requires |h| > 0 && MemoFits(memo, h[1..])
    ensures r == SummaryOf(first, outcomes) && sent == Sent(h, first, outcomes, trigger)
    ensures forall q :: q in sent ==> exists stage: ShrinkStage :: Rank(first) <= Rank(stage) && q == Request(h, stage, trigger)
    ensures r.Ok? ==> Summarized(r.value.0) in outcomes && sent != [] && sent[|sent| - 1] == Request(h, r.value.1, trigger)
    ensures r.Ok? ==> r.value.2 == |sent| && Rank(r.value.1) >= Rank(first)
  {
    hide *;
    StartsAt(first, outcomes);
    PastTheLast(first, outcomes);
    sent := [];
    assert SentSoFar(h, first, outcomes, trigger, []) by { NothingSent(h, first, outcomes, trigger); }
    var kept := memo;
    var stage := first;
    var toolCalls, i := 0, 0;
    while i < |outcomes|
      invariant 0 <= i <= |outcomes| && |sent| == i && MemoFits(kept, h[1..])
      invariant GoesOn(first, outcomes, i) && stage == StageAt(first, outcomes, i) && toolCalls == ToolCalls(outcomes[..i])
      invariant SentSoFar(h, first, outcomes, trigger, sent)
      decreases |outcomes| - i
    {
      var history;
      history, kept := CompactStageHistory(stage, h[1..], kept);
      var request := [h[0]] + history + [UserMessage(trigger)];
      RequestIs(h, stage, trigger);
      OneMoreSent(h, first, outcomes, trigger, sent);
      AfterOutcome(first, outcomes, i);
      OutcomeEnds(outcomes[i], stage, i + 1);
      StageIsBelow(first, outcomes, i);
      if !GoesOn(first, outcomes, i + 1) {
        StopsHere(first, outcomes, i);
        SentIs(h, first, outcomes, trigger, if outcomes[i].BudgetRefused? then sent else sent + [request]);
      }
      if outcomes[i].BudgetRefused? { return Err(BudgetExhausted), sent; }
      sent := sent + [request];
      match outcomes[i] {
        case Summarized(text) => return Ok((text, stage, i + 1)), sent;
        case CalledTool =>
          toolCalls := toolCalls + 1;
          if toolCalls > COMPACT_TOOL_CALL_ATTEMPTS { return Err(ToolCallInstead), sent; }
        case Overflowed =>
          var smaller := NextStage(stage);
          if smaller.None? { return Err(ContextOverflowed), sent; }
          stage := smaller.value;
        case Failed(retry) =>
          if !retry { return Err(RequestFailed), sent; }
      }
      i := i + 1;
    }
    StopsHere(first, outcomes, i);
    SentIs(h, first, outcomes, trigger, sent);
    r := Err(Cancelled);
  }

  lemma NothingSent(h: seq<Message>, first: ShrinkStage, outcomes: seq<Attempt>, trigger: seq<byte>)
    requires |h| > 0
    ensures SentSoFar(h, first, outcomes, trigger, [])
  {
  }

  lemma OneMoreSent(h: seq<Message>, first: ShrinkStage, outcomes: seq<Attempt>, trigger: seq<byte>, sent: seq<seq<Message>>)
    requires |h| > 0 && SentSoFar(h, first, outcomes, trigger, sent) && GoesOn(first, outcomes, |sent|)
    ensures SentSoFar(h, first, outcomes, trigger, sent + [Request(h, StageAt(first, outcomes, |sent|), trigger)])
  {
    hide GoesOn, StageAt, Request;
  }

  lemma OutcomeEnds(o: Attempt, stage: ShrinkStage, attempts: nat)
    ensures MayGoOn(o) <==> o.CalledTool? || o.Overflowed? || (o.Failed? && o.retry)
    ensures Verdict(o, stage, attempts)
         == match o
            case BudgetRefused => Err(BudgetExhausted)
            case Summarized(text) => Ok((text, stage, attempts))
            case CalledTool => Err(ToolCallInstead)
            case Overflowed => Err(ContextOverflowed)
            case Failed(_) => Err(RequestFailed)
  {
  }

  lemma SystemLeads(h: seq<Message>)
    requires HistoryInv(h)
    ensures |h| > 0 && h[0].role == System && !IsSummary(h[0])
  {
  }

  lemma SentWellFormed(h: seq<Message>, sent: seq<seq<Message>>, trigger: seq<byte>)
    requires HistoryInv(h) && Protocol(h)
    requires forall q :: q in sent ==> exists s: ShrinkStage :: q == Request(h, s, trigger)
    ensures forall q :: q in sent ==> Protocol(q) && CountSummaries(q) == if HasSummary(h) then 1 else 0
  {
    forall q | q in sent
      ensures Protocol(q) && CountSummaries(q) == if HasSummary(h) then 1 else 0
    {
      var s: ShrinkStage :| q == Request(h, s, trigger);
      RequestWellFormed(h, s, trigger);
    }
  }

  /** The choice `compact` made is a safe and best cut. */
  lemma CutOfChoice(h: seq<Message>, start: nat, policy: TailPolicy)
    requires |h| > 2 && 2 <= start <= |h| && (start == |h| || h[start].role != Tool)
    requires FitsU32(h, policy.target) ==> Bounded(h, start, policy.preserve, policy.target)
    requires FitsU32(h, policy.target) ==> ChosenTail(h, policy.turns, policy.preserve, policy.target, Some(start))
    ensures SafeCut(h, start) && BestCut(h, start, policy)
  {
  }

  /** A fresh prompt in front, in place of the old one if there is one. */
  function Refreshed(msgs: seq<Message>, built: Option<(seq<byte>, Option<nat>)>): (r: seq<Message>)
    ensures |r| >= |msgs|
  {
    if built.None? then msgs
    else if msgs != [] && msgs[0].role == System then [SystemMessage(built.value.0)] + msgs[1..]
    else [SystemMessage(built.value.0)] + msgs
  }

  /** A course a compaction of this history can take. */
  predicate CanTake(course: Course, msgs: seq<Message>) {
    course.TooShort? || (|msgs| > 0 && (course.Replaced? ==> course.start <= |Repair(msgs)|))
  }

  class AgentState {
    var messages: seq<Message>
    var lastPrompt: Option<u32>
    var failedAt: Option<u32>
    var readFiles: set<string>
    var cacheSplit: Option<nat>
    var contextWindow: Option<u32>
    var resolved: Resolved
    var autoCompact: bool
    var reserved: u32
    var tail: TailPolicy
    const maxTokens: Option<u32>
    const toolTokens: u32
    var sessionId: string
    const prompts: Prompts
    const cost: Budget.CostMeter

    constructor (messages: seq<Message>, resolved: Resolved, tail: TailPolicy, maxTokens: Option<u32>, toolTokens: u32, prompts: Prompts,
                 sessionId: string, cost: Budget.CostMeter)
      requires tail.target == resolved.target
      ensures this.messages == messages && this.resolved == resolved
              && this.tail == tail && this.sessionId == sessionId && this.cost == cost
    {
      this.sessionId, this.cost := sessionId, cost;
      this.messages, this.resolved, this.tail := messages, resolved, tail;
      this.maxTokens, this.toolTokens, this.prompts := maxTokens, toolTokens, prompts;
      lastPrompt, failedAt, readFiles, cacheSplit, contextWindow := None, None, {}, None, None;
      autoCompact, reserved := true, 0;
    }

    function OutputAllowance(): u32 { if maxTokens.Some? then maxTokens.value else COMPACT_ASSUMED_OUTPUT_TOKENS }

    /** `estimated_context_for` */
    function EstimatedContextFor(target: TokenTarget): u32
      reads this`messages
    {
      SatAdd(Estimate(messages, target), toolTokens)
    }

    lemma ContextIs(target: TokenTarget)
      ensures EstimatedContextFor(target) == SatAdd(Estimate(messages, target), toolTokens)
    {
    }

    /** The best a proactive compaction of this history could still gain, charging the summary at the full
        output allowance. */
    function ProjectedGain(msgs: seq<Message>, reason: Reason, start: nat, prior: u32): u32
      requires |msgs| > 0 && start <= |msgs|
      reads this`tail
    {
      var continuation := UserMessage(prompts.framing(reason, start < |msgs|));
      var projected := SatAdd(SatAdd(SatAdd(SatAdd(Estimate(msgs[..1], tail.target), Estimate([continuation], tail.target)),
                                            Estimate(msgs[start..], tail.target)), toolTokens), OutputAllowance());
      SatSub(Max(prior, SatAdd(Estimate(msgs, tail.target), toolTokens)), projected)
    }

    /** Where a compaction of a repaired history cuts, if anywhere. */
    function PlannedStart(msgs: seq<Message>, reason: Reason, prior: u32, window: Option<u32>): Option<nat>
      requires |msgs| > 2
      reads this`tail
    {
      var chosen := Chosen(msgs, tail.turns, tail.preserve, tail.target);
      if chosen.Some? && reason == ContextFilling && window.Some?
         && ProjectedGain(msgs, reason, chosen.value, prior) < RetryGrowth(window) then None else chosen
    }

    /** The stage its summarization starts at: the prompt, the tools and the trigger cannot be shrunk. */
    function StartingStage(msgs: seq<Message>, trigger: seq<byte>, window: Option<u32>): ShrinkStage
      requires |msgs| > 0
      reads this`tail
    {
      var fixedTokens := SatAdd(SatAdd(Estimate(msgs[..1], tail.target), toolTokens), Estimate([UserMessage(trigger)], tail.target));
      FirstStage(msgs[1..], window, OutputAllowance(), fixedTokens, tail.target)
    }

    /** How the compaction of a history goes, decided by the history, the reading before it, the window and
        how its requests end. */
    function CourseOf(msgs: seq<Message>, prior: u32, reason: Reason, trigger: seq<byte>, outcomes: seq<Attempt>, window: Option<u32>)
      : (course: Course)
      reads this`tail
      ensures CanTake(course, msgs)
    {
      if |msgs| <= 2 then TooShort
      else
        RepairGrows(msgs);
        var repaired := Repair(msgs);
        var start := PlannedStart(repaired, reason, prior, window);
        if start.None? then NoCut
        else
          var first := StartingStage(repaired, trigger, window);
          match SummaryOf(first, outcomes)
          case Err(error) => Refused(first, error)
          case Ok((text, stage, attempts)) =>
            if prompts.blank(text) then Refused(first, EmptySummary) else Replaced(start.value, first, text, stage, attempts)
    }

    /** The history it leaves. */
    function HistoryAfter(course: Course, msgs: seq<Message>, reason: Reason, built: Option<(seq<byte>, Option<nat>)>): seq<Message>
      requires CanTake(course, msgs)
    {
      if course.TooShort? then msgs
      else if !course.Replaced? then Repair(msgs)
      else
        RepairGrows(msgs);
        var refreshed := Refreshed(Repair(msgs), built);
        var kept := refreshed[course.start..];
        Rebuilt(refreshed[0], reason, prompts.framing(reason, kept != []) + [0x0A, 0x0A] + course.text, kept)
    }

    /** The requests it uploads. */
    function SentOn(course: Course, msgs: seq<Message>, trigger: seq<byte>, outcomes: seq<Attempt>): seq<seq<Message>>
      requires CanTake(course, msgs)
    {
      if course.TooShort? || course.NoCut? then []
      else
        RepairGrows(msgs);
        Sent(Repair(msgs), course.first, outcomes, trigger)
    }

    lemma IdleReport(reason: Reason, messages: nat)
      ensures NothingToDo(reason, messages) == Report(reason, messages, messages, 0, Full, 0)
    {
    }

    lemma StartingStageIs(msgs: seq<Message>, trigger: seq<byte>, window: Option<u32>)
      requires |msgs| > 0
      ensures MemoFits(None, msgs[1..])
      ensures StartingStage(msgs, trigger, window)
           == FirstStage(msgs[1..], window, OutputAllowance(),
                         SatAdd(SatAdd(Estimate(msgs[..1], tail.target), toolTokens), Estimate([UserMessage(trigger)], tail.target)),
                         tail.target)
    {
    }

    lemma CourseSteps(msgs: seq<Message>, prior: u32, reason: Reason, trigger: seq<byte>, outcomes: seq<Attempt>, window: Option<u32>)
      ensures |msgs| <= 2 ==> CourseOf(msgs, prior, reason, trigger, outcomes, window) == TooShort
      ensures |msgs| > 2 ==>
                && |Repair(msgs)| > 2
                && var start := PlannedStart(Repair(msgs), reason, prior, window);
                   var first := StartingStage(Repair(msgs), trigger, window);
                   var summary := SummaryOf(first, outcomes);
                   CourseOf(msgs, prior, reason, trigger, outcomes, window)
                   == if start.None? then NoCut
                      else if summary.Err? then Refused(first, summary.error)
                      else if prompts.blank(summary.value.0) then Refused(first, EmptySummary)
                      else Replaced(start.value, first, summary.value.0, summary.value.1, summary.value.2)
    {
      RepairGrows(msgs);
      hide Repair, PlannedStart, StartingStage, SummaryOf;
    }

    /** A compaction replaces the history exactly when there is a cut to make and a request the loop reaches is
        answered with a summary that is not blank. */
    lemma ReplacesExactly(msgs: seq<Message>, prior: u32, reason: Reason, trigger: seq<byte>, outcomes: seq<Attempt>, window: Option<u32>,
                          start: nat, text: seq<byte>, stage: ShrinkStage, attempts: nat)
      requires |msgs| > 2
      ensures |Repair(msgs)| > 2
      ensures var first := StartingStage(Repair(msgs), trigger, window);
              CourseOf(msgs, prior, reason, trigger, outcomes, window) == Replaced(start, first, text, stage, attempts)
              <==> (PlannedStart(Repair(msgs), reason, prior, window) == Some(start) && !prompts.blank(text)
                    && 0 < attempts <= |outcomes| && GoesOn(first, outcomes, attempts - 1)
                    && outcomes[attempts - 1] == Summarized(text) && stage == StageAt(first, outcomes, attempts - 1))
    {
      CourseSteps(msgs, prior, reason, trigger, outcomes, window);
      hide CourseOf, Repair, PlannedStart, StartingStage, SummaryOf, GoesOn, StageAt;
      SummaryExactly(StartingStage(Repair(msgs), trigger, window), outcomes, text, stage, attempts);
    }

    /** The history a compaction would leave before its summary is known: prompt, framing, and the tail from
        `start` on. */
    function FramedHistory(msgs: seq<Message>, reason: Reason, start: nat): seq<Message>
      requires msgs != [] && start <= |msgs|
    {
      Rebuilt(msgs[0], reason, prompts.framing(reason, start < |msgs|), msgs[start..])
    }

    lemma FramedCosts(msgs: seq<Message>, reason: Reason, start: nat, target: TokenTarget)
      requires msgs != [] && start <= |msgs|
      ensures Exact(FramedHistory(msgs, reason, start), target)
           == Exact(msgs[..1], target) + Exact([UserMessage(prompts.framing(reason, start < |msgs|))], target) + Exact(msgs[start..], target)
    {
      var text := prompts.framing(reason, start < |msgs|);
      var summary := SummaryMessage(reason, text);
      assert MessageTokens(summary, target) == MessageTokens(UserMessage(text), target);
      assert FramedHistory(msgs, reason, start) == (msgs[..1] + [summary]) + msgs[start..];
      hide MessageTokens;
      ExactConcat(msgs[..1] + [summary], msgs[start..], target);
      ExactConcat(msgs[..1], [summary], target);
      ExactOne(summary, target);
      ExactOne(UserMessage(text), target);
    }

    lemma ExactReads(msgs: seq<Message>, target: TokenTarget)
      requires Exact(msgs, target) <= U32_MAX
      ensures Estimate(msgs, target) as nat == Exact(msgs, target)
    {
      hide Exact, Estimate;
      EstimateWraps(msgs, target);
      WrapSmall(Exact(msgs, target));
    }

    lemma GainIs(msgs: seq<Message>, reason: Reason, start: nat, prior: u32)
      requires msgs != [] && start <= |msgs|
      requires Exact(msgs, tail.target) + toolTokens <= U32_MAX
      requires Exact(FramedHistory(msgs, reason, start), tail.target) + toolTokens + OutputAllowance() <= U32_MAX
      ensures var now := Exact(msgs, tail.target) + toolTokens;
              var left := Exact(FramedHistory(msgs, reason, start), tail.target) + toolTokens + OutputAllowance();
              var most := if prior < now then now else prior;
              ProjectedGain(msgs, reason, start, prior) as int == if most < left then 0 else most - left
    {
      hide Exact, Estimate, FramedHistory, UserMessage, OutputAllowance;
      var framing := [UserMessage(prompts.framing(reason, start < |msgs|))];
      FramedCosts(msgs, reason, start, tail.target);
      ExactReads(msgs, tail.target);
      ExactReads(msgs[..1], tail.target);
      ExactReads(framing, tail.target);
      ExactReads(msgs[start..], tail.target);
    }

    lemma CutMadeExactly(msgs: seq<Message>, prior: u32, reason: Reason, window: Option<u32>)
      requires |msgs| > 2
      ensures var made := PlannedStart(msgs, reason, prior, window);
              var chosen := Chosen(msgs, tail.turns, tail.preserve, tail.target);
              && (made.None? || made == chosen)
              && (reason != ContextFilling || window.None? ==> made == chosen)
              && (reason == ContextFilling && window.Some? && chosen.Some?
                  && Exact(msgs, tail.target) + toolTokens <= U32_MAX
                  && Exact(FramedHistory(msgs, reason, chosen.value), tail.target) + toolTokens + OutputAllowance() <= U32_MAX ==>
                    var now := Exact(msgs, tail.target) + toolTokens;
                    var left := Exact(FramedHistory(msgs, reason, chosen.value), tail.target) + toolTokens + OutputAllowance();
                    (made == chosen <==> window.value < 16 || now >= left + window.value / 16 || prior as int >= left + window.value / 16))
    {
      hide Exact, Chosen, ProjectedGain, FramedHistory, OutputAllowance;
      var chosen := Chosen(msgs, tail.turns, tail.preserve, tail.target);
      if chosen.Some? && Exact(msgs, tail.target) + toolTokens <= U32_MAX
         && Exact(FramedHistory(msgs, reason, chosen.value), tail.target) + toolTokens + OutputAllowance() <= U32_MAX {
        GainIs(msgs, reason, chosen.value, prior);
      }
    }

    /** Its first request is the least shrunk one that the window has room for, next to the answer, the slack,
        the prompt, the tools and the instruction. */
    lemma FirstRequestFits(msgs: seq<Message>, prior: u32, reason: Reason, trigger: seq<byte>, outcomes: seq<Attempt>,
                           window: Option<u32>)
      requires |msgs| > 2
      ensures |Repair(msgs)| > 2
      ensures var h, course := Repair(msgs), CourseOf(msgs, prior, reason, trigger, outcomes, window);
              var fixed := Exact(h[..1], tail.target) + toolTokens + Exact([UserMessage(trigger)], tail.target);
              var allowance: nat := 8192 + if maxTokens.Some? then maxTokens.value else 32768;
              (course.Refused? || course.Replaced?) && fixed <= U32_MAX && allowance <= U32_MAX ==>
                var room := if window.None? then 0 else window.value - allowance - fixed;
                if room <= 0 then course.first == Full
                else
                  && (course.first == Eighth || FastEstimate(course.first, h[1..], tail.target) <= room)
                  && forall s: ShrinkStage :: Rank(s) < Rank(course.first) ==> FastEstimate(s, h[1..], tail.target) > room
    {
      CourseSteps(msgs, prior, reason, trigger, outcomes, window);
      var h := Repair(msgs);
      hide CourseOf, Repair, PlannedStart, SummaryOf, FirstStage, FastEstimate, Exact, Estimate;
      if Exact(h[..1], tail.target) + toolTokens + Exact([UserMessage(trigger)], tail.target) <= U32_MAX {
        ExactReads(h[..1], tail.target);
        ExactReads([UserMessage(trigger)], tail.target);
        var fixed: u32 := Exact(h[..1], tail.target) + toolTokens + Exact([UserMessage(trigger)], tail.target);
        FirstStageExactly(h[1..], window, OutputAllowance(), fixed, tail.target);
      }
    }

    /** What a compaction of this history would leave to send next, with a summary at the full allowance. */
    function ContextLeft(msgs: seq<Message>, reason: Reason, start: nat): nat
      requires msgs != [] && start <= |msgs|
      reads this`tail
    {
      Exact(Rebuilt(msgs[0], reason, prompts.framing(reason, start < |msgs|), msgs[start..]), tail.target)
      + toolTokens + if maxTokens.Some? then maxTokens.value else 32768
    }

    /** When a compaction gives up before it asks for a summary: when there is no cut to make; and a proactive
        pass against a known window, of sixteen tokens at least, also when neither the last reading nor the
        present context is a sixteenth of the window above what would be left. A cut that is made is the one
        chosen. */
    lemma NoCutExactly(msgs: seq<Message>, prior: u32, reason: Reason, trigger: seq<byte>, outcomes: seq<Attempt>, window: Option<u32>)
      requires |msgs| > 2
      ensures |Repair(msgs)| > 2
      ensures var h, course := Repair(msgs), CourseOf(msgs, prior, reason, trigger, outcomes, window);
              var chosen := Chosen(h, tail.turns, tail.preserve, tail.target);
              && (chosen.None? ==> course == NoCut)
              && (course.Replaced? ==> chosen == Some(course.start))
              && (chosen.Some? && (reason != ContextFilling || window.None?) ==> course != NoCut)
              && (chosen.Some? && reason == ContextFilling && window.Some?
                  && Exact(h, tail.target) + toolTokens <= U32_MAX && ContextLeft(h, reason, chosen.value) <= U32_MAX ==>
                    var least := ContextLeft(h, reason, chosen.value) + window.value / 16;
                    (course == NoCut <==> window.value >= 16 && Exact(h, tail.target) + toolTokens < least && prior < least))
    {
      CourseSteps(msgs, prior, reason, trigger, outcomes, window);
      hide CourseOf, Repair, Chosen, PlannedStart, StartingStage, SummaryOf, Exact, Rebuilt;
      CutMadeExactly(Repair(msgs), prior, reason, window);
    }

    /** A replaced history, message by message: the prompt, rebuilt if it could be; the summary behind its
        framing; and the tail from the cut on, untouched. */
    lemma ReplacedHistory(course: Course, msgs: seq<Message>, reason: Reason, built: Option<(seq<byte>, Option<nat>)>)
      requires CanTake(course, msgs) && course.Replaced? && course.start > 0
      ensures |Repair(msgs)| > 0
      ensures Repair(msgs)[0].role == System ==>
                var h, after := Repair(msgs), HistoryAfter(course, msgs, reason, built);
                && |after| == 2 + |h| - course.start
                && after[0] == (if built.Some? then Message(System, FromUser, Some(built.value.0), None, None, []) else h[0])
                && after[1] == Message(User, Summary(reason),
                                       Some(prompts.framing(reason, course.start < |h|) + [0x0A, 0x0A] + course.text), None, None, [])
                && after[2..] == h[course.start..]
    {
      RepairGrows(msgs);
      hide Repair;
    }

    lemma CourseLeaves(course: Course, msgs: seq<Message>, reason: Reason, built: Option<(seq<byte>, Option<nat>)>, trigger: seq<byte>,
                       outcomes: seq<Attempt>)
      requires CanTake(course, msgs)
      ensures course.TooShort? ==> HistoryAfter(course, msgs, reason, built) == msgs
      ensures course.NoCut? || course.Refused? ==> HistoryAfter(course, msgs, reason, built) == Repair(msgs)
      ensures course.TooShort? || course.NoCut? ==> SentOn(course, msgs, trigger, outcomes) == []
      ensures course.Refused? || course.Replaced? ==>
                |Repair(msgs)| > 0 && SentOn(course, msgs, trigger, outcomes) == Sent(Repair(msgs), course.first, outcomes, trigger)
      ensures course.Replaced? ==>
                var refreshed := Refreshed(Repair(msgs), built);
                && course.start <= |Repair(msgs)| <= |refreshed| && |refreshed| > 0
                && var kept := refreshed[course.start..];
                   HistoryAfter(course, msgs, reason, built)
                   == Rebuilt(refreshed[0], reason, prompts.framing(reason, kept != []) + [0x0A, 0x0A] + course.text, kept)
    {
      RepairGrows(msgs);
      hide Repair, Sent, Rebuilt, Refreshed;
    }

    /** `refresh_system_prompt_in_place`; `None` when the prompt cannot be built. */
    method RefreshSystemPrompt(built: Option<(seq<byte>, Option<nat>)>)
      modifies this`messages, this`cacheSplit
      ensures messages == Refreshed(old(messages), built)
      ensures built.None? ==> messages == old(messages) && cacheSplit == old(cacheSplit)
      ensures built.Some? ==> cacheSplit == built.value.1
      ensures built.Some? && old(messages) != [] && old(messages)[0].role == System ==>
                messages == [SystemMessage(built.value.0)] + old(messages)[1..]
      ensures built.Some? && (old(messages) == [] || old(messages)[0].role != System) ==>
                messages == [SystemMessage(built.value.0)] + old(messages)
    {
      if built.None? { return; }
      cacheSplit := built.value.1;
      if messages != [] && messages[0].role == System {
        messages := messages[0 := SystemMessage(built.value.0)];
      } else {
        messages := [SystemMessage(built.value.0)] + messages;
      }
    }

    /** The end of `compact`: rebuild the prompt, then the history, and forget what the model had read. */
    method InstallSummary(reason: Reason, start: nat, summary: seq<byte>, built: Option<(seq<byte>, Option<nat>)>)
      requires SafeCut(messages, start) && BestCut(messages, start, tail)
      modifies this`messages, this`failedAt, this`readFiles, this`cacheSplit
      ensures var refreshed := Refreshed(old(messages), built);
              var kept := refreshed[start..];
              messages == Rebuilt(refreshed[0], reason, prompts.framing(reason, kept != []) + [0x0A, 0x0A] + summary, kept)
      ensures cacheSplit == if built.Some? then built.value.1 else old(cacheSplit)
      ensures HistoryInv(old(messages)) && Protocol(old(messages)) ==>
                CompactedFrom(old(messages), messages, reason, tail) && HistoryInv(messages) && Protocol(messages) && HasSummary(messages)
      ensures readFiles == {} && failedAt == None
    {
      hide HistoryInv, Protocol, BestCut, HasSummary;
      ghost var before := messages;
      RefreshSystemPrompt(built);
      var system := messages[0];
      var kept := messages[start..];
      var text := prompts.framing(reason, kept != []) + [0x0A, 0x0A] + summary;
      messages := Rebuilt(system, reason, text, kept);
      if HistoryInv(before) && Protocol(before) {
        SystemLeads(before);
        assert kept == before[start..];
        assert CompactedFrom(before, messages, reason, tail);
        CompactionKeepsInv(before, messages, reason, tail);
      }
      readFiles := {};
      failedAt := None;
    }

    /** The start of `compact`: repair, choose the tail, and for a proactive pass give up when even the
        best outcome would not buy enough room. */
    method Plan(reason: Reason, prior: u32) returns (start: Option<nat>)
      requires |messages| > 2
      modifies this`messages
      ensures messages == Repair(old(messages)) && |messages| > 2
      ensures start.Some? ==> SafeCut(messages, start.value) && BestCut(messages, start.value, tail)
      ensures start == PlannedStart(messages, reason, prior, contextWindow)
    {
      hide Repair, Estimate, BestCut, Chosen, ProjectedGain;
      RepairGrows(messages);
      messages := RepairDanglingToolCalls(messages);
      start := ChooseTail(messages, tail.turns, tail.preserve, tail.target);
      if start.None? { return; }
      CutOfChoice(messages, start.value, tail);
      if reason == ContextFilling && contextWindow.Some?
         && ProjectedGain(messages, reason, start.value, prior) < RetryGrowth(contextWindow) {
        start := None;
      }
    }

    /** `compact`, on any history. The answer, the history left and the requests sent are those of its course.
        Whatever happens the last prompt reading is gone; on an error or when there is nothing to do, at
        most dangling calls were repaired. On a history that keeps the
        invariant: it is kept, every request sent was well formed and carried the prior summary exactly
        once, and on success the history is prompt, summary and the chosen tail. */
    method Compact(reason: Reason, trigger: seq<byte>, outcomes: seq<Attempt>, built: Option<(seq<byte>, Option<nat>)>)
      returns (r: Result<Report, CompactError>, sent: seq<seq<Message>>)
      modifies this`messages, this`lastPrompt, this`failedAt, this`readFiles, this`cacheSplit
      ensures var course := old(CourseOf(messages, OrZero(lastPrompt), reason, trigger, outcomes, contextWindow));
              && r == (match course
                       case Refused(_, error) => Err(error)
                       case Replaced(_, _, _, stage, attempts) =>
                         Ok(Report(reason, |old(messages)|, |messages|, EstimatedContextFor(tail.target), stage, attempts))
                       case _ => Ok(NothingToDo(reason, |old(messages)|)))
              && messages == HistoryAfter(course, old(messages), reason, built)
              && sent == SentOn(course, old(messages), trigger, outcomes)
              && cacheSplit == (if course.Replaced? && built.Some? then built.value.1 else old(cacheSplit))
              && (course.Replaced? ==> course.attempts > 0)
      ensures lastPrompt == None
      ensures r.Err? || r.value.attempts == 0 ==>
                && (messages == old(messages) || messages == Repair(old(messages)))
                && readFiles == old(readFiles) && failedAt == old(failedAt) && cacheSplit == old(cacheSplit)
      ensures r.Ok? && r.value.attempts == 0 ==> r.value == NothingToDo(reason, |old(messages)|) && sent == []
      ensures r.Ok? && r.value.attempts > 0 ==>
                && readFiles == {} && failedAt == None
                && r.value.attempts == |sent| && r.value.before == |old(messages)| && r.value.after == |messages|
                && r.value.contextAfter == EstimatedContextFor(tail.target)
      ensures HistoryInv(old(messages)) ==> HistoryInv(messages)
      ensures HistoryInv(old(messages)) && r.Ok? && r.value.attempts > 0 ==>
                CompactedFrom(Repair(old(messages)), messages, reason, tail) && Protocol(messages) && HasSummary(messages)
      ensures HistoryInv(old(messages)) ==>
                forall q :: q in sent ==> Protocol(q) && CountSummaries(q) == if HasSummary(old(messages)) then 1 else 0
    {
      hide *;
      IdleReport(reason, |messages|);
      CourseSteps(messages, OrZero(lastPrompt), reason, trigger, outcomes, contextWindow);
      ghost var course := CourseOf(messages, OrZero(lastPrompt), reason, trigger, outcomes, contextWindow);
      CourseLeaves(course, messages, reason, built, trigger, outcomes);
      sent := [];
      var prior := lastPrompt;
      lastPrompt := None;
      var before := |messages|;
      ghost var history := messages;
      if before <= 2 { return Ok(NothingToDo(reason, before)), sent; }
      var start := Plan(reason, OrZero(prior));
      if HistoryInv(history) { RepairKeepsInv(history); }
      if start.None? { return Ok(NothingToDo(reason, before)), sent; }
      var fixedTokens := SatAdd(SatAdd(Estimate(messages[..1], tail.target), toolTokens), Estimate([UserMessage(trigger)], tail.target));
      StartingStageIs(messages, trigger, contextWindow);
      var stage, memo := FirstViableStage(messages[1..], None, contextWindow, OutputAllowance(), fixedTokens, tail.target);
      var summarized;
      summarized, sent := Summarize(messages, memo, stage, trigger, outcomes);
      if HistoryInv(history) { SentWellFormed(messages, sent, trigger); }
      if summarized.Err? { return Err(summarized.error), sent; }
      var (summary, stage', attempts) := summarized.value;
      if prompts.blank(summary) { return Err(EmptySummary), sent; }
      InstallSummary(reason, start.value, summary, built);
      r := Ok(Report(reason, before, |messages|, EstimatedContextFor(tail.target), stage', attempts));
    }

    /** `ensure_context_window` */
    method EnsureContextWindow()
      modifies this`contextWindow
      ensures contextWindow == if old(contextWindow).Some? then old(contextWindow) else resolved.window
    {
      if contextWindow.None? { contextWindow := resolved.window; }
    }

    /** The window as far as it can be learned. */
    function LearnedWindow(): Option<u32>
      reads this`contextWindow, this`resolved
    {
      if contextWindow.Some? then contextWindow else resolved.window
    }

    /** The reading a check goes by: the server's last one, or the local estimate where that is larger. */
    function EffectiveReading(): u32
      reads this`messages, this`lastPrompt, this`tail
    {
      Max(OrZero(lastPrompt), EstimatedContextFor(tail.target))
    }

    /** `maybe_self_compact`. Nothing is sent unless the effective reading is past the trigger and past
        the last failure by the required growth; a failure is remembered at the reading it happened at,
        and only a compaction that changed the history clears one. */
    method MaybeSelfCompact(trigger: seq<byte>, outcomes: seq<Attempt>, built: Option<(seq<byte>, Option<nat>)>)
      returns (attempted: bool, failed: bool, sent: seq<seq<Message>>)
      modifies this`messages, this`lastPrompt, this`failedAt, this`readFiles, this`cacheSplit, this`contextWindow
      ensures var reading := old(EffectiveReading());
              && attempted == (autoCompact && Attempts(reading, contextWindow, reserved, autoCompact, old(failedAt)))
              && (failed ==> attempted && failedAt == Some(reading))
              && (!attempted ==> sent == [] && messages == old(messages) && lastPrompt == old(lastPrompt) && readFiles == old(readFiles))
              && (!failed ==> failedAt == old(failedAt) || failedAt == None)
              && (!failed && failedAt != old(failedAt) ==> readFiles == {})
      ensures contextWindow == if autoCompact then old(LearnedWindow()) else old(contextWindow)
      ensures var window := if old(contextWindow).Some? then old(contextWindow) else resolved.window;
              var context := SatAdd(Estimate(old(messages), tail.target), toolTokens);
              var reading := if old(lastPrompt).Some? && old(lastPrompt).value > context then old(lastPrompt).value else context;
              && (attempted <==>
                    && autoCompact && window.Some? && window.value > 0
                    && window.value - reading <= reserved && window.value - reading <= window.value / 4
                    && (old(failedAt).None? || reading >= old(failedAt).value + window.value / 16 || reading == 0xFFFF_FFFF))
              && (failed ==> failedAt == Some(reading))
      ensures var course := old(CourseOf(messages, OrZero(lastPrompt), ContextFilling, trigger, outcomes, LearnedWindow()));
              && (failed <==> attempted && course.Refused?)
              && (attempted ==> lastPrompt == None && messages == HistoryAfter(course, old(messages), ContextFilling, built)
                                && sent == SentOn(course, old(messages), trigger, outcomes))
              && failedAt == (if failed then Some(old(EffectiveReading()))
                              else if attempted && course.Replaced? then None else old(failedAt))
      ensures HistoryInv(old(messages)) ==> HistoryInv(messages)
    {
      hide HistoryInv, Protocol, Repair, Estimate, HasSummary, CountSummaries, CompactedFrom, CompactionTrigger, EstimatedContextFor;
      hide CourseOf, HistoryAfter, SentOn, CanTake, Refreshed, SafeCut, BestCut, IsSummary;
      sent := [];
      attempted, failed := false, false;
      ContextIs(tail.target);
      if !autoCompact { return; }
      var reading := Max(OrZero(lastPrompt), EstimatedContextFor(tail.target));
      EnsureContextWindow();
      AttemptsWhen(reading, contextWindow, reserved, autoCompact, failedAt);
      hide RetryGrowth;
      if !ShouldAutoCompact(reading, contextWindow, reserved, autoCompact) { return; }
      if Suppressed(failedAt, reading, contextWindow) { return; }
      attempted := true;
      var r;
      r, sent := Compact(ContextFilling, trigger, outcomes, built);
      if r.Err? {
        failed := true;
        failedAt := Some(reading);
      }
    }

    /** `invalidate_context_window` */
    method InvalidateContextWindow()
      modifies this`contextWindow, this`failedAt
      ensures contextWindow == None && failedAt == None
    {
      contextWindow := None;
      failedAt := None;
    }

    /** `adopt_resolved`: the single writer of the identity. */
    method AdoptResolved(identity: Resolved)
      modifies this`resolved, this`tail, this`contextWindow, this`failedAt
      ensures resolved == identity && tail == old(tail).(target := identity.target)
      ensures contextWindow == None && failedAt == None
    {
      tail := tail.(target := identity.target);
      resolved := identity;
      InvalidateContextWindow();
    }

    /** `clear`: a fresh conversation, with its own id, that has cost nothing yet. */
    method Clear(built: Option<(seq<byte>, Option<nat>)>, freshId: string)
      modifies this`messages, this`readFiles, this`failedAt, this`cacheSplit, this`sessionId, cost
      ensures sessionId == freshId && cost.total == 0.0 && !cost.partial
      ensures cacheSplit == if built.Some? then built.value.1 else old(cacheSplit)
      ensures messages == (if built.Some? then [SystemMessage(built.value.0)] else []) && readFiles == {} && failedAt == None
      ensures built.Some? ==> HistoryInv(messages)
    {
      messages := [];
      readFiles := {};
      cost.ResetSessionCost();
      RefreshSystemPrompt(built);
      failedAt := None;
      sessionId := freshId;
    }

    /** The switch changes the model, and the context as the new one counts it is past its trigger. */
    predicate SwitchNeedsRoom(identity: Resolved, knownWindow: Option<u32>)
      reads this`autoCompact, this`resolved, this`messages, this`reserved
    {
      var window := SwitchWindow(identity, knownWindow);
      autoCompact && identity.reference != resolved.reference && window.Some?
      && EstimatedContextFor(identity.target) >= CompactionTrigger(window.value, reserved)
    }

    lemma NeedsRoomIs(identity: Resolved, knownWindow: Option<u32>)
      ensures var window := SwitchWindow(identity, knownWindow);
              && window == (if knownWindow.Some? then knownWindow else identity.window)
              && (SwitchNeedsRoom(identity, knownWindow)
                  <==> autoCompact && identity.reference != resolved.reference && window.Some?
                       && EstimatedContextFor(identity.target) >= CompactionTrigger(window.value, reserved))
    {
    }

    lemma ReportIs(course: Course, reason: Reason, before: nat, after: nat, context: u32)
      ensures ReportOf(course, reason, before, after, context)
           == (match course
               case Replaced(_, _, _, stage, attempts) => Report(reason, before, after, context, stage, attempts)
               case _ => NothingToDo(reason, before).(contextAfter := context))
    {
    }

    /** `switch_model_ref` is a transaction. On any error the conversation, the files the model has read,
        the last prompt reading, the failure mark, the cache split and the identity are what they were at
        entry, whatever the compaction in between had done to them. On success the new identity is in
        force with its window, and if a compaction was needed the context is now below the new trigger;
        if none was, the conversation is untouched. */
    method SwitchModelRef(resolution: Option<Resolved>, knownWindow: Option<u32>, trigger: seq<byte>, outcomes: seq<Attempt>,
                          built: Option<(seq<byte>, Option<nat>)>)
      returns (r: Result<Option<Report>, SwitchError>)
      modifies this`messages, this`lastPrompt, this`failedAt, this`readFiles,
               this`cacheSplit, this`contextWindow, this`resolved, this`tail
      ensures r.Err? ==>
                && messages == old(messages) && readFiles == old(readFiles) && lastPrompt == old(lastPrompt)
                && failedAt == old(failedAt) && cacheSplit == old(cacheSplit)
                && resolved == old(resolved) && tail == old(tail) && contextWindow == old(contextWindow)
      ensures resolution.None? ==> r.Err?
      ensures var course := old(CourseOf(messages, OrZero(lastPrompt), ModelSwitch, trigger, outcomes, contextWindow));
              r == if resolution.None? then Err(Unresolved)
                   else if !old(SwitchNeedsRoom(resolution.value, knownWindow)) then Ok(None)
                   else if course.Refused? then Err(CompactFailed(course.error))
                   else
                     var limit := CompactionTrigger(SwitchWindow(resolution.value, knownWindow).value, reserved);
                     var history := HistoryAfter(course, old(messages), ModelSwitch, built);
                     var after := SatAdd(Estimate(history, resolution.value.target), toolTokens);
                     if after >= limit then Err(StillTooLarge(after, limit))
                     else Ok(Some(ReportOf(course, ModelSwitch, |old(messages)|, |history|, after)))
      ensures r.Ok? && r.value.Some? ==>
                messages == HistoryAfter(old(CourseOf(messages, OrZero(lastPrompt), ModelSwitch, trigger, outcomes, contextWindow)),
                                         old(messages), ModelSwitch, built)
      ensures r.Ok? ==>
                var window := if knownWindow.Some? then knownWindow else resolution.value.window;
                var context := SatAdd(Estimate(old(messages), resolution.value.target), toolTokens);
              var needed := autoCompact && resolution.value.reference != old(resolved).reference && window.Some?
                              && window.value - context <= reserved && window.value - context <= window.value / 4;
                && resolved == resolution.value && tail == old(tail).(target := resolution.value.target)
                && contextWindow == window && failedAt == None
                && (r.value.Some? <==> needed)
                && (needed ==>
                    var after := SatAdd(Estimate(messages, tail.target), toolTokens);
                    && r.value.value.contextAfter == after
                    && (window.value - after > reserved || window.value - after > window.value / 4))
                && (!needed ==> messages == old(messages) && readFiles == old(readFiles) && lastPrompt == old(lastPrompt))
      ensures HistoryInv(old(messages)) ==> HistoryInv(messages)
    {
      hide *;
      if resolution.Some? { NeedsRoomIs(resolution.value, knownWindow); }
      ghost var course := CourseOf(messages, OrZero(lastPrompt), ModelSwitch, trigger, outcomes, contextWindow);
      if resolution.None? { return Err(Unresolved); }
      var identity := resolution.value;
      var window := if knownWindow.Some? then knownWindow else identity.window;
      var report := None;
      if autoCompact && identity.reference != resolved.reference && window.Some? {
        var limit := CompactionTrigger(window.value, reserved);
        ContextIs(identity.target);
        PastTrigger(EstimatedContextFor(identity.target), window.value, reserved);
        if EstimatedContextFor(identity.target) >= limit {
          var messagesBefore, readFilesBefore, lastPromptBefore := messages, readFiles, lastPrompt;
          var failedAtBefore, cacheSplitBefore := failedAt, cacheSplit;
          var compacted, sent := Compact(ModelSwitch, trigger, outcomes, built);
          if compacted.Err? {
            messages, readFiles, lastPrompt := messagesBefore, readFilesBefore, lastPromptBefore;
            failedAt, cacheSplit := failedAtBefore, cacheSplitBefore;
            return Err(CompactFailed(compacted.error));
          }
          var after := EstimatedContextFor(identity.target);
          ContextIs(identity.target);
          PastTrigger(after, window.value, reserved);
          ReportIs(course, ModelSwitch, |messagesBefore|, |messages|, after);
          if after >= limit {
            messages, readFiles, lastPrompt := messagesBefore, readFilesBefore, lastPromptBefore;
            failedAt, cacheSplit := failedAtBefore, cacheSplitBefore;
            return Err(StillTooLarge(after, limit));
          }
          report := Some(compacted.value.(contextAfter := after));
        }
      }
      AdoptResolved(identity);
      contextWindow := window;
      r := Ok(report);
    }
  }
}
