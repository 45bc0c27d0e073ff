/** What every conversation history keeps, across pushes, repairs and compactions. */
module History {
  import opened Bytes
  import opened Messages
  import opened TailChoice
  import opened ToolProtocol
  import opened ShrinkLadder

  /** A system prompt first, every tool result behind its call, and a summary only at index 1. */
  ghost predicate HistoryInv(h: seq<Message>) {
    |h| > 0 && h[0].role == System && Anchored(h)
    && forall i :: 0 <= i < |h| && IsSummary(h[i]) ==> i == 1 && h[i].role == User
  }

  predicate HasSummary(h: seq<Message>) { |h| > 1 && IsSummary(h[1]) }

  function SummaryMessage(reason: Reason, text: seq<byte>): Message {
    UserMessage(text).(origin := Summary(reason))
  }

  function SystemMessage(text: seq<byte>): Message { Message(System, FromUser, Some(text), None, None, []) }

  /** The rebuilt history: prompt, summary, verbatim tail. */
  function Rebuilt(system: Message, reason: Reason, text: seq<byte>, tail: seq<Message>): seq<Message> {
    [system, SummaryMessage(reason, text)] + tail
  }

  /** `start` is a safe place for the kept tail of `h` to begin. */
  ghost predicate SafeCut(h: seq<Message>, start: nat) {
    2 <= start <= |h| && (start == |h| || h[start].role != Tool)
  }

  /** What decides the tail: how many turns, within which budget, priced for which dialect. */
  datatype TailPolicy = TailPolicy(turns: nat, preserve: u32, target: TokenTarget)

  /** And it is the chosen one, so what is kept is bounded. */
  ghost predicate BestCut(h: seq<Message>, start: nat, policy: TailPolicy) {
    0 < |h| && start <= |h|
    && (FitsU32(h, policy.target) ==>
          Bounded(h, start, policy.preserve, policy.target)
          && ChosenTail(h, policy.turns, policy.preserve, policy.target, Some(start)))
  }

  /** `h'` is what a compaction makes of the repaired history `h`. */
  ghost predicate CompactedFrom(h: seq<Message>, h': seq<Message>, reason: Reason, policy: TailPolicy) {
    exists start: nat, system: Message, text: seq<byte> ::
      SafeCut(h, start) && BestCut(h, start, policy)
      && (system == h[0] || (system.role == System && !IsSummary(system)))
      && h' == Rebuilt(system, reason, text, h[start..])
  }

  /** The whole request a stage sends. */
  function Request(h: seq<Message>, stage: ShrinkStage, trigger: seq<byte>): seq<Message>
    requires |h| > 0
  {
    [h[0]] + StageHistory(stage, h[1..]) + [UserMessage(trigger)]
  }

  // ---- repair ----

  lemma InvOfFront(h: seq<Message>)
    requires HistoryInv(h)
    ensures !Calls(h[0]) && (HasSummary(h) ==> !Calls(h[1]))
  {
  }

  lemma SummariesOf(h: seq<Message>, from: nat)
    requires HistoryInv(h) && from <= |h| && (from >= 2 || !HasSummary(h))
    ensures forall m :: m in h[from..] ==> !IsSummary(m)
  {
    forall m | m in h[from..] ensures !IsSummary(m) {
      var i :| 0 <= i < |h[from..]| && h[from..][i] == m;
      assert h[from + i] == m;
    }
  }

  /** Repairing keeps the invariant, completes the protocol, and leaves the prompt and summary alone. */
  lemma RepairKeepsInv(h: seq<Message>)
    requires HistoryInv(h)
    ensures HistoryInv(Repair(h)) && Protocol(Repair(h))
    ensures Repair(h)[0] == h[0] && HasSummary(Repair(h)) == HasSummary(h)
    ensures HasSummary(h) ==> Repair(h)[1] == h[1]
  {
    hide Repair, Anchored, Answered;
    InvOfFront(h);
    RepairCompletes(h);
    var n := if HasSummary(h) then 2 else 1;
    RepairKeepsFront(h, n);
    var r := Repair(h);
    var rest := Repair(h[n..]);
    SummariesOf(h, n);
    RepairAddsNoSummary(h[n..]);
    assert r == h[..n] + rest;
    forall i | n <= i < |r| ensures !IsSummary(r[i]) { assert r[i] == rest[i - n] && rest[i - n] in rest; }
  }

  // ---- compaction ----

  lemma FullOfInv(h: seq<Message>)
    requires HistoryInv(h) && Protocol(h)
    ensures Protocol(h[1..]) && SummaryOnlyFirst(h[1..])
    ensures OpensOnSummary(h[1..]) == HasSummary(h) && (HasSummary(h) ==> h[1..][0].role == User)
  {
    NotToolFirst(h);
    ProtocolSuffix(h, 1);
  }

  /** Every request of the ladder is well formed for a strict server and carries the prior summary
      exactly once. */
  lemma RequestWellFormed(h: seq<Message>, stage: ShrinkStage, trigger: seq<byte>)
    requires HistoryInv(h) && Protocol(h)
    ensures Protocol(Request(h, stage, trigger))
    ensures CountSummaries(Request(h, stage, trigger)) == if HasSummary(h) then 1 else 0
  {
    hide StageHistory, Anchored, Answered, CountSummaries;
    var full := h[1..];
    var history := StageHistory(stage, full);
    var tail := [UserMessage(trigger)];
    FullOfInv(h);
    StageKeepsProtocol(stage, full);
    StageCarriesSummaryOnce(stage, full);
    PlainIsProtocol(h[0]);
    PlainIsProtocol(UserMessage(trigger));
    ProtocolConcat([h[0]], history);
    ProtocolConcat([h[0]] + history, tail);
    assert !IsSummary(h[0]);
    CountNone([h[0]]);
    CountNone(tail);
    CountConcat([h[0]], history);
    CountConcat([h[0]] + history, tail);
  }

  /** A compaction of a repaired history keeps the whole protocol and the one-summary invariant. */
  lemma CompactionKeepsInv(h: seq<Message>, h': seq<Message>, reason: Reason, policy: TailPolicy)
    requires HistoryInv(h) && Protocol(h) && CompactedFrom(h, h', reason, policy)
    ensures HistoryInv(h') && Protocol(h') && HasSummary(h')
  {
    var start: nat, system: Message, text: seq<byte> :|
      SafeCut(h, start) && BestCut(h, start, policy)
      && (system == h[0] || (system.role == System && !IsSummary(system)))
      && h' == Rebuilt(system, reason, text, h[start..]);
    RebuiltKeepsInv(h, start, system, reason, text);
  }

  lemma RebuiltKeepsInv(h: seq<Message>, start: nat, system: Message, reason: Reason, text: seq<byte>)
    requires HistoryInv(h) && Protocol(h) && SafeCut(h, start)
    requires system == h[0] || (system.role == System && !IsSummary(system))
    ensures var h' := Rebuilt(system, reason, text, h[start..]); HistoryInv(h') && Protocol(h') && HasSummary(h')
  {
    hide Anchored, Answered;
    var summary := SummaryMessage(reason, text);
    var tail := h[start..];
    assert !IsSummary(h[0]);
    ProtocolSuffix(h, start);
    PlainIsProtocol(system);
    PlainIsProtocol(summary);
    ProtocolConcat([system], [summary]);
    ProtocolConcat([system] + [summary], tail);
    assert [system] + [summary] + tail == Rebuilt(system, reason, text, tail);
    SummariesOf(h, start);
    forall i | 2 <= i < |Rebuilt(system, reason, text, tail)|
      ensures !IsSummary(Rebuilt(system, reason, text, tail)[i])
    {
      assert tail[i - 2] in tail;
    }
  }

  // ---- whole conversations ----

  /** One more message that is not a summary and, if a tool result, answers the round it closes. */
  ghost predicate Pushed(h: seq<Message>, h': seq<Message>) {
    |h'| == |h| + 1 && h'[..|h|] == h && !IsSummary(h'[|h|]) && Anchored(h')
  }

  ghost predicate HistoryStep(h: seq<Message>, h': seq<Message>) {
    || Pushed(h, h')
    || h' == Repair(h)
    || exists reason, policy :: CompactedFrom(Repair(h), h', reason, policy)
  }

  lemma StepKeepsInv(h: seq<Message>, h': seq<Message>)
    requires HistoryInv(h) && HistoryStep(h, h')
    ensures HistoryInv(h')
  {
    RepairKeepsInv(h);
    if Pushed(h, h') {
      assert forall i :: 0 <= i < |h| ==> h'[i] == h[i];
    } else if h' != Repair(h) {
      var reason, policy :| CompactedFrom(Repair(h), h', reason, policy);
      CompactionKeepsInv(Repair(h), h', reason, policy);
    }
  }

  /** One summary: over any run of pushes, repairs and compactions, a summary is only ever at index 1,
      so there is at most one, and no result is ever torn from its call. */
  lemma {:induction false} OneSummaryForever(run: seq<seq<Message>>, n: nat)
    requires n < |run| && HistoryInv(run[0])
    requires forall i :: 0 <= i < |run| - 1 ==> HistoryStep(run[i], run[i + 1])
    ensures HistoryInv(run[n])
    ensures CountSummaries(run[n]) == if HasSummary(run[n]) then 1 else 0
  {
    if n > 0 {
      OneSummaryForever(run, n - 1);
      StepKeepsInv(run[n - 1], run[n]);
    }
    var h := run[n];
    assert h[1..] == h[1..] && SummaryOnlyFirst(h[1..]);
    SummaryOnce(h[1..]);
    CountNone([h[0]]);
    CountConcat([h[0]], h[1..]);
    assert [h[0]] + h[1..] == h;
  }
}
