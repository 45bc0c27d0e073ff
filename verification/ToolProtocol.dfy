/** The tool protocol strict servers enforce: every tool result sits in the run right behind the
    assistant message that called it, and every call is answered in its run. */
module ToolProtocol {
  import opened Bytes
  import opened Messages
  import opened TailChoice

  predicate Calls(m: Message) { m.role == Assistant && m.calls.Some? }

  function CallIds(m: Message): set<string> {
    if m.calls.Some? then set c | c in m.calls.value :: c.id else {}
  }

  /** Everything after `a` up to and including `i` is a tool result. */
  ghost predicate InRun(msgs: seq<Message>, a: int, i: int) {
    0 <= a < i < |msgs| && forall k :: a < k <= i ==> msgs[k].role == Tool
  }

  /** The result at `i` answers a call of the assistant message at `a`, in its run. */
  ghost predicate Answers(msgs: seq<Message>, a: int, i: int) {
    InRun(msgs, a, i) && Calls(msgs[a]) && msgs[i].callId.Some? && msgs[i].callId.value in CallIds(msgs[a])
  }

  ghost predicate Anchored(msgs: seq<Message>) {
    forall i {:trigger msgs[i]} :: 0 <= i < |msgs| && msgs[i].role == Tool ==> exists a :: Answers(msgs, a, i)
  }

  ghost predicate CallAnswered(msgs: seq<Message>, a: int, id: string) {
    exists i :: InRun(msgs, a, i) && msgs[i].callId == Some(id)
  }

  ghost predicate Answered(msgs: seq<Message>) {
    forall a, id :: 0 <= a < |msgs| && Calls(msgs[a]) && id in CallIds(msgs[a]) ==> CallAnswered(msgs, a, id)
  }

  ghost predicate Protocol(msgs: seq<Message>) { Anchored(msgs) && Answered(msgs) }

  // ---- closure ----

  lemma AnchoredConcat(a: seq<Message>, b: seq<Message>)
    requires Anchored(a) && Anchored(b)
    ensures Anchored(a + b)
  {
    var c := a + b;
    forall i | 0 <= i < |c| && c[i].role == Tool
      ensures exists x :: Answers(c, x, i)
    {
      if i < |a| {
        assert a[i].role == Tool;
        var x :| Answers(a, x, i);
        assert Answers(c, x, i);
      } else {
        assert b[i - |a|].role == Tool;
        var x :| Answers(b, x, i - |a|);
        forall k | |a| + x < k <= i ensures c[k].role == Tool { assert b[k - |a|].role == Tool; }
        assert Answers(c, |a| + x, i);
      }
    }
  }

  lemma AnsweredConcat(a: seq<Message>, b: seq<Message>)
    requires Answered(a) && Answered(b)
    ensures Answered(a + b)
  {
    var c := a + b;
    forall x, id | 0 <= x < |c| && Calls(c[x]) && id in CallIds(c[x])
      ensures CallAnswered(c, x, id)
    {
      if x < |a| {
        assert CallAnswered(a, x, id);
        var i :| InRun(a, x, i) && a[i].callId == Some(id);
        assert InRun(c, x, i);
      } else {
        assert Calls(b[x - |a|]) && CallAnswered(b, x - |a|, id);
        var i :| InRun(b, x - |a|, i) && b[i].callId == Some(id);
        forall k | x < k <= |a| + i ensures c[k].role == Tool { assert b[k - |a|].role == Tool; }
        assert InRun(c, x, |a| + i);
      }
    }
  }

  /** Two well-formed histories end to end are one. */
  lemma ProtocolConcat(a: seq<Message>, b: seq<Message>)
    requires Protocol(a) && Protocol(b)
    ensures Protocol(a + b)
  {
    AnchoredConcat(a, b);
    AnsweredConcat(a, b);
  }

  /** A system or user message stands on its own. */
  lemma PlainIsProtocol(m: Message)
    requires m.role == System || m.role == User
    ensures Protocol([m])
  {
  }

  /** A suffix that does not start on a tool result keeps its results anchored. */
  lemma AnchoredSuffix(msgs: seq<Message>, start: nat)
    requires Anchored(msgs) && start <= |msgs| && (start == |msgs| || msgs[start].role != Tool)
    ensures Anchored(msgs[start..])
  {
    var s := msgs[start..];
    forall i | 0 <= i < |s| && s[i].role == Tool
      ensures exists x :: Answers(s, x, i)
    {
      assert msgs[start + i].role == Tool;
      var x :| Answers(msgs, x, start + i);
      assert start <= x;
      forall k | x - start < k <= i ensures s[k].role == Tool { assert msgs[start + k].role == Tool; }
      assert Answers(s, x - start, i);
    }
  }

  lemma ProtocolSuffix(msgs: seq<Message>, start: nat)
    requires Protocol(msgs) && start <= |msgs| && (start == |msgs| || msgs[start].role != Tool)
    ensures Protocol(msgs[start..])
  {
    AnchoredSuffix(msgs, start);
    var s := msgs[start..];
    forall x, id | 0 <= x < |s| && Calls(s[x]) && id in CallIds(s[x])
      ensures CallAnswered(s, x, id)
    {
      assert Calls(msgs[start + x]) && CallAnswered(msgs, start + x, id);
      var i :| InRun(msgs, start + x, i) && msgs[i].callId == Some(id);
      forall k | x < k <= i - start ensures s[k].role == Tool { assert msgs[start + k].role == Tool; }
      assert InRun(s, x, i - start);
    }
  }

  /** Rewriting bodies alone does not touch the protocol. */
  lemma ProtocolOfRewrite(a: seq<Message>, b: seq<Message>)
    requires Protocol(a) && |a| == |b|
    requires forall i :: 0 <= i < |a| ==> a[i].role == b[i].role && a[i].calls == b[i].calls && a[i].callId == b[i].callId
    ensures Protocol(b)
  {
    forall i | 0 <= i < |b| && b[i].role == Tool
      ensures exists x :: Answers(b, x, i)
    {
      assert a[i].role == Tool;
      var x :| Answers(a, x, i);
      forall k | x < k <= i ensures b[k].role == Tool { assert a[k].role == Tool; }
      assert Answers(b, x, i);
    }
    forall x, id | 0 <= x < |b| && Calls(b[x]) && id in CallIds(b[x])
      ensures CallAnswered(b, x, id)
    {
      assert Calls(a[x]) && CallAnswered(a, x, id);
      var i :| InRun(a, x, i) && a[i].callId == Some(id);
      forall k | x < k <= i ensures b[k].role == Tool { assert a[k].role == Tool; }
      assert InRun(b, x, i);
    }
  }

  lemma ProtocolOfElided(msgs: seq<Message>)
    requires Protocol(msgs)
    ensures Protocol(ElideToolResults(msgs))
  {
    ProtocolOfRewrite(msgs, ElideToolResults(msgs));
  }

  // ---- repair_dangling_tool_calls ----

  const INTERRUPTED: seq<byte> := Ascii("[interrupted]")

  /** The ids of the calls, in order, that no result in `run` answers. */
  function Missing(calls: seq<Call>, run: seq<Message>): seq<string> {
    if calls == [] then []
    else if exists m :: m in run && m.callId == Some(calls[0].id) then Missing(calls[1..], run)
    else [calls[0].id] + Missing(calls[1..], run)
  }

  function Stubs(ids: seq<string>): (r: seq<Message>)
    ensures |r| == |ids| && forall i :: 0 <= i < |ids| ==> r[i] == ToolResult(ids[i], INTERRUPTED)
  {
    seq(|ids|, i requires 0 <= i < |ids| => ToolResult(ids[i], INTERRUPTED))
  }

  /** One round: the calling message, its run of results, and a stub per unanswered call. */
  function Round(msgs: seq<Message>): seq<Message>
    requires msgs != [] && Calls(msgs[0])
  {
    msgs[..Aligned(msgs, 1)] + Stubs(Missing(msgs[0].calls.value, msgs[1..Aligned(msgs, 1)]))
  }

  function Repair(msgs: seq<Message>): seq<Message>
    decreases |msgs|
  {
    if msgs == [] then []
    else if !Calls(msgs[0]) then [msgs[0]] + Repair(msgs[1..])
    else Round(msgs) + Repair(msgs[Aligned(msgs, 1)..])
  }

  lemma {:induction false} MissingIds(calls: seq<Call>, run: seq<Message>)
    ensures forall c :: c in calls ==> (c.id in Missing(calls, run) || exists m :: m in run && m.callId == Some(c.id))
    ensures forall id :: id in Missing(calls, run) ==> exists c :: c in calls && c.id == id
    ensures (forall c :: c in calls ==> exists m :: m in run && m.callId == Some(c.id)) ==> Missing(calls, run) == []
  {
    if calls != [] {
      MissingIds(calls[1..], run);
      forall c | c in calls
        ensures c.id in Missing(calls, run) || exists m :: m in run && m.callId == Some(c.id)
      {
        if c != calls[0] { assert c in calls[1..]; }
      }
      forall id | id in Missing(calls, run)
        ensures exists c :: c in calls && c.id == id
      {
        if id in Missing(calls[1..], run) { var c :| c in calls[1..] && c.id == id; assert c in calls; }
        else { assert calls[0] in calls; }
      }
      assert calls[0] in calls;
      if forall c :: c in calls ==> exists m :: m in run && m.callId == Some(c.id) {
        forall c | c in calls[1..] ensures exists m :: m in run && m.callId == Some(c.id) { assert c in calls; }
      }
    }
  }

  /** A stub is added for the calls that nothing in the run answers, and for no others. */
  lemma {:induction false} StubbedExactly(calls: seq<Call>, run: seq<Message>, id: string)
    ensures id in Missing(calls, run)
       <==> (exists c :: c in calls && c.id == id) && forall m :: m in run ==> m.callId != Some(id)
  {
    if calls != [] {
      StubbedExactly(calls[1..], run, id);
      assert calls == [calls[0]] + calls[1..];
      if calls[0].id == id { assert calls[0] in calls; }
    }
  }

  /** The bytes of a round: the caller, its run of results, then stubs. */
  lemma RoundShape(msgs: seq<Message>, r: seq<Message>, end: nat, missing: seq<string>)
    requires 1 <= end <= |msgs| && r == msgs[..end] + Stubs(missing)
    requires forall k :: 1 <= k < end ==> msgs[k].role == Tool
    ensures |r| == end + |missing|
    ensures forall k :: 0 <= k < end ==> r[k] == msgs[k]
    ensures forall k :: end <= k < |r| ==> r[k] == ToolResult(missing[k - end], INTERRUPTED)
    ensures forall k :: 1 <= k < |r| ==> r[k].role == Tool
  {
    var stubs := Stubs(missing);
    hide Stubs;
    forall k | 0 <= k < |r|
      ensures k < end ==> r[k] == msgs[k]
      ensures k >= end ==> r[k] == stubs[k - end] == ToolResult(missing[k - end], INTERRUPTED)
    {
    }
  }

  /** A result or a stub further on in the round answers the call at its head. */
  lemma AnsweredInRound(r: seq<Message>, k: nat, id: string)
    requires 1 <= k < |r| && r[k].callId == Some(id) && forall j :: 1 <= j < |r| ==> r[j].role == Tool
    ensures CallAnswered(r, 0, id)
  {
    assert InRun(r, 0, k);
  }

  /** A round whose calls are each answered by its run or by a stub. */
  lemma RoundOfAnswers(r: seq<Message>, calls: seq<Call>, run: seq<Message>, missing: seq<string>)
    requires |r| == 1 + |run| + |missing| && r[0].calls == Some(calls)
    requires forall k :: 0 <= k < |run| ==> r[1 + k] == run[k]
    requires forall k :: 0 <= k < |missing| ==> r[1 + |run| + k] == ToolResult(missing[k], INTERRUPTED)
    requires forall k :: 1 <= k < |r| ==> r[k].role == Tool
    requires forall c :: c in calls ==> (c.id in missing || exists m :: m in run && m.callId == Some(c.id))
    ensures Answered(r)
  {
    forall x, id | 0 <= x < |r| && Calls(r[x]) && id in CallIds(r[x])
      ensures CallAnswered(r, x, id)
    {
      hide CallAnswered, InRun;
      assert x == 0;
      var c :| c in calls && c.id == id;
      if id in missing {
        var k :| 0 <= k < |missing| && missing[k] == id;
        AnsweredInRound(r, 1 + |run| + k, id);
      } else {
        var m :| m in run && m.callId == Some(id);
        var k :| 0 <= k < |run| && run[k] == m;
        AnsweredInRound(r, 1 + k, id);
      }
    }
  }

  /** A repaired round answers every call of its assistant message. */
  lemma RoundAnswered(msgs: seq<Message>)
    requires msgs != [] && Calls(msgs[0])
    ensures Answered(Round(msgs))
  {
    var end := Aligned(msgs, 1);
    var run, calls := msgs[1..end], msgs[0].calls.value;
    var missing := Missing(calls, run);
    var r := Round(msgs);
    assert r == msgs[..end] + Stubs(missing);
    hide *;
    MissingIds(calls, run);
    RoundShape(msgs, r, end, missing);
    assert forall k :: 0 <= k < |run| ==> run[k] == msgs[1 + k];
    forall k | 0 <= k < |missing|
      ensures r[1 + |run| + k] == ToolResult(missing[k], INTERRUPTED)
    {
      assert 1 + |run| + k == end + k;
    }
    RoundOfAnswers(r, calls, run, missing);
  }

  lemma RoundAnchored(msgs: seq<Message>)
    requires msgs != [] && Calls(msgs[0]) && Anchored(msgs)
    ensures Anchored(Round(msgs))
  {
    var end := Aligned(msgs, 1);
    var missing := Missing(msgs[0].calls.value, msgs[1..end]);
    var r := Round(msgs);
    assert r == msgs[..end] + Stubs(missing);
    hide Round, Missing, Aligned, Stubs;
    MissingIds(msgs[0].calls.value, msgs[1..end]);
    RoundShape(msgs, r, end, missing);
    forall i | 0 <= i < |r| && r[i].role == Tool
      ensures exists x :: Answers(r, x, i)
    {
      if i < end {
        assert msgs[i].role == Tool;
        var x :| Answers(msgs, x, i);
        forall k | x < k <= i ensures r[k].role == Tool { assert msgs[k].role == Tool; }
        assert Answers(r, x, i);
      } else {
        assert missing[i - end] in missing;
        assert Answers(r, 0, i);
      }
    }
  }

  /** After the repair every call is answered, whatever the history was; and results that were anchored
      stay anchored. */
  lemma {:induction false} RepairCompletes(msgs: seq<Message>)
    ensures Answered(Repair(msgs))
    ensures Anchored(msgs) ==> Protocol(Repair(msgs))
    decreases |msgs|
  {
    if msgs == [] {
    } else if !Calls(msgs[0]) {
      RepairCompletes(msgs[1..]);
      assert Answered([msgs[0]]);
      AnsweredConcat([msgs[0]], Repair(msgs[1..]));
      if Anchored(msgs) {
        NotToolFirst(msgs);
        AnchoredSuffix(msgs, 1);
        assert Anchored([msgs[0]]);
        AnchoredConcat([msgs[0]], Repair(msgs[1..]));
      }
    } else {
      var end := Aligned(msgs, 1);
      RoundAnswered(msgs);
      RepairCompletes(msgs[end..]);
      AnsweredConcat(Round(msgs), Repair(msgs[end..]));
      if Anchored(msgs) {
        RoundAnchored(msgs);
        AnchoredSuffix(msgs, end);
        AnchoredConcat(Round(msgs), Repair(msgs[end..]));
      }
    }
  }

  /** An anchored history does not open on a result, nor put one behind a message that called nothing. */
  lemma NotToolFirst(msgs: seq<Message>)
    requires Anchored(msgs) && msgs != []
    ensures msgs[0].role != Tool
    ensures !Calls(msgs[0]) && |msgs| > 1 ==> msgs[1].role != Tool
  {
    assert msgs[0].role == Tool ==> exists a :: Answers(msgs, a, 0);
    assert |msgs| > 1 && msgs[1].role == Tool ==> exists a :: Answers(msgs, a, 1);
  }

  /** A round that is answered already gets no stubs. */
  lemma AnsweredRoundStays(msgs: seq<Message>)
    requires msgs != [] && Calls(msgs[0]) && Answered(msgs)
    ensures Round(msgs) == msgs[..Aligned(msgs, 1)]
  {
    var end := Aligned(msgs, 1);
    var run := msgs[1..end];
    forall c | c in msgs[0].calls.value
      ensures exists m :: m in run && m.callId == Some(c.id)
    {
      assert CallAnswered(msgs, 0, c.id);
      var i :| InRun(msgs, 0, i) && msgs[i].callId == Some(c.id);
      assert i < end;
      assert run[i - 1] in run;
    }
    hide Missing, Answered, Aligned, CallAnswered, InRun;
    MissingIds(msgs[0].calls.value, run);
  }

  /** A history with nothing dangling is left exactly as it is. */
  lemma {:induction false} RepairIdentity(msgs: seq<Message>)
    requires Answered(msgs)
    ensures Repair(msgs) == msgs
    decreases |msgs|
  {
    hide *;
    RepairUnfolds(msgs);
    if msgs != [] {
      var end := if Calls(msgs[0]) then Aligned(msgs, 1) else 1;
      AnsweredFrom(msgs, end);
      RepairIdentity(msgs[end..]);
      if Calls(msgs[0]) { AnsweredRoundStays(msgs); }
      assert msgs[..end] + msgs[end..] == msgs;
    }
  }

  lemma RepairUnfolds(msgs: seq<Message>)
    ensures msgs == [] ==> Repair(msgs) == []
    ensures msgs != [] ==>
              var end := if Calls(msgs[0]) then Aligned(msgs, 1) else 1;
              Repair(msgs) == (if Calls(msgs[0]) then Round(msgs) else msgs[..end]) + Repair(msgs[end..])
  {
    hide Round, Aligned;
    if msgs != [] { assert msgs[..1] == [msgs[0]]; }
  }

  lemma AnsweredFrom(msgs: seq<Message>, start: nat)
    requires Answered(msgs) && start <= |msgs|
    ensures Answered(msgs[start..])
  {
    var s := msgs[start..];
    forall x, id | 0 <= x < |s| && Calls(s[x]) && id in CallIds(s[x])
      ensures CallAnswered(s, x, id)
    {
      assert Calls(msgs[start + x]) && CallAnswered(msgs, start + x, id);
      var i :| InRun(msgs, start + x, i) && msgs[i].callId == Some(id);
      forall k | x < k <= i - start ensures s[k].role == Tool { assert msgs[start + k].role == Tool; }
      assert InRun(s, x, i - start);
    }
  }

  /** A message that called nothing is passed over. */
  lemma RepairSkipAt(msgs: seq<Message>, idx: nat)
    requires idx < |msgs| && !Calls(msgs[idx])
    ensures msgs[..idx + 1] + Repair(msgs[idx + 1..]) == msgs[..idx] + Repair(msgs[idx..])
  {
    var rest := msgs[idx..];
    assert rest[1..] == msgs[idx + 1..];
    assert Repair(rest) == [rest[0]] + Repair(rest[1..]);
    assert msgs[..idx] + [msgs[idx]] == msgs[..idx + 1];
  }

  /** Opening system and user messages stay where they are, and no summary appears or moves past them. */
  lemma {:induction false} RepairKeepsFront(msgs: seq<Message>, n: nat)
    requires n <= |msgs| && forall i :: 0 <= i < n ==> !Calls(msgs[i])
    ensures Repair(msgs) == msgs[..n] + Repair(msgs[n..])
    decreases n
  {
    hide Repair, Calls;
    if n > 0 {
      RepairKeepsFront(msgs, n - 1);
      RepairSkipAt(msgs, n - 1);
    } else {
      assert msgs[0..] == msgs;
    }
  }

  lemma {:induction false} RepairGrows(msgs: seq<Message>)
    ensures |Repair(msgs)| >= |msgs|
    decreases |msgs|
  {
    if msgs != [] { RepairGrows(msgs[if Calls(msgs[0]) then Aligned(msgs, 1) else 1..]); }
  }

  /** A result nobody produced: it says so, and answers some call. */
  predicate IsStub(m: Message) {
    m.callId.Some? && m == Message(Tool, FromUser, Some(Ascii("[interrupted]")), None, m.callId, [])
  }

  /** `r` is `msgs`, in order and untouched, with stubs in between. */
  predicate WithStubs(msgs: seq<Message>, r: seq<Message>)
    decreases |r|
  {
    if r == [] then msgs == []
    else (msgs != [] && r[0] == msgs[0] && WithStubs(msgs[1..], r[1..])) || (IsStub(r[0]) && WithStubs(msgs, r[1..]))
  }

  lemma NothingStubbed()
    ensures WithStubs([], [])
  {
  }

  lemma {:induction false} CopyThen(front: seq<Message>, msgs: seq<Message>, r: seq<Message>)
    requires WithStubs(msgs, r)
    ensures WithStubs(front + msgs, front + r)
  {
    if front == [] {
      assert front + msgs == msgs && front + r == r;
    } else {
      CopyThen(front[1..], msgs, r);
      assert (front + msgs)[1..] == front[1..] + msgs && (front + r)[1..] == front[1..] + r;
    }
  }

  lemma {:induction false} StubsThen(stubs: seq<Message>, msgs: seq<Message>, r: seq<Message>)
    requires WithStubs(msgs, r) && forall m :: m in stubs ==> IsStub(m)
    ensures WithStubs(msgs, stubs + r)
  {
    if stubs == [] {
      assert stubs + r == r;
    } else {
      StubsThen(stubs[1..], msgs, r);
      assert (stubs + r)[1..] == stubs[1..] + r;
    }
  }

  /** The repair drops, moves and rewrites nothing. */
  lemma {:induction false} RepairOnlyInserts(msgs: seq<Message>)
    ensures WithStubs(msgs, Repair(msgs))
    decreases |msgs|
  {
    hide WithStubs;
    if msgs == [] {
      NothingStubbed();
    } else if !Calls(msgs[0]) {
      RepairOnlyInserts(msgs[1..]);
      CopyThen([msgs[0]], msgs[1..], Repair(msgs[1..]));
      assert [msgs[0]] + msgs[1..] == msgs;
    } else {
      var end := Aligned(msgs, 1);
      var stubs := Stubs(Missing(msgs[0].calls.value, msgs[1..end]));
      RepairOnlyInserts(msgs[end..]);
      StubsThen(stubs, msgs[end..], Repair(msgs[end..]));
      CopyThen(msgs[..end], msgs[end..], stubs + Repair(msgs[end..]));
      assert msgs[..end] + msgs[end..] == msgs;
      assert msgs[..end] + (stubs + Repair(msgs[end..])) == Repair(msgs);
    }
  }

  lemma {:induction false} RepairAddsNoSummary(msgs: seq<Message>)
    requires forall m :: m in msgs ==> !IsSummary(m)
    ensures forall m :: m in Repair(msgs) ==> !IsSummary(m)
    decreases |msgs|
  {
    if msgs != [] {
      var end := if Calls(msgs[0]) then Aligned(msgs, 1) else 1;
      RepairAddsNoSummary(msgs[end..]);
      assert msgs[0] in msgs;
      if Calls(msgs[0]) {
        forall m | m in Round(msgs) ensures !IsSummary(m) {
          if m in msgs[..end] { assert m in msgs; }
        }
      }
    }
  }

  /** The stubs of one round, inserted one by one behind its run. */
  method InsertStubs(history: seq<Message>, end: nat, missing: seq<string>) returns (messages: seq<Message>)
    requires end <= |history|
    ensures messages == history[..end] + Stubs(missing) + history[end..]
  {
    messages := history;
    for offset := 0 to |missing|
      invariant messages == history[..end] + Stubs(missing[..offset]) + history[end..]
    {
      messages := messages[..end + offset] + [ToolResult(missing[offset], INTERRUPTED)] + messages[end + offset..];
      assert Stubs(missing[..offset + 1]) == Stubs(missing[..offset]) + [ToolResult(missing[offset], INTERRUPTED)];
    }
    assert missing[..|missing|] == missing;
  }

  /** Repairing the round at `idx` and moving past it. */
  lemma RepairRoundAt(msgs: seq<Message>, idx: nat, after: seq<Message>, next: nat)
    requires idx < |msgs| && Calls(msgs[idx])
    requires var end := Aligned(msgs, idx + 1);
             var missing := Missing(msgs[idx].calls.value, msgs[idx + 1..end]);
             after == msgs[..end] + Stubs(missing) + msgs[end..] && next == end + |missing|
    ensures idx < next <= |after| && |after| - next < |msgs| - idx
    ensures after[..next] + Repair(after[next..]) == msgs[..idx] + Repair(msgs[idx..])
  {
    hide Missing, Stubs, Aligned, Repair;
    var end := Aligned(msgs, idx + 1);
    var missing := Missing(msgs[idx].calls.value, msgs[idx + 1..end]);
    RoundAt(msgs, idx);
    Spliced(msgs, idx, end, Stubs(missing), Repair(msgs[end..]));
  }

  /** A round in the middle, repaired. */
  lemma RoundAt(msgs: seq<Message>, idx: nat)
    requires idx < |msgs| && Calls(msgs[idx])
    ensures var end := Aligned(msgs, idx + 1);
            Repair(msgs[idx..])
            == msgs[idx..][..end - idx] + Stubs(Missing(msgs[idx].calls.value, msgs[idx + 1..end])) + Repair(msgs[end..])
  {
    hide *;
    var end := Aligned(msgs, idx + 1);
    var rest := msgs[idx..];
    AlignedShift(msgs, idx, 1);
    RepairUnfolds(rest);
    RoundParts(rest);
    assert rest[1..Aligned(rest, 1)] == msgs[idx + 1..end];
    assert rest[Aligned(rest, 1)..] == msgs[end..];
  }

  lemma Spliced(msgs: seq<Message>, idx: nat, end: nat, stubs: seq<Message>, tail: seq<Message>)
    requires idx <= end <= |msgs|
    ensures var after := msgs[..end] + stubs + msgs[end..];
            && after[end + |stubs|..] == msgs[end..]
            && after[..end + |stubs|] + tail == msgs[..idx] + (msgs[idx..][..end - idx] + stubs + tail)
  {
    var after := msgs[..end] + stubs + msgs[end..];
    assert after[..end + |stubs|] == msgs[..end] + stubs;
    assert msgs[..end] == msgs[..idx] + msgs[idx..][..end - idx];
  }

  lemma RoundParts(msgs: seq<Message>)
    requires msgs != [] && Calls(msgs[0])
    ensures Round(msgs) == msgs[..Aligned(msgs, 1)] + Stubs(Missing(msgs[0].calls.value, msgs[1..Aligned(msgs, 1)]))
  {
  }

  /** `repair_dangling_tool_calls`, inserting in place. */
  method RepairDanglingToolCalls(history: seq<Message>) returns (messages: seq<Message>)
    ensures messages == Repair(history)
  {
    hide Round, Missing, Aligned, Repair, Stubs;
    messages := history;
    var idx := 0;
    assert history[0..] == history;
    while idx < |messages|
      invariant 0 <= idx <= |messages|
      invariant Repair(history) == messages[..idx] + Repair(messages[idx..])
      decreases |messages| - idx
    {
      if messages[idx].role != Assistant || messages[idx].calls.None? {
        RepairSkipAt(messages, idx);
        idx := idx + 1;
        continue;
      }
      var end := AlignPastToolResults(messages, idx + 1);
      var missing := Missing(messages[idx].calls.value, messages[idx + 1..end]);
      var repaired := InsertStubs(messages, end, missing);
      RepairRoundAt(messages, idx, repaired, end + |missing|);
      messages := repaired;
      idx := end + |missing|;
    }
    assert messages[..idx] == messages && messages[idx..] == [];
    assert Repair([]) == [] by { RepairIdentity([]); }
  }

  lemma AlignedShift(msgs: seq<Message>, base: nat, k: nat)
    requires base + k <= |msgs|
    ensures Aligned(msgs, base + k) == base + Aligned(msgs[base..], k)
    decreases |msgs| - base - k
  {
    if base + k < |msgs| && msgs[base + k].role == Tool { AlignedShift(msgs, base, k + 1); }
  }
}
