/** Conversation messages and the rough token estimates compaction runs on. */
module Messages {
  import opened Bytes

  datatype Role = System | User | Assistant | Tool
  datatype Reason = UserRequested | ContextFilling | ContextOverflow | ModelSwitch
  datatype Origin = FromUser | FromPeer | Nudge | FromTool | Summary(reason: Reason)
  datatype TokenTarget = Anthropic | OpenAi

  datatype Call = Call(id: string, name: seq<byte>, arguments: seq<byte>)

  /** What an attachment costs each dialect. */
  datatype Attached = Attached(anthropic: u32, openAi: u32)

  /** Two images as priced: 29,824 by 73,733,344 pixels and 32,512 by 67,637,280. One dialect scales them down
      to one column of patches, the other counts every patch of 32 by 32 pixels. */
  const HUGE_IMAGE := Attached(92, 0x7FFF_FFFC)
  const LARGE_IMAGE := Attached(92, 0x7FFF_FFF8)

  datatype Message = Message(
    role: Role,
    origin: Origin,
    content: Option<seq<byte>>,
    calls: Option<seq<Call>>,
    callId: Option<string>,
    attachments: seq<Attached>)

  const U32_MAX: u32 := 0xFFFF_FFFF

  function UserMessage(text: seq<byte>): Message { Message(User, FromUser, Some(text), None, None, []) }

  function WithImage(image: Attached): Message { UserMessage([]).(attachments := [image]) }

  function ToolResult(id: string, text: seq<byte>): Message { Message(Tool, FromUser, Some(text), None, Some(id), []) }

  predicate IsSummary(m: Message) { m.origin.Summary? }

  /** `is_user_turn`: the user speaking, and not one of the harness's own user-role messages. */
  predicate IsUserTurn(m: Message) { m.role == User && m.origin == FromUser }

  // ---- 32-bit arithmetic ----

  /** `as u32`, and what `+` on `u32` does in a release build. */
  function Wrap(n: nat): u32 { n % 0x1_0000_0000 }

  function SatAdd(a: u32, b: u32): u32 { if a + b > U32_MAX then U32_MAX else a + b }

  function SatSub(a: u32, b: u32): u32 { if a < b then 0 else a - b }

  // ---- estimates ----

  function CallBytes(calls: seq<Call>): nat {
    if calls == [] then 0 else |calls[0].name| + |calls[0].arguments| + CallBytes(calls[1..])
  }

  function CostOf(a: Attached, target: TokenTarget): u32 {
    if target == Anthropic then a.anthropic else a.openAi
  }

  function AttachedTokens(attachments: seq<Attached>, target: TokenTarget): u32 {
    if attachments == [] then 0
    else SatAdd(AttachedTokens(attachments[..|attachments| - 1], target), CostOf(attachments[|attachments| - 1], target))
  }

  function TextBytes(m: Message): nat {
    (if m.content.Some? then |m.content.value| else 0) + (if m.calls.Some? then CallBytes(m.calls.value) else 0)
  }

  /** One message: text at four bytes a token, a small overhead, and its attachments. */
  function MessageTokens(m: Message, target: TokenTarget): u32 {
    SatAdd(Wrap(TextBytes(m)) / 4 + 4, AttachedTokens(m.attachments, target))
  }

  /** A message with a text, a call and an attachment, whichever of them it has. */
  lemma MessageCosts(m: Message, call: Option<Call>, attached: Option<Attached>, target: TokenTarget)
    requires m.calls == (if call.Some? then Some([call.value]) else None)
    requires m.attachments == if attached.Some? then [attached.value] else []
    ensures var bytes := (if m.content.Some? then |m.content.value| else 0)
                         + (if call.Some? then |call.value.name| + |call.value.arguments| else 0);
            var image := if attached.None? then 0 else if target == OpenAi then attached.value.openAi else attached.value.anthropic;
            var cost := bytes % 0x1_0000_0000 / 4 + 4 + image;
            MessageTokens(m, target) == if cost <= 0xFFFF_FFFF then cost else 0xFFFF_FFFF
  {
    if call.Some? {
      assert [call.value][1..] == [];
      assert CallBytes([call.value]) == |call.value.name| + |call.value.arguments|;
    }
    var image: u32 := if attached.None? then 0 else if target == OpenAi then attached.value.openAi else attached.value.anthropic;
    if attached.Some? { assert [attached.value][..0] == []; }
    assert AttachedTokens(m.attachments, target) == image;
    assert Wrap(TextBytes(m)) == TextBytes(m) % 0x1_0000_0000;
  }

  /** `estimate_tokens_in_messages`: the `u32` sum, which wraps in a release build. */
  function Estimate(msgs: seq<Message>, target: TokenTarget): u32 {
    if msgs == [] then 0
    else Wrap(Estimate(msgs[..|msgs| - 1], target) + MessageTokens(msgs[|msgs| - 1], target))
  }

  /** The sum itself. */
  function Exact(msgs: seq<Message>, target: TokenTarget): nat {
    if msgs == [] then 0 else MessageTokens(msgs[0], target) + Exact(msgs[1..], target)
  }

  lemma {:induction false} ExactConcat(a: seq<Message>, b: seq<Message>, target: TokenTarget)
    ensures Exact(a + b, target) == Exact(a, target) + Exact(b, target)
  {
    if a == [] {
      assert a + b == b;
    } else {
      ExactConcat(a[1..], b, target);
      assert (a + b)[1..] == a[1..] + b;
    }
  }

  /** A window and what follows it add up. */
  lemma ExactSplit(msgs: seq<Message>, i: nat, j: nat, target: TokenTarget)
    requires i <= j <= |msgs|
    ensures Exact(msgs[i..], target) == Exact(msgs[i..j], target) + Exact(msgs[j..], target)
  {
    ExactConcat(msgs[i..j], msgs[j..], target);
    assert msgs[i..j] + msgs[j..] == msgs[i..];
  }

  lemma ExactSuffixLe(msgs: seq<Message>, i: nat, j: nat, target: TokenTarget)
    requires i <= j <= |msgs|
    ensures Exact(msgs[j..], target) <= Exact(msgs[i..], target)
  {
    ExactSplit(msgs, i, j, target);
  }

  lemma ExactOne(m: Message, target: TokenTarget)
    ensures Exact([m], target) == MessageTokens(m, target)
  {
    assert [m][1..] == [];
  }

  lemma WrapAdd(a: nat, b: nat)
    ensures Wrap(Wrap(a) + b) == Wrap(a + b)
  {
  }

  lemma WrapSmall(n: nat)
    requires n <= U32_MAX
    ensures Wrap(n) == n
  {
  }

  /** The estimate is the exact sum, wrapped. */
  lemma {:induction false} EstimateWraps(msgs: seq<Message>, target: TokenTarget)
    ensures Estimate(msgs, target) == Wrap(Exact(msgs, target))
  {
    if msgs != [] {
      var front, back := msgs[..|msgs| - 1], msgs[|msgs| - 1];
      EstimateWraps(front, target);
      ExactConcat(front, [back], target);
      ExactOne(back, target);
      assert front + [back] == msgs;
      WrapAdd(Exact(front, target), MessageTokens(back, target));
    }
  }

  /** The history's estimate does not overflow; where it does, a debug build panics and a release
      build compares wrapped sums. */
  ghost predicate FitsU32(msgs: seq<Message>, target: TokenTarget) { Exact(msgs, target) <= U32_MAX }

  /** Then every window's estimate is its exact sum. */
  lemma EstimateIsExact(msgs: seq<Message>, i: nat, j: nat, target: TokenTarget)
    requires i <= j <= |msgs| && FitsU32(msgs, target)
    ensures Estimate(msgs[i..j], target) == Exact(msgs[i..j], target)
    ensures Exact(msgs[i..j], target) <= Exact(msgs[i..], target) <= Exact(msgs, target)
  {
    EstimateWraps(msgs[i..j], target);
    ExactSplit(msgs, i, j, target);
    assert Exact(msgs[i..], target) <= Exact(msgs, target) by {
      ExactSuffixLe(msgs, 0, i, target);
      assert msgs[0..] == msgs;
    }
    WrapSmall(Exact(msgs[i..j], target));
  }

  // ---- eliding tool output ----

  const ELIDE_TOOL_RESULT_BYTES: nat := 400

  /** "\n…[tool output elided for compaction]" */
  const ELISION_NOTE: seq<byte> := [0x0A, 0xE2, 0x80, 0xA6] + Ascii("[tool output elided for compaction]")

  /** UTF-8: a position is a boundary unless a continuation byte sits there. */
  predicate IsCharBoundary(c: seq<byte>, i: nat) {
    i == 0 || i == |c| || (i < |c| && !(0x80 <= c[i] < 0xC0))
  }

  function FloorCharBoundary(c: seq<byte>, max: nat): (end: nat)
    ensures end <= max && end <= |c| && IsCharBoundary(c, end)
    ensures forall k :: end < k <= max && k <= |c| ==> !IsCharBoundary(c, k)
  {
    if max >= |c| then |c|
    else if max == 0 || IsCharBoundary(c, max) then max
    else FloorCharBoundary(c, max - 1)
  }

  function ElideOne(m: Message): Message {
    if m.content.None? || m.role != Tool || |m.content.value| <= ELIDE_TOOL_RESULT_BYTES then m
    else m.(content := Some(m.content.value[..FloorCharBoundary(m.content.value, ELIDE_TOOL_RESULT_BYTES)] + ELISION_NOTE))
  }

  // ---- elision keeps whole characters ----

  /** One character of UTF-8: a byte that is no continuation byte, and up to three that are. */
  predicate Character(c: seq<byte>) {
    1 <= |c| <= 4 && !(128 <= c[0] <= 191) && forall i :: 1 <= i < |c| ==> 128 <= c[i] <= 191
  }

  function Text(chars: seq<seq<byte>>): seq<byte> {
    if chars == [] then [] else Text(chars[..|chars| - 1]) + chars[|chars| - 1]
  }

  lemma {:induction false} TextPrefix(chars: seq<seq<byte>>, n: nat)
    requires n <= |chars|
    ensures |Text(chars[..n])| <= |Text(chars)| && Text(chars[..n]) == Text(chars)[..|Text(chars[..n])|]
    decreases |chars|
  {
    if n < |chars| {
      TextPrefix(chars[..|chars| - 1], n);
      assert chars[..|chars| - 1][..n] == chars[..n];
    } else {
      assert chars[..n] == chars;
    }
  }

  /** The characters that fit in `max` bytes: all of them, or all up to one that ends past it. */
  lemma {:induction false} WholeCharacters(chars: seq<seq<byte>>, max: nat) returns (n: nat)
    requires |Text(chars)| > max
    ensures n < |chars| && |Text(chars[..n])| <= max < |Text(chars[..n])| + |chars[n]|
    ensures Text(chars[..n + 1]) == Text(chars[..n]) + chars[n]
  {
    var front := chars[..|chars| - 1];
    if |Text(front)| <= max {
      n := |chars| - 1;
      assert chars[..n + 1] == chars;
    } else {
      n := WholeCharacters(front, max);
      assert front[..n] == chars[..n] && front[..n + 1] == chars[..n + 1];
    }
  }

  /** An elided tool result keeps whole characters, and all of them that fit in 400 bytes. */
  lemma ElisionKeepsCharacters(m: Message, chars: seq<seq<byte>>)
    requires m.role == Tool && m.content == Some(Text(chars)) && |Text(chars)| > 400
    requires forall c :: c in chars ==> Character(c)
    ensures exists n :: 0 <= n < |chars|
              && |Text(chars[..n])| <= 400 < |Text(chars[..n])| + |chars[n]|
              && ElideOne(m) == m.(content := Some(Text(chars[..n]) + ELISION_NOTE))
  {
    var n := WholeCharacters(chars, 400);
    var text, k := Text(chars), |Text(chars[..n])|;
    TextPrefix(chars, n);
    TextPrefix(chars, n + 1);
    hide Text;
    var c := chars[n];
    assert c in chars && Character(c);
    assert forall i :: 0 <= i < |c| ==> text[k + i] == c[i] by {
      forall i | 0 <= i < |c| ensures text[k + i] == c[i] { assert Text(chars[..n + 1])[k + i] == c[i]; }
    }
    assert IsCharBoundary(text, k);
    forall j | k < j <= 400 ensures !IsCharBoundary(text, j) { assert text[k + (j - k)] == c[j - k]; }
    var floor := FloorCharBoundary(text, 400);
    assert floor == k;
  }

  function ElideToolResults(msgs: seq<Message>): (r: seq<Message>)
    ensures |r| == |msgs|
    ensures forall i :: 0 <= i < |msgs| ==> r[i] == ElideOne(msgs[i])
  {
    seq(|msgs|, i requires 0 <= i < |msgs| => ElideOne(msgs[i]))
  }
}
