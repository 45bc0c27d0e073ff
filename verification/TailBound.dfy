/** What the kept tail is exactly: when it begins at a user turn, and when it is as small as it should be
    once estimates no longer fit their 32 bits. */
module TailBound {
  import opened Bytes
  import opened Messages
  import opened TailChoice

  // ---- facts about the walks ----

  lemma LastOfLastN<T>(s: seq<T>, n: nat)
    requires n > 0 && s != []
    ensures LastN(s, n) != [] && LastN(s, n)[|LastN(s, n)| - 1] == s[|s| - 1]
  {
  }

  lemma AscendingLast(s: seq<nat>, c: nat)
    requires Ascending(s) && c in s
    ensures c <= s[|s| - 1]
  {
    var q :| 0 <= q < |s| && s[q] == c;
    assert q < |s| - 1 ==> s[q] < s[|s| - 1];
  }

  /** The turns looked at end in the newest user turn of all. */
  lemma NewestTurn(msgs: seq<Message>, tailTurns: nat)
    requires |msgs| > 0 && tailTurns > 0 && TurnStarts(msgs, 1) != []
    ensures var candidates, turns := Candidates(msgs, tailTurns), TurnStarts(msgs, 1);
            && candidates != [] && candidates[|candidates| - 1] == turns[|turns| - 1]
            && forall c :: 1 <= c < |msgs| && IsUserTurn(msgs[c]) ==> c <= turns[|turns| - 1]
  {
    hide Ascending, LastN, IsUserTurn, TurnStarts;
    var turns := TurnStarts(msgs, 1);
    LastOfLastN(turns, tailTurns);
    forall c | 1 <= c < |msgs| && IsUserTurn(msgs[c])
      ensures c <= turns[|turns| - 1]
    {
      AscendingLast(turns, c);
    }
  }

  /** The walk over turns ends at the history's end, when it has no turn to take, or at one of them: the
      newest, or one that reads as within the budget. */
  lemma TailStartIs(msgs: seq<Message>, tailTurns: nat, preserve: u32, target: TokenTarget)
    requires |msgs| > 0
    ensures var start := TailStart(msgs, tailTurns, preserve, target);
            if tailTurns == 0 || TurnStarts(msgs, 1) == [] then start == |msgs|
            else
              var turns := TurnStarts(msgs, 1);
              var newest := turns[|turns| - 1];
              && 1 <= start <= newest && IsUserTurn(msgs[start])
              && (start < newest ==> Reading(msgs, start, target) <= preserve)
  {
    hide Reading, TurnStarts, TurnStop, Candidates, IsUserTurn, Ascending;
    if tailTurns > 0 && TurnStarts(msgs, 1) != [] {
      var candidates, turns := Candidates(msgs, tailTurns), TurnStarts(msgs, 1);
      NewestTurn(msgs, tailTurns);
      var k := TurnStopped(msgs, candidates, |candidates|, preserve, target);
      assert candidates[k] in candidates;
      if k < |candidates| - 1 {
        assert Reading(msgs, candidates[k], target) <= preserve;
      }
    } else {
      NoTurnToTake(msgs, tailTurns, preserve, target);
    }
  }

  lemma NoTurnToTake(msgs: seq<Message>, tailTurns: nat, preserve: u32, target: TokenTarget)
    requires |msgs| > 0 && (tailTurns == 0 || TurnStarts(msgs, 1) == [])
    ensures TailStart(msgs, tailTurns, preserve, target) == |msgs|
  {
    hide Reading, TurnStarts;
  }

  lemma MegaStartIs(msgs: seq<Message>, from: nat, preserve: u32, target: TokenTarget)
    requires from < |msgs|
    ensures var r := MegaStop(msgs, from, |msgs|, preserve, target);
            && r < |msgs| && MegaStart(msgs, from, preserve, target) == Aligned(msgs, r)
            && (forall q :: r <= q < |msgs| - 1 ==> Reading(msgs, q, target) <= preserve)
            && (r == from || Reading(msgs, r - 1, target) > preserve)
  {
    MegaStopped(msgs, from, |msgs|, preserve, target);
  }

  lemma ReadingFits(msgs: seq<Message>, i: nat, target: TokenTarget)
    requires i <= |msgs| && FitsU32(msgs[i..], target)
    ensures Reading(msgs, i, target) as nat == Exact(msgs[i..], target)
  {
    hide Exact, Estimate;
    EstimateWraps(msgs[i..], target);
    WrapSmall(Exact(msgs[i..], target));
  }

  // ---- where the tail begins ----

  /** The last message that is not a tool result. */
  function LastPlain(msgs: seq<Message>): (i: nat)
    requires exists k :: 0 <= k < |msgs| && msgs[k].role != Tool
    ensures i < |msgs| && msgs[i].role != Tool && forall k :: i < k < |msgs| ==> msgs[k].role == Tool
  {
    var n := |msgs| - 1;
    if msgs[n].role != Tool then n
    else
      assert exists k :: 0 <= k < |msgs[..n]| && msgs[..n][k].role != Tool by {
        var k :| 0 <= k < |msgs| && msgs[k].role != Tool;
        assert msgs[..n][k].role != Tool;
      }
      LastPlain(msgs[..n])
  }

  /** No turn to keep; or a newest turn that fits the budget or is one message; or one that ends in tool
      results that do not fit with the message before them, so that nothing of it is kept. */
  ghost predicate KeepsWholeTurns(msgs: seq<Message>, tailTurns: nat, preserve: u32, target: TokenTarget)
    requires |msgs| > 0
  {
    tailTurns == 0 || TurnStarts(msgs, 1) == [] ||
    var turns := TurnStarts(msgs, 1);
    var newest := turns[|turns| - 1];
    || Exact(msgs[newest..], target) <= preserve
    || newest == |msgs| - 1
    || (msgs[|msgs| - 1].role == Tool && Exact(msgs[LastPlain(msgs)..], target) > preserve)
  }

  lemma ChosenIs(msgs: seq<Message>, tailTurns: nat, preserve: u32, target: TokenTarget)
    requires |msgs| > 2
    ensures var start := TailStart(msgs, tailTurns, preserve, target);
            var cut := if start < |msgs| && Reading(msgs, start, target) > preserve
                       then MegaStart(msgs, start, preserve, target) else start;
            var whole := MegaStart(msgs, 1, preserve, target);
            Chosen(msgs, tailTurns, preserve, target) == if cut > 1 then Some(cut) else if whole <= 1 then None else Some(whole)
  {
    hide TailStart, MegaStart, Reading;
  }

  /** The kept tail is empty or begins at a real user turn exactly then; any other begins inside the newest
      turn. */
  lemma TailBeginsAtTurn(msgs: seq<Message>, tailTurns: nat, preserve: u32, target: TokenTarget, start: nat)
    requires |msgs| > 2 && FitsU32(msgs, target) && Chosen(msgs, tailTurns, preserve, target) == Some(start)
    ensures start == |msgs| || IsUserTurn(msgs[start]) <==> KeepsWholeTurns(msgs, tailTurns, preserve, target)
  {
    hide *;
    if tailTurns == 0 || TurnStarts(msgs, 1) == [] {
      NoTurnsKept(msgs, tailTurns, preserve, target, start);
    } else if Exact(msgs[TailStart(msgs, tailTurns, preserve, target)..], target) <= preserve {
      FittingTurnKept(msgs, tailTurns, preserve, target, start);
    } else {
      LargeTurnKept(msgs, tailTurns, preserve, target, start);
    }
  }

  lemma NoTurnsKept(msgs: seq<Message>, tailTurns: nat, preserve: u32, target: TokenTarget, start: nat)
    requires |msgs| > 2 && Chosen(msgs, tailTurns, preserve, target) == Some(start) && (tailTurns == 0 || TurnStarts(msgs, 1) == [])
    ensures start == |msgs| && KeepsWholeTurns(msgs, tailTurns, preserve, target)
  {
    hide Chosen, TailStart, MegaStart, Reading, TurnStarts;
    NoTurnToTake(msgs, tailTurns, preserve, target);
    ChosenIs(msgs, tailTurns, preserve, target);
  }

  /** Whole turns are within the budget: they are the tail, and the newest of them fits. */
  lemma FittingTurnKept(msgs: seq<Message>, tailTurns: nat, preserve: u32, target: TokenTarget, start: nat)
    requires |msgs| > 2 && FitsU32(msgs, target) && Chosen(msgs, tailTurns, preserve, target) == Some(start)
    requires tailTurns > 0 && TurnStarts(msgs, 1) != []
    requires Exact(msgs[TailStart(msgs, tailTurns, preserve, target)..], target) <= preserve
    ensures start < |msgs| && IsUserTurn(msgs[start]) && KeepsWholeTurns(msgs, tailTurns, preserve, target)
  {
    hide Chosen, TailStart, MegaStart, Reading, Exact, FitsU32, TurnStarts, LastPlain;
    TailStartIs(msgs, tailTurns, preserve, target);
    ChosenIs(msgs, tailTurns, preserve, target);
    var turns := TurnStarts(msgs, 1);
    var turn := TailStart(msgs, tailTurns, preserve, target);
    ReadingIsExact(msgs, turn, target);
    ExactSuffixLe(msgs, turn, turns[|turns| - 1], target);
    if turn == 1 { NothingToSplit(msgs, preserve, target); }
  }

  /** The newest turn alone is over it, and is split. */
  lemma LargeTurnKept(msgs: seq<Message>, tailTurns: nat, preserve: u32, target: TokenTarget, start: nat)
    requires |msgs| > 2 && FitsU32(msgs, target) && Chosen(msgs, tailTurns, preserve, target) == Some(start)
    requires tailTurns > 0 && TurnStarts(msgs, 1) != []
    requires Exact(msgs[TailStart(msgs, tailTurns, preserve, target)..], target) > preserve as nat
    ensures start == |msgs| || IsUserTurn(msgs[start]) <==> KeepsWholeTurns(msgs, tailTurns, preserve, target)
  {
    hide Chosen, TailStart, MegaStart, Reading, Exact, FitsU32, TurnStarts, LastPlain, IsUserTurn;
    var turns := TurnStarts(msgs, 1);
    var newest := turns[|turns| - 1];
    var turn := TailStart(msgs, tailTurns, preserve, target);
    TailStartIs(msgs, tailTurns, preserve, target);
    ReadingIsExact(msgs, turn, target);
    assert turn == newest;
    UserIsNotTool(msgs[newest]);
    SplitTurnBegins(msgs, newest, preserve, target);
    ChosenIs(msgs, tailTurns, preserve, target);
    NewestTurn(msgs, tailTurns);
  }

  lemma UserIsNotTool(m: Message)
    requires IsUserTurn(m)
    ensures m.role != Tool
  {
  }

  /** When everything behind the prompt fits there is nothing to split, and nothing to summarize. */
  lemma NothingToSplit(msgs: seq<Message>, preserve: u32, target: TokenTarget)
    requires |msgs| > 2 && FitsU32(msgs, target) && msgs[1].role != Tool && Exact(msgs[1..], target) <= preserve
    ensures MegaStart(msgs, 1, preserve, target) == 1
  {
    hide Exact, Reading, FitsU32, MegaStop, MegaStart;
    MegaStartIs(msgs, 1, preserve, target);
    var r := MegaStop(msgs, 1, |msgs|, preserve, target);
    if r > 1 {
      ReadingIsExact(msgs, r - 1, target);
      ExactSuffixLe(msgs, 1, r - 1, target);
    }
  }

  /** A split inside a turn over budget keeps nothing exactly when trailing tool results leave no room for
      the message before them. */
  lemma SplitTurnBegins(msgs: seq<Message>, turn: nat, preserve: u32, target: TokenTarget)
    requires turn < |msgs| && msgs[turn].role != Tool && FitsU32(msgs, target) && Exact(msgs[turn..], target) > preserve as nat
    ensures var cut := MegaStart(msgs, turn, preserve, target);
            && (turn < |msgs| - 1 ==> cut > turn)
            && (turn == |msgs| - 1 ==> cut == turn)
            && (turn < |msgs| - 1 ==>
                (cut == |msgs| <==> msgs[|msgs| - 1].role == Tool && Exact(msgs[LastPlain(msgs)..], target) > preserve))
  {
    hide Exact, Reading, FitsU32, LastPlain, MegaStop, MegaStart, Aligned;
    MegaStartIs(msgs, turn, preserve, target);
    var r := MegaStop(msgs, turn, |msgs|, preserve, target);
    ReadingIsExact(msgs, turn, target);
    if r > turn { ReadingIsExact(msgs, r - 1, target); }
    var plain := LastPlain(msgs);
    if plain < |msgs| - 1 {
      ReadingIsExact(msgs, plain, target);
      if r > plain { ExactSuffixLe(msgs, plain, r - 1, target); }
      AlignedAtEnd(msgs, r);
    } else {
      AlignedAtEnd(msgs, r);
    }
  }

  /** Moving past tool results reaches the end exactly from behind the last other message. */
  lemma AlignedAtEnd(msgs: seq<Message>, r: nat)
    requires r < |msgs| && exists k :: 0 <= k < |msgs| && msgs[k].role != Tool
    ensures Aligned(msgs, r) == |msgs| <==> r > LastPlain(msgs)
    ensures msgs[|msgs| - 1].role == Tool <==> LastPlain(msgs) < |msgs| - 1
  {
  }

  /** One long turn, for instance: the prompt, a question, and two answers of which the budget holds one.
      The tail kept is the second answer. */
  lemma LongTurnKeepsAnAnswer(target: TokenTarget)
    ensures var question, answer := UserMessage([]), Message(Assistant, FromUser, None, None, None, []);
            var msgs := [Message(System, FromUser, None, None, None, []), question, answer, answer];
            Chosen(msgs, 1, 4, target) == Some(3) && !IsUserTurn(msgs[3])
  {
    var question, answer := UserMessage([]), Message(Assistant, FromUser, None, None, None, []);
    var msgs := [Message(System, FromUser, None, None, None, []), question, answer, answer];
    LongTurnCosts(target);
    LongTurnStarts();
    hide Chosen, TailStart, MegaStart, Reading, Exact, TurnStarts;
    TailStartIs(msgs, 1, 4, target);
    ChosenIs(msgs, 1, 4, target);
    MegaStartIs(msgs, 1, 4, target);
  }

  lemma LongTurnStarts()
    ensures var question, answer := UserMessage([]), Message(Assistant, FromUser, None, None, None, []);
            TurnStarts([Message(System, FromUser, None, None, None, []), question, answer, answer], 1) == [1]
  {
    var question, answer := UserMessage([]), Message(Assistant, FromUser, None, None, None, []);
    var msgs := [Message(System, FromUser, None, None, None, []), question, answer, answer];
    assert TurnStarts(msgs, 4) == [] && TurnStarts(msgs, 3) == [] && TurnStarts(msgs, 2) == [];
  }

  lemma LongTurnCosts(target: TokenTarget)
    ensures var question, answer := UserMessage([]), Message(Assistant, FromUser, None, None, None, []);
            var msgs := [Message(System, FromUser, None, None, None, []), question, answer, answer];
            Reading(msgs, 3, target) == 4 && Reading(msgs, 2, target) == 8 && Reading(msgs, 1, target) == 12
  {
    var question, answer := UserMessage([]), Message(Assistant, FromUser, None, None, None, []);
    var msgs := [Message(System, FromUser, None, None, None, []), question, answer, answer];
    assert MessageTokens(question, target) == 4 && MessageTokens(answer, target) == 4;
    assert msgs[3..] == [answer] && msgs[2..] == [answer] + [answer] && msgs[1..] == [question] + ([answer] + [answer]);
    hide Exact, Reading, MessageTokens;
    ExactOne(answer, target);
    ExactOne(question, target);
    ExactConcat([answer], [answer], target);
    ExactConcat([question], [answer] + [answer], target);
    ReadingFits(msgs, 3, target);
    ReadingFits(msgs, 2, target);
    ReadingFits(msgs, 1, target);
  }

  // ---- how small the tail is ----

  /** Whatever is kept reads as within the budget, or is one message. */
  lemma KeptReadsWithin(msgs: seq<Message>, tailTurns: nat, preserve: u32, target: TokenTarget, start: nat)
    requires |msgs| > 2 && Chosen(msgs, tailTurns, preserve, target) == Some(start)
    ensures start <= |msgs| && (Reading(msgs, start, target) <= preserve || |msgs| - start <= 1)
  {
    hide Chosen, TailStart, Reading, TurnStarts, MegaStop, MegaStart;
    ChosenIs(msgs, tailTurns, preserve, target);
    var turn := TailStart(msgs, tailTurns, preserve, target);
    if turn < |msgs| { MegaStartIs(msgs, turn, preserve, target); }
    MegaStartIs(msgs, 1, preserve, target);
  }

  lemma OneMessageFits(msgs: seq<Message>, start: nat, target: TokenTarget)
    requires start <= |msgs| <= start + 1
    ensures FitsU32(msgs[start..], target)
  {
    if start < |msgs| {
      assert msgs[start..] == [msgs[start]];
      ExactOne(msgs[start], target);
    }
  }

  /** So it is as small as it should be exactly when its own cost fits 32 bits. */
  lemma BoundedExactly(msgs: seq<Message>, tailTurns: nat, preserve: u32, target: TokenTarget, start: nat)
    requires |msgs| > 2 && Chosen(msgs, tailTurns, preserve, target) == Some(start)
    ensures start <= |msgs| && (Bounded(msgs, start, preserve, target) <==> FitsU32(msgs[start..], target))
  {
    hide Chosen, Reading, Exact;
    KeptReadsWithin(msgs, tailTurns, preserve, target, start);
    if |msgs| - start <= 1 {
      OneMessageFits(msgs, start, target);
    } else if FitsU32(msgs[start..], target) {
      ReadingFits(msgs, start, target);
    }
  }

  /** The tail is bounded whatever the policy. */
  ghost predicate AlwaysBounded(msgs: seq<Message>, target: TokenTarget)
    requires |msgs| > 2
  {
    forall tailTurns: nat, preserve: u32 :: Chosen(msgs, tailTurns, preserve, target).Some? ==>
      Bounded(msgs, Chosen(msgs, tailTurns, preserve, target).value, preserve, target)
  }

  /** The history from every user turn after the first message behind the prompt fits 32 bits. */
  ghost predicate TurnsFit(msgs: seq<Message>, target: TokenTarget) {
    forall c :: 2 <= c < |msgs| && IsUserTurn(msgs[c]) ==> FitsU32(msgs[c..], target)
  }

  /** A split before `i` that some budget makes and whose tail does not fit 32 bits: `msgs[i - 1..]` reads as
      larger than all of the later suffixes, and than the whole history where that is the oldest of several
      turns. */
  ghost predicate SplitMisreads(msgs: seq<Message>, i: nat, target: TokenTarget)
    requires 2 <= i < |msgs|
  {
    && Aligned(msgs, i) < |msgs| && !FitsU32(msgs[Aligned(msgs, i)..], target)
    && (forall j :: i <= j < |msgs| - 1 ==> Reading(msgs, j, target) < Reading(msgs, i - 1, target))
    && ((exists c :: 2 <= c < |msgs| && IsUserTurn(msgs[c])) ==> Reading(msgs, 1, target) < Reading(msgs, i - 1, target))
  }

  ghost predicate SplitsFit(msgs: seq<Message>, target: TokenTarget) {
    forall i :: 2 <= i < |msgs| ==> !SplitMisreads(msgs, i, target)
  }

  /** A walk that never meets its budget takes the oldest candidate. */
  lemma TakesEveryTurn(msgs: seq<Message>, candidates: seq<nat>, preserve: u32, target: TokenTarget)
    requires candidates != [] && Within(candidates, |msgs|)
    requires forall q :: 0 <= q < |candidates| - 1 ==> Reading(msgs, candidates[q], target) <= preserve
    ensures TurnStop(msgs, candidates, |candidates|, preserve, target) == candidates[0]
  {
    hide Reading, TurnStop;
    var k := TurnStopped(msgs, candidates, |candidates|, preserve, target);
  }

  lemma TurnIndex(msgs: seq<Message>, c: nat) returns (k: nat)
    requires 1 <= c < |msgs| && IsUserTurn(msgs[c])
    ensures k < |TurnStarts(msgs, 1)| && TurnStarts(msgs, 1)[k] == c
  {
    hide IsUserTurn, Ascending;
    var turns := TurnStarts(msgs, 1);
    assert c in turns;
    k :| 0 <= k < |turns| && turns[k] == c;
  }

  /** A turn can be kept whatever it costs: with no limit on the budget the walk stops where it is told. */
  lemma AnyTurnIsKept(msgs: seq<Message>, c: nat, target: TokenTarget) returns (tailTurns: nat)
    requires |msgs| > 2 && 2 <= c < |msgs| && IsUserTurn(msgs[c])
    ensures Chosen(msgs, tailTurns, U32_MAX, target) == Some(c)
  {
    hide Chosen, Reading, TurnStarts, TurnStop, Ascending, IsUserTurn;
    var k := TurnIndex(msgs, c);
    var turns := TurnStarts(msgs, 1);
    tailTurns := |turns| - k;
    assert LastN(turns, tailTurns) == turns[k..];
    TakesEveryTurn(msgs, Candidates(msgs, tailTurns), U32_MAX, target);
    ChosenIs(msgs, tailTurns, U32_MAX, target);
  }

  lemma StopsAt(msgs: seq<Message>, i: nat, preserve: u32, target: TokenTarget)
    requires 2 <= i < |msgs|
    requires Reading(msgs, i - 1, target) > preserve
    requires forall j :: i <= j < |msgs| - 1 ==> Reading(msgs, j, target) <= preserve
    ensures MegaStart(msgs, 1, preserve, target) == Aligned(msgs, i)
  {
    hide MegaStop, MegaStart, Reading, Aligned;
    MegaStartIs(msgs, 1, preserve, target);
  }

  /** A misread split is made: by the largest budget under what stops it, with every turn allowed. */
  lemma MisreadSplitIsMade(msgs: seq<Message>, i: nat, target: TokenTarget) returns (tailTurns: nat, preserve: u32)
    requires |msgs| > 2 && 2 <= i < |msgs| && IsUserTurn(msgs[1]) && TurnsFit(msgs, target) && SplitMisreads(msgs, i, target)
    ensures Chosen(msgs, tailTurns, preserve, target) == Some(Aligned(msgs, i))
  {
    hide Chosen, Reading, TurnStarts, TurnStop, Ascending, IsUserTurn, MegaStart, FitsU32, Exact, Aligned;
    var turns := TurnStarts(msgs, 1);
    assert i < |msgs| - 1 by {
      if i == |msgs| - 1 { OneMessageFits(msgs, Aligned(msgs, i), target); }
    }
    assert Reading(msgs, i, target) < Reading(msgs, i - 1, target);
    tailTurns, preserve := |turns|, Reading(msgs, i - 1, target) - 1;
    StopsAt(msgs, i, preserve, target);
    FirstTurn(msgs);
    forall q | 0 <= q < |turns| - 1
      ensures Reading(msgs, turns[q], target) <= preserve
    {
      TurnReadsWithin(msgs, i, q, target);
    }
    TakesEveryTurn(msgs, turns, preserve, target);
    ChosenIs(msgs, tailTurns, preserve, target);
  }

  lemma FirstTurn(msgs: seq<Message>)
    requires |msgs| > 2 && IsUserTurn(msgs[1])
    ensures TurnStarts(msgs, 1) != [] && TurnStarts(msgs, 1)[0] == 1
  {
    hide IsUserTurn;
  }

  lemma TurnReadsWithin(msgs: seq<Message>, i: nat, q: nat, target: TokenTarget)
    requires |msgs| > 2 && 2 <= i < |msgs| && IsUserTurn(msgs[1]) && TurnsFit(msgs, target) && SplitMisreads(msgs, i, target)
    requires q < |TurnStarts(msgs, 1)| - 1
    ensures Reading(msgs, TurnStarts(msgs, 1)[q], target) < Reading(msgs, i - 1, target)
  {
    hide Reading, TurnStarts, IsUserTurn, Exact, Aligned;
    var turns := TurnStarts(msgs, 1);
    var c, d := turns[q], turns[q + 1];
    assert 1 <= c < d < |msgs| && IsUserTurn(msgs[c]) && IsUserTurn(msgs[d]);
    if 2 <= c < i {
      ExactSuffixLe(msgs, c, Aligned(msgs, i), target);
    }
  }

  /** The tail is bounded under every policy exactly when every turn behind the first fits 32 bits and no split of the
      first does not. */
  lemma AlwaysBoundedExactly(msgs: seq<Message>, target: TokenTarget)
    requires |msgs| > 2
    ensures AlwaysBounded(msgs, target) <==> TurnsFit(msgs, target) && (IsUserTurn(msgs[1]) ==> SplitsFit(msgs, target))
  {
    hide *;
    if AlwaysBounded(msgs, target) {
      BoundedTurnsFit(msgs, target);
      if IsUserTurn(msgs[1]) { BoundedSplitsFit(msgs, target); }
    }
    if TurnsFit(msgs, target) && (IsUserTurn(msgs[1]) ==> SplitsFit(msgs, target)) {
      FittingIsBounded(msgs, target);
    }
  }

  lemma BoundedTurnsFit(msgs: seq<Message>, target: TokenTarget)
    requires |msgs| > 2 && AlwaysBounded(msgs, target)
    ensures TurnsFit(msgs, target)
  {
    hide Chosen, Bounded, FitsU32, IsUserTurn;
    forall c | 2 <= c < |msgs| && IsUserTurn(msgs[c])
      ensures FitsU32(msgs[c..], target)
    {
      var tailTurns := AnyTurnIsKept(msgs, c, target);
      BoundedExactly(msgs, tailTurns, U32_MAX, target, c);
    }
  }

  lemma BoundedSplitsFit(msgs: seq<Message>, target: TokenTarget)
    requires |msgs| > 2 && AlwaysBounded(msgs, target) && IsUserTurn(msgs[1])
    ensures SplitsFit(msgs, target)
  {
    hide Chosen, Bounded, FitsU32, IsUserTurn, Reading, Aligned, TurnsFit;
    BoundedTurnsFit(msgs, target);
    forall i | 2 <= i < |msgs|
      ensures !SplitMisreads(msgs, i, target)
    {
      if SplitMisreads(msgs, i, target) {
        var tailTurns, preserve := MisreadSplitIsMade(msgs, i, target);
        BoundedExactly(msgs, tailTurns, preserve, target, Aligned(msgs, i));
      }
    }
  }

  lemma FittingIsBounded(msgs: seq<Message>, target: TokenTarget)
    requires |msgs| > 2 && TurnsFit(msgs, target) && (IsUserTurn(msgs[1]) ==> SplitsFit(msgs, target))
    ensures AlwaysBounded(msgs, target)
  {
    hide Chosen, Bounded, FitsU32, IsUserTurn, TurnsFit, SplitsFit;
    forall tailTurns: nat, preserve: u32 | Chosen(msgs, tailTurns, preserve, target).Some?
      ensures Bounded(msgs, Chosen(msgs, tailTurns, preserve, target).value, preserve, target)
    {
      var start := Chosen(msgs, tailTurns, preserve, target).value;
      ChosenFits(msgs, tailTurns, preserve, target, start);
      BoundedExactly(msgs, tailTurns, preserve, target, start);
    }
  }

  lemma ChosenFits(msgs: seq<Message>, tailTurns: nat, preserve: u32, target: TokenTarget, start: nat)
    requires |msgs| > 2 && TurnsFit(msgs, target) && (IsUserTurn(msgs[1]) ==> SplitsFit(msgs, target))
    requires Chosen(msgs, tailTurns, preserve, target) == Some(start)
    ensures FitsU32(msgs[start..], target)
  {
    hide Chosen, TailStart, MegaStart, Reading, Exact, TurnStarts, Aligned, SplitsFit;
    TailStartIs(msgs, tailTurns, preserve, target);
    ChosenIs(msgs, tailTurns, preserve, target);
    var turn := TailStart(msgs, tailTurns, preserve, target);
    if turn == 1 {
      assert start == MegaStart(msgs, 1, preserve, target);
      SplitFits(msgs, tailTurns, preserve, target);
    } else if turn == |msgs| {
      OneMessageFits(msgs, start, target);
    } else {
      ExactSuffixLe(msgs, turn, start, target);
    }
  }

  lemma SplitFits(msgs: seq<Message>, tailTurns: nat, preserve: u32, target: TokenTarget)
    requires |msgs| > 2 && SplitsFit(msgs, target) && TailStart(msgs, tailTurns, preserve, target) == 1
    requires MegaStart(msgs, 1, preserve, target) > 1
    ensures var start := MegaStart(msgs, 1, preserve, target); start <= |msgs| && FitsU32(msgs[start..], target)
  {
    hide TailStart, MegaStart, MegaStop, Reading, Exact, TurnStarts, FitsU32;
    TailStartIs(msgs, tailTurns, preserve, target);
    MegaStartIs(msgs, 1, preserve, target);
    var r := MegaStop(msgs, 1, |msgs|, preserve, target);
    var start := MegaStart(msgs, 1, preserve, target);
    if start == |msgs| {
      OneMessageFits(msgs, start, target);
    } else if r > 1 {
      assert !SplitMisreads(msgs, r, target);
      forall c | 2 <= c < |msgs| && IsUserTurn(msgs[c])
        ensures Reading(msgs, 1, target) < Reading(msgs, r - 1, target)
      {
        NewestTurn(msgs, tailTurns);
      }
    }
  }

  /** A history that fails: behind the prompt and an answer, two user messages with a huge image
      each, 2^31 tokens with the message. With two turns allowed both are kept under every
      budget, for together they read as nothing. */
  lemma WrappedReadingKeepsAll(preserve: u32)
    ensures var big := WithImage(HUGE_IMAGE);
            var msgs := [Message(System, FromUser, None, None, None, []), Message(Assistant, FromUser, None, None, None, []), big, big];
            && Chosen(msgs, 2, preserve, OpenAi) == Some(2)
            && Exact(msgs[2..], OpenAi) == 0x1_0000_0000 && !Bounded(msgs, 2, preserve, OpenAi)
  {
    var big := WithImage(HUGE_IMAGE);
    var msgs := [Message(System, FromUser, None, None, None, []), Message(Assistant, FromUser, None, None, None, []), big, big];
    BigCosts(big, msgs);
    BigTurns(msgs);
    hide Chosen, Reading, Exact, TurnStarts, TurnStop;
    TakesEveryTurn(msgs, Candidates(msgs, 2), preserve, OpenAi);
    ChosenIs(msgs, 2, preserve, OpenAi);
  }

  lemma BigCosts(big: Message, msgs: seq<Message>)
    requires big == WithImage(HUGE_IMAGE) && |msgs| == 4 && msgs[2] == msgs[3] == big
    ensures Exact(msgs[2..], OpenAi) == 0x1_0000_0000 && Reading(msgs, 2, OpenAi) == 0
  {
    assert MessageTokens(big, OpenAi) == 0x8000_0000 by {
      var one := [HUGE_IMAGE];
      assert one[..0] == [];
      assert AttachedTokens(one, OpenAi) == 0x7FFF_FFFC;
    }
    assert msgs[2..] == [big] + [big];
    hide MessageTokens;
    ExactOne(big, OpenAi);
    ExactConcat([big], [big], OpenAi);
    ReadingWraps(msgs, 2, OpenAi);
  }

  lemma BigTurns(msgs: seq<Message>)
    requires |msgs| == 4 && !IsUserTurn(msgs[1]) && IsUserTurn(msgs[2]) && IsUserTurn(msgs[3])
    ensures TurnStarts(msgs, 1) == [2, 3]
  {
    assert TurnStarts(msgs, 4) == [] && TurnStarts(msgs, 3) == [3] && TurnStarts(msgs, 2) == [2, 3];
  }
}
