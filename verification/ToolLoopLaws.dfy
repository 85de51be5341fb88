/** What the tool loop guarantees for every model and every tool behaviour. */
module ToolLoopLaws {
  import opened Wrappers
  import opened ToolLoop

  /** Calls after which tools ran. */
  function Rounds(calls: seq<Call>): nat {
    if calls == [] then 0 else Rounds(calls[..|calls| - 1]) + if calls[|calls| - 1].ran != [] then 1 else 0
  }

  lemma OneMoreCall(calls: seq<Call>, c: Call)
    ensures Rounds(calls + [c]) == Rounds(calls) + if c.ran != [] then 1 else 0
  {
    assert (calls + [c])[..|calls|] == calls;
  }

  /** Tools run for a call exactly when it stopped to use them and they were on; then all of them, in order. */
  predicate RanRightly(c: Call) {
    c.ran == if c.reply.stop == ToolUseStop && !c.toolsOff then Ids(ToolUses(c.reply.blocks)) else []
  }

  predicate AllRanRightly(calls: seq<Call>) {
    forall i :: 0 <= i < |calls| ==> RanRightly(calls[i])
  }

  /** The call a reply records. */
  function CallOf(s: Session, reply: Reply): (c: Call) {
    var uses := ToolUses(reply.blocks);
    Call(s.budget, s.wrapUp, reply, if reply.stop == ToolUseStop && uses != [] && !s.wrapUp then Ids(uses) else [])
  }

  /** What a reply does to the counters. */
  lemma ReactCounts(env: Env, s: Session, reply: Reply)
    ensures var c, r := CallOf(s, reply), React(env, s, reply);
            && r.s.calls == s.calls + [c]
            && r.s.iter == (if r.Go? && reply.stop != MaxTokens then s.iter + 1 else s.iter)
            && r.s.roomRetried == (s.roomRetried || (r.Go? && reply.stop == MaxTokens))
            && r.s.usedTools == (s.usedTools || c.ran != [])
            && r.s.wrapUp == (s.wrapUp || (r.Go? && reply.stop !in {PauseTurn, MaxTokens} && c.ran == []))
            && (r.Go? && reply.stop == MaxTokens ==> !s.roomRetried && !Spoke(reply.blocks))
            && (r.Go? && r.s.wrapUp && !s.wrapUp ==> s.usedTools)
            && (r.Halt? ==> r.cutOff == (reply.stop == MaxTokens))
            && (r.Halt? && !r.cutOff && s.usedTools ==> s.wrapUp || Spoke(reply.blocks))
            && r.s.budget == (if r.Go? && reply.stop == MaxTokens then RetryOutputTokens(s.budget) else s.budget)
    ensures var c := CallOf(s, reply); c.ran != [] ==> React(env, s, reply).Go? && RanRightly(c)
  {
    hide Spoke, ToolUses, Nudge, RetryOutputTokens, RunTools;
  }

  predicate LastWasWrapUp(calls: seq<Call>) {
    calls != [] && calls[|calls| - 1].toolsOff
  }

  predicate Inv(env: Env, s: Session) {
    && s.iter <= env.maxIterations + 1
    && |s.calls| <= s.iter + (if s.roomRetried then 1 else 0)
    && Rounds(s.calls) <= Min(s.iter, env.maxIterations)
    && (s.wrapUp ==> s.usedTools)
    && (s.iter > env.maxIterations && s.usedTools ==> LastWasWrapUp(s.calls))
    && AllRanRightly(s.calls)
    && (s.usedTools <==> Rounds(s.calls) > 0)
  }

  /** One turn of the loop: the cap, the call and the reply. */
  lemma TurnKeeps(env: Env, s: Session, s1: Session, reply: Reply)
    requires Inv(env, s) && s.iter <= env.maxIterations && AtCap(env, s) == Some(s1)
    ensures match React(env, s1, reply)
            case Go(s2) => Inv(env, s2)
            case Halt(s2, cutOff) =>
              && |s2.calls| <= env.maxIterations + 2 && Rounds(s2.calls) <= env.maxIterations
              && AllRanRightly(s2.calls)
              && (s2.usedTools <==> Rounds(s2.calls) > 0)
              && (s2.usedTools && !cutOff ==> LastWasWrapUp(s2.calls) || Spoke(reply.blocks))
  {
    hide Spoke, React, CallOf, RanRightly, Nudge;
    ReactCounts(env, s1, reply);
    OneMoreCall(s1.calls, CallOf(s1, reply));
    assert s1.calls == s.calls;
    CallIsRight(s1, reply);
  }

  lemma CallIsRight(s: Session, reply: Reply)
    ensures CallOf(s, reply).toolsOff == s.wrapUp && RanRightly(CallOf(s, reply))
    ensures CallOf(s, reply).reply == reply && CallOf(s, reply).budget == s.budget
    ensures CallOf(s, reply).ran != [] ==> !s.wrapUp
  {
  }

  /**
   * However model and tools behave, the loop ends; it makes at most maxIterations + 2 calls and runs at most
   * maxIterations rounds of tools, never for a cut-off or a wrap-up call; and a turn in which tools ran ends with words,
   * with the wrap-up call, or flagged as cut off.
   */
  lemma {:induction false} LoopIsSound(env: Env, s: Session)
    requires Inv(env, s)
    ensures var e := Loop(env, s);
            && |e.s.calls| <= env.maxIterations + 2 && Rounds(e.s.calls) <= env.maxIterations
            && AllRanRightly(e.s.calls)
            && (e.Done? && e.s.usedTools && !e.cutOff ==>
                  e.s.calls != [] && (LastWasWrapUp(e.s.calls) || Spoke(e.s.calls[|e.s.calls| - 1].reply.blocks)))
    decreases env.maxIterations + 1 - s.iter, if s.roomRetried then 0 else 1
  {
    hide Spoke, Rounds, RanRightly;
    if s.iter <= env.maxIterations && AtCap(env, s).Some? {
      var s1 := AtCap(env, s).value;
      var reply := env.replies(|s1.calls|);
      if reply.Some? {
        TurnKeeps(env, s, s1, reply.value);
        match React(env, s1, reply.value)
        case Go(s2) =>
          assert s2.iter == s.iter ==> s2.roomRetried && !s.roomRetried;
          LoopIsSound(env, s2);
        case Halt(s2, cutOff) => assert s2.calls[|s2.calls| - 1].reply == reply.value;
      }
    }
  }

  lemma TurnsAreBounded(env: Env, turns: seq<Turn>, budget: nat)
    ensures var e := Loop(env, Start(turns, budget));
            && |e.s.calls| <= env.maxIterations + 2 && Rounds(e.s.calls) <= env.maxIterations
            && AllRanRightly(e.s.calls)
            && (e.Done? && e.s.usedTools && !e.cutOff ==>
                  e.s.calls != [] && (LastWasWrapUp(e.s.calls) || Spoke(e.s.calls[|e.s.calls| - 1].reply.blocks)))
  {
    LoopIsSound(env, Start(turns, budget));
  }

  // ---------- Room ----------

  predicate HitLimit(c: Call) {
    c.reply.stop == MaxTokens
  }

  function NextBudget(c: Call): nat {
    if HitLimit(c) then RetryOutputTokens(c.budget) else c.budget
  }

  /** Each call has the budget the one before leaves it; only a silent call that hit the limit is made again. */
  predicate RoomChain(calls: seq<Call>) {
    forall i :: 0 <= i < |calls| - 1 ==>
      calls[i + 1].budget == NextBudget(calls[i]) && (HitLimit(calls[i]) ==> !Spoke(calls[i].reply.blocks))
  }

  /** Among these calls, only one hit the limit. */
  predicate OneHit(calls: seq<Call>) {
    forall i, j :: 0 <= i < j < |calls| ==> !(HitLimit(calls[i]) && HitLimit(calls[j]))
  }

  predicate LastHitLimit(calls: seq<Call>) {
    calls != [] && HitLimit(calls[|calls| - 1])
  }

  predicate RoomInv(env: Env, budget: nat, s: Session) {
    && RoomChain(s.calls) && OneHit(s.calls)
    && s.budget == (if s.calls == [] then budget else NextBudget(s.calls[|s.calls| - 1]))
    && (s.calls != [] ==> s.calls[0].budget == budget)
    && (!s.roomRetried ==> forall i :: 0 <= i < |s.calls| ==> !HitLimit(s.calls[i]))
    && (LastHitLimit(s.calls) ==> !Spoke(s.calls[|s.calls| - 1].reply.blocks))
    && (LastHitLimit(s.calls) ==> s.iter <= env.maxIterations && (s.iter == env.maxIterations ==> s.wrapUp))
  }

  lemma CallExtends(env: Env, budget: nat, s: Session, c: Call)
    requires RoomInv(env, budget, s) && c.budget == s.budget
    ensures RoomChain(s.calls + [c]) && (s.calls + [c])[0].budget == budget
    ensures !HitLimit(c) || !s.roomRetried ==> OneHit(s.calls + [c])
  {
    hide Spoke, RetryOutputTokens;
  }

  /**
   * A call that hits the limit before it says anything is made once more with more room; a second limit, or one after
   * words, ends the turn, and exactly those turns are flagged as cut off.
   */
  lemma {:induction false} RoomIsRetriedOnce(env: Env, budget: nat, s: Session)
    requires RoomInv(env, budget, s)
    ensures var e := Loop(env, s);
            && RoomChain(e.s.calls) && (e.s.calls != [] ==> e.s.calls[0].budget == budget)
            && OneHit(if e.Done? && e.cutOff && e.s.calls != [] then e.s.calls[..|e.s.calls| - 1] else e.s.calls)
            && (e.Done? ==> (e.cutOff <==> LastHitLimit(e.s.calls)))
    decreases env.maxIterations + 1 - s.iter, if s.roomRetried then 0 else 1
  {
    hide Spoke, React, RoomChain, OneHit, Nudge;
    if s.iter <= env.maxIterations && AtCap(env, s).Some? {
      var s1 := AtCap(env, s).value;
      var answer := env.replies(|s1.calls|);
      if answer.Some? {
        assert RoomInv(env, budget, s1);
        RoomTurn(env, budget, s1, answer.value);
        if React(env, s1, answer.value).Go? {
          ReactCounts(env, s1, answer.value);
          RoomIsRetriedOnce(env, budget, React(env, s1, answer.value).s);
        }
      }
    }
  }

  lemma RoomTurn(env: Env, budget: nat, s1: Session, reply: Reply)
    requires RoomInv(env, budget, s1) && s1.iter <= env.maxIterations
    requires s1.iter == env.maxIterations ==> s1.wrapUp
    ensures match React(env, s1, reply)
            case Go(s2) => RoomInv(env, budget, s2)
            case Halt(s2, cutOff) =>
              && s2.calls != [] && RoomChain(s2.calls) && s2.calls[0].budget == budget
              && OneHit(if cutOff then s2.calls[..|s2.calls| - 1] else s2.calls)
              && (cutOff <==> LastHitLimit(s2.calls))
  {
    hide Spoke, React, CallOf, RetryOutputTokens, Nudge, RoomChain, OneHit;
    var c := CallOf(s1, reply);
    ReactCounts(env, s1, reply);
    CallIsRight(s1, reply);
    CallExtends(env, budget, s1, c);
    var calls := s1.calls + [c];
    assert calls[..|calls| - 1] == s1.calls && calls[|calls| - 1] == c;
    assert forall i :: 0 <= i < |s1.calls| ==> calls[i] == s1.calls[i];
  }

  lemma RoomOfATurn(env: Env, turns: seq<Turn>, budget: nat)
    ensures var e := Loop(env, Start(turns, budget));
            && RoomChain(e.s.calls) && (e.s.calls != [] ==> e.s.calls[0].budget == budget)
            && OneHit(if e.Done? && e.cutOff && e.s.calls != [] then e.s.calls[..|e.s.calls| - 1] else e.s.calls)
            && (e.Done? ==> (e.cutOff <==> LastHitLimit(e.s.calls)))
  {
    RoomIsRetriedOnce(env, budget, Start(turns, budget));
  }

  // ---------- History ----------

  /** The message's tool uses, if any, are answered by the next one: the same ids, in order, once each. */
  predicate Answered(messages: seq<Message>, k: nat)
    requires k < |messages|
  {
    ToolIds(messages[k]) != [] ==> k + 1 < |messages| && ResultIds(messages[k + 1]) == ToolIds(messages[k])
  }

  predicate AllAnswered(messages: seq<Message>) {
    forall k :: 0 <= k < |messages| ==> Answered(messages, k)
  }

  /** A pause with a tool use in it. */
  predicate PausesWithTool(reply: Reply) {
    reply.stop == PauseTurn && ToolUses(reply.blocks) != []
  }

  /** None of the first n replies is one. */
  ghost predicate NoToolInPause(env: Env, n: nat) {
    forall i :: 0 <= i < n && env.replies(i).Some? ==> !PausesWithTool(env.replies(i).value)
  }

  /** A message without results leaves what was open open. */
  lemma AppendMessage(messages: seq<Message>, m: Message)
    requires ResultIds(m) == []
    ensures AllAnswered(messages + [m]) <==> AllAnswered(messages) && ToolIds(m) == []
  {
    hide ToolIds, ResultIds;
    var all := messages + [m];
    assert forall k :: 0 <= k < |messages| ==> all[k] == messages[k];
    assert all[|messages|] == m;
    forall k | 0 <= k < |messages| ensures Answered(all, k) == Answered(messages, k) {
    }
    if AllAnswered(all) {
      assert Answered(all, |messages|);
      assert forall k :: 0 <= k < |messages| ==> Answered(all, k);
    }
  }

  /** A round adds a message and its answer. */
  lemma AppendRound(messages: seq<Message>, m: Message, r: Message)
    requires m.Assistant? && ToolIds(r) == [] && ResultIds(r) == ToolIds(m)
    ensures AllAnswered(messages + [m, r]) <==> AllAnswered(messages)
  {
    var all := messages + [m, r];
    assert forall k :: 0 <= k < |messages| ==> all[k] == messages[k];
    assert all[|messages|] == m && all[|messages| + 1] == r;
    forall k | 0 <= k < |messages| ensures Answered(all, k) == Answered(messages, k) {
    }
    if AllAnswered(all) {
      assert forall k :: 0 <= k < |messages| ==> Answered(all, k);
    }
  }

  /** The nudge neither answers a tool use nor takes an answer away. */
  lemma NudgeKeepsAnswers(messages: seq<Message>, why: string)
    ensures AllAnswered(Nudge(messages, why)) <==> AllAnswered(messages)
  {
    if messages != [] && messages[|messages| - 1].UserParts? {
      var all := Nudge(messages, why);
      assert |all| == |messages|;
      forall k | 0 <= k < |messages| ensures ToolIds(all[k]) == ToolIds(messages[k]) && ResultIds(all[k]) == ResultIds(messages[k]) {
        assert k < |messages| - 1 ==> all[k] == messages[k];
      }
      assert forall k :: 0 <= k < |messages| ==> Answered(all, k) == Answered(messages, k);
      if AllAnswered(all) {
        assert forall k :: 0 <= k < |messages| ==> Answered(all, k);
      }
    } else {
      AppendMessage(messages, UserText(why));
    }
  }

  lemma RoundAnswers(env: Env, blocks: seq<Block>, n: nat)
    ensures ResultIds(UserParts([], RunTools(env, ToolUses(blocks), n), [])) == ToolIds(Assistant(blocks))
  {
  }

  lemma ReactAnswers(env: Env, s: Session, reply: Reply)
    ensures AllAnswered(React(env, s, reply).s.messages) <==> AllAnswered(s.messages) && !PausesWithTool(reply)
  {
    hide AllAnswered, Spoke, ToolUses, RunTools, Nudge, RetryOutputTokens, Answered;
    var uses := ToolUses(reply.blocks);
    AppendMessage(s.messages, Assistant(reply.blocks));
    NudgeKeepsAnswers(s.messages, EMPTY_NUDGE);
    RoundAnswers(env, reply.blocks, s.toolRuns);
    AppendRound(s.messages, Assistant(reply.blocks), UserParts([], RunTools(env, uses, s.toolRuns), []));
    assert ToolIds(Assistant(reply.blocks)) == [] <==> uses == [];
  }

  lemma {:induction false} HistoryFrom(env: Env, s: Session)
    requires AllAnswered(s.messages) <==> NoToolInPause(env, |s.calls|)
    ensures var e := Loop(env, s); AllAnswered(e.s.messages) <==> NoToolInPause(env, |e.s.calls|)
    decreases env.maxIterations + 1 - s.iter, if s.roomRetried then 0 else 1
  {
    hide AllAnswered, React, CallOf, Nudge, Spoke, PausesWithTool;
    if s.iter <= env.maxIterations && AtCap(env, s).Some? {
      NudgeKeepsAnswers(s.messages, CAP_NUDGE);
      var s1 := AtCap(env, s).value;
      var answer := env.replies(|s1.calls|);
      if answer.Some? {
        ReactAnswers(env, s1, answer.value);
        ReactCounts(env, s1, answer.value);
        if React(env, s1, answer.value).Go? {
          HistoryFrom(env, React(env, s1, answer.value).s);
        }
      }
    }
  }

  lemma TurnHasNoTools(t: Turn)
    ensures ToolIds(ToMessageParam(t)) == []
  {
    if t.AssistantTurn? {
      var blocks := [TextBlock(t.content)];
      assert blocks[1..] == [] && ToolUses(blocks[1..]) == [];
    }
  }

  /**
   * Every tool use in the history is answered in the very next message, by its id and only once, exactly when none of
   * the replies the loop asked for pauses with a tool use: that one is sent back as it is and never run. Whatever did run
   * is in the history with its results.
   */
  lemma HistoryIsComplete(env: Env, turns: seq<Turn>, budget: nat)
    ensures var e := Loop(env, Start(turns, budget));
            AllAnswered(e.s.messages) <==> NoToolInPause(env, |e.s.calls|)
    ensures var s := Loop(env, Start(turns, budget)).s;
            RoundsInPlace(env, s.messages, s.calls) && AllDelivered(env, s.messages, s.calls, s.toolRuns)
  {
    hide React, PausesWithTool, RoundsInPlace, AllDelivered;
    ExecutedToolsAreAnswered(env, turns, budget);
    forall i | 0 <= i < |turns| ensures ToolIds(ToMessageParam(turns[i])) == [] {
      TurnHasNoTools(turns[i]);
    }
    HistoryFrom(env, Start(turns, budget));
  }

  // ---------- Delivery ----------

  function ResultsIn(m: Message): seq<ToolResult> {
    if m.UserParts? then m.results else []
  }

  /** All tool results in the history, in order. */
  function ResultsOf(messages: seq<Message>): seq<ToolResult> {
    if messages == [] then [] else ResultsOf(messages[..|messages| - 1]) + ResultsIn(messages[|messages| - 1])
  }

  /** All tool uses that were run, in order. */
  function RanOf(calls: seq<Call>): seq<Id> {
    if calls == [] then [] else RanOf(calls[..|calls| - 1]) + calls[|calls| - 1].ran
  }

  /** The history holds one result for each tool that ran, in the order of the runs: the n-th under the id of the n-th
      tool use that was run, with what that run came to. */
  predicate AllDelivered(env: Env, messages: seq<Message>, calls: seq<Call>, toolRuns: nat) {
    toolRuns == |ResultsOf(messages)| && Answers(env, ResultsOf(messages), RanOf(calls))
  }

  predicate Answers(env: Env, results: seq<ToolResult>, ran: seq<Id>) {
    |results| == |ran| && forall n :: 0 <= n < |results| ==> IsResultOf(results[n], ran[n], env.tools(n))
  }

  /** The result tells under the id of the use what its run came to, or that it failed and why. */
  predicate IsResultOf(result: ToolResult, id: Id, answer: Result<string, string>) {
    && result.id == id
    && match answer
       case Ok(text) => result.content == text && !result.isError
       case Err(message) => result.content == "ERROR: " + message && result.isError
  }

  lemma ResultIs(result: ToolResult, id: Id, answer: Result<string, string>)
    ensures IsResultOf(result, id, answer) <==> result == ResultFor(id, answer)
  {
  }

  lemma AnswersAppend(env: Env, results: seq<ToolResult>, ran: seq<Id>, uses: seq<Block>)
    requires Answers(env, results, ran) && forall i :: 0 <= i < |uses| ==> uses[i].ToolUse?
    ensures Answers(env, results + RunTools(env, uses, |results|), ran + Ids(uses))
  {
    hide ResultFor, IsResultOf;
    var all, ids := results + RunTools(env, uses, |results|), ran + Ids(uses);
    forall n | 0 <= n < |all| ensures IsResultOf(all[n], ids[n], env.tools(n)) {
      ResultIs(all[n], ids[n], env.tools(n));
      if n < |results| {
        assert all[n] == results[n] && ids[n] == ran[n];
      } else {
        var i := n - |results|;
        assert all[n] == RunTools(env, uses, |results|)[i] && ids[n] == Ids(uses)[i] && |results| + i == n;
      }
    }
  }

  /** The k-th message is this reply, and the next one holds the results of its tool uses, the first of which was the n-th
      tool run. */
  predicate RoundAt(env: Env, messages: seq<Message>, k: nat, blocks: seq<Block>, n: nat) {
    && k + 1 < |messages| && messages[k] == Assistant(blocks)
    && messages[k + 1].UserParts? && messages[k + 1].results == RunTools(env, ToolUses(blocks), n)
  }

  ghost predicate HasRound(env: Env, messages: seq<Message>, blocks: seq<Block>, n: nat) {
    exists k: nat :: RoundAt(env, messages, k, blocks, n)
  }

  /** Every call for which tools ran is in the history, with their results right behind it. */
  ghost predicate RoundsInPlace(env: Env, messages: seq<Message>, calls: seq<Call>) {
    forall i :: 0 <= i < |calls| && calls[i].ran != [] ==>
      HasRound(env, messages, calls[i].reply.blocks, |RanOf(calls[..i])|)
  }

  lemma OneMoreRan(calls: seq<Call>, c: Call)
    ensures RanOf(calls + [c]) == RanOf(calls) + c.ran
  {
    assert (calls + [c])[..|calls|] == calls;
  }

  lemma OneMoreMessage(messages: seq<Message>, m: Message)
    ensures ResultsOf(messages + [m]) == ResultsOf(messages) + ResultsIn(m)
  {
    assert (messages + [m])[..|messages|] == messages;
  }

  /** The nudge leaves the results and the rounds as they are. */
  lemma NudgeDelivers(env: Env, messages: seq<Message>, why: string, calls: seq<Call>)
    ensures ResultsOf(Nudge(messages, why)) == ResultsOf(messages)
    ensures RoundsInPlace(env, messages, calls) ==> RoundsInPlace(env, Nudge(messages, why), calls)
  {
    hide RunTools, ToolUses, RanOf;
    var all := Nudge(messages, why);
    if messages != [] && messages[|messages| - 1].UserParts? {
      assert all[..|all| - 1] == messages[..|messages| - 1];
    } else {
      OneMoreMessage(messages, UserText(why));
    }
    forall blocks, n, k: nat | RoundAt(env, messages, k, blocks, n) ensures RoundAt(env, all, k, blocks, n) {
    }
    RoundsStay(env, messages, all, calls);
  }

  lemma RoundsStay(env: Env, messages: seq<Message>, all: seq<Message>, calls: seq<Call>)
    requires forall blocks, n, k: nat :: RoundAt(env, messages, k, blocks, n) ==> RoundAt(env, all, k, blocks, n)
    ensures RoundsInPlace(env, messages, calls) ==> RoundsInPlace(env, all, calls)
  {
    hide RoundAt, RanOf;
    if RoundsInPlace(env, messages, calls) {
      forall i | 0 <= i < |calls| && calls[i].ran != []
        ensures HasRound(env, all, calls[i].reply.blocks, |RanOf(calls[..i])|)
      {
        var k: nat :| RoundAt(env, messages, k, calls[i].reply.blocks, |RanOf(calls[..i])|);
        assert RoundAt(env, all, k, calls[i].reply.blocks, |RanOf(calls[..i])|);
      }
    }
  }

  lemma AppendKeepsRounds(env: Env, messages: seq<Message>, more: seq<Message>, calls: seq<Call>)
    ensures RoundsInPlace(env, messages, calls) ==> RoundsInPlace(env, messages + more, calls)
  {
    hide RunTools, ToolUses, RoundsInPlace;
    forall blocks, n, k: nat | RoundAt(env, messages, k, blocks, n) ensures RoundAt(env, messages + more, k, blocks, n) {
    }
    RoundsStay(env, messages, messages + more, calls);
  }

  /** One more call is in place when its own round is. */
  lemma OneMoreRound(env: Env, messages: seq<Message>, calls: seq<Call>, c: Call)
    requires RoundsInPlace(env, messages, calls)
    requires c.ran != [] ==> HasRound(env, messages, c.reply.blocks, |RanOf(calls)|)
    ensures RoundsInPlace(env, messages, calls + [c])
  {
    hide HasRound, RanOf;
    var all := calls + [c];
    forall i | 0 <= i < |all| && all[i].ran != []
      ensures HasRound(env, messages, all[i].reply.blocks, |RanOf(all[..i])|)
    {
      assert all[..i] == if i < |calls| then calls[..i] else calls;
    }
  }

  ghost predicate Delivered(env: Env, s: Session) {
    AllDelivered(env, s.messages, s.calls, s.toolRuns) && RoundsInPlace(env, s.messages, s.calls)
  }

  lemma RoundResults(env: Env, messages: seq<Message>, blocks: seq<Block>, n: nat)
    ensures var results := RunTools(env, ToolUses(blocks), n);
            ResultsOf(messages + [Assistant(blocks), UserParts([], results, [])]) == ResultsOf(messages) + results
  {
    hide RunTools, ToolUses, ResultsOf;
    var results := UserParts([], RunTools(env, ToolUses(blocks), n), []);
    var told := messages + [Assistant(blocks)];
    assert messages + [Assistant(blocks), results] == told + [results];
    OneMoreMessage(messages, Assistant(blocks));
    OneMoreMessage(told, results);
  }

  /** A round of tools delivers its results. */
  lemma RoundDelivers(env: Env, s: Session, reply: Reply, c: Call)
    requires Delivered(env, s) && c.reply == reply && c.ran == Ids(ToolUses(reply.blocks))
    ensures var results := UserParts([], RunTools(env, ToolUses(reply.blocks), s.toolRuns), []);
            var messages := s.messages + [Assistant(reply.blocks), results];
            && AllDelivered(env, messages, s.calls + [c], s.toolRuns + |ToolUses(reply.blocks)|)
            && RoundsInPlace(env, messages, s.calls + [c])
  {
    hide ToolUses, ResultsOf, RanOf, RoundsInPlace, HasRound, RunTools, Ids;
    var uses := ToolUses(reply.blocks);
    var round := [Assistant(reply.blocks), UserParts([], RunTools(env, uses, s.toolRuns), [])];
    RoundResults(env, s.messages, reply.blocks, s.toolRuns);
    OneMoreRan(s.calls, c);
    AnswersAppend(env, ResultsOf(s.messages), RanOf(s.calls), uses);
    AppendKeepsRounds(env, s.messages, round, s.calls);
    RoundIsThere(env, s.messages, reply.blocks, s.toolRuns);
    OneMoreRound(env, s.messages + round, s.calls, c);
  }

  lemma RoundIsThere(env: Env, messages: seq<Message>, blocks: seq<Block>, n: nat)
    ensures HasRound(env, messages + [Assistant(blocks), UserParts([], RunTools(env, ToolUses(blocks), n), [])], blocks, n)
  {
    hide RunTools, ToolUses;
    assert RoundAt(env, messages + [Assistant(blocks), UserParts([], RunTools(env, ToolUses(blocks), n), [])], |messages|, blocks, n);
  }

  /** A call without tools delivers nothing. */
  lemma QuietCallDelivers(env: Env, s: Session, c: Call)
    requires Delivered(env, s) && c.ran == []
    ensures AllDelivered(env, s.messages, s.calls + [c], s.toolRuns) && RoundsInPlace(env, s.messages, s.calls + [c])
  {
    hide ResultsOf, RanOf, RoundsInPlace;
    OneMoreRan(s.calls, c);
    OneMoreRound(env, s.messages, s.calls, c);
  }

  lemma PauseDelivers(env: Env, s: Session, c: Call, blocks: seq<Block>)
    requires Delivered(env, s) && c.ran == []
    ensures AllDelivered(env, s.messages + [Assistant(blocks)], s.calls + [c], s.toolRuns)
    ensures RoundsInPlace(env, s.messages + [Assistant(blocks)], s.calls + [c])
  {
    hide ResultsOf, RanOf, RoundsInPlace;
    QuietCallDelivers(env, s, c);
    OneMoreMessage(s.messages, Assistant(blocks));
    AppendKeepsRounds(env, s.messages, [Assistant(blocks)], s.calls + [c]);
  }

  lemma ReactDelivers(env: Env, s: Session, reply: Reply)
    requires Delivered(env, s)
    ensures Delivered(env, React(env, s, reply).s)
  {
    hide Spoke, ToolUses, RunTools, Nudge, RetryOutputTokens, AllDelivered, RoundsInPlace, Ids;
    var c := Call(s.budget, s.wrapUp, reply, []);
    QuietCallDelivers(env, s, c);
    PauseDelivers(env, s, c, reply.blocks);
    NudgeDelivers(env, s.messages, EMPTY_NUDGE, s.calls + [c]);
    NudgeAllDelivered(env, s.messages, EMPTY_NUDGE, s.calls + [c], s.toolRuns);
    RoundDelivers(env, s, reply, c.(ran := Ids(ToolUses(reply.blocks))));
  }

  lemma NudgeAllDelivered(env: Env, messages: seq<Message>, why: string, calls: seq<Call>, toolRuns: nat)
    requires AllDelivered(env, messages, calls, toolRuns)
    ensures AllDelivered(env, Nudge(messages, why), calls, toolRuns)
  {
    hide ResultsOf, RanOf, Nudge;
    NudgeDelivers(env, messages, why, calls);
  }

  lemma {:induction false} LoopDelivers(env: Env, s: Session)
    requires Delivered(env, s)
    ensures Delivered(env, Loop(env, s).s)
    decreases env.maxIterations + 1 - s.iter, if s.roomRetried then 0 else 1
  {
    hide AllDelivered, RoundsInPlace, React, Nudge, Spoke;
    if s.iter <= env.maxIterations && AtCap(env, s).Some? {
      NudgeDelivers(env, s.messages, CAP_NUDGE, s.calls);
      NudgeAllDelivered(env, s.messages, CAP_NUDGE, s.calls, s.toolRuns);
      var s1 := AtCap(env, s).value;
      var answer := env.replies(|s1.calls|);
      if answer.Some? {
        ReactDelivers(env, s1, answer.value);
        ReactCounts(env, s1, answer.value);
        if React(env, s1, answer.value).Go? {
          LoopDelivers(env, React(env, s1, answer.value).s);
        }
      }
    }
  }

  lemma {:induction false} NoResultsAtFirst(messages: seq<Message>)
    requires forall i :: 0 <= i < |messages| ==> ResultsIn(messages[i]) == []
    ensures ResultsOf(messages) == []
  {
    if messages != [] {
      NoResultsAtFirst(messages[..|messages| - 1]);
    }
  }

  /**
   * Every tool that runs is answered. A call's tools run exactly when it stops for them with tools on; its reply is then in
   * the history with a message behind it that holds the results of its tool uses; and over the whole history there is
   * one result for each tool run, in order, under the id of its use and with what the run came to, and no other.
   */
  lemma ExecutedToolsAreAnswered(env: Env, turns: seq<Turn>, budget: nat)
    ensures var s := Loop(env, Start(turns, budget)).s;
            && AllRanRightly(s.calls)
            && RoundsInPlace(env, s.messages, s.calls)
            && AllDelivered(env, s.messages, s.calls, s.toolRuns)
  {
    TurnsAreBounded(env, turns, budget);
    var s := Start(turns, budget);
    NoResultsAtFirst(s.messages);
    assert AllDelivered(env, s.messages, s.calls, s.toolRuns);
    hide AllDelivered, Loop;
    LoopDelivers(env, s);
  }

  /** The replies in the history, in order. */
  function SpokenOf(messages: seq<Message>): seq<seq<Block>> {
    if messages == [] then []
    else
      var last := messages[|messages| - 1];
      SpokenOf(messages[..|messages| - 1]) + if last.Assistant? then [last.blocks] else []
  }

  /** The replies that are sent back: those that paused, and those whose tools ran. */
  function KeptOf(calls: seq<Call>): seq<seq<Block>> {
    if calls == [] then []
    else
      var last := calls[|calls| - 1];
      KeptOf(calls[..|calls| - 1]) + if last.reply.stop == PauseTurn || last.ran != [] then [last.reply.blocks] else []
  }

  lemma OneMoreSpoken(messages: seq<Message>, m: Message)
    ensures SpokenOf(messages + [m]) == SpokenOf(messages) + if m.Assistant? then [m.blocks] else []
  {
    assert (messages + [m])[..|messages|] == messages;
  }

  lemma OneMoreKept(calls: seq<Call>, c: Call)
    ensures KeptOf(calls + [c]) == KeptOf(calls) + if c.reply.stop == PauseTurn || c.ran != [] then [c.reply.blocks] else []
  {
    assert (calls + [c])[..|calls|] == calls;
  }

  lemma NudgeSpeaksNothing(messages: seq<Message>, why: string)
    ensures SpokenOf(Nudge(messages, why)) == SpokenOf(messages)
  {
    if messages != [] && messages[|messages| - 1].UserParts? {
      assert Nudge(messages, why)[..|messages| - 1] == messages[..|messages| - 1];
    } else {
      OneMoreSpoken(messages, UserText(why));
    }
  }

  lemma ReactSpeaks(env: Env, s: Session, reply: Reply, said: seq<seq<Block>>)
    requires SpokenOf(s.messages) == said + KeptOf(s.calls)
    ensures var s' := React(env, s, reply).s; SpokenOf(s'.messages) == said + KeptOf(s'.calls)
  {
    hide Spoke, ToolUses, RunTools, Nudge, RetryOutputTokens, SpokenOf, KeptOf;
    var uses := ToolUses(reply.blocks);
    var c := CallOf(s, reply);
    ReactCounts(env, s, reply);
    OneMoreKept(s.calls, c);
    NudgeSpeaksNothing(s.messages, EMPTY_NUDGE);
    var told, results := s.messages + [Assistant(reply.blocks)], UserParts([], RunTools(env, uses, s.toolRuns), []);
    OneMoreSpoken(s.messages, Assistant(reply.blocks));
    OneMoreSpoken(told, results);
    assert s.messages + [Assistant(reply.blocks), results] == told + [results];
    assert Ids(uses) == [] <==> uses == [];
  }

  lemma {:induction false} LoopSpeaks(env: Env, s: Session, said: seq<seq<Block>>)
    requires SpokenOf(s.messages) == said + KeptOf(s.calls)
    ensures var s' := Loop(env, s).s; SpokenOf(s'.messages) == said + KeptOf(s'.calls)
    decreases env.maxIterations + 1 - s.iter, if s.roomRetried then 0 else 1
  {
    hide React, Nudge, Spoke, SpokenOf, KeptOf;
    if s.iter <= env.maxIterations && AtCap(env, s).Some? {
      NudgeSpeaksNothing(s.messages, CAP_NUDGE);
      var s1 := AtCap(env, s).value;
      var answer := env.replies(|s1.calls|);
      if answer.Some? {
        ReactSpeaks(env, s1, answer.value, said);
        ReactCounts(env, s1, answer.value);
        if React(env, s1, answer.value).Go? {
          LoopSpeaks(env, React(env, s1, answer.value).s, said);
        }
      }
    }
  }

  /** The replies in the history are those of the turns before, and then exactly the replies that paused or had their
      tools run, in the order of the calls. */
  lemma HistoryKeepsReplies(env: Env, turns: seq<Turn>, budget: nat)
    ensures var s := Loop(env, Start(turns, budget)).s;
            SpokenOf(s.messages) == SpokenOf(ToMessages(turns)) + KeptOf(s.calls)
  {
    var s := Start(turns, budget);
    assert SpokenOf(s.messages) == SpokenOf(ToMessages(turns)) + KeptOf(s.calls);
    hide Loop, SpokenOf, KeptOf;
    LoopSpeaks(env, s, SpokenOf(ToMessages(turns)));
  }

  /** A world where the first reply pauses with a tool use in it, and the others speak. */
  function PausingWorld(): Env {
    Env(2,
        n => Some(if n == 0 then Reply([ToolUse("t", "search", "q")], PauseTurn) else Reply([TextBlock("x")], EndTurn)),
        n => Ok("found"))
  }

  /** The turn ends with words, no tool has run, and the tool use stays in the history without an answer. */
  lemma PausedToolUseStaysOpen(turns: seq<Turn>, budget: nat)
    ensures var e := Loop(PausingWorld(), Start(turns, budget));
            && e.Done? && !e.cutOff && |e.s.calls| == 2 && e.s.toolRuns == 0
            && Assistant([ToolUse("t", "search", "q")]) in e.s.messages && !AllAnswered(e.s.messages)
  {
    hide ToMessages, AllAnswered, Spoke;
    var env, s := PausingWorld(), Start(turns, budget);
    var paused := [ToolUse("t", "search", "q")];
    assert ToolUses(paused) == paused by { assert paused[1..] == []; }
    assert PausesWithTool(env.replies(0).value);
    var s1 := React(env, s, env.replies(0).value).s;
    assert s1.iter == 1 && |s1.calls| == 1 && s1.messages[|s1.messages| - 1] == Assistant(paused);
    assert Loop(env, s) == Loop(env, s1);
    var spoken := env.replies(1).value;
    assert ToolUses(spoken.blocks) == [] by { assert spoken.blocks[1..] == []; }
    assert React(env, s1, spoken) == Halt(Record(s1, spoken, []), false);
    assert Loop(env, s1) == Done(Record(s1, spoken, []), false);
    HistoryIsComplete(env, turns, budget);
  }
}
