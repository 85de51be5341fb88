/** Which calls a turn of the tool loop makes, with what, and when it makes no more: each read off the calls before it. */
module ToolLoopTurns {
  import opened Wrappers
  import opened ToolLoop
  import Text

  // ---------- The calls so far ----------

  predicate AtLimit(c: Call) {
    c.reply.stop == MaxTokens
  }

  predicate Uses(c: Call) {
    c.reply.stop == ToolUseStop && ToolUses(c.reply.blocks) != []
  }

  /** Some text block holds more than white space. */
  predicate HasWords(blocks: seq<Block>) {
    exists i, k :: 0 <= i < |blocks| && blocks[i].TextBlock? && 0 <= k < |blocks[i].text| && !Text.IsSpace(blocks[i].text[k])
  }

  lemma SpokeIs(blocks: seq<Block>)
    ensures Spoke(blocks) <==> HasWords(blocks)
  {
  }

  /** A reply that ends a turn without a word. */
  predicate SaysNothing(c: Call) {
    c.reply.stop !in {PauseTurn, MaxTokens} && !Uses(c) && !HasWords(c.reply.blocks)
  }

  /** The iterations used up: calls that hit their limit are repeated in the same one. */
  function Iterations(calls: seq<Call>): nat {
    if calls == [] then 0 else Iterations(calls[..|calls| - 1]) + if AtLimit(calls[|calls| - 1]) then 0 else 1
  }

  predicate ToolsRan(calls: seq<Call>) {
    exists i :: 0 <= i < |calls| && calls[i].ran != []
  }

  predicate SomeAtLimit(calls: seq<Call>) {
    exists i :: 0 <= i < |calls| && AtLimit(calls[i])
  }

  /** The turn is being wrapped up: the last call had its tools off, or it said nothing though tools had run. */
  predicate WrappingUp(calls: seq<Call>) {
    calls != [] && var last := calls[|calls| - 1]; last.toolsOff || (SaysNothing(last) && ToolsRan(calls))
  }

  // ---------- The next call ----------

  /** It has its tools off when the turn is being wrapped up, or at the cap when tools have run. */
  predicate ToolsOffNext(env: Env, calls: seq<Call>) {
    WrappingUp(calls) || (Iterations(calls) == env.maxIterations && ToolsRan(calls))
  }

  /** The last reply does not end the turn: it paused, hit the limit in silence for the first time, had its tools run, or
      said nothing after tools had run and before a wrap-up. */
  predicate GoesOn(calls: seq<Call>)
    requires calls != []
  {
    var before, last := calls[..|calls| - 1], calls[|calls| - 1];
    || last.reply.stop == PauseTurn
    || (AtLimit(last) && !HasWords(last.reply.blocks) && !SomeAtLimit(before))
    || (Uses(last) && !last.toolsOff)
    || (SaysNothing(last) && ToolsRan(calls) && !last.toolsOff)
  }

  /** Another call is due: the turn goes on, and there are iterations left, the last of them for a wrap-up only. */
  predicate CallIsDue(env: Env, calls: seq<Call>) {
    && (calls == [] || GoesOn(calls))
    && (Iterations(calls) < env.maxIterations || (Iterations(calls) == env.maxIterations && ToolsOffNext(env, calls)))
  }

  function NextRoom(budget: nat, calls: seq<Call>): nat {
    if calls == [] then budget
    else
      var last := calls[|calls| - 1];
      if !AtLimit(last) then last.budget
      else if last.budget * 2 <= 16000 then 16000
      else if last.budget * 2 >= 32000 then 32000
      else last.budget * 2
  }

  /** The call after these, as the environment answers it. */
  predicate IsNextCall(env: Env, budget: nat, calls: seq<Call>, c: Call) {
    && CallIsDue(env, calls)
    && env.replies(|calls|) == Some(c.reply)
    && c.budget == NextRoom(budget, calls)
    && c.toolsOff == ToolsOffNext(env, calls)
    && c.ran == if Uses(c) && !c.toolsOff then Ids(ToolUses(c.reply.blocks)) else []
  }

  ghost predicate CallsFollow(env: Env, budget: nat, calls: seq<Call>) {
    forall i :: 0 <= i < |calls| ==> IsNextCall(env, budget, calls[..i], calls[i])
  }

  // ---------- The loop makes them ----------

  /** The session's variables say of its calls what they should. */
  ghost predicate Tracks(env: Env, budget: nat, s: Session) {
    && CallsFollow(env, budget, s.calls)
    && s.iter == Iterations(s.calls) && s.usedTools == ToolsRan(s.calls) && s.roomRetried == SomeAtLimit(s.calls)
    && s.wrapUp == WrappingUp(s.calls) && s.budget == NextRoom(budget, s.calls)
    && (s.calls != [] ==> GoesOn(s.calls))
  }

  lemma OneMore(env: Env, budget: nat, calls: seq<Call>, c: Call)
    requires CallsFollow(env, budget, calls) && IsNextCall(env, budget, calls, c)
    ensures CallsFollow(env, budget, calls + [c])
    ensures (calls + [c])[..|calls|] == calls && (calls + [c])[|calls|] == c
  {
    hide IsNextCall, AtLimit;
    var all := calls + [c];
    assert all[..|calls|] == calls && all[|calls|] == c;
    forall i | 0 <= i < |all| ensures IsNextCall(env, budget, all[..i], all[i]) {
      if i < |calls| {
        assert all[..i] == calls[..i] && all[i] == calls[i];
      }
    }
  }

  lemma OneMoreCounted(calls: seq<Call>, c: Call)
    ensures Iterations(calls + [c]) == Iterations(calls) + if AtLimit(c) then 0 else 1
    ensures ToolsRan(calls + [c]) == (ToolsRan(calls) || c.ran != [])
    ensures SomeAtLimit(calls + [c]) == (SomeAtLimit(calls) || AtLimit(c))
  {
    hide AtLimit;
    var all := calls + [c];
    assert all[..|calls|] == calls && all[|calls|] == c;
    assert forall i :: 0 <= i < |calls| ==> all[i] == calls[i];
    if i :| 0 <= i < |calls| && calls[i].ran != [] {
      assert all[i] == calls[i];
    }
    if i :| 0 <= i < |calls| && AtLimit(calls[i]) {
      assert all[i] == calls[i];
    }
  }

  lemma RoomIs(n: nat)
    ensures RetryOutputTokens(n) == if n * 2 <= 16000 then 16000 else if n * 2 >= 32000 then 32000 else n * 2
  {
  }

  /** One turn of the loop with a reply. */
  lemma TurnTracks(env: Env, budget: nat, s: Session, s1: Session, reply: Reply)
    requires Tracks(env, budget, s) && s.iter <= env.maxIterations && AtCap(env, s) == Some(s1)
    requires env.replies(|s1.calls|) == Some(reply)
    ensures match React(env, s1, reply)
            case Go(s2) => Tracks(env, budget, s2)
            case Halt(s2, _) => CallsFollow(env, budget, s2.calls) && s2.calls != [] && !GoesOn(s2.calls)
  {
    hide Spoke, HasWords, ToolUses, Nudge, RetryOutputTokens, RunTools, Iterations, ToolsRan, SomeAtLimit, CallsFollow;
    SpokeIs(reply.blocks);
    RoomIs(s1.budget);
    var on := reply.stop == ToolUseStop && ToolUses(reply.blocks) != [] && !s1.wrapUp;
    var c := Call(s1.budget, s1.wrapUp, reply, if on then Ids(ToolUses(reply.blocks)) else []);
    assert on ==> c.ran != [];
    assert s1.wrapUp == ToolsOffNext(env, s.calls);
    assert IsNextCall(env, budget, s.calls, c);
    OneMore(env, budget, s.calls, c);
    OneMoreCounted(s.calls, c);
    assert React(env, s1, reply).s.calls == s.calls + [c];
  }

  lemma {:induction false} LoopTracks(env: Env, budget: nat, s: Session)
    requires Tracks(env, budget, s)
    ensures var e := Loop(env, s); CallsFollow(env, budget, e.s.calls) && EndsRightly(env, e)
    decreases env.maxIterations + 1 - s.iter, if s.roomRetried then 0 else 1
  {
    hide React, Spoke, Nudge, CallsFollow, Iterations, ToolsRan, SomeAtLimit, GoesOn, WrappingUp, NextRoom, RunTools;
    if s.iter <= env.maxIterations && AtCap(env, s).Some? {
      var s1 := AtCap(env, s).value;
      var answer := env.replies(|s1.calls|);
      if answer.Some? {
        TurnTracks(env, budget, s, s1, answer.value);
        match React(env, s1, answer.value)
        case Go(s2) =>
          GoMoves(env, s1, answer.value);
          LoopTracks(env, budget, s2);
        case Halt(s2, _) =>
      }
    }
  }

  /** A turn that goes on has used an iteration, or the one retry. */
  lemma GoMoves(env: Env, s: Session, reply: Reply)
    requires React(env, s, reply).Go?
    ensures var s2 := React(env, s, reply).s;
            if s2.iter == s.iter then s2.roomRetried && !s.roomRetried else s2.iter == s.iter + 1
  {
  }

  /** No call is due any more; or one is, and it fails. */
  ghost predicate EndsRightly(env: Env, e: End) {
    if e.Done? then !CallIsDue(env, e.s.calls) else CallIsDue(env, e.s.calls) && env.replies(|e.s.calls|).None?
  }

  /**
   * Every call of a turn is the one that is due after those before it: to the very iteration cap with its tools on unless
   * the turn is being wrapped up, with the room the calls before leave it, and with all its tool uses run or none. The turn
   * ends when no call is due: by words, a second or spoken limit, a wrap-up, or the cap; or when a call fails.
   */
  lemma CallsAreDetermined(env: Env, turns: seq<Turn>, budget: nat)
    ensures var e := Loop(env, Start(turns, budget)); CallsFollow(env, budget, e.s.calls) && EndsRightly(env, e)
  {
    LoopTracks(env, budget, Start(turns, budget));
  }

  // ---------- What the user side says ----------

  function TextsIn(m: Message): seq<string> {
    match m
    case UserText(text) => [text]
    case UserParts(_, _, texts) => texts
    case Assistant(_) => []
  }

  /** All that the user side says, in order. */
  function SaidBy(messages: seq<Message>): seq<string> {
    if messages == [] then [] else SaidBy(messages[..|messages| - 1]) + TextsIn(messages[|messages| - 1])
  }

  lemma OneMoreSaid(messages: seq<Message>, m: Message)
    ensures SaidBy(messages + [m]) == SaidBy(messages) + TextsIn(m)
  {
    assert (messages + [m])[..|messages|] == messages;
  }

  lemma NudgeSays(messages: seq<Message>, why: string)
    ensures SaidBy(Nudge(messages, why)) == SaidBy(messages) + [why]
  {
    if messages != [] && messages[|messages| - 1].UserParts? {
      assert Nudge(messages, why)[..|messages| - 1] == messages[..|messages| - 1];
    } else {
      OneMoreSaid(messages, UserText(why));
    }
  }

  /** A reply that says nothing after tools have run, with tools still on. */
  predicate SilentEnd(calls: seq<Call>, i: nat)
    requires i < |calls|
  {
    SaysNothing(calls[i]) && ToolsRan(calls[..i]) && !calls[i].toolsOff
  }

  predicate HasSilentEnd(calls: seq<Call>) {
    exists i :: 0 <= i < |calls| && SilentEnd(calls, i)
  }

  /** What the user side has said beyond the turns: one nudge when the turn is being wrapped up, for an empty reply or for
      the cap. */
  predicate NudgedOnce(said: seq<string>, s: Session) {
    && SaidBy(s.messages) == said + (if !s.wrapUp then [] else if HasSilentEnd(s.calls) then [EMPTY_NUDGE] else [CAP_NUDGE])
    && (HasSilentEnd(s.calls) ==> s.wrapUp)
    && s.usedTools == ToolsRan(s.calls)
  }

  lemma SilentEndNext(calls: seq<Call>, c: Call)
    ensures HasSilentEnd(calls + [c]) <==> HasSilentEnd(calls) || (SaysNothing(c) && ToolsRan(calls) && !c.toolsOff)
    ensures ToolsRan(calls + [c]) == (ToolsRan(calls) || c.ran != [])
  {
    hide SaysNothing;
    var all := calls + [c];
    assert all[..|calls|] == calls && all[|calls|] == c;
    assert forall i :: 0 <= i < |calls| ==> all[i] == calls[i] && all[..i] == calls[..i];
    if SilentEnd(all, |calls|) {
      assert HasSilentEnd(all);
    }
    if i :| 0 <= i < |calls| && SilentEnd(calls, i) {
      assert SilentEnd(all, i);
    }
    if i :| 0 <= i < |all| && SilentEnd(all, i) {
      assert i < |calls| ==> SilentEnd(calls, i);
    }
  }

  lemma TurnNudges(env: Env, said: seq<string>, s: Session, reply: Reply)
    requires NudgedOnce(said, s)
    ensures NudgedOnce(said, React(env, s, reply).s)
  {
    hide Spoke, HasWords, ToolUses, Nudge, RetryOutputTokens, RunTools, SaidBy, HasSilentEnd, ToolsRan;
    SpokeIs(reply.blocks);
    var uses := ToolUses(reply.blocks);
    var on := reply.stop == ToolUseStop && uses != [] && !s.wrapUp;
    var c := Call(s.budget, s.wrapUp, reply, if on then Ids(uses) else []);
    SilentEndNext(s.calls, c);
    NudgeSays(s.messages, EMPTY_NUDGE);
    var told, results := s.messages + [Assistant(reply.blocks)], UserParts([], RunTools(env, uses, s.toolRuns), []);
    OneMoreSaid(s.messages, Assistant(reply.blocks));
    OneMoreSaid(told, results);
    assert s.messages + [Assistant(reply.blocks), results] == told + [results];
    assert React(env, s, reply).s.calls == s.calls + [c];
    assert on ==> c.ran != [];
  }

  lemma {:induction false} LoopNudges(env: Env, said: seq<string>, s: Session)
    requires NudgedOnce(said, s)
    ensures NudgedOnce(said, Loop(env, s).s)
    decreases env.maxIterations + 1 - s.iter, if s.roomRetried then 0 else 1
  {
    hide React, Spoke, Nudge, SaidBy, HasSilentEnd, ToolsRan;
    if s.iter <= env.maxIterations && AtCap(env, s).Some? {
      NudgeSays(s.messages, CAP_NUDGE);
      var s1 := AtCap(env, s).value;
      var answer := env.replies(|s1.calls|);
      if answer.Some? {
        TurnNudges(env, said, s1, answer.value);
        if React(env, s1, answer.value).Go? {
          GoMoves(env, s1, answer.value);
          LoopNudges(env, said, React(env, s1, answer.value).s);
        }
      }
    }
  }

  /** To what the turns said, the loop adds one nudge when it wraps up, and nothing else. */
  lemma OneNudge(env: Env, turns: seq<Turn>, budget: nat)
    ensures NudgedOnce(SaidBy(ToMessages(turns)), Loop(env, Start(turns, budget)).s)
  {
    LoopNudges(env, SaidBy(ToMessages(turns)), Start(turns, budget));
  }

  // ---------- The turns ----------

  function ImagesIn(m: Message): seq<string> {
    if m.UserParts? then m.images else []
  }

  /** A turn is sent with its own words and images, by its own side; only an image without words gets some. */
  lemma TurnIsSentAsIs(t: Turn)
    ensures var m := ToMessageParam(t);
            match t
            case AssistantTurn(content) => m.Assistant? && m.blocks == [TextBlock(content)]
            case UserTurn(content, images) =>
              && !m.Assistant? && ImagesIn(m) == images && (m.UserParts? ==> m.results == [])
              && TextsIn(m) == [if content == "" && images != [] then "(image attached)" else content]
  {
  }

  /** The tool uses of a reply are all of its blocks of that kind, in order. */
  lemma {:induction false} ToolUsesAre(blocks: seq<Block>, more: seq<Block>)
    ensures ToolUses(blocks + more) == ToolUses(blocks) + ToolUses(more)
    decreases |blocks|
  {
    if blocks == [] {
      assert blocks + more == more;
    } else {
      ToolUsesAre(blocks[1..], more);
      assert (blocks + more)[1..] == blocks[1..] + more;
    }
  }

  lemma OneToolUse(b: Block)
    ensures ToolUses([b]) == if b.ToolUse? then [b] else []
  {
    assert [b][1..] == [];
  }
}
