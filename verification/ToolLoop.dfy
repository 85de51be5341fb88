/**
 * The tool-use conversation loop of src/providers/anthropic.ts. The model is an oracle that answers the n-th call with
 * content blocks and a stop reason, or fails; the tool runner is an oracle that answers the n-th tool run.
 */
module ToolLoop {
  import opened Wrappers
  import Text

  type Id = string

  datatype Block =
    | TextBlock(text: string)
    | ToolUse(id: Id, name: string, input: string)
    | ServerBlock(payload: string)

  /** The stop reason of a reply; every other reason ends the turn as `end_turn` does. */
  datatype Stop = PauseTurn | MaxTokens | ToolUseStop | EndTurn

  datatype Reply = Reply(blocks: seq<Block>, stop: Stop)

  datatype ToolResult = ToolResult(id: Id, content: string, isError: bool)

  /** A user message is plain text or a list of parts: images, tool results, added texts. */
  datatype Message =
    | Assistant(blocks: seq<Block>)
    | UserText(text: string)
    | UserParts(images: seq<string>, results: seq<ToolResult>, texts: seq<string>)

  datatype Turn = UserTurn(content: string, images: seq<string>) | AssistantTurn(content: string)

  function ToMessageParam(t: Turn): Message {
    match t
    case AssistantTurn(content) => Assistant([TextBlock(content)])
    case UserTurn(content, images) =>
      if images == [] then UserText(content)
      else UserParts(images, [], [if content != [] then content else "(image attached)"])
  }

  function ToMessages(turns: seq<Turn>): seq<Message> {
    seq(|turns|, i requires 0 <= i < |turns| => ToMessageParam(turns[i]))
  }

  predicate Spoke(blocks: seq<Block>) {
    exists i :: 0 <= i < |blocks| && blocks[i].TextBlock? && !Text.IsBlank(blocks[i].text)
  }

  function ToolUses(blocks: seq<Block>): (uses: seq<Block>)
    ensures forall i :: 0 <= i < |uses| ==> uses[i].ToolUse?
  {
    if blocks == [] then []
    else (if blocks[0].ToolUse? then [blocks[0]] else []) + ToolUses(blocks[1..])
  }

  /** The ids of tool uses, in order. */
  function Ids(uses: seq<Block>): seq<Id>
    requires forall i :: 0 <= i < |uses| ==> uses[i].ToolUse?
  {
    seq(|uses|, i requires 0 <= i < |uses| => uses[i].id)
  }

  function ToolIds(m: Message): seq<Id> {
    if m.Assistant? then Ids(ToolUses(m.blocks)) else []
  }

  function ResultIds(m: Message): seq<Id> {
    if m.UserParts? then seq(|m.results|, i requires 0 <= i < |m.results| => m.results[i].id) else []
  }

  function Min(a: int, b: int): int {
    if a <= b then a else b
  }

  function Max(a: int, b: int): int {
    if a >= b then a else b
  }

  function RetryOutputTokens(budget: nat): nat {
    Min(32000, Max(16000, budget * 2))
  }

  /** The retry gets more room exactly when the budget was below 32,000, and less exactly when it was above. */
  lemma RetryRoom(budget: nat)
    ensures RetryOutputTokens(budget) > budget <==> budget < 32000
    ensures RetryOutputTokens(budget) < budget <==> budget > 32000
    ensures budget < 32000 ==> RetryOutputTokens(budget) >= 2 * budget || RetryOutputTokens(budget) == 32000
  {
  }

  /** The nudge goes into the last message when that is a list of user parts, and after it otherwise. */
  function Nudge(messages: seq<Message>, why: string): seq<Message> {
    if messages != [] && messages[|messages| - 1].UserParts? then
      var last := messages[|messages| - 1];
      messages[..|messages| - 1] + [last.(texts := last.texts + [why])]
    else messages + [UserText(why)]
  }

  datatype Env = Env(maxIterations: nat, replies: nat -> Option<Reply>, tools: nat -> Result<string, string>)

  /** One finished call: its budget, whether tools were off, the reply, and the tools that were run for it. */
  datatype Call = Call(budget: nat, toolsOff: bool, reply: Reply, ran: seq<Id>)

  datatype Session = Session(
    iter: nat,
    budget: nat,
    roomRetried: bool,
    usedTools: bool,
    wrapUp: bool,
    messages: seq<Message>,
    calls: seq<Call>,
    toolRuns: nat)

  datatype End = Done(s: Session, cutOff: bool) | Threw(s: Session)

  datatype Next = Go(s: Session) | Halt(s: Session, cutOff: bool)

  const CAP_NUDGE := "Tool-round limit reached"
  const EMPTY_NUDGE := "Your last reply was empty"

  /** What the model is told about a tool use whose run came out like this. */
  function ResultFor(id: Id, answer: Result<string, string>): ToolResult {
    match answer
    case Ok(text) => ToolResult(id, text, false)
    case Err(message) => ToolResult(id, "ERROR: " + message, true)
  }

  /** The results of running these tool uses, from the n-th tool run on. */
  function RunTools(env: Env, uses: seq<Block>, n: nat): (results: seq<ToolResult>)
    requires forall i :: 0 <= i < |uses| ==> uses[i].ToolUse?
    ensures |results| == |uses| && forall i :: 0 <= i < |uses| ==> results[i].id == uses[i].id
  {
    seq(|uses|, i requires 0 <= i < |uses| => ResultFor(uses[i].id, env.tools(n + i)))
  }

  /** At the round cap: wrap up, or stop when no tool has run. */
  function AtCap(env: Env, s: Session): Option<Session> {
    if s.iter != env.maxIterations || s.wrapUp then Some(s)
    else if !s.usedTools then None
    else Some(s.(wrapUp := true, messages := Nudge(s.messages, CAP_NUDGE)))
  }

  function Record(s: Session, reply: Reply, ran: seq<Id>): Session {
    s.(calls := s.calls + [Call(s.budget, s.wrapUp, reply, ran)])
  }

  /** What a reply leads to. */
  function React(env: Env, s: Session, reply: Reply): Next {
    var uses := ToolUses(reply.blocks);
    var told := Record(s, reply, []);
    if reply.stop == PauseTurn then
      Go(told.(messages := s.messages + [Assistant(reply.blocks)], iter := s.iter + 1))
    else if reply.stop == MaxTokens then
      if !Spoke(reply.blocks) && !s.roomRetried then
        Go(told.(roomRetried := true, budget := RetryOutputTokens(s.budget)))
      else Halt(told, true)
    else if reply.stop != ToolUseStop || uses == [] then
      if !Spoke(reply.blocks) && s.usedTools && !s.wrapUp then
        Go(told.(wrapUp := true, messages := Nudge(s.messages, EMPTY_NUDGE), iter := s.iter + 1))
      else Halt(told, false)
    else if s.wrapUp then Halt(told, false)
    else
      var results := UserParts([], RunTools(env, uses, s.toolRuns), []);
      Go(Record(s, reply, Ids(uses)).(
        usedTools := true,
        messages := s.messages + [Assistant(reply.blocks), results],
        toolRuns := s.toolRuns + |uses|,
        iter := s.iter + 1))
  }

  /** The rest of the loop. */
  function Loop(env: Env, s: Session): End
    decreases env.maxIterations + 1 - s.iter, if s.roomRetried then 0 else 1
  {
    if s.iter > env.maxIterations then Done(s, false)
    else
      match AtCap(env, s)
      case None => Done(s, false)
      case Some(s1) =>
        match env.replies(|s1.calls|)
        case None => Threw(s1)
        case Some(reply) =>
          match React(env, s1, reply)
          case Go(s2) => Loop(env, s2)
          case Halt(s2, cutOff) => Done(s2, cutOff)
  }

  function Start(turns: seq<Turn>, budget: nat): Session {
    Session(0, budget, false, false, false, ToMessages(turns), [], 0)
  }

  // ---------- The loop itself ----------

  /** Runs the tools of one round, each on its own oracle answer; a failing tool is an error result. */
  method RunRound(env: Env, uses: seq<Block>, toolRuns: nat) returns (results: seq<ToolResult>)
    requires forall i :: 0 <= i < |uses| ==> uses[i].ToolUse?
    ensures results == RunTools(env, uses, toolRuns)
  {
    results := [];
    for i := 0 to |uses|
      invariant results == RunTools(env, uses, toolRuns)[..i]
    {
      var result := ResultFor(uses[i].id, env.tools(toolRuns + i));
      assert result == RunTools(env, uses, toolRuns)[i];
      results := results + [result];
    }
  }

  method StreamWithTools(env: Env, turns: seq<Turn>, maxOutputTokens: nat) returns (r: End)
    ensures r == Loop(env, Start(turns, maxOutputTokens))
  {
    hide Spoke, ToolUses, Nudge, ToMessages, RetryOutputTokens, RunTools, Ids;
    var iter: nat, budget: nat, toolRuns: nat := 0, maxOutputTokens, 0;
    var roomRetried, usedTools, wrapUp := false, false, false;
    var messages := ToMessages(turns);
    var calls: seq<Call> := [];
    while iter <= env.maxIterations
      invariant iter <= env.maxIterations + 1
      invariant Loop(env, Start(turns, maxOutputTokens))
             == Loop(env, Session(iter, budget, roomRetried, usedTools, wrapUp, messages, calls, toolRuns))
      decreases env.maxIterations + 1 - iter, if roomRetried then 0 else 1
    {
      if iter == env.maxIterations && !wrapUp {
        if !usedTools { return Done(Session(iter, budget, roomRetried, usedTools, wrapUp, messages, calls, toolRuns), false); }
        wrapUp := true;
        messages := Nudge(messages, CAP_NUDGE);
      }
      var answer := env.replies(|calls|);
      if answer.None? {
        return Threw(Session(iter, budget, roomRetried, usedTools, wrapUp, messages, calls, toolRuns));
      }
      var reply := answer.value;
      var call := Call(budget, wrapUp, reply, []);
      if reply.stop == PauseTurn {
        calls := calls + [call];
        messages := messages + [Assistant(reply.blocks)];
        iter := iter + 1;
        continue;
      }
      if reply.stop == MaxTokens {
        calls := calls + [call];
        if !Spoke(reply.blocks) && !roomRetried {
          roomRetried := true;
          budget := RetryOutputTokens(budget);
          continue;
        }
        return Done(Session(iter, budget, roomRetried, usedTools, wrapUp, messages, calls, toolRuns), true);
      }
      var uses := ToolUses(reply.blocks);
      if reply.stop != ToolUseStop || |uses| == 0 {
        calls := calls + [call];
        if !Spoke(reply.blocks) && usedTools && !wrapUp {
          wrapUp := true;
          messages := Nudge(messages, EMPTY_NUDGE);
          iter := iter + 1;
          continue;
        }
        return Done(Session(iter, budget, roomRetried, usedTools, wrapUp, messages, calls, toolRuns), false);
      }
      if wrapUp {
        calls := calls + [call];
        return Done(Session(iter, budget, roomRetried, usedTools, wrapUp, messages, calls, toolRuns), false);
      }
      var results := RunRound(env, uses, toolRuns);
      usedTools := true;
      calls := calls + [call.(ran := Ids(uses))];
      messages := messages + [Assistant(reply.blocks), UserParts([], results, [])];
      toolRuns := toolRuns + |uses|;
      iter := iter + 1;
    }
    r := Done(Session(iter, budget, roomRetried, usedTools, wrapUp, messages, calls, toolRuns), false);
  }
}
