/**
 * The run as a machine that does one thing at a time: it asks, hears, keeps a reply or gives it up, and records. Each of
 * its steps says, in the terms of one event, what comes next; and the run is what the machine does from start to stop.
 */
module EngineMachine {
  import opened Wrappers
  import opened Provider
  import opened ReviewParser
  import opened Engine
  import opened EngineSession
  import opened EngineShape
  import opened EngineOutput

  /** What the machine is about to do; `first` is the unusable reply that a second review call is made for. */
  datatype Control =
    | Enter(n: nat)
    | Ask(n: nat, call: nat, attempt: nat, first: Option<AgentResponse>)
    | Hear(n: nat, call: nat, attempt: nat, first: Option<AgentResponse>)
    | Keep(n: nat, response: AgentResponse)
    | Lose(n: nat, message: string, billed: Option<AgentResponse>)
    | Close(n: nat)
    | Stop(ending: Ending)

  datatype Machine = Machine(control: Control, store: Store, steps: seq<StepRecord>, log: seq<Event>)

  // ---------- The conditions ----------

  /** There is no review in the reply: it is blank, or it was cut off before its block closed. */
  predicate NoReview(reader: Reader, r: AgentResponse) {
    || reader.blank(r.text)
    || (!reader.hasCompleteBlock(r.text)
        && (r.stopReason == "max_tokens" || r.stopReason == "length" || reader.opensBlock(r.text)))
  }

  /** Nothing was shown, and the provider's own error is of a kind its contract says is raised before anything runs. */
  predicate NeverRan(agent: Agent, fault: Fault, emitted: bool) {
    && !emitted && fault.Rejects? && fault.error.provider == agent.provider
    && fault.error.remoteOutcome == ClaimsNotExecuted
    && agent.guarantee.ErrorKinds? && fault.error.kind in agent.guarantee.kinds
  }

  predicate MayBeRetried(kind: ErrorKind) {
    kind == RateLimited || kind == Overloaded || kind == TimedOut
  }

  /** Why the durable boundary refuses to send anything for a step. */
  function Refusal(store: Store, view: GuardView, n: nat): Option<Signal> {
    if view.ownsLease && view.identityHolds && !store.dispatching && !view.cancelRequested then None
    else if !view.ownsLease then Some(LeaseLost)
    else if !view.identityHolds then Some(IdentityChanged)
    else if store.dispatching then Some(ReconciliationRequired(n))
    else Some(RunCancelled(n))
  }

  function ScriptOf(s: Script, n: nat): StepScript {
    if n == 1 then s.primary else if n == 2 then s.review else s.revision
  }

  function TickOf(s: Script, n: nat, call: nat, attempt: nat): Tick {
    if call == 0 then ScriptOf(s, n).call(attempt) else ScriptOf(s, n).retry(attempt)
  }

  /** Twice the room, but no less than 16,384 and no more than 32,768. */
  function Roomier(agent: Agent): Agent {
    agent.(maxOutputTokens :=
      if agent.maxOutputTokens <= 8_192 then 16_384
      else if agent.maxOutputTokens >= 16_384 then 32_768
      else 2 * agent.maxOutputTokens)
  }

  /** Who is asked: the reviewer for the review, with more room the second time, and the primary agent for the rest. */
  function AgentFor(cfg: Config, n: nat, call: nat): Agent {
    if n == 2 && cfg.reviewer.Some? then (if call == 0 then cfg.reviewer.value else Roomier(cfg.reviewer.value))
    else cfg.primary
  }

  /** The second reply as it is, at the cost of both. */
  function AtCostOfBoth(first: Option<AgentResponse>, r: AgentResponse): AgentResponse {
    match first
    case None => r
    case Some(f) =>
      AgentResponse(
        r.provider, r.model, r.text,
        TokenUsage(f.usage.inputTokens + r.usage.inputTokens, f.usage.outputTokens + r.usage.outputTokens),
        r.stopReason, f.latencyMs + r.latencyMs)
  }

  function GivenUp(cfg: Config, first: Option<AgentResponse>, message: string): string {
    match first
    case None => message
    case Some(f) => (if cfg.reader.blank(f.text) then cfg.wording.emptyRetryFailed else cfg.wording.cutOffRetryFailed) + message
  }

  // ---------- One step ----------

  function Does(m: Machine, control: Control): Machine {
    m.(control := control)
  }

  function Logs(m: Machine, e: Event, control: Control): Machine {
    Machine(control, m.store, m.steps, m.log + [e])
  }

  function Writes(m: Machine, record: StepRecord, control: Control): Machine {
    Machine(control, Persist(m.store, record), m.steps + [record], m.log + [Recorded(record)])
  }

  function Heard(cfg: Config, tick: Tick, c: Control): Control
    requires c.Hear?
  {
    var agent := AgentFor(cfg, c.n, c.call);
    match Observe(cfg, agent, tick)
    case Replied(r) =>
      if c.n == 2 && c.call == 0 && NoReview(cfg.reader, r) then Ask(2, 1, 0, Some(r)) else Keep(c.n, AtCostOfBoth(c.first, r))
    case Faulted(Signals(AmbiguousProviderOutcome(kind, started, _)), _) => Stop(Aborted(AmbiguousProviderOutcome(kind, started, c.n)))
    case Faulted(Signals(signal), _) => Stop(Aborted(signal))
    case Faulted(Throws(_), emitted) => Stop(Aborted(AmbiguousProviderOutcome(UnknownKind, emitted, c.n)))
    case Faulted(Rejects(error), emitted) =>
      if !NeverRan(agent, Rejects(error), emitted) then Stop(Aborted(AmbiguousProviderOutcome(error.kind, emitted, c.n)))
      else if MayBeRetried(error.kind) && c.attempt < 2 && tick.nowAfter + tick.backoff < cfg.deadline then
        Ask(c.n, c.call, c.attempt + 1, c.first)
      else Lose(c.n, GivenUp(cfg, c.first, error.message), c.first)
  }

  ghost function Next(cfg: Config, s: Script, m: Machine): Machine {
    match m.control
    case Stop(_) => m
    case Enter(n) =>
      if cfg.hooked && n in m.store.checkpoints then
        var c := m.store.checkpoints[n];
        Does(m, Keep(n, AgentResponse(c.provider, c.model, c.text, c.usage, "stop", 0)))
      else if cfg.hooked && n != 1 && n in m.store.rows && !m.store.rows[n].succeeded then
        var message := m.store.rows[n].errorMessage;
        Does(m, Lose(n, if message.Some? then message.value else cfg.wording.priorFailure, None))
      else if cfg.hooked then
        match Refusal(m.store, ScriptOf(s, n).guard, n)
        case Some(signal) => Does(m, Stop(Aborted(signal)))
        case None => Logs(m, Intent(n), Ask(n, 0, 0, None)).(store := m.store.(dispatching := true))
      else Does(m, Ask(n, 0, 0, None))
    case Ask(n, call, attempt, first) =>
      if TickOf(s, n, call, attempt).nowBefore >= cfg.deadline then
        Does(m, Lose(n, GivenUp(cfg, first, cfg.wording.deadlineExhausted), first))
      else Logs(m, Dispatched(n, call, attempt, AgentFor(cfg, n, call)), Hear(n, call, attempt, first))
    case Hear(n, call, attempt, first) =>
      var agent, tick := AgentFor(cfg, n, call), TickOf(s, n, call, attempt);
      Logs(m, Observed(n, call, attempt, agent, Observe(cfg, agent, tick)), Heard(cfg, tick, m.control))
    case Keep(n, r) =>
      if n == 1 then
        Writes(m, StepRecord(1, Primary, Some(cfg.primary.agentId), Some(r), None, None, true, None),
               if cfg.reviewer.Some? then Enter(2) else Close(2))
      else if n == 2 then
        var id := Some(AgentFor(cfg, 2, 0).agentId);
        if NoReview(cfg.reader, r) then
          var why := if cfg.reader.blank(r.text) then cfg.wording.emptyTwice else cfg.wording.cutOffTwice;
          Writes(m, StepRecord(2, Review, id, Some(r), None, None, false, Some(why)), Close(3))
        else
          var detail := ParseReviewDetail(cfg.reader, r.text, PrimaryText(m.steps)).detail;
          Writes(m, StepRecord(2, Review, id, Some(r), Some(detail.verdict), Some(detail), true, None),
                 if detail.verdict == Revise then Enter(3) else Close(3))
      else
        Writes(m, StepRecord(3, Revision, Some(cfg.primary.agentId), Some(r), None, None, true, None), Close(4))
    case Lose(n, message, billed) =>
      if n == 1 then
        Writes(m, StepRecord(1, Primary, Some(cfg.primary.agentId), None, None, None, false, Some(message)),
               Stop(Returned(EngineResult(false, "", Extracts([], [], [], []), Some(cfg.wording.primaryFailed + message),
                                          if cfg.reviewRequired then RequiredUnmet else Omitted))))
      else if n == 2 then
        Writes(m, StepRecord(2, Review, Some(AgentFor(cfg, 2, 0).agentId), billed, None, None, false, Some(message)), Close(3))
      else
        Writes(m, StepRecord(3, Revision, Some(cfg.primary.agentId), None, None, None, false, Some(message)), Close(4))
    case Close(n) =>
      var outcome := ExpectedOutcome(cfg, m.steps);
      var primary, review, revision := PrimaryText(m.steps), ReviewText(m.steps), RevisionText(m.steps);
      Writes(m, StepRecord(n, Consolidate, None, None, None, None, true, None),
             Stop(Returned(EngineResult(
               true, ConsolidateText(cfg, primary, review, VerdictOf(m.steps), revision, outcome),
               cfg.shaper.extract(if revision.Some? then revision.value else primary), None, outcome))))
  }

  // ---------- Many steps ----------

  ghost function Iterate(cfg: Config, s: Script, m: Machine, k: nat): Machine
    decreases k
  {
    if k == 0 then m else Iterate(cfg, s, Next(cfg, s, m), k - 1)
  }

  ghost predicate Reaches(cfg: Config, s: Script, m: Machine, m': Machine) {
    exists k :: Iterate(cfg, s, m, k) == m'
  }

  lemma {:induction false} IterateInTwo(cfg: Config, s: Script, m: Machine, j: nat, k: nat)
    ensures Iterate(cfg, s, m, j + k) == Iterate(cfg, s, Iterate(cfg, s, m, j), k)
    decreases j
  {
    hide Next;
    if j > 0 {
      IterateInTwo(cfg, s, Next(cfg, s, m), j - 1, k);
    }
  }

  lemma ReachesAll(cfg: Config, s: Script, a: Machine, b: Machine, c: Machine)
    requires Reaches(cfg, s, a, b) && Reaches(cfg, s, b, c)
    ensures Reaches(cfg, s, a, c)
  {
    hide Next;
    var j: nat :| Iterate(cfg, s, a, j) == b;
    var k: nat :| Iterate(cfg, s, b, k) == c;
    IterateInTwo(cfg, s, a, j, k);
  }

  lemma ReachesNext(cfg: Config, s: Script, m: Machine)
    ensures Reaches(cfg, s, m, Next(cfg, s, m)) && Reaches(cfg, s, m, m)
  {
    hide Next;
    assert Iterate(cfg, s, m, 0) == m;
    assert Iterate(cfg, s, m, 1) == Iterate(cfg, s, Next(cfg, s, m), 0) == Next(cfg, s, m);
  }

  /** First one step, and then more. */
  lemma ReachesOn(cfg: Config, s: Script, m: Machine, m': Machine)
    requires Reaches(cfg, s, Next(cfg, s, m), m')
    ensures Reaches(cfg, s, m, m')
  {
    hide Next, Reaches;
    ReachesNext(cfg, s, m);
    ReachesAll(cfg, s, m, Next(cfg, s, m), m');
  }

  // ---------- A call ----------

  lemma ConditionsAgree(cfg: Config, agent: Agent, seen: Observation, r: AgentResponse)
    ensures NoReview(cfg.reader, r) <==> Unusable(cfg.reader, r)
    ensures seen.Faulted? && !seen.fault.Signals? ==> (ProvedNotExecuted(agent, seen) <==> NeverRan(agent, seen.fault, seen.emitted))
  {
  }

  lemma RoomAgrees(agent: Agent)
    ensures Roomier(agent) == agent.(maxOutputTokens := ReviewRetryOutputTokens(agent.maxOutputTokens))
  {
  }

  function Ticks(s: Script, n: nat, call: nat): nat -> Tick {
    if call == 0 then ScriptOf(s, n).call else ScriptOf(s, n).retry
  }

  /** What is next after a call that ended like this. */
  function AfterCall(cfg: Config, n: nat, call: nat, first: Option<AgentResponse>, ending: CallEnding): Control {
    match ending
    case Reply(r) => if n == 2 && call == 0 && Unusable(cfg.reader, r) then Ask(2, 1, 0, Some(r)) else Keep(n, AtCostOfBoth(first, r))
    case ProviderFault(error) => Lose(n, GivenUp(cfg, first, error.message), first)
    case Escalated(signal) => Stop(Aborted(Tag(signal, n)))
  }

  lemma HeardAgrees(cfg: Config, tick: Tick, n: nat, call: nat, attempt: nat, first: Option<AgentResponse>)
    ensures var agent := AgentFor(cfg, n, call);
            var seen := Observe(cfg, agent, tick);
            var heard := Heard(cfg, tick, Hear(n, call, attempt, first));
            if seen.Replied? then heard == AfterCall(cfg, n, call, first, Reply(seen.response))
            else if seen.fault.Signals? then heard == AfterCall(cfg, n, call, first, Escalated(seen.fault.signal))
            else
              var error := AsProviderError(agent, seen.fault);
              if !ProvedNotExecuted(agent, seen) then
                heard == AfterCall(cfg, n, call, first, Escalated(AmbiguousProviderOutcome(error.kind, seen.emitted, 0)))
              else if !error.Retryable() || attempt >= MAX_RETRIES_PER_CALL || tick.backoff >= cfg.deadline - tick.nowAfter then
                heard == AfterCall(cfg, n, call, first, ProviderFault(error))
              else heard == Ask(n, call, attempt + 1, first)
  {
    hide Observe, Unusable, NoReview;
    var agent := AgentFor(cfg, n, call);
    var seen := Observe(cfg, agent, tick);
    if seen.Replied? {
      ConditionsAgree(cfg, agent, seen, seen.response);
    } else if seen.fault.Rejects? {
      assert ProvedNotExecuted(agent, seen) <==> NeverRan(agent, seen.fault, seen.emitted);
    }
  }

  lemma {:induction false} CallReaches(cfg: Config, s: Script, m: Machine, n: nat, call: nat, attempt: nat, first: Option<AgentResponse>)
    requires m.control == Ask(n, call, attempt, first) && attempt <= MAX_RETRIES_PER_CALL
    ensures var c := CallFrom(cfg, AgentFor(cfg, n, call), n, call, Ticks(s, n, call), attempt);
            Reaches(cfg, s, m, Machine(AfterCall(cfg, n, call, first, c.ending), m.store, m.steps, m.log + c.log))
    decreases MAX_RETRIES_PER_CALL - attempt
  {
    hide Observe, Heard, AfterCall, Reaches, ProvedNotExecuted;
    var agent, tick := AgentFor(cfg, n, call), TickOf(s, n, call, attempt);
    var c := CallFrom(cfg, agent, n, call, Ticks(s, n, call), attempt);
    assert Ticks(s, n, call)(attempt) == tick;
    if tick.nowBefore >= cfg.deadline {
      assert AfterCall(cfg, n, call, first, c.ending) == Lose(n, GivenUp(cfg, first, cfg.wording.deadlineExhausted), first)
        by { LostAtDeadline(cfg, agent, n, call, first); }
      assert m.log + c.log == m.log;
      ReachesNext(cfg, s, m);
    } else {
      var m1 := Next(cfg, s, m);
      var m2 := Next(cfg, s, m1);
      HeardAgrees(cfg, tick, n, call, attempt, first);
      var here := [Dispatched(n, call, attempt, agent), Observed(n, call, attempt, agent, Observe(cfg, agent, tick))];
      assert m2.log == m.log + here;
      var seen := Observe(cfg, agent, tick);
      var end := Machine(AfterCall(cfg, n, call, first, c.ending), m.store, m.steps, m.log + c.log);
      if seen.Faulted? && !seen.fault.Signals? && ProvedNotExecuted(agent, seen)
         && AsProviderError(agent, seen.fault).Retryable() && attempt < MAX_RETRIES_PER_CALL
         && tick.backoff < cfg.deadline - tick.nowAfter {
        CallReaches(cfg, s, m2, n, call, attempt + 1, first);
        var rest := CallFrom(cfg, agent, n, call, Ticks(s, n, call), attempt + 1);
        assert c == CallTrace(here + rest.log, rest.ending);
        assert m2.log + rest.log == m.log + c.log;
      } else {
        assert c.log == here && m2 == end;
        ReachesNext(cfg, s, m2);
      }
      ReachesOn(cfg, s, m1, end);
      ReachesOn(cfg, s, m, end);
    }
  }

  lemma LostAtDeadline(cfg: Config, agent: Agent, n: nat, call: nat, first: Option<AgentResponse>)
    ensures AfterCall(cfg, n, call, first, ProviderFault(MakeError(agent.provider, TimedOut, cfg.wording.deadlineExhausted)))
         == Lose(n, GivenUp(cfg, first, cfg.wording.deadlineExhausted), first)
  {
  }

  // ---------- A step ----------

  /** What is next after a step was obtained, or not, like this. */
  function AfterFetch(n: nat, got: Got): Control {
    match got
    case Obtained(r) => Keep(n, r)
    case Failed(message, billed) => Lose(n, message, billed)
    case Stopped(signal) => Stop(Aborted(signal))
  }

  /** The machine after the events of a step. */
  function After(m: Machine, n: nat, f: Fetch): Machine {
    Machine(AfterFetch(n, f.got), ApplyAll(m.store, f.log), m.steps, m.log + f.log)
  }

  lemma RefusalAgrees(store: Store, view: GuardView, n: nat)
    ensures Refusal(store, view, n) == GuardDispatch(store, view, n)
  {
  }

  /** The machine once the boundary let it through. */
  function Through(cfg: Config, m: Machine, n: nat): Machine {
    var intent := if cfg.hooked then [Intent(n)] else [];
    Machine(Ask(n, 0, 0, None), ApplyAll(m.store, intent), m.steps, m.log + intent)
  }

  /** The boundary and one call, for a step that is not replayed. */
  lemma DispatchReaches(cfg: Config, s: Script, m: Machine, n: nat)
    requires m.control == Enter(n)
    requires cfg.hooked ==> n !in m.store.checkpoints && (n == 1 || n !in m.store.rows || m.store.rows[n].succeeded)
    ensures var f := Dispatch(cfg, AgentFor(cfg, n, 0), n, ScriptOf(s, n), m.store);
            var c := CallFrom(cfg, AgentFor(cfg, n, 0), n, 0, ScriptOf(s, n).call, 0);
            if cfg.hooked && GuardDispatch(m.store, ScriptOf(s, n).guard, n).Some? then Reaches(cfg, s, m, After(m, n, f))
            else Reaches(cfg, s, m, Machine(AfterCall(cfg, n, 0, None, c.ending), ApplyAll(m.store, f.log), m.steps, m.log + f.log))
  {
    hide Reaches, CallFrom, GuardDispatch, Refusal, AfterCall;
    RefusalAgrees(m.store, ScriptOf(s, n).guard, n);
    var f := Dispatch(cfg, AgentFor(cfg, n, 0), n, ScriptOf(s, n), m.store);
    ReachesNext(cfg, s, m);
    if cfg.hooked && GuardDispatch(m.store, ScriptOf(s, n).guard, n).Some? {
      assert m.log + f.log == m.log;
    } else {
      var c := CallFrom(cfg, AgentFor(cfg, n, 0), n, 0, ScriptOf(s, n).call, 0);
      var m1 := Through(cfg, m, n);
      var intent := if cfg.hooked then [Intent(n)] else [];
      assert ApplyAll(m.store, intent) == if cfg.hooked then m.store.(dispatching := true) else m.store;
      assert m.log + [] == m.log;
      assert Next(cfg, s, m) == m1;
      CallReaches(cfg, s, m1, n, 0, 0, None);
      ApplyAllAppend(m.store, intent, c.log);
      CallKeepsStore(cfg, AgentFor(cfg, n, 0), n, 0, ScriptOf(s, n).call, 0, m1.store);
      assert m1.log + c.log == m.log + (intent + c.log);
      ReachesOn(cfg, s, m, Machine(AfterCall(cfg, n, 0, None, c.ending), ApplyAll(m.store, f.log), m.steps, m.log + f.log));
    }
  }

  lemma AfterPlainCall(cfg: Config, n: nat, ending: CallEnding)
    requires n != 2
    ensures AfterCall(cfg, n, 0, None, ending) ==
            AfterFetch(n, match ending
                          case Reply(r) => Obtained(r)
                          case ProviderFault(error) => Failed(error.message, None)
                          case Escalated(signal) => Stopped(Tag(signal, n)))
  {
  }

  lemma PrimaryReaches(cfg: Config, s: Script, m: Machine)
    requires m.control == Enter(1)
    ensures Reaches(cfg, s, m, After(m, 1, FetchPrimary(cfg, s.primary, m.store)))
  {
    hide Reaches, CallFrom, GuardDispatch, Refusal, AfterCall;
    var f := FetchPrimary(cfg, s.primary, m.store);
    if cfg.hooked && 1 in m.store.checkpoints {
      assert m.log + f.log == m.log;
      ReachesNext(cfg, s, m);
    } else {
      DispatchReaches(cfg, s, m, 1);
      AfterPlainCall(cfg, 1, CallFrom(cfg, cfg.primary, 1, 0, s.primary.call, 0).ending);
    }
  }

  lemma RevisionReaches(cfg: Config, s: Script, m: Machine)
    requires m.control == Enter(3)
    ensures Reaches(cfg, s, m, After(m, 3, FetchRevision(cfg, 3, s.revision, m.store)))
  {
    hide Reaches, CallFrom, GuardDispatch, Refusal, AfterCall;
    var f := FetchRevision(cfg, 3, s.revision, m.store);
    if cfg.hooked && (3 in m.store.checkpoints || (3 in m.store.rows && !m.store.rows[3].succeeded)) {
      assert m.log + f.log == m.log;
      ReachesNext(cfg, s, m);
    } else {
      DispatchReaches(cfg, s, m, 3);
      AfterPlainCall(cfg, 3, CallFrom(cfg, cfg.primary, 3, 0, s.revision.call, 0).ending);
    }
  }

  lemma ReviewReaches(cfg: Config, s: Script, m: Machine, reviewer: Agent)
    requires m.control == Enter(2) && cfg.reviewer == Some(reviewer)
    ensures Reaches(cfg, s, m, After(m, 2, FetchReview(cfg, reviewer, 2, s.review, m.store)))
  {
    hide Reaches, CallFrom, GuardDispatch, Refusal, Unusable, NoReview;
    var f := FetchReview(cfg, reviewer, 2, s.review, m.store);
    if cfg.hooked && (2 in m.store.checkpoints || (2 in m.store.rows && !m.store.rows[2].succeeded)) {
      assert m.log + f.log == m.log;
      ReachesNext(cfg, s, m);
    } else {
      DispatchReaches(cfg, s, m, 2);
      var d := Dispatch(cfg, reviewer, 2, s.review, m.store);
      if d.got.Obtained? && Unusable(cfg.reader, d.got.response) {
        var first := d.got.response;
        var m1 := Machine(Ask(2, 1, 0, Some(first)), ApplyAll(m.store, d.log), m.steps, m.log + d.log);
        var again := RetryReview(cfg, reviewer, 2, s.review, first);
        RetryReaches(cfg, s, m1, reviewer, first);
        ApplyAllAppend(m.store, d.log, again.log);
        assert m1.log + again.log == m.log + (d.log + again.log);
        ReachesAll(cfg, s, m, m1, After(m, 2, f));
      }
    }
  }

  lemma RetryReaches(cfg: Config, s: Script, m: Machine, reviewer: Agent, first: AgentResponse)
    requires m.control == Ask(2, 1, 0, Some(first)) && cfg.reviewer == Some(reviewer)
    ensures Reaches(cfg, s, m, After(m, 2, RetryReview(cfg, reviewer, 2, s.review, first)))
  {
    hide Reaches, CallFrom, Unusable, NoReview;
    RoomAgrees(reviewer);
    CallReaches(cfg, s, m, 2, 1, 0, Some(first));
    var again := RetryReview(cfg, reviewer, 2, s.review, first);
    var c := CallFrom(cfg, Roomier(reviewer), 2, 1, s.review.retry, 0);
    CallKeepsStore(cfg, Roomier(reviewer), 2, 1, s.review.retry, 0, m.store);
    assert again.log == c.log;
    assert AfterCall(cfg, 2, 1, Some(first), c.ending) == AfterFetch(2, again.got);
  }

  // ---------- The run ----------

  /** From here the machine comes to the end of this run, with these further steps and events. */
  ghost predicate Finishes(cfg: Config, s: Script, m: Machine, t: RunTrace) {
    exists store :: Reaches(cfg, s, m, Machine(Stop(t.ending), store, m.steps + t.steps, m.log + t.log))
  }

  lemma FinishesAfter(cfg: Config, s: Script, m: Machine, m': Machine, t: RunTrace, t': RunTrace)
    requires Reaches(cfg, s, m, m') && Finishes(cfg, s, m', t')
    requires t.ending == t'.ending && m'.steps + t'.steps == m.steps + t.steps && m'.log + t'.log == m.log + t.log
    ensures Finishes(cfg, s, m, t)
  {
    hide Reaches;
    var store :| Reaches(cfg, s, m', Machine(Stop(t'.ending), store, m'.steps + t'.steps, m'.log + t'.log));
    ReachesAll(cfg, s, m, m', Machine(Stop(t.ending), store, m.steps + t.steps, m.log + t.log));
  }

  lemma Stops(cfg: Config, s: Script, m: Machine, t: RunTrace)
    requires m.control == Stop(t.ending) && t.steps == [] && t.log == []
    ensures Finishes(cfg, s, m, t)
  {
    hide Reaches;
    ReachesNext(cfg, s, m);
    assert m.steps + [] == m.steps && m.log + [] == m.log;
  }

  /** The review state and the texts of a run, read off its steps. */
  ghost predicate Remembered(cfg: Config, steps: seq<StepRecord>, primaryText: string, review: ReviewState, revisionText: Option<string>) {
    && PrimaryText(steps) == primaryText && ReviewText(steps) == review.text && VerdictOf(steps) == review.verdict
    && RevisionText(steps) == revisionText
    && OutcomeOf(cfg, review) == ExpectedOutcome(cfg, steps)
  }

  lemma ClosingFinishes(cfg: Config, s: Script, m: Machine, n: nat, primaryText: string, review: ReviewState, revisionText: Option<string>)
    requires m.control == Close(n) && Remembered(cfg, m.steps, primaryText, review, revisionText)
    ensures Finishes(cfg, s, m, FinishOn(cfg, n, primaryText, review, revisionText))
  {
    hide Reaches, ConsolidateText, OutcomeOf, ExpectedOutcome, PrimaryText, ReviewText, VerdictOf, RevisionText;
    ReachesNext(cfg, s, m);
    var m1 := Next(cfg, s, m);
    var t := FinishOn(cfg, n, primaryText, review, revisionText);
    assert m1 == Machine(Stop(t.ending), m1.store, m.steps + t.steps, m.log + t.log);
  }

  /** The record of a primary that succeeded with this text. */
  predicate IsFirst(first: StepRecord, text: string) {
    first.kind.Primary? && first.succeeded && first.response.Some? && first.response.value.text == text
  }

  /** The record that settles a review like this. */
  ghost predicate IsSecond(cfg: Config, second: StepRecord, review: ReviewState) {
    && cfg.reviewer.Some? && SettledAs(review, second)
    && TextOf(second) == review.text && (review.text.Some? ==> second.verdict == review.verdict)
    && (review.text.None? ==> second.verdict == None && review.verdict == None)
  }

  lemma WithoutReview(cfg: Config, first: StepRecord, text: string)
    requires IsFirst(first, text) && cfg.reviewer.None?
    ensures Remembered(cfg, [first], text, NO_REVIEW, None)
  {
    assert !HasWellFormedReview([first]);
  }

  lemma WithReview(cfg: Config, steps: seq<StepRecord>, text: string, review: ReviewState, revisionText: Option<string>)
    requires 2 <= |steps| <= 3 && IsFirst(steps[0], text) && IsSecond(cfg, steps[1], review)
    requires if |steps| == 2 then revisionText.None? else steps[2].kind.Revision? && TextOf(steps[2]) == revisionText
    ensures Remembered(cfg, steps, text, review, revisionText)
  {
    if WellFormedStep(steps[1]) {
      assert HasWellFormedReview(steps);
    } else {
      assert !HasWellFormedReview(steps);
    }
  }

  lemma RevisionFinishes(cfg: Config, s: Script, m: Machine, primaryText: string, review: ReviewState)
    requires |m.steps| == 2 && IsFirst(m.steps[0], primaryText) && IsSecond(cfg, m.steps[1], review)
    requires m.control == if review.verdict == Some(Revise) then Enter(3) else Close(3)
    ensures Finishes(cfg, s, m, RevisionOn(cfg, s.revision, m.store, primaryText, review))
  {
    hide Reaches, Finishes, FetchRevision, ApplyAll, Persist, Remembered, FinishOn, IsFirst, IsSecond;
    var t := RevisionOn(cfg, s.revision, m.store, primaryText, review);
    assert review.verdict == Some(Revise) ==> review.text.Some? by { VerdictHasText(cfg, m.steps[1], review); }
    if review.verdict == Some(Revise) {
      var f := FetchRevision(cfg, 3, s.revision, m.store);
      var m1 := After(m, 3, f);
      RevisionReaches(cfg, s, m);
      if f.got.Stopped? {
        var ended := RunTrace([], [], t.ending);
        Stops(cfg, s, m1, ended);
        assert m1.steps + [] == m.steps + [] && m1.log + [] == m.log + f.log;
        FinishesAfter(cfg, s, m, m1, t, ended);
      } else {
        var (record, revisionText) := SettleRevision(cfg, 3, f.got);
        var m2 := Next(cfg, s, m1);
        assert m2 == Writes(m1, record, Close(4));
        WithReview(cfg, m2.steps, primaryText, review, revisionText);
        var rest := FinishOn(cfg, 4, primaryText, review, revisionText);
        ClosingFinishes(cfg, s, m2, 4, primaryText, review, revisionText);
        ReachesNext(cfg, s, m1);
        ReachesAll(cfg, s, m, m1, m2);
        assert t == rest.After(f.log, record);
        AppendAfter(m, f.log, record, rest);
        FinishesAfter(cfg, s, m, m2, t, rest);
      }
    } else {
      WithReview(cfg, m.steps, primaryText, review, None);
      ClosingFinishes(cfg, s, m, 3, primaryText, review, None);
    }
  }

  lemma VerdictHasText(cfg: Config, second: StepRecord, review: ReviewState)
    requires IsSecond(cfg, second, review)
    ensures review.verdict.Some? ==> review.text.Some?
  {
  }

  lemma AppendAfter(m: Machine, log: seq<Event>, record: StepRecord, rest: RunTrace)
    ensures m.steps + [record] + rest.steps == m.steps + rest.After(log, record).steps
    ensures m.log + log + [Recorded(record)] + rest.log == m.log + rest.After(log, record).log
  {
  }

  lemma SettledIsSecond(cfg: Config, reviewer: Agent, got: Got, primaryText: string)
    requires cfg.reviewer == Some(reviewer) && !got.Stopped?
    ensures var (record, review) := SettleReview(cfg, reviewer, 2, got, primaryText); IsSecond(cfg, record, review)
  {
    hide Unusable;
    SettleReviewLeaves(cfg, reviewer, got, primaryText);
  }

  /** Keeping or losing the review records what settling it does. */
  lemma ReviewIsWritten(cfg: Config, s: Script, m: Machine, reviewer: Agent, got: Got, primaryText: string)
    requires cfg.reviewer == Some(reviewer) && !got.Stopped? && m.control == AfterFetch(2, got)
    requires PrimaryText(m.steps) == primaryText
    ensures var (record, review) := SettleReview(cfg, reviewer, 2, got, primaryText);
            Next(cfg, s, m) == Writes(m, record, if review.verdict == Some(Revise) then Enter(3) else Close(3))
  {
    hide Unusable, NoReview, PrimaryText;
    if got.Obtained? {
      ConditionsAgree(cfg, reviewer, Replied(got.response), got.response);
    }
  }

  lemma ReviewFinishes(cfg: Config, s: Script, m: Machine, primaryText: string)
    requires |m.steps| == 1 && IsFirst(m.steps[0], primaryText)
    requires m.control == if cfg.reviewer.Some? then Enter(2) else Close(2)
    ensures Finishes(cfg, s, m, ReviewOn(cfg, s, m.store, primaryText))
  {
    hide Reaches, Finishes, FetchReview, RevisionOn, ApplyAll, Persist, Remembered, FinishOn, IsSecond, SettleReview;
    var t := ReviewOn(cfg, s, m.store, primaryText);
    match cfg.reviewer
    case None =>
      assert m.steps == [m.steps[0]];
      WithoutReview(cfg, m.steps[0], primaryText);
      ClosingFinishes(cfg, s, m, 2, primaryText, NO_REVIEW, None);
    case Some(reviewer) =>
      var f := FetchReview(cfg, reviewer, 2, s.review, m.store);
      var m1 := After(m, 2, f);
      ReviewReaches(cfg, s, m, reviewer);
      if f.got.Stopped? {
        var ended := RunTrace([], [], t.ending);
        Stops(cfg, s, m1, ended);
        assert m1.steps + [] == m.steps + [] && m1.log + [] == m.log + f.log;
        FinishesAfter(cfg, s, m, m1, t, ended);
      } else {
        var (record, review) := SettleReview(cfg, reviewer, 2, f.got, primaryText);
        var m2 := Next(cfg, s, m1);
        ReviewIsWritten(cfg, s, m1, reviewer, f.got, primaryText);
        SettledIsSecond(cfg, reviewer, f.got, primaryText);
        assert m2.steps == m.steps + [record];
        RevisionFinishes(cfg, s, m2, primaryText, review);
        var rest := RevisionOn(cfg, s.revision, m2.store, primaryText, review);
        ReachesNext(cfg, s, m1);
        ReachesAll(cfg, s, m, m1, m2);
        assert t == rest.After(f.log, record);
        AppendAfter(m, f.log, record, rest);
        FinishesAfter(cfg, s, m, m2, t, rest);
      }
  }

  /** Every run, over any store: the machine, started on its first step, stops with just its events, steps and ending. */
  lemma RunIsTheMachine(cfg: Config, s: Script, store: Store)
    ensures Finishes(cfg, s, Machine(Enter(1), store, [], []), Run(cfg, s, store))
  {
    hide Reaches, Finishes, FetchPrimary, ReviewOn, ApplyAll, Persist;
    var m := Machine(Enter(1), store, [], []);
    var t := Run(cfg, s, store);
    var f := FetchPrimary(cfg, s.primary, store);
    var m1 := After(m, 1, f);
    PrimaryReaches(cfg, s, m);
    assert m1.steps == [] && m1.log == f.log;
    match f.got
    case Stopped(_) =>
      var ended := RunTrace([], [], t.ending);
      Stops(cfg, s, m1, ended);
      assert m1.log + [] == m.log + f.log;
      FinishesAfter(cfg, s, m, m1, t, ended);
    case Failed(message, _) =>
      var m2 := Next(cfg, s, m1);
      var ended := RunTrace([], [], t.ending);
      assert m2.control == Stop(t.ending) && m2.steps == m1.steps + t.steps && m2.log == t.log;
      Stops(cfg, s, m2, ended);
      ReachesNext(cfg, s, m1);
      ReachesAll(cfg, s, m, m1, m2);
      assert m2.steps + [] == m.steps + t.steps && m2.log + [] == m.log + t.log;
      FinishesAfter(cfg, s, m, m2, t, ended);
    case Obtained(r) =>
      var m2 := Next(cfg, s, m1);
      var record := Succeeded(1, Primary, cfg.primary.agentId, r);
      assert m2 == Writes(m1, record, if cfg.reviewer.Some? then Enter(2) else Close(2));
      assert m2.steps == [record];
      ReviewFinishes(cfg, s, m2, r.text);
      var rest := ReviewOn(cfg, s, m2.store, r.text);
      ReachesNext(cfg, s, m1);
      ReachesAll(cfg, s, m, m1, m2);
      assert t == rest.After(f.log, record);
      AppendAfter(m, f.log, record, rest);
      FinishesAfter(cfg, s, m, m2, t, rest);
  }

  // ---------- One observation ----------

  /** What an attempt shows: text was shown exactly if some event was a delta; the reply is the last final response; a
      stream that breaks, or ends without one, is a fault. */
  lemma ObservationIsExact(cfg: Config, agent: Agent, tick: Tick)
    ensures var seen := Observe(cfg, agent, tick);
            var events := tick.streaming.events;
            if !(cfg.live && agent.streams) then
              match tick.execution case Returns(r) => seen == Replied(r) case Fails(fault) => seen == Faulted(fault, false)
            else if tick.streaming.broken.Some? then
              seen.Faulted? && seen.fault == tick.streaming.broken.value && (seen.emitted <==> HasDelta(events))
            else if seen.Replied? then IsLastResponse(events, seen.response)
            else
              && (forall i :: 0 <= i < |events| ==> events[i].Delta?)
              && (seen.emitted <==> events != []) && seen.fault.Rejects? && seen.fault.error.provider == agent.provider
              && seen.fault.error.kind == UnknownKind && seen.fault.error.remoteOutcome == OutcomeUnknown
  {
    LastResponseIs(tick.streaming.events);
    assert Emitted(tick.streaming.events) <==> HasDelta(tick.streaming.events);
  }

  predicate HasDelta(events: seq<AgentEvent>) {
    exists i :: 0 <= i < |events| && events[i].Delta?
  }

  predicate IsLastResponse(events: seq<AgentEvent>, r: AgentResponse) {
    exists i :: 0 <= i < |events| && events[i] == Done(r) && forall j :: i < j < |events| ==> events[j].Delta?
  }

  lemma {:induction false} LastResponseIs(events: seq<AgentEvent>)
    ensures LastResponse(events).Some? ==> IsLastResponse(events, LastResponse(events).value)
    ensures LastResponse(events).None? ==> forall i :: 0 <= i < |events| ==> events[i].Delta?
    decreases |events|
  {
    if events != [] {
      var last := |events| - 1;
      if events[last].Delta? {
        LastResponseIs(events[..last]);
        assert forall i :: 0 <= i < last ==> events[..last][i] == events[i];
      } else {
        assert events[last] == Done(events[last].response);
      }
    }
  }

  /** Without a claim of the adapter, exactly a bad key, a rate limit and a bad request are taken as never run. */
  lemma ErrorsClaimByKind(provider: ProviderId, kind: ErrorKind, message: string, claim: Option<RemoteOutcome>)
    ensures var e := MakeError(provider, kind, message, claim);
            && e.provider == provider && e.kind == kind && e.message == message
            && (e.remoteOutcome == ClaimsNotExecuted <==>
                  claim == Some(ClaimsNotExecuted) || (claim == None && (kind == Auth || kind == RateLimited || kind == InvalidRequest)))
  {
  }

  /** Recording a step writes once: over a row nothing changes; a new row brings its reply's checkpoint, unless there is one,
      and a reply or a failure resolves the dispatch. */
  lemma PersistWritesOnce(store: Store, record: StepRecord)
    ensures var n, now := record.stepNumber, Persist(store, record);
            if n in store.rows then now == store
            else
              && now.rows == store.rows[n := Row(record.succeeded, record.errorMessage)]
              && (forall k :: k != n ==> (k in now.checkpoints <==> k in store.checkpoints))
              && (forall k :: k in store.checkpoints ==> k in now.checkpoints && now.checkpoints[k] == store.checkpoints[k])
              && (n !in store.checkpoints ==>
                    if record.response.None? then n !in now.checkpoints
                    else
                      var r, c := record.response.value, if n in now.checkpoints then Some(now.checkpoints[n]) else None;
                      c == Some(Checkpoint(r.provider, r.model, r.text, r.usage)))
              && (now.dispatching <==> store.dispatching && record.response.None? && record.succeeded)
  {
  }
}
