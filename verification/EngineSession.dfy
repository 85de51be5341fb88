/**
 * executeRun and callWithRetry as the engine runs them: one attempt that reassigns its step counter and its
 * responses, drives a retry loop, and talks to the durable store. Each method is tied to the function of module
 * Engine that specifies it.
 */
module EngineSession {
  import opened Wrappers
  import opened Provider
  import opened ReviewParser
  import opened Engine

  lemma {:induction false} ApplyAllAppend(store: Store, a: seq<Event>, b: seq<Event>)
    ensures ApplyAll(store, a + b) == ApplyAll(ApplyAll(store, a), b)
    decreases |a|
  {
    if a == [] {
      assert a + b == b;
    } else {
      assert (a + b)[1..] == a[1..] + b;
      ApplyAllAppend(Apply(store, a[0]), a[1..], b);
    }
  }

  lemma AttemptKeepsStore(store: Store, n: nat, call: nat, attempt: nat, agent: Agent, seen: Observation)
    ensures ApplyAll(store, [Dispatched(n, call, attempt, agent), Observed(n, call, attempt, agent, seen)]) == store
  {
    var here := [Dispatched(n, call, attempt, agent), Observed(n, call, attempt, agent, seen)];
    assert here[1..] == [here[1]] && here[1..][1..] == [];
    assert ApplyAll(store, here) == ApplyAll(store, here[1..]) == ApplyAll(store, here[1..][1..]);
  }

  /** A provider call dispatches and observes, which leaves the durable store as it was. */
  lemma {:induction false} CallKeepsStore(cfg: Config, agent: Agent, n: nat, call: nat, ticks: nat -> Tick, attempt: nat, store: Store)
    requires attempt <= MAX_RETRIES_PER_CALL
    ensures ApplyAll(store, CallFrom(cfg, agent, n, call, ticks, attempt).log) == store
    decreases MAX_RETRIES_PER_CALL - attempt
  {
    var tick := ticks(attempt);
    if cfg.deadline - tick.nowBefore > 0 {
      var seen := Observe(cfg, agent, tick);
      var here := [Dispatched(n, call, attempt, agent), Observed(n, call, attempt, agent, seen)];
      AttemptKeepsStore(store, n, call, attempt, agent, seen);
      if attempt < MAX_RETRIES_PER_CALL {
        var rest := CallFrom(cfg, agent, n, call, ticks, attempt + 1);
        ApplyAllAppend(store, here, rest.log);
        CallKeepsStore(cfg, agent, n, call, ticks, attempt + 1, store);
      }
    }
  }

  lemma Reassociate(before: seq<Event>, here: seq<Event>, record: StepRecord, rest: seq<Event>)
    requires before <= here
    ensures here + [Recorded(record)] + rest == before + (here[|before|..] + [Recorded(record)] + rest)
  {
  }

  class Session {
    const cfg: Config
    var store: Store
    var stepNumber: nat
    var steps: seq<StepRecord>
    ghost const initial: Store
    ghost var log: seq<Event>

    ghost predicate Valid()
      reads this
    {
      && store == ApplyAll(initial, log)
      && |steps| == stepNumber
    }

    /** The session went on from an earlier point exactly as a trace says. */
    ghost predicate Continued(log0: seq<Event>, steps0: seq<StepRecord>, ending: Ending, t: RunTrace)
      reads this
    {
      log == log0 + t.log && steps == steps0 + t.steps && ending == t.ending
    }

    constructor (cfg: Config, store: Store)
      ensures Valid() && this.cfg == cfg && this.store == this.initial == store && steps == [] && log == []
    {
      this.cfg := cfg;
      this.store := store;
      this.initial := store;
      stepNumber := 0;
      steps := [];
      log := [];
    }

    /** Numbers and persists one step. Its precondition is the negation of the guard of the step-budget throw. */
    method Record(record: StepRecord)
      requires Valid()
      requires stepNumber < MAX_STEPS && record.stepNumber == stepNumber + 1
      modifies this`store, this`stepNumber, this`steps, this`log
      ensures Valid()
      ensures stepNumber == old(stepNumber) + 1 && steps == old(steps) + [record]
      ensures log == old(log) + [Recorded(record)] && store == Persist(old(store), record)
    {
      stepNumber := stepNumber + 1;
      steps := steps + [record];
      store := Persist(store, record);
      ApplyAllAppend(initial, log, [Recorded(record)]);
      log := log + [Recorded(record)];
    }

    /** Drains a stream: the deltas go to the observer, the last final response is kept. */
    method Drain(events: seq<AgentEvent>) returns (emitted: bool, response: Option<AgentResponse>)
      ensures emitted == Emitted(events) && response == LastResponse(events)
    {
      emitted, response := false, None;
      for i := 0 to |events|
        invariant emitted == Emitted(events[..i]) && response == LastResponse(events[..i])
      {
        assert events[..i + 1][..i] == events[..i];
        match events[i] {
          case Delta(_) =>
            emitted := true;
            assert events[..i + 1][i].Delta?;
          case Done(r) => response := Some(r);
        }
      }
      assert events[..|events|] == events;
    }

    method Attempt(agent: Agent, tick: Tick) returns (seen: Observation)
      ensures seen == Observe(cfg, agent, tick)
    {
      if cfg.live && agent.streams {
        var emitted, response := Drain(tick.streaming.events);
        if tick.streaming.broken.Some? {
          return Faulted(tick.streaming.broken.value, emitted);
        }
        if response.None? {
          return Faulted(Rejects(MakeError(agent.provider, UnknownKind, cfg.wording.streamEnded)), emitted);
        }
        return Replied(response.value);
      }
      match tick.execution {
        case Returns(r) => return Replied(r);
        case Fails(fault) => return Faulted(fault, false);
      }
    }

    method CallWithRetry(agent: Agent, n: nat, call: nat, ticks: nat -> Tick) returns (ending: CallEnding)
      requires Valid()
      modifies this`log
      ensures Valid()
      ensures var c := CallFrom(cfg, agent, n, call, ticks, 0); ending == c.ending && log == old(log) + c.log
    {
      hide Observe, ApplyAll;
      ghost var whole := CallFrom(cfg, agent, n, call, ticks, 0);
      var attempt := 0;
      assert old(log) + whole.log == log + whole.log;
      while true
        invariant 0 <= attempt <= MAX_RETRIES_PER_CALL
        invariant Valid()
        invariant var rest := CallFrom(cfg, agent, n, call, ticks, attempt);
          whole.ending == rest.ending && old(log) + whole.log == log + rest.log
        decreases MAX_RETRIES_PER_CALL - attempt
      {
        ghost var rest := CallFrom(cfg, agent, n, call, ticks, attempt);
        var tick := ticks(attempt);
        var budget := cfg.deadline - tick.nowBefore;
        if budget <= 0 {
          assert log + rest.log == log;
          return ProviderFault(MakeError(agent.provider, TimedOut, cfg.wording.deadlineExhausted));
        }
        var seen := Attempt(agent, tick);
        ghost var here := [Dispatched(n, call, attempt, agent), Observed(n, call, attempt, agent, seen)];
        ghost var before := log;
        ApplyAllAppend(initial, log, here);
        AttemptKeepsStore(store, n, call, attempt, agent, seen);
        log := log + here;
        if seen.Replied? {
          return Reply(seen.response);
        }
        if seen.fault.Signals? {
          return Escalated(seen.fault.signal);
        }
        var lastError := AsProviderError(agent, seen.fault);
        var assessment := AssessProviderErrorOutcome(agent.provider, agent.guarantee, lastError);
        if seen.emitted || !assessment.NotExecuted? {
          return Escalated(AmbiguousProviderOutcome(lastError.kind, seen.emitted, 0));
        }
        if !lastError.Retryable() || attempt == MAX_RETRIES_PER_CALL {
          return ProviderFault(lastError);
        }
        if tick.backoff >= cfg.deadline - tick.nowAfter {
          return ProviderFault(lastError);
        }
        assert before + (here + CallFrom(cfg, agent, n, call, ticks, attempt + 1).log)
            == log + CallFrom(cfg, agent, n, call, ticks, attempt + 1).log;
        attempt := attempt + 1;
      }
    }

    /** The dispatch boundary followed by the first call of a step. */
    method GuardedCall(agent: Agent, n: nat, script: StepScript) returns (got: Got)
      requires Valid()
      modifies this`store, this`log
      ensures Valid()
      ensures var f := Dispatch(cfg, agent, n, script, old(store));
        got == f.got && log == old(log) + f.log && store == ApplyAll(old(store), f.log)
    {
      hide CallFrom, GuardDispatch;
      if cfg.hooked {
        var refusal := GuardDispatch(store, script.guard, n);
        if refusal.Some? {
          assert log + [] == log;
          return Stopped(refusal.value);
        }
        store := store.(dispatching := true);
        ApplyAllAppend(initial, log, [Intent(n)]);
        log := log + [Intent(n)];
      }
      ghost var intent := if cfg.hooked then [Intent(n)] else [];
      assert log == old(log) + intent;
      var ending := CallWithRetry(agent, n, 0, script.call);
      ghost var c := CallFrom(cfg, agent, n, 0, script.call, 0);
      assert old(log) + intent + c.log == old(log) + (intent + c.log);
      ApplyAllAppend(initial, old(log), intent + c.log);
      match ending {
        case Reply(r) => return Obtained(r);
        case ProviderFault(error) => return Failed(error.message, None);
        case Escalated(signal) => return Stopped(Tag(signal, n));
      }
    }

    /** Unlike the later steps, the primary is not asked for a recorded failure before it is dispatched. */
    method ObtainPrimary(script: StepScript) returns (got: Got)
      requires Valid()
      modifies this`store, this`log
      ensures Valid()
      ensures var f := FetchPrimary(cfg, script, old(store));
        got == f.got && log == old(log) + f.log && store == ApplyAll(old(store), f.log)
    {
      assert log + [] == log;
      var checkpoint := LoadCheckpoint(cfg, store, 1);
      if checkpoint.Some? {
        return Obtained(FromCheckpoint(checkpoint.value));
      }
      got := GuardedCall(cfg.primary, 1, script);
    }

    method ObtainReview(reviewer: Agent, n: nat, script: StepScript) returns (got: Got)
      requires Valid()
      modifies this`store, this`log
      ensures Valid()
      ensures var f := FetchReview(cfg, reviewer, n, script, old(store));
        got == f.got && log == old(log) + f.log && store == ApplyAll(old(store), f.log)
    {
      hide CallFrom, Dispatch, IsCutOffReview, ReviewRetryOutputTokens, CombineResponses;
      assert log + [] == log;
      var checkpoint := LoadCheckpoint(cfg, store, n);
      if checkpoint.Some? {
        return Obtained(FromCheckpoint(checkpoint.value));
      }
      var priorFailure := LoadConclusiveFailure(cfg, store, n);
      if priorFailure.Some? {
        return Failed(priorFailure.value, None);
      }
      got := GuardedCall(reviewer, n, script);
      ghost var f := Dispatch(cfg, reviewer, n, script, old(store));
      if got.Obtained? && Unusable(cfg.reader, got.response) {
        var firstUnusable := got.response;
        var firstWasCutOff := !IsEmptyReply(cfg.reader, firstUnusable);
        var roomier := reviewer.(maxOutputTokens := ReviewRetryOutputTokens(reviewer.maxOutputTokens));
        var ending := CallWithRetry(roomier, n, 1, script.retry);
        ghost var again := RetryReview(cfg, reviewer, n, script, firstUnusable);
        assert old(log) + f.log + again.log == old(log) + (f.log + again.log);
        ApplyAllAppend(initial, old(log), f.log + again.log);
        match ending {
          case Reply(r) => return Obtained(CombineResponses(firstUnusable, r));
          case ProviderFault(error) =>
            return Failed((if firstWasCutOff then cfg.wording.cutOffRetryFailed else cfg.wording.emptyRetryFailed) + error.message,
                          Some(firstUnusable));
          case Escalated(signal) => return Stopped(Tag(signal, n));
        }
      }
    }

    method ObtainRevision(n: nat, script: StepScript) returns (got: Got)
      requires Valid()
      modifies this`store, this`log
      ensures Valid()
      ensures var f := FetchRevision(cfg, n, script, old(store));
        got == f.got && log == old(log) + f.log && store == ApplyAll(old(store), f.log)
    {
      hide CallFrom, Dispatch;
      assert log + [] == log;
      var checkpoint := LoadCheckpoint(cfg, store, n);
      if checkpoint.Some? {
        return Obtained(FromCheckpoint(checkpoint.value));
      }
      var priorFailure := LoadConclusiveFailure(cfg, store, n);
      if priorFailure.Some? {
        return Failed(priorFailure.value, None);
      }
      got := GuardedCall(cfg.primary, n, script);
    }

    /** Step 4: consolidate, then extract from the final body. */
    method ConsolidatePhase(primaryText: string, review: ReviewState, revisionText: Option<string>) returns (ending: Ending)
      requires Valid() && stepNumber < MAX_STEPS
      modifies this
      ensures Valid()
      ensures var t := FinishOn(cfg, old(stepNumber) + 1, primaryText, review, revisionText); Continued(old(log), old(steps), ending, t)
    {
      var outcome := OutcomeOf(cfg, review);
      var consolidated := ConsolidateText(cfg, primaryText, review.text, review.verdict, revisionText, outcome);
      Record(Consolidated(stepNumber + 1));
      var extracts := cfg.shaper.extract(FinalText(primaryText, revisionText));
      return Returned(EngineResult(true, consolidated, extracts, None, outcome));
    }

    /** Step 3: one revision, only on a `revise` verdict. */
    method RevisionPhase(script: StepScript, primaryText: string, review: ReviewState) returns (ending: Ending)
      requires Valid() && stepNumber == 2
      modifies this
      ensures Valid()
      ensures var t := RevisionOn(cfg, script, old(store), primaryText, review); Continued(old(log), old(steps), ending, t)
    {
      hide FetchRevision, ApplyAll;
      var revisionText: Option<string> := None;
      if review.verdict == Some(Revise) && review.text.Some? {
        var got := ObtainRevision(3, script);
        if got.Stopped? {
          assert steps + [] == steps;
          return Aborted(got.signal);
        }
        ghost var here := log;
        var (record, text) := SettleRevision(cfg, 3, got);
        Record(record);
        ending := ConsolidatePhase(primaryText, review, text);
        Reassociate(old(log), here, record, FinishOn(cfg, 4, primaryText, review, text).log);
        assert old(steps) + [record] + [Consolidated(4)] == old(steps) + ([record] + [Consolidated(4)]);
      } else {
        ending := ConsolidatePhase(primaryText, review, None);
      }
    }

    /** Step 2: the review, when a reviewer is configured. */
    method ReviewPhase(s: Script, primaryText: string) returns (ending: Ending)
      requires Valid() && stepNumber == 1
      modifies this
      ensures Valid()
      ensures var t := ReviewOn(cfg, s, old(store), primaryText); Continued(old(log), old(steps), ending, t)
    {
      hide FetchReview, RevisionOn, ApplyAll;
      if cfg.reviewer.None? {
        ending := ConsolidatePhase(primaryText, NO_REVIEW, None);
        return;
      }
      var reviewer := cfg.reviewer.value;
      var got := ObtainReview(reviewer, 2, s.review);
      if got.Stopped? {
        assert steps + [] == steps;
        return Aborted(got.signal);
      }
      ghost var here := log;
      var (record, review) := SettleReview(cfg, reviewer, 2, got, primaryText);
      Record(record);
      ghost var rest := RevisionOn(cfg, s.revision, store, primaryText, review);
      ending := RevisionPhase(s.revision, primaryText, review);
      Reassociate(old(log), here, record, rest.log);
      assert old(steps) + [record] + rest.steps == old(steps) + ([record] + rest.steps);
    }

    /**
     * The whole run: it ends as Run says, leaves exactly the events and the steps Run lists, and never reaches the
     * step-budget throw, because every call of Record meets its precondition.
     */
    method ExecuteRun(s: Script) returns (ending: Ending)
      requires Valid() && steps == [] && log == []
      modifies this
      ensures Valid()
      ensures var t := Run(cfg, s, old(store)); ending == t.ending && steps == t.steps && log == t.log
      ensures store == ApplyAll(old(store), log)
    {
      hide FetchPrimary, ReviewOn;
      ghost var f := FetchPrimary(cfg, s.primary, store);
      var got := ObtainPrimary(s.primary);
      assert log == f.log;
      match got {
        case Stopped(signal) => return Aborted(signal);
        case Failed(message, _) =>
          Record(FailedStep(1, Primary, cfg.primary.agentId, None, message));
          return Returned(FailedRun(cfg, message));
        case Obtained(primary) =>
          var record := Succeeded(1, Primary, cfg.primary.agentId, primary);
          Record(record);
          ghost var rest := ReviewOn(cfg, s, store, primary.text);
          ending := ReviewPhase(s, primary.text);
          assert steps == [record] + rest.steps && log == f.log + [Recorded(record)] + rest.log;
      }
    }
  }
}
