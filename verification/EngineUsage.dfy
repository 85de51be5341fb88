/**
 * What a run bills (src/orchestration/engine.ts): the usage its steps record is the usage of the replies it got, the
 * unusable first review included.
 */
module EngineUsage {
  import opened Wrappers
  import opened Provider
  import opened ReviewParser
  import opened Engine
  import opened EngineHistory

  function RecordUsage(record: StepRecord, meter: Meter): nat {
    if record.response.Some? then record.response.value.usage.On(meter) else 0
  }

  /** The usage a run's steps record, on one meter. */
  function StepsUsage(steps: seq<StepRecord>, meter: Meter): nat {
    if steps == [] then 0 else RecordUsage(steps[0], meter) + StepsUsage(steps[1..], meter)
  }

  lemma {:induction false} RepliesAppend(a: seq<Event>, b: seq<Event>, meter: Meter)
    ensures RepliesUsage(a + b, meter) == RepliesUsage(a, meter) + RepliesUsage(b, meter)
    decreases |b|
  {
    if b == [] {
      assert a + b == a;
    } else {
      var init, last := b[..|b| - 1], b[|b| - 1];
      assert (a + b)[..|a + b| - 1] == a + init;
      RepliesAppend(a, init, meter);
    }
  }

  lemma RecordsReplyNothing(record: StepRecord, meter: Meter)
    ensures RepliesUsage([Recorded(record)], meter) == 0
  {
    assert [Recorded(record)][..0] == [];
  }

  lemma AttemptUsage(n: nat, call: nat, attempt: nat, agent: Agent, seen: Observation, meter: Meter)
    ensures RepliesUsage([Dispatched(n, call, attempt, agent), Observed(n, call, attempt, agent, seen)], meter)
         == if seen.Replied? then seen.response.usage.On(meter) else 0
  {
    var d, o := Dispatched(n, call, attempt, agent), Observed(n, call, attempt, agent, seen);
    assert [d, o][..1] == [d] && [d][..0] == [];
    assert RepliesUsage([d], meter) == RepliesUsage([], meter) == 0;
  }

  lemma {:induction false} CallUsage(cfg: Config, agent: Agent, n: nat, call: nat, ticks: nat -> Tick, attempt: nat, meter: Meter)
    requires attempt <= MAX_RETRIES_PER_CALL
    ensures var c := CallFrom(cfg, agent, n, call, ticks, attempt);
      RepliesUsage(c.log, meter) == if c.ending.Reply? then c.ending.response.usage.On(meter) else 0
    decreases MAX_RETRIES_PER_CALL - attempt
  {
    hide Observe, AsProviderError, ProvedNotExecuted, TokenUsage.On;
    var tick := ticks(attempt);
    if cfg.deadline - tick.nowBefore > 0 {
      var seen := Observe(cfg, agent, tick);
      var d, o := Dispatched(n, call, attempt, agent), Observed(n, call, attempt, agent, seen);
      AttemptUsage(n, call, attempt, agent, seen, meter);
      if seen.Faulted? && attempt < MAX_RETRIES_PER_CALL {
        CallUsage(cfg, agent, n, call, ticks, attempt + 1, meter);
        RepliesAppend([d, o], CallFrom(cfg, agent, n, call, ticks, attempt + 1).log, meter);
      }
    }
  }

  /** The usage a step is about to record. */
  function GotUsage(got: Got, meter: Meter): nat {
    match got
    case Obtained(r) => r.usage.On(meter)
    case Failed(_, Some(r)) => r.usage.On(meter)
    case _ => 0
  }

  lemma DispatchUsage(cfg: Config, agent: Agent, n: nat, script: StepScript, store: Store, meter: Meter)
    ensures var f := Dispatch(cfg, agent, n, script, store); !f.got.Stopped? ==> RepliesUsage(f.log, meter) == GotUsage(f.got, meter)
  {
    var c := CallFrom(cfg, agent, n, 0, script.call, 0);
    CallUsage(cfg, agent, n, 0, script.call, 0, meter);
    RepliesAppend([Intent(n)], c.log, meter);
    assert [Intent(n)][..0] == [] && [] + c.log == c.log;
    assert RepliesUsage([Intent(n)], meter) == RepliesUsage([], meter);
  }

  lemma FetchReviewUsage(cfg: Config, reviewer: Agent, n: nat, script: StepScript, store: Store, meter: Meter)
    requires n !in store.checkpoints && n !in store.rows
    ensures var f := FetchReview(cfg, reviewer, n, script, store); !f.got.Stopped? ==> RepliesUsage(f.log, meter) == GotUsage(f.got, meter)
  {
    DispatchUsage(cfg, reviewer, n, script, store, meter);
    var f := Dispatch(cfg, reviewer, n, script, store);
    if f.got.Obtained? {
      var roomier := reviewer.(maxOutputTokens := ReviewRetryOutputTokens(reviewer.maxOutputTokens));
      CallUsage(cfg, roomier, n, 1, script.retry, 0, meter);
      RepliesAppend(f.log, CallFrom(cfg, roomier, n, 1, script.retry, 0).log, meter);
    }
  }

  /** A traced part of a run that records what its replies used. */
  ghost predicate Conserves(t: RunTrace, meter: Meter) {
    t.ending.Returned? ==> StepsUsage(t.steps, meter) == RepliesUsage(t.log, meter)
  }

  lemma ConservesAfter(t: RunTrace, log: seq<Event>, record: StepRecord, meter: Meter)
    requires Conserves(t, meter)
    requires RepliesUsage(log, meter) == RecordUsage(record, meter)
    ensures Conserves(t.After(log, record), meter)
  {
    RecordsReplyNothing(record, meter);
    RepliesAppend(log, [Recorded(record)], meter);
    RepliesAppend(log + [Recorded(record)], t.log, meter);
    var used := RecordUsage(record, meter);
    assert RepliesUsage(log + [Recorded(record)], meter) == used;
    assert ([record] + t.steps)[1..] == t.steps;
    assert StepsUsage([record] + t.steps, meter) == used + StepsUsage(t.steps, meter);
  }

  lemma FinishConserves(cfg: Config, n: nat, primaryText: string, review: ReviewState, revisionText: Option<string>, meter: Meter)
    ensures Conserves(FinishOn(cfg, n, primaryText, review, revisionText), meter)
  {
    RecordsReplyNothing(Consolidated(n), meter);
    assert [Consolidated(n)][1..] == [];
    assert StepsUsage([Consolidated(n)], meter) == 0;
  }

  lemma RevisionOnConserves(cfg: Config, script: StepScript, store: Store, primaryText: string, review: ReviewState, meter: Meter)
    requires 3 !in store.checkpoints && 3 !in store.rows
    ensures Conserves(RevisionOn(cfg, script, store, primaryText, review), meter)
  {
    if review.verdict == Some(Revise) && review.text.Some? {
      var f := FetchRevision(cfg, 3, script, store);
      DispatchUsage(cfg, cfg.primary, 3, script, store, meter);
      if !f.got.Stopped? {
        var (record, text) := SettleRevision(cfg, 3, f.got);
        FinishConserves(cfg, 4, primaryText, review, text, meter);
        ConservesAfter(FinishOn(cfg, 4, primaryText, review, text), f.log, record, meter);
      }
    } else {
      FinishConserves(cfg, 3, primaryText, review, None, meter);
    }
  }

  /** Fetching keeps what is known to be absent from the store absent. */
  lemma {:induction false} FetchAddsNoRow(store: Store, log: seq<Event>)
    requires forall i :: 0 <= i < |log| ==> !log[i].Recorded?
    ensures ApplyAll(store, log).rows == store.rows && ApplyAll(store, log).checkpoints == store.checkpoints
    decreases |log|
  {
    if log != [] {
      FetchAddsNoRow(Apply(store, log[0]), log[1..]);
    }
  }

  lemma {:induction false} CallHasNoRecord(cfg: Config, agent: Agent, n: nat, call: nat, ticks: nat -> Tick, attempt: nat)
    requires attempt <= MAX_RETRIES_PER_CALL
    ensures forall e :: e in CallFrom(cfg, agent, n, call, ticks, attempt).log ==> !e.Recorded?
    decreases MAX_RETRIES_PER_CALL - attempt
  {
    if attempt < MAX_RETRIES_PER_CALL {
      CallHasNoRecord(cfg, agent, n, call, ticks, attempt + 1);
    }
  }

  lemma FetchReviewHasNoRecord(cfg: Config, reviewer: Agent, n: nat, script: StepScript, store: Store)
    ensures forall e :: e in FetchReview(cfg, reviewer, n, script, store).log ==> !e.Recorded?
  {
    var roomier := reviewer.(maxOutputTokens := ReviewRetryOutputTokens(reviewer.maxOutputTokens));
    CallHasNoRecord(cfg, reviewer, n, 0, script.call, 0);
    CallHasNoRecord(cfg, roomier, n, 1, script.retry, 0);
  }

  lemma ReviewOnConserves(cfg: Config, s: Script, store: Store, primaryText: string, meter: Meter)
    requires 2 !in store.checkpoints && 2 !in store.rows && 3 !in store.checkpoints && 3 !in store.rows
    ensures Conserves(ReviewOn(cfg, s, store, primaryText), meter)
  {
    match cfg.reviewer {
      case None => FinishConserves(cfg, 2, primaryText, NO_REVIEW, None, meter);
      case Some(reviewer) =>
        var f := FetchReview(cfg, reviewer, 2, s.review, store);
        FetchReviewUsage(cfg, reviewer, 2, s.review, store, meter);
        FetchReviewHasNoRecord(cfg, reviewer, 2, s.review, store);
        FetchAddsNoRow(store, f.log);
        if !f.got.Stopped? {
          var (record, review) := SettleReview(cfg, reviewer, 2, f.got, primaryText);
          var now := Persist(ApplyAll(store, f.log), record);
          RevisionOnConserves(cfg, s.revision, now, primaryText, review, meter);
          ConservesAfter(RevisionOn(cfg, s.revision, now, primaryText, review), f.log, record, meter);
        }
    }
  }

  lemma FailedPrimaryConserves(log: seq<Event>, record: StepRecord, meter: Meter)
    requires RepliesUsage(log, meter) == 0 && record.response.None?
    ensures StepsUsage([record], meter) == RepliesUsage(log + [Recorded(record)], meter)
  {
    RecordsReplyNothing(record, meter);
    RepliesAppend(log, [Recorded(record)], meter);
    assert [record][1..] == [];
    assert StepsUsage([record], meter) == 0;
  }

  /**
   * A run over a fresh store that returns records exactly the usage of the replies its provider calls returned, the
   * unusable first review included, whether or not resume hooks are installed.
   */
  lemma FreshRunRecordsAllUsage(cfg: Config, s: Script, meter: Meter)
    ensures var t := Run(cfg, s, FRESH); t.ending.Returned? ==> StepsUsage(t.steps, meter) == RepliesUsage(t.log, meter)
  {
    var f := FetchPrimary(cfg, s.primary, FRESH);
    DispatchUsage(cfg, cfg.primary, 1, s.primary, FRESH, meter);
    match f.got {
      case Stopped(_) =>
      case Failed(message, _) =>
        var record := FailedStep(1, Primary, cfg.primary.agentId, None, message);
        FailedPrimaryConserves(f.log, record, meter);
      case Obtained(r) =>
        var record := Succeeded(1, Primary, cfg.primary.agentId, r);
        var now := Persist(ApplyAll(FRESH, f.log), record);
        CallHasNoRecord(cfg, cfg.primary, 1, 0, s.primary.call, 0);
        FetchAddsNoRow(FRESH, f.log);
        ReviewOnConserves(cfg, s, now, r.text, meter);
        ConservesAfter(ReviewOn(cfg, s, now, r.text), f.log, record, meter);
    }
  }
}
