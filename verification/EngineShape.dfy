/**
 * What every run looks like, whatever the providers, the clocks and an earlier attempt's store do: the shape of its
 * steps, its review outcome, the body it shows, and the usage it records.
 */
module EngineShape {
  import opened Wrappers
  import opened ReviewParser
  import opened Engine

  // ---------- Steps ----------

  function Records(log: seq<Event>): seq<StepRecord> {
    if log == [] then []
    else if log[0].Recorded? then [log[0].record] + Records(log[1..])
    else Records(log[1..])
  }

  lemma {:induction false} RecordsAppend(a: seq<Event>, b: seq<Event>)
    ensures Records(a + b) == Records(a) + Records(b)
    decreases |a|
  {
    if a == [] {
      assert a + b == b;
    } else {
      assert (a + b)[1..] == a[1..] + b;
      RecordsAppend(a[1..], b);
    }
  }

  lemma RecordsSnoc(a: seq<Event>, record: StepRecord)
    ensures Records(a + [Recorded(record)]) == Records(a) + [record]
  {
    RecordsAppend(a, [Recorded(record)]);
    assert Records([Recorded(record)]) == [record];
  }

  lemma {:induction false} CallRecordsNothing(cfg: Config, agent: Agent, n: nat, call: nat, ticks: nat -> Tick, attempt: nat)
    requires attempt <= MAX_RETRIES_PER_CALL
    ensures Records(CallFrom(cfg, agent, n, call, ticks, attempt).log) == []
    decreases MAX_RETRIES_PER_CALL - attempt
  {
    var tick := ticks(attempt);
    if cfg.deadline - tick.nowBefore > 0 {
      var seen := Observe(cfg, agent, tick);
      var here := [Dispatched(n, call, attempt, agent), Observed(n, call, attempt, agent, seen)];
      assert here[1..] == [here[1]] && here[1..][1..] == [];
      assert Records(here) == Records(here[1..]) == Records(here[1..][1..]);
      if attempt < MAX_RETRIES_PER_CALL {
        CallRecordsNothing(cfg, agent, n, call, ticks, attempt + 1);
        RecordsAppend(here, CallFrom(cfg, agent, n, call, ticks, attempt + 1).log);
      }
    }
  }

  lemma DispatchRecordsNothing(cfg: Config, agent: Agent, n: nat, script: StepScript, store: Store)
    ensures Records(Dispatch(cfg, agent, n, script, store).log) == []
  {
    CallRecordsNothing(cfg, agent, n, 0, script.call, 0);
    RecordsAppend([Intent(n)], CallFrom(cfg, agent, n, 0, script.call, 0).log);
    assert [] + CallFrom(cfg, agent, n, 0, script.call, 0).log == CallFrom(cfg, agent, n, 0, script.call, 0).log;
  }

  lemma FetchReviewRecordsNothing(cfg: Config, reviewer: Agent, n: nat, script: StepScript, store: Store)
    ensures Records(FetchReview(cfg, reviewer, n, script, store).log) == []
  {
    DispatchRecordsNothing(cfg, reviewer, n, script, store);
    var f := Dispatch(cfg, reviewer, n, script, store);
    if f.got.Obtained? {
      var roomier := reviewer.(maxOutputTokens := ReviewRetryOutputTokens(reviewer.maxOutputTokens));
      CallRecordsNothing(cfg, roomier, n, 1, script.retry, 0);
      RecordsAppend(f.log, RetryReview(cfg, reviewer, n, script, f.got.response).log);
    }
  }

  /** A review that happened and was well formed. */
  ghost predicate WellFormedStep(step: StepRecord) {
    step.kind.Review? && step.succeeded && step.verdictDetail.Some? && LooksWellFormed(step.verdictDetail.value)
      && step.verdict == Some(step.verdictDetail.value.verdict)
  }

  ghost predicate HasWellFormedReview(steps: seq<StepRecord>) {
    exists i :: 0 <= i < |steps| && WellFormedStep(steps[i])
  }

  ghost predicate Numbered(steps: seq<StepRecord>) {
    |steps| <= MAX_STEPS && forall i :: 0 <= i < |steps| ==> steps[i].stepNumber == i + 1
  }

  ghost predicate KindsAre(steps: seq<StepRecord>, kinds: seq<StepKind>) {
    |steps| == |kinds| && forall i :: 0 <= i < |steps| ==> steps[i].kind == kinds[i]
  }

  /** The steps of a run that returned. */
  ghost predicate RunShape(steps: seq<StepRecord>) {
    && Numbered(steps)
    && (|| (KindsAre(steps, [Primary]) && !steps[0].succeeded)
        || (KindsAre(steps, [Primary, Consolidate]) && steps[0].succeeded)
        || (KindsAre(steps, [Primary, Review, Consolidate]) && steps[0].succeeded
            && !(WellFormedStep(steps[1]) && steps[1].verdict == Some(Revise)))
        || (KindsAre(steps, [Primary, Review, Revision, Consolidate]) && steps[0].succeeded
            && WellFormedStep(steps[1]) && steps[1].verdict == Some(Revise)))
  }

  /** The review state a settled review leaves, read off its record. */
  ghost predicate SettledAs(review: ReviewState, step: StepRecord) {
    && step.kind.Review? && step.stepNumber == 2
    && (WellFormedStep(step) <==> (review.text.Some? && !review.malformed))
    && (review.text.Some? <==> review.verdict.Some?)
    && (WellFormedStep(step) ==> step.verdict == review.verdict)
    && (review.malformed ==> review.verdict == Some(Reject))
  }

  lemma SettleReviewLeaves(cfg: Config, reviewer: Agent, got: Got, primaryText: string)
    requires !got.Stopped?
    ensures var (step, review) := SettleReview(cfg, reviewer, 2, got, primaryText); SettledAs(review, step)
  {
    if got.Obtained? && !Unusable(cfg.reader, got.response) {
      MalformedIsVisible(cfg.reader, got.response.text, primaryText);
      ParseReviewDetailSpec(cfg.reader, got.response.text, primaryText);
    }
  }

  /** The rest of a run after a settled review: it records what it lists, and it is a revision exactly after `revise`. */
  ghost predicate Revises(step: StepRecord) {
    WellFormedStep(step) && step.verdict == Some(Revise)
  }

  /** The steps that follow a recorded review when the run returns. */
  ghost predicate Follows(rest: seq<StepRecord>, review: StepRecord) {
    if Revises(review) then
      |rest| == 2 && rest[0].kind.Revision? && rest[0].stepNumber == 3 && rest[1] == Consolidated(4)
    else rest == [Consolidated(3)]
  }

  lemma Assemble(first: StepRecord, review: StepRecord, rest: seq<StepRecord>)
    requires first.kind.Primary? && first.stepNumber == 1 && first.succeeded
    requires review.kind.Review? && review.stepNumber == 2 && Follows(rest, review)
    ensures var steps := [first] + ([review] + rest);
      RunShape(steps) && (HasWellFormedReview(steps) <==> WellFormedStep(review))
  {
    var steps := [first] + ([review] + rest);
    assert steps[0] == first && steps[1] == review && steps[2] == rest[0];
    if Revises(review) {
      assert steps[3] == rest[1];
      assert KindsAre(steps, [Primary, Review, Revision, Consolidate]);
    } else {
      assert KindsAre(steps, [Primary, Review, Consolidate]);
    }
  }

  lemma RevisionOnShape(cfg: Config, script: StepScript, store: Store, primaryText: string, review: ReviewState, step: StepRecord)
    requires SettledAs(review, step)
    ensures var t := RevisionOn(cfg, script, store, primaryText, review);
      && Records(t.log) == t.steps
      && (t.ending.Returned? ==>
            t.ending.result.ok && t.ending.result.reviewOutcome == OutcomeOf(cfg, review) && Follows(t.steps, step))
      && (t.ending.Aborted? ==> t.steps == [])
  {
    if review.verdict == Some(Revise) && review.text.Some? {
      var f := FetchRevision(cfg, 3, script, store);
      DispatchRecordsNothing(cfg, cfg.primary, 3, script, store);
      if !f.got.Stopped? {
        var (record, text) := SettleRevision(cfg, 3, f.got);
        RecordsSnoc(f.log, record);
        RecordsAppend(f.log + [Recorded(record)], [Recorded(Consolidated(4))]);
      }
    }
  }

  /** The outcome of a run whose primary succeeded. */
  ghost function ExpectedOutcome(cfg: Config, steps: seq<StepRecord>): ReviewOutcome {
    if HasWellFormedReview(steps) then Reviewed
    else if cfg.reviewRequired then RequiredUnmet
    else if cfg.reviewer.Some? then OptionalDegraded else Omitted
  }

  ghost predicate GoodTrace(cfg: Config, t: RunTrace) {
    && Records(t.log) == t.steps && Numbered(t.steps)
    && (t.ending.Returned? ==>
          && RunShape(t.steps) && (t.ending.result.ok <==> t.steps[0].succeeded)
          && (t.ending.result.ok ==> t.ending.result.reviewOutcome == ExpectedOutcome(cfg, t.steps)))
  }

  lemma ReviewedTrace(cfg: Config, s: Script, store: Store, primaryText: string, reviewer: Agent, first: StepRecord)
    requires cfg.reviewer == Some(reviewer)
    requires first.kind.Primary? && first.stepNumber == 1 && first.succeeded
    ensures var t := ReviewOn(cfg, s, store, primaryText); Records(t.log) == t.steps
    ensures var t := ReviewOn(cfg, s, store, primaryText);
      var steps := [first] + t.steps;
      && Numbered(steps)
      && (t.ending.Returned? ==> RunShape(steps) && t.ending.result.ok && t.ending.result.reviewOutcome == ExpectedOutcome(cfg, steps))
  {
    var t := ReviewOn(cfg, s, store, primaryText);
    var f := FetchReview(cfg, reviewer, 2, s.review, store);
    FetchReviewRecordsNothing(cfg, reviewer, 2, s.review, store);
    if !f.got.Stopped? {
      SettleReviewLeaves(cfg, reviewer, f.got, primaryText);
      var (record, review) := SettleReview(cfg, reviewer, 2, f.got, primaryText);
      var now := Persist(ApplyAll(store, f.log), record);
      var rest := RevisionOn(cfg, s.revision, now, primaryText, review);
      RevisionOnShape(cfg, s.revision, now, primaryText, review, record);
      RecordsSnoc(f.log, record);
      RecordsAppend(f.log + [Recorded(record)], rest.log);
      if rest.ending.Returned? {
        Assemble(first, record, rest.steps);
      }
    }
  }

  lemma TraceAfterPrimary(cfg: Config, s: Script, store: Store, primaryText: string, log: seq<Event>, first: StepRecord)
    requires Records(log) == []
    requires first.kind.Primary? && first.stepNumber == 1 && first.succeeded
    ensures GoodTrace(cfg, ReviewOn(cfg, s, store, primaryText).After(log, first))
  {
    var t := ReviewOn(cfg, s, store, primaryText);
    var steps := [first] + t.steps;
    assert t.After(log, first).steps == steps;
    match cfg.reviewer {
      case None =>
        assert Records(t.log) == t.steps;
        assert !HasWellFormedReview(steps);
      case Some(reviewer) =>
        ReviewedTrace(cfg, s, store, primaryText, reviewer, first);
    }
    assert Records(log + [Recorded(first)] + t.log) == [first] + t.steps by {
      RecordsSnoc(log, first);
      RecordsAppend(log + [Recorded(first)], t.log);
    }
  }

  /**
   * Every run, finished or stopped, over any store: its steps are what it recorded, numbered 1, 2, ... within the step
   * budget. A run that returns has one of four shapes, with a revision exactly after a well-formed `revise`; it failed
   * exactly when its primary failed; and its review outcome says exactly whether a well-formed review exists.
   */
  lemma EveryRunHasShape(cfg: Config, s: Script, store: Store)
    ensures var t := Run(cfg, s, store);
      && Records(t.log) == t.steps && Numbered(t.steps)
      && (t.ending.Returned? ==> RunShape(t.steps) && Reports(cfg, t.steps, t.ending.result))
  {
    var f := FetchPrimary(cfg, s.primary, store);
    DispatchRecordsNothing(cfg, cfg.primary, 1, s.primary, store);
    match f.got {
      case Stopped(_) =>
      case Failed(message, _) =>
        RecordsSnoc(f.log, FailedStep(1, Primary, cfg.primary.agentId, None, message));
      case Obtained(r) =>
        var record := Succeeded(1, Primary, cfg.primary.agentId, r);
        TraceAfterPrimary(cfg, s, Persist(ApplyAll(store, f.log), record), r.text, f.log, record);
    }
  }

  /** The result says whether the primary succeeded, and what became of the review. */
  ghost predicate Reports(cfg: Config, steps: seq<StepRecord>, result: EngineResult)
    requires steps != []
  {
    && (result.ok <==> steps[0].succeeded)
    && (result.reviewOutcome.Reviewed? <==> HasWellFormedReview(steps))
    && (result.reviewOutcome.RequiredUnmet? <==> (cfg.reviewRequired && !HasWellFormedReview(steps)))
    && (result.reviewOutcome.OptionalDegraded? <==>
          (!cfg.reviewRequired && cfg.reviewer.Some? && result.ok && !HasWellFormedReview(steps)))
  }
}
