/**
 * Crash and resume. A resumed run starts over the durable store of a crashed one, replays the recorded steps without
 * calling a provider, and goes on. This module proves that it ends as the uninterrupted run would, given the same
 * later answers, and exactly when a recorded step replays as itself.
 */
module EngineResume {
  import opened Wrappers
  import opened Provider
  import opened ReviewParser
  import opened Engine
  import opened EngineSession
  import opened EngineShape

  function PersistAll(store: Store, steps: seq<StepRecord>): Store
    decreases |steps|
  {
    if steps == [] then store else PersistAll(Persist(store, steps[0]), steps[1..])
  }

  // ---------- A recorded step and its replay ----------

  /** Equal replies, as far as a checkpoint remembers them. */
  ghost predicate SameReply(a: Option<AgentResponse>, b: Option<AgentResponse>) {
    && (a.Some? <==> b.Some?)
    && (a.Some? ==>
          && a.value.provider == b.value.provider && a.value.model == b.value.model
          && a.value.text == b.value.text && a.value.usage == b.value.usage)
  }

  /** Equal records; only a failed step that kept a reply may be told with another message. */
  ghost predicate SameStep(a: StepRecord, b: StepRecord) {
    && a.stepNumber == b.stepNumber && a.kind == b.kind && a.agentId == b.agentId
    && SameReply(a.response, b.response)
    && a.verdict == b.verdict && a.verdictDetail == b.verdictDetail && a.succeeded == b.succeeded
    && (a.errorMessage == b.errorMessage || (!a.succeeded && a.response.Some? && b.errorMessage.Some? && a.errorMessage.Some?))
  }

  /**
   * A review reply cut off at its output limit before it opened the result block. Only its stop reason shows that it
   * is unusable, and a checkpoint does not keep the stop reason.
   */
  ghost predicate HiddenCutOff(cfg: Config, c: Checkpoint) {
    !Unusable(cfg.reader, FromCheckpoint(c))
  }

  lemma UnusableAfterReplay(cfg: Config, r: AgentResponse)
    ensures !Unusable(cfg.reader, r) ==> !Unusable(cfg.reader, FromCheckpoint(ToCheckpoint(r)))
    ensures Unusable(cfg.reader, r) ==>
      (HiddenCutOff(cfg, ToCheckpoint(r)) <==>
         !cfg.reader.blank(r.text) && !cfg.reader.hasCompleteBlock(r.text) && !cfg.reader.opensBlock(r.text))
  {
  }

  /** What a store must not hold for a resume to be faithful; both parts can be read off the store beforehand. */
  ghost predicate Faithful(cfg: Config, store: Store) {
    && (1 in store.rows ==> store.rows[1].succeeded)
    && (2 in store.rows && !store.rows[2].succeeded && 2 in store.checkpoints ==> !HiddenCutOff(cfg, store.checkpoints[2]))
  }

  /** The store remembers this step. */
  ghost predicate Remembers(store: Store, step: StepRecord) {
    && step.stepNumber in store.rows
    && store.rows[step.stepNumber] == Row(step.succeeded, step.errorMessage)
    && (step.response.Some? ==>
          step.stepNumber in store.checkpoints && store.checkpoints[step.stepNumber] == ToCheckpoint(step.response.value))
    && (step.response.None? ==> step.stepNumber !in store.checkpoints)
  }

  lemma PrimaryReplays(cfg: Config, script: StepScript, store: Store, r: AgentResponse)
    requires cfg.hooked && Remembers(store, Succeeded(1, Primary, cfg.primary.agentId, r))
    ensures FetchPrimary(cfg, script, store) == Fetch([], Obtained(FromCheckpoint(ToCheckpoint(r))))
    ensures SameStep(Succeeded(1, Primary, cfg.primary.agentId, FromCheckpoint(ToCheckpoint(r))), Succeeded(1, Primary, cfg.primary.agentId, r))
  {
  }

  /**
   * A recorded review replays with no call, as the same step and the same review, exactly when it is not a failed
   * review whose reply is a hidden cut-off.
   */
  lemma ReviewReplays(cfg: Config, reviewer: Agent, script: StepScript, store: Store, got: Got, primaryText: string)
    requires cfg.hooked && !got.Stopped?
    requires Remembers(store, SettleReview(cfg, reviewer, 2, got, primaryText).0)
    requires got.Failed? && got.billed.Some? ==> Unusable(cfg.reader, got.billed.value)
    ensures var (step, review) := SettleReview(cfg, reviewer, 2, got, primaryText);
      var again := FetchReview(cfg, reviewer, 2, script, store);
      && again.log == [] && !again.got.Stopped?
      && var (step', review') := SettleReview(cfg, reviewer, 2, again.got, primaryText);
      && step'.stepNumber == 2
      && (SameStep(step', step) <==>
            !(!step.succeeded && step.response.Some? && HiddenCutOff(cfg, ToCheckpoint(step.response.value))))
      && (SameStep(step', step) ==> review' == review)
  {
  }

  lemma RevisionReplays(cfg: Config, script: StepScript, store: Store, got: Got)
    requires cfg.hooked && !got.Stopped? && Remembers(store, SettleRevision(cfg, 3, got).0)
    ensures var (step, text) := SettleRevision(cfg, 3, got);
      var again := FetchRevision(cfg, 3, script, store);
      && again.log == [] && !again.got.Stopped?
      && SameStep(SettleRevision(cfg, 3, again.got).0, step) && SettleRevision(cfg, 3, again.got).1 == text
      && SettleRevision(cfg, 3, again.got).0.stepNumber == 3
  {
  }

  // ---------- Two runs side by side ----------

  lemma {:induction false} PersistAllAppend(store: Store, a: seq<StepRecord>, b: seq<StepRecord>)
    ensures PersistAll(store, a + b) == PersistAll(PersistAll(store, a), b)
    decreases |a|
  {
    if a == [] {
      assert a + b == b;
    } else {
      assert (a + b)[1..] == a[1..] + b;
      PersistAllAppend(Persist(store, a[0]), a[1..], b);
    }
  }

  /**
   * `resumed` first records `replays`, in place of everything `whole` logged up to its m-th record, and from there on
   * the two runs log the same events and end the same way. Up to that record, `whole` turned the store `now` into the
   * one its first m steps leave.
   */
  ghost predicate Aligned(
    now: Store, whole: RunTrace, resumed: RunTrace, head: seq<Event>, replays: seq<Event>, tail: seq<Event>, m: nat)
  {
    && whole.log == head + tail && resumed.log == replays + tail
    && (whole.ending.Returned? && m == |whole.steps| ==> tail == [])
    && whole.ending == resumed.ending
    && SameSteps(whole.steps, resumed.steps) && m <= |whole.steps|
    && Records(head) == whole.steps[..m]
    && ApplyAll(now, head) == PersistAll(now, whole.steps[..m])
    && ReplaysOf(replays, resumed.steps, m)
  }

  ghost predicate SameSteps(a: seq<StepRecord>, b: seq<StepRecord>) {
    |a| == |b| && forall i :: 0 <= i < |a| ==> SameStep(b[i], a[i])
  }

  ghost predicate ReplaysOf(replays: seq<Event>, steps: seq<StepRecord>, m: nat) {
    |replays| == m <= |steps| && forall i :: 0 <= i < m ==> replays[i] == Recorded(steps[i])
  }

  lemma SameStepsCons(a: seq<StepRecord>, b: seq<StepRecord>, step: StepRecord, replay: StepRecord)
    requires SameSteps(a, b) && SameStep(replay, step)
    ensures SameSteps([step] + a, [replay] + b)
  {
  }

  lemma ReplaysCons(replays: seq<Event>, steps: seq<StepRecord>, m: nat, replay: StepRecord)
    requires ReplaysOf(replays, steps, m)
    ensures ReplaysOf([Recorded(replay)] + replays, [replay] + steps, m + 1)
  {
  }

  lemma RecordOne(store: Store, step: StepRecord)
    ensures ApplyAll(store, [Recorded(step)]) == PersistAll(store, [step]) == Persist(store, step)
  {
    assert [Recorded(step)][1..] == [] && [step][1..] == [];
  }

  lemma HeadAfter(now: Store, before: Store, log: seq<Event>, step: StepRecord, head: seq<Event>, steps: seq<StepRecord>)
    requires ApplyAll(now, head) == PersistAll(now, steps)
    requires now == Persist(ApplyAll(before, log), step) && now == Persist(before, step)
    ensures ApplyAll(before, log + [Recorded(step)] + head) == PersistAll(before, [step] + steps)
  {
    var mid := ApplyAll(before, log);
    RecordOne(mid, step);
    RecordOne(before, step);
    calc {
      ApplyAll(before, log + [Recorded(step)] + head);
      { ApplyAllAppend(before, log + [Recorded(step)], head); }
      ApplyAll(ApplyAll(before, log + [Recorded(step)]), head);
      { ApplyAllAppend(before, log, [Recorded(step)]); }
      ApplyAll(now, head);
      PersistAll(now, steps);
      { PersistAllAppend(before, [step], steps); }
      PersistAll(before, [step] + steps);
    }
  }

  lemma LogAfter(t: RunTrace, head: seq<Event>, tail: seq<Event>, log: seq<Event>, step: StepRecord)
    requires t.log == head + tail
    ensures t.After(log, step).log == (log + [Recorded(step)] + head) + tail
  {
  }

  lemma AlignedAfter(
    now: Store, before: Store, whole: RunTrace, resumed: RunTrace, head: seq<Event>, replays: seq<Event>, tail: seq<Event>, m: nat,
    log: seq<Event>, step: StepRecord, replay: StepRecord)
    requires Aligned(now, whole, resumed, head, replays, tail, m)
    requires now == Persist(ApplyAll(before, log), step) == Persist(before, step)
    requires Records(log) == [] && SameStep(replay, step)
    ensures Aligned(before, whole.After(log, step), resumed.After([], replay),
                    log + [Recorded(step)] + head, [Recorded(replay)] + replays, tail, m + 1)
  {
    var w, r := whole.After(log, step), resumed.After([], replay);
    assert w.steps[..m + 1] == [step] + whole.steps[..m];
    HeadAfter(now, before, log, step, head, whole.steps[..m]);
    assert Records(log + [Recorded(step)] + head) == [step] + whole.steps[..m] by {
      RecordsSnoc(log, step);
      RecordsAppend(log + [Recorded(step)], head);
    }
    LogAfter(whole, head, tail, log, step);
    LogAfter(resumed, replays, tail, [], replay);
    assert [] + [Recorded(replay)] + replays == [Recorded(replay)] + replays;
    SameStepsCons(whole.steps, resumed.steps, step, replay);
    ReplaysCons(replays, resumed.steps, m, replay);
  }

  lemma AlignedSelf(now: Store, t: RunTrace)
    requires t.ending.Returned? ==> t.steps != []
    ensures Aligned(now, t, t, [], [], t.log, 0)
  {
    assert [] + t.log == t.log;
    assert t.steps[..0] == [];
  }

  /** The last step, replayed. */
  lemma AlignedFinish(cfg: Config, now: Store, n: nat, primaryText: string, review: ReviewState, revisionText: Option<string>)
    ensures var t := FinishOn(cfg, n, primaryText, review, revisionText); Aligned(now, t, t, t.log, t.log, [], 1)
  {
    var t := FinishOn(cfg, n, primaryText, review, revisionText);
    assert t.log + [] == t.log;
    RecordsSnoc([], Consolidated(n));
    assert [] + [Recorded(Consolidated(n))] == [Recorded(Consolidated(n))];
    assert t.steps[..1] == t.steps;
  }

  // ---------- The durable store after n recorded steps ----------

  /** Numbered steps persisted over a fresh store: each is remembered, and nothing else. */
  lemma {:induction false} PersistedStepsAreRemembered(steps: seq<StepRecord>)
    requires forall i :: 0 <= i < |steps| ==> steps[i].stepNumber == i + 1
    ensures var store := PersistAll(FRESH, steps);
      && !store.dispatching
      && (forall i :: 0 <= i < |steps| ==> Remembers(store, steps[i]))
      && (forall n :: n in store.rows ==> 1 <= n <= |steps|) && (forall n :: n in store.checkpoints ==> 1 <= n <= |steps|)
    decreases |steps|
  {
    if steps != [] {
      var init, last := steps[..|steps| - 1], steps[|steps| - 1];
      assert steps == init + [last];
      PersistedStepsAreRemembered(init);
      PersistAllAppend(FRESH, init, [last]);
      var before := PersistAll(FRESH, init);
      assert PersistAll(before, [last]) == Persist(before, last);
      forall i | 0 <= i < |steps| ensures Remembers(PersistAll(FRESH, steps), steps[i]) {
        if i < |init| {
          assert Remembers(before, init[i]) && init[i] == steps[i];
        }
      }
    }
  }

  /** Fetching a reply changes nothing durable but the dispatching flag. */
  lemma DispatchKeepsRecords(cfg: Config, agent: Agent, n: nat, script: StepScript, store: Store)
    ensures var now := ApplyAll(store, Dispatch(cfg, agent, n, script, store).log);
      now == store || now == store.(dispatching := true)
  {
    var c := CallFrom(cfg, agent, n, 0, script.call, 0);
    CallKeepsStore(cfg, agent, n, 0, script.call, 0, store);
    CallKeepsStore(cfg, agent, n, 0, script.call, 0, store.(dispatching := true));
    ApplyAllAppend(store, [Intent(n)], c.log);
    assert ApplyAll(store, [Intent(n)]) == store.(dispatching := true);
    assert [] + c.log == c.log;
  }

  lemma FetchReviewKeepsRecords(cfg: Config, reviewer: Agent, n: nat, script: StepScript, store: Store)
    ensures var now := ApplyAll(store, FetchReview(cfg, reviewer, n, script, store).log);
      now == store || now == store.(dispatching := true)
  {
    DispatchKeepsRecords(cfg, reviewer, n, script, store);
    var f := Dispatch(cfg, reviewer, n, script, store);
    if f.got.Obtained? {
      var roomier := reviewer.(maxOutputTokens := ReviewRetryOutputTokens(reviewer.maxOutputTokens));
      CallKeepsStore(cfg, roomier, n, 1, script.retry, 0, ApplyAll(store, f.log));
      ApplyAllAppend(store, f.log, CallFrom(cfg, roomier, n, 1, script.retry, 0).log);
    }
  }

  /** Persisting a provider step over a store that does not know it closes its dispatch, whether or not one was open. */
  lemma PersistForgetsIntent(store: Store, now: Store, step: StepRecord)
    requires now == store || now == store.(dispatching := true)
    requires !store.dispatching && step.stepNumber !in store.rows && (step.response.Some? || !step.succeeded)
    ensures Persist(now, step) == Persist(store, step)
  {
  }

  // ---------- Resume refines the uninterrupted run ----------

  /** The later answers of the resumed attempt are the ones the uninterrupted run gets. */
  ghost predicate AgreesAfter(s: Script, s': Script, n: nat) {
    && (n < 1 ==> s.primary == s'.primary)
    && (n < 2 ==> s.review == s'.review)
    && (n < 3 ==> s.revision == s'.revision)
  }

  /** The last step, with j = 0 or 1 of it already recorded. */
  lemma ResumeFinish(cfg: Config, now: Store, n: nat, primaryText: string, review: ReviewState, revisionText: Option<string>, m: nat)
    returns (head: seq<Event>, replays: seq<Event>, tail: seq<Event>)
    requires m <= 1
    ensures var t := FinishOn(cfg, n, primaryText, review, revisionText); Aligned(now, t, t, head, replays, tail, m)
  {
    var t := FinishOn(cfg, n, primaryText, review, revisionText);
    if m == 0 {
      AlignedSelf(now, t);
      return [], [], t.log;
    } else {
      AlignedFinish(cfg, now, n, primaryText, review, revisionText);
      return t.log, t.log, [];
    }
  }

  /** The rest of the run after the review, with m of its steps already recorded in `stored`. */
  lemma ResumeRevision(cfg: Config, script: StepScript, script': StepScript, now: Store, stored: Store, primaryText: string, review: ReviewState, m: nat)
    returns (head: seq<Event>, replays: seq<Event>, tail: seq<Event>)
    requires cfg.hooked
    requires m <= |RevisionOn(cfg, script, now, primaryText, review).steps|
    requires m == 0 ==> stored == now && script' == script
    requires m > 0 ==> Remembers(stored, RevisionOn(cfg, script, now, primaryText, review).steps[0])
    requires !now.dispatching && 3 !in now.rows
    ensures Aligned(now, RevisionOn(cfg, script, now, primaryText, review), RevisionOn(cfg, script', stored, primaryText, review),
                    head, replays, tail, m)
  {
    var whole := RevisionOn(cfg, script, now, primaryText, review);
    if m == 0 {
      AlignedSelf(now, whole);
      return [], [], whole.log;
    }
    if review.verdict == Some(Revise) && review.text.Some? {
      var f := FetchRevision(cfg, 3, script, now);
      var (step, text) := SettleRevision(cfg, 3, f.got);
      var rest := FinishOn(cfg, 4, primaryText, review, text);
      assert whole == rest.After(f.log, step);
      DispatchRecordsNothing(cfg, cfg.primary, 3, script, now);
      RevisionReplays(cfg, script', stored, f.got);
      var step' := SettleRevision(cfg, 3, FetchRevision(cfg, 3, script', stored).got).0;
      assert RevisionOn(cfg, script', stored, primaryText, review) == rest.After([], step');
      DispatchKeepsRecords(cfg, cfg.primary, 3, script, now);
      PersistForgetsIntent(now, ApplyAll(now, f.log), step);
      head, replays, tail := ResumeFinish(cfg, Persist(now, step), 4, primaryText, review, text, m - 1);
      AlignedAfter(Persist(now, step), now, rest, rest, head, replays, tail, m - 1, f.log, step, step');
      head, replays := f.log + [Recorded(step)] + head, [Recorded(step')] + replays;
    } else {
      head, replays, tail := ResumeFinish(cfg, now, 3, primaryText, review, None, m);
    }
  }

  lemma BilledRetryIsUnusable(cfg: Config, reviewer: Agent, n: nat, script: StepScript, store: Store)
    ensures var got := FetchReview(cfg, reviewer, n, script, store).got;
      got.Failed? && got.billed.Some? ==> Unusable(cfg.reader, got.billed.value)
  {
  }

  /** The store holds the first m of these steps, persisted over `now`. */
  ghost predicate StoredUpTo(now: Store, stored: Store, steps: seq<StepRecord>, m: nat) {
    && m <= |steps| && stored == PersistAll(now, steps[..m])
    && (forall i :: 0 <= i < m ==> Remembers(stored, steps[i]))
  }

  /** The rest of the run after the primary, with m of its steps already recorded in `stored`. */
  lemma ResumeReview(cfg: Config, s: Script, s': Script, now: Store, stored: Store, primaryText: string, m: nat)
    returns (head: seq<Event>, replays: seq<Event>, tail: seq<Event>)
    requires cfg.hooked && AgreesAfter(s, s', m + 1) && Faithful(cfg, stored)
    requires !now.dispatching && 2 !in now.rows && 3 !in now.rows
    requires StoredUpTo(now, stored, ReviewOn(cfg, s, now, primaryText).steps, m)
    ensures Aligned(now, ReviewOn(cfg, s, now, primaryText), ReviewOn(cfg, s', stored, primaryText), head, replays, tail, m)
  {
    hide RevisionOn;
    var whole := ReviewOn(cfg, s, now, primaryText);
    if m == 0 {
      AlignedSelf(now, whole);
      return [], [], whole.log;
    }
    match cfg.reviewer {
      case None =>
        head, replays, tail := ResumeFinish(cfg, now, 2, primaryText, NO_REVIEW, None, m);
      case Some(reviewer) =>
        var step, review, now2, rest := AfterReview(cfg, reviewer, s, now, primaryText);
        var f := FetchReview(cfg, reviewer, 2, s.review, now);
        assert whole.steps == [step] + rest.steps && Remembers(stored, whole.steps[0]);
        ReviewReplays(cfg, reviewer, s'.review, stored, f.got, primaryText);
        var step' := SettleReview(cfg, reviewer, 2, FetchReview(cfg, reviewer, 2, s'.review, stored).got, primaryText).0;
        var resumed := RevisionOn(cfg, s'.revision, stored, primaryText, review);
        assert ReviewOn(cfg, s', stored, primaryText) == resumed.After([], step');
        if m == 1 {
          assert whole.steps[..1] == [step];
          RecordOne(now, step);
        } else {
          assert whole.steps[1] == rest.steps[0];
        }
        head, replays, tail := ResumeRevision(cfg, s.revision, s'.revision, now2, stored, primaryText, review, m - 1);
        AlignedAfter(now2, now, rest, resumed, head, replays, tail, m - 1, f.log, step, step');
        head, replays := f.log + [Recorded(step)] + head, [Recorded(step')] + replays;
    }
  }

  /** The rest of the run, seen after its recorded review. */
  lemma AfterReview(cfg: Config, reviewer: Agent, s: Script, now: Store, primaryText: string)
    returns (step: StepRecord, review: ReviewState, now2: Store, rest: RunTrace)
    requires cfg.reviewer == Some(reviewer) && !now.dispatching && 2 !in now.rows && 3 !in now.rows
    requires ReviewOn(cfg, s, now, primaryText).steps != []
    ensures var f := FetchReview(cfg, reviewer, 2, s.review, now);
      && !f.got.Stopped? && Records(f.log) == []
      && (f.got.Failed? && f.got.billed.Some? ==> Unusable(cfg.reader, f.got.billed.value))
      && (step, review) == SettleReview(cfg, reviewer, 2, f.got, primaryText)
      && now2 == Persist(ApplyAll(now, f.log), step) && now2 == Persist(now, step) && !now2.dispatching && 3 !in now2.rows
      && rest == RevisionOn(cfg, s.revision, now2, primaryText, review)
      && ReviewOn(cfg, s, now, primaryText) == rest.After(f.log, step)
  {
    var f := FetchReview(cfg, reviewer, 2, s.review, now);
    var settled := SettleReview(cfg, reviewer, 2, f.got, primaryText);
    step, review := settled.0, settled.1;
    now2 := Persist(ApplyAll(now, f.log), step);
    rest := RevisionOn(cfg, s.revision, now2, primaryText, review);
    FetchReviewRecordsNothing(cfg, reviewer, 2, s.review, now);
    FetchReviewKeepsRecords(cfg, reviewer, 2, s.review, now);
    PersistForgetsIntent(now, ApplyAll(now, f.log), step);
  }

  /**
   * Resume refines the uninterrupted run. Take the uninterrupted run of a script, crash after its n-th recorded step,
   * and resume over the store those steps left, with the same answers for the later steps. The resumed run replays the
   * n steps and nothing else happens for them; then it logs exactly what the uninterrupted run logged after its n-th
   * record; it records the same steps and returns, or stops on, the same thing.
   */
  lemma ResumeRefinesRun(cfg: Config, s: Script, s': Script, n: nat)
    returns (head: seq<Event>, replays: seq<Event>, tail: seq<Event>)
    requires cfg.hooked && n <= |Run(cfg, s, FRESH).steps| && AgreesAfter(s, s', n)
    requires Faithful(cfg, PersistAll(FRESH, Run(cfg, s, FRESH).steps[..n]))
    ensures Aligned(FRESH, Run(cfg, s, FRESH), Run(cfg, s', PersistAll(FRESH, Run(cfg, s, FRESH).steps[..n])), head, replays, tail, n)
  {
    var whole := Run(cfg, s, FRESH);
    var stored := PersistAll(FRESH, whole.steps[..n]);
    EveryRunHasShape(cfg, s, FRESH);
    if n == 0 {
      assert whole.steps[..0] == [];
      AlignedSelf(FRESH, whole);
      return [], [], whole.log;
    }
    RememberedPrefix(cfg, s, n);
    var r, step, now, rest := AfterPrimary(cfg, s);
    assert step == whole.steps[0];
    var f := FetchPrimary(cfg, s.primary, FRESH);
    PrimaryReplays(cfg, s'.primary, stored, r);
    var step' := Succeeded(1, Primary, cfg.primary.agentId, FromCheckpoint(ToCheckpoint(r)));
    var resumed := ReviewOn(cfg, s', stored, r.text);
    assert Run(cfg, s', stored) == resumed.After([], step');
    RestIsStored(now, stored, step, whole.steps, rest.steps, n);
    head, replays, tail := ResumeReview(cfg, s, s', now, stored, r.text, n - 1);
    AlignedAfter(now, FRESH, rest, resumed, head, replays, tail, n - 1, f.log, step, step');
    head, replays := f.log + [Recorded(step)] + head, [Recorded(step')] + replays;
  }

  /** The uninterrupted run, seen after its recorded and successful primary. */
  lemma AfterPrimary(cfg: Config, s: Script) returns (r: AgentResponse, step: StepRecord, now: Store, rest: RunTrace)
    requires Run(cfg, s, FRESH).steps != [] && Run(cfg, s, FRESH).steps[0].succeeded
    ensures var f := FetchPrimary(cfg, s.primary, FRESH);
      && f.got == Obtained(r) && step == Succeeded(1, Primary, cfg.primary.agentId, r)
      && Records(f.log) == []
      && now == Persist(ApplyAll(FRESH, f.log), step) == Persist(FRESH, step)
      && rest == ReviewOn(cfg, s, now, r.text) && Run(cfg, s, FRESH) == rest.After(f.log, step)
  {
    var f := FetchPrimary(cfg, s.primary, FRESH);
    r := f.got.response;
    step := Succeeded(1, Primary, cfg.primary.agentId, r);
    now := Persist(ApplyAll(FRESH, f.log), step);
    rest := ReviewOn(cfg, s, now, r.text);
    DispatchRecordsNothing(cfg, cfg.primary, 1, s.primary, FRESH);
    DispatchKeepsRecords(cfg, cfg.primary, 1, s.primary, FRESH);
    PersistForgetsIntent(FRESH, ApplyAll(FRESH, f.log), step);
  }

  lemma RememberedPrefix(cfg: Config, s: Script, n: nat)
    requires n <= |Run(cfg, s, FRESH).steps|
    ensures var steps := Run(cfg, s, FRESH).steps;
      var stored := PersistAll(FRESH, steps[..n]);
      !stored.dispatching && forall i :: 0 <= i < n ==> Remembers(stored, steps[i]) && steps[i].stepNumber == i + 1
  {
    var steps := Run(cfg, s, FRESH).steps;
    EveryRunHasShape(cfg, s, FRESH);
    PersistedStepsAreRemembered(steps[..n]);
    forall i | 0 <= i < n ensures Remembers(PersistAll(FRESH, steps[..n]), steps[i]) {
      assert steps[..n][i] == steps[i];
    }
  }

  lemma RestIsStored(now: Store, stored: Store, step: StepRecord, steps: seq<StepRecord>, rest: seq<StepRecord>, n: nat)
    requires 0 < n <= |steps| && steps == [step] + rest && now == Persist(FRESH, step)
    requires stored == PersistAll(FRESH, steps[..n]) && forall i :: 0 <= i < n ==> Remembers(stored, steps[i])
    ensures StoredUpTo(now, stored, rest, n - 1)
  {
    assert steps[..n] == [step] + rest[..n - 1];
    PersistAllAppend(FRESH, [step], rest[..n - 1]);
    assert PersistAll(FRESH, [step]) == now;
    assert forall i :: 0 <= i < n - 1 ==> rest[i] == steps[i + 1];
  }

  /**
   * Exactly when: the resumed run continues the uninterrupted one if and only if the store holds neither a failed
   * primary, which is dispatched again although its failure was conclusive, nor a failed review whose kept reply is a
   * hidden cut-off, which replays as a malformed `reject` instead.
   */
  lemma ResumeIsFaithfulExactly(cfg: Config, s: Script, s': Script, n: nat)
    requires cfg.hooked && n <= |Run(cfg, s, FRESH).steps| && AgreesAfter(s, s', n)
    ensures var whole := Run(cfg, s, FRESH);
      var stored := PersistAll(FRESH, whole.steps[..n]);
      (exists head, replays, tail :: Aligned(FRESH, whole, Run(cfg, s', stored), head, replays, tail, n)) <==> Faithful(cfg, stored)
  {
    var whole := Run(cfg, s, FRESH);
    var stored := PersistAll(FRESH, whole.steps[..n]);
    if Faithful(cfg, stored) {
      var head, replays, tail := ResumeRefinesRun(cfg, s, s', n);
    } else {
      EveryRunHasShape(cfg, s, FRESH);
      PersistedStepsAreRemembered(whole.steps[..n]);
      var resumed := Run(cfg, s', stored);
      if n > 0 {
        assert whole.steps[..n][0] == whole.steps[0] && Remembers(stored, whole.steps[..n][0]);
        if whole.steps[0].succeeded {
          UnfaithfulReview(cfg, s, s', n);
        } else {
          DispatchStartsWithIntent(cfg, cfg.primary, 1, s'.primary, stored);
        }
      }
      forall head, replays, tail ensures !Aligned(FRESH, whole, resumed, head, replays, tail, n) {
        AlignedStartsWithRecord(whole, resumed, head, replays, tail, n);
      }
    }
  }

  lemma AlignedStartsWithRecord(whole: RunTrace, resumed: RunTrace, head: seq<Event>, replays: seq<Event>, tail: seq<Event>, m: nat)
    ensures Aligned(FRESH, whole, resumed, head, replays, tail, m) && m > 0 ==> resumed.log != [] && resumed.log[0].Recorded?
  {
  }

  lemma DispatchStartsWithIntent(cfg: Config, agent: Agent, n: nat, script: StepScript, store: Store)
    requires cfg.hooked
    ensures var f := Dispatch(cfg, agent, n, script, store);
      (f.log == [] && f.got.Stopped?) || (f.log != [] && f.log[0] == Intent(n))
  {
  }

  lemma UnfaithfulReview(cfg: Config, s: Script, s': Script, n: nat)
    requires cfg.hooked && 0 < n <= |Run(cfg, s, FRESH).steps| && Run(cfg, s, FRESH).steps[0].succeeded
    requires !Faithful(cfg, PersistAll(FRESH, Run(cfg, s, FRESH).steps[..n]))
    ensures var whole := Run(cfg, s, FRESH);
      var resumed := Run(cfg, s', PersistAll(FRESH, whole.steps[..n]));
      |whole.steps| > 1 && !(|resumed.steps| > 1 && SameStep(resumed.steps[1], whole.steps[1]))
  {
    hide RevisionOn;
    var whole := Run(cfg, s, FRESH);
    var stored := PersistAll(FRESH, whole.steps[..n]);
    EveryRunHasShape(cfg, s, FRESH);
    PersistedStepsAreRemembered(whole.steps[..n]);
    assert forall i :: 0 <= i < n ==> whole.steps[..n][i] == whole.steps[i] && Remembers(stored, whole.steps[..n][i]);
    var f := FetchPrimary(cfg, s.primary, FRESH);
    var r := f.got.response;
    var now := Persist(ApplyAll(FRESH, f.log), Succeeded(1, Primary, cfg.primary.agentId, r));
    PrimaryReplays(cfg, s'.primary, stored, r);
    assert n > 1 && Remembers(stored, whole.steps[1]);
    assert cfg.reviewer.Some?;
    var reviewer := cfg.reviewer.value;
    var g := FetchReview(cfg, reviewer, 2, s.review, now);
    var (step, review) := SettleReview(cfg, reviewer, 2, g.got, r.text);
    assert whole.steps[1] == step;
    BilledRetryIsUnusable(cfg, reviewer, 2, s.review, now);
    ReviewReplays(cfg, reviewer, s'.review, stored, g.got, r.text);
    var step' := SettleReview(cfg, reviewer, 2, FetchReview(cfg, reviewer, 2, s'.review, stored).got, r.text).0;
    var rest := ReviewOn(cfg, s', stored, r.text);
    assert rest.steps[0] == step';
  }
}
