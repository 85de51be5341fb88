/**
 * Crashes anywhere. A history is any sequence of attempts, each with its own answers and each stopped after any number
 * of its durable or remote events; the next attempt starts over the store the events so far have left. Over every
 * history no request that may have executed is sent again, and no reply is lost from or added to the bill unless the
 * run is stuck for a human to reconcile.
 */
module EngineHistory {
  import opened Wrappers
  import opened Provider
  import opened ReviewParser
  import opened Engine
  import opened EngineSession

  datatype Attempt = Attempt(script: Script, events: nat)

  /** The events of an attempt before it crashed; all of them when it was not stopped. */
  function Happened(cfg: Config, store: Store, a: Attempt): seq<Event> {
    var log := Run(cfg, a.script, store).log;
    if a.events < |log| then log[..a.events] else log
  }

  /** The events of a whole history: every attempt starts over the store the earlier ones left. */
  function HistoryLog(cfg: Config, attempts: seq<Attempt>): seq<Event>
    decreases |attempts|, 0
  {
    if attempts == [] then []
    else
      var earlier := attempts[..|attempts| - 1];
      HistoryLog(cfg, earlier) + Happened(cfg, HistoryStore(cfg, earlier), attempts[|attempts| - 1])
  }

  function HistoryStore(cfg: Config, attempts: seq<Attempt>): Store
    decreases |attempts|, 1
  {
    ApplyAll(FRESH, HistoryLog(cfg, attempts))
  }

  /** One more attempt. */
  lemma HistoryAppend(cfg: Config, earlier: seq<Attempt>, last: Attempt)
    ensures var events := Happened(cfg, HistoryStore(cfg, earlier), last);
      && HistoryLog(cfg, earlier + [last]) == HistoryLog(cfg, earlier) + events
      && HistoryStore(cfg, earlier + [last]) == ApplyAll(HistoryStore(cfg, earlier), events)
  {
    assert (earlier + [last])[..|earlier|] == earlier;
    ApplyAllAppend(FRESH, HistoryLog(cfg, earlier), Happened(cfg, HistoryStore(cfg, earlier), last));
  }

  // ---------- What is claimed ----------

  ghost predicate ObservedNext(log: seq<Event>, i: nat) {
    && i + 1 < |log| && log[i].Dispatched? && log[i + 1].Observed?
    && log[i + 1].stepNumber == log[i].stepNumber && log[i + 1].call == log[i].call
    && log[i + 1].attempt == log[i].attempt && log[i + 1].agent == log[i].agent
  }

  /** The request at i was answered by a proof that it was not executed, with nothing shown. */
  ghost predicate Cleared(log: seq<Event>, i: nat) {
    ObservedNext(log, i) && ProvedNotExecuted(log[i].agent, log[i + 1].seen)
  }

  /** The request at i is the first call of the review, and its reply was unusable. */
  ghost predicate FirstUnusable(cfg: Config, log: seq<Event>, i: nat) {
    && ObservedNext(log, i) && log[i].stepNumber == 2 && log[i].call == 0
    && log[i + 1].seen.Replied? && Unusable(cfg.reader, log[i + 1].seen.response)
  }

  /** Two requests for one step: the earlier was proved not executed, or the later is the one review retry. */
  ghost predicate NeverRepeats(cfg: Config, log: seq<Event>) {
    forall i, j :: 0 <= i < j < |log| && log[i].Dispatched? && log[j].Dispatched? && log[i].stepNumber == log[j].stepNumber ==>
      Cleared(log, i) || (FirstUnusable(cfg, log, i) && log[j].call == 1)
  }

  /** The usage of every reply a provider call returned, on one meter. */
  function RepliesUsage(log: seq<Event>, meter: Meter): nat {
    if log == [] then 0
    else
      var last := log[|log| - 1];
      RepliesUsage(log[..|log| - 1], meter) + if last.Observed? && last.seen.Replied? then last.seen.response.usage.On(meter) else 0
  }

  function CheckpointUsage(store: Store, n: nat, meter: Meter): nat {
    if n in store.checkpoints then store.checkpoints[n].usage.On(meter) else 0
  }

  /** The bill: one usage event for each checkpoint of the steps up to k, where k covers the step budget. */
  function BilledTo(store: Store, k: nat, meter: Meter): nat {
    if k == 0 then 0 else BilledTo(store, k - 1, meter) + CheckpointUsage(store, k, meter)
  }

  // ---------- The protocol, event by event ----------

  /** Where the current attempt stands between two events; `held` is the usage of replies not yet recorded. */
  datatype Stage =
    | Idle
    | Open(n: nat, call: nat, held: TokenUsage)
    | Waiting(n: nat, call: nat, attempt: nat, agent: Agent, held: TokenUsage)
    | Answered(n: nat, held: TokenUsage)
    | Over

  datatype Machine = Machine(stage: Stage, store: Store)

  /** The store remembers an end of step n, so that step is replayed. */
  predicate Replayable(store: Store, n: nat) {
    n in store.checkpoints || (n > 1 && n in store.rows && !store.rows[n].succeeded)
  }

  function NextStage(cfg: Config, m: Machine, e: Event): Option<Stage> {
    match e
    case Intent(n) =>
      if m.stage.Idle? && !m.store.dispatching && !Replayable(m.store, n) && 1 <= n <= 3 then Some(Open(n, 0, NoUsage())) else None
    case Dispatched(n, call, attempt, agent) =>
      if m.stage.Open? && m.stage.n == n && m.stage.call == call then Some(Waiting(n, call, attempt, agent, m.stage.held)) else None
    case Observed(n, call, attempt, agent, seen) =>
      if m.stage.Waiting? && m.stage == Waiting(n, call, attempt, agent, m.stage.held) then
        if ProvedNotExecuted(agent, seen) then Some(Open(n, call, m.stage.held))
        else if seen.Replied? then
          var held := m.stage.held.Plus(seen.response.usage);
          if n == 2 && call == 0 && Unusable(cfg.reader, seen.response) then Some(Open(2, 1, held)) else Some(Answered(n, held))
        else Some(Over)
      else None
    case Recorded(record) =>
      if record.stepNumber in m.store.rows then
        if m.stage.Idle? || m.stage.Open? || m.stage.Answered? then Some(Idle) else None
      else
        match m.stage
        case Idle => if record == Consolidated(record.stepNumber) then Some(Idle) else None
        case Open(n, call, held) =>
          if record.stepNumber == n && !record.succeeded
             && (if call == 0 then record.response.None? else record.response.Some? && record.response.value.usage == held)
          then Some(Idle) else None
        case Answered(n, held) =>
          if record.stepNumber == n && record.response.Some? && record.response.value.usage == held then Some(Idle) else None
        case _ => None
  }

  function Walk(cfg: Config, m: Machine, log: seq<Event>): Option<Machine>
    decreases |log|
  {
    if log == [] then Some(m)
    else
      match NextStage(cfg, m, log[0])
      case None => None
      case Some(stage) => Walk(cfg, Machine(stage, Apply(m.store, log[0])), log[1..])
  }

  lemma {:induction false} WalkAppend(cfg: Config, m: Machine, a: seq<Event>, b: seq<Event>)
    ensures Walk(cfg, m, a + b) == (match Walk(cfg, m, a) case None => None case Some(m') => Walk(cfg, m', b))
    decreases |a|
  {
    if a == [] {
      assert a + b == b;
    } else {
      assert (a + b)[1..] == a[1..] + b;
      match NextStage(cfg, m, a[0]) {
        case None =>
        case Some(stage) => WalkAppend(cfg, Machine(stage, Apply(m.store, a[0])), a[1..], b);
      }
    }
  }

  lemma Walk1(cfg: Config, m: Machine, e: Event)
    ensures Walk(cfg, m, [e]) ==
      (match NextStage(cfg, m, e) case None => None case Some(stage) => Some(Machine(stage, Apply(m.store, e))))
  {
    assert [e][1..] == [];
  }

  // ---------- Every run follows the protocol ----------

  lemma {:induction false} CallWalks(cfg: Config, agent: Agent, n: nat, call: nat, ticks: nat -> Tick, attempt: nat, store: Store, held: TokenUsage)
    requires attempt <= MAX_RETRIES_PER_CALL
    ensures var c := CallFrom(cfg, agent, n, call, ticks, attempt);
      Walk(cfg, Machine(Open(n, call, held), store), c.log) == Some(Machine(
        match c.ending
        case Reply(r) =>
          if n == 2 && call == 0 && Unusable(cfg.reader, r) then Open(2, 1, held.Plus(r.usage)) else Answered(n, held.Plus(r.usage))
        case ProviderFault(_) => Open(n, call, held)
        case Escalated(_) => Over,
        store))
    decreases MAX_RETRIES_PER_CALL - attempt
  {
    hide Observe;
    var tick := ticks(attempt);
    if cfg.deadline - tick.nowBefore > 0 {
      var seen := Observe(cfg, agent, tick);
      var d, o := Dispatched(n, call, attempt, agent), Observed(n, call, attempt, agent, seen);
      var m := Machine(Open(n, call, held), store);
      var m1 := Machine(Waiting(n, call, attempt, agent, held), store);
      Walk1(cfg, m, d);
      Walk1(cfg, m1, o);
      WalkAppend(cfg, m, [d], [o]);
      assert [d] + [o] == [d, o];
      if ProvedNotExecuted(agent, seen) && attempt < MAX_RETRIES_PER_CALL {
        CallWalks(cfg, agent, n, call, ticks, attempt + 1, store, held);
        WalkAppend(cfg, m, [d, o], CallFrom(cfg, agent, n, call, ticks, attempt + 1).log);
      }
    }
  }

  /** After fetching a step from Idle: nothing happened, or its dispatch is open with what was got still to be recorded. */
  ghost predicate Fetched(m: Option<Machine>, n: nat, store: Store, got: Got) {
    && m.Some?
    && (m.value.store == store || m.value.store == store.(dispatching := true))
    && match got
       case Stopped(_) => true
       case Obtained(r) => m.value.stage == Answered(n, r.usage)
       case Failed(_, None) => m.value.stage == Open(n, 0, NoUsage())
       case Failed(_, Some(r)) => m.value.stage == Open(n, 1, r.usage)
  }

  lemma DispatchWalks(cfg: Config, agent: Agent, n: nat, script: StepScript, store: Store)
    requires cfg.hooked && 1 <= n <= 3 && !Replayable(store, n)
    ensures var f := Dispatch(cfg, agent, n, script, store);
      var m := Walk(cfg, Machine(Idle, store), f.log);
      if n == 2 && f.got.Obtained? && Unusable(cfg.reader, f.got.response) then
        m == Some(Machine(Open(2, 1, f.got.response.usage), store.(dispatching := true)))
      else Fetched(m, n, store, f.got)
  {
    if GuardDispatch(store, script.guard, n).None? {
      Walk1(cfg, Machine(Idle, store), Intent(n));
      CallWalks(cfg, agent, n, 0, script.call, 0, store.(dispatching := true), NoUsage());
      WalkAppend(cfg, Machine(Idle, store), [Intent(n)], CallFrom(cfg, agent, n, 0, script.call, 0).log);
    }
  }

  lemma FetchReviewWalks(cfg: Config, reviewer: Agent, script: StepScript, store: Store)
    requires cfg.hooked && !Replayable(store, 2)
    ensures var f := FetchReview(cfg, reviewer, 2, script, store);
      Fetched(Walk(cfg, Machine(Idle, store), f.log), 2, store, f.got)
  {
    DispatchWalks(cfg, reviewer, 2, script, store);
    var f := Dispatch(cfg, reviewer, 2, script, store);
    if f.got.Obtained? && Unusable(cfg.reader, f.got.response) {
      var roomier := reviewer.(maxOutputTokens := ReviewRetryOutputTokens(reviewer.maxOutputTokens));
      CallWalks(cfg, roomier, 2, 1, script.retry, 0, store.(dispatching := true), f.got.response.usage);
      WalkAppend(cfg, Machine(Idle, store), f.log, CallFrom(cfg, roomier, 2, 1, script.retry, 0).log);
    }
  }

  ghost predicate Keyed(store: Store) {
    store.checkpoints.Keys <= store.rows.Keys
  }

  /** Recording what a step got brings the attempt back to Idle. */
  lemma RecordWalks(cfg: Config, m: Machine, record: StepRecord)
    requires Keyed(m.store)
    requires NextStage(cfg, m, Recorded(record)) == Some(Idle)
    ensures Walk(cfg, m, [Recorded(record)]) == Some(Machine(Idle, Persist(m.store, record))) && Keyed(Persist(m.store, record))
  {
    Walk1(cfg, m, Recorded(record));
  }

  ghost predicate Walks(cfg: Config, store: Store, log: seq<Event>) {
    Walk(cfg, Machine(Idle, store), log).Some?
  }

  lemma FinishWalks(cfg: Config, n: nat, store: Store)
    requires Keyed(store)
    ensures Walks(cfg, store, [Recorded(Consolidated(n))])
  {
    RecordWalks(cfg, Machine(Idle, store), Consolidated(n));
  }

  /** One step of a run, fetched and recorded, and then the rest. */
  lemma StepWalks(cfg: Config, store: Store, log: seq<Event>, record: StepRecord, rest: seq<Event>)
    requires Keyed(store)
    requires var m := Walk(cfg, Machine(Idle, store), log);
      && m.Some? && (m.value.store == store || m.value.store == store.(dispatching := true))
      && NextStage(cfg, m.value, Recorded(record)) == Some(Idle)
    requires Keyed(Persist(ApplyAll(store, log), record)) ==> Walks(cfg, Persist(ApplyAll(store, log), record), rest)
    ensures Walks(cfg, store, log + [Recorded(record)] + rest)
  {
    var m := Walk(cfg, Machine(Idle, store), log).value;
    WalkStore(cfg, Machine(Idle, store), log);
    RecordWalks(cfg, m, record);
    WalkAppend(cfg, Machine(Idle, store), log, [Recorded(record)]);
    WalkAppend(cfg, Machine(Idle, store), log + [Recorded(record)], rest);
  }

  lemma {:induction false} WalkStore(cfg: Config, m: Machine, log: seq<Event>)
    requires Walk(cfg, m, log).Some?
    ensures Walk(cfg, m, log).value.store == ApplyAll(m.store, log)
    decreases |log|
  {
    if log != [] {
      WalkStore(cfg, Machine(NextStage(cfg, m, log[0]).value, Apply(m.store, log[0])), log[1..]);
    }
  }

  lemma RevisionOnWalks(cfg: Config, script: StepScript, store: Store, primaryText: string, review: ReviewState)
    requires cfg.hooked && Keyed(store)
    ensures Walks(cfg, store, RevisionOn(cfg, script, store, primaryText, review).log)
  {
    if review.verdict == Some(Revise) && review.text.Some? {
      var f := FetchRevision(cfg, 3, script, store);
      if !Replayable(store, 3) {
        DispatchWalks(cfg, cfg.primary, 3, script, store);
      }
      if !f.got.Stopped? {
        var (record, text) := SettleRevision(cfg, 3, f.got);
        var now := Persist(ApplyAll(store, f.log), record);
        if Keyed(now) {
          FinishWalks(cfg, 4, now);
        }
        StepWalks(cfg, store, f.log, record, FinishOn(cfg, 4, primaryText, review, text).log);
      }
    } else {
      FinishWalks(cfg, 3, store);
    }
  }

  lemma ReviewOnWalks(cfg: Config, s: Script, store: Store, primaryText: string)
    requires cfg.hooked && Keyed(store)
    ensures Walks(cfg, store, ReviewOn(cfg, s, store, primaryText).log)
  {
    hide RevisionOn, ApplyAll;
    match cfg.reviewer {
      case None => FinishWalks(cfg, 2, store);
      case Some(reviewer) =>
        var f := FetchReview(cfg, reviewer, 2, s.review, store);
        if !Replayable(store, 2) {
          FetchReviewWalks(cfg, reviewer, s.review, store);
        }
        if !f.got.Stopped? {
          var (record, review) := SettleReview(cfg, reviewer, 2, f.got, primaryText);
          var now := Persist(ApplyAll(store, f.log), record);
          var rest := RevisionOn(cfg, s.revision, now, primaryText, review);
          if Keyed(now) {
            RevisionOnWalks(cfg, s.revision, now, primaryText, review);
          }
          StepWalks(cfg, store, f.log, record, rest.log);
        }
    }
  }

  lemma RunWalks(cfg: Config, s: Script, store: Store)
    requires cfg.hooked && Keyed(store)
    ensures Walks(cfg, store, Run(cfg, s, store).log)
  {
    var f := FetchPrimary(cfg, s.primary, store);
    if !Replayable(store, 1) {
      DispatchWalks(cfg, cfg.primary, 1, s.primary, store);
    }
    match f.got {
      case Stopped(_) =>
      case Failed(message, _) =>
        var record := FailedStep(1, Primary, cfg.primary.agentId, None, message);
        StepWalks(cfg, store, f.log, record, []);
        assert f.log + [Recorded(record)] + [] == f.log + [Recorded(record)];
      case Obtained(r) =>
        var record := Succeeded(1, Primary, cfg.primary.agentId, r);
        var now := Persist(ApplyAll(store, f.log), record);
        if Keyed(now) {
          ReviewOnWalks(cfg, s, now, r.text);
        }
        StepWalks(cfg, store, f.log, record, ReviewOn(cfg, s, now, r.text).log);
    }
  }

  // ---------- What the protocol keeps ----------

  /** Every request for a step other than n (-1 for none) is either checkpointed or proved not executed. */
  ghost predicate Settled(log: seq<Event>, store: Store, n: int) {
    forall i :: 0 <= i < |log| && log[i].Dispatched? && log[i].stepNumber != n ==>
      log[i].stepNumber in store.checkpoints || Cleared(log, i)
  }

  /** Every request for step n so far is proved not executed, or is the unusable first review before call `call` = 1. */
  ghost predicate Retryable(cfg: Config, log: seq<Event>, n: nat, call: nat, before: nat) {
    forall i :: 0 <= i < before <= |log| && log[i].Dispatched? && log[i].stepNumber == n ==>
      Cleared(log, i) || (call == 1 && FirstUnusable(cfg, log, i))
  }

  ghost predicate Safety(cfg: Config, log: seq<Event>, m: Machine) {
    && NeverRepeats(cfg, log)
    && Keyed(m.store)
    && match m.stage
       case Idle => !m.store.dispatching ==> Settled(log, m.store, -1)
       case Open(n, call, _) =>
         m.store.dispatching && n !in m.store.checkpoints && n > 0 && Settled(log, m.store, n) && Retryable(cfg, log, n, call, |log|)
       case Waiting(n, call, attempt, agent, _) =>
         && m.store.dispatching && n !in m.store.checkpoints && n > 0
         && log != [] && log[|log| - 1] == Dispatched(n, call, attempt, agent)
         && Settled(log, m.store, n) && Retryable(cfg, log, n, call, |log| - 1)
       case Answered(n, _) => m.store.dispatching && n !in m.store.checkpoints && n > 0 && Settled(log, m.store, n)
       case Over => m.store.dispatching
  }

  /** The bill and the replies held in memory make up the replies so far, unless a dispatch was left unresolved. */
  ghost predicate Billing(k: nat, meter: Meter, log: seq<Event>, m: Machine) {
    && Keyed(m.store)
    && match m.stage
       case Idle => !m.store.dispatching ==> BilledTo(m.store, k, meter) == RepliesUsage(log, meter)
       case Open(n, call, held) =>
         && m.store.dispatching && 1 <= n <= 3 && (call == 0 ==> held == NoUsage())
         && BilledTo(m.store, k, meter) + held.On(meter) == RepliesUsage(log, meter)
       case Waiting(n, call, _, _, held) =>
         && m.store.dispatching && 1 <= n <= 3 && (call == 0 ==> held == NoUsage())
         && BilledTo(m.store, k, meter) + held.On(meter) == RepliesUsage(log, meter)
       case Answered(n, held) => m.store.dispatching && 1 <= n <= 3 && BilledTo(m.store, k, meter) + held.On(meter) == RepliesUsage(log, meter)
       case Over => m.store.dispatching
  }

  lemma RepliesSnoc(log: seq<Event>, e: Event, meter: Meter)
    ensures RepliesUsage(log + [e], meter) ==
      RepliesUsage(log, meter) + if e.Observed? && e.seen.Replied? then e.seen.response.usage.On(meter) else 0
  {
    assert (log + [e])[..|log|] == log;
  }

  /** What has been observed stays observed. */
  lemma ClearedStays(cfg: Config, log: seq<Event>, e: Event)
    ensures forall i :: 0 <= i < |log| && Cleared(log, i) ==> Cleared(log + [e], i)
    ensures forall i :: 0 <= i < |log| && FirstUnusable(cfg, log, i) ==> FirstUnusable(cfg, log + [e], i)
  {
  }

  lemma SettledStays(cfg: Config, log: seq<Event>, store: Store, n: int, e: Event)
    requires Settled(log, store, n) && (e.Dispatched? ==> e.stepNumber == n)
    ensures Settled(log + [e], store, n)
  {
    ClearedStays(cfg, log, e);
  }

  lemma RetryableStays(cfg: Config, log: seq<Event>, n: nat, call: nat, before: nat, e: Event)
    requires Retryable(cfg, log, n, call, before) && before <= |log|
    ensures Retryable(cfg, log + [e], n, call, before)
  {
    ClearedStays(cfg, log, e);
  }

  lemma NeverRepeatsStays(cfg: Config, log: seq<Event>, e: Event)
    requires NeverRepeats(cfg, log)
    requires e.Dispatched? ==> Retryable(cfg, log, e.stepNumber, e.call, |log|)
    ensures NeverRepeats(cfg, log + [e])
  {
    ClearedStays(cfg, log, e);
    var all := log + [e];
    forall i, j | 0 <= i < j < |all| && all[i].Dispatched? && all[j].Dispatched? && all[i].stepNumber == all[j].stepNumber
      ensures Cleared(all, i) || (FirstUnusable(cfg, all, i) && all[j].call == 1)
    {
      assert all[i] == log[i];
      if j < |log| {
        assert all[j] == log[j];
      }
    }
  }

  lemma IntentKeepsSafety(cfg: Config, log: seq<Event>, m: Machine, n: nat)
    requires Safety(cfg, log, m) && NextStage(cfg, m, Intent(n)).Some?
    ensures Safety(cfg, log + [Intent(n)], Machine(Open(n, 0, NoUsage()), m.store.(dispatching := true)))
  {
    var e := Intent(n);
    NeverRepeatsStays(cfg, log, e);
    SettledStays(cfg, log, m.store, -1, e);
    assert Retryable(cfg, log, n, 0, |log|);
    RetryableStays(cfg, log, n, 0, |log|, e);
  }

  lemma DispatchedKeepsSafety(cfg: Config, log: seq<Event>, m: Machine, e: Event)
    requires Safety(cfg, log, m) && NextStage(cfg, m, e).Some? && e.Dispatched?
    ensures Safety(cfg, log + [e], Machine(NextStage(cfg, m, e).value, m.store))
  {
    NeverRepeatsStays(cfg, log, e);
    SettledStays(cfg, log, m.store, e.stepNumber, e);
    RetryableStays(cfg, log, e.stepNumber, e.call, |log|, e);
  }

  lemma ObservedKeepsSafety(cfg: Config, log: seq<Event>, m: Machine, e: Event)
    requires Safety(cfg, log, m) && NextStage(cfg, m, e).Some? && e.Observed?
    ensures Safety(cfg, log + [e], Machine(NextStage(cfg, m, e).value, m.store))
  {
    var all := log + [e];
    var n, call := e.stepNumber, e.call;
    NeverRepeatsStays(cfg, log, e);
    SettledStays(cfg, log, m.store, n, e);
    RetryableStays(cfg, log, n, call, |log| - 1, e);
    assert ObservedNext(all, |log| - 1);
    assert all[|log|] == e;
  }

  lemma RecordedKeepsSafety(cfg: Config, log: seq<Event>, m: Machine, record: StepRecord)
    requires Safety(cfg, log, m) && NextStage(cfg, m, Recorded(record)).Some?
    ensures Safety(cfg, log + [Recorded(record)], Machine(Idle, Persist(m.store, record)))
  {
    var e := Recorded(record);
    NeverRepeatsStays(cfg, log, e);
    if !Persist(m.store, record).dispatching {
      var n := if m.stage.Open? || m.stage.Answered? then m.stage.n else -1;
      SettledStays(cfg, log, m.store, n, e);
      if m.stage.Open? {
        RetryableStays(cfg, log, n, m.stage.call, |log|, e);
      }
    }
  }

  lemma StepKeepsSafety(cfg: Config, log: seq<Event>, m: Machine, e: Event)
    requires Safety(cfg, log, m) && NextStage(cfg, m, e).Some?
    ensures Safety(cfg, log + [e], Machine(NextStage(cfg, m, e).value, Apply(m.store, e)))
  {
    match e {
      case Intent(n) => IntentKeepsSafety(cfg, log, m, n);
      case Dispatched(_, _, _, _) => DispatchedKeepsSafety(cfg, log, m, e);
      case Observed(_, _, _, _, _) => ObservedKeepsSafety(cfg, log, m, e);
      case Recorded(record) => RecordedKeepsSafety(cfg, log, m, record);
    }
  }

  lemma {:induction false} BilledToAfter(store: Store, record: StepRecord, k: nat, meter: Meter)
    requires 1 <= record.stepNumber && record.stepNumber !in store.rows && record.stepNumber !in store.checkpoints
    ensures BilledTo(Persist(store, record), k, meter) ==
      BilledTo(store, k, meter) + if record.stepNumber <= k && record.response.Some? then record.response.value.usage.On(meter) else 0
  {
    if k > 0 {
      BilledToAfter(store, record, k - 1, meter);
    }
  }

  lemma {:induction false} NothingBilled(k: nat, meter: Meter)
    ensures BilledTo(FRESH, k, meter) == 0
  {
    if k > 0 {
      NothingBilled(k - 1, meter);
    }
  }

  lemma {:induction false} BilledSame(a: Store, b: Store, k: nat, meter: Meter)
    requires a.checkpoints == b.checkpoints
    ensures BilledTo(a, k, meter) == BilledTo(b, k, meter)
  {
    if k > 0 {
      BilledSame(a, b, k - 1, meter);
    }
  }

  lemma RecordedKeepsBilling(k: nat, meter: Meter, cfg: Config, log: seq<Event>, m: Machine, record: StepRecord)
    requires k >= MAX_STEPS && Billing(k, meter, log, m) && NextStage(cfg, m, Recorded(record)).Some?
    ensures Billing(k, meter, log + [Recorded(record)], Machine(Idle, Persist(m.store, record)))
  {
    RepliesSnoc(log, Recorded(record), meter);
    if record.stepNumber !in m.store.rows {
      if m.stage.Idle? {
        BilledSame(Persist(m.store, record), m.store, k, meter);
      } else {
        BilledToAfter(m.store, record, k, meter);
      }
    }
  }

  lemma StepKeepsBilling(k: nat, meter: Meter, cfg: Config, log: seq<Event>, m: Machine, e: Event)
    requires k >= MAX_STEPS && Billing(k, meter, log, m) && NextStage(cfg, m, e).Some?
    ensures Billing(k, meter, log + [e], Machine(NextStage(cfg, m, e).value, Apply(m.store, e)))
  {
    RepliesSnoc(log, e, meter);
    match e {
      case Intent(n) => BilledSame(m.store.(dispatching := true), m.store, k, meter);
      case Recorded(record) => RecordedKeepsBilling(k, meter, cfg, log, m, record);
      case _ =>
    }
  }

  // ---------- Invariants over histories ----------

  /** A property of the log so far and the machine that every event of the protocol keeps, and every crash. */
  ghost predicate Kept(cfg: Config, inv: (seq<Event>, Machine) -> bool) {
    && (forall log, m, e :: inv(log, m) && NextStage(cfg, m, e).Some? ==>
          inv(log + [e], Machine(NextStage(cfg, m, e).value, Apply(m.store, e))))
    && (forall log, m :: inv(log, m) ==> inv(log, Machine(Idle, m.store)))
    && (forall log, m :: inv(log, m) ==> Keyed(m.store))
  }

  lemma {:induction false} WalkKeeps(cfg: Config, inv: (seq<Event>, Machine) -> bool, log: seq<Event>, m: Machine, events: seq<Event>)
    requires Kept(cfg, inv) && inv(log, m) && Walk(cfg, m, events).Some?
    ensures inv(log + events, Walk(cfg, m, events).value)
    decreases |events|
  {
    if events == [] {
      assert log + events == log;
    } else {
      var next := Machine(NextStage(cfg, m, events[0]).value, Apply(m.store, events[0]));
      WalkKeeps(cfg, inv, log + [events[0]], next, events[1..]);
      assert log + [events[0]] + events[1..] == log + events;
    }
  }

  lemma HappenedWalks(cfg: Config, store: Store, a: Attempt)
    requires cfg.hooked && Keyed(store)
    ensures Walks(cfg, store, Happened(cfg, store, a))
  {
    RunWalks(cfg, a.script, store);
    var log := Run(cfg, a.script, store).log;
    if a.events < |log| {
      assert log[..a.events] + log[a.events..] == log;
      WalkAppend(cfg, Machine(Idle, store), log[..a.events], log[a.events..]);
    }
  }

  lemma AttemptKeeps(cfg: Config, inv: (seq<Event>, Machine) -> bool, log: seq<Event>, store: Store, a: Attempt)
    requires cfg.hooked && Kept(cfg, inv) && inv(log, Machine(Idle, store))
    ensures var events := Happened(cfg, store, a); inv(log + events, Machine(Idle, ApplyAll(store, events)))
  {
    var events := Happened(cfg, store, a);
    assert Keyed(Machine(Idle, store).store);
    HappenedWalks(cfg, store, a);
    WalkKeeps(cfg, inv, log, Machine(Idle, store), events);
    WalkStore(cfg, Machine(Idle, store), events);
    var m := Walk(cfg, Machine(Idle, store), events).value;
    assert inv(log + events, m);
  }

  lemma {:induction false} HistoryKeeps(cfg: Config, inv: (seq<Event>, Machine) -> bool, attempts: seq<Attempt>)
    requires cfg.hooked && Kept(cfg, inv) && inv([], Machine(Idle, FRESH))
    ensures inv(HistoryLog(cfg, attempts), Machine(Idle, HistoryStore(cfg, attempts)))
    decreases |attempts|
  {
    if attempts != [] {
      var earlier, last := attempts[..|attempts| - 1], attempts[|attempts| - 1];
      assert attempts == earlier + [last];
      HistoryKeeps(cfg, inv, earlier);
      AttemptKeeps(cfg, inv, HistoryLog(cfg, earlier), HistoryStore(cfg, earlier), last);
      HistoryAppend(cfg, earlier, last);
    }
  }

  /**
   * Over every history of attempts that crash anywhere: a request for a step is sent after an earlier one for the same
   * step only when the earlier one was proved not executed with nothing shown, or when it is the single review retry
   * after an unusable first reply.
   */
  lemma NeverResendsWhatMayHaveRun(cfg: Config, attempts: seq<Attempt>)
    requires cfg.hooked
    ensures NeverRepeats(cfg, HistoryLog(cfg, attempts))
  {
    var inv := (log: seq<Event>, m: Machine) => Safety(cfg, log, m);
    forall log, m, e | inv(log, m) && NextStage(cfg, m, e).Some?
      ensures inv(log + [e], Machine(NextStage(cfg, m, e).value, Apply(m.store, e)))
    {
      StepKeepsSafety(cfg, log, m, e);
    }
    HistoryKeeps(cfg, inv, attempts);
  }

  /**
   * Over every history, as long as no dispatch is left unresolved, the bill is exactly the usage of all replies that
   * any attempt ever received: none is lost in a crash, none is billed twice by a replay.
   */
  lemma EveryReplyIsBilledOnce(cfg: Config, attempts: seq<Attempt>, k: nat, meter: Meter)
    requires cfg.hooked && !HistoryStore(cfg, attempts).dispatching && k >= MAX_STEPS
    ensures BilledTo(HistoryStore(cfg, attempts), k, meter) == RepliesUsage(HistoryLog(cfg, attempts), meter)
  {
    var inv := (log: seq<Event>, m: Machine) => Billing(k, meter, log, m);
    forall log, m, e | inv(log, m) && NextStage(cfg, m, e).Some?
      ensures inv(log + [e], Machine(NextStage(cfg, m, e).value, Apply(m.store, e)))
    {
      StepKeepsBilling(k, meter, cfg, log, m, e);
    }
    NothingBilled(k, meter);
    HistoryKeeps(cfg, inv, attempts);
  }
}
