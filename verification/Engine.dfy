/**
 * The run state machine (src/orchestration/engine.ts): primary, then an optional review with at most one revision,
 * then a deterministic consolidation. This module says what a run does as a function of
 *   - its configuration,
 *   - a script: everything the providers, the clocks and the dispatch guard will answer, and
 *   - the durable store an earlier attempt left behind.
 * The result lists every durable or remote event of the run in order, so that a crash is a prefix of that list.
 */
module Engine {
  import opened Wrappers
  import opened Text
  import opened Provider
  import opened ReviewParser

  const MAX_STEPS := 4
  const MAX_RETRIES_PER_CALL := 2

  datatype StepKind = Primary | Review | Revision | Consolidate

  datatype ReviewOutcome = Reviewed | Omitted | RequiredUnmet | OptionalDegraded

  // ---------- Reading a review reply ----------

  predicate IsEmptyReply(reader: Reader, r: AgentResponse) {
    reader.blank(r.text)
  }

  predicate IsCutOffReview(reader: Reader, r: AgentResponse) {
    if reader.hasCompleteBlock(r.text) then false
    else if r.stopReason in {"max_tokens", "length"} then true
    else reader.opensBlock(r.text)
  }

  /** There is no review in such a reply: it is retried once, and then recorded as a failed step. */
  predicate Unusable(reader: Reader, r: AgentResponse) {
    IsEmptyReply(reader, r) || IsCutOffReview(reader, r)
  }

  function ReviewRetryOutputTokens(configured: nat): nat {
    var wanted := if configured * 2 > 16_384 then configured * 2 else 16_384;
    if wanted < 32_768 then wanted else 32_768
  }

  /** Two calls of one step recorded as one reply: the second text, the summed usage and latency. */
  function CombineResponses(first: AgentResponse, second: AgentResponse): AgentResponse {
    second.(usage := first.usage.Plus(second.usage), latencyMs := first.latencyMs + second.latencyMs)
  }

  // ---------- Configuration and the outside world ----------

  datatype Agent = Agent(
    agentId: string,
    provider: ProviderId,
    guarantee: Guarantee,
    streams: bool,
    maxOutputTokens: nat)

  datatype Extracts = Extracts(
    proposedActions: seq<string>, delegatedTasks: seq<string>, runArtifacts: seq<string>, ownerQuestions: seq<string>)

  /** The text transformations of other files, as parameters. */
  datatype Shaper = Shaper(stripAction: string -> string, stripIssues: string -> string, extract: string -> Extracts)

  /** The fixed sentences of the engine; nothing depends on how they are worded. */
  datatype Wording = Wording(
    unreviewedDraftBanner: string,
    reviewHeading: Verdict -> string,
    revisedNote: string,
    approvedNote: string,
    rejectedNote: string,
    emptyTwice: string,
    cutOffTwice: string,
    emptyRetryFailed: string,
    cutOffRetryFailed: string,
    primaryFailed: string,
    deadlineExhausted: string,
    streamEnded: string,
    priorFailure: string)

  datatype Config = Config(
    primary: Agent,
    reviewer: Option<Agent>,
    reviewRequired: bool,
    deadline: int,
    live: bool,      // the sink listens to deltas
    hooked: bool,    // resume hooks are installed
    reader: Reader,
    shaper: Shaper,
    wording: Wording)

  /** The signals that abort an attempt without recording a failed step. */
  datatype Signal =
    | ReconciliationRequired(stepNumber: nat)
    | RunCancelled(stepNumber: nat)
    | LeaseLost
    | IdentityChanged
    | AmbiguousProviderOutcome(kind: ErrorKind, startedStreaming: bool, stepNumber: nat)

  datatype AgentEvent = Delta(text: string) | Done(response: AgentResponse)

  datatype Fault = Rejects(error: ProviderError) | Signals(signal: Signal) | Throws(message: string)

  datatype Execution = Returns(response: AgentResponse) | Fails(fault: Fault)

  /** A stream yields events until it ends, or until it throws. */
  datatype Streaming = Streaming(events: seq<AgentEvent>, broken: Option<Fault>)

  /** What one attempt meets: the clock before and after, the provider's behaviour, and the jittered backoff. */
  datatype Tick = Tick(nowBefore: int, execution: Execution, streaming: Streaming, nowAfter: int, backoff: nat)

  /** What the dispatch guard finds for a step besides the durable state. */
  datatype GuardView = GuardView(ownsLease: bool, identityHolds: bool, cancelRequested: bool)

  /** The answers for one step: the guard, the attempts of its call, and the attempts of the one review retry. */
  datatype StepScript = StepScript(guard: GuardView, call: nat -> Tick, retry: nat -> Tick)

  datatype Script = Script(primary: StepScript, review: StepScript, revision: StepScript)

  // ---------- Records, events and the durable store ----------

  datatype StepRecord = StepRecord(
    stepNumber: nat,
    kind: StepKind,
    agentId: Option<string>,
    response: Option<AgentResponse>,
    verdict: Option<Verdict>,
    verdictDetail: Option<ReviewDetail>,
    succeeded: bool,
    errorMessage: Option<string>)

  datatype Observation = Replied(response: AgentResponse) | Faulted(fault: Fault, emitted: bool)

  datatype Event =
    | Intent(stepNumber: nat)
    | Dispatched(stepNumber: nat, call: nat, attempt: nat, agent: Agent)
    | Observed(stepNumber: nat, call: nat, attempt: nat, agent: Agent, seen: Observation)
    | Recorded(record: StepRecord)

  datatype Checkpoint = Checkpoint(provider: ProviderId, model: string, text: string, usage: TokenUsage)

  datatype Row = Row(succeeded: bool, errorMessage: Option<string>)

  /** run_steps, run_execution_checkpoints, and whether the reliability state is `dispatching`. */
  datatype Store = Store(rows: map<nat, Row>, checkpoints: map<nat, Checkpoint>, dispatching: bool)

  const FRESH := Store(map[], map[], false)

  function ToCheckpoint(r: AgentResponse): Checkpoint {
    Checkpoint(r.provider, r.model, r.text, r.usage)
  }

  /** A replayed reply has lost its stop reason and its latency. */
  function FromCheckpoint(c: Checkpoint): AgentResponse {
    AgentResponse(c.provider, c.model, c.text, c.usage, "stop", 0)
  }

  /** Persisting a step: a no-op when the row exists, otherwise one transaction. */
  function Persist(store: Store, record: StepRecord): Store {
    var n := record.stepNumber;
    if n in store.rows then store
    else
      var rows := store.rows[n := Row(record.succeeded, record.errorMessage)];
      match record.response
      case Some(r) =>
        Store(rows, if n in store.checkpoints then store.checkpoints else store.checkpoints[n := ToCheckpoint(r)], false)
      case None => Store(rows, store.checkpoints, store.dispatching && record.succeeded)
  }

  function Apply(store: Store, e: Event): Store {
    match e
    case Intent(_) => store.(dispatching := true)
    case Recorded(record) => Persist(store, record)
    case _ => store
  }

  function ApplyAll(store: Store, log: seq<Event>): Store
    decreases |log|
  {
    if log == [] then store else ApplyAll(Apply(store, log[0]), log[1..])
  }

  function LoadCheckpoint(cfg: Config, store: Store, n: nat): Option<Checkpoint> {
    if cfg.hooked && n in store.checkpoints then Some(store.checkpoints[n]) else None
  }

  /** The message of a step an earlier attempt recorded as failed; asked only when there is no checkpoint. */
  function LoadConclusiveFailure(cfg: Config, store: Store, n: nat): Option<string> {
    if cfg.hooked && n in store.rows && !store.rows[n].succeeded then
      match store.rows[n].errorMessage
      case Some(message) => Some(message)
      case None => Some(cfg.wording.priorFailure)
    else None
  }

  /** The fail-closed dispatch boundary: why this step must not be dispatched, if anything. */
  function GuardDispatch(store: Store, view: GuardView, n: nat): Option<Signal> {
    if !view.ownsLease then Some(LeaseLost)
    else if !view.identityHolds then Some(IdentityChanged)
    else if store.dispatching then Some(ReconciliationRequired(n))
    else if view.cancelRequested then Some(RunCancelled(n))
    else None
  }

  // ---------- One provider call with retries ----------

  function Emitted(events: seq<AgentEvent>): bool {
    exists i :: 0 <= i < |events| && events[i].Delta?
  }

  /** The last final response of a stream. */
  function LastResponse(events: seq<AgentEvent>): Option<AgentResponse> {
    if events == [] then None
    else
      match events[|events| - 1]
      case Done(r) => Some(r)
      case Delta(_) => LastResponse(events[..|events| - 1])
  }

  function Observe(cfg: Config, agent: Agent, tick: Tick): Observation {
    if cfg.live && agent.streams then
      var emitted := Emitted(tick.streaming.events);
      match tick.streaming.broken
      case Some(fault) => Faulted(fault, emitted)
      case None =>
        match LastResponse(tick.streaming.events)
        case Some(r) => Replied(r)
        case None => Faulted(Rejects(MakeError(agent.provider, UnknownKind, cfg.wording.streamEnded)), emitted)
    else
      match tick.execution
      case Returns(r) => Replied(r)
      case Fails(fault) => Faulted(fault, false)
  }

  function AsProviderError(agent: Agent, fault: Fault): ProviderError
    requires !fault.Signals?
  {
    match fault
    case Rejects(error) => error
    case Throws(message) => MakeError(agent.provider, UnknownKind, message)
  }

  /** The observation proves that the request was rejected before it ran, and nothing was shown. */
  predicate ProvedNotExecuted(agent: Agent, seen: Observation) {
    && seen.Faulted?
    && !seen.emitted
    && !seen.fault.Signals?
    && AssessProviderErrorOutcome(agent.provider, agent.guarantee, AsProviderError(agent, seen.fault)).NotExecuted?
  }

  datatype CallEnding = Reply(response: AgentResponse) | ProviderFault(error: ProviderError) | Escalated(signal: Signal)

  datatype CallTrace = CallTrace(log: seq<Event>, ending: CallEnding)

  /** callWithRetry from its `attempt`-th turn on. */
  function CallFrom(cfg: Config, agent: Agent, n: nat, call: nat, ticks: nat -> Tick, attempt: nat): CallTrace
    requires attempt <= MAX_RETRIES_PER_CALL
    decreases MAX_RETRIES_PER_CALL - attempt
  {
    var tick := ticks(attempt);
    if cfg.deadline - tick.nowBefore <= 0 then
      CallTrace([], ProviderFault(MakeError(agent.provider, TimedOut, cfg.wording.deadlineExhausted)))
    else
      var seen := Observe(cfg, agent, tick);
      var log := [Dispatched(n, call, attempt, agent), Observed(n, call, attempt, agent, seen)];
      if seen.Replied? then CallTrace(log, Reply(seen.response))
      else if seen.fault.Signals? then CallTrace(log, Escalated(seen.fault.signal))
      else
        var error := AsProviderError(agent, seen.fault);
        if !ProvedNotExecuted(agent, seen) then
          CallTrace(log, Escalated(AmbiguousProviderOutcome(error.kind, seen.emitted, 0)))
        else if !error.Retryable() || attempt == MAX_RETRIES_PER_CALL || tick.backoff >= cfg.deadline - tick.nowAfter then
          CallTrace(log, ProviderFault(error))
        else
          var rest := CallFrom(cfg, agent, n, call, ticks, attempt + 1);
          CallTrace(log + rest.log, rest.ending)
  }

  /** An ambiguous outcome is tagged with the step it belongs to. */
  function Tag(signal: Signal, n: nat): Signal {
    if signal.AmbiguousProviderOutcome? then signal.(stepNumber := n) else signal
  }

  // ---------- Obtaining the reply of a step ----------

  datatype Got =
    | Obtained(response: AgentResponse)
    | Failed(message: string, billed: Option<AgentResponse>)
    | Stopped(signal: Signal)

  datatype Fetch = Fetch(log: seq<Event>, got: Got)

  /** The dispatch boundary and then one call. */
  function Dispatch(cfg: Config, agent: Agent, n: nat, script: StepScript, store: Store): Fetch {
    match if cfg.hooked then GuardDispatch(store, script.guard, n) else None
    case Some(signal) => Fetch([], Stopped(signal))
    case None =>
      var intent := if cfg.hooked then [Intent(n)] else [];
      var c := CallFrom(cfg, agent, n, 0, script.call, 0);
      var got :=
        match c.ending
        case Reply(r) => Obtained(r)
        case ProviderFault(error) => Failed(error.message, None)
        case Escalated(signal) => Stopped(Tag(signal, n));
      Fetch(intent + c.log, got)
  }

  function FetchPrimary(cfg: Config, script: StepScript, store: Store): Fetch {
    match LoadCheckpoint(cfg, store, 1)
    case Some(c) => Fetch([], Obtained(FromCheckpoint(c)))
    case None => Dispatch(cfg, cfg.primary, 1, script, store)
  }

  function FetchRevision(cfg: Config, n: nat, script: StepScript, store: Store): Fetch {
    match LoadCheckpoint(cfg, store, n)
    case Some(c) => Fetch([], Obtained(FromCheckpoint(c)))
    case None =>
      match LoadConclusiveFailure(cfg, store, n)
      case Some(message) => Fetch([], Failed(message, None))
      case None => Dispatch(cfg, cfg.primary, n, script, store)
  }

  /** An unusable first reply is retried once, in the same step, with more output room; both calls are billed. */
  function RetryReview(cfg: Config, reviewer: Agent, n: nat, script: StepScript, first: AgentResponse): Fetch {
    var roomier := reviewer.(maxOutputTokens := ReviewRetryOutputTokens(reviewer.maxOutputTokens));
    var c := CallFrom(cfg, roomier, n, 1, script.retry, 0);
    var got :=
      match c.ending
      case Reply(r) => Obtained(CombineResponses(first, r))
      case ProviderFault(error) =>
        Failed((if IsEmptyReply(cfg.reader, first) then cfg.wording.emptyRetryFailed else cfg.wording.cutOffRetryFailed) + error.message, Some(first))
      case Escalated(signal) => Stopped(Tag(signal, n));
    Fetch(c.log, got)
  }

  function FetchReview(cfg: Config, reviewer: Agent, n: nat, script: StepScript, store: Store): Fetch {
    match LoadCheckpoint(cfg, store, n)
    case Some(c) => Fetch([], Obtained(FromCheckpoint(c)))
    case None =>
      match LoadConclusiveFailure(cfg, store, n)
      case Some(message) => Fetch([], Failed(message, None))
      case None =>
        var f := Dispatch(cfg, reviewer, n, script, store);
        if f.got.Obtained? && Unusable(cfg.reader, f.got.response) then
          var again := RetryReview(cfg, reviewer, n, script, f.got.response);
          Fetch(f.log + again.log, again.got)
        else f
  }

  // ---------- The records of each step ----------

  function Succeeded(n: nat, kind: StepKind, agentId: string, response: AgentResponse): StepRecord {
    StepRecord(n, kind, Some(agentId), Some(response), None, None, true, None)
  }

  function FailedStep(n: nat, kind: StepKind, agentId: string, response: Option<AgentResponse>, message: string): StepRecord {
    StepRecord(n, kind, Some(agentId), response, None, None, false, Some(message))
  }

  /** The deterministic last step: no agent, no reply. */
  function Consolidated(n: nat): StepRecord {
    StepRecord(n, Consolidate, None, None, None, None, true, None)
  }

  /** What the review step leaves for the rest of the run. */
  datatype ReviewState = ReviewState(text: Option<string>, verdict: Option<Verdict>, malformed: bool)

  const NO_REVIEW := ReviewState(None, None, false)

  /** The one record of the review step, and the review it leaves: unusable or failed means no review at all. */
  function SettleReview(cfg: Config, reviewer: Agent, n: nat, got: Got, primaryText: string): (StepRecord, ReviewState)
    requires !got.Stopped?
  {
    match got
    case Failed(message, billed) => (FailedStep(n, Review, reviewer.agentId, billed, message), NO_REVIEW)
    case Obtained(r) =>
      if Unusable(cfg.reader, r) then
        (FailedStep(n, Review, reviewer.agentId, Some(r), if IsEmptyReply(cfg.reader, r) then cfg.wording.emptyTwice else cfg.wording.cutOffTwice),
         NO_REVIEW)
      else
        var parsed := ParseReviewDetail(cfg.reader, r.text, primaryText);
        (Succeeded(n, Review, reviewer.agentId, r).(verdict := Some(parsed.detail.verdict), verdictDetail := Some(parsed.detail)),
         ReviewState(Some(r.text), Some(parsed.detail.verdict), parsed.malformedReasons != []))
  }

  /** The record of the revision step, and the revised text; a failed revision falls back to the primary. */
  function SettleRevision(cfg: Config, n: nat, got: Got): (StepRecord, Option<string>)
    requires !got.Stopped?
  {
    match got
    case Failed(message, _) => (FailedStep(n, Revision, cfg.primary.agentId, None, message), None)
    case Obtained(r) => (Succeeded(n, Revision, cfg.primary.agentId, r), Some(r.text))
  }

  // ---------- Consolidation ----------

  /** The body the owner is shown. */
  function ShownBody(primaryText: string, revisionText: Option<string>, outcome: ReviewOutcome): string {
    if !outcome.RequiredUnmet? && revisionText.Some? && |revisionText.value| > 0 then revisionText.value else primaryText
  }

  /** The body actions, delegations, artifacts and questions are taken from. */
  function FinalText(primaryText: string, revisionText: Option<string>): string {
    if revisionText.Some? then revisionText.value else primaryText
  }

  function ConsolidateText(
    cfg: Config, primaryText: string, reviewText: Option<string>, verdict: Option<Verdict>,
    revisionText: Option<string>, outcome: ReviewOutcome): string
  {
    var body := cfg.shaper.stripAction(ShownBody(primaryText, revisionText, outcome));
    if outcome.RequiredUnmet? then Join([cfg.wording.unreviewedDraftBanner, body], "\n\n")
    else if verdict.Some? && reviewText.Some? then
      var summary := cfg.wording.reviewHeading(verdict.value) + cfg.shaper.stripIssues(cfg.shaper.stripAction(reviewText.value));
      var note :=
        if revisionText.Some? then [cfg.wording.revisedNote]
        else if verdict.value.Approve? then [cfg.wording.approvedNote]
        else if verdict.value.Reject? then [cfg.wording.rejectedNote]
        else [];
      Join([body, summary] + note, "\n\n")
    else body
  }

  function OutcomeOf(cfg: Config, review: ReviewState): ReviewOutcome {
    if cfg.reviewer.None? then (if cfg.reviewRequired then RequiredUnmet else Omitted)
    else if review.text.Some? && !review.malformed then Reviewed
    else if cfg.reviewRequired then RequiredUnmet
    else OptionalDegraded
  }

  // ---------- The run ----------

  /** What a run returns besides its steps. */
  datatype EngineResult = EngineResult(
    ok: bool,
    consolidated: string,
    extracts: Extracts,
    failureReason: Option<string>,
    reviewOutcome: ReviewOutcome)

  datatype Ending = Returned(result: EngineResult) | Aborted(signal: Signal)

  /** The events and the steps of a run, or of the rest of a run, and how it ends. */
  datatype RunTrace = RunTrace(log: seq<Event>, steps: seq<StepRecord>, ending: Ending) {
    function After(log: seq<Event>, record: StepRecord): RunTrace {
      RunTrace(log + [Recorded(record)] + this.log, [record] + this.steps, this.ending)
    }
  }

  const NO_EXTRACTS := Extracts([], [], [], [])

  function FailedRun(cfg: Config, message: string): EngineResult {
    EngineResult(false, "", NO_EXTRACTS, Some(cfg.wording.primaryFailed + message),
                 if cfg.reviewRequired then RequiredUnmet else Omitted)
  }

  function ResultOf(cfg: Config, primaryText: string, review: ReviewState, revisionText: Option<string>): EngineResult {
    var outcome := OutcomeOf(cfg, review);
    var consolidated := ConsolidateText(cfg, primaryText, review.text, review.verdict, revisionText, outcome);
    EngineResult(true, consolidated, cfg.shaper.extract(FinalText(primaryText, revisionText)), None, outcome)
  }

  /** The last step, number n. */
  function FinishOn(cfg: Config, n: nat, primaryText: string, review: ReviewState, revisionText: Option<string>): RunTrace {
    RunTrace([Recorded(Consolidated(n))], [Consolidated(n)], Returned(ResultOf(cfg, primaryText, review, revisionText)))
  }

  /** The rest of the run once the review is settled: exactly one revision, and only on `revise`. */
  function RevisionOn(cfg: Config, script: StepScript, store: Store, primaryText: string, review: ReviewState): RunTrace {
    if review.verdict == Some(Revise) && review.text.Some? then
      var f := FetchRevision(cfg, 3, script, store);
      if f.got.Stopped? then RunTrace(f.log, [], Aborted(f.got.signal))
      else
        var (record, revisionText) := SettleRevision(cfg, 3, f.got);
        FinishOn(cfg, 4, primaryText, review, revisionText).After(f.log, record)
    else FinishOn(cfg, 3, primaryText, review, None)
  }

  /** The rest of the run after a successful primary. */
  function ReviewOn(cfg: Config, s: Script, store: Store, primaryText: string): RunTrace {
    match cfg.reviewer
    case None => FinishOn(cfg, 2, primaryText, NO_REVIEW, None)
    case Some(reviewer) =>
      var f := FetchReview(cfg, reviewer, 2, s.review, store);
      if f.got.Stopped? then RunTrace(f.log, [], Aborted(f.got.signal))
      else
        var (record, review) := SettleReview(cfg, reviewer, 2, f.got, primaryText);
        var now := Persist(ApplyAll(store, f.log), record);
        RevisionOn(cfg, s.revision, now, primaryText, review).After(f.log, record)
  }

  /** executeRun, started over a store that earlier attempts may have left. */
  function Run(cfg: Config, s: Script, store: Store): RunTrace {
    var f := FetchPrimary(cfg, s.primary, store);
    match f.got
    case Stopped(signal) => RunTrace(f.log, [], Aborted(signal))
    case Failed(message, _) =>
      var record := FailedStep(1, Primary, cfg.primary.agentId, None, message);
      RunTrace(f.log + [Recorded(record)], [record], Returned(FailedRun(cfg, message)))
    case Obtained(r) =>
      var record := Succeeded(1, Primary, cfg.primary.agentId, r);
      ReviewOn(cfg, s, Persist(ApplyAll(store, f.log), record), r.text).After(f.log, record)
  }
}
