/**
 * Calls that cannot be retried, dispatches that are left unresolved, the two stores a resume is not faithful to, and
 * an empty revision, each reached by a concrete run.
 */
module EngineExamples {
  import opened Wrappers
  import opened Text
  import opened Provider
  import opened ReviewParser
  import opened Engine
  import opened EngineSession
  import opened EngineOutput
  import opened EngineResume
  import opened EngineHistory

  /**
   * An adapter that proves nothing about its errors gets exactly one request, or none when the deadline has passed;
   * whatever fault that request meets ends the run as an ambiguous outcome, or as the signal the adapter raised.
   */
  lemma UnsupportedProviderIsCalledOnce(cfg: Config, agent: Agent, n: nat, call: nat, ticks: nat -> Tick)
    requires agent.guarantee.Unsupported?
    ensures var c := CallFrom(cfg, agent, n, call, ticks, 0);
      var seen := Observe(cfg, agent, ticks(0));
      if ticks(0).nowBefore >= cfg.deadline then c.log == [] && c.ending.ProviderFault? && c.ending.error.kind.TimedOut?
      else
        && c.log == [Dispatched(n, call, 0, agent), Observed(n, call, 0, agent, seen)]
        && (c.ending.Reply? <==> seen.Replied?)
        && (seen.Faulted? && !seen.fault.Signals? ==>
              c.ending.Escalated? && c.ending.signal.AmbiguousProviderOutcome? && c.ending.signal.startedStreaming == seen.emitted)
        && (seen.Faulted? && seen.fault.Signals? ==> c.ending == Escalated(seen.fault.signal))
  {
  }

  /** Over a store whose last dispatch was never resolved, a run sends nothing. */
  lemma UnresolvedStoreSendsNothing(cfg: Config, s: Script, store: Store)
    requires cfg.hooked && Keyed(store) && store.dispatching
    ensures forall e :: e in Run(cfg, s, store).log ==> e.Recorded?
  {
    RunWalks(cfg, s, store);
    UnresolvedWalk(cfg, store, Run(cfg, s, store).log);
  }

  lemma {:induction false} UnresolvedWalk(cfg: Config, store: Store, log: seq<Event>)
    requires store.dispatching && Walk(cfg, Machine(Idle, store), log).Some?
    ensures forall e :: e in log ==> e.Recorded?
    decreases |log|
  {
    if log != [] {
      UnresolvedWalk(cfg, Apply(store, log[0]), log[1..]);
    }
  }

  // ---------- A small world ----------

  function Helper(): Agent {
    Agent("helper", OpenAI, ErrorKinds({Auth}, "contract"), false, 4096)
  }

  function Answers(text: string, stopReason: string): Tick {
    Tick(0, Returns(AgentResponse(OpenAI, "m", text, TokenUsage(1, 1), stopReason, 0)), Streaming([], None), 0, 0)
  }

  function Refuses(): Tick {
    Tick(0, Fails(Rejects(MakeError(OpenAI, Auth, "no key"))), Streaming([], None), 0, 0)
  }

  function Always(first: Tick, retry: Tick): StepScript {
    StepScript(GuardView(true, true, false), (attempt: nat) => first, (attempt: nat) => retry)
  }

  /** A reviewer is optional, and no text of this world holds a review-result block. */
  function World(reviewer: Option<Agent>): Config {
    Config(Helper(), reviewer, false, 1, false, true,
           Reader((t: string) => t == "", (t: string) => false, (t: string) => false, (t: string) => [], (t: string) => NotJson, (t: string) => []),
           Shaper((t: string) => t, (t: string) => t, (t: string) => Extracts([], [], [], [])),
           Wording("", (v: Verdict) => "review: ", "", "", "", "", "", "", "", "", "", "", ""))
  }

  function CutOffScript(): Script {
    Script(Always(Answers("a", "stop"), Refuses()), Always(Answers("b", "max_tokens"), Refuses()), Always(Refuses(), Refuses()))
  }

  function First(): AgentResponse {
    AgentResponse(OpenAI, "m", "a", TokenUsage(1, 1), "stop", 0)
  }

  function Second(): AgentResponse {
    AgentResponse(OpenAI, "m", "b", TokenUsage(1, 1), "max_tokens", 0)
  }

  lemma CutOffReviewFails(cfg: Config, store: Store)
    requires cfg == World(Some(Helper())) && !store.dispatching && 2 !in store.rows && 2 !in store.checkpoints
    ensures FetchReview(cfg, Helper(), 2, CutOffScript().review, store).got == Failed("no key", Some(Second()))
  {
    var script := CutOffScript().review;
    assert CallFrom(cfg, Helper(), 2, 0, script.call, 0).ending == Reply(Second());
    var roomier := Helper().(maxOutputTokens := 16_384);
    assert ProvedNotExecuted(roomier, Observe(cfg, roomier, Refuses()));
    assert CallFrom(cfg, roomier, 2, 1, script.retry, 0).ending == ProviderFault(MakeError(OpenAI, Auth, "no key"));
    assert "" + "no key" == "no key";
  }

  lemma CutOffRun() returns (one: StepRecord, two: StepRecord)
    ensures one == Succeeded(1, Primary, "helper", First()) && two == FailedStep(2, Review, "helper", Some(Second()), "no key")
    ensures Run(World(Some(Helper())), CutOffScript(), FRESH).steps == [one, two, Consolidated(3)]
  {
    var cfg, s := World(Some(Helper())), CutOffScript();
    one := Succeeded(1, Primary, "helper", First());
    two := FailedStep(2, Review, "helper", Some(Second()), "no key");
    assert CallFrom(cfg, Helper(), 1, 0, s.primary.call, 0).ending == Reply(First());
    DispatchKeepsRecords(cfg, Helper(), 1, s.primary, FRESH);
    var log := FetchPrimary(cfg, s.primary, FRESH).log;
    PersistForgetsIntent(FRESH, ApplyAll(FRESH, log), one);
    CutOffReviewFails(cfg, Persist(FRESH, one));
    assert [one] + ([two] + [Consolidated(3)]) == [one, two, Consolidated(3)];
  }

  /**
   * The reviewer stops at its output limit before it opens a result block, and the retry is refused. The run keeps the
   * step as failed and has no verdict; resumed after that step, the same reply counts as a review that says `reject`.
   */
  lemma CutOffReviewTurnsIntoReject()
    ensures var cfg := World(Some(Helper()));
      var whole := Run(cfg, CutOffScript(), FRESH);
      && |whole.steps| == 3 && !whole.steps[1].succeeded && whole.steps[1].verdict == None
      && var resumed := Run(cfg, CutOffScript(), PersistAll(FRESH, whole.steps[..2]));
      && |resumed.steps| == 3 && resumed.steps[1].succeeded && resumed.steps[1].verdict == Some(Reject)
  {
    hide CallFrom, Dispatch, ConsolidateText;
    var cfg, s := World(Some(Helper())), CutOffScript();
    var one, two := CutOffRun();
    var steps := Run(cfg, s, FRESH).steps[..2];
    assert steps == [one, two];
    PersistedStepsAreRemembered(steps);
    var stored := PersistAll(FRESH, steps);
    assert Remembers(stored, steps[0]) && Remembers(stored, steps[1]);
    PrimaryReplays(cfg, s.primary, stored, First());
    assert FetchReview(cfg, Helper(), 2, s.review, stored) == Fetch([], Obtained(FromCheckpoint(ToCheckpoint(Second()))));
  }

  /**
   * The primary is refused and recorded as failed. Resumed, it is dispatched again and may succeed; but its row
   * already exists, so the reply is neither checkpointed nor billed, and the dispatch stays unresolved.
   */
  lemma FailedPrimaryIsDispatchedAgain()
    ensures var cfg := World(None);
      var refused := Always(Refuses(), Refuses());
      var answered := Always(Answers("a", "stop"), Refuses());
      var whole := Run(cfg, Script(refused, refused, refused), FRESH);
      && whole.ending.Returned? && !whole.ending.result.ok
      && var stored := PersistAll(FRESH, whole.steps);
      && var resumed := Run(cfg, Script(answered, refused, refused), stored);
      && resumed.ending.Returned? && resumed.ending.result.ok
      && ApplyAll(stored, resumed.log).dispatching && ApplyAll(stored, resumed.log).checkpoints == map[]
  {
    var cfg := World(None);
    var refused := Always(Refuses(), Refuses());
    var answered := Always(Answers("a", "stop"), Refuses());
    var s, s' := Script(refused, refused, refused), Script(answered, refused, refused);
    var failed := FailedStep(1, Primary, "helper", None, "no key");
    assert ProvedNotExecuted(Helper(), Observe(cfg, Helper(), Refuses()));
    assert CallFrom(cfg, Helper(), 1, 0, refused.call, 0).ending == ProviderFault(MakeError(OpenAI, Auth, "no key"));
    var whole := Run(cfg, s, FRESH);
    assert whole.steps == [failed];
    var stored := PersistAll(FRESH, whole.steps);
    RecordOne(FRESH, failed);
    assert stored == Store(map[1 := Row(false, Some("no key"))], map[], false);
    var first := AgentResponse(OpenAI, "m", "a", TokenUsage(1, 1), "stop", 0);
    var c := CallFrom(cfg, Helper(), 1, 0, answered.call, 0);
    assert c.ending == Reply(first);
    var f := FetchPrimary(cfg, answered, stored);
    assert f == Fetch([Intent(1)] + c.log, Obtained(first));
    var flagged := stored.(dispatching := true);
    ApplyAllAppend(stored, [Intent(1)], c.log);
    assert ApplyAll(stored, [Intent(1)]) == flagged;
    CallKeepsStore(cfg, Helper(), 1, 0, answered.call, 0, flagged);
    var one := Succeeded(1, Primary, "helper", first);
    assert Persist(flagged, one) == flagged;
    ApplyAllAppend(stored, f.log, [Recorded(one)]);
    RecordOne(flagged, one);
    ApplyAllAppend(stored, f.log + [Recorded(one)], [Recorded(Consolidated(2))]);
    RecordOne(flagged, Consolidated(2));
    var resumed := Run(cfg, s', stored);
    assert resumed.log == f.log + [Recorded(one)] + [Recorded(Consolidated(2))];
  }

  // ---------- An empty revision ----------

  /** The one review of this world asks to revise the one claim there is; the work found in a text is the text. */
  function RevisingWorld(): Config {
    var finding := Finding("c", Major, "r", Some("fix"));
    Config(Helper(), Some(Helper()), true, 1, false, false,
           Reader((t: string) => t == "", (t: string) => true, (t: string) => false, (t: string) => [t],
                  (t: string) => Shaped(Revise, [finding]), (t: string) => ["c"]),
           Shaper((t: string) => t, (t: string) => t, (t: string) => Extracts([t], [], [], [])),
           Wording("", (v: Verdict) => "review: ", "", "", "", "", "", "", "", "", "", "", ""))
  }

  function EmptyRevisionScript(): Script {
    Script(Always(Answers("a", "stop"), Refuses()), Always(Answers("b", "stop"), Refuses()), Always(Answers("", "stop"), Refuses()))
  }

  lemma TheClaimResolves()
    ensures Resolver(RevisingWorld().reader, "a")("c") == Some("c")
  {
    var known := set x | x in RevisingWorld().reader.anchors("a");
    assert "c" in RevisingWorld().reader.anchors("a");
    assert Trim("c") == "c" by { assert !IsSpace('c'); }
    assert CanonicalClaimAnchor("c", known) == Some("c") by { hide Trim; }
  }

  lemma ReviewAsksToRevise()
    ensures var parsed := ParseReviewDetail(RevisingWorld().reader, "b", "a");
            parsed.detail.verdict == Revise && parsed.malformedReasons == []
  {
    hide Resolver, ParseReviewDetail;
    var reader := RevisingWorld().reader;
    var finding := Finding("c", Major, "r", Some("fix"));
    assert reader.blocks("b") == ["b"] && reader.validate("b") == Shaped(Revise, [finding]);
    TheClaimResolves();
    assert GoodFindings([finding], Revise, Resolver(reader, "a"));
    ParseReviewDetailSpec(reader, "b", "a");
  }

  /** The revision of a primary comes back empty: the owner is shown the primary, and the work is taken from nothing. */
  lemma EmptyRevisionHidesPrimary()
    ensures var cfg := RevisingWorld();
      var t := Run(cfg, EmptyRevisionScript(), FRESH);
      && t.ending.Returned? && t.ending.result.ok && t.ending.result.reviewOutcome.Reviewed?
      && PrimaryText(t.steps) == "a" && RevisionText(t.steps) == Some("")
      && ShownBody("a", Some(""), Reviewed) == "a"
      && t.ending.result.extracts == cfg.shaper.extract("")
      && cfg.shaper.extract("") != cfg.shaper.extract("a")
  {
    hide ParseReviewDetail, ConsolidateText, ApplyAll, Persist;
    var cfg, s := RevisingWorld(), EmptyRevisionScript();
    assert CallFrom(cfg, Helper(), 1, 0, s.primary.call, 0).ending == Reply(First());
    var second := First().(text := "b");
    assert CallFrom(cfg, Helper(), 2, 0, s.review.call, 0).ending == Reply(second);
    var third := First().(text := "");
    assert CallFrom(cfg, Helper(), 3, 0, s.revision.call, 0).ending == Reply(third);
    ReviewAsksToRevise();
    var t := Run(cfg, s, FRESH);
    var one := Succeeded(1, Primary, "helper", First());
    var three := Succeeded(3, Revision, "helper", third);
    assert t.steps[0] == one && t.steps[2] == three;
    assert cfg.shaper.extract("").proposedActions == [""] && cfg.shaper.extract("a").proposedActions == ["a"];
    assert [""][0] != ["a"][0];
  }
}
