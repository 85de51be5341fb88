/**
 * What a run returns is determined by the steps it recorded: the consolidated text and the extracted work can be
 * rebuilt from the message history alone. From that follow the draft banner of a required review that did not happen,
 * and exactly when the body shown and the body acted on are the same.
 */
module EngineOutput {
  import opened Wrappers
  import opened Text
  import opened ReviewParser
  import opened Engine
  import opened EngineShape

  function TextOf(step: StepRecord): Option<string> {
    if step.succeeded && step.response.Some? then Some(step.response.value.text) else None
  }

  function PrimaryText(steps: seq<StepRecord>): string {
    if |steps| > 0 && TextOf(steps[0]).Some? then TextOf(steps[0]).value else ""
  }

  function ReviewText(steps: seq<StepRecord>): Option<string> {
    if |steps| > 1 && steps[1].kind.Review? then TextOf(steps[1]) else None
  }

  function VerdictOf(steps: seq<StepRecord>): Option<Verdict> {
    if |steps| > 1 && steps[1].kind.Review? then steps[1].verdict else None
  }

  function RevisionText(steps: seq<StepRecord>): Option<string> {
    if |steps| > 2 && steps[2].kind.Revision? then TextOf(steps[2]) else None
  }

  /** The result, from the steps and the review outcome alone. */
  ghost predicate Rebuilds(cfg: Config, steps: seq<StepRecord>, result: EngineResult) {
    && result.consolidated ==
         ConsolidateText(cfg, PrimaryText(steps), ReviewText(steps), VerdictOf(steps), RevisionText(steps), result.reviewOutcome)
    && result.extracts == cfg.shaper.extract(FinalText(PrimaryText(steps), RevisionText(steps)))
  }

  /** The steps end with the consolidation, and hold the texts the run finished with. */
  ghost predicate Holds(steps: seq<StepRecord>, primaryText: string, review: ReviewState, revisionText: Option<string>) {
    && PrimaryText(steps) == primaryText && ReviewText(steps) == review.text && VerdictOf(steps) == review.verdict
    && RevisionText(steps) == revisionText
  }

  lemma RevisionOnRebuilds(
    cfg: Config, script: StepScript, store: Store, primaryText: string, review: ReviewState, first: StepRecord, second: StepRecord)
    requires TextOf(first) == Some(primaryText)
    requires second.kind.Review? && TextOf(second) == review.text && second.verdict == review.verdict
    ensures var t := RevisionOn(cfg, script, store, primaryText, review);
      t.ending.Returned? ==> Rebuilds(cfg, [first, second] + t.steps, t.ending.result)
  {
    var t := RevisionOn(cfg, script, store, primaryText, review);
    var steps := [first, second] + t.steps;
    if t.ending.Returned? {
      assert steps[0] == first && steps[1] == second && steps[2] == t.steps[0];
      if review.verdict == Some(Revise) && review.text.Some? {
        var (record, revisionText) := SettleRevision(cfg, 3, FetchRevision(cfg, 3, script, store).got);
        assert Holds(steps, primaryText, review, revisionText);
      } else {
        assert Holds(steps, primaryText, review, None);
      }
    }
  }

  /** Consolidation and extraction read nothing but the recorded steps and the review outcome. */
  lemma ResultIsRebuiltFromSteps(cfg: Config, s: Script, store: Store)
    ensures var t := Run(cfg, s, store);
      t.ending.Returned? && t.ending.result.ok ==> Rebuilds(cfg, t.steps, t.ending.result)
  {
    hide FetchPrimary, FetchReview, RevisionOn, ApplyAll, Persist;
    var f := FetchPrimary(cfg, s.primary, store);
    if f.got.Obtained? {
      var text := f.got.response.text;
      var first := Succeeded(1, Primary, cfg.primary.agentId, f.got.response);
      var store1 := Persist(ApplyAll(store, f.log), first);
      match cfg.reviewer {
        case None =>
          assert Holds([first, Consolidated(2)], text, NO_REVIEW, None);
          assert [first] + [Consolidated(2)] == [first, Consolidated(2)];
        case Some(reviewer) =>
          var g := FetchReview(cfg, reviewer, 2, s.review, store1);
          if !g.got.Stopped? {
            var (second, review) := SettleReview(cfg, reviewer, 2, g.got, text);
            var store2 := Persist(ApplyAll(store1, g.log), second);
            var rest := RevisionOn(cfg, s.revision, store2, text, review);
            RevisionOnRebuilds(cfg, s.revision, store2, text, review, first, second);
            assert [first] + ([second] + rest.steps) == [first, second] + rest.steps;
          }
      }
    }
  }

  /**
   * A required review that did not complete leaves a draft: the result is the banner followed by the primary body,
   * no revision was made, and the work is extracted from that same primary body.
   */
  lemma UnmetReviewLeavesDraft(cfg: Config, s: Script, store: Store)
    ensures var t := Run(cfg, s, store);
      t.ending.Returned? && t.ending.result.ok && t.ending.result.reviewOutcome.RequiredUnmet? ==>
        && t.ending.result.consolidated == cfg.wording.unreviewedDraftBanner + "\n\n" + cfg.shaper.stripAction(PrimaryText(t.steps))
        && (forall i :: 0 <= i < |t.steps| ==> !t.steps[i].kind.Revision?)
        && t.ending.result.extracts == cfg.shaper.extract(PrimaryText(t.steps))
  {
    EveryRunHasShape(cfg, s, store);
    ResultIsRebuiltFromSteps(cfg, s, store);
    var t := Run(cfg, s, store);
    if t.ending.Returned? && t.ending.result.ok && t.ending.result.reviewOutcome.RequiredUnmet? {
      if |t.steps| > 1 {
        assert !WellFormedStep(t.steps[1]);
      }
      var body := cfg.shaper.stripAction(PrimaryText(t.steps));
      assert Join([cfg.wording.unreviewedDraftBanner, body], "\n\n") == cfg.wording.unreviewedDraftBanner + "\n\n" + body by {
        assert [cfg.wording.unreviewedDraftBanner, body][1..] == [body];
      }
    }
  }

  /**
   * Proposed work is meant to come from the body the owner sees. It does, exactly unless the revision came back empty
   * over a primary that is not: then the primary is shown while the empty revision is searched for work.
   */
  lemma ShownBodyIsActedOn(cfg: Config, s: Script, store: Store)
    ensures var t := Run(cfg, s, store);
      t.ending.Returned? && t.ending.result.ok ==>
        (ShownBody(PrimaryText(t.steps), RevisionText(t.steps), t.ending.result.reviewOutcome)
           == FinalText(PrimaryText(t.steps), RevisionText(t.steps))
         <==> !(RevisionText(t.steps) == Some("") && PrimaryText(t.steps) != ""))
  {
    EveryRunHasShape(cfg, s, store);
    var t := Run(cfg, s, store);
    if t.ending.Returned? && t.ending.result.ok && RevisionText(t.steps).Some? {
      assert WellFormedStep(t.steps[1]);
    }
  }

  /** The note under a review: a revision was made, or else what became of the verdict. */
  function NoteFor(cfg: Config, verdict: Verdict, revised: bool): string {
    if revised then "\n\n" + cfg.wording.revisedNote
    else if verdict == Approve then "\n\n" + cfg.wording.approvedNote
    else if verdict == Reject then "\n\n" + cfg.wording.rejectedNote
    else ""
  }

  /** What the owner is shown: the draft banner over the primary; or the answer, followed by the review if there is one. */
  ghost predicate Shows(cfg: Config, consolidated: string, draft: bool, primary: string, review: Option<string>,
                        verdict: Option<Verdict>, revision: Option<string>) {
    if draft then consolidated == cfg.wording.unreviewedDraftBanner + "\n\n" + cfg.shaper.stripAction(primary)
    else
      var answer := cfg.shaper.stripAction(if revision.Some? && revision.value != "" then revision.value else primary);
      match (review, verdict)
      case (None, _) => consolidated == answer
      case (Some(text), Some(v)) =>
        consolidated == answer + "\n\n" + cfg.wording.reviewHeading(v) + cfg.shaper.stripIssues(cfg.shaper.stripAction(text))
                        + NoteFor(cfg, v, revision.Some?)
      case _ => false
  }

  lemma JoinTwo(a: string, b: string)
    ensures Join([a, b], "\n\n") == a + "\n\n" + b
  {
    assert [a, b][1..] == [b];
  }

  lemma JoinThree(a: string, b: string, c: string)
    ensures Join([a, b, c], "\n\n") == a + "\n\n" + b + "\n\n" + c
  {
    assert [a, b, c][1..] == [b, c];
    JoinTwo(b, c);
  }

  lemma TextIsComplete(cfg: Config, primary: string, review: Option<string>, verdict: Option<Verdict>,
                       revision: Option<string>, outcome: ReviewOutcome)
    requires review.Some? ==> verdict.Some?
    ensures Shows(cfg, ConsolidateText(cfg, primary, review, verdict, revision, outcome), outcome.RequiredUnmet?,
                  primary, review, verdict, revision)
  {
    hide Join;
    var body := cfg.shaper.stripAction(ShownBody(primary, revision, outcome));
    JoinTwo(cfg.wording.unreviewedDraftBanner, body);
    if !outcome.RequiredUnmet? && review.Some? {
      var summary := cfg.wording.reviewHeading(verdict.value) + cfg.shaper.stripIssues(cfg.shaper.stripAction(review.value));
      JoinTwo(body, summary);
      JoinThree(body, summary, cfg.wording.revisedNote);
      JoinThree(body, summary, cfg.wording.approvedNote);
      JoinThree(body, summary, cfg.wording.rejectedNote);
      assert [body, summary] + [] == [body, summary];
      assert forall note: string :: [body, summary] + [note] == [body, summary, note];
    }
  }

  /**
   * What every finished run returns, read off its steps: a required review that did not happen leaves the draft; any other
   * run shows the answer, which is the revision unless that is missing or empty, and behind it the recorded verdict, the
   * review and one note. Work is taken from the revision, or from the primary where there is none.
   */
  lemma ResultIsComplete(cfg: Config, s: Script, store: Store)
    ensures var t := Run(cfg, s, store);
      t.ending.Returned? && t.ending.result.ok ==>
        var r := t.ending.result;
        var primary, review, revision := PrimaryText(t.steps), ReviewText(t.steps), RevisionText(t.steps);
        && Shows(cfg, r.consolidated, r.reviewOutcome.RequiredUnmet?, primary, review, VerdictOf(t.steps), revision)
        && r.extracts == cfg.shaper.extract(if revision.Some? then revision.value else primary)
  {
    hide ConsolidateText, Shows;
    ResultIsRebuiltFromSteps(cfg, s, store);
    var t := Run(cfg, s, store);
    if t.ending.Returned? && t.ending.result.ok {
      ReviewHasVerdict(cfg, s, store);
      TextIsComplete(cfg, PrimaryText(t.steps), ReviewText(t.steps), VerdictOf(t.steps), RevisionText(t.steps),
                     t.ending.result.reviewOutcome);
    }
  }

  lemma ReviewHasVerdict(cfg: Config, s: Script, store: Store)
    ensures var t := Run(cfg, s, store); t.ending.Returned? && ReviewText(t.steps).Some? ==> VerdictOf(t.steps).Some?
  {
    hide FetchPrimary, FetchReview, FetchRevision, ApplyAll, Persist, ConsolidateText, ParseReviewDetail;
    var f := FetchPrimary(cfg, s.primary, store);
    if f.got.Obtained? && cfg.reviewer.Some? {
      var reviewer := cfg.reviewer.value;
      var store1 := Persist(ApplyAll(store, f.log), Succeeded(1, Primary, cfg.primary.agentId, f.got.response));
      var g := FetchReview(cfg, reviewer, 2, s.review, store1);
      if !g.got.Stopped? {
        var (second, review) := SettleReview(cfg, reviewer, 2, g.got, f.got.response.text);
        assert TextOf(second).Some? ==> second.verdict.Some?;
        var t := Run(cfg, s, store);
        assert t.ending.Returned? ==> t.steps[1] == second;
      }
    }
  }

  /** The extra output room of the review retry: never outside [16384, 32768], and more room exactly below the ceiling. */
  lemma ReviewRetryRoom(configured: nat)
    ensures 16_384 <= ReviewRetryOutputTokens(configured) <= 32_768
    ensures ReviewRetryOutputTokens(configured) > configured <==> configured < 32_768
  {
  }
}
