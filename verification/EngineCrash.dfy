/**
 * Any number of crashes is one run. When no attempt starts over an unresolved dispatch or an unfaithful store, a whole
 * history of crashed attempts leaves the store of a single uninterrupted run, cut short at the same place, in which
 * every step is answered by the attempt that recorded it; and the attempt that finishes returns what that run returns.
 */
module EngineCrash {
  import opened Wrappers
  import opened Provider
  import opened ReviewParser
  import opened Engine
  import opened EngineSession
  import opened EngineShape
  import opened EngineResume
  import opened EngineHistory

  /** The answers of s for the first n steps, and of a later attempt for the others. */
  function Splice(s: Script, later: Script, n: nat): Script {
    Script(if n < 1 then later.primary else s.primary,
           if n < 2 then later.review else s.review,
           if n < 3 then later.revision else s.revision)
  }

  lemma SamePrefix(a: seq<StepRecord>, b: seq<StepRecord>, step: StepRecord, n: nat)
    requires n <= |a| && n <= |b| && a[..n] == b[..n]
    ensures ([step] + a)[..n + 1] == ([step] + b)[..n + 1]
  {
    assert ([step] + a)[..n + 1] == [step] + a[..n];
    assert ([step] + b)[..n + 1] == [step] + b[..n];
  }

  lemma LaterStepsDependOnTheirAnswers(cfg: Config, s: Script, later: Script, now: Store, primaryText: string, m: nat)
    requires m <= |ReviewOn(cfg, s, now, primaryText).steps| && !now.dispatching && 2 !in now.rows && 3 !in now.rows
    ensures var t := ReviewOn(cfg, Splice(s, later, m + 1), now, primaryText);
      m <= |t.steps| && t.steps[..m] == ReviewOn(cfg, s, now, primaryText).steps[..m]
  {
    var a, b := ReviewOn(cfg, s, now, primaryText), ReviewOn(cfg, Splice(s, later, m + 1), now, primaryText);
    if m == 0 {
      assert a.steps[..0] == b.steps[..0];
    } else if cfg.reviewer.Some? {
      var step, review, now2, rest := AfterReview(cfg, cfg.reviewer.value, s, now, primaryText);
      var rest2 := RevisionOn(cfg, Splice(s, later, m + 1).revision, now2, primaryText, review);
      assert a.steps == [step] + rest.steps && b.steps == [step] + rest2.steps;
      assert rest.steps[..m - 1] == rest2.steps[..m - 1] by {
        assert m == 1 || rest == rest2;
      }
      SamePrefix(rest.steps, rest2.steps, step, m - 1);
    }
  }

  /** The first n steps of a run depend on the answers for those steps only. */
  lemma FirstStepsDependOnFirstAnswers(cfg: Config, s: Script, later: Script, n: nat)
    requires cfg.hooked && n <= |Run(cfg, s, FRESH).steps|
    requires n > 0 ==> Run(cfg, s, FRESH).steps[0].succeeded
    ensures var t := Run(cfg, Splice(s, later, n), FRESH);
      n <= |t.steps| && t.steps[..n] == Run(cfg, s, FRESH).steps[..n]
  {
    var a, b := Run(cfg, s, FRESH), Run(cfg, Splice(s, later, n), FRESH);
    if n == 0 {
      assert a.steps[..0] == b.steps[..0];
    } else {
      var r, step, now, rest := AfterPrimary(cfg, s);
      LaterStepsDependOnTheirAnswers(cfg, s, later, now, r.text, n - 1);
      SamePrefix(rest.steps, ReviewOn(cfg, Splice(s, later, n), now, r.text).steps, step, n - 1);
    }
  }

  /** A log that leaves no dispatch unresolved leaves exactly what its records leave. */
  lemma {:induction false} ResolvedStore(store: Store, log: seq<Event>)
    ensures var now, kept := ApplyAll(store, log), PersistAll(store, Records(log));
      && now.rows == kept.rows && now.checkpoints == kept.checkpoints && (kept.dispatching ==> now.dispatching)
      && (!now.dispatching ==> now == kept)
    decreases |log|
  {
    if log != [] {
      var e, rest := log[0], log[1..];
      ResolvedStore(Apply(store, e), rest);
      assert !e.Recorded? ==> Records(log) == Records(rest);
      match e {
        case Intent(_) => DispatchingStays(store, Records(rest));
        case Recorded(record) =>
          assert Records(log) == [record] + Records(rest);
          assert ([record] + Records(rest))[1..] == Records(rest);
        case _ =>
      }
    }
  }

  /** Persisting steps does not depend on the dispatching flag, but for the flag itself. */
  lemma {:induction false} DispatchingStays(store: Store, steps: seq<StepRecord>)
    ensures var flagged, kept := PersistAll(store.(dispatching := true), steps), PersistAll(store, steps);
      && flagged.rows == kept.rows && flagged.checkpoints == kept.checkpoints && (kept.dispatching ==> flagged.dispatching)
      && (!flagged.dispatching ==> flagged == kept)
    decreases |steps|
  {
    if steps != [] {
      var a, b := Persist(store.(dispatching := true), steps[0]), Persist(store, steps[0]);
      if a != b {
        assert a == b.(dispatching := true);
        DispatchingStays(b, steps[1..]);
      }
    }
  }

  lemma {:induction false} RecordsPrefix(log: seq<Event>, k: nat)
    requires k <= |log|
    ensures |Records(log[..k])| <= |Records(log)| && Records(log[..k]) == Records(log)[..|Records(log[..k])|]
  {
    assert log == log[..k] + log[k..];
    RecordsAppend(log[..k], log[k..]);
  }

  /** The store is the one an uninterrupted run has after its first k events. */
  ghost predicate CutOf(cfg: Config, store: Store, s: Script, k: nat) {
    k <= |Run(cfg, s, FRESH).log| && store == ApplyAll(FRESH, Run(cfg, s, FRESH).log[..k])
  }

  lemma CutKeepsSteps(cfg: Config, store: Store, s: Script, k: nat) returns (n: nat)
    requires CutOf(cfg, store, s, k) && !store.dispatching
    ensures n <= |Run(cfg, s, FRESH).steps| && store == PersistAll(FRESH, Run(cfg, s, FRESH).steps[..n])
  {
    var t := Run(cfg, s, FRESH);
    EveryRunHasShape(cfg, s, FRESH);
    RecordsPrefix(t.log, k);
    ResolvedStore(FRESH, t.log[..k]);
    n := |Records(t.log[..k])|;
  }

  lemma {:induction false} ReplaysKeepStore(store: Store, log: seq<Event>)
    requires forall i :: 0 <= i < |log| ==> log[i].Recorded? && log[i].record.stepNumber in store.rows
    ensures ApplyAll(store, log) == store
    decreases |log|
  {
    if log != [] {
      ReplaysKeepStore(store, log[1..]);
    }
  }

  /** One more attempt over a cut of a run, stopped after c events, is a longer cut of a run. */
  lemma AttemptExtendsCut(cfg: Config, store: Store, s: Script, k: nat, later: Script, c: nat) returns (s2: Script, k2: nat)
    requires cfg.hooked && CutOf(cfg, store, s, k) && !store.dispatching && Faithful(cfg, store)
    requires c <= |Run(cfg, later, store).log|
    ensures CutOf(cfg, ApplyAll(store, Run(cfg, later, store).log[..c]), s2, k2)
    ensures SameSteps(Run(cfg, s2, FRESH).steps, Run(cfg, later, store).steps)
    ensures Run(cfg, s2, FRESH).ending == Run(cfg, later, store).ending
    ensures c == |Run(cfg, later, store).log| ==> k2 == |Run(cfg, s2, FRESH).log|
  {
    var n := CutKeepsSteps(cfg, store, s, k);
    if n > 0 {
      RememberedPrefix(cfg, s, n);
      assert Remembers(store, Run(cfg, s, FRESH).steps[0]);
    }
    FirstStepsDependOnFirstAnswers(cfg, s, later, n);
    s2 := Splice(s, later, n);
    var head, replays, tail := ResumeRefinesRun(cfg, s2, later, n);
    RememberedPrefix(cfg, s2, n);
    k2 := CutThrough(store, Run(cfg, s2, FRESH), Run(cfg, later, store), head, replays, tail, n, c);
  }

  /** A cut through a resumed run is a cut through the run it is aligned with. */
  lemma CutThrough(
    store: Store, whole: RunTrace, resumed: RunTrace, head: seq<Event>, replays: seq<Event>, tail: seq<Event>, n: nat, c: nat)
    returns (k: nat)
    requires Aligned(FRESH, whole, resumed, head, replays, tail, n) && store == PersistAll(FRESH, whole.steps[..n])
    requires c <= |resumed.log| && forall i :: 0 <= i < n ==> Remembers(store, whole.steps[i])
    ensures k <= |whole.log| && ApplyAll(store, resumed.log[..c]) == ApplyAll(FRESH, whole.log[..k])
    ensures c == |resumed.log| ==> k == |whole.log|
  {
    forall i | 0 <= i < n ensures replays[i].Recorded? && replays[i].record.stepNumber in store.rows {
      assert SameStep(resumed.steps[i], whole.steps[i]) && Remembers(store, whole.steps[i]);
    }
    if c <= n {
      ReplaysKeepStore(store, replays[..c]);
      assert resumed.log[..c] == replays[..c];
      k := |head|;
      assert whole.log[..k] == head;
    } else {
      var more := tail[..c - n];
      ReplaysKeepStore(store, replays);
      assert resumed.log[..c] == replays + more;
      ApplyAllAppend(store, replays, more);
      k := |head| + |more|;
      assert whole.log[..k] == head + more;
      ApplyAllAppend(FRESH, head, more);
    }
  }

  // ---------- Histories ----------

  /** No attempt starts over an unresolved dispatch, or over a store a resume would not be faithful to. */
  ghost predicate CleanStarts(cfg: Config, attempts: seq<Attempt>) {
    forall n :: 0 <= n < |attempts| ==> CleanStart(cfg, HistoryStore(cfg, attempts[..n]))
  }

  ghost predicate CleanStart(cfg: Config, store: Store) {
    !store.dispatching && Faithful(cfg, store)
  }

  lemma {:induction false} HistoryIsCut(cfg: Config, attempts: seq<Attempt>) returns (s: Script, k: nat)
    requires cfg.hooked && CleanStarts(cfg, attempts)
    ensures CutOf(cfg, HistoryStore(cfg, attempts), s, k)
    decreases |attempts|
  {
    if attempts == [] {
      s :| true;
      assert Run(cfg, s, FRESH).log[..0] == [];
      return s, 0;
    }
    var earlier, last := attempts[..|attempts| - 1], attempts[|attempts| - 1];
    assert attempts == earlier + [last];
    assert forall n :: 0 <= n < |earlier| ==> earlier[..n] == attempts[..n];
    s, k := HistoryIsCut(cfg, earlier);
    var now := HistoryStore(cfg, earlier);
    assert CleanStart(cfg, now);
    var events := Happened(cfg, now, last);
    assert events == Run(cfg, last.script, now).log[..|events|];
    s, k := AttemptExtendsCut(cfg, now, s, k, last.script, |events|);
    HistoryAppend(cfg, earlier, last);
  }

  /** The store any such history leaves is a cut of one uninterrupted run. */
  lemma CrashesAreOneRun(cfg: Config, attempts: seq<Attempt>)
    requires cfg.hooked && CleanStarts(cfg, attempts)
    ensures exists s, k :: CutOf(cfg, HistoryStore(cfg, attempts), s, k)
  {
    var s, k := HistoryIsCut(cfg, attempts);
  }

  /** An attempt over `now` ends, step for step, like the uninterrupted run of s, and leaves the same store. */
  ghost predicate EndsLike(cfg: Config, s: Script, now: Store, last: Attempt) {
    var whole, t := Run(cfg, s, FRESH), Run(cfg, last.script, now);
    whole.ending == t.ending && SameSteps(whole.steps, t.steps) && ApplyAll(FRESH, whole.log) == ApplyAll(now, t.log)
  }

  /**
   * The attempt that finishes such a history records the same steps and returns the same thing as a single run that
   * never crashed; and then every reply any of the attempts received is on the bill exactly once.
   */
  lemma FinishedHistoryIsOneRun(cfg: Config, earlier: seq<Attempt>, last: Attempt, k: nat, meter: Meter)
    requires cfg.hooked && CleanStarts(cfg, earlier + [last]) && k >= MAX_STEPS
    requires var t := Run(cfg, last.script, HistoryStore(cfg, earlier)); t.ending.Returned? && last.events >= |t.log|
    ensures exists s :: EndsLike(cfg, s, HistoryStore(cfg, earlier), last)
    ensures BilledTo(HistoryStore(cfg, earlier + [last]), k, meter) == RepliesUsage(HistoryLog(cfg, earlier + [last]), meter)
  {
    var attempts := earlier + [last];
    assert forall n :: 0 <= n <= |earlier| ==> earlier[..n] == attempts[..n];
    assert earlier[..|earlier|] == earlier;
    var now := HistoryStore(cfg, earlier);
    assert CleanStart(cfg, now);
    HistoryAppend(cfg, earlier, last);
    var s, cut := HistoryIsCut(cfg, earlier);
    var t := Run(cfg, last.script, now);
    var s2, cut2 := AttemptExtendsCut(cfg, now, s, cut, last.script, |t.log|);
    assert t.log[..|t.log|] == t.log;
    var whole := Run(cfg, s2, FRESH);
    assert whole.log[..|whole.log|] == whole.log;
    assert EndsLike(cfg, s2, now, last);
    ReturnedRunIsResolved(cfg, s2);
    EveryReplyIsBilledOnce(cfg, attempts, k, meter);
  }

  lemma RevisionOnResolves(cfg: Config, script: StepScript, now: Store, primaryText: string, review: ReviewState)
    requires !now.dispatching && 3 !in now.rows
    ensures var t := RevisionOn(cfg, script, now, primaryText, review); t.ending.Returned? ==> !ApplyAll(now, t.log).dispatching
  {
    if review.verdict == Some(Revise) && review.text.Some? {
      var f := FetchRevision(cfg, 3, script, now);
      if !f.got.Stopped? {
        var step := SettleRevision(cfg, 3, f.got).0;
        DispatchKeepsRecords(cfg, cfg.primary, 3, script, now);
        PersistForgetsIntent(now, ApplyAll(now, f.log), step);
        RecordOne(ApplyAll(now, f.log), step);
        ApplyAllAppend(now, f.log, [Recorded(step)]);
        ApplyAllAppend(now, f.log + [Recorded(step)], [Recorded(Consolidated(4))]);
        RecordOne(Persist(now, step), Consolidated(4));
      }
    } else {
      RecordOne(now, Consolidated(3));
    }
  }

  lemma ReviewOnResolves(cfg: Config, s: Script, now: Store, primaryText: string)
    requires !now.dispatching && 2 !in now.rows && 3 !in now.rows
    ensures var t := ReviewOn(cfg, s, now, primaryText); t.ending.Returned? ==> !ApplyAll(now, t.log).dispatching
  {
    var t := ReviewOn(cfg, s, now, primaryText);
    match cfg.reviewer {
      case None => RecordOne(now, Consolidated(2));
      case Some(reviewer) =>
        if t.ending.Returned? {
          var step, review, now2, rest := AfterReview(cfg, reviewer, s, now, primaryText);
          var log := FetchReview(cfg, reviewer, 2, s.review, now).log;
          RevisionOnResolves(cfg, s.revision, now2, primaryText, review);
          RecordOne(ApplyAll(now, log), step);
          ApplyAllAppend(now, log, [Recorded(step)]);
          ApplyAllAppend(now, log + [Recorded(step)], rest.log);
        }
    }
  }

  /** A run that returns over a fresh store leaves no dispatch unresolved. */
  lemma ReturnedRunIsResolved(cfg: Config, s: Script)
    requires Run(cfg, s, FRESH).ending.Returned?
    ensures !ApplyAll(FRESH, Run(cfg, s, FRESH).log).dispatching
  {
    var t := Run(cfg, s, FRESH);
    var f := FetchPrimary(cfg, s.primary, FRESH);
    EveryRunHasShape(cfg, s, FRESH);
    if t.steps[0].succeeded {
      var r, step, now, rest := AfterPrimary(cfg, s);
      ReviewOnResolves(cfg, s, now, r.text);
      RecordOne(ApplyAll(FRESH, f.log), step);
      ApplyAllAppend(FRESH, f.log, [Recorded(step)]);
      ApplyAllAppend(FRESH, f.log + [Recorded(step)], rest.log);
    } else {
      DispatchKeepsRecords(cfg, cfg.primary, 1, s.primary, FRESH);
      ApplyAllAppend(FRESH, f.log, [Recorded(t.steps[0])]);
      RecordOne(ApplyAll(FRESH, f.log), t.steps[0]);
    }
  }
}
