/** What the detector's verdicts mean: every row is accounted for, and progress never leaves the known states. */
module MigrationLaws {
  import opened Wrappers
  import opened Migration

  // ---------- Accounting ----------

  lemma {:induction false} RowsAreCounted(inp: Input, applied: seq<Applied>)
    requires |applied| <= |inp.source|
    ensures |RowsOf(inp, applied, Exact)| + |RowsOf(inp, applied, Variant)|
          + |RowsOf(inp, applied, LegacyAttested)| + |RowsOf(inp, applied, Unknown)| == |applied|
    ensures |RowsOf(inp, applied, Unknown)| == 0
       <==> forall i :: 0 <= i < |applied| ==> KindOf(inp.attested, inp.source[i], applied[i].hash) != Unknown
  {
    hide DetailOf, KindOf;
    if applied != [] {
      RowsAreCounted(inp, applied[..|applied| - 1]);
    }
  }

  /** Past the prefix check, exact, variant, attested and unknown rows add up to the applied ones. */
  lemma EveryRowIsAccountedFor(inp: Input)
    ensures var r := Classification(inp);
            r.state in {NoPending, PendingForward, HistoricalHashMismatch} ==>
              && inp.applied.Some?
              && r.exact + |r.variants| + |r.attested| + r.unknown == |inp.applied.value|
              && (r.unknown == 0 <==> r.state != HistoricalHashMismatch)
  {
    if inp.applied.Some? && |inp.applied.value| <= |inp.source| {
      RowsAreCounted(inp, inp.applied.value);
    }
  }

  /** Applied and pending partition the journal. */
  lemma PendingIsTheRest(inp: Input)
    ensures var r := Classification(inp);
            r.state in {NoPending, PendingForward} ==>
              && Tags(inp.source[..|inp.applied.value|]) + r.pendingTags == Tags(inp.source)
              && (r.state == NoPending <==> r.pendingTags == [])
  {
    hide RowsOf, BindingsOf, Warnings;
    var r := Classification(inp);
    if r.state in {NoPending, PendingForward} {
      var n := |inp.applied.value|;
      assert Tags(inp.source[..n]) + Tags(inp.source[n..]) == Tags(inp.source);
      if r.state == NoPending {
        assert inp.source[..n] == inp.source;
      }
    }
  }

  // ---------- Progress ----------

  /** The next k pending files are all there. */
  predicate FilesPresent(inp: Input, k: nat) {
    && inp.applied.Some?
    && |inp.applied.value| + k <= |inp.source|
    && forall i :: |inp.applied.value| <= i < |inp.applied.value| + k ==> RuntimeHash(inp.runtime, inp.source[i].when).Some?
  }

  /** The row that running the file of a journal entry adds. */
  function RowFor(runtime: seq<Runtime>, s: SourceEntry): Applied
    requires RuntimeHash(runtime, s.when).Some?
  {
    Applied(RuntimeHash(runtime, s.when).value, s.when)
  }

  /** The rows that running the next k pending files adds. */
  function NewRows(inp: Input, k: nat): (rows: seq<Applied>)
    requires FilesPresent(inp, k)
    ensures |rows| == k
  {
    if k == 0 then [] else NewRows(inp, k - 1) + [RowFor(inp.runtime, inp.source[|inp.applied.value| + k - 1])]
  }

  function Advance(inp: Input, k: nat): Input
    requires FilesPresent(inp, k)
  {
    inp.(applied := Some(inp.applied.value + NewRows(inp, k)))
  }

  /** Rows do not depend on what else the input says was applied. */
  lemma {:induction false} RowsFrame(inp: Input, inp': Input, applied: seq<Applied>, kind: Kind)
    requires |applied| <= |inp.source|
    requires inp'.source == inp.source && inp'.runtime == inp.runtime && inp'.attested == inp.attested
    ensures RowsOf(inp', applied, kind) == RowsOf(inp, applied, kind)
  {
    hide DetailOf, KindOf;
    if applied != [] {
      RowsFrame(inp, inp', applied[..|applied| - 1], kind);
    }
  }

  lemma OneMoreRow(inp: Input, A: seq<Applied>)
    requires |A| < |inp.source| && RuntimeHash(inp.runtime, inp.source[|A|].when).Some?
    ensures var s := inp.source[|A|];
            var A', bindable := A + [RowFor(inp.runtime, s)], BindingOf(inp.runtime, s).bindable;
            && |RowsOf(inp, A', Unknown)|
               == |RowsOf(inp, A, Unknown)| + (if bindable || s.when in inp.attested then 0 else 1)
            && |RowsOf(inp, A', LegacyAttested)|
               == |RowsOf(inp, A, LegacyAttested)| + (if !bindable && s.when in inp.attested then 1 else 0)
            && |RowsOf(inp, A', Exact)| + |RowsOf(inp, A', Variant)|
               == |RowsOf(inp, A, Exact)| + |RowsOf(inp, A, Variant)| + (if bindable then 1 else 0)
  {
    hide DetailOf, RuntimeHash;
    var A' := A + [RowFor(inp.runtime, inp.source[|A|])];
    assert A'[..|A'| - 1] == A;
  }

  predicate Bindable(inp: Input, i: nat)
    requires i < |inp.source|
  {
    BindingOf(inp.runtime, inp.source[i]).bindable
  }

  /** A bindable row adds one exact or variant match; any other is attested or unknown. */
  lemma {:induction false} NewRowsAreCounted(inp: Input, k: nat)
    requires FilesPresent(inp, k)
    ensures var A, n := inp.applied.value, |inp.applied.value|;
            var A' := A + NewRows(inp, k);
            && |RowsOf(inp, A', Unknown)| >= |RowsOf(inp, A, Unknown)|
            && (|RowsOf(inp, A', Unknown)| == |RowsOf(inp, A, Unknown)|
                <==> forall i :: n <= i < n + k ==> Bindable(inp, i) || inp.source[i].when in inp.attested)
            && ((forall i :: n <= i < n + k ==> Bindable(inp, i)) ==>
                  && |RowsOf(inp, A', LegacyAttested)| == |RowsOf(inp, A, LegacyAttested)|
                  && |RowsOf(inp, A', Exact)| + |RowsOf(inp, A', Variant)|
                     == |RowsOf(inp, A, Exact)| + |RowsOf(inp, A, Variant)| + k)
    decreases k
  {
    hide RowsOf, BindingOf, RuntimeHash;
    var A, n := inp.applied.value, |inp.applied.value|;
    if k == 0 {
      assert A + NewRows(inp, 0) == A;
    } else {
      NewRowsAreCounted(inp, k - 1);
      var before := A + NewRows(inp, k - 1);
      OneMoreRow(inp, before);
      assert Bindable(inp, n + k - 1) == BindingOf(inp.runtime, inp.source[n + k - 1]).bindable;
      assert A + NewRows(inp, k) == before + [RowFor(inp.runtime, inp.source[n + k - 1])];
    }
  }

  lemma {:induction false} NewRowsFollowJournal(inp: Input, k: nat)
    requires FilesPresent(inp, k)
    ensures forall j :: 0 <= j < k ==> NewRows(inp, k)[j].createdAt == inp.source[|inp.applied.value| + j].when
    decreases k
  {
    hide RuntimeHash;
    if k > 0 {
      NewRowsFollowJournal(inp, k - 1);
    }
  }

  lemma AdvancedPrefix(inp: Input, k: nat)
    requires FilesPresent(inp, k) && CleanPrefix(Whens(inp.source), inp.applied.value)
    ensures CleanPrefix(Whens(inp.source), inp.applied.value + NewRows(inp, k))
       <==> DistinctHashes(inp.applied.value + NewRows(inp, k))
  {
    hide NewRows, DistinctHashes;
    NewRowsFollowJournal(inp, k);
  }

  /**
   * Running the next k pending files from PENDING_FORWARD. A repeated hash makes the history diverge; otherwise a row
   * that is neither bindable nor attested makes it a mismatch; otherwise exactly the other tags stay pending.
   */
  lemma ProgressIsClosed(inp: Input, k: nat)
    requires Classification(inp).state == PendingForward && FilesPresent(inp, k)
    ensures var r, s := Classification(inp), Classification(Advance(inp, k));
            var n := |inp.applied.value|;
            if !DistinctHashes(inp.applied.value + NewRows(inp, k)) then s.state == UnknownDivergence
            else if exists i :: n <= i < n + k && !Bindable(inp, i) && inp.source[i].when !in inp.attested then
              s.state == HistoricalHashMismatch
            else
              && s.state == (if n + k == |inp.source| then NoPending else PendingForward)
              && s.pendingTags == r.pendingTags[k..]
  {
    hide Warnings, RowsOf, NewRows, RuntimeHash;
    var A, inp' := inp.applied.value, Advance(inp, k);
    AdvancedPrefix(inp, k);
    NewRowsAreCounted(inp, k);
    RowsFrame(inp, inp', A + NewRows(inp, k), Unknown);
    assert Tags(inp.source[|A| + k..]) == Tags(inp.source[|A|..])[k..];
  }

  /** From a bindable PENDING_FORWARD, each file run is one more exact or variant match and stays bindable. */
  lemma BindableProgressKeepsCounts(inp: Input, k: nat)
    requires Classification(inp).state == PendingForward && Classification(inp).pendingBindable
    requires FilesPresent(inp, k) && DistinctHashes(inp.applied.value + NewRows(inp, k))
    ensures var r, s := Classification(inp), Classification(Advance(inp, k));
            && s.state in {NoPending, PendingForward} && s.pendingBindable
            && s.exact + |s.variants| == r.exact + |r.variants| + k
            && |s.attested| == |r.attested| && s.unknown == 0
  {
    hide Warnings, RowsOf, NewRows, RuntimeHash;
    var A, inp' := inp.applied.value, Advance(inp, k);
    var A' := A + NewRows(inp, k);
    AdvancedPrefix(inp, k);
    NewRowsAreCounted(inp, k);
    RowsFrame(inp, inp', A', Unknown);
    RowsFrame(inp, inp', A', Exact);
    RowsFrame(inp, inp', A', Variant);
    RowsFrame(inp, inp', A', LegacyAttested);
    var B, B' := BindingsOf(inp.runtime, inp.source[|A|..]), BindingsOf(inp.runtime, inp.source[|A| + k..]);
    assert forall j :: 0 <= j < |B'| ==> B'[j] == B[j + k];
    assert forall i :: |A| <= i < |A| + k ==> Bindable(inp, i) == B[i - |A|].bindable;
  }
}
