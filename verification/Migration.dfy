/**
 * The migration-state detector (scripts/backup/migration-detector.ts): what it decides, and the loops that decide it.
 * Hashes are opaque strings; the `detail` texts are not modelled.
 */
module Migration {
  import opened Wrappers

  /** A committed migration, with the hash of its blob and of its one recognized line-ending variant. */
  datatype SourceEntry = SourceEntry(idx: int, tag: string, when: int, committed: string, variant: Option<string>)

  datatype Applied = Applied(hash: string, createdAt: int)

  /** A migration file of the working tree. */
  datatype Runtime = Runtime(when: int, tag: string, rawHash: string)

  datatype Input = Input(
    source: seq<SourceEntry>,
    applied: Option<seq<Applied>>,
    runtime: seq<Runtime>,
    tableMissing: bool,
    declaredBootstrap: bool,
    unexplainedObjects: bool,
    identityMatches: bool,
    attested: set<int>)

  datatype State =
    | NoPending
    | PendingForward
    | BootstrapEmpty
    | HistoricalHashMismatch
    | UnknownDivergence
    | TableMissingNonempty
    | DetectorFailure

  datatype RowDetail = RowDetail(idx: int, tag: string, appliedHash: string, runtimeHash: Option<string>)

  datatype Binding = Binding(idx: int, tag: string, runtimeHash: Option<string>, bindable: bool)

  datatype Verdict = Verdict(
    state: State,
    pendingTags: seq<string>,
    exact: nat,
    variants: seq<RowDetail>,
    attested: seq<RowDetail>,
    unknown: nat,
    warnings: seq<RowDetail>,
    pendingBindable: bool,
    bindings: seq<Binding>)

  function Empty(state: State): Verdict {
    Verdict(state, [], 0, [], [], 0, [], false, [])
  }

  // ---------- One row ----------

  predicate Recognizes(s: SourceEntry, hash: string) {
    hash == s.committed || (s.variant.Some? && s.variant.value != "" && hash == s.variant.value)
  }

  /** The runtime file of a timestamp; of several, the last. */
  function RuntimeAt(runtime: seq<Runtime>, when: int): Option<Runtime> {
    if runtime == [] then None
    else if runtime[|runtime| - 1].when == when then Some(runtime[|runtime| - 1])
    else RuntimeAt(runtime[..|runtime| - 1], when)
  }

  function RuntimeHash(runtime: seq<Runtime>, when: int): Option<string> {
    match RuntimeAt(runtime, when) case None => None case Some(r) => Some(r.rawHash)
  }

  /** How an applied hash is accounted for. */
  datatype Kind = Exact | Variant | LegacyAttested | Unknown

  function KindOf(attested: set<int>, s: SourceEntry, hash: string): Kind {
    if hash == s.committed then Exact
    else if Recognizes(s, hash) then Variant
    else if s.when in attested then LegacyAttested
    else Unknown
  }

  function DetailOf(runtime: seq<Runtime>, s: SourceEntry, a: Applied): RowDetail {
    RowDetail(s.idx, s.tag, a.hash, RuntimeHash(runtime, s.when))
  }

  function BindingOf(runtime: seq<Runtime>, s: SourceEntry): Binding {
    var hash := RuntimeHash(runtime, s.when);
    Binding(s.idx, s.tag, hash, hash.Some? && Recognizes(s, hash.value))
  }

  function BindingsOf(runtime: seq<Runtime>, source: seq<SourceEntry>): seq<Binding> {
    seq(|source|, i requires 0 <= i < |source| => BindingOf(runtime, source[i]))
  }

  predicate AllBindable(bindings: seq<Binding>) {
    forall i :: 0 <= i < |bindings| ==> bindings[i].bindable
  }

  function Tags(source: seq<SourceEntry>): seq<string> {
    seq(|source|, i requires 0 <= i < |source| => source[i].tag)
  }

  // ---------- All rows ----------

  /** Timestamps strictly increase and no tag repeats. */
  predicate GoodJournal(source: seq<SourceEntry>) {
    && (forall i, j :: 0 <= i < j < |source| ==> source[i].when < source[j].when)
    && (forall i, j :: 0 <= i < j < |source| ==> source[i].tag != source[j].tag)
  }

  predicate DistinctHashes(applied: seq<Applied>) {
    forall i, j :: 0 <= i < j < |applied| ==> applied[i].hash != applied[j].hash
  }

  /** The applied rows are the first journal entries, timestamp by timestamp, and no hash occurs twice. */
  predicate CleanPrefix(whens: seq<int>, applied: seq<Applied>) {
    && |applied| <= |whens|
    && (forall i :: 0 <= i < |applied| ==> applied[i].createdAt == whens[i])
    && DistinctHashes(applied)
  }

  function Whens(source: seq<SourceEntry>): seq<int> {
    seq(|source|, i requires 0 <= i < |source| => source[i].when)
  }

  /** The rows of one kind, in order. */
  function RowsOf(inp: Input, applied: seq<Applied>, kind: Kind): seq<RowDetail>
    requires |applied| <= |inp.source|
  {
    if applied == [] then []
    else
      var last := |applied| - 1;
      RowsOf(inp, applied[..last], kind)
      + if KindOf(inp.attested, inp.source[last], applied[last].hash) == kind
        then [DetailOf(inp.runtime, inp.source[last], applied[last])] else []
  }

  /** The rows whose runtime file is missing or differs from what was applied. */
  function Warnings(inp: Input, applied: seq<Applied>): seq<RowDetail>
    requires |applied| <= |inp.source|
  {
    if applied == [] then []
    else
      var last := |applied| - 1;
      Warnings(inp, applied[..last])
      + if RuntimeHash(inp.runtime, inp.source[last].when) != Some(applied[last].hash)
        then [DetailOf(inp.runtime, inp.source[last], applied[last])] else []
  }

  /** The verdict on a clean prefix. */
  function Decide(inp: Input, applied: seq<Applied>): Verdict
    requires |applied| <= |inp.source|
  {
    var pending := inp.source[|applied|..];
    var bindings := BindingsOf(inp.runtime, pending);
    var unknown := RowsOf(inp, applied, Unknown);
    var state := if unknown != [] then HistoricalHashMismatch else if pending == [] then NoPending else PendingForward;
    Verdict(
      state,
      if state == PendingForward then Tags(pending) else [],
      |RowsOf(inp, applied, Exact)|,
      RowsOf(inp, applied, Variant),
      RowsOf(inp, applied, LegacyAttested),
      |unknown|,
      Warnings(inp, applied),
      unknown == [] && AllBindable(bindings),
      bindings)
  }

  function Classification(inp: Input): Verdict {
    if !GoodJournal(inp.source) then Empty(DetectorFailure)
    else if inp.tableMissing || inp.applied.None? then
      if !inp.unexplainedObjects && inp.declaredBootstrap && inp.identityMatches then
        Empty(BootstrapEmpty).(pendingTags := Tags(inp.source))
      else Empty(TableMissingNonempty)
    else if !CleanPrefix(Whens(inp.source), inp.applied.value) then Empty(UnknownDivergence)
    else Decide(inp, inp.applied.value)
  }

  // ---------- The loops ----------

  method JournalIsGood(source: seq<SourceEntry>) returns (good: bool)
    ensures good == GoodJournal(source)
  {
    var i := 1;
    while i < |source|
      invariant forall j, k :: 0 <= j < k < i && k < |source| ==> source[j].when < source[k].when
    {
      if source[i].when <= source[i - 1].when { return false; }
      i := i + 1;
    }
    var tags: set<string> := {};
    for n := 0 to |source|
      invariant tags == set k | 0 <= k < n :: source[k].tag
      invariant forall j, k :: 0 <= j < k < n ==> source[j].tag != source[k].tag
    {
      if source[n].tag in tags { return false; }
      tags := tags + {source[n].tag};
    }
    return true;
  }

  /** The two checks on the applied rows alone: no timestamp or hash twice, and timestamps in order. */
  method RowsAreOrdered(applied: seq<Applied>) returns (ordered: bool)
    ensures ordered <==> DistinctHashes(applied) && forall i, j :: 0 <= i < j < |applied| ==> applied[i].createdAt < applied[j].createdAt
  {
    var seenHash: set<string>, seenWhen: set<int> := {}, {};
    for n := 0 to |applied|
      invariant seenHash == set k | 0 <= k < n :: applied[k].hash
      invariant seenWhen == set k | 0 <= k < n :: applied[k].createdAt
      invariant forall j, k :: 0 <= j < k < n ==> applied[j].hash != applied[k].hash
    {
      if applied[n].createdAt in seenWhen || applied[n].hash in seenHash { return false; }
      seenWhen := seenWhen + {applied[n].createdAt};
      seenHash := seenHash + {applied[n].hash};
    }
    var i := 1;
    while i < |applied|
      invariant forall j, k :: 0 <= j < k < i && k < |applied| ==> applied[j].createdAt < applied[k].createdAt
    {
      if applied[i].createdAt <= applied[i - 1].createdAt { return false; }
      i := i + 1;
    }
    return true;
  }

  /** The map of the applied rows onto the journal, one by one. */
  method MapRows(inp: Input, A: seq<Applied>)
    returns (clean: bool, exact: nat, variants: seq<RowDetail>, attested: seq<RowDetail>, unknown: nat,
             warnings: seq<RowDetail>)
    requires |A| <= |inp.source|
    ensures clean <==> forall i :: 0 <= i < |A| ==> A[i].createdAt == inp.source[i].when
    ensures clean ==> exact == |RowsOf(inp, A, Exact)| && unknown == |RowsOf(inp, A, Unknown)|
    ensures clean ==> variants == RowsOf(inp, A, Variant) && attested == RowsOf(inp, A, LegacyAttested)
    ensures clean ==> warnings == Warnings(inp, A)
  {
    hide DetailOf, RuntimeHash, RuntimeAt;
    clean, exact, variants, attested, unknown, warnings := true, 0, [], [], 0, [];
    for i := 0 to |A|
      invariant forall k :: 0 <= k < i ==> A[k].createdAt == inp.source[k].when
      invariant exact == |RowsOf(inp, A[..i], Exact)| && unknown == |RowsOf(inp, A[..i], Unknown)|
      invariant variants == RowsOf(inp, A[..i], Variant) && attested == RowsOf(inp, A[..i], LegacyAttested)
      invariant warnings == Warnings(inp, A[..i])
    {
      assert A[..i + 1][..i] == A[..i];
      var s := inp.source[i];
      if A[i].createdAt != s.when {
        clean := false;
        return;
      }
      var detail := DetailOf(inp.runtime, s, A[i]);
      if A[i].hash == s.committed {
        exact := exact + 1;
      } else if Recognizes(s, A[i].hash) {
        variants := variants + [detail];
      } else if s.when in inp.attested {
        attested := attested + [detail];
      } else {
        unknown := unknown + 1;
      }
      if RuntimeHash(inp.runtime, s.when) != Some(A[i].hash) {
        warnings := warnings + [detail];
      }
    }
    assert A[..|A|] == A;
  }

  method ClassifyMigrationState(inp: Input) returns (r: Verdict)
    ensures r == Classification(inp)
  {
    hide RowsOf, Warnings, BindingOf;
    var S := inp.source;
    var good := JournalIsGood(S);
    if !good { return Empty(DetectorFailure); }
    if inp.tableMissing || inp.applied.None? {
      if inp.unexplainedObjects { return Empty(TableMissingNonempty); }
      if inp.declaredBootstrap && inp.identityMatches { return Empty(BootstrapEmpty).(pendingTags := Tags(S)); }
      return Empty(TableMissingNonempty);
    }
    var A := inp.applied.value;
    var ordered := RowsAreOrdered(A);
    assert CleanPrefix(Whens(S), A) ==> ordered;
    if !ordered { return Empty(UnknownDivergence); }
    if |A| > |S| { return Empty(UnknownDivergence); }
    var clean, exact, variants, attested, unknown, warnings := MapRows(inp, A);
    assert clean <==> CleanPrefix(Whens(S), A);
    if !clean { return Empty(UnknownDivergence); }
    var pending := S[|A|..];
    var bindings := BindingsOf(inp.runtime, pending);
    var bindable := AllBindable(bindings);
    if unknown > 0 {
      return Verdict(HistoricalHashMismatch, [], exact, variants, attested, unknown, warnings, false, bindings);
    }
    if |A| == |S| {
      return Verdict(NoPending, [], exact, variants, attested, 0, warnings, true, bindings);
    }
    return Verdict(PendingForward, Tags(pending), exact, variants, attested, 0, warnings, bindable, bindings);
  }
}
