/** The detector's verdict, read off the journal, the rows and the files alone. */
module MigrationVerdict {
  import opened Wrappers
  import opened Migration

  // ---------- The input ----------

  predicate Ordered(inp: Input) {
    && (forall i, j :: 0 <= i < j < |inp.source| ==> inp.source[i].when < inp.source[j].when)
    && (forall i, j :: 0 <= i < j < |inp.source| ==> inp.source[i].tag != inp.source[j].tag)
  }

  predicate NoHistory(inp: Input) {
    inp.tableMissing || inp.applied.None?
  }

  predicate MayBootstrap(inp: Input) {
    !inp.unexplainedObjects && inp.declaredBootstrap && inp.identityMatches
  }

  /** Row by row, what was applied is the beginning of the journal, and no hash occurs twice. */
  predicate Fits(inp: Input) {
    && inp.applied.Some? && |inp.applied.value| <= |inp.source|
    && (forall i :: 0 <= i < |inp.applied.value| ==> inp.applied.value[i].createdAt == inp.source[i].when)
    && (forall i, j :: 0 <= i < j < |inp.applied.value| ==> inp.applied.value[i].hash != inp.applied.value[j].hash)
  }

  predicate IsCommitted(s: SourceEntry, hash: string) {
    hash == s.committed
  }

  predicate IsVariant(s: SourceEntry, hash: string) {
    hash != s.committed && s.variant == Some(hash) && hash != ""
  }

  /** Row i is the committed text, or its variant, or only attested, or none of these. */
  predicate RowIs(inp: Input, kind: Kind, i: nat)
    requires Fits(inp) && i < |inp.applied.value|
  {
    var s, hash := inp.source[i], inp.applied.value[i].hash;
    match kind
    case Exact => IsCommitted(s, hash)
    case Variant => IsVariant(s, hash)
    case LegacyAttested => !IsCommitted(s, hash) && !IsVariant(s, hash) && s.when in inp.attested
    case Unknown => !IsCommitted(s, hash) && !IsVariant(s, hash) && s.when !in inp.attested
  }

  /** The hash of the last file with this timestamp. */
  ghost predicate IsFileHash(runtime: seq<Runtime>, when: int, hash: Option<string>) {
    if hash.None? then forall k :: 0 <= k < |runtime| ==> runtime[k].when != when
    else
      exists k :: 0 <= k < |runtime| && runtime[k].when == when && runtime[k].rawHash == hash.value
                  && forall l :: k < l < |runtime| ==> runtime[l].when != when
  }

  /** The indexes below n that pass a test, in order. */
  ghost function Where(n: nat, test: nat -> bool): seq<nat> {
    if n == 0 then [] else Where(n - 1, test) + if test(n - 1) then [n - 1] else []
  }

  ghost predicate IsDetailOf(inp: Input, d: RowDetail, i: nat)
    requires Fits(inp)
  {
    && i < |inp.applied.value|
    && d.idx == inp.source[i].idx && d.tag == inp.source[i].tag && d.appliedHash == inp.applied.value[i].hash
    && IsFileHash(inp.runtime, inp.source[i].when, d.runtimeHash)
  }

  /** The details are those of the rows at these indexes. */
  ghost predicate AreDetailsOf(inp: Input, details: seq<RowDetail>, indexes: seq<nat>)
    requires Fits(inp)
  {
    |details| == |indexes| && forall k :: 0 <= k < |details| ==> IsDetailOf(inp, details[k], indexes[k])
  }

  ghost function IsRow(inp: Input, kind: Kind): nat -> bool
    requires Fits(inp)
  {
    (i: nat) => i < |inp.applied.value| && RowIs(inp, kind, i)
  }

  ghost function RowsThatAre(inp: Input, kind: Kind): seq<nat>
    requires Fits(inp)
  {
    Where(|inp.applied.value|, IsRow(inp, kind))
  }

  ghost function FileDiffers(inp: Input): nat -> bool
    requires Fits(inp)
  {
    (i: nat) => i < |inp.applied.value| && !IsFileHash(inp.runtime, inp.source[i].when, Some(inp.applied.value[i].hash))
  }

  ghost predicate IsBindingOf(inp: Input, b: Binding, s: SourceEntry) {
    && b.idx == s.idx && b.tag == s.tag && IsFileHash(inp.runtime, s.when, b.runtimeHash)
    && (b.bindable <==> b.runtimeHash.Some? && (IsCommitted(s, b.runtimeHash.value) || IsVariant(s, b.runtimeHash.value)))
  }

  predicate SaysNothing(r: Verdict) {
    && r.pendingTags == [] && r.exact == 0 && r.variants == [] && r.attested == [] && r.unknown == 0 && r.warnings == []
    && !r.pendingBindable && r.bindings == []
  }

  /** What is said about rows and files once the history fits. */
  ghost predicate Accounts(inp: Input, r: Verdict)
    requires Fits(inp)
  {
    && r.exact == |RowsThatAre(inp, Exact)| && r.unknown == |RowsThatAre(inp, Unknown)|
    && AreDetailsOf(inp, r.variants, RowsThatAre(inp, Variant))
    && AreDetailsOf(inp, r.attested, RowsThatAre(inp, LegacyAttested))
    && AreDetailsOf(inp, r.warnings, Where(|inp.applied.value|, FileDiffers(inp)))
    && |r.bindings| == |inp.source| - |inp.applied.value|
    && (forall k :: 0 <= k < |r.bindings| ==> IsBindingOf(inp, r.bindings[k], inp.source[|inp.applied.value| + k]))
  }

  predicate AllAreBindable(bindings: seq<Binding>) {
    forall k :: 0 <= k < |bindings| ==> bindings[k].bindable
  }

  predicate RestIsPending(inp: Input, tags: seq<string>)
    requires Fits(inp)
  {
    && |tags| == |inp.source| - |inp.applied.value|
    && forall k :: 0 <= k < |tags| ==> tags[k] == inp.source[|inp.applied.value| + k].tag
  }

  // ---------- The loops over rows ----------

  lemma RecognizedIs(s: SourceEntry, hash: string)
    ensures Recognizes(s, hash) <==> IsCommitted(s, hash) || IsVariant(s, hash)
  {
  }

  lemma {:induction false} FileHashIs(runtime: seq<Runtime>, when: int, hash: Option<string>)
    ensures IsFileHash(runtime, when, hash) <==> hash == RuntimeHash(runtime, when)
    decreases |runtime|
  {
    if runtime != [] {
      var last := |runtime| - 1;
      var rest := runtime[..last];
      FileHashIs(rest, when, hash);
      assert forall k :: 0 <= k < last ==> rest[k] == runtime[k];
      if runtime[last].when == when {
        assert IsFileHash(runtime, when, Some(runtime[last].rawHash));
      } else {
        assert RuntimeHash(runtime, when) == RuntimeHash(rest, when);
        if hash.Some? && IsFileHash(rest, when, hash) {
          var k :| 0 <= k < last && rest[k].when == when && rest[k].rawHash == hash.value
                && forall l :: k < l < last ==> rest[l].when != when;
          assert runtime[k].when == when && forall l :: k < l < |runtime| ==> runtime[l].when != when;
        }
        if hash.Some? && IsFileHash(runtime, when, hash) {
          var k :| 0 <= k < |runtime| && runtime[k].when == when && runtime[k].rawHash == hash.value
                && forall l :: k < l < |runtime| ==> runtime[l].when != when;
          assert rest[k].when == when && forall l :: k < l < last ==> rest[l].when != when;
        }
      }
    }
  }

  lemma KindIs(inp: Input, kind: Kind, i: nat)
    requires Fits(inp) && i < |inp.applied.value|
    ensures KindOf(inp.attested, inp.source[i], inp.applied.value[i].hash) == kind <==> RowIs(inp, kind, i)
  {
    RecognizedIs(inp.source[i], inp.applied.value[i].hash);
  }

  lemma DetailIs(inp: Input, i: nat)
    requires Fits(inp) && i < |inp.applied.value|
    ensures IsDetailOf(inp, DetailOf(inp.runtime, inp.source[i], inp.applied.value[i]), i)
  {
    hide RuntimeHash;
    FileHashIs(inp.runtime, inp.source[i].when, RuntimeHash(inp.runtime, inp.source[i].when));
  }

  lemma {:induction false} RowsAre(inp: Input, kind: Kind, n: nat)
    requires Fits(inp) && n <= |inp.applied.value|
    ensures AreDetailsOf(inp, RowsOf(inp, inp.applied.value[..n], kind), Where(n, IsRow(inp, kind)))
  {
    hide DetailOf, KindOf, RowIs, IsDetailOf;
    var A := inp.applied.value;
    if n > 0 {
      RowsAre(inp, kind, n - 1);
      assert A[..n][..n - 1] == A[..n - 1];
      KindIs(inp, kind, n - 1);
      DetailIs(inp, n - 1);
    }
  }

  lemma {:induction false} WarningsAre(inp: Input, n: nat)
    requires Fits(inp) && n <= |inp.applied.value|
    ensures AreDetailsOf(inp, Warnings(inp, inp.applied.value[..n]), Where(n, FileDiffers(inp)))
  {
    hide DetailOf, IsDetailOf, IsFileHash, RuntimeHash;
    var A := inp.applied.value;
    if n > 0 {
      WarningsAre(inp, n - 1);
      assert A[..n][..n - 1] == A[..n - 1];
      FileHashIs(inp.runtime, inp.source[n - 1].when, Some(A[n - 1].hash));
      DetailIs(inp, n - 1);
    }
  }

  lemma BindingIs(inp: Input, s: SourceEntry)
    ensures IsBindingOf(inp, BindingOf(inp.runtime, s), s)
  {
    hide RuntimeHash, IsFileHash;
    var hash := RuntimeHash(inp.runtime, s.when);
    FileHashIs(inp.runtime, s.when, hash);
    if hash.Some? {
      RecognizedIs(s, hash.value);
    }
  }

  lemma DecisionAccounts(inp: Input)
    requires Fits(inp)
    ensures Accounts(inp, Decide(inp, inp.applied.value))
  {
    hide RowsOf, Warnings, BindingOf, RowIs, IsDetailOf, IsBindingOf, FileDiffers;
    var A := inp.applied.value;
    assert A[..|A|] == A;
    RowsAre(inp, Exact, |A|);
    RowsAre(inp, Variant, |A|);
    RowsAre(inp, LegacyAttested, |A|);
    RowsAre(inp, Unknown, |A|);
    WarningsAre(inp, |A|);
    var pending := inp.source[|A|..];
    var bindings := BindingsOf(inp.runtime, pending);
    forall k | 0 <= k < |bindings| ensures IsBindingOf(inp, bindings[k], inp.source[|A| + k]) {
      BindingIs(inp, pending[k]);
    }
  }

  lemma {:induction false} SomeWhere(n: nat, test: nat -> bool)
    ensures Where(n, test) == [] <==> forall i: nat :: i < n ==> !test(i)
  {
    if n > 0 {
      SomeWhere(n - 1, test);
    }
  }

  // ---------- The verdict ----------

  predicate HasUnknownRow(inp: Input)
    requires Fits(inp)
  {
    exists i :: 0 <= i < |inp.applied.value| && RowIs(inp, Unknown, i)
  }

  /**
   * Each state, exactly when. A journal out of order is a failure. Without a history, an empty and declared database of the
   * right identity may be bootstrapped with everything pending, and any other is refused. A history that does not fit the
   * journal diverges. One that fits is a mismatch when some row is of no known text; otherwise nothing or the rest of the
   * journal is pending, and the verdict accounts for every row and every pending file.
   */
  lemma VerdictIsExact(inp: Input)
    ensures var r := Classification(inp);
            && (r.state == DetectorFailure <==> !Ordered(inp))
            && (r.state == BootstrapEmpty <==> Ordered(inp) && NoHistory(inp) && MayBootstrap(inp))
            && (r.state == TableMissingNonempty <==> Ordered(inp) && NoHistory(inp) && !MayBootstrap(inp))
            && (r.state == UnknownDivergence <==> Ordered(inp) && !NoHistory(inp) && !Fits(inp))
            && (r.state == HistoricalHashMismatch <==> Ordered(inp) && !NoHistory(inp) && Fits(inp) && HasUnknownRow(inp))
            && (r.state == NoPending <==>
                  Ordered(inp) && !NoHistory(inp) && Fits(inp) && !HasUnknownRow(inp) && |inp.applied.value| == |inp.source|)
            && (r.state == PendingForward <==>
                  Ordered(inp) && !NoHistory(inp) && Fits(inp) && !HasUnknownRow(inp) && |inp.applied.value| < |inp.source|)
  {
    hide RowsOf, Warnings, BindingsOf, RowIs, GoodJournal, Ordered, CleanPrefix, Fits, Accounts;
    JournalAndRowsFit(inp);
    if Fits(inp) {
      assert inp.applied.Some? && |inp.applied.value| <= |inp.source| by { FitsIsShort(inp); }
      UnknownRows(inp);
    }
  }

  lemma JournalAndRowsFit(inp: Input)
    ensures GoodJournal(inp.source) <==> Ordered(inp)
    ensures Fits(inp) <==> inp.applied.Some? && CleanPrefix(Whens(inp.source), inp.applied.value)
  {
  }

  lemma FitsIsShort(inp: Input)
    requires Fits(inp)
    ensures inp.applied.Some? && |inp.applied.value| <= |inp.source|
  {
  }

  lemma UnknownRows(inp: Input)
    requires Fits(inp)
    ensures RowsOf(inp, inp.applied.value, Unknown) != [] <==> HasUnknownRow(inp)
  {
    hide RowsOf, RowIs, IsDetailOf;
    var A := inp.applied.value;
    assert A[..|A|] == A;
    RowsAre(inp, Unknown, |A|);
    SomeWhere(|A|, IsRow(inp, Unknown));
    if HasUnknownRow(inp) {
      var i :| 0 <= i < |A| && RowIs(inp, Unknown, i);
      assert IsRow(inp, Unknown)(i);
    }
  }

  /** What the verdict says besides its state. */
  lemma VerdictSays(inp: Input)
    ensures var r := Classification(inp);
            match r.state
            case DetectorFailure => SaysNothing(r)
            case UnknownDivergence => SaysNothing(r)
            case TableMissingNonempty => SaysNothing(r)
            case BootstrapEmpty =>
              && SaysNothing(r.(pendingTags := [])) && |r.pendingTags| == |inp.source|
              && forall i :: 0 <= i < |inp.source| ==> r.pendingTags[i] == inp.source[i].tag
            case PendingForward =>
              && Fits(inp) && Accounts(inp, r) && RestIsPending(inp, r.pendingTags)
              && (r.pendingBindable <==> AllAreBindable(r.bindings))
            case NoPending => Fits(inp) && Accounts(inp, r) && r.pendingTags == [] && r.pendingBindable
            case HistoricalHashMismatch => Fits(inp) && Accounts(inp, r) && r.pendingTags == [] && !r.pendingBindable
  {
    hide RowsOf, Warnings, BindingOf, RowIs, Accounts;
    VerdictIsExact(inp);
    if Fits(inp) {
      DecisionAccounts(inp);
    }
  }
}
