/** The detector, the gate and the signer compute applied and pending each in its own way; here they agree. */
module GateLaws {
  import opened Wrappers
  import opened IntSort
  import opened Migration
  import opened Gate

  /** Journal, source manifest and migration files of one release, in journal order with indexes 0, 1, 2 and so on. */
  predicate GoodRelease(source: seq<SourceEntry>, journal: seq<JournalEntry>, entries: seq<RuntimeEntry>) {
    && GoodJournal(source) && SameJournal(source, journal)
    && |entries| == |journal| && DistinctPaths(entries)
    && forall i :: 0 <= i < |journal| ==>
         journal[i].idx == i == entries[i].migrationIndex && entries[i].migrationTag == journal[i].tag
  }

  predicate SameJournal(source: seq<SourceEntry>, journal: seq<JournalEntry>) {
    && |source| == |journal|
    && forall i :: 0 <= i < |source| ==> source[i].tag == journal[i].tag && source[i].when == journal[i].when
  }

  lemma JournalIsSorted(source: seq<SourceEntry>, journal: seq<JournalEntry>)
    requires GoodJournal(source) && SameJournal(source, journal)
    ensures SortBy(ByWhen, journal) == journal && JournalWhens(journal) == Whens(source)
  {
    SortedStays(ByWhen, journal);
  }

  /** The gate lets through exactly the histories the detector does not call divergent. */
  lemma DetectorAndGateAgree(inp: Input, journal: seq<JournalEntry>)
    requires GoodJournal(inp.source) && SameJournal(inp.source, journal)
    requires !inp.tableMissing && inp.applied.Some?
    ensures GateAccepts(journal, inp.applied.value) <==> Classification(inp).state != UnknownDivergence
  {
    hide SortBy, Decide;
    JournalIsSorted(inp.source, journal);
    assert CleanPrefix(Whens(inp.source), inp.applied.value) ==> RisingRows(inp.applied.value);
    assert CleanPrefix(Whens(inp.source), inp.applied.value) ==> Decide(inp, inp.applied.value).state != UnknownDivergence by {
      if CleanPrefix(Whens(inp.source), inp.applied.value) {
        DecideIsNotDivergent(inp, inp.applied.value);
      }
    }
  }

  lemma DecideIsNotDivergent(inp: Input, applied: seq<Applied>)
    requires |applied| <= |inp.source|
    ensures Decide(inp, applied).state != UnknownDivergence
  {
    hide RowsOf, Warnings, BindingsOf;
  }

  // ---------- What is pending ----------

  lemma {:induction false} EntryForTag(entries: seq<RuntimeEntry>, i: nat)
    requires i < |entries| && DistinctTags(entries)
    ensures EntryFor(entries, entries[i].migrationTag) == Some(entries[i])
  {
    var last := |entries| - 1;
    if i < last {
      EntryForTag(entries[..last], i);
      assert entries[..last][i] == entries[i];
    }
  }

  lemma {:induction false} EntriesForRest(journal: seq<JournalEntry>, entries: seq<RuntimeEntry>, n: nat)
    requires n <= |journal| == |entries| && DistinctTags(entries)
    requires forall i :: 0 <= i < |journal| ==> entries[i].migrationTag == journal[i].tag
    ensures EntriesFor(entries, journal[n..]) == Some(entries[n..])
    decreases |journal| - n
  {
    hide EntryFor;
    if n < |journal| {
      EntriesForRest(journal, entries, n + 1);
      EntryForTag(entries, n);
      assert journal[n..][0] == journal[n] && journal[n..][1..] == journal[n + 1..];
      assert entries[n..] == [entries[n]] + entries[n + 1..];
    } else {
      assert journal[n..] == [] && entries[n..] == [];
    }
  }

  lemma ReleaseHasDistinctTags(source: seq<SourceEntry>, journal: seq<JournalEntry>, entries: seq<RuntimeEntry>)
    requires GoodRelease(source, journal, entries)
    ensures DistinctTags(entries) && RisingIndexes(entries) && Increasing(ByIndex, entries)
  {
    forall i, j | 0 <= i < j < |entries| ensures entries[i].migrationTag != entries[j].migrationTag {
      assert source[i].tag != source[j].tag;
    }
  }

  /** The gate demands exactly the files after the applied prefix, in journal order. */
  lemma GateDemandsTheRest(source: seq<SourceEntry>, journal: seq<JournalEntry>, entries: seq<RuntimeEntry>, n: nat)
    requires GoodRelease(source, journal, entries) && n <= |journal|
    ensures ExpectedPending(journal, entries, n) == Some(entries[n..])
  {
    hide EntriesFor, SortBy;
    JournalIsSorted(source, journal);
    ReleaseHasDistinctTags(source, journal, entries);
    EntriesForRest(journal, entries, n);
    SortedStays(ByIndex, entries[n..]);
  }

  lemma {:induction false} FromKeepsTail(entries: seq<RuntimeEntry>, first: int, c: int)
    requires forall i :: 0 <= i < |entries| ==> entries[i].migrationIndex == first + i
    requires 0 <= c - first <= |entries| || c <= first
    ensures From(entries, c) == if c <= first then entries else entries[c - first..]
    decreases |entries|
  {
    if entries != [] {
      FromKeepsTail(entries[1..], first + 1, c);
      assert entries == [entries[0]] + entries[1..];
    }
  }

  /** A receipt signed for appliedCount rows lists exactly the files from that index on. */
  lemma SignerListsTheRest(source: seq<SourceEntry>, journal: seq<JournalEntry>, entries: seq<RuntimeEntry>,
                           c: int, pins: Pins)
    requires GoodRelease(source, journal, entries)
    ensures var r := SignedPending(entries, c, pins);
            r.Some? ==> 0 <= c <= |entries| && r.value == entries[c..] && CanonicalPending(r.value)
  {
    hide From, SortBy;
    ReleaseHasDistinctTags(source, journal, entries);
    SortedStays(ByIndex, entries);
    if 0 <= c <= |entries| {
      FromKeepsTail(entries, 0, c);
    }
  }

  /** The signed pending list is the one the gate demands exactly when the signer was told the true applied count. */
  lemma SignerMeetsGate(source: seq<SourceEntry>, journal: seq<JournalEntry>, entries: seq<RuntimeEntry>,
                        c: int, pins: Pins, applied: seq<Applied>)
    requires GoodRelease(source, journal, entries) && GateAccepts(journal, applied)
    requires SignedPending(entries, c, pins).Some?
    ensures SignedPending(entries, c, pins) == ExpectedPending(journal, entries, |applied|) <==> c == |applied|
  {
    hide SignedPending, ExpectedPending, SortBy;
    JournalIsSorted(source, journal);
    SignerListsTheRest(source, journal, entries, c, pins);
    GateDemandsTheRest(source, journal, entries, |applied|);
    assert |entries[c..]| == |entries| - c && |entries[|applied|..]| == |entries| - |applied|;
  }

  /** The tags the detector calls pending are those of the files the gate demands. */
  lemma DetectorAndGatePendAlike(inp: Input, journal: seq<JournalEntry>, entries: seq<RuntimeEntry>)
    requires GoodRelease(inp.source, journal, entries)
    ensures var r := Classification(inp);
            r.state in {NoPending, PendingForward} ==>
              var demanded := ExpectedPending(journal, entries, |inp.applied.value|);
              && demanded.Some? && |demanded.value| == |r.pendingTags|
              && forall i :: 0 <= i < |r.pendingTags| ==> demanded.value[i].migrationTag == r.pendingTags[i]
  {
    hide ExpectedPending, RowsOf, Warnings, BindingsOf;
    var r := Classification(inp);
    if r.state in {NoPending, PendingForward} {
      GateDemandsTheRest(inp.source, journal, entries, |inp.applied.value|);
    }
  }

  // ---------- The runtime set ----------

  /** Files read in journal order are the set, in that order. */
  lemma SetFollowsJournal(wellNamed: (string, string) -> bool, files: seq<RuntimeEntry>)
    requires RisingIndexes(files)
    ensures RuntimeSet(wellNamed, files).Some? ==> RuntimeSet(wellNamed, files) == Some(files)
  {
    SortedStays(ByIndex, files);
  }

  lemma {:induction false} TwoPlaces<T>(s: seq<T>, x: T)
    requires multiset(s)[x] >= 2
    ensures exists i, j :: 0 <= i < j < |s| && s[i] == x && s[j] == x
  {
    var rest := s[..|s| - 1];
    assert s == rest + [s[|s| - 1]];
    if multiset(rest)[x] >= 2 {
      TwoPlaces(rest, x);
      var i, j :| 0 <= i < j < |rest| && rest[i] == x && rest[j] == x;
      assert s[i] == x && s[j] == x;
    } else {
      assert x in multiset(rest);
      var i :| 0 <= i < |rest| && rest[i] == x;
      assert s[i] == x && s[|s| - 1] == x;
    }
  }

  /** Two places of b are two places of any rearrangement a. */
  lemma PlacesIn<T>(a: seq<T>, b: seq<T>, i: nat, j: nat) returns (k: nat, l: nat)
    requires multiset(a) == multiset(b) && i < j < |b|
    ensures k < |a| && l < |a| && k != l && a[k] == b[i] && a[l] == b[j]
  {
    assert b[i] in multiset(b) && b[j] in multiset(b);
    if b[i] == b[j] {
      assert b == b[..i] + [b[i]] + b[i + 1..j] + [b[j]] + b[j + 1..];
      assert multiset(b)[b[i]] >= 2;
      TwoPlaces(a, b[i]);
      k, l :| k < l < |a| && a[k] == b[i] && a[l] == b[i];
    } else {
      k :| k < |a| && a[k] == b[i];
      l :| l < |a| && a[l] == b[j];
    }
  }

  lemma RearrangedNoRepeats(a: seq<RuntimeEntry>, b: seq<RuntimeEntry>)
    requires multiset(a) == multiset(b) && NoRepeats(a)
    ensures NoRepeats(b)
  {
    forall i, j | 0 <= i < j < |b|
      ensures ByIndex(b[i]) != ByIndex(b[j])
      ensures b[i].migrationTag != b[j].migrationTag && b[i].migrationPath != b[j].migrationPath
    {
      var k, l := PlacesIn(a, b, i, j);
      assert ByIndex(a[k]) != ByIndex(a[l]) && a[k].migrationTag != a[l].migrationTag;
      assert a[k].migrationPath != a[l].migrationPath;
    }
  }

  lemma RearrangedNames(wellNamed: (string, string) -> bool, a: seq<RuntimeEntry>, b: seq<RuntimeEntry>)
    requires multiset(a) == multiset(b) && AllNamed(wellNamed, a)
    ensures AllNamed(wellNamed, b)
  {
    forall i | 0 <= i < |b|
      ensures b[i].migrationIndex >= 0 && wellNamed(b[i].migrationTag, b[i].migrationPath)
    {
      assert b[i] in multiset(a);
      var k :| 0 <= k < |a| && a[k] == b[i];
    }
  }

  /** The set, and whether there is one, does not depend on the order the files are listed in. */
  lemma SetIgnoresOrder(wellNamed: (string, string) -> bool, a: seq<RuntimeEntry>, b: seq<RuntimeEntry>)
    requires multiset(a) == multiset(b)
    ensures RuntimeSet(wellNamed, a) == RuntimeSet(wellNamed, b)
  {
    hide NoRepeats, AllNamed, SortBy;
    if NoRepeats(a) || NoRepeats(b) {
      if NoRepeats(a) { RearrangedNoRepeats(a, b); } else { RearrangedNoRepeats(b, a); }
      assert DistinctKeys(ByIndex, a) && DistinctKeys(ByIndex, b) by { KeysOf(a); KeysOf(b); }
      SameElements(a, b);
      SortIgnoresOrder(ByIndex, a, b);
    }
    if AllNamed(wellNamed, a) { RearrangedNames(wellNamed, a, b); }
    if AllNamed(wellNamed, b) { RearrangedNames(wellNamed, b, a); }
  }

  lemma SameElements<T>(a: seq<T>, b: seq<T>)
    requires multiset(a) == multiset(b)
    ensures forall x :: x in a <==> x in b
  {
    assert forall x :: x in a <==> x in multiset(a);
    assert forall x :: x in b <==> x in multiset(b);
  }

  lemma KeysOf(a: seq<RuntimeEntry>)
    requires NoRepeats(a)
    ensures DistinctKeys(ByIndex, a)
  {
  }

  // ---------- The gate as a whole ----------

  datatype Config = Config(
    enforced: bool,
    bypass: bool,
    flyRuntime: bool,
    declaredBootstrap: bool,
    expectedDatabase: string)

  /** What the probe reports; a probe that fails reports nothing. */
  datatype Probe = Probe(
    tableMissing: bool,
    unexplainedObjects: bool,
    currentDatabase: string,
    applied: seq<Applied>,
    systemIdValid: bool)

  datatype Release = Release(journal: seq<JournalEntry>, entries: seq<RuntimeEntry>)

  datatype GateVerdict = LocalBypass | BootstrapBypass | Verified(pending: seq<RuntimeEntry>) | Refused

  /** `verifies` is the fetch and verification of a receipt for a pending list. */
  function RunPreMigrationGate(c: Config, probe: Option<Probe>, release: Option<Release>,
                               verifies: seq<RuntimeEntry> -> bool): GateVerdict {
    if c.bypass then
      if c.enforced || c.flyRuntime then Refused else LocalBypass
    else if probe.None? || !probe.value.systemIdValid then Refused
    else
      var p := probe.value;
      if p.tableMissing then
        if p.unexplainedObjects || !c.declaredBootstrap || p.currentDatabase != c.expectedDatabase then Refused
        else BootstrapBypass
      else if release.None? || !GateAccepts(release.value.journal, p.applied) then Refused
      else
        match ExpectedPending(release.value.journal, release.value.entries, |p.applied|)
        case None => Refused
        case Some(pending) => if verifies(pending) then Verified(pending) else Refused
  }

  /** The detector's input and what the gate sees describe one database. */
  predicate Reports(c: Config, probe: Probe, inp: Input) {
    && inp.tableMissing == probe.tableMissing && inp.unexplainedObjects == probe.unexplainedObjects
    && inp.declaredBootstrap == c.declaredBootstrap
    && inp.identityMatches == (probe.currentDatabase == c.expectedDatabase)
    && inp.applied == Some(probe.applied)
  }

  /**
   * Where the gate is enforced, nothing runs without either a catalog-verified empty database, which the detector calls
   * BOOTSTRAP_EMPTY too, or a receipt verified for exactly the migrations that are not applied yet.
   */
  lemma EnforcedGateNeedsReceiptOrEmptyDatabase(c: Config, probe: Option<Probe>, release: Release,
                                                verifies: seq<RuntimeEntry> -> bool, inp: Input)
    requires c.enforced && GoodRelease(inp.source, release.journal, release.entries)
    requires probe.Some? ==> Reports(c, probe.value, inp)
    ensures match RunPreMigrationGate(c, probe, Some(release), verifies)
            case LocalBypass => false
            case BootstrapBypass => Classification(inp).state == BootstrapEmpty
            case Verified(pending) =>
              && |inp.applied.value| <= |release.entries|
              && pending == release.entries[|inp.applied.value|..] && verifies(pending)
              && Classification(inp).state in {NoPending, PendingForward, HistoricalHashMismatch}
            case Refused => true
  {
    hide ExpectedPending, GateAccepts, Decide, CleanPrefix;
    var r := RunPreMigrationGate(c, probe, Some(release), verifies);
    if r.Verified? {
      DetectorAndGateAgree(inp, release.journal);
      AcceptedIsShort(release.journal, inp.applied.value);
      JournalIsSorted(inp.source, release.journal);
      GateDemandsTheRest(inp.source, release.journal, release.entries, |inp.applied.value|);
      assert Classification(inp).state in {NoPending, PendingForward, HistoricalHashMismatch} by {
        DecideStates(inp);
      }
    }
  }

  lemma AcceptedIsShort(journal: seq<JournalEntry>, applied: seq<Applied>)
    requires GateAccepts(journal, applied)
    ensures |applied| <= |SortBy(ByWhen, journal)|
  {
  }

  lemma DecideStates(inp: Input)
    requires GoodJournal(inp.source) && !inp.tableMissing && inp.applied.Some?
    ensures Classification(inp).state in {UnknownDivergence, NoPending, PendingForward, HistoricalHashMismatch}
  {
    hide RowsOf, Warnings, BindingsOf;
  }

  // ---------- Exactly when ----------

  lemma {:induction false} EntryForNone(entries: seq<RuntimeEntry>, tag: string)
    ensures EntryFor(entries, tag).None? <==> forall i :: 0 <= i < |entries| ==> entries[i].migrationTag != tag
    decreases |entries|
  {
    if entries != [] {
      EntryForNone(entries[..|entries| - 1], tag);
    }
  }

  predicate HasFile(entries: seq<RuntimeEntry>, tag: string) {
    exists i :: 0 <= i < |entries| && entries[i].migrationTag == tag
  }

  lemma {:induction false} EntriesForNone(entries: seq<RuntimeEntry>, pending: seq<JournalEntry>)
    ensures EntriesFor(entries, pending).Some? <==> forall k :: 0 <= k < |pending| ==> HasFile(entries, pending[k].tag)
    decreases |pending|
  {
    hide EntryFor;
    if pending != [] {
      EntryForNone(entries, pending[0].tag);
      EntriesForNone(entries, pending[1..]);
      assert pending == [pending[0]] + pending[1..];
    }
  }

  /** With the journal in order, the gate finds its pending list exactly when every entry past the applied ones has a file. */
  lemma MissingFileIsRefused(journal: seq<JournalEntry>, entries: seq<RuntimeEntry>, n: nat)
    requires Increasing(ByWhen, journal)
    ensures ExpectedPending(journal, entries, n).Some? <==> forall k :: n <= k < |journal| ==> HasFile(entries, journal[k].tag)
  {
    hide EntriesFor, HasFile, SortBy;
    SortedStays(ByWhen, journal);
    var pending := if n <= |journal| then journal[n..] else [];
    EntriesForNone(entries, pending);
    assert forall k :: n <= k < |journal| ==> journal[k] == pending[k - n];
    assert forall k :: 0 <= k < |pending| ==> pending[k] == journal[k + n];
  }

  /** The signer lists something exactly when the files are as pinned and the applied count is one of theirs. */
  lemma SignerListsExactly(source: seq<SourceEntry>, journal: seq<JournalEntry>, entries: seq<RuntimeEntry>, c: int, pins: Pins)
    requires GoodRelease(source, journal, entries)
    ensures SignedPending(entries, c, pins).Some? <==>
              && pins.count == |entries| && 0 <= c <= |entries|
              && pins.endpoint == if entries == [] then "" else entries[|entries| - 1].migrationTag
  {
    hide SortBy, From;
    ReleaseHasDistinctTags(source, journal, entries);
    SortedStays(ByIndex, entries);
  }

  /** The rows are the beginning of the journal, timestamp by timestamp, and no hash occurs twice. */
  predicate RowsFit(journal: seq<JournalEntry>, applied: seq<Applied>) {
    && |applied| <= |journal|
    && (forall i :: 0 <= i < |applied| ==> applied[i].createdAt == journal[i].when)
    && (forall i, j :: 0 <= i < j < |applied| ==> applied[i].hash != applied[j].hash)
  }

  /** What each verdict of the gate takes, for a release in order. */
  lemma GateDecidesExactly(c: Config, probe: Option<Probe>, source: seq<SourceEntry>, release: Release,
                           verifies: seq<RuntimeEntry> -> bool)
    requires GoodRelease(source, release.journal, release.entries)
    ensures var r := RunPreMigrationGate(c, probe, Some(release), verifies);
            var probed := !c.bypass && probe.Some? && probe.value.systemIdValid;
            && (r.LocalBypass? <==> c.bypass && !c.enforced && !c.flyRuntime)
            && (r.BootstrapBypass? <==>
                  && probed && probe.value.tableMissing && !probe.value.unexplainedObjects
                  && c.declaredBootstrap && probe.value.currentDatabase == c.expectedDatabase)
            && (r.Verified? <==>
                  && probed && !probe.value.tableMissing && RowsFit(release.journal, probe.value.applied)
                  && verifies(release.entries[|probe.value.applied|..]))
            && (r.Verified? ==> r.pending == release.entries[|probe.value.applied|..])
  {
    hide ExpectedPending, SortBy;
    JournalIsSorted(source, release.journal);
    if probe.Some? {
      var applied := probe.value.applied;
      assert GateAccepts(release.journal, applied) <==> RowsFit(release.journal, applied);
      if |applied| <= |release.journal| {
        GateDemandsTheRest(source, release.journal, release.entries, |applied|);
      }
    }
  }

  /** Where the gate gets as far as the database, it takes the bootstrap path exactly when the detector says so. */
  lemma GateBootstrapsWithDetector(c: Config, probe: Probe, release: Option<Release>, verifies: seq<RuntimeEntry> -> bool, inp: Input)
    requires GoodJournal(inp.source) && Reports(c, probe, inp) && !c.bypass && probe.systemIdValid
    ensures RunPreMigrationGate(c, Some(probe), release, verifies) == BootstrapBypass
       <==> Classification(inp).state == BootstrapEmpty
  {
    hide GateAccepts, ExpectedPending, Decide, CleanPrefix;
    if !inp.tableMissing && CleanPrefix(Whens(inp.source), inp.applied.value) {
      assert |inp.applied.value| <= |inp.source| by { PrefixIsShort(inp.source, inp.applied.value); }
      DecideStates(inp);
    }
  }

  lemma PrefixIsShort(source: seq<SourceEntry>, applied: seq<Applied>)
    requires CleanPrefix(Whens(source), applied)
    ensures |applied| <= |source|
  {
  }

  /** What the gate demands is in the order of the indexes, whatever order journal and files are in. */
  lemma DemandIsInOrder(journal: seq<JournalEntry>, entries: seq<RuntimeEntry>, n: nat)
    ensures var r := ExpectedPending(journal, entries, n);
            r.Some? && DistinctKeys(ByIndex, r.value) ==> Increasing(ByIndex, r.value)
  {
    hide EntriesFor;
    var sorted := SortBy(ByWhen, journal);
    var found := EntriesFor(entries, if n <= |sorted| then sorted[n..] else []);
    if found.Some? {
      SortedDistinct(found.value);
      SortRises(ByIndex, found.value);
    }
  }

  lemma SortedDistinct(s: seq<RuntimeEntry>)
    ensures DistinctKeys(ByIndex, SortBy(ByIndex, s)) <==> DistinctKeys(ByIndex, s)
  {
    IntSort.SortKeepsDistinct(ByIndex, s);
  }

  /** The rows the gate lets through, for any journal: as many as the journal has at most, at its timestamps one by one and
      rising, with no hash twice. */
  lemma AcceptsExactly(journal: seq<JournalEntry>, applied: seq<Applied>)
    ensures GateAccepts(journal, applied) <==>
              var sorted := SortBy(ByWhen, journal);
              && |applied| <= |sorted|
              && (forall i :: 0 <= i < |applied| ==> applied[i].createdAt == sorted[i].when)
              && (forall i, j :: 0 <= i < j < |applied| ==>
                    applied[i].createdAt < applied[j].createdAt && applied[i].hash != applied[j].hash)
  {
    hide SortBy;
  }

  /** The gate reads the journal in the order of its timestamps, whatever order it is listed in. */
  lemma GateIgnoresJournalOrder(a: seq<JournalEntry>, b: seq<JournalEntry>, entries: seq<RuntimeEntry>, applied: seq<Applied>, n: nat)
    requires DistinctKeys(ByWhen, a) && DistinctKeys(ByWhen, b) && forall j :: j in a <==> j in b
    ensures GateAccepts(a, applied) == GateAccepts(b, applied)
    ensures ExpectedPending(a, entries, n) == ExpectedPending(b, entries, n)
  {
    SortIgnoresOrder(ByWhen, a, b);
  }
}
