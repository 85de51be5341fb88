/**
 * The pre-migration gate (scripts/backup/premigration-gate.ts), the receipt signer's migration facts
 * (scripts/backup/sign-staging-receipt.ts) and the runtime migration set both read
 * (scripts/backup/runtime-migration-set.ts). None stands for a thrown error.
 */
module Gate {
  import opened Wrappers
  import opened IntSort
  import opened Migration

  datatype JournalEntry = JournalEntry(idx: int, tag: string, when: int)

  /** A migration file: its place, its name, and the length and hash of its bytes. */
  datatype RuntimeEntry =
    RuntimeEntry(migrationIndex: int, migrationTag: string, migrationPath: string, byteLength: nat, sha256: string)

  function ByWhen(j: JournalEntry): int {
    j.when
  }

  function ByIndex(e: RuntimeEntry): int {
    e.migrationIndex
  }

  function JournalWhens(journal: seq<JournalEntry>): seq<int> {
    seq(|journal|, i requires 0 <= i < |journal| => journal[i].when)
  }

  // ---------- The runtime migration set ----------

  predicate DistinctTags(files: seq<RuntimeEntry>) {
    forall i, j :: 0 <= i < j < |files| ==> files[i].migrationTag != files[j].migrationTag
  }

  predicate DistinctPaths(files: seq<RuntimeEntry>) {
    forall i, j :: 0 <= i < j < |files| ==> files[i].migrationPath != files[j].migrationPath
  }

  /** No index, tag or path occurs twice. */
  predicate NoRepeats(files: seq<RuntimeEntry>) {
    DistinctKeys(ByIndex, files) && DistinctTags(files) && DistinctPaths(files)
  }

  /** `wellNamed` is the tag and path syntax. */
  predicate AllNamed(wellNamed: (string, string) -> bool, files: seq<RuntimeEntry>) {
    forall i :: 0 <= i < |files| ==> files[i].migrationIndex >= 0 && wellNamed(files[i].migrationTag, files[i].migrationPath)
  }

  function RuntimeSet(wellNamed: (string, string) -> bool, files: seq<RuntimeEntry>): Option<seq<RuntimeEntry>> {
    if AllNamed(wellNamed, files) && NoRepeats(files) then Some(SortBy(ByIndex, files)) else None
  }

  method ComputeRuntimeMigrationSet(wellNamed: (string, string) -> bool, files: seq<RuntimeEntry>)
    returns (r: Option<seq<RuntimeEntry>>)
    ensures r == RuntimeSet(wellNamed, files)
  {
    var seenIdx: set<int>, seenTag: set<string>, seenPath: set<string> := {}, {}, {};
    var entries: seq<RuntimeEntry> := [];
    for i := 0 to |files|
      invariant entries == files[..i]
      invariant AllNamed(wellNamed, files[..i]) && NoRepeats(files[..i])
      invariant seenIdx == set k | 0 <= k < i :: files[k].migrationIndex
      invariant seenTag == set k | 0 <= k < i :: files[k].migrationTag
      invariant seenPath == set k | 0 <= k < i :: files[k].migrationPath
    {
      var f := files[i];
      if f.migrationIndex < 0 || !wellNamed(f.migrationTag, f.migrationPath) { return None; }
      if f.migrationIndex in seenIdx || f.migrationTag in seenTag || f.migrationPath in seenPath { return None; }
      seenIdx := seenIdx + {f.migrationIndex};
      seenTag := seenTag + {f.migrationTag};
      seenPath := seenPath + {f.migrationPath};
      entries := entries + [f];
    }
    assert files[..|files|] == files;
    return Some(SortBy(ByIndex, entries));
  }

  // ---------- The gate ----------

  predicate RisingRows(applied: seq<Applied>) {
    forall i, j :: 0 <= i < j < |applied| ==> applied[i].createdAt < applied[j].createdAt
  }

  /** The applied rows the gate lets through: a rising, clean prefix of the journal in timestamp order. */
  predicate GateAccepts(journal: seq<JournalEntry>, applied: seq<Applied>) {
    CleanPrefix(JournalWhens(SortBy(ByWhen, journal)), applied) && RisingRows(applied)
  }

  method AppliedIsCleanPrefix(journal: seq<JournalEntry>, applied: seq<Applied>) returns (ok: bool)
    ensures ok == GateAccepts(journal, applied)
  {
    hide SortBy;
    var sorted := SortBy(ByWhen, journal);
    if |applied| > |sorted| { return false; }
    var seenHash: set<string>, seenWhen: set<int> := {}, {};
    for i := 0 to |applied|
      invariant CleanPrefix(JournalWhens(sorted), applied[..i]) && RisingRows(applied[..i])
      invariant seenHash == set k | 0 <= k < i :: applied[k].hash
      invariant seenWhen == set k | 0 <= k < i :: applied[k].createdAt
    {
      var a := applied[i];
      if a.createdAt in seenWhen { return false; }
      if a.hash in seenHash { return false; }
      if i > 0 && !(applied[i - 1].createdAt < a.createdAt) { return false; }
      if a.createdAt != sorted[i].when { return false; }
      seenHash := seenHash + {a.hash};
      seenWhen := seenWhen + {a.createdAt};
    }
    assert applied[..|applied|] == applied;
    return true;
  }

  /** The file of a tag; of several, the last. */
  function EntryFor(entries: seq<RuntimeEntry>, tag: string): Option<RuntimeEntry> {
    if entries == [] then None
    else if entries[|entries| - 1].migrationTag == tag then Some(entries[|entries| - 1])
    else EntryFor(entries[..|entries| - 1], tag)
  }

  function EntriesFor(entries: seq<RuntimeEntry>, pending: seq<JournalEntry>): Option<seq<RuntimeEntry>> {
    if pending == [] then Some([])
    else
      match (EntryFor(entries, pending[0].tag), EntriesFor(entries, pending[1..]))
      case (Some(e), Some(rest)) => Some([e] + rest)
      case _ => None
  }

  /** The pending files the gate demands, after the first n journal entries in timestamp order. */
  function ExpectedPending(journal: seq<JournalEntry>, entries: seq<RuntimeEntry>, n: nat): Option<seq<RuntimeEntry>> {
    var sorted := SortBy(ByWhen, journal);
    match EntriesFor(entries, if n <= |sorted| then sorted[n..] else [])
    case None => None
    case Some(pending) => Some(SortBy(ByIndex, pending))
  }

  // ---------- The signer ----------

  function From(entries: seq<RuntimeEntry>, appliedCount: int): seq<RuntimeEntry> {
    if entries == [] then []
    else if entries[0].migrationIndex >= appliedCount then [entries[0]] + From(entries[1..], appliedCount)
    else From(entries[1..], appliedCount)
  }

  datatype Pins = Pins(endpoint: string, count: nat)

  /** The pending files a receipt signs. */
  function SignedPending(entries: seq<RuntimeEntry>, appliedCount: int, pins: Pins): Option<seq<RuntimeEntry>> {
    var sorted := SortBy(ByIndex, entries);
    var endpoint := if sorted == [] then "" else sorted[|sorted| - 1].migrationTag;
    if endpoint != pins.endpoint || |sorted| != pins.count || !(0 <= appliedCount <= |sorted|) then None
    else Some(From(sorted, appliedCount))
  }

  // ---------- The receipt ----------

  predicate RisingIndexes(entries: seq<RuntimeEntry>) {
    forall i, j :: 0 <= i < j < |entries| ==> entries[i].migrationIndex < entries[j].migrationIndex
  }

  /** Strictly rising index, no tag and no path twice. */
  predicate CanonicalPending(entries: seq<RuntimeEntry>) {
    RisingIndexes(entries) && DistinctTags(entries) && DistinctPaths(entries)
  }

  method ValidatePendingCanonical(entries: seq<RuntimeEntry>) returns (ok: bool)
    ensures ok == CanonicalPending(entries)
  {
    var tags: set<string>, paths: set<string> := {}, {};
    for i := 0 to |entries|
      invariant RisingIndexes(entries[..i]) && DistinctTags(entries[..i]) && DistinctPaths(entries[..i])
      invariant tags == set k | 0 <= k < i :: entries[k].migrationTag
      invariant paths == set k | 0 <= k < i :: entries[k].migrationPath
    {
      if i > 0 && !(entries[i - 1].migrationIndex < entries[i].migrationIndex) { return false; }
      if entries[i].migrationTag in tags || entries[i].migrationPath in paths { return false; }
      tags := tags + {entries[i].migrationTag};
      paths := paths + {entries[i].migrationPath};
    }
    assert entries[..|entries|] == entries;
    return true;
  }

  method EqualPending(a: seq<RuntimeEntry>, b: seq<RuntimeEntry>) returns (equal: bool)
    ensures equal <==> a == b
  {
    if |a| != |b| { return false; }
    for i := 0 to |a|
      invariant a[..i] == b[..i]
    {
      if a[i] != b[i] { return false; }
    }
    assert a == a[..|a|] && b == b[..|b|];
    return true;
  }
}
