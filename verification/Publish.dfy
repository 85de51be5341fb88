/**
 * Publishing a signed receipt (scripts/backup/publish-receipt.ts): the write loop against a create-only store, and any
 * number of publishers interleaved over one store. Bytes and keys are opaque strings; the transport's own limits are a
 * failed fetch here.
 */
module Publish {
  import opened Wrappers

  type Key = string

  type Bytes = string

  type Objects = map<Key, Bytes>

  /** Everything that was there is there unchanged. */
  predicate Extends(before: Objects, after: Objects) {
    forall k :: k in before ==> k in after && after[k] == before[k]
  }

  datatype PutReply = Created | AlreadyExists | Ambiguous

  datatype WriteOutcome = WroteIt | FoundIt

  datatype Status = StatusCreated | StatusIdentical

  // ---------- One publisher and its store ----------

  /** What happens around one call: what others put in the store first, and how the call goes wrong. */
  datatype Weather = Weather(others: Objects, fault: Fault)

  datatype Fault = Fine | LostBefore | LostAfter | ReadError

  function PutInto(objects: Objects, key: Key, bytes: Bytes): Objects {
    if key in objects then objects else objects[key := bytes]
  }

  /** A store that creates and never overwrites. */
  class ObjectStore {
    var objects: Objects
    var writes: nat

    constructor (objects: Objects)
      ensures this.objects == objects && writes == 0
    {
      this.objects, writes := objects, 0;
    }

    method OthersWrite(others: Objects)
      modifies this`objects
      ensures objects == others + old(objects) && Extends(old(objects), objects)
    {
      objects := others + objects;
    }

    /** One conditional write. A lost request changes nothing; a lost reply may follow a write. */
    method PutIfAbsentOnce(key: Key, bytes: Bytes, w: Weather) returns (r: PutReply)
      modifies this
      ensures Extends(old(objects), objects) && writes == old(writes) + 1
      ensures var met := w.others + old(objects);
              && objects == (if w.fault == LostBefore then met else PutInto(met, key, bytes))
              && (w.fault == Fine ==> r == if key in met then AlreadyExists else Created)
      ensures r == Created ==> key !in old(objects) && key in objects && objects[key] == bytes
      ensures r == AlreadyExists ==> key in objects
      ensures r == Ambiguous <==> w.fault != Fine
    {
      OthersWrite(w.others);
      writes := writes + 1;
      if w.fault == LostBefore { return Ambiguous; }
      var present := key in objects;
      if !present { objects := objects[key := bytes]; }
      r := if w.fault == Fine then (if present then AlreadyExists else Created) else Ambiguous;
    }

    /** Whether the key is there, or None when the probe fails. */
    method Head(key: Key, w: Weather) returns (r: Option<bool>)
      modifies this`objects
      ensures objects == w.others + old(objects) && Extends(old(objects), objects)
      ensures r == if w.fault == Fine then Some(key in objects) else None
    {
      OthersWrite(w.others);
      r := if w.fault == Fine then Some(key in objects) else None;
    }

    /** The anonymous read-back, or None when the fetch fails. */
    method FetchOnce(key: Key, w: Weather) returns (r: Option<Bytes>)
      modifies this`objects
      ensures objects == w.others + old(objects) && Extends(old(objects), objects)
      ensures r == if w.fault == Fine && key in objects then Some(objects[key]) else None
    {
      OthersWrite(w.others);
      r := if w.fault == Fine && key in objects then Some(objects[key]) else None;
    }
  }

  // ---------- Publishers interleaved ----------

  datatype Job = Job(key: Key, bytes: Bytes, maxAttempts: nat, verifies: Bytes -> bool)

  datatype Pc =
    | Verify
    | Put(attempt: nat)
    | Probe(attempt: nat)
    | ReadBack(outcome: WriteOutcome)
    | Succeeded(status: Status)
    | Failed

  /** The store, the ambiguous writes that may still land, where each publisher is, and how often it wrote. */
  datatype World = World(objects: Objects, inFlight: seq<(Key, Bytes)>, pcs: seq<Pc>, writes: seq<nat>)

  /** How an ambiguous write may go: lost, done, or still under way. */
  datatype Fate = Lost | Landed | UnderWay

  datatype Event =
    | Checked(i: nat)
    | PutAnswered(i: nat, reply: PutReply, fate: Fate)
    | ProbeAnswered(i: nat, present: Option<bool>)
    | Fetched(i: nat, ok: bool)
    | Lands(n: nat)
    | Others(more: Objects)

  function StatusOf(outcome: WriteOutcome): Status {
    match outcome case WroteIt => StatusCreated case FoundIt => StatusIdentical
  }

  function Goto(w: World, i: nat, pc: Pc): World
    requires i < |w.pcs|
  {
    w.(pcs := w.pcs[i := pc])
  }

  predicate IsWorld(jobs: seq<Job>, w: World) {
    |w.pcs| == |jobs| == |w.writes|
  }

  /** The world after an event, if the event can happen. */
  function Step(jobs: seq<Job>, w: World, e: Event): Option<World>
    requires IsWorld(jobs, w)
  {
    match e
    case Others(more) => Some(w.(objects := more + w.objects))
    case Lands(n) =>
      if n >= |w.inFlight| then None
      else
        var (key, bytes) := w.inFlight[n];
        Some(w.(objects := PutInto(w.objects, key, bytes), inFlight := w.inFlight[..n] + w.inFlight[n + 1..]))
    case Checked(i) =>
      if i >= |jobs| || w.pcs[i] != Verify then None
      else if !jobs[i].verifies(jobs[i].bytes) || jobs[i].maxAttempts == 0 then Some(Goto(w, i, Failed))
      else Some(Goto(w, i, Put(1)))
    case PutAnswered(i, reply, fate) =>
      if i >= |jobs| || !w.pcs[i].Put? then None
      else
        var job := jobs[i];
        var sent := w.(writes := w.writes[i := w.writes[i] + 1]);
        (match reply
         case Created =>
           if job.key in w.objects then None
           else Some(Goto(sent.(objects := w.objects[job.key := job.bytes]), i, ReadBack(WroteIt)))
         case AlreadyExists => if job.key in w.objects then Some(Goto(sent, i, ReadBack(FoundIt))) else None
         case Ambiguous =>
           var after := match fate
             case Lost => sent
             case Landed => sent.(objects := PutInto(w.objects, job.key, job.bytes))
             case UnderWay => sent.(inFlight := w.inFlight + [(job.key, job.bytes)]);
           Some(Goto(after, i, Probe(w.pcs[i].attempt))))
    case ProbeAnswered(i, present) =>
      if i >= |jobs| || !w.pcs[i].Probe? then None
      else
        (match present
         case None => Some(Goto(w, i, Failed))
         case Some(true) => if jobs[i].key in w.objects then Some(Goto(w, i, ReadBack(FoundIt))) else None
         case Some(false) =>
           if jobs[i].key in w.objects then None
           else if w.pcs[i].attempt < jobs[i].maxAttempts then Some(Goto(w, i, Put(w.pcs[i].attempt + 1)))
           else Some(Goto(w, i, Failed)))
    case Fetched(i, ok) =>
      if i >= |jobs| || !w.pcs[i].ReadBack? then None
      else if !ok || jobs[i].key !in w.objects || w.objects[jobs[i].key] != jobs[i].bytes
              || !jobs[i].verifies(w.objects[jobs[i].key]) then Some(Goto(w, i, Failed))
      else Some(Goto(w, i, Succeeded(StatusOf(w.pcs[i].outcome))))
  }

  function Start(jobs: seq<Job>, objects: Objects): World {
    World(objects, [], seq(|jobs|, i => Verify), seq(|jobs|, i => 0))
  }

  /** The world after a list of events, if all of them can happen in turn. */
  function After(jobs: seq<Job>, w: World, events: seq<Event>): (r: Option<World>)
    requires IsWorld(jobs, w)
    ensures r.Some? ==> IsWorld(jobs, r.value)
    decreases |events|
  {
    if events == [] then Some(w)
    else
      match Step(jobs, w, events[0])
      case None => None
      case Some(w') => After(jobs, w', events[1..])
  }

  // ---------- The loop of one publisher ----------

  /** In the world of this one publisher and any others, the run leads to this state of the store and of the publisher. */
  ghost predicate Follows(job: Job, start: Objects, run: seq<Event>, objects: Objects, pc: Pc, writes: nat) {
    After([job], Start([job], start), run) == Some(World(objects, [], [pc], [writes]))
  }

  lemma {:induction false} AfterAppend(jobs: seq<Job>, w: World, a: seq<Event>, b: seq<Event>)
    requires IsWorld(jobs, w) && After(jobs, w, a).Some?
    ensures After(jobs, w, a + b) == After(jobs, After(jobs, w, a).value, b)
    decreases |a|
  {
    if a == [] {
      assert a + b == b;
    } else {
      assert (a + b)[1..] == a[1..] + b;
      var w' := Step(jobs, w, a[0]).value;
      assert After(jobs, w, a) == After(jobs, w', a[1..]);
      AfterAppend(jobs, w', a[1..], b);
    }
  }

  lemma FollowsOn(job: Job, start: Objects, run: seq<Event>, objects: Objects, pc: Pc, writes: nat, e: Event,
                  objects': Objects, pc': Pc, writes': nat)
    requires Follows(job, start, run, objects, pc, writes)
    requires Step([job], World(objects, [], [pc], [writes]), e) == Some(World(objects', [], [pc'], [writes']))
    ensures Follows(job, start, run + [e], objects', pc', writes')
  {
    hide Step;
    var w := World(objects, [], [pc], [writes]);
    AfterAppend([job], Start([job], start), run, [e]);
    assert [e][1..] == [];
    assert After([job], w, [e]) == Step([job], w, e);
  }

  /** Others go first, and then the write is answered. */
  lemma PutFollows(job: Job, start: Objects, run: seq<Event>, objects: Objects, attempt: nat, writes: nat, w: Weather, reply: PutReply)
    requires Follows(job, start, run, objects, Put(attempt), writes)
    requires reply == if w.fault != Fine then Ambiguous else if job.key in w.others + objects then AlreadyExists else Created
    ensures var met := w.others + objects;
            var e := PutAnswered(0, reply, if w.fault == LostBefore then Lost else Landed);
            Follows(job, start, run + [Others(w.others)] + [e],
                    if w.fault == LostBefore then met else PutInto(met, job.key, job.bytes),
                    match reply case Created => ReadBack(WroteIt) case AlreadyExists => ReadBack(FoundIt) case Ambiguous => Probe(attempt),
                    writes + 1)
  {
    hide Follows;
    var met := w.others + objects;
    var e := PutAnswered(0, reply, if w.fault == LostBefore then Lost else Landed);
    var after := if w.fault == LostBefore then met else PutInto(met, job.key, job.bytes);
    var pc := match reply case Created => ReadBack(WroteIt) case AlreadyExists => ReadBack(FoundIt) case Ambiguous => Probe(attempt);
    FollowsOn(job, start, run, objects, Put(attempt), writes, Others(w.others), met, Put(attempt), writes);
    assert [Put(attempt)][0 := pc] == [pc] && [writes][0 := writes + 1] == [writes + 1];
    FollowsOn(job, start, run + [Others(w.others)], met, Put(attempt), writes, e, after, pc, writes + 1);
  }

  /** Others go first, and then the probe is answered. */
  lemma ProbeFollows(job: Job, start: Objects, run: seq<Event>, objects: Objects, attempt: nat, writes: nat, w: Weather, present: Option<bool>)
    requires Follows(job, start, run, objects, Probe(attempt), writes)
    requires present == if w.fault == Fine then Some(job.key in w.others + objects) else None
    ensures Follows(job, start, run + [Others(w.others)] + [ProbeAnswered(0, present)], w.others + objects,
                    if present == Some(true) then ReadBack(FoundIt)
                    else if present == Some(false) && attempt < job.maxAttempts then Put(attempt + 1) else Failed,
                    writes)
  {
    hide Follows;
    var met := w.others + objects;
    var pc := if present == Some(true) then ReadBack(FoundIt)
              else if present == Some(false) && attempt < job.maxAttempts then Put(attempt + 1) else Failed;
    FollowsOn(job, start, run, objects, Probe(attempt), writes, Others(w.others), met, Probe(attempt), writes);
    assert [Probe(attempt)][0 := pc] == [pc];
    FollowsOn(job, start, run + [Others(w.others)], met, Probe(attempt), writes, ProbeAnswered(0, present), met, pc, writes);
  }

  lemma CheckFollows(job: Job, start: Objects)
    ensures Follows(job, start, [Checked(0)], start,
                    if !job.verifies(job.bytes) || job.maxAttempts == 0 then Failed else Put(1), 0)
  {
    var w := World(start, [], [Verify], [0]);
    assert Start([job], start) == w;
    assert After([job], w, []) == Some(w);
    var pc := if !job.verifies(job.bytes) || job.maxAttempts == 0 then Failed else Put(1);
    assert [Verify][0 := pc] == [pc];
    assert [] + [Checked(0)] == [Checked(0)];
    FollowsOn(job, start, [], start, Verify, 0, Checked(0), start, pc, 0);
  }

  lemma FetchFollows(job: Job, start: Objects, run: seq<Event>, objects: Objects, outcome: WriteOutcome, writes: nat, w: Weather, ok: bool)
    requires Follows(job, start, run, objects, ReadBack(outcome), writes)
    ensures var met := w.others + objects;
            Follows(job, start, run + [Others(w.others)] + [Fetched(0, ok)], met,
                    if ok && job.key in met && met[job.key] == job.bytes && job.verifies(job.bytes) then Succeeded(StatusOf(outcome)) else Failed,
                    writes)
  {
    hide Follows;
    var met := w.others + objects;
    var pc := if ok && job.key in met && met[job.key] == job.bytes && job.verifies(job.bytes) then Succeeded(StatusOf(outcome)) else Failed;
    FollowsOn(job, start, run, objects, ReadBack(outcome), writes, Others(w.others), met, ReadBack(outcome), writes);
    assert [ReadBack(outcome)][0 := pc] == [pc];
    FollowsOn(job, start, run + [Others(w.others)], met, ReadBack(outcome), writes, Fetched(0, ok), met, pc, writes);
  }

  /** The bounded write loop. None stands for an unconfirmed write or a failed probe. The events in `run` take the
      publisher of the interleaved model through the same states. */
  method CreateOnlyWrite(store: ObjectStore, key: Key, bytes: Bytes, maxAttempts: nat,
                         puts: nat -> Weather, heads: nat -> Weather,
                         ghost job: Job, ghost start: Objects, ghost before: seq<Event>)
    returns (r: Option<WriteOutcome>, ghost run: seq<Event>)
    requires job.key == key && job.bytes == bytes && job.maxAttempts == maxAttempts
    requires Follows(job, start, before, store.objects, if maxAttempts == 0 then Failed else Put(1), 0)
    modifies store
    ensures old(store.writes) <= store.writes
    ensures Follows(job, start, run, store.objects, if r.Some? then ReadBack(r.value) else Failed, store.writes - old(store.writes))
    ensures Extends(old(store.objects), store.objects)
    ensures store.writes <= old(store.writes) + maxAttempts
    ensures r == Some(WroteIt) ==> key !in old(store.objects) && key in store.objects && store.objects[key] == bytes
    ensures r == Some(FoundIt) ==> key in store.objects
    ensures forall a :: 1 <= a < store.writes - old(store.writes) ==> puts(a).fault != Fine && heads(a).fault == Fine
    ensures r == None && maxAttempts > 0 ==>
              && store.writes > old(store.writes)
              && var last := store.writes - old(store.writes);
                 puts(last).fault != Fine && (last == maxAttempts || heads(last).fault != Fine)
  {
    hide Follows, PutInto;
    var attempt := 1;
    run := before;
    while attempt <= maxAttempts
      invariant 1 <= attempt <= maxAttempts + 1
      invariant Follows(job, start, run, store.objects, if attempt <= maxAttempts then Put(attempt) else Failed, attempt - 1)
      invariant Extends(old(store.objects), store.objects)
      invariant store.writes == old(store.writes) + attempt - 1
      invariant forall a :: 1 <= a < attempt ==> puts(a).fault != Fine && heads(a).fault == Fine
    {
      ghost var objects := store.objects;
      var reply := store.PutIfAbsentOnce(key, bytes, puts(attempt));
      PutFollows(job, start, run, objects, attempt, attempt - 1, puts(attempt), reply);
      run := run + [Others(puts(attempt).others)]
             + [PutAnswered(0, reply, if puts(attempt).fault == LostBefore then Lost else Landed)];
      if reply == Created { return Some(WroteIt), run; }
      if reply == AlreadyExists { return Some(FoundIt), run; }
      objects := store.objects;
      var present := store.Head(key, heads(attempt));
      ProbeFollows(job, start, run, objects, attempt, attempt, heads(attempt), present);
      run := run + [Others(heads(attempt).others)] + [ProbeAnswered(0, present)];
      if present.None? { return None, run; }
      if present.value { return Some(FoundIt), run; }
      attempt := attempt + 1;
    }
    return None, run;
  }

  /** Verify, write, read back, compare, verify again: a run of one publisher of the interleaved model among others. */
  method PublishReceipt(store: ObjectStore, key: Key, bytes: Bytes, maxAttempts: nat, verifies: Bytes -> bool,
                        puts: nat -> Weather, heads: nat -> Weather, fetch: Weather)
    returns (r: Option<Status>, ghost run: seq<Event>)
    modifies store
    ensures old(store.writes) <= store.writes
    ensures Follows(Job(key, bytes, maxAttempts, verifies), old(store.objects), run, store.objects,
                    if r.Some? then Succeeded(r.value) else Failed, store.writes - old(store.writes))
    ensures Extends(old(store.objects), store.objects)
    ensures store.writes <= old(store.writes) + maxAttempts
    ensures !verifies(bytes) ==> r == None && store.writes == old(store.writes)
    ensures r.Some? ==> verifies(bytes) && key in store.objects && store.objects[key] == bytes
    ensures r == Some(StatusCreated) ==> key !in old(store.objects)
    ensures r.Some? ==> fetch.fault == Fine
    ensures verifies(bytes) && maxAttempts > 0 && puts(1).fault == Fine && fetch.fault == Fine ==>
              (r.Some? <==> key in store.objects && store.objects[key] == bytes)
  {
    hide Follows;
    ghost var job, start := Job(key, bytes, maxAttempts, verifies), store.objects;
    CheckFollows(job, start);
    run := [Checked(0)];
    if !verifies(bytes) { return None, run; }
    var outcome;
    outcome, run := CreateOnlyWrite(store, key, bytes, maxAttempts, puts, heads, job, start, run);
    if outcome.None? { return None, run; }
    ghost var objects, writes := store.objects, store.writes - old(store.writes);
    var remote := store.FetchOnce(key, fetch);
    FetchFollows(job, start, run, objects, outcome.value, writes, fetch, remote.Some?);
    run := run + [Others(fetch.others)] + [Fetched(0, remote.Some?)];
    if remote.None? || remote.value != bytes { return None, run; }
    if !verifies(remote.value) { return None, run; }
    return Some(if outcome.value == WroteIt then StatusCreated else StatusIdentical), run;
  }

  // ---------- What every run keeps ----------

  /** How many conditional writes a publisher at this point has sent. */
  predicate WritesMatch(job: Job, pc: Pc, writes: nat) {
    match pc
    case Verify => writes == 0
    case Put(attempt) => 1 <= attempt <= job.maxAttempts && writes == attempt - 1
    case Probe(attempt) => 1 <= attempt <= job.maxAttempts && writes == attempt
    case _ => writes <= job.maxAttempts
  }

  /** A publisher that found its object, wrote it, or is done with it can be sure of this much. */
  predicate KnowsStore(job: Job, pc: Pc, objects: Objects) {
    match pc
    case ReadBack(WroteIt) => job.key in objects && objects[job.key] == job.bytes
    case ReadBack(FoundIt) => job.key in objects
    case Succeeded(_) => job.key in objects && objects[job.key] == job.bytes && job.verifies(job.bytes)
    case _ => true
  }

  ghost predicate Inv(jobs: seq<Job>, w: World) {
    && IsWorld(jobs, w)
    && (forall i :: 0 <= i < |jobs| ==> WritesMatch(jobs[i], w.pcs[i], w.writes[i]))
    && (forall i :: 0 <= i < |jobs| ==> KnowsStore(jobs[i], w.pcs[i], w.objects))
  }

  /** One publisher moves, and the store only grows. */
  lemma OneMoves(jobs: seq<Job>, w: World, w': World, i: nat)
    requires Inv(jobs, w) && IsWorld(jobs, w') && i < |jobs| && Extends(w.objects, w'.objects)
    requires forall k :: 0 <= k < |jobs| && k != i ==> w'.pcs[k] == w.pcs[k] && w'.writes[k] == w.writes[k]
    requires WritesMatch(jobs[i], w'.pcs[i], w'.writes[i]) && KnowsStore(jobs[i], w'.pcs[i], w'.objects)
    ensures Inv(jobs, w')
  {
    forall k | 0 <= k < |jobs| ensures KnowsStore(jobs[k], w'.pcs[k], w'.objects) {
      assert KnowsStore(jobs[k], w.pcs[k], w.objects);
    }
    forall k | 0 <= k < |jobs| ensures WritesMatch(jobs[k], w'.pcs[k], w'.writes[k]) {
      assert WritesMatch(jobs[k], w.pcs[k], w.writes[k]);
    }
  }

  function Mover(e: Event): Option<nat> {
    match e
    case Lands(_) => None
    case Others(_) => None
    case Checked(i) => Some(i)
    case PutAnswered(i, _, _) => Some(i)
    case ProbeAnswered(i, _) => Some(i)
    case Fetched(i, _) => Some(i)
  }

  lemma StepMovesOne(jobs: seq<Job>, w: World, e: Event, i: nat)
    requires IsWorld(jobs, w) && Step(jobs, w, e).Some? && Mover(e) == Some(i)
    requires i < |jobs| ==> WritesMatch(jobs[i], w.pcs[i], w.writes[i]) && KnowsStore(jobs[i], w.pcs[i], w.objects)
    ensures i < |jobs|
    ensures var w' := Step(jobs, w, e).value;
            && IsWorld(jobs, w') && Extends(w.objects, w'.objects)
            && (forall k :: 0 <= k < |jobs| && k != i ==> w'.pcs[k] == w.pcs[k] && w'.writes[k] == w.writes[k])
            && WritesMatch(jobs[i], w'.pcs[i], w'.writes[i]) && KnowsStore(jobs[i], w'.pcs[i], w'.objects)
  {
  }

  /** The invariant holds after every event, and no event changes what is stored. */
  lemma StepKeeps(jobs: seq<Job>, w: World, e: Event)
    requires Inv(jobs, w) && Step(jobs, w, e).Some?
    ensures Inv(jobs, Step(jobs, w, e).value) && Extends(w.objects, Step(jobs, w, e).value.objects)
  {
    var w' := Step(jobs, w, e).value;
    if Mover(e).Some? {
      var i := Mover(e).value;
      assert i < |jobs| by { hide Inv, WritesMatch, KnowsStore; }
      assert WritesMatch(jobs[i], w.pcs[i], w.writes[i]) && KnowsStore(jobs[i], w.pcs[i], w.objects);
      hide Step, Inv, WritesMatch, KnowsStore, Extends;
      StepMovesOne(jobs, w, e, i);
      OneMoves(jobs, w, w', i);
    } else {
      hide WritesMatch;
      forall k | 0 <= k < |jobs| ensures KnowsStore(jobs[k], w'.pcs[k], w'.objects) {
        assert KnowsStore(jobs[k], w.pcs[k], w.objects);
      }
    }
  }

  /** Whoever succeeded stays so. */
  lemma SuccessStays(jobs: seq<Job>, w: World, e: Event, i: nat)
    requires IsWorld(jobs, w) && Step(jobs, w, e).Some? && i < |jobs| && w.pcs[i].Succeeded?
    ensures Step(jobs, w, e).value.pcs[i] == w.pcs[i]
  {
  }

  lemma InvIsWorld(jobs: seq<Job>, w: World)
    requires Inv(jobs, w)
    ensures IsWorld(jobs, w)
  {
  }

  lemma {:induction false} RunKeeps(jobs: seq<Job>, w: World, events: seq<Event>)
    requires Inv(jobs, w) && After(jobs, w, events).Some?
    ensures Inv(jobs, After(jobs, w, events).value) && Extends(w.objects, After(jobs, w, events).value.objects)
    ensures forall i :: 0 <= i < |jobs| && w.pcs[i].Succeeded? ==> After(jobs, w, events).value.pcs[i] == w.pcs[i]
    decreases events
  {
    hide Step, Inv;
    if events != [] {
      assert IsWorld(jobs, w) by { InvIsWorld(jobs, w); }
      var w' := Step(jobs, w, events[0]).value;
      StepKeeps(jobs, w, events[0]);
      InvIsWorld(jobs, w');
      forall i | 0 <= i < |jobs| && w.pcs[i].Succeeded? ensures w'.pcs[i] == w.pcs[i] {
        SuccessStays(jobs, w, events[0], i);
      }
      RunKeeps(jobs, w', events[1..]);
    }
  }

  /** A run of these publishers from a store with these objects. */
  ghost predicate Run(jobs: seq<Job>, objects: Objects, events: seq<Event>, w: World) {
    After(jobs, Start(jobs, objects), events) == Some(w)
  }

  lemma StartInv(jobs: seq<Job>, objects: Objects)
    ensures Inv(jobs, Start(jobs, objects))
  {
  }

  lemma RunInv(jobs: seq<Job>, objects: Objects, events: seq<Event>, w: World)
    requires Run(jobs, objects, events, w)
    ensures Inv(jobs, w) && Extends(objects, w.objects)
  {
    hide Inv, After;
    StartInv(jobs, objects);
    RunKeeps(jobs, Start(jobs, objects), events);
  }

  /**
   * In every run, however its steps interleave and its writes go astray: whoever succeeded has its exact, verified
   * bytes at its locator, at that point and at every later one.
   */
  lemma SuccessIsForever(jobs: seq<Job>, objects: Objects, events: seq<Event>, w: World,
                         more: seq<Event>, later: World, i: nat)
    requires Run(jobs, objects, events, w) && After(jobs, w, more) == Some(later)
    requires i < |jobs| && w.pcs[i].Succeeded?
    ensures jobs[i].verifies(jobs[i].bytes) && later.pcs[i] == w.pcs[i]
    ensures jobs[i].key in later.objects && later.objects[jobs[i].key] == jobs[i].bytes
  {
    RunInv(jobs, objects, events, w);
    RunKeeps(jobs, w, more);
    assert KnowsStore(jobs[i], later.pcs[i], later.objects);
  }

  /** Two publishers of different bytes never both succeed at one locator. */
  lemma NoTwoReceiptsAtOneLocator(jobs: seq<Job>, objects: Objects, events: seq<Event>, w: World, i: nat, k: nat)
    requires Run(jobs, objects, events, w) && i < |jobs| && k < |jobs| && jobs[i].key == jobs[k].key
    requires w.pcs[i].Succeeded? && w.pcs[k].Succeeded?
    ensures jobs[i].bytes == jobs[k].bytes
  {
    RunInv(jobs, objects, events, w);
    assert KnowsStore(jobs[i], w.pcs[i], w.objects) && KnowsStore(jobs[k], w.pcs[k], w.objects);
  }

  /** No publisher sends more conditional writes than it is allowed. */
  lemma WritesAreBounded(jobs: seq<Job>, objects: Objects, events: seq<Event>, w: World, i: nat)
    requires Run(jobs, objects, events, w) && i < |jobs|
    ensures w.writes[i] <= jobs[i].maxAttempts
  {
    RunInv(jobs, objects, events, w);
    assert WritesMatch(jobs[i], w.pcs[i], w.writes[i]);
  }

  // ---------- Who created the object ----------

  predicate SaysItWrote(pc: Pc) {
    pc == ReadBack(WroteIt) || pc == Succeeded(StatusCreated)
  }

  /** At most one publisher of a locator was told it created the object, and then the object was not there before. */
  ghost predicate OneCreator(jobs: seq<Job>, objects: Objects, w: World) {
    && IsWorld(jobs, w)
    && (forall i :: 0 <= i < |jobs| && SaysItWrote(w.pcs[i]) ==> jobs[i].key in w.objects && jobs[i].key !in objects)
    && (forall i, k :: 0 <= i < k < |jobs| && SaysItWrote(w.pcs[i]) && SaysItWrote(w.pcs[k]) ==>
          jobs[i].key != jobs[k].key)
  }

  lemma StepCreates(jobs: seq<Job>, w: World, e: Event, k: nat)
    requires IsWorld(jobs, w) && Step(jobs, w, e).Some? && k < |jobs|
    ensures SaysItWrote(Step(jobs, w, e).value.pcs[k]) && !SaysItWrote(w.pcs[k]) ==>
              Mover(e) == Some(k) && jobs[k].key !in w.objects && jobs[k].key in Step(jobs, w, e).value.objects
    ensures Extends(w.objects, Step(jobs, w, e).value.objects)
  {
  }

  lemma StepKeepsOneCreator(jobs: seq<Job>, objects: Objects, w: World, e: Event)
    requires OneCreator(jobs, objects, w) && Extends(objects, w.objects) && Step(jobs, w, e).Some?
    requires IsWorld(jobs, Step(jobs, w, e).value)
    ensures OneCreator(jobs, objects, Step(jobs, w, e).value)
  {
    hide Step, SaysItWrote;
    var w' := Step(jobs, w, e).value;
    forall k | 0 <= k < |jobs| && SaysItWrote(w'.pcs[k])
      ensures jobs[k].key in w'.objects && jobs[k].key !in objects
    {
      StepCreates(jobs, w, e, k);
    }
    forall i, k | 0 <= i < k < |jobs| && SaysItWrote(w'.pcs[i]) && SaysItWrote(w'.pcs[k])
      ensures jobs[i].key != jobs[k].key
    {
      StepCreates(jobs, w, e, i);
      StepCreates(jobs, w, e, k);
    }
  }

  lemma {:induction false} RunKeepsOneCreator(jobs: seq<Job>, objects: Objects, w: World, events: seq<Event>)
    requires OneCreator(jobs, objects, w) && Extends(objects, w.objects) && Inv(jobs, w)
    requires After(jobs, w, events).Some?
    ensures OneCreator(jobs, objects, After(jobs, w, events).value)
    decreases |events|
  {
    hide Step, Inv, OneCreator;
    if events != [] {
      assert IsWorld(jobs, w) by { InvIsWorld(jobs, w); }
      var w' := Step(jobs, w, events[0]).value;
      StepKeeps(jobs, w, events[0]);
      InvIsWorld(jobs, w');
      StepKeepsOneCreator(jobs, objects, w, events[0]);
      RunKeepsOneCreator(jobs, objects, w', events[1..]);
    }
  }

  /** Of several publishers of one locator, at most one reports that it created the object. */
  lemma AtMostOneCreates(jobs: seq<Job>, objects: Objects, events: seq<Event>, w: World, i: nat, k: nat)
    requires Run(jobs, objects, events, w) && i < |jobs| && k < |jobs| && jobs[i].key == jobs[k].key
    requires w.pcs[i] == Succeeded(StatusCreated) && w.pcs[k] == Succeeded(StatusCreated)
    ensures i == k && jobs[i].key !in objects
  {
    StartInv(jobs, objects);
    RunKeepsOneCreator(jobs, objects, Start(jobs, objects), events);
    assert SaysItWrote(w.pcs[i]) && SaysItWrote(w.pcs[k]);
  }

  // ---------- What precedes success ----------

  /** What has to have happened to a publisher for it to be where it is. */
  ghost predicate CameFrom(events: seq<Event>, i: nat, pc: Pc) {
    match pc
    case ReadBack(WroteIt) => exists n :: 0 <= n < |events| && events[n].PutAnswered? && events[n].i == i && events[n].reply == Created
    case ReadBack(FoundIt) =>
      exists n :: 0 <= n < |events| && (events[n] == ProbeAnswered(i, Some(true)) || SaysExists(events[n], i))
    case Succeeded(_) => exists n :: 0 <= n < |events| && events[n] == Fetched(i, true)
    case _ => true
  }

  predicate SaysExists(e: Event, i: nat) {
    e.PutAnswered? && e.i == i && e.reply == AlreadyExists
  }

  lemma CameFromStays(events: seq<Event>, e: Event, i: nat, pc: Pc)
    requires CameFrom(events, i, pc)
    ensures CameFrom(events + [e], i, pc)
  {
    var all := events + [e];
    assert forall n :: 0 <= n < |events| ==> all[n] == events[n];
  }

  lemma StepCameFrom(jobs: seq<Job>, w: World, events: seq<Event>, e: Event, i: nat)
    requires IsWorld(jobs, w) && Step(jobs, w, e).Some? && i < |jobs| && CameFrom(events, i, w.pcs[i])
    ensures CameFrom(events + [e], i, Step(jobs, w, e).value.pcs[i])
  {
    CameFromStays(events, e, i, w.pcs[i]);
    assert (events + [e])[|events|] == e;
  }

  lemma {:induction false} RunCameFrom(jobs: seq<Job>, w: World, before: seq<Event>, events: seq<Event>, i: nat)
    requires IsWorld(jobs, w) && i < |jobs| && CameFrom(before, i, w.pcs[i]) && After(jobs, w, events).Some?
    ensures CameFrom(before + events, i, After(jobs, w, events).value.pcs[i])
    decreases |events|
  {
    hide CameFrom;
    if events == [] {
      assert before + events == before;
    } else {
      StepCameFrom(jobs, w, before, events[0], i);
      RunCameFrom(jobs, Step(jobs, w, events[0]).value, before + [events[0]], events[1..], i);
      assert before + [events[0]] + events[1..] == before + events;
    }
  }

  /** No publisher succeeds without a read-back that came through; and one that says it created the object was told so. */
  lemma SuccessWasReadBack(jobs: seq<Job>, objects: Objects, events: seq<Event>, w: World, i: nat)
    requires Run(jobs, objects, events, w) && i < |jobs| && w.pcs[i].Succeeded?
    ensures exists n :: 0 <= n < |events| && events[n] == Fetched(i, true)
  {
    RunCameFrom(jobs, Start(jobs, objects), [], events, i);
    assert [] + events == events;
  }
}
