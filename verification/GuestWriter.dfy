/**
 * The guest file writer (guest/king-file-write-v1/king-file-write-v1.c): the worker's sequence of system calls on one
 * directory, each of which may fail and before each of which others may change anything. SHA-256 is a parameter.
 */
module GuestWriter {
  import opened Wrappers
  import opened GuestTarget
  import Utf8

  type Name = Utf8.Bytes

  type Content = Utf8.Bytes

  type Ino = nat

  /** What one read of the payload may return before its end. */
  type Chunk = bytes: Utf8.Bytes | 0 < |bytes| <= 8192 witness [0x20]

  datatype Node = Node(content: Content, regular: bool, links: nat)

  /** A directory, and the files its names stand for. */
  datatype Disk = Disk(names: map<Name, Ino>, nodes: map<Ino, Node>)

  datatype Operation = Create | Replace

  datatype Outcome = Blocked | Failed | Uncertain | Succeeded

  /** What a system call of the worker did, or what it found. `Nothing` is a call that failed or has no effect here;
      `NotInstalled` is a rename that failed. */
  datatype Deed =
    | Nothing
    | Absent(name: Name)
    | Opened(name: Name, ino: Ino)
    | Inspected(ino: Ino, node: Node)
    | Hashed(ino: Ino, digest: Content)
    | SyncedFile
    | SyncedDirectory
    | Staged
    | Installed
    | NotInstalled

  /** A system call, with the disk right before it, when others have had their turn, and right after it. */
  datatype Call = Call(before: Disk, after: Disk, deed: Deed)

  /** Apart from one name and one file, nothing differs. */
  ghost predicate OnlyDiffer(a: Disk, b: Disk, name: Name, ino: Ino) {
    && (forall n :: n != name ==> (n in a.names <==> n in b.names))
    && (forall n :: n != name && n in a.names ==> a.names[n] == b.names[n])
    && (forall i :: i != ino ==> (i in a.nodes <==> i in b.nodes))
    && (forall i :: i != ino && i in a.nodes ==> a.nodes[i] == b.nodes[i])
  }

  /** The name is that of a plain, singly linked file whose content has the hash. */
  predicate Holds(disk: Disk, name: Name, hash: Content -> Content, digest: Content) {
    && name in disk.names && disk.names[name] in disk.nodes
    && var node := disk.nodes[disk.names[name]];
       node.regular && node.links == 1 && hash(node.content) == digest
  }

  /** A rename. Two names of one file stay as they are. */
  function Moved(names: map<Name, Ino>, from: Name, to: Name): map<Name, Ino>
    requires from in names
  {
    if to in names && names[to] == names[from] then names else (names - {from})[to := names[from]]
  }

  /** A write at an offset; a gap is filled with zeros. */
  function Overwritten(content: Content, offset: nat, bytes: Utf8.Bytes): Content {
    var padded := if |content| < offset then content + seq(offset - |content|, _ => 0) else content;
    padded[..offset] + bytes + (if offset + |bytes| < |padded| then padded[offset + |bytes|..] else [])
  }

  predicate IsRename(deed: Deed) {
    deed.Installed? || deed.NotInstalled?
  }

  /** How often the worker tried to move the staged file to its place. */
  function Renames(log: seq<Call>): nat {
    if log == [] then 0 else Renames(log[..|log| - 1]) + if IsRename(log[|log| - 1].deed) then 1 else 0
  }

  ghost predicate Did(log: seq<Call>, deed: Deed) {
    exists k :: 0 <= k < |log| && log[k].deed == deed
  }

  /** The last three calls opened the name, found its file singly linked, and hashed what is in it. */
  predicate Seen(log: seq<Call>, name: Name, ino: Ino, digest: Content) {
    && |log| >= 3
    && log[|log| - 3].deed == Opened(name, ino)
    && log[|log| - 2].deed.Inspected? && log[|log| - 2].deed.ino == ino && log[|log| - 2].deed.node.links == 1
    && log[|log| - 1].deed == Hashed(ino, digest)
  }

  /** And they found it to be a plain file. */
  predicate SeenPlain(log: seq<Call>, name: Name, ino: Ino, digest: Content) {
    Seen(log, name, ino, digest) && log[|log| - 2].deed.node.regular
  }

  lemma OneMoreCall(log: seq<Call>, c: Call)
    ensures Renames(log + [c]) == Renames(log) + if IsRename(c.deed) then 1 else 0
    ensures (log + [c])[..|log|] == log
  {
    assert (log + [c])[..|log|] == log;
  }

  lemma DidStays(a: seq<Call>, b: seq<Call>, deed: Deed)
    requires a <= b && Did(a, deed)
    ensures Did(b, deed)
  {
    var k :| 0 <= k < |a| && a[k].deed == deed;
    assert b[k].deed == deed;
  }

  predicate ValidSha256(value: Content) {
    |value| == 64 && forall i :: 0 <= i < 64 ==> 0x30 <= value[i] <= 0x39 || 0x61 <= value[i] <= 0x66
  }

  /** What a worker is asked to do. `ino` is the number its staged file would get. */
  datatype Request = Request(
    op: Operation,
    target: Name,
    expected: Content,
    desired: Content,
    chunks: seq<Chunk>,
    pid: Name,
    ino: Ino)
  {
    function Leaf(): Name {
      LeafOf(target)
    }

    function Temp(): Name {
      TempName(pid)
    }

    function Payload(): Content {
      Utf8.Joined(chunks)
    }

    /** The payload is short enough and text. */
    predicate PayloadIsText() {
      |Payload()| <= 262_144 && Utf8.ChunksPass(chunks)
    }

    /** The disk with a staged file of this content. */
    function WithStaged(d: Disk, content: Content): Disk {
      Disk(d.names[Temp() := ino], d.nodes[ino := Node(content, true, 1)])
    }

    /** The disk with the payload in its place. */
    function WithTarget(d: Disk): Disk {
      Disk(d.names[Leaf() := ino], d.nodes[ino := Node(Payload(), true, 1)])
    }
  }

  /** What a call reports is so on the disk it met; changes touch the staged file only, or move it to its place, a create
      never over anything. */
  ghost predicate Fair(q: Request, hash: Content -> Content, c: Call) {
    match c.deed
    case Nothing => c.after == c.before
    case NotInstalled => c.after == c.before
    case SyncedFile => c.after == c.before
    case SyncedDirectory => c.after == c.before
    case Absent(name) => c.after == c.before && name !in c.before.names
    case Opened(name, ino) => c.after == c.before && name in c.before.names && c.before.names[name] == ino
    case Inspected(ino, node) => c.after == c.before && ino in c.before.nodes && c.before.nodes[ino] == node
    case Hashed(ino, digest) =>
      c.after == c.before && ino in c.before.nodes && hash(c.before.nodes[ino].content) == digest
    case Staged => OnlyDiffer(c.before, c.after, q.Temp(), q.ino)
    case Installed =>
      && q.Temp() in c.before.names && c.after.nodes == c.before.nodes
      && c.after.names == Moved(c.before.names, q.Temp(), q.Leaf())
      && (q.op == Create ==> q.Leaf() !in c.before.names)
  }

  /** What must have happened before an install: the staged file was synced and seen to hold the desired content, and nothing at the target, or,
      in the calls right before, the expected content in the very file that held it at first. */
  ghost predicate Justified(q: Request, log: seq<Call>) {
    && Did(log, SyncedFile) && Did(log, Hashed(q.ino, q.desired))
    && (if q.op == Create then Did(log, Absent(q.Leaf()))
        else exists ino ::
          Seen(log, q.Leaf(), ino, q.expected) && Did(log[..|log| - 3], Hashed(ino, q.expected)))
  }

  class Guest {
    var disk: Disk
    /** System calls so far. */
    var clock: nat
    ghost var log: seq<Call>
    ghost const start: Disk
    const q: Request
    /** What others do before the n-th call, and whether that call fails. */
    const others: nat -> Disk -> Disk
    const fails: nat -> bool
    const hash: Content -> Content

    constructor (q: Request, disk: Disk, others: nat -> Disk -> Disk, fails: nat -> bool, hash: Content -> Content)
      ensures this.q == q && this.disk == disk == start && log == [] && Sound()
      ensures this.others == others && this.fails == fails && this.hash == hash
    {
      this.q, this.disk, this.others, this.fails, this.hash := q, disk, others, fails, hash;
      clock, log, start := 0, [], disk;
    }

    /** Nobody else writes. */
    ghost predicate Quiet() {
      forall n, d :: others(n)(d) == d
    }

    /** Nor does any call fail. */
    ghost predicate Smooth() {
      Quiet() && forall n :: !fails(n)
    }

    /** The disk may have the staged content moved into place: as desired, and for a replace over what is expected. */
    ghost predicate MayInstall(d: Disk) {
      && Holds(d, q.Temp(), hash, q.desired)
      && (if q.op == Replace then Holds(d, q.Leaf(), hash, q.expected) else q.Leaf() !in d.names)
    }

    ghost function EndOf(log: seq<Call>): Disk {
      if log == [] then start else log[|log| - 1].after
    }

    /** Every call met the disk as the others made it from what the call before left, and was fair; there is one install
        at most, and it was justified. */
    ghost predicate Genuine(log: seq<Call>) {
      log == [] ||
      var before, c := log[..|log| - 1], log[|log| - 1];
      && Genuine(before)
      && c.before == others(|before|)(EndOf(before)) && Fair(q, hash, c)
      && (IsRename(c.deed) ==> Renames(before) == 0 && Justified(q, before) && (Quiet() ==> MayInstall(c.before)))
    }

    ghost predicate Sound()
      reads this
    {
      Genuine(log) && disk == EndOf(log) && clock == |log|
    }

    /** A disk on which the request can be carried out. */
    ghost predicate Ready(d: Disk) {
      && AllowedTarget(q.target) && ValidSha256(q.desired) && q.Temp() !in d.names && q.ino !in d.nodes
      && (if q.op == Create then q.Leaf() !in d.names
          else ValidSha256(q.expected) && Holds(d, q.Leaf(), hash, q.expected))
      && q.PayloadIsText() && hash(q.Payload()) == q.desired
    }

    /** One of the first n calls failed. */
    ghost predicate SomeFailed(n: nat) {
      n > 0 && (fails(n - 1) || SomeFailed(n - 1))
    }

    lemma {:induction false} SomeFailedIs(n: nat)
      ensures SomeFailed(n) <==> exists k :: 0 <= k < n && fails(k)
    {
      if n > 0 {
        SomeFailedIs(n - 1);
      }
    }

    // ---------- System calls ----------

    /** The log with a call that changed nothing. */
    lemma Noted(was: seq<Call>, before: Disk, deed: Deed)
      requires Genuine(was) && before == others(|was|)(EndOf(was)) && Fair(q, hash, Call(before, before, deed))
      requires !IsRename(deed)
      ensures Genuine(was + [Call(before, before, deed)])
      ensures Renames(was + [Call(before, before, deed)]) == Renames(was)
    {
      OneMoreCall(was, Call(before, before, deed));
    }

    /** A call begins: others go first, and the call may be going to fail. */
    method Enter() returns (ok: bool)
      modifies this`disk, this`clock
      ensures disk == others(old(clock))(old(disk)) && ok == !fails(old(clock)) && clock == old(clock) + 1
    {
      disk := others(clock)(disk);
      ok := !fails(clock);
      clock := clock + 1;
    }

    /** A call without an effect on the directory: opening it, a read of the payload, or `fsync`. */
    method Plain(ghost deed: Deed := Nothing) returns (ok: bool)
      requires Sound() && deed in {Nothing, SyncedFile, SyncedDirectory}
      modifies this
      ensures clock == old(clock) + 1 && (ok ==> SomeFailed(clock) == SomeFailed(old(clock)))
      ensures Sound() && log == old(log) + [Call(disk, disk, if ok then deed else Nothing)] && Renames(log) == Renames(old(log))
      ensures Quiet() ==> disk == old(disk)
      ensures Smooth() ==> ok
    {
      ok := Enter();
      ghost var done := if ok then deed else Nothing;
      Noted(log, disk, done);
      log := log + [Call(disk, disk, done)];
    }

    method Open(name: Name) returns (r: Option<Ino>)
      requires Sound()
      modifies this
      ensures clock == old(clock) + 1 && (r.Some? ==> SomeFailed(clock) == SomeFailed(old(clock)))
      ensures Sound() && Renames(log) == Renames(old(log))
      ensures log == old(log) + [Call(disk, disk, if r.Some? then Opened(name, r.value) else Nothing)]
      ensures r.Some? ==> name in disk.names && disk.names[name] == r.value
      ensures Quiet() ==> disk == old(disk)
      ensures Smooth() && name in old(disk).names ==> r.Some?
    {
      var ok := Enter();
      r := if ok && name in disk.names then Some(disk.names[name]) else None;
      ghost var deed := if r.Some? then Opened(name, r.value) else Nothing;
      Noted(log, disk, deed);
      log := log + [Call(disk, disk, deed)];
    }

    /** `fstat` of an open file. */
    method Inspect(ino: Ino) returns (r: Option<Node>)
      requires Sound()
      modifies this
      ensures clock == old(clock) + 1 && (r.Some? ==> SomeFailed(clock) == SomeFailed(old(clock)))
      ensures Sound() && Renames(log) == Renames(old(log))
      ensures log == old(log) + [Call(disk, disk, if r.Some? then Inspected(ino, r.value) else Nothing)]
      ensures r.Some? ==> ino in disk.nodes && disk.nodes[ino] == r.value
      ensures Quiet() ==> disk == old(disk)
      ensures Smooth() && ino in old(disk).nodes ==> r.Some?
    {
      var ok := Enter();
      r := if ok && ino in disk.nodes then Some(disk.nodes[ino]) else None;
      ghost var deed := if r.Some? then Inspected(ino, r.value) else Nothing;
      Noted(log, disk, deed);
      log := log + [Call(disk, disk, deed)];
    }

    method Digest(ino: Ino) returns (r: Option<Content>)
      requires Sound()
      modifies this
      ensures clock == old(clock) + 1 && (r.Some? ==> SomeFailed(clock) == SomeFailed(old(clock)))
      ensures Sound() && Renames(log) == Renames(old(log))
      ensures log == old(log) + [Call(disk, disk, if r.Some? then Hashed(ino, r.value) else Nothing)]
      ensures r.Some? ==> ino in disk.nodes && hash(disk.nodes[ino].content) == r.value
      ensures Quiet() ==> disk == old(disk)
      ensures Smooth() && ino in old(disk).nodes ==> r.Some?
    {
      var ok := Enter();
      r := if ok && ino in disk.nodes then Some(hash(disk.nodes[ino].content)) else None;
      ghost var deed := if r.Some? then Hashed(ino, r.value) else Nothing;
      Noted(log, disk, deed);
      log := log + [Call(disk, disk, deed)];
    }

    /** `fstatat`, which has to find nothing. */
    method FindNone(name: Name) returns (ok: bool)
      requires Sound()
      modifies this
      ensures clock == old(clock) + 1 && (ok ==> SomeFailed(clock) == SomeFailed(old(clock)))
      ensures Sound() && Renames(log) == Renames(old(log))
      ensures log == old(log) + [Call(disk, disk, if ok then Absent(name) else Nothing)]
      ensures ok ==> name !in disk.names
      ensures Quiet() ==> disk == old(disk)
      ensures Smooth() && name !in old(disk).names ==> ok
    {
      ok := Enter();
      ok := ok && name !in disk.names;
      ghost var deed := if ok then Absent(name) else Nothing;
      Noted(log, disk, deed);
      log := log + [Call(disk, disk, deed)];
    }

    /** The log with a call that changed the staged file. */
    lemma NotedStaged(was: seq<Call>, before: Disk, after: Disk)
      requires Genuine(was) && before == others(|was|)(EndOf(was)) && OnlyDiffer(before, after, q.Temp(), q.ino)
      ensures Genuine(was + [Call(before, after, Staged)])
      ensures Renames(was + [Call(before, after, Staged)]) == Renames(was)
    {
      hide OnlyDiffer;
      OneMoreCall(was, Call(before, after, Staged));
    }

    /** Creates the staged file under its temporary name, which must be free. */
    method CreateStaged() returns (ok: bool)
      requires Sound()
      modifies this
      ensures clock == old(clock) + 1 && (ok ==> SomeFailed(clock) == SomeFailed(old(clock)))
      ensures Sound() && old(log) <= log && Renames(log) == Renames(old(log))
      ensures Quiet() ==> disk == if ok then q.WithStaged(old(disk), []) else old(disk)
      ensures Quiet() && ok ==> q.Temp() !in old(disk).names && q.ino !in old(disk).nodes
      ensures Smooth() && q.Temp() !in old(disk).names && q.ino !in old(disk).nodes ==> ok
    {
      ok := Enter();
      ghost var before := disk;
      ok := ok && q.Temp() !in disk.names && q.ino !in disk.nodes;
      if ok { disk := q.WithStaged(disk, []); }
      NotedStaged(log, before, disk);
      log := log + [Call(before, disk, Staged)];
    }

    /** The staged file after a write. */
    function WithWrite(d: Disk, offset: nat, bytes: Utf8.Bytes): Disk
      requires q.ino in d.nodes
    {
      var node := d.nodes[q.ino];
      d.(nodes := d.nodes[q.ino := node.(content := Overwritten(node.content, offset, bytes))])
    }

    /** Writes into the staged file. */
    method Write(offset: nat, bytes: Utf8.Bytes) returns (ok: bool)
      requires Sound()
      modifies this
      ensures clock == old(clock) + 1 && (ok ==> SomeFailed(clock) == SomeFailed(old(clock)))
      ensures Sound() && old(log) <= log && Renames(log) == Renames(old(log))
      ensures Quiet() && ok ==> q.ino in old(disk).nodes && disk == WithWrite(old(disk), offset, bytes)
      ensures Quiet() && !ok ==> disk == old(disk)
      ensures Smooth() && q.ino in old(disk).nodes ==> ok
    {
      hide Overwritten;
      ok := Enter();
      ghost var before := disk;
      ok := ok && q.ino in disk.nodes;
      if ok { disk := WithWrite(disk, offset, bytes); }
      NotedStaged(log, before, disk);
      log := log + [Call(before, disk, Staged)];
    }

    /** The log with a rename. */
    lemma NotedRename(was: seq<Call>, before: Disk, after: Disk, deed: Deed)
      requires Genuine(was) && before == others(|was|)(EndOf(was)) && Renames(was) == 0 && Justified(q, was)
      requires Quiet() ==> MayInstall(before)
      requires IsRename(deed) && Fair(q, hash, Call(before, after, deed))
      ensures Genuine(was + [Call(before, after, deed)])
      ensures Renames(was + [Call(before, after, deed)]) == 1
    {
      hide MayInstall, Justified, Fair, LeafOf, TempName;
      OneMoreCall(was, Call(before, after, deed));
    }

    /** The rename: over whatever is there, or, for a create, over nothing. */
    method Rename() returns (ok: bool)
      requires Sound() && q.Temp() != q.Leaf() && Renames(log) == 0 && Justified(q, log)
      requires Quiet() ==> MayInstall(disk)
      modifies this
      ensures clock == old(clock) + 1 && (ok ==> SomeFailed(clock) == SomeFailed(old(clock)))
      ensures Sound() && old(log) <= log && Renames(log) == 1
      ensures |log| > 0 && log[|log| - 1].deed == if ok then Installed else NotInstalled
      ensures Quiet() ==>
                && q.Temp() in old(disk).names
                && disk == if ok then old(disk).(names := Moved(old(disk).names, q.Temp(), q.Leaf())) else old(disk)
      ensures Smooth() ==> ok
    {
      hide OnlyDiffer, Justified, Genuine, Renames, Moved, LeafOf, TempName;
      ok := Enter();
      ghost var before := disk;
      ok := ok && q.Temp() in disk.names && (q.op == Create ==> q.Leaf() !in disk.names);
      if ok { disk := disk.(names := Moved(disk.names, q.Temp(), q.Leaf())); }
      ghost var deed := if ok then Installed else NotInstalled;
      NotedRename(log, before, disk, deed);
      log := log + [Call(before, disk, deed)];
    }

    /** Takes the temporary name away. */
    method Unlink() returns (ok: bool)
      requires Sound()
      modifies this
      ensures Sound() && Renames(log) == Renames(old(log))
      ensures Quiet() ==> disk == if ok then old(disk).(names := old(disk).names - {q.Temp()}) else old(disk)
    {
      ok := Enter();
      ghost var before := disk;
      if ok { disk := disk.(names := disk.names - {q.Temp()}); }
      NotedStaged(log, before, disk);
      log := log + [Call(before, disk, Staged)];
    }

    // ---------- The worker ----------

    /** Opens a name and checks its file: singly linked, of this hash, and plain, or else the file known before. */
    method OpenChecked(name: Name, digest: Content, known: Option<Ino>) returns (r: Option<Ino>)
      requires Sound()
      modifies this
      ensures r.Some? ==> SomeFailed(clock) == SomeFailed(old(clock))
      ensures Sound() && old(log) <= log && Renames(log) == Renames(old(log))
      ensures Quiet() ==> disk == old(disk)
      ensures r.Some? ==> |log| == |old(log)| + 3 && Seen(log, name, r.value, digest)
      ensures r.Some? && known.None? ==> SeenPlain(log, name, r.value, digest)
      ensures r.Some? && known.Some? ==> r == known
      ensures Quiet() && r.Some? && known.None? ==> Holds(disk, name, hash, digest) && disk.names[name] == r.value
      ensures Smooth() && Holds(old(disk), name, hash, digest) && known in {None, Some(old(disk).names[name])} ==> r.Some?
    {
      hide SomeFailed, Genuine, Renames;
      var found := Open(name);
      if found.None? { return None; }
      var node := Inspect(found.value);
      if node.None? || node.value.links != 1 { return None; }
      if if known.None? then !node.value.regular else found != known { return None; }
      var digested := Digest(found.value);
      if digested != Some(digest) { return None; }
      return found;
    }

    /** The precondition: nothing there for a create, the expected file for a replace. */
    method CheckBefore() returns (r: Option<Ino>)
      requires Sound()
      modifies this
      ensures r.Some? ==> SomeFailed(clock) == SomeFailed(old(clock))
      ensures Sound() && Renames(log) == Renames(old(log))
      ensures Quiet() ==> disk == old(disk)
      ensures r.Some? ==> Did(log, if q.op == Create then Absent(q.Leaf()) else Hashed(r.value, q.expected))
      ensures Quiet() && r.Some? ==> Met(disk, r.value)
      ensures Smooth() ==> (r.Some? <==> PreconditionOn(old(disk)))
    {
      hide SomeFailed, Genuine, Renames, LeafOf;
      if q.op == Replace {
        r := OpenChecked(q.Leaf(), q.expected, None);
      } else {
        var ok := FindNone(q.Leaf());
        r := if ok then Some(0) else None;
      }
      assert r.Some? ==> log[|log| - 1].deed == if q.op == Create then Absent(q.Leaf()) else Hashed(r.value, q.expected);
    }

    /** What the operation demands of the disk it starts on. */
    ghost predicate PreconditionOn(d: Disk) {
      if q.op == Create then q.Leaf() !in d.names else Holds(d, q.Leaf(), hash, q.expected)
    }

    /** It is met, and this is the file to replace. */
    ghost predicate Met(d: Disk, before: Ino) {
      PreconditionOn(d) && (q.op == Replace ==> d.names[q.Leaf()] == before)
    }

    /** The loop that reads, checks and writes the payload chunk by chunk. `content` is what the staged file then holds
        when nobody else writes. */
    method ReadPayload(ghost base: Disk) returns (ok: bool, ghost content: Content)
      requires Sound() && (Quiet() ==> disk == q.WithStaged(base, []))
      modifies this
      ensures ok ==> SomeFailed(clock) == SomeFailed(old(clock))
      ensures Sound() && old(log) <= log && Renames(log) == Renames(old(log))
      ensures Quiet() ==> disk == q.WithStaged(base, content)
      ensures ok ==> q.PayloadIsText()
      ensures Quiet() && ok ==> content == q.Payload()
      ensures Smooth() ==> (ok <==> q.PayloadIsText())
    {
      hide SomeFailed, Genuine, Renames, TempName, Utf8.Run, Overwritten, Utf8.Joined, Utf8.Threaded;
      var utf8 := new Utf8.Utf8Checker();
      var total, n := 0, 0;
      content := [];
      Utf8.NoChunks(Utf8.IDLE);
      while true
        invariant Sound() && old(log) <= log && Renames(log) == Renames(old(log))
        invariant n <= |q.chunks| && fresh(utf8)
        invariant SomeFailed(clock) == SomeFailed(old(clock))
        invariant content == Utf8.Joined(q.chunks[..n]) && total == |content| <= Utf8.MAX_PAYLOAD
        invariant Utf8.Threaded(Utf8.IDLE, q.chunks[..n]) == Some(utf8.Current())
        invariant Quiet() ==> disk == q.WithStaged(base, content)
        decreases |q.chunks| - n
      {
        ok := Plain();
        if !ok { return; }
        if n == |q.chunks| { break; }
        var bytes := q.chunks[n];
        Utf8.OneMoreChunk(Utf8.IDLE, q.chunks, n);
        total := total + |bytes|;
        if total > Utf8.MAX_PAYLOAD {
          Utf8.JoinedGrows(q.chunks, n + 1);
          return false, content;
        }
        ok := utf8.ValidChunk(bytes);
        if !ok {
          Utf8.FailureStays(Utf8.IDLE, q.chunks, n + 1);
          return;
        }
        ok := Write(total - |bytes|, bytes);
        if !ok { return; }
        AppendedAtEnd(content, bytes);
        content := content + bytes;
        n := n + 1;
      }
      assert q.chunks[..n] == q.chunks;
      ok := utf8.continuations == 0;
    }

    /** Fills the staged file and hashes what is in it. */
    method Stage(ghost base: Disk) returns (ok: bool, ghost content: Content)
      requires Sound() && (Quiet() ==> disk == q.WithStaged(base, []))
      modifies this
      ensures ok ==> SomeFailed(clock) == SomeFailed(old(clock))
      ensures Sound() && old(log) <= log && Renames(log) == Renames(old(log))
      ensures Quiet() ==> disk == q.WithStaged(base, content)
      ensures ok ==> q.PayloadIsText() && Did(log, SyncedFile) && Did(log, Hashed(q.ino, q.desired))
      ensures Quiet() && ok ==> content == q.Payload() && hash(content) == q.desired
      ensures Smooth() ==> (ok <==> q.PayloadIsText() && hash(q.Payload()) == q.desired)
    {
      hide SomeFailed, Genuine, Renames, TempName, Request.PayloadIsText, Request.Payload;
      ok, content := ReadPayload(base);
      if !ok { return; }
      ok := Plain(SyncedFile);
      if !ok { return; }
      assert log[|log| - 1].deed == SyncedFile;
      ghost var synced := log;
      var digested := Digest(q.ino);
      DidStays(synced, log, SyncedFile);
      ok := digested == Some(q.desired);
      assert ok ==> log[|log| - 1].deed == Hashed(q.ino, q.desired);
    }

    /** After the one install, the target was opened, found plain and singly linked, and read back with the desired hash,
        in the last calls of the run. */
    ghost predicate ReadBack()
      reads this`log
    {
      && Renames(log) == 1
      && exists ino :: SeenPlain(log, q.Leaf(), ino, q.desired) && Did(log[..|log| - 3], Installed) && Did(log[..|log| - 3], SyncedDirectory)
    }

    /** The rename and the read-back. */
    method Install(ghost base: Disk) returns (outcome: Outcome, cleaned: bool)
      requires Sound() && q.Temp() != q.Leaf() && Renames(log) == 0 && Justified(q, log)
      requires Quiet() ==> disk == q.WithStaged(base, q.Payload()) && hash(q.Payload()) == q.desired
      requires Quiet() ==> q.Temp() !in base.names && q.ino !in base.nodes && PreconditionOn(base)
      modifies this
      ensures outcome == Succeeded ==> SomeFailed(clock) == SomeFailed(old(clock))
      ensures Sound() && Renames(log) == 1 && outcome in {Uncertain, Succeeded}
      ensures outcome == Succeeded ==> ReadBack()
      ensures Quiet() && outcome == Succeeded ==> disk == q.WithTarget(base)
      ensures Quiet() && cleaned ==> q.Temp() !in disk.names
      ensures Smooth() ==> outcome == Succeeded && cleaned
    {
      hide SomeFailed, Genuine, Renames, LeafOf, TempName, Request.Payload, Justified;
      if Quiet() { StagedMayInstall(base); }
      var ok := Rename();
      if !ok {
        cleaned := Unlink();
        return Uncertain, cleaned;
      }
      if Quiet() { MovedIntoPlace(base); }
      assert Did(log, Installed);
      ghost var moved := log;
      ok := Plain(SyncedDirectory);
      if !ok {
        cleaned := Unlink();
        return Uncertain, cleaned;
      }
      assert log[|log| - 1].deed == SyncedDirectory;
      DidStays(moved, log, Installed);
      ghost var installed := log;
      var final := OpenChecked(q.Leaf(), q.desired, None);
      if final.None? { return Uncertain, true; }
      assert log[..|log| - 3] == installed;
      return Succeeded, true;
    }

    /** With nobody else about, the staged payload may be installed. */
    lemma StagedMayInstall(base: Disk)
      requires q.Temp() != q.Leaf() && hash(q.Payload()) == q.desired && q.ino !in base.nodes && PreconditionOn(base)
      ensures MayInstall(q.WithStaged(base, q.Payload()))
    {
      hide LeafOf, TempName;
    }

    lemma MovedIntoPlace(base: Disk)
      requires q.Temp() != q.Leaf() && hash(q.Payload()) == q.desired
      requires q.Temp() !in base.names && q.ino !in base.nodes && PreconditionOn(base)
      ensures var staged := q.WithStaged(base, q.Payload());
              staged.(names := Moved(staged.names, q.Temp(), q.Leaf())) == q.WithTarget(base)
      ensures q.Temp() !in q.WithTarget(base).names && Holds(q.WithTarget(base), q.Leaf(), hash, q.desired)
    {
      hide LeafOf, TempName, Request.Payload;
      var names := q.WithStaged(base, q.Payload()).names;
      assert q.Leaf() in names ==> names[q.Leaf()] != q.ino;
      assert Moved(names, q.Temp(), q.Leaf()) == base.names[q.Leaf() := q.ino];
    }

    /** A run that gives up after staging. */
    method CleanUp(ghost base: Disk, ghost content: Content) returns (cleaned: bool)
      requires Sound() && (Quiet() ==> disk == q.WithStaged(base, content) && q.Temp() !in base.names)
      modifies this
      ensures Sound() && Renames(log) == Renames(old(log))
      ensures Quiet() ==> OnlyDiffer(base, disk, q.Temp(), q.ino)
      ensures Quiet() && cleaned ==> disk.names == base.names
    {
      hide SomeFailed, Genuine, Renames, TempName;
      cleaned := Unlink();
    }

    /** Stage, check again, install, verify. `cleaned` is false when the staged file could not be taken away. */
    method StageAndInstall(before: Ino) returns (outcome: Outcome, cleaned: bool)
      requires Sound() && Renames(log) == 0 && AllowedTarget(q.target)
      requires Did(log, if q.op == Create then Absent(q.Leaf()) else Hashed(before, q.expected))
      requires Quiet() ==> Met(disk, before)
      modifies this
      ensures outcome == Succeeded ==> SomeFailed(clock) == SomeFailed(old(clock))
      ensures Sound() && Renames(log) <= 1
      ensures outcome in {Blocked, Failed} <==> Renames(log) == 0
      ensures outcome == Succeeded ==> ReadBack() && q.PayloadIsText()
      ensures Quiet() && outcome == Succeeded ==> disk == q.WithTarget(old(disk))
      ensures Quiet() && outcome == Succeeded ==> hash(q.Payload()) == q.desired
      ensures Quiet() && outcome == Succeeded ==> q.Temp() !in old(disk).names && q.ino !in old(disk).nodes
      ensures Quiet() && outcome in {Blocked, Failed} ==> OnlyDiffer(old(disk), disk, q.Temp(), q.ino)
      ensures Quiet() && outcome in {Blocked, Failed} && cleaned ==> disk.names == old(disk).names
      ensures Quiet() && cleaned && q.Temp() !in old(disk).names ==> q.Temp() !in disk.names
      ensures Smooth() && q.Temp() !in old(disk).names && q.ino !in old(disk).nodes ==>
                q.PayloadIsText() && hash(q.Payload()) == q.desired ==> outcome == Succeeded && cleaned
      ensures Smooth() && outcome != Succeeded ==> outcome == Failed
    {
      hide SomeFailed, Genuine, Renames, LeafOf, TempName, AllowedTarget, Request.Payload, Request.PayloadIsText, Holds, Did;
      LeafIsNoTemporary(q.target, q.pid);
      ghost var base, checked := disk, log;
      var ok := CreateStaged();
      if !ok { return Failed, true; }
      ghost var content;
      ok, content := Stage(base);
      if !ok {
        cleaned := CleanUp(base, content);
        return Failed, cleaned;
      }
      ghost var staged := log;
      if Quiet() { StagingSparesPrecondition(base, content, before); }
      if q.op == Replace {
        var again := OpenChecked(q.Leaf(), q.expected, Some(before));
        if again.None? {
          cleaned := CleanUp(base, content);
          return Blocked, cleaned;
        }
        assert log[..|log| - 3] == staged;
        DidStays(checked, staged, Hashed(before, q.expected));
      } else {
        DidStays(checked, log, Absent(q.Leaf()));
      }
      DidStays(staged, log, Hashed(q.ino, q.desired));
      DidStays(staged, log, SyncedFile);
      outcome, cleaned := Install(base);
    }

    lemma StagingSparesPrecondition(base: Disk, content: Content, before: Ino)
      requires q.Temp() != q.Leaf() && q.ino !in base.nodes && Met(base, before)
      ensures Met(q.WithStaged(base, content), before)
    {
      hide LeafOf, TempName;
    }

    /** How a run ends when nobody interferes and no call fails: blocked before anything is staged, failed while staging, or
        done. */
    ghost function OutcomeOn(d: Disk): Outcome {
      if !AllowedTarget(q.target) || (q.op == Replace && !ValidSha256(q.expected)) || !ValidSha256(q.desired) then Blocked
      else if !PreconditionOn(d) then Blocked
      else if q.Temp() in d.names || q.ino in d.nodes then Failed
      else if !q.PayloadIsText() || hash(q.Payload()) != q.desired then Failed
      else Succeeded
    }

    /** The worker. */
    method Work() returns (outcome: Outcome, cleaned: bool)
      requires Sound() && log == []
      modifies this
      ensures outcome == Succeeded ==> !SomeFailed(clock)
      ensures Sound() && Renames(log) <= 1
      ensures log != [] ==> AllowedTarget(q.target)
      ensures outcome in {Blocked, Failed} <==> Renames(log) == 0
      ensures outcome == Succeeded ==> ReadBack() && q.PayloadIsText() && AllowedTarget(q.target)
      ensures Quiet() && outcome == Succeeded ==> Ready(old(disk)) && disk == q.WithTarget(old(disk))
      ensures Quiet() && outcome in {Blocked, Failed} ==> OnlyDiffer(old(disk), disk, q.Temp(), q.ino)
      ensures Quiet() && outcome in {Blocked, Failed} && cleaned ==> disk.names == old(disk).names
      ensures Quiet() && cleaned && q.Temp() !in old(disk).names ==> q.Temp() !in disk.names
      ensures Smooth() ==> (outcome == Succeeded <==> Ready(old(disk))) && outcome == OutcomeOn(old(disk))
      ensures Smooth() && outcome == Succeeded ==> cleaned
    {
      assert !SomeFailed(clock) by { assert clock == 0; }
      hide SomeFailed, Genuine, Renames, LeafOf, TempName, Request.Payload, Request.PayloadIsText, ValidSha256, Holds, Did;
      cleaned := true;
      var allowed := CheckTarget(q.target);
      hide AllowedTarget;
      if !allowed { return Blocked, true; }
      if q.op == Replace && !ValidSha256(q.expected) { return Blocked, true; }
      if !ValidSha256(q.desired) { return Blocked, true; }
      var ok := Plain();
      if !ok { return Failed, true; }
      ok := Plain();
      if !ok { return Blocked, true; }
      var before := CheckBefore();
      if before.None? { return Blocked, true; }
      outcome, cleaned := StageAndInstall(before.value);
    }

    // ---------- What a run of calls shows ----------

    /** Every call of a genuine log met what the others made of the disk, and was fair; an install was justified. */
    lemma {:induction false} CallIsGenuine(log: seq<Call>, i: nat)
      requires Genuine(log) && i < |log|
      ensures Genuine(log[..i]) && log[i].before == others(i)(EndOf(log[..i])) && Fair(q, hash, log[i])
      ensures IsRename(log[i].deed) ==> Renames(log[..i]) == 0 && Justified(q, log[..i])
      decreases |log|
    {
      var before := log[..|log| - 1];
      if i < |before| {
        CallIsGenuine(before, i);
        assert before[..i] == log[..i];
      }
    }

    /** What success means among other writers: after the install the target's name was opened, the file it then stood
        for was plain and singly linked, and that file's content, read last, had the desired hash. */
    lemma SuccessReadTheTarget(log: seq<Call>, ino: Ino)
      requires Genuine(log) && SeenPlain(log, q.Leaf(), ino, q.desired) && Did(log[..|log| - 3], Installed)
      ensures var n := |log| - 3;
              && (exists k :: 0 <= k < n && log[k].deed.Installed?)
              && q.Leaf() in log[n].before.names && log[n].before.names[q.Leaf()] == ino
              && ino in log[n + 1].before.nodes && log[n + 1].before.nodes[ino].regular
              && log[n + 1].before.nodes[ino].links == 1
              && ino in log[n + 2].before.nodes && hash(log[n + 2].before.nodes[ino].content) == q.desired
    {
      hide SomeFailed, Genuine, Renames, LeafOf, TempName, Justified;
      var n := |log| - 3;
      var k :| 0 <= k < n && log[..n][k].deed == Installed;
      assert log[k].deed.Installed?;
      CallIsGenuine(log, n);
      CallIsGenuine(log, n + 1);
      CallIsGenuine(log, n + 2);
    }

    /** What preceded an install among other writers: the staged file was read with the desired hash; a create met no
        such name; a replace had just opened the target and read the expected hash in the file that had it at first. */
    lemma InstallWasChecked(log: seq<Call>, k: nat)
      requires Genuine(log) && k < |log| && log[k].deed.Installed?
      ensures exists j :: 0 <= j < k && log[j].deed == Hashed(q.ino, q.desired)
      ensures q.op == Create ==> q.Leaf() !in log[k].before.names
      ensures q.op == Replace ==>
                && k >= 3
                && exists ino :: FoundExpected(log, k, ino) && Did(log[..k - 3], Hashed(ino, q.expected))
      ensures forall i :: 0 <= i < |log| && log[i].deed.Installed? ==> i == k
    {
      hide SomeFailed, Genuine, Renames, LeafOf, TempName;
      CallIsGenuine(log, k);
      var j :| 0 <= j < k && log[..k][j].deed == Hashed(q.ino, q.desired);
      assert log[j].deed == Hashed(q.ino, q.desired);
      if q.op == Replace {
        var ino :| Seen(log[..k], q.Leaf(), ino, q.expected) && Did(log[..k][..k - 3], Hashed(ino, q.expected));
        assert log[..k][..k - 3] == log[..k - 3];
        SeenIsThere(log, k, ino);
      }
      forall i | 0 <= i < |log| && log[i].deed.Installed? ensures i == k {
        OneInstall(log, i, k);
      }
    }

    lemma SeenIsThere(log: seq<Call>, k: nat, ino: Ino)
      requires Genuine(log) && k <= |log| && Seen(log[..k], q.Leaf(), ino, q.expected)
      ensures FoundExpected(log, k, ino)
    {
      hide SomeFailed, Genuine, Renames, LeafOf, TempName, Justified;
      assert log[..k][k - 3] == log[k - 3] && log[..k][k - 1] == log[k - 1];
      CallIsGenuine(log, k - 3);
      CallIsGenuine(log, k - 1);
    }

    /** Right before the k-th call the target was this file, with the expected content. */
    ghost predicate FoundExpected(log: seq<Call>, k: nat, ino: Ino)
      requires 3 <= k <= |log|
    {
      && q.Leaf() in log[k - 3].before.names && log[k - 3].before.names[q.Leaf()] == ino
      && ino in log[k - 1].before.nodes && hash(log[k - 1].before.nodes[ino].content) == q.expected
    }

    lemma {:induction false} InstallCounts(log: seq<Call>, i: nat)
      requires i < |log| && IsRename(log[i].deed)
      ensures Renames(log) > 0
      decreases |log|
    {
      if i < |log| - 1 {
        InstallCounts(log[..|log| - 1], i);
      }
    }

    lemma OneInstall(log: seq<Call>, i: nat, k: nat)
      requires Genuine(log) && i < |log| && k < |log| && log[i].deed.Installed? && log[k].deed.Installed?
      ensures i == k
    {
      hide SomeFailed, Genuine;
      CallIsGenuine(log, i);
      CallIsGenuine(log, k);
      if i < k {
        InstallCounts(log[..k], i);
      } else if k < i {
        InstallCounts(log[..i], k);
      }
    }

    /** No call but an install changes the target, unless someone made it a name of the staged file; so a worker that
        installs nothing never does. */
    lemma NoInstallSparesTarget(log: seq<Call>, i: nat)
      requires Genuine(log) && i < |log| && AllowedTarget(q.target)
      requires q.Leaf() in log[i].before.names ==> log[i].before.names[q.Leaf()] != q.ino
      ensures log[i].deed.Installed? || SameAt(log[i].before, log[i].after, q.Leaf())
      ensures Renames(log) == 0 ==> SameAt(log[i].before, log[i].after, q.Leaf())
    {
      hide SomeFailed, Genuine, Renames, LeafOf, TempName, AllowedTarget;
      CallIsGenuine(log, i);
      LeafIsNoTemporary(q.target, q.pid);
      if log[i].deed.Installed? {
        InstallCounts(log, i);
      }
    }
  }

  /** The name is there in both or in neither, for the same file with the same content. */
  ghost predicate SameAt(a: Disk, b: Disk, name: Name) {
    && (name in a.names <==> name in b.names)
    && (name in a.names ==>
          && b.names[name] == a.names[name]
          && (a.names[name] in a.nodes <==> a.names[name] in b.nodes)
          && (a.names[name] in a.nodes ==> b.nodes[a.names[name]] == a.nodes[a.names[name]]))
  }

  lemma AppendedAtEnd(content: Content, bytes: Utf8.Bytes)
    ensures Overwritten(content, |content|, bytes) == content + bytes
  {
  }

  /** A hash is 64 hexadecimal digits in lower case. */
  lemma HashesAreLowerHex(value: Content)
    ensures ValidSha256(value) <==> |value| == 64 && forall i :: 0 <= i < 64 ==> value[i] in Ascii("0123456789abcdef")
  {
    var digits := Ascii("0123456789abcdef");
    forall b: Utf8.Byte ensures b in digits <==> 0x30 <= b <= 0x39 || 0x61 <= b <= 0x66 {
      if 0x30 <= b <= 0x39 {
        assert digits[b as int - 0x30] == b;
      } else if 0x61 <= b <= 0x66 {
        assert digits[b as int - 0x61 + 10] == b;
      }
    }
  }
}
