/** The target names the guest file writer accepts (guest/king-file-write-v1/king-file-write-v1.c). */
module GuestTarget {
  import opened Utf8

  const SLASH: Byte := 0x2F
  const DOT: Byte := 0x2E

  function Ascii(s: string): (r: Bytes)
    requires forall c :: c in s ==> c < 128 as char
    ensures |r| == |s| && forall i :: 0 <= i < |s| ==> r[i] as int == s[i] as int
  {
    seq(|s|, i requires 0 <= i < |s| => assert s[i] in s; (s[i] as int) as Byte)
  }

  const DENIED: seq<Bytes> := [Ascii("node_modules"), Ascii("vendor"), Ascii("dist"), Ascii("build"), Ascii("coverage")]
  const TEMP_PREFIX: Bytes := Ascii(".king-write-")
  const TEMP_SUFFIX: Bytes := Ascii(".tmp")
  const EXTENSIONS: seq<Bytes> :=
    [Ascii(".txt"), Ascii(".md"), Ascii(".json"), Ascii(".yaml"), Ascii(".yml"), Ascii(".csv")]

  function Lower(b: Byte): Byte {
    if 0x41 <= b <= 0x5A then b + 0x20 else b
  }

  predicate EqualIgnoringCase(a: Bytes, b: Bytes) {
    |a| == |b| && forall i :: 0 <= i < |a| ==> Lower(a[i]) == Lower(b[i])
  }

  predicate StartsWith(s: Bytes, prefix: Bytes) {
    |prefix| <= |s| && s[..|prefix|] == prefix
  }

  predicate DeniedSegment(s: Bytes) {
    (exists i :: 0 <= i < |DENIED| && EqualIgnoringCase(DENIED[i], s)) || StartsWith(s, TEMP_PREFIX)
  }

  predicate NameByte(c: Byte) {
    0x41 <= c <= 0x5A || 0x61 <= c <= 0x7A || 0x30 <= c <= 0x39 || c == DOT || c == 0x5F || c == 0x2D
  }

  predicate GoodSegment(s: Bytes) {
    && 1 <= |s| <= 100 && s[0] != DOT && !DeniedSegment(s)
    && forall i :: 0 <= i < |s| ==> NameByte(s[i])
  }

  /** The parts between slashes. */
  function Split(t: Bytes): (parts: seq<Bytes>)
    ensures parts != []
    decreases |t|
  {
    if t == [] then [[]]
    else
      var rest := Split(t[1..]);
      if t[0] == SLASH then [[]] + rest else [[t[0]] + rest[0]] + rest[1..]
  }

  predicate AllGood(parts: seq<Bytes>) {
    forall i :: 0 <= i < |parts| ==> GoodSegment(parts[i])
  }

  /** What follows the last dot, with it; nothing where there is no dot. */
  function FromLastDot(t: Bytes): Bytes {
    if t == [] then []
    else if FromLastDot(t[1..]) != [] then FromLastDot(t[1..])
    else if t[0] == DOT then t else []
  }

  const MAX_TARGET := 240
  const MAX_DEPTH := 12

  predicate AllowedTarget(t: Bytes) {
    && 1 <= |t| <= MAX_TARGET
    && AllGood(Split(t)) && |Split(t)| <= MAX_DEPTH
    && FromLastDot(t) in EXTENSIONS
  }

  /** The name in its directory. */
  function LeafOf(t: Bytes): Bytes {
    var parts := Split(t);
    parts[|parts| - 1]
  }

  function TempName(pid: Bytes): Bytes {
    TEMP_PREFIX + pid + TEMP_SUFFIX
  }

  /** No accepted target is a name the writer stages files under. */
  lemma LeafIsNoTemporary(t: Bytes, pid: Bytes)
    requires AllowedTarget(t)
    ensures LeafOf(t) != TempName(pid)
  {
    var parts := Split(t);
    assert GoodSegment(parts[|parts| - 1]);
    assert TempName(pid)[0] == TEMP_PREFIX[0] == DOT;
  }

  // ---------- The loop ----------

  /** A part without a slash, then a slash or the end. */
  lemma {:induction false} SplitAt(part: Bytes, rest: Bytes)
    requires SLASH !in part
    ensures Split(part) == [part]
    ensures Split(part + [SLASH] + rest) == [part] + Split(rest)
    decreases |part|
  {
    if part == [] {
      assert part + [SLASH] + rest == [SLASH] + rest;
      assert ([SLASH] + rest)[1..] == rest;
    } else {
      SplitAt(part[1..], rest);
      assert (part + [SLASH] + rest)[1..] == part[1..] + [SLASH] + rest;
      assert part == [part[0]] + part[1..];
    }
  }

  /** Every byte but a slash is in one of the parts. */
  lemma {:induction false} ByteIsInPart(t: Bytes, i: nat) returns (k: nat, j: nat)
    requires i < |t| && t[i] != SLASH
    ensures k < |Split(t)| && j < |Split(t)[k]| && Split(t)[k][j] == t[i]
    decreases |t|
  {
    if i == 0 {
      return 0, 0;
    }
    k, j := ByteIsInPart(t[1..], i - 1);
    if t[0] == SLASH {
      k := k + 1;
    } else if k == 0 {
      j := j + 1;
    }
  }

  lemma BadByteShows(t: Bytes, i: nat)
    requires i < |t| && t[i] != SLASH && !NameByte(t[i])
    ensures !AllGood(Split(t))
  {
    var k, j := ByteIsInPart(t, i);
    assert !GoodSegment(Split(t)[k]);
  }

  lemma {:induction false} LastPartEmpty(t: Bytes)
    requires t != [] && t[|t| - 1] == SLASH
    ensures Split(t)[|Split(t)| - 1] == [] && |Split(t)| > 1
    decreases |t|
  {
    if |t| > 1 {
      LastPartEmpty(t[1..]);
    } else {
      assert Split(t[1..]) == [[]];
    }
  }

  /** A slash at either end leaves an empty part. */
  lemma SlashAtEndShows(t: Bytes)
    requires t != [] && (t[0] == SLASH || t[|t| - 1] == SLASH)
    ensures !AllGood(Split(t))
  {
    if t[0] == SLASH {
      assert !GoodSegment(Split(t)[0]);
    } else {
      LastPartEmpty(t);
      assert !GoodSegment(Split(t)[|Split(t)| - 1]);
    }
  }

  method CheckSegment(s: Bytes) returns (ok: bool)
    ensures ok == GoodSegment(s)
  {
    hide DeniedSegment;
    if |s| == 0 || |s| > 100 || s[0] == DOT || DeniedSegment(s) { return false; }
    for i := 0 to |s|
      invariant forall k :: 0 <= k < i ==> NameByte(s[k])
    {
      if !NameByte(s[i]) { return false; }
    }
    return true;
  }

  /** One more part, to its slash or the end. */
  lemma NextPart(t: Bytes, start: nat, cursor: nat, done: seq<Bytes>)
    requires start <= cursor <= |t| && SLASH !in t[start..cursor] && Split(t) == done + Split(t[start..])
    ensures cursor == |t| ==> Split(t) == done + [t[start..cursor]]
    ensures cursor < |t| && t[cursor] == SLASH ==> Split(t) == done + [t[start..cursor]] + Split(t[cursor + 1..])
  {
    hide Split;
    if cursor == |t| {
      SplitAt(t[start..cursor], []);
      assert t[start..cursor] == t[start..];
    } else if t[cursor] == SLASH {
      CutAtSlash(t, start, cursor);
      var part, rest := [t[start..cursor]], Split(t[cursor + 1..]);
      assert done + (part + rest) == done + part + rest;
    }
  }

  lemma CutAtSlash(t: Bytes, start: nat, cursor: nat)
    requires start <= cursor < |t| && SLASH !in t[start..cursor] && t[cursor] == SLASH
    ensures Split(t[start..]) == [t[start..cursor]] + Split(t[cursor + 1..])
  {
    hide Split;
    SplitAt(t[start..cursor], t[cursor + 1..]);
    assert t[start..cursor] + [t[cursor]] + t[cursor + 1..] == t[start..];
  }

  /** The one pass over the target. */
  method CheckTarget(t: Bytes) returns (ok: bool)
    ensures ok == AllowedTarget(t)
  {
    hide GoodSegment, FromLastDot, Split;
    if |t| == 0 || |t| > MAX_TARGET { return false; }
    if t[0] == SLASH || t[|t| - 1] == SLASH {
      SlashAtEndShows(t);
      return false;
    }
    var depth, segment, cursor := 0, 0, 0;
    ghost var done: seq<Bytes> := [];
    assert t[0..] == t;
    while true
      invariant 0 <= segment <= cursor <= |t| && depth == |done| <= MAX_DEPTH && AllGood(done)
      invariant SLASH !in t[segment..cursor] && Split(t) == done + Split(t[segment..])
      decreases |t| - cursor
    {
      if cursor < |t| && (t[cursor] == 0x5C || t[cursor] < 0x20 || t[cursor] == 0x7F) {
        BadByteShows(t, cursor);
        return false;
      }
      if cursor == |t| || t[cursor] == SLASH {
        NextPart(t, segment, cursor, done);
        var part := t[segment..cursor];
        var good := CheckSegment(part);
        assert Split(t)[|done|] == part;
        if !good { return false; }
        done := done + [part];
        depth := depth + 1;
        if depth > MAX_DEPTH { return false; }
        if cursor == |t| { break; }
        segment := cursor + 1;
      }
      cursor := cursor + 1;
    }
    return FromLastDot(t) in EXTENSIONS;
  }

  // ---------- The accepted names, as paths ----------

  /** The parts with slashes between them. */
  function Path(parts: seq<Bytes>): Bytes
    requires parts != []
  {
    if |parts| == 1 then parts[0] else parts[0] + [SLASH] + Path(parts[1..])
  }

  predicate IsNamed(p: Bytes, name: string)
    requires forall c :: c in name ==> c < 128 as char
  {
    EqualIgnoringCase(Ascii(name), p)
  }

  /** A file or directory name of letters, digits, dots, underscores and dashes that is not hidden and not reserved. */
  predicate PlainPart(p: Bytes) {
    && 1 <= |p| <= 100 && p[0] != DOT
    && (forall i :: 0 <= i < |p| ==>
          0x41 <= p[i] <= 0x5A || 0x61 <= p[i] <= 0x7A || 0x30 <= p[i] <= 0x39 || p[i] == DOT || p[i] == 0x5F || p[i] == 0x2D)
    && !IsNamed(p, "node_modules") && !IsNamed(p, "vendor") && !IsNamed(p, "dist") && !IsNamed(p, "build") && !IsNamed(p, "coverage")
  }

  predicate EndsWith(t: Bytes, suffix: Bytes) {
    |suffix| <= |t| && t[|t| - |suffix|..] == suffix
  }

  /** The name ends in one of six extensions. */
  predicate HasExtension(t: Bytes) {
    || EndsWith(t, Ascii(".txt")) || EndsWith(t, Ascii(".md")) || EndsWith(t, Ascii(".json"))
    || EndsWith(t, Ascii(".yaml")) || EndsWith(t, Ascii(".yml")) || EndsWith(t, Ascii(".csv"))
  }

  lemma {:induction false} SplitIsPath(t: Bytes)
    ensures Path(Split(t)) == t && forall k :: 0 <= k < |Split(t)| ==> SLASH !in Split(t)[k]
    decreases |t|
  {
    if t != [] {
      SplitIsPath(t[1..]);
      var rest := Split(t[1..]);
      assert t == [t[0]] + t[1..];
      if t[0] == SLASH {
        assert ([[]] + rest)[1..] == rest;
      } else {
        var parts := [[t[0]] + rest[0]] + rest[1..];
        assert parts[1..] == rest[1..];
        if |rest| > 1 {
          assert [t[0]] + rest[0] + [SLASH] + Path(rest[1..]) == [t[0]] + (rest[0] + [SLASH] + Path(rest[1..]));
        }
      }
    }
  }

  lemma {:induction false} PathIsSplit(parts: seq<Bytes>)
    requires parts != [] && forall k :: 0 <= k < |parts| ==> SLASH !in parts[k]
    ensures Split(Path(parts)) == parts
    decreases |parts|
  {
    hide Split;
    if |parts| == 1 {
      SplitAt(parts[0], []);
      assert parts == [parts[0]];
    } else {
      PathIsSplit(parts[1..]);
      SplitAt(parts[0], Path(parts[1..]));
      assert parts == [parts[0]] + parts[1..];
    }
  }

  lemma DeniedAreNamed(p: Bytes)
    ensures (exists i :: 0 <= i < |DENIED| && EqualIgnoringCase(DENIED[i], p))
       <==> IsNamed(p, "node_modules") || IsNamed(p, "vendor") || IsNamed(p, "dist") || IsNamed(p, "build") || IsNamed(p, "coverage")
  {
    hide EqualIgnoringCase, Ascii;
    assert DENIED[0] == Ascii("node_modules") && DENIED[1] == Ascii("vendor") && DENIED[2] == Ascii("dist");
    assert DENIED[3] == Ascii("build") && DENIED[4] == Ascii("coverage") && |DENIED| == 5;
  }

  lemma PlainIsGood(p: Bytes)
    ensures PlainPart(p) <==> GoodSegment(p)
  {
    hide IsNamed, EqualIgnoringCase;
    DeniedAreNamed(p);
    assert TEMP_PREFIX[0] == DOT;
    assert StartsWith(p, TEMP_PREFIX) ==> p[0] == p[..|TEMP_PREFIX|][0];
  }

  /** A suffix that starts with its one dot is there exactly when it is what follows the last dot. */
  lemma {:induction false} SuffixIsFromLastDot(t: Bytes, e: Bytes)
    requires |e| > 1 && e[0] == DOT && DOT !in e[1..]
    ensures EndsWith(t, e) <==> FromLastDot(t) == e
    decreases |t|
  {
    if t != [] {
      SuffixIsFromLastDot(t[1..], e);
      if |e| <= |t| - 1 {
        assert t[1..][|t| - 1 - |e|..] == t[|t| - |e|..];
        if EndsWith(t, e) { assert EndsWith(t[1..], e); }
      } else if EndsWith(t, e) {
        assert t == e;
        NoDotNothing(t[1..]);
      }
      LastDotIsSuffix(t[1..]);
      LastDotIsSuffix(t);
      if FromLastDot(t) == e {
        assert EndsWith(t, e);
      }
    }
  }

  lemma {:induction false} NoDotNothing(t: Bytes)
    requires DOT !in t
    ensures FromLastDot(t) == []
  {
    if t != [] {
      NoDotNothing(t[1..]);
    }
  }

  lemma {:induction false} LastDotIsSuffix(t: Bytes)
    ensures EndsWith(t, FromLastDot(t))
    decreases |t|
  {
    if t != [] {
      LastDotIsSuffix(t[1..]);
      var d := FromLastDot(t[1..]);
      assert t[1..][|t| - 1 - |d|..] == t[|t| - |d|..];
    }
  }

  lemma ExtensionIsLast(t: Bytes)
    ensures HasExtension(t) <==> FromLastDot(t) in EXTENSIONS
  {
    hide FromLastDot, EndsWith;
    SuffixIsFromLastDot(t, Ascii(".txt"));
    SuffixIsFromLastDot(t, Ascii(".md"));
    SuffixIsFromLastDot(t, Ascii(".json"));
    SuffixIsFromLastDot(t, Ascii(".yaml"));
    SuffixIsFromLastDot(t, Ascii(".yml"));
    SuffixIsFromLastDot(t, Ascii(".csv"));
    assert EXTENSIONS == [Ascii(".txt"), Ascii(".md"), Ascii(".json"), Ascii(".yaml"), Ascii(".yml"), Ascii(".csv")];
  }

  ghost predicate IsPlainPath(t: Bytes) {
    exists parts: seq<Bytes> ::
      parts != [] && |parts| <= 12 && (forall k :: 0 <= k < |parts| ==> PlainPart(parts[k])) && t == Path(parts)
  }

  /** The accepted targets are the paths of at most 240 bytes and twelve plain parts with one of the extensions. */
  lemma AllowedExactly(t: Bytes)
    ensures AllowedTarget(t) <==> |t| <= 240 && IsPlainPath(t) && HasExtension(t)
  {
    hide FromLastDot, HasExtension, EXTENSIONS, PlainPart, GoodSegment, Split;
    ExtensionIsLast(t);
    SplitIsPath(t);
    forall p ensures PlainPart(p) <==> GoodSegment(p) {
      PlainIsGood(p);
    }
    if AllowedTarget(t) {
      assert |Split(t)| <= 12 && t == Path(Split(t));
    }
    if IsPlainPath(t) {
      var parts: seq<Bytes> :| parts != [] && |parts| <= 12 && (forall k :: 0 <= k < |parts| ==> PlainPart(parts[k])) && t == Path(parts);
      forall k | 0 <= k < |parts| ensures SLASH !in parts[k] {
        PlainHasNoSlash(parts[k]);
      }
      PathIsSplit(parts);
      assert |t| >= 1 by { PlainHasNoSlash(parts[0]); }
    }
  }

  lemma PlainHasNoSlash(p: Bytes)
    requires PlainPart(p)
    ensures SLASH !in p && p != []
  {
  }
}
