/**
 * The payload check of guest/king-file-write-v1/king-file-write-v1.c: a byte automaton threaded through chunks, against
 * the syntax of UTF-8 (section 4 of RFC 3629) and the encoding of scalar values (section 3).
 */
module Utf8 {
  import opened Wrappers

  newtype Byte = b: int | 0 <= b < 0x100

  type Bytes = seq<Byte>

  // ---------- The automaton ----------

  /** Bytes still to come in the current character, and the range the next one must be in. */
  datatype State = State(continuations: nat, nextMin: Byte, nextMax: Byte)

  const IDLE := State(0, 0x80, 0xBF)

  /** One byte, or None where the check fails. */
  function Step(s: State, c: Byte): Option<State> {
    if s.continuations > 0 then
      if c < s.nextMin || c > s.nextMax then None else Some(State(s.continuations - 1, 0x80, 0xBF))
    else if c < 0x80 then
      if (c < 0x20 && c != 0x09 && c != 0x0A) || c == 0x7F then None else Some(s)
    else if 0xC2 <= c <= 0xDF then Some(State(1, 0x80, 0xBF))
    else if 0xE0 <= c <= 0xEF then
      Some(State(2, if c == 0xE0 then 0xA0 else 0x80, if c == 0xED then 0x9F else 0xBF))
    else if 0xF0 <= c <= 0xF4 then
      Some(State(3, if c == 0xF0 then 0x90 else 0x80, if c == 0xF4 then 0x8F else 0xBF))
    else None
  }

  function Run(s: State, bytes: Bytes): Option<State>
    decreases |bytes|
  {
    if bytes == [] then Some(s)
    else match Step(s, bytes[0]) case None => None case Some(s') => Run(s', bytes[1..])
  }

  /** The bytes pass: no byte is refused, and no character is left unfinished. */
  predicate Passes(bytes: Bytes) {
    Run(IDLE, bytes).Some? && Run(IDLE, bytes).value.continuations == 0
  }

  lemma RunOne(s: State, c: Byte, rest: Bytes)
    ensures Run(s, [c] + rest) == match Step(s, c) case None => None case Some(s') => Run(s', rest)
  {
    assert ([c] + rest)[1..] == rest;
  }

  lemma {:induction false} RunInTwo(s: State, a: Bytes, b: Bytes)
    ensures Run(s, a + b) == match Run(s, a) case None => None case Some(s') => Run(s', b)
    decreases |a|
  {
    if a == [] {
      assert a + b == b;
    } else {
      assert (a + b)[1..] == a[1..] + b;
      if Step(s, a[0]).Some? {
        RunInTwo(Step(s, a[0]).value, a[1..], b);
      }
    }
  }

  class Utf8Checker {
    var continuations: nat
    var nextMin: Byte
    var nextMax: Byte

    constructor ()
      ensures Current() == IDLE
    {
      continuations, nextMin, nextMax := 0, 0x80, 0xBF;
    }

    ghost function Current(): State
      reads this
    {
      State(continuations, nextMin, nextMax)
    }

    /** Carries the state over a chunk. After a failure nothing is said of the state. */
    method ValidChunk(bytes: Bytes) returns (ok: bool)
      modifies this
      ensures ok == Run(old(Current()), bytes).Some?
      ensures ok ==> Some(Current()) == Run(old(Current()), bytes)
    {
      ghost var start := Current();
      assert bytes[0..] == bytes;
      for i := 0 to |bytes|
        invariant Run(start, bytes) == Run(Current(), bytes[i..])
      {
        var c := bytes[i];
        assert bytes[i..][0] == c && bytes[i..][1..] == bytes[i + 1..];
        if continuations > 0 {
          if c < nextMin || c > nextMax { return false; }
          continuations, nextMin, nextMax := continuations - 1, 0x80, 0xBF;
        } else if c < 0x80 {
          if (c < 0x20 && c != 0x09 && c != 0x0A) || c == 0x7F { return false; }
        } else if 0xC2 <= c <= 0xDF {
          continuations, nextMin, nextMax := 1, 0x80, 0xBF;
        } else if 0xE0 <= c <= 0xEF {
          continuations := 2;
          nextMin := if c == 0xE0 then 0xA0 else 0x80;
          nextMax := if c == 0xED then 0x9F else 0xBF;
        } else if 0xF0 <= c <= 0xF4 {
          continuations := 3;
          nextMin := if c == 0xF0 then 0x90 else 0x80;
          nextMax := if c == 0xF4 then 0x8F else 0xBF;
        } else {
          return false;
        }
      }
      return true;
    }
  }

  // ---------- The payload ----------

  const MAX_PAYLOAD := 262144

  function Joined(chunks: seq<Bytes>): Bytes {
    if chunks == [] then [] else Joined(chunks[..|chunks| - 1]) + chunks[|chunks| - 1]
  }

  /** The state after the check of one chunk after the other, or None from the first chunk that fails. */
  function Threaded(s: State, chunks: seq<Bytes>): Option<State> {
    if chunks == [] then Some(s)
    else match Threaded(s, chunks[..|chunks| - 1])
      case None => None
      case Some(s') => Run(s', chunks[|chunks| - 1])
  }

  /** The verdict on a payload that comes in chunks. */
  predicate ChunksPass(chunks: seq<Bytes>) {
    Threaded(IDLE, chunks).Some? && Threaded(IDLE, chunks).value.continuations == 0
  }

  lemma NoChunks(s: State)
    ensures Joined([]) == [] && Threaded(s, []) == Some(s)
  {
  }

  lemma OneMoreChunk(s: State, chunks: seq<Bytes>, n: nat)
    requires n < |chunks|
    ensures Joined(chunks[..n + 1]) == Joined(chunks[..n]) + chunks[n]
    ensures Threaded(s, chunks[..n + 1]) ==
            match Threaded(s, chunks[..n]) case None => None case Some(s') => Run(s', chunks[n])
  {
    assert chunks[..n + 1][..n] == chunks[..n];
  }

  lemma {:induction false} JoinedGrows(chunks: seq<Bytes>, n: nat)
    requires n <= |chunks|
    ensures |Joined(chunks[..n])| <= |Joined(chunks)|
    decreases |chunks|
  {
    if n < |chunks| {
      JoinedGrows(chunks[..|chunks| - 1], n);
      assert chunks[..|chunks| - 1][..n] == chunks[..n];
    } else {
      assert chunks[..n] == chunks;
    }
  }

  lemma {:induction false} FailureStays(s: State, chunks: seq<Bytes>, n: nat)
    requires n <= |chunks| && Threaded(s, chunks[..n]).None?
    ensures Threaded(s, chunks).None?
    decreases |chunks|
  {
    if n < |chunks| {
      assert chunks[..|chunks| - 1][..n] == chunks[..n];
      FailureStays(s, chunks[..|chunks| - 1], n);
    } else {
      assert chunks[..n] == chunks;
    }
  }

  /** Threading the state through the chunks is running over all their bytes. */
  lemma {:induction false} ThreadedRuns(s: State, chunks: seq<Bytes>)
    ensures Threaded(s, chunks) == Run(s, Joined(chunks))
    decreases |chunks|
  {
    if chunks != [] {
      ThreadedRuns(s, chunks[..|chunks| - 1]);
      RunInTwo(s, Joined(chunks[..|chunks| - 1]), chunks[|chunks| - 1]);
    }
  }

  // ---------- Section 4 of RFC 3629 ----------

  predicate Tail(b: Byte) {
    0x80 <= b <= 0xBF
  }

  /** One UTF-8 character, by the four alternatives of the syntax. */
  predicate IsChar(b: Bytes) {
    || (|b| == 1 && b[0] <= 0x7F)
    || (|b| == 2 && 0xC2 <= b[0] <= 0xDF && Tail(b[1]))
    || (|b| == 3 && Tail(b[2])
        && ((b[0] == 0xE0 && 0xA0 <= b[1] <= 0xBF) || (0xE1 <= b[0] <= 0xEC && Tail(b[1]))
            || (b[0] == 0xED && 0x80 <= b[1] <= 0x9F) || (0xEE <= b[0] <= 0xEF && Tail(b[1]))))
    || (|b| == 4 && Tail(b[2]) && Tail(b[3])
        && ((b[0] == 0xF0 && 0x90 <= b[1] <= 0xBF) || (0xF1 <= b[0] <= 0xF3 && Tail(b[1]))
            || (b[0] == 0xF4 && 0x80 <= b[1] <= 0x8F)))
  }

  /** A character other than DEL and the C0 controls except tab and newline. */
  predicate IsTextChar(b: Bytes) {
    IsChar(b) && (|b| == 1 ==> b[0] != 0x7F && (b[0] >= 0x20 || b[0] == 0x09 || b[0] == 0x0A))
  }

  /** A sequence of such characters. */
  ghost predicate IsText(b: Bytes)
    decreases |b|
  {
    b == [] || exists n :: 1 <= n <= |b| && IsTextChar(b[..n]) && IsText(b[n..])
  }

  /** Two bytes of one character. */
  lemma LeadRuns(c: Byte, d: Byte, n: nat, rest: Bytes)
    requires Step(IDLE, c).Some? && Step(IDLE, c).value.continuations == n + 1
    requires Step(IDLE, c).value.nextMin <= d <= Step(IDLE, c).value.nextMax
    ensures Run(IDLE, [c] + ([d] + rest)) == Run(State(n, 0x80, 0xBF), rest)
  {
    RunTwo(IDLE, c, d, rest);
  }

  /** The automaton over one character comes back to rest. */
  lemma CharRuns(b: Bytes, rest: Bytes)
    requires IsTextChar(b)
    ensures Run(IDLE, b + rest) == Run(IDLE, rest)
  {
    if |b| == 1 {
      assert b + rest == [b[0]] + rest;
      RunOne(IDLE, b[0], rest);
    } else {
      hide Run;
      var last := if |b| == 2 then rest else if |b| == 3 then [b[2]] + rest else [b[2]] + ([b[3]] + rest);
      assert b + rest == [b[0]] + ([b[1]] + last);
      LeadRuns(b[0], b[1], |b| - 2, last);
      TailsRun(b, rest);
    }
  }

  lemma TailsRun(b: Bytes, rest: Bytes)
    requires 2 <= |b| <= 4 && (|b| > 2 ==> Tail(b[2])) && (|b| > 3 ==> Tail(b[3]))
    ensures var last := if |b| == 2 then rest else if |b| == 3 then [b[2]] + rest else [b[2]] + ([b[3]] + rest);
            Run(State(|b| - 2, 0x80, 0xBF), last) == Run(IDLE, rest)
  {
    if |b| == 3 {
      RunOne(State(1, 0x80, 0xBF), b[2], rest);
    } else if |b| == 4 {
      RunTwo(State(2, 0x80, 0xBF), b[2], b[3], rest);
    }
  }

  lemma RunTwo(s: State, c: Byte, d: Byte, rest: Bytes)
    requires Step(s, c).Some? && Step(Step(s, c).value, d).Some?
    ensures Run(s, [c] + ([d] + rest)) == Run(Step(Step(s, c).value, d).value, rest)
  {
    RunOne(s, c, [d] + rest);
    RunOne(Step(s, c).value, d, rest);
  }

  /** How many bytes the first byte announces. */
  function Length(c: Byte): nat {
    if c < 0x80 then 1 else if c <= 0xDF then 2 else if c <= 0xEF then 3 else 4
  }

  /** From rest to rest, the first character is a whole one. */
  lemma FirstChar(b: Bytes)
    requires b != [] && Passes(b)
    ensures Length(b[0]) <= |b| && IsTextChar(b[..Length(b[0])])
  {
    var s := Step(IDLE, b[0]).value;
    assert s.continuations == Length(b[0]) - 1;
    if s.continuations > 0 {
      Continues(s, b[1..]);
    }
    if s.continuations > 1 {
      Continues(Step(s, b[1]).value, b[1..][1..]);
    }
    if s.continuations > 2 {
      Continues(Step(Step(s, b[1]).value, b[2]).value, b[1..][1..][1..]);
    }
  }

  /** An unfinished character has to go on, with a byte in range. */
  lemma Continues(s: State, b: Bytes)
    requires s.continuations > 0 && Run(s, b).Some? && Run(s, b).value.continuations == 0
    ensures b != [] && s.nextMin <= b[0] <= s.nextMax
    ensures Step(s, b[0]).Some? && Run(s, b) == Run(Step(s, b[0]).value, b[1..])
  {
  }

  /** The automaton accepts exactly the text of the syntax. */
  lemma {:induction false} PassesExactlyText(b: Bytes)
    ensures Passes(b) <==> IsText(b)
    decreases |b|
  {
    hide Run, Step, IsTextChar;
    if b == [] {
      assert Passes(b) by { NothingPasses(); }
    } else {
      if Passes(b) {
        FirstChar(b);
        var n := Length(b[0]);
        CharRuns(b[..n], b[n..]);
        assert b == b[..n] + b[n..];
        PassesExactlyText(b[n..]);
      }
      if IsText(b) {
        var n :| 1 <= n <= |b| && IsTextChar(b[..n]) && IsText(b[n..]);
        CharRuns(b[..n], b[n..]);
        assert b == b[..n] + b[n..];
        PassesExactlyText(b[n..]);
      }
    }
  }

  lemma NothingPasses()
    ensures Passes([])
  {
  }

  /** The chunked check gives one verdict on all cuts of the same bytes, and accepts exactly the text of the syntax. */
  lemma ChunksDoNotMatter(a: seq<Bytes>, b: seq<Bytes>)
    requires Joined(a) == Joined(b)
    ensures ChunksPass(a) == ChunksPass(b)
    ensures ChunksPass(a) <==> IsText(Joined(a))
  {
    ThreadedRuns(IDLE, a);
    ThreadedRuns(IDLE, b);
    PassesExactlyText(Joined(a));
  }

  // ---------- Section 3 of RFC 3629 ----------

  predicate IsScalar(n: int) {
    0 <= n <= 0xD7FF || 0xE000 <= n <= 0x10FFFF
  }

  function Encode(n: int): Bytes
    requires IsScalar(n)
  {
    if n < 0x80 then [n as Byte]
    else if n < 0x800 then [(0xC0 + n / 0x40) as Byte, (0x80 + n % 0x40) as Byte]
    else if n < 0x10000 then
      [(0xE0 + n / 0x1000) as Byte, (0x80 + n / 0x40 % 0x40) as Byte, (0x80 + n % 0x40) as Byte]
    else
      [(0xF0 + n / 0x40000) as Byte, (0x80 + n / 0x1000 % 0x40) as Byte, (0x80 + n / 0x40 % 0x40) as Byte,
       (0x80 + n % 0x40) as Byte]
  }

  function Decode(b: Bytes): int
    requires IsChar(b)
  {
    if |b| == 1 then b[0] as int
    else if |b| == 2 then (b[0] as int - 0xC0) * 0x40 + (b[1] as int - 0x80)
    else if |b| == 3 then (b[0] as int - 0xE0) * 0x1000 + (b[1] as int - 0x80) * 0x40 + (b[2] as int - 0x80)
    else (b[0] as int - 0xF0) * 0x40000 + (b[1] as int - 0x80) * 0x1000 + (b[2] as int - 0x80) * 0x40 + (b[3] as int - 0x80)
  }

  /** The characters of the syntax are the encodings of the scalar values, one each. */
  lemma CharsAreScalars(b: Bytes)
    ensures IsChar(b) <==> exists n :: IsScalar(n) && Encode(n) == b
  {
    if IsChar(b) {
      EncodeDecode(b);
      assert IsScalar(Decode(b)) && Encode(Decode(b)) == b;
    }
    if n :| IsScalar(n) && Encode(n) == b {
      EncodingIsChar(n);
    }
  }

  lemma EncodeDecode(b: Bytes)
    requires IsChar(b)
    ensures IsScalar(Decode(b)) && Encode(Decode(b)) == b
  {
    if |b| == 3 {
      EncodeDecode3(b);
    } else if |b| == 4 {
      EncodeDecode4(b);
    }
  }

  lemma EncodeDecode3(b: Bytes)
    requires IsChar(b) && |b| == 3
    ensures IsScalar(Decode(b)) && Encode(Decode(b)) == b
  {
    ThreeDigits(b[0] as int - 0xE0, b[1] as int - 0x80, b[2] as int - 0x80);
  }

  lemma EncodeDecode4(b: Bytes)
    requires IsChar(b) && |b| == 4
    ensures IsScalar(Decode(b)) && Encode(Decode(b)) == b
  {
    var w, x, y, z := b[0] as int - 0xF0, b[1] as int - 0x80, b[2] as int - 0x80, b[3] as int - 0x80;
    ThreeDigits(w * 0x40 + x, y, z);
    assert (w * 0x40 + x) / 0x40 == w && (w * 0x40 + x) % 0x40 == x;
    assert Decode(b) == (w * 0x40 + x) * 0x1000 + y * 0x40 + z;
  }

  lemma ThreeDigits(x: int, y: int, z: int)
    requires 0 <= x && 0 <= y < 0x40 && 0 <= z < 0x40
    ensures var n := x * 0x1000 + y * 0x40 + z;
            && n / 0x1000 == x && n / 0x40 % 0x40 == y && n % 0x40 == z
            && n / 0x40000 == x / 0x40 && n / 0x1000 % 0x40 == x % 0x40
  {
    var n := x * 0x1000 + y * 0x40 + z;
    assert n / 0x40 == x * 0x40 + y;
    assert n / 0x1000 == x;
  }

  /** A number in base 64. */
  lemma DigitsOf(n: nat)
    ensures n == n / 0x1000 * 0x1000 + n / 0x40 % 0x40 * 0x40 + n % 0x40
    ensures n / 0x1000 == n / 0x40000 * 0x40 + n / 0x1000 % 0x40
  {
    assert n / 0x1000 == n / 0x40 / 0x40;
    assert n / 0x40000 == n / 0x1000 / 0x40;
  }

  lemma EncodingIsChar(n: int)
    requires IsScalar(n)
    ensures IsChar(Encode(n)) && Decode(Encode(n)) == n
  {
    if n >= 0x10000 {
      EncodingIsChar4(n);
    } else if n >= 0x800 {
      EncodingIsChar3(n);
    }
  }

  lemma EncodingIsChar3(n: int)
    requires IsScalar(n) && 0x800 <= n < 0x10000
    ensures IsChar(Encode(n)) && Decode(Encode(n)) == n
  {
    DigitsOf(n);
    var x, y, z := n / 0x1000, n / 0x40 % 0x40, n % 0x40;
    assert Encode(n) == [(0xE0 + x) as Byte, (0x80 + y) as Byte, (0x80 + z) as Byte];
  }

  lemma EncodingIsChar4(n: int)
    requires IsScalar(n) && 0x10000 <= n
    ensures IsChar(Encode(n)) && Decode(Encode(n)) == n
  {
    DigitsOf(n);
    var w, x, y, z := n / 0x40000, n / 0x1000 % 0x40, n / 0x40 % 0x40, n % 0x40;
    assert Encode(n) == [(0xF0 + w) as Byte, (0x80 + x) as Byte, (0x80 + y) as Byte, (0x80 + z) as Byte];
    assert n == (w * 0x40 + x) * 0x1000 + y * 0x40 + z;
  }
}
