/**
 * JavaScript strings as sequences of UTF-16 code units, as src/lib/canonical.ts and scripts/backup/strict-json.ts see
 * them: surrogates, code points, and the characters JSON gives a meaning to.
 */
module JsStrings {

  newtype CodeUnit = u: int | 0 <= u <= 0xFFFF

  type JsString = seq<CodeUnit>

  const QUOTE: CodeUnit := 0x22
  const PLUS: CodeUnit := 0x2B
  const COMMA: CodeUnit := 0x2C
  const MINUS: CodeUnit := 0x2D
  const DOT: CodeUnit := 0x2E
  const SLASH: CodeUnit := 0x2F
  const ZERO: CodeUnit := 0x30
  const COLON: CodeUnit := 0x3A
  const LBRACKET: CodeUnit := 0x5B
  const BACKSLASH: CodeUnit := 0x5C
  const RBRACKET: CodeUnit := 0x5D
  const LOWER_U: CodeUnit := 0x75
  const LBRACE: CodeUnit := 0x7B
  const RBRACE: CodeUnit := 0x7D

  predicate IsHigh(u: CodeUnit) {
    0xD800 <= u <= 0xDBFF
  }

  predicate IsLow(u: CodeUnit) {
    0xDC00 <= u <= 0xDFFF
  }

  predicate IsDigit(u: CodeUnit) {
    0x30 <= u <= 0x39
  }

  predicate IsHexDigit(u: CodeUnit) {
    IsDigit(u) || 0x41 <= u <= 0x46 || 0x61 <= u <= 0x66
  }

  function HexValue(u: CodeUnit): (v: nat)
    requires IsHexDigit(u)
    ensures v < 16
  {
    (if IsDigit(u) then u - 0x30 else if u <= 0x46 then u - 0x37 else u - 0x57) as nat
  }

  /** JSON white space. */
  predicate IsWs(u: CodeUnit) {
    u == 0x20 || u == 0x09 || u == 0x0A || u == 0x0D
  }

  predicate AllWs(s: JsString) {
    forall i :: 0 <= i < |s| ==> IsWs(s[i])
  }

  predicate AllDigits(s: JsString) {
    forall i :: 0 <= i < |s| ==> IsDigit(s[i])
  }

  /** Every surrogate is part of a pair. */
  predicate WellFormed(s: JsString)
    decreases |s|
  {
    if s == [] then true
    else if IsHigh(s[0]) then |s| > 1 && IsLow(s[1]) && WellFormed(s[2..])
    else !IsLow(s[0]) && WellFormed(s[1..])
  }

  function PairPoint(high: CodeUnit, low: CodeUnit): (point: nat)
    requires IsHigh(high) && IsLow(low)
  {
    0x10000 + (high as int - 0xD800) * 0x400 + (low as int - 0xDC00)
  }

  /** The code points a string iterates over; a lone surrogate counts as itself. */
  function CodePoints(s: JsString): seq<nat>
    decreases |s|
  {
    if s == [] then []
    else if |s| > 1 && IsHigh(s[0]) && IsLow(s[1]) then
      [PairPoint(s[0], s[1])] + CodePoints(s[2..])
    else [s[0] as nat] + CodePoints(s[1..])
  }

  /** Equal code points, equal strings: the code points and the units determine each other. */
  lemma {:induction false} CodePointsAreInjective(a: JsString, b: JsString)
    requires CodePoints(a) == CodePoints(b)
    ensures a == b
    decreases |a|
  {
    if a != [] && b != [] {
      var pa := |a| > 1 && IsHigh(a[0]) && IsLow(a[1]);
      var pb := |b| > 1 && IsHigh(b[0]) && IsLow(b[1]);
      var ra, rb := if pa then a[2..] else a[1..], if pb then b[2..] else b[1..];
      assert CodePoints(a)[1..] == CodePoints(ra) && CodePoints(b)[1..] == CodePoints(rb);
      assert CodePoints(a)[0] == CodePoints(b)[0];
      CodePointsAreInjective(ra, rb);
      if pa {
        assert pb && a == [a[0], a[1]] + ra && b == [b[0], b[1]] + rb;
      } else {
        assert !pb && a == [a[0]] + ra && b == [b[0]] + rb;
      }
    }
  }

  /** Lexicographic comparison of code points: negative, zero or positive. */
  function ComparePoints(a: seq<nat>, b: seq<nat>): int
    decreases |a|
  {
    if a == [] && b == [] then 0
    else if a == [] then -1
    else if b == [] then 1
    else if a[0] != b[0] then (if a[0] < b[0] then -1 else 1)
    else ComparePoints(a[1..], b[1..])
  }

  function Compare(a: JsString, b: JsString): int {
    ComparePoints(CodePoints(a), CodePoints(b))
  }

  predicate Less(a: JsString, b: JsString) {
    Compare(a, b) < 0
  }

  lemma {:induction false} ComparePointsAntisymmetric(a: seq<nat>, b: seq<nat>)
    ensures ComparePoints(a, b) == -ComparePoints(b, a)
    ensures ComparePoints(a, b) == 0 <==> a == b
    decreases |a|
  {
    if a != [] && b != [] {
      ComparePointsAntisymmetric(a[1..], b[1..]);
      if a[0] == b[0] {
        assert a == [a[0]] + a[1..] && b == [b[0]] + b[1..];
      }
    }
  }

  lemma {:induction false} ComparePointsTransitive(a: seq<nat>, b: seq<nat>, c: seq<nat>)
    requires ComparePoints(a, b) < 0 && ComparePoints(b, c) < 0
    ensures ComparePoints(a, c) < 0
    decreases |a|
  {
    if a != [] && c != [] && a[0] == b[0] == c[0] {
      ComparePointsTransitive(a[1..], b[1..], c[1..]);
    }
  }

  /** The order of object keys is a strict total order. */
  lemma LessIsTotalOrder(a: JsString, b: JsString, c: JsString)
    ensures !Less(a, a)
    ensures Less(a, b) || Less(b, a) || a == b
    ensures !(Less(a, b) && Less(b, a))
    ensures Less(a, b) && Less(b, c) ==> Less(a, c)
  {
    ComparePointsAntisymmetric(CodePoints(a), CodePoints(a));
    ComparePointsAntisymmetric(CodePoints(a), CodePoints(b));
    if CodePoints(a) == CodePoints(b) {
      CodePointsAreInjective(a, b);
    }
    if Less(a, b) && Less(b, c) {
      ComparePointsTransitive(CodePoints(a), CodePoints(b), CodePoints(c));
    }
  }

  /** The code points p and q agree up to k; then p ends first, or has the smaller point there. */
  predicate FirstDifferenceAt(p: seq<nat>, q: seq<nat>, k: int) {
    0 <= k <= |p| && k < |q| && p[..k] == q[..k] && (k == |p| || p[k] < q[k])
  }

  ghost predicate DiffersUpwards(p: seq<nat>, q: seq<nat>) {
    exists k :: FirstDifferenceAt(p, q, k)
  }

  lemma {:induction false} ComparedAtFirstDifference(p: seq<nat>, q: seq<nat>)
    ensures ComparePoints(p, q) < 0 <==> DiffersUpwards(p, q)
    decreases |p|
  {
    if p != [] && q != [] && p[0] == q[0] {
      ComparedAtFirstDifference(p[1..], q[1..]);
      if k :| FirstDifferenceAt(p[1..], q[1..], k) {
        assert p[..k + 1] == [p[0]] + p[1..][..k] && q[..k + 1] == [q[0]] + q[1..][..k];
        assert FirstDifferenceAt(p, q, k + 1);
      }
      if k :| FirstDifferenceAt(p, q, k) {
        assert k > 0;
        assert p[1..][..k - 1] == p[..k][1..] && q[1..][..k - 1] == q[..k][1..];
        assert FirstDifferenceAt(p[1..], q[1..], k - 1);
      }
    } else if q != [] {
      assert (p == [] || p[0] < q[0]) ==> FirstDifferenceAt(p, q, 0);
    }
  }

  /** One string is before another when, at the first code point where they differ, it ends or has the smaller one. */
  lemma LessIsByCodePoint(a: JsString, b: JsString)
    ensures Less(a, b) <==> DiffersUpwards(CodePoints(a), CodePoints(b))
  {
    ComparedAtFirstDifference(CodePoints(a), CodePoints(b));
  }

  /** The comparison as the loop over two string iterators computes it. */
  method CompareCodePoints(a: JsString, b: JsString) returns (r: int)
    ensures r == Compare(a, b)
  {
    var i, j := 0, 0;
    while true
      invariant 0 <= i <= |a| && 0 <= j <= |b|
      invariant Compare(a, b) == ComparePoints(CodePoints(a[i..]), CodePoints(b[j..]))
      decreases |a| - i
    {
      assert a[i..] == [] <==> i == |a|;
      if i == |a| && j == |b| { return 0; }
      if i == |a| { return -1; }
      if j == |b| { return 1; }
      var ac, i' := NextPoint(a, i);
      var bc, j' := NextPoint(b, j);
      if ac != bc { return if ac < bc then -1 else 1; }
      i, j := i', j';
    }
  }

  /** One step of a string iterator: the code point at i, and where the next one starts. */
  method NextPoint(s: JsString, i: nat) returns (point: nat, next: nat)
    requires i < |s|
    ensures i < next <= |s| && CodePoints(s[i..]) == [point] + CodePoints(s[next..])
  {
    if i + 1 < |s| && IsHigh(s[i]) && IsLow(s[i + 1]) {
      assert s[i..][2..] == s[i + 2..];
      return PairPoint(s[i], s[i + 1]), i + 2;
    }
    assert s[i..][1..] == s[i + 1..];
    return s[i] as nat, i + 1;
  }
}
