/**
 * The block parser of src/components/safe-markdown.tsx over the lines of a text: when its loop ends, and where each line
 * goes. A block keeps its raw lines; taking markers off them is not modelled.
 */
module Markdown {
  import opened Wrappers
  import opened Text

  // ---------- The line tests ----------

  /** What `.` does not match. */
  predicate IsTerminator(c: char) {
    c in {'\n', '\r', '\U{2028}', '\U{2029}'}
  }

  predicate NoTerminator(s: string) {
    forall i :: 0 <= i < |s| ==> !IsTerminator(s[i])
  }

  /** `^\s*```` */
  predicate IsFence(line: string) {
    var u := TrimStart(line);
    |u| >= 3 && u[0] == '`' && u[1] == '`' && u[2] == '`'
  }

  predicate FewSpaces(line: string) {
    |line| - |TrimStart(line)| <= 3
  }

  /** `^\s{0,3}>` */
  predicate IsQuote(line: string) {
    FewSpaces(line) && TrimStart(line) != [] && TrimStart(line)[0] == '>'
  }

  function Hashes(s: string): nat
    ensures Hashes(s) <= |s|
  {
    if s != [] && s[0] == '#' then 1 + Hashes(s[1..]) else 0
  }

  /** `^\s{0,3}#{1,6}\s`: what the paragraph loop stops at. */
  predicate LooksLikeHeading(line: string) {
    var u := TrimStart(line);
    FewSpaces(line) && 1 <= Hashes(u) <= 6 && Hashes(u) < |u| && IsSpace(u[Hashes(u)])
  }

  /** `^\s{0,3}#{1,6}\s+(.*)$`: what is parsed as a heading. */
  predicate IsHeading(line: string) {
    LooksLikeHeading(line) && NoTerminator(TrimStart(TrimStart(line)[Hashes(TrimStart(line))..]))
  }

  function DigitRun(s: string): nat
    ensures DigitRun(s) <= |s|
  {
    if s != [] && '0' <= s[0] <= '9' then 1 + DigitRun(s[1..]) else 0
  }

  /** The length of a list marker, `[-*+]|\d{1,3}[.)]`, or 0. */
  function Marker(s: string): (n: nat)
    ensures n <= |s|
  {
    if s == [] then 0
    else if s[0] in {'-', '*', '+'} then 1
    else
      var d := DigitRun(s);
      if 1 <= d <= 3 && d < |s| && s[d] in {'.', ')'} then d + 1 else 0
  }

  /** `^(\s*)([-*+]|\d{1,3}[.)])\s+(.*)$` */
  predicate IsListItem(line: string) {
    var u := TrimStart(line);
    var n := Marker(u);
    n > 0 && n < |u| && IsSpace(u[n]) && NoTerminator(TrimStart(u[n..]))
  }

  /** What the paragraph loop takes. */
  predicate IsProse(line: string) {
    !IsBlank(line) && !IsFence(line) && !LooksLikeHeading(line) && !IsQuote(line) && !IsListItem(line)
  }

  /** A line that stops a paragraph as a heading would and is none. */
  predicate IsStuck(line: string) {
    LooksLikeHeading(line) && !IsHeading(line)
  }

  // ---------- The tests as patterns ----------

  predicate AllAre(s: string, c: char) {
    forall i :: 0 <= i < |s| ==> s[i] == c
  }

  lemma {:induction false} TrimmedIs(a: string, b: string)
    requires IsBlank(a) && (b == [] || !IsSpace(b[0]))
    ensures TrimStart(a + b) == b
    decreases |a|
  {
    hide IsSpace;
    if a == [] {
      assert a + b == b;
    } else {
      assert (a + b)[0] == a[0] && (a + b)[1..] == a[1..] + b;
      TrimmedIs(a[1..], b);
    }
  }

  lemma LineIsTrimmed(line: string) returns (a: string)
    ensures line == a + TrimStart(line) && IsBlank(a) && |a| == |line| - |TrimStart(line)|
  {
    hide IsSpace;
    a := line[..|line| - |TrimStart(line)|];
  }

  lemma {:induction false} HashesAre(h: string, rest: string)
    requires AllAre(h, '#') && (rest == [] || rest[0] != '#')
    ensures Hashes(h + rest) == |h|
    decreases |h|
  {
    if h == [] {
      assert h + rest == rest;
    } else {
      assert (h + rest)[1..] == h[1..] + rest;
      HashesAre(h[1..], rest);
    }
  }

  lemma {:induction false} HashesFirst(u: string)
    ensures AllAre(u[..Hashes(u)], '#')
    decreases |u|
  {
    if u != [] && u[0] == '#' {
      HashesFirst(u[1..]);
      assert u[..Hashes(u)] == [u[0]] + u[1..][..Hashes(u[1..])];
    }
  }

  lemma MarksAreNoSpace()
    ensures !IsSpace('>') && !IsSpace('`')
  {
  }

  /** Up to three spaces, and a `>`. */
  lemma QuotesAre(line: string)
    ensures IsQuote(line) <==> exists a, rest :: |a| <= 3 && IsBlank(a) && line == a + ">" + rest
  {
    hide TrimStart, IsSpace;
    MarksAreNoSpace();
    if IsQuote(line) {
      var a := LineIsTrimmed(line);
      var u := TrimStart(line);
      assert line == a + ">" + u[1..];
    }
    if a, rest :| |a| <= 3 && IsBlank(a) && line == a + ">" + rest {
      QuoteFrom(line, a, rest);
    }
  }

  lemma QuoteFrom(line: string, a: string, rest: string)
    requires |a| <= 3 && IsBlank(a) && line == a + ">" + rest
    ensures IsQuote(line)
  {
    hide TrimStart, IsSpace;
    MarksAreNoSpace();
    var u := ">" + rest;
    assert u[0] == '>' && line == a + u;
    TrimmedIs(a, u);
    assert TrimStart(line) == u && |line| == |a| + |u|;
  }

  /** Any spaces, and three backquotes. */
  lemma FencesAre(line: string)
    ensures IsFence(line) <==> exists a, rest :: IsBlank(a) && line == a + "```" + rest
  {
    hide TrimStart, IsSpace;
    MarksAreNoSpace();
    if IsFence(line) {
      var a := LineIsTrimmed(line);
      var u := TrimStart(line);
      assert u == "```" + u[3..];
      assert line == a + "```" + u[3..];
    }
    if a, rest :| IsBlank(a) && line == a + "```" + rest {
      FenceFrom(line, a, rest);
    }
  }

  lemma FenceFrom(line: string, a: string, rest: string)
    requires IsBlank(a) && line == a + "```" + rest
    ensures IsFence(line)
  {
    hide TrimStart, IsSpace;
    MarksAreNoSpace();
    var u := "```" + rest;
    assert u[0] == '`' && u[1] == '`' && u[2] == '`' && line == a + u;
    TrimmedIs(a, u);
    assert TrimStart(line) == u;
  }

  /** Up to three spaces, one to six hashes, and a space. */
  ghost predicate StartsAsHeading(line: string, a: string, h: string, rest: string) {
    && |a| <= 3 && IsBlank(a) && 1 <= |h| <= 6 && AllAre(h, '#') && rest != [] && IsSpace(rest[0])
    && line == a + h + rest
  }

  lemma HeadingParts(line: string, a: string, h: string, rest: string)
    requires StartsAsHeading(line, a, h, rest)
    ensures TrimStart(line) == h + rest && Hashes(h + rest) == |h| && |line| - |TrimStart(line)| == |a|
    ensures (h + rest)[|h|..] == rest
  {
    hide TrimStart, Hashes, IsSpace;
    assert IsSpace(' ') && !IsSpace('#') by { MarkAndSpace(); }
    assert line == a + (h + rest);
    TrimmedIs(a, h + rest);
    HashesAre(h, rest);
  }

  lemma HeadingStarts(line: string) returns (a: string, h: string, rest: string)
    requires LooksLikeHeading(line)
    ensures StartsAsHeading(line, a, h, rest) && rest == TrimStart(line)[Hashes(TrimStart(line))..]
  {
    hide TrimStart, IsSpace;
    a := LineIsTrimmed(line);
    var u := TrimStart(line);
    h, rest := u[..Hashes(u)], u[Hashes(u)..];
    HashesFirst(u);
    assert u == h + rest;
  }

  lemma HeadingMarksAre(line: string)
    ensures LooksLikeHeading(line) <==> exists a, h, rest :: StartsAsHeading(line, a, h, rest)
  {
    hide TrimStart, Hashes, IsSpace, StartsAsHeading;
    if LooksLikeHeading(line) {
      var a, h, rest := HeadingStarts(line);
    }
    if a, h, rest :| StartsAsHeading(line, a, h, rest) {
      HeadingParts(line, a, h, rest);
      assert 1 <= |h| <= 6 && |a| <= 3 && rest != [] && IsSpace(rest[0]) by { PartsAre(line, a, h, rest); }
      assert (h + rest)[|h|] == rest[0];
    }
  }

  lemma PartsAre(line: string, a: string, h: string, rest: string)
    requires StartsAsHeading(line, a, h, rest)
    ensures |a| <= 3 && 1 <= |h| <= 6 && rest != [] && IsSpace(rest[0])
  {
  }

  /** And after the spaces a title without a line terminator. */
  lemma HeadingsAre(line: string)
    ensures IsHeading(line) <==>
              exists a, h, gap, title :: StartsAsHeading(line, a, h, gap + title) && gap != [] && IsBlank(gap) && NoTerminator(title)
  {
    hide TrimStart, Hashes, IsSpace, StartsAsHeading, LooksLikeHeading, IsTerminator;
    HeadingMarksAre(line);
    if IsHeading(line) {
      var a, h, rest := HeadingStarts(line);
      var gap := LineIsTrimmed(rest);
      PartsAre(line, a, h, rest);
      FirstSpaceIsTrimmed(rest);
      assert StartsAsHeading(line, a, h, gap + TrimStart(rest)) && gap != [] && IsBlank(gap) && NoTerminator(TrimStart(rest));
    }
    if a, h, gap, title :| StartsAsHeading(line, a, h, gap + title) && gap != [] && IsBlank(gap) && NoTerminator(title) {
      HeadingParts(line, a, h, gap + title);
      TrimmedTitle(gap, title);
    }
  }

  lemma FirstSpaceIsTrimmed(s: string)
    requires s != [] && IsSpace(s[0])
    ensures |TrimStart(s)| < |s|
  {
  }

  /** Trimming the gap and the title leaves an end of the title. */
  lemma {:induction false} TrimmedTitle(gap: string, title: string)
    requires IsBlank(gap) && NoTerminator(title)
    ensures NoTerminator(TrimStart(gap + title))
    decreases |gap|
  {
    hide IsSpace, IsTerminator;
    if gap == [] {
      assert gap + title == title;
      var a := LineIsTrimmed(title);
    } else {
      assert (gap + title)[0] == gap[0] && (gap + title)[1..] == gap[1..] + title;
      TrimmedTitle(gap[1..], title);
    }
  }

  /** A dash, star or plus, or one to three digits and a dot or a parenthesis. */
  predicate IsMarker(m: string) {
    || m == "-" || m == "*" || m == "+"
    || (2 <= |m| <= 4 && m[|m| - 1] in {'.', ')'} && forall i :: 0 <= i < |m| - 1 ==> '0' <= m[i] <= '9')
  }

  ghost predicate StartsAsItem(line: string, a: string, m: string, rest: string) {
    IsBlank(a) && IsMarker(m) && rest != [] && IsSpace(rest[0]) && line == a + m + rest
  }

  lemma {:induction false} DigitRunIs(d: string, rest: string)
    requires (forall i :: 0 <= i < |d| ==> '0' <= d[i] <= '9') && (rest == [] || !('0' <= rest[0] <= '9'))
    ensures DigitRun(d + rest) == |d|
    decreases |d|
  {
    if d == [] {
      assert d + rest == rest;
    } else {
      assert (d + rest)[1..] == d[1..] + rest;
      DigitRunIs(d[1..], rest);
    }
  }

  lemma {:induction false} DigitsFirst(u: string)
    ensures forall i :: 0 <= i < DigitRun(u) ==> '0' <= u[i] <= '9'
    decreases |u|
  {
    if u != [] && '0' <= u[0] <= '9' {
      DigitsFirst(u[1..]);
      assert forall i :: 0 < i < DigitRun(u) ==> u[i] == u[1..][i - 1];
    }
  }

  lemma MarkerIs(m: string, rest: string)
    requires IsMarker(m) && rest != [] && IsSpace(rest[0])
    ensures Marker(m + rest) == |m| && !IsSpace((m + rest)[0])
  {
    var s := m + rest;
    assert s[0] == m[0] && m[0] in {'-', '*', '+', '0', '1', '2', '3', '4', '5', '6', '7', '8', '9'};
    if |m| > 1 {
      var d := m[..|m| - 1];
      assert s == d + ([m[|m| - 1]] + rest);
      DigitRunIs(d, [m[|m| - 1]] + rest);
    }
  }

  lemma MarkerFirst(u: string)
    requires Marker(u) > 0
    ensures IsMarker(u[..Marker(u)])
  {
    DigitsFirst(u);
  }

  lemma ItemStarts(line: string) returns (a: string, m: string, rest: string)
    requires Marker(TrimStart(line)) > 0 && Marker(TrimStart(line)) < |TrimStart(line)|
    requires IsSpace(TrimStart(line)[Marker(TrimStart(line))])
    ensures StartsAsItem(line, a, m, rest) && rest == TrimStart(line)[Marker(TrimStart(line))..]
  {
    hide TrimStart, IsSpace, Marker, IsMarker;
    a := LineIsTrimmed(line);
    var u := TrimStart(line);
    m, rest := u[..Marker(u)], u[Marker(u)..];
    MarkerFirst(u);
    assert u == m + rest;
  }

  /** Any spaces, a marker, spaces, and a text without a line terminator. */
  lemma ListItemsAre(line: string)
    ensures IsListItem(line) <==>
              exists a, m, gap, text :: StartsAsItem(line, a, m, gap + text) && gap != [] && IsBlank(gap) && NoTerminator(text)
  {
    hide TrimStart, IsSpace, Marker, IsMarker, IsTerminator, StartsAsItem;
    if IsListItem(line) {
      var a, m, rest := ItemStarts(line);
      var gap := LineIsTrimmed(rest);
      FirstSpaceIsTrimmed(rest);
      assert StartsAsItem(line, a, m, gap + TrimStart(rest)) && gap != [] && IsBlank(gap) && NoTerminator(TrimStart(rest));
    }
    if a, m, gap, text :| StartsAsItem(line, a, m, gap + text) && gap != [] && IsBlank(gap) && NoTerminator(text) {
      ItemParts(line, a, m, gap + text);
      TrimmedTitle(gap, text);
    }
  }

  lemma ItemParts(line: string, a: string, m: string, rest: string)
    requires StartsAsItem(line, a, m, rest)
    ensures var u := TrimStart(line);
            u == m + rest && 0 < Marker(u) == |m| < |u| && IsSpace(u[Marker(u)]) && u[Marker(u)..] == rest
  {
    hide TrimStart, IsSpace, Marker;
    MarkerIs(m, rest);
    assert line == a + (m + rest);
    TrimmedIs(a, m + rest);
    assert m != [];
    assert (m + rest)[|m|] == rest[0];
  }

  // ---------- One turn of the loop ----------

  datatype Block =
    | Heading(line: string)
    | Paragraph(lines: seq<string>)
    | Quote(lines: seq<string>)
    | List(lines: seq<string>)
    | Code(lines: seq<string>)

  /** The first index from i on whose line fails the test. */
  function RunEnd(lines: seq<string>, i: nat, test: string -> bool): (j: nat)
    requires i <= |lines|
    ensures i <= j <= |lines|
    ensures forall k :: i <= k < j ==> test(lines[k])
    ensures j < |lines| ==> !test(lines[j])
    decreases |lines| - i
  {
    if i < |lines| && test(lines[i]) then RunEnd(lines, i + 1, test) else i
  }

  predicate NotFence(line: string) {
    !IsFence(line)
  }

  datatype Cursor = Cursor(i: nat, blocks: seq<Block>)

  /** What the loop body does at line i. */
  function Turn(lines: seq<string>, c: Cursor): Cursor
    requires c.i < |lines|
  {
    var line, i := lines[c.i], c.i;
    if IsFence(line) then
      var j := RunEnd(lines, i + 1, NotFence);
      Cursor(j + 1, c.blocks + [Code(lines[i + 1..j])])
    else if IsBlank(line) then Cursor(i + 1, c.blocks)
    else if IsHeading(line) then Cursor(i + 1, c.blocks + [Heading(line)])
    else if IsQuote(line) then
      var j := RunEnd(lines, i, IsQuote);
      Cursor(j, c.blocks + [Quote(lines[i..j])])
    else if IsListItem(line) then
      var j := RunEnd(lines, i, IsListItem);
      Cursor(j, c.blocks + [List(lines[i..j])])
    else
      var j := RunEnd(lines, i, IsProse);
      Cursor(j, c.blocks + [Paragraph(lines[i..j])])
  }

  /** A line that looks like a heading is nothing else. */
  lemma HeadingLikeIsNothingElse(line: string)
    requires LooksLikeHeading(line)
    ensures !IsBlank(line) && !IsFence(line) && !IsQuote(line) && !IsListItem(line)
  {
    var u := TrimStart(line);
    assert u[0] == '#';
    assert line[|line| - |u|] == u[0];
  }

  /** The loop body moves on exactly when the line is not stuck. */
  lemma TurnMovesOn(lines: seq<string>, c: Cursor)
    requires c.i < |lines|
    ensures Turn(lines, c).i > c.i <==> !IsStuck(lines[c.i])
    ensures Turn(lines, c).i >= c.i
  {
    hide IsBlank, IsFence, IsQuote, IsListItem, LooksLikeHeading;
    var line := lines[c.i];
    if LooksLikeHeading(line) {
      HeadingLikeIsNothingElse(line);
      assert !IsProse(line);
    }
  }

  /** n turns of the loop, or as many as there are. */
  function Turns(lines: seq<string>, c: Cursor, n: nat): Cursor
    decreases n
  {
    if n == 0 || c.i >= |lines| then c else Turns(lines, Turn(lines, c), n - 1)
  }

  ghost predicate Ends(lines: seq<string>, c: Cursor) {
    exists n :: Turns(lines, c, n).i >= |lines|
  }

  // ---------- When the loop ends ----------

  /** Some line outside the fenced blocks is stuck. */
  predicate StuckOutsideFences(lines: seq<string>, inFence: bool)
    decreases |lines|
  {
    if lines == [] then false
    else if IsFence(lines[0]) then StuckOutsideFences(lines[1..], !inFence)
    else (!inFence && IsStuck(lines[0])) || StuckOutsideFences(lines[1..], inFence)
  }

  /** Lines of one run change nothing about what is stuck after them. */
  lemma {:induction false} StuckAfterRun(lines: seq<string>, i: nat, j: nat, inFence: bool)
    requires i <= j <= |lines|
    requires forall k :: i <= k < j ==> !IsFence(lines[k]) && (inFence || !IsStuck(lines[k]))
    ensures StuckOutsideFences(lines[i..], inFence) == StuckOutsideFences(lines[j..], inFence)
    decreases j - i
  {
    hide IsFence, IsStuck;
    if i < j {
      assert lines[i..][1..] == lines[i + 1..] && lines[i..][0] == lines[i];
      StuckAfterRun(lines, i + 1, j, inFence);
    }
  }

  lemma RunIsPlain(line: string)
    ensures IsQuote(line) || IsListItem(line) || IsProse(line) || IsBlank(line) || IsHeading(line) ==>
              !IsStuck(line) && !IsFence(line)
  {
    if LooksLikeHeading(line) {
      HeadingLikeIsNothingElse(line);
    }
    var u := TrimStart(line);
    if IsFence(line) {
      assert line[|line| - |u|] == u[0];
    }
  }

  /** What a turn does, in terms of the lines it passes. */
  lemma TurnFacts(lines: seq<string>, c: Cursor)
    requires c.i < |lines|
    ensures var line, i, next := lines[c.i], c.i, Turn(lines, c);
            if IsFence(line) then
              && i + 2 <= next.i <= |lines| + 1 && next.blocks == c.blocks + [Code(lines[i + 1..next.i - 1])]
              && (forall k :: i < k < next.i - 1 ==> !IsFence(lines[k]))
              && (next.i <= |lines| ==> IsFence(lines[next.i - 1]))
            else if IsBlank(line) then next == Cursor(i + 1, c.blocks)
            else
              && i <= next.i <= |lines| && |next.blocks| == |c.blocks| + 1
              && next.blocks == c.blocks + [next.blocks[|c.blocks|]]
              && LinesOf(next.blocks[|c.blocks|]) == lines[i..next.i]
              && (forall k :: i <= k < next.i ==> !IsFence(lines[k]) && !IsStuck(lines[k]) && !IsBlank(lines[k]))
  {
    hide IsFence, IsBlank, IsHeading, IsQuote, IsListItem, IsProse, IsStuck;
    var line, i, j := lines[c.i], c.i, Turn(lines, c).i;
    if !IsFence(line) && !IsBlank(line) {
      forall k | i <= k < j ensures !IsFence(lines[k]) && !IsStuck(lines[k]) && !IsBlank(lines[k]) {
        RunIsPlain(lines[k]);
        QuoteOrListIsNotBlank(lines[k]);
      }
    }
  }

  /** The lines from i on, none past the end. */
  function From(lines: seq<string>, i: nat): seq<string> {
    if i <= |lines| then lines[i..] else []
  }

  /** A turn at a line that is not stuck leaves exactly the same stuck lines ahead. */
  lemma TurnKeepsStuck(lines: seq<string>, c: Cursor)
    requires c.i < |lines| && !IsStuck(lines[c.i])
    ensures StuckOutsideFences(From(lines, c.i), false) == StuckOutsideFences(From(lines, Turn(lines, c).i), false)
  {
    hide Turn, IsFence, IsBlank, IsStuck, StuckOutsideFences;
    TurnFacts(lines, c);
    var i, j := c.i, Turn(lines, c).i;
    if IsFence(lines[i]) {
      StuckAtFence(lines, i, false);
      StuckAfterRun(lines, i + 1, j - 1, true);
      StuckAtFence(lines, j - 1, true);
    } else {
      StuckAfterRun(lines, i, j, false);
    }
  }

  lemma StuckAtFence(lines: seq<string>, i: nat, inFence: bool)
    requires i <= |lines| && (i < |lines| ==> IsFence(lines[i]))
    ensures StuckOutsideFences(lines[i..], inFence) == StuckOutsideFences(From(lines, i + 1), !inFence)
  {
    hide IsFence, IsStuck;
    if i < |lines| {
      assert lines[i..][0] == lines[i] && lines[i..][1..] == lines[i + 1..];
    }
  }

  lemma {:induction false} StuckStays(lines: seq<string>, c: Cursor, n: nat)
    requires c.i < |lines| && IsStuck(lines[c.i])
    ensures Turns(lines, c, n).i == c.i
    decreases n
  {
    hide Turn, IsStuck;
    if n > 0 {
      TurnMovesOn(lines, c);
      StuckStays(lines, Turn(lines, c), n - 1);
    }
  }

  lemma {:induction false} EndsFrom(lines: seq<string>, c: Cursor)
    ensures Ends(lines, c) <==> !StuckOutsideFences(From(lines, c.i), false)
    decreases |lines| - c.i
  {
    hide Turn, IsStuck, IsFence;
    if c.i >= |lines| {
      assert Turns(lines, c, 0).i >= |lines|;
    } else if IsStuck(lines[c.i]) {
      assert lines[c.i..][0] == lines[c.i];
      assert !IsFence(lines[c.i]) by { StuckIsNoFence(lines[c.i]); }
      forall n ensures Turns(lines, c, n).i < |lines| {
        StuckStays(lines, c, n);
      }
    } else {
      TurnMovesOn(lines, c);
      TurnKeepsStuck(lines, c);
      var next := Turn(lines, c);
      EndsFrom(lines, next);
      if Ends(lines, next) {
        var n: nat :| Turns(lines, next, n).i >= |lines|;
        assert Turns(lines, c, n + 1).i >= |lines|;
      }
      if Ends(lines, c) {
        var n: nat :| Turns(lines, c, n).i >= |lines|;
        assert n > 0 && Turns(lines, next, n - 1).i >= |lines|;
      }
    }
  }

  lemma StuckIsNoFence(line: string)
    requires IsStuck(line)
    ensures !IsFence(line)
  {
    HeadingLikeIsNothingElse(line);
  }

  /** The parser's loop ends exactly when no line outside the fenced blocks is stuck; otherwise it turns for ever. */
  lemma LoopEndsExactly(lines: seq<string>)
    ensures Ends(lines, Cursor(0, [])) <==> !StuckOutsideFences(lines, false)
  {
    EndsFrom(lines, Cursor(0, []));
    assert lines[0..] == lines;
  }

  /** A heading mark and then a carriage return, or another terminator, inside the title is enough. */
  lemma TerminatorInTitleHangs(title: string)
    requires title != [] && !IsSpace(title[0]) && !NoTerminator(title)
    ensures !Ends([['#', ' '] + title], Cursor(0, []))
  {
    hide Turns, NoTerminator;
    TerminatorSticks(title);
    StuckIsNoFence(['#', ' '] + title);
    hide IsStuck, IsFence;
    LoopEndsExactly([['#', ' '] + title]);
  }

  lemma TerminatorSticks(title: string)
    requires title != [] && !IsSpace(title[0]) && !NoTerminator(title)
    ensures IsStuck(['#', ' '] + title)
  {
    hide NoTerminator, TrimStart, Hashes, IsStuck, IsSpace;
    MarkAndSpace();
    var spaced := [' '] + title;
    var line := ['#'] + spaced;
    assert ['#', ' '] + title == line && line[1..] == spaced;
    TrimNothing(line);
    TrimNothing(title);
    TrimOneSpace(title);
    OneHash(spaced);
    SticksAfterHash(line);
  }

  lemma MarkAndSpace()
    ensures IsSpace(' ') && !IsSpace('#')
  {
  }

  lemma SticksAfterHash(line: string)
    requires |line| > 1 && TrimStart(line) == line && Hashes(line) == 1 && IsSpace(line[1])
    requires !NoTerminator(TrimStart(line[1..]))
    ensures IsStuck(line)
  {
    hide NoTerminator, IsSpace, TrimStart, Hashes;
  }

  lemma TrimNothing(s: string)
    requires s != [] && !IsSpace(s[0])
    ensures TrimStart(s) == s
  {
  }

  lemma TrimOneSpace(s: string)
    ensures TrimStart([' '] + s) == TrimStart(s)
  {
    assert ([' '] + s)[1..] == s;
  }

  lemma OneHash(s: string)
    requires s != [] && s[0] != '#'
    ensures Hashes(['#'] + s) == 1
  {
    assert (['#'] + s)[1..] == s;
  }

  // ---------- Where each line goes ----------

  function LinesOf(b: Block): seq<string> {
    match b
    case Heading(line) => [line]
    case Paragraph(lines) => lines
    case Quote(lines) => lines
    case List(lines) => lines
    case Code(lines) => lines
  }

  function AllLines(blocks: seq<Block>): seq<string> {
    if blocks == [] then [] else AllLines(blocks[..|blocks| - 1]) + LinesOf(blocks[|blocks| - 1])
  }

  /** The lines a reader sees: all inside fences, outside them those that are not blank, and no fence. */
  function Kept(lines: seq<string>, inFence: bool): seq<string>
    decreases |lines|
  {
    if lines == [] then []
    else if IsFence(lines[0]) then Kept(lines[1..], !inFence)
    else if inFence || !IsBlank(lines[0]) then [lines[0]] + Kept(lines[1..], inFence)
    else Kept(lines[1..], inFence)
  }

  predicate AllPass(lines: seq<string>, test: string -> bool) {
    forall k :: 0 <= k < |lines| ==> test(lines[k])
  }

  /** The lines of a block are lines of its kind, and only a fenced block may have none. */
  predicate IsOfItsKind(b: Block) {
    && (b.Code? || LinesOf(b) != [])
    && match b
       case Heading(line) => IsHeading(line)
       case Paragraph(lines) => AllPass(lines, IsProse)
       case Quote(lines) => AllPass(lines, IsQuote)
       case List(lines) => AllPass(lines, IsListItem)
       case Code(lines) => AllPass(lines, NotFence)
  }

  lemma {:induction false} KeptAfterRun(lines: seq<string>, i: nat, j: nat, inFence: bool)
    requires i <= j <= |lines|
    requires forall k :: i <= k < j ==> !IsFence(lines[k]) && (inFence || !IsBlank(lines[k]))
    ensures Kept(lines[i..], inFence) == lines[i..j] + Kept(lines[j..], inFence)
    decreases j - i
  {
    hide IsFence, IsBlank;
    if i < j {
      assert lines[i..][1..] == lines[i + 1..] && lines[i..][0] == lines[i];
      KeptAfterRun(lines, i + 1, j, inFence);
      assert lines[i..j] == [lines[i]] + lines[i + 1..j];
    }
  }

  lemma QuoteOrListIsNotBlank(line: string)
    ensures IsQuote(line) || IsListItem(line) || IsProse(line) || IsHeading(line) ==> !IsBlank(line)
  {
    var u := TrimStart(line);
    if u != [] {
      assert line[|line| - |u|] == u[0];
    }
  }

  lemma OneMoreBlock(blocks: seq<Block>, b: Block)
    ensures AllLines(blocks + [b]) == AllLines(blocks) + LinesOf(b)
  {
    assert (blocks + [b])[..|blocks|] == blocks;
  }

  /** A run of lines moves into one block. */
  lemma RunConserves(lines: seq<string>, i: nat, j: nat, blocks: seq<Block>, b: Block)
    requires i <= j <= |lines| && LinesOf(b) == lines[i..j]
    requires forall k :: i <= k < j ==> !IsFence(lines[k]) && !IsBlank(lines[k])
    ensures AllLines(blocks + [b]) + Kept(lines[j..], false) == AllLines(blocks) + Kept(lines[i..], false)
  {
    hide IsFence, IsBlank;
    KeptAfterRun(lines, i, j, false);
    OneMoreBlock(blocks, b);
  }

  /** A fenced block takes what is between its fences. */
  lemma FenceConserves(lines: seq<string>, i: nat, j: nat, blocks: seq<Block>)
    requires i < j <= |lines| && IsFence(lines[i]) && (j < |lines| ==> IsFence(lines[j]))
    requires forall k :: i < k < j ==> !IsFence(lines[k])
    ensures AllLines(blocks + [Code(lines[i + 1..j])]) + Kept(From(lines, j + 1), false)
         == AllLines(blocks) + Kept(lines[i..], false)
  {
    hide IsFence, IsBlank, Kept, AllLines;
    KeptAtFence(lines, i, false);
    KeptAfterRun(lines, i + 1, j, true);
    KeptAtFence(lines, j, true);
    OneMoreBlock(blocks, Code(lines[i + 1..j]));
    assert AllLines(blocks) + (lines[i + 1..j] + Kept(From(lines, j + 1), false))
        == AllLines(blocks) + lines[i + 1..j] + Kept(From(lines, j + 1), false);
  }

  lemma KeptAtFence(lines: seq<string>, i: nat, inFence: bool)
    requires i <= |lines| && (i < |lines| ==> IsFence(lines[i]))
    ensures Kept(lines[i..], inFence) == Kept(From(lines, i + 1), !inFence)
  {
    hide IsFence, IsBlank;
    if i < |lines| {
      assert lines[i..][0] == lines[i] && lines[i..][1..] == lines[i + 1..];
    }
  }

  /** A turn moves the lines it passes from ahead into the blocks, dropping only blanks and fences. */
  lemma TurnConserves(lines: seq<string>, c: Cursor)
    requires c.i < |lines|
    ensures var next := Turn(lines, c);
            AllLines(next.blocks) + Kept(From(lines, next.i), false) == AllLines(c.blocks) + Kept(From(lines, c.i), false)
  {
    hide Turn, IsFence, IsBlank, IsStuck, AllLines, Kept;
    TurnFacts(lines, c);
    var i, next := c.i, Turn(lines, c);
    if IsFence(lines[i]) {
      FenceConserves(lines, i, next.i - 1, c.blocks);
    } else if IsBlank(lines[i]) {
      BlankConserves(lines, i);
    } else {
      RunConserves(lines, i, next.i, c.blocks, next.blocks[|c.blocks|]);
    }
  }

  lemma BlankConserves(lines: seq<string>, i: nat)
    requires i < |lines| && !IsFence(lines[i]) && IsBlank(lines[i])
    ensures Kept(lines[i + 1..], false) == Kept(lines[i..], false)
  {
    hide IsFence, IsBlank;
    assert lines[i..][0] == lines[i] && lines[i..][1..] == lines[i + 1..];
  }

  /** The block a turn adds is of its kind. */
  lemma TurnKeepsKinds(lines: seq<string>, c: Cursor)
    requires c.i < |lines| && !IsStuck(lines[c.i])
    ensures var next := Turn(lines, c);
            next.blocks == c.blocks || (exists b :: next.blocks == c.blocks + [b] && IsOfItsKind(b))
  {
    hide IsFence, IsBlank, IsHeading, IsQuote, IsListItem, IsProse, IsStuck;
    TurnMovesOn(lines, c);
    var next := Turn(lines, c);
    if next.blocks != c.blocks {
      var b := next.blocks[|c.blocks|];
      assert next.blocks == c.blocks + [b];
      assert IsOfItsKind(b);
    }
  }

  /** What is tried for a line, in this order. */
  datatype LineKind = FenceLine | BlankLine | HeadingLine | QuoteLine | ListLine | ProseLine

  function KindOf(line: string): LineKind {
    if IsFence(line) then FenceLine
    else if IsBlank(line) then BlankLine
    else if IsHeading(line) then HeadingLine
    else if IsQuote(line) then QuoteLine
    else if IsListItem(line) then ListLine
    else ProseLine
  }

  /** The line after a block, if there is one, does not belong to it. */
  predicate EndsAt(lines: seq<string>, next: nat, test: string -> bool) {
    next < |lines| ==> !test(lines[next])
  }

  /** The first line decides what a turn adds, and the block goes on as long as lines of its kind follow. */
  lemma TurnTakesTheWholeRun(lines: seq<string>, c: Cursor)
    requires c.i < |lines|
    ensures var next := Turn(lines, c);
            var added := if |next.blocks| > |c.blocks| then Some(next.blocks[|c.blocks|]) else None;
            match KindOf(lines[c.i])
            case BlankLine => added == None
            case HeadingLine => added == Some(Heading(lines[c.i]))
            case FenceLine => added.Some? && added.value.Code? && next.i > c.i && (next.i <= |lines| ==> IsFence(lines[next.i - 1]))
            case QuoteLine => added.Some? && added.value.Quote? && EndsAt(lines, next.i, IsQuote)
            case ListLine => added.Some? && added.value.List? && EndsAt(lines, next.i, IsListItem)
            case ProseLine => added.Some? && added.value.Paragraph? && EndsAt(lines, next.i, IsProse)
  {
    hide IsFence, IsBlank, IsHeading, IsQuote, IsListItem, IsProse;
  }

  // ---------- The parser ----------

  /** `replace(/\r\n/g, '\n').split('\n')` */
  function SplitLines(src: string): (lines: seq<string>)
    ensures lines != []
    decreases |src|
  {
    if src == [] then [""]
    else if src[0] == '\n' then [""] + SplitLines(src[1..])
    else if |src| > 1 && src[0] == '\r' && src[1] == '\n' then [""] + SplitLines(src[2..])
    else
      var rest := SplitLines(src[1..]);
      [[src[0]] + rest[0]] + rest[1..]
  }

  /** Lines from i on while they pass the test, and where the first other one is. */
  method TakeWhile(lines: seq<string>, i: nat, test: string -> bool) returns (taken: seq<string>, j: nat)
    requires i <= |lines|
    ensures j == RunEnd(lines, i, test) && taken == lines[i..j]
  {
    taken, j := [], i;
    while j < |lines| && test(lines[j])
      invariant i <= j <= |lines| && taken == lines[i..j] && RunEnd(lines, i, test) == RunEnd(lines, j, test)
    {
      taken := taken + [lines[j]];
      j := j + 1;
    }
  }

  /** The loop body: the block that begins at line i, if any, and where the next one may begin. */
  method BlockAt(lines: seq<string>, i: nat, blocks: seq<Block>) returns (next: nat, more: seq<Block>)
    requires i < |lines|
    ensures Cursor(next, more) == Turn(lines, Cursor(i, blocks))
  {
    hide IsFence, IsBlank, IsHeading, IsQuote, IsListItem, IsProse;
    var line := lines[i];
    if IsFence(line) {
      var body, j := TakeWhile(lines, i + 1, NotFence);
      return j + 1, blocks + [Code(body)];
    }
    if IsBlank(line) { return i + 1, blocks; }
    if IsHeading(line) { return i + 1, blocks + [Heading(line)]; }
    if IsQuote(line) {
      var quoted, j := TakeWhile(lines, i, IsQuote);
      return j, blocks + [Quote(quoted)];
    }
    if IsListItem(line) {
      var items, j := TakeWhile(lines, i, IsListItem);
      return j, blocks + [List(items)];
    }
    var prose, j := TakeWhile(lines, i, IsProse);
    return j, blocks + [Paragraph(prose)];
  }

  /** The parser, on a text on which its loop ends. */
  method ParseExcerptBlocks(src: string) returns (blocks: seq<Block>)
    requires !StuckOutsideFences(SplitLines(src), false)
    ensures AllLines(blocks) == Kept(SplitLines(src), false)
    ensures forall k :: 0 <= k < |blocks| ==> IsOfItsKind(blocks[k])
    ensures exists n :: var end := Turns(SplitLines(src), Cursor(0, []), n); end.i >= |SplitLines(src)| && end.blocks == blocks
  {
    hide Turn, IsStuck, AllLines, Kept, SplitLines, IsOfItsKind, StuckOutsideFences;
    var lines := SplitLines(src);
    var i := 0;
    blocks := [];
    Nothing(lines);
    ghost var n := 0;
    while i < |lines|
      invariant Turns(lines, Cursor(0, []), n) == Cursor(i, blocks)
      invariant !StuckOutsideFences(From(lines, i), false)
      invariant AllLines(blocks) + Kept(From(lines, i), false) == Kept(lines, false)
      invariant forall k :: 0 <= k < |blocks| ==> IsOfItsKind(blocks[k])
      decreases |lines| - i
    {
      ghost var c := Cursor(i, blocks);
      NextIsNotStuck(lines, i);
      TurnMovesOn(lines, c);
      TurnKeepsStuck(lines, c);
      TurnConserves(lines, c);
      TurnKeepsKinds(lines, c);
      OneMoreTurn(lines, Cursor(0, []), n);
      n := n + 1;
      i, blocks := BlockAt(lines, i, blocks);
    }
    assert Turns(lines, Cursor(0, []), n).i >= |lines|;
    AtTheEnd(lines, i, blocks);
  }

  lemma {:induction false} OneMoreTurn(lines: seq<string>, c: Cursor, n: nat)
    requires Turns(lines, c, n).i < |lines|
    ensures Turns(lines, c, n + 1) == Turn(lines, Turns(lines, c, n))
    decreases n
  {
    hide Turn;
    if n == 0 {
      assert Turns(lines, c, 1) == Turns(lines, Turn(lines, c), 0);
    } else if c.i < |lines| {
      OneMoreTurn(lines, Turn(lines, c), n - 1);
    }
  }

  lemma Nothing(lines: seq<string>)
    ensures AllLines([]) == [] && From(lines, 0) == lines
  {
  }

  lemma NextIsNotStuck(lines: seq<string>, i: nat)
    requires i < |lines| && !StuckOutsideFences(From(lines, i), false)
    ensures !IsStuck(lines[i])
  {
    hide IsStuck, IsFence;
    assert From(lines, i)[0] == lines[i];
    if IsStuck(lines[i]) {
      StuckIsNoFence(lines[i]);
    }
  }

  lemma AtTheEnd(lines: seq<string>, i: nat, blocks: seq<Block>)
    requires i >= |lines| && AllLines(blocks) + Kept(From(lines, i), false) == Kept(lines, false)
    ensures AllLines(blocks) == Kept(lines, false)
  {
  }
}
