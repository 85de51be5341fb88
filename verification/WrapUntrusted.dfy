/**
 * Wrapping untrusted text between delimiters (src/orchestration/prompts.ts): the two replacements leave no delimiter and
 * make none, so the wrapped text has one boundary, wherever the label in front (`title` here) has none of its own.
 */
module WrapUntrusted {
  import opened Text

  const OPEN := "<untrusted-context>"
  const CLOSE := "</untrusted-context>"
  const REMOVED := "[removed-tag]"

  /** `s.replaceAll(tag, REMOVED)`: from the left, occurrences that do not overlap. */
  function ReplaceAll(s: string, tag: string): string
    requires tag != []
    decreases |s|
  {
    if s == [] then []
    else if At(s, 0, tag) then REMOVED + ReplaceAll(s[|tag|..], tag)
    else [s[0]] + ReplaceAll(s[1..], tag)
  }

  function Sanitize(content: string): string {
    ReplaceAll(ReplaceAll(content, OPEN), CLOSE)
  }

  function Wrap(title: string, content: string): string {
    title + ":\n" + OPEN + "\n" + Sanitize(content) + "\n" + CLOSE
  }

  /** What the two delimiters have in common. */
  predicate IsTag(tag: string) {
    && |tag| >= 2 && tag[0] == '<' && tag[|tag| - 1] == '>'
    && (forall i :: 0 < i < |tag| - 1 ==> tag[i] !in {'<', '>'})
    && forall i :: 0 <= i < |tag| ==> tag[i] !in {'[', ']', ':', '\n'}
  }

  lemma TagsAreTags()
    ensures IsTag(OPEN) && IsTag(CLOSE)
    ensures '<' !in REMOVED && REMOVED[0] == '['
  {
  }

  /** Where no replacement shows, the text is what it was. */
  lemma {:induction false} PrefixIsUnchanged(s: string, tag: string, k: nat)
    requires IsTag(tag) && k <= |ReplaceAll(s, tag)| && '[' !in ReplaceAll(s, tag)[..k]
    ensures k <= |s| && s[..k] == ReplaceAll(s, tag)[..k]
    decreases |s|
  {
    TagsAreTags();
    var r := ReplaceAll(s, tag);
    if k > 0 {
      assert r[0] == r[..k][0];
      assert !At(s, 0, tag);
      assert r[1..] == ReplaceAll(s[1..], tag);
      assert r[1..][..k - 1] == r[..k][1..];
      PrefixIsUnchanged(s[1..], tag, k - 1);
      assert s[..k] == [s[0]] + s[1..][..k - 1];
    }
  }

  /** An occurrence of a tag is not in a replacement, so it is one of the rest or of the text before replacing. */
  lemma OccurrenceMoves(a: string, r: string, tag: string, p: nat)
    requires At(a + r, p, tag) && p >= |a|
    ensures At(r, p - |a|, tag)
  {
    assert (a + r)[p..p + |tag|] == r[p - |a|..p - |a| + |tag|];
  }

  lemma NotInReplacement(r: string, tag: string, p: nat)
    requires IsTag(tag) && At(REMOVED + r, p, tag)
    ensures p >= |REMOVED|
  {
    TagsAreTags();
    AtGives(REMOVED + r, p, tag, 0);
    assert (REMOVED + r)[p] == '<';
  }

  lemma AtGives(s: string, p: nat, tag: string, k: int)
    requires At(s, p, tag)
    ensures 0 <= k < |tag| ==> s[p + k] == tag[k]
  {
    assert 0 <= k < |tag| ==> s[p..p + |tag|][k] == tag[k];
  }

  lemma OccurrenceInSuffix(s: string, n: nat, tag: string, p: nat)
    requires n <= |s| && At(s[n..], p, tag)
    ensures At(s, n + p, tag)
  {
    assert s[n..][p..p + |tag|] == s[n + p..n + p + |tag|];
  }

  /** Replacing one tag leaves no occurrence of it, and makes none of another that was not there. */
  lemma {:induction false} ReplaceLeavesNone(s: string, tag: string, other: string, p: nat)
    requires IsTag(tag) && IsTag(other) && (other == tag || !Contains(s, other))
    ensures !At(ReplaceAll(s, tag), p, other)
    decreases |s|
  {
    TagsAreTags();
    var r := ReplaceAll(s, tag);
    if At(r, p, other) {
      if s == [] {
        assert false;
      } else if At(s, 0, tag) {
        var rest := s[|tag|..];
        NotInReplacement(ReplaceAll(rest, tag), other, p);
        OccurrenceMoves(REMOVED, ReplaceAll(rest, tag), other, p);
        SuffixFree(s, |tag|, other);
        ReplaceLeavesNone(rest, tag, other, p - |REMOVED|);
      } else if p > 0 {
        OccurrenceMoves([s[0]], ReplaceAll(s[1..], tag), other, p);
        SuffixFree(s, 1, other);
        ReplaceLeavesNone(s[1..], tag, other, p - 1);
      } else {
        assert r[..|other|] == other;
        PrefixIsUnchanged(s, tag, |other|);
        assert At(s, 0, other);
      }
    }
  }

  lemma SuffixFree(s: string, n: nat, tag: string)
    requires n <= |s|
    ensures !Contains(s, tag) ==> !Contains(s[n..], tag)
  {
    if Contains(s[n..], tag) {
      var p :| 0 <= p <= |s[n..]| && At(s[n..], p, tag);
      OccurrenceInSuffix(s, n, tag, p);
    }
  }

  /** No delimiter survives, and none is made. */
  lemma SanitizedIsTagFree(content: string)
    ensures !Contains(Sanitize(content), OPEN) && !Contains(Sanitize(content), CLOSE)
  {
    hide ReplaceAll, IsTag;
    TagsAreTags();
    var once := ReplaceAll(content, OPEN);
    forall p | 0 <= p <= |once| ensures !At(once, p, OPEN) {
      ReplaceLeavesNone(content, OPEN, OPEN, p);
    }
    var twice := Sanitize(content);
    forall p | 0 <= p <= |twice| ensures !At(twice, p, OPEN) && !At(twice, p, CLOSE) {
      ReplaceLeavesNone(once, CLOSE, OPEN, p);
      ReplaceLeavesNone(once, CLOSE, CLOSE, p);
    }
  }

  lemma {:induction false} NothingToReplace(s: string, tag: string)
    requires tag != [] && !Contains(s, tag)
    ensures ReplaceAll(s, tag) == s
    decreases |s|
  {
    if s != [] {
      assert !At(s, 0, tag);
      SuffixFree(s, 1, tag);
      NothingToReplace(s[1..], tag);
    }
  }

  /** Content without delimiters goes through as it is. */
  lemma CleanContentIsKept(content: string)
    ensures !Contains(content, OPEN) && !Contains(content, CLOSE) ==> Sanitize(content) == content
  {
    if !Contains(content, OPEN) && !Contains(content, CLOSE) {
      NothingToReplace(content, OPEN);
      NothingToReplace(content, CLOSE);
    }
  }

  /** Parts with a separator between them. */
  function Glue(parts: seq<string>, separator: string): string
    requires parts != []
  {
    if |parts| == 1 then parts[0] else parts[0] + separator + Glue(parts[1..], separator)
  }

  /** The text `after` is `before` with every occurrence of the tag, from the left, taken for a replacement. */
  ghost predicate Replaced(before: string, after: string, tag: string) {
    exists parts :: parts != [] && before == Glue(parts, tag) && after == Glue(parts, REMOVED)
  }

  lemma {:induction false} ReplaceAllReplaces(s: string, tag: string) returns (parts: seq<string>)
    requires tag != []
    ensures parts != [] && s == Glue(parts, tag) && ReplaceAll(s, tag) == Glue(parts, REMOVED)
    decreases |s|
  {
    if s == [] {
      parts := [""];
    } else if At(s, 0, tag) {
      var rest := ReplaceAllReplaces(s[|tag|..], tag);
      parts := [""] + rest;
      assert parts[1..] == rest;
      assert s == tag + s[|tag|..];
    } else {
      var rest := ReplaceAllReplaces(s[1..], tag);
      parts := [[s[0]] + rest[0]] + rest[1..];
      assert parts[1..] == rest[1..];
      GlueFirst(s[0], rest, tag);
      GlueFirst(s[0], rest, REMOVED);
      assert s == [s[0]] + s[1..];
    }
  }

  lemma GlueFirst(c: char, parts: seq<string>, separator: string)
    requires parts != []
    ensures Glue([[c] + parts[0]] + parts[1..], separator) == [c] + Glue(parts, separator)
  {
    var more := [[c] + parts[0]] + parts[1..];
    assert more[1..] == parts[1..];
    if |parts| > 1 {
      assert [c] + parts[0] + separator + Glue(parts[1..], separator) == [c] + (parts[0] + separator + Glue(parts[1..], separator));
    }
  }

  /** Between the delimiters nothing of the content is lost, moved or added: each delimiter gives way to the mark. */
  lemma OnlyDelimitersAreReplaced(content: string)
    ensures exists once :: Replaced(content, once, OPEN) && Replaced(once, Sanitize(content), CLOSE)
  {
    var once := ReplaceAll(content, OPEN);
    var first := ReplaceAllReplaces(content, OPEN);
    var second := ReplaceAllReplaces(once, CLOSE);
    assert Replaced(content, once, OPEN) && Replaced(once, Sanitize(content), CLOSE);
  }

  // ---------- One boundary ----------

  ghost predicate OnlyAt(text: string, tag: string, pos: int) {
    forall p :: 0 <= p <= |text| ==> (At(text, p, tag) <==> p == pos)
  }

  /** An occurrence of a tag lies on one side of a character no tag has. */
  lemma OneSide(a: string, c: char, b: string, tag: string, p: nat)
    requires IsTag(tag) && c in {':', '\n'} && At(a + [c] + b, p, tag)
    ensures (p + |tag| <= |a| && At(a, p, tag)) || (p > |a| && At(b, p - |a| - 1, tag))
  {
    var all := a + [c] + b;
    AtGives(all, p, tag, |a| - p);
    assert all[|a|] == c;
    if p + |tag| <= |a| {
      assert all[p..p + |tag|] == a[p..p + |tag|];
    } else if p > |a| {
      assert all[p..p + |tag|] == b[p - |a| - 1..p - |a| - 1 + |tag|];
    }
  }

  /** Where the opening delimiter of a wrapped text is, and where the closing one is. */
  function OpenAt(title: string): nat {
    |title| + 2
  }

  function CloseAt(title: string, content: string): nat {
    |title| + 2 + |OPEN| + 1 + |Sanitize(content)| + 1
  }

  /** A tag in front of more text, when nothing of it crosses over. */
  lemma TagInTag(tag: string, p: nat)
    requires tag in {OPEN, CLOSE}
    ensures At(OPEN, p, tag) <==> p == 0 && tag == OPEN
    ensures At(CLOSE, p, tag) <==> p == 0 && tag == CLOSE
  {
    if At(OPEN, p, tag) {
      assert OPEN[p..p + |tag|][0] == OPEN[p];
      assert OPEN[p..p + |tag|][1] == OPEN[p + 1];
    }
    if At(CLOSE, p, tag) {
      assert CLOSE[p..p + |tag|][0] == CLOSE[p];
      assert CLOSE[p..p + |tag|][1] == CLOSE[p + 1];
    }
    assert OPEN[0..|OPEN|] == OPEN && CLOSE[0..|CLOSE|] == CLOSE;
  }

  /** From the opening delimiter on, there are the two delimiters and no other. */
  lemma DelimitersOfBody(inner: string, tag: string, p: nat)
    requires tag in {OPEN, CLOSE} && !Contains(inner, tag) && At(OPEN + ['\n'] + (inner + ['\n'] + CLOSE), p, tag)
    ensures if tag == OPEN then p == 0 else p == |OPEN| + 1 + |inner| + 1
  {
    TagsAreTags();
    hide IsTag, At;
    OneSide(OPEN, '\n', inner + ['\n'] + CLOSE, tag, p);
    if p > |OPEN| {
      var q := p - |OPEN| - 1;
      OneSide(inner, '\n', CLOSE, tag, q);
      if q > |inner| {
        TagInTag(tag, q - |inner| - 1);
      }
    } else {
      TagInTag(tag, p);
    }
  }

  /** Every delimiter of a wrapped text is one of its own two, or one of the title's. */
  lemma DelimitersOf(title: string, content: string, tag: string, p: nat)
    requires tag in {OPEN, CLOSE} && At(Wrap(title, content), p, tag)
    ensures At(title, p, tag) || (if tag == OPEN then p == OpenAt(title) else p == CloseAt(title, content))
  {
    TagsAreTags();
    hide ReplaceAll, Sanitize, IsTag, At;
    SanitizedIsTagFree(content);
    var inner := Sanitize(content);
    var body := OPEN + ['\n'] + (inner + ['\n'] + CLOSE);
    assert Wrap(title, content) == title + [':'] + (['\n'] + body);
    OneSide(title, ':', ['\n'] + body, tag, p);
    if p > |title| {
      assert ['\n'] + body == [] + ['\n'] + body;
      OneSide([], '\n', body, tag, p - |title| - 1);
      TagIsNoNothing(tag, p - |title| - 1);
      DelimitersOfBody(inner, tag, p - |title| - 2);
    }
  }

  lemma TagIsNoNothing(tag: string, p: nat)
    requires tag in {OPEN, CLOSE}
    ensures !At([], p, tag)
  {
  }

  lemma TitleShows(title: string, content: string, tag: string, p: nat)
    requires At(title, p, tag)
    ensures At(Wrap(title, content), p, tag)
  {
    hide ReplaceAll, Sanitize;
    var w := Wrap(title, content);
    assert w[..|title|] == title;
    assert w[p..p + |tag|] == title[p..p + |tag|];
  }

  lemma OwnDelimiters(title: string, content: string)
    ensures At(Wrap(title, content), OpenAt(title), OPEN)
    ensures At(Wrap(title, content), CloseAt(title, content), CLOSE)
    ensures CloseAt(title, content) + |CLOSE| == |Wrap(title, content)|
  {
    hide ReplaceAll, Sanitize;
    var w := Wrap(title, content);
    assert w[OpenAt(title)..OpenAt(title) + |OPEN|] == OPEN;
    assert w[CloseAt(title, content)..CloseAt(title, content) + |CLOSE|] == CLOSE;
  }

  /**
   * A wrapped text has exactly one opening and, after it and at its end, exactly one closing delimiter, if and only if
   * the title has none: titles are not sanitized.
   */
  lemma OneBoundary(title: string, content: string)
    ensures OnlyAt(Wrap(title, content), OPEN, OpenAt(title)) && OnlyAt(Wrap(title, content), CLOSE, CloseAt(title, content))
       <==> !Contains(title, OPEN) && !Contains(title, CLOSE)
  {
    hide ReplaceAll, Sanitize, Wrap;
    var w := Wrap(title, content);
    OwnDelimiters(title, content);
    if !Contains(title, OPEN) && !Contains(title, CLOSE) {
      forall p | 0 <= p <= |w|
        ensures At(w, p, OPEN) <==> p == OpenAt(title)
        ensures At(w, p, CLOSE) <==> p == CloseAt(title, content)
      {
        if At(w, p, OPEN) { DelimitersOf(title, content, OPEN, p); }
        if At(w, p, CLOSE) { DelimitersOf(title, content, CLOSE, p); }
      }
    } else {
      var tag := if Contains(title, OPEN) then OPEN else CLOSE;
      var p :| 0 <= p <= |title| && At(title, p, tag);
      TitleShows(title, content, tag, p);
      assert |w| >= |title| by { WrapIsLonger(title, content); }
    }
  }

  lemma WrapIsLonger(title: string, content: string)
    ensures |Wrap(title, content)| >= |title|
  {
  }
}
