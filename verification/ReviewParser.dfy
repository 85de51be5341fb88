/**
 * Parsing an untrusted review reply (src/orchestration/prompts.ts). Regular expressions, JSON.parse with the
 * schema, and the content hash inside a claim anchor are parameters, gathered in Reader.
 */
module ReviewParser {
  import opened Wrappers
  import opened Text

  datatype Verdict = Approve | Revise | Reject

  datatype Severity = Critical | Major | Minor

  datatype Finding = Finding(claimAnchor: string, severity: Severity, rationale: string, requestedRevision: Option<string>)

  /** JSON.parse followed by the strict schema; a schema failure carries at least one reason. */
  datatype Validation =
    | NotJson
    | BadShape(reason: string, more: seq<string>)
    | Shaped(verdict: Verdict, findings: seq<Finding>)

  datatype Reader = Reader(
    blank: string -> bool,            // the text is white space only
    hasCompleteBlock: string -> bool, // it has a ```review-result block that closes
    opensBlock: string -> bool,       // it has the opening ```review-result
    blocks: string -> seq<string>,    // bodies of the ```review-result blocks, in order
    validate: string -> Validation,
    anchors: string -> seq<string>)   // anchors of the claims of a primary text

  datatype ReviewDetail = ReviewDetail(verdict: Verdict, issues: seq<Finding>)

  /** Why a reply is not a review. */
  datatype Reason =
    | NotOneBlock(found: nat)
    | BlockNotJson
    | BlockShape(issue: string)
    | ApproveWithFindings
    | NoFindings(verdict: Verdict)
    | UnknownAnchor(anchor: string)
    | DuplicateAnchor(anchor: string)
    | NoRequestedRevision(anchor: string)

  datatype ParsedReview = ParsedReview(detail: ReviewDetail, malformedReasons: seq<Reason>)

  const CLAIM_ANCHOR_PREFIX := "claim-v1:"

  function Unbracket(anchor: string): string {
    if |anchor| > 2 && anchor[0] == '[' && anchor[|anchor| - 1] == ']' then Trim(anchor[1..|anchor| - 1]) else anchor
  }

  /** The known anchor a finding names, if any: exactly, or with the protocol prefix it dropped. */
  function CanonicalClaimAnchor(raw: string, known: set<string>): Option<string> {
    var name := Unbracket(Trim(raw));
    if name in known then Some(name)
    else if !(CLAIM_ANCHOR_PREFIX <= name) && CLAIM_ANCHOR_PREFIX + name in known then Some(CLAIM_ANCHOR_PREFIX + name)
    else None
  }

  /** How the findings of a review of this primary text are matched with its claims. */
  function Resolver(reader: Reader, primaryText: string): string -> Option<string> {
    raw => CanonicalClaimAnchor(raw, set a | a in reader.anchors(primaryText))
  }

  lemma ResolvedIsKnown(reader: Reader, primaryText: string, raw: string)
    ensures var anchor := Resolver(reader, primaryText)(raw);
      anchor.Some? ==>
        && anchor.value in reader.anchors(primaryText)
        && (anchor.value == Unbracket(Trim(raw)) || anchor.value == CLAIM_ANCHOR_PREFIX + Unbracket(Trim(raw)))
  {
    hide Unbracket, Trim, CLAIM_ANCHOR_PREFIX;
  }

  /** The name in an anchor: without the space around it, and without one pair of brackets and the space inside. */
  ghost predicate Names(raw: string, name: string) {
    exists a, inner, b ::
      raw == a + inner + b && IsBlank(a) && IsBlank(b) && Tight(inner)
      && if Bracketed(inner) then exists c, d :: inner == "[" + c + name + d + "]" && IsBlank(c) && IsBlank(d) && Tight(name)
         else name == inner
  }

  /** No space at either end. */
  predicate Tight(s: string) {
    s != [] ==> !IsSpace(s[0]) && !IsSpace(s[|s| - 1])
  }

  predicate Bracketed(s: string) {
    |s| > 2 && s[0] == '[' && s[|s| - 1] == ']'
  }

  lemma TrimIs(s: string) returns (a: string, b: string)
    ensures s == a + Trim(s) + b && IsBlank(a) && IsBlank(b) && Tight(Trim(s))
  {
    hide IsSpace, TrimStart, TrimEnd;
    var t := TrimStart(s);
    var u := TrimEnd(t);
    a, b := s[..|s| - |t|], t[|u|..];
    assert s == a + t && t == u + b;
    assert s == a + u + b;
    assert u != [] ==> u[0] == t[0];
  }

  lemma AnchorIsNamed(raw: string)
    ensures Names(raw, Unbracket(Trim(raw)))
  {
    hide Trim;
    var a, b := TrimIs(raw);
    var inner := Trim(raw);
    if Bracketed(inner) {
      var middle := inner[1..|inner| - 1];
      var c, d := TrimIs(middle);
      assert inner == "[" + c + Trim(middle) + d + "]";
    }
  }

  /** A finding names the known anchor it spells, or else the one it spells with the protocol's prefix left out. */
  lemma ResolvedExactly(reader: Reader, primaryText: string, raw: string)
    ensures exists name ::
              && Names(raw, name)
              && Resolver(reader, primaryText)(raw) ==
                 if name in reader.anchors(primaryText) then Some(name)
                 else if !("claim-v1:" <= name) && "claim-v1:" + name in reader.anchors(primaryText) then Some("claim-v1:" + name)
                 else None
  {
    hide Unbracket, Trim, Names;
    AnchorIsNamed(raw);
  }

  function Invalid(reasons: seq<Reason>): ParsedReview {
    ParsedReview(ReviewDetail(Reject, []), reasons)
  }

  /** The findings checked left to right, stopping at the first reason to refuse the review. */
  function CheckFindings(findings: seq<Finding>, verdict: Verdict, resolve: string -> Option<string>, seen: set<string>): Result<seq<string>, Reason> {
    if findings == [] then Ok([])
    else
      var finding := findings[0];
      match resolve(finding.claimAnchor)
      case None => Err(UnknownAnchor(finding.claimAnchor))
      case Some(anchor) =>
        if anchor in seen then Err(DuplicateAnchor(anchor))
        else if verdict.Revise? && finding.requestedRevision.None? then Err(NoRequestedRevision(anchor))
        else
          var rest :- CheckFindings(findings[1..], verdict, resolve, seen + {anchor});
          Ok([anchor] + rest)
  }

  function Anchored(findings: seq<Finding>, anchors: seq<string>): (issues: seq<Finding>)
    requires |findings| == |anchors|
    ensures |issues| == |findings|
  {
    seq(|findings|, i requires 0 <= i < |findings| => findings[i].(claimAnchor := anchors[i]))
  }

  function ParseReviewDetail(reader: Reader, reviewText: string, primaryText: string): ParsedReview {
    var blocks := reader.blocks(reviewText);
    if |blocks| != 1 then Invalid([NotOneBlock(|blocks|)])
    else
      match reader.validate(blocks[0])
      case NotJson => Invalid([BlockNotJson])
      case BadShape(reason, more) => Invalid(seq(1 + |more|, i requires 0 <= i < 1 + |more| => BlockShape(if i == 0 then reason else more[i - 1])))
      case Shaped(verdict, findings) =>
        if verdict.Approve? && findings != [] then Invalid([ApproveWithFindings])
        else if !verdict.Approve? && findings == [] then Invalid([NoFindings(verdict)])
        else
          match CheckFindings(findings, verdict, Resolver(reader, primaryText), {})
          case Err(reason) => Invalid([reason])
          case Ok(anchors) =>
            CheckFindingsLength(findings, verdict, Resolver(reader, primaryText), {});
            ParsedReview(ReviewDetail(verdict, Anchored(findings, anchors)), [])
  }

  lemma {:induction false} CheckFindingsLength(findings: seq<Finding>, verdict: Verdict, resolve: string -> Option<string>, seen: set<string>)
    ensures var r := CheckFindings(findings, verdict, resolve, seen); r.Ok? ==> |r.value| == |findings|
  {
    if findings != [] {
      var anchor := resolve(findings[0].claimAnchor);
      if anchor.Some? {
        CheckFindingsLength(findings[1..], verdict, resolve, seen + {anchor.value});
      }
    }
  }

  /** The loop of the original: `anchors` and `seen` grow until a finding is refused. */
  method CheckFindingsLoop(findings: seq<Finding>, verdict: Verdict, resolve: string -> Option<string>) returns (r: Result<seq<string>, Reason>)
    ensures r == CheckFindings(findings, verdict, resolve, {})
  {
    var seen: set<string> := {};
    var anchors: seq<string> := [];
    assert findings[0..] == findings;
    assert forall rest: seq<string> :: anchors + rest == rest;
    for i := 0 to |findings|
      invariant |anchors| == i
      invariant CheckFindings(findings, verdict, resolve, {})
             == match CheckFindings(findings[i..], verdict, resolve, seen)
                case Ok(rest) => Ok(anchors + rest)
                case Err(e) => Err(e)
    {
      var finding := findings[i];
      assert findings[i..][1..] == findings[i + 1..];
      match resolve(finding.claimAnchor) {
        case None => return Err(UnknownAnchor(finding.claimAnchor));
        case Some(anchor) =>
          if anchor in seen { return Err(DuplicateAnchor(anchor)); }
          if verdict.Revise? && finding.requestedRevision.None? {
            return Err(NoRequestedRevision(anchor));
          }
          ghost var before := anchors;
          seen := seen + {anchor};
          anchors := anchors + [anchor];
          assert forall rest: seq<string> :: before + ([anchor] + rest) == anchors + rest;
      }
    }
    assert findings[|findings|..] == [];
    assert anchors + [] == anchors;
    return Ok(anchors);
  }

  // ---------- What a well-formed review is ----------

  /** Every finding names a different known claim, and a `revise` finding says what to change. */
  ghost predicate GoodFindings(findings: seq<Finding>, verdict: Verdict, resolve: string -> Option<string>) {
    && (forall i :: 0 <= i < |findings| ==> resolve(findings[i].claimAnchor).Some?)
    && (forall i, j :: 0 <= i < j < |findings| ==>
          resolve(findings[i].claimAnchor) != resolve(findings[j].claimAnchor))
    && (verdict.Revise? ==> forall i :: 0 <= i < |findings| ==> findings[i].requestedRevision.Some?)
  }

  ghost predicate WellFormedReview(reader: Reader, reviewText: string, primaryText: string) {
    var blocks := reader.blocks(reviewText);
    && |blocks| == 1
    && var v := reader.validate(blocks[0]);
    && v.Shaped?
    && (v.verdict.Approve? <==> v.findings == [])
    && GoodFindings(v.findings, v.verdict, Resolver(reader, primaryText))
  }

  ghost predicate NoneSeen(findings: seq<Finding>, resolve: string -> Option<string>, seen: set<string>) {
    forall i :: 0 <= i < |findings| ==> resolve(findings[i].claimAnchor).Some? ==> resolve(findings[i].claimAnchor).value !in seen
  }

  lemma {:induction false} CheckFindingsSpec(findings: seq<Finding>, verdict: Verdict, resolve: string -> Option<string>, seen: set<string>)
    ensures var r := CheckFindings(findings, verdict, resolve, seen);
      && (r.Ok? <==> (GoodFindings(findings, verdict, resolve) && NoneSeen(findings, resolve, seen)))
      && (r.Ok? ==> |r.value| == |findings| && forall i :: 0 <= i < |findings| ==> resolve(findings[i].claimAnchor) == Some(r.value[i]))
  {
    if findings != [] {
      var first := resolve(findings[0].claimAnchor);
      if first.Some? {
        var rest := findings[1..];
        CheckFindingsSpec(rest, verdict, resolve, seen + {first.value});
        assert forall i :: 0 < i < |findings| ==> findings[i] == rest[i - 1];
        assert forall i :: 0 <= i < |rest| ==> rest[i] == findings[i + 1];
      }
    }
  }

  /**
   * A review is accepted exactly when it is well formed; what is accepted keeps the reviewer's verdict and findings,
   * each under the known anchor it names. Anything else becomes an empty `reject` that carries a reason.
   */
  lemma ParseReviewDetailSpec(reader: Reader, reviewText: string, primaryText: string)
    ensures var parsed := ParseReviewDetail(reader, reviewText, primaryText);
      && (parsed.malformedReasons == [] <==> WellFormedReview(reader, reviewText, primaryText))
      && (parsed.malformedReasons != [] ==> parsed.detail == ReviewDetail(Reject, []))
      && (parsed.malformedReasons == [] ==>
            var v := reader.validate(reader.blocks(reviewText)[0]);
            var issues := parsed.detail.issues;
            && parsed.detail.verdict == v.verdict
            && |issues| == |v.findings|
            && (forall i :: 0 <= i < |issues| ==>
                  && Resolver(reader, primaryText)(v.findings[i].claimAnchor) == Some(issues[i].claimAnchor)
                  && issues[i].claimAnchor in reader.anchors(primaryText)
                  && issues[i] == v.findings[i].(claimAnchor := issues[i].claimAnchor))
            && (forall i, j :: 0 <= i < j < |issues| ==> issues[i].claimAnchor != issues[j].claimAnchor))
  {
    hide Resolver;
    var blocks := reader.blocks(reviewText);
    if |blocks| == 1 {
      var v := reader.validate(blocks[0]);
      if v.Shaped? {
        CheckFindingsSpec(v.findings, v.verdict, Resolver(reader, primaryText), {});
        forall i | 0 <= i < |v.findings| {
          ResolvedIsKnown(reader, primaryText, v.findings[i].claimAnchor);
        }
      }
    }
  }

  /** The verdict and the findings alone tell a well-formed review from a refused one. */
  ghost predicate LooksWellFormed(detail: ReviewDetail) {
    detail.verdict.Approve? || detail.issues != []
  }

  lemma MalformedIsVisible(reader: Reader, reviewText: string, primaryText: string)
    ensures var parsed := ParseReviewDetail(reader, reviewText, primaryText);
      parsed.malformedReasons == [] <==> LooksWellFormed(parsed.detail)
  {
    ParseReviewDetailSpec(reader, reviewText, primaryText);
  }
}
