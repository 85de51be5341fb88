/**
 * The strict parser against the grammar: what it accepts is exactly the strict language, every accepted text has one
 * derivation, and accepted values hold no aliased keys and no unsafe integers.
 */
module JsonExact {
  import opened Wrappers
  import opened JsStrings
  import opened JsonGrammar
  import opened StrictParsing

  // ---------- Soundness: what was read is what the tree renders to ----------

  lemma {:induction false} ValueSound(p: Platform, t: JsString, r: Step<Cst>)
    requires r == ParseValue(p, t) && r.Got?
    ensures t == Render(r.v, r.rest)
    decreases |t|, 0
  {
    if t[0] == LBRACE {
      ObjectSound(p, t, t[1..], r);
    } else if t[0] == LBRACKET {
      ArraySound(p, t, t[1..], r);
    }
  }

  lemma ArrayText(t: JsString, body: JsString, items: CItems, after: JsString)
    requires t == [LBRACKET] + body
    requires if items.NoItems? then SkipWs(body) == [RBRACKET] + after else body == RenderItems(items, after)
    ensures t == Render(CArray(if items.NoItems? then Lead(body) else [], items), after)
  {
    assert [] + body == body;
  }

  lemma {:induction false} ArraySound(p: Platform, t: JsString, body: JsString, r: Step<Cst>)
    requires t == [LBRACKET] + body && r == ParseArray(p, body) && r.Got?
    ensures t == Render(r.v, r.rest)
    decreases |body|, 2
  {
    hide ParseItems, SkipWs, Render, RenderItems, Formed, FormedItems, Policy, PolicyItems;
    var u := SkipWs(body);
    if u != [] && u[0] == RBRACKET {
      assert u == [RBRACKET] + u[1..];
      ArrayText(t, body, NoItems, u[1..]);
    } else {
      var items := ParseItems(p, body);
      ItemsSound(p, body, items);
      ArrayText(t, body, items.v, items.rest);
    }
  }

  lemma ItemsText(t: JsString, v: Cst, rest: JsString, items: CItems, after: JsString)
    requires SkipWs(t) == Render(v, rest)
    requires SkipWs(rest) == if items.NoItems? then [RBRACKET] + after else [COMMA] + RenderItems(items, after)
    ensures t == RenderItems(Item(Lead(t), v, Lead(rest), items), after)
  {
  }

  lemma {:induction false} ItemsSound(p: Platform, t: JsString, r: Step<CItems>)
    requires r == ParseItems(p, t) && r.Got?
    ensures t == RenderItems(r.v, r.rest)
    decreases |t|, 1
  {
    var v := ParseValue(p, SkipWs(t));
    ValueSound(p, SkipWs(t), v);
    var u := SkipWs(v.rest);
    assert u == [u[0]] + u[1..];
    if u[0] == RBRACKET {
      ItemsText(t, v.v, v.rest, NoItems, u[1..]);
    } else {
      var more := ParseItems(p, u[1..]);
      ItemsSound(p, u[1..], more);
      ItemsText(t, v.v, v.rest, more.v, more.rest);
    }
  }

  lemma ObjectText(t: JsString, body: JsString, m: CMembers, after: JsString)
    requires t == [LBRACE] + body
    requires if m.NoMembers? then SkipWs(body) == [RBRACE] + after else body == RenderMembers(m, after)
    ensures t == Render(CObject(if m.NoMembers? then Lead(body) else [], m), after)
  {
    assert [] + body == body;
  }

  lemma {:induction false} ObjectSound(p: Platform, t: JsString, body: JsString, r: Step<Cst>)
    requires t == [LBRACE] + body && r == ParseObject(p, body) && r.Got?
    ensures t == Render(r.v, r.rest)
    decreases |body|, 2
  {
    hide ParseMembers, SkipWs, Render, RenderMembers, Formed, FormedMembers, Policy, PolicyMembers;
    var u := SkipWs(body);
    if u != [] && u[0] == RBRACE {
      assert u == [RBRACE] + u[1..];
      ObjectText(t, body, NoMembers, u[1..]);
    } else {
      var members := ParseMembers(p, body, {});
      MembersSound(p, body, {}, members);
      ObjectText(t, body, members.v, members.rest);
    }
  }

  lemma KeyText(t: JsString, pieces: seq<Piece>, rest: JsString, u: JsString)
    requires SkipWs(t) == [QUOTE] + RenderPieces(pieces, [QUOTE] + rest) && SkipWs(rest) == [COLON] + u
    ensures t == RenderKey(CKey(Lead(t), pieces, Lead(rest), Lead(u)), SkipWs(u))
  {
    assert rest == Lead(rest) + ([COLON] + (Lead(u) + SkipWs(u)));
  }

  lemma KeyParts(t: JsString) returns (pieces: seq<Piece>, rest: JsString, u: JsString)
    requires ParseKey(t).Got?
    ensures SkipWs(t) == [QUOTE] + RenderPieces(pieces, [QUOTE] + rest) && SkipWs(rest) == [COLON] + u
    ensures ParseKey(t) == Got(CKey(Lead(t), pieces, Lead(rest), Lead(u)), SkipWs(u))
  {
    hide SkipWs, ParseString, FormedKey, FormedPieces, PairedPieces, AllWs, RenderPieces;
    var k := SkipWs(t);
    pieces, rest := ParseString(k[1..]).v, ParseString(k[1..]).rest;
    u := SkipWs(rest)[1..];
    assert k == [QUOTE] + k[1..];
  }

  lemma KeySound(t: JsString, r: Step<CKey>)
    requires r == ParseKey(t) && r.Got?
    ensures t == RenderKey(r.v, r.rest)
  {
    var pieces, rest, u := KeyParts(t);
    KeyText(t, pieces, rest, u);
  }

  lemma {:induction false} MemberSound(p: Platform, t: JsString, seen: set<JsString>, r: Step<CMember>)
    requires r == ParseMember(p, t, seen) && r.Got?
    ensures t == RenderMember(r.v, r.rest)
    decreases |t|, 0
  {
    var key := ParseKey(t);
    KeySound(t, key);
    ValueSound(p, key.rest, ParseValue(p, key.rest));
  }

  /** One unfolding of ParseMembers. */
  lemma MembersCase(p: Platform, t: JsString, seen: set<JsString>) returns (m: Step<CMember>, u: JsString, more: Step<CMembers>)
    requires ParseMembers(p, t, seen).Got?
    ensures m == ParseMember(p, t, seen) && m.Got? && |u| < |t|
    ensures more.Got? && m.rest == [if more.v.NoMembers? then RBRACE else COMMA] + u
    ensures more == if more.v.NoMembers? then Got(NoMembers, u) else ParseMembers(p, u, seen + {MemberKey(p, m.v)})
    ensures ParseMembers(p, t, seen) == Got(Member(m.v, more.v), more.rest)
  {
    hide ParseMember, Formed, Policy, FormedKey, SemanticKey, PolicyMember;
    m := ParseMember(p, t, seen);
    u := m.rest[1..];
    more := if m.rest[0] == RBRACE then Got(NoMembers, u) else ParseMembers(p, u, seen + {MemberKey(p, m.v)});
    assert m.rest == [m.rest[0]] + u;
  }

  lemma MembersText(t: JsString, m: CMember, u: JsString, rest: CMembers, after: JsString)
    requires t == RenderMember(m, u)
    requires u == if rest.NoMembers? then [RBRACE] + after else [COMMA] + RenderMembers(rest, after)
    ensures t == RenderMembers(Member(m, rest), after)
  {
  }

  lemma {:induction false} MembersSound(p: Platform, t: JsString, seen: set<JsString>, r: Step<CMembers>)
    requires r == ParseMembers(p, t, seen) && r.Got?
    ensures t == RenderMembers(r.v, r.rest)
    decreases |t|, 1
  {
    var m, u, more := MembersCase(p, t, seen);
    MemberSound(p, t, seen, m);
    if more.v.Member? {
      MembersSound(p, u, seen + {MemberKey(p, m.v)}, more);
    }
    MembersText(t, m.v, m.rest, more.v, more.rest);
  }

  // ---------- Completeness: a well-formed tree is read back, or refused for breaking the policy ----------

  /** What may follow a value. */
  predicate Stops(t: JsString) {
    t == [] || IsWs(t[0]) || t[0] == COMMA || t[0] == RBRACKET || t[0] == RBRACE
  }

  lemma {:induction false} SkipsExactly(w: JsString, t: JsString)
    requires AllWs(w) && (t == [] || !IsWs(t[0]))
    ensures SkipWs(w + t) == t && Lead(w + t) == w
  {
    if w == [] {
      assert w + t == t;
    } else {
      assert (w + t)[1..] == w[1..] + t;
      SkipsExactly(w[1..], t);
      assert w == [w[0]] + w[1..];
    }
  }

  lemma {:induction false} DigitsComplete(d: JsString, t: JsString)
    requires AllDigits(d) && (t == [] || !IsDigit(t[0]))
    ensures TakeDigits(d + t) == d && (d + t)[|d|..] == t
  {
    if d == [] {
      assert d + t == t;
    } else {
      assert (d + t)[1..] == d[1..] + t;
      DigitsComplete(d[1..], t);
      assert d == [d[0]] + d[1..];
    }
  }

  lemma SignComplete(sign: JsString, t: JsString)
    requires sign in {[], [PLUS], [MINUS]} && t != [] && IsDigit(t[0])
    ensures TakeExponentSign(sign + t) == (sign, t)
  {
    assert (sign + t)[|sign|..] == t;
    if sign == [] {
      assert sign + t == t;
    }
  }

  lemma ExponentRead(mark: CodeUnit, sign: JsString, digits: JsString, u: JsString, t: JsString)
    requires mark in {0x45, 0x65} && TakeExponentSign(u) == (sign, digits + t) && TakeDigits(digits + t) == digits != []
    requires (digits + t)[|digits|..] == t
    ensures TakeExponent([mark] + u) == (Exponent(mark, sign, digits), t)
  {
    assert ([mark] + u)[1..] == u;
  }

  lemma ExponentComplete(e: Exponent, t: JsString)
    requires e.Exponent? ==> e.mark in {0x45, 0x65} && e.sign in {[], [PLUS], [MINUS]}
    requires e.Exponent? ==> e.digits != [] && AllDigits(e.digits)
    requires Stops(t)
    ensures TakeExponent(RenderExponent(e, t)) == (e, t)
  {
    if e.Exponent? {
      DigitsComplete(e.digits, t);
      SignComplete(e.sign, e.digits + t);
      ExponentRead(e.mark, e.sign, e.digits, e.sign + (e.digits + t), t);
    }
  }

  lemma FractionComplete(f: Option<JsString>, t: JsString)
    requires f.Some? ==> f.value != [] && AllDigits(f.value)
    requires t == [] || (!IsDigit(t[0]) && t[0] != DOT)
    ensures TakeFraction(RenderFraction(f, t)) == (f, t)
  {
    if f.Some? {
      assert RenderFraction(f, t)[1..] == f.value + t;
      DigitsComplete(f.value, t);
    }
  }

  lemma WholeComplete(w: JsString, t: JsString)
    requires w != [] && AllDigits(w) && (w[0] == ZERO ==> |w| == 1)
    requires t == [] || !IsDigit(t[0])
    ensures TakeWhole(w + t) == (w, t)
  {
    DigitsComplete(w, t);
    if w[0] == ZERO {
      assert w == [ZERO] && (w + t)[1..] == t;
    }
  }

  lemma MinusComplete(negative: bool, t: JsString)
    requires t != [] && t[0] != MINUS
    ensures TakeSign(SignText(negative) + t) == (negative, t)
  {
    assert (SignText(negative) + t)[|SignText(negative)|..] == t;
    if !negative {
      assert SignText(negative) + t == t;
    }
  }

  lemma NumberTokenComplete(n: Num, t: JsString)
    requires ValidNum(n) && Stops(t)
    ensures NumberToken(RenderNum(n, t)) == Got(n, t)
  {
    var e := RenderExponent(n.exponent, t);
    var f := RenderFraction(n.fraction, e);
    ExponentComplete(n.exponent, t);
    FractionComplete(n.fraction, e);
    WholeComplete(n.whole, f);
    MinusComplete(n.negative, n.whole + f);
  }

  /** The text starts with an escaped low surrogate. */
  predicate NextLow(t: JsString) {
    |t| >= 6 && t[0] == BACKSLASH && t[1] == LOWER_U && FourHex(t[2..6]) && IsLow(HexUnit(t[2..6]))
  }

  lemma NotNextLow(pieces: seq<Piece>, t: JsString)
    requires forall i :: 0 <= i < |pieces| ==> FormedPiece(pieces[i])
    requires pieces != [] ==> !HexIn(pieces[0], IsLow)
    ensures !NextLow(RenderPieces(pieces, [QUOTE] + t))
  {
    hide NextLow, FormedPiece, HexIn, RenderPiece;
    if pieces != [] {
      PieceIsNoLow(pieces[0], RenderPieces(pieces[1..], [QUOTE] + t));
    } else {
      QuoteIsNoLow(t);
    }
  }

  lemma QuoteIsNoLow(t: JsString)
    ensures !NextLow([QUOTE] + t)
  {
  }

  lemma PieceIsNoLow(piece: Piece, t: JsString)
    requires FormedPiece(piece) && !HexIn(piece, IsLow)
    ensures !NextLow(RenderPiece(piece, t))
  {
    hide HexUnit;
    var all := RenderPiece(piece, t);
    match piece
    case Raw(_) =>
    case Escape(_) =>
    case Hex(d) => assert all[2..6] == d;
    case HexPair(h, _) => assert all[2..6] == h;
  }

  lemma PieceComplete(piece: Piece, t: JsString)
    requires FormedPiece(piece) && (HexIn(piece, IsHigh) ==> !NextLow(t))
    ensures RenderPiece(piece, t)[0] != QUOTE
    ensures ParsePiece(RenderPiece(piece, t)) == if PairedPiece(piece) then Got(piece, t) else Rejected
  {
    hide HexUnit;
    var all := RenderPiece(piece, t);
    match piece
    case Raw(u) =>
    case Escape(e) => assert all[2..] == t;
    case Hex(d) =>
      assert all[2..6] == d && all[6..] == t;
      assert |all| >= 12 ==> all[8..12] == t[2..6] && all[6] == t[0] && all[7] == t[1];
    case HexPair(h, l) =>
      assert all[2..6] == h;
      assert all[6..] == [BACKSLASH, LOWER_U] + (l + t);
      assert all[8..12] == l && all[12..] == t;
  }

  lemma PiecesRead(text: JsString, piece: Piece, u: JsString)
    requires text != [] && text[0] != QUOTE && ParsePiece(text) == Got(piece, u)
    ensures ParseString(text)
         == match ParseString(u) case Rejected => Rejected case Got(pieces, t) => Got([piece] + pieces, t)
  {
    hide ParsePiece;
  }

  lemma {:induction false} StringComplete(pieces: seq<Piece>, t: JsString)
    requires FormedPieces(pieces)
    ensures ParseString(RenderPieces(pieces, [QUOTE] + t)) == if PairedPieces(pieces) then Got(pieces, t) else Rejected
  {
    hide ParsePiece, RenderPiece, FormedPiece, PairedPiece;
    if pieces == [] {
      assert ([QUOTE] + t)[1..] == t;
    } else {
      var u := RenderPieces(pieces[1..], [QUOTE] + t);
      NotNextLowAfter(pieces, t);
      PieceComplete(pieces[0], u);
      StringComplete(pieces[1..], t);
      assert pieces == [pieces[0]] + pieces[1..];
      if PairedPiece(pieces[0]) {
        PiecesRead(RenderPiece(pieces[0], u), pieces[0], u);
        assert PairedPieces(pieces) <==> PairedPieces(pieces[1..]);
      }
    }
  }

  lemma NotNextLowAfter(pieces: seq<Piece>, t: JsString)
    requires FormedPieces(pieces) && pieces != []
    ensures HexIn(pieces[0], IsHigh) ==> !NextLow(RenderPieces(pieces[1..], [QUOTE] + t))
  {
    if HexIn(pieces[0], IsHigh) {
      NotNextLow(pieces[1..], t);
    }
  }

  /** A value starts with what its kind starts with. */
  lemma FirstUnit(c: Cst, t: JsString)
    requires Formed(c)
    ensures Render(c, t) != [] && !IsWs(Render(c, t)[0]) && Render(c, t)[0] != RBRACKET
    ensures c.CNumber? ==> Render(c, t)[0] == MINUS || IsDigit(Render(c, t)[0])
    ensures c.CString? ==> Render(c, t)[0] == QUOTE
    ensures c.CArray? ==> Render(c, t)[0] == LBRACKET
    ensures c.CObject? ==> Render(c, t)[0] == LBRACE
  {
    if c.CNumber? {
      assert RenderNum(c.num, t)[0] == if c.num.negative then MINUS else c.num.whole[0];
    }
  }

  lemma LeafComplete(p: Platform, c: Cst, t: JsString)
    requires Formed(c) && Stops(t) && !c.CArray? && !c.CObject?
    ensures ParseValue(p, Render(c, t)) == if Policy(p, c) then Got(c, t) else Rejected
  {
    hide ParseObject, ParseArray, ParseString, NumberToken, RenderPieces, IntegralValue, RenderNum;
    FirstUnit(c, t);
    match c
    case CNull => assert (NULL_TEXT + t)[4..] == t;
    case CTrue => assert (TRUE_TEXT + t)[4..] == t;
    case CFalse => assert (FALSE_TEXT + t)[5..] == t;
    case CNumber(n) => NumberTokenComplete(n, t);
    case CString(pieces) =>
      StringComplete(pieces, t);
      assert Render(c, t)[1..] == RenderPieces(pieces, [QUOTE] + t);
  }

  lemma {:induction false} ValueComplete(p: Platform, c: Cst, t: JsString)
    requires Formed(c) && Stops(t)
    ensures ParseValue(p, Render(c, t)) == if Policy(p, c) then Got(c, t) else Rejected
    decreases c, 1
  {
    match c
    case CArray(inner, items) => ArrayComplete(p, c, t);
    case CObject(inner, members) => ObjectComplete(p, c, t);
    case _ => LeafComplete(p, c, t);
  }

  lemma {:induction false} ArrayComplete(p: Platform, c: Cst, t: JsString)
    requires c.CArray? && Formed(c)
    ensures ParseArray(p, Render(c, t)[1..]) == if Policy(p, c) then Got(c, t) else Rejected
    decreases c, 0
  {
    hide ParseItems;
    if c.items.NoItems? {
      assert Render(c, t)[1..] == c.inner + ([RBRACKET] + t);
      SkipsExactly(c.inner, [RBRACKET] + t);
    } else {
      assert Render(c, t)[1..] == RenderItems(c.items, t);
      ItemsComplete(p, c.items, t);
    }
  }

  /** How the elements go on after one is read. */
  lemma ItemRead(p: Platform, text: JsString, v: Cst, y: JsString, u: JsString)
    requires ParseValue(p, SkipWs(text)) == Got(v, y) && SkipWs(y) == u && u != []
    ensures u[0] == RBRACKET ==> ParseItems(p, text) == Got(Item(Lead(text), v, Lead(y), NoItems), u[1..])
    ensures u[0] == COMMA ==>
              ParseItems(p, text)
              == match ParseItems(p, u[1..])
                 case Rejected => Rejected
                 case Got(items, t) => Got(Item(Lead(text), v, Lead(y), items), t)
  {
    hide ParseValue, SkipWs;
  }

  lemma {:induction false} ItemsComplete(p: Platform, items: CItems, t: JsString)
    requires items.Item? && FormedItems(items)
    ensures ParseItems(p, RenderItems(items, t)) == if PolicyItems(p, items) then Got(items, t) else Rejected
    ensures SkipWs(RenderItems(items, t)) != [] && SkipWs(RenderItems(items, t))[0] != RBRACKET
    decreases items
  {
    hide ParseValue, SkipWs, Formed, Policy;
    var u := if items.rest.NoItems? then [RBRACKET] + t else [COMMA] + RenderItems(items.rest, t);
    var y := items.after + u;
    FirstUnit(items.v, y);
    SkipsExactly(items.before, Render(items.v, y));
    AfterStops(items.after, u);
    ValueComplete(p, items.v, y);
    SkipsExactly(items.after, u);
    if Policy(p, items.v) {
      ItemRead(p, RenderItems(items, t), items.v, y, u);
    }
    if items.rest.NoItems? {
      assert u[1..] == t;
    } else {
      assert u[1..] == RenderItems(items.rest, t);
      ItemsComplete(p, items.rest, t);
    }
  }

  lemma AfterStops(w: JsString, u: JsString)
    requires AllWs(w) && Stops(u)
    ensures Stops(w + u)
  {
    assert w == [] ==> w + u == u;
  }

  lemma {:induction false} ObjectComplete(p: Platform, c: Cst, t: JsString)
    requires c.CObject? && Formed(c)
    ensures ParseObject(p, Render(c, t)[1..]) == if Policy(p, c) then Got(c, t) else Rejected
    decreases c, 0
  {
    hide ParseMembers;
    if c.members.NoMembers? {
      assert Render(c, t)[1..] == c.inner + ([RBRACE] + t);
      SkipsExactly(c.inner, [RBRACE] + t);
    } else {
      assert Render(c, t)[1..] == RenderMembers(c.members, t);
      MembersComplete(p, c.members, {}, t);
    }
  }

  lemma KeyComplete(k: CKey, t: JsString)
    requires FormedKey(k) && (t == [] || !IsWs(t[0]))
    ensures ParseKey(RenderKey(k, t)) == if PairedPieces(k.pieces) then Got(k, t) else Rejected
    ensures SkipWs(RenderKey(k, t)) != [] && SkipWs(RenderKey(k, t))[0] == QUOTE
  {
    hide ParseString, RenderPieces, SkipWs, FormedPieces, PairedPieces;
    var u := [COLON] + (k.gap + t);
    var s := RenderString(k.pieces, k.after + u);
    SkipsExactly(k.before, s);
    StringComplete(k.pieces, k.after + u);
    assert s[1..] == RenderPieces(k.pieces, [QUOTE] + (k.after + u));
    SkipsExactly(k.after, u);
    SkipsExactly(k.gap, t);
    assert u[1..] == k.gap + t;
  }

  lemma {:induction false} MemberComplete(p: Platform, m: CMember, seen: set<JsString>, t: JsString)
    requires FormedMember(m) && t != [] && !IsWs(t[0]) && Stops(t)
    ensures ParseMember(p, RenderMember(m, t), seen)
         == if PolicyMember(p, m) && MemberKey(p, m) !in seen then Got(m, t) else Rejected
    ensures SkipWs(RenderMember(m, t)) != [] && SkipWs(RenderMember(m, t))[0] == QUOTE
    decreases m
  {
    hide ParseKey, ParseValue, Formed, Policy, SkipWs, RenderKey, Render, PiecesValue, FormedPieces, PairedPieces;
    var y := m.after + t;
    var v := Render(m.v, y);
    FirstUnit(m.v, y);
    KeyComplete(m.key, v);
    AfterStops(m.after, t);
    ValueComplete(p, m.v, y);
    SkipsExactly(m.after, t);
  }

  /** How the members go on after one is read. */
  lemma MembersRead(p: Platform, text: JsString, seen: set<JsString>, m: CMember, u: JsString)
    requires ParseMember(p, text, seen) == Got(m, u) && u != []
    ensures u[0] == RBRACE ==> ParseMembers(p, text, seen) == Got(Member(m, NoMembers), u[1..])
    ensures u[0] == COMMA ==>
              ParseMembers(p, text, seen)
              == match ParseMembers(p, u[1..], seen + {MemberKey(p, m)})
                 case Rejected => Rejected
                 case Got(rest, t) => Got(Member(m, rest), t)
  {
    hide ParseMember;
  }

  lemma {:induction false} MembersComplete(p: Platform, m: CMembers, seen: set<JsString>, t: JsString)
    requires m.Member? && FormedMembers(m)
    ensures ParseMembers(p, RenderMembers(m, t), seen) == if PolicyMembers(p, m, seen) then Got(m, t) else Rejected
    ensures SkipWs(RenderMembers(m, t)) != [] && SkipWs(RenderMembers(m, t))[0] == QUOTE
    decreases m
  {
    hide ParseMember, SkipWs, FormedMember, PolicyMember, MemberKey, RenderMember;
    var u := if m.rest.NoMembers? then [RBRACE] + t else [COMMA] + RenderMembers(m.rest, t);
    MemberComplete(p, m.head, seen, u);
    if PolicyMember(p, m.head) && MemberKey(p, m.head) !in seen {
      MembersRead(p, RenderMembers(m, t), seen, m.head, u);
    }
    if m.rest.NoMembers? {
      assert u[1..] == t;
    } else {
      assert u[1..] == RenderMembers(m.rest, t);
      MembersComplete(p, m.rest, seen + {MemberKey(p, m.head)}, t);
    }
  }

  // ---------- The strict language ----------

  /** The text is one well-formed tree with white space around it. */
  ghost predicate Derives(text: JsString, before: JsString, c: Cst, after: JsString) {
    AllWs(before) && AllWs(after) && Formed(c) && text == before + Render(c, after)
  }

  /** A text with a derivation is refused for exactly one reason: the derived tree breaks the policy. */
  lemma DerivedTextIsReadOrRefused(p: Platform, text: JsString, before: JsString, c: Cst, after: JsString)
    requires Derives(text, before, c, after)
    ensures ParseText(p, text) == if Policy(p, c) then Some(Value(c)) else None
    ensures Policy(p, c) ==> Lead(text) == before && ParseValue(p, SkipWs(text)) == Got(c, after)
  {
    hide ParseValue, Policy, Formed, Value, SkipWs;
    FirstUnit(c, after);
    SkipsExactly(before, Render(c, after));
    assert after + [] == after;
    AfterStops(after, []);
    ValueComplete(p, c, after);
    SkipsExactly(after, []);
  }

  /** The parser succeeds on exactly the texts whose derivation keeps the policy, and returns what it means. */
  lemma ParseTextExact(p: Platform, text: JsString, v: Json)
    ensures ParseText(p, text) == Some(v)
       <==> exists before, c, after :: Derives(text, before, c, after) && Policy(p, c) && Value(c) == v
  {
    if ParseText(p, text) == Some(v) {
      var r := ParseValue(p, SkipWs(text));
      ValueSound(p, SkipWs(text), r);
      assert r.rest == Lead(r.rest);
      assert Derives(text, Lead(text), r.v, r.rest);
    }
    if before, c, after :| Derives(text, before, c, after) && Policy(p, c) && Value(c) == v {
      DerivedTextIsReadOrRefused(p, text, before, c, after);
    }
  }

  /** No text has two derivations that keep the policy. */
  lemma DerivationIsUnique(p: Platform, text: JsString,
                           before: JsString, c: Cst, after: JsString,
                           before': JsString, c': Cst, after': JsString)
    requires Derives(text, before, c, after) && Derives(text, before', c', after') && Policy(p, c)
    ensures Policy(p, c') && before == before' && c == c' && after == after'
  {
    DerivedTextIsReadOrRefused(p, text, before, c, after);
    DerivedTextIsReadOrRefused(p, text, before', c', after');
  }
}
