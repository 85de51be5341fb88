/**
 * Equal canonical texts mean equal normal forms, and the strict parser reads a canonical text back exactly when nothing
 * in it is a lone surrogate, an unsafe integer or a `__proto__` name.
 */
module CanonicalLaws {
  import opened Wrappers
  import opened JsStrings
  import opened JsonGrammar
  import opened StrictParsing
  import opened JsonExact
  import opened Canonical
  import opened CanonicalOrder
  import opened CanonicalText

  // ---------- Quoting ----------

  lemma {:induction false} QuotedIsFormed(s: JsString)
    ensures FormedPieces(Quoted(s)) && PiecesValue(Quoted(s)) == s
    ensures PairedPieces(Quoted(s)) <==> WellFormed(s)
    ensures s != [] ==> Quoted(s) != [] && (HexIn(Quoted(s)[0], IsLow) ==> IsLow(s[0]))
    decreases |s|
  {
    hide FormedPiece, PieceValue, PiecesValue;
    if s == [] {
      assert PiecesValue([]) == [] by { NoPieces(); }
    } else if |s| > 1 && IsHigh(s[0]) && IsLow(s[1]) {
      QuotedIsFormed(s[2..]);
      PairInFront(s[0], s[1], Quoted(s[2..]), s[2..]);
      assert s == [s[0], s[1]] + s[2..];
    } else {
      QuotedIsFormed(s[1..]);
      UnitInFront(QuotedUnit(s[0]), Quoted(s[1..]));
      assert s == [s[0]] + s[1..];
    }
  }

  lemma NoPieces()
    ensures PiecesValue([]) == []
  {
  }

  lemma UnitInFront(piece: Piece, pieces: seq<Piece>)
    requires FormedPiece(piece) && FormedPieces(pieces)
    requires pieces != [] && HexIn(pieces[0], IsLow) ==> !HexIn(piece, IsHigh)
    ensures FormedPieces([piece] + pieces)
    ensures PiecesValue([piece] + pieces) == PieceValue(piece) + PiecesValue(pieces)
    ensures PairedPieces([piece] + pieces) <==> PairedPiece(piece) && PairedPieces(pieces)
  {
    hide FormedPiece, PairedPiece, HexIn;
    var all := [piece] + pieces;
    assert all[1..] == pieces;
    assert forall i :: 0 < i < |all| ==> all[i] == pieces[i - 1];
    assert PairedPieces(all) ==> PairedPiece(piece) && PairedPieces(pieces) by {
      if PairedPieces(all) {
        assert PairedPiece(all[0]);
        assert forall i :: 0 <= i < |pieces| ==> pieces[i] == all[i + 1];
      }
    }
  }

  lemma PairInFront(high: CodeUnit, low: CodeUnit, pieces: seq<Piece>, units: JsString)
    requires IsHigh(high) && IsLow(low) && FormedPieces(pieces) && PiecesValue(pieces) == units
    ensures FormedPieces([Raw(high), Raw(low)] + pieces)
    ensures PiecesValue([Raw(high), Raw(low)] + pieces) == [high, low] + units
    ensures PairedPieces([Raw(high), Raw(low)] + pieces) <==> PairedPieces(pieces)
  {
    hide PairedPieces, PiecesValue;
    UnitInFront(Raw(low), pieces);
    UnitInFront(Raw(high), [Raw(low)] + pieces);
    assert [Raw(high), Raw(low)] + pieces == [Raw(high)] + ([Raw(low)] + pieces);
    assert [high, low] + units == [high] + ([low] + units);
  }

  // ---------- Reading a canonical text back ----------

  /** Numbers a normal form can hold: integers. */
  predicate IntegersOnly(j: Json) {
    match j
    case Numeral(n) => n.Int?
    case Arr(items) => forall i :: 0 <= i < |items| ==> IntegersOnly(items[i])
    case Obj(fields) => forall i :: 0 <= i < |fields| ==> IntegersOnly(fields[i].value)
    case _ => true
  }

  /** What the strict parser reads back unchanged: no lone surrogate, no unsafe integer, no `__proto__`. */
  predicate Readable(j: Json) {
    match j
    case Numeral(n) => n.Int? && -MAX_SAFE <= n.n <= MAX_SAFE
    case Str(s) => WellFormed(s)
    case Arr(items) => forall i :: 0 <= i < |items| ==> Readable(items[i])
    case Obj(fields) =>
      forall i :: 0 <= i < |fields| ==>
        WellFormed(fields[i].name) && fields[i].name != PROTO_KEY && Readable(fields[i].value)
    case _ => true
  }

  /** Every object names its properties in distinct NFC names. */
  predicate NormalNames(nfc: Nfc, j: Json) {
    match j
    case Arr(items) => forall i :: 0 <= i < |items| ==> NormalNames(nfc, items[i])
    case Obj(fields) =>
      && DistinctNames(fields)
      && forall i :: 0 <= i < |fields| ==> nfc(fields[i].name) == fields[i].name && NormalNames(nfc, fields[i].value)
    case _ => true
  }

  /** The tree of a normal form is well formed; it keeps the policy and means that form exactly when it is readable. */
  lemma {:induction false} TreeIsExact(p: Platform, j: Json)
    requires IntegersOnly(j) && NormalNames(p.nfc, j)
    ensures Formed(TreeOf(j))
    ensures Policy(p, TreeOf(j)) && Value(TreeOf(j)) == j <==> Readable(j)
    decreases j
  {
    hide Quoted, FormedPieces, PairedPieces, PiecesValue, WellFormed;
    match j
    case Str(s) => QuotedIsFormed(s);
    case Arr(items) => ItemsAreExact(p, items);
    case Obj(fields) => MembersAreExact(p, fields, {});
    case _ =>
  }

  lemma {:induction false} ItemsAreExact(p: Platform, items: seq<Json>)
    requires forall i :: 0 <= i < |items| ==> IntegersOnly(items[i]) && NormalNames(p.nfc, items[i])
    ensures FormedItems(ItemsOf(items))
    ensures PolicyItems(p, ItemsOf(items)) && ItemValues(ItemsOf(items)) == items
       <==> forall i :: 0 <= i < |items| ==> Readable(items[i])
    decreases items
  {
    hide IntegersOnly, NormalNames, Readable, Formed, Policy, Value, TreeOf;
    if items != [] {
      TreeIsExact(p, items[0]);
      ItemsAreExact(p, items[1..]);
      assert items == [items[0]] + items[1..];
    }
  }

  lemma {:induction false} MembersShrink(fields: seq<Named<Json>>)
    requires FormedMembers(MembersOf(fields))
    ensures |MemberValues(MembersOf(fields))| <= |fields|
  {
    hide Value, FormedMember, PiecesValue, TreeOf;
    if fields != [] {
      MembersShrink(fields[1..]);
    }
  }

  lemma {:induction false} MemberIsExact(p: Platform, f: Named<Json>)
    requires IntegersOnly(f.value) && NormalNames(p.nfc, f.value)
    ensures FormedMember(MemberOf(f)) && MemberKey(p, MemberOf(f)) == p.nfc(f.name)
    ensures PolicyMember(p, MemberOf(f)) && Entry(MemberOf(f)) == [f]
       <==> WellFormed(f.name) && f.name != PROTO_KEY && Readable(f.value)
    ensures |Entry(MemberOf(f))| == if f.name == PROTO_KEY then 0 else 1
    decreases f
  {
    hide Quoted, FormedPieces, PairedPieces, PiecesValue, WellFormed, IntegersOnly, NormalNames, Readable, Formed,
      Policy, Value, TreeOf;
    QuotedIsFormed(f.name);
    TreeIsExact(p, f.value);
  }

  lemma {:induction false} MembersAreExact(p: Platform, fields: seq<Named<Json>>, seen: set<JsString>)
    requires forall i :: 0 <= i < |fields| ==> IntegersOnly(fields[i].value) && NormalNames(p.nfc, fields[i].value)
    requires forall i :: 0 <= i < |fields| ==> p.nfc(fields[i].name) == fields[i].name && fields[i].name !in seen
    requires DistinctNames(fields)
    ensures FormedMembers(MembersOf(fields))
    ensures PolicyMembers(p, MembersOf(fields), seen) && MemberValues(MembersOf(fields)) == fields
       <==> forall i :: 0 <= i < |fields| ==>
              WellFormed(fields[i].name) && fields[i].name != PROTO_KEY && Readable(fields[i].value)
    decreases fields
  {
    hide IntegersOnly, NormalNames, Readable, WellFormed, FormedMember, PolicyMember, MemberKey, MemberOf, Entry;
    if fields != [] {
      var f, rest := fields[0], fields[1..];
      MemberIsExact(p, f);
      MembersAreExact(p, rest, seen + {f.name});
      MembersShrink(rest);
      assert fields == [f] + rest;
      assert MemberValues(MembersOf(fields)) == Entry(MemberOf(f)) + MemberValues(MembersOf(rest));
      if |Entry(MemberOf(f))| == 1 {
        assert (Entry(MemberOf(f)) + MemberValues(MembersOf(rest)))[1..] == MemberValues(MembersOf(rest));
      }
    }
  }

  // ---------- Normal forms ----------

  ghost predicate Idempotent(nfc: Nfc) {
    forall s :: nfc(nfc(s)) == nfc(s)
  }

  lemma {:induction false} NormalIsNormal(nfc: Nfc, v: JsValue, j: Json)
    requires Idempotent(nfc) && Normal(nfc, v) == Some(j)
    ensures IntegersOnly(j) && NormalNames(nfc, j)
    decreases v
  {
    match v
    case JArray(items) => NormalItemsAreNormal(nfc, items, NormalItems(nfc, items).value);
    case JObject(fields) =>
      var entries := NormalFields(nfc, fields).value;
      NormalFieldsAreNormal(nfc, fields, entries);
      SortDistinct(entries);
      assert forall i :: 0 <= i < |Sort(entries)| ==> Sort(entries)[i] in Sort(entries);
    case _ =>
  }

  lemma {:induction false} NormalItemsAreNormal(nfc: Nfc, items: seq<JsValue>, values: seq<Json>)
    requires Idempotent(nfc) && NormalItems(nfc, items) == Some(values)
    ensures forall i :: 0 <= i < |values| ==> IntegersOnly(values[i]) && NormalNames(nfc, values[i])
    decreases items
  {
    hide IntegersOnly, NormalNames;
    if items != [] {
      NormalIsNormal(nfc, items[0], values[0]);
      NormalItemsAreNormal(nfc, items[1..], values[1..]);
    }
  }

  lemma {:induction false} NormalFieldsAreNormal(nfc: Nfc, fields: seq<Named<JsValue>>, entries: seq<Named<Json>>)
    requires Idempotent(nfc) && NormalFields(nfc, fields) == Some(entries)
    ensures forall e :: e in entries ==>
              nfc(e.name) == e.name && IntegersOnly(e.value) && NormalNames(nfc, e.value)
    decreases fields
  {
    hide IntegersOnly, NormalNames, Normal;
    if fields != [] {
      if fields[0].value.JUndefined? {
        NormalFieldsAreNormal(nfc, fields[1..], entries);
      } else {
        NormalIsNormal(nfc, fields[0].value, entries[0].value);
        NormalFieldsAreNormal(nfc, fields[1..], entries[1..]);
        assert entries == [entries[0]] + entries[1..];
      }
    }
  }

  /** A canonical text is read as the value of the tree it renders, or refused; it is read as the normal form exactly when
      that form is readable. */
  lemma CanonicalTextIsRead(p: Platform, v: JsValue, j: Json)
    requires Idempotent(p.nfc) && Normal(p.nfc, v) == Some(j)
    ensures Canon(p.nfc, v).Some? && IntegersOnly(j) && NormalNames(p.nfc, j) && Formed(TreeOf(j))
    ensures ParseText(p, Canon(p.nfc, v).value) == if Policy(p, TreeOf(j)) then Some(Value(TreeOf(j))) else None
    ensures ParseText(p, Canon(p.nfc, v).value) == Some(j) <==> Readable(j)
  {
    hide ParseText, Policy, Value, Formed, Readable;
    CanonRendersNormal(p.nfc, v);
    NormalIsNormal(p.nfc, v, j);
    TreeIsExact(p, j);
    assert Text(j) == [] + Render(TreeOf(j), []);
    DerivedTextIsReadOrRefused(p, Text(j), [], TreeOf(j), []);
  }

  // ---------- One text, one normal form ----------

  /** No white space, and nothing a canonical text does not use. */
  predicate Tight(c: Cst) {
    match c
    case CNumber(n) => ValidNum(n)
    case CString(pieces) => TightPieces(pieces)
    case CArray(inner, items) => inner == [] && TightItems(items)
    case CObject(inner, members) => inner == [] && TightMembers(members)
    case _ => true
  }

  predicate TightPieces(pieces: seq<Piece>) {
    forall i :: 0 <= i < |pieces| ==> FormedPiece(pieces[i]) && !pieces[i].HexPair?
  }

  predicate TightItems(items: CItems) {
    items.Item? ==> items.before == [] == items.after && Tight(items.v) && TightItems(items.rest)
  }

  predicate TightKey(k: CKey) {
    k.before == [] == k.after && k.gap == [] && TightPieces(k.pieces)
  }

  predicate TightMembers(m: CMembers) {
    m.Member? ==> TightKey(m.head.key) && Tight(m.head.v) && m.head.after == [] && TightMembers(m.rest)
  }

  lemma PieceIsUnique(a: Piece, t: JsString, b: Piece, u: JsString)
    requires FormedPiece(a) && !a.HexPair? && FormedPiece(b) && !b.HexPair?
    requires RenderPiece(a, t) == RenderPiece(b, u)
    ensures a == b && t == u && RenderPiece(a, t)[0] != QUOTE
  {
    hide HexUnit;
    var all := RenderPiece(a, t);
    match a
    case Raw(_) =>
      assert b.Raw? by { assert all[0] != BACKSLASH && RenderPiece(b, u)[0] == all[0]; }
      assert all[1..] == t && all[1..] == u;
    case Escape(_) =>
      assert b.Escape? by { assert all[0] == BACKSLASH && all[1] == RenderPiece(b, u)[1]; }
      assert all[2..] == t && all[2..] == u;
    case Hex(d) =>
      assert b.Hex? by { assert all[0] == BACKSLASH && all[1] == LOWER_U && RenderPiece(b, u)[1] == all[1]; }
      assert all[2..6] == d && all[6..] == t;
      assert all[2..6] == b.digits && all[6..] == u;
  }

  lemma {:induction false} PiecesAreUnique(a: seq<Piece>, t: JsString, b: seq<Piece>, u: JsString)
    requires TightPieces(a) && TightPieces(b)
    requires RenderPieces(a, [QUOTE] + t) == RenderPieces(b, [QUOTE] + u)
    ensures a == b && t == u
    decreases |a|
  {
    hide RenderPiece, FormedPiece;
    if a == [] || b == [] {
      if a != [] {
        PieceIsUnique(a[0], RenderPieces(a[1..], [QUOTE] + t), a[0], RenderPieces(a[1..], [QUOTE] + t));
      }
      if b != [] {
        PieceIsUnique(b[0], RenderPieces(b[1..], [QUOTE] + u), b[0], RenderPieces(b[1..], [QUOTE] + u));
      }
      assert ([QUOTE] + t)[1..] == t && ([QUOTE] + u)[1..] == u;
    } else {
      PieceIsUnique(a[0], RenderPieces(a[1..], [QUOTE] + t), b[0], RenderPieces(b[1..], [QUOTE] + u));
      PiecesAreUnique(a[1..], t, b[1..], u);
      assert a == [a[0]] + a[1..] && b == [b[0]] + b[1..];
    }
  }

  lemma StringIsUnique(a: seq<Piece>, t: JsString, b: seq<Piece>, u: JsString)
    requires TightPieces(a) && TightPieces(b) && RenderString(a, t) == RenderString(b, u)
    ensures a == b && t == u
  {
    hide RenderPieces, TightPieces;
    assert RenderString(a, t)[1..] == RenderPieces(a, [QUOTE] + t);
    assert RenderString(b, u)[1..] == RenderPieces(b, [QUOTE] + u);
    PiecesAreUnique(a, t, b, u);
  }

  /** What a tight value starts with, by kind. */
  function Kind(u: CodeUnit): nat {
    if u == QUOTE then 1 else if u == LBRACKET then 2 else if u == LBRACE then 3
    else if u == MINUS || IsDigit(u) then 4 else u as nat
  }

  lemma KindOf(c: Cst, t: JsString)
    requires Tight(c)
    ensures Render(c, t) != [] && Render(c, t)[0] != RBRACKET
    ensures Kind(Render(c, t)[0])
         == match c
            case CNull => 0x6E
            case CTrue => 0x74
            case CFalse => 0x66
            case CNumber(_) => 4
            case CString(_) => 1
            case CArray(_, _) => 2
            case CObject(_, _) => 3
  {
    if c.CNumber? {
      assert RenderNum(c.num, t)[0] == if c.num.negative then MINUS else c.num.whole[0];
    }
  }

  lemma {:induction false} ValueIsUnique(a: Cst, t: JsString, b: Cst, u: JsString)
    requires Tight(a) && Tight(b) && Stops(t) && Stops(u) && Render(a, t) == Render(b, u)
    ensures a == b && t == u
    decreases a, 1
  {
    KindOf(a, t);
    KindOf(b, u);
    hide Kind, RenderNum, RenderString, NumberToken, TightPieces, ValidNum;
    match a
    case CNull => assert Render(a, t)[4..] == t && Render(b, u)[4..] == u;
    case CTrue => assert Render(a, t)[4..] == t && Render(b, u)[4..] == u;
    case CFalse => assert Render(a, t)[5..] == t && Render(b, u)[5..] == u;
    case CNumber(n) =>
      NumberTokenComplete(n, t);
      NumberTokenComplete(b.num, u);
    case CString(pieces) => StringIsUnique(pieces, t, b.pieces, u);
    case CArray(_, items) => ArrayIsUnique(items, t, b.items, u);
    case CObject(_, members) => ObjectIsUnique(members, t, b.members, u);
  }

  lemma {:induction false} ArrayIsUnique(a: CItems, t: JsString, b: CItems, u: JsString)
    requires TightItems(a) && TightItems(b) && Render(CArray([], a), t) == Render(CArray([], b), u)
    ensures a == b && t == u
    decreases a, 2
  {
    hide RenderItems;
    var inner := if a.NoItems? then [RBRACKET] + t else RenderItems(a, t);
    var inner' := if b.NoItems? then [RBRACKET] + u else RenderItems(b, u);
    assert Render(CArray([], a), t)[1..] == inner && Render(CArray([], b), u)[1..] == inner';
    if a.Item? {
      ItemsStart(a, t);
    }
    if b.Item? {
      ItemsStart(b, u);
    }
    if a.Item? && b.Item? {
      ItemsAreUnique(a, t, b, u);
    } else {
      assert ([RBRACKET] + t)[1..] == t && ([RBRACKET] + u)[1..] == u;
    }
  }

  lemma ItemsStart(items: CItems, t: JsString)
    requires items.Item? && TightItems(items)
    ensures RenderItems(items, t) != [] && RenderItems(items, t)[0] != RBRACKET
    ensures RenderItems(items, t)
         == Render(items.v, if items.rest.NoItems? then [RBRACKET] + t else [COMMA] + RenderItems(items.rest, t))
  {
    hide Render, Tight;
    var rest := if items.rest.NoItems? then [RBRACKET] + t else [COMMA] + RenderItems(items.rest, t);
    assert [] + rest == rest && [] + Render(items.v, rest) == Render(items.v, rest);
    KindOf(items.v, rest);
  }

  lemma {:induction false} ItemsAreUnique(a: CItems, t: JsString, b: CItems, u: JsString)
    requires a.Item? && b.Item? && TightItems(a) && TightItems(b) && RenderItems(a, t) == RenderItems(b, u)
    ensures a == b && t == u
    decreases a, 1
  {
    hide Render, Tight;
    ItemsStart(a, t);
    ItemsStart(b, u);
    var rest := if a.rest.NoItems? then [RBRACKET] + t else [COMMA] + RenderItems(a.rest, t);
    var rest' := if b.rest.NoItems? then [RBRACKET] + u else [COMMA] + RenderItems(b.rest, u);
    ValueIsUnique(a.v, rest, b.v, rest');
    assert rest[0] == rest'[0] && rest[1..] == rest'[1..];
    if a.rest.Item? {
      assert rest[1..] == RenderItems(a.rest, t) && rest'[1..] == RenderItems(b.rest, u);
      ItemsAreUnique(a.rest, t, b.rest, u);
    } else {
      assert rest[1..] == t && rest'[1..] == u;
    }
  }

  lemma {:induction false} ObjectIsUnique(a: CMembers, t: JsString, b: CMembers, u: JsString)
    requires TightMembers(a) && TightMembers(b) && Render(CObject([], a), t) == Render(CObject([], b), u)
    ensures a == b && t == u
    decreases a, 2
  {
    hide RenderMembers;
    var inner := if a.NoMembers? then [RBRACE] + t else RenderMembers(a, t);
    var inner' := if b.NoMembers? then [RBRACE] + u else RenderMembers(b, u);
    assert Render(CObject([], a), t)[1..] == inner && Render(CObject([], b), u)[1..] == inner';
    if a.Member? {
      MembersStart(a, t);
    }
    if b.Member? {
      MembersStart(b, u);
    }
    if a.Member? && b.Member? {
      MembersAreUnique(a, t, b, u);
    } else {
      assert ([RBRACE] + t)[1..] == t && ([RBRACE] + u)[1..] == u;
    }
  }

  function MembersTail(m: CMembers, t: JsString): JsString
    requires m.Member?
  {
    if m.rest.NoMembers? then [RBRACE] + t else [COMMA] + RenderMembers(m.rest, t)
  }

  lemma MembersStart(m: CMembers, t: JsString)
    requires m.Member? && TightMembers(m)
    ensures RenderMembers(m, t) != [] && RenderMembers(m, t)[0] == QUOTE
    ensures RenderMembers(m, t)
         == RenderString(m.head.key.pieces, [COLON] + Render(m.head.v, MembersTail(m, t)))
  {
    hide Render, Tight, RenderPieces;
    var rest := MembersTail(m, t);
    var y := Render(m.head.v, rest);
    assert [] + rest == rest && [] + y == y && [] + ([COLON] + y) == [COLON] + y;
    var all := RenderString(m.head.key.pieces, [COLON] + y);
    assert [] + all == all;
  }

  lemma {:induction false} MembersAreUnique(a: CMembers, t: JsString, b: CMembers, u: JsString)
    requires a.Member? && b.Member? && TightMembers(a) && TightMembers(b) && RenderMembers(a, t) == RenderMembers(b, u)
    ensures a == b && t == u
    decreases a, 1
  {
    hide Render, Tight, RenderString;
    MembersStart(a, t);
    MembersStart(b, u);
    var rest, rest' := MembersTail(a, t), MembersTail(b, u);
    var y, y' := Render(a.head.v, rest), Render(b.head.v, rest');
    StringIsUnique(a.head.key.pieces, [COLON] + y, b.head.key.pieces, [COLON] + y');
    assert ([COLON] + y)[1..] == y && ([COLON] + y')[1..] == y';
    ValueIsUnique(a.head.v, rest, b.head.v, rest');
    assert rest[0] == rest'[0] && rest[1..] == rest'[1..];
    if a.rest.Member? {
      assert rest[1..] == RenderMembers(a.rest, t) && rest'[1..] == RenderMembers(b.rest, u);
      MembersAreUnique(a.rest, t, b.rest, u);
    } else {
      assert rest[1..] == t && rest'[1..] == u;
    }
  }

  /** Trees of normal forms are tight, and distinct forms have distinct trees. */
  lemma {:induction false} TreeIsTight(j: Json)
    requires IntegersOnly(j)
    ensures Tight(TreeOf(j))
    decreases j
  {
    hide Quoted, TightPieces;
    match j
    case Str(s) => QuotedIsTight(s);
    case Arr(items) => ItemsAreTight(items);
    case Obj(fields) => MembersAreTight(fields);
    case _ =>
  }

  lemma {:induction false} QuotedIsTight(s: JsString)
    ensures TightPieces(Quoted(s))
    decreases |s|
  {
    hide FormedPiece;
    if |s| > 1 && IsHigh(s[0]) && IsLow(s[1]) {
      assert FormedPiece(Raw(s[0])) && FormedPiece(Raw(s[1])) by { SurrogateIsRaw(s[0]); SurrogateIsRaw(s[1]); }
      QuotedIsTight(s[2..]);
    } else if s != [] {
      QuotedIsTight(s[1..]);
    }
  }

  lemma SurrogateIsRaw(u: CodeUnit)
    requires IsHigh(u) || IsLow(u)
    ensures FormedPiece(Raw(u))
  {
  }

  lemma {:induction false} ItemsAreTight(items: seq<Json>)
    requires forall i :: 0 <= i < |items| ==> IntegersOnly(items[i])
    ensures TightItems(ItemsOf(items))
    decreases items
  {
    hide IntegersOnly, Tight;
    if items != [] {
      TreeIsTight(items[0]);
      ItemsAreTight(items[1..]);
    }
  }

  lemma {:induction false} MembersAreTight(fields: seq<Named<Json>>)
    requires forall i :: 0 <= i < |fields| ==> IntegersOnly(fields[i].value)
    ensures TightMembers(MembersOf(fields))
    decreases fields
  {
    hide IntegersOnly, Tight, TightPieces;
    if fields != [] {
      QuotedIsTight(fields[0].name);
      TreeIsTight(fields[0].value);
      MembersAreTight(fields[1..]);
    }
  }

  lemma {:induction false} TreeIsInjective(a: Json, b: Json)
    requires IntegersOnly(a) && IntegersOnly(b) && TreeOf(a) == TreeOf(b)
    ensures a == b
    decreases a
  {
    hide Quoted;
    match a
    case Str(s) =>
      QuotedIsFormed(s);
      QuotedIsFormed(b.s);
    case Numeral(Int(n)) => assert b.number.n == IntegralValue(IntNum(b.number.n));
    case Arr(items) => ItemsAreInjective(items, b.items);
    case Obj(fields) => MembersAreInjective(fields, b.fields);
    case _ =>
  }

  lemma {:induction false} ItemsAreInjective(a: seq<Json>, b: seq<Json>)
    requires forall i :: 0 <= i < |a| ==> IntegersOnly(a[i])
    requires forall i :: 0 <= i < |b| ==> IntegersOnly(b[i])
    requires ItemsOf(a) == ItemsOf(b)
    ensures a == b
    decreases a
  {
    hide IntegersOnly;
    if a != [] {
      TreeIsInjective(a[0], b[0]);
      ItemsAreInjective(a[1..], b[1..]);
      assert a == [a[0]] + a[1..] && b == [b[0]] + b[1..];
    }
  }

  lemma {:induction false} MembersAreInjective(a: seq<Named<Json>>, b: seq<Named<Json>>)
    requires forall i :: 0 <= i < |a| ==> IntegersOnly(a[i].value)
    requires forall i :: 0 <= i < |b| ==> IntegersOnly(b[i].value)
    requires MembersOf(a) == MembersOf(b)
    ensures a == b
    decreases a
  {
    hide IntegersOnly;
    if a != [] {
      QuotedIsFormed(a[0].name);
      QuotedIsFormed(b[0].name);
      TreeIsInjective(a[0].value, b[0].value);
      MembersAreInjective(a[1..], b[1..]);
      assert a == [a[0]] + a[1..] && b == [b[0]] + b[1..];
    }
  }

  /** Two values have one canonical text exactly when they have one normal form. */
  lemma TextTellsNormalForm(nfc: Nfc, v: JsValue, w: JsValue)
    requires Idempotent(nfc) && Canon(nfc, v).Some? && Canon(nfc, w).Some?
    ensures Canon(nfc, v) == Canon(nfc, w) <==> Normal(nfc, v) == Normal(nfc, w)
  {
    hide Render, Tight;
    CanonRendersNormal(nfc, v);
    CanonRendersNormal(nfc, w);
    var a, b := Normal(nfc, v).value, Normal(nfc, w).value;
    NormalIsNormal(nfc, v, a);
    NormalIsNormal(nfc, w, b);
    if Text(a) == Text(b) {
      TreeIsTight(a);
      TreeIsTight(b);
      ValueIsUnique(TreeOf(a), [], TreeOf(b), []);
      TreeIsInjective(a, b);
    }
  }
}
