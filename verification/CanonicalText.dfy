/** What the canonical text says: it renders the normal form, and the normal form can be told from it. */
module CanonicalText {
  import opened Wrappers
  import opened JsStrings
  import opened JsonGrammar
  import opened Canonical
  import Sorting
  import opened CanonicalOrder

  // ---------- The tree of a normal form ----------

  function IntNum(n: int): (num: Num)
    ensures ValidNum(num) && IsIntegral(num) && IntegralValue(num) == n
    ensures forall t :: RenderNum(num, t) == IntText(n) + t
  {
    var num := Num(n < 0, Digits(if n < 0 then -n else n), None, NoExponent);
    assert forall t: JsString :: SignText(num.negative) + (num.whole + t) == SignText(num.negative) + num.whole + t;
    num
  }

  function TreeOf(j: Json): Cst
    decreases j
  {
    match j
    case Null => CNull
    case Bool(b) => if b then CTrue else CFalse
    case Numeral(Int(n)) => CNumber(IntNum(n))
    case Numeral(Double(literal)) => CNumber(literal)
    case Str(s) => CString(Quoted(s))
    case Arr(items) => CArray([], ItemsOf(items))
    case Obj(fields) => CObject([], MembersOf(fields))
  }

  function ItemsOf(items: seq<Json>): CItems
    decreases items
  {
    if items == [] then NoItems else Item([], TreeOf(items[0]), [], ItemsOf(items[1..]))
  }

  function MemberOf(f: Named<Json>): CMember
    decreases f
  {
    CMember(CKey([], Quoted(f.name), [], []), TreeOf(f.value), [])
  }

  function MembersOf(fields: seq<Named<Json>>): CMembers
    decreases fields
  {
    if fields == [] then NoMembers else Member(MemberOf(fields[0]), MembersOf(fields[1..]))
  }

  /** The text of a normal form. */
  function Text(j: Json): JsString {
    Render(TreeOf(j), [])
  }

  // ---------- Text followed by more text ----------

  lemma {:induction false} PiecesAppend(pieces: seq<Piece>, a: JsString, b: JsString)
    ensures RenderPieces(pieces, a + b) == RenderPieces(pieces, a) + b
  {
    if pieces != [] {
      PiecesAppend(pieces[1..], a, b);
      PieceAppend(pieces[0], RenderPieces(pieces[1..], a), b);
    }
  }

  lemma PieceAppend(piece: Piece, a: JsString, b: JsString)
    ensures RenderPiece(piece, a + b) == RenderPiece(piece, a) + b
  {
    if piece.HexPair? {
      var low := [BACKSLASH, LOWER_U] + (piece.low + a);
      assert [BACKSLASH, LOWER_U] + (piece.low + (a + b)) == low + b;
    }
  }

  lemma StringAppend(pieces: seq<Piece>, a: JsString, b: JsString)
    ensures RenderString(pieces, a + b) == RenderString(pieces, a) + b
  {
    PiecesAppend(pieces, [QUOTE] + a, b);
    assert [QUOTE] + (a + b) == [QUOTE] + a + b;
  }

  lemma NumAppend(n: Num, a: JsString, b: JsString)
    ensures RenderNum(n, a + b) == RenderNum(n, a) + b
  {
    assert RenderExponent(n.exponent, a + b) == RenderExponent(n.exponent, a) + b;
    var e := RenderExponent(n.exponent, a);
    assert RenderFraction(n.fraction, e + b) == RenderFraction(n.fraction, e) + b;
  }

  lemma {:induction false} RenderAppend(c: Cst, a: JsString, b: JsString)
    ensures Render(c, a + b) == Render(c, a) + b
    decreases c
  {
    hide RenderNum, RenderString;
    match c
    case CNumber(n) => NumAppend(n, a, b);
    case CString(pieces) => StringAppend(pieces, a, b);
    case CArray(inner, items) =>
      if items.Item? {
        RenderItemsAppend(items, a, b);
      } else {
        assert [RBRACKET] + (a + b) == [RBRACKET] + a + b;
      }
    case CObject(inner, members) =>
      if members.Member? {
        RenderMembersAppend(members, a, b);
      } else {
        assert [RBRACE] + (a + b) == [RBRACE] + a + b;
      }
    case _ =>
  }

  lemma {:induction false} RenderItemsAppend(items: CItems, a: JsString, b: JsString)
    requires items.Item?
    ensures RenderItems(items, a + b) == RenderItems(items, a) + b
    decreases items
  {
    hide Render;
    var rest := if items.rest.NoItems? then [RBRACKET] + a else [COMMA] + RenderItems(items.rest, a);
    if items.rest.Item? {
      RenderItemsAppend(items.rest, a, b);
      assert [COMMA] + (RenderItems(items.rest, a) + b) == rest + b;
    } else {
      assert [RBRACKET] + (a + b) == rest + b;
    }
    RenderAppend(items.v, items.after + rest, b);
    assert items.after + (rest + b) == items.after + rest + b;
  }

  lemma {:induction false} RenderMembersAppend(m: CMembers, a: JsString, b: JsString)
    requires m.Member?
    ensures RenderMembers(m, a + b) == RenderMembers(m, a) + b
    decreases m
  {
    hide RenderMember;
    var rest := if m.rest.NoMembers? then [RBRACE] + a else [COMMA] + RenderMembers(m.rest, a);
    if m.rest.Member? {
      RenderMembersAppend(m.rest, a, b);
      assert [COMMA] + (RenderMembers(m.rest, a) + b) == rest + b;
    } else {
      assert [RBRACE] + (a + b) == rest + b;
    }
    RenderMemberAppend(m.head, rest, b);
  }

  lemma {:induction false} RenderMemberAppend(m: CMember, a: JsString, b: JsString)
    ensures RenderMember(m, a + b) == RenderMember(m, a) + b
    decreases m
  {
    hide RenderString, Render;
    RenderAppend(m.v, m.after + a, b);
    assert m.after + (a + b) == m.after + a + b;
    KeyAppend(m.key, Render(m.v, m.after + a), b);
  }

  lemma KeyAppend(k: CKey, a: JsString, b: JsString)
    ensures RenderKey(k, a + b) == RenderKey(k, a) + b
  {
    hide RenderString;
    var y := k.after + ([COLON] + (k.gap + a));
    assert k.after + ([COLON] + (k.gap + (a + b))) == y + b;
    StringAppend(k.pieces, y, b);
  }

  // ---------- Canon renders the normal form ----------

  function Texts(items: seq<Json>): seq<JsString> {
    if items == [] then [] else [Text(items[0])] + Texts(items[1..])
  }

  function TextEntries(fields: seq<Named<Json>>): seq<Named<JsString>> {
    seq(|fields|, i requires 0 <= i < |fields| => Named(fields[i].name, Text(fields[i].value)))
  }

  lemma {:induction false} JoinedItems(items: seq<Json>, t: JsString)
    requires items != []
    ensures Joined(Texts(items), [RBRACKET] + t) == RenderItems(ItemsOf(items), t)
    decreases |items|
  {
    hide Render;
    var rest := if |items| == 1 then [RBRACKET] + t else [COMMA] + RenderItems(ItemsOf(items[1..]), t);
    RenderAppend(TreeOf(items[0]), [], rest);
    assert [] + rest == rest;
    assert RenderItems(ItemsOf(items), t) == Text(items[0]) + rest;
    assert Texts(items)[1..] == Texts(items[1..]);
    if |items| > 1 {
      JoinedItems(items[1..], t);
    }
  }

  lemma MemberText(f: Named<Json>, t: JsString)
    ensures RenderMember(MemberOf(f), t) == EntryText(Named(f.name, Text(f.value))) + t
  {
    hide RenderString, Render;
    var m := MemberOf(f);
    RenderAppend(m.v, [], t);
    assert [] + t == t;
    var y := [COLON] + (Text(f.value) + t);
    assert [] + ([COLON] + ([] + (Text(f.value) + t))) == y;
    StringAppend(m.key.pieces, [], y);
    assert [] + y == y;
    assert RenderMember(m, t) == [] + RenderString(m.key.pieces, y);
    assert Stringify(f.name) + y == Stringify(f.name) + ([COLON] + Text(f.value)) + t;
  }

  lemma {:induction false} JoinedMembers(fields: seq<Named<Json>>, t: JsString)
    requires fields != []
    ensures Joined(EntryTexts(TextEntries(fields)), [RBRACE] + t) == RenderMembers(MembersOf(fields), t)
    decreases |fields|
  {
    hide RenderMember, EntryText, Text;
    var rest := if |fields| == 1 then [RBRACE] + t else [COMMA] + RenderMembers(MembersOf(fields[1..]), t);
    MemberText(fields[0], rest);
    var parts := EntryTexts(TextEntries(fields));
    assert parts[1..] == EntryTexts(TextEntries(fields[1..]));
    if |fields| > 1 {
      JoinedMembers(fields[1..], t);
    }
  }

  lemma {:induction false} InsertTexts(e: Named<Json>, s: seq<Named<Json>>)
    ensures TextEntries(Sorting.Insert(ByName, e, s)) == Sorting.Insert(ByName, Named(e.name, Text(e.value)), TextEntries(s))
    decreases |s|
  {
    hide Text, Less;
    if s != [] && Less(s[0].name, e.name) {
      InsertTexts(e, s[1..]);
      assert TextEntries(s)[1..] == TextEntries(s[1..]);
    }
  }

  lemma {:induction false} SortTexts(s: seq<Named<Json>>)
    ensures Sort(TextEntries(s)) == TextEntries(Sort(s))
    ensures DistinctNames(TextEntries(s)) <==> DistinctNames(s)
    decreases |s|
  {
    hide Text;
    if s != [] {
      SortTexts(s[1..]);
      InsertTexts(s[0], Sort(s[1..]));
      assert TextEntries(s)[1..] == TextEntries(s[1..]);
    }
    assert forall i :: 0 <= i < |s| ==> TextEntries(s)[i].name == s[i].name;
  }

  lemma ObjectRendersNormal(entries: seq<Named<Json>>)
    ensures var sorted := Sort(TextEntries(entries));
            && DistinctNames(sorted) == DistinctNames(entries)
            && [LBRACE] + Joined(EntryTexts(sorted), [RBRACE]) == Text(Obj(Sort(entries)))
  {
    hide RenderMembers, EntryText, Joined, Sort, DistinctNames;
    SortTexts(entries);
    SortDistinct(TextEntries(entries));
    var sorted := Sort(entries);
    if sorted != [] {
      JoinedMembers(sorted, []);
      assert [RBRACE] + [] == [RBRACE];
      assert [] + RenderMembers(MembersOf(sorted), []) == RenderMembers(MembersOf(sorted), []);
    } else {
      assert Joined([], [RBRACE]) == [RBRACE] by { JoinedNothing([RBRACE]); }
      assert EntryTexts(TextEntries(sorted)) == [];
    }
  }

  lemma JoinedNothing(t: JsString)
    ensures Joined([], t) == t
  {
  }

  lemma ArrayRendersNormal(items: seq<Json>)
    ensures [LBRACKET] + Joined(Texts(items), [RBRACKET]) == Text(Arr(items))
  {
    hide RenderItems;
    if items != [] {
      JoinedItems(items, []);
      assert [RBRACKET] + [] == [RBRACKET];
      assert [] + RenderItems(ItemsOf(items), []) == RenderItems(ItemsOf(items), []);
    }
  }

  /** The canonicalizer succeeds exactly on values with a normal form, and prints that form. */
  lemma {:induction false} CanonRendersNormal(nfc: Nfc, v: JsValue)
    ensures Canon(nfc, v) == match Normal(nfc, v) case None => None case Some(j) => Some(Text(j))
    decreases v
  {
    hide Joined, EntryTexts, Sort, DistinctNames, Quoted, RenderPieces;
    match v
    case JNull => assert NULL_TEXT + [] == NULL_TEXT;
    case JBool(b) => assert TRUE_TEXT + [] == TRUE_TEXT && FALSE_TEXT + [] == FALSE_TEXT;
    case JNumber(n) => assert IntText(n) + [] == IntText(n);
    case JBigInt(n) => assert IntText(n) + [] == IntText(n);
    case JArray(items) =>
      CanonItemsRender(nfc, items);
      if NormalItems(nfc, items).Some? {
        ArrayRendersNormal(NormalItems(nfc, items).value);
      }
    case JObject(fields) =>
      CanonFieldsRender(nfc, fields);
      if NormalFields(nfc, fields).Some? {
        ObjectRendersNormal(NormalFields(nfc, fields).value);
      }
    case _ =>
  }

  lemma {:induction false} CanonItemsRender(nfc: Nfc, items: seq<JsValue>)
    ensures CanonItems(nfc, items)
         == match NormalItems(nfc, items) case None => None case Some(values) => Some(Texts(values))
    decreases items
  {
    hide Canon, Normal, Text;
    if items != [] {
      CanonRendersNormal(nfc, items[0]);
      CanonItemsRender(nfc, items[1..]);
      if Normal(nfc, items[0]).Some? && NormalItems(nfc, items[1..]).Some? {
        var rest := NormalItems(nfc, items[1..]).value;
        assert ([Normal(nfc, items[0]).value] + rest)[1..] == rest;
      }
    }
  }

  lemma EntryInFront(f: Named<Json>, rest: seq<Named<Json>>)
    ensures TextEntries([f] + rest) == [Named(f.name, Text(f.value))] + TextEntries(rest)
  {
  }

  lemma {:induction false} CanonFieldsRender(nfc: Nfc, fields: seq<Named<JsValue>>)
    ensures CanonFields(nfc, fields)
         == match NormalFields(nfc, fields) case None => None case Some(entries) => Some(TextEntries(entries))
    decreases fields
  {
    hide Canon, Normal, Text;
    if fields == [] {
      assert TextEntries([]) == [];
    } else {
      CanonFieldsRender(nfc, fields[1..]);
      if !fields[0].value.JUndefined? {
        CanonRendersNormal(nfc, fields[0].value);
        if Normal(nfc, fields[0].value).Some? && NormalFields(nfc, fields[1..]).Some? {
          EntryInFront(Named(nfc(fields[0].name), Normal(nfc, fields[0].value).value), NormalFields(nfc, fields[1..]).value);
        }
      }
    }
  }
}
