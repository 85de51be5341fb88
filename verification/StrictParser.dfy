/**
 * The parser object of scripts/backup/strict-json.ts: one index that every method advances. A method that returns None
 * is one that throws; nothing is said of the index then.
 */
module StrictReader {
  import opened Wrappers
  import opened JsStrings
  import opened JsonGrammar
  import opened StrictParsing

  predicate AllFormed(pieces: seq<Piece>) {
    forall i :: 0 <= i < |pieces| ==> FormedPiece(pieces[i])
  }

  /** A partial string and what the rest of it decodes to. */
  ghost function Decoded(out: JsString, r: Step<seq<Piece>>): Step<JsString>
    requires r.Got? ==> AllFormed(r.v)
  {
    match r case Rejected => Rejected case Got(pieces, rest) => Got(out + PiecesValue(pieces), rest)
  }

  lemma DecodedFromNothing(r: Step<seq<Piece>>)
    requires r.Got? ==> AllFormed(r.v)
    ensures r.Got? ==> Decoded([], r) == Got(PiecesValue(r.v), r.rest)
  {
    if r.Got? {
      assert [] + PiecesValue(r.v) == PiecesValue(r.v);
    }
  }

  lemma OnePieceMore(out: JsString, piece: Piece, pieces: seq<Piece>)
    requires FormedPiece(piece) && AllFormed(pieces)
    ensures AllFormed([piece] + pieces)
    ensures out + PiecesValue([piece] + pieces) == out + PieceValue(piece) + PiecesValue(pieces)
  {
    assert ([piece] + pieces)[1..] == pieces;
    assert out + (PieceValue(piece) + PiecesValue(pieces)) == out + PieceValue(piece) + PiecesValue(pieces);
  }

  lemma StringStep(out: JsString, t: JsString)
    requires t != []
    ensures t[0] == QUOTE ==> Decoded(out, ParseString(t)) == Got(out, t[1..])
    ensures t[0] != QUOTE && ParsePiece(t).Rejected? ==> ParseString(t).Rejected?
    ensures t[0] != QUOTE && ParsePiece(t).Got? ==>
              var piece := ParsePiece(t);
              Decoded(out, ParseString(t)) == Decoded(out + PieceValue(piece.v), ParseString(piece.rest))
  {
    if t[0] == QUOTE {
      assert out + [] == out;
    } else if ParsePiece(t).Got? {
      var piece := ParsePiece(t);
      var more := ParseString(piece.rest);
      if more.Got? {
        OnePieceMore(out, piece.v, more.v);
      }
    }
  }

  /** Elements read so far and what the rest of the array adds. */
  ghost function Elements(arr: seq<Json>, r: Step<CItems>): Step<seq<Json>>
    requires r.Got? ==> FormedItems(r.v)
  {
    match r case Rejected => Rejected case Got(items, rest) => Got(arr + ItemValues(items), rest)
  }

  lemma ItemsStep(p: Platform, arr: seq<Json>, t: JsString)
    ensures var v := ParseValue(p, SkipWs(t));
            if v.Rejected? then ParseItems(p, t).Rejected?
            else
              var u := SkipWs(v.rest);
              if u != [] && u[0] == RBRACKET then Elements(arr, ParseItems(p, t)) == Got(arr + [Value(v.v)], u[1..])
              else if u != [] && u[0] == COMMA then
                Elements(arr, ParseItems(p, t)) == Elements(arr + [Value(v.v)], ParseItems(p, u[1..]))
              else ParseItems(p, t).Rejected?
  {
    hide ParseValue, SkipWs, Formed, Policy, Value;
    var v := ParseValue(p, SkipWs(t));
    if v.Got? {
      var u := SkipWs(v.rest);
      var one := [Value(v.v)];
      if u != [] && u[0] == RBRACKET {
        assert ItemValues(ParseItems(p, t).v) == one + ItemValues(NoItems) == one;
      }
      if u != [] && u[0] == COMMA && ParseItems(p, u[1..]).Got? {
        var more := ItemValues(ParseItems(p, u[1..]).v);
        assert arr + (one + more) == arr + one + more;
      }
    }
  }

  /** Members read so far and what the rest of the object adds. */
  ghost function Fields(obj: seq<Named<Json>>, r: Step<CMembers>)
    : Step<seq<Named<Json>>>
    requires r.Got? ==> FormedMembers(r.v)
  {
    match r case Rejected => Rejected case Got(m, rest) => Got(obj + MemberValues(m), rest)
  }

  lemma MembersStep(p: Platform, obj: seq<Named<Json>>, seen: set<JsString>, t: JsString)
    ensures var m := ParseMember(p, t, seen);
            if m.Rejected? then ParseMembers(p, t, seen).Rejected?
            else if m.rest != [] && m.rest[0] == RBRACE then
              Fields(obj, ParseMembers(p, t, seen)) == Got(obj + Entry(m.v), m.rest[1..])
            else if m.rest != [] && m.rest[0] == COMMA then
              var seen' := seen + {MemberKey(p, m.v)};
              Fields(obj, ParseMembers(p, t, seen))
              == Fields(obj + Entry(m.v), ParseMembers(p, m.rest[1..], seen'))
            else ParseMembers(p, t, seen).Rejected?
  {
    hide ParseMember, SkipWs, Formed, Policy, FormedKey, Entry, SemanticKey;
    var m := ParseMember(p, t, seen);
    if m.Got? && m.rest != [] && m.rest[0] == RBRACE {
      var seen' := seen + {MemberKey(p, m.v)};
      assert MemberValues(ParseMembers(p, t, seen).v) == Entry(m.v) + MemberValues(NoMembers);
      assert Entry(m.v) + [] == Entry(m.v);
    }
    if m.Got? && m.rest != [] && m.rest[0] == COMMA {
      var seen' := seen + {MemberKey(p, m.v)};
      if ParseMembers(p, m.rest[1..], seen').Got? {
        var more := MemberValues(ParseMembers(p, m.rest[1..], seen').v);
        assert obj + (Entry(m.v) + more) == obj + Entry(m.v) + more;
      }
    }
  }

  predicate IsTail(u: JsString, t: JsString) {
    |u| <= |t| && t[|t| - |u|..] == u
  }

  lemma TailOf(a: JsString, u: JsString, rest: JsString)
    requires IsTail(rest, u)
    ensures IsTail(rest, a + u)
  {
    assert (a + u)[|a|..] == u;
  }

  lemma NumberIsPrefix(t: JsString, n: Num, rest: JsString)
    requires t == RenderNum(n, rest)
    ensures IsTail(rest, t)
  {
    var e := RenderExponent(n.exponent, rest);
    if n.exponent.Exponent? {
      TailOf(n.exponent.digits, rest, rest);
      TailOf(n.exponent.sign, n.exponent.digits + rest, rest);
      TailOf([n.exponent.mark], n.exponent.sign + (n.exponent.digits + rest), rest);
    }
    if n.fraction.Some? {
      TailOf(n.fraction.value, e, rest);
      TailOf([DOT], n.fraction.value + e, rest);
    }
    TailOf(n.whole, RenderFraction(n.fraction, e), rest);
    TailOf(SignText(n.negative), n.whole + RenderFraction(n.fraction, e), rest);
  }

  /** Skipping white space twice is skipping it once. */
  lemma {:induction false} SkipTwice(t: JsString)
    ensures SkipWs(SkipWs(t)) == SkipWs(t)
  {
  }

  /** White space already skipped changes no element. */
  lemma ItemsAfterSkip(p: Platform, t: JsString)
    ensures Elements([], ParseItems(p, SkipWs(t))) == Elements([], ParseItems(p, t))
  {
    SkipTwice(t);
    ItemsStep(p, [], t);
    ItemsStep(p, [], SkipWs(t));
  }

  lemma ElementsFromNothing(p: Platform, r: Step<CItems>)
    requires r.Got? ==> FormedItems(r.v)
    ensures r.Got? ==> Elements([], r) == Got(ItemValues(r.v), r.rest)
  {
    if r.Got? {
      assert [] + ItemValues(r.v) == ItemValues(r.v);
    }
  }

  /** White space already skipped changes no member. */
  lemma MemberAfterSkip(p: Platform, t: JsString, seen: set<JsString>)
    ensures var m, m' := ParseMember(p, t, seen), ParseMember(p, SkipWs(t), seen);
            && m.Got? == m'.Got?
            && (m.Got? ==> m'.rest == m.rest && m'.v.v == m.v.v && m'.v.key.pieces == m.v.key.pieces)
  {
    SkipTwice(t);
  }

  lemma MembersAfterSkip(p: Platform, t: JsString)
    ensures Fields([], ParseMembers(p, SkipWs(t), {})) == Fields([], ParseMembers(p, t, {}))
  {
    MemberAfterSkip(p, t, {});
    MembersStep(p, [], {}, t);
    MembersStep(p, [], {}, SkipWs(t));
  }

  lemma FieldsFromNothing(p: Platform, r: Step<CMembers>)
    requires r.Got? ==> FormedMembers(r.v)
    ensures r.Got? ==> Fields([], r) == Got(MemberValues(r.v), r.rest)
  {
    if r.Got? {
      assert [] + MemberValues(r.v) == MemberValues(r.v);
    }
  }

  lemma NothingToRead(p: Platform, t: JsString)
    ensures SkipWs(t) == [] ==> ParseItems(p, t).Rejected? && ParseMembers(p, t, {}).Rejected?
    ensures ItemValues(NoItems) == [] && MemberValues(NoMembers) == []
  {
  }

  /** ParseKey after its opening quote, if it has one. */
  lemma KeyCases(t: JsString)
    ensures SkipWs(t) == [] || SkipWs(t)[0] != QUOTE ==> ParseKey(t).Rejected?
    ensures SkipWs(t) != [] && SkipWs(t)[0] == QUOTE ==>
              var pieces := ParseString(SkipWs(t)[1..]);
              if pieces.Rejected? then ParseKey(t).Rejected?
              else
                var u := SkipWs(pieces.rest);
                if u == [] || u[0] != COLON then ParseKey(t).Rejected?
                else ParseKey(t).Got? && ParseKey(t).v.pieces == pieces.v && ParseKey(t).rest == SkipWs(u[1..])
  {
    hide ParseString, SkipWs, FormedKey, FormedPieces, PairedPieces, AllWs, PiecesValue;
  }

  class StrictParser {
    const s: JsString
    const p: Platform
    var i: nat

    ghost predicate Valid()
      reads this
    {
      i <= |s|
    }

    /** The text not read yet. */
    ghost function Rest(): JsString
      requires Valid()
      reads this
    {
      s[i..]
    }

    constructor (p: Platform, s: JsString)
      ensures Valid() && this.s == s && this.p == p && Rest() == s
    {
      this.s, this.p := s, p;
      i := 0;
    }

    method SkipWhiteSpace()
      requires Valid()
      modifies this
      ensures Valid() && i >= old(i) && Rest() == SkipWs(old(Rest()))
    {
      while i < |s| && IsWs(s[i])
        invariant Valid() && i >= old(i)
        invariant SkipWs(Rest()) == SkipWs(old(Rest()))
      {
        assert s[i..][1..] == s[i + 1..];
        i := i + 1;
      }
    }

    method Hex4() returns (r: Option<CodeUnit>)
      requires Valid()
      modifies this
      ensures Valid() && i >= old(i)
      ensures r.Some? <==> |old(Rest())| >= 4 && FourHex(old(Rest())[..4])
      ensures r.Some? ==> r.value == HexUnit(old(Rest())[..4]) && Rest() == old(Rest())[4..]
    {
      if i + 4 > |s| { return None; }
      var h := s[i..i + 4];
      assert h == s[i..][..4];
      if !FourHex(h) { return None; }
      assert s[i..][4..] == s[i + 4..];
      i := i + 4;
      return Some(HexUnit(h));
    }

    /** An escape, after its backslash. */
    method Escape() returns (r: Option<JsString>)
      requires Valid()
      modifies this
      ensures Valid() && i >= old(i)
      ensures match ParsePiece([BACKSLASH] + old(Rest()))
              case Rejected => r == None
              case Got(piece, rest) => r == Some(PieceValue(piece)) && Rest() == rest
    {
      ghost var t := Rest();
      ghost var all := [BACKSLASH] + t;
      if i == |s| { return None; }
      var e := s[i];
      i := i + 1;
      assert all[2..] == s[i..];
      if e != LOWER_U {
        return if Unescape(e).Some? then Some([Unescape(e).value]) else None;
      }
      var unit := Hex4();
      assert |t| >= 5 ==> all[2..6] == t[1..][..4] && all[6..] == t[1..][4..];
      if unit.None? || IsLow(unit.value) { return None; }
      if !IsHigh(unit.value) { return Some([unit.value]); }
      if i + 1 >= |s| || s[i] != BACKSLASH || s[i + 1] != LOWER_U { return None; }
      assert all[8..] == s[i + 2..];
      i := i + 2;
      var low := Hex4();
      assert |all| >= 12 ==> all[8..12] == all[8..][..4] && all[12..] == all[8..][4..];
      if low.None? || !IsLow(low.value) { return None; }
      return Some([unit.value, low.value]);
    }

    /** One unescaped unit or one escape. */
    method NextPiece() returns (r: Option<JsString>)
      requires Valid() && i < |s| && s[i] != QUOTE
      modifies this
      ensures Valid() && i >= old(i)
      ensures match ParsePiece(old(Rest()))
              case Rejected => r == None
              case Got(piece, rest) => r == Some(PieceValue(piece)) && Rest() == rest && i > old(i)
    {
      var unit := s[i];
      assert Rest() == [unit] + s[i + 1..];
      i := i + 1;
      if unit == BACKSLASH {
        r := Escape();
      } else if unit < 0x20 {
        r := None;
      } else {
        r := Some([unit]);
      }
    }

    /** The decoded string that starts at the current quote. */
    method String() returns (r: Option<JsString>)
      requires Valid() && i < |s| && s[i] == QUOTE
      modifies this
      ensures Valid() && i >= old(i)
      ensures match ParseString(old(s[i + 1..]))
              case Rejected => r == None
              case Got(pieces, rest) => r == Some(PiecesValue(pieces)) && Rest() == rest && i > old(i)
    {
      hide ParseString, ParsePiece, PiecesValue, PieceValue;
      i := i + 1;
      var out: JsString := [];
      ghost var start := Rest();
      DecodedFromNothing(ParseString(start));
      while i < |s| && s[i] != QUOTE
        invariant Valid() && i > old(i)
        invariant Decoded([], ParseString(start)) == Decoded(out, ParseString(Rest()))
        decreases |s| - i
      {
        StringStep(out, Rest());
        var piece := NextPiece();
        if piece.None? { return None; }
        out := out + piece.value;
      }
      if i == |s| { return None; }
      StringStep(out, Rest());
      assert s[i..][1..] == s[i + 1..];
      i := i + 1;
      return Some(out);
    }

    method Number() returns (r: Option<Number>)
      requires Valid()
      modifies this
      ensures Valid() && i >= old(i)
      ensures match ParseNumber(p, old(Rest()))
              case Rejected => r == None
              case Got(n, rest) => r == Some(NumValue(n)) && Rest() == rest && i > old(i)
    {
      hide NumberToken, RenderNum, AcceptedNum, NumValue;
      match NumberToken(s[i..])
      case Rejected => return None;
      case Got(n, rest) =>
        NumberIsPrefix(s[i..], n, rest);
        if !AcceptedNum(p, n) { return None; }
        i := |s| - |rest|;
        return Some(NumValue(n));
    }

    /** true, false or null. */
    method Literal() returns (r: Option<Json>)
      requires Valid()
      modifies this
      ensures Valid() && i >= old(i)
      ensures StartsWith(old(Rest()), TRUE_TEXT) ==> r == Some(Bool(true)) && Rest() == old(Rest())[4..] && i > old(i)
      ensures StartsWith(old(Rest()), FALSE_TEXT) ==> r == Some(Bool(false)) && Rest() == old(Rest())[5..] && i > old(i)
      ensures StartsWith(old(Rest()), NULL_TEXT) ==> r == Some(Null) && Rest() == old(Rest())[4..] && i > old(i)
      ensures r.Some? ==>
                || StartsWith(old(Rest()), TRUE_TEXT) || StartsWith(old(Rest()), FALSE_TEXT)
                || StartsWith(old(Rest()), NULL_TEXT)
    {
      var t := s[i..];
      assert StartsWith(t, TRUE_TEXT) ==> t[0] == t[..4][0];
      assert StartsWith(t, FALSE_TEXT) ==> t[0] == t[..5][0];
      assert StartsWith(t, NULL_TEXT) ==> t[0] == t[..4][0];
      if StartsWith(t, TRUE_TEXT) {
        i := i + 4;
        r := Some(Bool(true));
      } else if StartsWith(t, FALSE_TEXT) {
        i := i + 5;
        r := Some(Bool(false));
      } else if StartsWith(t, NULL_TEXT) {
        i := i + 4;
        r := Some(Null);
      } else {
        r := None;
      }
    }

    /** White space and then one value. */
    method ReadValue() returns (r: Option<Json>)
      requires Valid()
      modifies this
      ensures Valid() && i >= old(i)
      ensures match ParseValue(p, SkipWs(old(Rest())))
              case Rejected => r == None
              case Got(c, rest) => r == Some(Value(c)) && Rest() == rest && i > old(i)
      decreases |s| - i, 1
    {
      hide ParseObject, ParseArray, ParseString, ParseNumber, SkipWs;
      SkipWhiteSpace();
      if i >= |s| { return None; }
      assert s[i..][1..] == s[i + 1..];
      var unit := s[i];
      if unit == LBRACE {
        r := ReadObject();
      } else if unit == LBRACKET {
        r := ReadArray();
      } else if unit == QUOTE {
        var text := String();
        r := if text.Some? then Some(Str(text.value)) else None;
      } else if unit == MINUS || IsDigit(unit) {
        var number := Number();
        r := if number.Some? then Some(Numeral(number.value)) else None;
      } else {
        r := Literal();
      }
    }

    method ReadArray() returns (r: Option<Json>)
      requires Valid() && i < |s|
      modifies this
      ensures Valid() && i >= old(i)
      ensures match ParseArray(p, old(s[i + 1..]))
              case Rejected => r == None
              case Got(c, rest) => r == Some(Value(c)) && Rest() == rest && i > old(i)
      decreases |s| - i, 0
    {
      hide ParseItems, ParseValue, ItemValues, Formed, FormedItems, Policy, PolicyItems, SkipWs;
      i := i + 1;
      ghost var start := Rest();
      SkipWhiteSpace();
      NothingToRead(p, start);
      if i >= |s| { return None; }
      assert s[i..][1..] == s[i + 1..];
      if s[i] == RBRACKET {
        i := i + 1;
        return Some(Arr([]));
      }
      var arr: seq<Json> := [];
      ItemsAfterSkip(p, start);
      ElementsFromNothing(p, ParseItems(p, start));
      while true
        invariant Valid() && i > old(i)
        invariant Elements([], ParseItems(p, start)) == Elements(arr, ParseItems(p, Rest()))
        decreases |s| - i
      {
        var v, last := NextItem(arr);
        if v.None? { return None; }
        arr := arr + [v.value];
        if last { return Some(Arr(arr)); }
      }
    }

    /** One element and the comma or bracket after it. */
    method NextItem(ghost arr: seq<Json>) returns (v: Option<Json>, last: bool)
      requires Valid()
      modifies this
      ensures Valid() && i >= old(i) && (v.Some? ==> i > old(i))
      ensures Elements(arr, ParseItems(p, old(Rest())))
           == if v.None? then Rejected
              else if last then Got(arr + [v.value], Rest())
              else Elements(arr + [v.value], ParseItems(p, Rest()))
      decreases |s| - i, 2
    {
      hide ParseItems, ParseValue, ItemValues, Value, Formed, FormedItems, Policy, PolicyItems, SkipWs;
      ItemsStep(p, arr, Rest());
      last := false;
      v := ReadValue();
      if v.None? { return; }
      SkipWhiteSpace();
      if i >= |s| { return None, false; }
      assert s[i..][1..] == s[i + 1..];
      var unit := s[i];
      i := i + 1;
      last := unit == RBRACKET;
      if !last && unit != COMMA { v := None; }
    }

    /** A key that is not seen yet, and its colon. */
    method Key(seen: set<JsString>) returns (r: Option<JsString>)
      requires Valid()
      modifies this
      ensures Valid() && i >= old(i)
      ensures match ParseKey(old(Rest()))
              case Rejected => r == None
              case Got(key, rest) =>
                if SemanticKey(p, key) in seen then r == None
                else r == Some(PiecesValue(key.pieces)) && SkipWs(Rest()) == rest && i > old(i)
    {
      hide ParseKey, ParseString, SkipWs, PiecesValue, FormedKey, FormedPieces, PairedPieces, AllWs;
      KeyCases(Rest());
      SkipWhiteSpace();
      if i >= |s| || s[i] != QUOTE { return None; }
      assert s[i..][1..] == s[i + 1..];
      var key := String();
      if key.None? || p.nfc(key.value) in seen { return None; }
      SkipWhiteSpace();
      if i >= |s| || s[i] != COLON { return None; }
      assert s[i..][1..] == s[i + 1..];
      i := i + 1;
      return key;
    }

    method ReadObject() returns (r: Option<Json>)
      requires Valid() && i < |s|
      modifies this
      ensures Valid() && i >= old(i)
      ensures match ParseObject(p, old(s[i + 1..]))
              case Rejected => r == None
              case Got(c, rest) => r == Some(Value(c)) && Rest() == rest && i > old(i)
      decreases |s| - i, 0
    {
      hide ParseMembers, ParseValue, MemberValues, Formed, FormedMembers, Policy, PolicyMembers, SkipWs;
      i := i + 1;
      ghost var start := Rest();
      SkipWhiteSpace();
      NothingToRead(p, start);
      if i >= |s| { return None; }
      assert s[i..][1..] == s[i + 1..];
      if s[i] == RBRACE {
        i := i + 1;
        return Some(Obj([]));
      }
      var obj: seq<Named<Json>> := [];
      var seen: set<JsString> := {};
      MembersAfterSkip(p, start);
      FieldsFromNothing(p, ParseMembers(p, start, {}));
      while true
        invariant Valid() && i > old(i)
        invariant Fields([], ParseMembers(p, start, {})) == Fields(obj, ParseMembers(p, Rest(), seen))
        decreases |s| - i
      {
        var field, last := NextMember(obj, seen);
        if field.None? { return None; }
        seen := seen + {p.nfc(field.value.name)};
        obj := obj + Assign(field.value.name, field.value.value);
        if last { return Some(Obj(obj)); }
      }
    }

    /** One member and the comma or brace after it. */
    method NextMember(ghost obj: seq<Named<Json>>, seen: set<JsString>)
      returns (field: Option<Named<Json>>, last: bool)
      requires Valid()
      modifies this
      ensures Valid() && i >= old(i) && (field.Some? ==> i > old(i) && p.nfc(field.value.name) !in seen)
      ensures Fields(obj, ParseMembers(p, old(Rest()), seen))
           == if field.None? then Rejected
              else
                var obj', seen' := obj + Assign(field.value.name, field.value.value), seen + {p.nfc(field.value.name)};
                if last then Got(obj', Rest()) else Fields(obj', ParseMembers(p, Rest(), seen'))
      decreases |s| - i, 2
    {
      hide ParseMembers, ParseValue, ParseKey, MemberValues, Value, Formed, FormedMembers, Policy, PolicyMembers, SkipWs, PiecesValue;
      MembersStep(p, obj, seen, Rest());
      last, field := false, None;
      var key := Key(seen);
      if key.None? { return; }
      var v := ReadValue();
      if v.None? { return; }
      SkipWhiteSpace();
      if i >= |s| { return; }
      assert s[i..][1..] == s[i + 1..];
      var unit := s[i];
      i := i + 1;
      last := unit == RBRACE;
      if last || unit == COMMA { field := Some(Named(key.value, v.value)); }
    }
  }

  /** The whole text through one parser object. */
  method ParseStrictJsonText(p: Platform, text: JsString) returns (r: Option<Json>)
    ensures r == ParseText(p, text)
  {
    var parser := new StrictParser(p, text);
    r := parser.ReadValue();
    if r.None? { return; }
    parser.SkipWhiteSpace();
    if parser.i < |text| { r := None; }
  }
}
