/** What an accepted value can hold, and where the numeric policy of the strict parser parts from its statement. */
module JsonValues {
  import opened Wrappers
  import opened JsStrings
  import opened JsonGrammar
  import opened StrictParsing
  import opened JsonExact

  predicate SafeNumber(n: Number) {
    n.Int? ==> -MAX_SAFE <= n.n <= MAX_SAFE
  }

  predicate DistinctKeys(nfc: JsString -> JsString, fields: seq<Named<Json>>) {
    forall i, j :: 0 <= i < j < |fields| ==> nfc(fields[i].name) != nfc(fields[j].name)
  }

  /** At every depth: no two NFC-equal keys in an object, and no integer outside the safe range. */
  predicate Clean(nfc: JsString -> JsString, v: Json) {
    match v
    case Numeral(n) => SafeNumber(n)
    case Arr(items) => forall i :: 0 <= i < |items| ==> Clean(nfc, items[i])
    case Obj(fields) => DistinctKeys(nfc, fields) && forall i :: 0 <= i < |fields| ==> Clean(nfc, fields[i].value)
    case _ => true
  }

  lemma {:induction false} TreeIsClean(p: Platform, c: Cst)
    requires Formed(c) && Policy(p, c)
    ensures Clean(p.nfc, Value(c))
    decreases c
  {
    match c
    case CArray(_, items) => ItemsAreClean(p, items);
    case CObject(_, members) => MembersAreClean(p, members, {});
    case _ =>
  }

  lemma {:induction false} ItemsAreClean(p: Platform, items: CItems)
    requires FormedItems(items) && PolicyItems(p, items)
    ensures forall i :: 0 <= i < |ItemValues(items)| ==> Clean(p.nfc, ItemValues(items)[i])
    decreases items
  {
    if items.Item? {
      TreeIsClean(p, items.v);
      ItemsAreClean(p, items.rest);
    }
  }

  lemma {:induction false} MembersAreClean(p: Platform, m: CMembers, seen: set<JsString>)
    requires FormedMembers(m) && PolicyMembers(p, m, seen)
    ensures var fields := MemberValues(m);
            && DistinctKeys(p.nfc, fields)
            && (forall i :: 0 <= i < |fields| ==> p.nfc(fields[i].name) !in seen && Clean(p.nfc, fields[i].value))
    decreases m
  {
    if m.Member? {
      TreeIsClean(p, m.head.v);
      MembersAreClean(p, m.rest, seen + {MemberKey(p, m.head)});
    }
  }

  /** Whatever the parser accepts is clean. */
  lemma AcceptedValuesAreClean(p: Platform, text: JsString)
    ensures ParseText(p, text).Some? ==> Clean(p.nfc, ParseText(p, text).value)
  {
    if ParseText(p, text).Some? {
      TreeIsClean(p, ParseValue(p, SkipWs(text)).v);
    }
  }

  // ---------- The numeric policy ----------

  /** The digits that make a literal nonzero, whatever its exponent. */
  function Mantissa(n: Num): JsString {
    n.whole + match n.fraction case None => [] case Some(digits) => digits
  }

  /** A double denotes zero when its mantissa does; zero does not overflow. */
  ghost predicate RoundsZeroToZero(p: Platform) {
    forall n :: ValidNum(n) && !HasNonzeroDigit(Mantissa(n)) ==> p.isZero(n) && !p.overflows(n)
  }

  /** The stated policy: safe integers; nothing that overflows; no nonzero literal that underflows to zero. */
  predicate StatedPolicy(p: Platform, n: Num) {
    && ValidNum(n)
    && (if IsIntegral(n) then -MAX_SAFE <= IntegralValue(n) <= MAX_SAFE
        else !p.overflows(n) && !(p.isZero(n) && HasNonzeroDigit(Mantissa(n))))
  }

  lemma NonzeroIn(a: JsString, b: JsString)
    ensures HasNonzeroDigit(a + b) <==> HasNonzeroDigit(a) || HasNonzeroDigit(b)
  {
    if i :| 0 <= i < |a| && 0x31 <= a[i] <= 0x39 {
      assert (a + b)[i] == a[i];
    }
    if i :| 0 <= i < |b| && 0x31 <= b[i] <= 0x39 {
      assert (a + b)[|a| + i] == b[i];
    }
  }

  function ExponentDigits(n: Num): JsString {
    match n.exponent case NoExponent => [] case Exponent(_, _, digits) => digits
  }

  lemma NonzeroInLiteral(n: Num)
    requires ValidNum(n)
    ensures HasNonzeroDigit(RenderNum(n, [])) <==> HasNonzeroDigit(Mantissa(n)) || HasNonzeroDigit(ExponentDigits(n))
  {
    hide HasNonzeroDigit;
    var e := RenderExponent(n.exponent, []);
    assert HasNonzeroDigit(e) <==> HasNonzeroDigit(ExponentDigits(n)) by {
      if n.exponent.Exponent? {
        NoNonzero(n.exponent.sign, [n.exponent.mark]);
        NoNonzero([], []);
        NonzeroIn(n.exponent.digits, []);
        NonzeroIn(n.exponent.sign, n.exponent.digits + []);
        NonzeroIn([n.exponent.mark], n.exponent.sign + (n.exponent.digits + []));
      }
    }
    var f := RenderFraction(n.fraction, e);
    if n.fraction.Some? {
      NoNonzero([], [DOT]);
      NonzeroIn(n.fraction.value, e);
      NonzeroIn([DOT], n.fraction.value + e);
      NonzeroIn(n.whole, n.fraction.value);
    } else {
      NoNonzero([], []);
      NonzeroIn(n.whole, []);
    }
    NoNonzero([], SignText(n.negative));
    NonzeroIn(n.whole, f);
    NonzeroIn(SignText(n.negative), n.whole + f);
  }

  lemma NoNonzero(sign: JsString, mark: JsString)
    requires sign in {[], [PLUS], [MINUS]} && mark in {[], [DOT], [MINUS], [0x45], [0x65]}
    ensures !HasNonzeroDigit(sign) && !HasNonzeroDigit(mark)
  {
  }

  /** The code keeps the stated policy except on zeros whose exponent has a nonzero digit, which it refuses. */
  lemma NumericPolicyExact(p: Platform, n: Num)
    requires RoundsZeroToZero(p) && ValidNum(n)
    ensures AcceptedNum(p, n) == StatedPolicy(p, n)
       <==> HasNonzeroDigit(Mantissa(n)) || !HasNonzeroDigit(ExponentDigits(n))
  {
    NonzeroInLiteral(n);
  }

  /** A text that is one literal is accepted exactly when its literal is. */
  lemma LiteralText(p: Platform, n: Num)
    requires ValidNum(n)
    ensures ParseText(p, RenderNum(n, [])).Some? <==> AcceptedNum(p, n)
  {
    hide AcceptedNum, NumberToken, RenderFraction, RenderExponent, Value;
    var text := RenderNum(n, []);
    NumberTokenComplete(n, []);
    assert text[0] == if n.negative then MINUS else n.whole[0];
    assert SkipWs(text) == text;
  }

  /** The literal 0e5 is zero, and refused. */
  lemma ZeroWithExponentIsRefused(p: Platform)
    requires RoundsZeroToZero(p)
    ensures var n := Num(false, [ZERO], None, Exponent(0x65, [], [0x35]));
            StatedPolicy(p, n) && RenderNum(n, []) == [ZERO, 0x65, 0x35] && ParseText(p, RenderNum(n, [])).None?
  {
    hide ParseText;
    var n := Num(false, [ZERO], None, Exponent(0x65, [], [0x35]));
    assert HasNonzeroDigit(ExponentDigits(n)) by { assert ExponentDigits(n)[0] == 0x35; }
    NumericPolicyExact(p, n);
    LiteralText(p, n);
  }

  // ---------- The fixed parts of the grammar ----------

  /** The two-character escapes, as section 7 of RFC 8259 lists them. */
  lemma EscapesAreThese(e: CodeUnit)
    ensures Unescape(e) ==
            match e
            case 0x22 => Some(0x22)  // quotation mark
            case 0x5C => Some(0x5C)  // reverse solidus
            case 0x2F => Some(0x2F)  // solidus
            case 0x62 => Some(0x08)  // b, backspace
            case 0x66 => Some(0x0C)  // f, form feed
            case 0x6E => Some(0x0A)  // n, line feed
            case 0x72 => Some(0x0D)  // r, carriage return
            case 0x74 => Some(0x09)  // t, tab
            case _ => None
  {
  }

  /** Four hexadecimal digits, the most significant first, in either case. */
  lemma HexIsPositional(d: JsString)
    requires FourHex(d)
    ensures HexUnit(d) as int == ((HexValue(d[0]) * 16 + HexValue(d[1])) * 16 + HexValue(d[2])) * 16 + HexValue(d[3])
    ensures forall i :: 0 <= i < 4 ==>
              HexValue(d[i]) == (d[i] as int - if d[i] <= 0x39 then 0x30 else if d[i] <= 0x46 then 0x41 - 10 else 0x61 - 10)
  {
  }

  /** White space is space, tab, line feed and carriage return; hexadecimal digits come in both cases. */
  lemma CharactersAreThese(u: CodeUnit)
    ensures IsWs(u) <==> u in {0x20, 0x09, 0x0A, 0x0D}
    ensures IsHexDigit(u) <==> 0x30 <= u <= 0x39 || 0x41 <= u <= 0x46 || 0x61 <= u <= 0x66
  {
  }

  /** The names of the members, in NFC. */
  function KeysOf(p: Platform, m: CMembers): seq<JsString>
    requires FormedMembers(m)
  {
    if m.NoMembers? then []
    else
      assert FormedMember(m.head);
      [p.nfc(PiecesValue(m.head.key.pieces))] + KeysOf(p, m.rest)
  }

  predicate EachMemberKeepsPolicy(p: Platform, m: CMembers)
    requires FormedMembers(m)
  {
    m.Member? ==>
      assert FormedMember(m.head);
      PairedPieces(m.head.key.pieces) && Policy(p, m.head.v) && EachMemberKeepsPolicy(p, m.rest)
  }

  predicate AllDistinct(keys: seq<JsString>) {
    forall i, j :: 0 <= i < j < |keys| ==> keys[i] != keys[j]
  }

  predicate NoneIn(keys: seq<JsString>, seen: set<JsString>) {
    forall i :: 0 <= i < |keys| ==> keys[i] !in seen
  }

  lemma OneMoreKey(key: JsString, keys: seq<JsString>, seen: set<JsString>)
    ensures AllDistinct([key] + keys) && NoneIn([key] + keys, seen) <==>
              key !in seen && AllDistinct(keys) && NoneIn(keys, seen + {key})
  {
    var all := [key] + keys;
    assert all[0] == key;
    assert forall i :: 0 <= i < |keys| ==> keys[i] == all[i + 1];
    if AllDistinct(all) && NoneIn(all, seen) {
      forall i | 0 <= i < |keys| ensures keys[i] != key {
        assert all[0] != all[i + 1];
      }
    } else {
      assert forall i :: 0 < i < |all| ==> all[i] == keys[i - 1];
    }
  }

  lemma MembersUnfold(p: Platform, m: CMembers, seen: set<JsString>)
    requires FormedMembers(m) && m.Member?
    ensures FormedMember(m.head) && KeysOf(p, m) == [MemberKey(p, m.head)] + KeysOf(p, m.rest)
    ensures EachMemberKeepsPolicy(p, m) <==> PolicyMember(p, m.head) && EachMemberKeepsPolicy(p, m.rest)
    ensures PolicyMembers(p, m, seen) <==>
              PolicyMember(p, m.head) && MemberKey(p, m.head) !in seen && PolicyMembers(p, m.rest, seen + {MemberKey(p, m.head)})
  {
  }

  lemma {:induction false} MembersKeepPolicy(p: Platform, m: CMembers, seen: set<JsString>)
    requires FormedMembers(m)
    ensures PolicyMembers(p, m, seen) <==>
              EachMemberKeepsPolicy(p, m) && AllDistinct(KeysOf(p, m)) && NoneIn(KeysOf(p, m), seen)
    decreases m
  {
    if m.Member? {
      MembersUnfold(p, m, seen);
      hide PolicyMembers, EachMemberKeepsPolicy, KeysOf, PolicyMember, MemberKey, AllDistinct, NoneIn;
      MembersKeepPolicy(p, m.rest, seen + {MemberKey(p, m.head)});
      OneMoreKey(MemberKey(p, m.head), KeysOf(p, m.rest), seen);
    }
  }

  /** An object keeps the policy exactly when its members do and no two of their names are equal in NFC. */
  lemma ObjectKeepsPolicy(p: Platform, inner: JsString, m: CMembers)
    requires Formed(CObject(inner, m))
    ensures Policy(p, CObject(inner, m)) <==>
              EachMemberKeepsPolicy(p, m) && AllDistinct(KeysOf(p, m))
  {
    MembersKeepPolicy(p, m, {});
  }
}
