/**
 * The JSON grammar (sections 2 to 7 of RFC 8259) as concrete syntax trees: what a tree looks like as text, what it
 * means as a value, and which trees the strict reader of scripts/backup/strict-json.ts is meant to accept.
 */
module JsonGrammar {
  import opened Wrappers
  import opened JsStrings

  // ---------- Values ----------

  /** Integers are exact; any other number is the double its literal denotes. */
  datatype Number = Int(n: int) | Double(literal: Num)

  datatype Json =
    | Null
    | Bool(b: bool)
    | Numeral(number: Number)
    | Str(s: JsString)
    | Arr(items: seq<Json>)
    | Obj(fields: seq<Named<Json>>)

  /** A property: a name and what it holds. */
  datatype Named<+T> = Named(name: JsString, value: T)

  /** What the model leaves to the platform: NFC, and how a literal rounds to a double. */
  datatype Platform = Platform(nfc: JsString -> JsString, overflows: Num -> bool, isZero: Num -> bool)

  // ---------- Numbers ----------

  datatype Exponent = NoExponent | Exponent(mark: CodeUnit, sign: JsString, digits: JsString)

  datatype Num = Num(negative: bool, whole: JsString, fraction: Option<JsString>, exponent: Exponent)

  predicate ValidNum(n: Num) {
    && n.whole != [] && AllDigits(n.whole) && (n.whole[0] == ZERO ==> |n.whole| == 1)
    && (n.fraction.Some? ==> n.fraction.value != [] && AllDigits(n.fraction.value))
    && (n.exponent.Exponent? ==>
          && n.exponent.mark in {0x45, 0x65} && n.exponent.sign in {[], [PLUS], [MINUS]}
          && n.exponent.digits != [] && AllDigits(n.exponent.digits))
  }

  // Every Render function writes its argument in front of the text t that follows it.

  function RenderFraction(fraction: Option<JsString>, t: JsString): JsString {
    match fraction case None => t case Some(digits) => [DOT] + (digits + t)
  }

  function RenderExponent(e: Exponent, t: JsString): JsString {
    match e case NoExponent => t case Exponent(mark, sign, digits) => [mark] + (sign + (digits + t))
  }

  function SignText(negative: bool): JsString {
    if negative then [MINUS] else []
  }

  function RenderNum(n: Num, t: JsString): JsString {
    SignText(n.negative) + (n.whole + RenderFraction(n.fraction, RenderExponent(n.exponent, t)))
  }

  function Decimal(digits: JsString): nat
    requires AllDigits(digits)
  {
    if digits == [] then 0 else Decimal(digits[..|digits| - 1]) * 10 + (digits[|digits| - 1] - 0x30) as nat
  }

  const MAX_SAFE := 0x1F_FFFF_FFFF_FFFF

  predicate IsIntegral(n: Num) {
    n.fraction.None? && n.exponent.NoExponent?
  }

  function IntegralValue(n: Num): int
    requires ValidNum(n)
  {
    var magnitude: int := Decimal(n.whole);
    if n.negative then -magnitude else magnitude
  }

  predicate HasNonzeroDigit(s: JsString) {
    exists i :: 0 <= i < |s| && 0x31 <= s[i] <= 0x39
  }

  /** The numeric policy: safe integers; no overflow; no literal with a nonzero digit that denotes zero. */
  predicate AcceptedNum(p: Platform, n: Num) {
    && ValidNum(n)
    && (if IsIntegral(n) then -MAX_SAFE <= IntegralValue(n) <= MAX_SAFE
        else !p.overflows(n) && !(p.isZero(n) && HasNonzeroDigit(RenderNum(n, []))))
  }

  function NumValue(n: Num): Number
    requires ValidNum(n)
  {
    if IsIntegral(n) then Int(IntegralValue(n)) else Double(n)
  }

  // ---------- Strings ----------

  datatype Piece = Raw(u: CodeUnit) | Escape(e: CodeUnit) | Hex(digits: JsString) | HexPair(high: JsString, low: JsString)

  predicate FourHex(d: JsString) {
    |d| == 4 && IsHexDigit(d[0]) && IsHexDigit(d[1]) && IsHexDigit(d[2]) && IsHexDigit(d[3])
  }

  function HexUnit(d: JsString): CodeUnit
    requires FourHex(d)
  {
    (HexValue(d[0]) * 0x1000 + HexValue(d[1]) * 0x100 + HexValue(d[2]) * 0x10 + HexValue(d[3])) as CodeUnit
  }

  /** The unit a two-character escape stands for, if it is one. */
  function Unescape(e: CodeUnit): Option<CodeUnit> {
    if e == QUOTE || e == BACKSLASH || e == SLASH then Some(e)
    else if e == 0x62 then Some(0x08)
    else if e == 0x66 then Some(0x0C)
    else if e == 0x6E then Some(0x0A)
    else if e == 0x72 then Some(0x0D)
    else if e == 0x74 then Some(0x09)
    else None
  }

  /** The grammar of one piece. */
  predicate FormedPiece(piece: Piece) {
    match piece
    case Raw(u) => u != QUOTE && u != BACKSLASH && u >= 0x20
    case Escape(e) => Unescape(e).Some?
    case Hex(d) => FourHex(d)
    case HexPair(h, l) => FourHex(h) && FourHex(l) && IsHigh(HexUnit(h)) && IsLow(HexUnit(l))
  }

  predicate HexIn(piece: Piece, range: CodeUnit -> bool) {
    piece.Hex? && FourHex(piece.digits) && range(HexUnit(piece.digits))
  }

  /** The pieces are well formed, and an escaped pair is one piece. */
  predicate FormedPieces(pieces: seq<Piece>) {
    && (forall i :: 0 <= i < |pieces| ==> FormedPiece(pieces[i]))
    && (forall i :: 0 < i < |pieces| ==> !(HexIn(pieces[i - 1], IsHigh) && HexIn(pieces[i], IsLow)))
  }

  /** A unit escaped on its own is not a surrogate. */
  predicate PairedPiece(piece: Piece) {
    !HexIn(piece, IsHigh) && !HexIn(piece, IsLow)
  }

  predicate PairedPieces(pieces: seq<Piece>) {
    forall i :: 0 <= i < |pieces| ==> PairedPiece(pieces[i])
  }

  function RenderPiece(piece: Piece, t: JsString): JsString {
    match piece
    case Raw(u) => [u] + t
    case Escape(e) => [BACKSLASH, e] + t
    case Hex(d) => [BACKSLASH, LOWER_U] + (d + t)
    case HexPair(h, l) => [BACKSLASH, LOWER_U] + (h + ([BACKSLASH, LOWER_U] + (l + t)))
  }

  function PieceValue(piece: Piece): JsString
    requires FormedPiece(piece)
  {
    match piece
    case Raw(u) => [u]
    case Escape(e) => [Unescape(e).value]
    case Hex(d) => [HexUnit(d)]
    case HexPair(h, l) => [HexUnit(h), HexUnit(l)]
  }

  function RenderPieces(pieces: seq<Piece>, t: JsString): JsString {
    if pieces == [] then t else RenderPiece(pieces[0], RenderPieces(pieces[1..], t))
  }

  function PiecesValue(pieces: seq<Piece>): JsString
    requires forall i :: 0 <= i < |pieces| ==> FormedPiece(pieces[i])
  {
    if pieces == [] then [] else PieceValue(pieces[0]) + PiecesValue(pieces[1..])
  }

  function RenderString(pieces: seq<Piece>, t: JsString): JsString {
    [QUOTE] + RenderPieces(pieces, [QUOTE] + t)
  }

  // ---------- Trees ----------

  datatype Cst =
    | CNull
    | CTrue
    | CFalse
    | CNumber(num: Num)
    | CString(pieces: seq<Piece>)
    | CArray(inner: JsString, items: CItems)
    | CObject(inner: JsString, members: CMembers)

  /** Elements separated by commas, each with the white space around it. */
  datatype CItems = NoItems | Item(before: JsString, v: Cst, after: JsString, rest: CItems)

  /** A key up to its value: the key's string, its colon, and the white space around both. */
  datatype CKey = CKey(before: JsString, pieces: seq<Piece>, after: JsString, gap: JsString)

  datatype CMember = CMember(key: CKey, v: Cst, after: JsString)

  datatype CMembers = NoMembers | Member(head: CMember, rest: CMembers)

  const NULL_TEXT: JsString := [0x6E, 0x75, 0x6C, 0x6C]
  const TRUE_TEXT: JsString := [0x74, 0x72, 0x75, 0x65]
  const FALSE_TEXT: JsString := [0x66, 0x61, 0x6C, 0x73, 0x65]

  function Render(c: Cst, t: JsString): JsString {
    match c
    case CNull => NULL_TEXT + t
    case CTrue => TRUE_TEXT + t
    case CFalse => FALSE_TEXT + t
    case CNumber(n) => RenderNum(n, t)
    case CString(pieces) => RenderString(pieces, t)
    case CArray(inner, items) => [LBRACKET] + (inner + if items.NoItems? then [RBRACKET] + t else RenderItems(items, t))
    case CObject(inner, m) => [LBRACE] + (inner + if m.NoMembers? then [RBRACE] + t else RenderMembers(m, t))
  }

  function RenderItems(items: CItems, t: JsString): JsString
    requires items.Item?
  {
    var rest := if items.rest.NoItems? then [RBRACKET] + t else [COMMA] + RenderItems(items.rest, t);
    items.before + Render(items.v, items.after + rest)
  }

  function RenderKey(k: CKey, t: JsString): JsString {
    k.before + RenderString(k.pieces, k.after + ([COLON] + (k.gap + t)))
  }

  function RenderMember(m: CMember, t: JsString): JsString {
    RenderKey(m.key, Render(m.v, m.after + t))
  }

  function RenderMembers(m: CMembers, t: JsString): JsString
    requires m.Member?
  {
    RenderMember(m.head, if m.rest.NoMembers? then [RBRACE] + t else [COMMA] + RenderMembers(m.rest, t))
  }

  // ---------- Well-formed trees and what they mean ----------

  predicate Formed(c: Cst) {
    match c
    case CNumber(n) => ValidNum(n)
    case CString(pieces) => FormedPieces(pieces)
    case CArray(inner, items) => AllWs(inner) && (items.Item? ==> inner == []) && FormedItems(items)
    case CObject(inner, members) => AllWs(inner) && (members.Member? ==> inner == []) && FormedMembers(members)
    case _ => true
  }

  predicate FormedItems(items: CItems) {
    items.Item? ==> AllWs(items.before) && Formed(items.v) && AllWs(items.after) && FormedItems(items.rest)
  }

  predicate FormedKey(k: CKey) {
    AllWs(k.before) && FormedPieces(k.pieces) && AllWs(k.after) && AllWs(k.gap)
  }

  predicate FormedMember(m: CMember) {
    FormedKey(m.key) && Formed(m.v) && AllWs(m.after)
  }

  predicate FormedMembers(m: CMembers) {
    m.Member? ==> FormedMember(m.head) && FormedMembers(m.rest)
  }

  /** The own property an assignment `obj[key] = value` makes on a plain object; `__proto__` makes none. */
  const PROTO_KEY: JsString := [0x5F, 0x5F, 0x70, 0x72, 0x6F, 0x74, 0x6F, 0x5F, 0x5F]

  function Assign(key: JsString, value: Json): seq<Named<Json>> {
    if key == PROTO_KEY then [] else [Named(key, value)]
  }

  function Value(c: Cst): Json
    requires Formed(c)
  {
    match c
    case CNull => Null
    case CTrue => Bool(true)
    case CFalse => Bool(false)
    case CNumber(n) => Numeral(NumValue(n))
    case CString(pieces) => Str(PiecesValue(pieces))
    case CArray(_, items) => Arr(ItemValues(items))
    case CObject(_, members) => Obj(MemberValues(members))
  }

  function ItemValues(items: CItems): seq<Json>
    requires FormedItems(items)
  {
    if items.NoItems? then [] else [Value(items.v)] + ItemValues(items.rest)
  }

  function Entry(m: CMember): seq<Named<Json>>
    requires FormedMember(m)
  {
    Assign(PiecesValue(m.key.pieces), Value(m.v))
  }

  function MemberValues(m: CMembers): seq<Named<Json>>
    requires FormedMembers(m)
  {
    if m.NoMembers? then [] else Entry(m.head) + MemberValues(m.rest)
  }

  // ---------- The strict language ----------

  /** The policy on top of the grammar: numbers, paired escapes, and no two NFC-equal keys in an object. */
  predicate Policy(p: Platform, c: Cst)
    requires Formed(c)
  {
    match c
    case CNumber(n) => AcceptedNum(p, n)
    case CString(pieces) => PairedPieces(pieces)
    case CArray(_, items) => PolicyItems(p, items)
    case CObject(_, members) => PolicyMembers(p, members, {})
    case _ => true
  }

  predicate PolicyItems(p: Platform, items: CItems)
    requires FormedItems(items)
  {
    items.Item? ==> Policy(p, items.v) && PolicyItems(p, items.rest)
  }

  /** What duplicate keys share: the NFC form of the decoded key. */
  function SemanticKey(p: Platform, k: CKey): JsString
    requires FormedKey(k)
  {
    p.nfc(PiecesValue(k.pieces))
  }

  function MemberKey(p: Platform, m: CMember): JsString
    requires FormedMember(m)
  {
    SemanticKey(p, m.key)
  }

  predicate PolicyMember(p: Platform, m: CMember)
    requires FormedMember(m)
  {
    PairedPieces(m.key.pieces) && Policy(p, m.v)
  }

  /** `seen` holds the NFC forms of the keys before these members. */
  predicate PolicyMembers(p: Platform, m: CMembers, seen: set<JsString>)
    requires FormedMembers(m)
  {
    m.Member? ==>
      && PolicyMember(p, m.head)
      && MemberKey(p, m.head) !in seen
      && PolicyMembers(p, m.rest, seen + {MemberKey(p, m.head)})
  }
}
