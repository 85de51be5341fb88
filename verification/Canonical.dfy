/**
 * The canonicalizer of src/lib/canonical.ts as receipts use it (no set or path fields), beside what it is meant to
 * print: the normal form of a value. None stands for a thrown CanonicalizationError.
 */
module Canonical {
  import opened Wrappers
  import opened JsStrings
  import opened JsonGrammar
  import Sorting

  type Nfc = JsString -> JsString

  /** A JavaScript value. JNumber is an integral double; JUnencodable is every other thing that is refused. */
  datatype JsValue =
    | JNull
    | JUndefined
    | JUnencodable
    | JBool(b: bool)
    | JNumber(n: int)
    | JBigInt(n: int)
    | JString(s: JsString)
    | JArray(items: seq<JsValue>)
    | JObject(fields: seq<Named<JsValue>>)

  // ---------- Strings ----------

  predicate IsControl(u: CodeUnit) {
    u <= 0x1F || u == 0x7F
  }

  predicate HasControl(s: JsString) {
    exists i :: 0 <= i < |s| && IsControl(s[i])
  }

  method HasControlChar(s: JsString) returns (r: bool)
    ensures r == HasControl(s)
  {
    for i := 0 to |s|
      invariant forall k :: 0 <= k < i ==> !IsControl(s[k])
    {
      if IsControl(s[i]) { return true; }
    }
    return false;
  }

  function HexDigit(v: nat): (u: CodeUnit)
    requires v < 16
    ensures IsHexDigit(u) && HexValue(u) == v && !(0x41 <= u <= 0x46)
  {
    if v < 10 then 0x30 + v as CodeUnit else 0x57 + v as CodeUnit
  }

  /** Four lower-case hexadecimal digits. */
  function HexOf(u: CodeUnit): (d: JsString)
    ensures FourHex(d) && HexUnit(d) == u && forall i :: 0 <= i < 4 ==> !(0x41 <= d[i] <= 0x46)
  {
    var n := u as nat;
    var below := n % 0x1000;
    var last := below % 0x100;
    [HexDigit(n / 0x1000), HexDigit(below / 0x100), HexDigit(last / 0x10), HexDigit(last % 0x10)]
  }

  /** How JSON.stringify writes a unit that is not half of a surrogate pair. */
  function QuotedUnit(u: CodeUnit): (piece: Piece)
    ensures FormedPiece(piece) && !piece.HexPair? && PieceValue(piece) == [u]
    ensures HexIn(piece, IsHigh) <==> IsHigh(u)
    ensures HexIn(piece, IsLow) <==> IsLow(u)
    ensures piece.Raw? <==> u >= 0x20 && u != QUOTE && u != BACKSLASH && !IsHigh(u) && !IsLow(u)
    ensures piece.Escape? <==> u in {QUOTE, BACKSLASH, 0x08, 0x09, 0x0A, 0x0C, 0x0D}
  {
    if u == QUOTE || u == BACKSLASH then Escape(u)
    else if u == 0x08 then Escape(0x62)
    else if u == 0x09 then Escape(0x74)
    else if u == 0x0A then Escape(0x6E)
    else if u == 0x0C then Escape(0x66)
    else if u == 0x0D then Escape(0x72)
    else if u < 0x20 || IsHigh(u) || IsLow(u) then Hex(HexOf(u))
    else Raw(u)
  }

  /** The body of JSON.stringify's quotation: pairs as they are, lone surrogates escaped. */
  function Quoted(s: JsString): seq<Piece>
    decreases |s|
  {
    if s == [] then []
    else if |s| > 1 && IsHigh(s[0]) && IsLow(s[1]) then [Raw(s[0]), Raw(s[1])] + Quoted(s[2..])
    else [QuotedUnit(s[0])] + Quoted(s[1..])
  }

  function Stringify(s: JsString): JsString {
    RenderString(Quoted(s), [])
  }

  // ---------- Numbers ----------

  function Digits(n: nat): (d: JsString)
    ensures AllDigits(d) && d != [] && (d[0] == ZERO ==> |d| == 1)
    ensures Decimal(d) == n && (d[0] == ZERO ==> n == 0)
  {
    var last := [(0x30 + n % 10) as CodeUnit];
    if n < 10 then
      assert last[..0] == [];
      last
    else
      var high := Digits(n / 10);
      assert (high + last)[..|high + last| - 1] == high;
      high + last
  }

  /** The decimal text of an integer. */
  function IntText(n: int): JsString {
    if n < 0 then [MINUS] + Digits(-n) else Digits(n)
  }

  // ---------- Objects ----------

  predicate ByName<T>(a: Named<T>, b: Named<T>) {
    Less(a.name, b.name)
  }

  /** Entries in the code-point order of their names. */
  function Sort<T>(s: seq<Named<T>>): seq<Named<T>> {
    Sorting.Sort(ByName, s)
  }

  predicate DistinctNames<T>(s: seq<Named<T>>) {
    forall i, j :: 0 <= i < j < |s| ==> s[i].name != s[j].name
  }

  // ---------- The canonical text ----------

  /** The parts with commas between them, then the text t. */
  function Joined(parts: seq<JsString>, t: JsString): JsString {
    if parts == [] then t
    else if |parts| == 1 then parts[0] + t
    else parts[0] + ([COMMA] + Joined(parts[1..], t))
  }

  function EntryText(e: Named<JsString>): JsString {
    Stringify(e.name) + ([COLON] + e.value)
  }

  function EntryTexts(entries: seq<Named<JsString>>): seq<JsString> {
    seq(|entries|, i requires 0 <= i < |entries| => EntryText(entries[i]))
  }

  function Canon(nfc: Nfc, v: JsValue): Option<JsString>
    decreases v
  {
    match v
    case JNull => Some(NULL_TEXT)
    case JBool(b) => Some(if b then TRUE_TEXT else FALSE_TEXT)
    case JNumber(n) => if -MAX_SAFE <= n <= MAX_SAFE then Some(IntText(n)) else None
    case JBigInt(n) => Some(IntText(n))
    case JString(s) => if HasControl(s) then None else Some(Stringify(nfc(s)))
    case JArray(items) =>
      (match CanonItems(nfc, items)
       case None => None
       case Some(parts) => Some([LBRACKET] + Joined(parts, [RBRACKET])))
    case JObject(fields) =>
      (match CanonFields(nfc, fields)
       case None => None
       case Some(entries) =>
         var sorted := Sort(entries);
         if DistinctNames(sorted) then Some([LBRACE] + Joined(EntryTexts(sorted), [RBRACE])) else None)
    case _ => None
  }

  function CanonItems(nfc: Nfc, items: seq<JsValue>): Option<seq<JsString>>
    decreases items
  {
    if items == [] then Some([])
    else
      match (Canon(nfc, items[0]), CanonItems(nfc, items[1..]))
      case (Some(text), Some(rest)) => Some([text] + rest)
      case _ => None
  }

  /** Each defined field under its NFC name, with its text. */
  function CanonFields(nfc: Nfc, fields: seq<Named<JsValue>>): Option<seq<Named<JsString>>>
    decreases fields
  {
    if fields == [] then Some([])
    else if fields[0].value.JUndefined? then CanonFields(nfc, fields[1..])
    else if HasControl(fields[0].name) then None
    else
      match (Canon(nfc, fields[0].value), CanonFields(nfc, fields[1..]))
      case (Some(text), Some(rest)) => Some([Named(nfc(fields[0].name), text)] + rest)
      case _ => None
  }

  /** The loop over the sorted names that refuses one it has seen and joins the rest. */
  method ObjectText(sorted: seq<Named<JsString>>) returns (r: Option<JsString>)
    ensures r == if DistinctNames(sorted) then Some([LBRACE] + Joined(EntryTexts(sorted), [RBRACE])) else None
  {
    var seen: set<JsString> := {};
    var parts: seq<JsString> := [];
    for i := 0 to |sorted|
      invariant parts == EntryTexts(sorted[..i]) && DistinctNames(sorted[..i])
      invariant seen == set k | 0 <= k < i :: sorted[k].name
    {
      if sorted[i].name in seen {
        return None;
      }
      seen := seen + {sorted[i].name};
      parts := parts + [EntryText(sorted[i])];
    }
    assert sorted[..|sorted|] == sorted;
    return Some([LBRACE] + Joined(parts, [RBRACE]));
  }

  // ---------- What the text stands for ----------

  /** The value a canonical text is of: strings and names in NFC, undefined fields gone, names in order. */
  function Normal(nfc: Nfc, v: JsValue): Option<Json>
    decreases v
  {
    match v
    case JNull => Some(Null)
    case JBool(b) => Some(Bool(b))
    case JNumber(n) => if -MAX_SAFE <= n <= MAX_SAFE then Some(Numeral(Int(n))) else None
    case JBigInt(n) => Some(Numeral(Int(n)))
    case JString(s) => if HasControl(s) then None else Some(Str(nfc(s)))
    case JArray(items) =>
      (match NormalItems(nfc, items)
       case None => None
       case Some(values) => Some(Arr(values)))
    case JObject(fields) =>
      (match NormalFields(nfc, fields)
       case None => None
       case Some(entries) => if DistinctNames(entries) then Some(Obj(Sort(entries))) else None)
    case _ => None
  }

  function NormalItems(nfc: Nfc, items: seq<JsValue>): Option<seq<Json>>
    decreases items
  {
    if items == [] then Some([])
    else
      match (Normal(nfc, items[0]), NormalItems(nfc, items[1..]))
      case (Some(value), Some(rest)) => Some([value] + rest)
      case _ => None
  }

  function NormalFields(nfc: Nfc, fields: seq<Named<JsValue>>): Option<seq<Named<Json>>>
    decreases fields
  {
    if fields == [] then Some([])
    else if fields[0].value.JUndefined? then NormalFields(nfc, fields[1..])
    else if HasControl(fields[0].name) then None
    else
      match (Normal(nfc, fields[0].value), NormalFields(nfc, fields[1..]))
      case (Some(value), Some(rest)) => Some([Named(nfc(fields[0].name), value)] + rest)
      case _ => None
  }
}
