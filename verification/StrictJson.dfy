/**
 * The strict parser of scripts/backup/strict-json.ts. The functions read a suffix of the text and return the syntax
 * tree found at its start; the class walks an index over the whole text, as the original does, and is proved to compute
 * what the functions say. JsonExact then ties the functions to the grammar.
 */
module StrictParsing {
  import opened Wrappers
  import opened JsStrings
  import opened JsonGrammar

  /** What was read, and the text after it. */
  datatype Step<+T> = Rejected | Got(v: T, rest: JsString)

  // ---------- White space ----------

  function SkipWs(t: JsString): (r: JsString)
    ensures |r| <= |t|
    ensures r != [] ==> !IsWs(r[0])
  {
    if t != [] && IsWs(t[0]) then SkipWs(t[1..]) else t
  }

  /** The white space SkipWs drops. */
  function Lead(t: JsString): (w: JsString)
    ensures AllWs(w) && t == w + SkipWs(t)
  {
    if t != [] && IsWs(t[0]) then [t[0]] + Lead(t[1..]) else []
  }

  predicate StartsWith(t: JsString, word: JsString) {
    |word| <= |t| && t[..|word|] == word
  }

  // ---------- Numbers ----------

  function TakeDigits(t: JsString): (d: JsString)
    ensures AllDigits(d) && |d| <= |t| && t == d + t[|d|..]
    ensures t != [] && IsDigit(t[0]) ==> d != []
  {
    if t != [] && IsDigit(t[0]) then [t[0]] + TakeDigits(t[1..]) else []
  }

  function TakeSign(t: JsString): (r: (bool, JsString))
    ensures t == SignText(r.0) + r.1
  {
    if t != [] && t[0] == MINUS then (true, t[1..]) else (false, t)
  }

  function TakeWhole(t: JsString): (r: (JsString, JsString))
    ensures AllDigits(r.0) && (r.0 != [] && r.0[0] == ZERO ==> |r.0| == 1)
    ensures t == r.0 + r.1
  {
    if t != [] && t[0] == ZERO then ([ZERO], t[1..]) else (TakeDigits(t), t[|TakeDigits(t)|..])
  }

  function TakeFraction(t: JsString): (r: (Option<JsString>, JsString))
    ensures r.0.Some? ==> r.0.value != [] && AllDigits(r.0.value)
    ensures t == RenderFraction(r.0, r.1)
  {
    if |t| > 1 && t[0] == DOT && IsDigit(t[1]) then
      var digits := TakeDigits(t[1..]);
      (Some(digits), t[1..][|digits|..])
    else (None, t)
  }

  function TakeExponentSign(t: JsString): (r: (JsString, JsString))
    ensures r.0 in {[], [PLUS], [MINUS]} && t == r.0 + r.1
  {
    if t != [] && (t[0] == PLUS || t[0] == MINUS) then ([t[0]], t[1..]) else ([], t)
  }

  function TakeExponent(t: JsString): (r: (Exponent, JsString))
    ensures r.0.Exponent? ==> r.0.mark in {0x45, 0x65} && r.0.sign in {[], [PLUS], [MINUS]}
    ensures r.0.Exponent? ==> r.0.digits != [] && AllDigits(r.0.digits)
    ensures t == RenderExponent(r.0, r.1)
  {
    if t == [] || t[0] !in {0x45, 0x65} then (NoExponent, t)
    else
      var (sign, u) := TakeExponentSign(t[1..]);
      var digits := TakeDigits(u);
      if digits == [] then (NoExponent, t) else (Exponent(t[0], sign, digits), u[|digits|..])
  }

  /** The longest number at the start of t, as the regular expression NUMBER_TOKEN finds it. */
  function NumberToken(t: JsString): (r: Step<Num>)
    ensures r.Got? ==> ValidNum(r.v) && t == RenderNum(r.v, r.rest)
  {
    var (negative, t1) := TakeSign(t);
    var (whole, t2) := TakeWhole(t1);
    if whole == [] then Rejected
    else
      var (fraction, t3) := TakeFraction(t2);
      var (exponent, t4) := TakeExponent(t3);
      Got(Num(negative, whole, fraction, exponent), t4)
  }

  function ParseNumber(p: Platform, t: JsString): (r: Step<Num>)
    ensures r.Got? ==> AcceptedNum(p, r.v) && t == RenderNum(r.v, r.rest) && |r.rest| < |t|
  {
    match NumberToken(t)
    case Rejected => Rejected
    case Got(n, rest) => if AcceptedNum(p, n) then Got(n, rest) else Rejected
  }

  // ---------- Strings ----------

  function ParsePiece(t: JsString): (r: Step<Piece>)
    requires t != [] && t[0] != QUOTE
    ensures r.Got? ==> FormedPiece(r.v) && PairedPiece(r.v) && t == RenderPiece(r.v, r.rest) && |r.rest| < |t|
  {
    if t[0] != BACKSLASH then
      if t[0] < 0x20 then Rejected else Got(Raw(t[0]), t[1..])
    else if |t| < 2 then Rejected
    else if t[1] != LOWER_U then
      if Unescape(t[1]).Some? then Got(Escape(t[1]), t[2..]) else Rejected
    else if |t| < 6 || !FourHex(t[2..6]) || IsLow(HexUnit(t[2..6])) then Rejected
    else if !IsHigh(HexUnit(t[2..6])) then Got(Hex(t[2..6]), t[6..])
    else if |t| < 12 || t[6] != BACKSLASH || t[7] != LOWER_U || !FourHex(t[8..12]) || !IsLow(HexUnit(t[8..12])) then
      Rejected
    else Got(HexPair(t[2..6], t[8..12]), t[12..])
  }

  /** The rest of a string, after its opening quote. */
  function ParseString(t: JsString): (r: Step<seq<Piece>>)
    ensures r.Got? ==> FormedPieces(r.v) && PairedPieces(r.v) && t == RenderPieces(r.v, [QUOTE] + r.rest) && |r.rest| < |t|
    decreases |t|
  {
    if t == [] then Rejected
    else if t[0] == QUOTE then Got([], t[1..])
    else
      match ParsePiece(t)
      case Rejected => Rejected
      case Got(piece, rest) =>
        match ParseString(rest)
        case Rejected => Rejected
        case Got(pieces, after) =>
          assert ([piece] + pieces)[1..] == pieces;
          Got([piece] + pieces, after)
  }

  // ---------- Values ----------

  function ParseValue(p: Platform, t: JsString): (r: Step<Cst>)
    ensures r.Got? ==> Formed(r.v) && Policy(p, r.v) && |r.rest| < |t|
    decreases |t|, 0
  {
    if t == [] then Rejected
    else if t[0] == LBRACE then ParseObject(p, t[1..])
    else if t[0] == LBRACKET then ParseArray(p, t[1..])
    else if t[0] == QUOTE then
      match ParseString(t[1..]) case Rejected => Rejected case Got(pieces, rest) => Got(CString(pieces), rest)
    else if t[0] == MINUS || IsDigit(t[0]) then
      match ParseNumber(p, t) case Rejected => Rejected case Got(n, rest) => Got(CNumber(n), rest)
    else if StartsWith(t, TRUE_TEXT) then Got(CTrue, t[4..])
    else if StartsWith(t, FALSE_TEXT) then Got(CFalse, t[5..])
    else if StartsWith(t, NULL_TEXT) then Got(CNull, t[4..])
    else Rejected
  }

  /** The rest of an array, after its bracket. */
  function ParseArray(p: Platform, t: JsString): (r: Step<Cst>)
    ensures r.Got? ==> Formed(r.v) && Policy(p, r.v) && r.v.CArray? && |r.rest| < |t|
    decreases |t|, 2
  {
    var u := SkipWs(t);
    if u != [] && u[0] == RBRACKET then Got(CArray(Lead(t), NoItems), u[1..])
    else match ParseItems(p, t) case Rejected => Rejected case Got(items, rest) => Got(CArray([], items), rest)
  }

  /** One element and the ones after it, to the closing bracket. */
  function ParseItems(p: Platform, t: JsString): (r: Step<CItems>)
    ensures r.Got? ==> r.v.Item? && FormedItems(r.v) && PolicyItems(p, r.v) && |r.rest| < |t|
    decreases |t|, 1
  {
    match ParseValue(p, SkipWs(t))
    case Rejected => Rejected
    case Got(v, rest) =>
      var u := SkipWs(rest);
      if u == [] then Rejected
      else if u[0] == RBRACKET then Got(Item(Lead(t), v, Lead(rest), NoItems), u[1..])
      else if u[0] != COMMA then Rejected
      else
        match ParseItems(p, u[1..])
        case Rejected => Rejected
        case Got(items, after) => Got(Item(Lead(t), v, Lead(rest), items), after)
  }

  /** The rest of an object, after its brace. */
  function ParseObject(p: Platform, t: JsString): (r: Step<Cst>)
    ensures r.Got? ==> Formed(r.v) && Policy(p, r.v) && r.v.CObject? && |r.rest| < |t|
    decreases |t|, 2
  {
    var u := SkipWs(t);
    if u != [] && u[0] == RBRACE then Got(CObject(Lead(t), NoMembers), u[1..])
    else match ParseMembers(p, t, {}) case Rejected => Rejected case Got(m, rest) => Got(CObject([], m), rest)
  }

  /** A key and its colon, with the white space around them. */
  function ParseKey(t: JsString): (r: Step<CKey>)
    ensures r.Got? ==> FormedKey(r.v) && PairedPieces(r.v.pieces) && |r.rest| < |t|
  {
    var k := SkipWs(t);
    if k == [] || k[0] != QUOTE then Rejected
    else
      match ParseString(k[1..])
      case Rejected => Rejected
      case Got(pieces, rest) =>
        var u := SkipWs(rest);
        if u == [] || u[0] != COLON then Rejected
        else Got(CKey(Lead(t), pieces, Lead(rest), Lead(u[1..])), SkipWs(u[1..]))
  }

  /** One member, up to what separates it from the next. */
  function ParseMember(p: Platform, t: JsString, seen: set<JsString>): (r: Step<CMember>)
    ensures r.Got? ==> FormedMember(r.v) && PolicyMember(p, r.v) && MemberKey(p, r.v) !in seen && |r.rest| < |t|
    decreases |t|, 0
  {
    match ParseKey(t)
    case Rejected => Rejected
    case Got(key, afterKey) =>
      if SemanticKey(p, key) in seen then Rejected
      else
        match ParseValue(p, afterKey)
        case Rejected => Rejected
        case Got(v, rest) => Got(CMember(key, v, Lead(rest)), SkipWs(rest))
  }

  /** One member and the ones after it, to the closing brace. */
  function ParseMembers(p: Platform, t: JsString, seen: set<JsString>): (r: Step<CMembers>)
    ensures r.Got? ==> r.v.Member? && FormedMembers(r.v) && PolicyMembers(p, r.v, seen) && |r.rest| < |t|
    decreases |t|, 1
  {
    match ParseMember(p, t, seen)
    case Rejected => Rejected
    case Got(m, u) =>
      if u == [] then Rejected
      else if u[0] == RBRACE then Got(Member(m, NoMembers), u[1..])
      else if u[0] != COMMA then Rejected
      else
        match ParseMembers(p, u[1..], seen + {MemberKey(p, m)})
        case Rejected => Rejected
        case Got(rest, after) => Got(Member(m, rest), after)
  }

  /** The whole text: one value with white space around it. */
  function ParseText(p: Platform, text: JsString): Option<Json> {
    match ParseValue(p, SkipWs(text))
    case Rejected => None
    case Got(c, rest) => if SkipWs(rest) == [] then Some(Value(c)) else None
  }
}
