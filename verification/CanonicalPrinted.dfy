/** What a canonical text looks like, without reference to how it is made. */
module CanonicalPrinted {
  import opened Wrappers
  import opened JsStrings
  import opened JsonGrammar
  import opened Canonical
  import opened CanonicalOrder
  import opened CanonicalSame

  /** The parts, with commas between them. */
  function Commas(parts: seq<JsString>): JsString {
    if parts == [] then []
    else if |parts| == 1 then parts[0]
    else parts[0] + [COMMA] + Commas(parts[1..])
  }

  /** A member of an object: its name, a colon, its value. */
  function MemberText(e: Named<JsString>): JsString {
    Stringify(e.name) + [COLON] + e.value
  }

  function MemberTexts(entries: seq<Named<JsString>>): seq<JsString> {
    seq(|entries|, i requires 0 <= i < |entries| => MemberText(entries[i]))
  }

  /** The shortest decimal text of an integer. */
  predicate IsIntText(text: JsString, n: int) {
    var digits := if n < 0 && text != [] then text[1..] else text;
    && (n < 0 ==> text != [] && text[0] == MINUS)
    && AllDigits(digits) && digits != [] && (digits[0] == ZERO ==> |digits| == 1)
    && Decimal(digits) == if n < 0 then -n else n
  }

  /** No character below the space, and no DEL. */
  predicate NoControls(s: JsString) {
    forall i :: 0 <= i < |s| ==> s[i] >= 0x20 && s[i] != 0x7F
  }

  lemma ControlsAre(s: JsString)
    ensures NoControls(s) <==> !HasControl(s)
  {
  }

  /** The text is a canonical one of the value. */
  ghost predicate Prints(nfc: Nfc, v: JsValue, text: JsString)
    decreases v, 1
  {
    match v
    case JNull => text == NULL_TEXT
    case JBool(b) => text == if b then TRUE_TEXT else FALSE_TEXT
    case JNumber(n) => -MAX_SAFE <= n <= MAX_SAFE && IsIntText(text, n)
    case JBigInt(n) => IsIntText(text, n)
    case JString(s) => NoControls(s) && text == Stringify(nfc(s))
    case JArray(items) =>
      exists parts :: PrintsItems(nfc, items, parts) && text == [LBRACKET] + Commas(parts) + [RBRACKET]
    case JObject(fields) =>
      exists entries :: PrintsFields(nfc, fields, entries) && text == [LBRACE] + Commas(MemberTexts(entries)) + [RBRACE]
    case _ => false
  }

  ghost predicate PrintsItems(nfc: Nfc, items: seq<JsValue>, parts: seq<JsString>)
    decreases items, 0
  {
    |parts| == |items| && forall i :: 0 <= i < |items| ==> Prints(nfc, items[i], parts[i])
  }

  /** The members are in the order of their names by code point; they are those of the defined fields, each under its NFC
      name, which no two fields share. */
  ghost predicate PrintsFields(nfc: Nfc, fields: seq<Named<JsValue>>, entries: seq<Named<JsString>>)
    decreases fields, 1
  {
    && (forall i, j :: 0 <= i < j < |entries| ==> Less(entries[i].name, entries[j].name))
    && (forall i, j :: 0 <= i < j < |fields| && IsDefined(fields[i]) && IsDefined(fields[j]) ==>
          nfc(fields[i].name) != nfc(fields[j].name))
    && (forall i :: 0 <= i < |fields| && IsDefined(fields[i]) ==> NoControls(fields[i].name) && IsPrinted(nfc, fields[i], entries))
    && (forall k :: 0 <= k < |entries| ==> Printed(nfc, fields, entries[k]))
  }

  ghost predicate IsPrinted(nfc: Nfc, f: Named<JsValue>, entries: seq<Named<JsString>>)
    decreases f, 0
  {
    exists k :: 0 <= k < |entries| && entries[k].name == nfc(f.name) && Prints(nfc, f.value, entries[k].value)
  }

  ghost predicate Printed(nfc: Nfc, fields: seq<Named<JsValue>>, e: Named<JsString>)
    decreases fields, 0
  {
    exists i :: 0 <= i < |fields| && IsDefined(fields[i]) && e.name == nfc(fields[i].name) && Prints(nfc, fields[i].value, e.value)
  }

  // ---------- Integers ----------

  lemma {:induction false} DecimalIsPositive(d: JsString)
    requires AllDigits(d) && d != [] && d[0] != ZERO
    ensures Decimal(d) > 0
    decreases |d|
  {
    if |d| > 1 {
      DecimalIsPositive(d[..|d| - 1]);
    }
  }

  /** Digits without a leading zero are determined by their value. */
  lemma {:induction false} DecimalIsInjective(a: JsString, b: JsString)
    requires AllDigits(a) && AllDigits(b) && Decimal(a) == Decimal(b)
    requires (a != [] ==> a[0] != ZERO) && (b != [] ==> b[0] != ZERO)
    ensures a == b
    decreases |a|
  {
    if a != [] { DecimalIsPositive(a); }
    if b != [] { DecimalIsPositive(b); }
    if a != [] && b != [] {
      DecimalIsInjective(a[..|a| - 1], b[..|b| - 1]);
      assert a == a[..|a| - 1] + [a[|a| - 1]] && b == b[..|b| - 1] + [b[|b| - 1]];
    }
  }

  lemma IntTextIsUnique(n: int, text: JsString)
    ensures IsIntText(text, n) <==> text == IntText(n)
  {
    if IsIntText(text, n) {
      var d := if n < 0 then text[1..] else text;
      var e := Digits(if n < 0 then -n else n);
      if d[0] == ZERO {
        assert d == [ZERO] && d[..0] == [] && Decimal(d) == 0;
        if e[0] != ZERO { DecimalIsPositive(e); }
      } else {
        DecimalIsPositive(d);
        DecimalIsInjective(d, e);
      }
      assert n < 0 ==> text == [MINUS] + d;
    }
  }

  // ---------- Commas ----------

  lemma {:induction false} JoinedIsCommas(parts: seq<JsString>, t: JsString)
    ensures Joined(parts, t) == Commas(parts) + t
  {
    if |parts| > 1 {
      JoinedIsCommas(parts[1..], t);
    }
  }

  lemma MemberTextsAreEntryTexts(entries: seq<Named<JsString>>)
    ensures EntryTexts(entries) == MemberTexts(entries)
  {
    hide Stringify;
    assert forall i :: 0 <= i < |entries| ==> EntryText(entries[i]) == MemberText(entries[i]);
  }

  // ---------- The printed fields ----------

  predicate CanPrint(nfc: Nfc, f: Named<JsValue>) {
    IsDefined(f) ==> !HasControl(f.name) && Canon(nfc, f.value).Some?
  }

  ghost predicate IsMemberOf(nfc: Nfc, fields: seq<Named<JsValue>>, e: Named<JsString>) {
    exists i :: 0 <= i < |fields| && IsDefined(fields[i])
             && e.name == nfc(fields[i].name) && Canon(nfc, fields[i].value) == Some(e.value)
  }

  lemma {:induction false} CanonFieldsAre(nfc: Nfc, fields: seq<Named<JsValue>>)
    ensures CanonFields(nfc, fields).Some? <==> forall i :: 0 <= i < |fields| ==> CanPrint(nfc, fields[i])
    ensures CanonFields(nfc, fields).Some? ==>
              && (forall e :: e in CanonFields(nfc, fields).value <==> IsMemberOf(nfc, fields, e))
              && (DistinctNames(CanonFields(nfc, fields).value) <==> NoClash(nfc, fields))
    decreases |fields|
  {
    hide HasControl, Canon, DistinctNames, NoClash;
    if fields == [] {
      NothingMembers(nfc);
    } else {
      var f, rest := fields[0], fields[1..];
      CanonFieldsAre(nfc, rest);
      assert fields == [f] + rest;
      NoClashCons(nfc, f, rest);
      assert forall i :: 0 < i < |fields| ==> fields[i] == rest[i - 1];
      assert forall i :: 0 <= i < |rest| ==> rest[i] == fields[i + 1];
      if CanonFields(nfc, fields).Some? && IsDefined(f) {
        var e := Named(nfc(f.name), Canon(nfc, f.value).value);
        var entries := CanonFields(nfc, rest).value;
        DistinctCons(e, entries);
        MemberNames(nfc, rest, entries, e.name);
      }
    }
  }

  lemma NothingMembers(nfc: Nfc)
    ensures DistinctNames<JsString>([]) && NoClash(nfc, [])
  {
  }

  lemma MemberNames(nfc: Nfc, fields: seq<Named<JsValue>>, entries: seq<Named<JsString>>, name: JsString)
    requires forall i :: 0 <= i < |fields| ==> CanPrint(nfc, fields[i])
    requires forall e :: e in entries <==> IsMemberOf(nfc, fields, e)
    ensures HasName(entries, name) <==> exists j :: 0 <= j < |fields| && IsDefined(fields[j]) && nfc(fields[j].name) == name
  {
    hide Canon, HasControl;
    if i :| 0 <= i < |entries| && entries[i].name == name {
      assert IsMemberOf(nfc, fields, entries[i]);
    }
    if j :| 0 <= j < |fields| && IsDefined(fields[j]) && nfc(fields[j].name) == name {
      assert CanPrint(nfc, fields[j]);
      var e := Named(name, Canon(nfc, fields[j].value).value);
      assert IsMemberOf(nfc, fields, e);
      assert e in entries;
    }
  }

  // ---------- The law ----------

  /** The canonicalizer prints a value exactly when it has a canonical text, and that is the text it prints. */
  lemma {:induction false} CanonIsWhatPrints(nfc: Nfc, v: JsValue, text: JsString)
    ensures Canon(nfc, v) == Some(text) <==> Prints(nfc, v, text)
    decreases v, 2
  {
    hide PrintsItems, PrintsFields, CanonItems, CanonFields, Stringify, HasControl, NoControls, Commas, MemberTexts;
    match v
    case JString(s) => ControlsAre(s);
    case JNumber(n) => IntTextIsUnique(n, text);
    case JBigInt(n) => IntTextIsUnique(n, text);
    case JArray(items) => ItemsPrint(nfc, items, text);
    case JObject(fields) => FieldsPrint(nfc, fields, text);
    case _ =>
  }

  lemma {:induction false} ItemsPrint(nfc: Nfc, items: seq<JsValue>, text: JsString)
    ensures Canon(nfc, JArray(items)) == Some(text) <==> Prints(nfc, JArray(items), text)
    decreases items, 2
  {
    hide PrintsItems, CanonItems, Commas, Joined;
    if CanonItems(nfc, items).Some? {
      var parts := CanonItems(nfc, items).value;
      EachItemPrints(nfc, items, parts);
      JoinedIsCommas(parts, [RBRACKET]);
      assert [LBRACKET] + (Commas(parts) + [RBRACKET]) == [LBRACKET] + Commas(parts) + [RBRACKET];
    }
    if Prints(nfc, JArray(items), text) {
      var parts :| PrintsItems(nfc, items, parts) && text == [LBRACKET] + Commas(parts) + [RBRACKET];
      EachItemPrints(nfc, items, parts);
    }
  }

  lemma {:induction false} EachItemPrints(nfc: Nfc, items: seq<JsValue>, parts: seq<JsString>)
    ensures CanonItems(nfc, items) == Some(parts) <==> PrintsItems(nfc, items, parts)
    decreases items, 1
  {
    hide Canon, Prints;
    if items == [] {
    } else {
      if CanonItems(nfc, items) == Some(parts) || |parts| == |items| {
        CanonIsWhatPrints(nfc, items[0], parts[0]);
        EachItemPrints(nfc, items[1..], parts[1..]);
        assert parts == [parts[0]] + parts[1..];
        assert forall i :: 0 < i < |items| ==> items[i] == items[1..][i - 1];
        assert |parts| == |items| ==> forall i :: 0 < i < |items| ==> parts[i] == parts[1..][i - 1];
        assert forall i :: 0 <= i < |items| - 1 ==> items[1..][i] == items[i + 1];
        assert |parts| == |items| ==> forall i :: 0 <= i < |items| - 1 ==> parts[1..][i] == parts[i + 1];
      }
    }
  }

  lemma {:induction false} FieldsPrint(nfc: Nfc, fields: seq<Named<JsValue>>, text: JsString)
    ensures Canon(nfc, JObject(fields)) == Some(text) <==> Prints(nfc, JObject(fields), text)
    decreases fields, 3
  {
    hide PrintsFields, CanonFields, Commas, Joined, Sort, DistinctNames, EntryTexts, MemberTexts;
    CanonFieldsAre(nfc, fields);
    if CanonFields(nfc, fields).Some? {
      var sorted := Sort(CanonFields(nfc, fields).value);
      SortDistinct(CanonFields(nfc, fields).value);
      JoinedIsCommas(EntryTexts(sorted), [RBRACE]);
      MemberTextsAreEntryTexts(sorted);
      assert [LBRACE] + (Commas(MemberTexts(sorted)) + [RBRACE]) == [LBRACE] + Commas(MemberTexts(sorted)) + [RBRACE];
      if DistinctNames(sorted) {
        SortedFieldsPrint(nfc, fields);
      }
    }
    if Prints(nfc, JObject(fields), text) {
      var entries :| PrintsFields(nfc, fields, entries) && text == [LBRACE] + Commas(MemberTexts(entries)) + [RBRACE];
      PrintedFieldsAreSorted(nfc, fields, entries);
    }
  }

  lemma {:induction false} SortedFieldsPrint(nfc: Nfc, fields: seq<Named<JsValue>>)
    requires CanonFields(nfc, fields).Some? && DistinctNames(CanonFields(nfc, fields).value)
    ensures PrintsFields(nfc, fields, Sort(CanonFields(nfc, fields).value))
    decreases fields, 2
  {
    hide Canon, Prints, CanonFields, Sort, DistinctNames, HasControl;
    CanonFieldsAre(nfc, fields);
    var all := CanonFields(nfc, fields).value;
    var entries := Sort(all);
    SortRises(all);
    SortDistinct(all);
    forall i | 0 <= i < |fields| && IsDefined(fields[i]) ensures NoControls(fields[i].name) && IsPrinted(nfc, fields[i], entries) {
      ControlsAre(fields[i].name);
      assert CanPrint(nfc, fields[i]);
      var e := Named(nfc(fields[i].name), Canon(nfc, fields[i].value).value);
      assert IsMemberOf(nfc, fields, e);
      assert e in entries;
      var k :| 0 <= k < |entries| && entries[k] == e;
      CanonIsWhatPrints(nfc, fields[i].value, e.value);
    }
    forall k | 0 <= k < |entries| ensures Printed(nfc, fields, entries[k]) {
      assert entries[k] in entries && IsMemberOf(nfc, fields, entries[k]);
      var i :| 0 <= i < |fields| && IsDefined(fields[i]) && entries[k].name == nfc(fields[i].name)
            && Canon(nfc, fields[i].value) == Some(entries[k].value);
      CanonIsWhatPrints(nfc, fields[i].value, entries[k].value);
    }
  }

  lemma {:induction false} PrintedFieldsAreSorted(nfc: Nfc, fields: seq<Named<JsValue>>, entries: seq<Named<JsString>>)
    requires PrintsFields(nfc, fields, entries)
    ensures CanonFields(nfc, fields).Some? && DistinctNames(CanonFields(nfc, fields).value)
    ensures entries == Sort(CanonFields(nfc, fields).value)
    decreases fields, 2
  {
    hide Canon, Prints, CanonFields, Sort, DistinctNames, HasControl, Less;
    CanonFieldsAre(nfc, fields);
    forall i | 0 <= i < |fields| ensures CanPrint(nfc, fields[i]) {
      if IsDefined(fields[i]) {
        ControlsAre(fields[i].name);
        assert IsPrinted(nfc, fields[i], entries);
        var k :| 0 <= k < |entries| && entries[k].name == nfc(fields[i].name) && Prints(nfc, fields[i].value, entries[k].value);
        CanonIsWhatPrints(nfc, fields[i].value, entries[k].value);
      }
    }
    var all := CanonFields(nfc, fields).value;
    forall e ensures e in entries <==> e in all {
      if e in entries {
        var k :| 0 <= k < |entries| && entries[k] == e;
        assert Printed(nfc, fields, entries[k]);
        var i :| 0 <= i < |fields| && IsDefined(fields[i]) && e.name == nfc(fields[i].name) && Prints(nfc, fields[i].value, e.value);
        CanonIsWhatPrints(nfc, fields[i].value, e.value);
        assert IsMemberOf(nfc, fields, e);
      }
      if e in all {
        assert IsMemberOf(nfc, fields, e);
        var i :| 0 <= i < |fields| && IsDefined(fields[i]) && e.name == nfc(fields[i].name) && Canon(nfc, fields[i].value) == Some(e.value);
        assert IsPrinted(nfc, fields[i], entries);
        var k :| 0 <= k < |entries| && entries[k].name == nfc(fields[i].name) && Prints(nfc, fields[i].value, entries[k].value);
        CanonIsWhatPrints(nfc, fields[i].value, entries[k].value);
        assert e == entries[k];
      }
    }
    RisingIsSorted(all, entries);
  }

  // ---------- Quotation ----------

  /** A text without quotes, backslashes, control characters and lone surrogates is quoted as it is. */
  lemma {:induction false} PlainTextIsQuotedAsIs(s: JsString)
    requires WellFormed(s) && forall i :: 0 <= i < |s| ==> s[i] >= 0x20 && s[i] != QUOTE && s[i] != BACKSLASH
    ensures forall t :: RenderPieces(Quoted(s), t) == s + t
    decreases |s|
  {
    hide RenderPiece, QuotedUnit;
    if s == [] {
    } else if IsHigh(s[0]) {
      PlainTextIsQuotedAsIs(s[2..]);
      RawRenders(s[0]);
      RawRenders(s[1]);
      forall t ensures RenderPieces(Quoted(s), t) == s + t {
        var rest := Quoted(s[2..]);
        assert ([Raw(s[0]), Raw(s[1])] + rest)[1..] == [Raw(s[1])] + rest;
        assert ([Raw(s[1])] + rest)[1..] == rest;
        assert s == [s[0], s[1]] + s[2..];
        assert [s[0]] + ([s[1]] + (s[2..] + t)) == s + t;
      }
    } else {
      PlainTextIsQuotedAsIs(s[1..]);
      RawRenders(s[0]);
      assert QuotedUnit(s[0]) == Raw(s[0]) by { UnitIsRaw(s[0]); }
      forall t ensures RenderPieces(Quoted(s), t) == s + t {
        var rest := Quoted(s[1..]);
        assert ([Raw(s[0])] + rest)[1..] == rest;
        assert [s[0]] + (s[1..] + t) == s + t;
      }
    }
  }

  lemma RawRenders(u: CodeUnit)
    ensures forall t :: RenderPiece(Raw(u), t) == [u] + t
  {
  }

  lemma UnitIsRaw(u: CodeUnit)
    requires u >= 0x20 && u != QUOTE && u != BACKSLASH && !IsHigh(u) && !IsLow(u)
    ensures QuotedUnit(u) == Raw(u)
  {
  }
}
