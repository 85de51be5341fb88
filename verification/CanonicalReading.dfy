/** Printing and strict parsing undo each other: which values come back, up to the order of their names. */
module CanonicalReading {
  import opened Wrappers
  import opened JsStrings
  import opened JsonGrammar
  import opened StrictParsing
  import opened Canonical
  import opened CanonicalOrder
  import opened CanonicalText
  import opened CanonicalLaws
  import opened CanonicalSame
  import opened CanonicalFaithful

  /** The JavaScript value that a parsed text is; a fraction is none the canonicalizer is modelled on. */
  function ToJs(j: Json): JsValue {
    match j
    case Null => JNull
    case Bool(b) => JBool(b)
    case Numeral(Int(n)) => JNumber(n)
    case Numeral(Double(_)) => JUnencodable
    case Str(s) => JString(s)
    case Arr(items) => JArray(seq(|items|, i requires 0 <= i < |items| => ToJs(items[i])))
    case Obj(fields) => JObject(seq(|fields|, i requires 0 <= i < |fields| => Named(fields[i].name, ToJs(fields[i].value))))
  }

  /** What survives printing and parsing: no lone surrogate, no big integer that is unsafe, and no `__proto__`, in the NFC
      forms of texts and names. */
  predicate Rereadable(nfc: Nfc, v: JsValue) {
    match v
    case JBigInt(n) => -MAX_SAFE <= n <= MAX_SAFE
    case JString(s) => WellFormed(nfc(s))
    case JArray(items) => forall i :: 0 <= i < |items| ==> Rereadable(nfc, items[i])
    case JObject(fields) =>
      forall i :: 0 <= i < |fields| && IsDefined(fields[i]) ==>
        WellFormed(nfc(fields[i].name)) && nfc(fields[i].name) != PROTO_KEY && Rereadable(nfc, fields[i].value)
    case _ => true
  }

  // ---------- The entries of a normal form ----------

  lemma {:induction false} NormalItemAt(nfc: Nfc, items: seq<JsValue>, values: seq<Json>)
    requires NormalItems(nfc, items) == Some(values)
    ensures |values| == |items| && forall i :: 0 <= i < |items| ==> Normal(nfc, items[i]) == Some(values[i])
    decreases |items|
  {
    hide Normal;
    if items != [] {
      NormalItemAt(nfc, items[1..], values[1..]);
      assert forall i :: 0 < i < |items| ==> items[i] == items[1..][i - 1] && values[i] == values[1..][i - 1];
    }
  }

  /** The field an entry of the normal form of an object comes from. */
  lemma FieldOfEntry(nfc: Nfc, s: seq<Named<JsValue>>, fields: seq<Named<Json>>, e: Named<Json>) returns (i: nat)
    requires Normal(nfc, JObject(s)) == Some(Obj(fields)) && e in fields
    ensures i < |s| && IsDefined(s[i]) && e.name == nfc(s[i].name) && Normal(nfc, s[i].value) == Some(e.value)
  {
    hide HasControl, Sort, DistinctNames;
    var entries := NormalFields(nfc, s).value;
    SortDistinct(entries);
    assert e in entries;
    NormalFieldsAre(nfc, s, e);
    i :| 0 <= i < |s| && IsDefined(s[i]) && Normal(nfc, s[i].value).Some? && e == NormalField(nfc, s[i]);
  }

  /** The entry a defined field becomes. */
  lemma EntryOfField(nfc: Nfc, s: seq<Named<JsValue>>, fields: seq<Named<Json>>, i: nat) returns (e: Named<Json>)
    requires Normal(nfc, JObject(s)) == Some(Obj(fields)) && i < |s| && IsDefined(s[i])
    ensures e in fields && e.name == nfc(s[i].name) && Normal(nfc, s[i].value) == Some(e.value)
  {
    hide HasControl, Sort, DistinctNames;
    DefinedIsNormal(nfc, s, i);
    SortDistinct(NormalFields(nfc, s).value);
    e := NormalField(nfc, s[i]);
    assert e in Sort(NormalFields(nfc, s).value);
  }

  lemma NormalNamesDistinct(nfc: Nfc, s: seq<Named<JsValue>>, fields: seq<Named<Json>>)
    requires Normal(nfc, JObject(s)) == Some(Obj(fields))
    ensures DistinctNames(fields)
  {
    SortDistinct(NormalFields(nfc, s).value);
  }

  // ---------- The normal form is like the value ----------

  lemma {:induction false} NormalIsAlike(nfc: Nfc, v: JsValue, j: Json)
    requires Idempotent(nfc) && Normal(nfc, v) == Some(j)
    ensures Alike(nfc, ToJs(j), v)
    decreases v
  {
    hide AlikeFields;
    match v
    case JArray(items) =>
      NormalItemAt(nfc, items, j.items);
      forall i | 0 <= i < |items| ensures Alike(nfc, ToJs(j.items[i]), items[i]) {
        NormalIsAlike(nfc, items[i], j.items[i]);
      }
    case JObject(s) => NormalFieldsAlike(nfc, s, j.fields);
    case _ =>
  }

  lemma {:induction false} NormalFieldsAlike(nfc: Nfc, s: seq<Named<JsValue>>, fields: seq<Named<Json>>)
    requires Idempotent(nfc) && Normal(nfc, JObject(s)) == Some(Obj(fields))
    ensures AlikeFields(nfc, ToJs(Obj(fields)).fields, s)
    decreases s
  {
    hide Normal, Alike;
    var t := ToJs(Obj(fields)).fields;
    forall k | 0 <= k < |t| && IsDefined(t[k]) ensures HasAlike(nfc, t[k], s) {
      var i := FieldOfEntry(nfc, s, fields, fields[k]);
      NormalIsAlike(nfc, s[i].value, fields[k].value);
    }
    forall i | 0 <= i < |s| && IsDefined(s[i]) ensures IsAlikeOf(nfc, t, s[i]) {
      var e := EntryOfField(nfc, s, fields, i);
      var k :| 0 <= k < |fields| && fields[k] == e;
      NormalIsAlike(nfc, s[i].value, e.value);
      assert IsDefined(t[k]) by { ParsedIsDefined(e.value); }
    }
  }

  lemma ParsedIsDefined(j: Json)
    ensures !ToJs(j).JUndefined?
  {
  }

  // ---------- What parsing loses shows ----------

  /** Without the properties that assignment to `__proto__` does not make, at any depth. */
  function Stripped(j: Json): Json {
    match j
    case Arr(items) => Arr(seq(|items|, i requires 0 <= i < |items| => Stripped(items[i])))
    case Obj(fields) => Obj(StrippedFields(fields))
    case _ => j
  }

  function StrippedFields(fields: seq<Named<Json>>): seq<Named<Json>> {
    if fields == [] then []
    else Assign(fields[0].name, Stripped(fields[0].value)) + StrippedFields(fields[1..])
  }

  lemma {:induction false} ValueIsStripped(j: Json)
    requires IntegersOnly(j) && Formed(TreeOf(j))
    ensures Value(TreeOf(j)) == Stripped(j)
    decreases j
  {
    hide Quoted, PiecesValue, FormedPieces;
    match j
    case Str(s) => QuotedIsFormed(s);
    case Arr(items) => ItemsAreStripped(items);
    case Obj(fields) => FieldsAreStripped(fields);
    case _ =>
  }

  lemma {:induction false} ItemsAreStripped(items: seq<Json>)
    requires forall i :: 0 <= i < |items| ==> IntegersOnly(items[i])
    requires FormedItems(ItemsOf(items))
    ensures ItemValues(ItemsOf(items)) == seq(|items|, i requires 0 <= i < |items| => Stripped(items[i]))
    decreases items
  {
    hide IntegersOnly, Stripped, Value, Formed, TreeOf;
    if items != [] {
      ValueIsStripped(items[0]);
      ItemsAreStripped(items[1..]);
    }
  }

  lemma {:induction false} FieldsAreStripped(fields: seq<Named<Json>>)
    requires forall i :: 0 <= i < |fields| ==> IntegersOnly(fields[i].value)
    requires FormedMembers(MembersOf(fields))
    ensures MemberValues(MembersOf(fields)) == StrippedFields(fields)
    decreases fields
  {
    hide IntegersOnly, Stripped, Value, Formed, TreeOf, Quoted, PiecesValue, FormedPieces;
    if fields != [] {
      QuotedIsFormed(fields[0].name);
      ValueIsStripped(fields[0].value);
      FieldsAreStripped(fields[1..]);
    }
  }

  lemma {:induction false} StrippedFieldIs(fields: seq<Named<Json>>, x: Named<Json>)
    ensures x in StrippedFields(fields) ==>
              exists k :: 0 <= k < |fields| && fields[k].name != PROTO_KEY && x == Named(fields[k].name, Stripped(fields[k].value))
    decreases |fields|
  {
    hide Stripped;
    if fields != [] {
      StrippedFieldIs(fields[1..], x);
      assert forall k :: 0 < k < |fields| ==> fields[k] == fields[1..][k - 1];
      assert forall k :: 0 <= k < |fields| - 1 ==> fields[1..][k] == fields[k + 1];
    }
  }

  lemma {:induction false} NothingStripped(fields: seq<Named<Json>>)
    requires forall k :: 0 <= k < |fields| ==> fields[k].name != PROTO_KEY && Stripped(fields[k].value) == fields[k].value
    ensures StrippedFields(fields) == fields
  {
    hide Stripped;
    if fields != [] {
      NothingStripped(fields[1..]);
      assert fields == [fields[0]] + fields[1..];
    }
  }

  /** If the stripped form is like the value, nothing was stripped. */
  lemma {:induction false} StrippingShows(nfc: Nfc, v: JsValue, j: Json)
    requires Idempotent(nfc) && Normal(nfc, v) == Some(j) && Alike(nfc, ToJs(Stripped(j)), v)
    ensures Stripped(j) == j
    decreases v
  {
    match v
    case JArray(items) =>
      NormalItemAt(nfc, items, j.items);
      forall i | 0 <= i < |items| ensures Stripped(j.items[i]) == j.items[i] {
        assert ToJs(Stripped(j)).items[i] == ToJs(Stripped(j.items[i]));
        StrippingShows(nfc, items[i], j.items[i]);
      }
    case JObject(s) => FieldStrippingShows(nfc, s, j.fields);
    case _ =>
  }

  lemma {:induction false} FieldStrippingShows(nfc: Nfc, s: seq<Named<JsValue>>, fields: seq<Named<Json>>)
    requires Idempotent(nfc) && Normal(nfc, JObject(s)) == Some(Obj(fields))
    requires AlikeFields(nfc, ToJs(Obj(StrippedFields(fields))).fields, s)
    ensures StrippedFields(fields) == fields
    decreases s
  {
    hide Normal, Alike, Stripped;
    var left := StrippedFields(fields);
    var t := ToJs(Obj(left)).fields;
    NormalNamesDistinct(nfc, s, fields);
    forall k | 0 <= k < |fields| ensures fields[k].name != PROTO_KEY && Stripped(fields[k].value) == fields[k].value {
      var i := FieldOfEntry(nfc, s, fields, fields[k]);
      assert IsAlikeOf(nfc, t, s[i]);
      var l :| 0 <= l < |t| && IsDefined(t[l]) && nfc(t[l].name) == nfc(s[i].name) && Alike(nfc, t[l].value, s[i].value);
      StrippedFieldIs(fields, left[l]);
      var m :| 0 <= m < |fields| && fields[m].name != PROTO_KEY && left[l] == Named(fields[m].name, Stripped(fields[m].value));
      var h := FieldOfEntry(nfc, s, fields, fields[m]);
      assert nfc(fields[m].name) == fields[m].name;
      assert m == k;
      StrippingShows(nfc, s[i].value, fields[k].value);
    }
    NothingStripped(fields);
  }

  // ---------- Readable forms ----------

  /** The normal form is readable exactly when the value is. */
  lemma {:induction false} ReadableIsOfValue(nfc: Nfc, v: JsValue, j: Json)
    requires Normal(nfc, v) == Some(j)
    ensures Readable(j) <==> Rereadable(nfc, v)
    decreases v
  {
    hide WellFormed;
    match v
    case JArray(items) =>
      NormalItemAt(nfc, items, j.items);
      forall i | 0 <= i < |items| ensures Readable(j.items[i]) <==> Rereadable(nfc, items[i]) {
        ReadableIsOfValue(nfc, items[i], j.items[i]);
      }
    case JObject(s) => ReadableFields(nfc, s, j.fields);
    case _ =>
  }

  lemma {:induction false} ReadableFields(nfc: Nfc, s: seq<Named<JsValue>>, fields: seq<Named<Json>>)
    requires Normal(nfc, JObject(s)) == Some(Obj(fields))
    ensures Readable(Obj(fields)) <==> Rereadable(nfc, JObject(s))
    decreases s
  {
    hide WellFormed, Normal;
    if Rereadable(nfc, JObject(s)) {
      forall k | 0 <= k < |fields|
        ensures WellFormed(fields[k].name) && fields[k].name != PROTO_KEY && Readable(fields[k].value)
      {
        var i := FieldOfEntry(nfc, s, fields, fields[k]);
        ReadableIsOfValue(nfc, s[i].value, fields[k].value);
      }
    }
    if Readable(Obj(fields)) {
      forall i | 0 <= i < |s| && IsDefined(s[i])
        ensures WellFormed(nfc(s[i].name)) && nfc(s[i].name) != PROTO_KEY && Rereadable(nfc, s[i].value)
      {
        var e := EntryOfField(nfc, s, fields, i);
        var k :| 0 <= k < |fields| && fields[k] == e;
        ReadableIsOfValue(nfc, s[i].value, e.value);
      }
    }
  }

  // ---------- The law ----------

  /**
   * Of the values that can be printed, exactly those without lone surrogates, unsafe big integers and `__proto__` names come
   * back from the strict parser as they were, up to the order of names, undefined fields, NFC, and number or bigint.
   */
  lemma CanonicalRoundTrip(p: Platform, v: JsValue)
    requires Idempotent(p.nfc) && Canon(p.nfc, v).Some?
    ensures var read := ParseText(p, Canon(p.nfc, v).value);
            read.Some? && Alike(p.nfc, ToJs(read.value), v) <==> Rereadable(p.nfc, v)
  {
    hide Canon, Normal, ParseText, Policy, Value, Formed, Readable, Rereadable, Alike, Stripped, TreeOf;
    CanonRendersNormal(p.nfc, v);
    var j := Normal(p.nfc, v).value;
    CanonicalTextIsRead(p, v, j);
    ReadableIsOfValue(p.nfc, v, j);
    NormalIsAlike(p.nfc, v, j);
    ValueIsStripped(j);
    if Alike(p.nfc, ToJs(Stripped(j)), v) {
      StrippingShows(p.nfc, v, j);
    }
  }

  // ---------- Ordinary values ----------

  /** Null, booleans, safe integers, well-formed texts in NFC without control characters, and arrays and objects of such,
      with distinct names of that kind other than `__proto__`. */
  predicate Ordinary(nfc: Nfc, v: JsValue) {
    match v
    case JNull => true
    case JBool(_) => true
    case JNumber(n) => -MAX_SAFE <= n <= MAX_SAFE
    case JString(s) => OrdinaryText(nfc, s)
    case JArray(items) => forall i :: 0 <= i < |items| ==> Ordinary(nfc, items[i])
    case JObject(fields) =>
      && DistinctNames(fields)
      && forall i :: 0 <= i < |fields| ==>
           OrdinaryText(nfc, fields[i].name) && fields[i].name != PROTO_KEY && Ordinary(nfc, fields[i].value)
    case _ => false
  }

  predicate OrdinaryText(nfc: Nfc, s: JsString) {
    !HasControl(s) && WellFormed(s) && nfc(s) == s
  }

  lemma {:induction false} OrdinaryIsEncodable(nfc: Nfc, v: JsValue)
    requires Ordinary(nfc, v)
    ensures Normal(nfc, v).Some? && Rereadable(nfc, v) && Plain(nfc, v)
    decreases v
  {
    hide HasControl, WellFormed;
    match v
    case JArray(items) => OrdinaryItems(nfc, items);
    case JObject(s) => OrdinaryFields(nfc, s);
    case _ =>
  }

  lemma {:induction false} OrdinaryItems(nfc: Nfc, items: seq<JsValue>)
    requires forall i :: 0 <= i < |items| ==> Ordinary(nfc, items[i])
    ensures NormalItems(nfc, items).Some?
    ensures forall i :: 0 <= i < |items| ==> Rereadable(nfc, items[i]) && Plain(nfc, items[i])
    decreases items
  {
    hide Normal, Ordinary, Rereadable, Plain;
    if items != [] {
      OrdinaryIsEncodable(nfc, items[0]);
      OrdinaryItems(nfc, items[1..]);
      assert items == [items[0]] + items[1..];
    }
  }

  lemma {:induction false} OrdinaryFields(nfc: Nfc, s: seq<Named<JsValue>>)
    requires Ordinary(nfc, JObject(s))
    ensures NormalFields(nfc, s).Some? && DistinctNames(NormalFields(nfc, s).value)
    ensures forall i :: 0 <= i < |s| ==> Rereadable(nfc, s[i].value) && Plain(nfc, s[i].value)
    decreases s
  {
    hide Normal, NormalFields, Rereadable, Plain, WellFormed, HasControl;
    forall i | 0 <= i < |s| ensures FieldIsFine(nfc, s[i]) && Rereadable(nfc, s[i].value) && Plain(nfc, s[i].value) {
      OrdinaryIsEncodable(nfc, s[i].value);
    }
    NormalFieldsFail(nfc, s);
    NormalNamesClash(nfc, s);
  }

  lemma {:induction false} ParsedIsPlain(nfc: Nfc, v: JsValue, j: Json)
    requires Idempotent(nfc) && Normal(nfc, v) == Some(j)
    ensures Plain(nfc, ToJs(j))
    decreases v
  {
    match v
    case JArray(items) =>
      NormalItemAt(nfc, items, j.items);
      forall i | 0 <= i < |items| ensures Plain(nfc, ToJs(j.items[i])) {
        ParsedIsPlain(nfc, items[i], j.items[i]);
      }
    case JObject(s) =>
      forall k | 0 <= k < |j.fields| ensures nfc(j.fields[k].name) == j.fields[k].name && Plain(nfc, ToJs(j.fields[k].value)) {
        var i := FieldOfEntry(nfc, s, j.fields, j.fields[k]);
        ParsedIsPlain(nfc, s[i].value, j.fields[k].value);
      }
    case _ =>
  }

  /** An ordinary value is printed, read back, and is the same up to the order of names. */
  lemma OrdinaryValuesComeBack(p: Platform, v: JsValue)
    requires Idempotent(p.nfc) && Ordinary(p.nfc, v)
    ensures Canon(p.nfc, v).Some?
    ensures var read := ParseText(p, Canon(p.nfc, v).value); read.Some? && Same(ToJs(read.value), v)
  {
    hide Canon, Normal, ParseText, Policy, Value, Formed, Readable, Rereadable, Alike, Same, Ordinary, Plain, TreeOf;
    OrdinaryIsEncodable(p.nfc, v);
    var j := Normal(p.nfc, v).value;
    CanonicalTextIsRead(p, v, j);
    ReadableIsOfValue(p.nfc, v, j);
    NormalIsAlike(p.nfc, v, j);
    ParsedIsPlain(p.nfc, v, j);
    AlikeIsSame(p.nfc, ToJs(j), v);
  }
}
