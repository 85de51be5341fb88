/** Values that differ only in the order of their names and in undefined fields, at any depth, print alike. */
module CanonicalSame {
  import opened Wrappers
  import opened JsStrings
  import opened JsonGrammar
  import opened Canonical
  import opened CanonicalOrder
  import opened CanonicalText

  predicate IsDefined(f: Named<JsValue>) {
    !f.value.JUndefined?
  }

  /** Equal up to the order of names and undefined fields. */
  ghost predicate Same(a: JsValue, b: JsValue)
    decreases a
  {
    match (a, b)
    case (JArray(s), JArray(t)) => |s| == |t| && forall i :: 0 <= i < |s| ==> Same(s[i], t[i])
    case (JObject(s), JObject(t)) =>
      && (forall i :: 0 <= i < |s| && IsDefined(s[i]) ==> HasTwin(s[i], t))
      && (forall j :: 0 <= j < |t| && IsDefined(t[j]) ==> IsTwin(s, t[j]))
    case _ => a == b
  }

  /** The field f has its like among t. */
  ghost predicate HasTwin(f: Named<JsValue>, t: seq<Named<JsValue>>)
    decreases f
  {
    exists j :: 0 <= j < |t| && IsDefined(t[j]) && t[j].name == f.name && Same(f.value, t[j].value)
  }

  /** The field g is the like of one among s. */
  ghost predicate IsTwin(s: seq<Named<JsValue>>, g: Named<JsValue>)
    decreases s
  {
    exists i :: 0 <= i < |s| && IsDefined(s[i]) && s[i].name == g.name && Same(s[i].value, g.value)
  }

  /** An object's own names are distinct, at every depth. */
  predicate WellKeyed(v: JsValue) {
    match v
    case JArray(items) => forall i :: 0 <= i < |items| ==> WellKeyed(items[i])
    case JObject(fields) => DistinctNames(fields) && forall i :: 0 <= i < |fields| ==> WellKeyed(fields[i].value)
    case _ => true
  }

  // ---------- The fields of a normal form, one by one ----------

  predicate FieldIsFine(nfc: Nfc, f: Named<JsValue>) {
    IsDefined(f) ==> !HasControl(f.name) && Normal(nfc, f.value).Some?
  }

  function NormalField(nfc: Nfc, f: Named<JsValue>): Named<Json>
    requires Normal(nfc, f.value).Some?
  {
    Named(nfc(f.name), Normal(nfc, f.value).value)
  }

  lemma {:induction false} NormalFieldsFail(nfc: Nfc, fields: seq<Named<JsValue>>)
    ensures NormalFields(nfc, fields).Some? <==> forall i :: 0 <= i < |fields| ==> FieldIsFine(nfc, fields[i])
    decreases |fields|
  {
    hide HasControl, Normal;
    if fields != [] {
      NormalFieldsFail(nfc, fields[1..]);
      assert fields == [fields[0]] + fields[1..];
    }
  }

  ghost predicate IsEntryOf(nfc: Nfc, fields: seq<Named<JsValue>>, e: Named<Json>) {
    exists i :: 0 <= i < |fields| && IsDefined(fields[i])
             && Normal(nfc, fields[i].value).Some? && e == NormalField(nfc, fields[i])
  }

  lemma {:induction false} NormalFieldsAre(nfc: Nfc, fields: seq<Named<JsValue>>, e: Named<Json>)
    requires NormalFields(nfc, fields).Some?
    ensures e in NormalFields(nfc, fields).value <==> IsEntryOf(nfc, fields, e)
    decreases |fields|
  {
    hide HasControl, Normal, NormalField;
    if fields != [] {
      var rest := fields[1..];
      NormalFieldsAre(nfc, rest, e);
      assert forall i :: 0 <= i < |rest| ==> rest[i] == fields[i + 1];
      assert forall i :: 0 < i < |fields| ==> fields[i] == rest[i - 1];
      if IsDefined(fields[0]) {
        FirstEntry(nfc, fields);
      }
    }
  }

  lemma FirstEntry(nfc: Nfc, fields: seq<Named<JsValue>>)
    requires fields != [] && IsDefined(fields[0]) && NormalFields(nfc, fields).Some?
    ensures Normal(nfc, fields[0].value).Some? && NormalFields(nfc, fields[1..]).Some?
    ensures NormalFields(nfc, fields).value == [NormalField(nfc, fields[0])] + NormalFields(nfc, fields[1..]).value
  {
    hide HasControl, Normal;
  }

  /** No two defined names share their NFC form. */
  predicate NoClash(nfc: Nfc, fields: seq<Named<JsValue>>) {
    forall i, j :: 0 <= i < j < |fields| && IsDefined(fields[i]) && IsDefined(fields[j]) ==>
      nfc(fields[i].name) != nfc(fields[j].name)
  }

  lemma {:induction false} NormalNamesClash(nfc: Nfc, fields: seq<Named<JsValue>>)
    requires NormalFields(nfc, fields).Some?
    ensures DistinctNames(NormalFields(nfc, fields).value) <==> NoClash(nfc, fields)
    decreases |fields|
  {
    hide HasControl, Normal, DistinctNames, HasName;
    if fields == [] {
      assert DistinctNames<Json>([]) by { NothingClashes(); }
    } else {
      var rest := fields[1..];
      NormalNamesClash(nfc, rest);
      NoClashCons(nfc, fields[0], rest);
      assert fields == [fields[0]] + rest;
      if IsDefined(fields[0]) {
        FirstEntry(nfc, fields);
        var entries := NormalFields(nfc, rest).value;
        DistinctCons(NormalField(nfc, fields[0]), entries);
        NameOfEntry(nfc, rest, nfc(fields[0].name));
      }
    }
  }

  lemma NothingClashes()
    ensures DistinctNames<Json>([])
  {
  }

  lemma NoClashCons(nfc: Nfc, f: Named<JsValue>, rest: seq<Named<JsValue>>)
    ensures NoClash(nfc, [f] + rest)
       <==> NoClash(nfc, rest) && !(IsDefined(f) && exists j :: 0 <= j < |rest| && IsDefined(rest[j]) && nfc(rest[j].name) == nfc(f.name))
  {
    var all := [f] + rest;
    if NoClash(nfc, all) {
      forall i, j | 0 <= i < j < |rest| && IsDefined(rest[i]) && IsDefined(rest[j])
        ensures nfc(rest[i].name) != nfc(rest[j].name)
      {
        assert all[i + 1] == rest[i] && all[j + 1] == rest[j];
      }
      if j :| 0 <= j < |rest| && IsDefined(f) && IsDefined(rest[j]) && nfc(rest[j].name) == nfc(f.name) {
        assert all[0] == f && all[j + 1] == rest[j];
      }
    } else {
      assert forall i :: 0 < i < |all| ==> all[i] == rest[i - 1];
    }
  }

  lemma NameOfEntry(nfc: Nfc, fields: seq<Named<JsValue>>, name: JsString)
    requires NormalFields(nfc, fields).Some?
    ensures HasName(NormalFields(nfc, fields).value, name)
       <==> exists j :: 0 <= j < |fields| && IsDefined(fields[j]) && nfc(fields[j].name) == name
  {
    hide Normal, HasControl;
    var entries := NormalFields(nfc, fields).value;
    NormalFieldsFail(nfc, fields);
    if i :| 0 <= i < |entries| && entries[i].name == name {
      NormalFieldsAre(nfc, fields, entries[i]);
    }
    if j :| 0 <= j < |fields| && IsDefined(fields[j]) && nfc(fields[j].name) == name {
      assert FieldIsFine(nfc, fields[j]);
      NormalFieldsAre(nfc, fields, NormalField(nfc, fields[j]));
      assert NormalField(nfc, fields[j]) in entries;
    }
  }

  // ---------- The law ----------

  lemma {:induction false} SameNormal(nfc: Nfc, a: JsValue, b: JsValue)
    requires WellKeyed(a) && WellKeyed(b) && Same(a, b)
    ensures Normal(nfc, a) == Normal(nfc, b)
    decreases a, 1
  {
    match (a, b)
    case (JArray(s), JArray(t)) => SameItems(nfc, s, t);
    case (JObject(s), JObject(t)) => SameObjects(nfc, s, t);
    case _ =>
  }

  lemma {:induction false} SameItems(nfc: Nfc, s: seq<JsValue>, t: seq<JsValue>)
    requires |s| == |t| && forall i :: 0 <= i < |s| ==> WellKeyed(s[i]) && WellKeyed(t[i]) && Same(s[i], t[i])
    ensures NormalItems(nfc, s) == NormalItems(nfc, t)
    decreases s
  {
    hide Normal, WellKeyed, Same;
    if s != [] {
      SameNormal(nfc, s[0], t[0]);
      SameItems(nfc, s[1..], t[1..]);
    }
  }

  ghost predicate HasMatch(nfc: Nfc, f: Named<JsValue>, t: seq<Named<JsValue>>) {
    exists j :: 0 <= j < |t| && IsDefined(t[j]) && t[j].name == f.name
             && Normal(nfc, t[j].value) == Normal(nfc, f.value)
  }

  /** Each defined field of s has a field of t with the same name and normal form. */
  ghost predicate Matched(nfc: Nfc, s: seq<Named<JsValue>>, t: seq<Named<JsValue>>) {
    forall i :: 0 <= i < |s| && IsDefined(s[i]) ==> HasMatch(nfc, s[i], t)
  }

  lemma MatchedSucceeds(nfc: Nfc, s: seq<Named<JsValue>>, t: seq<Named<JsValue>>)
    requires Matched(nfc, s, t) && NormalFields(nfc, t).Some?
    ensures NormalFields(nfc, s).Some?
    ensures forall e :: e in NormalFields(nfc, s).value ==> e in NormalFields(nfc, t).value
  {
    hide Normal, HasControl;
    NormalFieldsFail(nfc, s);
    NormalFieldsFail(nfc, t);
    forall i | 0 <= i < |s| ensures FieldIsFine(nfc, s[i]) {
      if IsDefined(s[i]) {
        assert HasMatch(nfc, s[i], t);
        var j :| 0 <= j < |t| && IsDefined(t[j]) && t[j].name == s[i].name
              && Normal(nfc, t[j].value) == Normal(nfc, s[i].value);
        assert FieldIsFine(nfc, t[j]);
      }
    }
    forall e | e in NormalFields(nfc, s).value ensures e in NormalFields(nfc, t).value {
      NormalFieldsAre(nfc, s, e);
      NormalFieldsAre(nfc, t, e);
      var i :| 0 <= i < |s| && IsDefined(s[i]) && Normal(nfc, s[i].value).Some? && e == NormalField(nfc, s[i]);
      assert HasMatch(nfc, s[i], t);
    }
  }

  lemma MatchedClash(nfc: Nfc, s: seq<Named<JsValue>>, t: seq<Named<JsValue>>)
    requires Matched(nfc, s, t) && DistinctNames(s) && NoClash(nfc, t)
    ensures NoClash(nfc, s)
  {
    hide Normal;
    forall i, k | 0 <= i < k < |s| && IsDefined(s[i]) && IsDefined(s[k])
      ensures nfc(s[i].name) != nfc(s[k].name)
    {
      assert HasMatch(nfc, s[i], t) && HasMatch(nfc, s[k], t);
      var j :| 0 <= j < |t| && IsDefined(t[j]) && t[j].name == s[i].name;
      var l :| 0 <= l < |t| && IsDefined(t[l]) && t[l].name == s[k].name;
      assert j != l;
    }
  }

  lemma {:induction false} SameObjects(nfc: Nfc, s: seq<Named<JsValue>>, t: seq<Named<JsValue>>)
    requires WellKeyed(JObject(s)) && WellKeyed(JObject(t)) && Same(JObject(s), JObject(t))
    ensures Normal(nfc, JObject(s)) == Normal(nfc, JObject(t))
    decreases s
  {
    hide Normal;
    forall i | 0 <= i < |s| && IsDefined(s[i]) ensures HasMatch(nfc, s[i], t) {
      assert HasTwin(s[i], t);
      var j :| 0 <= j < |t| && IsDefined(t[j]) && t[j].name == s[i].name && Same(s[i].value, t[j].value);
      SameNormal(nfc, s[i].value, t[j].value);
    }
    forall j | 0 <= j < |t| && IsDefined(t[j]) ensures HasMatch(nfc, t[j], s) {
      assert IsTwin(s, t[j]);
      var i :| 0 <= i < |s| && IsDefined(s[i]) && s[i].name == t[j].name && Same(s[i].value, t[j].value);
      SameNormal(nfc, s[i].value, t[j].value);
    }
    MatchedObjects(nfc, s, t);
  }

  lemma MatchedObjects(nfc: Nfc, s: seq<Named<JsValue>>, t: seq<Named<JsValue>>)
    requires DistinctNames(s) && DistinctNames(t) && Matched(nfc, s, t) && Matched(nfc, t, s)
    ensures Normal(nfc, JObject(s)) == Normal(nfc, JObject(t))
  {
    hide HasControl, Sort, DistinctNames, NoClash, Matched;
    if NormalFields(nfc, t).Some? {
      MatchedSucceeds(nfc, s, t);
    }
    if NormalFields(nfc, s).Some? {
      MatchedSucceeds(nfc, t, s);
      NormalNamesClash(nfc, s);
      NormalNamesClash(nfc, t);
      if NoClash(nfc, s) {
        MatchedClash(nfc, t, s);
        SortIgnoresOrder(NormalFields(nfc, s).value, NormalFields(nfc, t).value);
      } else if NoClash(nfc, t) {
        MatchedClash(nfc, s, t);
      }
    }
  }

  /** The canonical text is a function of the value: the order of names and undefined fields never show. */
  lemma CanonicalTextIgnoresOrder(nfc: Nfc, a: JsValue, b: JsValue)
    requires WellKeyed(a) && WellKeyed(b) && Same(a, b)
    ensures Canon(nfc, a) == Canon(nfc, b)
  {
    hide Canon, Normal;
    SameNormal(nfc, a, b);
    CanonRendersNormal(nfc, a);
    CanonRendersNormal(nfc, b);
  }
}
