/** The canonical text tells values apart: two values print alike exactly when they are equal up to the order of names. */
module CanonicalFaithful {
  import opened Wrappers
  import opened JsonGrammar
  import opened Canonical
  import opened CanonicalOrder
  import opened CanonicalText
  import opened CanonicalLaws
  import opened CanonicalSame

  predicate IsInteger(v: JsValue) {
    v.JNumber? || v.JBigInt?
  }

  /** Equal up to the order of names, undefined fields, and which form of a text or of an integer is used. */
  ghost predicate Alike(nfc: Nfc, a: JsValue, b: JsValue)
    decreases a
  {
    match (a, b)
    case (JString(s), JString(t)) => nfc(s) == nfc(t)
    case (JArray(s), JArray(t)) => |s| == |t| && forall i :: 0 <= i < |s| ==> Alike(nfc, s[i], t[i])
    case (JObject(s), JObject(t)) => AlikeFields(nfc, s, t)
    case _ => a == b || (IsInteger(a) && IsInteger(b) && a.n == b.n)
  }

  /** Each defined field of either has, among the defined fields of the other, one with the same NFC name and an alike
      value. */
  ghost predicate AlikeFields(nfc: Nfc, s: seq<Named<JsValue>>, t: seq<Named<JsValue>>)
    decreases s, 1
  {
    && (forall i :: 0 <= i < |s| && IsDefined(s[i]) ==> HasAlike(nfc, s[i], t))
    && (forall j :: 0 <= j < |t| && IsDefined(t[j]) ==> IsAlikeOf(nfc, s, t[j]))
  }

  ghost predicate HasAlike(nfc: Nfc, f: Named<JsValue>, t: seq<Named<JsValue>>)
    decreases f
  {
    exists j :: 0 <= j < |t| && IsDefined(t[j]) && nfc(t[j].name) == nfc(f.name) && Alike(nfc, f.value, t[j].value)
  }

  ghost predicate IsAlikeOf(nfc: Nfc, s: seq<Named<JsValue>>, g: Named<JsValue>)
    decreases s, 0
  {
    exists i :: 0 <= i < |s| && IsDefined(s[i]) && nfc(s[i].name) == nfc(g.name) && Alike(nfc, s[i].value, g.value)
  }

  /** Values that have a normal form have the same one exactly when they are alike. */
  lemma {:induction false} NormalTellsValue(nfc: Nfc, a: JsValue, b: JsValue)
    requires Normal(nfc, a).Some? && Normal(nfc, b).Some?
    ensures Normal(nfc, a) == Normal(nfc, b) <==> Alike(nfc, a, b)
    decreases a, 1
  {
    hide HasControl, AlikeFields;
    match (a, b)
    case (JArray(s), JArray(t)) => ItemsTellValues(nfc, s, t);
    case (JObject(s), JObject(t)) => FieldsTellValues(nfc, s, t);
    case _ =>
  }

  lemma {:induction false} ItemsTellValues(nfc: Nfc, s: seq<JsValue>, t: seq<JsValue>)
    requires NormalItems(nfc, s).Some? && NormalItems(nfc, t).Some?
    ensures NormalItems(nfc, s) == NormalItems(nfc, t)
       <==> |s| == |t| && forall i :: 0 <= i < |s| ==> Alike(nfc, s[i], t[i])
    decreases s
  {
    hide Normal, Alike;
    if s != [] && t != [] {
      NormalTellsValue(nfc, s[0], t[0]);
      ItemsTellValues(nfc, s[1..], t[1..]);
      var a, b := NormalItems(nfc, s).value, NormalItems(nfc, t).value;
      assert a[1..] == NormalItems(nfc, s[1..]).value && b[1..] == NormalItems(nfc, t[1..]).value;
      assert a == [a[0]] + a[1..] && b == [b[0]] + b[1..];
      assert forall i :: 0 < i < |s| ==> s[i] == s[1..][i - 1];
      assert forall i :: 0 < i < |t| ==> t[i] == t[1..][i - 1];
    }
  }

  /** A field of s and a field of t give the same entry exactly when they are alike. */
  lemma {:induction false} EntryTellsField(nfc: Nfc, s: seq<Named<JsValue>>, i: nat, g: Named<JsValue>)
    requires i < |s| && Normal(nfc, s[i].value).Some? && Normal(nfc, g.value).Some?
    ensures NormalField(nfc, s[i]) == NormalField(nfc, g)
       <==> nfc(s[i].name) == nfc(g.name) && Alike(nfc, s[i].value, g.value)
    decreases s, 0, 0
  {
    hide Normal, Alike;
    NormalTellsValue(nfc, s[i].value, g.value);
  }

  lemma {:induction false} FieldsTellValues(nfc: Nfc, s: seq<Named<JsValue>>, t: seq<Named<JsValue>>)
    requires Normal(nfc, JObject(s)).Some? && Normal(nfc, JObject(t)).Some?
    ensures Normal(nfc, JObject(s)) == Normal(nfc, JObject(t)) <==> AlikeFields(nfc, s, t)
    decreases s, 2
  {
    hide HasControl, Sort, DistinctNames, Alike, NormalField;
    var a, b := NormalFields(nfc, s).value, NormalFields(nfc, t).value;
    if AlikeFields(nfc, s, t) {
      forall e ensures e in a <==> e in b {
        AlikeFieldsShare(nfc, s, t, e);
      }
      SortIgnoresOrder(a, b);
    }
    if Sort(a) == Sort(b) {
      SortedFromSame(a, b);
      SharedFieldsAlike(nfc, s, t);
    }
  }

  lemma DefinedIsNormal(nfc: Nfc, s: seq<Named<JsValue>>, i: nat)
    requires NormalFields(nfc, s).Some? && i < |s| && IsDefined(s[i])
    ensures Normal(nfc, s[i].value).Some? && NormalField(nfc, s[i]) in NormalFields(nfc, s).value
  {
    hide Normal, HasControl;
    NormalFieldsFail(nfc, s);
    assert FieldIsFine(nfc, s[i]);
    NormalFieldsAre(nfc, s, NormalField(nfc, s[i]));
  }

  lemma {:induction false} AlikeFieldsShare(nfc: Nfc, s: seq<Named<JsValue>>, t: seq<Named<JsValue>>, e: Named<Json>)
    requires NormalFields(nfc, s).Some? && NormalFields(nfc, t).Some? && AlikeFields(nfc, s, t)
    ensures e in NormalFields(nfc, s).value <==> e in NormalFields(nfc, t).value
    decreases s, 1
  {
    hide Normal, NormalFields, Alike, NormalField, HasAlike, IsAlikeOf;
    NormalFieldsAre(nfc, s, e);
    NormalFieldsAre(nfc, t, e);
    if e in NormalFields(nfc, s).value {
      var i :| 0 <= i < |s| && IsDefined(s[i]) && Normal(nfc, s[i].value).Some? && e == NormalField(nfc, s[i]);
      AlikeIsEntry(nfc, s, i, t);
    }
    if e in NormalFields(nfc, t).value {
      var j :| 0 <= j < |t| && IsDefined(t[j]) && Normal(nfc, t[j].value).Some? && e == NormalField(nfc, t[j]);
      EntryOfAlike(nfc, s, t[j]);
    }
  }

  lemma {:induction false} AlikeIsEntry(nfc: Nfc, s: seq<Named<JsValue>>, i: nat, t: seq<Named<JsValue>>)
    requires i < |s| && Normal(nfc, s[i].value).Some? && NormalFields(nfc, t).Some? && HasAlike(nfc, s[i], t)
    ensures NormalField(nfc, s[i]) in NormalFields(nfc, t).value
    decreases s, 0, 1
  {
    hide Normal, NormalFields, Alike, NormalField;
    var j :| 0 <= j < |t| && IsDefined(t[j]) && nfc(t[j].name) == nfc(s[i].name) && Alike(nfc, s[i].value, t[j].value);
    DefinedIsNormal(nfc, t, j);
    EntryTellsField(nfc, s, i, t[j]);
  }

  lemma {:induction false} EntryOfAlike(nfc: Nfc, s: seq<Named<JsValue>>, g: Named<JsValue>)
    requires NormalFields(nfc, s).Some? && Normal(nfc, g.value).Some? && IsAlikeOf(nfc, s, g)
    ensures NormalField(nfc, g) in NormalFields(nfc, s).value
    decreases s, 0, 1
  {
    hide Normal, NormalFields, Alike, NormalField;
    var i :| 0 <= i < |s| && IsDefined(s[i]) && nfc(s[i].name) == nfc(g.name) && Alike(nfc, s[i].value, g.value);
    DefinedIsNormal(nfc, s, i);
    EntryTellsField(nfc, s, i, g);
  }

  lemma {:induction false} SharedFieldsAlike(nfc: Nfc, s: seq<Named<JsValue>>, t: seq<Named<JsValue>>)
    requires NormalFields(nfc, s).Some? && NormalFields(nfc, t).Some?
    requires forall e :: e in NormalFields(nfc, s).value <==> e in NormalFields(nfc, t).value
    ensures AlikeFields(nfc, s, t)
    decreases s, 1
  {
    hide Normal, NormalFields, Alike, NormalField;
    forall i | 0 <= i < |s| && IsDefined(s[i]) ensures HasAlike(nfc, s[i], t) {
      DefinedIsNormal(nfc, s, i);
      var e := NormalField(nfc, s[i]);
      NormalFieldsAre(nfc, t, e);
      var j :| 0 <= j < |t| && IsDefined(t[j]) && Normal(nfc, t[j].value).Some? && e == NormalField(nfc, t[j]);
      EntryTellsField(nfc, s, i, t[j]);
    }
    forall j | 0 <= j < |t| && IsDefined(t[j]) ensures IsAlikeOf(nfc, s, t[j]) {
      DefinedIsNormal(nfc, t, j);
      var e := NormalField(nfc, t[j]);
      NormalFieldsAre(nfc, s, e);
      var i :| 0 <= i < |s| && IsDefined(s[i]) && Normal(nfc, s[i].value).Some? && e == NormalField(nfc, s[i]);
      EntryTellsField(nfc, s, i, t[j]);
    }
  }

  /** Values that can be printed have one text exactly when they are equal up to the order of names. */
  lemma CanonicalTextsAreFaithful(nfc: Nfc, v: JsValue, w: JsValue)
    requires Idempotent(nfc) && Canon(nfc, v).Some? && Canon(nfc, w).Some?
    ensures Canon(nfc, v) == Canon(nfc, w) <==> Alike(nfc, v, w)
  {
    hide Canon, Normal, Alike;
    CanonRendersNormal(nfc, v);
    CanonRendersNormal(nfc, w);
    TextTellsNormalForm(nfc, v, w);
    NormalTellsValue(nfc, v, w);
  }

  // ---------- Values that are in NFC already ----------

  /** Every name and string is in NFC, and no integer is a big one. */
  predicate Plain(nfc: Nfc, v: JsValue) {
    match v
    case JString(s) => nfc(s) == s
    case JBigInt(_) => false
    case JArray(items) => forall i :: 0 <= i < |items| ==> Plain(nfc, items[i])
    case JObject(fields) => forall i :: 0 <= i < |fields| ==> nfc(fields[i].name) == fields[i].name && Plain(nfc, fields[i].value)
    case _ => true
  }

  /** Between plain values being alike is being equal up to the order of names and undefined fields. */
  lemma {:induction false} AlikeIsSame(nfc: Nfc, a: JsValue, b: JsValue)
    requires Plain(nfc, a) && Plain(nfc, b)
    ensures Alike(nfc, a, b) <==> Same(a, b)
    decreases a
  {
    hide AlikeFields, HasTwin, IsTwin;
    match (a, b)
    case (JArray(s), JArray(t)) =>
      if |s| == |t| {
        forall i | 0 <= i < |s| ensures Alike(nfc, s[i], t[i]) <==> Same(s[i], t[i]) {
          AlikeIsSame(nfc, s[i], t[i]);
        }
      }
    case (JObject(s), JObject(t)) => AlikeFieldsAreSame(nfc, s, t);
    case _ =>
  }

  lemma {:induction false} AlikeFieldsAreSame(nfc: Nfc, s: seq<Named<JsValue>>, t: seq<Named<JsValue>>)
    requires Plain(nfc, JObject(s)) && Plain(nfc, JObject(t))
    ensures AlikeFields(nfc, s, t) <==> Same(JObject(s), JObject(t))
    decreases s
  {
    hide Alike, HasAlike, IsAlikeOf, HasTwin, IsTwin;
    forall i, j | 0 <= i < |s| && 0 <= j < |t| ensures Alike(nfc, s[i].value, t[j].value) <==> Same(s[i].value, t[j].value) {
      AlikeIsSame(nfc, s[i].value, t[j].value);
    }
    forall i | 0 <= i < |s| ensures HasAlike(nfc, s[i], t) <==> HasTwin(s[i], t) {
      TwinIsAlike(nfc, s[i], t);
    }
    forall j | 0 <= j < |t| ensures IsAlikeOf(nfc, s, t[j]) <==> IsTwin(s, t[j]) {
      AlikeIsTwin(nfc, s, t[j]);
    }
  }

  predicate PlainNames(nfc: Nfc, s: seq<Named<JsValue>>) {
    forall i :: 0 <= i < |s| ==> nfc(s[i].name) == s[i].name
  }

  lemma TwinIsAlike(nfc: Nfc, f: Named<JsValue>, t: seq<Named<JsValue>>)
    requires PlainNames(nfc, [f]) && PlainNames(nfc, t)
    requires forall j :: 0 <= j < |t| ==> (Alike(nfc, f.value, t[j].value) <==> Same(f.value, t[j].value))
    ensures HasAlike(nfc, f, t) <==> HasTwin(f, t)
  {
    hide Alike, Same;
    assert nfc([f][0].name) == [f][0].name;
  }

  lemma AlikeIsTwin(nfc: Nfc, s: seq<Named<JsValue>>, g: Named<JsValue>)
    requires PlainNames(nfc, s) && PlainNames(nfc, [g])
    requires forall i :: 0 <= i < |s| ==> (Alike(nfc, s[i].value, g.value) <==> Same(s[i].value, g.value))
    ensures IsAlikeOf(nfc, s, g) <==> IsTwin(s, g)
  {
    hide Alike, Same;
    assert nfc([g][0].name) == [g][0].name;
  }
}
