/**
 * Receipt ids and signing bytes (scripts/backup/receipt-v2-canonical.ts) over the canonicalizer. SHA-256 is a parameter;
 * texts stand for their UTF-8 bytes.
 */
module ReceiptCanonical {
  import opened Wrappers
  import opened JsStrings
  import opened JsonGrammar
  import opened Canonical
  import opened CanonicalLaws
  import opened CanonicalFaithful

  function Ascii(s: string): (r: JsString)
    requires forall c :: c in s ==> c < 128 as char
    ensures |r| == |s| && forall i :: 0 <= i < |s| ==> r[i] as int == s[i] as int
  {
    seq(|s|, i requires 0 <= i < |s| => assert s[i] in s; (s[i] as int) as CodeUnit)
  }

  const ID_NAME: JsString := Ascii("receiptId")
  const SIGN_DOMAIN: JsString := Ascii("gbackup-receipt/v2\n")
  const ID_DOMAIN: JsString := Ascii("gbackup-receipt-id/v2\n")
  const ID_PREFIX: JsString := Ascii("rcpt2_")

  type Payload = seq<Named<JsValue>>

  /** The fields but the one of this name. */
  function Without(p: Payload, name: JsString): Payload {
    if p == [] then []
    else if p[0].name == name then Without(p[1..], name)
    else [p[0]] + Without(p[1..], name)
  }

  function WithoutId(p: Payload): Payload {
    Without(p, ID_NAME)
  }

  function IdText(nfc: Nfc, p: Payload): Option<JsString> {
    match Canon(nfc, JObject(WithoutId(p))) case None => None case Some(text) => Some(ID_DOMAIN + text)
  }

  /** The id of a payload, or None where the canonicalizer throws. */
  function DeriveId(nfc: Nfc, sha: JsString -> JsString, p: Payload): Option<JsString> {
    match IdText(nfc, p) case None => None case Some(text) => Some(ID_PREFIX + sha(text))
  }

  /** The payload with its own id in it, where it was or at the end. */
  function WithId(p: Payload, id: JsString): Payload {
    if p == [] then [Named(ID_NAME, JString(id))]
    else if p[0].name == ID_NAME then [Named(ID_NAME, JString(id))] + p[1..]
    else [p[0]] + WithId(p[1..], id)
  }

  function FinalizeId(nfc: Nfc, sha: JsString -> JsString, p: Payload): Option<Payload> {
    match DeriveId(nfc, sha, p) case None => None case Some(id) => Some(WithId(p, id))
  }

  function SigningText(nfc: Nfc, p: Payload): Option<JsString> {
    match Canon(nfc, JObject(p)) case None => None case Some(text) => Some(SIGN_DOMAIN + text)
  }

  lemma {:induction false} IdLeavesNoTrace(p: Payload, id: JsString)
    ensures WithoutId(WithId(p, id)) == WithoutId(p)
    ensures Named(ID_NAME, JString(id)) in WithId(p, id)
  {
    if p == [] {
      assert [Named(ID_NAME, JString(id))][1..] == [];
    } else if p[0].name == ID_NAME {
      assert ([Named(ID_NAME, JString(id))] + p[1..])[1..] == p[1..];
    } else {
      IdLeavesNoTrace(p[1..], id);
      assert ([p[0]] + WithId(p[1..], id))[1..] == WithId(p[1..], id);
    }
  }

  /** A finalized payload holds exactly the id that is derived from it. */
  lemma FinalizedIdIsItsOwn(nfc: Nfc, sha: JsString -> JsString, p: Payload)
    ensures var q := FinalizeId(nfc, sha, p);
            q.Some? ==>
              var id := DeriveId(nfc, sha, q.value);
              id == DeriveId(nfc, sha, p) && id.Some? && Named(ID_NAME, JString(id.value)) in q.value
  {
    var id := DeriveId(nfc, sha, p);
    if id.Some? {
      IdLeavesNoTrace(p, id.value);
    }
  }

  lemma SamePrefix(prefix: JsString, a: JsString, b: JsString)
    ensures prefix + a == prefix + b <==> a == b
  {
    assert (prefix + a)[|prefix|..] == a && (prefix + b)[|prefix|..] == b;
  }

  /** Where the digests of two id texts do not collide, equal ids mean equal fields apart from the id, and the other way
      round. */
  lemma IdsAreFaithful(nfc: Nfc, sha: JsString -> JsString, p: Payload, q: Payload)
    requires Idempotent(nfc) && IdText(nfc, p).Some? && IdText(nfc, q).Some?
    requires sha(IdText(nfc, p).value) == sha(IdText(nfc, q).value) ==> IdText(nfc, p) == IdText(nfc, q)
    ensures DeriveId(nfc, sha, p) == DeriveId(nfc, sha, q)
       <==> AlikeFields(nfc, WithoutId(p), WithoutId(q))
  {
    hide Canon, Normal, AlikeFields;
    var a, b := JObject(WithoutId(p)), JObject(WithoutId(q));
    CanonicalTextsAreFaithful(nfc, a, b);
    SamePrefix(ID_DOMAIN, Canon(nfc, a).value, Canon(nfc, b).value);
    SamePrefix(ID_PREFIX, sha(IdText(nfc, p).value), sha(IdText(nfc, q).value));
  }

  /** One signature covers one payload: equal signing texts mean equal fields, and the other way round. */
  lemma SigningTextsAreFaithful(nfc: Nfc, p: Payload, q: Payload)
    requires Idempotent(nfc) && SigningText(nfc, p).Some? && SigningText(nfc, q).Some?
    ensures SigningText(nfc, p) == SigningText(nfc, q) <==> AlikeFields(nfc, p, q)
  {
    hide Canon, Normal, AlikeFields;
    CanonicalTextsAreFaithful(nfc, JObject(p), JObject(q));
    SamePrefix(SIGN_DOMAIN, Canon(nfc, JObject(p)).value, Canon(nfc, JObject(q)).value);
  }

  /** No text is both signed and hashed into an id. */
  lemma DomainsAreSeparate(nfc: Nfc, p: Payload, q: Payload)
    requires SigningText(nfc, p).Some?
    ensures SigningText(nfc, p) != IdText(nfc, q)
  {
    hide Canon;
    if IdText(nfc, q).Some? {
      assert SigningText(nfc, p).value[15] == SIGN_DOMAIN[15];
      assert IdText(nfc, q).value[15] == ID_DOMAIN[15];
    }
  }

  /** An id is the digest of the canonical text of all fields but the id, behind its domain; a signing text is that of all
      fields, behind another. */
  lemma ReceiptTextsAre(nfc: Nfc, sha: JsString -> JsString, p: Payload)
    ensures DeriveId(nfc, sha, p) ==
            match Canon(nfc, JObject(WithoutId(p)))
            case None => None
            case Some(content) => Some(Ascii("rcpt2_") + sha(Ascii("gbackup-receipt-id/v2\n") + content))
    ensures SigningText(nfc, p) ==
            match Canon(nfc, JObject(p)) case None => None case Some(content) => Some(Ascii("gbackup-receipt/v2\n") + content)
    ensures forall f :: f in WithoutId(p) <==> f in p && f.name != Ascii("receiptId")
  {
    hide Canon;
    OthersStay(p);
  }

  lemma {:induction false} OthersStay(p: Payload)
    ensures forall f :: f in WithoutId(p) <==> f in p && f.name != ID_NAME
  {
    if p != [] {
      OthersStay(p[1..]);
      assert p == [p[0]] + p[1..];
    }
  }
}
