/**
 * The receipt verifier (scripts/backup/receipt-v2-verify.ts) over the parsed fields of a receipt, and what a verified
 * receipt proves about what was signed. The schema, the date parser, the signature scheme and the digest of the provider
 * evidence are parameters.
 */
module ReceiptVerify {
  import opened Wrappers
  import opened JsStrings
  import opened JsonGrammar
  import opened Canonical
  import opened CanonicalOrder
  import opened CanonicalLaws
  import opened CanonicalSame
  import opened CanonicalFaithful
  import opened ReceiptCanonical
  import Migration
  import Gate
  import GateLaws

  const SIGNATURE: JsString := Ascii("signature")
  const VERSION: JsString := Ascii("schemaVersion")
  const ALGORITHM: JsString := Ascii("signatureAlgorithm")
  const KEY_ID: JsString := Ascii("keyId")
  const ENVIRONMENT: JsString := Ascii("environment")
  const APPLICATION: JsString := Ascii("targetApplication")
  const NONCE: JsString := Ascii("deploymentNonce")
  const IMAGE_REF: JsString := Ascii("targetImageRef")
  const IMAGE_DIGEST: JsString := Ascii("targetImageDigest")
  const COMMIT: JsString := Ascii("sourceCommit")
  const RUNTIME_SET: JsString := Ascii("runtimeMigrationSetHash")
  const PORTABLE_SET: JsString := Ascii("portableMigrationSetHash")
  const PENDING: JsString := Ascii("pendingMigrations")
  const DATABASE_APP: JsString := Ascii("databaseApp")
  const VOLUME: JsString := Ascii("sourceVolumeId")
  const SYSTEM_ID: JsString := Ascii("databaseSystemIdentifier")
  const EVIDENCE_DIGEST: JsString := Ascii("normalizedProviderEvidenceDigest")
  const REQUESTED_AT: JsString := Ascii("snapshotRequestedAt")
  const SNAPSHOT_AT: JsString := Ascii("snapshotCreatedAt")
  const OBSERVED_AT: JsString := Ascii("providerObservedAt")
  const CREATED_AT: JsString := Ascii("receiptCreatedAt")
  const EXPIRES_AT: JsString := Ascii("expiresAt")
  const PRODUCTION: JsString := Ascii("production")

  const INDEX: JsString := Ascii("migrationIndex")
  const TAG: JsString := Ascii("migrationTag")
  const PATH: JsString := Ascii("migrationPath")
  const BYTES: JsString := Ascii("byteLength")
  const SHA256: JsString := Ascii("sha256")

  // ---------- Reading fields ----------

  /** The value of the defined field of this name. */
  function Get(p: Payload, name: JsString): Option<JsValue> {
    if p == [] then None
    else if p[0].name == name && IsDefined(p[0]) then Some(p[0].value)
    else Get(p[1..], name)
  }

  function TextAt(p: Payload, name: JsString): JsString {
    match Get(p, name) case Some(JString(s)) => s case _ => []
  }

  /** How a JavaScript string reads as text. */
  type Reading = JsString -> string

  function EntryOf(text: Reading, v: JsValue): Option<Gate.RuntimeEntry> {
    if !v.JObject? then None
    else
      match (Get(v.fields, INDEX), Get(v.fields, BYTES))
      case (Some(JNumber(index)), Some(JNumber(length))) =>
        if length < 0 then None
        else
          Some(Gate.RuntimeEntry(index, text(TextAt(v.fields, TAG)), text(TextAt(v.fields, PATH)), length,
                                 text(TextAt(v.fields, SHA256))))
      case _ => None
  }

  function EntriesOf(text: Reading, items: seq<JsValue>): Option<seq<Gate.RuntimeEntry>> {
    if items == [] then Some([])
    else
      match (EntryOf(text, items[0]), EntriesOf(text, items[1..]))
      case (Some(e), Some(rest)) => Some([e] + rest)
      case _ => None
  }

  /** The pending migrations a payload lists. */
  function PendingOf(text: Reading, p: Payload): Option<seq<Gate.RuntimeEntry>> {
    match Get(p, PENDING) case Some(JArray(items)) => EntriesOf(text, items) case _ => None
  }

  // ---------- The verifier ----------

  datatype Key = Key(publicKey: JsString, notBefore: Option<int>, notAfter: Option<int>)

  datatype KeyStore = KeyStore(keyring: map<JsString, Key>, revoked: set<JsString>, inactive: set<JsString>)

  datatype Lib = Lib(
    nfc: Nfc,
    sha: JsString -> JsString,
    text: Reading,
    schema: Payload -> bool,
    at: JsString -> int,                             // Date.parse
    soundEncoding: JsString -> bool,                 // of a signature
    signs: (JsString, JsString, JsString) -> bool,   // public key, text, signature
    namespaceOf: JsString -> JsString,               // of an image reference
    boundDigest: JsString -> Option<JsString>,       // of a digest-bound image reference
    evidence: Payload -> bool,                       // provider, statuses, retention and discovery are as expected
    evidenceDigest: Payload -> JsString)

  datatype Expectation = Expectation(
    environment: JsString,
    allowProduction: bool,
    application: JsString,
    databaseApp: JsString,
    volume: JsString,
    systemId: JsString,
    maxSnapshotAge: int,
    commit: JsString,
    namespace: JsString,
    nonce: JsString,
    portableSet: JsString,
    runtimeSet: JsString,
    pending: seq<Gate.RuntimeEntry>,
    startedAt: int,
    versions: set<JsString>,
    algorithms: set<JsString>,
    keys: KeyStore)

  datatype Verdict = Accepted | Rejected(step: nat)

  /** The key may be used at this time. */
  predicate ValidAt(key: Key, time: int) {
    (key.notBefore.Some? ==> key.notBefore.value <= time) && (key.notAfter.Some? ==> time < key.notAfter.value)
  }

  predicate Trusted(keys: KeyStore, id: JsString, key: Key) {
    id !in keys.revoked && id !in keys.inactive && id in keys.keyring && keys.keyring[id] == key
  }

  function Time(lib: Lib, p: Payload, name: JsString): int {
    lib.at(TextAt(p, name))
  }

  /** The checks up to the signature. */
  function VerifySigned(lib: Lib, p: Payload, exp: Expectation): Verdict {
    var signed := Without(p, SIGNATURE);
    var signing := SigningText(lib.nfc, signed);
    var id := TextAt(p, KEY_ID);
    if !lib.schema(p) then Rejected(3)
    else if signing.None? then Rejected(4)
    else if TextAt(p, VERSION) !in exp.versions then Rejected(4)
    else if TextAt(p, ALGORITHM) !in exp.algorithms then Rejected(6)
    else if DeriveId(lib.nfc, lib.sha, signed) != Some(TextAt(p, ID_NAME)) then Rejected(5)
    else if id in exp.keys.revoked then Rejected(6)
    else if id in exp.keys.inactive then Rejected(6)
    else if id !in exp.keys.keyring then Rejected(6)
    else
      var key := exp.keys.keyring[id];
      if !ValidAt(key, Time(lib, p, CREATED_AT)) || !ValidAt(key, exp.startedAt) then Rejected(6)
      else if !lib.soundEncoding(TextAt(p, SIGNATURE)) then Rejected(7)
      else if !lib.signs(key.publicKey, signing.value, TextAt(p, SIGNATURE)) then Rejected(7)
      else Accepted
  }

  /** The checks of what the payload says. */
  function VerifyContent(lib: Lib, p: Payload, exp: Expectation): Verdict {
    var pending := PendingOf(lib.text, p);
    var requested, snapshot, observed := Time(lib, p, REQUESTED_AT), Time(lib, p, SNAPSHOT_AT), Time(lib, p, OBSERVED_AT);
    var created, expires := Time(lib, p, CREATED_AT), Time(lib, p, EXPIRES_AT);
    if TextAt(p, ENVIRONMENT) != exp.environment || TextAt(p, APPLICATION) != exp.application then Rejected(8)
    else if TextAt(p, NONCE) != exp.nonce then Rejected(9)
    else if lib.boundDigest(TextAt(p, IMAGE_REF)) != Some(TextAt(p, IMAGE_DIGEST)) then Rejected(10)
    else if lib.namespaceOf(TextAt(p, IMAGE_REF)) != exp.namespace then Rejected(10)
    else if TextAt(p, COMMIT) != exp.commit then Rejected(11)
    else if TextAt(p, RUNTIME_SET) != exp.runtimeSet || TextAt(p, PORTABLE_SET) != exp.portableSet then Rejected(12)
    else if pending.None? || !Gate.CanonicalPending(pending.value) || pending.value != exp.pending then Rejected(13)
    else if TextAt(p, DATABASE_APP) != exp.databaseApp || TextAt(p, VOLUME) != exp.volume then Rejected(14)
    else if TextAt(p, SYSTEM_ID) != exp.systemId then Rejected(14)
    else if !lib.evidence(p) || lib.evidenceDigest(p) != TextAt(p, EVIDENCE_DIGEST) then Rejected(15)
    else if !(requested <= snapshot) || !(snapshot <= observed) || !(observed <= created) then Rejected(16)
    else if !(created <= exp.startedAt) || !(snapshot < exp.startedAt) then Rejected(16)
    else if exp.startedAt - snapshot > exp.maxSnapshotAge then Rejected(16)
    else if !(exp.startedAt < expires) then Rejected(17)
    else if TextAt(p, ENVIRONMENT) == PRODUCTION && !exp.allowProduction then Rejected(18)
    else Accepted
  }

  function Verify(lib: Lib, p: Payload, exp: Expectation): Verdict {
    var v := VerifySigned(lib, p, exp);
    if v == Accepted then VerifyContent(lib, p, exp) else v
  }

  // ---------- What an accepted receipt shows ----------

  /** A trusted key, valid from the receipt to the migration, signed the fields; the receipt has the id of its content. */
  lemma AcceptedIsSigned(lib: Lib, p: Payload, exp: Expectation) returns (key: Key)
    requires Verify(lib, p, exp) == Accepted
    ensures Trusted(exp.keys, TextAt(p, KEY_ID), key)
    ensures forall time :: Time(lib, p, CREATED_AT) <= time <= exp.startedAt ==> ValidAt(key, time)
    ensures var signing := SigningText(lib.nfc, Without(p, SIGNATURE));
            signing.Some? && lib.signs(key.publicKey, signing.value, TextAt(p, SIGNATURE))
    ensures DeriveId(lib.nfc, lib.sha, Without(p, SIGNATURE)) == Some(TextAt(p, ID_NAME))
  {
    hide SigningText, DeriveId, VerifyContent;
    key := exp.keys.keyring[TextAt(p, KEY_ID)];
  }

  /** The receipt is of the schema and the versions supported, has its own id, and is signed by a key that is trusted, known,
      and valid both when it was made and when the migration starts. */
  predicate IsProperlySigned(lib: Lib, p: Payload, exp: Expectation) {
    var signed, id := Without(p, SIGNATURE), TextAt(p, KEY_ID);
    && lib.schema(p) && SigningText(lib.nfc, signed).Some?
    && TextAt(p, VERSION) in exp.versions && TextAt(p, ALGORITHM) in exp.algorithms
    && DeriveId(lib.nfc, lib.sha, signed) == Some(TextAt(p, ID_NAME))
    && id in exp.keys.keyring && id !in exp.keys.revoked && id !in exp.keys.inactive
    && var key := exp.keys.keyring[id];
       && (key.notBefore.None? || (key.notBefore.value <= Time(lib, p, CREATED_AT) && key.notBefore.value <= exp.startedAt))
       && (key.notAfter.None? || (Time(lib, p, CREATED_AT) < key.notAfter.value && exp.startedAt < key.notAfter.value))
       && lib.soundEncoding(TextAt(p, SIGNATURE))
       && lib.signs(key.publicKey, SigningText(lib.nfc, signed).value, TextAt(p, SIGNATURE))
  }

  /** It is about this release of this application, and this database. */
  predicate IsForThisRelease(lib: Lib, p: Payload, exp: Expectation) {
    && TextAt(p, ENVIRONMENT) == exp.environment && TextAt(p, APPLICATION) == exp.application && TextAt(p, NONCE) == exp.nonce
    && lib.boundDigest(TextAt(p, IMAGE_REF)) == Some(TextAt(p, IMAGE_DIGEST)) && lib.namespaceOf(TextAt(p, IMAGE_REF)) == exp.namespace
    && TextAt(p, COMMIT) == exp.commit && TextAt(p, RUNTIME_SET) == exp.runtimeSet && TextAt(p, PORTABLE_SET) == exp.portableSet
    && TextAt(p, DATABASE_APP) == exp.databaseApp && TextAt(p, VOLUME) == exp.volume && TextAt(p, SYSTEM_ID) == exp.systemId
    && (exp.allowProduction || TextAt(p, ENVIRONMENT) != Ascii("production"))
    && PendingOf(lib.text, p) == Some(exp.pending) && Gate.CanonicalPending(exp.pending)
  }

  /** Its evidence is as expected, and its times are in order, recent and not over. */
  predicate IsTimely(lib: Lib, p: Payload, exp: Expectation) {
    && lib.evidence(p) && lib.evidenceDigest(p) == TextAt(p, EVIDENCE_DIGEST)
    && Time(lib, p, REQUESTED_AT) <= Time(lib, p, SNAPSHOT_AT) <= Time(lib, p, OBSERVED_AT) <= Time(lib, p, CREATED_AT)
    && Time(lib, p, CREATED_AT) <= exp.startedAt < Time(lib, p, EXPIRES_AT)
    && Time(lib, p, SNAPSHOT_AT) < exp.startedAt && exp.startedAt - Time(lib, p, SNAPSHOT_AT) <= exp.maxSnapshotAge
  }

  /** A receipt is accepted exactly when nothing is wrong with it. */
  lemma AcceptedExactly(lib: Lib, p: Payload, exp: Expectation)
    ensures Verify(lib, p, exp) == Accepted <==>
              IsProperlySigned(lib, p, exp) && IsForThisRelease(lib, p, exp) && IsTimely(lib, p, exp)
  {
    hide SigningText, DeriveId, TextAt, PendingOf, Time, Gate.CanonicalPending;
    assert VerifySigned(lib, p, exp) == Accepted <==> IsProperlySigned(lib, p, exp) by { SignedExactly(lib, p, exp); }
    hide VerifySigned, IsProperlySigned;
  }

  lemma SignedExactly(lib: Lib, p: Payload, exp: Expectation)
    ensures VerifySigned(lib, p, exp) == Accepted <==> IsProperlySigned(lib, p, exp)
  {
    hide SigningText, DeriveId, TextAt, Time, Without;
  }

  // ---------- Same fields, same reading ----------

  lemma {:induction false} GetIsThere(p: Payload, name: JsString)
    ensures Get(p, name).Some? ==> exists i :: 0 <= i < |p| && IsDefined(p[i]) && p[i].name == name && p[i].value == Get(p, name).value
    ensures Get(p, name).None? ==> forall i :: 0 <= i < |p| && IsDefined(p[i]) ==> p[i].name != name
  {
    if p != [] {
      GetIsThere(p[1..], name);
      assert forall i :: 0 < i < |p| ==> p[i] == p[1..][i - 1];
      assert forall i :: 0 <= i < |p| - 1 ==> p[1..][i] == p[i + 1];
    }
  }

  lemma GetSame(s: Payload, t: Payload, name: JsString)
    requires DistinctNames(s) && DistinctNames(t) && Same(JObject(s), JObject(t))
    ensures Get(s, name).Some? <==> Get(t, name).Some?
    ensures Get(s, name).Some? ==> Same(Get(s, name).value, Get(t, name).value)
  {
    hide Get;
    GetIsThere(s, name);
    GetIsThere(t, name);
    if Get(s, name).Some? {
      var i :| 0 <= i < |s| && IsDefined(s[i]) && s[i].name == name && s[i].value == Get(s, name).value;
      assert HasTwin(s[i], t);
      var j :| 0 <= j < |t| && IsDefined(t[j]) && t[j].name == name && Same(s[i].value, t[j].value);
    }
    if Get(t, name).Some? {
      var j :| 0 <= j < |t| && IsDefined(t[j]) && t[j].name == name && t[j].value == Get(t, name).value;
      assert IsTwin(s, t[j]);
    }
  }

  lemma TextSame(s: Payload, t: Payload, name: JsString)
    requires DistinctNames(s) && DistinctNames(t) && Same(JObject(s), JObject(t))
    ensures TextAt(s, name) == TextAt(t, name)
  {
    hide Get;
    GetSame(s, t, name);
  }

  lemma EntrySame(text: Reading, v: JsValue, w: JsValue)
    requires WellKeyed(v) && WellKeyed(w) && Same(v, w)
    ensures EntryOf(text, v) == EntryOf(text, w)
  {
    hide Get, TextAt, Same;
    assert v.JObject? <==> w.JObject? by { SameKind(v, w); }
    if v.JObject? {
      GetSame(v.fields, w.fields, INDEX);
      GetSame(v.fields, w.fields, BYTES);
      NumbersSame(Get(v.fields, INDEX), Get(w.fields, INDEX));
      NumbersSame(Get(v.fields, BYTES), Get(w.fields, BYTES));
      TextSame(v.fields, w.fields, TAG);
      TextSame(v.fields, w.fields, PATH);
      TextSame(v.fields, w.fields, SHA256);
    }
  }

  lemma SameKind(v: JsValue, w: JsValue)
    requires Same(v, w)
    ensures (v.JObject? <==> w.JObject?) && (v.JArray? <==> w.JArray?)
  {
  }

  lemma NumbersSame(a: Option<JsValue>, b: Option<JsValue>)
    requires (a.Some? <==> b.Some?) && (a.Some? ==> Same(a.value, b.value))
    ensures a.Some? && (a.value.JNumber? || b.value.JNumber?) ==> a == b
  {
  }

  lemma {:induction false} EntriesSame(text: Reading, s: seq<JsValue>, t: seq<JsValue>)
    requires |s| == |t| && forall i :: 0 <= i < |s| ==> WellKeyed(s[i]) && WellKeyed(t[i]) && Same(s[i], t[i])
    ensures EntriesOf(text, s) == EntriesOf(text, t)
  {
    hide EntryOf, WellKeyed, Same;
    if s != [] {
      EntrySame(text, s[0], t[0]);
      EntriesSame(text, s[1..], t[1..]);
    }
  }

  lemma {:induction false} GetIsKeyed(p: Payload, name: JsString)
    requires WellKeyed(JObject(p)) && Get(p, name).Some?
    ensures WellKeyed(Get(p, name).value)
  {
    hide Get;
    GetIsThere(p, name);
  }

  /** Payloads that differ only in the order of their fields, at any depth, list the same pending migrations. */
  lemma PendingSame(text: Reading, p: Payload, q: Payload)
    requires WellKeyed(JObject(p)) && WellKeyed(JObject(q)) && Same(JObject(p), JObject(q))
    ensures PendingOf(text, p) == PendingOf(text, q)
  {
    hide Get, EntriesOf;
    GetSame(p, q, PENDING);
    if Get(p, PENDING).Some? {
      var v, w := Get(p, PENDING).value, Get(q, PENDING).value;
      SameKind(v, w);
      GetIsKeyed(p, PENDING);
      GetIsKeyed(q, PENDING);
      if v.JArray? {
        EntriesSame(text, v.items, w.items);
      }
    }
  }

  lemma {:induction false} GetWithout(p: Payload, name: JsString, other: JsString)
    requires name != other
    ensures Get(Without(p, other), name) == Get(p, name)
  {
    if p != [] {
      GetWithout(p[1..], name, other);
      var rest := Without(p[1..], other);
      assert ([p[0]] + rest)[1..] == rest;
    }
  }

  lemma {:induction false} WithoutIsPart(p: Payload, name: JsString)
    ensures forall i :: 0 <= i < |Without(p, name)| ==> Without(p, name)[i] in p
    ensures DistinctNames(p) ==> DistinctNames(Without(p, name))
  {
    if p != [] {
      var rest := Without(p[1..], name);
      WithoutIsPart(p[1..], name);
      assert p == [p[0]] + p[1..];
      if DistinctNames(p) {
        DistinctCons(p[0], p[1..]);
        assert DistinctNames(rest);
        forall i | 0 <= i < |rest| ensures rest[i].name != p[0].name {
          var k :| 0 <= k < |p[1..]| && p[1..][k] == rest[i];
          assert p[k + 1] == rest[i];
        }
        assert !HasName(rest, p[0].name);
        DistinctCons(p[0], rest);
      }
    }
  }

  /** A payload as the schema lets it through: names and texts in NFC, no big integers, no name twice in an object. */
  predicate Shaped(nfc: Nfc, p: Payload) {
    Plain(nfc, JObject(p)) && WellKeyed(JObject(p))
  }

  lemma ShapedWithout(nfc: Nfc, p: Payload, name: JsString)
    requires Shaped(nfc, p)
    ensures Shaped(nfc, Without(p, name))
  {
    hide Without;
    WithoutIsPart(p, name);
    var q := Without(p, name);
    forall i | 0 <= i < |q|
      ensures nfc(q[i].name) == q[i].name && Plain(nfc, q[i].value) && WellKeyed(q[i].value)
    {
      var k :| 0 <= k < |p| && p[k] == q[i];
    }
  }

  /** The payload is about this deployment and these pending migrations, and its snapshot is recent enough. */
  predicate Binds(lib: Lib, p: Payload, exp: Expectation) {
    && PendingOf(lib.text, p) == Some(exp.pending)
    && TextAt(p, ENVIRONMENT) == exp.environment && TextAt(p, APPLICATION) == exp.application
    && TextAt(p, NONCE) == exp.nonce && TextAt(p, COMMIT) == exp.commit && TextAt(p, SYSTEM_ID) == exp.systemId
    && TextAt(p, RUNTIME_SET) == exp.runtimeSet && TextAt(p, PORTABLE_SET) == exp.portableSet
    && Time(lib, p, SNAPSHOT_AT) <= Time(lib, p, CREATED_AT) <= exp.startedAt < Time(lib, p, EXPIRES_AT)
    && Time(lib, p, SNAPSHOT_AT) < exp.startedAt <= Time(lib, p, SNAPSHOT_AT) + exp.maxSnapshotAge
  }

  /** What a payload is about does not depend on its signature or on the order of its fields. */
  lemma SameBinds(lib: Lib, p: Payload, q: Payload, exp: Expectation)
    requires Shaped(lib.nfc, p) && Shaped(lib.nfc, q) && Same(JObject(p), JObject(q)) && Binds(lib, p, exp)
    ensures Binds(lib, q, exp)
  {
    hide TextAt, PendingOf, Same, Plain, WellKeyed;
    assert DistinctNames(p) && DistinctNames(q) by { KeyedNames(p); KeyedNames(q); }
    PendingSame(lib.text, p, q);
    forall name ensures TextAt(p, name) == TextAt(q, name) {
      TextSame(p, q, name);
    }
  }

  lemma KeyedNames(p: Payload)
    requires WellKeyed(JObject(p))
    ensures DistinctNames(p)
  {
  }

  lemma NamesDiffer()
    ensures |SIGNATURE| == 9 && |PENDING| != 9 && |ENVIRONMENT| != 9 && |APPLICATION| != 9 && |NONCE| != 9
    ensures |COMMIT| != 9 && |SYSTEM_ID| != 9 && |RUNTIME_SET| != 9 && |PORTABLE_SET| != 9
    ensures |SNAPSHOT_AT| != 9 && |CREATED_AT| != 9 && EXPIRES_AT != SIGNATURE
  {
    assert EXPIRES_AT[0] != SIGNATURE[0];
  }

  lemma TextWithout(p: Payload, name: JsString)
    requires name != SIGNATURE
    ensures TextAt(Without(p, SIGNATURE), name) == TextAt(p, name)
  {
    hide Get, Without, SIGNATURE;
    GetWithout(p, name, SIGNATURE);
  }

  lemma PendingWithout(text: Reading, p: Payload)
    ensures PendingOf(text, Without(p, SIGNATURE)) == PendingOf(text, p)
  {
    hide Get, Without;
    NamesDiffer();
    GetWithout(p, PENDING, SIGNATURE);
  }

  lemma BindsWithoutSignature(lib: Lib, p: Payload, exp: Expectation)
    requires Binds(lib, p, exp)
    ensures Binds(lib, Without(p, SIGNATURE), exp)
  {
    hide TextAt, PendingOf, Without, PENDING, ENVIRONMENT, APPLICATION, NONCE, COMMIT, SYSTEM_ID, RUNTIME_SET,
         PORTABLE_SET, SNAPSHOT_AT, CREATED_AT, EXPIRES_AT, SIGNATURE;
    NamesDiffer();
    PendingWithout(lib.text, p);
    forall name | name != SIGNATURE ensures TextAt(Without(p, SIGNATURE), name) == TextAt(p, name) {
      TextWithout(p, name);
    }
  }

  /** This receipt is not forged: if the key it names is trusted and its signature is valid over its fields, the holder of
      the key issued a payload with that signing text. Nothing is assumed of any other text or signature. */
  ghost predicate Unforged(lib: Lib, keys: KeyStore, p: Payload, issued: Payload -> bool) {
    var signing := SigningText(lib.nfc, Without(p, SIGNATURE));
    signing.Some? ==>
      forall key :: Trusted(keys, TextAt(p, KEY_ID), key) && lib.signs(key.publicKey, signing.value, TextAt(p, SIGNATURE)) ==>
        WasIssued(lib, issued, signing.value)
  }

  ghost predicate WasIssued(lib: Lib, issued: Payload -> bool, text: JsString) {
    exists q :: issued(q) && SigningText(lib.nfc, q) == Some(text)
  }

  /** The schema lets only shaped payloads through, and only such are issued. */
  ghost predicate ShapesOnly(lib: Lib, issued: Payload -> bool) {
    forall p :: lib.schema(p) || issued(p) ==> Shaped(lib.nfc, p)
  }

  /** An accepted receipt that is not forged is, up to the order of its fields, one that was issued, and
      what was issued is about this deployment and lists exactly the expected pending migrations. */
  lemma AcceptedWasIssued(lib: Lib, p: Payload, exp: Expectation, issued: Payload -> bool) returns (q: Payload)
    requires Idempotent(lib.nfc) && ShapesOnly(lib, issued) && Unforged(lib, exp.keys, p, issued)
    requires Verify(lib, p, exp) == Accepted
    ensures issued(q) && Same(JObject(Without(p, SIGNATURE)), JObject(q)) && Binds(lib, q, exp)
  {
    hide SigningText, Same, Shaped, Binds, Verify, Trusted, AlikeFields, Alike, DeriveId;
    var key := AcceptedIsSigned(lib, p, exp);
    assert lib.schema(p) && Binds(lib, p, exp) by { AcceptedBinds(lib, p, exp); }
    var signed := Without(p, SIGNATURE);
    ShapedWithout(lib.nfc, p, SIGNATURE);
    BindsWithoutSignature(lib, p, exp);
    assert WasIssued(lib, issued, SigningText(lib.nfc, signed).value);
    q :| issued(q) && SigningText(lib.nfc, q) == SigningText(lib.nfc, signed);
    SigningTextsAreFaithful(lib.nfc, signed, q);
    assert Plain(lib.nfc, JObject(signed)) && Plain(lib.nfc, JObject(q)) by { ShapedIsPlain(lib.nfc, signed); ShapedIsPlain(lib.nfc, q); }
    AlikeFieldsAreSame(lib.nfc, signed, q);
    SameBinds(lib, signed, q, exp);
  }

  lemma ShapedIsPlain(nfc: Nfc, p: Payload)
    requires Shaped(nfc, p)
    ensures Plain(nfc, JObject(p))
  {
  }

  lemma AcceptedBinds(lib: Lib, p: Payload, exp: Expectation)
    requires Verify(lib, p, exp) == Accepted
    ensures lib.schema(p) && Binds(lib, p, exp)
  {
    hide SigningText, DeriveId, TextAt, PendingOf;
  }

  // ---------- The gate over this verifier ----------

  /** The receipt that was fetched is accepted for these pending migrations. */
  function ReceiptFor(lib: Lib, fetched: Option<Payload>, exp: Expectation): seq<Gate.RuntimeEntry> -> bool {
    pending => fetched.Some? && Verify(lib, fetched.value, exp.(pending := pending)) == Accepted
  }

  /** The payload was issued with the fields of the receipt, and binds what the gate expects. */
  ghost predicate IssuedFor(lib: Lib, p: Payload, exp: Expectation, issued: Payload -> bool) {
    exists q :: issued(q) && Same(JObject(Without(p, SIGNATURE)), JObject(q)) && Binds(lib, q, exp)
  }

  /**
   * An enforced gate lets nothing through but a catalog-verified empty database, or exactly the files that are not applied
   * yet; and those are the ones listed in a payload the holder of a trusted key issued for this deployment and database,
   * if the receipt that was fetched is not forged.
   */
  lemma GateRunsWhatWasIssued(c: GateLaws.Config, probe: Option<GateLaws.Probe>, release: GateLaws.Release,
                              inp: Migration.Input, lib: Lib, fetched: Option<Payload>, exp: Expectation,
                              issued: Payload -> bool)
    requires c.enforced && GateLaws.GoodRelease(inp.source, release.journal, release.entries)
    requires probe.Some? ==> GateLaws.Reports(c, probe.value, inp)
    requires Idempotent(lib.nfc) && ShapesOnly(lib, issued)
    requires fetched.Some? ==> Unforged(lib, exp.keys, fetched.value, issued)
    ensures match GateLaws.RunPreMigrationGate(c, probe, Some(release), ReceiptFor(lib, fetched, exp))
            case LocalBypass => false
            case BootstrapBypass => Migration.Classification(inp).state == Migration.BootstrapEmpty
            case Verified(pending) =>
              && probe.Some? && |probe.value.applied| <= |release.entries|
              && pending == release.entries[|probe.value.applied|..]
              && fetched.Some? && IssuedFor(lib, fetched.value, exp.(pending := pending), issued)
            case Refused => true
  {
    hide Verify, Unforged, ShapesOnly, Same, Idempotent, Binds, GateLaws.GoodRelease, Migration.Classification;
    var oracle := ReceiptFor(lib, fetched, exp);
    GateLaws.EnforcedGateNeedsReceiptOrEmptyDatabase(c, probe, release, oracle, inp);
    var verdict := GateLaws.RunPreMigrationGate(c, probe, Some(release), oracle);
    if verdict.Verified? {
      assert probe.Some?;
      hide GateLaws.RunPreMigrationGate;
      var q := AcceptedWasIssued(lib, fetched.value, exp.(pending := verdict.pending), issued);
    }
  }

  // ---------- Writing and reading a pending list ----------

  /** How text is written as a JavaScript string. */
  type Writing = string -> JsString

  function EntryValue(units: Writing, e: Gate.RuntimeEntry): JsValue {
    JObject([Named(Ascii("migrationIndex"), JNumber(e.migrationIndex)), Named(Ascii("migrationTag"), JString(units(e.migrationTag))),
             Named(Ascii("migrationPath"), JString(units(e.migrationPath))), Named(Ascii("byteLength"), JNumber(e.byteLength)),
             Named(Ascii("sha256"), JString(units(e.sha256)))])
  }

  function PendingValue(units: Writing, entries: seq<Gate.RuntimeEntry>): JsValue {
    JArray(seq(|entries|, i requires 0 <= i < |entries| => EntryValue(units, entries[i])))
  }

  ghost predicate ReadsWhatIsWritten(text: Reading, units: Writing) {
    forall s :: text(units(s)) == s
  }

  lemma EntryNamesDiffer()
    ensures |INDEX| == 14 && |TAG| == 12 && |PATH| == 13 && |BYTES| == 10 && |SHA256| == 6
  {
  }

  lemma EntryComesBack(text: Reading, units: Writing, e: Gate.RuntimeEntry)
    requires ReadsWhatIsWritten(text, units)
    ensures EntryOf(text, EntryValue(units, e)) == Some(e)
  {
    EntryNamesDiffer();
    hide INDEX, TAG, PATH, BYTES, SHA256;
    var f := EntryValue(units, e).fields;
    var f1, f2, f3, f4 := f[1..], f[1..][1..], f[1..][1..][1..], f[1..][1..][1..][1..];
    NamesAsWritten();
    assert Get(f, INDEX) == Some(JNumber(e.migrationIndex));
    assert Get(f, TAG) == Get(f1, TAG) == Some(JString(units(e.migrationTag)));
    assert Get(f, PATH) == Get(f1, PATH) == Get(f2, PATH) == Some(JString(units(e.migrationPath)));
    assert Get(f, BYTES) == Get(f1, BYTES) == Get(f2, BYTES) == Get(f3, BYTES) == Some(JNumber(e.byteLength));
    assert Get(f, SHA256) == Get(f1, SHA256) == Get(f2, SHA256) == Get(f3, SHA256) == Get(f4, SHA256) == Some(JString(units(e.sha256)));
  }

  lemma NamesAsWritten()
    ensures INDEX == Ascii("migrationIndex") && TAG == Ascii("migrationTag") && PATH == Ascii("migrationPath")
    ensures BYTES == Ascii("byteLength") && SHA256 == Ascii("sha256")
  {
  }

  lemma {:induction false} EntriesComeBack(text: Reading, units: Writing, entries: seq<Gate.RuntimeEntry>)
    requires ReadsWhatIsWritten(text, units)
    ensures EntriesOf(text, PendingValue(units, entries).items) == Some(entries)
    decreases |entries|
  {
    hide EntryOf, EntryValue, ReadsWhatIsWritten;
    if entries != [] {
      EntryComesBack(text, units, entries[0]);
      EntriesComeBack(text, units, entries[1..]);
      assert PendingValue(units, entries).items[1..] == PendingValue(units, entries[1..]).items;
      assert entries == [entries[0]] + entries[1..];
    }
  }

  /** A pending list that is written into a payload is read back from it. */
  lemma PendingComesBack(text: Reading, units: Writing, entries: seq<Gate.RuntimeEntry>, p: Payload)
    requires ReadsWhatIsWritten(text, units) && Get(p, PENDING) == Some(PendingValue(units, entries))
    ensures PendingOf(text, p) == Some(entries)
  {
    hide Get, ReadsWhatIsWritten;
    EntriesComeBack(text, units, entries);
  }
}
