/** The claims of the seven signed records as closed JSON objects (connector/protocol.py: _claims_mapping
    and the record parsers). For each record: its values in key order, the record read back from such
    values, and that the two undo each other. */
module WireClaims {
  import opened Prelude
  import opened Records
  import opened Json
  import opened Schema
  import opened WireValues

  lemma ScopesDict(xs: seq<Scope>)
    ensures IsDict(ScopesValue(xs))
  {
    forall i | 0 <= i < |xs| ensures IsDict(ScopeValue(xs[i])) { ScopeDict(xs[i]); }
  }

  lemma ScopeDict(s: Scope)
    ensures IsDict(ScopeValue(s))
  {
    hide Less;
    LessAt("capability_id", "data_scope", 0);
    LessAt("data_scope", "operation", 0);
    LessAt("operation", "source", 0);
    ObjectIsDict(
      SCOPE_KEYS, [OptionalText(s.capability), Str(DataScopeText(s.dataScope)), Str(s.operation), Str(s.source)]);
  }

  // ------------------------------------------------------------------ the objects inside a receipt

  const FAILURE_KEYS := ["cause_code", "failure_class"]
  const USAGE_KEYS := ["remaining", "sequence"]
  const BACKEND_KEYS := ["backend_id", "backend_version"]

  function FailureValue(f: Option<ReceiptFailure>): Value {
    if f.None? then Null
    else Object(FAILURE_KEYS, [Str(CodeText(f.value.causeCode)), Str(CategoryText(f.value.failureClass))])
  }

  function FailureOf(v: Value): Option<Option<ReceiptFailure>> {
    if v.Null? then Some(None)
    else
      var w := ValuesOf(FAILURE_KEYS, v);
      if w.Some? && w.value[0].Str? && w.value[1].Str? && CodeOf(w.value[0].s).Some?
         && CategoryNamed(w.value[1].s).Some?
      then Some(Some(ReceiptFailure(CategoryNamed(w.value[1].s).value, CodeOf(w.value[0].s).value)))
      else None
  }

  lemma FailuresAgree(v: Value, f: Option<ReceiptFailure>)
    ensures FailureOf(v) == Some(f) <==> v == FailureValue(f)
  {
    hide ValuesOf, Object, CodeOf, CodeText, CategoryNamed, CategoryText;
    if f.Some? {
      var values := [Str(CodeText(f.value.causeCode)), Str(CategoryText(f.value.failureClass))];
      ReadsBuilt(FAILURE_KEYS, values, v);
      CodesRoundTrip(CodeText(f.value.causeCode), f.value.causeCode);
      CategoriesRoundTrip(CategoryText(f.value.failureClass), f.value.failureClass);
      ObjectsAreObj(FAILURE_KEYS, values);
      var w := ValuesOf(FAILURE_KEYS, v);
      if w.Some? && w.value[0].Str? && w.value[1].Str? {
        CodesRoundTrip(w.value[0].s, f.value.causeCode);
        CategoriesRoundTrip(w.value[1].s, f.value.failureClass);
        assert w.value == [w.value[0], w.value[1]];
      }
    }
  }

  lemma ObjectsAreObj(keys: seq<string>, values: seq<Value>)
    requires |keys| == |values|
    ensures Object(keys, values).Obj?
  {
  }

  function UsageValue(u: Option<ReceiptUsage>): Value {
    if u.None? then Null else Object(USAGE_KEYS, [Int(u.value.remaining), Int(u.value.sequence)])
  }

  function UsageOf(v: Value): Option<Option<ReceiptUsage>> {
    if v.Null? then Some(None)
    else
      var w := ValuesOf(USAGE_KEYS, v);
      if w.Some? && w.value[0].Int? && w.value[1].Int?
      then Some(Some(ReceiptUsage(w.value[1].n, w.value[0].n)))
      else None
  }

  lemma UsagesAgree(v: Value, u: Option<ReceiptUsage>)
    ensures UsageOf(v) == Some(u) <==> v == UsageValue(u)
  {
    hide ValuesOf, Object;
    if u.Some? {
      var values := [Int(u.value.remaining), Int(u.value.sequence)];
      ReadsBuilt(USAGE_KEYS, values, v);
      ObjectsAreObj(USAGE_KEYS, values);
      var w := ValuesOf(USAGE_KEYS, v);
      assert w.Some? ==> w.value == [w.value[0], w.value[1]];
    }
  }

  function BackendValue(b: Option<BackendIdentity>): Value {
    if b.None? then Null else Object(BACKEND_KEYS, [Str(b.value.backendId), Str(b.value.backendVersion)])
  }

  function BackendOf(v: Value): Option<Option<BackendIdentity>> {
    if v.Null? then Some(None)
    else
      var w := ValuesOf(BACKEND_KEYS, v);
      if w.Some? && w.value[0].Str? && w.value[1].Str?
      then Some(Some(BackendIdentity(w.value[0].s, w.value[1].s)))
      else None
  }

  lemma BackendsAgree(v: Value, b: Option<BackendIdentity>)
    ensures BackendOf(v) == Some(b) <==> v == BackendValue(b)
  {
    hide ValuesOf, Object;
    if b.Some? {
      var values := [Str(b.value.backendId), Str(b.value.backendVersion)];
      ReadsBuilt(BACKEND_KEYS, values, v);
      ObjectsAreObj(BACKEND_KEYS, values);
      var w := ValuesOf(BACKEND_KEYS, v);
      assert w.Some? ==> w.value == [w.value[0], w.value[1]];
    }
  }

  lemma DecisionsAgree(v: Value, d: Decision)
    ensures (v.Str? && DecisionNamed(v.s) == Some(d)) <==> v == Str(DecisionText(d))
  {
  }

  lemma OutcomesAgree(v: Value, o: Outcome)
    ensures (v.Str? && OutcomeNamed(v.s) == Some(o)) <==> v == Str(OutcomeText(o))
  {
  }

  lemma SmallDicts(r: SignedReceipt)
    ensures IsDict(BackendValue(r.backend)) && IsDict(FailureValue(r.failure)) && IsDict(UsageValue(r.usage))
  {
    hide Less, CodeText, CategoryText;
    LessAt("cause_code", "failure_class", 0);
    LessAt("remaining", "sequence", 0);
    LessAt("backend_id", "backend_version", 8);
    if r.backend.Some? {
      ObjectIsDict(BACKEND_KEYS, [Str(r.backend.value.backendId), Str(r.backend.value.backendVersion)]);
    }
    if r.failure.Some? {
      ObjectIsDict(
        FAILURE_KEYS, [Str(CodeText(r.failure.value.causeCode)), Str(CategoryText(r.failure.value.failureClass))]);
    }
    if r.usage.Some? {
      ObjectIsDict(USAGE_KEYS, [Int(r.usage.value.remaining), Int(r.usage.value.sequence)]);
    }
  }

  // ------------------------------------------------------------------ pairing-init

  const INIT_KEYS := [
    "deadline", "device_label", "endpoint_digest", "grant_expires_at", "grant_max_uses", "issued_at", "pairing_id",
    "requested_scopes", "signature_algorithm", "vps_key_id", "vps_nonce", "vps_public_key"]

  function InitSlots(r: PairingInit): (vs: seq<Value>)
    ensures |vs| == |INIT_KEYS|
  {
    [
      Int(r.deadline), Str(r.deviceLabel), Str(r.endpointDigest), Int(r.grantExpiresAt), Int(r.grantMaxUses),
      Int(r.issuedAt), Str(r.pairingId), ScopesValue(r.requestedScopes), Str(SIGNATURE), Str(r.vpsKeyId),
      Str(r.vpsNonce), Str(r.vpsPublicKey)]
  }

  function InitOfSlots(messageId: Id, w: seq<Value>, signature: Bytes): Option<PairingInit>
    requires |w| == |INIT_KEYS|
  {
    if
      w[0].Int? && w[1].Str? && w[2].Str? && w[3].Int? && w[4].Int? && w[5].Int? && w[6].Str?
      && ScopesOf(w[7]).Some? && w[8] == Str(SIGNATURE) && w[9].Str? && w[10].Str? && w[11].Str?
    then
      Some(PairingInit(
        messageId, w[6].s, w[11].s, w[9].s, w[1].s, w[10].s, w[2].s, ScopesOf(w[7]).value, w[3].n, w[4].n, w[5].n,
        w[0].n, signature))
    else None
  }

  lemma InitSlotsAgree(messageId: Id, w: seq<Value>, signature: Bytes, r: PairingInit)
    requires |w| == |INIT_KEYS|
    ensures InitOfSlots(messageId, w, signature) == Some(r) <==>
              r.messageId == messageId && r.signature == signature && w == InitSlots(r)
  {
    hide ScopesOf, ScopesValue;
    ScopeListsAgree(w[7], r.requestedScopes);
    if InitOfSlots(messageId, w, signature) == Some(r) {
      assert w == [
        w[0], w[1], w[2], w[3], w[4], w[5], w[6], w[7], w[8], w[9], w[10], w[11]];
    }
  }

  lemma InitKeysAscend1()
    ensures forall i | 0 <= i < 6 :: Less(INIT_KEYS[i], INIT_KEYS[i + 1])
  {
    hide Less;
    LessAt("deadline", "device_label", 2);
    LessAt("device_label", "endpoint_digest", 0);
    LessAt("endpoint_digest", "grant_expires_at", 0);
    LessAt("grant_expires_at", "grant_max_uses", 6);
    LessAt("grant_max_uses", "issued_at", 0);
    LessAt("issued_at", "pairing_id", 0);
  }

  lemma InitKeysAscend2()
    ensures forall i | 6 <= i < 11 :: Less(INIT_KEYS[i], INIT_KEYS[i + 1])
  {
    hide Less;
    LessAt("pairing_id", "requested_scopes", 0);
    LessAt("requested_scopes", "signature_algorithm", 0);
    LessAt("signature_algorithm", "vps_key_id", 0);
    LessAt("vps_key_id", "vps_nonce", 4);
    LessAt("vps_nonce", "vps_public_key", 4);
  }

  lemma InitKeysAscend()
    ensures Ascending(INIT_KEYS)
  {
    hide Less;
    InitKeysAscend1();
    InitKeysAscend2();
  }

  lemma InitDict(r: PairingInit)
    ensures IsDict(Object(INIT_KEYS, InitSlots(r)))
  {
    hide Ascending, ScopesValue;
    InitKeysAscend();
    ScopesDict(r.requestedScopes);
    ObjectIsDict(INIT_KEYS, InitSlots(r));
  }

  // ------------------------------------------------------------------ pairing-challenge

  const CHALLENGE_KEYS := [
    "connector_key_id", "connector_nonce", "connector_public_key", "deadline", "init_digest", "issued_at",
    "pairing_id", "signature_algorithm", "tls_ca_der", "tls_ca_fingerprint", "tls_leaf_fingerprint", "vps_key_id"]

  function ChallengeSlots(r: PairingChallenge): (vs: seq<Value>)
    ensures |vs| == |CHALLENGE_KEYS|
  {
    [
      Str(r.connectorKeyId), Str(r.connectorNonce), Str(r.connectorPublicKey), Int(r.deadline), Str(r.initDigest),
      Int(r.issuedAt), Str(r.pairingId), Str(SIGNATURE), Str(r.tlsCaDer), Str(r.tlsCaFingerprint),
      Str(r.tlsLeafFingerprint), Str(r.vpsKeyId)]
  }

  function ChallengeOfSlots(messageId: Id, w: seq<Value>, signature: Bytes): Option<PairingChallenge>
    requires |w| == |CHALLENGE_KEYS|
  {
    if
      w[0].Str? && w[1].Str? && w[2].Str? && w[3].Int? && w[4].Str? && w[5].Int? && w[6].Str?
      && w[7] == Str(SIGNATURE) && w[8].Str? && w[9].Str? && w[10].Str? && w[11].Str?
    then
      Some(PairingChallenge(
        messageId, w[6].s, w[4].s, w[11].s, w[2].s, w[0].s, w[1].s, w[8].s, w[9].s, w[10].s, w[5].n, w[3].n,
        signature))
    else None
  }

  lemma ChallengeSlotsAgree(messageId: Id, w: seq<Value>, signature: Bytes, r: PairingChallenge)
    requires |w| == |CHALLENGE_KEYS|
    ensures ChallengeOfSlots(messageId, w, signature) == Some(r) <==>
              r.messageId == messageId && r.signature == signature && w == ChallengeSlots(r)
  {
    if ChallengeOfSlots(messageId, w, signature) == Some(r) {
      assert w == [
        w[0], w[1], w[2], w[3], w[4], w[5], w[6], w[7], w[8], w[9], w[10], w[11]];
    }
  }

  lemma ChallengeKeysAscend1()
    ensures forall i | 0 <= i < 6 :: Less(CHALLENGE_KEYS[i], CHALLENGE_KEYS[i + 1])
  {
    hide Less;
    LessAt("connector_key_id", "connector_nonce", 10);
    LessAt("connector_nonce", "connector_public_key", 10);
    LessAt("connector_public_key", "deadline", 0);
    LessAt("deadline", "init_digest", 0);
    LessAt("init_digest", "issued_at", 1);
    LessAt("issued_at", "pairing_id", 0);
  }

  lemma ChallengeKeysAscend2()
    ensures forall i | 6 <= i < 11 :: Less(CHALLENGE_KEYS[i], CHALLENGE_KEYS[i + 1])
  {
    hide Less;
    LessAt("pairing_id", "signature_algorithm", 0);
    LessAt("signature_algorithm", "tls_ca_der", 0);
    LessAt("tls_ca_der", "tls_ca_fingerprint", 7);
    LessAt("tls_ca_fingerprint", "tls_leaf_fingerprint", 4);
    LessAt("tls_leaf_fingerprint", "vps_key_id", 0);
  }

  lemma ChallengeKeysAscend()
    ensures Ascending(CHALLENGE_KEYS)
  {
    hide Less;
    ChallengeKeysAscend1();
    ChallengeKeysAscend2();
  }

  lemma ChallengeDict(r: PairingChallenge)
    ensures IsDict(Object(CHALLENGE_KEYS, ChallengeSlots(r)))
  {
    hide Ascending;
    ChallengeKeysAscend();
    ObjectIsDict(CHALLENGE_KEYS, ChallengeSlots(r));
  }

  // ------------------------------------------------------------------ pairing-complete

  const COMPLETE_KEYS := [
    "completed_at", "connector_key_id", "pairing_id", "signature_algorithm", "signed_grant_digest",
    "transcript_digest", "vps_key_id"]

  function CompleteSlots(r: PairingComplete): (vs: seq<Value>)
    ensures |vs| == |COMPLETE_KEYS|
  {
    [
      Int(r.completedAt), Str(r.connectorKeyId), Str(r.pairingId), Str(SIGNATURE), Str(r.signedGrantDigest),
      Str(r.transcriptDigest), Str(r.vpsKeyId)]
  }

  function CompleteOfSlots(messageId: Id, w: seq<Value>, signature: Bytes): Option<PairingComplete>
    requires |w| == |COMPLETE_KEYS|
  {
    if
      w[0].Int? && w[1].Str? && w[2].Str? && w[3] == Str(SIGNATURE) && w[4].Str? && w[5].Str? && w[6].Str?
    then
      Some(PairingComplete(
        messageId, w[2].s, w[5].s, w[1].s, w[6].s, w[4].s, w[0].n, signature))
    else None
  }

  lemma CompleteSlotsAgree(messageId: Id, w: seq<Value>, signature: Bytes, r: PairingComplete)
    requires |w| == |COMPLETE_KEYS|
    ensures CompleteOfSlots(messageId, w, signature) == Some(r) <==>
              r.messageId == messageId && r.signature == signature && w == CompleteSlots(r)
  {
    if CompleteOfSlots(messageId, w, signature) == Some(r) {
      assert w == [
        w[0], w[1], w[2], w[3], w[4], w[5], w[6]];
    }
  }

  lemma CompleteKeysAscend()
    ensures Ascending(COMPLETE_KEYS)
  {
    hide Less;
    LessAt("completed_at", "connector_key_id", 2);
    LessAt("connector_key_id", "pairing_id", 0);
    LessAt("pairing_id", "signature_algorithm", 0);
    LessAt("signature_algorithm", "signed_grant_digest", 4);
    LessAt("signed_grant_digest", "transcript_digest", 0);
    LessAt("transcript_digest", "vps_key_id", 0);
  }

  lemma CompleteDict(r: PairingComplete)
    ensures IsDict(Object(COMPLETE_KEYS, CompleteSlots(r)))
  {
    hide Ascending;
    CompleteKeysAscend();
    ObjectIsDict(COMPLETE_KEYS, CompleteSlots(r));
  }

  // ------------------------------------------------------------------ operation-request

  const REQUEST_KEYS := [
    "audience_key_id", "deadline", "grant_id", "grant_revision", "issued_at", "operation", "payload_digest",
    "payload_digest_algorithm", "policy_revision", "request_id", "signature_algorithm", "source", "subject_key_id",
    "trace_id"]

  function RequestSlots(r: SignedRequest): (vs: seq<Value>)
    ensures |vs| == |REQUEST_KEYS|
  {
    [
      Str(r.audienceKeyId), Int(r.deadline), Str(r.grantId), Int(r.grantRevision), Int(r.issuedAt),
      Str(r.operation), Str(r.payloadDigest), Str(DIGEST), Int(r.policyRevision), Str(r.requestId), Str(SIGNATURE),
      Str(r.source), Str(r.subjectKeyId), Str(r.traceId)]
  }

  function RequestOfSlots(messageId: Id, w: seq<Value>, signature: Bytes): Option<SignedRequest>
    requires |w| == |REQUEST_KEYS|
  {
    if
      w[0].Str? && w[1].Int? && w[2].Str? && w[3].Int? && w[4].Int? && w[5].Str? && w[6].Str? && w[7] == Str(DIGEST)
      && w[8].Int? && w[9].Str? && w[10] == Str(SIGNATURE) && w[11].Str? && w[12].Str? && w[13].Str?
    then
      Some(SignedRequest(
        messageId, w[9].s, w[13].s, w[0].s, w[12].s, w[2].s, w[3].n, w[8].n, w[11].s, w[5].s, w[4].n, w[1].n,
        w[6].s, signature))
    else None
  }

  lemma RequestSlotsAgree(messageId: Id, w: seq<Value>, signature: Bytes, r: SignedRequest)
    requires |w| == |REQUEST_KEYS|
    ensures RequestOfSlots(messageId, w, signature) == Some(r) <==>
              r.messageId == messageId && r.signature == signature && w == RequestSlots(r)
  {
    if RequestOfSlots(messageId, w, signature) == Some(r) {
      assert w == [
        w[0], w[1], w[2], w[3], w[4], w[5], w[6], w[7], w[8], w[9], w[10], w[11], w[12], w[13]];
    }
  }

  lemma RequestKeysAscend1()
    ensures forall i | 0 <= i < 6 :: Less(REQUEST_KEYS[i], REQUEST_KEYS[i + 1])
  {
    hide Less;
    LessAt("audience_key_id", "deadline", 0);
    LessAt("deadline", "grant_id", 0);
    LessAt("grant_id", "grant_revision", 6);
    LessAt("grant_revision", "issued_at", 0);
    LessAt("issued_at", "operation", 0);
    LessAt("operation", "payload_digest", 0);
  }

  lemma PayloadKeysAscend()
    ensures Less("payload_digest", "payload_digest_algorithm")
  {
    hide Less;
    LessAt("payload_digest", "payload_digest_algorithm", 14);
  }

  lemma RequestKeysAscend2()
    ensures forall i | 6 <= i < 12 :: Less(REQUEST_KEYS[i], REQUEST_KEYS[i + 1])
  {
    hide Less;
    PayloadKeysAscend();
    LessAt("payload_digest_algorithm", "policy_revision", 1);
    LessAt("policy_revision", "request_id", 0);
    LessAt("request_id", "signature_algorithm", 0);
    LessAt("signature_algorithm", "source", 1);
    LessAt("source", "subject_key_id", 1);
  }

  lemma RequestKeysAscend3()
    ensures forall i | 12 <= i < 13 :: Less(REQUEST_KEYS[i], REQUEST_KEYS[i + 1])
  {
    hide Less;
    LessAt("subject_key_id", "trace_id", 0);
  }

  lemma RequestKeysAscend()
    ensures Ascending(REQUEST_KEYS)
  {
    hide Less;
    RequestKeysAscend1();
    RequestKeysAscend2();
    RequestKeysAscend3();
  }

  lemma RequestDict(r: SignedRequest)
    ensures IsDict(Object(REQUEST_KEYS, RequestSlots(r)))
  {
    hide Ascending;
    RequestKeysAscend();
    ObjectIsDict(REQUEST_KEYS, RequestSlots(r));
  }

  // ------------------------------------------------------------------ file-grant

  const FILE_GRANT_KEYS := [
    "digest", "expires_at", "file_grant_id", "grant_revision", "issued_at", "issuer_key_id", "operation",
    "policy_revision", "signature_algorithm", "single_use", "size", "source", "subject_key_id"]

  function FileGrantSlots(r: FileGrant): (vs: seq<Value>)
    ensures |vs| == |FILE_GRANT_KEYS|
  {
    [
      Str(r.digest), Int(r.expiresAt), Str(r.fileGrantId), Int(r.grantRevision), Int(r.issuedAt),
      Str(r.issuerKeyId), Str(r.operation), Int(r.policyRevision), Str(SIGNATURE), Bool(true), Int(r.size),
      Str(r.source), Str(r.subjectKeyId)]
  }

  function FileGrantOfSlots(messageId: Id, w: seq<Value>, signature: Bytes): Option<FileGrant>
    requires |w| == |FILE_GRANT_KEYS|
  {
    if
      w[0].Str? && w[1].Int? && w[2].Str? && w[3].Int? && w[4].Int? && w[5].Str? && w[6].Str? && w[7].Int?
      && w[8] == Str(SIGNATURE) && w[9] == Bool(true) && w[10].Int? && w[11].Str? && w[12].Str?
    then
      Some(FileGrant(
        messageId, w[2].s, w[5].s, w[12].s, w[0].s, w[10].n, w[11].s, w[6].s, w[3].n, w[7].n, w[4].n, w[1].n,
        signature))
    else None
  }

  lemma FileGrantSlotsAgree(messageId: Id, w: seq<Value>, signature: Bytes, r: FileGrant)
    requires |w| == |FILE_GRANT_KEYS|
    ensures FileGrantOfSlots(messageId, w, signature) == Some(r) <==>
              r.messageId == messageId && r.signature == signature && w == FileGrantSlots(r)
  {
    if FileGrantOfSlots(messageId, w, signature) == Some(r) {
      assert w == [
        w[0], w[1], w[2], w[3], w[4], w[5], w[6], w[7], w[8], w[9], w[10], w[11], w[12]];
    }
  }

  lemma FileGrantKeysAscend1()
    ensures forall i | 0 <= i < 6 :: Less(FILE_GRANT_KEYS[i], FILE_GRANT_KEYS[i + 1])
  {
    hide Less;
    LessAt("digest", "expires_at", 0);
    LessAt("expires_at", "file_grant_id", 0);
    LessAt("file_grant_id", "grant_revision", 0);
    LessAt("grant_revision", "issued_at", 0);
    LessAt("issued_at", "issuer_key_id", 5);
    LessAt("issuer_key_id", "operation", 0);
  }

  lemma FileGrantKeysAscend2()
    ensures forall i | 6 <= i < 12 :: Less(FILE_GRANT_KEYS[i], FILE_GRANT_KEYS[i + 1])
  {
    hide Less;
    LessAt("operation", "policy_revision", 0);
    LessAt("policy_revision", "signature_algorithm", 0);
    LessAt("signature_algorithm", "single_use", 2);
    LessAt("single_use", "size", 2);
    LessAt("size", "source", 1);
    LessAt("source", "subject_key_id", 1);
  }

  lemma FileGrantKeysAscend()
    ensures Ascending(FILE_GRANT_KEYS)
  {
    hide Less;
    FileGrantKeysAscend1();
    FileGrantKeysAscend2();
  }

  lemma FileGrantDict(r: FileGrant)
    ensures IsDict(Object(FILE_GRANT_KEYS, FileGrantSlots(r)))
  {
    hide Ascending;
    FileGrantKeysAscend();
    ObjectIsDict(FILE_GRANT_KEYS, FileGrantSlots(r));
  }

  // ------------------------------------------------------------------ signed-grant

  const GRANT_KEYS := [
    "expires_at", "grant_id", "issued_at", "issuer_key_id", "max_uses", "not_before", "policy_revision", "revision",
    "scopes", "signature_algorithm", "subject_key_id"]

  function GrantSlots(r: SignedGrant): (vs: seq<Value>)
    ensures |vs| == |GRANT_KEYS|
  {
    [
      Int(r.claims.expiresAt), Str(r.claims.grantId), Int(r.claims.issuedAt), Str(r.claims.issuerKeyId),
      Int(r.claims.maxUses), Int(r.claims.notBefore), Int(r.claims.policyRevision), Int(r.claims.revision),
      ScopesValue(r.claims.scopes), Str(SIGNATURE), Str(r.claims.subjectKeyId)]
  }

  function GrantOfSlots(messageId: Id, w: seq<Value>, signature: Bytes): Option<SignedGrant>
    requires |w| == |GRANT_KEYS|
  {
    if
      w[0].Int? && w[1].Str? && w[2].Int? && w[3].Str? && w[4].Int? && w[5].Int? && w[6].Int? && w[7].Int?
      && ScopesOf(w[8]).Some? && w[9] == Str(SIGNATURE) && w[10].Str?
    then
      Some(SignedGrant(messageId, GrantClaims(
        w[1].s, w[7].n, w[3].s, w[10].s, w[2].n, w[5].n, w[0].n, w[6].n, w[4].n, ScopesOf(w[8]).value), signature))
    else None
  }

  lemma GrantSlotsAgree(messageId: Id, w: seq<Value>, signature: Bytes, r: SignedGrant)
    requires |w| == |GRANT_KEYS|
    ensures GrantOfSlots(messageId, w, signature) == Some(r) <==>
              r.messageId == messageId && r.signature == signature && w == GrantSlots(r)
  {
    hide ScopesOf, ScopesValue;
    ScopeListsAgree(w[8], r.claims.scopes);
    if GrantOfSlots(messageId, w, signature) == Some(r) {
      assert w == [
        w[0], w[1], w[2], w[3], w[4], w[5], w[6], w[7], w[8], w[9], w[10]];
    }
  }

  lemma GrantKeysAscend1()
    ensures forall i | 0 <= i < 6 :: Less(GRANT_KEYS[i], GRANT_KEYS[i + 1])
  {
    hide Less;
    LessAt("expires_at", "grant_id", 0);
    LessAt("grant_id", "issued_at", 0);
    LessAt("issued_at", "issuer_key_id", 5);
    LessAt("issuer_key_id", "max_uses", 0);
    LessAt("max_uses", "not_before", 0);
    LessAt("not_before", "policy_revision", 0);
  }

  lemma GrantKeysAscend2()
    ensures forall i | 6 <= i < 10 :: Less(GRANT_KEYS[i], GRANT_KEYS[i + 1])
  {
    hide Less;
    LessAt("policy_revision", "revision", 0);
    LessAt("revision", "scopes", 0);
    LessAt("scopes", "signature_algorithm", 1);
    LessAt("signature_algorithm", "subject_key_id", 1);
  }

  lemma GrantKeysAscend()
    ensures Ascending(GRANT_KEYS)
  {
    hide Less;
    GrantKeysAscend1();
    GrantKeysAscend2();
  }

  lemma GrantDict(r: SignedGrant)
    ensures IsDict(Object(GRANT_KEYS, GrantSlots(r)))
  {
    hide Ascending, ScopesValue;
    GrantKeysAscend();
    ScopesDict(r.claims.scopes);
    ObjectIsDict(GRANT_KEYS, GrantSlots(r));
  }

  // ------------------------------------------------------------------ operation-receipt

  const RECEIPT_KEYS := [
    "backend", "decision", "ended_at", "expires_at", "failure", "grant_id", "grant_revision", "issuer_key_id",
    "operation", "outcome", "payload_digest", "payload_digest_algorithm", "policy_revision", "receipt_id",
    "request_id", "result_count", "result_digest", "result_digest_algorithm", "signature_algorithm", "source",
    "started_at", "subject_key_id", "trace_id", "truncated", "usage"]

  function ReceiptSlots(r: SignedReceipt): (vs: seq<Value>)
    ensures |vs| == |RECEIPT_KEYS|
  {
    [
      BackendValue(r.backend), Str(DecisionText(r.decision)), Int(r.endedAt), Int(r.expiresAt),
      FailureValue(r.failure), Str(r.grantId), Int(r.grantRevision), Str(r.issuerKeyId), Str(r.operation),
      Str(OutcomeText(r.outcome)), Str(r.payloadDigest), Str(DIGEST), Int(r.policyRevision), Str(r.receiptId),
      Str(r.requestId), Int(r.resultCount), OptionalText(r.resultDigest), Str(DIGEST), Str(SIGNATURE),
      Str(r.source), Int(r.startedAt), Str(r.subjectKeyId), Str(r.traceId), Bool(r.truncated), UsageValue(r.usage)]
  }

  function ReceiptOfSlots(messageId: Id, w: seq<Value>, signature: Bytes): Option<SignedReceipt>
    requires |w| == |RECEIPT_KEYS|
  {
    if
      BackendOf(w[0]).Some? && w[1].Str? && DecisionNamed(w[1].s).Some? && w[2].Int? && w[3].Int?
      && FailureOf(w[4]).Some? && w[5].Str? && w[6].Int? && w[7].Str? && w[8].Str?
      && w[9].Str? && OutcomeNamed(w[9].s).Some? && w[10].Str? && w[11] == Str(DIGEST) && w[12].Int? && w[13].Str?
      && w[14].Str? && w[15].Int? && TextOf(w[16]).Some? && w[17] == Str(DIGEST) && w[18] == Str(SIGNATURE)
      && w[19].Str? && w[20].Int? && w[21].Str? && w[22].Str? && w[23].Bool? && UsageOf(w[24]).Some?
    then
      Some(SignedReceipt(
        messageId, w[13].s, w[14].s, w[22].s, w[7].s, w[21].s, w[5].s, w[6].n, w[12].n, w[19].s, w[8].s,
        DecisionNamed(w[1].s).value, FailureOf(w[4]).value, UsageOf(w[24]).value, BackendOf(w[0]).value, w[20].n,
        w[2].n, w[3].n, w[15].n, w[23].b, TextOf(w[16]).value, OutcomeNamed(w[9].s).value, w[10].s, signature))
    else None
  }

  lemma ReceiptFromSlots(messageId: Id, w: seq<Value>, signature: Bytes, r: SignedReceipt)
    requires |w| == |RECEIPT_KEYS|
    requires ReceiptOfSlots(messageId, w, signature) == Some(r)
    ensures r.messageId == messageId && r.signature == signature && w == ReceiptSlots(r)
  {
    hide BackendOf, BackendValue, DecisionNamed, DecisionText, FailureOf, FailureValue, OutcomeNamed, OutcomeText,
         UsageOf, UsageValue;
    BackendsAgree(w[0], r.backend);
    DecisionsAgree(w[1], r.decision);
    FailuresAgree(w[4], r.failure);
    OutcomesAgree(w[9], r.outcome);
    UsagesAgree(w[24], r.usage);
    assert w == [
        w[0], w[1], w[2], w[3], w[4], w[5], w[6], w[7], w[8], w[9], w[10], w[11], w[12], w[13], w[14], w[15], w[16],
        w[17], w[18], w[19], w[20], w[21], w[22], w[23], w[24]];
  }

  ghost predicate HoldsReceipt(w: seq<Value>, r: SignedReceipt)
    requires |w| == |RECEIPT_KEYS|
  {
    && w[0] == BackendValue(r.backend) && w[1] == Str(DecisionText(r.decision)) && w[2] == Int(r.endedAt)
    && w[3] == Int(r.expiresAt) && w[4] == FailureValue(r.failure) && w[5] == Str(r.grantId)
    && w[6] == Int(r.grantRevision) && w[7] == Str(r.issuerKeyId) && w[8] == Str(r.operation)
    && w[9] == Str(OutcomeText(r.outcome)) && w[10] == Str(r.payloadDigest) && w[11] == Str(DIGEST)
    && w[12] == Int(r.policyRevision) && w[13] == Str(r.receiptId) && w[14] == Str(r.requestId)
    && w[15] == Int(r.resultCount) && w[16] == OptionalText(r.resultDigest) && w[17] == Str(DIGEST)
    && w[18] == Str(SIGNATURE) && w[19] == Str(r.source) && w[20] == Int(r.startedAt)
    && w[21] == Str(r.subjectKeyId) && w[22] == Str(r.traceId) && w[23] == Bool(r.truncated)
    && w[24] == UsageValue(r.usage)
  }

  lemma ReceiptSlotsHold(r: SignedReceipt)
    ensures HoldsReceipt(ReceiptSlots(r), r)
  {
    hide BackendValue, DecisionText, FailureValue, OutcomeText, UsageValue, OptionalText;
  }

  lemma HeldReceipt(w: seq<Value>, r: SignedReceipt)
    requires |w| == |RECEIPT_KEYS| && HoldsReceipt(w, r)
    ensures ReceiptOfSlots(r.messageId, w, r.signature) == Some(r)
  {
    hide BackendOf, BackendValue, DecisionNamed, DecisionText, FailureOf, FailureValue, OutcomeNamed, OutcomeText,
         UsageOf, UsageValue;
    BackendsAgree(w[0], r.backend);
    DecisionsAgree(w[1], r.decision);
    FailuresAgree(w[4], r.failure);
    OutcomesAgree(w[9], r.outcome);
    UsagesAgree(w[24], r.usage);
  }

  lemma ReceiptSlotsAgree(messageId: Id, w: seq<Value>, signature: Bytes, r: SignedReceipt)
    requires |w| == |RECEIPT_KEYS|
    ensures ReceiptOfSlots(messageId, w, signature) == Some(r) <==>
              r.messageId == messageId && r.signature == signature && w == ReceiptSlots(r)
  {
    hide ReceiptSlots, ReceiptOfSlots;
    hide HoldsReceipt;
    ReceiptSlotsHold(r);
    HeldReceipt(ReceiptSlots(r), r);
    if ReceiptOfSlots(messageId, w, signature) == Some(r) { ReceiptFromSlots(messageId, w, signature, r); }
  }

  lemma ReceiptKeysAscend1()
    ensures forall i | 0 <= i < 6 :: Less(RECEIPT_KEYS[i], RECEIPT_KEYS[i + 1])
  {
    hide Less;
    LessAt("backend", "decision", 0);
    LessAt("decision", "ended_at", 0);
    LessAt("ended_at", "expires_at", 1);
    LessAt("expires_at", "failure", 0);
    LessAt("failure", "grant_id", 0);
    LessAt("grant_id", "grant_revision", 6);
  }

  lemma ReceiptKeysAscend2()
    ensures forall i | 6 <= i < 12 :: Less(RECEIPT_KEYS[i], RECEIPT_KEYS[i + 1])
  {
    hide Less;
    LessAt("grant_revision", "issuer_key_id", 0);
    LessAt("issuer_key_id", "operation", 0);
    LessAt("operation", "outcome", 1);
    LessAt("outcome", "payload_digest", 0);
    LessAt("payload_digest", "payload_digest_algorithm", 14);
    LessAt("payload_digest_algorithm", "policy_revision", 1);
  }

  lemma ReceiptKeysAscend3()
    ensures forall i | 12 <= i < 18 :: Less(RECEIPT_KEYS[i], RECEIPT_KEYS[i + 1])
  {
    hide Less;
    LessAt("policy_revision", "receipt_id", 0);
    LessAt("receipt_id", "request_id", 2);
    LessAt("request_id", "result_count", 2);
    LessAt("result_count", "result_digest", 7);
    LessAt("result_digest", "result_digest_algorithm", 13);
    LessAt("result_digest_algorithm", "signature_algorithm", 0);
  }

  lemma ReceiptKeysAscend4()
    ensures forall i | 18 <= i < 24 :: Less(RECEIPT_KEYS[i], RECEIPT_KEYS[i + 1])
  {
    hide Less;
    LessAt("signature_algorithm", "source", 1);
    LessAt("source", "started_at", 1);
    LessAt("started_at", "subject_key_id", 1);
    LessAt("subject_key_id", "trace_id", 0);
    LessAt("trace_id", "truncated", 2);
    LessAt("truncated", "usage", 0);
  }

  lemma ReceiptKeysAscend()
    ensures Ascending(RECEIPT_KEYS)
  {
    hide Less;
    ReceiptKeysAscend1();
    ReceiptKeysAscend2();
    ReceiptKeysAscend3();
    ReceiptKeysAscend4();
  }

  lemma ReceiptDict(r: SignedReceipt)
    ensures IsDict(Object(RECEIPT_KEYS, ReceiptSlots(r)))
  {
    hide Ascending, BackendValue, FailureValue, UsageValue;
    ReceiptKeysAscend();
    SmallDicts(r);
    ObjectIsDict(RECEIPT_KEYS, ReceiptSlots(r));
  }

}
