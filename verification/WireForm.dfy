/** What stands under each key of an encoded record (connector/protocol.py: _claims_mapping, encode_record,
    operation_result_mapping): the value of the record's field of that name. The keys are looked up in the value
    that the bytes load as, without the key lists and slots of the encoder. */
module WireForm {
  import opened Prelude
  import opened Limits
  import opened Errors
  import opened Records
  import opened Json
  import opened Schema
  import opened Text
  import opened WireValues
  import opened WireClaims
  import opened WireResults
  import opened Wire

  // ------------------------------------------------------------------ looking a key up

  function Lookup(fields: seq<Field>, key: string): Option<Value> {
    if fields == [] then None
    else if fields[0].key == key then Some(fields[0].value)
    else Lookup(fields[1..], key)
  }

  /** v[key] of a JSON object */
  function At(v: Value, key: string): Option<Value> {
    if v.Obj? then Lookup(v.fields, key) else None
  }

  /** the value under this key is there and has this form */
  ghost predicate Under(v: Value, key: string, form: Value -> bool) {
    At(v, key).Some? && form(At(v, key).value)
  }

  /** how many keys an object has */
  function Size(v: Value): int {
    if v.Obj? then |v.fields| else -1
  }

  lemma {:induction false} Found(fields: seq<Field>, i: nat)
    requires i < |fields| && forall j | 0 <= j < i :: fields[j].key != fields[i].key
    ensures Lookup(fields, fields[i].key) == Some(fields[i].value)
  {
    if i > 0 { Found(fields[1..], i - 1); }
  }

  lemma AtKey(keys: seq<string>, values: seq<Value>, i: nat)
    requires |keys| == |values| && i < |keys| && Ascending(keys)
    ensures At(Object(keys, values), keys[i]) == Some(values[i])
  {
    hide Ascending;
    forall j | 0 <= j < i ensures keys[j] != keys[i] {
      AscendingApart(keys, j, i);
      LessTrichotomy(keys[j], keys[i]);
    }
    Found(Object(keys, values).fields, i);
  }

  lemma SizeOf(keys: seq<string>, values: seq<Value>)
    requires |keys| == |values|
    ensures Size(Object(keys, values)) == |keys|
  {
  }

  // ------------------------------------------------------------------ inner objects

  function DataScopeWord(d: DataScope): string {
    match d
    case PublicData => "public"
    case AccountVisible => "account_visible"
  }

  ghost predicate ScopeForm(v: Value, s: Scope) {
    && Size(v) == 4 && At(v, "capability_id") == Some(OptionalText(s.capability))
    && At(v, "data_scope") == Some(Str(DataScopeWord(s.dataScope)))
    && At(v, "operation") == Some(Str(s.operation)) && At(v, "source") == Some(Str(s.source))
  }

  lemma ScopeHolds(s: Scope)
    ensures ScopeForm(ScopeValue(s), s)
  {
    hide At, Object, Ascending, OptionalText;
    var w := [OptionalText(s.capability), Str(DataScopeText(s.dataScope)), Str(s.operation), Str(s.source)];
    ScopeKeysAscend();
    SizeOf(SCOPE_KEYS, w);
    AtKey(SCOPE_KEYS, w, 0);
    AtKey(SCOPE_KEYS, w, 1);
    AtKey(SCOPE_KEYS, w, 2);
    AtKey(SCOPE_KEYS, w, 3);
  }

  ghost predicate ScopesForm(v: Value, xs: seq<Scope>) {
    v.Arr? && |v.items| == |xs| && forall i | 0 <= i < |xs| :: ScopeForm(v.items[i], xs[i])
  }

  lemma ScopesHold(xs: seq<Scope>)
    ensures ScopesForm(ScopesValue(xs), xs)
  {
    hide ScopeForm, ScopeValue;
    forall i | 0 <= i < |xs| ensures ScopeForm(ScopesValue(xs).items[i], xs[i]) { ScopeHolds(xs[i]); }
  }

  ghost predicate BackendForm(v: Value, b: Option<BackendIdentity>) {
    if b.None? then v.Null?
    else
      && Size(v) == 2 && At(v, "backend_id") == Some(Str(b.value.backendId))
      && At(v, "backend_version") == Some(Str(b.value.backendVersion))
  }

  lemma BackendHolds(b: Option<BackendIdentity>)
    ensures BackendForm(BackendValue(b), b)
  {
    hide At, Object, Ascending;
    if b.Some? {
      var w := [Str(b.value.backendId), Str(b.value.backendVersion)];
      SmallKeysAscend();
      SizeOf(BACKEND_KEYS, w);
      AtKey(BACKEND_KEYS, w, 0);
      AtKey(BACKEND_KEYS, w, 1);
    }
  }

  ghost predicate UsageForm(v: Value, u: Option<ReceiptUsage>) {
    if u.None? then v.Null?
    else
      && Size(v) == 2 && At(v, "remaining") == Some(Int(u.value.remaining))
      && At(v, "sequence") == Some(Int(u.value.sequence))
  }

  lemma UsageHolds(u: Option<ReceiptUsage>)
    ensures UsageForm(UsageValue(u), u)
  {
    hide At, Object, Ascending;
    if u.Some? {
      var w := [Int(u.value.remaining), Int(u.value.sequence)];
      SmallKeysAscend();
      SizeOf(USAGE_KEYS, w);
      AtKey(USAGE_KEYS, w, 0);
      AtKey(USAGE_KEYS, w, 1);
    }
  }

  /** the category names, in the order of their declaration */
  const CATEGORIES := ["setup", "transport", "authority", "receipt", "secret", "model", "file", "backend"]

  function Position(c: ErrorCategory): nat {
    match c
    case Setup => 0
    case Transport => 1
    case Authority => 2
    case Receipt => 3
    case Secret => 4
    case Model => 5
    case File => 6
    case Backend => 7
  }

  ghost predicate FailureForm(v: Value, f: Option<ReceiptFailure>) {
    if f.None? then v.Null?
    else
      && Size(v) == 2 && At(v, "cause_code") == Some(Str(CodeText(f.value.causeCode)))
      && At(v, "failure_class") == Some(Str(CATEGORIES[Position(f.value.failureClass)]))
  }

  lemma FailureHolds(f: Option<ReceiptFailure>)
    ensures FailureForm(FailureValue(f), f)
  {
    hide At, Object, Ascending, CodeText;
    if f.Some? {
      var w := [Str(CodeText(f.value.causeCode)), Str(CategoryText(f.value.failureClass))];
      SmallKeysAscend();
      SizeOf(FAILURE_KEYS, w);
      AtKey(FAILURE_KEYS, w, 0);
      AtKey(FAILURE_KEYS, w, 1);
    }
  }

  lemma SmallKeysAscend()
    ensures Ascending(BACKEND_KEYS) && Ascending(USAGE_KEYS) && Ascending(FAILURE_KEYS)
  {
    hide Less;
    LessAt("backend_id", "backend_version", 8);
    LessAt("remaining", "sequence", 0);
    LessAt("cause_code", "failure_class", 0);
  }

  lemma ScopeKeysAscend()
    ensures Ascending(SCOPE_KEYS)
  {
    hide Less;
    LessAt("capability_id", "data_scope", 0);
    LessAt("data_scope", "operation", 0);
    LessAt("operation", "source", 0);
  }

  // ------------------------------------------------------------------ the claims of the signed records

  ghost predicate InitForm(v: Value, r: PairingInit) {
    && Size(v) == 12 && At(v, "deadline") == Some(Int(r.deadline))
    && At(v, "device_label") == Some(Str(r.deviceLabel)) && At(v, "endpoint_digest") == Some(Str(r.endpointDigest))
    && At(v, "grant_expires_at") == Some(Int(r.grantExpiresAt))
    && At(v, "grant_max_uses") == Some(Int(r.grantMaxUses)) && At(v, "issued_at") == Some(Int(r.issuedAt))
    && At(v, "pairing_id") == Some(Str(r.pairingId))
    && Under(v, "requested_scopes", (x: Value) => ScopesForm(x, r.requestedScopes))
    && At(v, "signature_algorithm") == Some(Str("ed25519-v1")) && At(v, "vps_key_id") == Some(Str(r.vpsKeyId))
    && At(v, "vps_nonce") == Some(Str(r.vpsNonce)) && At(v, "vps_public_key") == Some(Str(r.vpsPublicKey))
  }

  lemma InitHolds(r: PairingInit)
    ensures InitForm(Object(INIT_KEYS, InitSlots(r)), r)
  {
    hide At, Object, ScopesForm, ScopesValue, Ascending;
    InitKeysAscend();
    SizeOf(INIT_KEYS, InitSlots(r));
    AtKey(INIT_KEYS, InitSlots(r), 0);
    AtKey(INIT_KEYS, InitSlots(r), 1);
    AtKey(INIT_KEYS, InitSlots(r), 2);
    AtKey(INIT_KEYS, InitSlots(r), 3);
    AtKey(INIT_KEYS, InitSlots(r), 4);
    AtKey(INIT_KEYS, InitSlots(r), 5);
    AtKey(INIT_KEYS, InitSlots(r), 6);
    AtKey(INIT_KEYS, InitSlots(r), 7);
    AtKey(INIT_KEYS, InitSlots(r), 8);
    AtKey(INIT_KEYS, InitSlots(r), 9);
    AtKey(INIT_KEYS, InitSlots(r), 10);
    AtKey(INIT_KEYS, InitSlots(r), 11);
    ScopesHold(r.requestedScopes);
  }

  ghost predicate ChallengeForm(v: Value, r: PairingChallenge) {
    && Size(v) == 12 && At(v, "connector_key_id") == Some(Str(r.connectorKeyId))
    && At(v, "connector_nonce") == Some(Str(r.connectorNonce))
    && At(v, "connector_public_key") == Some(Str(r.connectorPublicKey)) && At(v, "deadline") == Some(Int(r.deadline))
    && At(v, "init_digest") == Some(Str(r.initDigest)) && At(v, "issued_at") == Some(Int(r.issuedAt))
    && At(v, "pairing_id") == Some(Str(r.pairingId)) && At(v, "signature_algorithm") == Some(Str("ed25519-v1"))
    && At(v, "tls_ca_der") == Some(Str(r.tlsCaDer)) && At(v, "tls_ca_fingerprint") == Some(Str(r.tlsCaFingerprint))
    && At(v, "tls_leaf_fingerprint") == Some(Str(r.tlsLeafFingerprint))
    && At(v, "vps_key_id") == Some(Str(r.vpsKeyId))
  }

  lemma ChallengeHolds(r: PairingChallenge)
    ensures ChallengeForm(Object(CHALLENGE_KEYS, ChallengeSlots(r)), r)
  {
    hide At, Object, Ascending;
    ChallengeKeysAscend();
    SizeOf(CHALLENGE_KEYS, ChallengeSlots(r));
    AtKey(CHALLENGE_KEYS, ChallengeSlots(r), 0);
    AtKey(CHALLENGE_KEYS, ChallengeSlots(r), 1);
    AtKey(CHALLENGE_KEYS, ChallengeSlots(r), 2);
    AtKey(CHALLENGE_KEYS, ChallengeSlots(r), 3);
    AtKey(CHALLENGE_KEYS, ChallengeSlots(r), 4);
    AtKey(CHALLENGE_KEYS, ChallengeSlots(r), 5);
    AtKey(CHALLENGE_KEYS, ChallengeSlots(r), 6);
    AtKey(CHALLENGE_KEYS, ChallengeSlots(r), 7);
    AtKey(CHALLENGE_KEYS, ChallengeSlots(r), 8);
    AtKey(CHALLENGE_KEYS, ChallengeSlots(r), 9);
    AtKey(CHALLENGE_KEYS, ChallengeSlots(r), 10);
    AtKey(CHALLENGE_KEYS, ChallengeSlots(r), 11);
  }

  ghost predicate CompleteForm(v: Value, r: PairingComplete) {
    && Size(v) == 7 && At(v, "completed_at") == Some(Int(r.completedAt))
    && At(v, "connector_key_id") == Some(Str(r.connectorKeyId)) && At(v, "pairing_id") == Some(Str(r.pairingId))
    && At(v, "signature_algorithm") == Some(Str("ed25519-v1"))
    && At(v, "signed_grant_digest") == Some(Str(r.signedGrantDigest))
    && At(v, "transcript_digest") == Some(Str(r.transcriptDigest)) && At(v, "vps_key_id") == Some(Str(r.vpsKeyId))
  }

  lemma CompleteHolds(r: PairingComplete)
    ensures CompleteForm(Object(COMPLETE_KEYS, CompleteSlots(r)), r)
  {
    hide At, Object, Ascending;
    CompleteKeysAscend();
    SizeOf(COMPLETE_KEYS, CompleteSlots(r));
    AtKey(COMPLETE_KEYS, CompleteSlots(r), 0);
    AtKey(COMPLETE_KEYS, CompleteSlots(r), 1);
    AtKey(COMPLETE_KEYS, CompleteSlots(r), 2);
    AtKey(COMPLETE_KEYS, CompleteSlots(r), 3);
    AtKey(COMPLETE_KEYS, CompleteSlots(r), 4);
    AtKey(COMPLETE_KEYS, CompleteSlots(r), 5);
    AtKey(COMPLETE_KEYS, CompleteSlots(r), 6);
  }

  ghost predicate GrantForm(v: Value, r: SignedGrant) {
    && Size(v) == 11 && At(v, "expires_at") == Some(Int(r.claims.expiresAt))
    && At(v, "grant_id") == Some(Str(r.claims.grantId)) && At(v, "issued_at") == Some(Int(r.claims.issuedAt))
    && At(v, "issuer_key_id") == Some(Str(r.claims.issuerKeyId)) && At(v, "max_uses") == Some(Int(r.claims.maxUses))
    && At(v, "not_before") == Some(Int(r.claims.notBefore))
    && At(v, "policy_revision") == Some(Int(r.claims.policyRevision))
    && At(v, "revision") == Some(Int(r.claims.revision))
    && Under(v, "scopes", (x: Value) => ScopesForm(x, r.claims.scopes))
    && At(v, "signature_algorithm") == Some(Str("ed25519-v1"))
    && At(v, "subject_key_id") == Some(Str(r.claims.subjectKeyId))
  }

  lemma GrantHolds(r: SignedGrant)
    ensures GrantForm(Object(GRANT_KEYS, GrantSlots(r)), r)
  {
    hide At, Object, ScopesForm, ScopesValue, Ascending;
    GrantKeysAscend();
    SizeOf(GRANT_KEYS, GrantSlots(r));
    AtKey(GRANT_KEYS, GrantSlots(r), 0);
    AtKey(GRANT_KEYS, GrantSlots(r), 1);
    AtKey(GRANT_KEYS, GrantSlots(r), 2);
    AtKey(GRANT_KEYS, GrantSlots(r), 3);
    AtKey(GRANT_KEYS, GrantSlots(r), 4);
    AtKey(GRANT_KEYS, GrantSlots(r), 5);
    AtKey(GRANT_KEYS, GrantSlots(r), 6);
    AtKey(GRANT_KEYS, GrantSlots(r), 7);
    AtKey(GRANT_KEYS, GrantSlots(r), 8);
    AtKey(GRANT_KEYS, GrantSlots(r), 9);
    AtKey(GRANT_KEYS, GrantSlots(r), 10);
    ScopesHold(r.claims.scopes);
  }

  ghost predicate RequestForm(v: Value, r: SignedRequest) {
    && Size(v) == 14 && At(v, "audience_key_id") == Some(Str(r.audienceKeyId))
    && At(v, "deadline") == Some(Int(r.deadline)) && At(v, "grant_id") == Some(Str(r.grantId))
    && At(v, "grant_revision") == Some(Int(r.grantRevision)) && At(v, "issued_at") == Some(Int(r.issuedAt))
    && At(v, "operation") == Some(Str(r.operation)) && At(v, "payload_digest") == Some(Str(r.payloadDigest))
    && At(v, "payload_digest_algorithm") == Some(Str("sha256-v1"))
    && At(v, "policy_revision") == Some(Int(r.policyRevision)) && At(v, "request_id") == Some(Str(r.requestId))
    && At(v, "signature_algorithm") == Some(Str("ed25519-v1")) && At(v, "source") == Some(Str(r.source))
    && At(v, "subject_key_id") == Some(Str(r.subjectKeyId)) && At(v, "trace_id") == Some(Str(r.traceId))
  }

  lemma RequestHolds(r: SignedRequest)
    ensures RequestForm(Object(REQUEST_KEYS, RequestSlots(r)), r)
  {
    hide At, Object, Ascending;
    RequestKeysAscend();
    SizeOf(REQUEST_KEYS, RequestSlots(r));
    AtKey(REQUEST_KEYS, RequestSlots(r), 0);
    AtKey(REQUEST_KEYS, RequestSlots(r), 1);
    AtKey(REQUEST_KEYS, RequestSlots(r), 2);
    AtKey(REQUEST_KEYS, RequestSlots(r), 3);
    AtKey(REQUEST_KEYS, RequestSlots(r), 4);
    AtKey(REQUEST_KEYS, RequestSlots(r), 5);
    AtKey(REQUEST_KEYS, RequestSlots(r), 6);
    AtKey(REQUEST_KEYS, RequestSlots(r), 7);
    AtKey(REQUEST_KEYS, RequestSlots(r), 8);
    AtKey(REQUEST_KEYS, RequestSlots(r), 9);
    AtKey(REQUEST_KEYS, RequestSlots(r), 10);
    AtKey(REQUEST_KEYS, RequestSlots(r), 11);
    AtKey(REQUEST_KEYS, RequestSlots(r), 12);
    AtKey(REQUEST_KEYS, RequestSlots(r), 13);
  }

  ghost predicate FileGrantForm(v: Value, r: FileGrant) {
    && Size(v) == 13 && At(v, "digest") == Some(Str(r.digest)) && At(v, "expires_at") == Some(Int(r.expiresAt))
    && At(v, "file_grant_id") == Some(Str(r.fileGrantId)) && At(v, "grant_revision") == Some(Int(r.grantRevision))
    && At(v, "issued_at") == Some(Int(r.issuedAt)) && At(v, "issuer_key_id") == Some(Str(r.issuerKeyId))
    && At(v, "operation") == Some(Str(r.operation)) && At(v, "policy_revision") == Some(Int(r.policyRevision))
    && At(v, "signature_algorithm") == Some(Str("ed25519-v1")) && At(v, "single_use") == Some(Bool(true))
    && At(v, "size") == Some(Int(r.size)) && At(v, "source") == Some(Str(r.source))
    && At(v, "subject_key_id") == Some(Str(r.subjectKeyId))
  }

  lemma FileGrantHolds(r: FileGrant)
    ensures FileGrantForm(Object(FILE_GRANT_KEYS, FileGrantSlots(r)), r)
  {
    hide At, Object, Ascending;
    FileGrantKeysAscend();
    SizeOf(FILE_GRANT_KEYS, FileGrantSlots(r));
    AtKey(FILE_GRANT_KEYS, FileGrantSlots(r), 0);
    AtKey(FILE_GRANT_KEYS, FileGrantSlots(r), 1);
    AtKey(FILE_GRANT_KEYS, FileGrantSlots(r), 2);
    AtKey(FILE_GRANT_KEYS, FileGrantSlots(r), 3);
    AtKey(FILE_GRANT_KEYS, FileGrantSlots(r), 4);
    AtKey(FILE_GRANT_KEYS, FileGrantSlots(r), 5);
    AtKey(FILE_GRANT_KEYS, FileGrantSlots(r), 6);
    AtKey(FILE_GRANT_KEYS, FileGrantSlots(r), 7);
    AtKey(FILE_GRANT_KEYS, FileGrantSlots(r), 8);
    AtKey(FILE_GRANT_KEYS, FileGrantSlots(r), 9);
    AtKey(FILE_GRANT_KEYS, FileGrantSlots(r), 10);
    AtKey(FILE_GRANT_KEYS, FileGrantSlots(r), 11);
    AtKey(FILE_GRANT_KEYS, FileGrantSlots(r), 12);
  }

  ghost predicate ReceiptForm(v: Value, r: SignedReceipt) {
    && Size(v) == 25 && ReceiptPart1(v, r) && ReceiptPart2(v, r) && ReceiptPart3(v, r) && ReceiptPart4(v, r)
    && ReceiptPart5(v, r)
  }

  ghost predicate ReceiptPart1(v: Value, r: SignedReceipt) {
    && Under(v, "backend", (x: Value) => BackendForm(x, r.backend))
    && At(v, "decision") == Some(Str(if r.decision.Allow? then "allow" else "deny"))
    && At(v, "ended_at") == Some(Int(r.endedAt)) && At(v, "expires_at") == Some(Int(r.expiresAt))
  }

  ghost predicate ReceiptPart2(v: Value, r: SignedReceipt) {
    && Under(v, "failure", (x: Value) => FailureForm(x, r.failure)) && At(v, "grant_id") == Some(Str(r.grantId))
    && At(v, "grant_revision") == Some(Int(r.grantRevision)) && At(v, "issuer_key_id") == Some(Str(r.issuerKeyId))
    && At(v, "operation") == Some(Str(r.operation))
  }

  ghost predicate ReceiptPart3(v: Value, r: SignedReceipt) {
    && At(v, "outcome") == Some(Str(if r.outcome.OutcomeOk? then "ok" else "error"))
    && At(v, "payload_digest") == Some(Str(r.payloadDigest))
    && At(v, "payload_digest_algorithm") == Some(Str("sha256-v1"))
    && At(v, "policy_revision") == Some(Int(r.policyRevision)) && At(v, "receipt_id") == Some(Str(r.receiptId))
  }

  ghost predicate ReceiptPart4(v: Value, r: SignedReceipt) {
    && At(v, "request_id") == Some(Str(r.requestId)) && At(v, "result_count") == Some(Int(r.resultCount))
    && At(v, "result_digest") == Some(OptionalText(r.resultDigest))
    && At(v, "result_digest_algorithm") == Some(Str("sha256-v1"))
    && At(v, "signature_algorithm") == Some(Str("ed25519-v1")) && At(v, "source") == Some(Str(r.source))
  }

  ghost predicate ReceiptPart5(v: Value, r: SignedReceipt) {
    && At(v, "started_at") == Some(Int(r.startedAt)) && At(v, "subject_key_id") == Some(Str(r.subjectKeyId))
    && At(v, "trace_id") == Some(Str(r.traceId)) && At(v, "truncated") == Some(Bool(r.truncated))
    && Under(v, "usage", (x: Value) => UsageForm(x, r.usage))
  }

  lemma ReceiptHolds1(w: seq<Value>, r: SignedReceipt)
    requires |w| == |RECEIPT_KEYS| && HoldsReceipt(w, r)
    ensures ReceiptPart1(Object(RECEIPT_KEYS, w), r)
  {
    hide At, Object, Ascending, BackendForm, FailureForm, UsageForm, BackendValue, FailureValue, UsageValue;
    ReceiptKeysAscend();
    AtKey(RECEIPT_KEYS, w, 0);
    AtKey(RECEIPT_KEYS, w, 1);
    AtKey(RECEIPT_KEYS, w, 2);
    AtKey(RECEIPT_KEYS, w, 3);
    BackendHolds(r.backend);
  }

  lemma ReceiptHolds2(w: seq<Value>, r: SignedReceipt)
    requires |w| == |RECEIPT_KEYS| && HoldsReceipt(w, r)
    ensures ReceiptPart2(Object(RECEIPT_KEYS, w), r)
  {
    hide At, Object, Ascending, BackendForm, FailureForm, UsageForm, BackendValue, FailureValue, UsageValue;
    ReceiptKeysAscend();
    AtKey(RECEIPT_KEYS, w, 4);
    AtKey(RECEIPT_KEYS, w, 5);
    AtKey(RECEIPT_KEYS, w, 6);
    AtKey(RECEIPT_KEYS, w, 7);
    AtKey(RECEIPT_KEYS, w, 8);
    FailureHolds(r.failure);
  }

  lemma ReceiptHolds3(w: seq<Value>, r: SignedReceipt)
    requires |w| == |RECEIPT_KEYS| && HoldsReceipt(w, r)
    ensures ReceiptPart3(Object(RECEIPT_KEYS, w), r)
  {
    hide At, Object, Ascending, BackendForm, FailureForm, UsageForm, BackendValue, FailureValue, UsageValue;
    ReceiptKeysAscend();
    AtKey(RECEIPT_KEYS, w, 9);
    AtKey(RECEIPT_KEYS, w, 10);
    AtKey(RECEIPT_KEYS, w, 11);
    AtKey(RECEIPT_KEYS, w, 12);
    AtKey(RECEIPT_KEYS, w, 13);
  }

  lemma ReceiptHolds4(w: seq<Value>, r: SignedReceipt)
    requires |w| == |RECEIPT_KEYS| && HoldsReceipt(w, r)
    ensures ReceiptPart4(Object(RECEIPT_KEYS, w), r)
  {
    hide At, Object, Ascending, BackendForm, FailureForm, UsageForm, BackendValue, FailureValue, UsageValue;
    ReceiptKeysAscend();
    AtKey(RECEIPT_KEYS, w, 14);
    AtKey(RECEIPT_KEYS, w, 15);
    AtKey(RECEIPT_KEYS, w, 16);
    AtKey(RECEIPT_KEYS, w, 17);
    AtKey(RECEIPT_KEYS, w, 18);
    AtKey(RECEIPT_KEYS, w, 19);
  }

  lemma ReceiptHolds5(w: seq<Value>, r: SignedReceipt)
    requires |w| == |RECEIPT_KEYS| && HoldsReceipt(w, r)
    ensures ReceiptPart5(Object(RECEIPT_KEYS, w), r)
  {
    hide At, Object, Ascending, BackendForm, FailureForm, UsageForm, BackendValue, FailureValue, UsageValue;
    ReceiptKeysAscend();
    AtKey(RECEIPT_KEYS, w, 20);
    AtKey(RECEIPT_KEYS, w, 21);
    AtKey(RECEIPT_KEYS, w, 22);
    AtKey(RECEIPT_KEYS, w, 23);
    AtKey(RECEIPT_KEYS, w, 24);
    UsageHolds(r.usage);
  }

  lemma ReceiptHolds(r: SignedReceipt)
    ensures ReceiptForm(Object(RECEIPT_KEYS, ReceiptSlots(r)), r)
  {
    hide At, Object, ReceiptSlots, HoldsReceipt, ReceiptPart1, ReceiptPart2, ReceiptPart3, ReceiptPart4, ReceiptPart5;
    SizeOf(RECEIPT_KEYS, ReceiptSlots(r));
    ReceiptSlotsHold(r);
    ReceiptHolds1(ReceiptSlots(r), r);
    ReceiptHolds2(ReceiptSlots(r), r);
    ReceiptHolds3(ReceiptSlots(r), r);
    ReceiptHolds4(ReceiptSlots(r), r);
    ReceiptHolds5(ReceiptSlots(r), r);
  }

  ghost predicate ClaimsForm(v: Value, r: SignedRecord) {
    match r
    case InitRecord(x) => InitForm(v, x)
    case ChallengeRecord(x) => ChallengeForm(v, x)
    case CompleteRecord(x) => CompleteForm(v, x)
    case GrantRecord(x) => GrantForm(v, x)
    case RequestRecord(x) => RequestForm(v, x)
    case ReceiptRecord(x) => ReceiptForm(v, x)
    case FileGrantRecord(x) => FileGrantForm(v, x)
  }

  lemma ClaimsHold(r: SignedRecord)
    ensures ClaimsForm(ClaimsValue(r), r)
  {
    hide InitForm, ChallengeForm, CompleteForm, GrantForm, RequestForm, ReceiptForm, FileGrantForm, Object;
    match r
    case InitRecord(x) => InitHolds(x);
    case ChallengeRecord(x) => ChallengeHolds(x);
    case CompleteRecord(x) => CompleteHolds(x);
    case GrantRecord(x) => GrantHolds(x);
    case RequestRecord(x) => RequestHolds(x);
    case ReceiptRecord(x) => ReceiptHolds(x);
    case FileGrantRecord(x) => FileGrantHolds(x);
  }

  // ------------------------------------------------------------------ whole frames

  /** the four keys of every frame */
  ghost predicate FrameForm(v: Value, kind: string, messageId: Id, body: Value -> bool) {
    && Size(v) == 4 && At(v, "protocol") == Some(Str("reach-connector/v1")) && At(v, "type") == Some(Str(kind))
    && At(v, "message_id") == Some(Str(messageId)) && Under(v, "body", body)
  }

  lemma FrameHolds(kind: string, messageId: Id, body: Value, form: Value -> bool)
    requires form(body)
    ensures FrameForm(Frame(kind, messageId, body), kind, messageId, form)
  {
    hide At, Object, Ascending;
    var w := [body, Str(messageId), Str(PROTOCOL), Str(kind)];
    FrameKeysAscend();
    SizeOf(FRAME_KEYS, w);
    AtKey(FRAME_KEYS, w, 0);
    AtKey(FRAME_KEYS, w, 1);
    AtKey(FRAME_KEYS, w, 2);
    AtKey(FRAME_KEYS, w, 3);
  }

  lemma FrameKeysAscend()
    ensures Ascending(FRAME_KEYS) && Ascending(SIGNED_KEYS)
  {
    hide Less;
    LessAt("body", "message_id", 0);
    LessAt("message_id", "protocol", 0);
    LessAt("protocol", "type", 0);
    LessAt("claims", "signature", 0);
  }

  function TypeWord(r: SignedRecord): string {
    match r
    case InitRecord(_) => "pairing-init"
    case ChallengeRecord(_) => "pairing-challenge"
    case CompleteRecord(_) => "pairing-complete"
    case GrantRecord(_) => "signed-grant"
    case RequestRecord(_) => "operation-request"
    case ReceiptRecord(_) => "operation-receipt"
    case FileGrantRecord(_) => "file-grant"
  }

  ghost predicate SignedBodyForm(v: Value, r: SignedRecord) {
    && Size(v) == 2 && Under(v, "claims", (x: Value) => ClaimsForm(x, r))
    && At(v, "signature") == Some(Str(Base64(SignatureOf(r))))
  }

  /** these bytes load as the frame of this signed record */
  ghost predicate BytesOfSigned(raw: Bytes, r: SignedRecord) {
    && Load(raw, MAX_FRAME_BYTES).Some?
    && FrameForm(Load(raw, MAX_FRAME_BYTES).value, TypeWord(r), MessageIdOf(r), (x: Value) => SignedBodyForm(x, r))
  }

  /** The encoding of a signed record, and so any bytes that parse as it, say under every key of the frame, of its
      claims and of the objects inside them what the record's field of that name holds, and have no other key. */
  lemma SignedOnWire(raw: Bytes, r: SignedRecord)
    requires EncodeSigned(r) == Some(raw)
    ensures BytesOfSigned(raw, r)
  {
    hide Load, Printed, IsDict, ClaimsForm, ClaimsValue, Object, Base64, FrameForm, Frame, At, Ascending;
    SignedDict(r);
    LoadsPrinted(raw, SignedFrame(r));
    ClaimsHold(r);
    var w := [ClaimsValue(r), Str(Base64(SignatureOf(r)))];
    FrameKeysAscend();
    SizeOf(SIGNED_KEYS, w);
    AtKey(SIGNED_KEYS, w, 0);
    AtKey(SIGNED_KEYS, w, 1);
    assert SignedBodyForm(Object(SIGNED_KEYS, w), r);
    FrameHolds(KindOf(r), MessageIdOf(r), Object(SIGNED_KEYS, w), (x: Value) => SignedBodyForm(x, r));
  }

  // ------------------------------------------------------------------ results

  ghost predicate MediaForm(v: Value, m: Option<ResultMedia>) {
    if m.None? then v.Null?
    else
      && Size(v) == 7 && At(v, "version") == Some(Str("v1")) && At(v, "coverage") == Some(Str(m.value.coverage))
      && At(v, "comment_count") == Some(OptionalInt(m.value.commentCount))
      && At(v, "duration_seconds") == Some(OptionalInt(m.value.durationSeconds))
      && At(v, "subtitle_language") == Some(OptionalText(m.value.subtitleLanguage))
      && At(v, "subtitle_origin") == Some(OptionalText(m.value.subtitleOrigin))
      && At(v, "view_count") == Some(OptionalInt(m.value.viewCount))
  }

  lemma MediaHolds(m: Option<ResultMedia>)
    ensures MediaForm(MediaValue(m), m)
  {
    hide At, Object, Ascending, OptionalText, OptionalInt;
    if m.Some? {
      var w := MediaSlots(m.value);
      MediaKeysAscend();
      SizeOf(MEDIA_KEYS, w);
      AtKey(MEDIA_KEYS, w, 0);
      AtKey(MEDIA_KEYS, w, 1);
      AtKey(MEDIA_KEYS, w, 2);
      AtKey(MEDIA_KEYS, w, 3);
      AtKey(MEDIA_KEYS, w, 4);
      AtKey(MEDIA_KEYS, w, 5);
      AtKey(MEDIA_KEYS, w, 6);
    }
  }

  lemma MediaKeysAscend()
    ensures Ascending(MEDIA_KEYS) && Ascending(RESULT_KEYS)
  {
    hide Less;
    LessAt("comment_count", "coverage", 2);
    LessAt("coverage", "duration_seconds", 0);
    LessAt("duration_seconds", "subtitle_language", 0);
    LessAt("subtitle_language", "subtitle_origin", 9);
    LessAt("subtitle_origin", "version", 0);
    LessAt("version", "view_count", 1);
    LessAt("items", "truncated", 0);
    LessAt("truncated", "version", 0);
  }

  ghost predicate ItemForm(v: Value, i: ResultItem) {
    && Size(v) == 8 && At(v, "author") == Some(OptionalText(i.author)) && At(v, "kind") == Some(Str(i.kind))
    && Under(v, "media", (x: Value) => MediaForm(x, i.media)) && At(v, "native_id") == Some(OptionalText(i.nativeId))
    && At(v, "published_at") == Some(OptionalText(i.publishedAt)) && At(v, "text") == Some(Str(i.text))
    && At(v, "title") == Some(OptionalText(i.title)) && At(v, "url") == Some(OptionalText(i.url))
  }

  lemma ItemHolds(i: ResultItem)
    ensures ItemForm(ItemValue(i), i)
  {
    hide At, Object, Ascending, OptionalText, MediaValue, MediaForm;
    var w := ItemSlots(i);
    ItemKeysAscend();
    MediaHolds(i.media);
    SizeOf(ITEM_KEYS, w);
    AtKey(ITEM_KEYS, w, 0);
    AtKey(ITEM_KEYS, w, 1);
    AtKey(ITEM_KEYS, w, 2);
    AtKey(ITEM_KEYS, w, 3);
    AtKey(ITEM_KEYS, w, 4);
    AtKey(ITEM_KEYS, w, 5);
    AtKey(ITEM_KEYS, w, 6);
    AtKey(ITEM_KEYS, w, 7);
  }

  ghost predicate ItemsForm(v: Value, items: seq<ResultItem>) {
    v.Arr? && |v.items| == |items| && forall i | 0 <= i < |items| :: ItemForm(v.items[i], items[i])
  }

  ghost predicate ResultForm(v: Value, r: Option<OperationResult>) {
    if r.None? then v.Null?
    else
      && Size(v) == 3 && Under(v, "items", (x: Value) => ItemsForm(x, r.value.items))
      && At(v, "truncated") == Some(Bool(r.value.truncated)) && At(v, "version") == Some(Str("v1"))
  }

  lemma ResultHolds(r: Option<OperationResult>)
    ensures ResultForm(OptionalResult(r), r)
  {
    hide At, Object, Ascending, ItemForm, ItemValue;
    if r.Some? {
      var items := Arr(Values(r.value.items, ItemValue));
      forall i | 0 <= i < |r.value.items| ensures ItemForm(items.items[i], r.value.items[i]) {
        ItemHolds(r.value.items[i]);
      }
      var w := [items, Bool(r.value.truncated), Str(VERSION)];
      MediaKeysAscend();
      SizeOf(RESULT_KEYS, w);
      AtKey(RESULT_KEYS, w, 0);
      AtKey(RESULT_KEYS, w, 1);
      AtKey(RESULT_KEYS, w, 2);
    }
  }

  // ------------------------------------------------------------------ envelopes

  /** base64url text of the encoding of this record, which has the form of that record */
  ghost predicate NestedForm(v: Value, r: SignedRecord) {
    && v.Str? && DecodeBase64(v.s).Some?
    && EncodeSigned(r) == DecodeBase64(v.s) && BytesOfSigned(DecodeBase64(v.s).value, r)
  }

  lemma NestedHolds(r: SignedRecord)
    ensures Nested(r).Some? ==> NestedForm(Nested(r).value, r)
  {
    hide EncodeSigned, Base64, DecodeBase64, BytesOfSigned;
    if EncodeSigned(r).Some? {
      var raw := EncodeSigned(r).value;
      SignedOnWire(raw, r);
      Base64Exact(Base64(raw), raw);
    }
  }

  ghost predicate BodyForm(v: Value, w: WireRecord)
    requires !w.Signed?
  {
    match w
    case Resolution(x) =>
      && Size(v) == 2 && Under(v, "pairing_complete", (b: Value) => NestedForm(b, CompleteRecord(x.pairingComplete)))
      && Under(v, "signed_grant", (b: Value) => NestedForm(b, GrantRecord(x.signedGrant)))
    case Invocation(_, request, payload) =>
      && Size(v) == 2 && At(v, "protected_payload") == Some(payload)
      && Under(v, "signed_request", (b: Value) => NestedForm(b, RequestRecord(request)))
    case Response(x) =>
      && Size(v) == 2 && Under(v, "receipt", (b: Value) => NestedForm(b, ReceiptRecord(x.receipt)))
      && Under(v, "result", (b: Value) => ResultForm(b, x.result))
    case ErrorFrame(_, code) => Size(v) == 1 && At(v, "code") == Some(Str(CodeText(code)))
  }

  function EnvelopeWord(w: WireRecord): string
    requires !w.Signed?
  {
    match w
    case Resolution(_) => "pairing-resolution"
    case Invocation(_, _, _) => "operation-invocation"
    case Response(_) => "operation-response"
    case ErrorFrame(_, _) => "error"
  }

  function EnvelopeId(w: WireRecord): Id
    requires !w.Signed?
  {
    match w
    case Resolution(x) => x.messageId
    case Invocation(messageId, _, _) => messageId
    case Response(x) => x.messageId
    case ErrorFrame(messageId, _) => messageId
  }

  lemma EnvelopeKeysAscend()
    ensures Ascending(RESOLUTION_KEYS) && Ascending(INVOCATION_KEYS) && Ascending(RESPONSE_KEYS)
    ensures Ascending(ERROR_KEYS)
  {
    hide Less;
    LessAt("pairing_complete", "signed_grant", 0);
    LessAt("protected_payload", "signed_request", 0);
    LessAt("receipt", "result", 2);
  }

  lemma TwoKeys(keys: seq<string>, a: Value, b: Value)
    requires |keys| == 2 && Ascending(keys)
    ensures Size(Object(keys, [a, b])) == 2
    ensures At(Object(keys, [a, b]), keys[0]) == Some(a) && At(Object(keys, [a, b]), keys[1]) == Some(b)
  {
    hide At, Object, Ascending;
    SizeOf(keys, [a, b]);
    AtKey(keys, [a, b], 0);
    AtKey(keys, [a, b], 1);
  }

  lemma EnvelopeHolds(w: WireRecord)
    requires !w.Signed? && EnvelopeFrame(w).Some?
    ensures FrameForm(EnvelopeFrame(w).value, EnvelopeWord(w), EnvelopeId(w), (v: Value) => BodyForm(v, w))
  {
    hide At, Object, Ascending, Nested, NestedForm, ResultForm, OptionalResult, CodeText, Frame, FrameForm;
    EnvelopeKeysAscend();
    var form := (v: Value) => BodyForm(v, w);
    match w
    case Resolution(x) =>
      NestedHolds(CompleteRecord(x.pairingComplete));
      NestedHolds(GrantRecord(x.signedGrant));
      var a, b := Nested(CompleteRecord(x.pairingComplete)).value, Nested(GrantRecord(x.signedGrant)).value;
      TwoKeys(RESOLUTION_KEYS, a, b);
      FrameHolds("pairing-resolution", x.messageId, Object(RESOLUTION_KEYS, [a, b]), form);
    case Invocation(messageId, request, payload) =>
      NestedHolds(RequestRecord(request));
      var b := Nested(RequestRecord(request)).value;
      TwoKeys(INVOCATION_KEYS, payload, b);
      FrameHolds("operation-invocation", messageId, Object(INVOCATION_KEYS, [payload, b]), form);
    case Response(x) =>
      NestedHolds(ReceiptRecord(x.receipt));
      ResultHolds(x.result);
      var a := Nested(ReceiptRecord(x.receipt)).value;
      TwoKeys(RESPONSE_KEYS, a, OptionalResult(x.result));
      FrameHolds("operation-response", x.messageId, Object(RESPONSE_KEYS, [a, OptionalResult(x.result)]), form);
    case ErrorFrame(messageId, code) =>
      SizeOf(ERROR_KEYS, [Str(CodeText(code))]);
      AtKey(ERROR_KEYS, [Str(CodeText(code))], 0);
      FrameHolds("error", messageId, Object(ERROR_KEYS, [Str(CodeText(code))]), form);
  }

  /** these bytes load as the frame of this record */
  ghost predicate BytesOf(raw: Bytes, w: WireRecord) {
    if w.Signed? then BytesOfSigned(raw, w.r)
    else
      && Load(raw, MAX_FRAME_BYTES).Some?
      && FrameForm(Load(raw, MAX_FRAME_BYTES).value, EnvelopeWord(w), EnvelopeId(w), (v: Value) => BodyForm(v, w))
  }

  /** Any bytes that parse as a record say under every key of its frame and body what the record's field of that name
      holds, through the records and results nested in it, and have no other key. */
  lemma RecordOnWire(k: Constructors, raw: Bytes, w: WireRecord)
    requires ParseRecord(k, raw) == Some(w)
    ensures BytesOf(raw, w)
  {
    hide ParseRecord, EncodeSigned, EnvelopeFrame, Printed, Load, FrameForm, BodyForm, WellNested, BytesOfSigned,
         IsDict;
    RecordRoundTrip(k, raw, w);
    if w.Signed? {
      SignedOnWire(raw, w.r);
    } else {
      EnvelopeDict(k, w);
      LoadsPrinted(raw, EnvelopeFrame(w).value);
      EnvelopeHolds(w);
    }
  }
}
