/** What the record constructors demand (connector/protocol.py, every __post_init__), and what that means
    for the modules that take a record's validity for granted. */
module RecordConstructors {
  import opened Prelude
  import opened Limits
  import opened Records
  import opened Trust
  import opened Text
  import opened Json
  import opened Receipts
  import opened WireResults
  import opened Wire

  /** the catalog, hashes and checks of unseen code */
  datatype Env = Env(
    crypto: Crypto,
    contract: Contract,
    dataScope: (string, string) -> Option<DataScope>,
    transcribes: (string, string) -> bool,
    sha256: Bytes -> string,
    urlOk: string -> bool,
    /** parse_protected_operation: the payload's source and operation */
    protectedCall: Value -> Option<(string, string)>,
    payloadDigest: Bytes -> string)

  predicate IsHexOf(s: string, n: nat) {
    |s| == n && forall i | 0 <= i < n :: '0' <= s[i] <= '9' || 'a' <= s[i] <= 'f'
  }

  /** require_printable_metadata */
  predicate IsPrintable(s: string, maximum: nat) {
    && 0 < |s| <= maximum && s[0] != ' ' && s[|s| - 1] != ' '
    && forall i | 0 <= i < |s| :: ' ' <= s[i] <= '~'
  }

  predicate IsBinary(s: string, minimum: nat, maximum: nat) {
    DecodeBase64(s).Some? && minimum <= |DecodeBase64(s).value| <= maximum
  }

  /** GrantScope */
  predicate ScopeConstructs(e: Env, s: Scope) {
    && e.dataScope(s.source, s.operation) == Some(s.dataScope)
    && (s.capability.Some? ==> ProtocolId(s.capability.value))
  }

  predicate ScopeBefore(a: Scope, b: Scope) {
    Less(a.source, b.source) || (a.source == b.source && Less(a.operation, b.operation))
  }

  /** _require_scopes */
  predicate ScopesConstruct(e: Env, scopes: seq<Scope>) {
    && 1 <= |scopes| <= MAX_GRANT_SCOPES
    && (forall i | 0 <= i < |scopes| :: ScopeConstructs(e, scopes[i]))
    && (forall i | 0 <= i < |scopes| - 1 :: ScopeBefore(scopes[i], scopes[i + 1]))
  }

  predicate InitConstructs(e: Env, r: PairingInit) {
    && ProtocolId(r.messageId) && ProtocolId(r.pairingId)
    && ProtocolKeyId(r.vpsKeyId) && e.crypto.keyId(r.vpsPublicKey) == Some(r.vpsKeyId)
    && IsPrintable(r.deviceLabel, MAX_DEVICE_LABEL_LENGTH)
    && IsBinary(r.vpsNonce, 32, 32) && IsHexOf(r.endpointDigest, 64)
    && ScopesConstruct(e, r.requestedScopes)
    && InitBounds(r) && |r.signature| == 64
  }

  predicate ChallengeConstructs(e: Env, r: PairingChallenge) {
    && ProtocolId(r.messageId) && ProtocolId(r.pairingId) && IsHexOf(r.initDigest, 64) && ProtocolKeyId(r.vpsKeyId)
    && ProtocolKeyId(r.connectorKeyId) && e.crypto.keyId(r.connectorPublicKey) == Some(r.connectorKeyId)
    && IsBinary(r.connectorNonce, 32, 32) && IsBinary(r.tlsCaDer, 1, MAX_TLS_CA_DER_BYTES)
    && IsHexOf(r.tlsCaFingerprint, 64) && IsHexOf(r.tlsLeafFingerprint, 64)
    && e.sha256(DecodeBase64(r.tlsCaDer).value) == r.tlsCaFingerprint
    && ChallengeBounds(r) && |r.signature| == 64
  }

  predicate CompleteConstructs(r: PairingComplete) {
    && ProtocolId(r.messageId) && ProtocolId(r.pairingId) && IsHexOf(r.transcriptDigest, 64)
    && ProtocolKeyId(r.connectorKeyId) && ProtocolKeyId(r.vpsKeyId) && IsHexOf(r.signedGrantDigest, 64)
    && CompleteBounds(r) && |r.signature| == 64
  }

  predicate GrantConstructs(e: Env, r: SignedGrant) {
    && ProtocolId(r.messageId) && ProtocolId(r.claims.grantId)
    && ProtocolKeyId(r.claims.issuerKeyId) && ProtocolKeyId(r.claims.subjectKeyId)
    && GrantBounds(r.claims) && ScopesConstruct(e, r.claims.scopes) && |r.signature| == 64
  }

  predicate InCatalog(e: Env, source: string, operation: string) {
    e.contract.bounds(source, operation).Some?
  }

  predicate RequestConstructs(e: Env, r: SignedRequest) {
    && ProtocolId(r.messageId) && ProtocolId(r.requestId) && IsHexOf(r.traceId, 32)
    && ProtocolKeyId(r.audienceKeyId) && ProtocolKeyId(r.subjectKeyId) && ProtocolId(r.grantId)
    && InCatalog(e, r.source, r.operation) && IsHexOf(r.payloadDigest, 64)
    && RequestBounds(r) && |r.signature| == 64
  }

  /** the three backends a receipt may name */
  predicate SafeBackend(b: BackendIdentity) {
    || b == BackendIdentity("reach-bounded-executor-v1", "1")
    || b == BackendIdentity("opencli", "1.8.6-hermes.1")
    || b == BackendIdentity("xueqiu-api", "1.5.0+search.v1")
  }

  predicate ReceiptRecordConstructs(e: Env, r: SignedReceipt) {
    && ProtocolId(r.messageId) && ProtocolId(r.receiptId) && ProtocolId(r.requestId) && IsHexOf(r.traceId, 32)
    && ProtocolKeyId(r.issuerKeyId) && ProtocolKeyId(r.subjectKeyId) && ProtocolId(r.grantId)
    && IsHexOf(r.payloadDigest, 64) && (r.resultDigest.Some? ==> IsHexOf(r.resultDigest.value, 64))
    && (r.backend.Some? ==> SafeBackend(r.backend.value))
    && ReceiptConstructs(e.contract, r) && |r.signature| == 64
  }

  predicate FileGrantConstructs(e: Env, r: FileGrant) {
    && ProtocolId(r.messageId) && ProtocolId(r.fileGrantId) && ProtocolKeyId(r.issuerKeyId)
    && ProtocolKeyId(r.subjectKeyId)
    && IsHexOf(r.digest, 64) && InCatalog(e, r.source, r.operation) && e.transcribes(r.source, r.operation)
    && FileGrantBounds(r) && |r.signature| == 64
  }

  predicate SignedConstructs(e: Env, r: SignedRecord) {
    match r
    case InitRecord(x) => InitConstructs(e, x)
    case ChallengeRecord(x) => ChallengeConstructs(e, x)
    case CompleteRecord(x) => CompleteConstructs(x)
    case GrantRecord(x) => GrantConstructs(e, x)
    case RequestRecord(x) => RequestConstructs(e, x)
    case ReceiptRecord(x) => ReceiptRecordConstructs(e, x)
    case FileGrantRecord(x) => FileGrantConstructs(e, x)
  }

  predicate CountOk(n: Option<int>) {
    n.Some? ==> 0 <= n.value <= MAX_NORMALIZED_INTEGER
  }

  predicate IsLanguageTag(s: string) {
    && 1 <= |s| <= 32 && s[0] != '_' && s[0] != '-'
    && forall i | 0 <= i < |s| ::
         'A' <= s[i] <= 'Z' || 'a' <= s[i] <= 'z' || '0' <= s[i] <= '9' || s[i] == '_' || s[i] == '-'
  }

  /** OperationResultMediaV1 */
  predicate MediaConstructs(m: ResultMedia) {
    && (m.coverage == "complete" || m.coverage == "partial" || m.coverage == "unknown")
    && (m.subtitleLanguage.Some? ==> IsLanguageTag(m.subtitleLanguage.value))
    && (m.subtitleOrigin.Some? ==> m.subtitleOrigin.value == "manual" || m.subtitleOrigin.value == "automatic")
    && CountOk(m.durationSeconds) && CountOk(m.viewCount) && CountOk(m.commentCount)
  }

  predicate TextOk(s: Option<string>, maximum: nat) {
    s.Some? ==> |s.value| <= maximum && CleanText(s.value)
  }

  /** OperationResultItemV1 */
  predicate ItemConstructs(e: Env, i: ResultItem) {
    && (i.kind == "content" || i.kind == "entry" || i.kind == "topic" || i.kind == "reply" || i.kind == "profile"
        || i.kind == "result")
    && CleanText(i.text) && TextOk(i.nativeId, 512) && TextOk(i.title, 512) && TextOk(i.author, 256)
    && TextOk(i.publishedAt, 128) && TextOk(i.url, 4096) && (i.url.Some? ==> e.urlOk(i.url.value))
    && (i.media.Some? ==> MediaConstructs(i.media.value))
  }

  /** OperationResultV1, and canonical_operation_result_bytes within its limit */
  predicate ResultConstructs(e: Env, r: OperationResult) {
    && |r.items| <= MAX_JSON_CONTAINER_ITEMS
    && (forall i | 0 <= i < |r.items| :: ItemConstructs(e, r.items[i]))
    && Canonical(ResultValue(r)).Some? && |Canonical(ResultValue(r)).value| <= MAX_OPERATION_RESULT_BYTES
  }

  predicate EnvelopeConstructs(e: Env, w: WireRecord) {
    match w
    case Signed(_) => true
    case Resolution(x) =>
      ProtocolId(x.messageId) && ProtocolId(x.pairingId) && ResolutionContext(e.crypto, x)
    case Invocation(messageId, request, payload) =>
      && ProtocolId(messageId) && messageId == request.messageId && payload.Obj?
      && var bytes := Printed(payload);
      && bytes.Some? && |bytes.value| <= MAX_PROTECTED_OPERATION_BYTES
      && e.protectedCall(payload) == Some((request.source, request.operation))
      && request.payloadDigest == e.payloadDigest(bytes.value)
    case Response(x) =>
      && ProtocolId(x.messageId) && ValidResponse(e.contract, x)
      && (x.result.Some? ==> ResultConstructs(e, x.result.value))
    case ErrorFrame(messageId, _) => ProtocolId(messageId)
  }

  function Closed(e: Env): Constructors {
    Constructors((r: SignedRecord) => SignedConstructs(e, r), (w: WireRecord) => EnvelopeConstructs(e, w))
  }

  /** parse_record with the real constructors is the exact inverse of encode_record. */
  lemma ClosedRoundTrip(e: Env, raw: Bytes, w: WireRecord)
    ensures ParseRecord(Closed(e), raw) == Some(w) <==>
              WellNested(Closed(e), w) && EnvelopeConstructs(e, w) && EncodeRecord(w) == Some(raw)
  {
    hide ParseRecord, EncodeRecord, WellNested;
    RecordRoundTrip(Closed(e), raw, w);
  }

  /** Every signed record that parses meets what the store's transactions take for granted of it. */
  lemma ParsedRecordsAreValid(e: Env, raw: Bytes)
    requires ParseRecord(Closed(e), raw).Some? && ParseRecord(Closed(e), raw).value.Signed?
    ensures match ParseRecord(Closed(e), raw).value.r
            case InitRecord(x) => ValidInit(e.crypto, x)
            case ChallengeRecord(x) => ValidChallenge(e.crypto, x)
            case GrantRecord(x) => ValidGrant(x)
            case RequestRecord(x) => RequestBounds(x)
            case ReceiptRecord(x) => ReceiptConstructs(e.contract, x)
            case FileGrantRecord(x) => FileGrantBounds(x)
            case CompleteRecord(x) => CompleteBounds(x)
  {
    hide ParseRecord, EncodeRecord, ScopesConstruct, IsHexOf, ProtocolId, ProtocolKeyId, IsPrintable, IsBinary;
    ClosedRoundTrip(e, raw, ParseRecord(Closed(e), raw).value);
  }

  /** Every invocation that parses binds its payload: digest, source and operation are the request's, and
      the payload's bytes are within their limit. */
  lemma ParsedInvocationBinds(e: Env, raw: Bytes)
    requires ParseRecord(Closed(e), raw).Some? && ParseRecord(Closed(e), raw).value.Invocation?
    ensures var w := ParseRecord(Closed(e), raw).value;
            && RequestBounds(w.request)
            && Printed(w.payload).Some? && |Printed(w.payload).value| <= MAX_PROTECTED_OPERATION_BYTES
            && w.request.payloadDigest == e.payloadDigest(Printed(w.payload).value)
            && e.protectedCall(w.payload) == Some((w.request.source, w.request.operation))
  {
    hide ParseRecord, EncodeRecord, Printed, ScopesConstruct, IsHexOf, ProtocolId, ProtocolKeyId, IsPrintable, IsBinary;
    ClosedRoundTrip(e, raw, ParseRecord(Closed(e), raw).value);
  }
}
