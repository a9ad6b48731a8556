/** The Connector v1 records and their numeric bounds (connector/protocol.py).

    `signature_algorithm`, `payload_digest_algorithm` and `result_digest_algorithm` admit one value
    each, so they are not fields here: the wire encoder writes the constants and the wire parser
    demands them.
 */
module Records {
  import opened Prelude
  import opened Limits
  import opened Errors

  type Id = string

  datatype DataScope = PublicData | AccountVisible

  datatype Scope = Scope(source: string, operation: string, dataScope: DataScope, capability: Option<Id>)

  datatype GrantClaims = GrantClaims(
    grantId: Id, revision: int, issuerKeyId: Id, subjectKeyId: Id,
    issuedAt: int, notBefore: int, expiresAt: int,
    policyRevision: int, maxUses: int, scopes: seq<Scope>)

  datatype SignedGrant = SignedGrant(messageId: Id, claims: GrantClaims, signature: Bytes)

  datatype PairingInit = PairingInit(
    messageId: Id, pairingId: Id, vpsPublicKey: string, vpsKeyId: Id, deviceLabel: string,
    vpsNonce: string, endpointDigest: string, requestedScopes: seq<Scope>,
    grantExpiresAt: int, grantMaxUses: int, issuedAt: int, deadline: int, signature: Bytes)

  datatype PairingChallenge = PairingChallenge(
    messageId: Id, pairingId: Id, initDigest: string, vpsKeyId: Id, connectorPublicKey: string,
    connectorKeyId: Id, connectorNonce: string, tlsCaDer: string, tlsCaFingerprint: string,
    tlsLeafFingerprint: string, issuedAt: int, deadline: int, signature: Bytes)

  datatype PairingComplete = PairingComplete(
    messageId: Id, pairingId: Id, transcriptDigest: string, connectorKeyId: Id, vpsKeyId: Id,
    signedGrantDigest: string, completedAt: int, signature: Bytes)

  datatype PairingResolution = PairingResolution(
    messageId: Id, pairingId: Id, signedGrant: SignedGrant, pairingComplete: PairingComplete)

  datatype SignedRequest = SignedRequest(
    messageId: Id, requestId: Id, traceId: string, audienceKeyId: Id, subjectKeyId: Id,
    grantId: Id, grantRevision: int, policyRevision: int, source: string, operation: string,
    issuedAt: int, deadline: int, payloadDigest: string, signature: Bytes)

  datatype ReceiptFailure = ReceiptFailure(failureClass: ErrorCategory, causeCode: ErrorCode)
  datatype ReceiptUsage = ReceiptUsage(sequence: int, remaining: int)
  datatype BackendIdentity = BackendIdentity(backendId: string, backendVersion: string)
  datatype Decision = Allow | Deny
  datatype Outcome = OutcomeOk | OutcomeError

  datatype SignedReceipt = SignedReceipt(
    messageId: Id, receiptId: Id, requestId: Id, traceId: string, issuerKeyId: Id, subjectKeyId: Id,
    grantId: Id, grantRevision: int, policyRevision: int, source: string, operation: string,
    decision: Decision, failure: Option<ReceiptFailure>, usage: Option<ReceiptUsage>,
    backend: Option<BackendIdentity>, startedAt: int, endedAt: int, expiresAt: int,
    resultCount: int, truncated: bool, resultDigest: Option<string>, outcome: Outcome,
    payloadDigest: string, signature: Bytes)

  datatype ResultMedia = ResultMedia(
    coverage: string, durationSeconds: Option<int>, viewCount: Option<int>, commentCount: Option<int>,
    subtitleLanguage: Option<string>, subtitleOrigin: Option<string>)

  datatype ResultItem = ResultItem(
    kind: string, text: string, nativeId: Option<string>, title: Option<string>, url: Option<string>,
    author: Option<string>, publishedAt: Option<string>, media: Option<ResultMedia>)

  datatype OperationResult = OperationResult(items: seq<ResultItem>, truncated: bool)

  datatype OperationResponse = OperationResponse(messageId: Id, receipt: SignedReceipt, result: Option<OperationResult>)

  datatype FileGrant = FileGrant(
    messageId: Id, fileGrantId: Id, issuerKeyId: Id, subjectKeyId: Id, digest: string, size: int,
    source: string, operation: string, grantRevision: int, policyRevision: int,
    issuedAt: int, expiresAt: int, signature: Bytes)

  datatype SignedRecord =
    | InitRecord(init: PairingInit)
    | ChallengeRecord(challenge: PairingChallenge)
    | CompleteRecord(complete: PairingComplete)
    | GrantRecord(grant: SignedGrant)
    | RequestRecord(request: SignedRequest)
    | ReceiptRecord(receipt: SignedReceipt)
    | FileGrantRecord(fileGrant: FileGrant)

  // ---- the numeric part of each record's constructor checks ----

  predicate GrantBounds(c: GrantClaims) {
    && c.revision > 0 && c.policyRevision > 0
    && IsTimestamp(c.issuedAt) && IsTimestamp(c.notBefore) && IsTimestamp(c.expiresAt)
    && c.issuerKeyId != c.subjectKeyId
    && c.issuedAt <= c.notBefore < c.expiresAt
    && c.expiresAt - c.issuedAt <= MAX_GRANT_TTL_SECONDS
    && 1 <= c.maxUses <= MAX_GRANT_USES
  }

  predicate InitBounds(r: PairingInit) {
    && IsTimestamp(r.issuedAt) && IsTimestamp(r.deadline) && IsTimestamp(r.grantExpiresAt)
    && r.issuedAt < r.deadline && r.deadline - r.issuedAt <= PAIRING_TTL_SECONDS
    && r.issuedAt < r.grantExpiresAt && r.grantExpiresAt - r.issuedAt <= MAX_GRANT_TTL_SECONDS
    && 1 <= r.grantMaxUses <= MAX_GRANT_USES
  }

  predicate ChallengeBounds(r: PairingChallenge) {
    && IsTimestamp(r.issuedAt) && IsTimestamp(r.deadline)
    && r.connectorKeyId != r.vpsKeyId
    && r.issuedAt < r.deadline && r.deadline - r.issuedAt <= PAIRING_TTL_SECONDS
  }

  predicate CompleteBounds(r: PairingComplete) {
    IsTimestamp(r.completedAt) && r.connectorKeyId != r.vpsKeyId
  }

  predicate RequestBounds(r: SignedRequest) {
    && r.grantRevision > 0 && r.policyRevision > 0
    && IsTimestamp(r.issuedAt) && IsTimestamp(r.deadline)
    && r.audienceKeyId != r.subjectKeyId
    && r.issuedAt < r.deadline && r.deadline - r.issuedAt <= MAX_REQUEST_TTL_SECONDS
  }

  predicate UsageBounds(u: ReceiptUsage) {
    u.sequence > 0 && 0 <= u.remaining <= MAX_GRANT_USES
  }

  predicate ReceiptBounds(r: SignedReceipt, maximumItems: int) {
    && r.grantRevision > 0 && r.policyRevision > 0
    && IsTimestamp(r.startedAt) && IsTimestamp(r.endedAt) && IsTimestamp(r.expiresAt)
    && r.issuerKeyId != r.subjectKeyId
    && r.startedAt <= r.endedAt < r.expiresAt
    && r.expiresAt - r.endedAt <= MAX_RECEIPT_TTL_SECONDS
    && 0 <= r.resultCount <= maximumItems
  }

  /** The agreement between decision, outcome, failure, usage, backend and result of a receipt. */
  predicate ReceiptCoherent(r: SignedReceipt) {
    && (r.failure.Some? ==> CategoryOf(r.failure.value.causeCode) == r.failure.value.failureClass)
    && (r.usage.Some? ==> UsageBounds(r.usage.value))
    && (r.decision.Deny? ==>
          r.outcome.OutcomeError? && r.failure.Some? && r.usage.None? && r.backend.None?
          && r.resultCount == 0 && !r.truncated)
    && (r.decision.Allow? ==> r.usage.Some?)
    && (r.outcome.OutcomeOk? <==> r.failure.None?)
    && (r.outcome.OutcomeOk? <==> r.resultDigest.Some?)
    && (r.outcome.OutcomeError? ==> r.resultCount == 0 && !r.truncated)
    && (r.outcome.OutcomeOk? ==> r.backend.Some?)
  }

  predicate FileGrantBounds(r: FileGrant) {
    && r.grantRevision > 0 && r.policyRevision > 0
    && IsTimestamp(r.issuedAt) && IsTimestamp(r.expiresAt)
    && 0 < r.size <= MAX_FILE_BYTES
    && r.issuerKeyId != r.subjectKeyId
    && r.issuedAt < r.expiresAt && r.expiresAt - r.issuedAt <= MAX_FILE_GRANT_TTL_SECONDS
  }
}

/** What the protocol takes from cryptography, and the verify_* functions built on it.

    Nothing is assumed about these functions except where a lemma says so. */
module Trust {
  import opened Prelude
  import opened Limits
  import opened Records

  datatype Crypto = Crypto(
    /** DevicePublicIdentity.from_wire(key).key_id, None when the key does not decode */
    keyId: string -> Option<Id>,
    /** the record's signature verifies under this public key, in the record's own domain */
    verifies: (string, SignedRecord) -> bool,
    /** record_digest */
    digest: SignedRecord -> string,
    /** pairing_transcript_hash over both encodings and the observed leaf fingerprint */
    transcript: (PairingInit, PairingChallenge, string) -> string,
    /** the Connector's own identity */
    connectorKeyId: Id,
    connectorKey: string)

  /** _require_active */
  predicate Active(issuedAt: int, expiresAt: int, now: int, skew: int) {
    IsTimestamp(now) && issuedAt <= now + skew && now < expiresAt
  }

  /** verify_pairing_init */
  predicate VerifyInit(c: Crypto, r: PairingInit, now: int) {
    && c.keyId(r.vpsPublicKey).Some?
    && c.verifies(r.vpsPublicKey, InitRecord(r))
    && Active(r.issuedAt, r.deadline, now, CLOCK_SKEW_SECONDS)
  }

  /** verify_pairing_challenge against the expected pairing context */
  predicate VerifyChallenge(
    c: Crypto, r: PairingChallenge, pairingId: Id, vpsKeyId: Id, initDigest: string, leaf: string, now: int) {
    && c.keyId(r.connectorPublicKey).Some?
    && c.verifies(r.connectorPublicKey, ChallengeRecord(r))
    && r.pairingId == pairingId && r.vpsKeyId == vpsKeyId && r.initDigest == initDigest
    && r.tlsLeafFingerprint == leaf
    && Active(r.issuedAt, r.deadline, now, CLOCK_SKEW_SECONDS)
  }

  /** verify_signed_grant against a pinned Connector identity */
  predicate VerifyGrant(c: Crypto, r: SignedGrant, pinnedKey: string, pinnedKeyId: Id, subject: Id, now: int) {
    && c.verifies(pinnedKey, GrantRecord(r))
    && r.claims.issuerKeyId == pinnedKeyId && r.claims.subjectKeyId == subject
    && Active(r.claims.notBefore, r.claims.expiresAt, now, 0)
  }

  /** A PairingInit object exists only with these properties (its constructor checks them). */
  predicate ValidInit(c: Crypto, r: PairingInit) {
    InitBounds(r) && c.keyId(r.vpsPublicKey) == Some(r.vpsKeyId)
  }

  predicate ValidChallenge(c: Crypto, r: PairingChallenge) {
    ChallengeBounds(r) && c.keyId(r.connectorPublicKey) == Some(r.connectorKeyId)
  }

  predicate ValidGrant(r: SignedGrant) {
    GrantBounds(r.claims)
  }

  /** an example: an identity under which every signature verifies */
  function Trusting(): Crypto {
    Crypto((key: string) => Some(if key == "connector" then "c" else "v"), (key: string, r: SignedRecord) => true,
           (r: SignedRecord) => "digest", (i: PairingInit, ch: PairingChallenge, leaf: string) => "transcript",
           "c", "connector")
  }

  /** an example: a request that uses the whole pairing lifetime */
  function ExampleInit(): PairingInit {
    PairingInit("m", "p", "vps", "v", "label", "nonce", "endpoint", [Scope("web", "search", PublicData, None)], 2000, 1,
                1000, 1300, [])
  }

  function ExampleChallenge(deadline: int): PairingChallenge {
    PairingChallenge("n", "p", "digest", "v", "connector", "c", "nonce", "der", "fp", "leaf", 1000, deadline, [])
  }

  /** the completion inside a resolution is for its pairing and its grant */
  predicate ResolutionContext(c: Crypto, r: PairingResolution) {
    && r.pairingComplete.pairingId == r.pairingId
    && r.pairingComplete.signedGrantDigest == c.digest(GrantRecord(r.signedGrant))
    && r.pairingComplete.connectorKeyId == r.signedGrant.claims.issuerKeyId
    && r.pairingComplete.vpsKeyId == r.signedGrant.claims.subjectKeyId
  }
}
