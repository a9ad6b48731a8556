/** The character budget shared by the runner and the wire (normalized.py). */
module Normalized {
  import opened Prelude
  import opened Records

  function OptionalLength(s: Option<string>): nat {
    if s.Some? then |s.value| else 0
  }

  function OptionalDigits(n: Option<int>): nat {
    if n.Some? then |IntText(n.value)| else 0
  }

  /** media_metadata_characters; "v1" is the media version, which always counts */
  function MediaCharacters(m: ResultMedia): nat {
    |"v1"| + |m.coverage| + OptionalLength(m.subtitleLanguage) + OptionalLength(m.subtitleOrigin)
    + OptionalDigits(m.durationSeconds) + OptionalDigits(m.viewCount) + OptionalDigits(m.commentCount)
  }

  /** normalized_item_characters */
  function ItemCharacters(i: ResultItem): nat {
    |i.kind| + |i.text| + OptionalLength(i.nativeId) + OptionalLength(i.title) + OptionalLength(i.url)
    + OptionalLength(i.author) + OptionalLength(i.publishedAt)
    + if i.media.Some? then MediaCharacters(i.media.value) else 0
  }

  function ResultCharacters(items: seq<ResultItem>): nat {
    if |items| == 0 then 0 else ResultCharacters(items[..|items| - 1]) + ItemCharacters(items[|items| - 1])
  }
}

/** Signed receipts: how the Connector issues them (connector/authority.py, create_signed_receipt), how the
    client verifies them (verify_signed_receipt, verify_operation_response), and the agreement between
    the two sides.
 */
module Receipts {
  import opened Prelude
  import opened Limits
  import opened Errors
  import opened Records
  import opened Trust
  import opened Store
  import opened Normalized

  /** one catalog operation's output limits */
  datatype Bounds = Bounds(maximumItems: nat, maximumCharacters: nat)

  /** the catalog, and the digest of a result, which is None when its canonical bytes are over the limit */
  datatype Contract = Contract(
    bounds: (string, string) -> Option<Bounds>,
    resultDigest: OperationResult -> Option<string>)

  /** the Connector's private identity, as the function from a receipt to its signature */
  type Signer = SignedReceipt -> Bytes

  function Signed(sign: Signer, r: SignedReceipt): SignedReceipt {
    r.(signature := sign(r))
  }

  /** what the Connector signs verifies under the Connector's public key */
  ghost predicate Sound(c: Crypto, sign: Signer) {
    forall r :: c.verifies(c.connectorKey, ReceiptRecord(Signed(sign, r)))
  }

  // ------------------------------------------------------------------ verification

  datatype Check = Good | ContextMismatch | ReceiptTooLate | Invalid

  predicate ContextMatches(c: Crypto, r: SignedReceipt, request: SignedRequest) {
    && r.issuerKeyId == c.connectorKeyId && request.audienceKeyId == c.connectorKeyId
    && r.requestId == request.requestId && r.traceId == request.traceId
    && r.subjectKeyId == request.subjectKeyId
    && r.grantId == request.grantId && r.grantRevision == request.grantRevision
    && r.policyRevision == request.policyRevision
    && r.source == request.source && r.operation == request.operation
    && r.payloadDigest == request.payloadDigest
    && request.issuedAt <= r.startedAt <= request.deadline
    && (r.outcome.OutcomeOk? ==> r.endedAt < request.deadline)
  }

  /** verify_signed_receipt */
  function VerifyReceipt(c: Crypto, r: SignedReceipt, request: SignedRequest, now: int): Check {
    if !c.verifies(c.connectorKey, ReceiptRecord(r)) then Invalid
    else if !ContextMatches(c, r, request) then ContextMismatch
    else if r.outcome.OutcomeOk? && now >= request.deadline then ReceiptTooLate
    else if !Active(r.endedAt, r.expiresAt, now, CLOCK_SKEW_SECONDS) then ReceiptTooLate
    else Good
  }

  /** _validate_response_result */
  predicate ResultMatches(k: Contract, r: SignedReceipt, result: Option<OperationResult>) {
    if r.outcome.OutcomeError? then result.None? && r.resultDigest.None?
    else
      && result.Some? && r.resultDigest.Some?
      && k.bounds(r.source, r.operation).Some?
      && Bounded(k.bounds(r.source, r.operation).value, result.value)
      && r.resultCount == |result.value.items|
      && r.truncated == result.value.truncated
      && k.resultDigest(result.value) == r.resultDigest
  }

  predicate Bounded(b: Bounds, result: OperationResult) {
    |result.items| <= b.maximumItems && ResultCharacters(result.items) <= b.maximumCharacters
  }

  /** the constructor of OperationResponseV1 accepts */
  predicate ValidResponse(k: Contract, response: OperationResponse) {
    response.messageId == response.receipt.messageId && ResultMatches(k, response.receipt, response.result)
  }

  /** verify_operation_response, as verify_response maps it */
  function VerifyResponse(
    c: Crypto, k: Contract, response: OperationResponse, request: SignedRequest, now: int): Check
  {
    var check := VerifyReceipt(c, response.receipt, request, now);
    if !check.Good? then check
    else if ResultMatches(k, response.receipt, response.result) then Good
    else Invalid
  }

  // ------------------------------------------------------------------ issuance

  /** what BoundReceiptIssuer.issue is given */
  datatype Ending = Ending(
    messageId: Id, receiptId: Id, endedAt: int, expiresAt: int, failure: Option<ErrorCode>,
    backend: Option<BackendIdentity>, result: Option<OperationResult>)

  /** A denied decision keeps its own cause and drops backend and result; None where issue raises. */
  function Settled(claim: ClaimResult, e: Ending): Option<Ending> {
    if claim.accepted then (if claim.usage.Some? then Some(e) else None)
    else if claim.cause.None? || (e.failure.Some? && e.failure != claim.cause) then None
    else Some(e.(failure := claim.cause, backend := None, result := None))
  }

  /** create_signed_receipt before signing; the digest of a result is taken by the caller */
  function Draft(
    c: Crypto, request: SignedRequest, claim: ClaimResult, startedAt: int, e: Ending, digest: Option<string>)
    : SignedReceipt
  {
    SignedReceipt(
      e.messageId, e.receiptId, request.requestId, request.traceId, c.connectorKeyId, request.subjectKeyId,
      request.grantId, request.grantRevision, request.policyRevision, request.source, request.operation,
      if claim.accepted then Allow else Deny,
      if e.failure.Some? then Some(ReceiptFailure(CategoryOf(e.failure.value), e.failure.value)) else None,
      if claim.accepted then claim.usage else None,
      e.backend, startedAt, e.endedAt, e.expiresAt,
      if e.result.Some? then |e.result.value.items| else 0,
      e.result.Some? && e.result.value.truncated,
      digest,
      if e.failure.Some? then OutcomeError else OutcomeOk,
      request.payloadDigest, [])
  }

  /** the SignedReceipt constructor accepts these fields */
  predicate ReceiptConstructs(k: Contract, r: SignedReceipt) {
    && k.bounds(r.source, r.operation).Some?
    && ReceiptBounds(r, k.bounds(r.source, r.operation).value.maximumItems)
    && ReceiptCoherent(r)
  }

  /** BoundReceiptIssuer.issue for a decision that has no receipt yet; None where it raises */
  function Issue(
    c: Crypto, k: Contract, sign: Signer, request: SignedRequest, claim: ClaimResult, startedAt: int, ending: Ending)
    : Option<SignedReceipt>
  {
    var settled := Settled(claim, ending);
    if settled.None? then None
    else
      var e := settled.value;
      if e.failure.None? && (e.backend.None? || e.result.None?) then None
      else if e.failure.Some? && e.result.Some? then None
      else if request.audienceKeyId != c.connectorKeyId then None
      else if e.result.Some? && k.resultDigest(e.result.value).None? then None
      else
        var digest := if e.result.Some? then k.resultDigest(e.result.value) else None;
        var draft := Draft(c, request, claim, startedAt, e, digest);
        if !ReceiptConstructs(k, draft) then None
        else
          var receipt := Signed(sign, draft);
          if VerifyReceipt(c, receipt, request, e.endedAt).Good? then Some(receipt) else None
  }

  // ------------------------------------------------------------------ what both sides agree on

  /** Every issued receipt is well formed, repeats the request and the committed decision, and says ok
      exactly when it carries a result digest. */
  lemma IssuedFacts(
    c: Crypto, k: Contract, sign: Signer, request: SignedRequest, claim: ClaimResult, startedAt: int, e: Ending)
    requires Issue(c, k, sign, request, claim, startedAt, e).Some?
    ensures var r := Issue(c, k, sign, request, claim, startedAt, e).value;
            && ReceiptConstructs(k, r)
            && ContextMatches(c, r, request)
            && r.messageId == e.messageId
            && (r.decision.Allow? <==> claim.accepted)
            && r.usage == (if claim.accepted then claim.usage else None)
            && (!claim.accepted ==> r.failure.Some? && Some(r.failure.value.causeCode) == claim.cause)
            && (claim.accepted ==> (r.outcome.OutcomeOk? <==> e.failure.None?))
            && (r.outcome.OutcomeOk? <==> r.resultDigest.Some?)
            && (r.outcome.OutcomeOk? ==>
                  && e.result.Some? && r.resultDigest == k.resultDigest(e.result.value)
                  && r.resultCount == |e.result.value.items| && r.truncated == e.result.value.truncated)
            && (claim.accepted && r.outcome.OutcomeError? ==> e.result.None?)
            && c.verifies(c.connectorKey, ReceiptRecord(r))
            && r.endedAt == e.endedAt && r.expiresAt == e.expiresAt && r.startedAt == startedAt
  {
  }

  /** the receipt is for this request and decision, at these times and under these identifiers */
  predicate ReceiptNames(
    c: Crypto, request: SignedRequest, claim: ClaimResult, startedAt: int, e: Ending, r: SignedReceipt)
  {
    && r.messageId == e.messageId && r.receiptId == e.receiptId && r.issuerKeyId == c.connectorKeyId
    && r.requestId == request.requestId && r.traceId == request.traceId && r.subjectKeyId == request.subjectKeyId
    && r.grantId == request.grantId && r.grantRevision == request.grantRevision
    && r.policyRevision == request.policyRevision && r.source == request.source && r.operation == request.operation
    && r.payloadDigest == request.payloadDigest
    && r.startedAt == startedAt && r.endedAt == e.endedAt && r.expiresAt == e.expiresAt
    && (r.decision.Allow? <==> claim.accepted) && r.usage == (if claim.accepted then claim.usage else None)
  }

  /** it says how this ended: the cause of a denial, the failure of an execution, or the digest of its result */
  predicate ReceiptReports(k: Contract, claim: ClaimResult, e: Ending, r: SignedReceipt) {
    var cause := if claim.accepted then e.failure else claim.cause;
    && (r.failure.Some? <==> cause.Some?)
    && (cause.Some? ==>
          r.failure.value.causeCode == cause.value && r.failure.value.failureClass == CategoryOf(cause.value))
    && (r.outcome.OutcomeOk? <==> cause.None?)
    && r.backend == (if claim.accepted then e.backend else None)
    && if cause.Some? then r.resultDigest.None? && r.resultCount == 0 && !r.truncated
       else
         && e.result.Some? && r.resultDigest.Some? && r.resultDigest == k.resultDigest(e.result.value)
         && r.resultCount == |e.result.value.items| && r.truncated == e.result.value.truncated
  }

  /** Every issued receipt names its request and decision and reports how they ended, field by field: the cause of
      a denial, or the very failure, backend and result the execution ended with. */
  lemma IssuedSays(
    c: Crypto, k: Contract, sign: Signer, request: SignedRequest, claim: ClaimResult, startedAt: int, e: Ending)
    requires Issue(c, k, sign, request, claim, startedAt, e).Some?
    ensures var r := Issue(c, k, sign, request, claim, startedAt, e).value;
            && ReceiptNames(c, request, claim, startedAt, e, r) && ReceiptReports(k, claim, e, r)
            && r.signature == sign(r.(signature := []))
  {
  }

  /** The verdict on an issued receipt at any time: good exactly from thirty seconds before its end to
      its expiry, and before the request's deadline when it reports success. */
  lemma IssuedVerifies(
    c: Crypto, k: Contract, sign: Signer, request: SignedRequest, claim: ClaimResult, startedAt: int, e: Ending,
    now: int)
    requires Issue(c, k, sign, request, claim, startedAt, e).Some?
    ensures var r := Issue(c, k, sign, request, claim, startedAt, e).value;
            VerifyReceipt(c, r, request, now) ==
              if IsTimestamp(now) && r.endedAt - CLOCK_SKEW_SECONDS <= now < r.expiresAt
                 && (r.outcome.OutcomeOk? ==> now < request.deadline)
              then Good
              else ReceiptTooLate
  {
    hide Issue, ContextMatches;
    IssuedFacts(c, k, sign, request, claim, startedAt, e);
  }

  /** and for any request, the one it was issued for or another: it verifies exactly for requests that repeat the
      identifiers, grant, policy, operation and payload it was issued for, at a time inside both windows. */
  lemma IssuedVerifiesFor(
    c: Crypto, k: Contract, sign: Signer, request: SignedRequest, claim: ClaimResult, startedAt: int, e: Ending,
    other: SignedRequest, now: int)
    requires Issue(c, k, sign, request, claim, startedAt, e).Some?
    ensures var r := Issue(c, k, sign, request, claim, startedAt, e).value;
            VerifyReceipt(c, r, other, now).Good? <==>
              && other.requestId == request.requestId && other.traceId == request.traceId
              && other.audienceKeyId == request.audienceKeyId && other.subjectKeyId == request.subjectKeyId
              && other.grantId == request.grantId && other.grantRevision == request.grantRevision
              && other.policyRevision == request.policyRevision
              && other.source == request.source && other.operation == request.operation
              && other.payloadDigest == request.payloadDigest
              && other.issuedAt <= startedAt <= other.deadline
              && (r.failure.None? ==> r.endedAt < other.deadline && now < other.deadline)
              && IsTimestamp(now) && r.endedAt <= now + 30 && now < r.expiresAt
  {
    hide Issue;
    IssuedFacts(c, k, sign, request, claim, startedAt, e);
    IssuedSays(c, k, sign, request, claim, startedAt, e);
    IssuedAudience(c, k, sign, request, claim, startedAt, e);
  }

  lemma IssuedAudience(
    c: Crypto, k: Contract, sign: Signer, request: SignedRequest, claim: ClaimResult, startedAt: int, e: Ending)
    requires Issue(c, k, sign, request, claim, startedAt, e).Some?
    ensures request.audienceKeyId == c.connectorKeyId
  {
  }

  /** the response the service builds around an issued receipt */
  function ResponseFor(receipt: SignedReceipt, e: Ending): OperationResponse {
    OperationResponse(receipt.messageId, receipt, if receipt.outcome.OutcomeOk? then e.result else None)
  }

  /** With a result inside the operation's bounds, as PreparedConnectorExecution checks, the response
      around an issued receipt can be built, and the client accepts it at exactly the same times. */
  lemma ResponseAgrees(
    c: Crypto, k: Contract, sign: Signer, request: SignedRequest, claim: ClaimResult, startedAt: int, e: Ending,
    now: int)
    requires Issue(c, k, sign, request, claim, startedAt, e).Some?
    ensures var r := Issue(c, k, sign, request, claim, startedAt, e).value;
            var fits := r.outcome.OutcomeOk? ==> Bounded(k.bounds(r.source, r.operation).value, e.result.value);
            && (ValidResponse(k, ResponseFor(r, e)) <==> fits)
            && (VerifyResponse(c, k, ResponseFor(r, e), request, now).Good? <==>
                  && fits && IsTimestamp(now) && r.endedAt - CLOCK_SKEW_SECONDS <= now < r.expiresAt
                  && (r.outcome.OutcomeOk? ==> now < request.deadline))
  {
    hide Issue, ContextMatches, Bounded, ReceiptBounds;
    IssuedFacts(c, k, sign, request, claim, startedAt, e);
    IssuedVerifies(c, k, sign, request, claim, startedAt, e, now);
  }

  // ------------------------------------------------------------------ the service's way of issuing

  /** what _handle_operation passes to issue: `ended` is its second reading of the clock */
  function ServiceEnding(
    request: SignedRequest, now: int, clock: int, messageId: Id, receiptId: Id, failure: Option<ErrorCode>,
    backend: Option<BackendIdentity>, result: Option<OperationResult>): Ending
  {
    var ended := Max(Max(now, request.issuedAt), clock);
    Ending(messageId, receiptId, ended, ended + MAX_RECEIPT_TTL_SECONDS, failure, backend, result)
  }

  /** a decision authorize_and_handoff can return together with an issuer */
  predicate Decided(claim: ClaimResult) {
    if claim.accepted then claim.cause.None? && claim.usage.Some? && UsageBounds(claim.usage.value)
    else claim.cause.Some? && claim.usage.None?
  }

  /** How a prepared execution ends: a result its binding validated, or a failure. */
  predicate Finished(
    k: Contract, request: SignedRequest, claim: ClaimResult, failure: Option<ErrorCode>,
    backend: Option<BackendIdentity>, result: Option<OperationResult>)
  {
    && k.bounds(request.source, request.operation).Some?
    && if !claim.accepted then failure == claim.cause && result.None?
       else if failure.Some? then result.None?
       else
         && backend.Some? && result.Some?
         && Bounded(k.bounds(request.source, request.operation).value, result.value)
         && k.resultDigest(result.value).Some?
  }

  /** The service gets its receipt exactly when the receipt's lifetime is representable and a success
      is still inside the request's deadline at the second clock reading: a success that crosses the
      deadline between the two readings gets none. */
  lemma ServiceIssues(
    c: Crypto, k: Contract, sign: Signer, request: SignedRequest, claim: ClaimResult, now: int, clock: int,
    messageId: Id, receiptId: Id, failure: Option<ErrorCode>, backend: Option<BackendIdentity>,
    result: Option<OperationResult>)
    requires Sound(c, sign) && RequestBounds(request) && request.audienceKeyId == c.connectorKeyId
    requires Active(request.issuedAt, request.deadline, now, CLOCK_SKEW_SECONDS)
    requires Decided(claim) && Finished(k, request, claim, failure, backend, result)
    ensures var e := ServiceEnding(request, now, clock, messageId, receiptId, failure, backend, result);
            Issue(c, k, sign, request, claim, Max(now, request.issuedAt), e).Some? <==>
              e.expiresAt <= MAX_TIMESTAMP && (result.Some? ==> e.endedAt < request.deadline)
  {
    var e := ServiceEnding(request, now, clock, messageId, receiptId, failure, backend, result);
    var s := Settled(claim, e).value;
    var digest := if s.result.Some? then k.resultDigest(s.result.value) else None;
    var draft := Draft(c, request, claim, Max(now, request.issuedAt), s, digest);
    assert c.verifies(c.connectorKey, ReceiptRecord(Signed(sign, draft)));
  }

  /** The loss is real: a success within the deadline at the first reading and on it at the second. */
  lemma LateSuccessGetsNoReceipt()
    returns (c: Crypto, k: Contract, sign: Signer, request: SignedRequest, claim: ClaimResult, result: OperationResult)
    ensures Sound(c, sign) && RequestBounds(request) && request.audienceKeyId == c.connectorKeyId && Decided(claim)
    ensures claim.accepted && 1059 < request.deadline
    ensures Finished(k, request, claim, None, Some(BackendIdentity("b", "1")), Some(result))
    ensures var e := ServiceEnding(request, 1000, 1060, "m", "r", None, Some(BackendIdentity("b", "1")), Some(result));
            Issue(c, k, sign, request, claim, 1000, e).None?
  {
    c, sign := Trusting(), (r: SignedReceipt) => [];
    k := Contract((s: string, o: string) => Some(Bounds(1, 100)), (r: OperationResult) => Some("digest"));
    request := SignedRequest("m", "q", "t", "c", "v", "g", 1, 1, "web", "search", 1000, 1060, "p", []);
    claim := ClaimResult(true, None, Some(ReceiptUsage(1, 0)), Some("policy"));
    result := OperationResult([], false);
    ServiceIssues(c, k, sign, request, claim, 1000, 1060, "m", "r", None, Some(BackendIdentity("b", "1")),
                  Some(result));
  }
}

/** BoundReceiptIssuer (connector/authority.py): a signer for one decision, good for one receipt. */
module Issuers {
  import opened Prelude
  import opened Records
  import opened Trust
  import opened Store
  import opened Receipts

  class BoundReceiptIssuer {
    const crypto: Crypto
    const contract: Contract
    const sign: Signer
    const request: SignedRequest
    const claim: ClaimResult
    const startedAt: int
    var issued: Option<SignedReceipt>

    constructor (c: Crypto, k: Contract, sign: Signer, request: SignedRequest, claim: ClaimResult, startedAt: int)
      ensures crypto == c && contract == k && this.sign == sign && this.request == request && this.claim == claim
      ensures this.startedAt == startedAt && issued.None?
    {
      crypto, contract, this.sign, this.request, this.claim := c, k, sign, request, claim;
      this.startedAt, issued := startedAt, None;
    }

    /** Whatever is attempted, and however often, at most one receipt is ever signed: once one is out
        every further attempt raises and changes nothing; a failed attempt leaves the issuer usable. */
    method Sign(ending: Ending) returns (r: Option<SignedReceipt>)
      modifies this`issued
      ensures old(issued).Some? ==> r.None? && issued == old(issued)
      ensures old(issued).None? ==>
                r == Receipts.Issue(crypto, contract, sign, request, claim, startedAt, ending) && issued == r
      ensures r.Some? ==>
                && ReceiptNames(crypto, request, claim, startedAt, ending, r.value)
                && ReceiptReports(contract, claim, ending, r.value)
    {
      hide ReceiptNames, ReceiptReports;
      if issued.Some? { return None; }
      var e := ending;
      if claim.accepted {
        if claim.usage.None? { return None; }
      } else {
        if claim.cause.None? { return None; }
        if e.failure.Some? && e.failure != claim.cause { return None; }
        e := e.(failure := claim.cause, backend := None, result := None);
      }
      if e.failure.None? {
        if e.backend.None? || e.result.None? { return None; }
      } else if e.result.Some? {
        return None;
      }
      if request.audienceKeyId != crypto.connectorKeyId { return None; }
      var digest: Option<string> := None;
      if e.result.Some? {
        digest := contract.resultDigest(e.result.value);
        if digest.None? { return None; }
      }
      var draft := Draft(crypto, request, claim, startedAt, e, digest);
      if !ReceiptConstructs(contract, draft) { return None; }
      var receipt := Signed(sign, draft);
      if !VerifyReceipt(crypto, receipt, request, e.endedAt).Good? { return None; }
      IssuedSays(crypto, contract, sign, request, claim, startedAt, ending);
      issued := Some(receipt);
      return issued;
    }
  }
}
