/** GrantAuthority (connector/authority.py): what one authorize_and_handoff call does, as functions, and
    the class itself, whose mutex makes each lock section one step.
 */
module Authority {
  import opened Prelude
  import opened Limits
  import opened Errors
  import opened Records
  import opened Trust
  import opened Store
  import opened StoreInvariant
  import opened StoreRun

  datatype AuthorityReply =
    | Unauthenticated                  // UnauthenticatedRequestError
    | Failure(code: Option<ErrorCode>) // a ConnectorError, or ProtocolValidationError
    | KeyLocked(claim: ClaimResult)    // a decision without a receipt issuer
    | Decided(claim: ClaimResult)      // a decision with an issuer

  /** active_device_identity: the unretired key with this identifier */
  predicate ActiveKey(db: Db, keyId: Id) {
    keyId in db.keys && db.keys[keyId].retiredAt.None?
  }

  /** active_device_identity and verify_signed_request, before the lock is taken; `matches` says that
      the protected payload has the request's digest, source and operation */
  function Prevalidate(c: Crypto, db: Db, r: SignedRequest, matches: bool, now: int): Option<AuthorityReply> {
    if !ActiveKey(db, r.subjectKeyId) then Some(Unauthenticated)
    else
      var key := db.keys[r.subjectKeyId].publicKey;
      if c.keyId(key) != Some(r.subjectKeyId) then Some(Failure(Some(ConnectorStateInvalid)))
      else if !c.verifies(key, RequestRecord(r)) || r.audienceKeyId != c.connectorKeyId || !matches
           || !Active(r.issuedAt, r.deadline, now, CLOCK_SKEW_SECONDS)
      then Some(Failure(None))
      else None
  }

  /** the scope the claim is made with: the grant's own where the caller has no binding */
  function BoundScope(c: Crypto, db: Db, r: SignedRequest, required: Scope, useGrant: bool): Reply<Scope> {
    if !useGrant then Done(required)
    else
      match ScopeForRequest(c, db, r)
      case Done(found) => Done(if found.Some? then found.value else required)
      case Raised(code) => Raised(code)
      case Rejected => Rejected
  }

  function Replied<T>(reply: Reply<T>, decided: T -> AuthorityReply): AuthorityReply {
    match reply
    case Done(v) => decided(v)
    case Raised(code) => Failure(Some(code))
    case Rejected => Failure(None)
  }

  /** the lock section up to the handoff, at time `at` */
  function Section(c: Crypto, db: Db, unlocked: bool, r: SignedRequest, required: Scope, useGrant: bool, at: int)
    : (Db, AuthorityReply)
  {
    if !unlocked then
      var (denied, reply) := DenyRequest(c, db, r, ConnectorKeyLocked, at);
      (denied, Replied(reply, (claim: ClaimResult) => KeyLocked(claim)))
    else
      match BoundScope(c, db, r, required, useGrant)
      case Raised(code) => (db, Failure(Some(code)))
      case Rejected => (db, Failure(None))
      case Done(scope) =>
        var (claimed, reply) := Claim(c, db, r, scope, at);
        (claimed, Replied(reply, (claim: ClaimResult) => Decided(claim)))
  }

  /** the transaction the lock section runs, if it runs one */
  function SectionEvent(c: Crypto, db: Db, unlocked: bool, r: SignedRequest, required: Scope, useGrant: bool, at: int)
    : Option<Event>
  {
    if !unlocked then Some(MakeDenial(r, ConnectorKeyLocked, at))
    else
      var scope := BoundScope(c, db, r, required, useGrant);
      if scope.Done? then Some(MakeClaim(r, scope.value, at)) else None
  }

  /** The lock section is at most one store transaction, and its reply accepts exactly when that
      transaction accepts the claim, which a locked authority never does. */
  lemma SectionIsOneTransaction(
    c: Crypto, db: Db, unlocked: bool, r: SignedRequest, required: Scope, useGrant: bool, at: int)
    ensures var (db', reply) := Section(c, db, unlocked, r, required, useGrant, at);
            var e := SectionEvent(c, db, unlocked, r, required, useGrant, at);
            && db' == (if e.Some? then Next(c, db, e.value) else db)
            && ((reply.Decided? && reply.claim.accepted) <==> (e.Some? && Accepts(c, db, e.value)))
            && (!unlocked ==> !(reply.Decided? && reply.claim.accepted))
  {
    hide Judge, Authenticate, ScopeForRequest;
  }

  /** everything a claim depended on is unrevoked, current and unreplaced */
  predicate StillLive(db: Db, r: SignedRequest) {
    && DeviceOf(db, r.subjectKeyId).Some?
    && db.devices[DeviceOf(db, r.subjectKeyId).value].revokedAt.None?
    && r.grantId in db.lineages && db.lineages[r.grantId].revokedAt.None?
    && db.lineages[r.grantId].deviceId == DeviceOf(db, r.subjectKeyId).value
    && IsLiveKey(db, GrantKey(r.grantId, r.grantRevision))
    && LivePolicy(db, r.policyRevision)
  }

  lemma AcceptedIsLive(c: Crypto, db: Db, e: Event)
    requires Accepts(c, db, e)
    ensures StillLive(db, e.request) && StillLive(Next(c, db, e), e.request)
  {
    hide Judge;
    AcceptedFacts(c, db, e.request, e.scope, e.now);
  }

  /** the transactions GrantAuthority wraps in its mutex */
  predicate Administrative(e: Event) {
    e.Replace? || e.KillDevice? || e.KillGrant? || e.Advance?
  }

  /** Only an administrative transaction can end what a claim depended on. */
  lemma OnlyAdministrationRevokes(c: Crypto, db: Db, e: Event, r: SignedRequest)
    requires StillLive(db, r) && !Administrative(e)
    ensures StillLive(Next(c, db, e), r)
  {
    hide ApprovePairing, Claim, ApprovalDone, ExchangeLoads, VerifyGrant;
    if Light(e) {
      hide Next;
      LightStep(c, db, e);
    } else if e.Approve? {
      if ApprovalDone(c, db, e.pairingId, e.deviceId, e.transcript, e.grant, e.now) {
        ApprovalFacts(c, db, e.pairingId, e.deviceId, e.transcript, e.grant, e.now);
        ApprovedLeaves(c, db, e.pairingId, e.deviceId, e.transcript, e.grant, e.now, r);
      } else {
        FailedApproval(c, db, e.pairingId, e.deviceId, e.transcript, e.grant, e.now);
      }
    } else {
      ClaimLeaves(c, db, e.request, e.scope, e.now, r);
    }
  }

  lemma ApprovedLeaves(
    c: Crypto, db: Db, p: Id, d: Id, transcript: string, grant: SignedGrant, now: int, r: SignedRequest)
    requires p in db.pairings && !DeviceConflict(db, d, db.pairings[p].exchange.init, grant.claims.grantId)
    requires GrantKey(grant.claims.grantId, grant.claims.revision) !in db.revisions
    requires StillLive(db, r)
    ensures StillLive(ApprovedDb(c, db, p, d, transcript, grant, now), r)
  {
  }

  lemma ClaimLeaves(c: Crypto, db: Db, q: SignedRequest, scope: Scope, now: int, r: SignedRequest)
    requires StillLive(db, r)
    ensures StillLive(Claim(c, db, q, scope, now).0, r)
  {
    hide Judge;
    if IsTimestamp(now) && Judge(c, db, q, scope, now).Accept? {
      AcceptedFacts(c, db, q, scope, now);
    } else {
      RefusedClaim(c, db, q, scope, now);
    }
  }
}

/** GrantAuthority as an object over the store object. Its mutex lets no other lock section run inside
    one of these methods. */
module Authorities {
  import opened Prelude
  import opened Errors
  import opened Records
  import opened Trust
  import opened Store
  import opened StoreInvariant
  import opened StoreRun
  import opened Authority
  import opened Database

  /** what the executor handoff is given */
  datatype Authorized = Authorized(request: SignedRequest, scope: Scope, claim: ClaimResult)

  class GrantAuthority {
    const store: AuthorityStore
    var unlocked: bool
    /** every call made to a handoff, in order */
    var handoffs: seq<Authorized>

    constructor (store: AuthorityStore)
      ensures this.store == store && !unlocked && handoffs == []
    {
      this.store, unlocked, handoffs := store, false, [];
    }

    /** _activate_from_service, which refuses a signer other than the store's Connector identity */
    method Activate(signerKeyId: Id) returns (ok: bool)
      modifies this`unlocked
      ensures ok <==> signerKeyId == store.crypto.connectorKeyId
      ensures unlocked == (old(unlocked) || ok)
    {
      ok := signerKeyId == store.crypto.connectorKeyId;
      if ok { unlocked := true; }
    }

    method Lock()
      modifies this`unlocked
      ensures !unlocked
    {
      unlocked := false;
    }

    /** `clock` is the reading taken under the mutex. The handoff runs once exactly when the claim is
        accepted, with the claim's own request and use, while everything it depends on is live. */
    method AuthorizeAndHandoff(
      r: SignedRequest, matches: bool, required: Scope, useGrant: bool, now: int, clock: int)
      returns (reply: AuthorityReply)
      requires store.Valid()
      modifies this`handoffs, store
      ensures store.Valid()
      ensures var early := Prevalidate(store.crypto, old(store.Tables()), r, matches, now);
              (store.Tables(), reply) ==
                if early.Some? then (old(store.Tables()), early.value)
                else Section(store.crypto, old(store.Tables()), unlocked, r, required, useGrant, Max(now, clock))
      ensures var accepted := reply.Decided? && reply.claim.accepted;
              && |handoffs| == |old(handoffs)| + (if accepted then 1 else 0)
              && handoffs[..|old(handoffs)|] == old(handoffs)
              && (accepted ==>
                    && unlocked && StillLive(store.Tables(), r)
                    && handoffs[|old(handoffs)|].request == r && handoffs[|old(handoffs)|].claim == reply.claim)
    {
      hide Inv, Store.Claim, DenyRequest, ScopeForRequest, Accepts, StillLive;
      var early := Prevalidate(store.crypto, store.Tables(), r, matches, now);
      if early.Some? { return early.value; }
      var claimTime := Max(now, clock);
      if !unlocked {
        var denied := store.DenyAuthenticatedRequest(r, ConnectorKeyLocked, claimTime);
        return Replied(denied, (claim: ClaimResult) => KeyLocked(claim));
      }
      var scope := required;
      if useGrant {
        var found := ScopeForRequest(store.crypto, store.Tables(), r);
        if found.Raised? { return Failure(Some(found.code)); }
        if found.Rejected? { return Failure(None); }
        if found.value.Some? { scope := found.value.value; }
      }
      ghost var before := store.Tables();
      var claimed := store.Claim(r, scope, claimTime);
      reply := Replied(claimed, (claim: ClaimResult) => Decided(claim));
      if claimed.Done? && claimed.value.accepted {
        AcceptsMeansResult(store.crypto, before, r, scope, claimTime);
        AcceptedIsLive(store.crypto, before, MakeClaim(r, scope, claimTime));
        handoffs := handoffs + [Authorized(r, scope, claimed.value)];
      }
    }

    method ReplaceGrant(grant: SignedGrant, now: int) returns (reply: Reply<GrantKey>)
      requires store.Valid() && ValidGrant(grant)
      modifies store
      ensures (store.Tables(), reply) == Store.ReplaceGrant(store.crypto, old(store.Tables()), grant, now)
              && store.Valid()
    {
      reply := store.ReplaceGrant(grant, now);
    }

    method RevokeDevice(deviceId: Id, now: int) returns (reply: Reply<()>)
      requires store.Valid()
      modifies store
      ensures (store.Tables(), reply) == Store.RevokeDevice(old(store.Tables()), deviceId, now) && store.Valid()
    {
      reply := store.RevokeDevice(deviceId, now);
    }

    method RevokeGrant(grantId: Id, now: int) returns (reply: Reply<()>)
      requires store.Valid()
      modifies store
      ensures (store.Tables(), reply) == Store.RevokeGrant(old(store.Tables()), grantId, now) && store.Valid()
    {
      reply := store.RevokeGrant(grantId, now);
    }

    method AdvancePolicyRevision(digest: string, now: int) returns (reply: Reply<int>)
      requires store.Valid()
      modifies store
      ensures (store.Tables(), reply) == Store.AdvancePolicy(old(store.Tables()), digest, now) && store.Valid()
    {
      reply := store.AdvancePolicy(digest, now);
    }
  }
}
