/** The request a paired VPS builds for an operation (connector/client.py: _grant_error and the head of execute), and
    when the Connector accepts it. */
module Requests {
  import opened Prelude
  import opened Limits
  import opened Errors
  import opened Records
  import opened Trust
  import opened Store
  import opened StoreInvariant
  import opened ClaimOutcome
  import opened Profiles

  /** the operation's source, name, data scope and total timeout in the catalog */
  datatype Wanted = Wanted(source: string, operation: string, dataScope: DataScope, timeout: int)

  predicate Granted(claims: GrantClaims, w: Wanted) {
    exists i :: 0 <= i < |claims.scopes| && claims.scopes[i].source == w.source
                && claims.scopes[i].operation == w.operation && claims.scopes[i].dataScope == w.dataScope
  }

  /** _grant_error: why the held grant does not allow the operation now; None when it does */
  function GrantError(c: Crypto, p: Profile, w: Wanted, now: int): Option<ErrorCode>
    requires p.Paired?
  {
    var claims := p.grant.claims;
    if !c.verifies(p.connectorKey, GrantRecord(p.grant)) then Some(ConnectorStateInvalid)
    else if Some(claims.issuerKeyId) != c.keyId(p.connectorKey) || claims.subjectKeyId != p.vpsKeyId
    then Some(ConnectorStateInvalid)
    else if now >= claims.expiresAt then Some(GrantExpired)
    else if now < claims.notBefore then Some(GrantRequired)
    else if !Granted(claims, w) then Some(GrantScopeDenied)
    else None
  }

  /** For a profile that was committed, the check comes down to the grant's window, by this clock and without skew, and
      a scope for the operation. */
  lemma GrantErrorDecides(c: Crypto, e: Endpoints, p: Profile, committed: int, w: Wanted, now: int)
    requires PairedValid(c, e, p, committed)
    ensures GrantError(c, p, w, now) ==
              if p.grant.claims.expiresAt <= now then Some(GrantExpired)
              else if now < p.grant.claims.notBefore then Some(GrantRequired)
              else if exists s :: s in p.grant.claims.scopes && s.source == w.source && s.operation == w.operation
                                  && s.dataScope == w.dataScope
              then None
              else Some(GrantScopeDenied)
  {
  }

  /** what is drawn and computed for one request */
  datatype Drawn = Drawn(messageId: Id, requestId: Id, traceId: string, payloadDigest: string)

  /** the request of execute: it runs for the operation's timeout, a minute at most, and no longer than the grant */
  function RequestOf(p: Profile, connectorKeyId: Id, w: Wanted, d: Drawn, now: int, sign: SignedRequest -> Bytes)
    : SignedRequest
    requires p.Paired?
  {
    var claims := p.grant.claims;
    var draft := SignedRequest(
      d.messageId, d.requestId, d.traceId, connectorKeyId, p.vpsKeyId, claims.grantId, claims.revision,
      claims.policyRevision, w.source, w.operation, now,
      Min(now + Min(MAX_REQUEST_TTL_SECONDS, w.timeout), claims.expiresAt), d.payloadDigest, []);
    draft.(signature := sign(draft))
  }

  /** the Connector holds this very grant as the live revision of an unrevoked lineage of an unrevoked device, under
      the current policy and with a use left */
  ghost predicate HeldLive(db: Db, grant: SignedGrant) {
    var k := GrantKey(grant.claims.grantId, grant.claims.revision);
    && k in db.revisions && db.revisions[k].stored.record == grant && db.revisions[k].supersededAt.None?
    && db.revisions[k].usedCount < grant.claims.maxUses
    && k.grantId in db.lineages && db.lineages[k.grantId].revokedAt.None?
    && db.lineages[k.grantId].deviceId in db.devices && db.devices[db.lineages[k.grantId].deviceId].revokedAt.None?
    && grant.claims.policyRevision in db.policies && db.policies[grant.claims.policyRevision].replacedAt.None?
  }

  /** the subject of a stored grant is a key of the device that owns its lineage */
  lemma SubjectKey(c: Crypto, db: Db, grant: SignedGrant)
    requires Inv(c, db) && HeldLive(db, grant)
    ensures grant.claims.subjectKeyId in db.keys
    ensures db.keys[grant.claims.subjectKeyId].deviceId == db.lineages[grant.claims.grantId].deviceId
  {
    hide Inv, ForeignKeys, PairingAccepted;
    InvariantOpens(c, db);
    var k := GrantKey(grant.claims.grantId, grant.claims.revision);
    assert SubjectOwned(db, k);
  }

  /** A request the VPS builds from its profile while its own check passes is one its constructor takes, and while the
      Connector holds that grant live it is accepted exactly within a window on the Connector's clock: from the grant's
      start, with no skew, and from thirty seconds before the request was issued, until the request's deadline. */
  lemma BuiltRequestPasses(
    c: Crypto, db: Db, p: Profile, w: Wanted, d: Drawn, now: int, sign: SignedRequest -> Bytes, scope: Scope, at: int)
    requires Inv(c, db) && p.Paired? && GrantBounds(p.grant.claims) && HeldLive(db, p.grant)
    requires c.keyId(p.connectorKey) == Some(c.connectorKeyId) && GrantError(c, p, w, now).None?
    requires IsTimestamp(now) && w.timeout > 0 && d.requestId !in db.claims && IsTimestamp(at)
    requires scope in p.grant.claims.scopes && scope.source == w.source && scope.operation == w.operation
    requires forall r: SignedRequest ::
               p.vpsKeyId in db.keys ==>
                 c.verifies(db.keys[p.vpsKeyId].publicKey, RequestRecord(r.(signature := sign(r.(signature := [])))))
    ensures var r := RequestOf(p, c.connectorKeyId, w, d, now, sign);
            && RequestBounds(r)
            && var reply := Claim(c, db, r, scope, at).1;
            (reply.Done? && reply.value.accepted <==>
               p.grant.claims.notBefore <= at && now - CLOCK_SKEW_SECONDS <= at < r.deadline)
  {
    hide Inv, Claim;
    var r := RequestOf(p, c.connectorKeyId, w, d, now, sign);
    SubjectKey(c, db, p.grant);
    assert r == r.(signature := sign(r.(signature := [])));
    assert r.(signature := []).(signature := []) == r.(signature := []);
    ClaimAcceptedExactly(c, db, r, scope, at);
  }
}
