/** AuthorityStore itself (connector/store.py): one object whose fields are the tables. Each method runs
    the source's statements in order inside one transaction and is proved to change the tables, and to
    reply, exactly as the transaction function of module Store says; so every run of methods is one of
    the runs of module StoreRun.
 */
module Database {
  import opened Prelude
  import opened Limits
  import opened Errors
  import opened Records
  import opened Trust
  import opened Store
  import opened StoreInvariant

  class AuthorityStore {
    const crypto: Crypto
    var devices: map<Id, DeviceRow>
    var keys: map<Id, KeyRow>
    var pairings: map<Id, PairingRow>
    var policies: map<int, PolicyRow>
    var lineages: map<Id, LineageRow>
    var revisions: map<GrantKey, RevisionRow>
    var scopes: map<GrantKey, seq<Scope>>
    var claims: map<Id, ClaimRow>

    function Tables(): Db
      reads this
    {
      Db(devices, keys, pairings, policies, lineages, revisions, scopes, claims)
    }

    /** what open has checked, and more: the stored-state invariant */
    ghost predicate Valid()
      reads this
    {
      Inv(crypto, Tables())
    }

    /** initialize: the first policy revision and nothing else */
    constructor (crypto: Crypto, policyDigest: string, now: int)
      ensures this.crypto == crypto
      ensures Tables() == Initial(policyDigest, now) && Valid()
    {
      this.crypto := crypto;
      devices, keys, pairings := map[], map[], map[];
      policies := map[1 := PolicyRow(policyDigest, now, None)];
      lineages, revisions, scopes, claims := map[], map[], map[], map[];
      new;
      InitialOk(crypto, policyDigest, now);
    }

    /** leaving a transaction by an exception */
    method Rollback(to: Db)
      modifies this
      ensures Tables() == to
    {
      devices, keys, pairings, policies := to.devices, to.keys, to.pairings, to.policies;
      lineages, revisions, scopes, claims := to.lineages, to.revisions, to.scopes, to.claims;
    }

    /** UPDATE pairings SET decision='expired', decided_at=now WHERE decision='pending' AND deadline<=now */
    method SweepExpired(now: int)
      modifies this`pairings
      ensures Tables() == Expire(old(Tables()), now)
    {
      pairings := map id | id in pairings :: ExpireRow(pairings[id], now);
    }

    method BeginPairing(init: PairingInit, challenge: PairingChallenge, now: int) returns (reply: Reply<()>)
      requires Valid() && ValidInit(crypto, init) && ValidChallenge(crypto, challenge)
      modifies this
      ensures (Tables(), reply) == Store.BeginPairing(crypto, old(Tables()), init, challenge, now)
      ensures Valid() <==> (reply.Done? ==> challenge.deadline == init.deadline)
    {
      hide Inv, VerifyInit, VerifyChallenge, PairingConflict, Expire, NewPairing, MayOpen;
      BeginPairingKeeps(crypto, Tables(), init, challenge, now);
      if !VerifyInit(crypto, init, now) { return Rejected; }
      var digest := crypto.digest(InitRecord(init));
      if !VerifyChallenge(crypto, challenge, init.pairingId, init.vpsKeyId, digest, challenge.tlsLeafFingerprint, now) {
        return Raised(ConnectorStateInvalid);
      }
      if challenge.connectorPublicKey != crypto.connectorKey { return Raised(ConnectorStateInvalid); }
      var begin := Tables();
      SweepExpired(now);
      if |PendingIds(Tables())| >= MAX_PENDING_PAIRINGS {
        Rollback(begin);
        return Raised(ConnectorStateInvalid);
      }
      if PairingConflict(crypto, Tables(), init) {
        Rollback(begin);
        return Raised(RequestReplayed);
      }
      pairings := pairings[init.pairingId := NewPairing(crypto, init, challenge)];
      return Done(());
    }

    method PairingState(init: PairingInit, now: int) returns (reply: Reply<Option<PairingRow>>)
      requires Valid()
      modifies this
      ensures (Tables(), reply) == Store.PairingState(crypto, old(Tables()), init, now)
      ensures Valid()
    {
      hide Inv, VerifyInit, PairingLoads, Expire;
      ExpireKeeps(crypto, Tables(), now);
      if !VerifyInit(crypto, init, now) { return Rejected; }
      var begin := Tables();
      SweepExpired(now);
      if init.pairingId !in pairings { return Done(None); }
      if !PairingLoads(crypto, Tables(), init.pairingId) {
        Rollback(begin);
        return Raised(ConnectorStateInvalid);
      }
      var row := pairings[init.pairingId];
      if crypto.digest(InitRecord(init)) != row.exchange.initDigest || row.exchange.init != init {
        Rollback(begin);
        return Raised(RequestReplayed);
      }
      return Done(Some(row));
    }

    method PairingById(pairingId: Id, now: int) returns (reply: Reply<Option<PairingRow>>)
      requires Valid()
      modifies this
      ensures (Tables(), reply) == Store.PairingById(crypto, old(Tables()), pairingId, now)
      ensures Valid()
    {
      hide Inv, PairingLoads, Expire;
      ExpireKeeps(crypto, Tables(), now);
      if !IsTimestamp(now) { return Rejected; }
      var begin := Tables();
      SweepExpired(now);
      if pairingId !in pairings { return Done(None); }
      if !PairingLoads(crypto, Tables(), pairingId) {
        Rollback(begin);
        return Raised(ConnectorStateInvalid);
      }
      return Done(Some(pairings[pairingId]));
    }

    /** _insert_grant for a lineage that exists */
    method InsertGrant(grant: SignedGrant)
      modifies this`revisions, this`scopes
      ensures Tables() == InsertRevision(crypto, old(Tables()), grant)
    {
      var claims := grant.claims;
      var k := GrantKey(claims.grantId, claims.revision);
      var stored := StoredGrant(grant, crypto.digest(GrantRecord(grant)), claims.issuerKeyId, claims.subjectKeyId,
                                claims.issuedAt, claims.notBefore, claims.expiresAt, claims.policyRevision,
                                claims.maxUses);
      revisions := revisions[k := RevisionRow(stored, 0, None)];
      scopes := scopes[k := claims.scopes];
    }

    method ApprovePairing(pairingId: Id, deviceId: Id, transcript: string, grant: SignedGrant, now: int)
      returns (reply: Reply<GrantKey>)
      requires Valid() && ValidGrant(grant)
      modifies this
      ensures (Tables(), reply) ==
              Store.ApprovePairing(crypto, old(Tables()), pairingId, deviceId, transcript, grant, now)
      ensures Valid()
    {
      hide Inv, ExchangeLoads, VerifyGrant, MatchesInit, CurrentPolicy, DeviceConflict, RevisionConflict, TranscriptOf,
           ApprovedDb;
      ApprovePairingKeeps(crypto, Tables(), pairingId, deviceId, transcript, grant, now);
      if !IsTimestamp(now) { return Rejected; }
      if pairingId !in pairings || !pairings[pairingId].decision.Pending? { return Raised(RequestReplayed); }
      var row := pairings[pairingId];
      if now >= row.exchange.deadline {
        pairings := pairings[pairingId := row.(decision := Expired, decidedAt := Some(now))];
        return Raised(GrantExpired);
      }
      if !ExchangeLoads(crypto, pairingId, row.exchange) { return Raised(ConnectorStateInvalid); }
      if transcript != TranscriptOf(crypto, row.exchange) { return Rejected; }
      var init := row.exchange.init;
      if !VerifyGrant(crypto, grant, crypto.connectorKey, crypto.connectorKeyId, init.vpsKeyId, now) {
        return Rejected;
      }
      var policy := CurrentPolicy(Tables());
      if policy.None? { return Raised(ConnectorStateInvalid); }
      if !MatchesInit(grant, init, policy.value) { return Rejected; }
      if DeviceConflict(Tables(), deviceId, init, grant.claims.grantId) || RevisionConflict(crypto, Tables(), grant) {
        return Raised(ConnectorStateInvalid);
      }
      InsertApproval(pairingId, deviceId, transcript, grant, now);
      return Done(GrantKey(grant.claims.grantId, grant.claims.revision));
    }

    /** the rows approve_pairing writes: device, key, lineage, revision 1, and the decision */
    method InsertApproval(pairingId: Id, deviceId: Id, transcript: string, grant: SignedGrant, now: int)
      requires pairingId in pairings
      modifies this
      ensures Tables() == ApprovedDb(crypto, old(Tables()), pairingId, deviceId, transcript, grant, now)
    {
      hide InsertRevision;
      var row := pairings[pairingId];
      var init := row.exchange.init;
      devices := devices[deviceId := DeviceRow(init.deviceLabel, now, None)];
      keys := keys[init.vpsKeyId := KeyRow(deviceId, 0, init.vpsPublicKey, now, None)];
      lineages := lineages[grant.claims.grantId := LineageRow(deviceId, grant.claims.issuedAt, None)];
      InsertGrant(grant);
      InsertionFrame(crypto, old(Tables()).(devices := devices, keys := keys, lineages := lineages), grant);
      var k := GrantKey(grant.claims.grantId, grant.claims.revision);
      pairings := pairings[pairingId :=
        row.(decision := Approved, decidedAt := Some(now), transcript := Some(transcript), deviceId := Some(deviceId),
             grant := Some(k))];
    }

    method DenyPairing(pairingId: Id, now: int) returns (reply: Reply<()>)
      requires Valid()
      modifies this
      ensures (Tables(), reply) == Store.DenyPairing(old(Tables()), pairingId, now)
      ensures Valid()
    {
      hide Inv;
      DenyPairingKeeps(crypto, Tables(), pairingId, now);
      if !IsTimestamp(now) { return Rejected; }
      if pairingId !in pairings || !pairings[pairingId].decision.Pending?
         || pairings[pairingId].exchange.deadline <= now {
        return Raised(RequestReplayed);
      }
      pairings := pairings[pairingId := pairings[pairingId].(decision := Denied, decidedAt := Some(now))];
      return Done(());
    }

    method ReplaceGrant(grant: SignedGrant, now: int) returns (reply: Reply<GrantKey>)
      requires Valid() && ValidGrant(grant)
      modifies this
      ensures (Tables(), reply) == Store.ReplaceGrant(crypto, old(Tables()), grant, now)
      ensures Valid()
    {
      hide Inv, VerifyGrant, Projected, CurrentPolicy, CurrentRevision, RevisionConflict, InsertRevision;
      ReplaceGrantKeeps(crypto, Tables(), grant, now);
      var claims := grant.claims;
      if !VerifyGrant(crypto, grant, crypto.connectorKey, crypto.connectorKeyId, claims.subjectKeyId, now) {
        return Rejected;
      }
      if claims.grantId !in lineages || lineages[claims.grantId].deviceId !in devices { return Raised(GrantRequired); }
      var lineage := lineages[claims.grantId];
      if lineage.revokedAt.Some? { return Raised(GrantRevoked); }
      if devices[lineage.deviceId].revokedAt.Some? { return Raised(DeviceRevoked); }
      var current := CurrentRevision(Tables(), claims.grantId);
      if current.None? || !Loads(crypto, Tables(), current.value) { return Raised(ConnectorStateInvalid); }
      var held := ClaimsOf(Tables(), current.value);
      if claims.revision != held.revision + 1 || claims.subjectKeyId != held.subjectKeyId { return Rejected; }
      var policy := CurrentPolicy(Tables());
      if policy.None? { return Raised(ConnectorStateInvalid); }
      if claims.policyRevision != policy.value { return Rejected; }
      var begin := Tables();
      revisions := revisions[current.value := revisions[current.value].(supersededAt := Some(now))];
      if RevisionConflict(crypto, Tables(), grant) {
        Rollback(begin);
        return Raised(ConnectorStateInvalid);
      }
      InsertGrant(grant);
      return Done(GrantKey(claims.grantId, claims.revision));
    }

    method RevokeDevice(deviceId: Id, now: int) returns (reply: Reply<()>)
      requires Valid()
      modifies this
      ensures (Tables(), reply) == Store.RevokeDevice(old(Tables()), deviceId, now)
      ensures Valid()
    {
      hide Inv;
      RevokeDeviceKeeps(crypto, Tables(), deviceId, now);
      if !IsTimestamp(now) { return Rejected; }
      if deviceId !in devices { return Raised(ConnectorStateInvalid); }
      if devices[deviceId].revokedAt.None? {
        devices := devices[deviceId := devices[deviceId].(revokedAt := Some(now))];
      }
      return Done(());
    }

    method RevokeGrant(grantId: Id, now: int) returns (reply: Reply<()>)
      requires Valid()
      modifies this
      ensures (Tables(), reply) == Store.RevokeGrant(old(Tables()), grantId, now)
      ensures Valid()
    {
      hide Inv;
      RevokeGrantKeeps(crypto, Tables(), grantId, now);
      if !IsTimestamp(now) { return Rejected; }
      if grantId !in lineages { return Raised(ConnectorStateInvalid); }
      if lineages[grantId].revokedAt.None? {
        lineages := lineages[grantId := lineages[grantId].(revokedAt := Some(now))];
      }
      return Done(());
    }

    method AdvancePolicy(digest: string, now: int) returns (reply: Reply<int>)
      requires Valid()
      modifies this
      ensures (Tables(), reply) == Store.AdvancePolicy(old(Tables()), digest, now)
      ensures Valid()
    {
      hide Inv;
      AdvancePolicyKeeps(crypto, Tables(), digest, now);
      if !IsTimestamp(now) { return Rejected; }
      var current := CurrentPolicy(Tables());
      if current.None? { return Raised(ConnectorStateInvalid); }
      CurrentPolicyMember(Tables());
      hide CurrentPolicy;
      var begin := Tables();
      policies := policies[current.value := policies[current.value].(replacedAt := Some(now))];
      var next := current.value + 1;
      if next in begin.policies || next <= 0 || exists r | r in begin.policies :: begin.policies[r].digest == digest {
        Rollback(begin);
        return Raised(ConnectorStateInvalid);
      }
      policies := policies[next := PolicyRow(digest, now, None)];
      return Done(next);
    }

    /** _deny_claim */
    method DenyClaim(r: SignedRequest, deviceId: Id, cause: ErrorCode, now: int) returns (result: ClaimResult)
      requires DeviceOf(Tables(), r.subjectKeyId) == Some(deviceId)
      modifies this`claims
      ensures Tables() == RecordDenial(old(Tables()), r, cause, now) && result == Refused(cause)
    {
      claims := claims[r.requestId := NewClaim(r, deviceId, Deny, Some(cause), now, None)];
      return Refused(cause);
    }

    method Claim(r: SignedRequest, scope: Scope, now: int) returns (reply: Reply<ClaimResult>)
      requires Valid()
      modifies this
      ensures (Tables(), reply) == Store.Claim(crypto, old(Tables()), r, scope, now)
      ensures Valid()
    {
      hide Inv, Spendable, Projected, CurrentPolicy, CurrentRevision, RecordDenial;
      ClaimKeeps(crypto, Tables(), r, scope, now);
      if !IsTimestamp(now) { return Rejected; }
      var who := Authenticate(crypto, Tables(), r);
      if who.Unpaired? { return Done(Refused(ConnectorNotPaired)); }
      if who.Drifted? { return Raised(ConnectorStateInvalid); }
      if who.Forged? { return Rejected; }
      if r.requestId in claims { return Done(Refused(RequestReplayed)); }
      var verdict := Assessment(r, scope, now);
      if verdict.Drifted? { return Raised(ConnectorStateInvalid); }
      var deviceId := keys[r.subjectKeyId].deviceId;
      if verdict.Refuse? {
        var denied := DenyClaim(r, deviceId, verdict.cause, now);
        return Done(denied);
      }
      var k := GrantKey(r.grantId, r.grantRevision);
      AcceptedRow(crypto, Tables(), r, scope, now);
      revisions := revisions[k := revisions[k].(usedCount := revisions[k].usedCount + 1)];
      var counter := revisions[k];
      var usage := ReceiptUsage(counter.usedCount, counter.stored.maxUses - counter.usedCount);
      claims := claims[r.requestId := NewClaim(r, deviceId, Allow, None, now, Some(usage))];
      return Done(ClaimResult(true, None, Some(usage), Some(policies[r.policyRevision].digest)));
    }

    /** the checks of claim after authentication, in order, ending with the guard of the UPDATE */
    method Assessment(r: SignedRequest, scope: Scope, now: int) returns (verdict: Verdict)
      requires DeviceOf(Tables(), r.subjectKeyId).Some?
      ensures verdict == Assess(crypto, Tables(), r, scope, now)
    {
      hide Spendable, Projected, CurrentPolicy, CurrentRevision;
      var deviceId := keys[r.subjectKeyId].deviceId;
      if devices[deviceId].revokedAt.Some? { return Refuse(DeviceRevoked); }
      if now + CLOCK_SKEW_SECONDS < r.issuedAt || now >= r.deadline { return Refuse(ConnectorDeadlineExceeded); }
      if r.grantId !in lineages || lineages[r.grantId].deviceId != deviceId { return Refuse(GrantRequired); }
      if lineages[r.grantId].revokedAt.Some? { return Refuse(GrantRevoked); }
      var current := CurrentRevision(Tables(), r.grantId);
      if current.None? { return Drifted; }
      if current.value.revision != r.grantRevision { return Refuse(GrantSuperseded); }
      if !Loads(crypto, Tables(), current.value) { return Drifted; }
      var held := ClaimsOf(Tables(), current.value);
      if held.subjectKeyId != r.subjectKeyId { return Refuse(GrantRequired); }
      if now < held.notBefore || now >= held.expiresAt { return Refuse(GrantExpired); }
      var policy := CurrentPolicy(Tables());
      if policy.None? { return Drifted; }
      if r.policyRevision != policy.value || held.policyRevision != policy.value { return Refuse(PolicyRevisionStale); }
      if r.source != scope.source || r.operation != scope.operation || scope !in held.scopes {
        return Refuse(GrantScopeDenied);
      }
      if !Spendable(Tables(), r, scope) { return Refuse(GrantLimitExhausted); }
      return Accept;
    }

    method DenyAuthenticatedRequest(r: SignedRequest, cause: ErrorCode, now: int) returns (reply: Reply<ClaimResult>)
      requires Valid()
      modifies this
      ensures (Tables(), reply) == DenyRequest(crypto, old(Tables()), r, cause, now)
      ensures Valid()
    {
      hide Inv, RecordDenial;
      DenyRequestKeeps(crypto, Tables(), r, cause, now);
      if !IsTimestamp(now) { return Rejected; }
      var who := Authenticate(crypto, Tables(), r);
      if who.Unpaired? { return Done(Refused(ConnectorNotPaired)); }
      if who.Drifted? { return Raised(ConnectorStateInvalid); }
      if who.Forged? { return Rejected; }
      if r.requestId in claims { return Done(Refused(RequestReplayed)); }
      var denied := DenyClaim(r, keys[r.subjectKeyId].deviceId, cause, now);
      return Done(denied);
    }

    method CompleteClaim(requestId: Id, receiptDigest: string, now: int) returns (reply: Reply<()>)
      requires Valid()
      modifies this
      ensures (Tables(), reply) == Store.CompleteClaim(old(Tables()), requestId, receiptDigest, now)
      ensures Valid()
    {
      hide Inv;
      CompleteClaimKeeps(crypto, Tables(), requestId, receiptDigest, now);
      if !IsTimestamp(now) { return Rejected; }
      if requestId !in claims { return Raised(ConnectorStateInvalid); }
      var row := claims[requestId];
      if !row.decision.Allow? || row.completedAt.Some? || now < row.claimedAt { return Raised(ConnectorStateInvalid); }
      claims := claims[requestId := row.(completedAt := Some(now), receiptDigest := Some(receiptDigest))];
      return Done(());
    }

    method Cleanup(now: int) returns (reply: Reply<(nat, nat, nat)>)
      requires Valid()
      modifies this
      ensures (Tables(), reply) == Store.Cleanup(old(Tables()), now)
      ensures Valid()
    {
      hide Inv, KeptPairings, KeptClaims, Expire, Overdue;
      CleanupKeeps(crypto, Tables(), now);
      if !IsTimestamp(now) { return Rejected; }
      var expired := Overdue(pairings, now);
      SweepExpired(now);
      var kept := KeptPairings(pairings, now);
      var removedPairings := pairings.Keys - kept.Keys;
      pairings := kept;
      var recent := KeptClaims(claims, now);
      var removedClaims := claims.Keys - recent.Keys;
      claims := recent;
      return Done((|expired|, |removedPairings|, |removedClaims|));
    }
  }

  lemma InsertionFrame(c: Crypto, db: Db, grant: SignedGrant)
    ensures InsertRevision(c, db, grant) ==
              db.(revisions := InsertRevision(c, db, grant).revisions, scopes := InsertRevision(c, db, grant).scopes)
  {
  }

  lemma AcceptedRow(c: Crypto, db: Db, r: SignedRequest, scope: Scope, now: int)
    requires Judge(c, db, r, scope, now).Accept?
    ensures GrantKey(r.grantId, r.grantRevision) in db.revisions
    ensures CurrentPolicy(db) == Some(r.policyRevision) && r.policyRevision in db.policies
  {
    hide Judge;
    AcceptedFacts(c, db, r, scope, now);
  }
}
