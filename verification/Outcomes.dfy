/** What the other transactions of the authority store answer and write under its invariant, in terms of the
    stored rows (connector/store.py): for each, exactly when it succeeds, and every row it changes. */
module Outcomes {
  import opened Prelude
  import opened Limits
  import opened Errors
  import opened Records
  import opened Trust
  import opened Store
  import opened StoreInvariant
  import opened ClaimOutcome

  // ------------------------------------------------------------------ denials and completions

  /** One row is written for an authentic unseen request, with the given cause; nothing for any other. */
  lemma DenialDecides(c: Crypto, db: Db, r: SignedRequest, cause: ErrorCode, now: int)
    requires Inv(c, db)
    ensures var (after, reply) := DenyRequest(c, db, r, cause, now);
            if IsTimestamp(now) && SignedByPaired(c, db, r) && r.requestId !in db.claims
            then Recorded(db, after, r, cause, now) && reply == Done(ClaimResult(false, Some(cause), None, None))
            else
              && after == db
              && reply == if !IsTimestamp(now) then Rejected
                          else if r.subjectKeyId !in db.keys
                          then Done(ClaimResult(false, Some(ConnectorNotPaired), None, None))
                          else if !SignedByPaired(c, db, r) then Rejected
                          else Done(ClaimResult(false, Some(RequestReplayed), None, None))
  {
    hide Inv, Authenticate;
    AuthenticatedExactly(c, db, r);
  }

  /** An accepted claim is completed once: a second completion is refused whatever it carries. */
  lemma CompletedOnce(db: Db, requestId: Id, digest: string, now: int, again: string, later: int)
    requires CompleteClaim(db, requestId, digest, now).1.Done?
    ensures var after := CompleteClaim(db, requestId, digest, now).0;
            && requestId in db.claims && db.claims[requestId].decision.Allow? && requestId in after.claims
            && after.claims[requestId].completedAt == Some(now)
            && after.claims[requestId].receiptDigest == Some(digest)
            && after.claims[requestId].(completedAt := None, receiptDigest := db.claims[requestId].receiptDigest)
               == db.claims[requestId]
            && after == db.(claims := db.claims[requestId := after.claims[requestId]])
            && !CompleteClaim(after, requestId, again, later).1.Done?
            && CompleteClaim(after, requestId, again, later).0 == after
  {
  }

  /** What was just accepted can be completed at any time from then on. */
  lemma AcceptedCompletes(
    c: Crypto, db: Db, r: SignedRequest, scope: Scope, now: int, digest: string, later: int)
    requires Inv(c, db) && Claim(c, db, r, scope, now).1.Done? && Claim(c, db, r, scope, now).1.value.accepted
    requires now <= later && IsTimestamp(later)
    ensures CompleteClaim(Claim(c, db, r, scope, now).0, r.requestId, digest, later).1 == Done(())
  {
    hide Inv, Claim;
    ClaimAcceptedExactly(c, db, r, scope, now);
    ClaimDecides(c, db, r, scope, now);
  }

  // ------------------------------------------------------------------ pairings

  /** a pairing as it is seen at a time: a pending one whose time is up has expired at that time */
  predicate SeenAs(row: PairingRow, seen: PairingRow, now: int) {
    if row.decision.Pending? && row.exchange.deadline <= now
    then seen == PairingRow(row.exchange, row.transcript, Expired, Some(now), row.deviceId, row.grant)
    else seen == row
  }

  /** only pending pairings whose time is up changed, and those have expired now */
  ghost predicate Swept(db: Db, after: Db, now: int) {
    && after == db.(pairings := after.pairings) && after.pairings.Keys == db.pairings.Keys
    && forall p | p in db.pairings :: SeenAs(db.pairings[p], after.pairings[p], now)
  }

  lemma ExpireSweeps(db: Db, now: int)
    ensures Swept(db, Expire(db, now), now)
  {
  }

  /** every stored pairing loads, before and after a sweep */
  lemma SeenLoads(c: Crypto, db: Db, p: Id, now: int)
    requires Inv(c, db) && p in db.pairings
    ensures PairingLoads(c, Expire(db, now), p)
    ensures db.pairings[p].exchange.initDigest == c.digest(InitRecord(db.pairings[p].exchange.init))
  {
    hide Inv, PairingLoads, ForeignKeys, SubjectOwned;
    ExpireKeeps(c, db, now);
    InvariantOpens(c, Expire(db, now));
    assert PairingAccepted(c, Expire(db, now), p);
    LoadedDigest(c, Expire(db, now), p);
  }

  lemma LoadedDigest(c: Crypto, db: Db, p: Id)
    requires PairingLoads(c, db, p)
    ensures db.pairings[p].exchange.initDigest == c.digest(InitRecord(db.pairings[p].exchange.init))
  {
  }

  /** A verified init finds its own pairing as it is seen now, no pairing when none has its identifier, and is
      refused, with nothing changed, when another init has. */
  lemma StateFound(c: Crypto, db: Db, init: PairingInit, now: int)
    requires Inv(c, db)
    ensures var (after, reply) := PairingState(c, db, init, now);
            if !VerifyInit(c, init, now) then after == db && reply == Rejected
            else if init.pairingId !in db.pairings then Swept(db, after, now) && reply == Done(None)
            else if db.pairings[init.pairingId].exchange.init != init
            then after == db && reply == Raised(RequestReplayed)
            else Swept(db, after, now) && reply == Done(Some(after.pairings[init.pairingId]))
  {
    hide Inv, VerifyInit, PairingLoads;
    ExpireSweeps(db, now);
    if init.pairingId in db.pairings {
      SeenLoads(c, db, init.pairingId, now);
      assert Expire(db, now).pairings[init.pairingId].exchange == db.pairings[init.pairingId].exchange;
    }
  }

  /** The operator sees the pairing as it is now, or none. */
  lemma PairingShown(c: Crypto, db: Db, p: Id, now: int)
    requires Inv(c, db) && IsTimestamp(now)
    ensures var (after, reply) := PairingById(c, db, p, now);
            && Swept(db, after, now)
            && reply == Done(if p in db.pairings then Some(after.pairings[p]) else None)
  {
    hide Inv, PairingLoads;
    ExpireSweeps(db, now);
    if p in db.pairings { SeenLoads(c, db, p, now); }
  }

  /** A denial closes exactly a pending pairing that is still in time, and changes nothing else. */
  lemma DeniedExactly(db: Db, p: Id, now: int)
    ensures var (after, reply) := DenyPairing(db, p, now);
            if IsTimestamp(now) && p in db.pairings && db.pairings[p].decision.Pending?
               && now < db.pairings[p].exchange.deadline
            then
              && reply == Done(()) && p in after.pairings
              && after == db.(pairings := db.pairings[p := after.pairings[p]])
              && after.pairings[p].decision.Denied? && after.pairings[p].decidedAt == Some(now)
              && after.pairings[p].(decision := Pending, decidedAt := db.pairings[p].decidedAt) == db.pairings[p]
            else after == db && reply == if IsTimestamp(now) then Raised(RequestReplayed) else Rejected
  {
  }

  // ------------------------------------------------------------------ grants

  /** the row a new grant revision gets: its signed record, its columns read off it, no use, not superseded */
  predicate FreshRevision(c: Crypto, row: RevisionRow, grant: SignedGrant) {
    && row.stored.record == grant && row.stored.digest == c.digest(GrantRecord(grant))
    && row.stored.issuerKeyId == grant.claims.issuerKeyId && row.stored.subjectKeyId == grant.claims.subjectKeyId
    && row.stored.issuedAt == grant.claims.issuedAt && row.stored.notBefore == grant.claims.notBefore
    && row.stored.expiresAt == grant.claims.expiresAt && row.stored.policyRevision == grant.claims.policyRevision
    && row.stored.maxUses == grant.claims.maxUses && row.usedCount == 0 && row.supersededAt.None?
  }

  /** the current revision was superseded now, the new one and its scopes were added, and nothing else changed */
  ghost predicate Replaced(c: Crypto, db: Db, after: Db, grant: SignedGrant, now: int) {
    var was := GrantKey(grant.claims.grantId, grant.claims.revision - 1);
    var k := GrantKey(grant.claims.grantId, grant.claims.revision);
    && was in db.revisions && k !in db.revisions && k in after.revisions
    && FreshRevision(c, after.revisions[k], grant)
    && after == db.(
         revisions := db.revisions[was := db.revisions[was].(supersededAt := Some(now))][k := after.revisions[k]],
         scopes := db.scopes[k := grant.claims.scopes])
  }

  /** signed by this Connector for this subject, and in force */
  predicate InForce(c: Crypto, grant: SignedGrant, now: int) {
    && c.verifies(c.connectorKey, GrantRecord(grant)) && grant.claims.issuerKeyId == c.connectorKeyId
    && IsTimestamp(now) && grant.claims.notBefore <= now < grant.claims.expiresAt
  }

  /** it follows the live revision of its lineage, for the same subject and under the current policy */
  ghost predicate Follows(db: Db, grant: SignedGrant) {
    var was := GrantKey(grant.claims.grantId, grant.claims.revision - 1);
    && was in db.revisions && db.revisions[was].supersededAt.None?
    && db.revisions[was].stored.record.claims.subjectKeyId == grant.claims.subjectKeyId
    && grant.claims.policyRevision in db.policies && db.policies[grant.claims.policyRevision].replacedAt.None?
  }

  /** A replacement succeeds exactly for a grant in force that follows the live revision of an unrevoked lineage
      of an unrevoked device, with a digest never stored before; each other case has its own answer and
      changes nothing. */
  lemma ReplacedExactly(c: Crypto, db: Db, grant: SignedGrant, now: int)
    requires Inv(c, db)
    ensures var (after, reply) := ReplaceGrant(c, db, grant, now);
            var g := grant.claims.grantId;
            if !InForce(c, grant, now) then after == db && reply == Rejected
            else if g !in db.lineages then after == db && reply == Raised(GrantRequired)
            else if db.lineages[g].revokedAt.Some? then after == db && reply == Raised(GrantRevoked)
            else if db.lineages[g].deviceId !in db.devices then false
            else if db.devices[db.lineages[g].deviceId].revokedAt.Some?
            then after == db && reply == Raised(DeviceRevoked)
            else if !Follows(db, grant) then after == db && reply == Rejected
            else if exists k | k in db.revisions :: db.revisions[k].stored.digest == c.digest(GrantRecord(grant))
            then after == db && reply == Raised(ConnectorStateInvalid)
            else Replaced(c, db, after, grant, now) && reply == Done(GrantKey(g, grant.claims.revision))
  {
    hide Inv, CurrentRevision, CurrentPolicy, Projected, Replaced, RevisionConflict;
    var claims := grant.claims;
    if claims.grantId in db.lineages {
      LineageDevice(c, db, claims.grantId);
      GrantFacts(c, db, claims.grantId);
      PolicyFacts(c, db);
      var current := CurrentRevision(db, claims.grantId).value;
      CurrentNamed(c, db, current);
      NoLaterRevision(c, db, current);
      ConflictsWithStored(c, db, grant, current, now);
      if InForce(c, grant, now) && Follows(db, grant) && ReplaceGrant(c, db, grant, now).1.Done? {
        ReplacementRows(c, db, grant, now, current);
      }
    }
  }

  /** superseding a revision hides no digest */
  lemma ConflictsWithStored(c: Crypto, db: Db, grant: SignedGrant, k: GrantKey, now: int)
    requires k in db.revisions
    ensures var retired := db.(revisions := db.revisions[k := db.revisions[k].(supersededAt := Some(now))]);
            RevisionConflict(c, retired, grant) <==>
              || GrantKey(grant.claims.grantId, grant.claims.revision) in db.revisions
              || (exists q | q in db.revisions :: db.revisions[q].stored.digest == c.digest(GrantRecord(grant)))
              || grant.claims.policyRevision !in db.policies
  {
    var retired := db.revisions[k := db.revisions[k].(supersededAt := Some(now))];
    assert forall q | q in db.revisions :: q in retired && retired[q].stored == db.revisions[q].stored;
  }

  lemma LineageDevice(c: Crypto, db: Db, g: Id)
    requires Inv(c, db) && g in db.lineages
    ensures db.lineages[g].deviceId in db.devices
  {
    hide PoliciesOk, DevicesOk, GrantsOk, QuotasOk, QueueOk, PairingsOk, ClaimsOk, Chained;
    assert g in Owners(db.lineages) && Owners(db.lineages)[g] == db.lineages[g].deviceId;
  }

  /** a loaded revision is stored under its signed grant and revision */
  lemma CurrentNamed(c: Crypto, db: Db, k: GrantKey)
    requires Loads(c, db, k)
    ensures k == GrantKey(ClaimsOf(db, k).grantId, ClaimsOf(db, k).revision)
  {
  }

  /** nothing is stored after the live revision of a lineage */
  lemma NoLaterRevision(c: Crypto, db: Db, k: GrantKey)
    requires Inv(c, db) && k.grantId in db.lineages && k in db.revisions && db.revisions[k].supersededAt.None?
    ensures GrantKey(k.grantId, k.revision + 1) !in db.revisions
  {
    hide PoliciesOk, DevicesOk, GrantsOk, QuotasOk, QueueOk, PairingsOk, ClaimsOk;
    var live := Live(db.revisions);
    assert k.grantId in Owners(db.lineages) && Chained(live, k.grantId);
    var m :| RevisionsAre(live, k.grantId, m);
    assert k == GrantKey(k.grantId, k.revision) && k in live;
    assert GrantKey(k.grantId, k.revision + 1) in db.revisions ==> GrantKey(k.grantId, k.revision + 1) in live;
  }

  lemma ReplacementRows(c: Crypto, db: Db, grant: SignedGrant, now: int, current: GrantKey)
    requires ReplaceGrant(c, db, grant, now).1.Done?
    requires CurrentRevision(db, grant.claims.grantId) == Some(current) && current in db.revisions
    requires current == GrantKey(grant.claims.grantId, grant.claims.revision - 1)
    ensures Replaced(c, db, ReplaceGrant(c, db, grant, now).0, grant, now)
  {
    hide CurrentRevision, CurrentPolicy, Projected, VerifyGrant;
  }

  /** The scope of a request under its current grant is the one signed scope for its source and operation. */
  lemma ScopeFound(c: Crypto, db: Db, r: SignedRequest, scope: Scope)
    requires Inv(c, db) && r.grantId in db.lineages
    requires CurrentRevision(db, r.grantId) == Some(GrantKey(r.grantId, r.grantRevision))
    requires GrantKey(r.grantId, r.grantRevision) in db.revisions
    requires var scopes := ClaimsOf(db, GrantKey(r.grantId, r.grantRevision)).scopes;
             forall i, j | 0 <= i < |scopes| && 0 <= j < |scopes| ::
               scopes[i].source == scopes[j].source && scopes[i].operation == scopes[j].operation ==> i == j
    ensures ScopeForRequest(c, db, r) == Done(Some(scope)) <==>
              && scope.source == r.source && scope.operation == r.operation
              && scope in ClaimsOf(db, GrantKey(r.grantId, r.grantRevision)).scopes
    ensures ScopeForRequest(c, db, r).Done?
  {
    hide Inv, CurrentRevision, Loads;
    GrantFacts(c, db, r.grantId);
    var scopes := ClaimsOf(db, GrantKey(r.grantId, r.grantRevision)).scopes;
    if i :| 0 <= i < |scopes| && scopes[i].source == r.source && scopes[i].operation == r.operation {
      assert forall j | 0 <= j < |scopes| ::
          scopes[j].source == r.source && scopes[j].operation == r.operation ==> j == i;
      assert ScopeForRequest(c, db, r) == Done(Some(scopes[i]));
    }
  }

  // ------------------------------------------------------------------ revocation and policy

  /** The first revocation of a known device or lineage sets its time, later ones leave it, and nothing else
      ever changes. */
  lemma RevokedExactly(db: Db, id: Id, now: int)
    ensures var (after, reply) := RevokeDevice(db, id, now);
            if !IsTimestamp(now) || id !in db.devices
            then after == db && reply == if IsTimestamp(now) then Raised(ConnectorStateInvalid) else Rejected
            else
              && reply == Done(()) && id in after.devices
              && after == db.(devices := db.devices[id := after.devices[id]])
              && after.devices[id].(revokedAt := db.devices[id].revokedAt) == db.devices[id]
              && after.devices[id].revokedAt ==
                   (if db.devices[id].revokedAt.Some? then db.devices[id].revokedAt else Some(now))
    ensures var (after, reply) := RevokeGrant(db, id, now);
            if !IsTimestamp(now) || id !in db.lineages
            then after == db && reply == if IsTimestamp(now) then Raised(ConnectorStateInvalid) else Rejected
            else
              && reply == Done(()) && id in after.lineages
              && after == db.(lineages := db.lineages[id := after.lineages[id]])
              && after.lineages[id].(revokedAt := db.lineages[id].revokedAt) == db.lineages[id]
              && after.lineages[id].revokedAt ==
                   (if db.lineages[id].revokedAt.Some? then db.lineages[id].revokedAt else Some(now))
  {
    if id in db.devices { assert db.devices == db.devices[id := db.devices[id]]; }
    if id in db.lineages { assert db.lineages == db.lineages[id := db.lineages[id]]; }
  }

  /** A policy advance succeeds exactly with a digest never stored before; it adds the next revision and ends the
      one that was current. */
  lemma AdvancedExactly(c: Crypto, db: Db, digest: string, now: int)
    requires Inv(c, db)
    ensures var (after, reply) := AdvancePolicy(db, digest, now);
            if !IsTimestamp(now) || exists r | r in db.policies :: db.policies[r].digest == digest
            then after == db && reply == if IsTimestamp(now) then Raised(ConnectorStateInvalid) else Rejected
            else
              && reply.Done? && reply.value - 1 in db.policies && db.policies[reply.value - 1].replacedAt.None?
              && reply.value !in db.policies
              && var ended := db.policies[reply.value - 1].(replacedAt := Some(now));
              && after == db.(policies := db.policies[reply.value - 1 := ended][reply.value :=
                                PolicyRow(digest, now, None)])
  {
    hide DevicesOk, LineagesOk, GrantsOk, QuotasOk, QueueOk, PairingsOk, ClaimsOk, CurrentPolicy;
    var n :| PoliciesAre(db.policies, n);
    CurrentPolicyIs(db, n);
  }

  // ------------------------------------------------------------------ retention

  /** still within the thirty days, counted from the epoch at the earliest */
  predicate Retained(at: int, now: int) {
    at >= 0 && at >= now - 30 * 24 * 60 * 60
  }

  /** Cleanup keeps exactly the pairings that are pending or only now expired or were decided within thirty
      days, and exactly the claims within thirty days, as they were seen; it counts what it expired and what it
      dropped, and touches no other table. */
  lemma CleanedExactly(db: Db, now: int)
    requires IsTimestamp(now)
    ensures var (after, reply) := Cleanup(db, now);
            && after == db.(pairings := after.pairings, claims := after.claims)
            && (forall p :: p in after.pairings <==>
                  && p in db.pairings
                  && (db.pairings[p].decision.Pending? || db.pairings[p].decidedAt.None?
                      || Retained(db.pairings[p].decidedAt.value, now)))
            && (forall p | p in after.pairings :: SeenAs(db.pairings[p], after.pairings[p], now))
            && (forall r :: r in after.claims <==> r in db.claims && Retained(db.claims[r].claimedAt, now))
            && (forall r | r in after.claims :: after.claims[r] == db.claims[r])
            && reply.Done?
            && reply.value.1 == |db.pairings| - |after.pairings|
            && reply.value.2 == |db.claims| - |after.claims|
  {
    hide Cleanup;
    CleanedPairings(db, now);
    CleanedClaims(db, now);
    var after := Cleanup(db, now).0;
    Dropped(db.pairings.Keys, after.pairings.Keys);
    Dropped(db.claims.Keys, after.claims.Keys);
  }

  lemma CleanedPairings(db: Db, now: int)
    requires IsTimestamp(now)
    ensures var (after, reply) := Cleanup(db, now);
            && reply.Done? && reply.value.1 == |db.pairings.Keys - after.pairings.Keys|
            && (forall p :: p in after.pairings <==>
                  && p in db.pairings
                  && (db.pairings[p].decision.Pending? || db.pairings[p].decidedAt.None?
                      || Retained(db.pairings[p].decidedAt.value, now)))
            && (forall p | p in after.pairings :: SeenAs(db.pairings[p], after.pairings[p], now))
  {
    hide KeptClaims, Overdue, Expire;
    ExpireSweeps(db, now);
    var swept := Expire(db, now).pairings;
    assert Cleanup(db, now).0.pairings == KeptPairings(swept, now);
    RowsKept(db.pairings, swept, now);
  }

  lemma RowsKept(pairings: map<Id, PairingRow>, swept: map<Id, PairingRow>, now: int)
    requires IsTimestamp(now) && swept.Keys == pairings.Keys
    requires forall p | p in pairings :: SeenAs(pairings[p], swept[p], now)
    ensures var after := KeptPairings(swept, now);
            && (forall p :: p in after <==>
                  && p in pairings
                  && (pairings[p].decision.Pending? || pairings[p].decidedAt.None?
                      || Retained(pairings[p].decidedAt.value, now)))
            && (forall p | p in after :: SeenAs(pairings[p], after[p], now))
  {
  }

  lemma CleanedClaims(db: Db, now: int)
    requires IsTimestamp(now)
    ensures var (after, reply) := Cleanup(db, now);
            && after == db.(pairings := after.pairings, claims := after.claims)
            && reply.Done? && reply.value.2 == |db.claims.Keys - after.claims.Keys|
            && (forall r :: r in after.claims <==> r in db.claims && Retained(db.claims[r].claimedAt, now))
            && (forall r | r in after.claims :: after.claims[r] == db.claims[r])
  {
    hide KeptPairings, Overdue;
  }

  lemma Dropped<T>(a: set<T>, b: set<T>)
    requires b <= a
    ensures |a - b| == |a| - |b|
  {
    assert a == b + (a - b);
  }

  /** and the first count is the number of pairings that expired now */
  lemma CountsExpired(db: Db, now: int)
    requires IsTimestamp(now)
    ensures Cleanup(db, now).1.Done?
    ensures Cleanup(db, now).1.value.0 ==
              |set p | p in db.pairings && db.pairings[p].decision.Pending? && db.pairings[p].exchange.deadline <= now|
  {
    assert Overdue(db.pairings, now) ==
             set p | p in db.pairings && db.pairings[p].decision.Pending? && db.pairings[p].exchange.deadline <= now;
  }
}

/** What authorize_and_handoff comes to (connector/authority.py), in terms of the stored rows. */
module HandoffOutcome {
  import opened Prelude
  import opened Limits
  import opened Errors
  import opened Records
  import opened Trust
  import opened Store
  import opened StoreInvariant
  import opened ClaimOutcome
  import opened Outcomes
  import opened Authority

  /** Outside the lock a request passes exactly when a paired key signed it for this Connector, its payload matches
      and it is in its window, with thirty seconds of skew; one under a key that is not paired is unauthenticated. */
  lemma PrevalidatedExactly(c: Crypto, db: Db, r: SignedRequest, matches: bool, now: int)
    requires Inv(c, db)
    ensures Prevalidate(c, db, r, matches, now) ==
              if r.subjectKeyId !in db.keys then Some(Unauthenticated)
              else if SignedByPaired(c, db, r) && matches && IsTimestamp(now)
                      && r.issuedAt <= now + 30 && now < r.deadline
              then None
              else Some(Failure(None))
  {
    hide Inv;
    if r.subjectKeyId in db.keys { KeyFacts(c, db, r.subjectKeyId); }
  }

  /** Locked, an authentic unseen request is recorded as denied for the locked key, without an issuer. */
  lemma LockedDecides(c: Crypto, db: Db, r: SignedRequest, required: Scope, useGrant: bool, at: int)
    requires Inv(c, db) && IsTimestamp(at) && SignedByPaired(c, db, r)
    ensures var (after, reply) := Section(c, db, false, r, required, useGrant, at);
            if r.requestId in db.claims
            then after == db && reply == KeyLocked(ClaimResult(false, Some(RequestReplayed), None, None))
            else
              && Recorded(db, after, r, ConnectorKeyLocked, at)
              && reply == KeyLocked(ClaimResult(false, Some(ConnectorKeyLocked), None, None))
  {
    hide Inv, DenyRequest;
    DenialDecides(c, db, r, ConnectorKeyLocked, at);
  }

  /** the request's own scope in the grant revision it names, where the caller binds none */
  ghost predicate ClaimedScope(db: Db, r: SignedRequest, required: Scope, useGrant: bool, scope: Scope) {
    if !useGrant then scope == required
    else
      && Named(db, r).Some? && scope in Named(db, r).value.scopes
      && scope.source == r.source && scope.operation == r.operation
  }

  ghost predicate OneScopeEach(scopes: seq<Scope>) {
    forall i, j | 0 <= i < |scopes| && 0 <= j < |scopes| ::
      scopes[i].source == scopes[j].source && scopes[i].operation == scopes[j].operation ==> i == j
  }

  /** Unlocked, the handoff is made exactly when the claim is accepted for that scope. */
  lemma HandedOffExactly(c: Crypto, db: Db, r: SignedRequest, required: Scope, useGrant: bool, at: int)
    requires Inv(c, db) && IsTimestamp(at) && SignedByPaired(c, db, r) && r.requestId !in db.claims
    requires useGrant ==> Named(db, r).Some? ==> OneScopeEach(Named(db, r).value.scopes)
    ensures var reply := Section(c, db, true, r, required, useGrant, at).1;
            reply.Decided? && reply.claim.accepted <==>
              exists scope :: ClaimedScope(db, r, required, useGrant, scope) && PassesAll(db, r, scope, at)
  {
    hide Inv, Claim, ScopeForRequest, PassesAll;
    if !useGrant {
      ClaimDecides(c, db, r, required, at);
    } else {
      forall scope | PassesAll(db, r, scope, at) && ClaimedScope(db, r, required, true, scope)
        ensures ScopeForRequest(c, db, r) == Done(Some(scope))
      {
        ScopeOfCurrent(c, db, r, scope, at);
      }
      var found := BoundScope(c, db, r, required, true);
      if found.Done? {
        ClaimDecides(c, db, r, found.value, at);
        if PassesAll(db, r, found.value, at) { PassedScope(db, r, found.value, at); }
      }
    }
  }

  lemma PassedScope(db: Db, r: SignedRequest, scope: Scope, at: int)
    requires r.subjectKeyId in db.keys && PassesAll(db, r, scope, at)
    ensures ClaimedScope(db, r, scope, true, scope)
  {
    EarlierPass(db, r, scope, at, |GATES|);
  }

  lemma ScopeOfCurrent(c: Crypto, db: Db, r: SignedRequest, scope: Scope, at: int)
    requires Inv(c, db) && r.subjectKeyId in db.keys && PassesAll(db, r, scope, at)
    requires Named(db, r).Some? && OneScopeEach(Named(db, r).value.scopes)
    ensures ScopeForRequest(c, db, r) == Done(Some(scope))
  {
    hide Inv, ScopeForRequest, CurrentRevision, Loads;
    EarlierPass(db, r, scope, at, |GATES|);
    GrantFacts(c, db, r.grantId);
    ScopeFound(c, db, r, scope);
  }
}
