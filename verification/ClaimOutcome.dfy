/** What claim answers and writes for any request, in terms of the stored rows and the signed grant
    (connector/store.py): the exact condition for acceptance, and for every refusal the first condition
    that fails, in the order of the source. */
module ClaimOutcome {
  import opened Prelude
  import opened Limits
  import opened Errors
  import opened Records
  import opened Trust
  import opened Store
  import opened StoreInvariant

  // ------------------------------------------------------------------ the conditions

  /** signed by a paired key, for this Connector */
  ghost predicate SignedByPaired(c: Crypto, db: Db, r: SignedRequest) {
    && r.subjectKeyId in db.keys && c.verifies(db.keys[r.subjectKeyId].publicKey, RequestRecord(r))
    && r.audienceKeyId == c.connectorKeyId
  }

  /** the conditions on an authentic unseen request, in the order they are checked */
  datatype Gate =
    | DeviceLive | InTime | GrantOwned | GrantLive | RevisionCurrent | SubjectSame | GrantInForce | PolicyCurrent
    | ScopeGranted | UsesLeft

  const GATES := [
    DeviceLive, InTime, GrantOwned, GrantLive, RevisionCurrent, SubjectSame, GrantInForce, PolicyCurrent,
    ScopeGranted, UsesLeft]

  /** the grant revision the request names, as it was signed */
  function Named(db: Db, r: SignedRequest): Option<GrantClaims> {
    var k := GrantKey(r.grantId, r.grantRevision);
    if k in db.revisions then Some(db.revisions[k].stored.record.claims) else None
  }

  function UsedOf(db: Db, r: SignedRequest): int {
    var k := GrantKey(r.grantId, r.grantRevision);
    if k in db.revisions then db.revisions[k].usedCount else 0
  }

  ghost predicate Passes(db: Db, r: SignedRequest, scope: Scope, now: int, g: Gate)
    requires r.subjectKeyId in db.keys
  {
    var d := db.keys[r.subjectKeyId].deviceId;
    var k := GrantKey(r.grantId, r.grantRevision);
    match g
    case DeviceLive => d in db.devices && db.devices[d].revokedAt.None?
    case InTime => r.issuedAt <= now + CLOCK_SKEW_SECONDS && now < r.deadline
    case GrantOwned => r.grantId in db.lineages && db.lineages[r.grantId].deviceId == d
    case GrantLive => r.grantId in db.lineages && db.lineages[r.grantId].revokedAt.None?
    case RevisionCurrent => k in db.revisions && db.revisions[k].supersededAt.None?
    case SubjectSame => Named(db, r).Some? && Named(db, r).value.subjectKeyId == r.subjectKeyId
    case GrantInForce => Named(db, r).Some? && Named(db, r).value.notBefore <= now < Named(db, r).value.expiresAt
    case PolicyCurrent =>
      && r.policyRevision in db.policies && db.policies[r.policyRevision].replacedAt.None?
      && Named(db, r).Some? && Named(db, r).value.policyRevision == r.policyRevision
    case ScopeGranted =>
      && scope.source == r.source && scope.operation == r.operation
      && Named(db, r).Some? && scope in Named(db, r).value.scopes
    case UsesLeft => Named(db, r).Some? && UsedOf(db, r) < Named(db, r).value.maxUses
  }

  function CauseOf(g: Gate): ErrorCode {
    match g
    case DeviceLive => DeviceRevoked
    case InTime => ConnectorDeadlineExceeded
    case GrantOwned => GrantRequired
    case GrantLive => GrantRevoked
    case RevisionCurrent => GrantSuperseded
    case SubjectSame => GrantRequired
    case GrantInForce => GrantExpired
    case PolicyCurrent => PolicyRevisionStale
    case ScopeGranted => GrantScopeDenied
    case UsesLeft => GrantLimitExhausted
  }

  /** the i-th condition is the first that does not hold */
  ghost predicate FailsFirst(db: Db, r: SignedRequest, scope: Scope, now: int, i: nat)
    requires r.subjectKeyId in db.keys && i < |GATES|
  {
    !Passes(db, r, scope, now, GATES[i]) && forall j | 0 <= j < i :: Passes(db, r, scope, now, GATES[j])
  }

  ghost predicate PassesAll(db: Db, r: SignedRequest, scope: Scope, now: int)
    requires r.subjectKeyId in db.keys
  {
    forall j | 0 <= j < |GATES| :: Passes(db, r, scope, now, GATES[j])
  }

  // ------------------------------------------------------------------ the rows

  /** the columns a claim row copies from its request */
  predicate RowRepeats(row: ClaimRow, r: SignedRequest, deviceId: Id, now: int) {
    && row.traceId == r.traceId && row.deviceId == deviceId && row.subjectKeyId == r.subjectKeyId
    && row.grant == GrantKey(r.grantId, r.grantRevision) && row.policyRevision == r.policyRevision
    && row.source == r.source && row.operation == r.operation && row.payloadDigest == r.payloadDigest
    && row.claimedAt == now && row.completedAt.None? && row.receiptDigest.None?
  }

  /** one deny row with this cause was added, and nothing else changed */
  predicate Recorded(db: Db, after: Db, r: SignedRequest, cause: ErrorCode, now: int)
    requires r.subjectKeyId in db.keys
  {
    && r.requestId in after.claims
    && after == db.(claims := db.claims[r.requestId := after.claims[r.requestId]])
    && var row := after.claims[r.requestId];
    && RowRepeats(row, r, db.keys[r.subjectKeyId].deviceId, now)
    && row.decision.Deny? && row.cause == Some(cause) && row.usage.None?
  }

  /** one use of the named revision was spent, one allow row with that use was added, and nothing else changed */
  predicate Spent(db: Db, after: Db, r: SignedRequest, now: int, usage: ReceiptUsage)
    requires r.subjectKeyId in db.keys
  {
    var k := GrantKey(r.grantId, r.grantRevision);
    && k in db.revisions && r.requestId in after.claims
    && usage.sequence == db.revisions[k].usedCount + 1
    && usage.remaining == db.revisions[k].stored.record.claims.maxUses - usage.sequence
    && after == db.(revisions := db.revisions[k := db.revisions[k].(usedCount := usage.sequence)],
                    claims := db.claims[r.requestId := after.claims[r.requestId]])
    && var row := after.claims[r.requestId];
    && RowRepeats(row, r, db.keys[r.subjectKeyId].deviceId, now)
    && row.decision.Allow? && row.cause.None? && row.usage == Some(usage)
  }

  // ------------------------------------------------------------------ what the invariant says of the rows

  lemma KeyFacts(c: Crypto, db: Db, id: Id)
    requires Inv(c, db) && id in db.keys
    ensures db.keys[id].retiredAt.None? && db.keys[id].deviceId in db.devices
    ensures c.keyId(db.keys[id].publicKey) == Some(id) && DeviceOf(db, id) == Some(db.keys[id].deviceId)
  {
    hide PoliciesOk, LineagesOk, GrantsOk, QuotasOk, QueueOk, PairingsOk, ClaimsOk;
    assert KeyOk(c, db.devices.Keys, db.keys, id);
  }

  /** authentication, under the invariant */
  lemma AuthenticatedExactly(c: Crypto, db: Db, r: SignedRequest)
    requires Inv(c, db)
    ensures Authenticate(c, db, r) ==
              if r.subjectKeyId !in db.keys then Unpaired else if SignedByPaired(c, db, r) then Accept else Forged
    ensures r.subjectKeyId in db.keys ==> DeviceOf(db, r.subjectKeyId) == Some(db.keys[r.subjectKeyId].deviceId)
  {
    hide Inv;
    if r.subjectKeyId in db.keys { KeyFacts(c, db, r.subjectKeyId); }
  }

  lemma GrantFacts(c: Crypto, db: Db, grantId: Id)
    requires Inv(c, db) && grantId in db.lineages
    ensures CurrentRevision(db, grantId).Some?
    ensures var k := CurrentRevision(db, grantId).value;
            && k.grantId == grantId && k in db.revisions && Loads(c, db, k)
            && forall q | q in db.revisions && q.grantId == grantId :: db.revisions[q].supersededAt.None? <==> q == k
  {
    hide PoliciesOk, DevicesOk, QuotasOk, QueueOk, PairingsOk, ClaimsOk, Projected;
    var live := Live(db.revisions);
    assert grantId in Owners(db.lineages) && Chained(live, grantId);
    var m :| RevisionsAre(live, grantId, m);
    CurrentRevisionIs(db, grantId, m);
    var k := GrantKey(grantId, m);
    assert k in live && k in Held(db.revisions);
    assert GrantOk(c, db.keys, db.policies.Keys, Owners(db.lineages), Held(db.revisions), db.scopes, k);
    OpensGrant(c, db, k);
    forall q | q in db.revisions && q.grantId == grantId ensures db.revisions[q].supersededAt.None? <==> q == k {
      assert q == GrantKey(grantId, q.revision) && q in live;
    }
  }

  lemma PolicyFacts(c: Crypto, db: Db)
    requires Inv(c, db)
    ensures CurrentPolicy(db).Some? && CurrentPolicy(db).value in db.policies
    ensures forall p | p in db.policies :: db.policies[p].replacedAt.None? <==> p == CurrentPolicy(db).value
  {
    hide DevicesOk, LineagesOk, GrantsOk, QuotasOk, QueueOk, PairingsOk, ClaimsOk;
    var n :| PoliciesAre(db.policies, n);
    CurrentPolicyIs(db, n);
  }

  // ------------------------------------------------------------------ claim

  lemma AuthenticJudged(c: Crypto, db: Db, r: SignedRequest, scope: Scope, now: int)
    requires Inv(c, db) && SignedByPaired(c, db, r) && r.requestId !in db.claims
    ensures DeviceOf(db, r.subjectKeyId) == Some(db.keys[r.subjectKeyId].deviceId)
    ensures Judge(c, db, r, scope, now) == Assess(c, db, r, scope, now)
  {
    hide Inv, Assess, Authenticate;
    AuthenticatedExactly(c, db, r);
  }

  /** the first condition that fails decides, up to the current revision */
  lemma AssessedEarly(c: Crypto, db: Db, r: SignedRequest, scope: Scope, now: int)
    requires Inv(c, db) && SignedByPaired(c, db, r)
    ensures DeviceOf(db, r.subjectKeyId).Some?
    ensures forall i | 0 <= i < 5 && FailsFirst(db, r, scope, now, i) ::
              Assess(c, db, r, scope, now) == Refuse(CauseOf(GATES[i]))
  {
    hide Inv, Loads, CurrentRevision, CurrentPolicy, Spendable;
    KeyFacts(c, db, r.subjectKeyId);
    if r.grantId in db.lineages { GrantFacts(c, db, r.grantId); }
    forall i | 0 <= i < 5 && FailsFirst(db, r, scope, now, i)
      ensures Assess(c, db, r, scope, now) == Refuse(CauseOf(GATES[i]))
    {
      EarlierPass(db, r, scope, now, i);
    }
  }

  /** the earlier conditions, one by one */
  lemma EarlierPass(db: Db, r: SignedRequest, scope: Scope, now: int, i: nat)
    requires r.subjectKeyId in db.keys && i <= |GATES|
    requires forall j | 0 <= j < i :: Passes(db, r, scope, now, GATES[j])
    ensures i > 0 ==> Passes(db, r, scope, now, DeviceLive)
    ensures i > 1 ==> Passes(db, r, scope, now, InTime)
    ensures i > 2 ==> Passes(db, r, scope, now, GrantOwned)
    ensures i > 3 ==> Passes(db, r, scope, now, GrantLive)
    ensures i > 4 ==> Passes(db, r, scope, now, RevisionCurrent)
    ensures i > 5 ==> Passes(db, r, scope, now, SubjectSame)
    ensures i > 6 ==> Passes(db, r, scope, now, GrantInForce)
    ensures i > 7 ==> Passes(db, r, scope, now, PolicyCurrent)
    ensures i > 8 ==> Passes(db, r, scope, now, ScopeGranted)
    ensures i > 9 ==> Passes(db, r, scope, now, UsesLeft)
  {
    hide Passes;
    assert i > 0 ==> Passes(db, r, scope, now, GATES[0]);
    assert i > 1 ==> Passes(db, r, scope, now, GATES[1]);
    assert i > 2 ==> Passes(db, r, scope, now, GATES[2]);
    assert i > 3 ==> Passes(db, r, scope, now, GATES[3]);
    assert i > 4 ==> Passes(db, r, scope, now, GATES[4]);
    assert i > 5 ==> Passes(db, r, scope, now, GATES[5]);
    assert i > 6 ==> Passes(db, r, scope, now, GATES[6]);
    assert i > 7 ==> Passes(db, r, scope, now, GATES[7]);
    assert i > 8 ==> Passes(db, r, scope, now, GATES[8]);
    assert i > 9 ==> Passes(db, r, scope, now, GATES[9]);
  }

  /** and from the current revision on */
  lemma AssessedLate(c: Crypto, db: Db, r: SignedRequest, scope: Scope, now: int)
    requires Inv(c, db) && SignedByPaired(c, db, r)
    requires forall j | 0 <= j < 5 :: Passes(db, r, scope, now, GATES[j])
    ensures DeviceOf(db, r.subjectKeyId).Some?
    ensures forall i | 5 <= i < |GATES| && FailsFirst(db, r, scope, now, i) ::
              Assess(c, db, r, scope, now) == Refuse(CauseOf(GATES[i]))
    ensures PassesAll(db, r, scope, now) ==> Assess(c, db, r, scope, now) == Accept
  {
    hide Inv, CurrentRevision, CurrentPolicy;
    KeyFacts(c, db, r.subjectKeyId);
    EarlierPass(db, r, scope, now, 5);
    GrantFacts(c, db, r.grantId);
    PolicyFacts(c, db);
    var k := GrantKey(r.grantId, r.grantRevision);
    assert CurrentRevision(db, r.grantId) == Some(k);
    forall i | 5 <= i < |GATES| && FailsFirst(db, r, scope, now, i)
      ensures Assess(c, db, r, scope, now) == Refuse(CauseOf(GATES[i]))
    {
      EarlierPass(db, r, scope, now, i);
    }
    if PassesAll(db, r, scope, now) { EarlierPass(db, r, scope, now, |GATES|); }
  }

  /** An authentic request not seen before is accepted exactly when every condition holds; otherwise the
      first that fails names the cause, in the reply and in the row. */
  lemma ClaimDecides(c: Crypto, db: Db, r: SignedRequest, scope: Scope, now: int)
    requires Inv(c, db) && IsTimestamp(now) && SignedByPaired(c, db, r) && r.requestId !in db.claims
    ensures var (after, reply) := Claim(c, db, r, scope, now);
            && reply.Done?
            && (reply.value.accepted <==> PassesAll(db, r, scope, now))
            && (reply.value.accepted ==>
                  && reply.value.cause.None? && reply.value.usage.Some?
                  && Spent(db, after, r, now, reply.value.usage.value)
                  && r.policyRevision in db.policies
                  && reply.value.policyDigest == Some(db.policies[r.policyRevision].digest))
            && forall i | 0 <= i < |GATES| && FailsFirst(db, r, scope, now, i) ::
                 && reply.value == ClaimResult(false, Some(CauseOf(GATES[i])), None, None)
                 && Recorded(db, after, r, CauseOf(GATES[i]), now)
  {
    hide Inv, Assess, Judge, Passes, CauseOf;
    AuthenticJudged(c, db, r, scope, now);
    AssessedEarly(c, db, r, scope, now);
    if forall j | 0 <= j < 5 :: Passes(db, r, scope, now, GATES[j]) { AssessedLate(c, db, r, scope, now); }
    SomeGate(db, r, scope, now);
    if PassesAll(db, r, scope, now) {
      AcceptedSpends(c, db, r, scope, now);
    } else {
      assert exists i :: 0 <= i < |GATES| && FailsFirst(db, r, scope, now, i);
      forall i | 0 <= i < |GATES| && FailsFirst(db, r, scope, now, i)
        ensures Judge(c, db, r, scope, now) == Refuse(CauseOf(GATES[i]))
      {
      }
    }
  }

  lemma AcceptedSpends(c: Crypto, db: Db, r: SignedRequest, scope: Scope, now: int)
    requires Inv(c, db) && IsTimestamp(now) && SignedByPaired(c, db, r) && r.requestId !in db.claims
    requires Judge(c, db, r, scope, now).Accept?
    ensures var (after, reply) := Claim(c, db, r, scope, now);
            && reply.Done? && reply.value.accepted && reply.value.cause.None? && reply.value.usage.Some?
            && Spent(db, after, r, now, reply.value.usage.value)
            && r.policyRevision in db.policies
            && reply.value.policyDigest == Some(db.policies[r.policyRevision].digest)
  {
    hide Inv, Judge;
    KeyFacts(c, db, r.subjectKeyId);
    AcceptedFacts(c, db, r, scope, now);
  }

  /** every condition holds or one fails first */
  lemma SomeGate(db: Db, r: SignedRequest, scope: Scope, now: int)
    requires r.subjectKeyId in db.keys
    ensures PassesAll(db, r, scope, now) || exists i :: 0 <= i < |GATES| && FailsFirst(db, r, scope, now, i)
  {
    hide Passes;
    var i := 0;
    while i < |GATES| && Passes(db, r, scope, now, GATES[i])
      invariant 0 <= i <= |GATES|
      invariant forall j | 0 <= j < i :: Passes(db, r, scope, now, GATES[j])
    {
      i := i + 1;
    }
    assert i < |GATES| ==> FailsFirst(db, r, scope, now, i);
  }

  /** Acceptance, for any request at all: exactly a request signed by a paired key for this Connector, not
      seen before, of an unrevoked device, inside its own window with thirty seconds of skew, on an unrevoked
      grant of that device whose current revision it names, with that grant's subject, window, policy and
      scope, and a use left. */
  lemma ClaimAcceptedExactly(c: Crypto, db: Db, r: SignedRequest, scope: Scope, now: int)
    requires Inv(c, db)
    ensures var reply := Claim(c, db, r, scope, now).1;
            var k := GrantKey(r.grantId, r.grantRevision);
            reply.Done? && reply.value.accepted <==>
              && IsTimestamp(now)
              && r.subjectKeyId in db.keys && c.verifies(db.keys[r.subjectKeyId].publicKey, RequestRecord(r))
              && r.audienceKeyId == c.connectorKeyId
              && r.requestId !in db.claims
              && db.keys[r.subjectKeyId].deviceId in db.devices
              && db.devices[db.keys[r.subjectKeyId].deviceId].revokedAt.None?
              && r.issuedAt <= now + 30 && now < r.deadline
              && r.grantId in db.lineages && db.lineages[r.grantId].revokedAt.None?
              && db.lineages[r.grantId].deviceId == db.keys[r.subjectKeyId].deviceId
              && k in db.revisions && db.revisions[k].supersededAt.None?
              && var claims := db.revisions[k].stored.record.claims;
              && claims.subjectKeyId == r.subjectKeyId
              && claims.notBefore <= now < claims.expiresAt
              && r.policyRevision in db.policies && db.policies[r.policyRevision].replacedAt.None?
              && claims.policyRevision == r.policyRevision
              && scope.source == r.source && scope.operation == r.operation && scope in claims.scopes
              && db.revisions[k].usedCount < claims.maxUses
  {
    hide Inv, Claim, FailsFirst, Recorded, Spent, CauseOf;
    if IsTimestamp(now) && SignedByPaired(c, db, r) && r.requestId !in db.claims {
      ClaimDecides(c, db, r, scope, now);
      if PassesAll(db, r, scope, now) {
        EarlierPass(db, r, scope, now, |GATES|);
      } else if forall g :: Passes(db, r, scope, now, g) {
        AllPass(db, r, scope, now);
      }
    } else {
      UnprovenClaim(c, db, r, scope, now);
    }
  }

  lemma AllPass(db: Db, r: SignedRequest, scope: Scope, now: int)
    requires r.subjectKeyId in db.keys
    requires forall g :: Passes(db, r, scope, now, g)
    ensures PassesAll(db, r, scope, now)
  {
    hide Passes;
  }

  /** What an unauthentic or repeated request gets, and that nothing at all is written for it. */
  lemma UnprovenClaim(c: Crypto, db: Db, r: SignedRequest, scope: Scope, now: int)
    requires Inv(c, db)
    requires !IsTimestamp(now) || !SignedByPaired(c, db, r) || r.requestId in db.claims
    ensures Claim(c, db, r, scope, now) ==
              (db, if !IsTimestamp(now) then Rejected
                   else if r.subjectKeyId !in db.keys
                   then Done(ClaimResult(false, Some(ConnectorNotPaired), None, None))
                   else if !SignedByPaired(c, db, r) then Rejected
                   else Done(ClaimResult(false, Some(RequestReplayed), None, None)))
  {
    hide Inv, Assess, Authenticate;
    AuthenticatedExactly(c, db, r);
  }
}
