/** Runs of store transactions, in any order and any number, and what holds over whole runs:
    the stored-state invariant, irrevocability, replay safety across pruning, and quota conservation
    (connector/store.py).
 */
module StoreRun {
  import opened Prelude
  import opened Limits
  import opened Errors
  import opened Records
  import opened Trust
  import opened Store
  import opened StoreInvariant

  /** one transaction; `now` is the time it is given */
  datatype Event =
    | OpenPairing(init: PairingInit, challenge: PairingChallenge, now: int)
    | ShowPairing(init: PairingInit, now: int)
    | InspectPairing(pairingId: Id, now: int)
    | Approve(pairingId: Id, deviceId: Id, transcript: string, grant: SignedGrant, now: int)
    | Decline(pairingId: Id, now: int)
    | Replace(grant: SignedGrant, now: int)
    | KillDevice(deviceId: Id, now: int)
    | KillGrant(grantId: Id, now: int)
    | Advance(policyDigest: string, now: int)
    | MakeClaim(request: SignedRequest, scope: Scope, now: int)
    | MakeDenial(request: SignedRequest, cause: ErrorCode, now: int)
    | Complete(requestId: Id, receiptDigest: string, now: int)
    | Prune(now: int)

  function Next(c: Crypto, db: Db, e: Event): Db {
    match e
    case OpenPairing(init, challenge, now) => BeginPairing(c, db, init, challenge, now).0
    case ShowPairing(init, now) => PairingState(c, db, init, now).0
    case InspectPairing(id, now) => PairingById(c, db, id, now).0
    case Approve(id, deviceId, transcript, grant, now) => ApprovePairing(c, db, id, deviceId, transcript, grant, now).0
    case Decline(id, now) => DenyPairing(db, id, now).0
    case Replace(grant, now) => ReplaceGrant(c, db, grant, now).0
    case KillDevice(id, now) => RevokeDevice(db, id, now).0
    case KillGrant(id, now) => RevokeGrant(db, id, now).0
    case Advance(digest, now) => AdvancePolicy(db, digest, now).0
    case MakeClaim(r, scope, now) => Claim(c, db, r, scope, now).0
    case MakeDenial(r, cause, now) => DenyRequest(c, db, r, cause, now).0
    case Complete(id, digest, now) => CompleteClaim(db, id, digest, now).0
    case Prune(now) => Cleanup(db, now).0
  }

  /** the tables after the first n transactions */
  function After(c: Crypto, start: Db, es: seq<Event>, n: nat): Db
    requires n <= |es|
  {
    if n == 0 then start else Next(c, After(c, start, es, n - 1), es[n - 1])
  }

  /** earlier tables do not depend on later transactions */
  lemma {:induction false} AfterPrefix(c: Crypto, start: Db, es: seq<Event>, e: Event, n: nat)
    requires n <= |es|
    ensures After(c, start, es + [e], n) == After(c, start, es, n)
  {
    hide Next;
    if n > 0 {
      AfterPrefix(c, start, es, e, n - 1);
      assert (es + [e])[n - 1] == es[n - 1];
    }
  }

  /** Records exist only when their constructors accepted them, and the service opens a pairing with
      a challenge that repeats the init's deadline. */
  predicate WellFormed(c: Crypto, e: Event) {
    match e
    case OpenPairing(init, challenge, _) =>
      ValidInit(c, init) && ValidChallenge(c, challenge) && challenge.deadline == init.deadline
    case ShowPairing(init, _) => ValidInit(c, init)
    case Approve(_, _, _, grant, _) => ValidGrant(grant)
    case Replace(grant, _) => ValidGrant(grant)
    case MakeClaim(r, _, _) => RequestBounds(r)
    case MakeDenial(r, _, _) => RequestBounds(r)
    case _ => true
  }

  ghost predicate Run(c: Crypto, es: seq<Event>) {
    forall i | 0 <= i < |es| :: WellFormed(c, es[i])
  }

  /** the clock never steps back between transactions */
  ghost predicate Ordered(es: seq<Event>) {
    forall i, j | 0 <= i <= j < |es| :: es[i].now <= es[j].now
  }

  /** what replay safety of claims needs of the clock: a claim, which reads the clock inside its own
      lock section, is not given an earlier time than a cleanup that ran before it */
  ghost predicate PrunesPrecede(es: seq<Event>) {
    forall i, j | 0 <= i <= j < |es| && es[i].Prune? && es[j].MakeClaim? :: es[i].now <= es[j].now
  }

  // ------------------------------------------------------------------ the invariant over runs

  lemma QueriesKeep(c: Crypto, db: Db, e: Event)
    requires Inv(c, db) && (e.ShowPairing? || e.InspectPairing?)
    ensures Inv(c, Next(c, db, e))
  {
    hide Inv, PairingLoads, VerifyInit;
    ExpireKeeps(c, db, e.now);
  }

  /** Every transaction keeps the whole stored-state invariant. */
  lemma StepKeeps(c: Crypto, db: Db, e: Event)
    requires Inv(c, db) && WellFormed(c, e)
    ensures Inv(c, Next(c, db, e))
  {
    hide Inv, BeginPairing, ApprovePairing, DenyPairing, ReplaceGrant, Claim, DenyRequest, Cleanup, PairingState,
         PairingById, AdvancePolicy, RevokeDevice, RevokeGrant, CompleteClaim, ValidInit, ValidChallenge, ValidGrant;
    match e
    case OpenPairing(init, challenge, now) => BeginPairingKeeps(c, db, init, challenge, now);
    case ShowPairing(init, now) => QueriesKeep(c, db, e);
    case InspectPairing(id, now) => QueriesKeep(c, db, e);
    case Approve(id, d, transcript, grant, now) => ApprovePairingKeeps(c, db, id, d, transcript, grant, now);
    case Decline(id, now) => DenyPairingKeeps(c, db, id, now);
    case Replace(grant, now) => ReplaceGrantKeeps(c, db, grant, now);
    case KillDevice(id, now) => RevokeDeviceKeeps(c, db, id, now);
    case KillGrant(id, now) => RevokeGrantKeeps(c, db, id, now);
    case Advance(digest, now) => AdvancePolicyKeeps(c, db, digest, now);
    case MakeClaim(r, scope, now) => ClaimKeeps(c, db, r, scope, now);
    case MakeDenial(r, cause, now) => DenyRequestKeeps(c, db, r, cause, now);
    case Complete(id, digest, now) => CompleteClaimKeeps(c, db, id, digest, now);
    case Prune(now) => CleanupKeeps(c, db, now);
  }

  /** From a fresh database, every state any run reaches satisfies the invariant, so opening it again
      succeeds. */
  lemma {:induction false} RunOpens(c: Crypto, policyDigest: string, created: int, es: seq<Event>, n: nat)
    requires Run(c, es) && n <= |es|
    ensures Inv(c, After(c, Initial(policyDigest, created), es, n))
    ensures OpenAccepts(c, After(c, Initial(policyDigest, created), es, n))
  {
    hide Inv, OpenAccepts, Next, WellFormed;
    var start := Initial(policyDigest, created);
    if n == 0 {
      InitialOk(c, policyDigest, created);
    } else {
      RunOpens(c, policyDigest, created, es, n - 1);
      StepKeeps(c, After(c, start, es, n - 1), es[n - 1]);
    }
    InvariantOpens(c, After(c, start, es, n));
  }

  // ------------------------------------------------------------------ what only ever grows

  ghost predicate LaterTime(a: Option<int>, b: Option<int>) {
    a.Some? ==> b == a
  }

  ghost predicate DevicesLast(a: map<Id, DeviceRow>, b: map<Id, DeviceRow>) {
    forall d | d in a :: d in b && LaterTime(a[d].revokedAt, b[d].revokedAt)
  }

  ghost predicate KeysLast(a: map<Id, KeyRow>, b: map<Id, KeyRow>) {
    forall k | k in a :: k in b && b[k] == a[k]
  }

  ghost predicate LineagesLast(a: map<Id, LineageRow>, b: map<Id, LineageRow>) {
    forall g | g in a :: g in b && b[g].deviceId == a[g].deviceId && LaterTime(a[g].revokedAt, b[g].revokedAt)
  }

  ghost predicate RevisionsHold(a: map<GrantKey, RevisionRow>, b: map<GrantKey, RevisionRow>) {
    forall k | k in a ::
      k in b && b[k].stored == a[k].stored && a[k].usedCount <= b[k].usedCount &&
      LaterTime(a[k].supersededAt, b[k].supersededAt)
  }

  ghost predicate PoliciesLast(a: map<int, PolicyRow>, b: map<int, PolicyRow>) {
    forall r | r in a :: r in b && b[r].digest == a[r].digest && LaterTime(a[r].replacedAt, b[r].replacedAt)
  }

  /** rows of devices, keys, lineages, revisions and policies stay; their revocation, supersession
      and replacement times, once set, stay too */
  ghost predicate Lasts(a: Db, b: Db) {
    && DevicesLast(a.devices, b.devices)
    && KeysLast(a.keys, b.keys)
    && LineagesLast(a.lineages, b.lineages)
    && RevisionsHold(a.revisions, b.revisions)
    && PoliciesLast(a.policies, b.policies)
  }

  lemma LastsTransitive(a: Db, b: Db, d: Db)
    requires Lasts(a, b) && Lasts(b, d)
    ensures Lasts(a, d)
  {
  }

  /** an approval that does not complete changes at most its own pairing, which it closes as expired */
  lemma FailedApproval(c: Crypto, db: Db, p: Id, d: Id, transcript: string, grant: SignedGrant, now: int)
    requires !ApprovalDone(c, db, p, d, transcript, grant, now)
    ensures var db' := ApprovePairing(c, db, p, d, transcript, grant, now).0;
            || db' == db
            || (p in db.pairings && db.pairings[p].decision.Pending?
                && db' == db.(pairings := db.pairings[p :=
                            db.pairings[p].(decision := Expired, decidedAt := Some(now))]))
  {
    hide ExchangeLoads, VerifyGrant, CurrentPolicy, DeviceConflict, RevisionConflict, MatchesInit, TranscriptOf,
         ApprovedDb;
  }

  lemma LastsReflexive(db: Db)
    ensures Lasts(db, db)
  {
  }

  lemma ApproveLasts(c: Crypto, db: Db, p: Id, d: Id, transcript: string, grant: SignedGrant, now: int)
    ensures Lasts(db, ApprovePairing(c, db, p, d, transcript, grant, now).0)
  {
    hide ApprovePairing, ApprovalDone, ExchangeLoads, VerifyGrant, CurrentPolicy, TranscriptOf;
    if ApprovalDone(c, db, p, d, transcript, grant, now) {
      ApprovalFacts(c, db, p, d, transcript, grant, now);
    } else {
      FailedApproval(c, db, p, d, transcript, grant, now);
    }
  }

  lemma ReplaceLasts(c: Crypto, db: Db, grant: SignedGrant, now: int)
    ensures Lasts(db, ReplaceGrant(c, db, grant, now).0)
  {
    LastsReflexive(db);
    hide ReplaceGrant, DevicesLast, KeysLast, LineagesLast, PoliciesLast;
    if ReplaceGrant(c, db, grant, now).1.Done? {
      ReplacementFacts(c, db, grant, now);
      ReplacementFresh(c, db, grant, now);
    } else {
      FailedReplacement(c, db, grant, now);
    }
  }

  /** a completed replacement supersedes a live row and inserts a row that was not there */
  lemma ReplacementFresh(c: Crypto, db: Db, grant: SignedGrant, now: int)
    requires ReplaceGrant(c, db, grant, now).1.Done?
    ensures GrantKey(grant.claims.grantId, grant.claims.revision) !in db.revisions
    ensures CurrentRevision(db, grant.claims.grantId).Some?
    ensures IsLiveKey(db, CurrentRevision(db, grant.claims.grantId).value)
    ensures CurrentRevision(db, grant.claims.grantId).value.grantId == grant.claims.grantId
    ensures CurrentRevision(db, grant.claims.grantId).value in ReplaceGrant(c, db, grant, now).0.revisions
    ensures var k := CurrentRevision(db, grant.claims.grantId).value;
            ReplaceGrant(c, db, grant, now).0.revisions[k].supersededAt.Some?
  {
    hide Loads, VerifyGrant;
  }

  /** what a completed policy advance did */
  lemma AdvanceFacts(c: Crypto, db: Db, digest: string, now: int)
    ensures var (db', reply) := AdvancePolicy(db, digest, now);
            if reply.Done? then
              && CurrentPolicy(db).Some? && CurrentPolicy(db).value in db.policies
              && var n := CurrentPolicy(db).value;
              && LivePolicy(db, n) && n + 1 !in db.policies
              && db' == db.(policies := db.policies[n := db.policies[n].(replacedAt := Some(now))]
                                                   [n + 1 := PolicyRow(digest, now, None)])
            else db' == db
  {
  }

  lemma AdvanceLasts(c: Crypto, db: Db, digest: string, now: int)
    ensures Lasts(db, AdvancePolicy(db, digest, now).0)
  {
    hide AdvancePolicy, CurrentPolicy;
    AdvanceFacts(c, db, digest, now);
  }

  lemma ClaimLasts(c: Crypto, db: Db, r: SignedRequest, scope: Scope, now: int)
    ensures Lasts(db, Claim(c, db, r, scope, now).0)
  {
    LastsReflexive(db);
    hide Judge, DevicesLast, KeysLast, LineagesLast, PoliciesLast;
    if IsTimestamp(now) && Judge(c, db, r, scope, now).Accept? {
      AcceptedFacts(c, db, r, scope, now);
    } else {
      RefusedClaim(c, db, r, scope, now);
    }
  }

  /** the transactions that touch pairings and claims only */
  predicate Light(e: Event) {
    e.OpenPairing? || e.ShowPairing? || e.InspectPairing? || e.Decline? || e.MakeDenial? || e.Complete? || e.Prune?
  }

  lemma LightStep(c: Crypto, db: Db, e: Event)
    requires Light(e)
    ensures var db' := Next(c, db, e); db' == db.(pairings := db'.pairings, claims := db'.claims)
  {
    hide BeginPairing, PairingState, PairingById, DenyPairing, DenyRequest, CompleteClaim, Cleanup;
    match e
    case OpenPairing(init, challenge, now) => LightOpen(c, db, init, challenge, now);
    case ShowPairing(init, now) => LightShow(c, db, init, now);
    case InspectPairing(id, now) => LightInspect(c, db, id, now);
    case _ => LightRest(c, db, e);
  }

  /** what begin_pairing has checked when it stores a challenge */
  lemma OpenedFacts(c: Crypto, db: Db, init: PairingInit, challenge: PairingChallenge, now: int)
    requires BeginPairing(c, db, init, challenge, now).1.Done?
    ensures VerifyInit(c, init, now)
    ensures init.pairingId !in db.pairings
    ensures BeginPairing(c, db, init, challenge, now).0 ==
              Expire(db, now).(pairings := Expire(db, now).pairings[init.pairingId := NewPairing(c, init, challenge)])
  {
    hide VerifyInit, VerifyChallenge;
    assert Expire(db, now).pairings.Keys == db.pairings.Keys;
  }

  lemma FailedOpening(c: Crypto, db: Db, init: PairingInit, challenge: PairingChallenge, now: int)
    requires !BeginPairing(c, db, init, challenge, now).1.Done?
    ensures BeginPairing(c, db, init, challenge, now).0 == db
  {
    hide VerifyInit, VerifyChallenge, PairingConflict, PendingIds, NewPairing, Expire;
  }

  lemma LightOpen(c: Crypto, db: Db, init: PairingInit, challenge: PairingChallenge, now: int)
    ensures var db' := BeginPairing(c, db, init, challenge, now).0;
            db' == db.(pairings := db'.pairings, claims := db'.claims)
  {
    hide BeginPairing;
    if BeginPairing(c, db, init, challenge, now).1.Done? {
      OpenedFacts(c, db, init, challenge, now);
    } else {
      FailedOpening(c, db, init, challenge, now);
    }
  }

  lemma LightShow(c: Crypto, db: Db, init: PairingInit, now: int)
    ensures PairingState(c, db, init, now).0 in {db, Expire(db, now)}
    ensures Expire(db, now) == db.(pairings := Expire(db, now).pairings)
  {
    hide VerifyInit, PairingLoads;
  }

  lemma LightInspect(c: Crypto, db: Db, p: Id, now: int)
    ensures PairingById(c, db, p, now).0 in {db, Expire(db, now)}
    ensures Expire(db, now) == db.(pairings := Expire(db, now).pairings)
  {
    hide PairingLoads;
  }

  lemma LightRest(c: Crypto, db: Db, e: Event)
    requires e.Decline? || e.MakeDenial? || e.Complete? || e.Prune?
    ensures var db' := Next(c, db, e); db' == db.(pairings := db'.pairings, claims := db'.claims)
  {
    hide DenyRequest, Cleanup;
    match e
    case MakeDenial(r, cause, now) => LightDenial(c, db, r, cause, now);
    case Prune(now) => LightPrune(db, now);
    case _ =>
  }

  lemma LightDenial(c: Crypto, db: Db, r: SignedRequest, cause: ErrorCode, now: int)
    ensures var db' := DenyRequest(c, db, r, cause, now).0; db' == db.(claims := db'.claims)
  {
    hide Authenticate, NewClaim;
  }

  lemma LightPrune(db: Db, now: int)
    ensures var db' := Cleanup(db, now).0; db' == db.(pairings := db'.pairings, claims := db'.claims)
  {
    hide Expire, KeptPairings, KeptClaims, Overdue;
  }

  lemma StepLasts(c: Crypto, db: Db, e: Event)
    ensures Lasts(db, Next(c, db, e))
  {
    if Light(e) {
      hide Next;
      LightStep(c, db, e);
    } else {
      hide Lasts, ApprovePairing, ReplaceGrant, Claim, AdvancePolicy, RevokeDevice, RevokeGrant;
      match e
      case Approve(id, d, transcript, grant, now) => ApproveLasts(c, db, id, d, transcript, grant, now);
      case Replace(grant, now) => ReplaceLasts(c, db, grant, now);
      case KillDevice(id, now) => RevokedDeviceLasts(db, id, now);
      case KillGrant(id, now) => RevokedGrantLasts(db, id, now);
      case Advance(digest, now) => AdvanceLasts(c, db, digest, now);
      case MakeClaim(r, scope, now) => ClaimLasts(c, db, r, scope, now);
    }
  }

  lemma RevokedDeviceLasts(db: Db, id: Id, now: int)
    ensures Lasts(db, RevokeDevice(db, id, now).0)
  {
    LastsReflexive(db);
    hide KeysLast, LineagesLast, RevisionsHold, PoliciesLast;
  }

  lemma RevokedGrantLasts(db: Db, id: Id, now: int)
    ensures Lasts(db, RevokeGrant(db, id, now).0)
  {
    LastsReflexive(db);
    hide KeysLast, DevicesLast, RevisionsHold, PoliciesLast;
  }

  lemma {:induction false} RunLasts(c: Crypto, start: Db, es: seq<Event>, i: nat, n: nat)
    requires i <= n <= |es|
    ensures Lasts(After(c, start, es, i), After(c, start, es, n))
  {
    hide Next;
    if i < n {
      hide Lasts;
      RunLasts(c, start, es, i, n - 1);
      StepLasts(c, After(c, start, es, n - 1), es[n - 1]);
      LastsTransitive(After(c, start, es, i), After(c, start, es, n - 1), After(c, start, es, n));
    }
  }

  // ------------------------------------------------------------------ acceptance and irrevocability

  ghost predicate Accepts(c: Crypto, db: Db, e: Event) {
    e.MakeClaim? && IsTimestamp(e.now) && Judge(c, db, e.request, e.scope, e.now).Accept?
  }

  /** the i-th transaction is a claim that was accepted */
  ghost predicate AcceptedAt(c: Crypto, start: Db, es: seq<Event>, i: nat)
    requires i < |es|
  {
    Accepts(c, After(c, start, es, i), es[i])
  }

  /** Accepts is exactly an accepted ClaimResult. */
  lemma AcceptsMeansResult(c: Crypto, db: Db, r: SignedRequest, scope: Scope, now: int)
    ensures Accepts(c, db, MakeClaim(r, scope, now)) <==>
              (Claim(c, db, r, scope, now).1.Done? && Claim(c, db, r, scope, now).1.value.accepted)
  {
    hide Assess, Authenticate;
  }

  lemma RevokedNow(db: Db, id: Id, now: int)
    ensures RevokeDevice(db, id, now).1.Done? ==>
              id in RevokeDevice(db, id, now).0.devices && RevokeDevice(db, id, now).0.devices[id].revokedAt.Some?
    ensures RevokeGrant(db, id, now).1.Done? ==>
              id in RevokeGrant(db, id, now).0.lineages && RevokeGrant(db, id, now).0.lineages[id].revokedAt.Some?
  {
  }

  /** Once a device is revoked, nothing signed by any of its keys is accepted again. */
  lemma RevokedDeviceNeverAccepted(c: Crypto, start: Db, es: seq<Event>, i: nat, j: nat)
    requires i < j < |es| && es[i].KillDevice? && AcceptedAt(c, start, es, j)
    requires RevokeDevice(After(c, start, es, i), es[i].deviceId, es[i].now).1.Done?
    ensures DeviceOf(After(c, start, es, j), es[j].request.subjectKeyId) != Some(es[i].deviceId)
    ensures es[j].request.subjectKeyId in After(c, start, es, i).keys ==>
              After(c, start, es, i).keys[es[j].request.subjectKeyId].deviceId != es[i].deviceId
  {
    hide Judge, RevokeDevice, RevisionsHold, LineagesLast, PoliciesLast, Spendable, Loads;
    RevokedNow(After(c, start, es, i), es[i].deviceId, es[i].now);
    assert After(c, start, es, i + 1) == RevokeDevice(After(c, start, es, i), es[i].deviceId, es[i].now).0;
    hide Next;
    RunLasts(c, start, es, i, j);
    RunLasts(c, start, es, i + 1, j);
    AcceptedFacts(c, After(c, start, es, j), es[j].request, es[j].scope, es[j].now);
  }

  /** Once a grant is revoked, no claim on any of its revisions is accepted again. */
  lemma RevokedGrantNeverAccepted(c: Crypto, start: Db, es: seq<Event>, i: nat, j: nat)
    requires i < j < |es| && es[i].KillGrant? && AcceptedAt(c, start, es, j)
    requires RevokeGrant(After(c, start, es, i), es[i].grantId, es[i].now).1.Done?
    ensures es[j].request.grantId != es[i].grantId
  {
    hide Judge, RevokeGrant, RevisionsHold, DevicesLast, KeysLast, PoliciesLast, Loads;
    RevokedNow(After(c, start, es, i), es[i].grantId, es[i].now);
    assert After(c, start, es, i + 1) == RevokeGrant(After(c, start, es, i), es[i].grantId, es[i].now).0;
    hide Next;
    RunLasts(c, start, es, i + 1, j);
    AcceptedFacts(c, After(c, start, es, j), es[j].request, es[j].scope, es[j].now);
  }

  /** Once a revision is superseded, no claim on it is accepted again. */
  lemma SupersededNeverAccepted(c: Crypto, start: Db, es: seq<Event>, i: nat, j: nat)
    requires i < j < |es| && es[i].Replace? && AcceptedAt(c, start, es, j)
    requires ReplaceGrant(c, After(c, start, es, i), es[i].grant, es[i].now).1.Done?
    ensures var named := GrantKey(es[j].request.grantId, es[j].request.grantRevision);
            CurrentRevision(After(c, start, es, i), es[i].grant.claims.grantId) != Some(named)
  {
    hide Judge, ReplaceGrant;
    var db := After(c, start, es, i);
    ReplacementFresh(c, db, es[i].grant, es[i].now);
    assert After(c, start, es, i + 1) == ReplaceGrant(c, db, es[i].grant, es[i].now).0;
    RunLasts(c, start, es, i + 1, j);
    AcceptedFacts(c, After(c, start, es, j), es[j].request, es[j].scope, es[j].now);
  }

  /** Once a policy revision is replaced, no claim made under it is accepted again. */
  lemma ReplacedPolicyNeverAccepted(c: Crypto, start: Db, es: seq<Event>, i: nat, j: nat)
    requires i < j < |es| && es[i].Advance? && AcceptedAt(c, start, es, j)
    requires AdvancePolicy(After(c, start, es, i), es[i].policyDigest, es[i].now).1.Done?
    ensures CurrentPolicy(After(c, start, es, i)) != Some(es[j].request.policyRevision)
  {
    hide Judge, AdvancePolicy, RevisionsHold, DevicesLast, KeysLast, LineagesLast, Loads;
    AdvanceFacts(c, After(c, start, es, i), es[i].policyDigest, es[i].now);
    assert After(c, start, es, i + 1) == AdvancePolicy(After(c, start, es, i), es[i].policyDigest, es[i].now).0;
    hide Next, CurrentPolicy;
    RunLasts(c, start, es, i + 1, j);
    AcceptedFacts(c, After(c, start, es, j), es[j].request, es[j].scope, es[j].now);
  }

  // ------------------------------------------------------------------ replay safety across pruning

  ghost predicate Recorded(db: Db, id: Id, at: int) {
    id in db.claims && db.claims[id].claimedAt == at
  }

  /** only claims, denials, completions and cleanups touch the claims table */
  lemma ClaimsUntouched(c: Crypto, db: Db, e: Event)
    requires !e.MakeClaim? && !e.MakeDenial? && !e.Complete? && !e.Prune?
    ensures Next(c, db, e).claims == db.claims
  {
    hide BeginPairing, PairingState, PairingById, ApprovePairing, ReplaceGrant, AdvancePolicy, ApprovalDone;
    match e
    case OpenPairing(init, challenge, now) =>
      if BeginPairing(c, db, init, challenge, now).1.Done? {
        OpenedFacts(c, db, init, challenge, now);
      } else {
        FailedOpening(c, db, init, challenge, now);
      }
    case ShowPairing(init, now) => LightShow(c, db, init, now);
    case InspectPairing(id, now) => LightInspect(c, db, id, now);
    case Approve(p, d, transcript, grant, now) =>
      if ApprovalDone(c, db, p, d, transcript, grant, now) {
        ApprovalFacts(c, db, p, d, transcript, grant, now);
      } else {
        FailedApproval(c, db, p, d, transcript, grant, now);
      }
    case Replace(grant, now) =>
      if ReplaceGrant(c, db, grant, now).1.Done? {
        ReplacementFacts(c, db, grant, now);
      } else {
        FailedReplacement(c, db, grant, now);
      }
    case Advance(digest, now) => AdvanceFacts(c, db, digest, now);
    case _ =>
  }

  /** the claims table is as it was, or has one new row */
  ghost predicate AddsClaim(before: map<Id, ClaimRow>, after: map<Id, ClaimRow>, id: Id) {
    after == before || (id !in before && id in after && after == before[id := after[id]])
  }

  /** A recorded claim stays with its time, unless this is a cleanup more than the retention later. */
  lemma StepRecorded(c: Crypto, db: Db, e: Event, id: Id, at: int)
    requires Recorded(db, id, at) && 0 <= at
    ensures Recorded(Next(c, db, e), id, at) || (e.Prune? && e.now > at + RETENTION_SECONDS)
  {
    hide Claim, DenyRequest, CompleteClaim, Cleanup, BeginPairing, ApprovePairing, ReplaceGrant, AdvancePolicy;
    match e
    case MakeClaim(r, scope, now) => ClaimColumns(c, db, r, scope, now);
    case MakeDenial(r, cause, now) => DenialColumns(c, db, r, cause, now);
    case Complete(r, digest, now) => CompletionKeepsTime(db, r, digest, now, id);
    case Prune(now) => PruneKeepsRecent(db, now, id);
    case _ =>
      hide Next;
      ClaimsUntouched(c, db, e);
  }

  lemma CompletionKeepsTime(db: Db, r: Id, digest: string, now: int, id: Id)
    requires id in db.claims
    ensures var after := CompleteClaim(db, r, digest, now).0.claims;
            id in after && after[id].claimedAt == db.claims[id].claimedAt
  {
  }

  /** cleanup drops a claim exactly when it is older than the retention window */
  lemma PruneKeepsRecent(db: Db, now: int, id: Id)
    requires id in db.claims
    ensures var after := Cleanup(db, now).0.claims;
            && (id in after <==> !IsTimestamp(now) || db.claims[id].claimedAt >= Cutoff(now))
            && (id in after ==> after[id] == db.claims[id])
  {
    hide Expire, PairingKept, Cutoff;
  }

  lemma DenialColumns(c: Crypto, db: Db, r: SignedRequest, cause: ErrorCode, now: int)
    ensures AddsClaim(db.claims, DenyRequest(c, db, r, cause, now).0.claims, r.requestId)
  {
    DenialDb(c, db, r, cause, now);
    hide DenyRequest, DeviceOf;
  }

  lemma DenialDb(c: Crypto, db: Db, r: SignedRequest, cause: ErrorCode, now: int)
    ensures var after := DenyRequest(c, db, r, cause, now).0;
            after == db || (r.requestId !in db.claims && DeviceOf(db, r.subjectKeyId).Some? &&
                            after == RecordDenial(db, r, cause, now))
  {
    AuthenticDevice(c, db, r);
    hide Authenticate, DeviceOf, RecordDenial;
  }

  lemma AuthenticDevice(c: Crypto, db: Db, r: SignedRequest)
    ensures Authenticate(c, db, r).Accept? ==> DeviceOf(db, r.subjectKeyId).Some?
  {
    hide DeviceOf;
  }

  /** A recorded claim is still there after a run, or `m` is a cleanup that came after the retention window. */
  lemma {:induction false} RunRecorded(c: Crypto, start: Db, es: seq<Event>, i: nat, n: nat, id: Id, at: int)
    returns (m: nat)
    requires i <= n <= |es|
    requires Recorded(After(c, start, es, i), id, at) && 0 <= at
    ensures Recorded(After(c, start, es, n), id, at)
            || (i <= m < n && es[m].Prune? && es[m].now > at + RETENTION_SECONDS)
  {
    hide Next;
    m := i;
    if i < n {
      m := RunRecorded(c, start, es, i, n - 1, id, at);
      if Recorded(After(c, start, es, n - 1), id, at) {
        StepRecorded(c, After(c, start, es, n - 1), es[n - 1], id, at);
        m := n - 1;
      }
    }
  }

  /** Two accepted claims on one request identifier are more than the retention window apart. */
  lemma AcceptedApart(c: Crypto, start: Db, es: seq<Event>, i: nat, j: nat)
    requires PrunesPrecede(es) && i < j < |es|
    requires AcceptedAt(c, start, es, i) && AcceptedAt(c, start, es, j)
    requires es[i].request.requestId == es[j].request.requestId
    ensures es[j].now > es[i].now + RETENTION_SECONDS
  {
    hide Judge;
    var r := es[i].request;
    AcceptedFacts(c, After(c, start, es, i), r, es[i].scope, es[i].now);
    assert After(c, start, es, i + 1) == SpendOne(After(c, start, es, i), r, es[i].now);
    hide Next;
    var m := RunRecorded(c, start, es, i + 1, j, r.requestId, es[i].now);
    AcceptedFacts(c, After(c, start, es, j), es[j].request, es[j].scope, es[j].now);
  }

  /** No signed request is accepted twice, wherever cleanups fall: its life plus the clock skew is
      shorter than the retention window. */
  lemma NoRequestAcceptedTwice(c: Crypto, start: Db, es: seq<Event>, i: nat, j: nat)
    requires PrunesPrecede(es) && Run(c, es) && i < |es| && j < |es|
    requires AcceptedAt(c, start, es, i) && AcceptedAt(c, start, es, j)
    requires es[i].request == es[j].request
    ensures i == j
  {
    hide Judge, Next;
    var r := es[i].request;
    AcceptedFacts(c, After(c, start, es, i), r, es[i].scope, es[i].now);
    AcceptedFacts(c, After(c, start, es, j), r, es[j].scope, es[j].now);
    assert WellFormed(c, es[i]);
    if i < j { AcceptedApart(c, start, es, i, j); }
    if j < i { AcceptedApart(c, start, es, j, i); }
  }

  // ------------------------------------------------------------------ pairing replay safety

  ghost predicate OpenedAt(c: Crypto, start: Db, es: seq<Event>, i: nat)
    requires i < |es|
  {
    es[i].OpenPairing? && BeginPairing(c, After(c, start, es, i), es[i].init, es[i].challenge, es[i].now).1.Done?
  }

  /** the pairing is stored, and if it was decided that happened no earlier than `since` */
  ghost predicate Stored(db: Db, p: Id, since: int) {
    p in db.pairings && (db.pairings[p].decidedAt.Some? ==> since <= db.pairings[p].decidedAt.value)
  }

  /** only these touch the pairings table */
  predicate TouchesPairings(e: Event) {
    e.OpenPairing? || e.ShowPairing? || e.InspectPairing? || e.Approve? || e.Decline? || e.Prune?
  }

  lemma PairingsUntouched(c: Crypto, db: Db, e: Event)
    requires !TouchesPairings(e)
    ensures Next(c, db, e).pairings == db.pairings
  {
    hide ReplaceGrant, AdvancePolicy, Claim, Authenticate;
    match e
    case Replace(grant, now) =>
      if ReplaceGrant(c, db, grant, now).1.Done? {
        ReplacementFacts(c, db, grant, now);
      } else {
        FailedReplacement(c, db, grant, now);
      }
    case Advance(digest, now) => AdvanceFacts(c, db, digest, now);
    case MakeClaim(r, scope, now) => ClaimColumns(c, db, r, scope, now);
    case _ =>
  }

  lemma ClaimColumns(c: Crypto, db: Db, r: SignedRequest, scope: Scope, now: int)
    ensures Claim(c, db, r, scope, now).0.pairings == db.pairings
    ensures AddsClaim(db.claims, Claim(c, db, r, scope, now).0.claims, r.requestId)
  {
    if !IsTimestamp(now) {
    } else if Judge(c, db, r, scope, now).Accept? {
      AcceptedFacts(c, db, r, scope, now);
      hide Judge;
    } else {
      hide Assess, Authenticate;
    }
  }

  /** One stored pairing across one transaction: it is untouched, closed, approved, opened or pruned. */
  ghost predicate RowStep(c: Crypto, db: Db, e: Event, p: Id, after: map<Id, PairingRow>) {
    if p !in db.pairings then
      p in after ==>
        && e.OpenPairing? && BeginPairing(c, db, e.init, e.challenge, e.now).1.Done?
        && e.init.pairingId == p && after[p] == NewPairing(c, e.init, e.challenge)
    else if p !in after then
      e.Prune? && db.pairings[p] == ExpireRow(db.pairings[p], e.now)
      && db.pairings[p].decidedAt.Some? && db.pairings[p].decidedAt.value < Cutoff(e.now)
    else
      || after[p] == db.pairings[p]
      || (db.pairings[p].decision.Pending?
          && after[p].exchange == db.pairings[p].exchange && after[p].decidedAt == Some(e.now)
          && !after[p].decision.Pending?
          && (after[p].decision.Approved? ==>
                e.Approve? && e.pairingId == p
                && ApprovalDone(c, db, p, e.deviceId, e.transcript, e.grant, e.now)))
  }

  lemma SweptRow(c: Crypto, db: Db, e: Event, p: Id)
    ensures RowStep(c, db, e, p, Expire(db, e.now).pairings)
  {
    hide BeginPairing, ApprovalDone;
  }

  lemma OpenRowStep(c: Crypto, db: Db, e: Event, p: Id)
    requires e.OpenPairing?
    ensures RowStep(c, db, e, p, Next(c, db, e).pairings)
  {
    hide BeginPairing, ApprovalDone, NewPairing;
    SweptRow(c, db, e, p);
    if BeginPairing(c, db, e.init, e.challenge, e.now).1.Done? {
      OpenedFacts(c, db, e.init, e.challenge, e.now);
    } else {
      FailedOpening(c, db, e.init, e.challenge, e.now);
    }
  }

  lemma ApproveRowStep(c: Crypto, db: Db, e: Event, p: Id)
    requires e.Approve?
    ensures RowStep(c, db, e, p, Next(c, db, e).pairings)
  {
    hide ApprovePairing, ApprovalDone, BeginPairing;
    if ApprovalDone(c, db, e.pairingId, e.deviceId, e.transcript, e.grant, e.now) {
      ApprovalFacts(c, db, e.pairingId, e.deviceId, e.transcript, e.grant, e.now);
    } else {
      FailedApproval(c, db, e.pairingId, e.deviceId, e.transcript, e.grant, e.now);
    }
  }

  lemma PruneRowStep(c: Crypto, db: Db, e: Event, p: Id)
    requires e.Prune?
    ensures RowStep(c, db, e, p, Cleanup(db, e.now).0.pairings)
  {
    hide BeginPairing, ApprovalDone, ExpireRow, Cleanup, Cutoff, IsTimestamp;
    SweptRow(c, db, e, p);
    PrunedRow(db, e.now, p);
  }

  /** what cleanup does to one pairing: it is swept, and then kept or dropped */
  lemma PrunedRow(db: Db, now: int, p: Id)
    ensures var after := Cleanup(db, now).0.pairings;
            && (p in after ==> p in db.pairings && after[p] in {db.pairings[p], ExpireRow(db.pairings[p], now)})
            && (p in db.pairings && p !in after ==>
                  && ExpireRow(db.pairings[p], now) == db.pairings[p]
                  && db.pairings[p].decidedAt.Some? && db.pairings[p].decidedAt.value < Cutoff(now))
  {
    hide Expire, KeptClaims, Overdue;
    if IsTimestamp(now) {
      var swept := Expire(db, now).pairings;
      assert Cleanup(db, now).0.pairings == KeptPairings(swept, now);
      SweptTo(db, now, p);
    }
  }

  lemma SweptTo(db: Db, now: int, p: Id)
    ensures p in Expire(db, now).pairings <==> p in db.pairings
    ensures p in db.pairings ==> Expire(db, now).pairings[p] == ExpireRow(db.pairings[p], now)
  {
  }

  lemma DeclineRowStep(c: Crypto, db: Db, e: Event, p: Id)
    requires e.Decline?
    ensures RowStep(c, db, e, p, DenyPairing(db, e.pairingId, e.now).0.pairings)
  {
    hide BeginPairing, ApprovalDone, DenyPairing;
    DeclinedRow(db, e.pairingId, e.now, p);
  }

  lemma DeclinedRow(db: Db, q: Id, now: int, p: Id)
    ensures var after := DenyPairing(db, q, now).0.pairings;
            if p !in db.pairings then p !in after
            else
              p in after && (after[p] == db.pairings[p]
                || (db.pairings[p].decision.Pending?
                    && after[p] == db.pairings[p].(decision := Denied, decidedAt := Some(now))))
  {
  }

  /** Every transaction moves every pairing row as RowStep says. */
  lemma StepRow(c: Crypto, db: Db, e: Event, p: Id)
    ensures RowStep(c, db, e, p, Next(c, db, e).pairings)
  {
    hide BeginPairing, ApprovalDone, PairingState, PairingById, RowStep, Cleanup, DenyPairing;
    match e
    case OpenPairing(_, _, _) => OpenRowStep(c, db, e, p);
    case ShowPairing(init, now) =>
      LightShow(c, db, init, now);
      SweptRow(c, db, e, p);
      SameRowStep(c, db, e, p);
    case InspectPairing(id, now) =>
      LightInspect(c, db, id, now);
      SweptRow(c, db, e, p);
      SameRowStep(c, db, e, p);
    case Approve(_, _, _, _, _) => ApproveRowStep(c, db, e, p);
    case Prune(_) => PruneRowStep(c, db, e, p);
    case Decline(_, _) => DeclineRowStep(c, db, e, p);
    case _ =>
      PairingsUntouched(c, db, e);
      SameRowStep(c, db, e, p);
  }

  lemma SameRowStep(c: Crypto, db: Db, e: Event, p: Id)
    ensures RowStep(c, db, e, p, db.pairings)
  {
  }

  lemma StepStored(c: Crypto, db: Db, e: Event, p: Id, since: int)
    requires Stored(db, p, since) && 0 <= since <= e.now
    ensures Stored(Next(c, db, e), p, since) || e.now > since + RETENTION_SECONDS
  {
    hide Next, BeginPairing, ApprovalDone;
    StepRow(c, db, e, p);
  }

  lemma {:induction false} RunStored(c: Crypto, start: Db, es: seq<Event>, i: nat, n: nat, p: Id, since: int)
    requires Ordered(es) && i <= n < |es|
    requires Stored(After(c, start, es, i), p, since) && 0 <= since <= es[i].now
    ensures Stored(After(c, start, es, n), p, since) || es[n].now > since + RETENTION_SECONDS
  {
    hide Next;
    if i < n {
      RunStored(c, start, es, i, n - 1, p, since);
      if Stored(After(c, start, es, n - 1), p, since) {
        StepStored(c, After(c, start, es, n - 1), es[n - 1], p, since);
      }
    }
  }

  /** Each signed PairingInit gets at most one stored challenge, wherever cleanups fall. */
  lemma NoInitOpenedTwice(c: Crypto, start: Db, es: seq<Event>, i: nat, j: nat)
    requires Ordered(es) && Run(c, es) && i < |es| && j < |es|
    requires OpenedAt(c, start, es, i) && OpenedAt(c, start, es, j)
    requires es[i].init == es[j].init
    ensures i == j
  {
    hide BeginPairing;
    OpenedFacts(c, After(c, start, es, i), es[i].init, es[i].challenge, es[i].now);
    OpenedFacts(c, After(c, start, es, j), es[j].init, es[j].challenge, es[j].now);
    assert WellFormed(c, es[i]);
    var p := es[i].init.pairingId;
    if i < j { RunStored(c, start, es, i + 1, j, p, es[i].now); }
    if j < i { RunStored(c, start, es, j + 1, i, p, es[j].now); }
  }

  /** Every stored pairing was opened by some earlier transaction with exactly its init and challenge. */
  lemma {:induction false} PairingOrigin(c: Crypto, start: Db, es: seq<Event>, n: nat, p: Id) returns (h: nat)
    requires start.pairings == map[] && n <= |es| && p in After(c, start, es, n).pairings
    ensures h < n && OpenedAt(c, start, es, h)
    ensures es[h].init == After(c, start, es, n).pairings[p].exchange.init && es[h].init.pairingId == p
    ensures es[h].challenge == After(c, start, es, n).pairings[p].exchange.challenge
    decreases n
  {
    hide Next, BeginPairing, ApprovalDone;
    StepRow(c, After(c, start, es, n - 1), es[n - 1], p);
    if p in After(c, start, es, n - 1).pairings
       && After(c, start, es, n).pairings[p].exchange == After(c, start, es, n - 1).pairings[p].exchange {
      h := PairingOrigin(c, start, es, n - 1, p);
    } else {
      h := n - 1;
    }
  }

  ghost predicate ApprovedAt(c: Crypto, start: Db, es: seq<Event>, i: nat)
    requires i < |es|
  {
    es[i].Approve? && ApprovalDone(c, After(c, start, es, i), es[i].pairingId, es[i].deviceId, es[i].transcript,
                                   es[i].grant, es[i].now)
  }

  /** Every approved pairing was approved by one earlier transaction, whose row it still is. */
  lemma {:induction false} ApprovalOrigin(c: Crypto, start: Db, es: seq<Event>, n: nat, p: Id) returns (h: nat)
    requires start.pairings == map[] && n <= |es|
    requires p in After(c, start, es, n).pairings && After(c, start, es, n).pairings[p].decision.Approved?
    ensures h < n && ApprovedAt(c, start, es, h) && es[h].pairingId == p
    ensures p in After(c, start, es, h + 1).pairings
    ensures After(c, start, es, n).pairings[p] == After(c, start, es, h + 1).pairings[p]
    ensures p in After(c, start, es, h).pairings
    ensures After(c, start, es, n).pairings[p].exchange == After(c, start, es, h).pairings[p].exchange
    decreases n
  {
    hide Next, BeginPairing, ApprovalDone, NewPairing;
    assert n > 0;
    NewIsPending(c, es[n - 1]);
    StepRow(c, After(c, start, es, n - 1), es[n - 1], p);
    if p in After(c, start, es, n - 1).pairings && After(c, start, es, n - 1).pairings[p].decision.Approved? {
      h := ApprovalOrigin(c, start, es, n - 1, p);
    } else {
      h := n - 1;
    }
  }

  lemma NewIsPending(c: Crypto, e: Event)
    ensures e.OpenPairing? ==> NewPairing(c, e.init, e.challenge).decision.Pending?
  {
  }

  /** the grant an approval stored is still the one its row names */
  lemma ApprovedGrantStays(c: Crypto, start: Db, es: seq<Event>, h: nat, n: nat)
    requires h < n <= |es| && ApprovedAt(c, start, es, h)
    ensures var k := GrantKey(es[h].grant.claims.grantId, 1);
            && es[h].pairingId in After(c, start, es, h + 1).pairings
            && After(c, start, es, h + 1).pairings[es[h].pairingId].grant == Some(k)
            && After(c, start, es, h + 1).pairings[es[h].pairingId].transcript == Some(es[h].transcript)
            && k in After(c, start, es, n).revisions
            && After(c, start, es, n).revisions[k].stored.record == es[h].grant
  {
    hide ApprovePairing, ApprovalDone, VerifyGrant, ExchangeLoads, DevicesLast, KeysLast, LineagesLast, PoliciesLast;
    var db, e := After(c, start, es, h), es[h];
    ApprovalFacts(c, db, e.pairingId, e.deviceId, e.transcript, e.grant, e.now);
    assert After(c, start, es, h + 1) == ApprovedDb(c, db, e.pairingId, e.deviceId, e.transcript, e.grant, e.now);
    hide Next;
    RunLasts(c, start, es, h + 1, n);
  }

  /** After its approval, a stored pairing with that init is an approved one. */
  lemma {:induction false} StaysApproved(c: Crypto, start: Db, es: seq<Event>, i: nat, n: nat, p: Id, init: PairingInit)
    requires start.pairings == map[] && Ordered(es) && Run(c, es) && i < n <= |es|
    requires ApprovedAt(c, start, es, i) && es[i].pairingId == p
    requires After(c, start, es, i).pairings[p].exchange.init == init
    requires p in After(c, start, es, n).pairings && After(c, start, es, n).pairings[p].exchange.init == init
    ensures After(c, start, es, n).pairings[p].decision.Approved?
    decreases n
  {
    hide Next, BeginPairing, ApprovalDone;
    var db := After(c, start, es, i);
    ApprovalFacts(c, db, p, es[i].deviceId, es[i].transcript, es[i].grant, es[i].now);
    if n == i + 1 {
      ApprovedNext(c, db, es[i]);
    } else {
      StepRow(c, After(c, start, es, n - 1), es[n - 1], p);
      if p in After(c, start, es, n - 1).pairings
         && After(c, start, es, n).pairings[p].exchange == After(c, start, es, n - 1).pairings[p].exchange {
        StaysApproved(c, start, es, i, n - 1, p, init);
      } else {
        var h := PairingOrigin(c, start, es, i, p);
        assert OpenedAt(c, start, es, n - 1);
        NoInitOpenedTwice(c, start, es, h, n - 1);
      }
    }
  }

  lemma ApprovedNext(c: Crypto, db: Db, e: Event)
    requires e.Approve? && ApprovalDone(c, db, e.pairingId, e.deviceId, e.transcript, e.grant, e.now)
    ensures e.pairingId in Next(c, db, e).pairings && Next(c, db, e).pairings[e.pairingId].decision.Approved?
  {
    hide ApprovalDone, ApprovePairing;
    ApprovalFacts(c, db, e.pairingId, e.deviceId, e.transcript, e.grant, e.now);
  }

  /** No signed PairingInit is approved twice, wherever cleanups fall. */
  lemma NoInitApprovedTwice(c: Crypto, start: Db, es: seq<Event>, i: nat, j: nat)
    requires start.pairings == map[] && Ordered(es) && Run(c, es) && i < j < |es|
    requires ApprovedAt(c, start, es, i) && ApprovedAt(c, start, es, j)
    ensures After(c, start, es, i).pairings[es[i].pairingId].exchange.init
            != After(c, start, es, j).pairings[es[j].pairingId].exchange.init
  {
    hide Next, ApprovalDone;
    var di, dj := After(c, start, es, i), After(c, start, es, j);
    ApprovalFacts(c, di, es[i].pairingId, es[i].deviceId, es[i].transcript, es[i].grant, es[i].now);
    ApprovalFacts(c, dj, es[j].pairingId, es[j].deviceId, es[j].transcript, es[j].grant, es[j].now);
    if di.pairings[es[i].pairingId].exchange.init == dj.pairings[es[j].pairingId].exchange.init {
      StaysApproved(c, start, es, i, j, es[i].pairingId, di.pairings[es[i].pairingId].exchange.init);
    }
  }

  // ------------------------------------------------------------------ quota conservation

  ghost predicate SpendsOn(c: Crypto, db: Db, e: Event, k: GrantKey) {
    Accepts(c, db, e) && GrantKey(e.request.grantId, e.request.grantRevision) == k
  }

  /** accepted claims on one grant revision among the first n transactions */
  ghost function Uses(c: Crypto, start: Db, es: seq<Event>, k: GrantKey, n: nat): nat
    requires n <= |es|
  {
    if n == 0 then 0
    else Uses(c, start, es, k, n - 1) + (if SpendsOn(c, After(c, start, es, n - 1), es[n - 1], k) then 1 else 0)
  }

  ghost function CountOf(db: Db, k: GrantKey): int {
    if k in db.revisions then db.revisions[k].usedCount else 0
  }

  /** A step changes one revision's counter only by an accepted claim on it, and then by one. */
  lemma StepCounts(c: Crypto, db: Db, e: Event, k: GrantKey)
    ensures CountOf(Next(c, db, e), k) == CountOf(db, k) + if SpendsOn(c, db, e, k) then 1 else 0
  {
    hide VerifyInit, VerifyChallenge, PairingConflict, PairingLoads, ExchangeLoads, VerifyGrant, Loads, Authenticate,
         DeviceConflict, CurrentPolicy, Judge, ReplaceGrant, Claim, ApprovePairing;
    match e
    case MakeClaim(r, scope, now) => ClaimCounts(c, db, r, scope, now, k);
    case Replace(grant, now) => ReplaceCounts(c, db, grant, now, k);
    case Approve(p, d, transcript, grant, now) => ApproveCounts(c, db, p, d, transcript, grant, now, k);
    case _ =>
  }

  lemma ClaimCounts(c: Crypto, db: Db, r: SignedRequest, scope: Scope, now: int, k: GrantKey)
    ensures CountOf(Claim(c, db, r, scope, now).0, k) ==
              CountOf(db, k) + if SpendsOn(c, db, MakeClaim(r, scope, now), k) then 1 else 0
  {
    hide Judge;
    if IsTimestamp(now) && Judge(c, db, r, scope, now).Accept? {
      AcceptedFacts(c, db, r, scope, now);
    } else {
      RefusedClaim(c, db, r, scope, now);
    }
  }

  lemma ReplaceCounts(c: Crypto, db: Db, grant: SignedGrant, now: int, k: GrantKey)
    ensures CountOf(ReplaceGrant(c, db, grant, now).0, k) == CountOf(db, k)
  {
    hide ReplaceGrant, Loads;
    if ReplaceGrant(c, db, grant, now).1.Done? {
      ReplacementFacts(c, db, grant, now);
      ReplacementFresh(c, db, grant, now);
    } else {
      FailedReplacement(c, db, grant, now);
    }
  }

  lemma ApproveCounts(
    c: Crypto, db: Db, p: Id, d: Id, transcript: string, grant: SignedGrant, now: int, k: GrantKey)
    ensures CountOf(ApprovePairing(c, db, p, d, transcript, grant, now).0, k) == CountOf(db, k)
  {
    hide ExchangeLoads, VerifyGrant, DeviceConflict, CurrentPolicy, TranscriptOf;
  }

  /** Over any run from a database without grants, a revision's counter is the number of claims
      accepted on it, and never more than its quota. */
  lemma {:induction false} UsesCounted(c: Crypto, start: Db, es: seq<Event>, k: GrantKey, n: nat)
    requires start.revisions == map[] && n <= |es|
    ensures CountOf(After(c, start, es, n), k) == Uses(c, start, es, k, n)
  {
    hide Next, SpendsOn;
    if n > 0 {
      UsesCounted(c, start, es, k, n - 1);
      StepCounts(c, After(c, start, es, n - 1), es[n - 1], k);
    }
  }

  lemma QuotaNeverExceeded(c: Crypto, policyDigest: string, created: int, es: seq<Event>, k: GrantKey, n: nat)
    requires Run(c, es) && n <= |es|
    ensures var start := Initial(policyDigest, created);
            var db := After(c, start, es, n);
            k in db.revisions ==> Uses(c, start, es, k, n) <= ClaimsOf(db, k).maxUses
    ensures var start := Initial(policyDigest, created);
            k !in After(c, start, es, n).revisions ==> Uses(c, start, es, k, n) == 0
  {
    hide Next, Uses, PoliciesOk, DevicesOk, LineagesOk, GrantOk, QueueOk, PairingsOk, ClaimsOk;
    var start := Initial(policyDigest, created);
    RunOpens(c, policyDigest, created, es, n);
    UsesCounted(c, start, es, k, n);
    var db := After(c, start, es, n);
    if k in db.revisions {
      var held := Held(db.revisions);
      assert k in held;
      assert GrantOk(c, db.keys, db.policies.Keys, Owners(db.lineages), held, db.scopes, k);
      OpensGrant(c, db, k);
      assert Projected(c, k, db.revisions[k].stored, db.scopes[k]);
    }
  }

  /** The (k+1)-th accepted claim on a revision is told it is use k+1 with max_uses-(k+1) left. */
  lemma KthUseNumbered(c: Crypto, start: Db, es: seq<Event>, i: nat)
    requires start.revisions == map[] && i < |es| && AcceptedAt(c, start, es, i)
    ensures var db := After(c, start, es, i);
            var k := GrantKey(es[i].request.grantId, es[i].request.grantRevision);
            var before := Uses(c, start, es, k, i);
            var reply := Claim(c, db, es[i].request, es[i].scope, es[i].now).1;
            && k in db.revisions
            && reply.Done?
            && reply.value.usage == Some(ReceiptUsage(before + 1, ClaimsOf(db, k).maxUses - (before + 1)))
  {
    hide Judge, Claim, Next, Uses, After, CountOf;
    var db, r := After(c, start, es, i), es[i].request;
    NextUse(c, db, r, es[i].scope, es[i].now);
    UsesCounted(c, start, es, GrantKey(r.grantId, r.grantRevision), i);
  }

  lemma NextUse(c: Crypto, db: Db, r: SignedRequest, scope: Scope, now: int)
    requires IsTimestamp(now) && Judge(c, db, r, scope, now).Accept?
    ensures var k := GrantKey(r.grantId, r.grantRevision);
            var reply := Claim(c, db, r, scope, now).1;
            && k in db.revisions
            && reply.Done?
            && reply.value.usage ==
               Some(ReceiptUsage(CountOf(db, k) + 1, ClaimsOf(db, k).maxUses - (CountOf(db, k) + 1)))
  {
    AcceptedFacts(c, db, r, scope, now);
    hide Judge;
    var k := GrantKey(r.grantId, r.grantRevision);
    assert Projected(c, k, db.revisions[k].stored, db.scopes[k]) by { hide Spendable, Projected; }
  }

  function Refilled(db: Db, k: GrantKey): Db
    requires k in db.revisions
  {
    db.(revisions := db.revisions[k := db.revisions[k].(usedCount := 0)])
  }

  /** refilling a counter changes no query */
  lemma RefilledQueries(c: Crypto, db: Db, k: GrantKey, g: Id)
    requires Inv(c, db) && k in db.revisions
    ensures var full := Refilled(db, k);
            && CurrentPolicy(full) == CurrentPolicy(db) && CurrentPolicy(db).Some?
            && LivePolicy(db, CurrentPolicy(db).value)
            && (g in db.lineages ==> CurrentRevision(full, g) == CurrentRevision(db, g) && CurrentRevision(db, g).Some?)
  {
    hide DevicesOk, GrantsOk, QuotasOk, QueueOk, PairingsOk, ClaimsOk, CurrentPolicy, CurrentRevision, RevisionsAre;
    var full := Refilled(db, k);
    assert Live(full.revisions) == Live(db.revisions);
    var n :| PoliciesAre(db.policies, n);
    CurrentPolicyIs(db, n);
    CurrentPolicyIs(full, n);
    if g in db.lineages {
      assert g in Owners(db.lineages) && Chained(Live(db.revisions), g);
      var m :| RevisionsAre(Live(db.revisions), g, m);
      CurrentRevisionIs(db, g, m);
      CurrentRevisionIs(full, g, m);
    }
  }

  lemma QuotaFacts(c: Crypto, db: Db, k: GrantKey)
    requires Inv(c, db) && k in db.revisions
    ensures 0 <= db.revisions[k].usedCount <= ClaimsOf(db, k).maxUses
    ensures 1 <= ClaimsOf(db, k).maxUses && db.revisions[k].stored.maxUses == ClaimsOf(db, k).maxUses
  {
    hide PoliciesOk, DevicesOk, LineagesOk, QueueOk, PairingsOk, ClaimsOk;
    assert k in Held(db.revisions);
  }

  /** Once every other check has passed, the guard on the update depends on the counter alone. */
  lemma GuardIsQuota(c: Crypto, db: Db, r: SignedRequest, scope: Scope)
    requires CurrentRevision(db, r.grantId).Some? && CurrentRevision(db, r.grantId).value.revision == r.grantRevision
    requires Loads(c, db, CurrentRevision(db, r.grantId).value)
    requires scope in ClaimsOf(db, CurrentRevision(db, r.grantId).value).scopes
    requires LivePolicy(db, r.policyRevision)
    requires r.grantId in db.lineages && db.lineages[r.grantId].revokedAt.None?
    ensures GrantKey(r.grantId, r.grantRevision) in db.revisions
    ensures var row := db.revisions[GrantKey(r.grantId, r.grantRevision)];
            Spendable(db, r, scope) <==> row.usedCount < row.stored.maxUses
  {
    hide CurrentRevision;
    CurrentRevisionMember(db, r.grantId);
  }

  lemma CurrentRevisionMember(db: Db, g: Id)
    ensures CurrentRevision(db, g).Some? ==>
              CurrentRevision(db, g).value.grantId == g && IsLiveKey(db, CurrentRevision(db, g).value)
  {
  }

  /** a refilled counter changes an assessment only from exhausted to accepted */
  lemma SameAssessment(c: Crypto, db: Db, r: SignedRequest, scope: Scope, now: int)
    requires Inv(c, db) && GrantKey(r.grantId, r.grantRevision) in db.revisions && DeviceOf(db, r.subjectKeyId).Some?
    ensures var k := GrantKey(r.grantId, r.grantRevision);
            var full := Refilled(db, k);
            && DeviceOf(full, r.subjectKeyId).Some?
            && (Assess(c, db, r, scope, now) == Refuse(GrantLimitExhausted) <==>
                  db.revisions[k].usedCount == ClaimsOf(db, k).maxUses && Assess(c, full, r, scope, now).Accept?)
  {
    hide Inv, CurrentPolicy, CurrentRevision, Projected, Spendable;
    var k := GrantKey(r.grantId, r.grantRevision);
    var full := Refilled(db, k);
    RefilledQueries(c, db, k, r.grantId);
    QuotaFacts(c, db, k);
    var current := CurrentRevision(db, r.grantId);
    if r.grantId in db.lineages && db.lineages[r.grantId].revokedAt.None? && current.value.revision == r.grantRevision
       && Loads(c, db, current.value) && scope in ClaimsOf(db, current.value).scopes
       && r.policyRevision == CurrentPolicy(db).value {
      GuardIsQuota(c, db, r, scope);
      GuardIsQuota(c, full, r, scope);
    }
  }

  /** GRANT_LIMIT_EXHAUSTED is exact: the guarded UPDATE misses only on a spent quota, when the same
      request would be accepted had no use been spent. */
  lemma ExhaustedIsExact(c: Crypto, db: Db, r: SignedRequest, scope: Scope, now: int)
    requires Inv(c, db)
    ensures Judge(c, db, r, scope, now) == Refuse(GrantLimitExhausted) <==>
              && GrantKey(r.grantId, r.grantRevision) in db.revisions
              && db.revisions[GrantKey(r.grantId, r.grantRevision)].usedCount
                 == ClaimsOf(db, GrantKey(r.grantId, r.grantRevision)).maxUses
              && Judge(c, Refilled(db, GrantKey(r.grantId, r.grantRevision)), r, scope, now).Accept?
  {
    hide Inv, Assess;
    var k := GrantKey(r.grantId, r.grantRevision);
    if k in db.revisions && DeviceOf(db, r.subjectKeyId).Some? {
      SameAssessment(c, db, r, scope, now);
    } else if Judge(c, db, r, scope, now) == Refuse(GrantLimitExhausted) {
      ExhaustedIsStored(c, db, r, scope, now);
    }
  }

  lemma ExhaustedIsStored(c: Crypto, db: Db, r: SignedRequest, scope: Scope, now: int)
    requires DeviceOf(db, r.subjectKeyId).Some? && Assess(c, db, r, scope, now) == Refuse(GrantLimitExhausted)
    ensures GrantKey(r.grantId, r.grantRevision) in db.revisions
  {
    hide CurrentPolicy, CurrentRevision, Projected, Spendable;
    CurrentRevisionMember(db, r.grantId);
  }
}
