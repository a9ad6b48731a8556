/** How the foreground service uses the store for pairing (connector/service.py): the challenge it makes,
    the resolution it answers with and the grant it approves. */
module Service {
  import opened Prelude
  import opened Limits
  import opened Errors
  import opened Records
  import opened Trust
  import opened Store
  import opened StoreInvariant
  import opened StoreRun
  import opened Profiles

  /** the Connector's signatures on challenges, grants and completions verify under its own key, which decodes to its
      own identifier */
  ghost predicate OwnKey(c: Crypto, sign: SignedRecord -> Bytes) {
    && c.keyId(c.connectorKey) == Some(c.connectorKeyId)
    && (forall r: PairingChallenge ::
          c.verifies(c.connectorKey, ChallengeRecord(r.(signature := sign(ChallengeRecord(r))))))
    && (forall r: SignedGrant :: c.verifies(c.connectorKey, GrantRecord(r.(signature := sign(GrantRecord(r))))))
    && (forall r: PairingComplete ::
          c.verifies(c.connectorKey, CompleteRecord(r.(signature := sign(CompleteRecord(r))))))
  }

  /** the certificate the service holds while it is unlocked */
  datatype Material = Material(caDer: string, caFingerprint: string, leaf: string)

  /** what it draws for one reply: message identifiers and a nonce */
  datatype Fresh = Fresh(messageId: Id, nonce: string, completeId: Id)

  /** create_pairing_challenge as _handle_pairing calls it */
  function ChallengeFor(
    c: Crypto, sign: SignedRecord -> Bytes, init: PairingInit, m: Material, f: Fresh, now: int): PairingChallenge
  {
    var draft := PairingChallenge(
      f.messageId, init.pairingId, c.digest(InitRecord(init)), init.vpsKeyId, c.connectorKey, c.connectorKeyId, f.nonce,
      m.caDer, m.caFingerprint, m.leaf, now, init.deadline, []);
    draft.(signature := sign(ChallengeRecord(draft)))
  }

  datatype PairingReply =
    | Challenged(challenge: PairingChallenge)
    | Resolved(resolution: PairingResolution)
    | NotPaired
    | Mismatch
    | Locked

  /** _pairing_complete */
  function CompletionFor(
    c: Crypto, sign: SignedRecord -> Bytes, row: PairingRow, grant: SignedGrant, messageId: Id): PairingComplete
    requires row.transcript.Some? && row.decidedAt.Some?
  {
    var draft := PairingComplete(
      messageId, row.exchange.init.pairingId, row.transcript.value, c.connectorKeyId, row.exchange.init.vpsKeyId,
      c.digest(GrantRecord(grant)), row.decidedAt.value, []);
    draft.(signature := sign(CompleteRecord(draft)))
  }

  /** the reply to a pairing that was stored before */
  function ReplyFor(c: Crypto, db: Db, sign: SignedRecord -> Bytes, row: PairingRow, f: Fresh): PairingReply {
    if row.decision.Pending? then Challenged(row.exchange.challenge)
    else if !row.decision.Approved? || row.grant.None? || row.grant.value !in db.revisions then NotPaired
    else if row.transcript.None? || row.decidedAt.None? then Mismatch
    else
      var grant := db.revisions[row.grant.value].stored.record;
      var r := PairingResolution(f.messageId, row.exchange.init.pairingId, grant,
                                 CompletionFor(c, sign, row, grant, f.completeId));
      if CompleteBounds(r.pairingComplete) && ResolutionContext(c, r) then Resolved(r) else Mismatch
  }

  /** _handle_pairing of an unlocked service: pairing_state, and then a new challenge, the stored one, or the
      resolution */
  function HandlePairing(
    c: Crypto, db: Db, sign: SignedRecord -> Bytes, init: PairingInit, m: Material, f: Fresh, now: int)
    : (Db, PairingReply)
  {
    var (seen, state) := PairingState(c, db, init, now);
    match state
    case Raised(_) => (seen, Mismatch)
    case Rejected => (seen, Mismatch)
    case Done(None) =>
      var challenge := ChallengeFor(c, sign, init, m, f, now);
      if !ChallengeBounds(challenge) then (seen, Mismatch)
      else
        var (after, reply) := BeginPairing(c, seen, init, challenge, now);
        (after, if reply.Done? then Challenged(challenge) else Mismatch)
    case Done(Some(row)) => (seen, ReplyFor(c, seen, sign, row, f))
  }

  /** The service opens a pairing only with a challenge that repeats the init's deadline, so every database
      it leaves satisfies the stored-state invariant. */
  lemma ServiceKeepsInvariant(
    c: Crypto, db: Db, sign: SignedRecord -> Bytes, init: PairingInit, m: Material, f: Fresh, now: int)
    requires Inv(c, db) && ValidInit(c, init) && OwnKey(c, sign)
    ensures Inv(c, HandlePairing(c, db, sign, init, m, f, now).0)
  {
    hide Inv, PairingState, BeginPairing, ChallengeBounds, InitBounds, ReplyFor;
    StepKeeps(c, db, ShowPairing(init, now));
    var (seen, state) := PairingState(c, db, init, now);
    var challenge := ChallengeFor(c, sign, init, m, f, now);
    if ChallengeBounds(challenge) { BeginPairingKeeps(c, seen, init, challenge, now); }
  }

  /** A resolution the service answers with repeats the approved row it was made from. */
  lemma ResolutionRepeatsRow(
    c: Crypto, db: Db, sign: SignedRecord -> Bytes, init: PairingInit, m: Material, f: Fresh, now: int)
    requires HandlePairing(c, db, sign, init, m, f, now).1.Resolved?
    ensures var (seen, reply) := HandlePairing(c, db, sign, init, m, f, now);
            && CompletionOf(c, seen, init.pairingId, reply.resolution.pairingComplete)
            && seen.pairings[init.pairingId].exchange.init == init
            && seen.pairings[init.pairingId].grant.Some?
            && reply.resolution.signedGrant == seen.revisions[seen.pairings[init.pairingId].grant.value].stored.record
  {
    hide BeginPairing, VerifyInit, ChallengeBounds, Expire, ExchangeLoads, Projected, CompleteBounds;
  }

  /** A request the store has not seen gets a challenge exactly when its remaining time fits the pairing
      lifetime, the keys differ, the queue has room and nothing stored conflicts with it. */
  lemma ChallengedExactly(
    c: Crypto, db: Db, sign: SignedRecord -> Bytes, init: PairingInit, m: Material, f: Fresh, now: int)
    requires ValidInit(c, init) && OwnKey(c, sign) && VerifyInit(c, init, now) && init.pairingId !in db.pairings
    ensures HandlePairing(c, db, sign, init, m, f, now).1.Challenged? <==>
              && init.deadline - now <= PAIRING_TTL_SECONDS
              && c.connectorKeyId != init.vpsKeyId
              && |PendingIds(Expire(db, now))| < MAX_PENDING_PAIRINGS
              && !PairingConflict(c, Expire(db, now), init)
  {
    hide PairingConflict, PendingIds, PairingLoads;
    var swept := Expire(db, now);
    assert init.pairingId !in swept.pairings;
    assert PairingState(c, db, init, now) == (swept, Done(None));
    SweepTwice(db, now);
    var challenge := ChallengeFor(c, sign, init, m, f, now);
    assert challenge == challenge.(signature := []).(signature := challenge.signature);
    assert c.verifies(c.connectorKey, ChallengeRecord(challenge));
  }

  lemma SweepTwice(db: Db, now: int)
    ensures Expire(Expire(db, now), now) == Expire(db, now)
  {
  }

  /** The clock skew that verify_pairing_init tolerates does not help a request that uses the whole pairing
      lifetime, as the VPS's always do: before its issue time on the Connector's clock it verifies, but no
      challenge for it can be made. */
  lemma EarlyFullLifeNeverChallenged(
    c: Crypto, db: Db, sign: SignedRecord -> Bytes, init: PairingInit, m: Material, f: Fresh, now: int)
    requires ValidInit(c, init) && OwnKey(c, sign) && VerifyInit(c, init, now) && init.pairingId !in db.pairings
    requires init.deadline == init.issuedAt + PAIRING_TTL_SECONDS
    ensures HandlePairing(c, db, sign, init, m, f, now).1.Challenged? ==> init.issuedAt <= now
  {
    hide HandlePairing, VerifyInit, PairingConflict, PendingIds, Expire;
    ChallengedExactly(c, db, sign, init, m, f, now);
  }

  /** The loss is real: such a request, twenty seconds ahead of the Connector's clock, on a fresh store. */
  lemma EarlyRequestIsRefused(m: Material, f: Fresh)
    ensures var c, sign := Trusting(), (r: SignedRecord) => [];
            var init, db := ExampleInit(), Initial("policy", 0);
            && ValidInit(c, init) && OwnKey(c, sign) && VerifyInit(c, init, 980)
            && !HandlePairing(c, db, sign, init, m, f, 980).1.Challenged?
  {
    var c, sign := Trusting(), (r: SignedRecord) => [];
    EarlyFullLifeNeverChallenged(c, Initial("policy", 0), sign, ExampleInit(), m, f, 980);
  }

  // ------------------------------------------------------------------ approval

  /** _initial_grant */
  function InitialGrant(
    c: Crypto, sign: SignedRecord -> Bytes, init: PairingInit, policy: int, messageId: Id, grantId: Id, now: int)
    : SignedGrant
  {
    var draft := SignedGrant(messageId, GrantClaims(
      grantId, 1, c.connectorKeyId, init.vpsKeyId, now, now, init.grantExpiresAt, policy, init.grantMaxUses,
      init.requestedScopes), []);
    draft.(signature := sign(GrantRecord(draft)))
  }

  /** The owner's confirmation becomes an approved pairing exactly when the pairing is still inside its
      deadline, the requested grant lifetime counted from now is representable and not over, and the fresh
      identifiers conflict with nothing. */
  lemma ApprovedExactly(
    c: Crypto, db: Db, sign: SignedRecord -> Bytes, p: Id, deviceId: Id, messageId: Id, grantId: Id, now: int)
    requires Inv(c, db) && OwnKey(c, sign) && IsTimestamp(now)
    requires p in db.pairings && db.pairings[p].decision.Pending?
    requires c.connectorKeyId != db.pairings[p].exchange.init.vpsKeyId
    ensures CurrentPolicy(db).Some?
    ensures var row := db.pairings[p];
            var init := row.exchange.init;
            var grant := InitialGrant(c, sign, init, CurrentPolicy(db).value, messageId, grantId, now);
            && ValidGrant(grant)
            && ApprovePairing(c, db, p, deviceId, TranscriptOf(c, row.exchange), grant, now).1.Done? <==>
              && now < row.exchange.deadline
              && now < init.grantExpiresAt <= now + MAX_GRANT_TTL_SECONDS
              && !DeviceConflict(db, deviceId, init, grantId)
              && !RevisionConflict(c, db, grant)
  {
    hide DeviceConflict, RevisionConflict, ApprovedDb, ApprovePairing, ValidInit, ExchangeLoads;
    StoredFacts(c, db, p);
    ApprovalConditions(c, db, sign, p, deviceId, messageId, grantId, now);
  }

  lemma StoredFacts(c: Crypto, db: Db, p: Id)
    requires Inv(c, db) && p in db.pairings
    ensures CurrentPolicy(db).Some? && CurrentPolicy(db).value >= 1
    ensures ExchangeLoads(c, p, db.pairings[p].exchange) && InitBounds(db.pairings[p].exchange.init)
  {
    hide DevicesOk, LineagesOk, GrantsOk, QuotasOk, QueueOk, ApprovedOk, ClaimsOk, CurrentPolicy, ExchangeLoads;
    assert PairingOk(c, db.pairings, db.devices.Keys, db.keys, Held(db.revisions), db.scopes, p);
    var n :| PoliciesAre(db.policies, n);
    CurrentPolicyIs(db, n);
  }

  lemma ApprovalConditions(
    c: Crypto, db: Db, sign: SignedRecord -> Bytes, p: Id, deviceId: Id, messageId: Id, grantId: Id, now: int)
    requires OwnKey(c, sign) && IsTimestamp(now) && CurrentPolicy(db).Some? && CurrentPolicy(db).value >= 1
    requires p in db.pairings && db.pairings[p].decision.Pending?
    requires ExchangeLoads(c, p, db.pairings[p].exchange) && InitBounds(db.pairings[p].exchange.init)
    requires c.connectorKeyId != db.pairings[p].exchange.init.vpsKeyId
    ensures var row := db.pairings[p];
            var init := row.exchange.init;
            var grant := InitialGrant(c, sign, init, CurrentPolicy(db).value, messageId, grantId, now);
            && ValidGrant(grant)
            && ApprovePairing(c, db, p, deviceId, TranscriptOf(c, row.exchange), grant, now).1.Done? <==>
              && now < row.exchange.deadline
              && now < init.grantExpiresAt <= now + MAX_GRANT_TTL_SECONDS
              && !DeviceConflict(db, deviceId, init, grantId)
              && !RevisionConflict(c, db, grant)
  {
    hide DeviceConflict, RevisionConflict, CurrentPolicy, ApprovedDb, ExchangeLoads, TranscriptOf;
    var init := db.pairings[p].exchange.init;
    var grant := InitialGrant(c, sign, init, CurrentPolicy(db).value, messageId, grantId, now);
    assert grant == grant.(signature := []).(signature := grant.signature);
    assert c.verifies(c.connectorKey, GrantRecord(grant));
  }

  /** what the owner's answer and the service's draws contribute to an approval */
  datatype Confirmation = Confirmation(confirmed: bool, messageId: Id, grantId: Id, deviceId: Id)

  /** approve_pairing of the service, with the clock read before the prompt and again after it; `signer` is
      None unless it is unlocked */
  function OwnerApproves(
    c: Crypto, db: Db, signer: Option<SignedRecord -> Bytes>, p: Id, o: Confirmation, shownAt: int, now: int)
    : (Db, Reply<GrantKey>)
  {
    if signer.None? then (db, Raised(ConnectorKeyLocked))
    else
      var (seen, state) := PairingById(c, db, p, shownAt);
      match state
      case Raised(code) => (seen, Raised(code))
      case Rejected => (seen, Rejected)
      case Done(row) =>
        if row.None? || !row.value.decision.Pending? then (seen, Raised(RequestReplayed))
        else if !o.confirmed then (seen, Raised(InteractiveUnlockRequired))
        else if CurrentPolicy(seen).None? then (seen, Raised(ConnectorStateInvalid))
        else
          var grant := InitialGrant(c, signer.value, row.value.exchange.init, CurrentPolicy(seen).value, o.messageId,
                                    o.grantId, now);
          if !ValidGrant(grant) then (seen, Rejected)
          else ApprovePairing(c, seen, p, o.deviceId, TranscriptOf(c, row.value.exchange), grant, now)
  }

  function OwnerDenies(
    c: Crypto, db: Db, unlocked: bool, p: Id, confirmed: bool, shownAt: int, now: int): (Db, Reply<()>)
  {
    if !unlocked then (db, Raised(ConnectorKeyLocked))
    else
      var (seen, state) := PairingById(c, db, p, shownAt);
      match state
      case Raised(code) => (seen, Raised(code))
      case Rejected => (seen, Rejected)
      case Done(row) =>
        if row.None? || !row.value.decision.Pending? then (seen, Raised(RequestReplayed))
        else if !confirmed then (seen, Raised(InteractiveUnlockRequired))
        else DenyPairing(seen, p, now)
  }

  /** nothing changed but, at most, pairings whose time was up */
  predicate AtMostSwept(db: Db, after: Db, now: int) {
    after == db || after == Expire(db, now)
  }

  /** Without an unlocked signer nothing changes, and without the owner's confirmation at most the sweep of
      expired pairings does. */
  lemma OwnerDecides(
    c: Crypto, db: Db, signer: Option<SignedRecord -> Bytes>, p: Id, o: Confirmation, shownAt: int, now: int)
    ensures var (after, reply) := OwnerApproves(c, db, signer, p, o, shownAt, now);
            && (signer.None? ==> after == db && reply == Raised(ConnectorKeyLocked))
            && (!o.confirmed ==> AtMostSwept(db, after, shownAt) && !reply.Done?)
  {
    hide Expire, PairingLoads, ApprovePairing, InitialGrant, CurrentPolicy;
  }

  lemma DenialDecides(c: Crypto, db: Db, unlocked: bool, p: Id, confirmed: bool, shownAt: int, now: int)
    ensures var (after, reply) := OwnerDenies(c, db, unlocked, p, confirmed, shownAt, now);
            && (!unlocked ==> after == db && reply == Raised(ConnectorKeyLocked))
            && (!confirmed ==> AtMostSwept(db, after, shownAt) && !reply.Done?)
  {
    hide Expire, PairingLoads, DenyPairing;
  }

  // ------------------------------------------------------------------ the resolution and the VPS

  predicate SameExchange(a: Db, b: Db, p: Id) {
    p in a.pairings && p in b.pairings && a.pairings[p].exchange == b.pairings[p].exchange
  }

  /** A later handler call finds the approved row and answers with a resolution that carries exactly the
      grant and the time of the one approval. */
  lemma ApprovedIsResolved(
    c: Crypto, policyDigest: string, created: int, es: seq<Event>, n: nat,
    sign: SignedRecord -> Bytes, init: PairingInit, m: Material, f: Fresh, now: int)
    returns (h: nat)
    requires Run(c, es) && n <= |es| && OwnKey(c, sign)
    requires var pairings := After(c, Initial(policyDigest, created), es, n).pairings;
             init.pairingId in pairings && pairings[init.pairingId].decision.Approved?
             && pairings[init.pairingId].exchange.init == init
    requires VerifyInit(c, init, now)
    ensures h < n && ApprovedAt(c, Initial(policyDigest, created), es, h) && es[h].pairingId == init.pairingId
    ensures var db := After(c, Initial(policyDigest, created), es, n);
            var reply := HandlePairing(c, db, sign, init, m, f, now).1;
            && reply.Resolved?
            && reply.resolution.signedGrant == es[h].grant
            && reply.resolution.pairingComplete
               == CompletionFor(c, sign, db.pairings[init.pairingId], es[h].grant, f.completeId)
            && db.pairings[init.pairingId].decidedAt == Some(es[h].now)
    ensures SameExchange(After(c, Initial(policyDigest, created), es, h),
                         After(c, Initial(policyDigest, created), es, n), init.pairingId)
  {
    hide Next, ApprovalDone, Inv, OpenAccepts, HandlePairing, ReplyFor, VerifyInit;
    var start := Initial(policyDigest, created);
    var p := init.pairingId;
    h := ApprovalOrigin(c, start, es, n, p);
    ApprovedGrantStays(c, start, es, h, n);
    ApprovedFigures(c, start, es, h);
    RunOpens(c, policyDigest, created, es, n);
    FoundAgain(c, After(c, start, es, n), init, now);
    AnswersApproved(c, After(c, start, es, n), sign, init, m, f, now, es[h].grant, es[h].now);
  }

  /** what the approving transaction wrote into the row, and what its grant satisfies */
  lemma ApprovedFigures(c: Crypto, start: Db, es: seq<Event>, h: nat)
    requires h < |es| && ApprovedAt(c, start, es, h) && Run(c, es)
    ensures var p, e := es[h].pairingId, es[h];
            && p in After(c, start, es, h).pairings && p in After(c, start, es, h + 1).pairings
            && After(c, start, es, h + 1).pairings[p].decidedAt == Some(e.now)
            && IsTimestamp(e.now) && GrantBounds(e.grant.claims)
            && e.now < After(c, start, es, h).pairings[p].exchange.deadline
            && e.grant.claims.issuerKeyId == c.connectorKeyId
            && e.grant.claims.subjectKeyId == After(c, start, es, h).pairings[p].exchange.init.vpsKeyId
  {
    hide ApprovePairing, ApprovalDone, ExchangeLoads, GrantBounds;
    var db, e := After(c, start, es, h), es[h];
    ApprovalFacts(c, db, e.pairingId, e.deviceId, e.transcript, e.grant, e.now);
    assert After(c, start, es, h + 1) == ApprovedDb(c, db, e.pairingId, e.deviceId, e.transcript, e.grant, e.now);
    hide Next;
    assert WellFormed(c, e);
  }

  /** an approved pairing loads again for its own init */
  lemma FoundAgain(c: Crypto, db: Db, init: PairingInit, now: int)
    requires OpenAccepts(c, db) && VerifyInit(c, init, now)
    requires init.pairingId in db.pairings && db.pairings[init.pairingId].decision.Approved?
    requires db.pairings[init.pairingId].exchange.init == init
    ensures PairingState(c, db, init, now) == (Expire(db, now), Done(Some(db.pairings[init.pairingId])))
    ensures var row := db.pairings[init.pairingId];
            && row.transcript == Some(TranscriptOf(c, row.exchange)) && row.grant.Some?
            && row.grant.value in db.revisions
            && ExchangeLoads(c, init.pairingId, row.exchange)
  {
    hide VerifyInit, VerifyChallenge, Projected, TranscriptOf, Expire, ForeignKeys, SubjectOwned;
    assert PairingAccepted(c, db, init.pairingId);
    hide OpenAccepts;
    StillLoads(c, db, init.pairingId, now);
  }

  lemma StillLoads(c: Crypto, db: Db, p: Id, now: int)
    requires PairingLoads(c, db, p) && !db.pairings[p].decision.Pending?
    ensures PairingLoads(c, Expire(db, now), p) && Expire(db, now).pairings[p] == db.pairings[p]
  {
    hide ExchangeLoads, Projected;
  }

  lemma AnswersApproved(
    c: Crypto, db: Db, sign: SignedRecord -> Bytes, init: PairingInit, m: Material, f: Fresh, now: int,
    grant: SignedGrant, at: int)
    requires init.pairingId in db.pairings && db.pairings[init.pairingId].decision.Approved?
    requires PairingState(c, db, init, now) == (Expire(db, now), Done(Some(db.pairings[init.pairingId])))
    requires db.pairings[init.pairingId].exchange.init == init
    requires db.pairings[init.pairingId].transcript.Some? && db.pairings[init.pairingId].decidedAt == Some(at)
    requires db.pairings[init.pairingId].grant.Some? && db.pairings[init.pairingId].grant.value in db.revisions
    requires db.revisions[db.pairings[init.pairingId].grant.value].stored.record == grant
    requires IsTimestamp(at) && GrantBounds(grant.claims)
    requires grant.claims.issuerKeyId == c.connectorKeyId && grant.claims.subjectKeyId == init.vpsKeyId
    ensures HandlePairing(c, db, sign, init, m, f, now).1 ==
              Resolved(PairingResolution(f.messageId, init.pairingId, grant,
                                         CompletionFor(c, sign, db.pairings[init.pairingId], grant, f.completeId)))
  {
    hide PairingState, BeginPairing, ChallengeFor, ChallengeBounds;
  }

  /** The VPS that displayed this exchange accepts the resolution exactly while the init, the challenge and
      the grant are in their windows on its own clock and the approval is not more than the skew ahead. */
  lemma ResolutionAccepted(
    c: Crypto, policyDigest: string, created: int, es: seq<Event>, n: nat,
    sign: SignedRecord -> Bytes, init: PairingInit, m: Material, f: Fresh, now: int, v: int)
    returns (h: nat)
    requires Run(c, es) && n <= |es| && OwnKey(c, sign)
    requires var pairings := After(c, Initial(policyDigest, created), es, n).pairings;
             init.pairingId in pairings && pairings[init.pairingId].decision.Approved?
             && pairings[init.pairingId].exchange.init == init
    requires VerifyInit(c, init, now)
    ensures h < n && ApprovedAt(c, Initial(policyDigest, created), es, h) && es[h].pairingId == init.pairingId
    ensures SameExchange(After(c, Initial(policyDigest, created), es, h),
                         After(c, Initial(policyDigest, created), es, n), init.pairingId)
    ensures HandlePairing(c, After(c, Initial(policyDigest, created), es, n), sign, init, m, f, now).1.Resolved?
    ensures var reply := HandlePairing(c, After(c, Initial(policyDigest, created), es, n), sign, init, m, f, now).1;
            reply.resolution.signedGrant == es[h].grant
    ensures var db := After(c, Initial(policyDigest, created), es, n);
            var r := HandlePairing(c, db, sign, init, m, f, now).1.resolution;
            var challenge := db.pairings[init.pairingId].exchange.challenge;
            VerifyResolution(c, r, init, challenge, challenge.tlsLeafFingerprint, v) <==>
              && IsTimestamp(v) && v < init.deadline && v < init.grantExpiresAt
              && init.issuedAt <= v + CLOCK_SKEW_SECONDS && challenge.issuedAt <= v + CLOCK_SKEW_SECONDS
              && es[h].now <= v + CLOCK_SKEW_SECONDS && es[h].grant.claims.notBefore <= v
  {
    hide Next, ApprovalDone, Inv, OpenAccepts, HandlePairing, VerifyResolution, OwnKey, CompletionFor, VerifyInit,
         ExchangeLoads;
    var start := Initial(policyDigest, created);
    var p := init.pairingId;
    h := ApprovedIsResolved(c, policyDigest, created, es, n, sign, init, m, f, now);
    var before, db := After(c, start, es, h), After(c, start, es, n);
    ApprovalFacts(c, before, p, es[h].deviceId, es[h].transcript, es[h].grant, es[h].now);
    ApprovedFigures(c, start, es, h);
    RunOpens(c, policyDigest, created, es, n);
    FoundAgain(c, db, init, now);
    StoredFacts(c, db, p);
    var reply := HandlePairing(c, db, sign, init, m, f, now).1;
    Acceptance(c, sign, db.pairings[p], init, reply.resolution, es[h].grant, CurrentPolicy(before).value, es[h].now, v,
               f.completeId);
  }

  lemma Acceptance(
    c: Crypto, sign: SignedRecord -> Bytes, row: PairingRow, init: PairingInit, r: PairingResolution,
    grant: SignedGrant, policy: int, at: int, v: int, completeId: Id)
    requires OwnKey(c, sign) && ExchangeLoads(c, init.pairingId, row.exchange) && row.exchange.init == init
    requires row.transcript == Some(TranscriptOf(c, row.exchange)) && row.decidedAt == Some(at)
    requires IsTimestamp(at) && at < row.exchange.deadline && IsTimestamp(init.deadline)
    requires VerifyGrant(c, grant, c.connectorKey, c.connectorKeyId, init.vpsKeyId, at)
             && MatchesInit(grant, init, policy)
    requires r.signedGrant == grant && r.pairingComplete == CompletionFor(c, sign, row, grant, completeId)
    ensures var challenge := row.exchange.challenge;
            VerifyResolution(c, r, init, challenge, challenge.tlsLeafFingerprint, v) <==>
              && IsTimestamp(v) && v < init.deadline && v < init.grantExpiresAt
              && init.issuedAt <= v + CLOCK_SKEW_SECONDS && challenge.issuedAt <= v + CLOCK_SKEW_SECONDS
              && at <= v + CLOCK_SKEW_SECONDS && grant.claims.notBefore <= v
  {
    var complete := r.pairingComplete;
    assert complete == complete.(signature := []).(signature := complete.signature);
    assert c.verifies(c.connectorKey, CompleteRecord(complete));
  }

  /** the service makes the initial grant valid from the moment of its approval */
  ghost predicate GrantsStartNow(es: seq<Event>) {
    forall i | 0 <= i < |es| && es[i].Approve? :: es[i].grant.claims.notBefore == es[i].now
  }

  /** When times do not step back, the VPS accepts exactly from the approval's time on the Connector's clock
      until the pairing deadline or the grant's expiry. The skew allowed elsewhere does not help a VPS
      whose clock is behind: the initial grant is checked without it. */
  lemma AcceptedFromApproval(
    c: Crypto, policyDigest: string, created: int, es: seq<Event>, n: nat,
    sign: SignedRecord -> Bytes, init: PairingInit, m: Material, f: Fresh, now: int, v: int)
    returns (h: nat)
    requires Run(c, es) && Ordered(es) && GrantsStartNow(es) && n <= |es| && OwnKey(c, sign)
    requires var pairings := After(c, Initial(policyDigest, created), es, n).pairings;
             init.pairingId in pairings && pairings[init.pairingId].decision.Approved?
             && pairings[init.pairingId].exchange.init == init
    requires VerifyInit(c, init, now)
    ensures h < n && ApprovedAt(c, Initial(policyDigest, created), es, h) && es[h].pairingId == init.pairingId
    ensures HandlePairing(c, After(c, Initial(policyDigest, created), es, n), sign, init, m, f, now).1.Resolved?
    ensures var reply := HandlePairing(c, After(c, Initial(policyDigest, created), es, n), sign, init, m, f, now).1;
            reply.resolution.signedGrant == es[h].grant
    ensures var db := After(c, Initial(policyDigest, created), es, n);
            var r := HandlePairing(c, db, sign, init, m, f, now).1.resolution;
            var challenge := db.pairings[init.pairingId].exchange.challenge;
            VerifyResolution(c, r, init, challenge, challenge.tlsLeafFingerprint, v) <==>
              es[h].now <= v < Min(init.deadline, init.grantExpiresAt)
  {
    hide Next, ApprovalDone, Inv, OpenAccepts, HandlePairing, VerifyResolution, OwnKey, VerifyInit, VerifyChallenge,
         ExchangeLoads, BeginPairing, InitBounds;
    var start := Initial(policyDigest, created);
    h := ResolutionAccepted(c, policyDigest, created, es, n, sign, init, m, f, now, v);
    ApprovedFigures(c, start, es, h);
    var o := PairingOrigin(c, start, es, h, init.pairingId);
    OpenedInTime(c, After(c, start, es, o), es[o].init, es[o].challenge, es[o].now);
    assert es[o].now <= es[h].now;
    assert es[h].grant.claims.notBefore == es[h].now;
    RunOpens(c, policyDigest, created, es, n);
    StoredFacts(c, After(c, start, es, n), init.pairingId);
    assert IsTimestamp(init.deadline) by { DeadlineIsTime(init); }
  }

  /** the example request opened on a fresh store */
  function ExampleOpened(): Db {
    BeginPairing(Trusting(), Initial("policy", 0), ExampleInit(), ExampleChallenge(1300), 1000).0
  }

  lemma ExampleOpens()
    ensures var c, db := Trusting(), ExampleOpened();
            && Inv(c, db) && WellFormed(c, OpenPairing(ExampleInit(), ExampleChallenge(1300), 1000))
            && "p" in db.pairings && db.pairings["p"] == NewPairing(c, ExampleInit(), ExampleChallenge(1300))
            && db == Initial("policy", 0).(pairings := db.pairings)
  {
    var c, start := Trusting(), Initial("policy", 0);
    var init, challenge := ExampleInit(), ExampleChallenge(1300);
    InitialOk(c, "policy", 0);
    assert MayOpen(c, start, init, challenge, 1000) by {
      assert StillPending(start, 1000) == {};
      hide Inv, BeginPairing;
    }
    hide MayOpen, BeginPairing, Inv;
    BeginPairingKeeps(c, start, init, challenge, 1000);
    OpenedFacts(c, start, init, challenge, 1000);
  }

  /** and approved ten seconds later */
  lemma ExampleApproves() returns (grant: SignedGrant)
    ensures ValidGrant(grant) && grant.claims.notBefore == 1010
    ensures ApprovalDone(Trusting(), ExampleOpened(), "p", "device", "transcript", grant, 1010)
  {
    var c, sign, db := Trusting(), (r: SignedRecord) => [], ExampleOpened();
    ExampleOpens();
    hide ExampleOpened, Inv, ApprovePairing, CurrentPolicy;
    ApprovedExactly(c, db, sign, "p", "device", "gm", "g", 1010);
    CurrentPolicyMember(db);
    grant := InitialGrant(c, sign, ExampleInit(), CurrentPolicy(db).value, "gm", "g", 1010);
  }

  lemma ExampleRun() returns (es: seq<Event>)
    ensures |es| == 2 && es[1].Approve? && es[1].now == 1010 && es[1].grant.claims.notBefore == 1010
    ensures es[0].OpenPairing? && Run(Trusting(), es) && ApprovedAt(Trusting(), Initial("policy", 0), es, 1)
    ensures var pairings := After(Trusting(), Initial("policy", 0), es, 2).pairings;
            && "p" in pairings && pairings["p"].decision.Approved?
            && pairings["p"].exchange.init == ExampleInit()
            && pairings["p"].exchange.challenge == ExampleChallenge(1300)
  {
    var c, start := Trusting(), Initial("policy", 0);
    var grant := ExampleApproves();
    var first := OpenPairing(ExampleInit(), ExampleChallenge(1300), 1000);
    var second := Approve("p", "device", "transcript", grant, 1010);
    es := [first, second];
    hide BeginPairing, ApprovePairing, ApprovalDone, Inv;
    ExampleOpens();
    assert Next(c, start, first) == ExampleOpened();
    ExampleApproved(grant);
    hide ExampleOpened, Next, WellFormed, After, Trusting, ExampleInit, ExampleChallenge;
    assert WellFormed(c, second) by { ApproveWellFormed(c, "p", "device", "transcript", grant, 1010); }
    TwoSteps(c, start, first, second);
  }

  lemma ApproveWellFormed(c: Crypto, p: Id, deviceId: Id, transcript: string, grant: SignedGrant, now: int)
    requires ValidGrant(grant)
    ensures WellFormed(c, Approve(p, deviceId, transcript, grant, now))
  {
  }

  lemma TwoSteps(c: Crypto, start: Db, a: Event, b: Event)
    ensures After(c, start, [a, b], 1) == Next(c, start, a)
    ensures After(c, start, [a, b], 2) == Next(c, Next(c, start, a), b)
  {
    hide Next;
    assert After(c, start, [a, b], 1) == Next(c, After(c, start, [a, b], 0), a);
  }

  lemma ExampleApproved(grant: SignedGrant)
    requires ApprovalDone(Trusting(), ExampleOpened(), "p", "device", "transcript", grant, 1010)
    ensures var after := Next(Trusting(), ExampleOpened(), Approve("p", "device", "transcript", grant, 1010)).pairings;
            && "p" in after && after["p"].decision.Approved?
            && after["p"].exchange.init == ExampleInit() && after["p"].exchange.challenge == ExampleChallenge(1300)
  {
    ExampleOpens();
    hide ExampleOpened, ApprovePairing, ApprovalDone, Inv, ExchangeLoads, VerifyGrant;
    ApprovalFacts(Trusting(), ExampleOpened(), "p", "device", "transcript", grant, 1010);
  }

  lemma ExampleVerifies()
    ensures OwnKey(Trusting(), (r: SignedRecord) => [])
    ensures VerifyInit(Trusting(), ExampleInit(), 1009) && VerifyInit(Trusting(), ExampleInit(), 1010)
  {
  }

  /** The refusal is real: on a fresh store a pairing is opened at 1000 and approved at 1010, and a VPS whose
      clock shows 1009 refuses the resolution, though all else allows thirty seconds. */
  lemma ClockBehindIsRefused(m: Material, f: Fresh) returns (es: seq<Event>)
    ensures var c, sign := Trusting(), (r: SignedRecord) => [];
            var init, challenge := ExampleInit(), ExampleChallenge(1300);
            && |es| == 2 && Run(c, es) && ApprovedAt(c, Initial("policy", 0), es, 1)
            && VerifyInit(c, init, 1009) && es[1].now == 1010
            && var reply := HandlePairing(c, After(c, Initial("policy", 0), es, 2), sign, init, m, f, 1010).1;
            && reply.Resolved?
            && !VerifyResolution(c, reply.resolution, init, challenge, challenge.tlsLeafFingerprint, 1009)
  {
    var c, sign := Trusting(), (r: SignedRecord) => [];
    ExampleVerifies();
    es := ExampleRun();
    hide ApprovalDone, HandlePairing, VerifyResolution, Next, Run, OwnKey, VerifyInit, After, SameExchange, Initial;
    var h := ResolutionAccepted(c, "policy", 0, es, 2, sign, ExampleInit(), m, f, 1010, 1009);
    assert es[h].Approve?;
  }

  lemma DeadlineIsTime(init: PairingInit)
    requires InitBounds(init)
    ensures IsTimestamp(init.deadline)
  {
  }

  lemma OpenedInTime(c: Crypto, db: Db, init: PairingInit, challenge: PairingChallenge, now: int)
    requires BeginPairing(c, db, init, challenge, now).1.Done?
    ensures init.issuedAt <= now + CLOCK_SKEW_SECONDS && challenge.issuedAt <= now + CLOCK_SKEW_SECONDS
  {
    hide Expire, PairingConflict, PendingIds;
  }
}

/** ConnectorService as an object over the store, the authority and the file grants. Starting and stopping the
    listener are awaited, so unlock and lock are two steps each, between which handlers and the owner's
    commands run; its lifecycle lock keeps other unlocks and locks out. */
module Services {
  import opened Prelude
  import opened Errors
  import opened Records
  import opened Trust
  import opened Store
  import opened StoreInvariant
  import opened Service
  import opened Database
  import opened Authorities
  import FileGrants

  /** a private identity read from the key store */
  datatype Identity = Identity(keyId: Id, sign: SignedRecord -> Bytes)

  /** whether the listener is there, and whether it is being started or stopped */
  datatype Stage = Stopped | Starting | Open | Stopping

  class ConnectorService {
    const store: AuthorityStore
    const authority: GrantAuthority
    const fileGrants: FileGrants.ProcessLocalFileGrants
    var stage: Stage
    var signer: Option<SignedRecord -> Bytes>
    /** _authority_certificate and _material */
    var material: Option<Material>

    /** _server is not None */
    predicate Listening()
      reads this`stage
    {
      stage == Open
    }

    /** the signer, the certificate and an unlocked authority are there exactly while the service is not stopped */
    ghost predicate Valid()
      reads this, store, authority
    {
      && authority.store == store && store.Valid()
      && (stage != Stopped <==> signer.Some?) && (stage != Stopped <==> material.Some?)
      && (stage != Stopped <==> authority.unlocked)
      && (signer.Some? ==> OwnKey(store.crypto, signer.value))
    }

    constructor (store: AuthorityStore, authority: GrantAuthority, fileGrants: FileGrants.ProcessLocalFileGrants)
      requires store.Valid() && authority.store == store && !authority.unlocked
      ensures Valid() && stage == Stopped
      ensures this.store == store && this.authority == authority && this.fileGrants == fileGrants
    {
      this.store, this.authority, this.fileGrants := store, authority, fileGrants;
      stage, signer, material := Stopped, None, None;
    }

    /** unlock up to starting the listener: `key` and `tls` are what reading the key and making the certificate
        give. A refusal changes nothing. */
    method BeginUnlock(key: Reply<Identity>, tls: Reply<Material>) returns (reply: Reply<()>)
      requires Valid() && (stage == Stopped || stage == Open)
      requires key.Done? && key.value.keyId == store.crypto.connectorKeyId ==> OwnKey(store.crypto, key.value.sign)
      modifies this, authority`unlocked
      ensures Valid()
      ensures reply.Done? <==>
                old(stage) == Stopped && key.Done? && key.value.keyId == store.crypto.connectorKeyId && tls.Done?
      ensures reply.Done? ==> stage == Starting && signer == Some(key.value.sign) && material == Some(tls.value)
      ensures !reply.Done? ==> stage == old(stage) && signer == old(signer) && material == old(material)
      ensures old(stage) == Open ==> reply == Raised(ConnectorKeyLocked)
    {
      hide Inv, OwnKey;
      if stage == Open { return Raised(ConnectorKeyLocked); }
      if key.Raised? { return Raised(key.code); }
      if key.Rejected? { return Rejected; }
      if key.value.keyId != store.crypto.connectorKeyId { return Raised(ConnectorStateInvalid); }
      if tls.Raised? { return Raised(tls.code); }
      if tls.Rejected? { return Rejected; }
      signer, material := Some(key.value.sign), Some(tls.value);
      var activated := authority.Activate(key.value.keyId);
      stage := Starting;
      return Done(());
    }

    /** unlock once the listener has started or failed to: a failure takes everything back */
    method FinishUnlock(started: Reply<()>) returns (reply: Reply<()>)
      requires Valid() && stage == Starting
      modifies this, authority`unlocked
      ensures Valid() && reply == started
      ensures stage == if started.Done? then Open else Stopped
      ensures started.Done? ==> signer == old(signer) && material == old(material)
    {
      hide Inv, OwnKey;
      if !started.Done? {
        authority.Lock();
        signer, material, stage := None, None, Stopped;
        return started;
      }
      stage := Open;
      return started;
    }

    /** Both steps of unlock with nothing in between: the service ends unlocked exactly when key, certificate and
        listener all succeed with the store's own identity on a locked service, and otherwise ends as it
        was. */
    method Unlock(key: Reply<Identity>, tls: Reply<Material>, started: Reply<()>) returns (reply: Reply<()>)
      requires Valid() && (stage == Stopped || stage == Open)
      requires key.Done? && key.value.keyId == store.crypto.connectorKeyId ==> OwnKey(store.crypto, key.value.sign)
      modifies this, authority`unlocked
      ensures Valid()
      ensures reply.Done? <==>
                old(stage) == Stopped && key.Done? && key.value.keyId == store.crypto.connectorKeyId
                && tls.Done? && started.Done?
      ensures reply.Done? ==> stage == Open && signer == Some(key.value.sign) && material == Some(tls.value)
      ensures !reply.Done? ==> stage == old(stage) && signer == old(signer) && material == old(material)
    {
      hide Inv, OwnKey;
      reply := BeginUnlock(key, tls);
      if reply.Done? { reply := FinishUnlock(started); }
    }

    /** lock up to closing the connections: from here on every record and command is refused, while the
        authority stays unlocked for the operations that are still running */
    method BeginLock()
      requires Valid() && (stage == Stopped || stage == Open)
      modifies this`stage
      ensures Valid() && stage == if old(stage) == Open then Stopping else Stopped
    {
      hide Inv, OwnKey;
      if stage == Open { stage := Stopping; }
    }

    /** lock once the connections are closed */
    method FinishLock()
      requires Valid() && (stage == Stopped || stage == Stopping)
      modifies this, authority`unlocked
      ensures Valid() && stage == Stopped && signer.None? && material.None? && !authority.unlocked
    {
      hide Inv, OwnKey;
      authority.Lock();
      signer, material, stage := None, None, Stopped;
    }

    method Lock()
      requires Valid() && (stage == Stopped || stage == Open)
      modifies this, authority`unlocked
      ensures Valid() && stage == Stopped && signer.None? && material.None? && !authority.unlocked
    {
      hide Inv, OwnKey;
      BeginLock();
      FinishLock();
    }

    /** also forgets every file grant for good */
    method Close()
      requires Valid() && (stage == Stopped || stage == Open)
      modifies this, authority`unlocked, fileGrants
      ensures Valid() && stage == Stopped && signer.None? && material.None? && !authority.unlocked
      ensures fileGrants.Contents() == FileGrants.Clear(old(fileGrants.Contents()))
    {
      hide Inv, OwnKey;
      Lock();
      fileGrants.ClearEverything();
    }

    /** A locked service answers every pairing record with the locked error and touches nothing. */
    method HandlePairing(init: PairingInit, f: Fresh, now: int) returns (reply: PairingReply)
      requires Valid() && ValidInit(store.crypto, init)
      modifies store
      ensures Valid()
      ensures (store.Tables(), reply) ==
                if !Listening() then (old(store.Tables()), Locked)
                else Service.HandlePairing(
                       store.crypto, old(store.Tables()), signer.value, init, material.value, f, now)
    {
      if !Listening() { return Locked; }
      hide Inv, OwnKey, PairingState, BeginPairing, ChallengeBounds, ChallengeFor, ReplyFor, ValidInit;
      OpensValid(store.crypto, signer.value, init, material.value, f, now);
      var state := store.PairingState(init, now);
      match state {
        case Raised(_) => return Mismatch;
        case Rejected => return Mismatch;
        case Done(row) =>
          if row.Some? { return ReplyFor(store.crypto, store.Tables(), signer.value, row.value, f); }
          var challenge := ChallengeFor(store.crypto, signer.value, init, material.value, f, now);
          if !ChallengeBounds(challenge) { return Mismatch; }
          var begun := store.BeginPairing(init, challenge, now);
          return if begun.Done? then Challenged(challenge) else Mismatch;
      }
    }

    /** `o` carries the owner's answer at the prompt; the clock is read before it and after it */
    method ApprovePairing(pairingId: Id, o: Confirmation, shownAt: int, now: int) returns (reply: Reply<GrantKey>)
      requires Valid()
      modifies store
      ensures Valid()
      ensures (store.Tables(), reply) ==
                OwnerApproves(
                  store.crypto, old(store.Tables()), if Listening() then signer else None, pairingId, o, shownAt, now)
      ensures !Listening() ==> store.Tables() == old(store.Tables()) && reply == Raised(ConnectorKeyLocked)
      ensures !o.confirmed ==> !reply.Done? && AtMostSwept(old(store.Tables()), store.Tables(), shownAt)
    {
      hide Inv, OwnKey, PairingLoads, InitialGrant, CurrentPolicy, ValidGrant, TranscriptOf, Store.ApprovePairing,
           Store.PairingById, AtMostSwept;
      OwnerDecides(store.crypto, store.Tables(), if Listening() then signer else None, pairingId, o, shownAt, now);
      if signer.None? || !Listening() { return Raised(ConnectorKeyLocked); }
      var state := store.PairingById(pairingId, shownAt);
      match state {
        case Raised(code) => return Raised(code);
        case Rejected => return Rejected;
        case Done(row) =>
          if row.None? || !row.value.decision.Pending? { return Raised(RequestReplayed); }
          if !o.confirmed { return Raised(InteractiveUnlockRequired); }
          var policy := CurrentPolicy(store.Tables());
          if policy.None? { return Raised(ConnectorStateInvalid); }
          var grant := InitialGrant(store.crypto, signer.value, row.value.exchange.init, policy.value, o.messageId,
                                    o.grantId, now);
          if !ValidGrant(grant) { return Rejected; }
          reply := store.ApprovePairing(
            pairingId, o.deviceId, TranscriptOf(store.crypto, row.value.exchange), grant, now);
      }
    }

    method DenyPairing(pairingId: Id, confirmed: bool, shownAt: int, now: int) returns (reply: Reply<()>)
      requires Valid()
      modifies store
      ensures Valid()
      ensures (store.Tables(), reply) ==
                OwnerDenies(store.crypto, old(store.Tables()), Listening(), pairingId, confirmed, shownAt, now)
      ensures !Listening() ==> store.Tables() == old(store.Tables()) && reply == Raised(ConnectorKeyLocked)
      ensures !confirmed ==> !reply.Done? && AtMostSwept(old(store.Tables()), store.Tables(), shownAt)
    {
      hide Inv, OwnKey, PairingLoads, Store.DenyPairing, Store.PairingById, AtMostSwept;
      DenialDecides(store.crypto, store.Tables(), Listening(), pairingId, confirmed, shownAt, now);
      if signer.None? || !Listening() { return Raised(ConnectorKeyLocked); }
      var state := store.PairingById(pairingId, shownAt);
      match state {
        case Raised(code) => return Raised(code);
        case Rejected => return Rejected;
        case Done(row) =>
          if row.None? || !row.value.decision.Pending? { return Raised(RequestReplayed); }
          if !confirmed { return Raised(InteractiveUnlockRequired); }
          reply := store.DenyPairing(pairingId, now);
      }
    }
  }

  /** the challenge the service makes repeats the deadline and carries the Connector's own key */
  lemma OpensValid(
    c: Crypto, sign: SignedRecord -> Bytes, init: PairingInit, m: Material, f: Fresh, now: int)
    requires OwnKey(c, sign)
    ensures var challenge := ChallengeFor(c, sign, init, m, f, now);
            && challenge.deadline == init.deadline
            && (ChallengeBounds(challenge) ==> ValidChallenge(c, challenge))
  {
  }
}
