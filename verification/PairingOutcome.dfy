/** What the pairing handler answers and what the owner's confirmation does (connector/service.py), for every
    stored state and in terms of the stored rows: each reply with its exact condition. */
module PairingOutcome {
  import opened Prelude
  import opened Limits
  import opened Errors
  import opened Records
  import opened Trust
  import opened Store
  import opened StoreInvariant
  import opened StoreRun
  import opened ClaimOutcome
  import opened Outcomes
  import opened Profiles
  import opened Service

  // ------------------------------------------------------------------ the handler

  /** a request that is not stored may be challenged: its remaining time fits the pairing lifetime, the keys
      differ, fewer than three pairings are pending and in time, none of them for this key, and this init
      was never stored */
  ghost predicate MayChallenge(c: Crypto, db: Db, init: PairingInit, now: int) {
    && init.deadline - now <= PAIRING_TTL_SECONDS && init.vpsKeyId != c.connectorKeyId
    && |StillPending(db, now)| < 3
    && (forall p | p in db.pairings :: db.pairings[p].exchange.initDigest != c.digest(InitRecord(init)))
    && (forall p | p in StillPending(db, now) :: db.pairings[p].exchange.vpsKeyId != init.vpsKeyId)
  }

  /** the challenge repeats its request and carries the service's own key and certificate */
  predicate ChallengeSays(
    c: Crypto, sign: SignedRecord -> Bytes, init: PairingInit, m: Material, f: Fresh, now: int, ch: PairingChallenge)
  {
    && ch.messageId == f.messageId && ch.connectorNonce == f.nonce
    && ch.pairingId == init.pairingId && ch.initDigest == c.digest(InitRecord(init)) && ch.vpsKeyId == init.vpsKeyId
    && ch.deadline == init.deadline && ch.issuedAt == now
    && ch.connectorPublicKey == c.connectorKey && ch.connectorKeyId == c.connectorKeyId
    && ch.tlsCaDer == m.caDer && ch.tlsCaFingerprint == m.caFingerprint && ch.tlsLeafFingerprint == m.leaf
    && ch.signature == sign(ChallengeRecord(ch.(signature := [])))
  }

  /** the row a new pairing gets */
  predicate FreshPairing(c: Crypto, row: PairingRow, init: PairingInit, ch: PairingChallenge) {
    && row.exchange.init == init && row.exchange.challenge == ch && row.exchange.vpsKeyId == init.vpsKeyId
    && row.exchange.vpsPublicKey == init.vpsPublicKey && row.exchange.initDigest == c.digest(InitRecord(init))
    && row.exchange.deadline == init.deadline && row.decision.Pending? && row.decidedAt.None?
    && row.transcript.None? && row.deviceId.None? && row.grant.None?
  }

  /** the sweep, and one new pending pairing */
  ghost predicate Opened(c: Crypto, db: Db, after: Db, init: PairingInit, ch: PairingChallenge, now: int) {
    && init.pairingId in after.pairings && FreshPairing(c, after.pairings[init.pairingId], init, ch)
    && Swept(db, after.(pairings := after.pairings - {init.pairingId}), now)
  }

  /** the resolution carries the stored grant and a completion of the approved row */
  predicate ResolutionSays(
    c: Crypto, sign: SignedRecord -> Bytes, f: Fresh, row: PairingRow, grant: SignedGrant, r: PairingResolution)
    requires row.transcript.Some? && row.decidedAt.Some?
  {
    var done := r.pairingComplete;
    && r.messageId == f.messageId && r.pairingId == row.exchange.init.pairingId && r.signedGrant == grant
    && done.messageId == f.completeId && done.pairingId == row.exchange.init.pairingId
    && done.transcriptDigest == row.transcript.value && done.completedAt == row.decidedAt.value
    && done.signedGrantDigest == c.digest(GrantRecord(grant))
    && done.connectorKeyId == c.connectorKeyId && done.vpsKeyId == row.exchange.init.vpsKeyId
    && done.signature == sign(CompleteRecord(done.(signature := [])))
  }

  /** an approved row is answered with its resolution, or with a mismatch when no completion can be made */
  ghost predicate ApprovedAnswer(
    c: Crypto, db: Db, sign: SignedRecord -> Bytes, f: Fresh, row: PairingRow, reply: PairingReply)
  {
    && row.transcript.Some? && row.decidedAt.Some? && row.grant.Some? && row.grant.value in db.revisions
    && var grant := db.revisions[row.grant.value].stored.record;
    && (reply.Resolved? <==>
          IsTimestamp(row.decidedAt.value) && row.exchange.init.vpsKeyId != c.connectorKeyId
          && grant.claims.issuerKeyId == c.connectorKeyId)
    && (reply.Resolved? ==> ResolutionSays(c, sign, f, row, grant, reply.resolution))
    && (!reply.Resolved? ==> reply == Mismatch)
  }

  /** Every answer of the handler. An init that does not verify, or whose identifier another init holds, is a
      mismatch and changes nothing. An init not stored is challenged exactly when it may be, and then stored. A
      stored pending one gets its stored challenge again, a denied or expired one is not paired, and an approved
      one gets its resolution; none of these writes anything but the sweep. */
  lemma HandlerDecides(
    c: Crypto, db: Db, sign: SignedRecord -> Bytes, init: PairingInit, m: Material, f: Fresh, now: int)
    requires Inv(c, db) && OwnKey(c, sign) && ValidInit(c, init)
    ensures var (after, reply) := HandlePairing(c, db, sign, init, m, f, now);
            if !VerifyInit(c, init, now) then after == db && reply == Mismatch
            else if init.pairingId !in db.pairings then
              if MayChallenge(c, db, init, now)
              then
                && reply.Challenged? && ChallengeSays(c, sign, init, m, f, now, reply.challenge)
                && Opened(c, db, after, init, reply.challenge, now)
              else reply == Mismatch && Swept(db, after, now)
            else
              var row := db.pairings[init.pairingId];
              if row.exchange.init != init then after == db && reply == Mismatch
              else
                && Swept(db, after, now)
                && match row.decision
                   case Pending => reply == Challenged(row.exchange.challenge)
                   case Denied => reply == NotPaired
                   case Expired => reply == NotPaired
                   case Approved => ApprovedAnswer(c, db, sign, f, row, reply)
  {
    hide Inv, OwnKey, VerifyInit, PairingState, ReplyFor, MayChallenge, ChallengeSays, Opened, ApprovedAnswer, Swept,
         HandlePairing;
    StateFound(c, db, init, now);
    HandlerReads(c, db, sign, init, m, f, now);
    if VerifyInit(c, init, now) {
      if init.pairingId !in db.pairings {
        FreshDecides(c, db, sign, init, m, f, now);
      } else if db.pairings[init.pairingId].exchange.init == init {
        StoredDecides(c, db, sign, init, f, now, PairingState(c, db, init, now).0);
      }
    }
  }

  /** the handler answers by what the store finds */
  lemma HandlerReads(
    c: Crypto, db: Db, sign: SignedRecord -> Bytes, init: PairingInit, m: Material, f: Fresh, now: int)
    ensures var (seen, state) := PairingState(c, db, init, now);
            var answer := HandlePairing(c, db, sign, init, m, f, now);
            && (!state.Done? ==> answer == (seen, Mismatch))
            && (state.Done? && state.value.Some? ==> answer == (seen, ReplyFor(c, seen, sign, state.value.value, f)))
  {
    hide PairingState, ReplyFor;
  }

  lemma FreshDecides(
    c: Crypto, db: Db, sign: SignedRecord -> Bytes, init: PairingInit, m: Material, f: Fresh, now: int)
    requires OwnKey(c, sign) && ValidInit(c, init) && VerifyInit(c, init, now) && init.pairingId !in db.pairings
    ensures var (after, reply) := HandlePairing(c, db, sign, init, m, f, now);
            if MayChallenge(c, db, init, now)
            then
              && reply.Challenged? && ChallengeSays(c, sign, init, m, f, now, reply.challenge)
              && Opened(c, db, after, init, reply.challenge, now)
            else reply == Mismatch && Swept(db, after, now)
  {
    hide PairingConflict, PendingIds, PairingLoads, OwnKey, BeginPairing, VerifyInit;
    var swept := Expire(db, now);
    ExpireSweeps(db, now);
    var challenge := ChallengeFor(c, sign, init, m, f, now);
    assert PairingState(c, db, init, now) == (swept, Done(None)) by { NothingStored(c, db, init, now); }
    OwnChallenge(c, sign, init, m, f, now);
    OpensExactly(c, swept, init, challenge, now);
    SamePending(db, now);
    if ChallengeBounds(challenge) { OpeningRows(c, swept, init, challenge, now); }
  }

  lemma NothingStored(c: Crypto, db: Db, init: PairingInit, now: int)
    requires VerifyInit(c, init, now) && init.pairingId !in db.pairings
    ensures PairingState(c, db, init, now) == (Expire(db, now), Done(None))
  {
    hide VerifyInit, PairingLoads;
  }

  /** the service's own challenge verifies whenever it can be built */
  lemma OwnChallenge(c: Crypto, sign: SignedRecord -> Bytes, init: PairingInit, m: Material, f: Fresh, now: int)
    requires OwnKey(c, sign) && ValidInit(c, init) && VerifyInit(c, init, now)
    ensures var ch := ChallengeFor(c, sign, init, m, f, now);
            && ChallengeSays(c, sign, init, m, f, now, ch)
            && (ChallengeBounds(ch) <==>
                  init.deadline - now <= PAIRING_TTL_SECONDS && init.vpsKeyId != c.connectorKeyId)
            && (ChallengeBounds(ch) ==>
                  VerifyChallenge(c, ch, init.pairingId, init.vpsKeyId, c.digest(InitRecord(init)),
                                  ch.tlsLeafFingerprint, now))
  {
    var ch := ChallengeFor(c, sign, init, m, f, now);
    assert ch == ch.(signature := []).(signature := ch.signature);
    assert c.verifies(c.connectorKey, ChallengeRecord(ch));
  }

  lemma SamePending(db: Db, now: int)
    ensures StillPending(Expire(db, now), now) == StillPending(db, now)
    ensures forall p | p in db.pairings ::
              p in Expire(db, now).pairings && Expire(db, now).pairings[p].exchange == db.pairings[p].exchange
    ensures Expire(db, now).pairings.Keys == db.pairings.Keys
  {
  }

  lemma OpeningRows(c: Crypto, swept: Db, init: PairingInit, challenge: PairingChallenge, now: int)
    requires swept == Expire(swept, now) && init.pairingId !in swept.pairings
    ensures var (after, reply) := BeginPairing(c, swept, init, challenge, now);
            if reply.Done?
            then
              && init.pairingId in after.pairings && FreshPairing(c, after.pairings[init.pairingId], init, challenge)
              && after.(pairings := after.pairings - {init.pairingId}) == swept
            else after == swept
  {
    hide VerifyInit, VerifyChallenge, PairingConflict, PendingIds;
    var after := BeginPairing(c, swept, init, challenge, now).0;
    assert (swept.pairings[init.pairingId := NewPairing(c, init, challenge)] - {init.pairingId}) == swept.pairings;
  }

  lemma StoredDecides(
    c: Crypto, db: Db, sign: SignedRecord -> Bytes, init: PairingInit, f: Fresh, now: int, after: Db)
    requires Inv(c, db) && VerifyInit(c, init, now) && Swept(db, after, now)
    requires init.pairingId in db.pairings && db.pairings[init.pairingId].exchange.init == init
    ensures var row := db.pairings[init.pairingId];
            var reply := ReplyFor(c, after, sign, after.pairings[init.pairingId], f);
            match row.decision
            case Pending => reply == Challenged(row.exchange.challenge)
            case Denied => reply == NotPaired
            case Expired => reply == NotPaired
            case Approved => ApprovedAnswer(c, db, sign, f, row, reply)
  {
    hide Inv, ResolutionSays, VerifyInit;
    var row := db.pairings[init.pairingId];
    StoredInTime(c, db, init, now);
    assert after.pairings[init.pairingId] == row;
    if row.decision.Approved? {
      ApprovedRow(c, db, init.pairingId);
      ResolutionBuilt(c, db, sign, f, row);
    }
  }

  /** a verifying init's own pairing is not overdue */
  lemma StoredInTime(c: Crypto, db: Db, init: PairingInit, now: int)
    requires Inv(c, db) && VerifyInit(c, init, now)
    requires init.pairingId in db.pairings && db.pairings[init.pairingId].exchange.init == init
    ensures now < db.pairings[init.pairingId].exchange.deadline
  {
    hide Inv;
    StoredFacts(c, db, init.pairingId);
  }

  lemma ApprovedRow(c: Crypto, db: Db, p: Id)
    requires Inv(c, db) && p in db.pairings && db.pairings[p].decision.Approved?
    ensures var row := db.pairings[p];
            && row.transcript.Some? && row.decidedAt.Some? && row.grant.Some? && row.grant.value in db.revisions
            && db.revisions[row.grant.value].stored.record.claims.subjectKeyId == row.exchange.init.vpsKeyId
  {
    hide PoliciesOk, DevicesOk, LineagesOk, GrantsOk, QuotasOk, QueueOk, ClaimsOk, ExchangeLoads, ValidInit,
         TranscriptOf;
    assert PairingOk(c, db.pairings, db.devices.Keys, db.keys, Held(db.revisions), db.scopes, p);
    assert db.pairings[p].grant.value in Held(db.revisions);
  }

  lemma ResolutionBuilt(c: Crypto, db: Db, sign: SignedRecord -> Bytes, f: Fresh, row: PairingRow)
    requires row.decision.Approved? && row.transcript.Some? && row.decidedAt.Some?
    requires row.grant.Some? && row.grant.value in db.revisions
    requires db.revisions[row.grant.value].stored.record.claims.subjectKeyId == row.exchange.init.vpsKeyId
    ensures ApprovedAnswer(c, db, sign, f, row, ReplyFor(c, db, sign, row, f))
  {
  }

  /** The same request asked twice, with nothing decided in between, gets one challenge: the second answer
      repeats the first, whatever certificate, nonce and identifiers the service would draw by then. */
  lemma SameChallengeAgain(
    c: Crypto, db: Db, sign: SignedRecord -> Bytes, init: PairingInit, m: Material, f: Fresh, now: int,
    m': Material, f': Fresh, later: int)
    requires Inv(c, db) && OwnKey(c, sign) && ValidInit(c, init)
    requires HandlePairing(c, db, sign, init, m, f, now).1.Challenged? && VerifyInit(c, init, later)
    ensures var (after, reply) := HandlePairing(c, db, sign, init, m, f, now);
            HandlePairing(c, after, sign, init, m', f', later).1 == reply
  {
    hide Inv, OwnKey, VerifyInit, HandlePairing, MayChallenge, ChallengeSays, ValidInit;
    HandlerDecides(c, db, sign, init, m, f, now);
    ServiceKeepsInvariant(c, db, sign, init, m, f, now);
    var after := HandlePairing(c, db, sign, init, m, f, now).0;
    if init.pairingId in db.pairings {
      StoredInTime(c, db, init, now);
      assert after.pairings[init.pairingId] == db.pairings[init.pairingId];
    }
    HandlerDecides(c, after, sign, init, m', f', later);
  }

  /** Over any ordered run, wherever transactions of any kind fall in between, all challenges answered for one
      stored init are the same challenge. */
  lemma OneChallengeOverRun(
    c: Crypto, policyDigest: string, created: int, es: seq<Event>, i: nat, j: nat, sign: SignedRecord -> Bytes,
    init: PairingInit, m: Material, f: Fresh, now: int, m': Material, f': Fresh, later: int)
    requires Run(c, es) && Ordered(es) && i <= |es| && j <= |es| && OwnKey(c, sign) && ValidInit(c, init)
    requires init.pairingId in After(c, Initial(policyDigest, created), es, i).pairings
    requires init.pairingId in After(c, Initial(policyDigest, created), es, j).pairings
    requires HandlePairing(c, After(c, Initial(policyDigest, created), es, i), sign, init, m, f, now).1.Challenged?
    requires HandlePairing(c, After(c, Initial(policyDigest, created), es, j), sign, init, m', f', later).1.Challenged?
    ensures HandlePairing(c, After(c, Initial(policyDigest, created), es, i), sign, init, m, f, now).1
            == HandlePairing(c, After(c, Initial(policyDigest, created), es, j), sign, init, m', f', later).1
  {
    hide Inv, OwnKey, VerifyInit, HandlePairing, OpenAccepts, Next, Swept, ValidInit, OpenedAt;
    var start := Initial(policyDigest, created);
    RunOpens(c, policyDigest, created, es, i);
    RunOpens(c, policyDigest, created, es, j);
    HandlerDecides(c, After(c, start, es, i), sign, init, m, f, now);
    HandlerDecides(c, After(c, start, es, j), sign, init, m', f', later);
    var a := PairingOrigin(c, start, es, i, init.pairingId);
    var b := PairingOrigin(c, start, es, j, init.pairingId);
    NoInitOpenedTwice(c, start, es, a, b);
  }

  // ------------------------------------------------------------------ the owner's approval

  /** the request's lifetime, counted from now, is one a grant may have, and the keys differ */
  predicate Grantable(c: Crypto, init: PairingInit, now: int) {
    now < init.grantExpiresAt <= now + MAX_GRANT_TTL_SECONDS && init.vpsKeyId != c.connectorKeyId
  }

  /** the grant the service signs on approval: the request's own terms, from now on, under the current policy */
  predicate GrantSays(
    c: Crypto, sign: SignedRecord -> Bytes, init: PairingInit, policy: int, o: Confirmation, now: int, g: SignedGrant)
  {
    && g.messageId == o.messageId && g.claims.grantId == o.grantId && g.claims.revision == 1
    && g.claims.issuerKeyId == c.connectorKeyId && g.claims.subjectKeyId == init.vpsKeyId
    && g.claims.issuedAt == now && g.claims.notBefore == now && g.claims.expiresAt == init.grantExpiresAt
    && g.claims.policyRevision == policy && g.claims.maxUses == init.grantMaxUses
    && g.claims.scopes == init.requestedScopes
    && g.signature == sign(GrantRecord(g.(signature := [])))
  }

  /** the fresh identifiers, the request's key and the new grant's digest are in no row yet */
  ghost predicate Unused(c: Crypto, db: Db, init: PairingInit, o: Confirmation, g: SignedGrant) {
    && o.deviceId !in db.devices && o.grantId !in db.lineages && init.vpsKeyId !in db.keys
    && (forall k | k in db.keys :: db.keys[k].publicKey != init.vpsPublicKey)
    && (forall k | k in db.revisions :: db.revisions[k].stored.digest != c.digest(GrantRecord(g)))
  }

  /** every row an approval writes: a device, its key, a lineage, its first revision with its scopes, and the
      pairing's decision */
  ghost predicate ApprovalRows(
    c: Crypto, db: Db, after: Db, p: Id, o: Confirmation, g: SignedGrant, now: int)
    requires p in db.pairings
  {
    var x := db.pairings[p].exchange;
    var k := GrantKey(o.grantId, 1);
    && k in after.revisions && FreshRevision(c, after.revisions[k], g)
    && after == db.(
         devices := db.devices[o.deviceId := DeviceRow(x.init.deviceLabel, now, None)],
         keys := db.keys[x.init.vpsKeyId := KeyRow(o.deviceId, 0, x.init.vpsPublicKey, now, None)],
         lineages := db.lineages[o.grantId := LineageRow(o.deviceId, now, None)],
         revisions := db.revisions[k := after.revisions[k]],
         scopes := db.scopes[k := x.init.requestedScopes],
         pairings := db.pairings[p := PairingRow(x, Some(TranscriptOf(c, x)), Approved, Some(now), Some(o.deviceId),
                                                 Some(k))])
  }

  /** Every outcome of the owner's approval on an unlocked service. `shown` is the store as it was swept when the
      pairing was shown. */
  lemma OwnerDecidesExactly(
    c: Crypto, db: Db, sign: SignedRecord -> Bytes, p: Id, o: Confirmation, shownAt: int, now: int)
    returns (shown: Db, g: SignedGrant)
    requires Inv(c, db) && OwnKey(c, sign) && IsTimestamp(shownAt) && IsTimestamp(now)
    ensures Swept(db, shown, shownAt)
    ensures p in db.pairings ==> CurrentPolicy(db).Some?
    ensures p in db.pairings ==> GrantSays(c, sign, db.pairings[p].exchange.init, CurrentPolicy(db).value, o, now, g)
    ensures var (after, reply) := OwnerApproves(c, db, Some(sign), p, o, shownAt, now);
            if p !in db.pairings || !db.pairings[p].decision.Pending? || db.pairings[p].exchange.deadline <= shownAt
            then after == shown && reply == Raised(RequestReplayed)
            else if !o.confirmed then after == shown && reply == Raised(InteractiveUnlockRequired)
            else if !Grantable(c, db.pairings[p].exchange.init, now) then after == shown && reply == Rejected
            else if db.pairings[p].exchange.deadline <= now
            then
              && reply == Raised(GrantExpired)
              && after == shown.(pairings := shown.pairings[p :=
                   PairingRow(db.pairings[p].exchange, None, Expired, Some(now), None, None)])
            else if !Unused(c, db, db.pairings[p].exchange.init, o, g)
            then after == shown && reply == Raised(ConnectorStateInvalid)
            else ApprovalRows(c, shown, after, p, o, g, now) && reply == Done(GrantKey(o.grantId, 1))
  {
    hide Inv, OwnKey, Swept, ApprovalRows, Unused, GrantSays, ApprovePairing, PairingById, ValidGrant, InitialGrant,
         CurrentPolicy, SeenAs;
    shown := PairingById(c, db, p, shownAt).0;
    PairingShown(c, db, p, shownAt);
    g := SignedGrant("", GrantClaims("", 1, "", "", 0, 0, 0, 0, 0, []), []);
    if p in db.pairings {
      StoredFacts(c, db, p);
      var init := db.pairings[p].exchange.init;
      g := InitialGrant(c, sign, init, CurrentPolicy(db).value, o.messageId, o.grantId, now);
      OwnGrant(c, sign, init, CurrentPolicy(db).value, o, now);
      PolicySeen(db, shown, shownAt);
      ShownRow(db, shown, p, shownAt);
      if db.pairings[p].decision.Pending? && shownAt < db.pairings[p].exchange.deadline {
        InvShown(c, db, p, shownAt);
        PendingRow(c, db, p);
        if Grantable(c, init, now) { ApprovalReply(c, shown, sign, p, o, g, now); }
        UnusedSeen(c, db, shown, init, o, g, shownAt);
      }
    }
  }

  lemma InvShown(c: Crypto, db: Db, p: Id, now: int)
    requires Inv(c, db) && IsTimestamp(now)
    ensures Inv(c, PairingById(c, db, p, now).0)
  {
    hide Inv, PairingLoads;
    ExpireKeeps(c, db, now);
  }

  /** the service's own grant verifies, and its bounds are the request's */
  lemma OwnGrant(c: Crypto, sign: SignedRecord -> Bytes, init: PairingInit, policy: int, o: Confirmation, now: int)
    requires OwnKey(c, sign) && InitBounds(init) && IsTimestamp(now) && policy >= 1
    ensures var g := InitialGrant(c, sign, init, policy, o.messageId, o.grantId, now);
            && GrantSays(c, sign, init, policy, o, now, g)
            && (ValidGrant(g) <==> Grantable(c, init, now))
            && (Grantable(c, init, now) ==>
                  VerifyGrant(c, g, c.connectorKey, c.connectorKeyId, init.vpsKeyId, now)
                  && MatchesInit(g, init, policy))
  {
    var g := InitialGrant(c, sign, init, policy, o.messageId, o.grantId, now);
    assert g == g.(signature := []).(signature := g.signature);
    assert c.verifies(c.connectorKey, GrantRecord(g));
  }

  lemma PolicySeen(db: Db, shown: Db, now: int)
    requires Swept(db, shown, now)
    ensures CurrentPolicy(shown) == CurrentPolicy(db)
  {
    assert forall r :: LivePolicy(shown, r) == LivePolicy(db, r);
  }

  lemma ShownRow(db: Db, shown: Db, p: Id, now: int)
    requires Swept(db, shown, now) && p in db.pairings
    ensures p in shown.pairings && shown.pairings[p].exchange == db.pairings[p].exchange
    ensures shown.pairings[p].decision.Pending? <==>
              db.pairings[p].decision.Pending? && now < db.pairings[p].exchange.deadline
    ensures shown.pairings[p].decision.Pending? ==> shown.pairings[p] == db.pairings[p]
  {
  }

  lemma PendingRow(c: Crypto, db: Db, p: Id)
    requires Inv(c, db) && p in db.pairings && db.pairings[p].decision.Pending?
    ensures var row := db.pairings[p];
            && row == PairingRow(row.exchange, None, PairingDecision.Pending, None, None, None)
            && ExchangeLoads(c, p, row.exchange)
  {
    hide PoliciesOk, DevicesOk, LineagesOk, GrantsOk, QuotasOk, QueueOk, ClaimsOk, ExchangeLoads, ValidInit;
    assert PairingOk(c, db.pairings, db.devices.Keys, db.keys, Held(db.revisions), db.scopes, p);
  }

  lemma UnusedSeen(c: Crypto, db: Db, shown: Db, init: PairingInit, o: Confirmation, g: SignedGrant, now: int)
    requires Swept(db, shown, now)
    ensures Unused(c, shown, init, o, g) == Unused(c, db, init, o, g)
  {
  }

  /** approving a pending pairing with the service's own grant */
  lemma ApprovalReply(
    c: Crypto, db: Db, sign: SignedRecord -> Bytes, p: Id, o: Confirmation, g: SignedGrant, now: int)
    requires Inv(c, db) && IsTimestamp(now) && p in db.pairings && db.pairings[p].decision.Pending?
    requires CurrentPolicy(db).Some? && CurrentPolicy(db).value >= 1
    requires GrantSays(c, sign, db.pairings[p].exchange.init, CurrentPolicy(db).value, o, now, g)
    requires VerifyGrant(c, g, c.connectorKey, c.connectorKeyId, db.pairings[p].exchange.init.vpsKeyId, now)
    requires MatchesInit(g, db.pairings[p].exchange.init, CurrentPolicy(db).value)
    ensures var x := db.pairings[p].exchange;
            var (after, reply) := ApprovePairing(c, db, p, o.deviceId, TranscriptOf(c, x), g, now);
            if x.deadline <= now
            then
              && reply == Raised(GrantExpired)
              && after == db.(pairings := db.pairings[p := PairingRow(x, None, Expired, Some(now), None, None)])
            else if !Unused(c, db, x.init, o, g) then after == db && reply == Raised(ConnectorStateInvalid)
            else ApprovalRows(c, db, after, p, o, g, now) && reply == Done(GrantKey(o.grantId, 1))
  {
    hide Inv, ExchangeLoads, VerifyGrant, MatchesInit, CurrentPolicy, DeviceConflict, RevisionConflict, TranscriptOf,
         Unused, ApprovalRows;
    PendingRow(c, db, p);
    UnusedIsNoConflict(c, db, db.pairings[p].exchange.init, o, g);
    ApprovedDbRows(c, db, p, o, g, now);
  }

  lemma ApprovedDbRows(c: Crypto, db: Db, p: Id, o: Confirmation, g: SignedGrant, now: int)
    requires p in db.pairings && g.claims.grantId == o.grantId && g.claims.revision == 1
    requires g.claims.issuedAt == now && g.claims.scopes == db.pairings[p].exchange.init.requestedScopes
    ensures ApprovalRows(
              c, db, ApprovedDb(c, db, p, o.deviceId, TranscriptOf(c, db.pairings[p].exchange), g, now), p, o, g, now)
  {
    hide TranscriptOf;
  }

  lemma UnusedIsNoConflict(c: Crypto, db: Db, init: PairingInit, o: Confirmation, g: SignedGrant)
    requires Inv(c, db) && g.claims.grantId == o.grantId && CurrentPolicy(db) == Some(g.claims.policyRevision)
    ensures Unused(c, db, init, o, g) <==>
              !DeviceConflict(db, o.deviceId, init, o.grantId) && !RevisionConflict(c, db, g)
  {
    PolicyFacts(c, db);
    NoRevisionWithoutLineage(c, db, o.grantId, g.claims.revision);
    hide Inv, CurrentPolicy;
  }

  lemma NoRevisionWithoutLineage(c: Crypto, db: Db, g: Id, revision: int)
    requires Inv(c, db)
    ensures GrantKey(g, revision) in db.revisions ==> g in db.lineages
  {
    hide PoliciesOk, DevicesOk, GrantsOk, QuotasOk, QueueOk, PairingsOk, ClaimsOk, Chained;
    assert GrantKey(g, revision) in db.revisions ==> GrantKey(g, revision) in Live(db.revisions);
  }

  /** Every outcome of the owner's denial on an unlocked service. */
  lemma OwnerDeniesExactly(c: Crypto, db: Db, p: Id, confirmed: bool, shownAt: int, now: int)
    returns (shown: Db)
    requires Inv(c, db) && IsTimestamp(shownAt) && IsTimestamp(now)
    ensures Swept(db, shown, shownAt)
    ensures var (after, reply) := OwnerDenies(c, db, true, p, confirmed, shownAt, now);
            if p !in db.pairings || !db.pairings[p].decision.Pending? || db.pairings[p].exchange.deadline <= shownAt
            then after == shown && reply == Raised(RequestReplayed)
            else if !confirmed then after == shown && reply == Raised(InteractiveUnlockRequired)
            else if db.pairings[p].exchange.deadline <= now then after == shown && reply == Raised(RequestReplayed)
            else
              && reply == Done(())
              && after == shown.(pairings := shown.pairings[p :=
                   PairingRow(db.pairings[p].exchange, None, Denied, Some(now), None, None)])
  {
    hide Inv, PairingById, Swept;
    shown := PairingById(c, db, p, shownAt).0;
    PairingShown(c, db, p, shownAt);
    if p in db.pairings {
      ShownRow(db, shown, p, shownAt);
      if db.pairings[p].decision.Pending? { PendingRow(c, db, p); }
    }
  }
}
