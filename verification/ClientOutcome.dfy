/** What the VPS side of pairing does with every input (connector/client.py): when a pending profile is stored, when a
    resolution is committed, and how the polling loop ends; and that a pairing carried through by both sides ends
    paired. */
module ClientOutcome {
  import opened Prelude
  import opened Limits
  import opened Errors
  import opened Records
  import opened Trust
  import opened Store
  import opened StoreInvariant
  import opened StoreRun
  import opened Profiles
  import opened Service
  import opened ClientLoops

  // ------------------------------------------------------------------ the profile file

  /** the stored profile may give way: it is the same one, or the same request without the challenge that the new one
      brings, or a request that had run out when the new one was issued, which must start without a challenge */
  predicate GivesWay(current: Profile, next: Profile)
    requires current.Pending? && next.Pending?
  {
    || current == next
    || (current == next.(challenge := None, leaf := None) && next.challenge.Some? && next.leaf.Some?)
    || (current.init.deadline <= next.init.issuedAt && next.challenge.None? && next.leaf.None?)
  }

  /** A valid pending profile is stored exactly over nothing or over a pending one that gives way. */
  lemma SavedExactly(c: Crypto, e: Endpoints, file: Option<Profile>, profile: Profile)
    requires profile.Pending?
    ensures var (after, reply) := SavePending(c, e, file, profile);
            if PendingValid(c, e, profile) && (file.None? || (file.value.Pending? && GivesWay(file.value, profile)))
            then after == Some(profile) && reply == Done(())
            else after == file && reply == Raised(ConnectorStateInvalid)
  {
    hide PendingValid;
  }

  /** What the VPS stores is valid: its own signed request for its endpoint, and with it any challenge that verifies
      for that request with the leaf that was observed. */
  lemma OwnPendingIsValid(c: Crypto, e: Endpoints, endpoint: string, init: PairingInit, ch: PairingChallenge, now: int)
    requires VerifyInit(c, init, now) && init.endpointDigest == e.digest(endpoint)
    requires VerifyChallenge(c, ch, init.pairingId, init.vpsKeyId, c.digest(InitRecord(init)), ch.tlsLeafFingerprint,
                             now)
    ensures PendingValid(c, e, Profile.Pending(endpoint, init.vpsKeyId, init, None, None))
    ensures PendingValid(c, e, Profile.Pending(endpoint, init.vpsKeyId, init, Some(ch), Some(ch.tlsLeafFingerprint)))
  {
  }

  /** A resolution is committed exactly against the stored profile, when it verifies for it now and its certificate
      authority does; every other case has its own answer and leaves the file alone. */
  lemma CommittedExactly(
    c: Crypto, e: Endpoints, file: Option<Profile>, pending: Profile, r: PairingResolution, now: int)
    requires pending.Pending? && PendingValid(c, e, pending)
    ensures var (after, reply) := CommitPaired(c, e, file, pending, r, now);
            if !IsTimestamp(now) then after == file && reply == Rejected
            else if file != Some(pending) || pending.challenge.None?
            then after == file && reply == Raised(ConnectorStateInvalid)
            else
              var ch := pending.challenge.value;
              if !VerifyResolution(c, r, pending.init, ch, pending.leaf.value, now)
              then after == file && reply == Raised(ConnectorProtocolMismatch)
              else if !e.caTrusted(ch.tlsCaDer, ch.connectorPublicKey, now)
              then after == file && reply == Raised(ConnectorStateInvalid)
              else
                && reply.Done? && after == Some(reply.value)
                && reply.value == Paired(pending.endpoint, pending.vpsKeyId, ch.connectorPublicKey, ch.tlsCaDer,
                                         r.signedGrant, r.pairingComplete)
  {
    hide VerifyInit, VerifyChallenge;
  }

  // ------------------------------------------------------------------ one context each

  /** A challenge verifies in one context only: for one pairing, one VPS key, one request and one observed leaf. */
  lemma ChallengeInOneContext(
    c: Crypto, ch: PairingChallenge, p: Id, v: Id, d: string, leaf: string, now: int, p': Id, v': Id, d': string,
    leaf': string, later: int)
    requires VerifyChallenge(c, ch, p, v, d, leaf, now) && VerifyChallenge(c, ch, p', v', d', leaf', later)
    ensures p == p' && v == v' && d == d' && leaf == leaf'
  {
  }

  /** Two resolutions that verify for one exchange carry the same terms: the grant of its request, issued by its
      Connector to its VPS as a first revision, and a completion of that pairing, transcript and grant. */
  lemma ResolutionsAgree(
    c: Crypto, a: PairingResolution, b: PairingResolution, init: PairingInit, ch: PairingChallenge, leaf: string,
    now: int, later: int)
    requires VerifyResolution(c, a, init, ch, leaf, now) && VerifyResolution(c, b, init, ch, leaf, later)
    ensures var x, y := a.signedGrant.claims, b.signedGrant.claims;
            && x.issuerKeyId == y.issuerKeyId && x.subjectKeyId == y.subjectKeyId && x.revision == y.revision
            && x.expiresAt == y.expiresAt && x.maxUses == y.maxUses && x.scopes == y.scopes
    ensures var x, y := a.pairingComplete, b.pairingComplete;
            && x.pairingId == y.pairingId && x.connectorKeyId == y.connectorKeyId && x.vpsKeyId == y.vpsKeyId
            && x.transcriptDigest == y.transcriptDigest
            && x.signedGrantDigest == c.digest(GrantRecord(a.signedGrant))
            && y.signedGrantDigest == c.digest(GrantRecord(b.signedGrant))
    ensures c.verifies(ch.connectorPublicKey, GrantRecord(a.signedGrant))
    ensures c.verifies(ch.connectorPublicKey, CompleteRecord(a.pairingComplete))
  {
  }

  // ------------------------------------------------------------------ the polling loop

  /** the loop gets past this turn: it asked in time, got no answer, and there was time left after asking */
  predicate Passed(t: Turn, deadline: int) {
    t.before < deadline && t.answer.None? && t.after < deadline
  }

  /** The loop ends at the first turn it does not get past: with that turn's answer if it asked in time and got one,
      and with the deadline otherwise. */
  lemma {:induction false} LoopEndsAt(turns: seq<Turn>, deadline: int, i: nat)
    requires i <= |turns| && forall j | 0 <= j < i :: Passed(turns[j], deadline)
    ensures i == |turns| ==> ClientLoops.Outcome(turns, deadline).None?
    ensures i < |turns| && !Passed(turns[i], deadline) ==>
              ClientLoops.Outcome(turns, deadline) ==
                if turns[i].before < deadline && turns[i].answer.Some?
                then Some(Done((turns[i].answer.value, turns[i].after)))
                else Some(Raised(ConnectorDeadlineExceeded))
    decreases i
  {
    if i > 0 {
      assert forall j | 0 <= j < i - 1 :: turns[1..][j] == turns[j + 1];
      LoopEndsAt(turns[1..], deadline, i - 1);
    }
  }

  // ------------------------------------------------------------------ a pairing carried through

  /** A pairing that the owner approved completes: the VPS that stored its request and the handler's challenge commits
      the resolution the handler answers with, exactly from the approval on until the pairing or the grant runs out,
      and holds the very grant that was approved. */
  lemma PairingCompletes(
    c: Crypto, e: Endpoints, policyDigest: string, created: int, es: seq<Event>, n: nat,
    sign: SignedRecord -> Bytes, init: PairingInit, m: Material, f: Fresh, now: int, endpoint: string, v: int)
    returns (h: nat)
    requires Run(c, es) && Ordered(es) && GrantsStartNow(es) && n <= |es| && OwnKey(c, sign)
    requires var pairings := After(c, Initial(policyDigest, created), es, n).pairings;
             init.pairingId in pairings && pairings[init.pairingId].decision.Approved?
             && pairings[init.pairingId].exchange.init == init
    requires VerifyInit(c, init, now) && init.endpointDigest == e.digest(endpoint)
    ensures h < n && ApprovedAt(c, Initial(policyDigest, created), es, h) && es[h].pairingId == init.pairingId
    ensures var db := After(c, Initial(policyDigest, created), es, n);
            var ch := db.pairings[init.pairingId].exchange.challenge;
            var asked := Profile.Pending(endpoint, init.vpsKeyId, init, None, None);
            var shown := Profile.Pending(endpoint, init.vpsKeyId, init, Some(ch), Some(ch.tlsLeafFingerprint));
            var first := SavePending(c, e, None, asked);
            var second := SavePending(c, e, first.0, shown);
            var reply := HandlePairing(c, db, sign, init, m, f, now).1;
            && first.1.Done? && second == (Some(shown), Done(()))
            && reply.Resolved?
            && var (file, done) := CommitPaired(c, e, second.0, shown, reply.resolution, v);
            && (done.Done? <==>
                  es[h].now <= v < Min(init.deadline, init.grantExpiresAt)
                  && e.caTrusted(ch.tlsCaDer, c.connectorKey, v))
            && (done.Done? ==> file.Some? && file.value.Paired? && file.value.grant == es[h].grant)
            && (!done.Done? ==> file == Some(shown))
  {
    hide Next, ApprovalDone, HandlePairing, VerifyResolution, OwnKey, VerifyInit, Inv, OpenAccepts, ExchangeLoads,
         PendingValid, CommitPaired, SavePending;
    var start := Initial(policyDigest, created);
    h := AcceptedFromApproval(c, policyDigest, created, es, n, sign, init, m, f, now, v);
    ApprovedFigures(c, start, es, h);
    var db := After(c, start, es, n);
    RunOpens(c, policyDigest, created, es, n);
    StoredFacts(c, db, init.pairingId);
    var x := db.pairings[init.pairingId].exchange;
    var ch := x.challenge;
    LoadedIsValid(c, e, endpoint, x);
    var asked := Profile.Pending(endpoint, init.vpsKeyId, init, None, None);
    var shown := Profile.Pending(endpoint, init.vpsKeyId, init, Some(ch), Some(ch.tlsLeafFingerprint));
    SavedExactly(c, e, None, asked);
    SavedExactly(c, e, Some(asked), shown);
    CommittedExactly(c, e, Some(shown), shown, HandlePairing(c, db, sign, init, m, f, now).1.resolution, v);
    InWindowIsTime(init, v, es[h].now);
  }

  lemma LoadedIsValid(c: Crypto, e: Endpoints, endpoint: string, x: Exchange)
    requires ExchangeLoads(c, x.init.pairingId, x) && x.init.endpointDigest == e.digest(endpoint)
    ensures x.challenge.connectorPublicKey == c.connectorKey
    ensures PendingValid(c, e, Profile.Pending(endpoint, x.init.vpsKeyId, x.init, None, None))
    ensures PendingValid(c, e, Profile.Pending(endpoint, x.init.vpsKeyId, x.init, Some(x.challenge),
                                               Some(x.challenge.tlsLeafFingerprint)))
  {
  }

  lemma InWindowIsTime(init: PairingInit, v: int, at: int)
    requires InitBounds(init)
    ensures 0 <= at <= v < Min(init.deadline, init.grantExpiresAt) ==> IsTimestamp(v)
  {
  }
}
