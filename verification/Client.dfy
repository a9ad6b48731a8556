/** The VPS side of pairing (connector/client.py): what one profile file may become, and what a
    committed profile says about the Connector. */
module Profiles {
  import opened Prelude
  import opened Limits
  import opened Errors
  import opened Records
  import opened Trust
  import opened Store
  import opened StoreInvariant
  import opened StoreRun

  datatype Profile =
    | Pending(endpoint: string, vpsKeyId: Id, init: PairingInit, challenge: Option<PairingChallenge>,
              leaf: Option<string>)
    | Paired(endpoint: string, vpsKeyId: Id, connectorKey: string, caDer: string, grant: SignedGrant,
             complete: PairingComplete)

  /** the endpoint digest, and verify_connector_ca_der for a CA, the identity it must name, and a time */
  datatype Endpoints = Endpoints(digest: string -> string, caTrusted: (string, string, int) -> bool)

  // ------------------------------------------------------------------ verification on the VPS

  /** verify_pairing_complete */
  predicate VerifyComplete(
    c: Crypto, r: PairingComplete, connectorKey: string, pairingId: Id, vpsKeyId: Id, transcript: string,
    grantDigest: string, deadline: int, now: int)
  {
    && c.verifies(connectorKey, CompleteRecord(r))
    && IsTimestamp(deadline) && IsTimestamp(now)
    && Some(r.connectorKeyId) == c.keyId(connectorKey)
    && r.pairingId == pairingId && r.vpsKeyId == vpsKeyId
    && r.transcriptDigest == transcript && r.signedGrantDigest == grantDigest
    && r.completedAt <= deadline
    && now < deadline && r.completedAt <= now + CLOCK_SKEW_SECONDS
  }

  /** verify_pairing_resolution */
  predicate VerifyResolution(
    c: Crypto, r: PairingResolution, init: PairingInit, challenge: PairingChallenge, leaf: string, now: int)
  {
    && VerifyInit(c, init, now)
    && VerifyChallenge(c, challenge, init.pairingId, init.vpsKeyId, c.digest(InitRecord(init)), leaf, now)
    && c.keyId(challenge.connectorPublicKey).Some?
    && VerifyGrant(c, r.signedGrant, challenge.connectorPublicKey, c.keyId(challenge.connectorPublicKey).value,
                   init.vpsKeyId, now)
    && r.signedGrant.claims.revision == 1
    && r.signedGrant.claims.expiresAt == init.grantExpiresAt
    && r.signedGrant.claims.maxUses == init.grantMaxUses
    && r.signedGrant.claims.scopes == init.requestedScopes
    && VerifyComplete(c, r.pairingComplete, challenge.connectorPublicKey, init.pairingId, init.vpsKeyId,
                      c.transcript(init, challenge, leaf), c.digest(GrantRecord(r.signedGrant)), challenge.deadline,
                      now)
  }

  /** _validate_pending_profile */
  predicate PendingValid(c: Crypto, e: Endpoints, p: Profile) {
    && p.Pending?
    && p.init.vpsKeyId == p.vpsKeyId && p.init.endpointDigest == e.digest(p.endpoint)
    && c.keyId(p.init.vpsPublicKey).Some? && c.verifies(p.init.vpsPublicKey, InitRecord(p.init))
    && (p.challenge.Some? <==> p.leaf.Some?)
    && (p.challenge.Some? ==>
          var ch := p.challenge.value;
          && c.keyId(ch.connectorPublicKey).Some? && c.verifies(ch.connectorPublicKey, ChallengeRecord(ch))
          && ch.pairingId == p.init.pairingId && ch.vpsKeyId == p.vpsKeyId
          && ch.initDigest == c.digest(InitRecord(p.init)) && ch.tlsLeafFingerprint == p.leaf.value)
  }

  /** _validate_paired_profile */
  predicate PairedValid(c: Crypto, e: Endpoints, p: Profile, now: int) {
    && p.Paired?
    && c.verifies(p.connectorKey, GrantRecord(p.grant)) && c.verifies(p.connectorKey, CompleteRecord(p.complete))
    && e.caTrusted(p.caDer, p.connectorKey, now)
    && Some(p.grant.claims.issuerKeyId) == c.keyId(p.connectorKey) && p.grant.claims.subjectKeyId == p.vpsKeyId
    && Some(p.complete.connectorKeyId) == c.keyId(p.connectorKey) && p.complete.vpsKeyId == p.vpsKeyId
    && p.complete.signedGrantDigest == c.digest(GrantRecord(p.grant))
  }

  // ------------------------------------------------------------------ the file

  predicate SameRequest(a: Profile, b: Profile)
    requires a.Pending? && b.Pending?
  {
    a.endpoint == b.endpoint && a.vpsKeyId == b.vpsKeyId && a.init == b.init
  }

  /** save_pending may replace the stored profile by this one */
  predicate MayReplace(current: Profile, next: Profile)
    requires current.Pending? && next.Pending?
  {
    || current == next
    || (SameRequest(current, next) && current.challenge.None? && current.leaf.None? && next.challenge.Some?
        && next.leaf.Some?)
    || (current.init.deadline <= next.init.issuedAt && next.challenge.None? && next.leaf.None?)
  }

  function SavePending(c: Crypto, e: Endpoints, file: Option<Profile>, profile: Profile): (Option<Profile>, Reply<()>)
    requires profile.Pending?
  {
    if !PendingValid(c, e, profile) then (file, Raised(ConnectorStateInvalid))
    else if file.Some? && file.value.Paired? then (file, Raised(ConnectorStateInvalid))
    else if file.Some? && !MayReplace(file.value, profile) then (file, Raised(ConnectorStateInvalid))
    else (Some(profile), Done(()))
  }

  function Committed(p: Profile, r: PairingResolution): Profile
    requires p.Pending? && p.challenge.Some?
  {
    Paired(
      p.endpoint, p.vpsKeyId, p.challenge.value.connectorPublicKey, p.challenge.value.tlsCaDer, r.signedGrant,
      r.pairingComplete)
  }

  function CommitPaired(
    c: Crypto, e: Endpoints, file: Option<Profile>, pending: Profile, r: PairingResolution, now: int)
    : (Option<Profile>, Reply<Profile>)
    requires pending.Pending?
  {
    if !IsTimestamp(now) then (file, Rejected)
    else if file != Some(pending) || pending.challenge.None? || pending.leaf.None?
    then (file, Raised(ConnectorStateInvalid))
    else if !VerifyResolution(c, r, pending.init, pending.challenge.value, pending.leaf.value, now)
    then (file, Raised(ConnectorProtocolMismatch))
    else
      var paired := Committed(pending, r);
      if !PairedValid(c, e, paired, now) then (file, Raised(ConnectorStateInvalid)) else (Some(paired), Done(paired))
  }

  class VpsProfileStore {
    const crypto: Crypto
    const endpoints: Endpoints
    var file: Option<Profile>

    constructor (crypto: Crypto, endpoints: Endpoints)
      ensures this.crypto == crypto && this.endpoints == endpoints && file.None?
    {
      this.crypto, this.endpoints, file := crypto, endpoints, None;
    }

    method Save(profile: Profile) returns (reply: Reply<()>)
      requires profile.Pending?
      modifies this`file
      ensures (file, reply) == SavePending(crypto, endpoints, old(file), profile)
    {
      if !PendingValid(crypto, endpoints, profile) { return Raised(ConnectorStateInvalid); }
      match file {
        case None =>
        case Some(Paired(_, _, _, _, _, _)) => return Raised(ConnectorStateInvalid);
        case Some(current) =>
          var fill := SameRequest(current, profile) && current.challenge.None? && current.leaf.None?
                      && profile.challenge.Some? && profile.leaf.Some?;
          var expired :=
            current.init.deadline <= profile.init.issuedAt && profile.challenge.None? && profile.leaf.None?;
          if current != profile && !fill && !expired { return Raised(ConnectorStateInvalid); }
      }
      file := Some(profile);
      return Done(());
    }

    method Commit(pending: Profile, r: PairingResolution, now: int) returns (reply: Reply<Profile>)
      requires pending.Pending?
      modifies this`file
      ensures (file, reply) == CommitPaired(crypto, endpoints, old(file), pending, r, now)
    {
      if !IsTimestamp(now) { return Rejected; }
      if file != Some(pending) || pending.challenge.None? { return Raised(ConnectorStateInvalid); }
      if pending.leaf.None? { return Raised(ConnectorStateInvalid); }
      var challenge := pending.challenge.value;
      if !VerifyResolution(crypto, r, pending.init, challenge, pending.leaf.value, now) {
        return Raised(ConnectorProtocolMismatch);
      }
      var paired := Committed(pending, r);
      if !PairedValid(crypto, endpoints, paired, now) { return Raised(ConnectorStateInvalid); }
      file := Some(paired);
      return Done(paired);
    }
  }

  // ------------------------------------------------------------------ runs of profile writes

  datatype Write = Save(profile: Profile) | Commit(pending: Profile, resolution: PairingResolution, now: int)

  predicate WellFormedWrite(w: Write) {
    match w
    case Save(p) => p.Pending? && InitBounds(p.init)
    case Commit(p, _, _) => p.Pending? && InitBounds(p.init)
  }

  function Written(c: Crypto, e: Endpoints, file: Option<Profile>, w: Write): Option<Profile>
    requires WellFormedWrite(w)
  {
    match w
    case Save(p) => SavePending(c, e, file, p).0
    case Commit(p, r, now) => CommitPaired(c, e, file, p, r, now).0
  }

  /** the file after the first n writes */
  function FileAfter(c: Crypto, e: Endpoints, ws: seq<Write>, n: nat): Option<Profile>
    requires n <= |ws| && forall w | w in ws :: WellFormedWrite(w)
  {
    if n == 0 then None else Written(c, e, FileAfter(c, e, ws, n - 1), ws[n - 1])
  }

  /** How the file may have moved on: nothing is ever removed, paired is final, a pending request keeps
      its one challenge until it is paired, and a replacement request is issued no earlier than the
      deadline of the one it replaces. */
  ghost predicate MovedOn(a: Option<Profile>, b: Option<Profile>) {
    match a
    case None => true
    case Some(Paired(_, _, _, _, _, _)) => b == a
    case Some(p) =>
      && b.Some?
      && (b.value.Pending? ==>
            || (SameRequest(p, b.value) && (p.challenge.Some? ==> b.value == p))
            || p.init.deadline <= b.value.init.issuedAt)
  }

  ghost predicate Sound(file: Option<Profile>) {
    file.Some? && file.value.Pending? ==>
      InitBounds(file.value.init) && (file.value.challenge.Some? <==> file.value.leaf.Some?)
  }

  lemma WriteMovesOn(c: Crypto, e: Endpoints, file: Option<Profile>, w: Write)
    requires WellFormedWrite(w) && Sound(file)
    ensures Sound(Written(c, e, file, w)) && MovedOn(file, Written(c, e, file, w))
  {
    hide InitBounds, VerifyResolution, PairedValid;
  }

  lemma MovedOnTransitive(a: Option<Profile>, b: Option<Profile>, d: Option<Profile>)
    requires Sound(a) && Sound(b) && Sound(d) && MovedOn(a, b) && MovedOn(b, d)
    ensures MovedOn(a, d)
  {
  }

  /** Over any run of profile writes, from any earlier point to any later one, the file has moved on. */
  lemma {:induction false} FileMovesOn(c: Crypto, e: Endpoints, ws: seq<Write>, i: nat, n: nat)
    requires i <= n <= |ws| && forall w | w in ws :: WellFormedWrite(w)
    ensures Sound(FileAfter(c, e, ws, i)) && Sound(FileAfter(c, e, ws, n))
    ensures MovedOn(FileAfter(c, e, ws, i), FileAfter(c, e, ws, n))
    decreases n
  {
    hide Written, MovedOn, Sound;
    if n == 0 {
      EmptyFile(c, e, ws);
    } else if i == n {
      FileMovesOn(c, e, ws, n - 1, n - 1);
      WriteMovesOn(c, e, FileAfter(c, e, ws, n - 1), ws[n - 1]);
      MovedOnReflexive(FileAfter(c, e, ws, n));
    } else {
      FileMovesOn(c, e, ws, i, n - 1);
      WriteMovesOn(c, e, FileAfter(c, e, ws, n - 1), ws[n - 1]);
      MovedOnTransitive(FileAfter(c, e, ws, i), FileAfter(c, e, ws, n - 1), FileAfter(c, e, ws, n));
    }
  }

  lemma EmptyFile(c: Crypto, e: Endpoints, ws: seq<Write>)
    requires forall w | w in ws :: WellFormedWrite(w)
    ensures Sound(FileAfter(c, e, ws, 0)) && MovedOn(FileAfter(c, e, ws, 0), FileAfter(c, e, ws, 0))
  {
  }

  lemma MovedOnReflexive(a: Option<Profile>)
    ensures MovedOn(a, a)
  {
  }

  /** Paired is absorbing: once a profile is committed no later write changes the file. */
  lemma PairedIsFinal(c: Crypto, e: Endpoints, ws: seq<Write>, i: nat, n: nat)
    requires i <= n <= |ws| && forall w | w in ws :: WellFormedWrite(w)
    requires FileAfter(c, e, ws, i).Some? && FileAfter(c, e, ws, i).value.Paired?
    ensures FileAfter(c, e, ws, n) == FileAfter(c, e, ws, i)
  {
    FileMovesOn(c, e, ws, i, n);
  }

  /** A different pending request stored later was issued strictly later. */
  lemma ReplacementsMoveForward(c: Crypto, e: Endpoints, ws: seq<Write>, i: nat, n: nat)
    requires i <= n <= |ws| && forall w | w in ws :: WellFormedWrite(w)
    requires FileAfter(c, e, ws, i).Some? && FileAfter(c, e, ws, i).value.Pending?
    requires FileAfter(c, e, ws, n).Some? && FileAfter(c, e, ws, n).value.Pending?
    requires FileAfter(c, e, ws, i).value.init != FileAfter(c, e, ws, n).value.init
    ensures FileAfter(c, e, ws, i).value.init.issuedAt < FileAfter(c, e, ws, n).value.init.issuedAt
  {
    FileMovesOn(c, e, ws, i, n);
  }

  /** One request is never stored with two different challenges. */
  lemma OneChallengeEach(c: Crypto, e: Endpoints, ws: seq<Write>, i: nat, n: nat)
    requires i <= n <= |ws| && forall w | w in ws :: WellFormedWrite(w)
    requires FileAfter(c, e, ws, i).Some? && FileAfter(c, e, ws, i).value.Pending?
    requires FileAfter(c, e, ws, n).Some? && FileAfter(c, e, ws, n).value.Pending?
    requires FileAfter(c, e, ws, i).value.init == FileAfter(c, e, ws, n).value.init
    requires FileAfter(c, e, ws, i).value.challenge.Some?
    ensures FileAfter(c, e, ws, n) == FileAfter(c, e, ws, i)
  {
    FileMovesOn(c, e, ws, i, n);
  }

  // ------------------------------------------------------------------ agreement with the Connector

  /** _pairing_complete: the Connector signs a completion only for a pairing row it loaded as approved,
      and the completion repeats that row */
  ghost predicate CompletionOf(c: Crypto, db: Db, p: Id, complete: PairingComplete) {
    && p in db.pairings && db.pairings[p].decision.Approved? && PairingLoads(c, db, p)
    && var row := db.pairings[p];
    && row.decidedAt.Some?
    && complete.pairingId == row.exchange.init.pairingId
    && Some(complete.transcriptDigest) == row.transcript
    && complete.vpsKeyId == row.exchange.init.vpsKeyId
    && complete.signedGrantDigest == c.digest(GrantRecord(db.revisions[row.grant.value].stored.record))
    && complete.completedAt == row.decidedAt.value
  }

  /** two different exchanges with one transcript hash, or two different grants with one digest */
  ghost predicate HashCollision(
    c: Crypto, init: PairingInit, challenge: PairingChallenge, leaf: string, x: Exchange, a: SignedGrant,
    b: SignedGrant)
  {
    || (c.transcript(init, challenge, leaf) == TranscriptOf(c, x)
        && !(init == x.init && challenge == x.challenge && leaf == x.challenge.tlsLeafFingerprint))
    || (c.digest(GrantRecord(a)) == c.digest(GrantRecord(b)) && a != b)
  }

  /** If the VPS verifies a resolution whose completion the Connector made, then (unless a hash collides)
      the Connector had earlier approved exactly the init, challenge and leaf the VPS verified, with
      that transcript digest, and with exactly the revision-1 grant the VPS now holds, whose scopes,
      expiry and uses are the requested ones. */
  lemma PairingAgreement(
    c: Crypto, policyDigest: string, created: int, es: seq<Event>, n: nat, p: Id,
    init: PairingInit, challenge: PairingChallenge, leaf: string, r: PairingResolution, now: int)
    returns (h: nat)
    requires Run(c, es) && n <= |es|
    requires VerifyResolution(c, r, init, challenge, leaf, now)
    requires CompletionOf(c, After(c, Initial(policyDigest, created), es, n), p, r.pairingComplete)
    ensures h < n && ApprovedAt(c, Initial(policyDigest, created), es, h)
    ensures var start := Initial(policyDigest, created);
            var x := After(c, start, es, h).pairings[es[h].pairingId].exchange;
            || HashCollision(c, init, challenge, leaf, x, r.signedGrant, es[h].grant)
            || (x.init == init && x.challenge == challenge
                && es[h].pairingId == init.pairingId
                && es[h].transcript == c.transcript(init, challenge, leaf)
                && es[h].grant == r.signedGrant
                && r.signedGrant.claims.revision == 1
                && r.signedGrant.claims.scopes == init.requestedScopes
                && r.signedGrant.claims.expiresAt == init.grantExpiresAt
                && r.signedGrant.claims.maxUses == init.grantMaxUses)
  {
    hide Next, ApprovalDone, VerifyInit, VerifyChallenge, VerifyGrant, Projected;
    var start := Initial(policyDigest, created);
    var db := After(c, start, es, n);
    h := ApprovalOrigin(c, start, es, n, p);
    var before := After(c, start, es, h);
    ApprovalFacts(c, before, p, es[h].deviceId, es[h].transcript, es[h].grant, es[h].now);
    ApprovedGrantStays(c, start, es, h, n);
  }
}

/** The client's loops (connector/client.py): the one retry of an operation, and polling for a pairing. */
module ClientLoops {
  import opened Prelude
  import opened Errors
  import opened Records
  import opened EndToEnd
  import opened Profiles

  datatype Attempt = Responded(frame: OperationResponse) | Faulted(code: ErrorCode, delivery: Delivery)

  /** _exchange_with_retry: `outcomes` is what the transport would do each time it is asked. It is asked
      a second time exactly after an offline or deadline fault that was not a delivered answer, while there
      is time, never a third time, and the last outcome is the caller's. The first send may have executed
      when its delivery is unknown; what keeps the second from executing again is the replay check. */
  method ExchangeWithRetry(outcomes: seq<Attempt>, pastDeadline: bool) returns (sends: nat, final: Attempt)
    requires |outcomes| >= 2
    ensures 1 <= sends <= 2 && final == outcomes[sends - 1]
    ensures sends == 2 <==>
              && outcomes[0].Faulted? && !pastDeadline
              && (outcomes[0].code == ConnectorOffline || outcomes[0].code == ConnectorDeadlineExceeded)
              && outcomes[0].delivery != Delivered
  {
    sends, final := 0, outcomes[0];
    for attempt := 0 to 2
      invariant sends == attempt
      invariant attempt > 0 ==>
                  outcomes[0].Faulted? && RetryEligible(outcomes[0].code, outcomes[0].delivery, pastDeadline)
      invariant attempt > 0 ==> final == outcomes[attempt - 1]
    {
      final := outcomes[attempt];
      sends := sends + 1;
      if final.Responded? { return; }
      if !(attempt == 0 && RetryEligible(final.code, final.delivery, pastDeadline)) { return; }
    }
  }

  /** one turn of the polling loop: the clock before asking, the answer, and the clock after it */
  datatype Turn = Turn(before: int, answer: Option<PairingResolution>, after: int)

  /** what the turns come to, by the first turn that ends the loop; None while none has */
  function Outcome(turns: seq<Turn>, deadline: int): (r: Option<Reply<(PairingResolution, int)>>)
    ensures r.Some? && r.value.Done? ==> exists i :: 0 <= i < |turns| && turns[i].before < deadline
                                          && turns[i].answer == Some(r.value.value.0)
                                          && turns[i].after == r.value.value.1
  {
    if turns == [] then None
    else if turns[0].before >= deadline then Some(Raised(ConnectorDeadlineExceeded))
    else if turns[0].answer.Some? then Some(Done((turns[0].answer.value, turns[0].after)))
    else if deadline - turns[0].after <= 0 then Some(Raised(ConnectorDeadlineExceeded))
    else
      assert forall i | 0 <= i < |turns| - 1 :: turns[1..][i] == turns[i + 1];
      Outcome(turns[1..], deadline)
  }

  /** the loop of VpsPairingOrchestrator.pair: it asks only before the challenge's deadline, commits the
      first answer it gets against the exact pending profile, and otherwise leaves the file alone */
  method AwaitPairing(store: VpsProfileStore, pending: Profile, turns: seq<Turn>)
    returns (reply: Option<Reply<Profile>>)
    requires pending.Pending? && pending.challenge.Some?
    modifies store`file
    ensures var outcome := Outcome(turns, pending.challenge.value.deadline);
            match outcome
            case None => reply.None? && store.file == old(store.file)
            case Some(Done(found)) =>
              reply.Some?
              && (store.file, reply.value) ==
                 CommitPaired(store.crypto, store.endpoints, old(store.file), pending, found.0, found.1)
            case Some(Raised(code)) => reply == Some(Raised(code)) && store.file == old(store.file)
            case Some(Rejected) => false
  {
    var deadline := pending.challenge.value.deadline;
    var i := 0;
    while i < |turns|
      invariant 0 <= i <= |turns| && store.file == old(store.file)
      invariant Outcome(turns, deadline) == Outcome(turns[i..], deadline)
    {
      assert turns[i..][0] == turns[i] && turns[i..][1..] == turns[i + 1..];
      if turns[i].before >= deadline { return Some(Raised(ConnectorDeadlineExceeded)); }
      if turns[i].answer.Some? {
        var committed := store.Commit(pending, turns[i].answer.value, turns[i].after);
        return Some(committed);
      }
      if deadline - turns[i].after <= 0 { return Some(Raised(ConnectorDeadlineExceeded)); }
      i := i + 1;
    }
    assert turns[i..] == [];
    return None;
  }
}
