/** The authority database (connector/store.py): its tables as maps, and each transaction of
    AuthorityStore as a function from the tables before it to the tables after it and the reply.

    A transaction that raises leaves the tables as they were, except that approving an expired
    pairing commits the expiry before it raises.
 */
module Store {
  import opened Prelude
  import opened Limits
  import opened Errors
  import opened Records
  import opened Trust

  datatype DeviceRow = DeviceRow(deviceLabel: string, pairedAt: int, revokedAt: Option<int>)
  datatype KeyRow = KeyRow(deviceId: Id, sequence: nat, publicKey: string, activatedAt: int, retiredAt: Option<int>)
  datatype PairingDecision = Pending | Approved | Denied | Expired
  /** the columns of a pairing that are written once, when it is opened */
  datatype Exchange = Exchange(
    vpsKeyId: Id, vpsPublicKey: string, init: PairingInit, initDigest: string, challenge: PairingChallenge,
    deadline: int)
  datatype PairingRow = PairingRow(
    exchange: Exchange, transcript: Option<string>, decision: PairingDecision, decidedAt: Option<int>,
    deviceId: Option<Id>, grant: Option<GrantKey>)
  datatype PolicyRow = PolicyRow(digest: string, createdAt: int, replacedAt: Option<int>)
  datatype LineageRow = LineageRow(deviceId: Id, createdAt: int, revokedAt: Option<int>)
  datatype GrantKey = GrantKey(grantId: Id, revision: int)
  /** the columns of grant_revisions that its static trigger forbids changing */
  datatype StoredGrant = StoredGrant(
    record: SignedGrant, digest: string, issuerKeyId: Id, subjectKeyId: Id, issuedAt: int, notBefore: int,
    expiresAt: int, policyRevision: int, maxUses: int)
  datatype RevisionRow = RevisionRow(stored: StoredGrant, usedCount: int, supersededAt: Option<int>)
  datatype ClaimRow = ClaimRow(
    traceId: string, deviceId: Id, subjectKeyId: Id, grant: GrantKey, policyRevision: int, source: string,
    operation: string, payloadDigest: string, decision: Decision, cause: Option<ErrorCode>, claimedAt: int,
    usage: Option<ReceiptUsage>, completedAt: Option<int>, receiptDigest: Option<string>)

  /** One field a table. `scopes` holds the grant_scopes rows of a grant revision in their
      ORDER BY source, operation order. */
  datatype Db = Db(
    devices: map<Id, DeviceRow>,
    keys: map<Id, KeyRow>,
    pairings: map<Id, PairingRow>,
    policies: map<int, PolicyRow>,
    lineages: map<Id, LineageRow>,
    revisions: map<GrantKey, RevisionRow>,
    scopes: map<GrantKey, seq<Scope>>,
    claims: map<Id, ClaimRow>)

  datatype ClaimResult = ClaimResult(
    accepted: bool, cause: Option<ErrorCode>, usage: Option<ReceiptUsage>, policyDigest: Option<string>)

  // ------------------------------------------------------------------ queries

  predicate LivePolicy(db: Db, revision: int) {
    revision in db.policies && db.policies[revision].replacedAt.None?
  }

  /** _current_policy_revision: exactly one live row, or None where the source raises */
  function CurrentPolicy(db: Db): Option<int> {
    if exists r | r in db.policies :: LivePolicy(db, r) && forall q | q in db.policies :: LivePolicy(db, q) ==> q == r
    then
      var r :| r in db.policies && LivePolicy(db, r) && forall q | q in db.policies :: LivePolicy(db, q) ==> q == r;
      Some(r)
    else None
  }

  predicate IsLiveKey(db: Db, k: GrantKey) {
    k in db.revisions && db.revisions[k].supersededAt.None?
  }

  /** the row of one grant whose superseded_at is NULL (a unique index keeps it single) */
  function CurrentRevision(db: Db, grantId: Id): Option<GrantKey> {
    if exists k | k in db.revisions ::
         k.grantId == grantId && IsLiveKey(db, k) &&
         forall q | q in db.revisions :: q.grantId == grantId && IsLiveKey(db, q) ==> q == k
    then
      var k :| k in db.revisions && k.grantId == grantId && IsLiveKey(db, k) &&
               forall q | q in db.revisions :: q.grantId == grantId && IsLiveKey(db, q) ==> q == k;
      Some(k)
    else None
  }

  /** the stored record verifies and every projected column and scope row agrees with it */
  predicate Projected(c: Crypto, k: GrantKey, stored: StoredGrant, scopes: seq<Scope>) {
    var claims := stored.record.claims;
    && c.verifies(c.connectorKey, GrantRecord(stored.record))
    && k == GrantKey(claims.grantId, claims.revision)
    && stored.digest == c.digest(GrantRecord(stored.record))
    && stored.issuerKeyId == claims.issuerKeyId && stored.subjectKeyId == claims.subjectKeyId
    && stored.issuedAt == claims.issuedAt && stored.notBefore == claims.notBefore
    && stored.expiresAt == claims.expiresAt && stored.policyRevision == claims.policyRevision
    && stored.maxUses == claims.maxUses
    && scopes == claims.scopes
  }

  /** _load_stored_grant succeeds */
  predicate Loads(c: Crypto, db: Db, k: GrantKey) {
    k in db.revisions && k in db.scopes && Projected(c, k, db.revisions[k].stored, db.scopes[k])
  }

  function ClaimsOf(db: Db, k: GrantKey): GrantClaims
    requires k in db.revisions
  {
    db.revisions[k].stored.record.claims
  }

  /** _stored_pairing_init succeeds */
  predicate InitLoads(c: Crypto, pairingId: Id, x: Exchange) {
    && x.initDigest == c.digest(InitRecord(x.init))
    && x.init.pairingId == pairingId
    && x.init.vpsKeyId == x.vpsKeyId
    && x.init.vpsPublicKey == x.vpsPublicKey
    && x.init.deadline == x.deadline
    && c.keyId(x.init.vpsPublicKey).Some?
    && c.verifies(x.init.vpsPublicKey, InitRecord(x.init))
  }

  /** _stored_pairing_challenge succeeds */
  predicate ExchangeLoads(c: Crypto, pairingId: Id, x: Exchange) {
    && InitLoads(c, pairingId, x)
    && VerifyChallenge(c, x.challenge, x.init.pairingId, x.init.vpsKeyId, c.digest(InitRecord(x.init)),
                       x.challenge.tlsLeafFingerprint, x.challenge.issuedAt)
    && x.challenge.connectorPublicKey == c.connectorKey
    && x.challenge.deadline == x.init.deadline
  }

  function TranscriptOf(c: Crypto, x: Exchange): string {
    c.transcript(x.init, x.challenge, x.challenge.tlsLeafFingerprint)
  }

  /** _pairing_state_from_row succeeds */
  predicate PairingLoads(c: Crypto, db: Db, pairingId: Id) {
    && pairingId in db.pairings
    && var row := db.pairings[pairingId];
    && ExchangeLoads(c, pairingId, row.exchange)
    && (row.decision.Approved? ==> row.transcript.Some? && row.grant.Some? && Loads(c, db, row.grant.value))
    && (!row.decision.Approved? ==> row.transcript.None?)
    && (row.decision.Pending? <==> row.decidedAt.None?)
  }

  /** the device behind an unretired key */
  function DeviceOf(db: Db, keyId: Id): Option<Id> {
    if keyId in db.keys && db.keys[keyId].retiredAt.None? && db.keys[keyId].deviceId in db.devices
    then Some(db.keys[keyId].deviceId)
    else None
  }

  function PendingIds(db: Db): set<Id> {
    set id | id in db.pairings && db.pairings[id].decision.Pending?
  }

  // ------------------------------------------------------------------ pairings

  function ExpireRow(row: PairingRow, now: int): PairingRow {
    if row.decision.Pending? && row.exchange.deadline <= now
    then row.(decision := Expired, decidedAt := Some(now))
    else row
  }

  /** UPDATE pairings SET decision='expired' WHERE decision='pending' AND deadline<=now */
  function Expire(db: Db, now: int): Db {
    db.(pairings := map id | id in db.pairings :: ExpireRow(db.pairings[id], now))
  }

  function NewPairing(c: Crypto, init: PairingInit, challenge: PairingChallenge): PairingRow {
    PairingRow(Exchange(init.vpsKeyId, init.vpsPublicKey, init, c.digest(InitRecord(init)), challenge, init.deadline),
               None, Pending, None, None, None)
  }

  /** what the primary key, the UNIQUE init_digest and the partial index on pending keys refuse */
  predicate PairingConflict(c: Crypto, db: Db, init: PairingInit) {
    || init.pairingId in db.pairings
    || (exists id | id in db.pairings :: db.pairings[id].exchange.initDigest == c.digest(InitRecord(init)))
    || (exists id | id in db.pairings ::
          db.pairings[id].decision.Pending? && db.pairings[id].exchange.vpsKeyId == init.vpsKeyId)
  }

  /** begin_pairing */
  function BeginPairing(c: Crypto, db: Db, init: PairingInit, challenge: PairingChallenge, now: int): (Db, Reply<()>) {
    if !VerifyInit(c, init, now) then (db, Rejected)
    else if !VerifyChallenge(c, challenge, init.pairingId, init.vpsKeyId, c.digest(InitRecord(init)),
                             challenge.tlsLeafFingerprint, now)
         || challenge.connectorPublicKey != c.connectorKey then (db, Raised(ConnectorStateInvalid))
    else
      var swept := Expire(db, now);
      if |PendingIds(swept)| >= MAX_PENDING_PAIRINGS then (db, Raised(ConnectorStateInvalid))
      else if PairingConflict(c, swept, init) then (db, Raised(RequestReplayed))
      else (swept.(pairings := swept.pairings[init.pairingId := NewPairing(c, init, challenge)]), Done(()))
  }

  /** pairing_state: only state bound to the byte-exact signed init */
  function PairingState(c: Crypto, db: Db, init: PairingInit, now: int): (Db, Reply<Option<PairingRow>>) {
    if !VerifyInit(c, init, now) then (db, Rejected)
    else
      var swept := Expire(db, now);
      if init.pairingId !in swept.pairings then (swept, Done(None))
      else if !PairingLoads(c, swept, init.pairingId) then (db, Raised(ConnectorStateInvalid))
      else
        var row := swept.pairings[init.pairingId];
        if c.digest(InitRecord(init)) != row.exchange.initDigest || row.exchange.init != init
        then (db, Raised(RequestReplayed))
        else (swept, Done(Some(row)))
  }

  /** pairing_state_by_id: the operator's view, which also sweeps expired pairings */
  function PairingById(c: Crypto, db: Db, pairingId: Id, now: int): (Db, Reply<Option<PairingRow>>) {
    if !IsTimestamp(now) then (db, Rejected)
    else
      var swept := Expire(db, now);
      if pairingId !in swept.pairings then (swept, Done(None))
      else if !PairingLoads(c, swept, pairingId) then (db, Raised(ConnectorStateInvalid))
      else (swept, Done(Some(swept.pairings[pairingId])))
  }

  /** _insert_grant, the revision and scope rows */
  function InsertRevision(c: Crypto, db: Db, grant: SignedGrant): Db {
    var claims := grant.claims;
    var k := GrantKey(claims.grantId, claims.revision);
    var stored := StoredGrant(grant, c.digest(GrantRecord(grant)), claims.issuerKeyId, claims.subjectKeyId,
                              claims.issuedAt, claims.notBefore, claims.expiresAt, claims.policyRevision,
                              claims.maxUses);
    var row := RevisionRow(stored, 0, None);
    db.(revisions := db.revisions[k := row], scopes := db.scopes[k := claims.scopes])
  }

  /** what the keys, UNIQUE columns and references of grant_revisions refuse */
  predicate RevisionConflict(c: Crypto, db: Db, grant: SignedGrant) {
    || GrantKey(grant.claims.grantId, grant.claims.revision) in db.revisions
    || (exists k | k in db.revisions :: db.revisions[k].stored.digest == c.digest(GrantRecord(grant)))
    || grant.claims.policyRevision !in db.policies
  }

  /** what the keys and UNIQUE columns of devices, device_keys and grant_lineages refuse */
  predicate DeviceConflict(db: Db, deviceId: Id, init: PairingInit, grantId: Id) {
    || deviceId in db.devices
    || init.vpsKeyId in db.keys
    || (exists k | k in db.keys :: db.keys[k].publicKey == init.vpsPublicKey)
    || grantId in db.lineages
  }

  /** the initial grant repeats the approved request */
  predicate MatchesInit(grant: SignedGrant, init: PairingInit, policy: int) {
    && grant.claims.revision == 1
    && grant.claims.policyRevision == policy
    && grant.claims.scopes == init.requestedScopes
    && grant.claims.expiresAt == init.grantExpiresAt
    && grant.claims.maxUses == init.grantMaxUses
  }

  function ApprovedDb(
    c: Crypto, db: Db, pairingId: Id, deviceId: Id, transcript: string, grant: SignedGrant, now: int): Db
    requires pairingId in db.pairings
  {
    var row := db.pairings[pairingId];
    var withDevice := db.(
      devices := db.devices[deviceId := DeviceRow(row.exchange.init.deviceLabel, now, None)],
      keys := db.keys[row.exchange.init.vpsKeyId := KeyRow(deviceId, 0, row.exchange.init.vpsPublicKey, now, None)],
      lineages := db.lineages[grant.claims.grantId := LineageRow(deviceId, grant.claims.issuedAt, None)]);
    var withGrant := InsertRevision(c, withDevice, grant);
    withGrant.(pairings := withGrant.pairings[pairingId := row.(
      decision := Approved, decidedAt := Some(now), transcript := Some(transcript),
      deviceId := Some(deviceId), grant := Some(GrantKey(grant.claims.grantId, grant.claims.revision)))])
  }

  /** approve_pairing */
  function ApprovePairing(
    c: Crypto, db: Db, pairingId: Id, deviceId: Id, transcript: string, grant: SignedGrant, now: int)
    : (Db, Reply<GrantKey>)
  {
    if !IsTimestamp(now) then (db, Rejected)
    else if pairingId !in db.pairings || !db.pairings[pairingId].decision.Pending? then (db, Raised(RequestReplayed))
    else
      var row := db.pairings[pairingId];
      if now >= row.exchange.deadline then
        (db.(pairings := db.pairings[pairingId := row.(decision := Expired, decidedAt := Some(now))]),
         Raised(GrantExpired))
      else if !ExchangeLoads(c, pairingId, row.exchange) then (db, Raised(ConnectorStateInvalid))
      else if transcript != TranscriptOf(c, row.exchange) then (db, Rejected)
      else if !VerifyGrant(c, grant, c.connectorKey, c.connectorKeyId, row.exchange.init.vpsKeyId, now)
      then (db, Rejected)
      else if CurrentPolicy(db).None? then (db, Raised(ConnectorStateInvalid))
      else if !MatchesInit(grant, row.exchange.init, CurrentPolicy(db).value) then (db, Rejected)
      else if DeviceConflict(db, deviceId, row.exchange.init, grant.claims.grantId) || RevisionConflict(c, db, grant)
      then (db, Raised(ConnectorStateInvalid))
      else
        (ApprovedDb(c, db, pairingId, deviceId, transcript, grant, now),
         Done(GrantKey(grant.claims.grantId, grant.claims.revision)))
  }

  /** deny_pairing */
  function DenyPairing(db: Db, pairingId: Id, now: int): (Db, Reply<()>) {
    if !IsTimestamp(now) then (db, Rejected)
    else if pairingId in db.pairings && db.pairings[pairingId].decision.Pending?
            && db.pairings[pairingId].exchange.deadline > now
    then
      (db.(pairings := db.pairings[pairingId := db.pairings[pairingId].(decision := Denied, decidedAt := Some(now))]),
       Done(()))
    else (db, Raised(RequestReplayed))
  }

  // ------------------------------------------------------------------ grants and policy

  /** replace_grant */
  function ReplaceGrant(c: Crypto, db: Db, grant: SignedGrant, now: int): (Db, Reply<GrantKey>) {
    var claims := grant.claims;
    if !VerifyGrant(c, grant, c.connectorKey, c.connectorKeyId, claims.subjectKeyId, now) then (db, Rejected)
    else if claims.grantId !in db.lineages || db.lineages[claims.grantId].deviceId !in db.devices
    then (db, Raised(GrantRequired))
    else if db.lineages[claims.grantId].revokedAt.Some? then (db, Raised(GrantRevoked))
    else if db.devices[db.lineages[claims.grantId].deviceId].revokedAt.Some? then (db, Raised(DeviceRevoked))
    else
      var current := CurrentRevision(db, claims.grantId);
      if current.None? || !Loads(c, db, current.value) then (db, Raised(ConnectorStateInvalid))
      else
        var held := ClaimsOf(db, current.value);
        if claims.revision != held.revision + 1 || claims.subjectKeyId != held.subjectKeyId then (db, Rejected)
        else if CurrentPolicy(db).None? then (db, Raised(ConnectorStateInvalid))
        else if claims.policyRevision != CurrentPolicy(db).value then (db, Rejected)
        else
          var retired := db.(revisions := db.revisions[current.value :=
                               db.revisions[current.value].(supersededAt := Some(now))]);
          if RevisionConflict(c, retired, grant) then (db, Raised(ConnectorStateInvalid))
          else (InsertRevision(c, retired, grant), Done(GrantKey(claims.grantId, claims.revision)))
  }

  /** revoke_device: idempotent, and the first revocation time stays */
  function RevokeDevice(db: Db, deviceId: Id, now: int): (Db, Reply<()>) {
    if !IsTimestamp(now) then (db, Rejected)
    else if deviceId !in db.devices then (db, Raised(ConnectorStateInvalid))
    else if db.devices[deviceId].revokedAt.Some? then (db, Done(()))
    else (db.(devices := db.devices[deviceId := db.devices[deviceId].(revokedAt := Some(now))]), Done(()))
  }

  /** revoke_grant */
  function RevokeGrant(db: Db, grantId: Id, now: int): (Db, Reply<()>) {
    if !IsTimestamp(now) then (db, Rejected)
    else if grantId !in db.lineages then (db, Raised(ConnectorStateInvalid))
    else if db.lineages[grantId].revokedAt.Some? then (db, Done(()))
    else (db.(lineages := db.lineages[grantId := db.lineages[grantId].(revokedAt := Some(now))]), Done(()))
  }

  /** advance_policy_revision */
  function AdvancePolicy(db: Db, digest: string, now: int): (Db, Reply<int>) {
    if !IsTimestamp(now) then (db, Rejected)
    else if CurrentPolicy(db).None? then (db, Raised(ConnectorStateInvalid))
    else
      var n := CurrentPolicy(db).value;
      if n + 1 in db.policies || n + 1 <= 0 || (exists r | r in db.policies :: db.policies[r].digest == digest)
      then (db, Raised(ConnectorStateInvalid))
      else
        (db.(policies :=
               db.policies[n := db.policies[n].(replacedAt := Some(now))][n + 1 := PolicyRow(digest, now, None)]),
         Done(n + 1))
  }

  // ------------------------------------------------------------------ claims

  /** What the checks of claim conclude, in their order. */
  datatype Verdict =
    | Unpaired            // no live key: CONNECTOR_NOT_PAIRED, nothing recorded
    | Forged              // ProtocolValidationError
    | Drifted             // CONNECTOR_STATE_INVALID
    | Replayed            // REQUEST_REPLAYED, nothing recorded
    | Refuse(cause: ErrorCode)
    | Accept

  /** _authenticated_device */
  function Authenticate(c: Crypto, db: Db, r: SignedRequest): Verdict {
    if DeviceOf(db, r.subjectKeyId).None? then Unpaired
    else
      var key := db.keys[r.subjectKeyId].publicKey;
      if c.keyId(key) != Some(r.subjectKeyId) then Drifted
      else if !c.verifies(key, RequestRecord(r)) || r.audienceKeyId != c.connectorKeyId then Forged
      else Accept
  }

  /** the WHERE clause of the guarded UPDATE that spends one use */
  predicate Spendable(db: Db, r: SignedRequest, scope: Scope) {
    var k := GrantKey(r.grantId, r.grantRevision);
    && IsLiveKey(db, k)
    && db.revisions[k].usedCount < db.revisions[k].stored.maxUses
    && r.grantId in db.lineages && db.lineages[r.grantId].revokedAt.None?
    && LivePolicy(db, r.policyRevision)
    && k in db.scopes && scope in db.scopes[k]
  }

  /** the checks on device, time, grant, policy and scope, after authentication and replay */
  function Assess(c: Crypto, db: Db, r: SignedRequest, scope: Scope, now: int): Verdict
    requires DeviceOf(db, r.subjectKeyId).Some?
  {
    var deviceId := DeviceOf(db, r.subjectKeyId).value;
    if db.devices[deviceId].revokedAt.Some? then Refuse(DeviceRevoked)
    else if now + CLOCK_SKEW_SECONDS < r.issuedAt || now >= r.deadline then Refuse(ConnectorDeadlineExceeded)
    else if r.grantId !in db.lineages || db.lineages[r.grantId].deviceId != deviceId then Refuse(GrantRequired)
    else if db.lineages[r.grantId].revokedAt.Some? then Refuse(GrantRevoked)
    else
      var current := CurrentRevision(db, r.grantId);
      if current.None? then Drifted
      else if current.value.revision != r.grantRevision then Refuse(GrantSuperseded)
      else if !Loads(c, db, current.value) then Drifted
      else
        var claims := ClaimsOf(db, current.value);
        if claims.subjectKeyId != r.subjectKeyId then Refuse(GrantRequired)
        else if now < claims.notBefore || now >= claims.expiresAt then Refuse(GrantExpired)
        else if CurrentPolicy(db).None? then Drifted
        else if r.policyRevision != CurrentPolicy(db).value || claims.policyRevision != CurrentPolicy(db).value
        then Refuse(PolicyRevisionStale)
        else if r.source != scope.source || r.operation != scope.operation || scope !in claims.scopes
        then Refuse(GrantScopeDenied)
        else if !Spendable(db, r, scope) then Refuse(GrantLimitExhausted)
        else Accept
  }

  function Judge(c: Crypto, db: Db, r: SignedRequest, scope: Scope, now: int): Verdict {
    var who := Authenticate(c, db, r);
    if !who.Accept? then who
    else if r.requestId in db.claims then Replayed
    else Assess(c, db, r, scope, now)
  }

  function NewClaim(
    r: SignedRequest, deviceId: Id, decision: Decision, cause: Option<ErrorCode>, now: int, usage: Option<ReceiptUsage>)
    : ClaimRow
  {
    ClaimRow(r.traceId, deviceId, r.subjectKeyId, GrantKey(r.grantId, r.grantRevision), r.policyRevision, r.source,
             r.operation, r.payloadDigest, decision, cause, now, usage, None, None)
  }

  function Refused(cause: ErrorCode): ClaimResult {
    ClaimResult(false, Some(cause), None, None)
  }

  /** _deny_claim */
  function RecordDenial(db: Db, r: SignedRequest, cause: ErrorCode, now: int): Db
    requires DeviceOf(db, r.subjectKeyId).Some?
  {
    db.(claims := db.claims[r.requestId :=
          NewClaim(r, DeviceOf(db, r.subjectKeyId).value, Deny, Some(cause), now, None)])
  }

  /** the accepted branch: one use spent and one allow row */
  function SpendOne(db: Db, r: SignedRequest, now: int): Db
    requires DeviceOf(db, r.subjectKeyId).Some? && GrantKey(r.grantId, r.grantRevision) in db.revisions
  {
    var k := GrantKey(r.grantId, r.grantRevision);
    var row := db.revisions[k];
    var used := row.usedCount + 1;
    db.(revisions := db.revisions[k := row.(usedCount := used)],
        claims := db.claims[r.requestId :=
          NewClaim(r, DeviceOf(db, r.subjectKeyId).value, Allow, None, now,
                   Some(ReceiptUsage(used, row.stored.maxUses - used)))])
  }

  /** claim */
  function Claim(c: Crypto, db: Db, r: SignedRequest, scope: Scope, now: int): (Db, Reply<ClaimResult>) {
    if !IsTimestamp(now) then (db, Rejected)
    else
      match Judge(c, db, r, scope, now)
      case Unpaired => (db, Done(Refused(ConnectorNotPaired)))
      case Forged => (db, Rejected)
      case Drifted => (db, Raised(ConnectorStateInvalid))
      case Replayed => (db, Done(Refused(RequestReplayed)))
      case Refuse(cause) => (RecordDenial(db, r, cause, now), Done(Refused(cause)))
      case Accept =>
        var spent := SpendOne(db, r, now);
        (spent, Done(ClaimResult(true, None, spent.claims[r.requestId].usage,
                                 Some(db.policies[CurrentPolicy(db).value].digest))))
  }

  /** deny_authenticated_request */
  function DenyRequest(c: Crypto, db: Db, r: SignedRequest, cause: ErrorCode, now: int): (Db, Reply<ClaimResult>) {
    if !IsTimestamp(now) then (db, Rejected)
    else
      match Authenticate(c, db, r)
      case Unpaired => (db, Done(Refused(ConnectorNotPaired)))
      case Drifted => (db, Raised(ConnectorStateInvalid))
      case Accept =>
        if r.requestId in db.claims then (db, Done(Refused(RequestReplayed)))
        else (RecordDenial(db, r, cause, now), Done(Refused(cause)))
      case _ => (db, Rejected)
  }

  /** current_scope_for_request */
  function ScopeForRequest(c: Crypto, db: Db, r: SignedRequest): Reply<Option<Scope>> {
    var current := CurrentRevision(db, r.grantId);
    if current.None? then Done(None)
    else if !Loads(c, db, current.value) then Raised(ConnectorStateInvalid)
    else
      var scopes := ClaimsOf(db, current.value).scopes;
      if exists i | 0 <= i < |scopes| :: scopes[i].source == r.source && scopes[i].operation == r.operation &&
           forall j | 0 <= j < |scopes| :: scopes[j].source == r.source && scopes[j].operation == r.operation ==> j == i
      then
        var i :| 0 <= i < |scopes| && scopes[i].source == r.source && scopes[i].operation == r.operation &&
          forall j | 0 <= j < |scopes| :: scopes[j].source == r.source && scopes[j].operation == r.operation ==> j == i;
        Done(Some(scopes[i]))
      else if exists i | 0 <= i < |scopes| :: scopes[i].source == r.source && scopes[i].operation == r.operation
      then Raised(ConnectorStateInvalid)
      else Done(None)
  }

  /** complete_claim */
  function CompleteClaim(db: Db, requestId: Id, receiptDigest: string, now: int): (Db, Reply<()>) {
    if !IsTimestamp(now) then (db, Rejected)
    else if requestId in db.claims && db.claims[requestId].decision.Allow? && db.claims[requestId].completedAt.None?
         && db.claims[requestId].claimedAt <= now
    then
      (db.(claims := db.claims[requestId := db.claims[requestId].(
             completedAt := Some(now), receiptDigest := Some(receiptDigest))]), Done(()))
    else (db, Raised(ConnectorStateInvalid))
  }

  // ------------------------------------------------------------------ retention

  function Cutoff(now: int): int {
    Max(0, now - RETENTION_SECONDS)
  }

  predicate PairingKept(row: PairingRow, now: int) {
    row.decision.Pending? || row.decidedAt.None? || row.decidedAt.value >= Cutoff(now)
  }

  function Overdue(pairings: map<Id, PairingRow>, now: int): set<Id> {
    set id | id in pairings && pairings[id].decision.Pending? && pairings[id].exchange.deadline <= now
  }

  function KeptPairings(pairings: map<Id, PairingRow>, now: int): map<Id, PairingRow> {
    map id | id in pairings && PairingKept(pairings[id], now) :: pairings[id]
  }

  function KeptClaims(claims: map<Id, ClaimRow>, now: int): map<Id, ClaimRow> {
    map id | id in claims && claims[id].claimedAt >= Cutoff(now) :: claims[id]
  }

  /** cleanup: sweep, then delete decided pairings and claims older than the retention window; the
      reply counts the rows each statement touched */
  function Cleanup(db: Db, now: int): (Db, Reply<(nat, nat, nat)>) {
    if !IsTimestamp(now) then (db, Rejected)
    else
      var swept := Expire(db, now).pairings;
      var pairings := KeptPairings(swept, now);
      var claims := KeptClaims(db.claims, now);
      (db.(pairings := pairings, claims := claims),
       Done((|Overdue(db.pairings, now)|, |swept.Keys - pairings.Keys|, |db.claims.Keys - claims.Keys|)))
  }

  /** the tables right after initialize */
  function Initial(policyDigest: string, now: int): Db {
    Db(map[], map[], map[], map[1 := PolicyRow(policyDigest, now, None)], map[], map[], map[], map[])
  }
}
