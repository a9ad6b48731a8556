/** The whole stored-state invariant, its preservation by every transaction, and why it makes
    AuthorityStore.open accept the database (connector/store.py, _validate_stored_state).

    Each part of the invariant takes only the tables, or the columns of a table, that it reads, so a
    transaction has nothing to show about the parts it does not touch.
 */
module StoreInvariant {
  import opened Prelude
  import opened Limits
  import opened Errors
  import opened Records
  import opened Trust
  import opened Store

  // ------------------------------------------------------------------ what open checks

  ghost predicate ForeignKeys(db: Db) {
    && (forall k | k in db.keys :: db.keys[k].deviceId in db.devices)
    && (forall p | p in db.pairings :: db.pairings[p].deviceId.Some? ==> db.pairings[p].deviceId.value in db.devices)
    && (forall g | g in db.lineages :: db.lineages[g].deviceId in db.devices)
    && (forall k | k in db.revisions ::
          k.grantId in db.lineages && db.revisions[k].stored.policyRevision in db.policies)
    && (forall k | k in db.scopes :: k in db.revisions)
    && (forall r | r in db.claims :: db.claims[r].deviceId in db.devices)
  }

  ghost function KeysOf(db: Db, deviceId: Id): set<Id> {
    set k | k in db.keys && db.keys[k].deviceId == deviceId
  }

  ghost function ActiveKeysOf(db: Db, deviceId: Id): set<Id> {
    set k | k in db.keys && db.keys[k].deviceId == deviceId && db.keys[k].retiredAt.None?
  }

  ghost function RevisionsOf(db: Db, grantId: Id): set<GrantKey> {
    set k | k in db.revisions && k.grantId == grantId
  }

  ghost function LiveRevisionsOf(db: Db, grantId: Id): set<GrantKey> {
    set k | k in db.revisions && k.grantId == grantId && IsLiveKey(db, k)
  }

  /** the subject of a stored grant is a key of the device that owns its lineage */
  ghost predicate SubjectOwned(db: Db, k: GrantKey) {
    && k in db.revisions && k.grantId in db.lineages
    && ClaimsOf(db, k).subjectKeyId in db.keys
    && db.keys[ClaimsOf(db, k).subjectKeyId].deviceId == db.lineages[k.grantId].deviceId
  }

  ghost predicate PairingAccepted(c: Crypto, db: Db, p: Id) {
    && PairingLoads(c, db, p)
    && (db.pairings[p].decision.Approved? ==>
          db.pairings[p].transcript == Some(TranscriptOf(c, db.pairings[p].exchange)))
  }

  /** _validate_stored_state raises nothing */
  ghost predicate OpenAccepts(c: Crypto, db: Db) {
    && ForeignKeys(db)
    && CurrentPolicy(db).Some?
    && (forall p | p in db.pairings :: PairingAccepted(c, db, p))
    && (forall d | d in db.devices :: |KeysOf(db, d)| >= 1 && |ActiveKeysOf(db, d)| == 1)
    && (forall k | k in db.keys :: c.keyId(db.keys[k].publicKey) == Some(k))
    && (forall g | g in db.lineages :: |RevisionsOf(db, g)| >= 1 && |LiveRevisionsOf(db, g)| == 1)
    && (forall k | k in db.revisions :: Loads(c, db, k) && SubjectOwned(db, k))
  }

  // ------------------------------------------------------------------ columns

  ghost function Owners(lineages: map<Id, LineageRow>): map<Id, Id> {
    map g | g in lineages :: lineages[g].deviceId
  }

  ghost function Held(revisions: map<GrantKey, RevisionRow>): map<GrantKey, StoredGrant> {
    map k | k in revisions :: revisions[k].stored
  }

  ghost function Live(revisions: map<GrantKey, RevisionRow>): map<GrantKey, bool> {
    map k | k in revisions :: revisions[k].supersededAt.None?
  }

  // ------------------------------------------------------------------ the invariant

  /** policy revisions are exactly 1..n and only n is live */
  ghost predicate PoliciesAre(policies: map<int, PolicyRow>, n: int) {
    && n >= 1
    && (forall r :: r in policies <==> 1 <= r <= n)
    && (forall r | r in policies :: policies[r].replacedAt.None? <==> r == n)
  }

  ghost predicate PoliciesOk(policies: map<int, PolicyRow>) {
    exists n :: PoliciesAre(policies, n)
  }

  ghost predicate KeyOk(c: Crypto, ids: set<Id>, keys: map<Id, KeyRow>, k: Id) {
    k in keys && keys[k].deviceId in ids && keys[k].retiredAt.None? && c.keyId(keys[k].publicKey) == Some(k)
  }

  ghost predicate HasKey(keys: map<Id, KeyRow>, d: Id) {
    exists k :: k in keys && keys[k].deviceId == d
  }

  /** every device has exactly one key, which is active and names itself */
  ghost predicate DevicesOk(c: Crypto, ids: set<Id>, keys: map<Id, KeyRow>) {
    && (forall k | k in keys :: KeyOk(c, ids, keys, k))
    && (forall d | d in ids :: HasKey(keys, d))
    && (forall j, k | j in keys && k in keys :: keys[j].deviceId == keys[k].deviceId ==> j == k)
  }

  /** the revisions of a lineage are exactly 1..m and only m is live */
  ghost predicate RevisionsAre(live: map<GrantKey, bool>, grantId: Id, m: int) {
    && m >= 1
    && (forall r :: GrantKey(grantId, r) in live <==> 1 <= r <= m)
    && (forall r | GrantKey(grantId, r) in live :: live[GrantKey(grantId, r)] <==> r == m)
  }

  ghost predicate Chained(live: map<GrantKey, bool>, grantId: Id) {
    exists m :: RevisionsAre(live, grantId, m)
  }

  ghost predicate LineagesOk(ids: set<Id>, owners: map<Id, Id>, live: map<GrantKey, bool>) {
    && (forall g | g in owners :: owners[g] in ids)
    && (forall g | g in owners :: Chained(live, g))
    && (forall k | k in live :: k.grantId in owners)
  }

  /** one grant revision: its columns repeat the signed claims, and its subject is a key of the owner */
  ghost predicate GrantOk(
    c: Crypto, keys: map<Id, KeyRow>, policyIds: set<int>, owners: map<Id, Id>,
    held: map<GrantKey, StoredGrant>, scopes: map<GrantKey, seq<Scope>>, k: GrantKey)
  {
    && k in held && k in scopes && Projected(c, k, held[k], scopes[k])
    && 1 <= held[k].maxUses <= MAX_GRANT_USES
    && held[k].policyRevision in policyIds
    && k.grantId in owners
    && held[k].subjectKeyId in keys
    && keys[held[k].subjectKeyId].deviceId == owners[k.grantId]
  }

  ghost predicate GrantsOk(
    c: Crypto, keys: map<Id, KeyRow>, policyIds: set<int>, owners: map<Id, Id>,
    held: map<GrantKey, StoredGrant>, scopes: map<GrantKey, seq<Scope>>)
  {
    && held.Keys == scopes.Keys
    && forall k | k in held :: GrantOk(c, keys, policyIds, owners, held, scopes, k)
  }

  ghost predicate QuotasOk(revisions: map<GrantKey, RevisionRow>) {
    forall k | k in revisions :: 0 <= revisions[k].usedCount <= revisions[k].stored.maxUses
  }

  /** an approved pairing names the revision-1 grant that repeats its request */
  ghost predicate ApprovedOk(
    c: Crypto, ids: set<Id>, keys: map<Id, KeyRow>, held: map<GrantKey, StoredGrant>,
    scopes: map<GrantKey, seq<Scope>>, row: PairingRow)
  {
    var init := row.exchange.init;
    && row.transcript == Some(TranscriptOf(c, row.exchange))
    && row.deviceId.Some? && row.deviceId.value in ids
    && init.vpsKeyId in keys && keys[init.vpsKeyId].deviceId == row.deviceId.value
    && row.grant.Some?
    && var k := row.grant.value;
    && k in held && k in scopes && Projected(c, k, held[k], scopes[k])
    && var claims := held[k].record.claims;
    && claims.revision == 1 && claims.subjectKeyId == init.vpsKeyId
    && claims.scopes == init.requestedScopes
    && claims.expiresAt == init.grantExpiresAt
    && claims.maxUses == init.grantMaxUses
  }

  ghost predicate Undecided(row: PairingRow) {
    row.transcript.None? && row.deviceId.None? && row.grant.None?
  }

  ghost predicate PairingOk(
    c: Crypto, pairings: map<Id, PairingRow>, ids: set<Id>, keys: map<Id, KeyRow>,
    held: map<GrantKey, StoredGrant>, scopes: map<GrantKey, seq<Scope>>, p: Id)
  {
    && p in pairings
    && ExchangeLoads(c, p, pairings[p].exchange)
    && ValidInit(c, pairings[p].exchange.init)
    && (pairings[p].decision.Pending? <==> pairings[p].decidedAt.None?)
    && (if pairings[p].decision.Approved? then ApprovedOk(c, ids, keys, held, scopes, pairings[p])
        else Undecided(pairings[p]))
  }

  ghost function Pendings(pairings: map<Id, PairingRow>): set<Id> {
    set p | p in pairings && pairings[p].decision.Pending?
  }

  /** at most three pending pairings, at most one for a key */
  ghost predicate QueueOk(pairings: map<Id, PairingRow>) {
    && |Pendings(pairings)| <= MAX_PENDING_PAIRINGS
    && (forall p, q | p in Pendings(pairings) && q in Pendings(pairings) ::
          pairings[p].exchange.vpsKeyId == pairings[q].exchange.vpsKeyId ==> p == q)
  }

  ghost predicate PairingsOk(
    c: Crypto, pairings: map<Id, PairingRow>, ids: set<Id>, keys: map<Id, KeyRow>,
    held: map<GrantKey, StoredGrant>, scopes: map<GrantKey, seq<Scope>>)
  {
    forall p | p in pairings :: PairingOk(c, pairings, ids, keys, held, scopes, p)
  }

  /** a recorded claim names a known device, and only an allow row carries usage */
  ghost predicate ClaimsOk(ids: set<Id>, claims: map<Id, ClaimRow>) {
    forall r | r in claims :: claims[r].deviceId in ids && (claims[r].decision.Allow? <==> claims[r].usage.Some?)
  }

  ghost predicate Inv(c: Crypto, db: Db) {
    && PoliciesOk(db.policies)
    && DevicesOk(c, db.devices.Keys, db.keys)
    && LineagesOk(db.devices.Keys, Owners(db.lineages), Live(db.revisions))
    && GrantsOk(c, db.keys, db.policies.Keys, Owners(db.lineages), Held(db.revisions), db.scopes)
    && QuotasOk(db.revisions)
    && QueueOk(db.pairings)
    && PairingsOk(c, db.pairings, db.devices.Keys, db.keys, Held(db.revisions), db.scopes)
    && ClaimsOk(db.devices.Keys, db.claims)
  }

  // ------------------------------------------------------------------ queries under the invariant

  lemma CurrentPolicyIs(db: Db, n: int)
    requires PoliciesAre(db.policies, n)
    ensures CurrentPolicy(db) == Some(n)
  {
    assert n in db.policies && LivePolicy(db, n);
  }

  lemma CurrentRevisionIs(db: Db, grantId: Id, m: int)
    requires RevisionsAre(Live(db.revisions), grantId, m)
    ensures CurrentRevision(db, grantId) == Some(GrantKey(grantId, m))
  {
    var k := GrantKey(grantId, m);
    assert k in Live(db.revisions);
    assert k in db.revisions && IsLiveKey(db, k);
    forall q | q in db.revisions && q.grantId == grantId && IsLiveKey(db, q) ensures q == k {
      assert q == GrantKey(grantId, q.revision) && q in Live(db.revisions);
    }
  }

  // ------------------------------------------------------------------ open accepts every invariant state

  lemma OpensDevices(c: Crypto, db: Db, d: Id)
    requires DevicesOk(c, db.devices.Keys, db.keys) && d in db.devices
    ensures |KeysOf(db, d)| >= 1 && |ActiveKeysOf(db, d)| == 1
  {
    assert HasKey(db.keys, d);
    var k :| k in db.keys && db.keys[k].deviceId == d;
    assert KeyOk(c, db.devices.Keys, db.keys, k);
    assert KeysOf(db, d) == {k};
    assert ActiveKeysOf(db, d) == {k};
  }

  lemma OpensLineage(db: Db, g: Id)
    requires Chained(Live(db.revisions), g)
    ensures |RevisionsOf(db, g)| >= 1 && |LiveRevisionsOf(db, g)| == 1
  {
    var live := Live(db.revisions);
    var m :| RevisionsAre(live, g, m);
    assert GrantKey(g, m) in live;
    assert GrantKey(g, m) in RevisionsOf(db, g);
    forall q | q in LiveRevisionsOf(db, g) ensures q == GrantKey(g, m) {
      assert q == GrantKey(g, q.revision) && q in live;
    }
    assert LiveRevisionsOf(db, g) == {GrantKey(g, m)};
  }

  lemma OpensGrant(c: Crypto, db: Db, k: GrantKey)
    requires GrantOk(c, db.keys, db.policies.Keys, Owners(db.lineages), Held(db.revisions), db.scopes, k)
    ensures Loads(c, db, k) && SubjectOwned(db, k) && db.revisions[k].stored.policyRevision in db.policies
  {
    assert Held(db.revisions)[k] == db.revisions[k].stored;
  }

  lemma OpensPairing(c: Crypto, db: Db, p: Id)
    requires PairingOk(c, db.pairings, db.devices.Keys, db.keys, Held(db.revisions), db.scopes, p)
    ensures PairingAccepted(c, db, p)
    ensures db.pairings[p].deviceId.Some? ==> db.pairings[p].deviceId.value in db.devices
  {
    if db.pairings[p].decision.Approved? {
      var k := db.pairings[p].grant.value;
      assert Held(db.revisions)[k] == db.revisions[k].stored;
      assert Loads(c, db, k);
    }
  }

  lemma OpensGrants(c: Crypto, db: Db)
    requires GrantsOk(c, db.keys, db.policies.Keys, Owners(db.lineages), Held(db.revisions), db.scopes)
    ensures forall k | k in db.revisions ::
      Loads(c, db, k) && SubjectOwned(db, k) && db.revisions[k].stored.policyRevision in db.policies
    ensures forall k | k in db.scopes :: k in db.revisions
  {
    hide GrantOk, Loads, SubjectOwned;
    var held := Held(db.revisions);
    assert held.Keys == db.revisions.Keys;
    forall k | k in db.revisions
      ensures Loads(c, db, k) && SubjectOwned(db, k) && db.revisions[k].stored.policyRevision in db.policies
    {
      assert k in held;
      OpensGrant(c, db, k);
    }
  }

  lemma OpensLineages(db: Db)
    requires LineagesOk(db.devices.Keys, Owners(db.lineages), Live(db.revisions))
    ensures forall g | g in db.lineages ::
      db.lineages[g].deviceId in db.devices && |RevisionsOf(db, g)| >= 1 && |LiveRevisionsOf(db, g)| == 1
    ensures forall k | k in db.revisions :: k.grantId in db.lineages
  {
    hide Chained, RevisionsOf, LiveRevisionsOf;
    var owners, live := Owners(db.lineages), Live(db.revisions);
    forall g | g in db.lineages
      ensures db.lineages[g].deviceId in db.devices && |RevisionsOf(db, g)| >= 1 && |LiveRevisionsOf(db, g)| == 1
    {
      assert g in owners;
      OpensLineage(db, g);
    }
    forall k | k in db.revisions ensures k.grantId in db.lineages { assert k in live; }
  }

  /** Every state satisfying the invariant passes all the checks made when the database is opened. */
  lemma InvariantOpens(c: Crypto, db: Db)
    requires Inv(c, db)
    ensures OpenAccepts(c, db)
  {
    hide LineagesOk, GrantsOk, QuotasOk, QueueOk, PairingOk, PairingAccepted, CurrentPolicy, KeysOf, ActiveKeysOf,
         RevisionsOf, LiveRevisionsOf, Loads, SubjectOwned, HasKey;
    var n :| PoliciesAre(db.policies, n);
    CurrentPolicyIs(db, n);
    OpensLineages(db);
    OpensGrants(c, db);
    forall d | d in db.devices ensures |KeysOf(db, d)| >= 1 && |ActiveKeysOf(db, d)| == 1 { OpensDevices(c, db, d); }
    forall k | k in db.keys ensures KeyOk(c, db.devices.Keys, db.keys, k) {}
    forall p | p in db.pairings
      ensures PairingAccepted(c, db, p)
      ensures db.pairings[p].deviceId.Some? ==> db.pairings[p].deviceId.value in db.devices
    {
      OpensPairing(c, db, p);
    }
  }

  lemma InitialOk(c: Crypto, policyDigest: string, now: int)
    ensures Inv(c, Initial(policyDigest, now))
  {
    assert PoliciesAre(Initial(policyDigest, now).policies, 1);
  }

  // ------------------------------------------------------------------ preservation: pairings

  lemma Fewer<T>(a: set<T>, b: set<T>)
    requires a <= b
    ensures |a| <= |b|
  {
    assert b == a + (b - a);
  }

  /** A table whose rows keep their exchange, and where only pending rows change and they close, stays a good queue. */
  lemma QueueShrinks(pairings: map<Id, PairingRow>, after: map<Id, PairingRow>)
    requires QueueOk(pairings) && after.Keys <= pairings.Keys
    requires forall p | p in after :: after[p].exchange == pairings[p].exchange
    requires forall p | p in after :: after[p].decision.Pending? ==> pairings[p].decision.Pending?
    ensures QueueOk(after)
  {
    assert Pendings(after) <= Pendings(pairings);
    Fewer(Pendings(after), Pendings(pairings));
  }

  lemma ExpireKeeps(c: Crypto, db: Db, now: int)
    requires Inv(c, db)
    ensures Inv(c, Expire(db, now))
  {
    hide PoliciesOk, DevicesOk, LineagesOk, GrantsOk, QuotasOk, QueueOk, ClaimsOk, ExchangeLoads, ValidInit, ApprovedOk;
    var swept := Expire(db, now);
    QueueShrinks(db.pairings, swept.pairings);
    forall p | p in swept.pairings
      ensures PairingOk(c, swept.pairings, db.devices.Keys, db.keys, Held(db.revisions), db.scopes, p)
    {
      assert PairingOk(c, db.pairings, db.devices.Keys, db.keys, Held(db.revisions), db.scopes, p);
    }
  }

  /** a pairing row just opened loads exactly when both deadlines agree */
  lemma OpenedRow(
    c: Crypto, db: Db, init: PairingInit, challenge: PairingChallenge, now: int, pairings: map<Id, PairingRow>)
    requires BeginPairing(c, db, init, challenge, now).1.Done? && ValidInit(c, init) && ValidChallenge(c, challenge)
    requires init.pairingId in pairings && pairings[init.pairingId] == NewPairing(c, init, challenge)
    ensures PairingOk(c, pairings, db.devices.Keys, db.keys, Held(db.revisions), db.scopes, init.pairingId)
            <==> challenge.deadline == init.deadline
  {
  }

  lemma QueueGrows(pairings: map<Id, PairingRow>, p: Id, row: PairingRow)
    requires QueueOk(pairings) && p !in pairings && |Pendings(pairings)| < MAX_PENDING_PAIRINGS
    requires forall q | q in Pendings(pairings) :: pairings[q].exchange.vpsKeyId != row.exchange.vpsKeyId
    requires row.decision.Pending?
    ensures QueueOk(pairings[p := row])
  {
    assert Pendings(pairings[p := row]) == Pendings(pairings) + {p};
  }

  lemma OpenedQueue(c: Crypto, db: Db, init: PairingInit, challenge: PairingChallenge, now: int)
    requires QueueOk(db.pairings) && BeginPairing(c, db, init, challenge, now).1.Done?
    ensures QueueOk(BeginPairing(c, db, init, challenge, now).0.pairings)
  {
    hide VerifyInit, VerifyChallenge, QueueOk;
    var swept := Expire(db, now);
    QueueShrinks(db.pairings, swept.pairings);
    assert Pendings(swept.pairings) == PendingIds(swept);
    QueueGrows(swept.pairings, init.pairingId, NewPairing(c, init, challenge));
  }

  /** pairings that are pending and not yet overdue */
  ghost function StillPending(db: Db, now: int): set<Id> {
    set p | p in db.pairings && db.pairings[p].decision.Pending? && db.pairings[p].exchange.deadline > now
  }

  /** the checks begin_pairing makes before it inserts: both records verify, the challenge is the Connector's,
      there is room, and nothing stored has this identifier, this init or a pending pairing for this key */
  ghost predicate MayOpen(c: Crypto, db: Db, init: PairingInit, challenge: PairingChallenge, now: int) {
    && VerifyInit(c, init, now)
    && VerifyChallenge(c, challenge, init.pairingId, init.vpsKeyId, c.digest(InitRecord(init)),
                       challenge.tlsLeafFingerprint, now)
    && challenge.connectorPublicKey == c.connectorKey
    && |StillPending(db, now)| < MAX_PENDING_PAIRINGS
    && init.pairingId !in db.pairings
    && (forall p | p in db.pairings :: db.pairings[p].exchange.initDigest != c.digest(InitRecord(init)))
    && (forall p | p in StillPending(db, now) :: db.pairings[p].exchange.vpsKeyId != init.vpsKeyId)
  }

  lemma OpensExactly(c: Crypto, db: Db, init: PairingInit, challenge: PairingChallenge, now: int)
    ensures BeginPairing(c, db, init, challenge, now).1.Done? <==> MayOpen(c, db, init, challenge, now)
  {
    hide VerifyInit, VerifyChallenge;
    var swept := Expire(db, now);
    assert swept.pairings.Keys == db.pairings.Keys;
    forall p | p in db.pairings
      ensures swept.pairings[p].exchange == db.pairings[p].exchange
      ensures swept.pairings[p].decision.Pending? <==> p in StillPending(db, now)
    {
    }
    assert PendingIds(swept) == StillPending(db, now);
  }

  /** Opening a pairing keeps the invariant exactly when the challenge repeats the init's deadline, which
      begin_pairing itself does not compare, or one of the checks it does make fails. */
  lemma BeginPairingKeeps(c: Crypto, db: Db, init: PairingInit, challenge: PairingChallenge, now: int)
    requires Inv(c, db) && ValidInit(c, init) && ValidChallenge(c, challenge)
    ensures var (db', reply) := BeginPairing(c, db, init, challenge, now);
            && (reply.Done? <==> MayOpen(c, db, init, challenge, now))
            && (Inv(c, db') <==> (MayOpen(c, db, init, challenge, now) ==> challenge.deadline == init.deadline))
  {
    hide PoliciesOk, DevicesOk, LineagesOk, GrantsOk, QuotasOk, QueueOk, ClaimsOk, PairingOk, MayOpen;
    OpensExactly(c, db, init, challenge, now);
    var (db', reply) := BeginPairing(c, db, init, challenge, now);
    if reply.Done? {
      var swept := Expire(db, now);
      ExpireKeeps(c, db, now);
      OpenedRow(c, db, init, challenge, now, db'.pairings);
      OpenedQueue(c, db, init, challenge, now);
      forall p | p in db'.pairings && p != init.pairingId
        ensures PairingOk(c, db'.pairings, db.devices.Keys, db.keys, Held(db.revisions), db.scopes, p)
      {
        SameRow(c, swept.pairings, db'.pairings, db.devices.Keys, db.keys, Held(db.revisions), db.scopes, p);
      }
    }
  }

  /** The failure is real: on a fresh store a challenge that ends a second before its init is stored, and the
      store then cannot be opened again. */
  lemma MismatchedDeadlineIsStored()
    returns (c: Crypto, db: Db, init: PairingInit, challenge: PairingChallenge)
    ensures Inv(c, db) && ValidInit(c, init) && ValidChallenge(c, challenge)
    ensures challenge.deadline == init.deadline - 1
    ensures BeginPairing(c, db, init, challenge, 1000).1.Done?
    ensures !OpenAccepts(c, BeginPairing(c, db, init, challenge, 1000).0)
  {
    c, db := Trusting(), Initial("policy", 0);
    init := ExampleInit();
    challenge := ExampleChallenge(1299);
    InitialOk(c, "policy", 0);
    assert PendingIds(Expire(db, 1000)) == {};
    var after := BeginPairing(c, db, init, challenge, 1000).0;
    assert "p" in after.pairings && !PairingLoads(c, after, "p");
    assert !PairingAccepted(c, after, "p");
  }

  lemma SameRow(
    c: Crypto, before: map<Id, PairingRow>, after: map<Id, PairingRow>, ids: set<Id>, keys: map<Id, KeyRow>,
    held: map<GrantKey, StoredGrant>, scopes: map<GrantKey, seq<Scope>>, p: Id)
    requires PairingOk(c, before, ids, keys, held, scopes, p)
    requires p in after && after[p] == before[p]
    ensures PairingOk(c, after, ids, keys, held, scopes, p)
  {
    hide ExchangeLoads, ValidInit, ApprovedOk;
  }

  /** one decided row that is good in itself keeps the table good */
  lemma RowDecided(
    c: Crypto, pairings: map<Id, PairingRow>, ids: set<Id>, keys: map<Id, KeyRow>,
    held: map<GrantKey, StoredGrant>, scopes: map<GrantKey, seq<Scope>>, p: Id, row: PairingRow)
    requires PairingsOk(c, pairings, ids, keys, held, scopes) && QueueOk(pairings)
    requires p in pairings && row.exchange == pairings[p].exchange && !row.decision.Pending? && row.decidedAt.Some?
    requires if row.decision.Approved? then ApprovedOk(c, ids, keys, held, scopes, row) else Undecided(row)
    ensures PairingsOk(c, pairings[p := row], ids, keys, held, scopes)
    ensures QueueOk(pairings[p := row])
  {
    hide ExchangeLoads, ValidInit, ApprovedOk, QueueOk;
    QueueShrinks(pairings, pairings[p := row]);
    forall q | q in pairings ensures PairingOk(c, pairings[p := row], ids, keys, held, scopes, q) {
      assert PairingOk(c, pairings, ids, keys, held, scopes, q);
    }
  }

  /** closing one pending pairing without a grant */
  lemma CloseKeeps(c: Crypto, db: Db, p: Id, d: PairingDecision, now: int)
    requires Inv(c, db) && p in db.pairings && db.pairings[p].decision.Pending?
    requires d.Denied? || d.Expired?
    ensures Inv(c, db.(pairings := db.pairings[p := db.pairings[p].(decision := d, decidedAt := Some(now))]))
  {
    hide PoliciesOk, DevicesOk, LineagesOk, GrantsOk, QuotasOk, QueueOk, ClaimsOk, ExchangeLoads, ValidInit, ApprovedOk;
    assert PairingOk(c, db.pairings, db.devices.Keys, db.keys, Held(db.revisions), db.scopes, p);
    RowDecided(c, db.pairings, db.devices.Keys, db.keys, Held(db.revisions), db.scopes, p,
               db.pairings[p].(decision := d, decidedAt := Some(now)));
  }

  lemma DenyPairingKeeps(c: Crypto, db: Db, p: Id, now: int)
    requires Inv(c, db)
    ensures Inv(c, DenyPairing(db, p, now).0)
  {
    hide PoliciesOk, DevicesOk, LineagesOk, GrantsOk, QuotasOk, QueueOk, PairingsOk, ClaimsOk;
    if DenyPairing(db, p, now).1.Done? { CloseKeeps(c, db, p, Denied, now); }
  }

  // ------------------------------------------------------------------ preservation: approval

  /** Pairing rows stay good when devices, keys and grants are only added. */
  lemma PairingsGrow(
    c: Crypto, pairings: map<Id, PairingRow>,
    ids: set<Id>, keys: map<Id, KeyRow>, held: map<GrantKey, StoredGrant>, scopes: map<GrantKey, seq<Scope>>,
    ids': set<Id>, keys': map<Id, KeyRow>, held': map<GrantKey, StoredGrant>, scopes': map<GrantKey, seq<Scope>>)
    requires PairingsOk(c, pairings, ids, keys, held, scopes)
    requires ids <= ids'
    requires forall k | k in keys :: k in keys' && keys'[k] == keys[k]
    requires forall k | k in held :: k in held' && held'[k] == held[k]
    requires forall k | k in scopes :: k in scopes' && scopes'[k] == scopes[k]
    ensures PairingsOk(c, pairings, ids', keys', held', scopes')
  {
    forall p | p in pairings ensures PairingOk(c, pairings, ids', keys', held', scopes', p) {
      assert PairingOk(c, pairings, ids, keys, held, scopes, p);
    }
  }

  lemma DevicesGrow(c: Crypto, ids: set<Id>, keys: map<Id, KeyRow>, d: Id, k: Id, row: KeyRow)
    requires DevicesOk(c, ids, keys)
    requires d !in ids && k !in keys
    requires row.deviceId == d && row.retiredAt.None? && c.keyId(row.publicKey) == Some(k)
    ensures DevicesOk(c, ids + {d}, keys[k := row])
  {
    var ids', keys' := ids + {d}, keys[k := row];
    forall j | j in keys' ensures KeyOk(c, ids', keys', j) {
      if j != k { assert KeyOk(c, ids, keys, j); }
    }
    forall e | e in ids' ensures HasKey(keys', e) {
      if e == d {
        assert k in keys' && keys'[k].deviceId == d;
      } else {
        assert HasKey(keys, e);
        var j :| j in keys && keys[j].deviceId == e;
        assert j in keys' && keys'[j].deviceId == e;
      }
    }
    forall i, j | i in keys' && j in keys' && keys'[i].deviceId == keys'[j].deviceId ensures i == j {
      assert i in keys ==> KeyOk(c, ids, keys, i);
      assert j in keys ==> KeyOk(c, ids, keys, j);
    }
  }

  lemma LineageAdded(ids: set<Id>, owners: map<Id, Id>, live: map<GrantKey, bool>, d: Id, g: Id)
    requires LineagesOk(ids, owners, live) && g !in owners
    ensures LineagesOk(ids + {d}, owners[g := d], live[GrantKey(g, 1) := true])
  {
    var live' := live[GrantKey(g, 1) := true];
    forall h | h in owners[g := d] ensures Chained(live', h) {
      if h == g {
        assert RevisionsAre(live', g, 1);
      } else {
        assert Chained(live, h);
        var m :| RevisionsAre(live, h, m);
        assert RevisionsAre(live', h, m);
      }
    }
  }

  /** Adding one good revision row keeps the others good when keys and owners only grow. */
  lemma GrantAdded(
    c: Crypto, keys: map<Id, KeyRow>, policyIds: set<int>, owners: map<Id, Id>,
    held: map<GrantKey, StoredGrant>, scopes: map<GrantKey, seq<Scope>>,
    keys': map<Id, KeyRow>, owners': map<Id, Id>, k: GrantKey, stored: StoredGrant, rows: seq<Scope>)
    requires GrantsOk(c, keys, policyIds, owners, held, scopes) && k !in held
    requires forall j | j in keys :: j in keys' && keys'[j] == keys[j]
    requires forall g | g in owners :: g in owners' && owners'[g] == owners[g]
    requires GrantOk(c, keys', policyIds, owners', held[k := stored], scopes[k := rows], k)
    ensures GrantsOk(c, keys', policyIds, owners', held[k := stored], scopes[k := rows])
  {
    hide Projected;
    var held', scopes' := held[k := stored], scopes[k := rows];
    forall j | j in held' ensures GrantOk(c, keys', policyIds, owners', held', scopes', j) {
      if j != k { assert GrantOk(c, keys, policyIds, owners, held, scopes, j); }
    }
  }

  lemma CurrentPolicyMember(db: Db)
    ensures CurrentPolicy(db).Some? ==> CurrentPolicy(db).value in db.policies
  {
  }

  ghost predicate ApprovalDone(
    c: Crypto, db: Db, p: Id, deviceId: Id, transcript: string, grant: SignedGrant, now: int)
  {
    ApprovePairing(c, db, p, deviceId, transcript, grant, now).1.Done?
  }

  /** what a completed approval has checked */
  lemma ApprovalFacts(c: Crypto, db: Db, p: Id, deviceId: Id, transcript: string, grant: SignedGrant, now: int)
    requires ApprovalDone(c, db, p, deviceId, transcript, grant, now)
    ensures p in db.pairings && db.pairings[p].decision.Pending? && now < db.pairings[p].exchange.deadline
    ensures ApprovePairing(c, db, p, deviceId, transcript, grant, now).0
            == ApprovedDb(c, db, p, deviceId, transcript, grant, now)
    ensures var init := db.pairings[p].exchange.init;
            && ExchangeLoads(c, p, db.pairings[p].exchange)
            && transcript == TranscriptOf(c, db.pairings[p].exchange)
            && VerifyGrant(c, grant, c.connectorKey, c.connectorKeyId, init.vpsKeyId, now)
            && CurrentPolicy(db).Some? && CurrentPolicy(db).value in db.policies
            && MatchesInit(grant, init, CurrentPolicy(db).value)
            && !DeviceConflict(db, deviceId, init, grant.claims.grantId)
            && GrantKey(grant.claims.grantId, 1) !in db.revisions
  {
    hide ExchangeLoads, VerifyGrant, DeviceConflict;
    CurrentPolicyMember(db);
  }

  /** what approval does to each column the invariant reads */
  lemma ApprovedColumns(
    c: Crypto, db: Db, p: Id, deviceId: Id, transcript: string, grant: SignedGrant, now: int)
    requires p in db.pairings && grant.claims.revision == 1
    ensures var db' := ApprovedDb(c, db, p, deviceId, transcript, grant, now);
            var k := GrantKey(grant.claims.grantId, 1);
            && db'.devices.Keys == db.devices.Keys + {deviceId}
            && Owners(db'.lineages) == Owners(db.lineages)[grant.claims.grantId := deviceId]
            && Live(db'.revisions) == Live(db.revisions)[k := true]
            && k in db'.revisions
            && Held(db'.revisions) == Held(db.revisions)[k := db'.revisions[k].stored]
            && db'.scopes == db.scopes[k := grant.claims.scopes]
            && db'.policies == db.policies && db'.claims == db.claims
  {
  }

  lemma ApprovedDevices(c: Crypto, db: Db, p: Id, deviceId: Id, transcript: string, grant: SignedGrant, now: int)
    requires Inv(c, db) && ApprovalDone(c, db, p, deviceId, transcript, grant, now)
    ensures var db' := ApprovePairing(c, db, p, deviceId, transcript, grant, now).0;
            && DevicesOk(c, db'.devices.Keys, db'.keys)
            && LineagesOk(db'.devices.Keys, Owners(db'.lineages), Live(db'.revisions))
            && ClaimsOk(db'.devices.Keys, db'.claims)
            && QuotasOk(db.revisions)
  {
    hide PoliciesOk, DevicesOk, LineagesOk, GrantsOk, QueueOk, ExchangeLoads, ApprovedOk, ApprovePairing;
    ApprovalFacts(c, db, p, deviceId, transcript, grant, now);
    ApprovedColumns(c, db, p, deviceId, transcript, grant, now);
    var init := db.pairings[p].exchange.init;
    assert PairingOk(c, db.pairings, db.devices.Keys, db.keys, Held(db.revisions), db.scopes, p);
    DevicesGrow(c, db.devices.Keys, db.keys, deviceId, init.vpsKeyId,
                KeyRow(deviceId, 0, init.vpsPublicKey, now, None));
    LineageAdded(db.devices.Keys, Owners(db.lineages), Live(db.revisions), deviceId, grant.claims.grantId);
  }

  lemma ApprovedGrant(c: Crypto, db: Db, p: Id, deviceId: Id, transcript: string, grant: SignedGrant, now: int)
    requires ValidGrant(grant) && ApprovalDone(c, db, p, deviceId, transcript, grant, now)
    ensures var db' := ApprovedDb(c, db, p, deviceId, transcript, grant, now);
            GrantOk(c, db'.keys, db.policies.Keys, Owners(db'.lineages), Held(db'.revisions), db'.scopes,
                    GrantKey(grant.claims.grantId, 1))
    ensures QuotasOk(db.revisions) ==> QuotasOk(ApprovedDb(c, db, p, deviceId, transcript, grant, now).revisions)
  {
    hide ExchangeLoads, ApprovePairing, ApprovalDone;
    ApprovalFacts(c, db, p, deviceId, transcript, grant, now);
  }

  lemma ApprovedGrants(c: Crypto, db: Db, p: Id, deviceId: Id, transcript: string, grant: SignedGrant, now: int)
    requires Inv(c, db) && ValidGrant(grant) && ApprovalDone(c, db, p, deviceId, transcript, grant, now)
    ensures var db' := ApprovePairing(c, db, p, deviceId, transcript, grant, now).0;
            GrantsOk(c, db'.keys, db'.policies.Keys, Owners(db'.lineages), Held(db'.revisions), db'.scopes)
    ensures QuotasOk(ApprovePairing(c, db, p, deviceId, transcript, grant, now).0.revisions)
  {
    hide PoliciesOk, DevicesOk, LineagesOk, GrantsOk, GrantOk, QuotasOk, QueueOk, PairingsOk, ClaimsOk, ExchangeLoads,
         ApprovePairing, ApprovalDone, VerifyGrant;
    ApprovalFacts(c, db, p, deviceId, transcript, grant, now);
    ApprovedColumns(c, db, p, deviceId, transcript, grant, now);
    ApprovedGrant(c, db, p, deviceId, transcript, grant, now);
    var db' := ApprovedDb(c, db, p, deviceId, transcript, grant, now);
    var k := GrantKey(grant.claims.grantId, 1);
    GrantAdded(c, db.keys, db.policies.Keys, Owners(db.lineages), Held(db.revisions), db.scopes,
               db'.keys, Owners(db'.lineages), k, db'.revisions[k].stored, grant.claims.scopes);
  }

  /** the approved row itself: its grant is the one just inserted and repeats the request */
  lemma ApprovedRow(c: Crypto, db: Db, p: Id, deviceId: Id, transcript: string, grant: SignedGrant, now: int)
    requires ApprovalDone(c, db, p, deviceId, transcript, grant, now)
    ensures var db' := ApprovedDb(c, db, p, deviceId, transcript, grant, now);
            ApprovedOk(c, db'.devices.Keys, db'.keys, Held(db'.revisions), db'.scopes, db'.pairings[p])
  {
    hide ExchangeLoads, ApprovePairing, ApprovalDone;
    ApprovalFacts(c, db, p, deviceId, transcript, grant, now);
    var k := GrantKey(grant.claims.grantId, 1);
    var db' := ApprovedDb(c, db, p, deviceId, transcript, grant, now);
    assert Projected(c, k, db'.revisions[k].stored, db'.scopes[k]);
  }

  lemma ApprovedPairings(c: Crypto, db: Db, p: Id, deviceId: Id, transcript: string, grant: SignedGrant, now: int)
    requires Inv(c, db) && ApprovalDone(c, db, p, deviceId, transcript, grant, now)
    ensures var db' := ApprovePairing(c, db, p, deviceId, transcript, grant, now).0;
            && QueueOk(db'.pairings)
            && PairingsOk(c, db'.pairings, db'.devices.Keys, db'.keys, Held(db'.revisions), db'.scopes)
  {
    hide PoliciesOk, DevicesOk, LineagesOk, GrantOk, QuotasOk, QueueOk, PairingsOk, ClaimsOk,
         ExchangeLoads, ApprovePairing, ApprovalDone, VerifyGrant, ApprovedOk;
    ApprovalFacts(c, db, p, deviceId, transcript, grant, now);
    ApprovedColumns(c, db, p, deviceId, transcript, grant, now);
    ApprovedRow(c, db, p, deviceId, transcript, grant, now);
    var db' := ApprovedDb(c, db, p, deviceId, transcript, grant, now);
    assert Held(db.revisions).Keys == db.scopes.Keys;
    PairingsGrow(c, db.pairings, db.devices.Keys, db.keys, Held(db.revisions), db.scopes,
                 db'.devices.Keys, db'.keys, Held(db'.revisions), db'.scopes);
    RowDecided(c, db.pairings, db'.devices.Keys, db'.keys, Held(db'.revisions), db'.scopes, p, db'.pairings[p]);
  }

  lemma ApprovedKeeps(c: Crypto, db: Db, p: Id, deviceId: Id, transcript: string, grant: SignedGrant, now: int)
    requires Inv(c, db) && ValidGrant(grant) && ApprovalDone(c, db, p, deviceId, transcript, grant, now)
    ensures Inv(c, ApprovePairing(c, db, p, deviceId, transcript, grant, now).0)
  {
    hide PoliciesOk, DevicesOk, LineagesOk, GrantsOk, QuotasOk, QueueOk, PairingsOk, ClaimsOk, ApprovePairing;
    ApprovalFacts(c, db, p, deviceId, transcript, grant, now);
    ApprovedDevices(c, db, p, deviceId, transcript, grant, now);
    ApprovedGrants(c, db, p, deviceId, transcript, grant, now);
    ApprovedPairings(c, db, p, deviceId, transcript, grant, now);
  }

  lemma ApprovePairingKeeps(
    c: Crypto, db: Db, p: Id, deviceId: Id, transcript: string, grant: SignedGrant, now: int)
    requires Inv(c, db) && ValidGrant(grant)
    ensures Inv(c, ApprovePairing(c, db, p, deviceId, transcript, grant, now).0)
  {
    hide PoliciesOk, DevicesOk, LineagesOk, GrantsOk, QuotasOk, QueueOk, PairingsOk, ClaimsOk;
    var (db', reply) := ApprovePairing(c, db, p, deviceId, transcript, grant, now);
    if reply.Done? {
      ApprovedKeeps(c, db, p, deviceId, transcript, grant, now);
    } else if db' != db {
      CloseKeeps(c, db, p, Expired, now);
    }
  }

  // ------------------------------------------------------------------ preservation: grants and policy

  lemma LineageAdvanced(ids: set<Id>, owners: map<Id, Id>, live: map<GrantKey, bool>, g: Id, m: int)
    requires LineagesOk(ids, owners, live) && g in owners && RevisionsAre(live, g, m)
    ensures LineagesOk(ids, owners, live[GrantKey(g, m) := false][GrantKey(g, m + 1) := true])
  {
    var live' := live[GrantKey(g, m) := false][GrantKey(g, m + 1) := true];
    forall h | h in owners ensures Chained(live', h) {
      if h == g {
        assert RevisionsAre(live', g, m + 1);
      } else {
        assert Chained(live, h);
        var n :| RevisionsAre(live, h, n);
        assert RevisionsAre(live', h, n);
      }
    }
  }

  /** what a completed replacement has checked */
  lemma ReplacementFacts(c: Crypto, db: Db, grant: SignedGrant, now: int)
    requires ReplaceGrant(c, db, grant, now).1.Done?
    ensures VerifyGrant(c, grant, c.connectorKey, c.connectorKeyId, grant.claims.subjectKeyId, now)
    ensures grant.claims.grantId in db.lineages && CurrentRevision(db, grant.claims.grantId).Some?
    ensures var k := CurrentRevision(db, grant.claims.grantId).value;
            && Loads(c, db, k)
            && grant.claims.revision == ClaimsOf(db, k).revision + 1
            && grant.claims.subjectKeyId == ClaimsOf(db, k).subjectKeyId
            && grant.claims.policyRevision in db.policies
            && ReplaceGrant(c, db, grant, now).0 ==
                 InsertRevision(
                   c, db.(revisions := db.revisions[k := db.revisions[k].(supersededAt := Some(now))]), grant)
  {
    hide Loads, VerifyGrant, RevisionConflict;
    CurrentPolicyMember(db);
  }

  lemma ReplacedColumns(c: Crypto, db: Db, grant: SignedGrant, now: int, m: int)
    requires GrantKey(grant.claims.grantId, m) in db.revisions && grant.claims.revision == m + 1
    requires GrantKey(grant.claims.grantId, m + 1) !in db.revisions
    ensures var k, next := GrantKey(grant.claims.grantId, m), GrantKey(grant.claims.grantId, m + 1);
            var db' := InsertRevision(
                         c, db.(revisions := db.revisions[k := db.revisions[k].(supersededAt := Some(now))]), grant);
            && Live(db'.revisions) == Live(db.revisions)[k := false][next := true]
            && next in db'.revisions
            && Held(db'.revisions) == Held(db.revisions)[next := db'.revisions[next].stored]
            && (QuotasOk(db.revisions) && ValidGrant(grant) ==> QuotasOk(db'.revisions))
  {
  }

  lemma ReplaceGrantKeeps(c: Crypto, db: Db, grant: SignedGrant, now: int)
    requires Inv(c, db) && ValidGrant(grant)
    ensures Inv(c, ReplaceGrant(c, db, grant, now).0)
  {
    hide PoliciesOk, DevicesOk, QuotasOk, QueueOk, PairingsOk, ClaimsOk, ReplaceGrant, GrantOk, RevisionsAre;
    if ReplaceGrant(c, db, grant, now).1.Done? {
      ReplacedKeeps(c, db, grant, now);
    } else {
      FailedReplacement(c, db, grant, now);
    }
  }

  lemma FailedReplacement(c: Crypto, db: Db, grant: SignedGrant, now: int)
    requires !ReplaceGrant(c, db, grant, now).1.Done?
    ensures ReplaceGrant(c, db, grant, now).0 == db
  {
    hide Loads, VerifyGrant, RevisionConflict;
  }

  /** the replacement revision is good where the one it supersedes was */
  lemma ReplacedGrant(c: Crypto, db: Db, db': Db, grant: SignedGrant, now: int, m: int, owners: map<Id, Id>)
    requires ReplaceGrant(c, db, grant, now).1.Done? && ValidGrant(grant) && db' == ReplaceGrant(c, db, grant, now).0
    requires CurrentRevision(db, grant.claims.grantId) == Some(GrantKey(grant.claims.grantId, m))
    requires GrantOk(c, db.keys, db.policies.Keys, owners, Held(db.revisions), db.scopes,
                     GrantKey(grant.claims.grantId, m))
    ensures db'.keys == db.keys && db'.devices == db.devices && db'.lineages == db.lineages
            && db'.policies == db.policies
    ensures db'.pairings == db.pairings && db'.claims == db.claims
    ensures grant.claims.revision == m + 1
    ensures var next := GrantKey(grant.claims.grantId, m + 1);
            && db'.scopes == db.scopes[next := grant.claims.scopes]
            && GrantOk(c, db.keys, db.policies.Keys, owners, Held(db'.revisions), db'.scopes, next)
  {
    hide ReplaceGrant;
    ReplacementFacts(c, db, grant, now);
  }

  lemma ReplacedKeeps(c: Crypto, db: Db, grant: SignedGrant, now: int)
    requires Inv(c, db) && ValidGrant(grant) && ReplaceGrant(c, db, grant, now).1.Done?
    ensures Inv(c, ReplaceGrant(c, db, grant, now).0)
  {
    hide PoliciesOk, DevicesOk, QuotasOk, QueueOk, PairingsOk, ClaimsOk, ReplaceGrant, VerifyGrant, Loads, GrantOk,
         CurrentRevision;
    ReplacementFacts(c, db, grant, now);
    var g := grant.claims.grantId;
    var held, owners := Held(db.revisions), Owners(db.lineages);
    assert g in owners && Chained(Live(db.revisions), g);
    var m :| RevisionsAre(Live(db.revisions), g, m);
    CurrentRevisionIs(db, g, m);
    var k, next := GrantKey(g, m), GrantKey(g, m + 1);
    assert k in Live(db.revisions) && next !in Live(db.revisions);
    assert k in held && next !in held;
    assert GrantOk(c, db.keys, db.policies.Keys, owners, held, db.scopes, k);
    var db' := ReplaceGrant(c, db, grant, now).0;
    ReplacedGrant(c, db, db', grant, now, m, owners);
    ReplacedColumns(c, db, grant, now, m);
    LineageAdvanced(db.devices.Keys, owners, Live(db.revisions), g, m);
    ReplacedRest(c, db, db', owners, next, grant);
  }

  lemma ReplacedRest(c: Crypto, db: Db, db': Db, owners: map<Id, Id>, next: GrantKey, grant: SignedGrant)
    requires GrantsOk(c, db.keys, db.policies.Keys, owners, Held(db.revisions), db.scopes)
    requires PairingsOk(c, db.pairings, db.devices.Keys, db.keys, Held(db.revisions), db.scopes)
    requires next !in Held(db.revisions) && next in db'.revisions
    requires Held(db'.revisions) == Held(db.revisions)[next := db'.revisions[next].stored]
    requires db'.scopes == db.scopes[next := grant.claims.scopes]
    requires GrantOk(c, db.keys, db.policies.Keys, owners, Held(db'.revisions), db'.scopes, next)
    ensures GrantsOk(c, db.keys, db.policies.Keys, owners, Held(db'.revisions), db'.scopes)
    ensures PairingsOk(c, db.pairings, db.devices.Keys, db.keys, Held(db'.revisions), db'.scopes)
  {
    hide GrantOk, PairingsOk;
    GrantAdded(c, db.keys, db.policies.Keys, owners, Held(db.revisions), db.scopes,
               db.keys, owners, next, db'.revisions[next].stored, grant.claims.scopes);
    PairingsGrow(c, db.pairings, db.devices.Keys, db.keys, Held(db.revisions), db.scopes,
                 db.devices.Keys, db.keys, Held(db'.revisions), db'.scopes);
  }

  lemma RevokeDeviceKeeps(c: Crypto, db: Db, deviceId: Id, now: int)
    requires Inv(c, db)
    ensures Inv(c, RevokeDevice(db, deviceId, now).0)
  {
    hide PoliciesOk, DevicesOk, LineagesOk, GrantsOk, QuotasOk, QueueOk, PairingsOk, ClaimsOk;
    assert RevokeDevice(db, deviceId, now).0.devices.Keys == db.devices.Keys;
  }

  lemma RevokeGrantKeeps(c: Crypto, db: Db, grantId: Id, now: int)
    requires Inv(c, db)
    ensures Inv(c, RevokeGrant(db, grantId, now).0)
  {
    hide PoliciesOk, DevicesOk, LineagesOk, GrantsOk, QuotasOk, QueueOk, PairingsOk, ClaimsOk;
    hide Owners;
    if grantId in db.lineages { RevokedOwners(db.lineages, grantId, now); }
  }

  lemma RevokedOwners(lineages: map<Id, LineageRow>, grantId: Id, now: int)
    requires grantId in lineages
    ensures Owners(lineages[grantId := lineages[grantId].(revokedAt := Some(now))]) == Owners(lineages)
  {
  }

  lemma AdvancePolicyKeeps(c: Crypto, db: Db, digest: string, now: int)
    requires Inv(c, db)
    ensures Inv(c, AdvancePolicy(db, digest, now).0)
  {
    hide DevicesOk, LineagesOk, QuotasOk, QueueOk, PairingsOk, ClaimsOk, Projected;
    var (db', reply) := AdvancePolicy(db, digest, now);
    if reply.Done? {
      var n :| PoliciesAre(db.policies, n);
      CurrentPolicyIs(db, n);
      assert PoliciesAre(db'.policies, n + 1);
      var owners, held := Owners(db.lineages), Held(db.revisions);
      forall k | k in held ensures GrantOk(c, db.keys, db'.policies.Keys, owners, held, db.scopes, k) {
        assert GrantOk(c, db.keys, db.policies.Keys, owners, held, db.scopes, k);
      }
    }
  }

  // ------------------------------------------------------------------ preservation: claims

  /** what acceptance says about the row that is spent */
  lemma AcceptedFacts(c: Crypto, db: Db, r: SignedRequest, scope: Scope, now: int)
    requires Judge(c, db, r, scope, now).Accept?
    ensures Authenticate(c, db, r).Accept? && r.requestId !in db.claims
    ensures DeviceOf(db, r.subjectKeyId).Some?
    ensures db.devices[DeviceOf(db, r.subjectKeyId).value].revokedAt.None?
    ensures r.issuedAt <= now + CLOCK_SKEW_SECONDS && now < r.deadline
    ensures Spendable(db, r, scope)
    ensures db.lineages[r.grantId].deviceId == DeviceOf(db, r.subjectKeyId).value
    ensures CurrentPolicy(db) == Some(r.policyRevision)
    ensures Loads(c, db, GrantKey(r.grantId, r.grantRevision))
    ensures var claims := ClaimsOf(db, GrantKey(r.grantId, r.grantRevision));
            claims.subjectKeyId == r.subjectKeyId && claims.notBefore <= now < claims.expiresAt
            && claims.policyRevision == r.policyRevision && scope in claims.scopes
    ensures scope.source == r.source && scope.operation == r.operation
  {
    hide Loads;
  }

  /** spending one use keeps the quota, changes no signed column and records a known device */
  lemma SpentColumns(c: Crypto, db: Db, r: SignedRequest, scope: Scope, now: int)
    requires Judge(c, db, r, scope, now).Accept? && IsTimestamp(now)
    ensures var db' := Claim(c, db, r, scope, now).0;
            && Held(db'.revisions) == Held(db.revisions) && Live(db'.revisions) == Live(db.revisions)
            && (QuotasOk(db.revisions) ==> QuotasOk(db'.revisions))
            && (ClaimsOk(db.devices.Keys, db.claims) ==> ClaimsOk(db'.devices.Keys, db'.claims))
  {
    hide Judge;
    AcceptedFacts(c, db, r, scope, now);
  }

  lemma ClaimKeeps(c: Crypto, db: Db, r: SignedRequest, scope: Scope, now: int)
    requires Inv(c, db)
    ensures Inv(c, Claim(c, db, r, scope, now).0)
  {
    hide PoliciesOk, DevicesOk, LineagesOk, GrantsOk, QuotasOk, QueueOk, PairingsOk, Assess, Authenticate;
    if IsTimestamp(now) && Judge(c, db, r, scope, now).Accept? {
      SpentColumns(c, db, r, scope, now);
    } else {
      RefusedClaim(c, db, r, scope, now);
    }
  }

  /** a claim that is not accepted changes the claims table at most */
  lemma RefusedClaim(c: Crypto, db: Db, r: SignedRequest, scope: Scope, now: int)
    requires !(IsTimestamp(now) && Judge(c, db, r, scope, now).Accept?)
    ensures var db' := Claim(c, db, r, scope, now).0;
            && db' == db.(claims := db'.claims)
            && (ClaimsOk(db.devices.Keys, db.claims) ==> ClaimsOk(db'.devices.Keys, db'.claims))
  {
    hide Assess;
  }

  lemma DenyRequestKeeps(c: Crypto, db: Db, r: SignedRequest, cause: ErrorCode, now: int)
    requires Inv(c, db)
    ensures Inv(c, DenyRequest(c, db, r, cause, now).0)
  {
    hide PoliciesOk, DevicesOk, LineagesOk, GrantsOk, QuotasOk, QueueOk, PairingsOk;
  }

  lemma CompleteClaimKeeps(c: Crypto, db: Db, requestId: Id, digest: string, now: int)
    requires Inv(c, db)
    ensures Inv(c, CompleteClaim(db, requestId, digest, now).0)
  {
    hide PoliciesOk, DevicesOk, LineagesOk, GrantsOk, QuotasOk, QueueOk, PairingsOk;
  }

  lemma CleanupKeeps(c: Crypto, db: Db, now: int)
    requires Inv(c, db)
    ensures Inv(c, Cleanup(db, now).0)
  {
    hide PoliciesOk, DevicesOk, LineagesOk, GrantsOk, QuotasOk, QueueOk, PairingOk;
    if IsTimestamp(now) {
      var swept, db' := Expire(db, now), Cleanup(db, now).0;
      ExpireKeeps(c, db, now);
      QueueShrinks(swept.pairings, db'.pairings);
      forall p | p in db'.pairings
        ensures PairingOk(c, db'.pairings, db.devices.Keys, db.keys, Held(db.revisions), db.scopes, p)
      {
        SameRow(c, swept.pairings, db'.pairings, db.devices.Keys, db.keys, Held(db.revisions), db.scopes, p);
      }
    }
  }
}
