# Trusted-device authority: a Dafny model

Hermes Reach lets a VPS ask a trusted device, the Connector, to run operations on its owner's behalf. The Connector
pairs with the VPS, signs a grant, claims each signed request once against the grant's quota, hands it to an executor
while its authority is live, and signs a receipt the VPS verifies and keeps in a hash-chained ledger. This project models
that protocol and the components around it, and proves what they promise over whole runs.

Run `dafny verify dfyconfig.toml`.

## How the files fit together

- `Prelude`, `Errors`, `Records`: shared datatypes, the frozen limits, the error taxonomy, the v1 records, and what is
  taken from cryptography (`Trust.Crypto`, a record of functions about which nothing is assumed beyond what a lemma states).
- `Store`, `StoreInvariant`, `StoreRun`, `AuthorityStore`: the authority database as maps, each transaction as a function
  on them, the stored-state invariant, runs of transactions, and the store object whose methods are proved against those
  functions. `ClaimOutcome`, `Outcomes`: what each transaction answers and writes, in terms of the stored rows alone.
- `Receipts`, `Execution`, `Authority`, `Service`, `Client`, `PairingRun`, `EndToEnd`: receipts, one-use execution, the lock
  sections of the authority, the service object with its pairing handler and approval, the VPS profile file and client
  loops, both sides of pairing in one run, and the whole request path as one interleaved state machine. `PairingOutcome`,
  `ClientOutcome`, `Progress`: every answer of the pairing handler, the owner and the profile file with its exact
  condition, a pairing carried through, and what becomes of a call that nothing disturbs. `Requests`: the request the VPS
  builds, and when it is accepted.
- `Json`, `Codecs`, `Wire`, `WireClaims`, `WireRecords`, `Constructors`: canonical JSON with its printer and parser, base32
  and base64, the pairing transcript and authentication string, and the encoding of every record. `WireForm`, `Documents`,
  `Formats`: what stands under each key of the encodings, and the texts, alphabets and layouts they are made of.
- `Ledger`, `LedgerFile`, `Runner`, `FileGrants`, `ModelPolicy`, `Contracts`: the receipt ledger and its file, bounded
  execution and output, one-use file grants, the model policy and what it prepares, and request validation with the
  protected call. `RunnerOutcome`, `RequestOutcome`: what bounding keeps, attempts come to and requests mean, exactly.

## Assumptions

- Signatures: in `EndToEnd` a request that verifies under the client's key is one the client has sent, and a receipt that
  verifies under the Connector's key is one it has issued; both are guards of actions. Where a lemma needs the Connector's
  own signatures to verify, it says so (`Receipts.Sound`, `Service.OwnKey`).
- Identifiers: no two calls of a client share a request identifier; it is drawn at random in the source and is a guard of
  starting a call in `EndToEnd` (`EndToEnd.Fresh`).
- Hashes: results that rest on collision resistance conclude with an exhibited collision as the alternative.
- Clocks: replay safety of claims needs only that a claim is not given an earlier time than a cleanup that ran before it,
  which `EndToEnd` derives from one non-decreasing Connector clock; replay safety of pairings and of ledger entries is
  stated for non-decreasing times.

## What the proofs showed about the code

- `begin_pairing` stores a challenge whose deadline differs from the init's, which the loader then refuses
  (`StoreInvariant.MismatchedDeadlineIsStored`, and exactly when: `StoreInvariant.BeginPairingKeeps`); the service never
  makes one.
- The thirty seconds of clock skew that pairing verification tolerates are lost on requests that use the whole pairing
  lifetime, as the VPS's do (`Service.EarlyRequestIsRefused`, and exactly when: `Service.ChallengedExactly`), and a VPS
  whose clock is behind the Connector's at the approval refuses its resolution until it has caught up
  (`Service.ClockBehindIsRefused`, and exactly when: `Service.AcceptedFromApproval`).
- A success that crosses the deadline between the service's two clock readings gets no receipt
  (`Receipts.LateSuccessGetsNoReceipt`, and exactly when: `Receipts.ServiceIssues`).
- An empty display string can become None without setting the truncation flag (`Runner.EmptyDisplayUnflagged`, and exactly
  when: `Runner.UnsetFlagExactly`).
- An attempt's wait is bounded from a clock reading before the one that starts it, so an adapter can run past the total
  timeout by what lies between the two (`Runner.LateStartOverruns`, and exactly when: `Runner.NeverLateExactly`); at most one
  adapter of a run does (`Runner.OneOverrun`).
- The ledger's version check accepts the JSON value true for 1, and its base64 decoder accepts non-zero pad bits
  (`Ledger.TrueForOneParses`, `Ledger.PadBitsIgnored`). Lines with these freedoms are all that parses besides the written
  line, and they parse as the same record (`Ledger.LineParsesExactly`, `Ledger.WrittenExactly`).
- The ledger reads a file whose last line has no line break, and an append to such a file makes it unreadable
  (`LedgerFile.AppendFileExactly`, `LedgerFile.UnfinishedStillReads`); the files it writes itself always end in a break
  (`LedgerFile.RunRefines`).

## Model

| member | source | states |
|---|---|---|
| StoreInvariant.InvariantOpens | src/hermes_reach/connector/store.py:1259-1323 | Every state satisfying the invariant passes all the checks `open` makes: references, one current policy, loadable pairings and grants, one active key per device, one current revision per lineage, grant subjects owned by the lineage's device. |
| StoreInvariant.BeginPairingKeeps | src/hermes_reach/connector/store.py:360-416 | Opening a pairing keeps the invariant if and only if the challenge repeats the init's deadline, which `begin_pairing` itself does not compare but the loader at line 1474 demands, or one of the checks before the insert (signatures and windows, room in the queue, no conflicting row) fails; and it opens exactly when those checks pass. |
| StoreInvariant.MismatchedDeadlineIsStored | src/hermes_reach/connector/store.py:360-416 | A concrete init and challenge, one second apart in their deadlines, that a fresh store takes and then cannot be opened with. |
| StoreInvariant.OpenedQueue | src/hermes_reach/connector/store.py:384-392 | At most three pairings are pending and at most one for a key, after sweeping and inserting. |
| StoreInvariant.ApprovePairingKeeps | src/hermes_reach/connector/store.py:517-619 | Approval, its expiry branch included, keeps the invariant: the new row, device, key, lineage and revision agree with each other and with the signed grant. |
| StoreInvariant.ReplaceGrantKeeps | src/hermes_reach/connector/store.py:638-698 | Replacing a grant keeps revisions 1..n with only n current, owned by the same subject, projections equal to signed claims. |
| StoreInvariant.AdvancePolicyKeeps | src/hermes_reach/connector/store.py:708-732 | Policy revisions stay exactly 1..n with only the last live. |
| StoreInvariant.ClaimKeeps | src/hermes_reach/connector/store.py:734-924 | A claim, accepted or denied, keeps the invariant, counters within quotas included. |
| StoreInvariant.CleanupKeeps | src/hermes_reach/connector/store.py:1057-1077 | Sweeping and pruning keep the invariant. |
| Database.AuthorityStore.BeginPairing | src/hermes_reach/connector/store.py:360-416 | The method changes the tables and replies exactly as the transaction specification says, rolls back on every error, and leaves a valid store exactly when deadlines agree. |
| Database.AuthorityStore.PairingState | src/hermes_reach/connector/store.py:418-447 | Commits the sweep when it returns, rolls it back when it raises, and returns only state of the very same init. |
| Database.AuthorityStore.ApprovePairing | src/hermes_reach/connector/store.py:517-619 | As specified; an expired pairing commits its expiry before it raises, every other failure changes nothing. |
| Database.AuthorityStore.ReplaceGrant | src/hermes_reach/connector/store.py:638-698 | As specified; a conflicting insert undoes the supersession. |
| Database.AuthorityStore.AdvancePolicy | src/hermes_reach/connector/store.py:708-732 | As specified; a repeated digest undoes the replacement. |
| Database.AuthorityStore.Claim | src/hermes_reach/connector/store.py:734-924 | The checks in the source's order, one use spent and one allow row written on acceptance, one deny row on an authenticated refusal, nothing otherwise. |
| Database.AuthorityStore.DenyAuthenticatedRequest | src/hermes_reach/connector/store.py:955-994 | One deny row for an authenticated unseen request, and nothing otherwise. |
| Database.AuthorityStore.CompleteClaim | src/hermes_reach/connector/store.py:996-1015 | Only an accepted, uncompleted claim no later than now is completed, once. |
| Database.AuthorityStore.Cleanup | src/hermes_reach/connector/store.py:1057-1077 | Sweeps, then drops exactly the decided pairings and the claims older than the retention window, and counts each. |
| Database.AuthorityStore.RevokeDevice | src/hermes_reach/connector/store.py:1079-1101 | Idempotent; the first revocation time stays. |
| StoreRun.StepKeeps | src/hermes_reach/connector/store.py:360-1101 | Every transaction, under the service's way of calling it, keeps the whole invariant. |
| StoreRun.RunOpens | src/hermes_reach/connector/store.py:1259-1323 | From a fresh database, every state any run of transactions reaches passes the checks of `open`. |
| StoreRun.RunLasts | src/hermes_reach/connector/store.py:1797-1829 | Over any run, rows of devices, keys, lineages, revisions and policies stay, signed columns never change, counters never fall, and revocation, supersession and replacement times once set never change, as the schema's triggers demand. |
| StoreRun.RevokedDeviceNeverAccepted | src/hermes_reach/connector/store.py:764-771 | After a device is revoked no later claim signed by its keys is accepted, in any run. |
| StoreRun.RevokedGrantNeverAccepted | src/hermes_reach/connector/store.py:797-804 | After a grant is revoked no later claim on it is accepted. |
| StoreRun.SupersededNeverAccepted | src/hermes_reach/connector/store.py:805-819 | After a revision is superseded no later claim on it is accepted. |
| StoreRun.ReplacedPolicyNeverAccepted | src/hermes_reach/connector/store.py:838-850 | After a policy revision is replaced no later claim under it is accepted. |
| StoreRun.AcceptedApart | src/hermes_reach/connector/store.py:755-763 | Two accepted claims on one request identifier are more than thirty days apart, with cleanups anywhere. |
| StoreRun.NoRequestAcceptedTwice | src/hermes_reach/connector/store.py:755-782 | No signed request is accepted twice in any run with cleanups anywhere: its life plus skew is shorter than retention. Needs only that a claim is not given an earlier time than a cleanup before it. |
| StoreRun.NoInitOpenedTwice | src/hermes_reach/connector/store.py:393-412 | Each signed PairingInit gets at most one stored challenge, wherever cleanups fall. |
| StoreRun.StepRow | src/hermes_reach/connector/store.py:360-640 | One stored pairing across one transaction is untouched, closed, approved, newly opened, or pruned after retention; nothing else can happen to it. |
| StoreRun.PairingOrigin | src/hermes_reach/connector/store.py:393-410 | Every stored pairing was opened by an earlier transaction with exactly its init and challenge. |
| StoreRun.NoInitApprovedTwice | src/hermes_reach/connector/store.py:535-600 | No signed PairingInit is approved twice, wherever cleanups fall. |
| StoreRun.StepCounts | src/hermes_reach/connector/store.py:862-892 | A transaction changes a revision's counter only by an accepted claim on it, and then by one. |
| StoreRun.UsesCounted | src/hermes_reach/connector/store.py:862-892 | Over any run a revision's `used_count` is the number of claims accepted on it. |
| StoreRun.QuotaNeverExceeded | src/hermes_reach/connector/store.py:1769-1780 | Accepted claims on a revision never exceed its signed `max_uses`. |
| StoreRun.KthUseNumbered | src/hermes_reach/connector/store.py:893-920 | The k-th accepted claim on a revision is answered with sequence k and remaining `max_uses`-k. |
| StoreRun.ExhaustedIsExact | src/hermes_reach/connector/store.py:862-892 | GRANT_LIMIT_EXHAUSTED is exact: the guarded UPDATE misses if and only if the quota is spent and the same request would be accepted with the counter at zero. |
| ClaimOutcome.ClaimAcceptedExactly | src/hermes_reach/connector/store.py:734-924 | For any request at all: a claim is accepted exactly when a paired key signed it for this Connector, it was not seen before, its device is unrevoked, it is in its window with thirty seconds of skew, the current revision of an unrevoked grant of that device is the one it names, with its subject, window, policy and scope, and a use is left. |
| ClaimOutcome.ClaimDecides | src/hermes_reach/connector/store.py:746-912 | An authentic unseen request gets the cause of the first of the ten conditions that fails, in the order of the source, in the reply and in the one row written; or it spends one use and is recorded with it. |
| ClaimOutcome.UnprovenClaim | src/hermes_reach/connector/store.py:747-763 | What an unauthentic or repeated request gets, and that nothing is written for it. |
| Outcomes.DenialDecides | src/hermes_reach/connector/store.py:955-994 | Exactly an authentic unseen request is recorded as denied, with the given cause. |
| Outcomes.CompletedOnce | src/hermes_reach/connector/store.py:996-1015 | A completion writes its time and digest into the accepted claim and nothing else, and every later one is refused. |
| Outcomes.AcceptedCompletes | src/hermes_reach/connector/store.py:996-1015 | What was accepted can be completed at any time from then on. |
| Outcomes.StateFound | src/hermes_reach/connector/store.py:418-447 | A verifying init finds its own pairing as it is seen now, none when its identifier is free, and a refusal with nothing changed when another init holds it. |
| Outcomes.PairingShown | src/hermes_reach/connector/store.py:449-470 | The operator is shown exactly the pairing as it is now. |
| Outcomes.DeniedExactly | src/hermes_reach/connector/store.py:621-636 | A denial closes exactly a pending pairing still in time. |
| Outcomes.ReplacedExactly | src/hermes_reach/connector/store.py:638-698 | A replacement succeeds exactly for a grant in force that follows the live revision of an unrevoked lineage of an unrevoked device with a new digest; every other case has its own answer and changes nothing. |
| Outcomes.ScopeFound | src/hermes_reach/connector/store.py:926-953 | The scope looked up for a request is the one signed scope of its current grant for its source and operation. |
| Outcomes.RevokedExactly | src/hermes_reach/connector/store.py:1079-1101 | The first revocation of a known device or lineage sets its time, later ones leave it, nothing else changes, and an unknown one is refused. |
| Outcomes.AdvancedExactly | src/hermes_reach/connector/store.py:708-732 | An advance succeeds exactly with a digest never stored before, adds the next revision and ends the current one. |
| Outcomes.CleanedExactly | src/hermes_reach/connector/store.py:1057-1077 | Exactly the pairings that are pending, just expired or decided within thirty days stay, exactly the claims within thirty days stay, and the counts are the rows dropped. |
| Outcomes.CountsExpired | src/hermes_reach/connector/store.py:1062-1066 | The first count is the number of pairings that expired now. |
| HandoffOutcome.PrevalidatedExactly | src/hermes_reach/connector/authority.py:249-281 | Outside the lock a request passes exactly when a paired key signed it for this Connector, its payload matches and it is in its window with skew. |
| HandoffOutcome.LockedDecides | src/hermes_reach/connector/authority.py:282-292 | A locked authority records an authentic unseen request as denied for the locked key and hands out no issuer. |
| HandoffOutcome.HandedOffExactly | src/hermes_reach/connector/authority.py:282-310 | Unlocked, the handoff is made exactly when every condition of the claim holds for the bound scope, or for the grant's own scope where none is bound. |
| Authority.SectionIsOneTransaction | src/hermes_reach/connector/authority.py:282-310 | A lock section is at most one store transaction, accepts exactly when that transaction does, and never while locked. |
| Authority.OnlyAdministrationRevokes | src/hermes_reach/connector/authority.py:312-326 | Nothing but the four administrative operations can end what a live claim depends on. |
| Authority.AcceptedIsLive | src/hermes_reach/connector/authority.py:282-310 | Right after acceptance the device, lineage, revision and policy of the claim are live. |
| Authorities.GrantAuthority.AuthorizeAndHandoff | src/hermes_reach/connector/authority.py:249-310 | One handoff exactly when the claim is accepted, with the claim's own request and use, while unlocked and live; otherwise none. |
| Authorities.GrantAuthority.Activate | src/hermes_reach/connector/authority.py:233-241 | Only the store's own Connector identity unlocks. |
| Authorities.GrantAuthority.AdvancePolicyRevision | src/hermes_reach/connector/authority.py:324-326 | Inside the lock, exactly the store's own replacement of the policy revision. |
| Receipts.IssuedVerifies | src/hermes_reach/connector/protocol.py:2612-2652 | The verdict on an issued receipt at every time: good exactly from 30 seconds before its end until its expiry, and before the request deadline when ok; otherwise expired. |
| Receipts.IssuedVerifiesFor | src/hermes_reach/connector/protocol.py:2612-2652 | For any request, the one it was issued for or another: an issued receipt verifies exactly for those that repeat the identifiers, grant, policy, operation and payload it was issued for, inside both windows. |
| Receipts.ResponseAgrees | src/hermes_reach/connector/protocol.py:1126-1145 | The response around an issued receipt can be built exactly when its result is inside the operation's bounds, and the client then accepts it at exactly those times. |
| Receipts.ServiceIssues | src/hermes_reach/connector/service.py:899-916 | The service gets a receipt exactly when its expiry is representable and a success is still before the deadline at the second clock reading; a success that crosses the deadline between the two readings gets none. |
| Receipts.LateSuccessGetsNoReceipt | src/hermes_reach/connector/service.py:899-916 | A concrete success that is in time at the first clock reading and gets no receipt at the second. |
| Issuers.BoundReceiptIssuer.Sign | src/hermes_reach/connector/authority.py:136-204 | At most one receipt per decision whatever is attempted; a failed attempt changes nothing and a later one may succeed; what is signed names the decision and reports the very cause, failure, backend and result it ended with. |
| Receipts.IssuedSays | src/hermes_reach/connector/authority.py:136-204 | Every issued receipt names its request, decision, use and identifiers field by field, and reports the cause of a denial, or the very failure, backend and result digest the execution ended with. |
| Execution.Compose | src/hermes_reach/connector/execution.py:133-145 | The registry is built exactly when no operation is bound twice, and then holds exactly the given bindings. |
| Execution.Preparation | src/hermes_reach/connector/execution.py:166-194 | A preparation can start only a binding whose scope is the authorized one. |
| Execution.PreparedConnectorExecution.Execute | src/hermes_reach/connector/execution.py:235-303 | Over any sequence of calls the executor starts at most once; a result comes only from that start and inside the bounds; every start without a result is cleaned up. |
| Execution.PreparedConnectorExecution.Close | src/hermes_reach/connector/execution.py:229-233 | After closing, nothing starts. |
| Requests.BuiltRequestPasses | src/hermes_reach/connector/client.py:635-667 | A request the VPS builds from its profile meets its constructor's bounds, and while the Connector holds that grant live it is accepted exactly from the grant's start, without skew, and from thirty seconds before its issue, until its deadline. |
| Requests.GrantErrorDecides | src/hermes_reach/connector/client.py:864-890 | For a committed profile the VPS's own check comes down to the grant's window, without skew, and a scope for the operation. |
| EndToEnd.AlwaysSane | src/hermes_reach/connector/service.py:830-916 | The global invariant holds over every interleaving of clients, network, handlers, administration and other transactions. |
| EndToEnd.AtMostOnce | src/hermes_reach/connector/client.py:635-786 | Over every interleaving, with frames lost, repeated and reordered, one signed request has at most one accepted claim, one handoff and one execution, and one call sends at most twice. |
| EndToEnd.OkMeansClaimed | src/hermes_reach/connector/client.py:718-761 | An ok response returned to the client means exactly one accepted claim for that signed request, its use number and remaining quota in the receipt, and a step of the run in which that claim's handler executed and produced a result with the digest of the one returned. |
| EndToEnd.ProducedByRun | src/hermes_reach/connector/service.py:883-916 | Whatever a handler answers with after an accepted claim, failure, backend or result, is how an execution step of that very handler ended. |
| EndToEnd.HandoffsAreLive | src/hermes_reach/connector/authority.py:282-310 | Every handoff in every interleaving runs while the authority is unlocked and everything its claim depended on is unrevoked, current and unreplaced. |
| EndToEnd.NoHandoffAfterRevocation | src/hermes_reach/connector/authority.py:312-326 | After a device, grant, revision or policy revision has ended, no later handoff depends on it. |
| EndToEnd.LockedStartsNothing | src/hermes_reach/connector/authority.py:243-247 | While locked nothing is accepted and nothing is handed off. |
| EndToEnd.FailureMeansDecided | src/hermes_reach/connector/client.py:756-761 | A failure the client raises from a trusted receipt is the cause of the store's refusal of that very request, at a position of the log, or the failure that an execution step of its accepted claim's handler ended with. |
| EndToEnd.BreakDecides | src/hermes_reach/connector/client.py:763-786 | A broken exchange is sent again exactly when it was the first, time is left, the fault is offline or deadline, and nothing says the frame was delivered; otherwise the call is given up. |
| Progress.CallReturns | src/hermes_reach/connector/service.py:830-916 | In any reachable state, a call nothing disturbs whose request meets every condition of the store returns exactly the result its execution produced, or raises exactly its failure, after one claim, handoff and execution, with the next use of the grant on the receipt. |
| Progress.CallRefused | src/hermes_reach/connector/service.py:830-916 | One whose request fails a condition raises the cause of the first that fails, and nothing is handed off or executed for it. |
| EndToEnd.SameHandler | src/hermes_reach/connector/service.py:848-871 | Two handlers with an accepted claim on one request are one handler. |
| EndToEnd.Replier | src/hermes_reach/connector/client.py:718-736 | The receipt a client trusted was issued by the handler of that very request. |
| ClientLoops.ExchangeWithRetry | src/hermes_reach/connector/client.py:763-786 | A second send happens exactly when the first ends in an offline or deadline fault, before the deadline, that was not a delivered answer; a third never. |
| ClientLoops.AwaitPairing | src/hermes_reach/connector/client.py:423-444 | Polling asks only before the challenge deadline and commits the first resolution against the exact pending profile, or leaves the file alone. |
| Profiles.VpsProfileStore.Save | src/hermes_reach/connector/client.py:227-264 | A pending profile replaces the file only as itself, as the one challenge fill of the same request, or after the old request's deadline. |
| Profiles.VpsProfileStore.Commit | src/hermes_reach/connector/client.py:266-316 | The file becomes paired exactly when it holds the pending profile, the resolution verifies and the paired profile is valid. |
| Profiles.FileMovesOn | src/hermes_reach/connector/client.py:227-316 | Over any run of profile writes the file only moves on: nothing is removed, one challenge per request, replacements issued no earlier than the old deadline, paired final. |
| Profiles.PairedIsFinal | src/hermes_reach/connector/client.py:231-233 | Paired is absorbing over any run of writes. |
| Profiles.ReplacementsMoveForward | src/hermes_reach/connector/client.py:247-256 | A different pending request stored later was issued strictly later. |
| Profiles.OneChallengeEach | src/hermes_reach/connector/client.py:241-247 | One request is never stored with two challenges. |
| ClientOutcome.SavedExactly | src/hermes_reach/connector/client.py:227-264 | A valid pending profile is stored exactly over nothing, over itself, over the same request without its challenge, or over a request that had run out, then without a challenge. |
| ClientOutcome.OwnPendingIsValid | src/hermes_reach/connector/client.py:227-264 | The request the VPS signed for its endpoint, and with it any challenge that verifies for it, is a valid profile. |
| ClientOutcome.CommittedExactly | src/hermes_reach/connector/client.py:266-316 | A resolution is committed exactly against the stored profile with its challenge when it verifies now and the certificate authority does; each other case has its own code and changes nothing. |
| ClientOutcome.ChallengeInOneContext | src/hermes_reach/connector/protocol.py:2433-2463 | A challenge verifies for one pairing, VPS key, request and observed leaf only. |
| ClientOutcome.ResolutionsAgree | src/hermes_reach/connector/protocol.py:2498-2580 | Two resolutions that verify for one exchange carry the same terms, each with a completion of its own grant, and both parts are signed by the Connector the challenge names. |
| ClientOutcome.LoopEndsAt | src/hermes_reach/connector/client.py:423-444 | Polling ends at the first turn it does not get past: with its answer, or with the deadline. |
| ClientOutcome.PairingCompletes | src/hermes_reach/connector/client.py:355-444 | An approved pairing completes on the VPS: request and challenge are stored, and the handler's resolution is committed exactly from the approval on until the pairing or the grant runs out, with exactly the approved grant. |
| PairingRun.PairedMeansApproved | src/hermes_reach/connector/client.py:266-316 | Over any run of both sides, a file paired with the Connector's key came from one commit before which the Connector's handler had signed that completion (or it is forged) and the owner had approved exactly the file's pending request, challenge and leaf with exactly the file's grant (or a hash collides). |
| StoreRun.ApprovalOrigin | src/hermes_reach/connector/store.py:535-600 | Every approved pairing was approved by one earlier transaction, whose row it still is. |
| Service.ServiceKeepsInvariant | src/hermes_reach/connector/service.py:781-828 | The pairing handler keeps the store invariant, because its challenges repeat the init's deadline. |
| Service.ResolutionRepeatsRow | src/hermes_reach/connector/service.py:816-824 | A resolution the service answers with repeats the approved row and its stored grant. |
| Service.ChallengedExactly | src/hermes_reach/connector/service.py:794-812 | A request not yet stored is challenged exactly when its remaining life fits the pairing lifetime, the keys differ, the queue has room and nothing conflicts. |
| Service.EarlyFullLifeNeverChallenged | src/hermes_reach/connector/service.py:798-809 | A request that uses the whole pairing lifetime and is ahead of the Connector's clock verifies but is never challenged. |
| Service.EarlyRequestIsRefused | src/hermes_reach/connector/service.py:798-809 | A concrete such request, twenty seconds early on a fresh store, that verifies and gets no challenge. |
| PairingOutcome.HandlerDecides | src/hermes_reach/connector/service.py:781-828 | Every answer of the pairing handler under the invariant: mismatch, a new challenge exactly when one may be made and then stored, the stored challenge again for a pending pairing, not paired for a denied or expired one, the resolution for an approved one; with everything written. |
| PairingOutcome.SameChallengeAgain | src/hermes_reach/connector/service.py:794-815 | Asked again before a decision and in time, the handler repeats the very challenge it answered with first. |
| PairingOutcome.OneChallengeOverRun | src/hermes_reach/connector/service.py:794-815 | Over any ordered run all challenges answered for one stored init are one challenge. |
| PairingOutcome.OwnerDecidesExactly | src/hermes_reach/connector/service.py:625-650 | Every outcome of the owner's approval, in order: not pending when shown, not confirmed, a lifetime no grant may have, expired at the second reading, an identifier or digest in use; and otherwise every row written, with the grant's terms. |
| PairingOutcome.OwnerDeniesExactly | src/hermes_reach/connector/service.py:652-664 | Every outcome of the owner's denial, in order. |
| Service.ApprovedIsResolved | src/hermes_reach/connector/service.py:816-824 | Over any run, a handler call for an approved init finds the one approval and answers with a resolution carrying its grant and its time; it is never refused. |
| Service.ResolutionAccepted | src/hermes_reach/connector/protocol.py:2498-2551 | The VPS that displayed the exchange accepts that resolution at exactly the times its init, challenge and grant windows all contain. |
| Service.AcceptedFromApproval | src/hermes_reach/connector/protocol.py:2498-2551 | With times that do not step back, the VPS accepts exactly from the approval time on the Connector clock until the pairing deadline or grant expiry; the skew allowed elsewhere does not help a VPS whose clock is behind. |
| Service.ClockBehindIsRefused | src/hermes_reach/connector/protocol.py:2554-2580 | A concrete run: opened at 1000, approved at 1010, and refused by a VPS whose clock shows 1009. |
| Services.ConnectorService.Unlock | src/hermes_reach/connector/service.py:495-530 | Both steps together: unlocks exactly when a locked service gets its own identity, a certificate and a listener, and otherwise ends as it was. |
| Services.ConnectorService.BeginUnlock | src/hermes_reach/connector/service.py:495-515 | Up to the awaited start of the listener: signer, certificate and authority are there, and until the listener is, records and commands are still refused. |
| Services.ConnectorService.FinishUnlock | src/hermes_reach/connector/service.py:516-530 | A listener that does not start takes signer, certificate and the unlocked authority back. |
| Services.ConnectorService.Lock | src/hermes_reach/connector/service.py:532-548 | Both steps together: listener, signer, certificate and the unlocked authority are gone. |
| Services.ConnectorService.BeginLock | src/hermes_reach/connector/service.py:532-541 | From the first step on nothing new is answered, while the authority stays unlocked until the connections are closed. |
| Services.ConnectorService.FinishLock | src/hermes_reach/connector/service.py:542-548 | Then signer, certificate and the unlocked authority go together. |
| Services.ConnectorService.HandlePairing | src/hermes_reach/connector/service.py:781-828 | As specified over the store object; a locked service answers with the locked error and touches nothing. |
| Services.ConnectorService.ApprovePairing | src/hermes_reach/connector/service.py:625-650 | As specified over the store object, with the clock read before and after the prompt; locked, nothing changes, and without a confirmation nothing but the sweep of expired pairings. |
| Services.ConnectorService.DenyPairing | src/hermes_reach/connector/service.py:652-664 | As specified over the store object; locked, nothing changes, and without a confirmation nothing but the sweep of expired pairings. |
| Json.LoadsExactlyCanonical | src/hermes_reach/connector/protocol.py:158-203 | A byte string is accepted as a value exactly when it is that value's canonical encoding within the limit (RFC 8259 sections 4, 6 and 7). |
| Json.CanonicalLoads | src/hermes_reach/connector/protocol.py:158-203 | A canonical encoding is ASCII and always accepted within the limit. |
| Json.OneEncoding | src/hermes_reach/connector/protocol.py:177-203 | No two byte strings are accepted as one value. |
| Json.LoadedIsSane | src/hermes_reach/connector/protocol.py:124-155 | What is accepted has distinct keys and is within the depth, item and character limits. |
| Json.PrintedParses | src/hermes_reach/connector/protocol.py:162-172 | The full parser undoes the printer on every printable value. |
| Json.EscapeParses | src/hermes_reach/connector/protocol.py:162-172 | Every escape the printer writes, surrogate pairs above U+FFFF included, reads back as its character. |
| Json.ObjectPairs | src/hermes_reach/connector/protocol.py:115-121 | The loop builds a dict with exactly the given pairs, unless two share a key. |
| Bits.DecodesEncoded | src/hermes_reach/connector/protocol.py:908-957 | Decoding undoes encoding for every byte string, in base32 and base64 digits (RFC 4648 sections 4 and 6). |
| Text.IdsAgree | src/hermes_reach/connector/protocol.py:908-928 | The identifier checks of protocol, store and client accept the same strings, exactly the encodings of sixteen bytes (RFC 4648 sections 3.5 and 6). |
| Text.KeyIdsAreTwentyBytes | src/hermes_reach/connector/protocol.py:931-937 | Key identifiers are exactly the encodings of twenty bytes. |
| Text.Base32Injective | src/hermes_reach/connector/protocol.py:908-923 | Different byte strings of one length have different identifiers. |
| Text.Base64Exact | src/hermes_reach/connector/protocol.py:940-973 | A string decodes to given bytes exactly when it is their unpadded base64url encoding (RFC 4648 sections 3.5 and 5). |
| Transcript.FramingInjective | src/hermes_reach/connector/protocol.py:1744-1771 | The transcript framing is injective: equal payloads come from the same records and leaf. |
| Transcript.PairingSas | src/hermes_reach/connector/protocol.py:1774-1785 | The digit loop writes the first fifty bits in ten symbols and leaves no bits over. |
| Transcript.SasSharesFiftyBits | src/hermes_reach/connector/protocol.py:1774-1785 | Two hashes show the same authentication string exactly when their first fifty bits agree. |
| Formats.WrittenExactly | src/hermes_reach/connector/protocol.py:124-172 | A value has a canonical text exactly when it is nested at most 32 deep, with at most 256 members each, no control character, writable numbers, and fits a frame. |
| Formats.ObjectText | src/hermes_reach/connector/protocol.py:158-172 | The canonical text of an object with a literal and a string, and of the empty one, character by character (RFC 8259 sections 3 to 4). |
| Formats.ArrayText | src/hermes_reach/connector/protocol.py:158-172 | The canonical text of an array with a number and null, and of the empty one (RFC 8259 section 5). |
| Formats.EscapeTexts | src/hermes_reach/connector/protocol.py:162-172 | The short escapes of JSON strings (RFC 8259 section 7). |
| Formats.WideEscapeTexts | src/hermes_reach/connector/protocol.py:162-172 | The four-digit escapes, in lower case. |
| Formats.PairEscapeText | src/hermes_reach/connector/protocol.py:162-172 | A character beyond U+FFFF is written as its surrogate pair (RFC 8259 section 7). |
| Formats.PlainTexts | src/hermes_reach/connector/protocol.py:162-172 | Every other printable ASCII character is written as itself. |
| Formats.KeyOrder | src/hermes_reach/connector/protocol.py:162-172 | Keys are ordered by code point, a prefix first. |
| Formats.Alphabet64 | src/hermes_reach/connector/protocol.py:940-957 | The digits of base64url are its alphabet in order (RFC 4648 section 5). |
| Formats.AlphabetStd | src/hermes_reach/connector/audit.py:375-376 | The digits of the ledger's base64 are the standard alphabet in order (RFC 4648 section 4). |
| Formats.Alphabet32 | src/hermes_reach/connector/protocol.py:908-923 | The digits of identifiers are the lower-case base32 alphabet in order (RFC 4648 section 6). |
| Formats.AlphabetSas | src/hermes_reach/connector/protocol.py:1774-1785 | The symbols of the authentication string are the Crockford alphabet in order. |
| Formats.Group64 | src/hermes_reach/connector/protocol.py:940-957 | Any three bytes give the four six-bit digits of RFC 4648 section 4, first bits first. |
| Formats.PayloadLayout | src/hermes_reach/connector/protocol.py:1744-1771 | Where domain, init, challenge and leaf stand in the hashed bytes, each behind its big-endian four-byte length. |
| Formats.HexBytes | src/hermes_reach/connector/protocol.py:1744-1771 | Each byte of the leaf fingerprint is the two hexadecimal digits that write it. |
| Formats.SasSharesBytes | src/hermes_reach/connector/protocol.py:1774-1785 | Two hashes show the same string exactly when their first six bytes and the first two bits of the seventh agree. |
| Formats.LastSymbol | src/hermes_reach/connector/protocol.py:1774-1785 | The string is two groups of five, and its last symbol holds the last five of those fifty bits. |
| WireForm.SignedOnWire | src/hermes_reach/connector/protocol.py:1148-1272 | In the bytes of any signed record, the value under each key of the frame, of the claims and of the scopes, usage, failure and backend inside them is that of the record's field of that name, and there is no other key. |
| WireForm.RecordOnWire | src/hermes_reach/connector/protocol.py:1334-1392 | The same for any bytes that parse as any of the eleven records, through the records and results nested in them. |
| Documents.LineSays | src/hermes_reach/connector/audit.py:339-394 | A ledger line that parses says under each key what the record's field of that name holds. |
| Documents.CallSays | src/hermes_reach/connector/protocol.py:1659-1689 | The protected form of a call says under each key what the call's field of that name holds. |
| Documents.PolicySays | src/hermes_reach/connector/media_policy.py:237-278 | The bytes a policy digest is taken of hold the revision and exactly the rows, sorted by source, operation and media class, field by field. |
| Schema.ReadsBuilt | src/hermes_reach/connector/protocol.py:1788-1799 | A closed object reads back given values exactly when it was built from them. |
| Schema.SortedKeysAreSet | src/hermes_reach/connector/protocol.py:1797-1799 | Comparing key sets and comparing sorted key lists is the same. |
| WireValues.CodesRoundTrip | src/hermes_reach/connector/errors.py:23-75 | A text names an error code exactly when it is that code's value; the forty-two values differ. |
| WireResults.ResultAgrees | src/hermes_reach/connector/protocol.py:1072-1106 | An object reads as an operation result exactly when it is that result's mapping. |
| Wire.ClaimsAgree | src/hermes_reach/connector/protocol.py:1148-1272 | A claims object reads as a signed record exactly when it is that record's claims, for all seven signed records. |
| Wire.SignedRoundTrip | src/hermes_reach/connector/protocol.py:1880-1896 | Bytes parse as a signed record exactly when they are its encoding. |
| Wire.NestedAgree | src/hermes_reach/connector/protocol.py:2041-2069 | A base64url text holds a nested record exactly when it encodes that record's frame. |
| Wire.RecordRoundTrip | src/hermes_reach/connector/protocol.py:1334-1392 | `encode_record` and `parse_record` are mutually inverse on all eleven record types, nested records included, for every record within the frame limit. |
| Wire.EncodingsDiffer | src/hermes_reach/connector/protocol.py:1402-1405 | Two different records never share an encoding, so a record digest is over the record. |
| RecordConstructors.ClosedRoundTrip | src/hermes_reach/connector/protocol.py:1899-1932 | The same with the real constructors: identifiers, digests, catalog, bounds and context checks. |
| RecordConstructors.ParsedRecordsAreValid | src/hermes_reach/connector/protocol.py:274-662 | Every signed record that parses meets the bounds the store and the client take for granted. |
| RecordConstructors.ParsedInvocationBinds | src/hermes_reach/connector/protocol.py:2072-2095 | Every invocation that parses binds digest, source and operation of its payload, within 64 KiB. |
| Ledger.LineReadsBack | src/hermes_reach/connector/audit.py:339-394 | A written line reads back as its record. |
| Ledger.LineParsesExactly | src/hermes_reach/connector/audit.py:355-394 | A line parses as a record exactly when it is the record's canonical line but for two freedoms: any base64 text that decodes to the receipt, and true for the version 1. |
| Ledger.WrittenExactly | src/hermes_reach/connector/audit.py:339-394 | Of those lines the written one is exactly the one that uses neither freedom. |
| Ledger.TrueForOneParses | src/hermes_reach/connector/audit.py:373-374 | The line with true for the version, which prints whenever three characters are left, parses as the record and is not the written line. |
| Ledger.PadBitsIgnored | src/hermes_reach/connector/audit.py:375-376 | Sixteen texts decode to the byte zero. |
| Ledger.AppendReadsBack | src/hermes_reach/connector/audit.py:135-178 | On whole lines, after an append the file reads back as the old records and the new one, and verifies. |
| Ledger.PruneKeepsSuffix | src/hermes_reach/connector/audit.py:184-196 | Pruning keeps exactly the records no older than the cutoff, a suffix, unchanged but for their links, and leaves a file no larger than before that reads back as exactly them. |
| Ledger.RechainedIsChain | src/hermes_reach/connector/audit.py:397-407 | Relinking a stretch of a chain gives a chain of the same records. |
| Ledger.LastHashDeterminesChain | src/hermes_reach/connector/audit.py:355-357 | Two verifying chains with the same last hash are the same sequence, or show a collision between two of their lines. |
| Ledger.NoReceiptTwice | src/hermes_reach/connector/audit.py:144-178 | No receipt is recorded twice, even after pruning, in any run with non-decreasing times. |
| LedgerFile.FileAlwaysReads | src/hermes_reach/connector/audit.py:135-283 | Over any run of appends and prunings from an empty file, refused ones included, the file can be read: within its size, every line parsing, every link verifying. |
| LedgerFile.AppendDecides | src/hermes_reach/connector/audit.py:135-178 | Every answer of an append, in the order of its checks, with its code, and otherwise the record and its line at the end of the bytes. |
| LedgerFile.PruneFileSucceeds | src/hermes_reach/connector/audit.py:184-196 | Pruning succeeds exactly at a representable time on a file that reads: what was read can be relinked and written again. |
| LedgerFile.ReceiptEvidenceLedger.Read | src/hermes_reach/connector/audit.py:226-283 | The splitting and the reading loops accept exactly the bytes whose lines parse, fit and chain. |
| LedgerFile.ReceiptEvidenceLedger.Walk | src/hermes_reach/connector/audit.py:255-283 | The chain loop, with its running hash, time, identifiers and digests, accepts exactly the chained records. |
| LedgerFile.ReceiptEvidenceLedger.AppendVerified | src/hermes_reach/connector/audit.py:135-178 | The method changes the file's bytes and replies as specified. |
| LedgerFile.ReceiptEvidenceLedger.PruneBefore | src/hermes_reach/connector/audit.py:184-196 | The method changes the file's bytes and replies as specified. |
| LedgerFile.AppendFileExactly | src/hermes_reach/connector/audit.py:285-298 | On any file that reads, a successful append reads back as the old records and the new one exactly when the file's last line was finished; otherwise the new line is glued to it and the file can no longer be read. |
| LedgerFile.UnfinishedStillReads | src/hermes_reach/connector/audit.py:238-253 | Such files are real: what the ledger wrote, without its very last byte, still reads the same. |
| LedgerFile.RunRefines | src/hermes_reach/connector/audit.py:135-196 | Over any run of appends and prunings from an empty file the bytes are the written lines, each finished, so the results on lines hold of the file. |
| Lines.SplitJoined | src/hermes_reach/connector/audit.py:247-250 | Splitting undoes writing, for all lines without breaks. |
| Runner.BoundItemFacts | src/hermes_reach/runtime/runner.py:198-254 | One bounded item is within its budget to the character, a truncation of its input, flagged exactly when something is lost, and stable under bounding again. |
| Runner.BoundedIsFaithful | src/hermes_reach/runtime/runner.py:167-196 | Items and characters never exceed the limits, each item is a truncation of the input item at its index, and the flag is set exactly when the input's was, an item was left out, or an item lost something (up to empty display strings). |
| Runner.BoundedIsIdempotent | src/hermes_reach/runtime/runner.py:167-254 | Bounding what has been bounded changes no item and sets no flag. |
| RunnerOutcome.BoundedKeepsAll | src/hermes_reach/runtime/runner.py:167-254 | Bounding keeps all that the limits have room for: each item, field after field, the most its remaining budget allows, and no item is left out but at a limit. |
| Runner.EmptyDisplayUnflagged | src/hermes_reach/runtime/runner.py:213-218 | A concrete item that loses an empty display string without a flag. |
| Runner.UnsetFlagExactly | src/hermes_reach/runtime/runner.py:167-254 | The flag stays unset exactly when the input is within every item, field and character limit; an unflagged result differs from its input exactly when an empty display string comes where the budget is spent; without empty display strings the flag is set exactly when something changed. |
| Runner.UnflaggedItem | src/hermes_reach/runtime/runner.py:198-254 | The same for one item, in terms of its own fields and its budget. |
| Runner.FlagExact | src/hermes_reach/runtime/runner.py:198-254 | An item without empty display strings is flagged exactly when it changed. |
| Runner.BoundOutput | src/hermes_reach/runtime/runner.py:167-196 | The loop computes the specified output. |
| Runner.CutItem | src/hermes_reach/runtime/runner.py:198-254 | The field by field code with its running budget computes the specified item. |
| Runner.Run | src/hermes_reach/runtime/runner.py:59-165 | At most one attempt more than bindings, one when the binding owns its retries; the primary's attempts first and then only equivalent covered fallbacks; every attempt but the last a timeout or transient; every adapter started before the total timeout, ended within its own, and ended by the total one if the two readings its wait is bounded from are in time; and the last attempt's result, partial failure included. |
| RunnerOutcome.AttemptDecides | src/hermes_reach/runtime/runner.py:94-146 | One attempt is a timeout exactly when it is not started, late, or raises one; a transient failure when it raises anything else; and otherwise its own reply, with the outcome that reply has. |
| RunnerOutcome.PlanExactly | src/hermes_reach/runtime/runner.py:59-92 | The bindings tried are the primary once when it owns its retries, and otherwise the primary twice and then every equivalent covered fallback, each once, in order. |
| Runner.NeverLateExactly | src/hermes_reach/runtime/runner.py:94-113 | Whatever its adapter does, an attempt ends by the total timeout exactly when it is not started at all, or the clock's two readings coincide, or the attempt's own timeout is over by the total one. |
| Runner.RunsInTime | src/hermes_reach/runtime/runner.py:94-113 | One attempt runs no longer than its own timeout, by the total timeout when the readings are in time, and past it never by more than lies between the two readings. |
| Runner.OneOverrun | src/hermes_reach/runtime/runner.py:59-113 | Over a whole run on a clock that does not step back, no adapter starts after one that ran up to the total timeout, so at most one adapter of a run overruns, by no more than lies between its two readings. |
| Runner.LateStartOverruns | src/hermes_reach/runtime/runner.py:101-113 | A concrete attempt that runs past the total timeout: the clock moves between its two readings and the adapter hangs. |
| FileGrants.GrantedAndSpentOnce | src/hermes_reach/connector/media_policy.py:505-692 | Over every interleaving of lock sections a proposal is granted at most once, with exactly the terms and snapshot it was committed with, and a grant is consumed at most once, only after it was granted. |
| FileGrants.GrantPath | src/hermes_reach/connector/media_policy.py:505-692 | From any reachable open state a fresh identifier is proposed, granted and consumed exactly as its checks allow. |
| FileGrants.ClearIsFinal | src/hermes_reach/connector/media_policy.py:694-701 | After a clear both tables stay empty forever and nothing in flight is committed, granted or consumed. |
| FileGrants.ProcessLocalFileGrants.DiscardOne | src/hermes_reach/connector/media_policy.py:579-586 | Exactly the pending proposal itself, unchanged, is withdrawn; anything else is refused and changes nothing. |
| FileGrants.ProcessLocalFileGrants.Propose | src/hermes_reach/connector/media_policy.py:505-577 | With nothing between its two lock sections, a file becomes pending exactly when every check passes, and otherwise nothing changes. |
| FileGrants.ProcessLocalFileGrants.Approve | src/hermes_reach/connector/media_policy.py:588-651 | With nothing between its two lock sections, the proposal is gone either way, and becomes a grant exactly when it is the pending one, unexpired, with an unchanged file. |
| FileGrants.ProcessLocalFileGrants.CommitProposal | src/hermes_reach/connector/media_policy.py:568-577 | The second section of propose, after anything else has run: exactly the commit step of the interleavings. |
| FileGrants.ProcessLocalFileGrants.GrantFile | src/hermes_reach/connector/media_policy.py:643-651 | The second section of approve, after anything else has run: exactly the grant step of the interleavings. |
| FileGrants.ProcessLocalFileGrants.ConsumeOne | src/hermes_reach/connector/media_policy.py:653-692 | The mapping is spent even when revalidation fails. |
| ModelPolicy.Digest | src/hermes_reach/connector/media_policy.py:237-278 | The loop over sorted rows computes the specified digest. |
| ModelPolicy.DigestIdentifies | src/hermes_reach/connector/media_policy.py:237-278 | Two policies have one digest exactly when they are the same revision with the same rows in any order, or their encodings collide. |
| ModelPolicy.AuthorizedExactly | src/hermes_reach/connector/media_policy.py:280-327 | A row is authorized exactly when it is the one row for the operation and media class, each of the three workload figures is within it, and revision and digest are the claim's. |
| ModelPolicy.SameDigestSameDecision | src/hermes_reach/connector/media_policy.py:298-327 | Policies with one digest decide every request and workload alike, or collide. |
| ModelPolicy.Select | src/hermes_reach/connector/media_policy.py:824-840 | The binding is for the first model in the row's order that is bound at all; none exactly when no model is. |
| ModelPolicy.PrepareModelExecution | src/hermes_reach/connector/media_policy.py:796-858 | A file mapping is spent exactly when policy and binding are resolved and the media is local; ready exactly when, besides, what was spent is revalidated or no file is involved. |
| ModelPolicy.PreparedModelExecution.Execute | src/hermes_reach/connector/media_policy.py:746-793 | Over any sequence of calls the executor starts at most once, its result is bounded, and the local file is closed exactly once. |
| Contracts.ValidateSearch | src/hermes_reach/contracts.py:172-194 | One to five requests for different sources are validated, each valid on revalidation, and nothing valid is refused. |
| Contracts.SingleCallValid | src/hermes_reach/contracts.py:245-253 | A validated read, browse or transcribe call passes `operation_call_is_valid`. |
| Contracts.SearchCallValid | src/hermes_reach/contracts.py:182-193 | A validated search call passes `operation_call_is_valid`. |
| RequestOutcome.SingleCallExactly | src/hermes_reach/contracts.py:245-253 | A request is a given call exactly when it has only the known keys and version v1, its stripped source and operation name that row, and its options and target are that call's. |
| RequestOutcome.SearchCallExactly | src/hermes_reach/contracts.py:182-193 | The same for one request of a search, with its stripped query. |
| RequestOutcome.OptionExactly | src/hermes_reach/contracts.py:357-377 | Which values an option of each kind takes. |
| RequestOutcome.TargetExactly | src/hermes_reach/contracts.py:379-402 | Which values are a target, and of what. |
| RequestOutcome.StripExactly | src/hermes_reach/contracts.py:533-537 | Stripping gives exactly the text without the spaces around it. |
| RequestOutcome.ValidIsRequestable | src/hermes_reach/contracts.py:245-253 | Every valid call of the catalog is what some request is read as. |
| Contracts.ProtectedRoundTrip | src/hermes_reach/connector/protocol.py:1659-1723 | Bytes parse as a protected call exactly when they are the protected form of that call. |
| Contracts.ProtectedFits | src/hermes_reach/connector/protocol.py:1659-1689 | Any query or target of up to 4096 characters, with any options the catalog row accepts, stays within 64 KiB. |
| Contracts.ProtectSucceeds | src/hermes_reach/connector/protocol.py:1659-1689 | Protection succeeds exactly on valid catalog calls without a local file and without control characters. |
| Contracts.OptionsFit | src/hermes_reach/contracts.py:311-328 | Options that validate against a catalog row print within the width of its option specifications. |
| Contracts.ValidatedCallCrosses | src/hermes_reach/contracts.py:245-253 | Every read, browse or transcribe request that validates gives a catalog call that, without a local file and with clean strings, is protected within 64 KiB and parses back as itself. |
| Contracts.ValidatedSearchCrosses | src/hermes_reach/contracts.py:182-193 | The same for every search request. |

## Left out

- Json.Parse: a lone surrogate escape is refused by the parser here and by the validation after it in the source; the set of accepted byte strings is the same.
- Database.AuthorityStore.ApprovePairing: the syntax checks on locally supplied identifiers and digests (`_require_id`, `_require_digest`) are not part of the transactions, which here accept any string in those places.
- EndToEnd.AtMostOnce: exceptions outside the modelled outcomes (a handoff that raises, task cancellation, a ledger that refuses the receipt) appear as a handler dropped or a call given up.
- Runner.Run: time is real; cancellation of the run itself and what a binding's cancel hook does are not modelled.
- Contracts.ProtectSucceeds: the catalog is abstract, finite and, as the real one, bounded in its names, targets and option specifications (`Contracts.Modest`), URL and regular-expression formats are one predicate on the stripped string, and which characters `str.strip` removes is a parameter.
- FileGrants.ProcessLocalFileGrants.Propose: states the outcome with no other section between its two; with one between, `CommitProposal` states the second. Opening and hashing files appears as the snapshot it yields.
- FileGrants.ProcessLocalFileGrants.Approve: the same, with `GrantFile` for its second section.
- Ledger.AppendReadsBack: speaks of whole lines; what appending does to any bytes is `LedgerFile.AppendFileExactly`.
- Ed25519, SHA-256, X.509, TLS and Fernet: functions of `Trust.Crypto`, `RecordConstructors.Env` and `Ledger.Config`.
- SQLite pragmas, file modes, locks, directory walking, fsync and atomic rename: a transaction or an atomic write is one step.
- RecursionError on deeply nested JSON, which `load_canonical_json` does not catch: the parser here has no recursion limit.
- WebSocket transport, asyncio shutdown, subprocess workers, secret providers and Bitwarden helpers.
- The advisory snapshot store and availability resolver of the client, and `_transport_error_code`.
- `pending_pairings`, `inspect_devices`, `inspect_grants` and other listings: they change nothing but the sweep that `PairingById` models.
- ModelPolicy.PrepareModelExecution: the bounds of policy rows and the catalog membership of their operations are not modelled; no property here needs them.
- Services.ConnectorService.BeginUnlock: reading the key, making the certificate and starting the listener are their outcomes; the service's operation handler is the handler of `EndToEnd`.
- CLI, TTY prompts, rendering, plugin registration, JSON tool schemas, `agent_reach_bridge.py`, `runtime/release.py` and `audit/ledger.py`.
