/** What becomes of a call that nothing disturbs (connector/client.py, connector/service.py,
    connector/authority.py): in any state a run can reach, if the store's conditions for its request hold then
    sending, delivering, claiming, handing off, executing and answering it return exactly what its execution
    produced, or raise exactly the failure it ended with; and if a condition fails, the cause of the first
    that does. */
module Progress {
  import opened Prelude
  import opened Limits
  import opened Errors
  import opened Records
  import opened Trust
  import opened Store
  import opened StoreInvariant
  import opened StoreRun
  import opened ClaimOutcome
  import opened Outcomes
  import opened Receipts
  import opened Authority
  import opened EndToEnd

  /** the call may be sent, the lock is free, and the Connector knows its key and has not seen its request */
  ghost predicate Undisturbed(g: Config, s: State, i: nat) {
    && Sane(g, s) && i < |s.calls| && s.calls[i].status.Ready? && s.mutex.None? && s.unlocked && IsTimestamp(s.clock)
    && SignedByPaired(g.c, Tables(g, s.log), s.calls[i].request)
    && s.calls[i].request.requestId !in Tables(g, s.log).claims
    && (forall r :: g.c.verifies(g.c.connectorKey, ReceiptRecord(Signed(g.sign, r))))
    && s.clock + CLOCK_SKEW_SECONDS + MAX_RECEIPT_TTL_SECONDS <= MAX_TIMESTAMP
  }

  /** the call sent and its request arrived in a new handler; `scope` is the bound one, or with `useGrant` the grant's
      own is used */
  function Arriving(s: State, i: nat, scope: Scope, useGrant: bool): State
    requires i < |s.calls|
  {
    var r := s.calls[i].request;
    s.(calls := s.calls[i := Call(r, s.calls[i].attempts + 1, InFlight)], sent := s.sent + {r},
       handlers := s.handlers + [Handler(r, scope, useGrant, s.clock, Arrived, None, 0)])
  }

  lemma StoreSane(g: Config, s: State)
    requires Sane(g, s)
    ensures Inv(g.c, Tables(g, s.log))
  {
    hide Inv, OpenAccepts, Next, HandlersOk, Apart, MutexOk, HandedOk, RunsOk, AnswersOk, CallsOk;
    RunOpens(g.c, g.policyDigest, g.created, s.log, |s.log|);
  }

  lemma CallSane(g: Config, s: State, i: nat)
    requires Sane(g, s) && i < |s.calls|
    ensures CallOk(g, s.answers, s.sent, s.calls[i])
  {
    hide LogOk, HandlersOk, Apart, MutexOk, HandedOk, RunsOk, AnswersOk, CallOk;
  }

  /** an authentic request in its window is verified outside the lock */
  lemma Verified(c: Crypto, db: Db, r: SignedRequest, now: int)
    requires Inv(c, db) && SignedByPaired(c, db, r)
    ensures Prevalidate(c, db, r, true, now).None? <==>
              IsTimestamp(now) && r.issuedAt <= now + CLOCK_SKEW_SECONDS && now < r.deadline
  {
    hide Inv;
    KeyFacts(c, db, r.subjectKeyId);
  }

  lemma Arrives(g: Config, s: State, i: nat, scope: Scope, useGrant: bool)
    requires Undisturbed(g, s, i)
    requires s.calls[i].request.issuedAt <= s.clock + CLOCK_SKEW_SECONDS && s.clock < s.calls[i].request.deadline
    ensures var r := s.calls[i].request;
            Do(g, Do(g, s, Send(i)), Deliver(r, scope, useGrant, s.clock)) == Arriving(s, i, scope, useGrant)
  {
    hide Sane, Prevalidate, RequestBounds, Tables, SignedByPaired, ContextMatches, ResultMatches, Authentic;
    StoreSane(g, s);
    CallSane(g, s, i);
    Verified(g.c, Tables(g, s.log), s.calls[i].request, s.clock);
  }

  /** the lock section claims in one transaction and decides as the store does */
  lemma Enters(g: Config, s: State, h: nat, scope: Scope)
    requires h < |s.handlers| && s.handlers[h].phase.Arrived? && s.mutex.None? && s.unlocked
    requires s.handlers[h].now == s.clock
    requires var w := s.handlers[h];
             BoundScope(g.c, Tables(g, s.log), w.request, w.scope, w.useGrant) == Done(scope)
    requires Claim(g.c, Tables(g, s.log), s.handlers[h].request, scope, s.clock).1.Done?
    ensures var w := s.handlers[h];
            var decision := Claim(g.c, Tables(g, s.log), w.request, scope, s.clock).1.value;
            var w' := w.(decision := Some(decision), claim := |s.log|,
                         phase := if decision.accepted then Holding else Phase.Refused);
            Do(g, s, Enter(h)) ==
              s.(log := s.log + [MakeClaim(w.request, scope, s.clock)], handlers := s.handlers[h := w'],
                 mutex := if decision.accepted then Some(h) else None)
  {
    hide Claim, Tables, BoundScope;
  }

  /** what the handler signs at the same time it was decided */
  function ReceiptIn(
    g: Config, r: SignedRequest, decision: ClaimResult, clock: int, m: Id, n: Id, failure: Option<ErrorCode>,
    backend: Option<BackendIdentity>, result: Option<OperationResult>): Option<SignedReceipt>
  {
    var e := ServiceEnding(r, clock, clock, m, n, failure, backend, result);
    Issue(g.c, g.k, g.sign, r, decision, Max(clock, r.issuedAt), e)
  }

  /** the answer to a decided request that ended like this: issued, true to how it ended, and good for the client
      at the same time */
  lemma Answers(
    g: Config, r: SignedRequest, decision: ClaimResult, clock: int, m: Id, n: Id, failure: Option<ErrorCode>,
    backend: Option<BackendIdentity>, result: Option<OperationResult>)
    requires RequestBounds(r) && IsTimestamp(clock) && r.issuedAt <= clock + CLOCK_SKEW_SECONDS && clock < r.deadline
    requires clock + CLOCK_SKEW_SECONDS + MAX_RECEIPT_TTL_SECONDS <= MAX_TIMESTAMP
    requires forall q :: g.c.verifies(g.c.connectorKey, ReceiptRecord(Signed(g.sign, q)))
    requires r.audienceKeyId == g.c.connectorKeyId
    requires Receipts.Decided(decision) && Finished(g.k, r, decision, failure, backend, result)
    ensures var receipt := ReceiptIn(g, r, decision, clock, m, n, failure, backend, result);
            && receipt.Some?
            && receipt.value.receiptId == n && receipt.value.messageId == m
            && CauseIn(receipt.value) == (if decision.accepted then failure else decision.cause)
            && receipt.value.usage == decision.usage
            && receipt.value.backend == (if decision.accepted then backend else None)
            && (receipt.value.outcome.OutcomeOk? <==> receipt.value.failure.None?)
            && VerifyResponse(
                 g.c, g.k, OperationResponse(m, receipt.value, if decision.accepted then result else None), r,
                 clock).Good?
  {
    hide Issue, Finished, Receipts.Decided, RequestBounds, VerifyResponse, Bounded, ReceiptBounds, ContextMatches;
    var e := ServiceEnding(r, clock, clock, m, n, failure, backend, result);
    InWindow(r, clock);
    assert Sound(g.c, g.sign);
    ServiceIssues(g.c, g.k, g.sign, r, decision, clock, clock, m, n, failure, backend, result);
    FinishedEnds(g.k, r, decision, failure, backend, result);
    var at := Max(clock, r.issuedAt);
    IssuedSays(g.c, g.k, g.sign, r, decision, at, e);
    Receipts.ResponseAgrees(g.c, g.k, g.sign, r, decision, at, e, clock);
  }

  lemma InWindow(r: SignedRequest, clock: int)
    requires RequestBounds(r) && IsTimestamp(clock)
    requires r.issuedAt <= clock + CLOCK_SKEW_SECONDS && clock < r.deadline
    ensures Active(r.issuedAt, r.deadline, clock, CLOCK_SKEW_SECONDS)
    ensures Max(clock, r.issuedAt) < r.deadline && Max(clock, r.issuedAt) <= clock + CLOCK_SKEW_SECONDS
  {
  }

  lemma FinishedEnds(
    k: Contract, r: SignedRequest, decision: ClaimResult, failure: Option<ErrorCode>,
    backend: Option<BackendIdentity>, result: Option<OperationResult>)
    requires Receipts.Decided(decision) && Finished(k, r, decision, failure, backend, result)
    ensures decision.accepted ==> (failure.None? <==> result.Some?) && decision.cause.None?
    ensures !decision.accepted ==> result.None? && decision.usage.None? && decision.cause.Some?
    ensures k.bounds(r.source, r.operation).Some?
    ensures result.Some? ==> Bounded(k.bounds(r.source, r.operation).value, result.value)
  {
    hide Bounded;
  }

  /** an execution ends in a failure, or in a result within the operation's bounds from a known backend */
  predicate Ends(
    k: Contract, r: SignedRequest, failure: Option<ErrorCode>, backend: Option<BackendIdentity>,
    result: Option<OperationResult>)
  {
    && k.bounds(r.source, r.operation).Some?
    && if failure.Some? then result.None?
       else
         && backend.Some? && result.Some? && k.resultDigest(result.value).Some?
         && Bounded(k.bounds(r.source, r.operation).value, result.value)
  }

  /** the use an accepted claim is given fits a receipt */
  lemma UseFits(c: Crypto, db: Db, r: SignedRequest)
    requires Inv(c, db) && Named(db, r).Some? && UsedOf(db, r) < Named(db, r).value.maxUses
    ensures UsageBounds(ReceiptUsage(UsedOf(db, r) + 1, Named(db, r).value.maxUses - UsedOf(db, r) - 1))
  {
    hide PoliciesOk, DevicesOk, LineagesOk, QueueOk, PairingsOk, ClaimsOk;
    var k := GrantKey(r.grantId, r.grantRevision);
    assert k in Held(db.revisions);
    assert GrantOk(c, db.keys, db.policies.Keys, Owners(db.lineages), Held(db.revisions), db.scopes, k);
  }

  /** what the store decides on the request when every condition holds */
  lemma Claimed(c: Crypto, db: Db, r: SignedRequest, scope: Scope, now: int)
    requires Inv(c, db) && IsTimestamp(now) && SignedByPaired(c, db, r) && r.requestId !in db.claims
    requires PassesAll(db, r, scope, now)
    ensures Passes(db, r, scope, now, InTime) && Named(db, r).Some?
    ensures var reply := Claim(c, db, r, scope, now).1;
            && reply.Done? && reply.value.accepted && Receipts.Decided(reply.value)
            && reply.value.usage == Some(
                 ReceiptUsage(UsedOf(db, r) + 1, Named(db, r).value.maxUses - UsedOf(db, r) - 1))
  {
    hide Inv, Claim;
    EarlierPass(db, r, scope, now, |GATES|);
    ClaimDecides(c, db, r, scope, now);
    UseFits(c, db, r);
  }

  /** the reply of a handler whose claim was accepted in the log's last transaction and whose execution ended */
  lemma Completes(
    g: Config, s: State, h: nat, scope: Scope, log: seq<Event>, m: Id, n: Id)
    requires h < |s.handlers| && s.handlers[h].phase.Ran? && s.handlers[h].decision.Some?
    requires s.handlers[h].decision.value.accepted && s.handlers[h].now == s.clock
    requires var w := s.handlers[h];
             && s.log == log + [MakeClaim(w.request, scope, s.clock)] && Inv(g.c, Tables(g, log))
             && Claim(g.c, Tables(g, log), w.request, scope, s.clock).1 == Done(w.decision.value)
    requires var w := s.handlers[h];
             var receipt := ReceiptIn(g, w.request, w.decision.value, s.clock, m, n, w.phase.failure, w.phase.backend,
                                      w.phase.result);
             receipt.Some? && IsTimestamp(Max(s.clock, w.request.issuedAt))
    ensures var w := s.handlers[h];
            var receipt := ReceiptIn(g, w.request, w.decision.value, s.clock, m, n, w.phase.failure, w.phase.backend,
                                     w.phase.result).value;
            var e := ServiceEnding(w.request, s.clock, s.clock, m, n, w.phase.failure, w.phase.backend, w.phase.result);
            var response := ResponseFor(receipt, e);
            var s' := Do(g, s, Reply(h, m, n));
            && |s'.log| == |s.log| + 1 && s' == s.(log := s'.log, answers := s.answers + {response},
                        handlers := s.handlers[h := w.(phase := Phase.Replied(response))])
  {
    hide Inv, Claim, Issue, CompleteClaim, Tables, Next;
    var w := s.handlers[h];
    var claim := MakeClaim(w.request, scope, s.clock);
    TablesNext(g, log, claim);
    ClaimIsNext(g.c, Tables(g, log), w.request, scope, s.clock);
    var receipt := ReceiptIn(g, w.request, w.decision.value, s.clock, m, n, w.phase.failure, w.phase.backend,
                             w.phase.result).value;
    AcceptedCompletes(g.c, Tables(g, log), w.request, scope, s.clock, g.c.digest(ReceiptRecord(receipt)),
                      Max(s.clock, w.request.issuedAt));
  }

  lemma ClaimIsNext(c: Crypto, db: Db, r: SignedRequest, scope: Scope, now: int)
    ensures Next(c, db, MakeClaim(r, scope, now)) == Claim(c, db, r, scope, now).0
  {
    hide Claim;
  }

  /** the last step: the client takes a receipt the Connector issued that verifies now */
  lemma Takes(g: Config, s: State, i: nat, response: OperationResponse)
    requires i < |s.calls| && s.calls[i].status.InFlight? && response in s.answers
    requires VerifyResponse(g.c, g.k, response, s.calls[i].request, s.clock).Good?
    ensures Do(g, s, Receive(i, response, s.clock)) ==
              s.(calls := s.calls[i := s.calls[i].(
                   status := if response.receipt.failure.None? then Returned(response) else Failed(response.receipt))])
  {
    hide VerifyResponse;
  }

  /** A call nothing disturbs, whose request meets every condition of the store, returns exactly the result its
      execution produced, or raises exactly the failure it ended with, after one claim, one handoff and one
      execution, with the next use of the grant on its receipt. */
  lemma CallReturns(
    g: Config, s: State, i: nat, required: Scope, useGrant: bool, scope: Scope, failure: Option<ErrorCode>,
    backend: Option<BackendIdentity>, result: Option<OperationResult>, m: Id, n: Id)
    returns (receipt: SignedReceipt)
    requires i < |s.calls| && BoundScope(g.c, Tables(g, s.log), s.calls[i].request, required, useGrant) == Done(scope)
    requires Undisturbed(g, s, i) && PassesAll(Tables(g, s.log), s.calls[i].request, scope, s.clock)
    requires Ends(g.k, s.calls[i].request, failure, backend, result)
    ensures var r, h := s.calls[i].request, |s.handlers|;
            var arrived := Do(g, Do(g, s, Send(i)), Deliver(r, required, useGrant, s.clock));
            var prepared := Do(g, Do(g, arrived, Enter(h)), HandOff(h));
            var answered := Do(g, Do(g, prepared, Execute(h, failure, backend, result)), Reply(h, m, n));
            var response := OperationResponse(m, receipt, result);
            var end := Do(g, answered, Receive(i, response, s.clock));
            && |end.calls| == |s.calls|
            && end.calls[i].status == (if failure.None? then Returned(response) else Failed(receipt))
            && CauseIn(receipt) == failure && receipt.backend == backend
            && Named(Tables(g, s.log), r).Some?
            && var use := UsedOf(Tables(g, s.log), r) + 1;
            && receipt.usage == Some(ReceiptUsage(use, Named(Tables(g, s.log), r).value.maxUses - use))
            && end.handoffs == s.handoffs + [h] && end.runs == s.runs + [h] && |end.log| == |s.log| + 2
  {
    hide Sane, PassesAll, SignedByPaired, Tables, Inv, Claim, Issue, VerifyResponse, RequestBounds, Bounded,
         ContextMatches, ResultMatches, Authentic, Do, Named, UsedOf, BoundScope;
    var r, h, db := s.calls[i].request, |s.handlers|, Tables(g, s.log);
    StoreSane(g, s);
    CallSane(g, s, i);
    Claimed(g.c, db, r, scope, s.clock);
    Arrives(g, s, i, required, useGrant);
    var arrived := Arriving(s, i, required, useGrant);
    Enters(g, arrived, h, scope);
    var entered := Do(g, arrived, Enter(h));
    var decision := Claim(g.c, db, r, scope, s.clock).1.value;
    HandsOver(g, entered, h);
    var prepared := Do(g, entered, HandOff(h));
    Runs(g, prepared, h, failure, backend, result);
    var ran := Do(g, prepared, Execute(h, failure, backend, result));
    SignedForHere(g.c, db, r);
    Answers(g, r, decision, s.clock, m, n, failure, backend, result);
    receipt := ReceiptIn(g, r, decision, s.clock, m, n, failure, backend, result).value;
    InWindow(r, s.clock);
    Completes(g, ran, h, scope, s.log, m, n);
    Takes(g, Do(g, ran, Reply(h, m, n)), i, OperationResponse(m, receipt, result));
  }

  lemma SignedForHere(c: Crypto, db: Db, r: SignedRequest)
    requires SignedByPaired(c, db, r)
    ensures r.audienceKeyId == c.connectorKeyId
  {
  }

  lemma HandsOver(g: Config, s: State, h: nat)
    requires h < |s.handlers| && s.mutex == Some(h)
    ensures Do(g, s, HandOff(h)) ==
              s.(handlers := s.handlers[h := s.handlers[h].(phase := Prepared)], handoffs := s.handoffs + [h],
                 mutex := None)
  {
  }

  lemma Runs(
    g: Config, s: State, h: nat, failure: Option<ErrorCode>, backend: Option<BackendIdentity>,
    result: Option<OperationResult>)
    requires h < |s.handlers| && s.handlers[h].phase.Prepared? && s.handlers[h].decision.Some?
    requires s.handlers[h].decision.value.accepted && Ends(g.k, s.handlers[h].request, failure, backend, result)
    ensures Finished(g.k, s.handlers[h].request, s.handlers[h].decision.value, failure, backend, result)
    ensures Do(g, s, Execute(h, failure, backend, result)) ==
              s.(handlers := s.handlers[h := s.handlers[h].(phase := Ran(failure, backend, result))],
                 runs := s.runs + [h])
  {
    hide Bounded;
  }

  /** the reply of a handler whose claim was refused writes nothing and reports the cause */
  lemma Reports(g: Config, s: State, h: nat, m: Id, n: Id)
    requires h < |s.handlers| && s.handlers[h].phase.Refused? && s.handlers[h].now == s.clock
    requires s.handlers[h].decision.Some? && !s.handlers[h].decision.value.accepted
    requires var w := s.handlers[h];
             ReceiptIn(g, w.request, w.decision.value, s.clock, m, n, w.decision.value.cause, None, None).Some?
    ensures var w := s.handlers[h];
            var cause := w.decision.value.cause;
            var receipt := ReceiptIn(g, w.request, w.decision.value, s.clock, m, n, cause, None, None).value;
            var response := ResponseFor(receipt, ServiceEnding(w.request, s.clock, s.clock, m, n, cause, None, None));
            Do(g, s, Reply(h, m, n)) == s.(answers := s.answers + {response},
                                           handlers := s.handlers[h := w.(phase := Phase.Replied(response))])
  {
    hide Issue, Tables;
  }

  /** A call nothing disturbs, whose request fails a condition of the store, raises the cause of the first that it
      fails, from the Connector's signed receipt, and nothing was handed off or executed for it. */
  lemma CallRefused(
    g: Config, s: State, i: nat, required: Scope, useGrant: bool, scope: Scope, j: nat, m: Id, n: Id)
    returns (receipt: SignedReceipt)
    requires i < |s.calls| && BoundScope(g.c, Tables(g, s.log), s.calls[i].request, required, useGrant) == Done(scope)
    requires Undisturbed(g, s, i) && j < |GATES| && FailsFirst(Tables(g, s.log), s.calls[i].request, scope, s.clock, j)
    requires Passes(Tables(g, s.log), s.calls[i].request, scope, s.clock, InTime)
    requires g.k.bounds(s.calls[i].request.source, s.calls[i].request.operation).Some?
    ensures var r, h := s.calls[i].request, |s.handlers|;
            var arrived := Do(g, Do(g, s, Send(i)), Deliver(r, required, useGrant, s.clock));
            var answered := Do(g, Do(g, arrived, Enter(h)), Reply(h, m, n));
            var end := Do(g, answered, Receive(i, OperationResponse(m, receipt, None), s.clock));
            && |end.calls| == |s.calls|
            && end.calls[i].status == Failed(receipt) && CauseIn(receipt) == Some(CauseOf(GATES[j]))
            && end.handoffs == s.handoffs && end.runs == s.runs && |end.log| == |s.log| + 1
  {
    hide Sane, SignedByPaired, Tables, Inv, Claim, Issue, VerifyResponse, RequestBounds, ContextMatches, ResultMatches,
         Authentic, Do, FailsFirst, CauseOf, BoundScope;
    var r, h, db := s.calls[i].request, |s.handlers|, Tables(g, s.log);
    StoreSane(g, s);
    CallSane(g, s, i);
    ClaimDecides(g.c, db, r, scope, s.clock);
    Arrives(g, s, i, required, useGrant);
    var arrived := Arriving(s, i, required, useGrant);
    Enters(g, arrived, h, scope);
    var entered := Do(g, arrived, Enter(h));
    var decision := Claim(g.c, db, r, scope, s.clock).1.value;
    SignedForHere(g.c, db, r);
    Answers(g, r, decision, s.clock, m, n, decision.cause, None, None);
    receipt := ReceiptIn(g, r, decision, s.clock, m, n, decision.cause, None, None).value;
    Reports(g, entered, h, m, n);
    Takes(g, Do(g, entered, Reply(h, m, n)), i, OperationResponse(m, receipt, None));
  }
}
