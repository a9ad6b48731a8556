/** The whole request path as one state machine: VPS calls with one retry over a network that loses,
    duplicates and reorders frames (connector/client.py), Connector handlers interleaved at their lock
    boundaries (connector/service.py, connector/authority.py, connector/execution.py) and store
    transactions from anywhere else (connector/store.py).

    Two things are assumed of cryptography, both as guards of actions: a request that verifies under the
    client's key is one the client has sent, and a receipt that verifies under the Connector's key is one
    the Connector has issued.
 */
module EndToEnd {
  import opened Prelude
  import opened Errors
  import opened Records
  import opened Trust
  import opened Store
  import opened StoreRun
  import opened Receipts
  import opened Authority

  datatype Config = Config(c: Crypto, k: Contract, sign: Signer, policyDigest: string, created: int, vpsKeyId: Id)

  // ------------------------------------------------------------------ states

  datatype Status =
    | Ready                       // may send
    | InFlight                    // awaiting the transport
    | Returned(response: OperationResponse)
    | Failed(receipt: SignedReceipt)   // a trusted receipt of a failure, whose cause is raised
    | GivenUp

  /** one ConnectorClient.execute */
  datatype Call = Call(request: SignedRequest, attempts: nat, status: Status)

  datatype Phase =
    | Arrived                     // verified outside the lock
    | Holding                     // claim accepted, inside the lock, handoff not yet made
    | Prepared                    // handed off, lock released
    | Ran(failure: Option<ErrorCode>, backend: Option<BackendIdentity>, result: Option<OperationResult>)
    | Refused                     // denied, receipt not yet issued
    | Replied(response: OperationResponse)
    | Gone                        // error frame, cancelled, or no receipt

  /** one _handle_operation; `claim` is the position of its accepted claim in the log */
  datatype Handler = Handler(
    request: SignedRequest, scope: Scope, useGrant: bool, now: int, phase: Phase,
    decision: Option<ClaimResult>, claim: nat)

  /** `log` is every store transaction so far; `handoffs` and `runs` list handlers in the order they
      handed off and started executing */
  datatype State = State(
    clock: int, unlocked: bool, mutex: Option<nat>, log: seq<Event>, handlers: seq<Handler>,
    handoffs: seq<nat>, runs: seq<nat>, answers: set<OperationResponse>, calls: seq<Call>, sent: set<SignedRequest>)

  function Origin(g: Config): Db {
    Initial(g.policyDigest, g.created)
  }

  function Tables(g: Config, log: seq<Event>): Db {
    After(g.c, Origin(g), log, |log|)
  }

  function First(clock: int): State {
    State(clock, false, None, [], [], [], [], {}, [], {})
  }

  predicate Accepted(h: Handler) {
    h.decision.Some? && h.decision.value.accepted
  }

  // ------------------------------------------------------------------ actions

  datatype Delivery = NotSent | DeliveryUnknown | Delivered | Unstated

  /** _retry_eligible, after the first attempt */
  predicate RetryEligible(code: ErrorCode, delivery: Delivery, pastDeadline: bool) {
    !pastDeadline && (code.ConnectorOffline? || code.ConnectorDeadlineExceeded?) && !delivery.Delivered?
  }

  datatype Action =
    | Pass(time: int)
    | StartCall(request: SignedRequest)
    | Send(i: nat)
    | Break(i: nat, code: ErrorCode, delivery: Delivery, pastDeadline: bool)
    | Refuse(i: nat)
    | Receive(i: nat, response: OperationResponse, time: int)
    | Deliver(request: SignedRequest, scope: Scope, useGrant: bool, now: int)
    | Enter(h: nat)
    | HandOff(h: nat)
    | Execute(h: nat, failure: Option<ErrorCode>, backend: Option<BackendIdentity>, result: Option<OperationResult>)
    | Drop(h: nat)
    | Reply(h: nat, messageId: Id, receiptId: Id)
    | Lock
    | Unlock
    | Administer(event: Event)
    | Locally(event: Event)

  /** transactions run outside the authority's lock */
  predicate Outside(e: Event) {
    TouchesPairings(e)
  }

  predicate Fresh(calls: seq<Call>, r: SignedRequest) {
    forall i | 0 <= i < |calls| :: calls[i].request.requestId != r.requestId
  }

  predicate Authentic(answers: set<OperationResponse>, r: SignedReceipt) {
    exists a | a in answers :: a.receipt == r
  }

  predicate Enabled(g: Config, s: State, a: Action) {
    match a
    case Pass(time) => s.clock <= time
    case StartCall(r) => r.subjectKeyId == g.vpsKeyId && RequestBounds(r) && Fresh(s.calls, r)
    case Send(i) => i < |s.calls| && s.calls[i].status.Ready?
    case Break(i, _, _, _) => i < |s.calls| && s.calls[i].status.InFlight?
    case Refuse(i) => i < |s.calls| && s.calls[i].status.InFlight?
    case Receive(i, response, time) =>
      && i < |s.calls| && s.calls[i].status.InFlight?
      && VerifyResponse(g.c, g.k, response, s.calls[i].request, time).Good?
      && Authentic(s.answers, response.receipt)
    case Deliver(r, _, _, now) =>
      && now <= s.clock && RequestBounds(r)
      && Prevalidate(g.c, Tables(g, s.log), r, true, now).None?
      && (r.subjectKeyId == g.vpsKeyId ==> r in s.sent)
    case Enter(h) => h < |s.handlers| && s.handlers[h].phase.Arrived? && s.mutex.None?
    case HandOff(h) => h < |s.handlers| && s.mutex == Some(h)
    case Execute(h, failure, backend, result) =>
      && h < |s.handlers| && s.handlers[h].phase.Prepared? && s.handlers[h].decision.Some?
      && Finished(g.k, s.handlers[h].request, s.handlers[h].decision.value, failure, backend, result)
    case Drop(h) => h < |s.handlers| && !s.handlers[h].phase.Holding? && !s.handlers[h].phase.Replied?
    case Reply(h, _, _) => h < |s.handlers| && (s.handlers[h].phase.Ran? || s.handlers[h].phase.Refused?)
    case Lock => s.mutex.None?
    case Unlock => s.mutex.None?
    case Administer(e) => Administrative(e) && WellFormed(g.c, e) && s.mutex.None? && e.now <= s.clock
    case Locally(e) => Outside(e) && WellFormed(g.c, e) && e.now <= s.clock
  }

  function WithStatus(s: State, i: nat, status: Status): State
    requires i < |s.calls|
  {
    s.(calls := s.calls[i := s.calls[i].(status := status)])
  }

  function WithPhase(s: State, h: nat, phase: Phase): State
    requires h < |s.handlers|
  {
    s.(handlers := s.handlers[h := s.handlers[h].(phase := phase)])
  }

  /** the lock section of authorize_and_handoff up to the handoff */
  function Entered(g: Config, s: State, h: nat): State
    requires h < |s.handlers|
  {
    var w := s.handlers[h];
    var db := Tables(g, s.log);
    var at := Max(w.now, s.clock);
    var event := SectionEvent(g.c, db, s.unlocked, w.request, w.scope, w.useGrant, at);
    var reply := Section(g.c, db, s.unlocked, w.request, w.scope, w.useGrant, at).1;
    var logged := if event.Some? then s.(log := s.log + [event.value]) else s;
    if !reply.Decided? then WithPhase(logged, h, Gone)
    else
      var decided := w.(decision := Some(reply.claim), claim := |s.log|);
      if reply.claim.accepted then
        logged.(handlers := s.handlers[h := decided.(phase := Holding)], mutex := Some(h))
      else logged.(handlers := s.handlers[h := decided.(phase := Phase.Refused)])
  }

  function EndingOf(s: State, w: Handler, messageId: Id, receiptId: Id): Ending {
    match w.phase
    case Ran(failure, backend, result) =>
      ServiceEnding(w.request, w.now, s.clock, messageId, receiptId, failure, backend, result)
    case _ => ServiceEnding(w.request, w.now, s.clock, messageId, receiptId,
                            if w.decision.Some? then w.decision.value.cause else None, None, None)
  }

  /** issue the receipt, complete the claim and answer */
  function Answered(g: Config, s: State, h: nat, messageId: Id, receiptId: Id): (r: State)
    requires h < |s.handlers|
    ensures |r.handlers| == |s.handlers|
  {
    var w := s.handlers[h];
    if w.decision.None? then WithPhase(s, h, Gone)
    else
      var e := EndingOf(s, w, messageId, receiptId);
      var receipt := Issue(g.c, g.k, g.sign, w.request, w.decision.value, Max(w.now, w.request.issuedAt), e);
      if receipt.None? then WithPhase(s, h, Gone)
      else
        var response := ResponseFor(receipt.value, e);
        if !Accepted(w) then WithPhase(s, h, Replied(response)).(answers := s.answers + {response})
        else
          var digest := g.c.digest(ReceiptRecord(receipt.value));
          var event := Complete(w.request.requestId, digest, e.endedAt);
          var done := CompleteClaim(Tables(g, s.log), w.request.requestId, digest, e.endedAt).1;
          var logged := s.(log := s.log + [event]);
          if done.Done? then WithPhase(logged, h, Replied(response)).(answers := s.answers + {response})
          else WithPhase(logged, h, Gone)
  }

  /** the next state; an action that is not enabled changes nothing */
  function Do(g: Config, s: State, a: Action): State {
    if !Enabled(g, s, a) then s
    else
      match a
      case Pass(time) => s.(clock := time)
      case StartCall(r) => s.(calls := s.calls + [Call(r, 0, Ready)])
      case Send(i) =>
        s.(calls := s.calls[i := s.calls[i].(attempts := s.calls[i].attempts + 1, status := InFlight)],
           sent := s.sent + {s.calls[i].request})
      case Break(i, code, delivery, pastDeadline) =>
        WithStatus(
          s, i, if s.calls[i].attempts == 1 && RetryEligible(code, delivery, pastDeadline) then Ready else GivenUp)
      case Refuse(i) => WithStatus(s, i, GivenUp)
      case Receive(i, response, _) =>
        WithStatus(s, i, if response.receipt.failure.None? then Returned(response) else Failed(response.receipt))
      case Deliver(r, scope, useGrant, now) =>
        s.(handlers := s.handlers + [Handler(r, scope, useGrant, now, Arrived, None, 0)])
      case Enter(h) => Entered(g, s, h)
      case HandOff(h) => WithPhase(s, h, Prepared).(handoffs := s.handoffs + [h], mutex := None)
      case Execute(h, failure, backend, result) =>
        WithPhase(s, h, Ran(failure, backend, result)).(runs := s.runs + [h])
      case Drop(h) => WithPhase(s, h, Gone)
      case Reply(h, messageId, receiptId) => Answered(g, s, h, messageId, receiptId)
      case Lock => s.(unlocked := false)
      case Unlock => s.(unlocked := true)
      case Administer(e) => s.(log := s.log + [e])
      case Locally(e) => s.(log := s.log + [e])
  }

  /** the state after the first n actions */
  function Reached(g: Config, clock: int, actions: seq<Action>, n: nat): State
    requires n <= |actions|
  {
    if n == 0 then First(clock) else Do(g, Reached(g, clock, actions, n - 1), actions[n - 1])
  }

  // ------------------------------------------------------------------ the log only grows

  lemma TablesNext(g: Config, log: seq<Event>, e: Event)
    ensures Tables(g, log + [e]) == Next(g.c, Tables(g, log), e)
  {
    hide Next;
    AfterPrefix(g.c, Origin(g), log, e, |log|);
    assert (log + [e])[|log|] == e;
  }

  // ------------------------------------------------------------------ the invariant

  /** cleanups were given times the clock had reached, and claims no earlier ones */
  ghost predicate LogOk(g: Config, log: seq<Event>, clock: int) {
    && Run(g.c, log) && PrunesPrecede(log)
    && forall i | 0 <= i < |log| :: log[i].Prune? ==> log[i].now <= clock
  }

  /** what the log says at position n about this decision on this request */
  ghost predicate ClaimLogged(g: Config, log: seq<Event>, r: SignedRequest, decision: ClaimResult, n: nat) {
    && n < |log| && log[n].MakeClaim? && log[n].request == r
    && (AcceptedAt(g.c, Origin(g), log, n) <==> decision.accepted)
    && Claim(g.c, After(g.c, Origin(g), log, n), r, log[n].scope, log[n].now).1 == Done(decision)
  }

  ghost predicate ReplyOk(g: Config, runs: seq<nat>, h: nat, w: Handler, response: OperationResponse) {
    && ContextMatches(g.c, response.receipt, w.request)
    && w.decision.Some?
    && (response.receipt.decision.Allow? <==> Accepted(w))
    && (Accepted(w) ==> response.receipt.usage == w.decision.value.usage)
    && (!Accepted(w) ==>
          response.receipt.failure.Some? && Some(response.receipt.failure.value.causeCode) == w.decision.value.cause)
    && (response.receipt.outcome.OutcomeOk? ==>
          h in runs && response.result.Some?
            && g.k.resultDigest(response.result.value) == response.receipt.resultDigest)
    && (response.receipt.outcome.OutcomeOk? ==> response.receipt.decision.Allow?)
    && (response.receipt.outcome.OutcomeOk? <==> response.receipt.failure.None?)
  }

  ghost predicate HandlerOk(
    g: Config, log: seq<Event>, clock: int, sent: set<SignedRequest>, runs: seq<nat>, h: nat, w: Handler)
  {
    && w.now <= clock && RequestBounds(w.request)
    && (w.request.subjectKeyId == g.vpsKeyId ==> w.request in sent)
    && (w.decision.Some? ==> ClaimLogged(g, log, w.request, w.decision.value, w.claim))
    && (w.phase.Holding? || w.phase.Prepared? || w.phase.Ran? ==> Accepted(w))
    && (w.phase.Arrived? ==> w.decision.None?)
    && (w.phase.Refused? ==> w.decision.Some? && !Accepted(w))
    && (w.phase.Ran? ==> h in runs)
    && (w.phase.Replied? ==> ReplyOk(g, runs, h, w, w.phase.response))
  }

  ghost predicate HandlersOk(
    g: Config, log: seq<Event>, clock: int, sent: set<SignedRequest>, runs: seq<nat>, handlers: seq<Handler>)
  {
    forall h | 0 <= h < |handlers| :: HandlerOk(g, log, clock, sent, runs, h, handlers[h])
  }

  /** two handlers never own the same accepted claim */
  ghost predicate Apart(handlers: seq<Handler>) {
    forall h, i | 0 <= h < i < |handlers| ::
      Accepted(handlers[h]) && Accepted(handlers[i]) ==> handlers[h].claim != handlers[i].claim
  }

  /** only the holder is between claim and handoff; meanwhile nothing it depends on has ended */
  ghost predicate MutexOk(g: Config, log: seq<Event>, unlocked: bool, mutex: Option<nat>, handlers: seq<Handler>) {
    && (forall h | 0 <= h < |handlers| :: handlers[h].phase.Holding? <==> mutex == Some(h))
    && (mutex.Some? ==>
          mutex.value < |handlers| && unlocked && StillLive(Tables(g, log), handlers[mutex.value].request))
  }

  predicate NoRepeat(xs: seq<nat>) {
    forall a, b | 0 <= a < b < |xs| :: xs[a] != xs[b]
  }

  ghost predicate HandedOk(handlers: seq<Handler>, handoffs: seq<nat>) {
    && NoRepeat(handoffs)
    && (forall h | h in handoffs :: h < |handlers| && Accepted(handlers[h]) && !handlers[h].phase.Holding?)
    && (forall h | 0 <= h < |handlers| && handlers[h].phase.Prepared? :: h in handoffs)
  }

  ghost predicate RunsOk(handlers: seq<Handler>, handoffs: seq<nat>, runs: seq<nat>) {
    && NoRepeat(runs)
    && (forall h | h in runs :: h in handoffs && h < |handlers| && !handlers[h].phase.Prepared?)
  }

  ghost predicate AnswersOk(handlers: seq<Handler>, answers: set<OperationResponse>) {
    forall a | a in answers :: exists h :: 0 <= h < |handlers| && handlers[h].phase == Replied(a)
  }

  ghost predicate CallOk(g: Config, answers: set<OperationResponse>, sent: set<SignedRequest>, call: Call) {
    && call.request.subjectKeyId == g.vpsKeyId && RequestBounds(call.request)
    && call.attempts <= 2
    && (call.status.Ready? ==> call.attempts <= 1)
    && (call.status.InFlight? ==> 1 <= call.attempts)
    && (call.status.Returned? ==>
          && call.status.response.receipt.failure.None?
          && Authentic(answers, call.status.response.receipt)
          && ContextMatches(g.c, call.status.response.receipt, call.request)
          && ResultMatches(g.k, call.status.response.receipt, call.status.response.result))
    && (call.status.Failed? ==>
          && call.status.receipt.failure.Some?
          && Authentic(answers, call.status.receipt)
          && ContextMatches(g.c, call.status.receipt, call.request))
  }

  ghost predicate CallsOk(g: Config, answers: set<OperationResponse>, sent: set<SignedRequest>, calls: seq<Call>) {
    && (forall i | 0 <= i < |calls| :: CallOk(g, answers, sent, calls[i]))
    && (forall i, j | 0 <= i < j < |calls| :: calls[i].request.requestId != calls[j].request.requestId)
    && (forall r | r in sent :: exists i :: 0 <= i < |calls| && calls[i].request == r)
  }

  ghost predicate Sane(g: Config, s: State) {
    && LogOk(g, s.log, s.clock)
    && HandlersOk(g, s.log, s.clock, s.sent, s.runs, s.handlers)
    && Apart(s.handlers)
    && MutexOk(g, s.log, s.unlocked, s.mutex, s.handlers)
    && HandedOk(s.handlers, s.handoffs)
    && RunsOk(s.handlers, s.handoffs, s.runs)
    && AnswersOk(s.handlers, s.answers)
    && CallsOk(g, s.answers, s.sent, s.calls)
  }

  lemma FirstSane(g: Config, clock: int)
    ensures Sane(g, First(clock))
  {
  }

  // ------------------------------------------------------------------ appending one transaction

  lemma ClaimLoggedGrows(g: Config, log: seq<Event>, e: Event, r: SignedRequest, decision: ClaimResult, n: nat)
    requires ClaimLogged(g, log, r, decision, n)
    ensures ClaimLogged(g, log + [e], r, decision, n)
  {
    hide Claim, Accepts, After;
    AfterPrefix(g.c, Origin(g), log, e, n);
    assert (log + [e])[n] == log[n];
  }

  lemma LogGrows(g: Config, log: seq<Event>, clock: int, e: Event)
    requires LogOk(g, log, clock) && WellFormed(g.c, e)
    requires e.Prune? ==> e.now <= clock
    requires e.MakeClaim? ==> clock <= e.now
    ensures LogOk(g, log + [e], clock)
  {
    hide WellFormed;
    var log' := log + [e];
    forall i | 0 <= i < |log'| ensures WellFormed(g.c, log'[i]) && (log'[i].Prune? ==> log'[i].now <= clock) {
      assert i < |log| ==> log'[i] == log[i];
    }
    forall i, j | 0 <= i <= j < |log'| && log'[i].Prune? && log'[j].MakeClaim? ensures log'[i].now <= log'[j].now {
      assert i < |log| && log'[i] == log[i];
      assert j < |log| ==> log'[j] == log[j];
    }
  }

  lemma HandlersGrow(
    g: Config, log: seq<Event>, clock: int, sent: set<SignedRequest>, runs: seq<nat>, handlers: seq<Handler>, e: Event)
    requires HandlersOk(g, log, clock, sent, runs, handlers)
    ensures HandlersOk(g, log + [e], clock, sent, runs, handlers)
  {
    hide ClaimLogged, ReplyOk, RequestBounds;
    forall h | 0 <= h < |handlers| ensures HandlerOk(g, log + [e], clock, sent, runs, h, handlers[h]) {
      var w := handlers[h];
      assert HandlerOk(g, log, clock, sent, runs, h, w);
      if w.decision.Some? { ClaimLoggedGrows(g, log, e, w.request, w.decision.value, w.claim); }
    }
  }

  lemma MutexGrows(g: Config, log: seq<Event>, unlocked: bool, mutex: Option<nat>, handlers: seq<Handler>, e: Event)
    requires MutexOk(g, log, unlocked, mutex, handlers)
    requires mutex.None? || !Administrative(e)
    ensures MutexOk(g, log + [e], unlocked, mutex, handlers)
  {
    hide StillLive, Next, Tables;
    if mutex.Some? {
      TablesNext(g, log, e);
      OnlyAdministrationRevokes(g.c, Tables(g, log), e, handlers[mutex.value].request);
    }
  }

  // ------------------------------------------------------------------ each action keeps the invariant

  lemma TransactionKeeps(g: Config, s: State, a: Action)
    requires Sane(g, s) && Enabled(g, s, a) && (a.Administer? || a.Locally?)
    ensures Sane(g, Do(g, s, a))
  {
    hide LogOk, HandlersOk, Apart, MutexOk, HandedOk, RunsOk, AnswersOk, CallsOk, Tables, WellFormed, VerifyResponse,
         Prevalidate;
    LogGrows(g, s.log, s.clock, a.event);
    HandlersGrow(g, s.log, s.clock, s.sent, s.runs, s.handlers, a.event);
    MutexGrows(g, s.log, s.unlocked, s.mutex, s.handlers, a.event);
  }

  lemma ClockKeeps(g: Config, s: State, a: Action)
    requires Sane(g, s) && Enabled(g, s, a) && (a.Pass? || a.Lock? || a.Unlock?)
    ensures Sane(g, Do(g, s, a))
  {
    hide Apart, HandedOk, RunsOk, AnswersOk, CallsOk, Tables, ClaimLogged, ReplyOk, StillLive, Run, PrunesPrecede,
         RequestBounds;
    var s' := Do(g, s, a);
    forall h | 0 <= h < |s'.handlers| ensures HandlerOk(g, s'.log, s'.clock, s'.sent, s'.runs, h, s'.handlers[h]) {
      assert HandlerOk(g, s.log, s.clock, s.sent, s.runs, h, s.handlers[h]);
    }
  }

  /** the client's own actions */
  predicate OfClient(a: Action) {
    a.StartCall? || a.Send? || a.Break? || a.Refuse? || a.Receive?
  }

  lemma CallChanged(
    g: Config, answers: set<OperationResponse>, sent: set<SignedRequest>, calls: seq<Call>, i: nat, call: Call,
    sent': set<SignedRequest>)
    requires CallsOk(g, answers, sent, calls) && i < |calls|
    requires CallOk(g, answers, sent', call) && call.request == calls[i].request
    requires sent <= sent' <= sent + {call.request}
    ensures CallsOk(g, answers, sent', calls[i := call])
  {
    hide ContextMatches, ResultMatches, Authentic;
    var calls' := calls[i := call];
    forall j | 0 <= j < |calls'| ensures CallOk(g, answers, sent', calls'[j]) {
      assert CallOk(g, answers, sent, calls[j]);
    }
    forall r | r in sent' ensures exists j :: 0 <= j < |calls'| && calls'[j].request == r {
      if r == call.request {
        assert calls'[i].request == r;
      } else {
        var j :| 0 <= j < |calls| && calls[j].request == r;
        assert calls'[j].request == r;
      }
    }
  }

  lemma CallAdded(
    g: Config, answers: set<OperationResponse>, sent: set<SignedRequest>, calls: seq<Call>, call: Call)
    requires CallsOk(g, answers, sent, calls) && CallOk(g, answers, sent, call) && Fresh(calls, call.request)
    ensures CallsOk(g, answers, sent, calls + [call])
  {
    hide CallOk;
    var calls' := calls + [call];
    forall j | 0 <= j < |calls'| ensures CallOk(g, answers, sent, calls'[j]) {
      assert j < |calls| ==> calls'[j] == calls[j];
    }
    forall r | r in sent ensures exists j :: 0 <= j < |calls'| && calls'[j].request == r {
      var j :| 0 <= j < |calls| && calls[j].request == r;
      assert calls'[j].request == r;
    }
  }

  lemma VerifiedMatches(c: Crypto, k: Contract, response: OperationResponse, r: SignedRequest, now: int)
    requires VerifyResponse(c, k, response, r, now).Good?
    ensures ContextMatches(c, response.receipt, r) && ResultMatches(k, response.receipt, response.result)
  {
    hide ContextMatches, ResultMatches;
  }

  lemma ClientKeepsCalls(g: Config, s: State, a: Action)
    requires CallsOk(g, s.answers, s.sent, s.calls) && Enabled(g, s, a) && OfClient(a)
    ensures CallsOk(g, Do(g, s, a).answers, Do(g, s, a).sent, Do(g, s, a).calls)
  {
    hide CallsOk, ContextMatches, ResultMatches, RequestBounds, Authentic, VerifyResponse;
    var s' := Do(g, s, a);
    if a.StartCall? {
      hide Fresh;
      CallAdded(g, s.answers, s.sent, s.calls, Call(a.request, 0, Ready));
    } else {
      OneCall(g, s.answers, s.sent, s.calls, a.i);
      if a.Receive? { VerifiedMatches(g.c, g.k, a.response, s.calls[a.i].request, a.time); }
      CallChanged(g, s.answers, s.sent, s.calls, a.i, s'.calls[a.i], s'.sent);
    }
  }

  lemma OneCall(g: Config, answers: set<OperationResponse>, sent: set<SignedRequest>, calls: seq<Call>, i: nat)
    requires CallsOk(g, answers, sent, calls) && i < |calls|
    ensures CallOk(g, answers, sent, calls[i])
  {
    hide CallOk;
  }

  lemma ClientKeeps(g: Config, s: State, a: Action)
    requires Sane(g, s) && Enabled(g, s, a) && OfClient(a)
    ensures Sane(g, Do(g, s, a))
  {
    hide LogOk, Apart, HandedOk, RunsOk, AnswersOk, CallsOk, MutexOk, Tables, ClaimLogged, ReplyOk, RequestBounds,
         VerifyResponse;
    ClientKeepsCalls(g, s, a);
    var s' := Do(g, s, a);
    forall h | 0 <= h < |s'.handlers| ensures HandlerOk(g, s'.log, s'.clock, s'.sent, s'.runs, h, s'.handlers[h]) {
      assert HandlerOk(g, s.log, s.clock, s.sent, s.runs, h, s.handlers[h]);
    }
  }

  lemma DeliverKeeps(g: Config, s: State, a: Action)
    requires Sane(g, s) && Enabled(g, s, a) && a.Deliver?
    ensures Sane(g, Do(g, s, a))
  {
    hide LogOk, CallsOk, Tables, ClaimLogged, ReplyOk, RequestBounds, StillLive, Prevalidate;
    var s' := Do(g, s, a);
    forall h | 0 <= h < |s'.handlers| ensures HandlerOk(g, s'.log, s'.clock, s'.sent, s'.runs, h, s'.handlers[h]) {
      assert h < |s.handlers| ==> HandlerOk(g, s.log, s.clock, s.sent, s.runs, h, s.handlers[h]);
    }
    AnswersMove(s.handlers, s'.handlers, s.answers);
  }

  /** a reply stays where it was */
  lemma AnswersMove(handlers: seq<Handler>, handlers': seq<Handler>, answers: set<OperationResponse>)
    requires AnswersOk(handlers, answers) && |handlers| <= |handlers'|
    requires forall h | 0 <= h < |handlers| && handlers[h].phase.Replied? :: handlers'[h].phase == handlers[h].phase
    ensures AnswersOk(handlers', answers)
  {
    forall a | a in answers ensures exists h :: 0 <= h < |handlers'| && handlers'[h].phase == Replied(a) {
      var h :| 0 <= h < |handlers| && handlers[h].phase == Replied(a);
      assert handlers'[h].phase == Replied(a);
    }
  }

  lemma HandOffKeeps(g: Config, s: State, a: Action)
    requires Sane(g, s) && Enabled(g, s, a) && a.HandOff?
    ensures Sane(g, Do(g, s, a))
  {
    hide LogOk, CallsOk, Tables, ClaimLogged, ReplyOk, RequestBounds, StillLive;
    var s' := Do(g, s, a);
    assert HandlerOk(g, s.log, s.clock, s.sent, s.runs, a.h, s.handlers[a.h]);
    forall h | 0 <= h < |s'.handlers| ensures HandlerOk(g, s'.log, s'.clock, s'.sent, s'.runs, h, s'.handlers[h]) {
      assert HandlerOk(g, s.log, s.clock, s.sent, s.runs, h, s.handlers[h]);
    }
    AnswersMove(s.handlers, s'.handlers, s.answers);
  }

  lemma ExecuteKeeps(g: Config, s: State, a: Action)
    requires Sane(g, s) && Enabled(g, s, a) && a.Execute?
    ensures Sane(g, Do(g, s, a))
  {
    hide LogOk, CallsOk, Tables, ClaimLogged, RequestBounds, StillLive, Finished, ContextMatches;
    var s' := Do(g, s, a);
    forall h | 0 <= h < |s'.handlers| ensures HandlerOk(g, s'.log, s'.clock, s'.sent, s'.runs, h, s'.handlers[h]) {
      assert HandlerOk(g, s.log, s.clock, s.sent, s.runs, h, s.handlers[h]);
    }
    AnswersMove(s.handlers, s'.handlers, s.answers);
  }

  lemma DropKeeps(g: Config, s: State, a: Action)
    requires Sane(g, s) && Enabled(g, s, a) && a.Drop?
    ensures Sane(g, Do(g, s, a))
  {
    hide LogOk, CallsOk, Tables, ClaimLogged, RequestBounds, StillLive, ReplyOk;
    var s' := Do(g, s, a);
    forall h | 0 <= h < |s'.handlers| ensures HandlerOk(g, s'.log, s'.clock, s'.sent, s'.runs, h, s'.handlers[h]) {
      assert HandlerOk(g, s.log, s.clock, s.sent, s.runs, h, s.handlers[h]);
    }
    AnswersMove(s.handlers, s'.handlers, s.answers);
  }

  /** what the lock section of one handler does to the log, and what its decision means */
  lemma SectionLogged(g: Config, log: seq<Event>, unlocked: bool, w: Handler, at: int)
    requires RequestBounds(w.request)
    ensures var db := Tables(g, log);
            var event := SectionEvent(g.c, db, unlocked, w.request, w.scope, w.useGrant, at);
            var reply := Section(g.c, db, unlocked, w.request, w.scope, w.useGrant, at).1;
            && (event.Some? ==>
                  && WellFormed(g.c, event.value) && !event.value.Prune? && !Administrative(event.value)
                  && event.value.now == at)
            && (reply.Decided? ==> event.Some? && ClaimLogged(g, log + [event.value], w.request, reply.claim, |log|))
            && (reply.Decided? && reply.claim.accepted ==>
                  unlocked && StillLive(Tables(g, log + [event.value]), w.request))
  {
    hide Claim, DenyRequest, ScopeForRequest, Accepts, StillLive, RequestBounds, Next;
    var db := Tables(g, log);
    var event := SectionEvent(g.c, db, unlocked, w.request, w.scope, w.useGrant, at);
    var reply := Section(g.c, db, unlocked, w.request, w.scope, w.useGrant, at).1;
    SectionIsOneTransaction(g.c, db, unlocked, w.request, w.scope, w.useGrant, at);
    if reply.Decided? {
      var e := event.value;
      AfterPrefix(g.c, Origin(g), log, e, |log|);
      assert (log + [e])[|log|] == e;
      if reply.claim.accepted {
        TablesNext(g, log, e);
        AcceptedIsLive(g.c, db, e);
      }
    }
  }

  lemma EnterKeeps(g: Config, s: State, a: Action)
    requires Sane(g, s) && Enabled(g, s, a) && a.Enter?
    ensures Sane(g, Do(g, s, a))
  {
    hide LogOk, CallsOk, Tables, ClaimLogged, StillLive, ReplyOk, RequestBounds, Section, SectionEvent, WellFormed,
         AnswersOk, HandedOk, RunsOk, Apart, MutexOk, HandlersOk;
    var h := a.h;
    var w := s.handlers[h];
    assert HandlerOk(g, s.log, s.clock, s.sent, s.runs, h, w) by { OneHandler(g, s, h); }
    var at := Max(w.now, s.clock);
    SectionLogged(g, s.log, s.unlocked, w, at);
    var event := SectionEvent(g.c, Tables(g, s.log), s.unlocked, w.request, w.scope, w.useGrant, at);
    if event.Some? {
      LogGrows(g, s.log, s.clock, event.value);
      HandlersGrow(g, s.log, s.clock, s.sent, s.runs, s.handlers, event.value);
    }
    var s' := Do(g, s, a);
    HandlersSwap(g, s'.log, s.clock, s.sent, s.runs, s.handlers, h, s'.handlers[h]);
    AnswersMove(s.handlers, s'.handlers, s.answers);
    EnteredRest(g, s, h, s'.log, s'.mutex, s'.handlers[h]);
  }

  lemma OneHandler(g: Config, s: State, h: nat)
    requires HandlersOk(g, s.log, s.clock, s.sent, s.runs, s.handlers) && h < |s.handlers|
    ensures HandlerOk(g, s.log, s.clock, s.sent, s.runs, h, s.handlers[h])
  {
    hide HandlerOk;
  }

  lemma HandlersSwap(
    g: Config, log: seq<Event>, clock: int, sent: set<SignedRequest>, runs: seq<nat>, handlers: seq<Handler>,
    h: nat, w: Handler)
    requires HandlersOk(g, log, clock, sent, runs, handlers) && h < |handlers|
    requires HandlerOk(g, log, clock, sent, runs, h, w)
    ensures HandlersOk(g, log, clock, sent, runs, handlers[h := w])
  {
    hide HandlerOk;
  }

  /** an entered handler owns a new claim or none, and holds the lock exactly when accepted */
  lemma EnteredRest(g: Config, s: State, h: nat, log: seq<Event>, mutex: Option<nat>, w: Handler)
    requires HandlersOk(g, s.log, s.clock, s.sent, s.runs, s.handlers) && Apart(s.handlers)
    requires MutexOk(g, s.log, s.unlocked, s.mutex, s.handlers)
    requires HandedOk(s.handlers, s.handoffs) && RunsOk(s.handlers, s.handoffs, s.runs)
    requires h < |s.handlers| && s.handlers[h].phase.Arrived? && s.mutex.None?
    requires s.handlers[h].decision.None?
    requires w.phase.Gone? || w.phase.Refused? || w.phase.Holding?
    requires Accepted(w) <==> w.phase.Holding?
    requires Accepted(w) ==> w.claim == |s.log| && s.unlocked && StillLive(Tables(g, log), w.request)
    requires mutex == if Accepted(w) then Some(h) else None
    ensures Apart(s.handlers[h := w])
    ensures MutexOk(g, log, s.unlocked, mutex, s.handlers[h := w])
    ensures HandedOk(s.handlers[h := w], s.handoffs)
    ensures RunsOk(s.handlers[h := w], s.handoffs, s.runs)
  {
    hide LogOk, Tables, StillLive, ReplyOk, RequestBounds, AcceptedAt;
    forall i | 0 <= i < |s.handlers| && Accepted(s.handlers[i]) ensures s.handlers[i].claim < |s.log| {
      assert HandlerOk(g, s.log, s.clock, s.sent, s.runs, i, s.handlers[i]);
    }
  }

  lemma ReplyKeeps(g: Config, s: State, a: Action)
    requires Sane(g, s) && Enabled(g, s, a) && a.Reply?
    ensures Sane(g, Do(g, s, a))
  {
    hide LogOk, CallsOk, Tables, ClaimLogged, StillLive, ReplyOk, RequestBounds, Issue, EndingOf, ResponseFor,
         CompleteClaim, AnswersOk, HandedOk, RunsOk, Apart, MutexOk, HandlersOk;
    var h := a.h;
    var w := s.handlers[h];
    OneHandler(g, s, h);
    var s' := Do(g, s, a);
    var w' := s'.handlers[h];
    if s'.log != s.log {
      var e := s'.log[|s.log|];
      assert s'.log == s.log + [e];
      LogGrows(g, s.log, s.clock, e);
      HandlersGrow(g, s.log, s.clock, s.sent, s.runs, s.handlers, e);
      MutexGrows(g, s.log, s.unlocked, s.mutex, s.handlers, e);
    }
    if w'.phase.Replied? { RepliedOk(g, s, h, a.messageId, a.receiptId); }
    assert HandlerOk(g, s'.log, s.clock, s.sent, s.runs, h, w) by { OneHandler(g, s.(log := s'.log), h); }
    HandlersSwap(g, s'.log, s.clock, s.sent, s.runs, s.handlers, h, w');
    RepliedRest(g, s.(log := s'.log), h, w'.phase);
    RepliedAnswers(g, s, s', h);
  }

  /** a handler that finishes changes nothing about claims, the lock, handoffs or runs */
  lemma RepliedRest(g: Config, s: State, h: nat, phase: Phase)
    requires Apart(s.handlers) && MutexOk(g, s.log, s.unlocked, s.mutex, s.handlers)
    requires HandedOk(s.handlers, s.handoffs) && RunsOk(s.handlers, s.handoffs, s.runs)
    requires h < |s.handlers| && (s.handlers[h].phase.Ran? || s.handlers[h].phase.Refused?)
    requires phase.Gone? || phase.Replied?
    ensures var handlers := s.handlers[h := s.handlers[h].(phase := phase)];
            && Apart(handlers) && MutexOk(g, s.log, s.unlocked, s.mutex, handlers)
            && HandedOk(handlers, s.handoffs) && RunsOk(handlers, s.handoffs, s.runs)
  {
    hide Tables, StillLive;
  }

  lemma RepliedAnswers(g: Config, s: State, s': State, h: nat)
    requires AnswersOk(s.handlers, s.answers) && CallsOk(g, s.answers, s.sent, s.calls) && h < |s.handlers|
    requires |s'.handlers| == |s.handlers| && s'.handlers == s.handlers[h := s'.handlers[h]]
    requires !s.handlers[h].phase.Replied?
    requires if s'.handlers[h].phase.Replied? then s'.answers == s.answers + {s'.handlers[h].phase.response}
             else s'.answers == s.answers
    requires s'.calls == s.calls && s'.sent == s.sent
    ensures AnswersOk(s'.handlers, s'.answers) && CallsOk(g, s'.answers, s'.sent, s'.calls)
  {
    hide ContextMatches, ResultMatches;
    AnswersMove(s.handlers, s'.handlers, s.answers);
    forall i | 0 <= i < |s.calls| ensures CallOk(g, s'.answers, s.sent, s.calls[i]) {
      assert CallOk(g, s.answers, s.sent, s.calls[i]);
    }
  }

  /** an issued response says what was decided and what the execution produced */
  lemma RepliedOk(g: Config, s: State, h: nat, messageId: Id, receiptId: Id)
    requires h < |s.handlers| && (s.handlers[h].phase.Ran? || s.handlers[h].phase.Refused?)
    requires HandlerOk(g, s.log, s.clock, s.sent, s.runs, h, s.handlers[h])
    requires Answered(g, s, h, messageId, receiptId).handlers[h].phase.Replied?
    ensures var w := Answered(g, s, h, messageId, receiptId).handlers[h];
            ReplyOk(g, s.runs, h, w, w.phase.response)
  {
    hide CompleteClaim, ClaimLogged, RequestBounds, Issue, ContextMatches, ReceiptBounds;
    var w := s.handlers[h];
    var e := EndingOf(s, w, messageId, receiptId);
    IssuedFacts(g.c, g.k, g.sign, w.request, w.decision.value, Max(w.now, w.request.issuedAt), e);
  }

  lemma StepSane(g: Config, s: State, a: Action)
    requires Sane(g, s)
    ensures Sane(g, Do(g, s, a))
  {
    if Enabled(g, s, a) {
      hide Sane, Enabled, Do;
      match a
      case Administer(_) => TransactionKeeps(g, s, a);
      case Locally(_) => TransactionKeeps(g, s, a);
      case Pass(_) => ClockKeeps(g, s, a);
      case Lock => ClockKeeps(g, s, a);
      case Unlock => ClockKeeps(g, s, a);
      case Deliver(_, _, _, _) => DeliverKeeps(g, s, a);
      case Enter(_) => EnterKeeps(g, s, a);
      case HandOff(_) => HandOffKeeps(g, s, a);
      case Execute(_, _, _, _) => ExecuteKeeps(g, s, a);
      case Drop(_) => DropKeeps(g, s, a);
      case Reply(_, _, _) => ReplyKeeps(g, s, a);
      case _ => ClientKeeps(g, s, a);
    }
  }

  /** Every interleaving keeps the invariant. */
  lemma {:induction false} AlwaysSane(g: Config, clock: int, actions: seq<Action>, n: nat)
    requires n <= |actions|
    ensures Sane(g, Reached(g, clock, actions, n))
  {
    hide Sane, Do;
    if n == 0 {
      FirstSane(g, clock);
    } else {
      AlwaysSane(g, clock, actions, n - 1);
      StepSane(g, Reached(g, clock, actions, n - 1), actions[n - 1]);
    }
  }

  // ------------------------------------------------------------------ at most once

  ghost predicate OneClaimEach(g: Config, log: seq<Event>) {
    forall i, j | 0 <= i < |log| && 0 <= j < |log| ::
      (AcceptedAt(g.c, Origin(g), log, i) && AcceptedAt(g.c, Origin(g), log, j) && log[i].request == log[j].request) ==>
        i == j
  }

  /** each listed handler exists, and no two entries are for the same signed request */
  ghost predicate OneEach(handlers: seq<Handler>, xs: seq<nat>) {
    && (forall a | 0 <= a < |xs| :: xs[a] < |handlers|)
    && (forall a, b | 0 <= a < |xs| && 0 <= b < |xs| ::
          handlers[xs[a]].request == handlers[xs[b]].request ==> a == b)
  }

  /** Over every interleaving, with frames lost, repeated and reordered, one signed request has at most
      one accepted claim, one handoff and one execution, and each call sends at most twice. */
  lemma AtMostOnce(g: Config, clock: int, actions: seq<Action>, n: nat)
    requires n <= |actions|
    ensures var s := Reached(g, clock, actions, n);
            && OneClaimEach(g, s.log)
            && OneEach(s.handlers, s.handoffs)
            && OneEach(s.handlers, s.runs)
            && (forall i | 0 <= i < |s.calls| :: s.calls[i].attempts <= 2)
  {
    hide Do, OneClaimEach, OneEach, LogOk, Apart, HandlersOk, AnswersOk, MutexOk, CallsOk;
    AlwaysSane(g, clock, actions, n);
    var s := Reached(g, clock, actions, n);
    OneClaim(g, s);
    assert forall h | h in s.runs :: h in s.handoffs;
    OneHandlerEach(g, s, s.handoffs);
    OneHandlerEach(g, s, s.runs);
    forall i | 0 <= i < |s.calls| ensures s.calls[i].attempts <= 2 { OneCall(g, s.answers, s.sent, s.calls, i); }
  }

  lemma OneClaim(g: Config, s: State)
    requires LogOk(g, s.log, s.clock)
    ensures OneClaimEach(g, s.log)
  {
    hide Run, PrunesPrecede, Next;
    var log := s.log;
    forall i, j | 0 <= i < |log| && 0 <= j < |log| && AcceptedAt(g.c, Origin(g), log, i)
                  && AcceptedAt(g.c, Origin(g), log, j) && log[i].request == log[j].request
      ensures i == j
    {
      NoRequestAcceptedTwice(g.c, Origin(g), log, i, j);
    }
  }

  lemma OneHandlerEach(g: Config, s: State, xs: seq<nat>)
    requires LogOk(g, s.log, s.clock) && HandlersOk(g, s.log, s.clock, s.sent, s.runs, s.handlers) && Apart(s.handlers)
    requires NoRepeat(xs) && forall h | h in xs :: h < |s.handlers| && Accepted(s.handlers[h])
    ensures OneEach(s.handlers, xs)
  {
    hide LogOk, HandlersOk, Apart, Accepted;
    forall a | 0 <= a < |xs| ensures xs[a] < |s.handlers| { assert xs[a] in xs; }
    forall a, b | 0 <= a < |xs| && 0 <= b < |xs| && s.handlers[xs[a]].request == s.handlers[xs[b]].request
      ensures a == b
    {
      assert xs[a] in xs && xs[b] in xs;
      SameHandler(g, s, xs[a], xs[b]);
    }
  }

  /** two handlers with an accepted claim on the same request are one handler */
  lemma SameHandler(g: Config, s: State, h: nat, i: nat)
    requires LogOk(g, s.log, s.clock) && HandlersOk(g, s.log, s.clock, s.sent, s.runs, s.handlers) && Apart(s.handlers)
    requires h < |s.handlers| && i < |s.handlers| && Accepted(s.handlers[h]) && Accepted(s.handlers[i])
    requires s.handlers[h].request == s.handlers[i].request
    ensures h == i
  {
    hide LogOk, AcceptedAt, Claim, After, ReplyOk;
    OneHandler(g, s, h);
    OneHandler(g, s, i);
    OneClaim(g, s);
  }

  /** A broken exchange is sent again exactly when it was the first, there is time left, the fault was an offline
      or a deadline one, and nothing says that the frame was delivered; otherwise the call is given up. */
  lemma BreakDecides(g: Config, s: State, i: nat, code: ErrorCode, delivery: Delivery, pastDeadline: bool)
    requires CallsOk(g, s.answers, s.sent, s.calls)
    requires Enabled(g, s, Break(i, code, delivery, pastDeadline))
    ensures var s' := Do(g, s, Break(i, code, delivery, pastDeadline));
            var again := && s.calls[i].attempts == 1 && !pastDeadline
                         && (code == ConnectorOffline || code == ConnectorDeadlineExceeded) && delivery != Delivered;
            && s' == s.(calls := s'.calls) && |s'.calls| == |s.calls|
            && s'.calls[i] == Call(s.calls[i].request, s.calls[i].attempts, if again then Ready else GivenUp)
            && (forall j | 0 <= j < |s.calls| && j != i :: s'.calls[j] == s.calls[j])
  {
    hide ContextMatches, ResultMatches, Authentic, RequestBounds;
    assert CallOk(g, s.answers, s.sent, s.calls[i]);
  }

  // ------------------------------------------------------------------ what an ok response means

  /** how an execution ended */
  datatype Ended = Ended(failure: Option<ErrorCode>, backend: Option<BackendIdentity>, result: Option<OperationResult>)

  function CauseIn(r: SignedReceipt): Option<ErrorCode> {
    if r.failure.Some? then Some(r.failure.value.causeCode) else None
  }

  /** what an execution left in a handler: how it ended, or what the reply made from it reports */
  function ProducedIn(phase: Phase): Option<Ended> {
    match phase
    case Ran(failure, backend, result) => Some(Ended(failure, backend, result))
    case Replied(response) =>
      if response.receipt.decision.Deny? then None
      else Some(Ended(CauseIn(response.receipt), response.receipt.backend, response.result))
    case _ => None
  }

  /** One action leaves what a handler produced as it was, or is its execution with that end. */
  lemma ProducedStep(g: Config, s: State, a: Action, h: nat)
    requires HandlersOk(g, s.log, s.clock, s.sent, s.runs, s.handlers)
    requires h < |Do(g, s, a).handlers| && ProducedIn(Do(g, s, a).handlers[h].phase).Some?
    ensures var ended := ProducedIn(Do(g, s, a).handlers[h].phase);
            || (h < |s.handlers| && ProducedIn(s.handlers[h].phase) == ended)
            || (Enabled(g, s, a) && a.Execute? && a.h == h && Some(Ended(a.failure, a.backend, a.result)) == ended)
  {
    hide HandlersOk;
    if a.Reply? {
      ReplyProduces(g, s, a);
    } else if a.Enter? {
      hide Enabled;
      EnterProduces(g, s, a);
    } else {
      hide Enabled, Entered, Answered;
    }
  }

  lemma ReplyProduces(g: Config, s: State, a: Action)
    requires a.Reply? && HandlersOk(g, s.log, s.clock, s.sent, s.runs, s.handlers)
    ensures var s' := Do(g, s, a);
            && |s'.handlers| == |s.handlers|
            && forall h | 0 <= h < |s.handlers| && ProducedIn(s'.handlers[h].phase).Some? ::
                 ProducedIn(s'.handlers[h].phase) == ProducedIn(s.handlers[h].phase)
  {
    hide Answered, HandlersOk, ClaimLogged, RequestBounds, ReplyOk;
    if Enabled(g, s, a) {
      OneHandler(g, s, a.h);
      AnsweredHandler(g, s, a.h, a.messageId, a.receiptId);
    }
  }

  lemma AnsweredHandler(g: Config, s: State, h: nat, messageId: Id, receiptId: Id)
    requires h < |s.handlers| && (s.handlers[h].phase.Ran? || s.handlers[h].phase.Refused?)
    requires s.handlers[h].phase.Refused? ==> !Accepted(s.handlers[h])
    ensures var s' := Answered(g, s, h, messageId, receiptId);
            && (forall i | 0 <= i < |s.handlers| && i != h :: s'.handlers[i] == s.handlers[i])
            && (ProducedIn(s'.handlers[h].phase).Some? ==>
                  ProducedIn(s'.handlers[h].phase) == ProducedIn(s.handlers[h].phase))
  {
    hide Issue, CompleteClaim, Tables, ReceiptNames;
    var w := s.handlers[h];
    var e := EndingOf(s, w, messageId, receiptId);
    if w.decision.Some? {
      var at := Max(w.now, w.request.issuedAt);
      if Issue(g.c, g.k, g.sign, w.request, w.decision.value, at, e).Some? {
        IssuedSays(g.c, g.k, g.sign, w.request, w.decision.value, at, e);
        IssuedEnds(g.c, g.k, g.sign, w.request, w.decision.value, at, e);
      }
    }
  }

  /** a receipt is issued for a result or a failure, never for both, and says which decision it is for */
  lemma IssuedEnds(
    c: Crypto, k: Contract, sign: Signer, request: SignedRequest, claim: ClaimResult, startedAt: int, e: Ending)
    requires Issue(c, k, sign, request, claim, startedAt, e).Some?
    ensures claim.accepted && e.failure.Some? ==> e.result.None?
    ensures Issue(c, k, sign, request, claim, startedAt, e).value.decision.Allow? <==> claim.accepted
  {
  }

  lemma EnterProduces(g: Config, s: State, a: Action)
    requires a.Enter?
    ensures var s' := Do(g, s, a);
            && |s'.handlers| == |s.handlers|
            && forall h | 0 <= h < |s.handlers| && ProducedIn(s'.handlers[h].phase).Some? ::
                 ProducedIn(s'.handlers[h].phase) == ProducedIn(s.handlers[h].phase)
  {
    hide Entered;
    if Enabled(g, s, a) { EnteredHandler(g, s, a.h); }
  }

  lemma EnteredHandler(g: Config, s: State, h: nat)
    requires h < |s.handlers|
    ensures var s' := Entered(g, s, h);
            && |s'.handlers| == |s.handlers|
            && (forall i | 0 <= i < |s.handlers| && i != h :: s'.handlers[i] == s.handlers[i])
            && ProducedIn(s'.handlers[h].phase).None?
  {
    hide SectionEvent, Section, Tables;
  }

  /** Whatever a handler holds or answered with, failure, backend or result, is how an execution of that very
      handler ended. */
  lemma {:induction false} ProducedByRun(g: Config, clock: int, actions: seq<Action>, n: nat, h: nat) returns (m: nat)
    requires n <= |actions| && h < |Reached(g, clock, actions, n).handlers|
    requires ProducedIn(Reached(g, clock, actions, n).handlers[h].phase).Some?
    ensures m < n && Enabled(g, Reached(g, clock, actions, m), actions[m])
    ensures actions[m].Execute? && actions[m].h == h
    ensures Some(Ended(actions[m].failure, actions[m].backend, actions[m].result))
            == ProducedIn(Reached(g, clock, actions, n).handlers[h].phase)
    decreases n
  {
    hide Do, Enabled, ProducedIn, Sane;
    if n == 0 {
      NothingProduced(clock);
      assert false;
    }
    var before := Reached(g, clock, actions, n - 1);
    AlwaysSane(g, clock, actions, n - 1);
    SaneHandlers(g, before);
    ProducedStep(g, before, actions[n - 1], h);
    if h < |before.handlers|
       && ProducedIn(before.handlers[h].phase) == ProducedIn(Reached(g, clock, actions, n).handlers[h].phase) {
      m := ProducedByRun(g, clock, actions, n - 1, h);
    } else {
      m := n - 1;
    }
  }

  lemma SaneHandlers(g: Config, s: State)
    requires Sane(g, s)
    ensures HandlersOk(g, s.log, s.clock, s.sent, s.runs, s.handlers)
  {
  }

  lemma NothingProduced(clock: int)
    ensures First(clock).handlers == []
  {
  }

  /** An ok response returned to the client means: its request has exactly one accepted claim in the log,
      with the use number and remaining quota the receipt states; that claim's handler executed, in a step
      of the run that produced a result; and the result returned has the digest of the result it produced. */
  lemma OkMeansClaimed(g: Config, clock: int, actions: seq<Action>, n: nat, i: nat)
    returns (k: nat, h: nat, m: nat)
    requires n <= |actions| && i < |Reached(g, clock, actions, n).calls|
    requires Reached(g, clock, actions, n).calls[i].status.Returned?
    ensures var s := Reached(g, clock, actions, n);
            var r, response := s.calls[i].request, s.calls[i].status.response;
            && k < |s.log| && AcceptedAt(g.c, Origin(g), s.log, k) && s.log[k].request == r
            && (forall j | 0 <= j < |s.log| :: AcceptedAt(g.c, Origin(g), s.log, j) && s.log[j].request == r ==> j == k)
            && var grant := GrantKey(r.grantId, r.grantRevision);
            && var use := Uses(g.c, Origin(g), s.log, grant, k) + 1;
            && grant in After(g.c, Origin(g), s.log, k).revisions
            && response.receipt.usage ==
                 Some(ReceiptUsage(use, ClaimsOf(After(g.c, Origin(g), s.log, k), grant).maxUses - use))
            && h in s.runs && h < |s.handlers| && s.handlers[h].request == r && s.handlers[h].claim == k
            && s.handlers[h].phase.Replied? && s.handlers[h].phase.response.receipt == response.receipt
    ensures var s := Reached(g, clock, actions, n);
            var response := s.calls[i].status.response;
            && m < n && Enabled(g, Reached(g, clock, actions, m), actions[m])
            && actions[m].Execute? && actions[m].h == h && actions[m].failure.None? && actions[m].result.Some?
            && actions[m].backend == response.receipt.backend && response.result.Some?
            && g.k.resultDigest(actions[m].result.value) == g.k.resultDigest(response.result.value)
  {
    hide Do, AcceptedAt, Uses, After, StillLive, Enabled, LogOk, Apart, MutexOk, HandedOk, RunsOk, AnswersOk, CallsOk,
         RequestBounds, ContextMatches, ResultMatches;
    AlwaysSane(g, clock, actions, n);
    var s := Reached(g, clock, actions, n);
    h := Replier(g, s, i);
    k := s.handlers[h].claim;
    OneClaim(g, s);
    OneHandler(g, s, h);
    KthUseNumbered(g.c, Origin(g), s.log, k);
    m := ProducedByRun(g, clock, actions, n, h);
    hide Sane;
    ProducedWithoutFailure(g, Reached(g, clock, actions, m), actions[m]);
  }

  lemma ProducedWithoutFailure(g: Config, s: State, a: Action)
    requires Enabled(g, s, a) && a.Execute? && a.result.Some?
    ensures a.failure.None?
  {
    hide Bounded;
  }

  /** the handler whose receipt the client trusted handled that very request */
  lemma Replier(g: Config, s: State, i: nat) returns (h: nat)
    requires Sane(g, s) && i < |s.calls| && s.calls[i].status.Returned?
    ensures h < |s.handlers| && s.handlers[h].phase.Replied?
    ensures s.handlers[h].phase.response.receipt == s.calls[i].status.response.receipt
    ensures s.handlers[h].request == s.calls[i].request
    ensures Accepted(s.handlers[h]) && h in s.runs
    ensures s.calls[i].status.response.receipt.usage == s.handlers[h].decision.value.usage
    ensures s.handlers[h].phase.response.result.Some? && s.calls[i].status.response.result.Some?
    ensures g.k.resultDigest(s.handlers[h].phase.response.result.value)
            == g.k.resultDigest(s.calls[i].status.response.result.value)
  {
    hide LogOk, ClaimLogged, MutexOk, HandedOk, RunsOk, Apart, RequestBounds, Bounded, ContextMatches, Authentic;
    OneCall(g, s.answers, s.sent, s.calls, i);
    h := Issuer(g, s, i, s.calls[i].status.response.receipt);
    OneHandler(g, s, h);
  }

  /** every trusted receipt for a call, of a success or of a failure, is the reply of one handler of its request */
  lemma Issuer(g: Config, s: State, i: nat, receipt: SignedReceipt) returns (h: nat)
    requires Sane(g, s) && i < |s.calls|
    requires Authentic(s.answers, receipt) && ContextMatches(g.c, receipt, s.calls[i].request)
    ensures h < |s.handlers| && s.handlers[h].phase.Replied? && s.handlers[h].phase.response.receipt == receipt
    ensures s.handlers[h].request == s.calls[i].request
  {
    hide LogOk, ClaimLogged, MutexOk, HandedOk, RunsOk, Apart, RequestBounds, ResultMatches;
    OneCall(g, s.answers, s.sent, s.calls, i);
    var a :| a in s.answers && a.receipt == receipt;
    h :| 0 <= h < |s.handlers| && s.handlers[h].phase == Replied(a);
    OneHandler(g, s, h);
    var r := s.handlers[h].request;
    assert r in s.sent;
    var j :| 0 <= j < |s.calls| && s.calls[j].request == r;
    assert j == i;
  }

  /** A failure the client raises is the Connector's own: the receipt's cause is the one the store gave when it
      refused this very request at position k of the log, or the claim at k was accepted and an execution of its
      handler, a step of the run, ended with exactly this failure on exactly this backend. */
  lemma FailureMeansDecided(g: Config, clock: int, actions: seq<Action>, n: nat, i: nat)
    returns (k: nat, h: nat, m: nat)
    requires n <= |actions| && i < |Reached(g, clock, actions, n).calls|
    requires Reached(g, clock, actions, n).calls[i].status.Failed?
    ensures var s := Reached(g, clock, actions, n);
            var r, receipt := s.calls[i].request, s.calls[i].status.receipt;
            && h < |s.handlers| && s.handlers[h].request == r
            && s.handlers[h].phase.Replied? && s.handlers[h].phase.response.receipt == receipt
            && receipt.failure.Some?
            && k < |s.log| && s.log[k].MakeClaim? && s.log[k].request == r
            && var reply := Claim(g.c, After(g.c, Origin(g), s.log, k), r, s.log[k].scope, s.log[k].now).1;
            && reply.Done?
            && if receipt.decision.Deny?
               then !reply.value.accepted && reply.value.cause == Some(receipt.failure.value.causeCode)
               else reply.value.accepted && reply.value.usage == receipt.usage
    ensures var receipt := Reached(g, clock, actions, n).calls[i].status.receipt;
            receipt.decision.Allow? ==>
              && m < n && Enabled(g, Reached(g, clock, actions, m), actions[m])
              && actions[m].Execute? && actions[m].h == h
              && actions[m].failure == Some(receipt.failure.value.causeCode) && actions[m].backend == receipt.backend
              && actions[m].result.None?
  {
    hide Do, Claim, After, Enabled, ContextMatches, LogOk, MutexOk, HandedOk, RunsOk, Apart, RequestBounds, Authentic,
         AcceptedAt, ResultMatches;
    AlwaysSane(g, clock, actions, n);
    var s := Reached(g, clock, actions, n);
    OneCall(g, s.answers, s.sent, s.calls, i);
    var receipt := s.calls[i].status.receipt;
    h := Issuer(g, s, i, receipt);
    OneHandler(g, s, h);
    k, m := s.handlers[h].claim, 0;
    if receipt.decision.Allow? {
      m := ProducedByRun(g, clock, actions, n, h);
      hide Sane, HandlersOk;
      FailedWithoutResult(g, Reached(g, clock, actions, m), actions[m]);
    }
  }

  lemma FailedWithoutResult(g: Config, s: State, a: Action)
    requires Enabled(g, s, a) && a.Execute? && a.failure.Some?
    ensures a.result.None?
  {
    hide Bounded;
  }

  // ------------------------------------------------------------------ irrevocability

  /** Every handoff, in every interleaving, starts while the authority is unlocked and everything its
      claim depended on is still unrevoked, current and unreplaced. */
  lemma HandoffsAreLive(g: Config, clock: int, actions: seq<Action>, n: nat)
    requires n < |actions|
    requires actions[n].HandOff? && Enabled(g, Reached(g, clock, actions, n), actions[n])
    ensures var s := Reached(g, clock, actions, n);
            s.unlocked && StillLive(Tables(g, s.log), s.handlers[actions[n].h].request)
  {
    hide Do, StillLive, LogOk, HandlersOk, HandedOk, RunsOk, Apart, AnswersOk, CallsOk;
    AlwaysSane(g, clock, actions, n);
  }

  /** Once a device, grant, revision or policy revision in the log has ended, no later handoff depends
      on it. */
  lemma NoHandoffAfterRevocation(g: Config, clock: int, actions: seq<Action>, n: nat, k: nat)
    requires n < |actions|
    requires actions[n].HandOff? && Enabled(g, Reached(g, clock, actions, n), actions[n])
    requires k < |Reached(g, clock, actions, n).log|
    ensures var s := Reached(g, clock, actions, n);
            var r := s.handlers[actions[n].h].request;
            var before := After(g.c, Origin(g), s.log, k);
            match s.log[k]
            case KillDevice(d, now) =>
              RevokeDevice(before, d, now).1.Done? ==> DeviceOf(Tables(g, s.log), r.subjectKeyId) != Some(d)
            case KillGrant(grantId, now) =>
              RevokeGrant(before, grantId, now).1.Done? ==> r.grantId != grantId
            case Replace(grant, now) =>
              ReplaceGrant(g.c, before, grant, now).1.Done? ==>
                CurrentRevision(before, grant.claims.grantId) != Some(GrantKey(r.grantId, r.grantRevision))
            case Advance(digest, now) =>
              AdvancePolicy(before, digest, now).1.Done? ==> CurrentPolicy(before) != Some(r.policyRevision)
            case _ => true
  {
    hide Do, After, CurrentPolicy, CurrentRevision, StillLive, RevokeDevice, RevokeGrant, ReplaceGrant, AdvancePolicy;
    HandoffsAreLive(g, clock, actions, n);
    var s := Reached(g, clock, actions, n);
    EndedStaysEnded(g, s.log, k, s.handlers[actions[n].h].request);
  }

  lemma EndedStaysEnded(g: Config, log: seq<Event>, k: nat, r: SignedRequest)
    requires k < |log| && StillLive(Tables(g, log), r)
    ensures var before := After(g.c, Origin(g), log, k);
            match log[k]
            case KillDevice(d, now) =>
              RevokeDevice(before, d, now).1.Done? ==> DeviceOf(Tables(g, log), r.subjectKeyId) != Some(d)
            case KillGrant(grantId, now) =>
              RevokeGrant(before, grantId, now).1.Done? ==> r.grantId != grantId
            case Replace(grant, now) =>
              ReplaceGrant(g.c, before, grant, now).1.Done? ==>
                CurrentRevision(before, grant.claims.grantId) != Some(GrantKey(r.grantId, r.grantRevision))
            case Advance(digest, now) =>
              AdvancePolicy(before, digest, now).1.Done? ==> CurrentPolicy(before) != Some(r.policyRevision)
            case _ => true
  {
    hide CurrentPolicy, CurrentRevision, RevokeDevice, RevokeGrant, ReplaceGrant, AdvancePolicy, RevisionsHold,
         KeysLast;
    var before := After(g.c, Origin(g), log, k);
    assert After(g.c, Origin(g), log, k + 1) == Next(g.c, before, log[k]);
    RunLasts(g.c, Origin(g), log, k + 1, |log|);
    match log[k]
    case KillDevice(d, now) => RevokedNow(before, d, now);
    case KillGrant(grantId, now) => RevokedNow(before, grantId, now);
    case Replace(grant, now) =>
      if ReplaceGrant(g.c, before, grant, now).1.Done? {
        ReplacementFresh(g.c, before, grant, now);
        SupersededLater(before, Next(g.c, before, log[k]), Tables(g, log),
                        CurrentRevision(before, grant.claims.grantId).value);
      }
    case Advance(digest, now) => AdvanceFacts(g.c, before, digest, now);
    case _ =>
  }

  lemma SupersededLater(before: Db, next: Db, later: Db, k: GrantKey)
    requires k in next.revisions && next.revisions[k].supersededAt.Some? && Lasts(next, later)
    ensures !IsLiveKey(later, k)
  {
    hide DevicesLast, KeysLast, LineagesLast, PoliciesLast;
  }

  /** While the authority is locked nothing is accepted and nothing is handed off: an accepted claim
      enters the log, and a handoff starts, only in an unlocked state. */
  lemma LockedStartsNothing(g: Config, clock: int, actions: seq<Action>, n: nat)
    requires n < |actions| && !Reached(g, clock, actions, n).unlocked
    ensures var s, s' := Reached(g, clock, actions, n), Reached(g, clock, actions, n + 1);
            && s'.handoffs == s.handoffs
            && forall i | |s.log| <= i < |s'.log| :: !AcceptedAt(g.c, Origin(g), s'.log, i)
  {
    hide StillLive, LogOk, HandlersOk, HandedOk, RunsOk, Apart, AnswersOk, CallsOk, Accepts;
    AlwaysSane(g, clock, actions, n);
    LockedStep(g, Reached(g, clock, actions, n), actions[n]);
  }

  lemma LockedStep(g: Config, s: State, a: Action)
    requires !s.unlocked && MutexOk(g, s.log, s.unlocked, s.mutex, s.handlers)
    ensures var s' := Do(g, s, a);
            && s'.handoffs == s.handoffs
            && |s.log| <= |s'.log| <= |s.log| + 1
            && (forall i | |s.log| <= i < |s'.log| :: !AcceptedAt(g.c, Origin(g), s'.log, i))
  {
    hide StillLive, Issue, Section, EndingOf, ResponseFor, CompleteClaim, WellFormed, Prevalidate, VerifyResponse,
         RequestBounds, After, RetryEligible;
  }
}
