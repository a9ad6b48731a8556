/** Both sides of pairing in one run: the Connector's transactions and its pairing handler
    (connector/service.py), and the VPS's profile writes (connector/client.py), in any order. */
module PairingRun {
  import opened Prelude
  import opened Errors
  import opened Records
  import opened Trust
  import opened Store
  import opened StoreInvariant
  import opened StoreRun
  import opened Profiles
  import opened Service

  datatype Config = Config(
    c: Crypto, endpoints: Endpoints, sign: SignedRecord -> Bytes, policyDigest: string, created: int)

  /** `log` is every store transaction so far, `made` every completion the handler has signed, and `file` the
      VPS's profile */
  datatype State = State(log: seq<Event>, made: set<PairingComplete>, file: Option<Profile>)

  datatype Action =
    | Transact(event: Event)
    | Handle(init: PairingInit, material: Material, drawn: Fresh, now: int)
    | Keep(write: Write)

  const FIRST := State([], {}, None)

  function Origin(g: Config): Db {
    Initial(g.policyDigest, g.created)
  }

  function Tables(g: Config, log: seq<Event>): Db {
    After(g.c, Origin(g), log, |log|)
  }

  /** records exist only when their constructors accepted them */
  predicate Possible(g: Config, a: Action) {
    match a
    case Transact(e) => WellFormed(g.c, e)
    case Handle(init, _, _, _) => ValidInit(g.c, init)
    case Keep(w) => WellFormedWrite(w)
  }

  /** the transactions of one handler call */
  function HandlerEvents(g: Config, db: Db, a: Action): seq<Event>
    requires a.Handle?
  {
    var challenge := ChallengeFor(g.c, g.sign, a.init, a.material, a.drawn, a.now);
    [ShowPairing(a.init, a.now)]
    + if PairingState(g.c, db, a.init, a.now).1 == Done(None) && ChallengeBounds(challenge)
      then [OpenPairing(a.init, challenge, a.now)] else []
  }

  function Do(g: Config, s: State, a: Action): State
    requires Possible(g, a)
  {
    match a
    case Transact(e) => s.(log := s.log + [e])
    case Handle(init, material, drawn, now) =>
      var db := Tables(g, s.log);
      var reply := HandlePairing(g.c, db, g.sign, init, material, drawn, now).1;
      s.(log := s.log + HandlerEvents(g, db, a),
         made := if reply.Resolved? then s.made + {reply.resolution.pairingComplete} else s.made)
    case Keep(w) => s.(file := Written(g.c, g.endpoints, s.file, w))
  }

  ghost predicate Actions(g: Config, actions: seq<Action>) {
    OwnKey(g.c, g.sign) && forall a | a in actions :: Possible(g, a)
  }

  /** the state after the first n actions */
  ghost function Reached(g: Config, actions: seq<Action>, n: nat): State
    requires Actions(g, actions) && n <= |actions|
  {
    if n == 0 then FIRST else Do(g, Reached(g, actions, n - 1), actions[n - 1])
  }

  // ------------------------------------------------------------------ where completions come from

  lemma OneMore(g: Config, log: seq<Event>, e: Event)
    ensures Tables(g, log + [e]) == Next(g.c, Tables(g, log), e)
  {
    hide Next;
    AfterPrefix(g.c, Origin(g), log, e, |log|);
    assert (log + [e])[|log|] == e;
  }

  /** the transactions of a handler call leave the tables as the handler does */
  lemma HandlerLogged(g: Config, log: seq<Event>, a: Action)
    requires a.Handle?
    ensures var db := Tables(g, log);
            Tables(g, log + HandlerEvents(g, db, a))
            == HandlePairing(g.c, db, g.sign, a.init, a.material, a.drawn, a.now).0
  {
    hide PairingState, BeginPairing, ChallengeFor, ChallengeBounds, Tables, ReplyFor;
    var db := Tables(g, log);
    var challenge := ChallengeFor(g.c, g.sign, a.init, a.material, a.drawn, a.now);
    var shown := log + [ShowPairing(a.init, a.now)];
    OneMore(g, log, ShowPairing(a.init, a.now));
    if PairingState(g.c, db, a.init, a.now).1 == Done(None) && ChallengeBounds(challenge) {
      OneMore(g, shown, OpenPairing(a.init, challenge, a.now));
      assert log + HandlerEvents(g, db, a) == shown + [OpenPairing(a.init, challenge, a.now)];
    } else {
      assert log + HandlerEvents(g, db, a) == shown;
    }
  }

  /** a completion the handler signed repeats an approved row of the tables at some point of the log */
  ghost predicate Backed(g: Config, log: seq<Event>, x: PairingComplete) {
    exists n: nat, p :: n <= |log| && CompletionOf(g.c, After(g.c, Origin(g), log, n), p, x)
  }

  ghost predicate Sane(g: Config, s: State) {
    Run(g.c, s.log) && forall x | x in s.made :: Backed(g, s.log, x)
  }

  lemma BackedGrows(g: Config, log: seq<Event>, e: Event, x: PairingComplete)
    requires Backed(g, log, x)
    ensures Backed(g, log + [e], x)
  {
    hide CompletionOf, After;
    var n: nat, p :| n <= |log| && CompletionOf(g.c, After(g.c, Origin(g), log, n), p, x);
    AfterPrefix(g.c, Origin(g), log, e, n);
    assert CompletionOf(g.c, After(g.c, Origin(g), log + [e], n), p, x);
  }

  lemma TransactKeeps(g: Config, s: State, e: Event)
    requires Sane(g, s) && WellFormed(g.c, e)
    ensures Sane(g, s.(log := s.log + [e]))
  {
    hide Backed, WellFormed;
    forall x | x in s.made ensures Backed(g, s.log + [e], x) { BackedGrows(g, s.log, e, x); }
    forall i | 0 <= i < |s.log| + 1 ensures WellFormed(g.c, (s.log + [e])[i]) {
      assert i < |s.log| ==> (s.log + [e])[i] == s.log[i];
    }
  }

  lemma HandlerKeeps(g: Config, s: State, a: Action)
    requires Sane(g, s) && a.Handle? && Possible(g, a) && OwnKey(g.c, g.sign)
    ensures Sane(g, Do(g, s, a))
  {
    hide Sane, Tables, HandlePairing, CompletionOf, OwnKey, ChallengeFor, ChallengeBounds, PairingState, Backed;
    var db := Tables(g, s.log);
    var challenge := ChallengeFor(g.c, g.sign, a.init, a.material, a.drawn, a.now);
    var shown := s.(log := s.log + [ShowPairing(a.init, a.now)]);
    TransactKeeps(g, s, ShowPairing(a.init, a.now));
    var done := s.(log := s.log + HandlerEvents(g, db, a));
    if PairingState(g.c, db, a.init, a.now).1 == Done(None) && ChallengeBounds(challenge) {
      ChallengeIsValid(g, a);
      TransactKeeps(g, shown, OpenPairing(a.init, challenge, a.now));
      assert done.log == shown.log + [OpenPairing(a.init, challenge, a.now)];
    } else {
      assert done.log == shown.log;
    }
    var reply := HandlePairing(g.c, db, g.sign, a.init, a.material, a.drawn, a.now).1;
    if reply.Resolved? {
      HandlerLogged(g, s.log, a);
      ResolutionRepeatsRow(g.c, db, g.sign, a.init, a.material, a.drawn, a.now);
      NewlyBacked(g, done.log, a.init.pairingId, reply.resolution.pairingComplete);
      MadeGrows(g, done, reply.resolution.pairingComplete);
    }
  }

  lemma ChallengeIsValid(g: Config, a: Action)
    requires a.Handle? && Possible(g, a) && OwnKey(g.c, g.sign)
    requires ChallengeBounds(ChallengeFor(g.c, g.sign, a.init, a.material, a.drawn, a.now))
    ensures WellFormed(g.c, OpenPairing(a.init, ChallengeFor(g.c, g.sign, a.init, a.material, a.drawn, a.now), a.now))
  {
  }

  lemma NewlyBacked(g: Config, log: seq<Event>, p: Id, x: PairingComplete)
    requires CompletionOf(g.c, Tables(g, log), p, x)
    ensures Backed(g, log, x)
  {
    hide CompletionOf, After;
  }

  lemma MadeGrows(g: Config, s: State, x: PairingComplete)
    requires Sane(g, s) && Backed(g, s.log, x)
    ensures Sane(g, s.(made := s.made + {x}))
  {
    hide Backed;
  }

  lemma {:induction false} AlwaysSane(g: Config, actions: seq<Action>, n: nat)
    requires Actions(g, actions) && n <= |actions|
    ensures Sane(g, Reached(g, actions, n))
  {
    hide Sane, Do, Possible, OwnKey;
    if n == 0 {
      FirstSane(g);
    } else {
      AlwaysSane(g, actions, n - 1);
      assert actions[n - 1] in actions;
      StepSane(g, Reached(g, actions, n - 1), actions[n - 1]);
    }
  }

  lemma FirstSane(g: Config)
    ensures Sane(g, FIRST)
  {
  }

  lemma StepSane(g: Config, s: State, a: Action)
    requires Sane(g, s) && Possible(g, a) && OwnKey(g.c, g.sign)
    ensures Sane(g, Do(g, s, a))
  {
    match a
    case Transact(e) => TransactKeeps(g, s, e);
    case Handle(_, _, _, _) => HandlerKeeps(g, s, a);
    case Keep(_) =>
  }

  // ------------------------------------------------------------------ what a paired file means

  /** one write leaves a paired file alone, and makes a file paired only by a commit that succeeds */
  lemma PairedBy(g: Config, file: Option<Profile>, w: Write)
    requires WellFormedWrite(w)
    requires Written(g.c, g.endpoints, file, w).Some? && Written(g.c, g.endpoints, file, w).value.Paired?
    ensures Written(g.c, g.endpoints, file, w) == file
            || (w.Commit? && CommitPaired(g.c, g.endpoints, file, w.pending, w.resolution, w.now).1.Done?
                && Written(g.c, g.endpoints, file, w) == Some(Committed(w.pending, w.resolution)))
  {
    hide PendingValid, MayReplace, VerifyResolution, PairedValid, InitBounds;
  }

  /** a paired file was made by one commit of the run */
  lemma {:induction false} CommitOf(g: Config, actions: seq<Action>, n: nat) returns (m: nat)
    requires Actions(g, actions) && n <= |actions|
    requires Reached(g, actions, n).file.Some? && Reached(g, actions, n).file.value.Paired?
    ensures m < n && actions[m].Keep? && actions[m].write.Commit? && Possible(g, actions[m])
    ensures var w := actions[m].write;
            && CommitPaired(g.c, g.endpoints, Reached(g, actions, m).file, w.pending, w.resolution, w.now).1.Done?
            && w.pending.challenge.Some?
            && Reached(g, actions, n).file == Some(Committed(w.pending, w.resolution))
    decreases n
  {
    hide CommitPaired, Written, WellFormedWrite, HandlePairing, HandlerEvents, OwnKey;
    assert n > 0;
    var before, a := Reached(g, actions, n - 1), actions[n - 1];
    assert a in actions && Possible(g, a);
    if before.file == Reached(g, actions, n).file {
      m := CommitOf(g, actions, n - 1);
    } else {
      m := n - 1;
      PairedBy(g, before.file, a.write);
      CommitHadChallenge(g, before.file, a.write);
    }
  }

  lemma CommitHadChallenge(g: Config, file: Option<Profile>, w: Write)
    requires WellFormedWrite(w) && w.Commit?
    requires CommitPaired(g.c, g.endpoints, file, w.pending, w.resolution, w.now).1.Done?
    ensures w.pending.challenge.Some? && w.pending.leaf.Some? && file == Some(w.pending)
    ensures VerifyResolution(g.c, w.resolution, w.pending.init, w.pending.challenge.value, w.pending.leaf.value, w.now)
  {
    hide VerifyResolution, PairedValid, InitBounds;
  }

  /** a completion that verifies under the Connector's key though its handler has not signed it */
  ghost predicate Forged(g: Config, made: set<PairingComplete>, x: PairingComplete) {
    g.c.verifies(g.c.connectorKey, CompleteRecord(x)) && x !in made
  }

  /** Over any run of both sides: if the VPS's file is paired with the Connector's key, one commit made it so,
      and before that commit the Connector's own handler had signed the completion in it (or it is forged)
      and the owner had approved exactly the init, challenge, leaf and transcript of the file's pending
      request with exactly the grant now in the file (or a hash collides). */
  lemma PairedMeansApproved(g: Config, actions: seq<Action>, n: nat) returns (m: nat, h: nat)
    requires Actions(g, actions) && n <= |actions|
    requires var file := Reached(g, actions, n).file;
             file.Some? && file.value.Paired? && file.value.connectorKey == g.c.connectorKey
    ensures m < n && actions[m].Keep? && actions[m].write.Commit?
    ensures var file, before, w := Reached(g, actions, n).file, Reached(g, actions, m), actions[m].write;
            var pending := w.pending;
            && pending.Pending? && pending.challenge.Some? && pending.leaf.Some?
            && before.file == Some(pending) && file == Some(Committed(pending, w.resolution))
            && (|| Forged(g, before.made, file.value.complete)
                || (file.value.complete in before.made
                    && h < |before.log| && ApprovedAt(g.c, Origin(g), before.log, h)
                    && ApprovedThis(g, before.log, h, pending.init, pending.challenge.value, pending.leaf.value,
                                    file.value.grant)))
  {
    hide Actions, Do, VerifyResolution, CommitPaired, ApprovedAt, OwnKey, CompletionOf, ApprovedThis;
    m := CommitOf(g, actions, n);
    h := 0;
    var before, w := Reached(g, actions, m), actions[m].write;
    CommitHadChallenge(g, before.file, w);
    var complete := w.resolution.pairingComplete;
    CompletionVerifies(g, w.resolution, w.pending.init, w.pending.challenge.value, w.pending.leaf.value, w.now);
    if complete in before.made {
      AlwaysSane(g, actions, m);
      assert Backed(g, before.log, complete);
      var k: nat, p :| k <= |before.log| && CompletionOf(g.c, After(g.c, Origin(g), before.log, k), p, complete);
      h := AgreementAt(g, before.log, k, p, w);
    }
  }

  lemma CompletionVerifies(
    g: Config, r: PairingResolution, init: PairingInit, challenge: PairingChallenge, leaf: string, now: int)
    requires VerifyResolution(g.c, r, init, challenge, leaf, now)
    ensures g.c.verifies(challenge.connectorPublicKey, CompleteRecord(r.pairingComplete))
  {
    hide VerifyInit, VerifyChallenge, VerifyGrant;
  }

  /** the approval at this point of the log is of exactly this exchange, with exactly this grant, which repeats
      what was requested; or a hash collides */
  ghost predicate ApprovedThis(
    g: Config, log: seq<Event>, h: nat, init: PairingInit, challenge: PairingChallenge, leaf: string,
    grant: SignedGrant)
    requires h < |log| && ApprovedAt(g.c, Origin(g), log, h)
  {
    log[h].pairingId in After(g.c, Origin(g), log, h).pairings
    && var x := After(g.c, Origin(g), log, h).pairings[log[h].pairingId].exchange;
    || HashCollision(g.c, init, challenge, leaf, x, grant, log[h].grant)
    || (x.init == init && x.challenge == challenge && log[h].pairingId == init.pairingId
        && log[h].transcript == g.c.transcript(init, challenge, leaf) && log[h].grant == grant
        && grant.claims.revision == 1 && grant.claims.scopes == init.requestedScopes
        && grant.claims.expiresAt == init.grantExpiresAt && grant.claims.maxUses == init.grantMaxUses)
  }

  lemma AgreementAt(g: Config, log: seq<Event>, k: nat, p: Id, w: Write) returns (h: nat)
    requires Run(g.c, log) && k <= |log| && w.Commit? && w.pending.Pending?
    requires w.pending.challenge.Some? && w.pending.leaf.Some?
    requires VerifyResolution(g.c, w.resolution, w.pending.init, w.pending.challenge.value, w.pending.leaf.value, w.now)
    requires CompletionOf(g.c, After(g.c, Origin(g), log, k), p, w.resolution.pairingComplete)
    ensures h < |log| && ApprovedAt(g.c, Origin(g), log, h)
    ensures ApprovedThis(g, log, h, w.pending.init, w.pending.challenge.value, w.pending.leaf.value,
                         w.resolution.signedGrant)
  {
    hide CompletionOf, VerifyResolution, HashCollision, Next, Run;
    h := PairingAgreement(g.c, g.policyDigest, g.created, log, k, p, w.pending.init, w.pending.challenge.value,
                          w.pending.leaf.value, w.resolution, w.now);
    ApprovedRow(g, log, h);
  }

  lemma ApprovedRow(g: Config, log: seq<Event>, h: nat)
    requires h < |log| && ApprovedAt(g.c, Origin(g), log, h)
    ensures log[h].pairingId in After(g.c, Origin(g), log, h).pairings
  {
    hide ApprovalDone, After;
    ApprovalFacts(g.c, After(g.c, Origin(g), log, h), log[h].pairingId, log[h].deviceId, log[h].transcript,
                  log[h].grant, log[h].now);
  }
}
