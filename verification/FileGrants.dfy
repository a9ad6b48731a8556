/** One-use grants for local files (connector/media_policy.py, ProcessLocalFileGrants): a registry whose
    operations check, act outside the lock and check again, and what holds over every interleaving of
    their lock sections. */
module FileGrants {
  import opened Prelude
  import opened Limits
  import opened Errors
  import opened Records

  /** the terms of a proposal, which the grant repeats */
  datatype Proposal = Proposal(
    fileGrantId: Id, subjectKeyId: Id, digest: string, size: int, source: string, operation: string,
    grantRevision: int, policyRevision: int, issuedAt: int, expiresAt: int)

  /** what a hashed descriptor looked like: path, digest, size and identity */
  datatype Snapshot = Snapshot(path: string, digest: string, size: int, identity: int)

  datatype PendingFile = PendingFile(proposal: Proposal, snapshot: Snapshot)

  datatype Registry = Registry(
    pending: map<Id, PendingFile>, granted: map<Id, PendingFile>, generation: nat, closed: bool)

  const EMPTY := Registry(map[], map[], 0, false)

  // ------------------------------------------------------------------ the lock sections

  /** the first section of propose: the generation to come back with; None where it raises */
  function Open(r: Registry): Option<nat> {
    if r.closed then None else Some(r.generation)
  }

  /** the second section of propose */
  function Commit(r: Registry, generation: nat, file: PendingFile): Option<Registry> {
    var id := file.proposal.fileGrantId;
    if r.closed || generation != r.generation || id in r.pending || id in r.granted then None
    else Some(r.(pending := r.pending[id := file]))
  }

  /** discard */
  function Discard(r: Registry, p: Proposal): Option<Registry> {
    if p.fileGrantId !in r.pending || r.pending[p.fileGrantId].proposal != p then None
    else Some(r.(pending := r.pending - {p.fileGrantId}))
  }

  /** the first section of approve: the proposal is taken out whatever follows */
  function Take(r: Registry, id: Id): (Registry, Option<PendingFile>) {
    if r.closed || id !in r.pending then (r, None)
    else (r.(pending := r.pending - {id}), Some(r.pending[id]))
  }

  /** the second section of approve */
  function Grant(r: Registry, generation: nat, file: PendingFile): Option<Registry> {
    var id := file.proposal.fileGrantId;
    if r.closed || generation != r.generation || id in r.granted then None
    else Some(r.(granted := r.granted[id := file]))
  }

  /** the section of consume: the mapping is spent before it is revalidated */
  function Spend(r: Registry, id: Id): (Registry, Option<PendingFile>) {
    if r.closed || id !in r.granted then (r, None)
    else (r.(granted := r.granted - {id}), Some(r.granted[id]))
  }

  function Clear(r: Registry): Registry {
    Registry(map[], map[], r.generation + 1, true)
  }

  // ------------------------------------------------------------------ interleavings

  /** an operation between its two sections: what it read in the first */
  datatype Ticket = Ticket(generation: nat, file: PendingFile)

  /** Operations in flight are keyed by the identifier they hold. `granted` and `spent` list every mapping
      that entered and left the granted table, in order; `proposed` is what each identifier was committed
      with. */
  datatype State = State(
    registry: Registry, proposing: map<Id, Ticket>, approving: map<Id, Ticket>, drawn: set<Id>,
    proposed: map<Id, PendingFile>, granted: seq<PendingFile>, spent: seq<PendingFile>)

  const FIRST := State(EMPTY, map[], map[], {}, map[], [], [])

  datatype Action =
    | BeginPropose(file: PendingFile)
    | EndPropose(id: Id, hashed: bool)       // `hashed`: opening and the proposal's checks succeeded
    | DiscardProposal(proposal: Proposal)
    | BeginApprove(proposal: Proposal)
    | EndApprove(id: Id, intact: bool)    // `intact`: time, snapshot and grant checks succeeded
    | Consume(id: Id)
    | ClearAll

  function IdOf(f: PendingFile): Id {
    f.proposal.fileGrantId
  }

  /** One lock section. Identifiers are fresh: a propose that draws one already drawn does not happen. */
  function Do(s: State, a: Action): State {
    match a
    case BeginPropose(file) =>
      var generation := Open(s.registry);
      if generation.None? || IdOf(file) in s.drawn then s
      else
        s.(proposing := s.proposing[IdOf(file) := Ticket(generation.value, file)], drawn := s.drawn + {IdOf(file)})
    case EndPropose(id, hashed) =>
      if id !in s.proposing then s
      else
        var rest := s.(proposing := s.proposing - {id});
        var t := s.proposing[id];
        var committed := Commit(s.registry, t.generation, t.file);
        if !hashed || committed.None? then rest
        else rest.(registry := committed.value, proposed := s.proposed[id := t.file])
    case DiscardProposal(p) =>
      var left := Discard(s.registry, p);
      if left.None? then s else s.(registry := left.value)
    case BeginApprove(p) =>
      var generation := Open(s.registry);
      var (left, file) := Take(s.registry, p.fileGrantId);
      if generation.None? || file.None? then s
      else if file.value.proposal != p then s.(registry := left)
      else s.(registry := left, approving := s.approving[p.fileGrantId := Ticket(generation.value, file.value)])
    case EndApprove(id, intact) =>
      if id !in s.approving then s
      else
        var rest := s.(approving := s.approving - {id});
        var t := s.approving[id];
        var committed := Grant(s.registry, t.generation, t.file);
        if !intact || committed.None? then rest
        else rest.(registry := committed.value, granted := s.granted + [t.file])
    case Consume(id) =>
      var (left, file) := Spend(s.registry, id);
      if file.None? then s else s.(registry := left, spent := s.spent + [file.value])
    case ClearAll => s.(registry := Clear(s.registry))
  }

  function Reached(actions: seq<Action>, n: nat): State
    requires n <= |actions|
  {
    if n == 0 then FIRST else Do(Reached(actions, n - 1), actions[n - 1])
  }

  // ------------------------------------------------------------------ the invariant

  ghost function Ids(files: seq<PendingFile>): set<Id> {
    set f | f in files :: IdOf(f)
  }

  ghost predicate OnceEach(files: seq<PendingFile>) {
    forall i, j | 0 <= i < j < |files| :: IdOf(files[i]) != IdOf(files[j])
  }

  /** An identifier is in one place at a time: being proposed, pending, being approved, granted, or spent;
      and what is there is what was committed under it. */
  ghost predicate PlaceOk(s: State, id: Id) {
    && (id in s.proposing ==> id in s.drawn && id !in s.proposed && IdOf(s.proposing[id].file) == id)
    && (id in s.proposed ==> id in s.drawn && IdOf(s.proposed[id]) == id)
    && (id in s.registry.pending ==>
          id in s.proposed && id !in s.approving && id !in Ids(s.granted) && s.registry.pending[id] == s.proposed[id])
    && (id in s.approving ==> id in s.proposed && id !in Ids(s.granted) && s.approving[id].file == s.proposed[id])
    && (id in Ids(s.granted) ==> id in s.proposed && s.proposed[id] in s.granted)
    && (id in s.registry.granted ==>
          id in Ids(s.granted) && id !in Ids(s.spent) && id in s.proposed && s.registry.granted[id] == s.proposed[id])
    && (id in Ids(s.spent) ==> id in Ids(s.granted) && id in s.proposed && s.proposed[id] in s.spent)
  }

  ghost predicate Sane(s: State) {
    && (forall id: Id :: PlaceOk(s, id))
    && OnceEach(s.granted) && OnceEach(s.spent)
    && (forall f | f in s.granted :: IdOf(f) in s.proposed && s.proposed[IdOf(f)] == f)
    && (forall f | f in s.spent :: IdOf(f) in s.proposed && s.proposed[IdOf(f)] == f)
    && (s.registry.closed ==> s.registry.pending == map[] && s.registry.granted == map[])
  }

  lemma IdsSnoc(files: seq<PendingFile>, f: PendingFile)
    ensures Ids(files + [f]) == Ids(files) + {IdOf(f)}
  {
    assert forall g :: g in files + [f] <==> g in files || g == f;
  }

  lemma OnceSnoc(files: seq<PendingFile>, f: PendingFile)
    requires OnceEach(files) && IdOf(f) !in Ids(files)
    ensures OnceEach(files + [f])
  {
    forall i | 0 <= i < |files| ensures IdOf(files[i]) != IdOf(f) {
      assert files[i] in files;
      assert IdOf(files[i]) in Ids(files);
    }
  }

  lemma ProposeSane(s: State, a: Action)
    requires Sane(s) && (a.BeginPropose? || a.EndPropose? || a.DiscardProposal?)
    ensures Sane(Do(s, a))
  {
    hide Ids, OnceEach;
    forall id: Id ensures PlaceOk(Do(s, a), id) {
      assert PlaceOk(s, id);
      if a.EndPropose? { assert PlaceOk(s, a.id); }
    }
    if a.EndPropose? { assert PlaceOk(s, a.id); }
  }

  lemma BeginApproveSane(s: State, a: Action)
    requires Sane(s) && a.BeginApprove?
    ensures Sane(Do(s, a))
  {
    hide Ids, OnceEach;
    forall id: Id ensures PlaceOk(Do(s, a), id) {
      assert PlaceOk(s, id);
      assert PlaceOk(s, a.proposal.fileGrantId);
    }
  }

  lemma EndApproveSane(s: State, a: Action)
    requires Sane(s) && a.EndApprove?
    ensures Sane(Do(s, a))
  {
    assert PlaceOk(s, a.id);
    if a.id in s.approving {
      IdsSnoc(s.granted, s.approving[a.id].file);
      OnceSnoc(s.granted, s.approving[a.id].file);
    }
    hide Ids, OnceEach;
    forall id: Id ensures PlaceOk(Do(s, a), id) { assert PlaceOk(s, id); }
  }

  lemma ConsumeSane(s: State, a: Action)
    requires Sane(s) && (a.Consume? || a.ClearAll?)
    ensures Sane(Do(s, a))
  {
    if a.Consume? && a.id in s.registry.granted {
      assert PlaceOk(s, a.id);
      IdsSnoc(s.spent, s.registry.granted[a.id]);
      OnceSnoc(s.spent, s.registry.granted[a.id]);
    }
    hide Ids, OnceEach;
    forall id: Id ensures PlaceOk(Do(s, a), id) { assert PlaceOk(s, id); }
  }

  lemma StepSane(s: State, a: Action)
    requires Sane(s)
    ensures Sane(Do(s, a))
  {
    hide Sane, Do;
    match a
    case BeginPropose(_) => ProposeSane(s, a);
    case EndPropose(_, _) => ProposeSane(s, a);
    case DiscardProposal(_) => ProposeSane(s, a);
    case BeginApprove(_) => BeginApproveSane(s, a);
    case EndApprove(_, _) => EndApproveSane(s, a);
    case _ => ConsumeSane(s, a);
  }

  lemma {:induction false} AlwaysSane(actions: seq<Action>, n: nat)
    requires n <= |actions|
    ensures Sane(Reached(actions, n))
  {
    hide Do;
    if n == 0 {
      assert Ids([]) == {};
    } else {
      hide Sane;
      AlwaysSane(actions, n - 1);
      StepSane(Reached(actions, n - 1), actions[n - 1]);
    }
  }

  // ------------------------------------------------------------------ the promises

  /** Over every interleaving a proposal enters the granted table at most once, with exactly the terms and
      the snapshot it was committed with; and a grant leaves it to be consumed at most once, and only
      after it was granted. */
  lemma GrantedAndSpentOnce(actions: seq<Action>, n: nat)
    requires n <= |actions|
    ensures var s := Reached(actions, n);
            && OnceEach(s.granted) && OnceEach(s.spent)
            && (forall f | f in s.granted :: IdOf(f) in s.proposed && s.proposed[IdOf(f)] == f)
            && (forall f | f in s.spent :: f in s.granted)
            && (forall id | id in s.registry.granted ::
                  s.registry.granted[id] in s.granted && s.registry.granted[id] !in s.spent)
  {
    hide Reached;
    AlwaysSane(actions, n);
    var s := Reached(actions, n);
    forall f | f in s.spent ensures f in s.granted {
      assert IdOf(f) in Ids(s.spent) && PlaceOk(s, IdOf(f));
    }
    forall id | id in s.registry.granted
      ensures s.registry.granted[id] in s.granted && s.registry.granted[id] !in s.spent
    {
      assert PlaceOk(s, id);
      forall f | f in s.spent ensures f != s.registry.granted[id] { assert IdOf(f) in Ids(s.spent); }
    }
  }

  predicate Shut(s: State) {
    s.registry.closed && s.registry.pending == map[] && s.registry.granted == map[]
  }

  lemma StepShut(s: State, a: Action)
    requires Shut(s)
    ensures Shut(Do(s, a)) && Do(s, a).granted == s.granted && Do(s, a).spent == s.spent
    ensures Do(s, a).proposed == s.proposed
  {
  }

  /** After a clear both tables stay empty forever, and nothing is committed, granted or consumed again,
      whatever was in flight. */
  lemma {:induction false} ClearIsFinal(actions: seq<Action>, k: nat, n: nat)
    requires k < n <= |actions| && actions[k].ClearAll?
    ensures Shut(Reached(actions, n))
    ensures Reached(actions, n).granted == Reached(actions, k).granted
    ensures Reached(actions, n).spent == Reached(actions, k).spent
    ensures Reached(actions, n).proposed == Reached(actions, k).proposed
    decreases n
  {
    if n > k + 1 {
      hide Do;
      ClearIsFinal(actions, k, n - 1);
      StepShut(Reached(actions, n - 1), actions[n - 1]);
    }
  }

  /** The way through: from any reachable open state a fresh identifier is proposed, granted and consumed exactly
      as its checks allow, with nothing between the sections. */
  lemma GrantPath(actions: seq<Action>, n: nat, file: PendingFile, hashed: bool, intact: bool)
    requires n <= |actions| && !Reached(actions, n).registry.closed && IdOf(file) !in Reached(actions, n).drawn
    ensures var s, id := Reached(actions, n), IdOf(file);
            var proposed := Do(Do(s, BeginPropose(file)), EndPropose(id, hashed));
            var approved := Do(Do(proposed, BeginApprove(file.proposal)), EndApprove(id, intact));
            var consumed := Do(approved, Consume(id));
            && (if hashed then proposed.registry.pending == s.registry.pending[id := file]
                else proposed.registry == s.registry)
            && approved.registry == (if hashed && intact
                                     then s.registry.(granted := s.registry.granted[id := file]) else s.registry)
            && approved.granted == (if hashed && intact then s.granted + [file] else s.granted)
            && consumed.registry == s.registry
            && consumed.spent == if hashed && intact then s.spent + [file] else s.spent
  {
    hide Do, Sane;
    AlwaysSane(actions, n);
    var s, id := Reached(actions, n), IdOf(file);
    Undrawn(s, id);
    ProposePath(s, file, hashed);
    var proposed := Do(Do(s, BeginPropose(file)), EndPropose(id, hashed));
    ApprovePath(proposed, file, intact);
    ConsumePath(Do(Do(proposed, BeginApprove(file.proposal)), EndApprove(id, intact)), id);
    assert s.registry.pending[id := file] - {id} == s.registry.pending;
    assert s.registry.granted[id := file] - {id} == s.registry.granted;
    assert s.registry.pending - {id} == s.registry.pending && s.registry.granted - {id} == s.registry.granted;
  }

  /** an identifier that was never drawn is nowhere */
  lemma Undrawn(s: State, id: Id)
    requires Sane(s) && id !in s.drawn
    ensures id !in s.proposing && id !in s.registry.pending && id !in s.approving && id !in s.registry.granted
  {
    assert PlaceOk(s, id);
  }

  lemma ProposePath(s: State, file: PendingFile, hashed: bool)
    requires !s.registry.closed && IdOf(file) !in s.drawn && IdOf(file) !in s.proposing
    requires IdOf(file) !in s.registry.pending && IdOf(file) !in s.registry.granted
    ensures var s' := Do(Do(s, BeginPropose(file)), EndPropose(IdOf(file), hashed));
            && s'.registry == (if hashed then s.registry.(pending := s.registry.pending[IdOf(file) := file])
                               else s.registry)
            && s'.approving == s.approving && s'.granted == s.granted && s'.spent == s.spent
  {
  }

  /** a pending proposal approved, or one that is not there */
  lemma ApprovePath(s: State, file: PendingFile, intact: bool)
    requires !s.registry.closed && IdOf(file) !in s.registry.granted && IdOf(file) !in s.approving
    requires IdOf(file) in s.registry.pending ==> s.registry.pending[IdOf(file)] == file
    ensures var id := IdOf(file);
            var s' := Do(Do(s, BeginApprove(file.proposal)), EndApprove(id, intact));
            var done := intact && id in s.registry.pending;
            && s'.registry == s.registry.(
                 pending := s.registry.pending - {id},
                 granted := if done then s.registry.granted[id := file] else s.registry.granted)
            && s'.granted == (if done then s.granted + [file] else s.granted) && s'.spent == s.spent
  {
    assert IdOf(file) !in s.registry.pending ==> s.registry.pending - {IdOf(file)} == s.registry.pending;
  }

  lemma ConsumePath(s: State, id: Id)
    requires !s.registry.closed
    ensures var s' := Do(s, Consume(id));
            && s'.registry == s.registry.(granted := s.registry.granted - {id})
            && s'.spent == if id in s.registry.granted then s.spent + [s.registry.granted[id]] else s.spent
  {
    assert id !in s.registry.granted ==> s.registry.granted - {id} == s.registry.granted;
  }

  // ------------------------------------------------------------------ the registry object

  /** what opening a file again shows: the snapshot, or nothing when the file cannot be opened */
  type Reopened = Option<Snapshot>

  /** the checks of propose outside the lock */
  function ProposalExpiry(now: int, expiresAt: Option<int>): Option<int> {
    var expiry := if expiresAt.None? then now + DEFAULT_FILE_GRANT_TTL_SECONDS else expiresAt.value;
    if now < expiry && expiry - now <= MAX_FILE_GRANT_TTL_SECONDS then Some(expiry) else None
  }

  class ProcessLocalFileGrants {
    var pending: map<Id, PendingFile>
    var granted: map<Id, PendingFile>
    var generation: nat
    var closed: bool

    function Contents(): Registry
      reads this
    {
      Registry(pending, granted, generation, closed)
    }

    constructor ()
      ensures Contents() == EMPTY
    {
      pending, granted, generation, closed := map[], map[], 0, false;
    }

    // The lock sections, one method each. Between two of them any others may run: GrantedAndSpentOnce and
    // ClearIsFinal are about every such interleaving of exactly these steps.

    /** the first section of propose: the generation its second section will ask for */
    method OpenProposal() returns (before: Option<nat>)
      ensures before == Open(Contents()) && before == if closed then None else Some(generation)
    {
      return if closed then None else Some(generation);
    }

    /** the second section of propose, whatever ran since the first */
    method CommitProposal(before: nat, file: PendingFile) returns (ok: bool)
      modifies this`pending
      ensures var after := Commit(old(Contents()), before, file);
              ok == after.Some? && Contents() == if ok then after.value else old(Contents())
      ensures ok <==> !closed && before == generation && IdOf(file) !in old(pending) && IdOf(file) !in granted
      ensures pending == if ok then old(pending)[IdOf(file) := file] else old(pending)
    {
      var id := IdOf(file);
      if closed || before != generation || id in pending || id in granted { return false; }
      pending := pending[id := file];
      return true;
    }

    /** the second section of approve, whatever ran since the first */
    method GrantFile(before: nat, file: PendingFile) returns (ok: bool)
      modifies this`granted
      ensures var after := Grant(old(Contents()), before, file);
              ok == after.Some? && Contents() == if ok then after.value else old(Contents())
      ensures ok <==> !closed && before == generation && IdOf(file) !in old(granted)
      ensures granted == if ok then old(granted)[IdOf(file) := file] else old(granted)
    {
      if closed || before != generation || IdOf(file) in granted { return false; }
      granted := granted[IdOf(file) := file];
      return true;
    }

    /** the first section of approve */
    method TakeProposal(id: Id) returns (file: Option<PendingFile>)
      modifies this`pending
      ensures (Contents(), file) == Take(old(Contents()), id)
      ensures file == if !closed && id in old(pending) then Some(old(pending)[id]) else None
      ensures pending == if file.Some? then old(pending) - {id} else old(pending)
    {
      if closed || id !in pending { return None; }
      file := Some(pending[id]);
      pending := pending - {id};
    }

    /** propose when no other section comes between its two, so that their recheck cannot fail: the file is
        pending under its identifier exactly when every check passes, and otherwise nothing changes */
    method Propose(
      terms: Proposal, snapshot: Reopened, maximumBytes: int, now: int, expiresAt: Option<int>, id: Id)
      returns (proposal: Option<Proposal>)
      modifies this`pending
      ensures var expiry := if expiresAt.None? then now + 600 else expiresAt.value;
              if old(closed) || !(0 < maximumBytes <= MAX_FILE_BYTES) || !(now < expiry <= now + 1800) || snapshot.None?
                 || snapshot.value.size > maximumBytes || id in old(pending) || id in old(granted)
              then proposal.None? && Contents() == old(Contents())
              else
                && proposal.Some? && proposal.value.fileGrantId == id
                && proposal.value.digest == snapshot.value.digest && proposal.value.size == snapshot.value.size
                && proposal.value.issuedAt == now && proposal.value.expiresAt == expiry
                && proposal.value.subjectKeyId == terms.subjectKeyId && proposal.value.source == terms.source
                && proposal.value.operation == terms.operation && proposal.value.grantRevision == terms.grantRevision
                && proposal.value.policyRevision == terms.policyRevision
                && pending == old(pending)[id := PendingFile(proposal.value, snapshot.value)]
    {
      var before := OpenProposal();
      if before.None? { return None; }
      if !(0 < maximumBytes <= MAX_FILE_BYTES) { return None; }
      var expiry := ProposalExpiry(now, expiresAt);
      if expiry.None? || snapshot.None? || snapshot.value.size > maximumBytes { return None; }
      var made := terms.(fileGrantId := id, digest := snapshot.value.digest, size := snapshot.value.size,
                         issuedAt := now, expiresAt := expiry.value);
      var kept := CommitProposal(before.value, PendingFile(made, snapshot.value));
      return if kept then Some(made) else None;
    }

    method DiscardOne(proposal: Proposal) returns (ok: bool)
      modifies this`pending
      ensures var left := Discard(old(Contents()), proposal);
              ok == left.Some? && Contents() == if ok then left.value else old(Contents())
      ensures ok <==> proposal.fileGrantId in old(pending) && old(pending)[proposal.fileGrantId].proposal == proposal
      ensures pending == if ok then old(pending) - {proposal.fileGrantId} else old(pending)
    {
      var id := proposal.fileGrantId;
      if id !in pending || pending[id].proposal != proposal { return false; }
      pending := pending - {id};
      return true;
    }

    /** approve when no other section comes between its two: the proposal is gone either way, and becomes a grant
        exactly when it is the pending one, is not expired and its file is the same */
    method Approve(proposal: Proposal, now: int, current: Reopened, grantable: bool) returns (code: Option<ErrorCode>)
      modifies this`pending, this`granted
      ensures var id := proposal.fileGrantId;
              if closed || id !in old(pending)
              then code == Some(FileGrantInvalid) && pending == old(pending) && granted == old(granted)
              else
                var file := old(pending)[id];
                && pending == old(pending) - {id}
                && code == (if file.proposal != proposal || now >= proposal.expiresAt || current.None?
                            then Some(FileGrantInvalid)
                            else if current.value != file.snapshot then Some(FileChanged)
                            else if !grantable || id in old(granted) then Some(FileGrantInvalid)
                            else None)
                && granted == if code.None? then old(granted)[id := file] else old(granted)
    {
      if closed { return Some(FileGrantInvalid); }
      var before := generation;
      var file := TakeProposal(proposal.fileGrantId);
      if file.None? || file.value.proposal != proposal { return Some(FileGrantInvalid); }
      if now >= proposal.expiresAt || current.None? { return Some(FileGrantInvalid); }
      if current.value != file.value.snapshot { return Some(FileChanged); }
      if !grantable { return Some(FileGrantInvalid); }
      var done := GrantFile(before, file.value);
      return if done then None else Some(FileGrantInvalid);
    }

    /** consume: the mapping is spent even if what follows fails */
    method ConsumeOne(id: Id, verified: bool, current: Reopened)
      returns (file: Option<PendingFile>, code: Option<ErrorCode>)
      modifies this`granted
      ensures Contents() == Spend(old(Contents()), id).0
      ensures if closed || id !in old(granted)
              then file.None? && code == Some(FileGrantInvalid) && granted == old(granted)
              else
                var mapping := old(granted)[id];
                && granted == old(granted) - {id}
                && code == (if IdOf(mapping) != id || !verified || current.None? then Some(FileGrantInvalid)
                            else if current.value != mapping.snapshot then Some(FileChanged)
                            else None)
                && file == if code.None? then Some(mapping) else None
    {
      if closed || id !in granted { return None, Some(FileGrantInvalid); }
      var mapping := granted[id];
      granted := granted - {id};
      if IdOf(mapping) != id || !verified || current.None? { return None, Some(FileGrantInvalid); }
      if current.value != mapping.snapshot { return None, Some(FileChanged); }
      return Some(mapping), None;
    }

    method ClearEverything()
      modifies this
      ensures Contents() == Clear(old(Contents()))
      ensures closed && generation == old(generation) + 1 && pending == map[] && granted == map[]
    {
      closed := true;
      generation := generation + 1;
      pending, granted := map[], map[];
    }
  }
}
