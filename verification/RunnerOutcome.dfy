/** What bounding keeps, what one attempt comes to and which bindings are tried, to the character, the code and the
    position (runtime/runner.py): nothing is cut, refused or skipped that need not be. */
module RunnerOutcome {
  import opened Prelude
  import opened Records
  import opened Normalized
  import opened Runner

  // ------------------------------------------------------------------ one item

  /** an identity is kept whole when it is within its maximum and what is left, and dropped otherwise */
  predicate WholeOrNone(a: Option<string>, b: Option<string>, maximum: nat, left: int) {
    a == if b.Some? && |b.value| <= maximum && |b.value| <= left then b else None
  }

  /** a display string is its longest beginning within its maximum and what is left; none when nothing is left */
  predicate LongestStart(a: Option<string>, b: Option<string>, maximum: nat, left: int) {
    if b.None? || left <= 0 then a.None?
    else
      && a.Some? && a.value <= b.value
      && (a.value == b.value || |a.value| == maximum || |a.value| == left)
      && |a.value| <= maximum && |a.value| <= left
  }

  predicate MediaWholeOrNone(a: Option<ResultMedia>, b: Option<ResultMedia>, left: int) {
    a == if b.Some? && MediaCharacters(b.value) <= left then b else None
  }

  function MediaLength(m: Option<ResultMedia>): int {
    if m.Some? then MediaCharacters(m.value) else 0
  }

  /** the output keeps all of the input that this budget has room for, field after field: the kind, the two
      identities, the three display strings, the media and the text */
  predicate KeepsAll(a: ResultItem, b: ResultItem, budget: int) {
    && a.kind == b.kind
    && var left := budget - |b.kind|;
    && WholeOrNone(a.nativeId, b.nativeId, 512, left)
    && var left := left - OptionalLength(a.nativeId);
    && WholeOrNone(a.url, b.url, 4096, left)
    && var left := left - OptionalLength(a.url);
    && LongestStart(a.title, b.title, 512, left)
    && var left := left - OptionalLength(a.title);
    && LongestStart(a.author, b.author, 256, left)
    && var left := left - OptionalLength(a.author);
    && LongestStart(a.publishedAt, b.publishedAt, 128, left)
    && var left := left - OptionalLength(a.publishedAt);
    && MediaWholeOrNone(a.media, b.media, left)
    && var left := left - MediaLength(a.media);
    && a.text <= b.text && |a.text| <= left && (a.text == b.text || |a.text| == left)
  }

  lemma IdentityKeeps(value: Option<string>, maximum: nat, left: nat, flag: bool)
    ensures var c := Identity(value, maximum, left, flag);
            WholeOrNone(c.value, value, maximum, left) && c.remaining == left - OptionalLength(c.value)
  {
  }

  lemma DisplayKeeps(value: Option<string>, maximum: nat, left: nat, flag: bool)
    ensures var c := Display(value, maximum, left, flag);
            LongestStart(c.value, value, maximum, left) && c.remaining == left - OptionalLength(c.value)
  {
  }

  lemma MediaKeeps(media: Option<ResultMedia>, left: nat, flag: bool)
    ensures var c := MediaCut(media, left, flag);
            MediaWholeOrNone(c.value, media, left) && c.remaining == left - MediaLength(c.value)
  {
    hide MediaCharacters;
  }

  lemma ItemKeepsAll(item: ResultItem, budget: nat)
    requires |item.kind| <= budget
    ensures KeepsAll(BoundItem(item, budget).value, item, budget)
  {
    hide Identity, Display, MediaCut, MediaCharacters, WholeOrNone, LongestStart, MediaWholeOrNone, OptionalLength,
         MediaLength;
    var start: nat := budget - |item.kind|;
    var id := Identity(item.nativeId, 512, start, false);
    var url := Identity(item.url, 4096, id.remaining, id.truncated);
    var title := Display(item.title, 512, url.remaining, url.truncated);
    var author := Display(item.author, 256, title.remaining, title.truncated);
    var published := Display(item.publishedAt, 128, author.remaining, author.truncated);
    IdentityKeeps(item.nativeId, 512, start, false);
    IdentityKeeps(item.url, 4096, id.remaining, id.truncated);
    DisplayKeeps(item.title, 512, url.remaining, url.truncated);
    DisplayKeeps(item.author, 256, title.remaining, title.truncated);
    DisplayKeeps(item.publishedAt, 128, author.remaining, author.truncated);
    MediaKeeps(item.media, published.remaining, published.truncated);
  }

  // ------------------------------------------------------------------ one result

  /** what the items before the i-th leave of the character limit */
  function Left(out: seq<ResultItem>, i: nat, limit: nat): int
    requires i <= |out|
  {
    limit - ResultCharacters(out[..i])
  }

  ghost predicate FillKeeps(selected: seq<ResultItem>, n: nat, limit: nat, p: Progress)
    requires n <= |selected|
  {
    && |p.items| <= n && p.used == ResultCharacters(p.items)
    && (p.open <==> |p.items| == n)
    && (forall i | 0 <= i < |p.items| :: KeepsAll(p.items[i], selected[i], Left(p.items, i, limit)))
    && (!p.open ==> Left(p.items, |p.items|, limit) < |selected[|p.items|].kind|)
  }

  lemma {:induction false} FilledKeeps(selected: seq<ResultItem>, n: nat, limit: nat, truncated: bool)
    requires n <= |selected|
    ensures FillKeeps(selected, n, limit, Fill(selected, n, limit, truncated))
  {
    hide BoundItem, KeepsAll, ItemCharacters, Fill, FillKeeps, ResultCharacters;
    if n == 0 {
      NothingKept(selected, limit, truncated);
    } else {
      var p := Fill(selected, n - 1, limit, truncated);
      FilledKeeps(selected, n - 1, limit, truncated);
      FillStep(selected, n, limit, truncated);
      if p.open && limit - p.used >= |selected[n - 1].kind| {
        var c := BoundItem(selected[n - 1], limit - p.used);
        ItemKeepsAll(selected[n - 1], limit - p.used);
        OneMoreKept(selected, n, limit, p, c.value, p.truncated || c.truncated);
      } else {
        NoMoreKept(selected, n, limit, p);
      }
    }
  }

  lemma NothingKept(selected: seq<ResultItem>, limit: nat, truncated: bool)
    ensures FillKeeps(selected, 0, limit, Fill(selected, 0, limit, truncated))
  {
  }

  lemma OneMoreKept(
    selected: seq<ResultItem>, n: nat, limit: nat, p: Progress, item: ResultItem, truncated: bool)
    requires 0 < n <= |selected| && p.open && FillKeeps(selected, n - 1, limit, p)
    requires KeepsAll(item, selected[n - 1], limit - p.used)
    ensures FillKeeps(selected, n, limit, Progress(p.items + [item], p.used + ItemCharacters(item), truncated, true))
  {
    hide KeepsAll, ResultCharacters, ItemCharacters;
    var items := p.items + [item];
    CharactersSnoc(p.items, item);
    assert p.items[..|p.items|] == p.items;
    forall i | 0 <= i < n ensures KeepsAll(items[i], selected[i], Left(items, i, limit)) {
      assert items[..i] == p.items[..i];
    }
  }

  lemma NoMoreKept(selected: seq<ResultItem>, n: nat, limit: nat, p: Progress)
    requires 0 < n <= |selected| && FillKeeps(selected, n - 1, limit, p)
    requires p.open ==> limit - p.used < |selected[n - 1].kind|
    ensures FillKeeps(selected, n, limit, p.(truncated := p.truncated || p.open, open := false))
  {
    hide KeepsAll, ResultCharacters;
    assert p.items[..|p.items|] == p.items;
  }

  /** Bounding is as generous as the limits allow: every item in the output keeps all that the budget left by the
      items before it has room for, and the output ends only at the end of the input, at the item limit, or before
      an item whose very kind is longer than what is left. */
  lemma BoundedKeepsAll(r: AdapterResult, l: Runner.Limits)
    ensures var out := Bounded(r, l).items;
            var n := |out|;
            && n <= |r.items| && n <= l.maximumItems
            && (forall i | 0 <= i < n :: KeepsAll(out[i], r.items[i], Left(out, i, l.maximumCharacters)))
            && (n < |r.items| && n < l.maximumItems ==> Left(out, n, l.maximumCharacters) < |r.items[n].kind|)
  {
    hide Fill, KeepsAll, ResultCharacters;
    var selected := r.items[..Min(|r.items|, l.maximumItems)];
    FilledKeeps(selected, |selected|, l.maximumCharacters, r.truncated || |r.items| > |selected|);
  }

  // ------------------------------------------------------------------ one attempt

  /** the adapter does not answer before its wait is over: its own timeout, or the total one counted from the
      first reading of the clock */
  predicate Late(l: Runner.Limits, w: Behaviour) {
    match w.answer
    case Hung => true
    case Replied(_, duration) => duration > l.attemptTimeout || w.elapsed + duration > l.totalTimeout
    case Raised(_, duration) => duration > l.attemptTimeout || w.elapsed + duration > l.totalTimeout
  }

  /** One attempt: not started once the total timeout is over, a timeout when the adapter is late or raises one, a
      transient failure when it raises anything else, and otherwise exactly its own reply. */
  lemma AttemptDecides(l: Runner.Limits, b: Binding, w: Behaviour)
    requires WellBehaved(w)
    ensures var (attempt, result) := Try(l, b, w);
            && attempt.binding == b
            && (attempt.started.Some? <==> w.elapsed < l.totalTimeout)
            && (attempt.started.Some? ==> attempt.started == Some(w.startedAt))
            && attempt.durationMs == (if w.elapsed < l.totalTimeout
                                      then ((w.recordedAt - w.startedAt) * 1000.0).Floor else 0)
            && if l.totalTimeout <= w.elapsed || Late(l, w) || (w.answer.Raised? && w.answer.timeoutError)
               then attempt.outcome == Timeout && result == AdapterResult([], Some(TransientFailure), None, false)
               else if w.answer.Raised?
               then
                 && attempt.outcome == FailedWith(TransientFailure)
                 && result == AdapterResult([], Some(TransientFailure), None, false)
               else
                 && result == w.answer.result
                 && attempt.outcome == match result.failure
                                       case Some(failure) => FailedWith(failure)
                                       case None => if result.partial.Some? then Partial else Success
  {
    NotNegative((w.recordedAt - w.startedAt) * 1000.0);
  }

  lemma NotNegative(x: real)
    requires x >= 0.0
    ensures x.Floor >= 0
  {
  }

  // ------------------------------------------------------------------ which bindings are tried

  /** same operation and equivalence group, and a scope that the primary's binding and the call both cover */
  predicate Substitutes(l: Runner.Limits, primary: Binding, b: Binding) {
    && b.source == primary.source && b.operation == primary.operation && b.equivalenceGroup == primary.equivalenceGroup
    && (b.requiredScope.AccountVisible? ==> primary.requiredScope.AccountVisible? && l.effectiveScope.AccountVisible?)
  }

  /** the positions of every substitute, in order */
  ghost predicate Positions(l: Runner.Limits, primary: Binding, candidates: seq<Binding>, at: seq<nat>) {
    && (forall k | 0 <= k < |at| :: at[k] < |candidates| && Substitutes(l, primary, candidates[at[k]]))
    && (forall j, k | 0 <= j < k < |at| :: at[j] < at[k])
    && (forall i | 0 <= i < |candidates| && Substitutes(l, primary, candidates[i]) :: i in at)
  }

  lemma {:induction false} FallbackPositions(l: Runner.Limits, primary: Binding, candidates: seq<Binding>)
    returns (at: seq<nat>)
    ensures Positions(l, primary, candidates, at)
    ensures |Fallbacks(l, primary, candidates)| == |at|
    ensures forall k | 0 <= k < |at| ::
              at[k] < |candidates| && Fallbacks(l, primary, candidates)[k] == candidates[at[k]]
  {
    at := [];
    if candidates != [] {
      var n := |candidates| - 1;
      var before := FallbackPositions(l, primary, candidates[..n]);
      SubstitutesAllowed(l, primary, candidates[n]);
      hide Substitutes, Allowed;
      at := if Substitutes(l, primary, candidates[n]) then before + [n] else before;
      NextPosition(l, primary, candidates, before);
    }
  }

  lemma SubstitutesAllowed(l: Runner.Limits, primary: Binding, b: Binding)
    ensures Substitutes(l, primary, b) <==> Allowed(l, primary, b)
  {
  }

  lemma NextPosition(l: Runner.Limits, primary: Binding, candidates: seq<Binding>, before: seq<nat>)
    requires candidates != [] && Positions(l, primary, candidates[..|candidates| - 1], before)
    ensures var n := |candidates| - 1;
            Positions(l, primary, candidates,
                      if Substitutes(l, primary, candidates[n]) then before + [n] else before)
  {
    hide Substitutes;
    var n := |candidates| - 1;
    var at := if Substitutes(l, primary, candidates[n]) then before + [n] else before;
    forall k | 0 <= k < |at| ensures at[k] < |candidates| && Substitutes(l, primary, candidates[at[k]]) {
      if k < |before| { assert candidates[..n][before[k]] == candidates[before[k]]; }
    }
    forall i | 0 <= i < |candidates| && Substitutes(l, primary, candidates[i]) ensures i in at {
      if i < n {
        assert candidates[..n][i] == candidates[i];
        assert i in before;
      } else {
        assert at[|before|] == n;
      }
    }
  }

  /** The plan is the primary once when it owns its retries, and otherwise the primary twice and then every
      substitute among the other bindings, each once, in their order, and no other. */
  lemma PlanExactly(l: Runner.Limits, bindings: seq<Binding>) returns (at: seq<nat>)
    requires bindings != []
    ensures Positions(l, bindings[0], bindings[1..], at)
    ensures var plan := Plan(l, bindings);
            if bindings[0].retryOwner.BindingOwned? then plan == [bindings[0]]
            else
              && |plan| == 2 + |at| && plan[0] == plan[1] == bindings[0]
              && forall k | 0 <= k < |at| :: plan[2 + k] == bindings[1 + at[k]]
  {
    hide Positions, Fallbacks;
    at := FallbackPositions(l, bindings[0], bindings[1..]);
  }
}
