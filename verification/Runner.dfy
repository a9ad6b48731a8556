/** Bounded execution with retry and fallback, and bounded output (runtime/runner.py). Time is real. */
module Runner {
  import opened Prelude
  import opened Records
  import opened Normalized

  datatype FailureClass =
    | TransientFailure | InvalidInput | NotFound | SetupRequired | Authentication | Authorization | PolicyFailure
    | RateLimit | PermanentFailure

  datatype RetryOwner = RunnerOwned | BindingOwned

  datatype Binding = Binding(
    source: string, operation: string, backendId: string, backendVersion: string, requiredScope: DataScope,
    equivalenceGroup: string, retryOwner: RetryOwner)

  datatype AdapterResult = AdapterResult(
    items: seq<ResultItem>, failure: Option<FailureClass>, partial: Option<FailureClass>, truncated: bool)

  /** the constructor of AdapterResult accepts */
  predicate ResultValid(r: AdapterResult) {
    && (r.failure.Some? ==> r.items == [] && !r.truncated && r.partial.None?)
    && (r.partial.Some? ==> r.items != [])
  }

  /** the operation's runtime limits and the call's scope */
  datatype Limits = Limits(
    maximumItems: nat, maximumCharacters: nat, totalTimeout: real, attemptTimeout: real, effectiveScope: DataScope)

  // ------------------------------------------------------------------ bounding one item

  /** what is left of the budget and whether something has been cut, threaded through the fields */
  datatype Cut<T> = Cut(value: T, remaining: nat, truncated: bool)

  function Identity(value: Option<string>, maximum: nat, remaining: nat, truncated: bool): Cut<Option<string>> {
    if value.None? then Cut(None, remaining, truncated)
    else if |value.value| > maximum || |value.value| > remaining then Cut(None, remaining, true)
    else Cut(value, remaining - |value.value|, truncated)
  }

  function Display(value: Option<string>, maximum: nat, remaining: nat, truncated: bool): Cut<Option<string>> {
    if value.None? || remaining <= 0 then
      Cut(None, remaining, truncated || (value.Some? && value.value != ""))
    else
      var k := Min(|value.value|, Min(maximum, remaining));
      Cut(Some(value.value[..k]), remaining - k, truncated || value.value[..k] != value.value)
  }

  function MediaCut(media: Option<ResultMedia>, remaining: nat, truncated: bool): Cut<Option<ResultMedia>> {
    if media.None? then Cut(None, remaining, truncated)
    else if MediaCharacters(media.value) > remaining then Cut(None, remaining, true)
    else Cut(media, remaining - MediaCharacters(media.value), truncated)
  }

  /** _bounded_item: identities first, then display strings, media and text */
  function BoundItem(item: ResultItem, budget: nat): Cut<ResultItem> {
    var start := if budget < |item.kind| then 0 else budget - |item.kind|;
    var id := Identity(item.nativeId, 512, start, false);
    var url := Identity(item.url, 4096, id.remaining, id.truncated);
    var title := Display(item.title, 512, url.remaining, url.truncated);
    var author := Display(item.author, 256, title.remaining, title.truncated);
    var published := Display(item.publishedAt, 128, author.remaining, author.truncated);
    var media := MediaCut(item.media, published.remaining, published.truncated);
    var k := Min(|item.text|, media.remaining);
    Cut(ResultItem(
          item.kind, item.text[..k], id.value, title.value, url.value, author.value, published.value, media.value),
        media.remaining - k, media.truncated || item.text[..k] != item.text)
  }

  // ------------------------------------------------------------------ what bounding promises

  predicate KeptOrDropped<T(==)>(a: Option<T>, b: Option<T>) {
    a.None? || a == b
  }

  predicate Shortened(a: Option<string>, b: Option<string>) {
    a.None? || (b.Some? && a.value <= b.value)
  }

  /** field by field, the output is the input cut short */
  predicate Truncation(a: ResultItem, b: ResultItem) {
    && a.kind == b.kind && a.text <= b.text
    && KeptOrDropped(a.nativeId, b.nativeId) && KeptOrDropped(a.url, b.url) && KeptOrDropped(a.media, b.media)
    && Shortened(a.title, b.title) && Shortened(a.author, b.author) && Shortened(a.publishedAt, b.publishedAt)
  }

  /** the same display string, or an empty one that became None */
  predicate SameDisplay(a: Option<string>, b: Option<string>) {
    a == b || (a.None? && b == Some(""))
  }

  /** nothing is lost, up to empty display strings */
  predicate Lossless(a: ResultItem, b: ResultItem) {
    && a.kind == b.kind && a.text == b.text && a.nativeId == b.nativeId && a.url == b.url && a.media == b.media
    && SameDisplay(a.title, b.title) && SameDisplay(a.author, b.author) && SameDisplay(a.publishedAt, b.publishedAt)
  }

  lemma IdentityFacts(value: Option<string>, maximum: nat, remaining: nat, truncated: bool)
    ensures var c := Identity(value, maximum, remaining, truncated);
            && KeptOrDropped(c.value, value) && c.remaining + OptionalLength(c.value) == remaining
            && (c.truncated <==> truncated || c.value != value)
            && Identity(c.value, maximum, remaining, false) == Cut(c.value, c.remaining, false)
  {
  }

  lemma DisplayFacts(value: Option<string>, maximum: nat, remaining: nat, truncated: bool)
    requires maximum > 0
    ensures var c := Display(value, maximum, remaining, truncated);
            && Shortened(c.value, value) && c.remaining + OptionalLength(c.value) == remaining
            && (c.truncated <==> truncated || !SameDisplay(c.value, value))
            && Display(c.value, maximum, remaining, false) == Cut(c.value, c.remaining, false)
  {
    var c := Display(value, maximum, remaining, truncated);
    if c.value.Some? {
      assert c.value.value[..|c.value.value|] == c.value.value;
      if |c.value.value| == 0 { assert |value.value| == 0; }
    }
  }

  lemma MediaFacts(media: Option<ResultMedia>, remaining: nat, truncated: bool)
    ensures var c := MediaCut(media, remaining, truncated);
            && KeptOrDropped(c.value, media)
            && c.remaining + (if c.value.Some? then MediaCharacters(c.value.value) else 0) == remaining
            && (c.truncated <==> truncated || c.value != media)
            && MediaCut(c.value, remaining, false) == Cut(c.value, c.remaining, false)
  {
    hide MediaCharacters;
  }

  /** One bounded item is within the budget it was given, is a truncation of its input, is flagged exactly
      when something was lost, and is left alone when bounded again. */
  lemma BoundItemFacts(item: ResultItem, budget: nat)
    requires |item.kind| <= budget
    ensures var c := BoundItem(item, budget);
            && ItemCharacters(c.value) + c.remaining == budget
            && Truncation(c.value, item)
            && (c.truncated <==> !Lossless(c.value, item))
            && BoundItem(c.value, budget).value == c.value && !BoundItem(c.value, budget).truncated
  {
    hide Identity, Display, MediaCut, MediaCharacters, KeptOrDropped, Shortened, SameDisplay;
    var start: nat := budget - |item.kind|;
    var id := Identity(item.nativeId, 512, start, false);
    var url := Identity(item.url, 4096, id.remaining, id.truncated);
    var title := Display(item.title, 512, url.remaining, url.truncated);
    var author := Display(item.author, 256, title.remaining, title.truncated);
    var published := Display(item.publishedAt, 128, author.remaining, author.truncated);
    IdentityFacts(item.nativeId, 512, start, false);
    IdentityFacts(item.url, 4096, id.remaining, id.truncated);
    DisplayFacts(item.title, 512, url.remaining, url.truncated);
    DisplayFacts(item.author, 256, title.remaining, title.truncated);
    DisplayFacts(item.publishedAt, 128, author.remaining, author.truncated);
    MediaFacts(item.media, published.remaining, published.truncated);
    var media := MediaCut(item.media, published.remaining, published.truncated);
    var k := Min(|item.text|, media.remaining);
    assert item.text[..k][..k] == item.text[..k];
  }

  // ------------------------------------------------------------------ bounding a result

  datatype Output = Output(items: seq<ResultItem>, used: nat, truncated: bool)

  /** the items of the first n that fit, in order, until one does not even fit its kind; `open` is false
      once that has happened */
  datatype Progress = Progress(items: seq<ResultItem>, used: nat, truncated: bool, open: bool)

  function Fill(selected: seq<ResultItem>, n: nat, limit: nat, truncated: bool): (p: Progress)
    requires n <= |selected|
    ensures p.used <= limit && |p.items| <= n
  {
    if n == 0 then Progress([], 0, truncated, true)
    else
      var p := Fill(selected, n - 1, limit, truncated);
      if !p.open then p
      else
        var item := selected[n - 1];
        if limit - p.used < |item.kind| then p.(truncated := true, open := false)
        else
          var c := BoundItem(item, limit - p.used);
          BoundItemFacts(item, limit - p.used);
          Progress(p.items + [c.value], p.used + ItemCharacters(c.value), p.truncated || c.truncated, true)
  }

  /** _bounded */
  function Bounded(r: AdapterResult, l: Limits): Output {
    var selected := r.items[..Min(|r.items|, l.maximumItems)];
    var p := Fill(selected, |selected|, l.maximumCharacters, r.truncated || |r.items| > |selected|);
    Output(p.items, p.used, p.truncated)
  }

  ghost predicate AllLossless(out: seq<ResultItem>, given: seq<ResultItem>) {
    |out| == |given| && forall i | 0 <= i < |out| :: Lossless(out[i], given[i])
  }

  /** one more input item */
  lemma FillStep(selected: seq<ResultItem>, n: nat, limit: nat, truncated: bool)
    requires 0 < n <= |selected|
    ensures var p, q := Fill(selected, n - 1, limit, truncated), Fill(selected, n, limit, truncated);
            var item := selected[n - 1];
            if p.open && limit - p.used >= |item.kind| then
              var c := BoundItem(item, limit - p.used);
              q == Progress(p.items + [c.value], p.used + ItemCharacters(c.value), p.truncated || c.truncated, true)
            else q == p.(truncated := p.truncated || p.open, open := false)
  {
    hide BoundItem, ItemCharacters;
  }

  lemma CharactersSnoc(items: seq<ResultItem>, item: ResultItem)
    ensures ResultCharacters(items + [item]) == ResultCharacters(items) + ItemCharacters(item)
  {
    hide ItemCharacters;
    assert (items + [item])[..|items|] == items;
  }

  ghost predicate FillOk(selected: seq<ResultItem>, n: nat, truncated: bool, p: Progress)
    requires n <= |selected|
  {
    && p.used == ResultCharacters(p.items)
    && |p.items| <= n
    && (forall i | 0 <= i < |p.items| :: Truncation(p.items[i], selected[i]))
    && (p.open <==> |p.items| == n)
    && (p.truncated <==> truncated || !AllLossless(p.items, selected[..n]))
  }

  lemma {:induction false} FillFacts(selected: seq<ResultItem>, n: nat, limit: nat, truncated: bool)
    requires n <= |selected|
    ensures FillOk(selected, n, truncated, Fill(selected, n, limit, truncated))
  {
    hide BoundItem, Truncation, Lossless, ItemCharacters, ResultCharacters, AllLossless, Fill, FillOk;
    if n == 0 {
      NothingFilledOk(selected, limit, truncated);
    } else {
      FillFacts(selected, n - 1, limit, truncated);
      FillStep(selected, n, limit, truncated);
      var p := Fill(selected, n - 1, limit, truncated);
      if p.open && limit - p.used >= |selected[n - 1].kind| {
        var c := BoundItem(selected[n - 1], limit - p.used);
        BoundItemFacts(selected[n - 1], limit - p.used);
        OneMoreOk(selected, n, truncated, p, c);
      } else {
        NoMoreOk(selected, n, truncated, p);
      }
    }
  }

  lemma NothingFilledOk(selected: seq<ResultItem>, limit: nat, truncated: bool)
    ensures FillOk(selected, 0, truncated, Fill(selected, 0, limit, truncated))
  {
    hide BoundItem, Truncation, Lossless, ItemCharacters;
  }

  lemma NoMoreOk(selected: seq<ResultItem>, n: nat, truncated: bool, p: Progress)
    requires 0 < n <= |selected| && FillOk(selected, n - 1, truncated, p)
    ensures FillOk(selected, n, truncated, p.(truncated := p.truncated || p.open, open := false))
  {
    hide Truncation, Lossless, ItemCharacters, ResultCharacters, BoundItem;
  }

  lemma OneMoreOk(selected: seq<ResultItem>, n: nat, truncated: bool, p: Progress, c: Cut<ResultItem>)
    requires 0 < n <= |selected| && FillOk(selected, n - 1, truncated, p) && p.open
    requires Truncation(c.value, selected[n - 1]) && (c.truncated <==> !Lossless(c.value, selected[n - 1]))
    ensures FillOk(selected, n, truncated,
                   Progress(p.items + [c.value], p.used + ItemCharacters(c.value), p.truncated || c.truncated, true))
  {
    hide Truncation, Lossless, ItemCharacters, ResultCharacters, AllLossless;
    CharactersSnoc(p.items, c.value);
    LosslessSnoc(p.items, selected[..n - 1], c.value, selected[n - 1]);
    assert selected[..n - 1] + [selected[n - 1]] == selected[..n];
  }

  lemma LosslessSnoc(out: seq<ResultItem>, given: seq<ResultItem>, a: ResultItem, b: ResultItem)
    ensures |out| == |given| ==>
              (AllLossless(out + [a], given + [b]) <==> AllLossless(out, given) && Lossless(a, b))
  {
    hide Lossless;
    if |out| == |given| && AllLossless(out + [a], given + [b]) {
      forall i | 0 <= i < |out| ensures Lossless(out[i], given[i]) {
        assert Lossless((out + [a])[i], (given + [b])[i]);
      }
      assert Lossless((out + [a])[|out|], (given + [b])[|given|]);
    }
  }

  /** The output never exceeds the item or character limit; each item is a truncation of the input item at
      its index; and the result is flagged exactly when the input was, an item was left out, or an item
      lost something. */
  lemma BoundedIsFaithful(r: AdapterResult, l: Limits)
    ensures var out := Bounded(r, l);
            && |out.items| <= l.maximumItems && |out.items| <= |r.items|
            && ResultCharacters(out.items) == out.used <= l.maximumCharacters
            && (forall i | 0 <= i < |out.items| :: Truncation(out.items[i], r.items[i]))
            && (out.truncated <==> r.truncated || !AllLossless(out.items, r.items))
  {
    hide Truncation, Lossless, Fill, ItemCharacters;
    var n := Min(|r.items|, l.maximumItems);
    var selected := r.items[..n];
    FillFacts(selected, |selected|, l.maximumCharacters, r.truncated || |r.items| > |selected|);
    assert selected[..|selected|] == selected;
    if |r.items| == n { assert selected == r.items; }
  }

  lemma AgainStep(out: seq<ResultItem>, m: nat, limit: nat, flag: bool, budget: nat)
    requires 0 < m <= |out|
    requires Fill(out, m - 1, limit, flag) == Progress(out[..m - 1], ResultCharacters(out[..m - 1]), flag, true)
    requires ResultCharacters(out[..m - 1]) + budget == limit && |out[m - 1].kind| <= budget
    requires BoundItem(out[m - 1], budget).value == out[m - 1] && !BoundItem(out[m - 1], budget).truncated
    ensures Fill(out, m, limit, flag) == Progress(out[..m], ResultCharacters(out[..m]), flag, true)
  {
    hide Fill, BoundItem, ItemCharacters, ResultCharacters;
    FillStep(out, m, limit, flag);
    CharactersSnoc(out[..m - 1], out[m - 1]);
    assert out[..m - 1] + [out[m - 1]] == out[..m];
  }

  lemma {:induction false} FillAgain(selected: seq<ResultItem>, n: nat, limit: nat, truncated: bool, flag: bool, m: nat)
    requires n <= |selected|
    requires m <= |Fill(selected, n, limit, truncated).items|
    ensures var out := Fill(selected, n, limit, truncated).items;
            Fill(out, m, limit, flag) == Progress(out[..m], ResultCharacters(out[..m]), flag, true)
    decreases m
  {
    hide BoundItem, ItemCharacters, Truncation, AllLossless, Lossless;
    if m > 0 {
      hide Fill, ResultCharacters;
      var out := Fill(selected, n, limit, truncated).items;
      FillAgain(selected, n, limit, truncated, flag, m - 1);
      var budget := FilledFrom(selected, n, limit, truncated, m - 1);
      BoundItemFacts(selected[m - 1], budget);
      SameKind(BoundItem(selected[m - 1], budget).value, selected[m - 1]);
      AgainStep(out, m, limit, flag, budget);
    }
  }

  lemma SameKind(a: ResultItem, b: ResultItem)
    requires Truncation(a, b)
    ensures a.kind == b.kind
  {
  }

  /** the item at an index came from bounding the input there with what its predecessors had left */
  lemma {:induction false} FilledFrom(selected: seq<ResultItem>, n: nat, limit: nat, truncated: bool, i: nat)
    returns (budget: nat)
    requires n <= |selected| && i < |Fill(selected, n, limit, truncated).items|
    ensures i < |selected|
    ensures var out := Fill(selected, n, limit, truncated).items;
            && ResultCharacters(out[..i]) + budget == limit && |selected[i].kind| <= budget
            && out[i] == BoundItem(selected[i], budget).value
    decreases n
  {
    hide BoundItem, ItemCharacters, ResultCharacters, Truncation, AllLossless;
    assert n > 0;
    hide Fill;
    var p := Fill(selected, n - 1, limit, truncated);
    var out := Fill(selected, n, limit, truncated).items;
    FillFacts(selected, n - 1, limit, truncated);
    FillStep(selected, n, limit, truncated);
    if i < |p.items| {
      budget := FilledFrom(selected, n - 1, limit, truncated, i);
      assert out[..i] == p.items[..i];
    } else {
      budget := limit - p.used;
      assert out[..i] == p.items;
    }
  }

  /** Bounding what has been bounded changes no item. */
  lemma BoundedIsIdempotent(r: AdapterResult, l: Limits, again: AdapterResult)
    requires again.items == Bounded(r, l).items
    ensures Bounded(again, l).items == again.items && Bounded(again, l).truncated == again.truncated
  {
    hide Fill, ItemCharacters;
    var selected := r.items[..Min(|r.items|, l.maximumItems)];
    var flag := r.truncated || |r.items| > |selected|;
    var out := again.items;
    BoundedIsFaithful(r, l);
    assert out[..|out|] == out;
    FillAgain(selected, |selected|, l.maximumCharacters, flag, again.truncated, |out|);
  }

  // ------------------------------------------------------------------ exactly when the flag is unset

  lemma IdentityUncut(value: Option<string>, maximum: nat, remaining: nat, truncated: bool)
    ensures var c := Identity(value, maximum, remaining, truncated);
            && (!c.truncated <==> !truncated && OptionalLength(value) <= maximum && OptionalLength(value) <= remaining)
            && (!c.truncated ==> c.value == value && c.remaining == remaining - OptionalLength(value))
  {
  }

  lemma DisplayUncut(value: Option<string>, maximum: nat, remaining: nat, truncated: bool)
    requires maximum > 0
    ensures var c := Display(value, maximum, remaining, truncated);
            && (!c.truncated <==> !truncated && OptionalLength(value) <= maximum && OptionalLength(value) <= remaining)
            && (!c.truncated ==> c.remaining == remaining - OptionalLength(value))
            && (!c.truncated ==> (c.value != value <==> value == Some("") && remaining == 0))
  {
    if value.Some? && remaining > 0 {
      var k := Min(|value.value|, Min(maximum, remaining));
      assert k < |value.value| ==> |value.value[..k]| < |value.value|;
      assert k == |value.value| ==> value.value[..k] == value.value;
    }
  }

  lemma MediaUncut(media: Option<ResultMedia>, remaining: nat, truncated: bool)
    ensures var c := MediaCut(media, remaining, truncated);
            var n := if media.Some? then MediaCharacters(media.value) else 0;
            && (!c.truncated <==> !truncated && n <= remaining)
            && (!c.truncated ==> c.value == media && c.remaining == remaining - n)
  {
    hide MediaCharacters;
  }

  lemma MediaCounts(media: ResultMedia)
    ensures MediaCharacters(media) > 0
  {
  }

  /** every field is within its own maximum */
  predicate FieldsFit(item: ResultItem) {
    && OptionalLength(item.nativeId) <= 512 && OptionalLength(item.url) <= 4096 && OptionalLength(item.title) <= 512
    && OptionalLength(item.author) <= 256 && OptionalLength(item.publishedAt) <= 128
  }

  /** an empty display string is reached with nothing left: only empty fields come after it */
  predicate LosesDisplay(item: ResultItem) {
    && item.media.None? && item.text == ""
    && (|| item.publishedAt == Some("")
        || (OptionalLength(item.publishedAt) == 0 && item.author == Some(""))
        || (OptionalLength(item.publishedAt) == 0 && OptionalLength(item.author) == 0 && item.title == Some("")))
  }

  /** the item loses a display string silently */
  predicate Losing(item: ResultItem, budget: int) {
    FieldsFit(item) && ItemCharacters(item) == budget && LosesDisplay(item)
  }

  predicate NoEmptyDisplay(item: ResultItem) {
    item.title != Some("") && item.author != Some("") && item.publishedAt != Some("")
  }

  /** a display string that needs no cut is changed exactly when it is empty and nothing is left */
  predicate Vanishes(value: Option<string>, remaining: int) {
    value == Some("") && remaining == 0
  }

  /** what an unflagged item becomes, by what is left at each display string */
  lemma UnflaggedFields(item: ResultItem, budget: nat)
    requires |item.kind| <= budget
    ensures var c := BoundItem(item, budget);
            var atTitle := budget - |item.kind| - OptionalLength(item.nativeId) - OptionalLength(item.url);
            var atAuthor := atTitle - OptionalLength(item.title);
            var atPublished := atAuthor - OptionalLength(item.author);
            && (!c.truncated <==> FieldsFit(item) && ItemCharacters(item) <= budget)
            && (!c.truncated ==>
                  && c.value == item.(title := c.value.title, author := c.value.author,
                                      publishedAt := c.value.publishedAt)
                  && (c.value.title != item.title <==> Vanishes(item.title, atTitle))
                  && (c.value.author != item.author <==> Vanishes(item.author, atAuthor))
                  && (c.value.publishedAt != item.publishedAt <==> Vanishes(item.publishedAt, atPublished)))
  {
    hide Identity, Display, MediaCut, MediaCharacters;
    var start: nat := budget - |item.kind|;
    var id := Identity(item.nativeId, 512, start, false);
    var url := Identity(item.url, 4096, id.remaining, id.truncated);
    var title := Display(item.title, 512, url.remaining, url.truncated);
    var author := Display(item.author, 256, title.remaining, title.truncated);
    var published := Display(item.publishedAt, 128, author.remaining, author.truncated);
    IdentityUncut(item.nativeId, 512, start, false);
    IdentityUncut(item.url, 4096, id.remaining, id.truncated);
    DisplayUncut(item.title, 512, url.remaining, url.truncated);
    DisplayUncut(item.author, 256, title.remaining, title.truncated);
    DisplayUncut(item.publishedAt, 128, author.remaining, author.truncated);
    MediaUncut(item.media, published.remaining, published.truncated);
    assert item.text[..|item.text|] == item.text;
  }

  /** One item is unflagged exactly when every field is within its maximum and all of them are within the
      budget; and it is then changed exactly when an empty display string comes when the budget is spent. */
  lemma UnflaggedItem(item: ResultItem, budget: nat)
    requires |item.kind| <= budget
    ensures var c := BoundItem(item, budget);
            && (!c.truncated <==> FieldsFit(item) && ItemCharacters(item) <= budget)
            && (!c.truncated ==> ItemCharacters(c.value) == ItemCharacters(item))
            && (!c.truncated && c.value != item <==> Losing(item, budget))
  {
    hide BoundItem, MediaCharacters, FieldsFit;
    UnflaggedFields(item, budget);
    if item.media.Some? { MediaCounts(item.media.value); }
    BoundItemFacts(item, budget);
  }

  /** Without empty display strings the flag is exact: it is set exactly when the item changed. */
  lemma FlagExact(item: ResultItem, budget: nat)
    requires |item.kind| <= budget && NoEmptyDisplay(item)
    ensures var c := BoundItem(item, budget); c.truncated <==> c.value != item
  {
    hide BoundItem, ItemCharacters, FieldsFit;
    UnflaggedItem(item, budget);
    BoundItemFacts(item, budget);
  }

  lemma PrefixSnoc(items: seq<ResultItem>, n: nat)
    requires 0 < n <= |items|
    ensures ResultCharacters(items[..n]) == ResultCharacters(items[..n - 1]) + ItemCharacters(items[n - 1])
    ensures ItemCharacters(items[n - 1]) >= |items[n - 1].kind|
  {
    assert items[..n - 1] + [items[n - 1]] == items[..n];
    CharactersSnoc(items[..n - 1], items[n - 1]);
  }

  predicate AllFieldsFit(items: seq<ResultItem>) {
    forall i | 0 <= i < |items| :: FieldsFit(items[i])
  }

  /** the item at this index loses a display string silently */
  predicate LosingAt(items: seq<ResultItem>, limit: int, i: nat)
    requires i < |items|
  {
    Losing(items[i], limit - ResultCharacters(items[..i]))
  }

  ghost predicate UnflaggedOk(selected: seq<ResultItem>, n: nat, limit: nat, truncated: bool, p: Progress)
    requires n <= |selected|
  {
    && (!p.truncated <==> !truncated && AllFieldsFit(selected[..n]) && ResultCharacters(selected[..n]) <= limit)
    && (!p.truncated ==>
          && p.open && |p.items| == n && p.used == ResultCharacters(selected[..n])
          && forall i | 0 <= i < n :: p.items[i] != selected[i] <==> LosingAt(selected, limit, i))
  }

  lemma {:induction false} UnflaggedFill(selected: seq<ResultItem>, n: nat, limit: nat, truncated: bool)
    requires n <= |selected|
    ensures UnflaggedOk(selected, n, limit, truncated, Fill(selected, n, limit, truncated))
  {
    hide BoundItem, ItemCharacters, ResultCharacters, FieldsFit, LosingAt, Fill, UnflaggedOk;
    if n == 0 {
      UnflaggedStart(selected, limit, truncated);
    } else {
      UnflaggedFill(selected, n - 1, limit, truncated);
      FillStep(selected, n, limit, truncated);
      UnflaggedNext(selected, n, limit, truncated, Fill(selected, n - 1, limit, truncated),
                    Fill(selected, n, limit, truncated));
    }
  }

  lemma UnflaggedStart(selected: seq<ResultItem>, limit: nat, truncated: bool)
    ensures UnflaggedOk(selected, 0, limit, truncated, Fill(selected, 0, limit, truncated))
  {
    hide BoundItem, ItemCharacters, FieldsFit, LosingAt;
  }

  lemma UnflaggedNext(selected: seq<ResultItem>, n: nat, limit: nat, truncated: bool, p: Progress, q: Progress)
    requires 0 < n <= |selected| && UnflaggedOk(selected, n - 1, limit, truncated, p)
    requires var item := selected[n - 1];
             if p.open && limit - p.used >= |item.kind| then
               var c := BoundItem(item, limit - p.used);
               q == Progress(p.items + [c.value], p.used + ItemCharacters(c.value), p.truncated || c.truncated, true)
             else q == p.(truncated := p.truncated || p.open, open := false)
    ensures UnflaggedOk(selected, n, limit, truncated, q)
  {
    hide BoundItem, ItemCharacters, ResultCharacters, FieldsFit, Losing;
    PrefixSnoc(selected, n);
    assert selected[..n] == selected[..n - 1] + [selected[n - 1]];
    if p.open && limit - p.used >= |selected[n - 1].kind| { UnflaggedItem(selected[n - 1], limit - p.used); }
  }

  /** what a result must be for nothing to be flagged */
  predicate WithinLimits(r: AdapterResult, l: Limits) {
    && !r.truncated && |r.items| <= l.maximumItems
    && AllFieldsFit(r.items) && ResultCharacters(r.items) <= l.maximumCharacters
  }

  /** The flag stays unset exactly when the input is within every limit; an unflagged result still differs from
      its input exactly when some item has an empty display string where the budget is spent; and where no
      display string is empty the flag is set exactly when something changed. */
  lemma UnsetFlagExactly(r: AdapterResult, l: Limits)
    ensures var out := Bounded(r, l);
            && (!out.truncated <==> WithinLimits(r, l))
            && (!out.truncated && out.items != r.items <==>
                  WithinLimits(r, l) && exists i :: 0 <= i < |r.items| && LosingAt(r.items, l.maximumCharacters, i))
            && ((forall i | 0 <= i < |r.items| :: NoEmptyDisplay(r.items[i])) ==>
                  (out.truncated <==> r.truncated || out.items != r.items))
  {
    hide Bounded, LosingAt, NoEmptyDisplay, AllLossless, WithinLimits, ResultCharacters;
    UnflaggedOutput(r, l);
    var out := Bounded(r, l);
    if !out.truncated {
      if out.items != r.items { var i := DifferingIndex(out.items, r.items); }
      if i :| 0 <= i < |r.items| && LosingAt(r.items, l.maximumCharacters, i) { assert out.items[i] != r.items[i]; }
    }
    BoundedIsFaithful(r, l);
    if forall i | 0 <= i < |r.items| :: NoEmptyDisplay(r.items[i]) { LosslessIsSame(out.items, r.items); }
  }

  lemma UnflaggedOutput(r: AdapterResult, l: Limits)
    ensures var out := Bounded(r, l);
            && (!out.truncated <==> WithinLimits(r, l))
            && (!out.truncated ==>
                  && |out.items| == |r.items|
                  && forall i | 0 <= i < |r.items| ::
                       out.items[i] != r.items[i] <==> LosingAt(r.items, l.maximumCharacters, i))
  {
    hide ItemCharacters, ResultCharacters, FieldsFit, Fill, LosingAt;
    var n := Min(|r.items|, l.maximumItems);
    var selected := r.items[..n];
    assert selected[..n] == selected;
    UnflaggedFill(selected, n, l.maximumCharacters, r.truncated || |r.items| > n);
    if |r.items| == n { assert selected == r.items; }
  }

  lemma DifferingIndex<T>(a: seq<T>, b: seq<T>) returns (i: nat)
    requires |a| == |b| && a != b
    ensures i < |a| && a[i] != b[i]
  {
    i :| i < |a| && a[i] != b[i];
  }

  lemma LosslessIsSame(out: seq<ResultItem>, given: seq<ResultItem>)
    requires forall i | 0 <= i < |given| :: NoEmptyDisplay(given[i])
    ensures AllLossless(out, given) <==> out == given
  {
    if AllLossless(out, given) {
      forall i | 0 <= i < |out| ensures out[i] == given[i] {
        assert Lossless(out[i], given[i]) && NoEmptyDisplay(given[i]);
      }
    }
  }

  /** the loss is real: a concrete item that is changed without a flag */
  lemma EmptyDisplayUnflagged()
    ensures var item := ResultItem("entry", "", None, Some(""), None, None, None, None);
            var c := BoundItem(item, 5);
            !c.truncated && c.value != item && c.value.title.None? && BoundItem(item, 6).value == item
  {
  }

  /** _bounded_item, with its running budget */
  method CutItem(item: ResultItem, budget: nat) returns (bounded: ResultItem, truncated: bool)
    ensures BoundItem(item, budget).value == bounded && BoundItem(item, budget).truncated == truncated
  {
    hide Identity, Display, MediaCut, MediaCharacters;
    truncated := false;
    var remaining: nat := if budget < |item.kind| then 0 else budget - |item.kind|;
    var nativeId, url, title, author, published: Option<string>;
    nativeId, remaining, truncated := CutIdentity(item.nativeId, 512, remaining, truncated);
    url, remaining, truncated := CutIdentity(item.url, 4096, remaining, truncated);
    title, remaining, truncated := CutDisplay(item.title, 512, remaining, truncated);
    author, remaining, truncated := CutDisplay(item.author, 256, remaining, truncated);
    published, remaining, truncated := CutDisplay(item.publishedAt, 128, remaining, truncated);
    ghost var before := Cut(published, remaining, truncated);
    var media := item.media;
    if media.Some? {
      var characters := MediaCharacters(media.value);
      if characters > remaining {
        media, truncated := None, true;
      } else {
        remaining := remaining - characters;
      }
    }
    assert MediaCut(item.media, before.remaining, before.truncated) == Cut(media, remaining, truncated) by {
      MediaCutIs(item.media, before.remaining, before.truncated);
    }
    var text := item.text[..Min(|item.text|, remaining)];
    if text != item.text { truncated := true; }
    bounded := ResultItem(item.kind, text, nativeId, title, url, author, published, media);
  }

  lemma MediaCutIs(media: Option<ResultMedia>, remaining: nat, truncated: bool)
    ensures MediaCut(media, remaining, truncated) ==
              if media.None? then Cut(None, remaining, truncated)
              else if MediaCharacters(media.value) > remaining then Cut(None, remaining, true)
              else Cut(media, remaining - MediaCharacters(media.value), truncated)
  {
    hide MediaCharacters;
  }

  method CutIdentity(value: Option<string>, maximum: nat, budget: nat, flag: bool)
    returns (kept: Option<string>, remaining: nat, truncated: bool)
    ensures Identity(value, maximum, budget, flag) == Cut(kept, remaining, truncated)
  {
    remaining, truncated, kept := budget, flag, value;
    if value.None? { return; }
    if |value.value| > maximum || |value.value| > remaining { return None, remaining, true; }
    remaining := remaining - |value.value|;
  }

  method CutDisplay(value: Option<string>, maximum: nat, budget: nat, flag: bool)
    returns (bounded: Option<string>, remaining: nat, truncated: bool)
    ensures Display(value, maximum, budget, flag) == Cut(bounded, remaining, truncated)
  {
    remaining, truncated := budget, flag;
    if value.None? || remaining <= 0 {
      if value.Some? && value.value != "" { truncated := true; }
      return None, remaining, truncated;
    }
    var cut := value.value[..Min(|value.value|, Min(maximum, remaining))];
    if cut != value.value { truncated := true; }
    remaining := remaining - |cut|;
    bounded := Some(cut);
  }

  /** _bounded: the loop over the selected items stops at the first whose kind does not fit */
  method BoundOutput(r: AdapterResult, l: Limits) returns (out: Output)
    ensures out == Bounded(r, l)
  {
    hide BoundItem, ItemCharacters, Fill;
    var selected := r.items[..Min(|r.items|, l.maximumItems)];
    var normalized: seq<ResultItem> := [];
    var used: nat := 0;
    var truncated := r.truncated || |r.items| > |selected|;
    ghost var flag := truncated;
    FillNone(selected, l.maximumCharacters, flag);
    var i := 0;
    while i < |selected|
      invariant 0 <= i <= |selected| && used <= l.maximumCharacters
      invariant Fill(selected, i, l.maximumCharacters, flag) == Progress(normalized, used, truncated, true)
    {
      FillStep(selected, i + 1, l.maximumCharacters, flag);
      var remaining := l.maximumCharacters - used;
      if remaining < |selected[i].kind| {
        Stopped(selected, i + 1, |selected|, l.maximumCharacters, flag);
        return Output(normalized, used, true);
      }
      BoundItemFacts(selected[i], remaining);
      var bounded, cut := CutItem(selected[i], remaining);
      normalized := normalized + [bounded];
      used := used + ItemCharacters(bounded);
      truncated := truncated || cut;
      i := i + 1;
    }
    return Output(normalized, used, truncated);
  }

  lemma FillNone(selected: seq<ResultItem>, limit: nat, truncated: bool)
    ensures Fill(selected, 0, limit, truncated) == Progress([], 0, truncated, true)
  {
  }

  lemma {:induction false} Stopped(selected: seq<ResultItem>, m: nat, n: nat, limit: nat, truncated: bool)
    requires m <= n <= |selected| && !Fill(selected, m, limit, truncated).open
             && Fill(selected, m, limit, truncated).truncated
    ensures Fill(selected, n, limit, truncated) == Fill(selected, m, limit, truncated)
    decreases n
  {
    hide BoundItem, ItemCharacters;
    if m < n {
      Stopped(selected, m, n - 1, limit, truncated);
      FillStep(selected, n, limit, truncated);
    }
  }

  // ------------------------------------------------------------------ retry and fallback

  /** what an adapter does when it is started, and for how long; `timeoutError` when what it raises is itself
      a TimeoutError */
  datatype Answer =
    | Replied(result: AdapterResult, duration: real)
    | Raised(timeoutError: bool, duration: real)
    | Hung

  /** the clock's three readings, relative to the start, and the adapter's answer: when the remaining time is
      computed, when the adapter is started, and when the attempt is recorded */
  datatype Behaviour = Behaviour(elapsed: real, startedAt: real, recordedAt: real, answer: Answer)

  datatype Outcome = Timeout | Success | Partial | FailedWith(failure: FailureClass)

  /** an attempt with its recorded duration, and the interval in which its adapter ran if it was started */
  datatype Attempt = Attempt(binding: Binding, outcome: Outcome, durationMs: int, started: Option<real>, ended: real)

  const TRANSIENT := AdapterResult([], Some(TransientFailure), None, false)

  function LeastOf(a: real, b: real): real {
    if a < b then a else b
  }

  function OutcomeOf(r: AdapterResult): Outcome {
    if r.partial.Some? then Partial else if r.failure.None? then Success else FailedWith(r.failure.value)
  }

  /** _attempt_record: max(0, int(seconds * 1000)) */
  function DurationMs(w: Behaviour): int {
    Max(0, ((w.recordedAt - w.startedAt) * 1000.0).Floor)
  }

  /** how long the adapter runs when a wait that reaches its timeout is cancelled there */
  function RunTime(answer: Answer, timeout: real): real {
    if answer.Hung? then timeout else LeastOf(answer.duration, timeout)
  }

  /** the timeout of the wait, computed from the first reading of the clock */
  function WaitFor(l: Limits, w: Behaviour): real {
    LeastOf(l.attemptTimeout, l.totalTimeout - w.elapsed)
  }

  /** _attempt */
  function Try(l: Limits, b: Binding, w: Behaviour): (Attempt, AdapterResult) {
    if l.totalTimeout - w.elapsed <= 0.0 then (Attempt(b, Timeout, 0, None, w.elapsed), TRANSIENT)
    else
      var timeout := WaitFor(l, w);
      var ended := w.startedAt + RunTime(w.answer, timeout);
      var late := w.answer.Hung? || w.answer.duration > timeout;
      if late || (w.answer.Raised? && w.answer.timeoutError) then
        (Attempt(b, Timeout, DurationMs(w), Some(w.startedAt), ended), TRANSIENT)
      else if w.answer.Raised? then
        (Attempt(b, FailedWith(TransientFailure), DurationMs(w), Some(w.startedAt), ended), TRANSIENT)
      else
        (Attempt(b, OutcomeOf(w.answer.result), DurationMs(w), Some(w.startedAt), ended), w.answer.result)
  }

  /** the wait cannot outlast the total timeout: no time passed between the reading it is bounded from and the
      one that starts it, or the attempt's own timeout is over by then */
  predicate InTime(l: Limits, w: Behaviour) {
    w.startedAt == w.elapsed || w.startedAt + l.attemptTimeout <= l.totalTimeout
  }

  /** whatever an adapter does that is started at these readings, it ends by the total timeout */
  ghost predicate NeverLate(l: Limits, b: Binding, w: Behaviour) {
    forall answer ::
      Try(l, b, w.(answer := answer)).0.started.Some? ==> Try(l, b, w.(answer := answer)).0.ended <= l.totalTimeout
  }

  predicate Covers(available: DataScope, required: DataScope) {
    available.AccountVisible? || required.PublicData?
  }

  /** _is_allowed_fallback */
  predicate Allowed(l: Limits, primary: Binding, b: Binding) {
    && b.source == primary.source && b.operation == primary.operation && b.equivalenceGroup == primary.equivalenceGroup
    && Covers(primary.requiredScope, b.requiredScope) && Covers(l.effectiveScope, b.requiredScope)
  }

  function Fallbacks(l: Limits, primary: Binding, candidates: seq<Binding>): seq<Binding> {
    if candidates == [] then []
    else
      Fallbacks(l, primary, candidates[..|candidates| - 1])
      + if Allowed(l, primary, candidates[|candidates| - 1]) then [candidates[|candidates| - 1]] else []
  }

  /** the bindings in the order they may be tried: the primary twice unless it owns its retries, then the
      allowed fallbacks in candidate order */
  function Plan(l: Limits, bindings: seq<Binding>): seq<Binding> {
    if bindings == [] then []
    else if bindings[0].retryOwner.BindingOwned? then [bindings[0]]
    else [bindings[0], bindings[0]] + Fallbacks(l, bindings[0], bindings[1..])
  }

  predicate Retryable(o: Outcome) {
    o == Timeout || o == FailedWith(TransientFailure)
  }

  datatype RunnerResult = RunnerResult(
    output: Option<Output>, failure: Option<FailureClass>, partial: Option<FailureClass>, selected: Option<Binding>)

  /** the clock does not step back, and a result is one its constructor accepts */
  predicate WellBehaved(w: Behaviour) {
    && 0.0 <= w.elapsed <= w.startedAt <= w.recordedAt
    && (w.answer.Replied? ==> ResultValid(w.answer.result))
    && (!w.answer.Hung? ==> w.answer.duration >= 0.0)
  }

  /** an adapter that ran was started before the total timeout by the first reading and ended within its own
      timeout; whatever it did, it ended by the total timeout if the readings are in time, and only then
      could nothing it did have made it late; and it was late by no more than lies between the readings */
  ghost predicate Timely(l: Limits, w: Behaviour, a: Attempt) {
    a.started.Some? ==>
      && w.elapsed < l.totalTimeout && a.started.value == w.startedAt
      && a.ended - w.startedAt <= l.attemptTimeout
      && (InTime(l, w) ==> a.ended <= l.totalTimeout)
      && (NeverLate(l, a.binding, w) <==> InTime(l, w))
      && a.ended <= l.totalTimeout + (w.startedAt - w.elapsed)
  }

  ghost predicate AttemptsOk(l: Limits, bindings: seq<Binding>, behaviours: seq<Behaviour>, attempts: seq<Attempt>)
    requires bindings != [] && |attempts| <= |behaviours|
  {
    && (forall i | 0 <= i < |attempts| :: Timely(l, behaviours[i], attempts[i]))
    && (bindings[0].retryOwner.BindingOwned? ==> |attempts| <= 1)
    && (forall i | 0 <= i < |attempts| && i < 2 :: attempts[i].binding == bindings[0])
    && (forall i | 2 <= i < |attempts| ::
          attempts[i].binding in bindings[1..] && Allowed(l, bindings[0], attempts[i].binding))
  }

  /** What a finished run looks like: its attempts follow the plan in order, at most one more than there are
      bindings and only one when the binding owns its retries, the primary's first and then only equivalent
      covered fallbacks; every attempt but the last ended in a timeout or a transient failure; every adapter
      ran in time; and the result is the last attempt's. */
  ghost predicate RunOk(
    l: Limits, bindings: seq<Binding>, behaviours: seq<Behaviour>, r: RunnerResult, attempts: seq<Attempt>)
    requires |behaviours| > |bindings|
  {
    var plan := Plan(l, bindings);
    && |attempts| <= |plan| && |plan| <= |bindings| + 1
    && (forall i | 0 <= i < |attempts| :: attempts[i] == Try(l, plan[i], behaviours[i]).0)
    && (forall i | 0 <= i < |attempts| - 1 :: Retryable(attempts[i].outcome))
    && (bindings == [] ==> attempts == [] && r.failure == Some(PermanentFailure))
    && (bindings != [] ==>
          && attempts != [] && AttemptsOk(l, bindings, behaviours, attempts)
          && var last := attempts[|attempts| - 1];
          && (Retryable(last.outcome) ==> |attempts| == |plan| && r.failure == Some(TransientFailure))
          && (last.outcome.FailedWith? && !Retryable(last.outcome) ==> r.failure == Some(last.outcome.failure))
          && (last.outcome.Success? || last.outcome.Partial? ==>
                && r.failure.None? && r.selected == Some(last.binding)
                && var given := Try(l, plan[|attempts| - 1], behaviours[|attempts| - 1]).1;
                && r.output == Some(Bounded(given, l)) && r.partial == given.partial))
    && (r.failure.Some? ==> r.output.None? && r.selected.None? && r.partial.None?)
  }

  lemma {:induction false} FallbacksFew(l: Limits, primary: Binding, candidates: seq<Binding>)
    ensures |Fallbacks(l, primary, candidates)| <= |candidates|
    ensures forall b | b in Fallbacks(l, primary, candidates) :: b in candidates && Allowed(l, primary, b)
  {
    hide Allowed;
    if candidates != [] { FallbacksFew(l, primary, candidates[..|candidates| - 1]); }
  }

  /** Which readings of the clock make an attempt safe: whatever the adapter does it ends by the total timeout,
      exactly when it is not started at all or the readings are in time. An adapter that hangs shows the
      other half. */
  lemma NeverLateExactly(l: Limits, b: Binding, w: Behaviour)
    requires w.elapsed <= w.startedAt
    ensures NeverLate(l, b, w) <==> l.totalTimeout <= w.elapsed || InTime(l, w)
  {
    var hung := Try(l, b, w.(answer := Hung)).0;
    if w.elapsed < l.totalTimeout {
      assert hung.started.Some? && hung.ended == w.startedAt + WaitFor(l, w);
    }
  }

  /** Every adapter that ran ended within its own timeout, and by the total timeout if the readings are in
      time. */
  lemma RunsInTime(l: Limits, b: Binding, w: Behaviour)
    requires w.elapsed <= w.startedAt
    ensures Timely(l, w, Try(l, b, w).0)
  {
    NeverLateExactly(l, b, w);
    TriedBinding(l, b, w);
    hide NeverLate;
  }

  /** The overrun is real: the clock moves between its two readings and the adapter hangs. */
  lemma LateStartOverruns(b: Binding)
    ensures var l := Limits(1, 1, 10.0, 10.0, PublicData);
            var w := Behaviour(4.0, 5.0, 11.0, Hung);
            WellBehaved(w) && !InTime(l, w) && Try(l, b, w).0.started.Some? && Try(l, b, w).0.ended == 11.0
  {
  }

  /** the plan keeps a binding that owns its retries to one attempt, and after the primary's two attempts
      holds only equivalent, covered fallbacks */
  lemma PlanFacts(l: Limits, bindings: seq<Binding>)
    requires bindings != []
    ensures var plan := Plan(l, bindings);
            && plan != [] && plan[0] == bindings[0]
            && (bindings[0].retryOwner.BindingOwned? ==> |plan| == 1)
            && (|plan| > 1 ==> plan[1] == bindings[0])
            && forall i | 2 <= i < |plan| :: plan[i] in bindings[1..] && Allowed(l, bindings[0], plan[i])
  {
    hide Allowed;
    FallbacksFew(l, bindings[0], bindings[1..]);
    var plan := Plan(l, bindings);
    forall i | 2 <= i < |plan| ensures plan[i] in Fallbacks(l, bindings[0], bindings[1..]) {
      assert plan[i] == Fallbacks(l, bindings[0], bindings[1..])[i - 2];
    }
  }

  lemma PlanSize(l: Limits, bindings: seq<Binding>)
    requires bindings != []
    ensures |Plan(l, bindings)| <= |bindings| + 1
    ensures bindings[0].retryOwner.RunnerOwned? ==>
              |Plan(l, bindings)| == 2 + |Fallbacks(l, bindings[0], bindings[1..])|
    ensures Fallbacks(l, bindings[0], bindings[1..1]) == []
  {
    hide Allowed;
    FallbacksFew(l, bindings[0], bindings[1..]);
  }

  /** what following the plan means for every attempt made */
  lemma AttemptFacts(l: Limits, bindings: seq<Binding>, behaviours: seq<Behaviour>, attempts: seq<Attempt>)
    requires bindings != [] && |attempts| <= |Plan(l, bindings)| && |attempts| <= |behaviours|
    requires forall i | 0 <= i < |attempts| :: attempts[i] == Try(l, Plan(l, bindings)[i], behaviours[i]).0
    requires forall i | 0 <= i < |behaviours| :: WellBehaved(behaviours[i])
    ensures AttemptsOk(l, bindings, behaviours, attempts)
  {
    hide Try, Plan, Allowed, Timely;
    PlanFacts(l, bindings);
    forall i | 0 <= i < |attempts|
      ensures Timely(l, behaviours[i], attempts[i]) && attempts[i].binding == Plan(l, bindings)[i]
    {
      RunsInTime(l, Plan(l, bindings)[i], behaviours[i]);
      TriedBinding(l, Plan(l, bindings)[i], behaviours[i]);
    }
  }

  lemma TriedBinding(l: Limits, b: Binding, w: Behaviour)
    ensures Try(l, b, w).0.binding == b
  {
  }

  lemma TryFacts(l: Limits, b: Binding, w: Behaviour)
    requires WellBehaved(w)
    ensures var (a, r) := Try(l, b, w);
            && (r.failure.None? <==> a.outcome.Success? || a.outcome.Partial?)
            && (r.failure.Some? ==> if Retryable(a.outcome) then r.failure == Some(TransientFailure)
                                    else a.outcome == FailedWith(r.failure.value) && !r.failure.value.TransientFailure?)
            && a.binding == b
  {
  }

  /** attempts so far: the plan's first ones, all of them retryable */
  ghost predicate Underway(l: Limits, plan: seq<Binding>, behaviours: seq<Behaviour>, attempts: seq<Attempt>) {
    && |attempts| <= |plan| && |attempts| <= |behaviours|
    && forall i | 0 <= i < |attempts| ::
         attempts[i] == Try(l, plan[i], behaviours[i]).0 && Retryable(attempts[i].outcome)
  }

  /** what the run returns when this attempt is its last */
  function Verdict(l: Limits, attempt: (Attempt, AdapterResult)): RunnerResult {
    if attempt.1.failure.None?
    then RunnerResult(Some(Bounded(attempt.1, l)), None, attempt.1.partial, Some(attempt.0.binding))
    else RunnerResult(None, attempt.1.failure, None, None)
  }

  lemma Stops(l: Limits, bindings: seq<Binding>, behaviours: seq<Behaviour>, attempts: seq<Attempt>)
    requires bindings != [] && |behaviours| > |bindings|
    requires forall i | 0 <= i < |behaviours| :: WellBehaved(behaviours[i])
    requires Underway(l, Plan(l, bindings), behaviours, attempts) && |attempts| < |Plan(l, bindings)| <= |bindings| + 1
    ensures var n, plan := |attempts|, Plan(l, bindings);
            var attempt := Try(l, plan[n], behaviours[n]);
            && (attempt.1.failure != Some(TransientFailure) || n + 1 == |plan| ==>
                  RunOk(l, bindings, behaviours, Verdict(l, attempt), attempts + [attempt.0]))
            && (attempt.1.failure == Some(TransientFailure) ==> Underway(l, plan, behaviours, attempts + [attempt.0]))
  {
    hide Try, Bounded, WellBehaved, Plan, AttemptsOk;
    var n, plan := |attempts|, Plan(l, bindings);
    TryFacts(l, plan[n], behaviours[n]);
    var all := attempts + [Try(l, plan[n], behaviours[n]).0];
    assert forall i | 0 <= i < n :: all[i] == attempts[i];
    AttemptFacts(l, bindings, behaviours, all);
  }

  /** the clock does not step back over the run: an attempt is recorded once its adapter has ended, and the next
      one is begun after that */
  ghost predicate Steady(behaviours: seq<Behaviour>, attempts: seq<Attempt>)
    requires |attempts| <= |behaviours|
  {
    && (forall i | 0 <= i < |attempts| :: attempts[i].started.Some? ==> attempts[i].ended <= behaviours[i].recordedAt)
    && (forall i, j | 0 <= i < j < |attempts| :: behaviours[i].recordedAt <= behaviours[j].elapsed)
  }

  /** Once an adapter has run up to the total timeout, no later one is started. So at most one adapter of a run
      ends past it, the last that was started, and by no more than its own gap between the readings. */
  lemma OneOverrun(
    l: Limits, bindings: seq<Binding>, behaviours: seq<Behaviour>, r: RunnerResult, attempts: seq<Attempt>)
    requires |behaviours| > |bindings| && RunOk(l, bindings, behaviours, r, attempts) && Steady(behaviours, attempts)
    ensures forall i, j | 0 <= i < j < |attempts| && attempts[i].started.Some? && attempts[i].ended >= l.totalTimeout ::
              attempts[j].started.None? && attempts[j].outcome.Timeout?
    ensures forall i, j | 0 <= i < |attempts| && 0 <= j < |attempts| && attempts[i].started.Some?
                          && attempts[j].started.Some? && attempts[i].ended > l.totalTimeout ::
              (j != i ==> attempts[j].ended < l.totalTimeout)
              && attempts[i].ended <= l.totalTimeout + (behaviours[i].startedAt - behaviours[i].elapsed)
  {
    hide Plan, Allowed, Bounded, NeverLate, InTime;
    forall i, j | 0 <= i < j < |attempts| && attempts[i].started.Some? && attempts[i].ended >= l.totalTimeout
      ensures attempts[j].started.None? && attempts[j].outcome.Timeout?
    {
      assert behaviours[i].recordedAt <= behaviours[j].elapsed;
      NotStarted(l, Plan(l, bindings)[j], behaviours[j]);
    }
    hide Try;
  }

  lemma NotStarted(l: Limits, b: Binding, w: Behaviour)
    requires l.totalTimeout <= w.elapsed
    ensures Try(l, b, w).0.started.None? && Try(l, b, w).0.outcome.Timeout?
  {
  }

  /** BoundedRunner.run: `behaviours[i]` is what the i-th attempt meets. */
  method Run(l: Limits, bindings: seq<Binding>, behaviours: seq<Behaviour>)
    returns (r: RunnerResult, attempts: seq<Attempt>)
    requires |behaviours| > |bindings| && forall i | 0 <= i < |behaviours| :: WellBehaved(behaviours[i])
    ensures RunOk(l, bindings, behaviours, r, attempts)
  {
    hide Try, Bounded, Allowed, WellBehaved, Retryable;
    attempts := [];
    if bindings == [] { return RunnerResult(None, Some(PermanentFailure), None, None), []; }
    var primary := bindings[0];
    ghost var plan := Plan(l, bindings);
    PlanFacts(l, bindings);
    PlanSize(l, bindings);
    hide RunOk, Plan;

    Stops(l, bindings, behaviours, attempts);
    var attempt := Try(l, primary, behaviours[0]);
    attempts := attempts + [attempt.0];
    if attempt.1.failure != Some(TransientFailure) || primary.retryOwner.BindingOwned? {
      return Verdict(l, attempt), attempts;
    }

    Stops(l, bindings, behaviours, attempts);
    attempt := Try(l, primary, behaviours[1]);
    attempts := attempts + [attempt.0];
    if attempt.1.failure != Some(TransientFailure) { return Verdict(l, attempt), attempts; }

    var i := 1;
    while i < |bindings|
      invariant 1 <= i <= |bindings|
      invariant |attempts| == 2 + |Fallbacks(l, primary, bindings[1..i])|
      invariant Underway(l, plan, behaviours, attempts)
      invariant |attempts| == |plan| ==> RunOk(l, bindings, behaviours, Verdict(l, attempt), attempts)
      invariant attempt.1.failure == Some(TransientFailure)
    {
      var fallback := bindings[i];
      PlanContinues(l, bindings, i);
      if Allowed(l, primary, fallback) {
        Stops(l, bindings, behaviours, attempts);
        attempt := Try(l, fallback, behaviours[|attempts|]);
        attempts := attempts + [attempt.0];
        if attempt.1.failure != Some(TransientFailure) { return Verdict(l, attempt), attempts; }
      }
      i := i + 1;
    }
    assert bindings[1..i] == bindings[1..];
    return RunnerResult(None, Some(TransientFailure), None, None), attempts;
  }

  /** the next allowed fallback is the next entry of the plan */
  lemma PlanContinues(l: Limits, bindings: seq<Binding>, i: nat)
    requires 1 <= i < |bindings| && bindings[0].retryOwner.RunnerOwned?
    ensures var primary := bindings[0];
            var n := 2 + |Fallbacks(l, primary, bindings[1..i])|;
            if Allowed(l, primary, bindings[i]) then
              && |Fallbacks(l, primary, bindings[1..i + 1])| == |Fallbacks(l, primary, bindings[1..i])| + 1
              && n < |Plan(l, bindings)| && Plan(l, bindings)[n] == bindings[i]
            else Fallbacks(l, primary, bindings[1..i + 1]) == Fallbacks(l, primary, bindings[1..i])
  {
    hide Allowed;
    var primary := bindings[0];
    assert bindings[1..i + 1][..i - 1] == bindings[1..i];
    assert bindings[1..][..i] == bindings[1..i + 1];
    FallbacksPrefix(l, primary, bindings[1..], i);
  }

  lemma {:induction false} FallbacksPrefix(l: Limits, primary: Binding, candidates: seq<Binding>, n: nat)
    requires n <= |candidates|
    ensures Fallbacks(l, primary, candidates[..n]) <= Fallbacks(l, primary, candidates)
    decreases |candidates| - n
  {
    hide Allowed;
    if n < |candidates| {
      assert candidates[..n + 1][..n] == candidates[..n];
      FallbacksPrefix(l, primary, candidates, n + 1);
    } else {
      assert candidates[..n] == candidates;
    }
  }
}
