/** The default-deny model policy (connector/media_policy.py: ModelPolicy, prepare_model_execution,
    PreparedModelExecution): what its digest identifies, what it authorizes, and which binding runs. */
module ModelPolicy {
  import opened Prelude
  import opened Errors
  import opened Records
  import opened Receipts
  import opened Normalized
  import opened Json
  import opened Schema
  import opened Wire
  import opened FileGrants

  datatype Model = Model(provider: string, model: string)

  datatype Row = Row(
    source: string, operation: string, mediaClass: string, primary: Model, maximumBytes: int, maximumSeconds: int,
    maximumChunks: int, fallbacks: seq<Model>, cleanup: Option<Model>, costUnit: string, costCeiling: int)

  datatype RowKey = RowKey(source: string, operation: string, mediaClass: string)

  datatype Policy = Policy(revision: int, rows: seq<Row>)

  const LOCAL_FILE := "connector_local_file"

  function KeyOf(r: Row): RowKey {
    RowKey(r.source, r.operation, r.mediaClass)
  }

  /** the constructor refuses two rows for one operation and media class */
  predicate DistinctRows(rows: seq<Row>) {
    forall i, j | 0 <= i < j < |rows| :: KeyOf(rows[i]) != KeyOf(rows[j])
  }

  // ------------------------------------------------------------------ the order of rows

  predicate KeyLess(a: RowKey, b: RowKey) {
    || Less(a.source, b.source)
    || (a.source == b.source && Less(a.operation, b.operation))
    || (a.source == b.source && a.operation == b.operation && Less(a.mediaClass, b.mediaClass))
  }

  lemma KeyTrichotomy(a: RowKey, b: RowKey)
    ensures KeyLess(a, b) || KeyLess(b, a) || a == b
    ensures !(KeyLess(a, b) && KeyLess(b, a)) && (a == b ==> !KeyLess(a, b))
  {
    hide Less;
    LessTrichotomy(a.source, b.source);
    LessTrichotomy(a.operation, b.operation);
    LessTrichotomy(a.mediaClass, b.mediaClass);
  }

  lemma KeyTransitive(a: RowKey, b: RowKey, c: RowKey)
    requires KeyLess(a, b) && KeyLess(b, c)
    ensures KeyLess(a, c)
  {
    hide Less;
    if Less(a.source, b.source) && Less(b.source, c.source) { LessTransitive(a.source, b.source, c.source); }
    if Less(a.operation, b.operation) && Less(b.operation, c.operation) {
      LessTransitive(a.operation, b.operation, c.operation);
    }
    if Less(a.mediaClass, b.mediaClass) && Less(b.mediaClass, c.mediaClass) {
      LessTransitive(a.mediaClass, b.mediaClass, c.mediaClass);
    }
  }

  ghost predicate InOrder(rows: seq<Row>) {
    forall i, j | 0 <= i < j < |rows| :: KeyLess(KeyOf(rows[i]), KeyOf(rows[j]))
  }

  function InsertRow(rows: seq<Row>, r: Row): seq<Row> {
    if rows == [] || KeyLess(KeyOf(r), KeyOf(rows[0])) then [r] + rows else [rows[0]] + InsertRow(rows[1..], r)
  }

  /** sorted(rows, key=(source, operation, media_source_class)) */
  function SortRows(rows: seq<Row>): seq<Row> {
    if rows == [] then [] else InsertRow(SortRows(rows[..|rows| - 1]), rows[|rows| - 1])
  }

  lemma {:induction false} InsertedInOrder(rows: seq<Row>, r: Row)
    requires InOrder(rows) && forall i | 0 <= i < |rows| :: KeyOf(rows[i]) != KeyOf(r)
    ensures InOrder(InsertRow(rows, r)) && multiset(InsertRow(rows, r)) == multiset(rows) + multiset{r}
  {
    hide KeyLess;
    if rows == [] {
    } else if KeyLess(KeyOf(r), KeyOf(rows[0])) {
      forall i | 0 < i < |rows| ensures KeyLess(KeyOf(r), KeyOf(rows[i])) {
        KeyTransitive(KeyOf(r), KeyOf(rows[0]), KeyOf(rows[i]));
      }
    } else {
      assert rows == [rows[0]] + rows[1..];
      InsertedInOrder(rows[1..], r);
      KeyTrichotomy(KeyOf(r), KeyOf(rows[0]));
      FirstStaysFirst(rows[0], rows[1..], r, InsertRow(rows[1..], r));
    }
  }

  lemma FirstStaysFirst(first: Row, tail: seq<Row>, r: Row, all: seq<Row>)
    requires InOrder([first] + tail) && InOrder(all) && KeyLess(KeyOf(first), KeyOf(r))
    requires multiset(all) == multiset(tail) + multiset{r}
    ensures InOrder([first] + all)
  {
    hide KeyLess;
    forall i | 0 <= i < |all| ensures KeyLess(KeyOf(first), KeyOf(all[i])) {
      assert all[i] in multiset(all);
      if all[i] != r {
        assert all[i] in tail;
        var j :| 0 <= j < |tail| && tail[j] == all[i];
        assert ([first] + tail)[0] == first && ([first] + tail)[j + 1] == tail[j];
      }
    }
  }

  lemma {:induction false} SortedRows(rows: seq<Row>)
    requires DistinctRows(rows)
    ensures InOrder(SortRows(rows)) && multiset(SortRows(rows)) == multiset(rows)
  {
    if rows != [] {
      var front, last := rows[..|rows| - 1], rows[|rows| - 1];
      assert rows == front + [last];
      SortedRows(front);
      var sorted := SortRows(front);
      forall i | 0 <= i < |sorted| ensures KeyOf(sorted[i]) != KeyOf(last) {
        assert sorted[i] in multiset(sorted);
        assert sorted[i] in front;
      }
      InsertedInOrder(sorted, last);
    }
  }

  /** rows in order are determined by which rows they are */
  lemma {:induction false} OrderIsUnique(a: seq<Row>, b: seq<Row>)
    requires InOrder(a) && InOrder(b) && multiset(a) == multiset(b)
    ensures a == b
  {
    if a == [] {
      assert |b| == |multiset(b)|;
    } else {
      assert a[0] in multiset(b);
      LeastFirst(a, b);
      assert a == [a[0]] + a[1..] && b == [b[0]] + b[1..];
      TailInOrder(a);
      TailInOrder(b);
      hide InOrder;
      assert multiset(a[1..]) == multiset(a) - multiset{a[0]} && multiset(b[1..]) == multiset(b) - multiset{b[0]};
      OrderIsUnique(a[1..], b[1..]);
    }
  }

  lemma TailInOrder(a: seq<Row>)
    requires InOrder(a) && a != []
    ensures InOrder(a[1..])
  {
    hide KeyLess;
  }

  lemma LeastFirst(a: seq<Row>, b: seq<Row>)
    requires InOrder(a) && InOrder(b) && multiset(a) == multiset(b) && a != [] && b != []
    ensures a[0] == b[0]
  {
    hide KeyLess;
    assert a[0] in multiset(b) && b[0] in multiset(a);
    var i :| 0 <= i < |b| && b[i] == a[0];
    var j :| 0 <= j < |a| && a[j] == b[0];
    KeyTrichotomy(KeyOf(a[0]), KeyOf(b[0]));
  }

  // ------------------------------------------------------------------ the digest

  const MODEL_KEYS := ["model", "provider"]
  const COST_KEYS := ["ceiling_microunits", "unit"]
  const ROW_KEYS := [
    "cleanup", "cost", "fallbacks", "maximum_chunks", "maximum_duration_seconds", "maximum_source_bytes",
    "media_source_class", "operation", "primary", "source"]
  const POLICY_KEYS := ["revision", "rows", "version"]

  function ModelValue(m: Model): Value {
    Object(MODEL_KEYS, [Str(m.model), Str(m.provider)])
  }

  function RowSlots(r: Row): (vs: seq<Value>)
    ensures |vs| == |ROW_KEYS|
  {
    [
      if r.cleanup.None? then Null else ModelValue(r.cleanup.value),
      Object(COST_KEYS, [Int(r.costCeiling), Str(r.costUnit)]),
      Arr(Values(r.fallbacks, ModelValue)),
      Int(r.maximumChunks), Int(r.maximumSeconds), Int(r.maximumBytes),
      Str(r.mediaClass), Str(r.operation), ModelValue(r.primary), Str(r.source)]
  }

  function RowValue(r: Row): Value {
    Object(ROW_KEYS, RowSlots(r))
  }

  function PolicyValue(p: Policy): Value {
    Object(POLICY_KEYS, [Int(p.revision), Arr(Values(SortRows(p.rows), RowValue)), Str("v1")])
  }

  /** ModelPolicy.digest; None where the canonical encoding raises, as beyond the frame limit */
  function DigestOf(hash: Bytes -> string, p: Policy): Option<string> {
    Wrap(Printed(PolicyValue(p)), hash)
  }

  method Digest(hash: Bytes -> string, p: Policy) returns (digest: Option<string>)
    ensures digest == DigestOf(hash, p)
  {
    hide Printed, Object, RowValue, SortRows;
    var sorted := SortRows(p.rows);
    var rows: seq<Value> := [];
    for i := 0 to |sorted|
      invariant rows == Values(sorted[..i], RowValue)
    {
      assert sorted[..i + 1] == sorted[..i] + [sorted[i]];
      rows := rows + [RowValue(sorted[i])];
    }
    assert sorted[..|sorted|] == sorted;
    return Wrap(Printed(Object(POLICY_KEYS, [Int(p.revision), Arr(rows), Str("v1")])), hash);
  }

  lemma ObjectsDiffer(keys: seq<string>, a: seq<Value>, b: seq<Value>)
    requires |keys| == |a| == |b| && Object(keys, a) == Object(keys, b)
    ensures a == b
  {
    hide Object, ValuesOf;
    ReadsBuilt(keys, a, Object(keys, a));
    ReadsBuilt(keys, b, Object(keys, a));
  }

  lemma ModelsDiffer(a: Model, b: Model)
    requires ModelValue(a) == ModelValue(b)
    ensures a == b
  {
    hide Object;
    var s, t := [Str(a.model), Str(a.provider)], [Str(b.model), Str(b.provider)];
    ObjectsDiffer(MODEL_KEYS, s, t);
    assert s[0] == t[0] && s[1] == t[1];
  }

  lemma ListsDiffer<T>(a: seq<T>, b: seq<T>, f: T -> Value)
    requires Values(a, f) == Values(b, f) && forall x, y :: f(x) == f(y) ==> x == y
    ensures a == b
  {
    assert |a| == |Values(a, f)| && |b| == |Values(b, f)|;
    forall i | 0 <= i < |a| ensures a[i] == b[i] {
      assert Values(a, f)[i] == f(a[i]) && Values(b, f)[i] == f(b[i]);
    }
  }

  lemma CostsDiffer(a: Row, b: Row)
    requires Object(COST_KEYS, [Int(a.costCeiling), Str(a.costUnit)])
             == Object(COST_KEYS, [Int(b.costCeiling), Str(b.costUnit)])
    ensures a.costCeiling == b.costCeiling && a.costUnit == b.costUnit
  {
    hide Object;
    var s, t := [Int(a.costCeiling), Str(a.costUnit)], [Int(b.costCeiling), Str(b.costUnit)];
    ObjectsDiffer(COST_KEYS, s, t);
    assert s[0] == t[0] && s[1] == t[1];
  }

  lemma RowsDiffer(a: Row, b: Row)
    requires RowValue(a) == RowValue(b)
    ensures a == b
  {
    var s, t := RowSlots(a), RowSlots(b);
    ObjectsDiffer(ROW_KEYS, s, t);
    hide RowValue;
    assert s[0] == t[0] && s[1] == t[1] && s[2] == t[2] && s[3] == t[3] && s[4] == t[4];
    assert s[5] == t[5] && s[6] == t[6] && s[7] == t[7] && s[8] == t[8] && s[9] == t[9];
    CostsDiffer(a, b);
    forall x, y | ModelValue(x) == ModelValue(y) ensures x == y { ModelsDiffer(x, y); }
    ListsDiffer(a.fallbacks, b.fallbacks, ModelValue);
  }

  lemma PoliciesDiffer(a: Policy, b: Policy)
    requires PolicyValue(a) == PolicyValue(b)
    ensures a.revision == b.revision && SortRows(a.rows) == SortRows(b.rows)
  {
    hide Object, RowValue, SortRows, Values;
    var s := [Int(a.revision), Arr(Values(SortRows(a.rows), RowValue)), Str("v1")];
    var t := [Int(b.revision), Arr(Values(SortRows(b.rows), RowValue)), Str("v1")];
    ObjectsDiffer(POLICY_KEYS, s, t);
    assert s[0] == t[0] && s[1] == t[1];
    forall x, y | RowValue(x) == RowValue(y) ensures x == y { RowsDiffer(x, y); }
    ListsDiffer(SortRows(a.rows), SortRows(b.rows), RowValue);
  }

  lemma ModelDict(m: Model)
    ensures IsDict(ModelValue(m))
  {
    hide Less;
    LessAt("model", "provider", 0);
    ObjectIsDict(MODEL_KEYS, [Str(m.model), Str(m.provider)]);
  }

  lemma CostDict(r: Row)
    ensures IsDict(Object(COST_KEYS, [Int(r.costCeiling), Str(r.costUnit)]))
  {
    hide Less;
    LessAt("ceiling_microunits", "unit", 0);
    ObjectIsDict(COST_KEYS, [Int(r.costCeiling), Str(r.costUnit)]);
  }

  lemma MaximumKeysAscend()
    ensures Less("maximum_chunks", "maximum_duration_seconds")
    ensures Less("maximum_duration_seconds", "maximum_source_bytes")
  {
    hide Less;
    LessAt("maximum_chunks", "maximum_duration_seconds", 8);
    LessAt("maximum_duration_seconds", "maximum_source_bytes", 8);
  }

  lemma RowKeysAscend()
    ensures Ascending(ROW_KEYS)
  {
    hide Less;
    LessAt("cleanup", "cost", 1);
    LessAt("cost", "fallbacks", 0);
    LessAt("fallbacks", "maximum_chunks", 0);
    MaximumKeysAscend();
    LessAt("maximum_source_bytes", "media_source_class", 1);
    LessAt("media_source_class", "operation", 0);
    LessAt("operation", "primary", 0);
    LessAt("primary", "source", 0);
  }

  lemma RowDict(r: Row)
    ensures IsDict(RowValue(r))
  {
    hide Object, ModelValue, Ascending;
    if r.cleanup.Some? { ModelDict(r.cleanup.value); }
    CostDict(r);
    forall i | 0 <= i < |r.fallbacks| ensures IsDict(Values(r.fallbacks, ModelValue)[i]) { ModelDict(r.fallbacks[i]); }
    ModelDict(r.primary);
    RowKeysAscend();
    ObjectIsDict(ROW_KEYS, RowSlots(r));
  }

  lemma PolicyDict(p: Policy)
    ensures IsDict(PolicyValue(p))
  {
    hide Less, RowValue, SortRows;
    LessAt("revision", "rows", 1);
    LessAt("rows", "version", 0);
    var rows := SortRows(p.rows);
    forall i | 0 <= i < |rows| ensures IsDict(Values(rows, RowValue)[i]) { RowDict(rows[i]); }
    ObjectIsDict(POLICY_KEYS, [Int(p.revision), Arr(Values(rows, RowValue)), Str("v1")]);
  }

  /** the same revision with the same rows, in whatever order they were written down */
  ghost predicate SamePolicy(a: Policy, b: Policy) {
    a.revision == b.revision && multiset(a.rows) == multiset(b.rows)
  }

  ghost predicate Collides(hash: Bytes -> string, a: Policy, b: Policy) {
    && Printed(PolicyValue(a)).Some? && Printed(PolicyValue(b)).Some?
    && Printed(PolicyValue(a)) != Printed(PolicyValue(b))
    && hash(Printed(PolicyValue(a)).value) == hash(Printed(PolicyValue(b)).value)
  }

  /** The digest identifies the policy: two policies have one digest exactly when they are the same revision
      with the same rows in any order, or their encodings collide. */
  lemma DigestIdentifies(hash: Bytes -> string, a: Policy, b: Policy)
    requires DistinctRows(a.rows) && DistinctRows(b.rows) && DigestOf(hash, a).Some?
    ensures DigestOf(hash, a) == DigestOf(hash, b) <==> SamePolicy(a, b) || Collides(hash, a, b)
  {
    hide PolicyValue, Printed, DistinctRows, SortRows, InOrder;
    SortedRows(a.rows);
    SortedRows(b.rows);
    if SamePolicy(a, b) {
      OrderIsUnique(SortRows(a.rows), SortRows(b.rows));
      SameSortedSameValue(a, b);
    }
    if Printed(PolicyValue(a)) == Printed(PolicyValue(b)) {
      PolicyDict(a);
      PolicyDict(b);
      LoadsPrinted(Printed(PolicyValue(a)).value, PolicyValue(a));
      LoadsPrinted(Printed(PolicyValue(a)).value, PolicyValue(b));
      PoliciesDiffer(a, b);
    }
  }

  lemma SameSortedSameValue(a: Policy, b: Policy)
    requires a.revision == b.revision && SortRows(a.rows) == SortRows(b.rows)
    ensures PolicyValue(a) == PolicyValue(b)
  {
  }

  // ------------------------------------------------------------------ authorization

  /** require_row: the first matching row */
  function RequireRow(rows: seq<Row>, key: RowKey): Option<Row> {
    if rows == [] then None else if KeyOf(rows[0]) == key then Some(rows[0]) else RequireRow(rows[1..], key)
  }

  /** With distinct keys the first matching row is the matching row. */
  lemma {:induction false} RequireRowExactly(rows: seq<Row>, key: RowKey, r: Row)
    requires DistinctRows(rows)
    ensures RequireRow(rows, key) == Some(r) <==> r in rows && KeyOf(r) == key
  {
    if rows != [] {
      assert rows == [rows[0]] + rows[1..];
      RequireRowExactly(rows[1..], key, r);
      if r in rows[1..] {
        var i :| 0 <= i < |rows[1..]| && rows[1..][i] == r;
        assert rows[i + 1] == r;
      }
    }
  }

  datatype Workload = Workload(sourceBytes: int, seconds: int, chunks: int)

  predicate Fits(w: Workload, r: Row) {
    w.sourceBytes <= r.maximumBytes && w.seconds <= r.maximumSeconds && w.chunks <= r.maximumChunks
  }

  /** authorize, for a request and the policy digest its accepted claim was given */
  function Authorize(
    hash: Bytes -> string, p: Policy, r: SignedRequest, policyDigest: string, mediaClass: string,
    w: Workload): Reply<Row>
  {
    if r.policyRevision != p.revision then Raised(ModelPolicyDenied)
    else
      var digest := DigestOf(hash, p);
      if digest.None? then Rejected
      else if policyDigest != digest.value then Raised(ModelPolicyDenied)
      else
        var row := RequireRow(p.rows, RowKey(r.source, r.operation, mediaClass));
        if row.None? || !Fits(w, row.value) then Raised(ModelPolicyDenied) else Done(row.value)
  }

  /** Authorization gives a row exactly when it is the policy's row for this operation and media class, the
      workload fits it, and revision and digest are the claim's. */
  lemma AuthorizedExactly(
    hash: Bytes -> string, p: Policy, r: SignedRequest, policyDigest: string, mediaClass: string, w: Workload, row: Row)
    requires DistinctRows(p.rows)
    ensures Authorize(hash, p, r, policyDigest, mediaClass, w) == Done(row) <==>
              && r.policyRevision == p.revision && DigestOf(hash, p) == Some(policyDigest)
              && row in p.rows
              && row.source == r.source && row.operation == r.operation && row.mediaClass == mediaClass
              && w.sourceBytes <= row.maximumBytes && w.seconds <= row.maximumSeconds && w.chunks <= row.maximumChunks
  {
    hide DistinctRows, RequireRow, DigestOf;
    var key := RowKey(r.source, r.operation, mediaClass);
    RequireRowExactly(p.rows, key, row);
  }

  /** What is authorized depends on the digest alone: two policies with one digest decide every request and
      workload alike, unless they show a collision. */
  lemma SameDigestSameDecision(
    hash: Bytes -> string, a: Policy, b: Policy, r: SignedRequest, policyDigest: string, mediaClass: string,
    w: Workload)
    requires DistinctRows(a.rows) && DistinctRows(b.rows)
    requires DigestOf(hash, a).Some? && DigestOf(hash, a) == DigestOf(hash, b)
    ensures Collides(hash, a, b)
            || Authorize(hash, a, r, policyDigest, mediaClass, w) == Authorize(hash, b, r, policyDigest, mediaClass, w)
  {
    hide DistinctRows, RequireRow, DigestOf, Collides;
    DigestIdentifies(hash, a, b);
    if SamePolicy(a, b) {
      var key := RowKey(r.source, r.operation, mediaClass);
      forall row ensures row in a.rows <==> row in b.rows {
        assert row in multiset(a.rows) <==> row in multiset(b.rows);
      }
      var x, y := RequireRow(a.rows, key), RequireRow(b.rows, key);
      if x.Some? {
        RequireRowExactly(a.rows, key, x.value);
        RequireRowExactly(b.rows, key, x.value);
      }
      if y.Some? {
        RequireRowExactly(a.rows, key, y.value);
        RequireRowExactly(b.rows, key, y.value);
      }
    }
  }

  // ------------------------------------------------------------------ which binding runs

  datatype ModelBinding = ModelBinding(source: string, operation: string, model: Model, backend: BackendIdentity)

  function ModelsInOrder(r: Row): seq<Model> {
    [r.primary] + r.fallbacks
  }

  predicate Runs(b: ModelBinding, r: SignedRequest, m: Model) {
    b.source == r.source && b.operation == r.operation && b.model == m
  }

  datatype BindingKey = BindingKey(source: string, operation: string, model: Model)

  function BindingKeyOf(b: ModelBinding): BindingKey {
    BindingKey(b.source, b.operation, b.model)
  }

  predicate DistinctBindings(bindings: seq<ModelBinding>) {
    forall i, j | 0 <= i < j < |bindings| :: BindingKeyOf(bindings[i]) != BindingKeyOf(bindings[j])
  }

  ghost predicate Unbound(bindings: seq<ModelBinding>, r: SignedRequest, m: Model) {
    forall b | b in bindings :: !Runs(b, r, m)
  }

  /** the models a row may use: its primary and then its fallbacks */
  function ModelAt(row: Row, i: nat): Model
    requires i <= |row.fallbacks|
  {
    if i == 0 then row.primary else row.fallbacks[i - 1]
  }

  /** this is the binding for the first of the row's models that has one for the request's operation */
  ghost predicate FirstBound(row: Row, bindings: seq<ModelBinding>, r: SignedRequest, b: ModelBinding, i: nat) {
    && i <= |row.fallbacks| && b in bindings
    && b.source == r.source && b.operation == r.operation && b.model == ModelAt(row, i)
    && forall k, d | 0 <= k < i && d in bindings ::
         !(d.source == r.source && d.operation == r.operation && d.model == ModelAt(row, k))
  }

  ghost predicate NoneBound(row: Row, bindings: seq<ModelBinding>, r: SignedRequest) {
    forall k, d | 0 <= k <= |row.fallbacks| && d in bindings ::
      !(d.source == r.source && d.operation == r.operation && d.model == ModelAt(row, k))
  }

  method FirstBinding(bindings: seq<ModelBinding>, r: SignedRequest, m: Model) returns (b: Option<ModelBinding>)
    ensures b.None? <==> Unbound(bindings, r, m)
    ensures b.Some? ==> b.value in bindings && Runs(b.value, r, m)
  {
    for i := 0 to |bindings|
      invariant forall j | 0 <= j < i :: !Runs(bindings[j], r, m)
    {
      if Runs(bindings[i], r, m) { return Some(bindings[i]); }
    }
    return None;
  }

  /** The selected binding is for the first model, in the row's order, that is bound at all. */
  method Select(row: Row, bindings: seq<ModelBinding>, r: SignedRequest)
    returns (selected: Option<ModelBinding>, index: nat)
    ensures selected.None? <==> NoneBound(row, bindings, r)
    ensures selected.Some? ==> FirstBound(row, bindings, r, selected.value, index)
  {
    var models := ModelsInOrder(row);
    index := 0;
    while index < |models|
      invariant index <= |models|
      invariant forall k | 0 <= k < index :: Unbound(bindings, r, ModelAt(row, k))
    {
      assert models[index] == ModelAt(row, index);
      selected := FirstBinding(bindings, r, models[index]);
      if selected.Some? { return; }
      index := index + 1;
    }
    assert forall k | 0 <= k <= |row.fallbacks| :: Unbound(bindings, r, ModelAt(row, k));
    selected, index := None, 0;
  }

  datatype Plan = Plan(policyRevision: int, row: Row, workload: Workload, binding: ModelBinding, fallbackIndex: nat)

  datatype Prepared = Ready(plan: Plan, file: Option<PendingFile>) | Refused(code: ErrorCode) | Malformed

  /** The policy and the binding are resolved before a file mapping is touched: the mapping is spent exactly
      when the request is authorized, a model of the row is bound and the media is a local file. The
      execution is ready exactly when, besides, what was spent is revalidated, or there is no file at all. */
  method PrepareModelExecution(
    hash: Bytes -> string, p: Policy, r: SignedRequest, policyDigest: string, mediaClass: string, w: Workload,
    bindings: seq<ModelBinding>, registry: ProcessLocalFileGrants, offered: bool, fileGrantId: Option<Id>,
    verified: bool, current: Reopened)
    returns (out: Prepared)
    modifies registry`granted
    ensures var allowed := Authorize(hash, p, r, policyDigest, mediaClass, w);
            var bound := allowed.Done? && DistinctBindings(bindings) && !NoneBound(allowed.value, bindings, r);
            var spends := bound && mediaClass == LOCAL_FILE && offered && fileGrantId.Some?;
            var (left, spent) := if spends then Spend(old(registry.Contents()), fileGrantId.value)
                                 else (old(registry.Contents()), None);
            && registry.Contents() == left
            && (out.Ready? <==>
                  && bound
                  && (if mediaClass == LOCAL_FILE then
                        && spent.Some? && IdOf(spent.value) == fileGrantId.value && verified
                        && current == Some(spent.value.snapshot)
                      else !offered && fileGrantId.None?))
            && (out.Ready? ==>
                  && out.file == spent && out.plan.row == allowed.value
                  && out.plan.policyRevision == p.revision && out.plan.workload == w)
            && (allowed.Raised? ==> out == Refused(allowed.code))
            && (allowed.Done? && DistinctBindings(bindings) && !bound ==> out == Refused(BackendUnbound))
    ensures out.Ready? ==> FirstBound(out.plan.row, bindings, r, out.plan.binding, out.plan.fallbackIndex)
  {
    hide Authorize, NoneBound, FirstBound;
    var allowed := Authorize(hash, p, r, policyDigest, mediaClass, w);
    if allowed.Raised? { return Refused(allowed.code); }
    if allowed.Rejected? || !DistinctBindings(bindings) { return Malformed; }
    var row := allowed.value;
    var selected, index := Select(row, bindings, r);
    if selected.None? { return Refused(BackendUnbound); }
    var file: Option<PendingFile> := None;
    if mediaClass == LOCAL_FILE {
      if !offered || fileGrantId.None? { return Refused(FileGrantInvalid); }
      var consumed, code := registry.ConsumeOne(fileGrantId.value, verified, current);
      if consumed.None? { return Refused(code.value); }
      file := consumed;
    } else if offered || fileGrantId.Some? {
      return Refused(FileGrantInvalid);
    }
    return Ready(Plan(p.revision, row, w, selected.value, index), file);
  }

  // ------------------------------------------------------------------ one use

  /** what the injected executor did */
  datatype Outcome = Returned(result: OperationResult) | Failed(code: ErrorCode) | Invalid

  class PreparedModelExecution {
    const contract: Contract
    const plan: Plan
    const hasFile: bool
    var executed: bool
    /** executor starts, and closings of the local file, so far */
    var starts: nat
    var closed: nat

    ghost predicate Valid()
      reads this
    {
      && starts <= 1 && (!executed ==> starts == 0)
      && closed == if executed && hasFile then 1 else 0
    }

    constructor (contract: Contract, plan: Plan, hasFile: bool)
      ensures Valid() && !executed
      ensures this.contract == contract && this.plan == plan && this.hasFile == hasFile
    {
      this.contract, this.plan, this.hasFile := contract, plan, hasFile;
      executed, starts, closed := false, 0, 0;
    }

    /** Over any sequence of Close and Execute calls the executor starts at most once and the local file is
        closed exactly once, by the first of them. */
    method Close()
      requires Valid()
      modifies this`executed, this`closed
      ensures Valid() && executed
    {
      if executed { return; }
      executed := true;
      if hasFile { closed := closed + 1; }
    }

    method Execute(outcome: Outcome) returns (r: Reply<OperationResult>)
      requires Valid()
      modifies this`executed, this`starts, this`closed
      ensures Valid() && executed
      ensures starts == old(starts) + if old(executed) then 0 else 1
      ensures old(executed) ==> r == Raised(BackendUnbound)
      ensures !old(executed) ==>
                var bounds := contract.bounds(plan.binding.source, plan.binding.operation);
                match outcome
                case Returned(result) =>
                  r == if bounds.Some? && |result.items| <= bounds.value.maximumItems
                          && ResultCharacters(result.items) <= bounds.value.maximumCharacters
                       then Done(result) else Rejected
                case Failed(code) => r == Raised(code)
                case Invalid => r == Rejected
    {
      if executed { return Raised(BackendUnbound); }
      executed := true;
      starts := starts + 1;
      match outcome {
        case Returned(result) =>
          var bounds := contract.bounds(plan.binding.source, plan.binding.operation);
          r := if bounds.Some? && Bounded(bounds.value, result) then Done(result) else Rejected;
        case Failed(code) => r := Raised(code);
        case Invalid => r := Rejected;
      }
      if hasFile { closed := closed + 1; }
    }
  }
}
