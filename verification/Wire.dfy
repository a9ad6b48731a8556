/** Closed JSON objects: a fixed list of keys in sorted order and one value for each
    (connector/protocol.py, _mapping and _closed). */
module Schema {
  import opened Prelude
  import opened Json

  function Object(keys: seq<string>, values: seq<Value>): Value
    requires |keys| == |values|
  {
    Obj(seq(|keys|, i requires 0 <= i < |keys| => Field(keys[i], values[i])))
  }

  /** the values of an object that has exactly these keys */
  function ValuesOf(keys: seq<string>, v: Value): (r: Option<seq<Value>>)
    ensures r.Some? ==> |r.value| == |keys|
  {
    if v.Obj? && |v.fields| == |keys| && forall i | 0 <= i < |keys| :: v.fields[i].key == keys[i]
    then Some(seq(|keys|, i requires 0 <= i < |keys| => v.fields[i].value))
    else None
  }

  /** Reading an object with these keys gives these values exactly when it was built from them. */
  lemma ReadsBuilt(keys: seq<string>, values: seq<Value>, v: Value)
    requires |keys| == |values|
    ensures ValuesOf(keys, v) == Some(values) <==> v == Object(keys, values)
  {
    if ValuesOf(keys, v) == Some(values) {
      forall i | 0 <= i < |keys| ensures v.fields[i] == Object(keys, values).fields[i] {
        assert ValuesOf(keys, v).value[i] == values[i];
      }
      assert v.fields == Object(keys, values).fields;
    }
    if v == Object(keys, values) {
      assert seq(|keys|, i requires 0 <= i < |keys| => v.fields[i].value) == values;
    }
  }

  predicate Ascending(keys: seq<string>) {
    forall i | 0 <= i < |keys| - 1 :: Less(keys[i], keys[i + 1])
  }

  lemma {:induction false} AscendingApart(keys: seq<string>, i: nat, j: nat)
    requires Ascending(keys) && i < j < |keys|
    ensures Less(keys[i], keys[j])
    decreases j
  {
    if i + 1 < j {
      AscendingApart(keys, i, j - 1);
      LessTransitive(keys[i], keys[j - 1], keys[j]);
    }
  }

  lemma ObjectIsDict(keys: seq<string>, values: seq<Value>)
    requires |keys| == |values| && Ascending(keys)
    requires forall i | 0 <= i < |values| :: IsDict(values[i])
    ensures IsDict(Object(keys, values))
  {
    hide Less;
    var fields := Object(keys, values).fields;
    forall i, j | 0 <= i < j < |fields| ensures Less(fields[i].key, fields[j].key) { AscendingApart(keys, i, j); }
  }

  // ------------------------------------------------------------------ how long an object prints

  lemma FieldLength(v: Value, i: nat)
    requires v.Obj? && i < |v.fields|
    ensures |PrintFields(v, i)| ==
              |Quoted(v.fields[i].key)| + 1 + |Print(v.fields[i].value)| + |PrintFields(v, i + 1)|
              + if i + 1 == |v.fields| then 0 else 1
  {
    hide Quoted, Print;
  }

  /** two objects that differ only in their last value print as long as each other, but for those values */
  lemma {:induction false} OtherLast(a: Value, b: Value, k: nat)
    requires a.Obj? && b.Obj? && k < |a.fields| == |b.fields|
    requires a.fields[..|a.fields| - 1] == b.fields[..|a.fields| - 1]
    requires a.fields[|a.fields| - 1].key == b.fields[|a.fields| - 1].key
    ensures |PrintFields(a, k)| + |Print(b.fields[|a.fields| - 1].value)|
            == |PrintFields(b, k)| + |Print(a.fields[|a.fields| - 1].value)|
    decreases |a.fields| - k
  {
    hide Print, PrintFields, Quoted;
    FieldLength(a, k);
    FieldLength(b, k);
    if k + 1 == |a.fields| {
      NoFieldsLeft(a);
      NoFieldsLeft(b);
    } else {
      assert a.fields[k] == a.fields[..|a.fields| - 1][k] == b.fields[..|a.fields| - 1][k] == b.fields[k];
      OtherLast(a, b, k + 1);
    }
  }

  /** an object prints no longer than one with the same keys whose values print no shorter */
  lemma {:induction false} FieldsNoLonger(a: Value, b: Value, k: nat)
    requires a.Obj? && b.Obj? && k <= |a.fields| == |b.fields|
    requires forall i | 0 <= i < |a.fields| ::
               a.fields[i].key == b.fields[i].key && |Print(a.fields[i].value)| <= |Print(b.fields[i].value)|
    ensures |PrintFields(a, k)| <= |PrintFields(b, k)|
    decreases |a.fields| - k
  {
    hide Print, PrintFields, Quoted;
    if k == |a.fields| {
      NoFieldsLeft(a);
    } else {
      FieldLength(a, k);
      FieldLength(b, k);
      FieldsNoLonger(a, b, k + 1);
    }
  }

  lemma NoFieldsLeft(v: Value)
    requires v.Obj?
    ensures |PrintFields(v, |v.fields|)| == 0
  {
  }

  // ------------------------------------------------------------------ sorted keys

  function Names(fields: seq<Field>): seq<string> {
    seq(|fields|, i requires 0 <= i < |fields| => fields[i].key)
  }

  lemma NamesAreKeys(fields: seq<Field>, k: string)
    ensures k in Names(fields) <==> k in (set f | f in fields :: f.key)
  {
    if k in Names(fields) {
      var i :| 0 <= i < |Names(fields)| && Names(fields)[i] == k;
      assert fields[i] in fields;
    }
    if k in (set f | f in fields :: f.key) {
      var f :| f in fields && f.key == k;
      var i :| 0 <= i < |fields| && fields[i] == f;
      assert Names(fields)[i] == k;
    }
  }

  /** Comparing the set of keys, as the source does, is comparing the sorted key list, as here. */
  lemma SortedKeysAreSet(fields: seq<Field>, keys: seq<string>)
    requires Sorted(fields) && Ascending(keys)
    ensures (set f | f in fields :: f.key) == (set k | k in keys) <==> Names(fields) == keys
  {
    hide Less;
    forall i, j | 0 <= i < j < |keys| ensures Less(keys[i], keys[j]) { AscendingApart(keys, i, j); }
    forall k ensures k in Names(fields) <==> k in (set f | f in fields :: f.key) { NamesAreKeys(fields, k); }
    SameSetSameList(Names(fields), keys);
    var have, want := set f | f in fields :: f.key, set k | k in keys;
    if have == want {
      forall k ensures k in Names(fields) <==> k in keys { assert k in want <==> k in keys; }
    }
    if Names(fields) == keys {
      forall k ensures k in have <==> k in want { assert k in want <==> k in keys; }
    }
  }

  ghost predicate Increasing(a: seq<string>) {
    forall i, j | 0 <= i < j < |a| :: Less(a[i], a[j])
  }

  lemma {:induction false} SameSetSameList(a: seq<string>, b: seq<string>)
    requires Increasing(a) && Increasing(b)
    ensures (forall k :: k in a <==> k in b) <==> a == b
  {
    hide Less;
    if forall k :: k in a <==> k in b {
      if a == [] {
        if b != [] { assert b[0] in a; }
      } else {
        assert a[0] in b;
        assert b != [];
        assert b[0] in a;
        SameFirst(a, b);
        assert a == [a[0]] + a[1..] && b == [b[0]] + b[1..];
        forall k ensures k in a[1..] <==> k in b[1..] {
          FirstNotLater(a);
          FirstNotLater(b);
          assert k in a <==> k == a[0] || k in a[1..];
          assert k in b <==> k == b[0] || k in b[1..];
        }
        SameSetSameList(a[1..], b[1..]);
      }
    }
  }

  lemma FirstNotLater(a: seq<string>)
    requires Increasing(a) && a != []
    ensures a[0] !in a[1..]
  {
    hide Less;
    forall i | 0 <= i < |a| - 1 ensures a[1..][i] != a[0] { LessTrichotomy(a[0], a[i + 1]); }
  }

  lemma SameFirst(a: seq<string>, b: seq<string>)
    requires Increasing(a) && Increasing(b) && a != [] && b != [] && a[0] in b && b[0] in a
    ensures a[0] == b[0]
  {
    hide Less;
    var i :| 0 <= i < |b| && b[i] == a[0];
    var j :| 0 <= j < |a| && a[j] == b[0];
    LessTrichotomy(a[0], b[0]);
  }

  /** two keys differ first at position k */
  lemma {:induction false} LessAt(a: string, b: string, k: nat)
    requires k <= |a| && k < |b| && a[..k] == b[..k] && (k < |a| ==> a[k] < b[k])
    ensures Less(a, b)
  {
    if k > 0 {
      assert a[0] == a[..k][0] && b[0] == b[..k][0];
      assert a[1..][..k - 1] == a[..k][1..] && b[1..][..k - 1] == b[..k][1..];
      LessAt(a[1..], b[1..], k - 1);
    }
  }

  // ------------------------------------------------------------------ nullable fields

  function OptionalText(s: Option<string>): Value {
    if s.None? then Null else Str(s.value)
  }

  function TextOf(v: Value): Option<Option<string>> {
    match v
    case Null => Some(None)
    case Str(s) => Some(Some(s))
    case _ => None
  }

  function OptionalInt(n: Option<int>): Value {
    if n.None? then Null else Int(n.value)
  }

  function IntOf(v: Value): Option<Option<int>> {
    match v
    case Null => Some(None)
    case Int(n) => Some(Some(n))
    case _ => None
  }

  // ------------------------------------------------------------------ lists

  function Values<T>(xs: seq<T>, f: T -> Value): seq<Value> {
    seq(|xs|, i requires 0 <= i < |xs| => f(xs[i]))
  }

  function AllOf<T>(vs: seq<Value>, g: Value -> Option<T>): Option<seq<T>> {
    if vs == [] then Some([])
    else
      var head, tail := g(vs[0]), AllOf(vs[1..], g);
      if head.None? || tail.None? then None else Some([head.value] + tail.value)
  }

  /** A list decodes elementwise exactly to what encodes to it. */
  lemma {:induction false} ListsAgree<T>(vs: seq<Value>, xs: seq<T>, f: T -> Value, g: Value -> Option<T>)
    requires forall v, x :: g(v) == Some(x) <==> v == f(x)
    ensures AllOf(vs, g) == Some(xs) <==> vs == Values(xs, f)
  {
    if vs == [] {
      assert xs == [] ==> Values(xs, f) == [];
      assert vs == Values(xs, f) ==> |xs| == 0;
    } else if xs == [] {
      assert Values(xs, f) == [];
    } else {
      ListsAgree(vs[1..], xs[1..], f, g);
      assert xs == [xs[0]] + xs[1..] && vs == [vs[0]] + vs[1..];
      assert Values(xs, f) == [f(xs[0])] + Values(xs[1..], f);
      assert g(vs[0]) == Some(xs[0]) <==> vs[0] == f(xs[0]);
    }
  }
}

/** The v1 records on the wire (connector/protocol.py: encode_record, parse_record and every record
    parser): each record as a JSON value, the value back as the record, and the frames around them. */
module WireValues {
  import opened Prelude
  import opened Errors
  import opened Records
  import opened Json
  import opened Schema

  const PROTOCOL := "reach-connector/v1"
  const SIGNATURE := "ed25519-v1"
  const DIGEST := "sha256-v1"

  // ------------------------------------------------------------------ closed vocabularies

  function CodeText(c: ErrorCode): string {
    match c
    case UnsupportedPlatform => "unsupported_platform"
    case ConnectorNotInitialized => "connector_not_initialized"
    case ConnectorKeyLocked => "connector_key_locked"
    case InteractiveUnlockRequired => "interactive_unlock_required"
    case ConnectorNotPaired => "connector_not_paired"
    case GrantRequired => "grant_required"
    case ConnectorStateInvalid => "connector_state_invalid"
    case ConnectorSchemaIncompatible => "connector_schema_incompatible"
    case ConnectorServiceRunning => "connector_service_running"
    case ConnectorOffline => "connector_offline"
    case ConnectorTlsFailed => "connector_tls_failed"
    case ConnectorProtocolMismatch => "connector_protocol_mismatch"
    case ConnectorDeadlineExceeded => "connector_deadline_exceeded"
    case DeviceRevoked => "device_revoked"
    case GrantRevoked => "grant_revoked"
    case GrantExpired => "grant_expired"
    case GrantSuperseded => "grant_superseded"
    case GrantScopeDenied => "grant_scope_denied"
    case GrantLimitExhausted => "grant_limit_exhausted"
    case PolicyRevisionStale => "policy_revision_stale"
    case BackendUnbound => "backend_unbound"
    case RequestReplayed => "request_replayed"
    case ReceiptInvalid => "receipt_invalid"
    case ReceiptContextMismatch => "receipt_context_mismatch"
    case ReceiptExpired => "receipt_expired"
    case ReceiptReplayed => "receipt_replayed"
    case SecretUnavailable => "secret_unavailable"
    case SecretBindingDenied => "secret_binding_denied"
    case ModelPolicyDenied => "model_policy_denied"
    case FileGrantInvalid => "file_grant_invalid"
    case FileChanged => "file_changed"
    case BackendInvalidInput => "backend_invalid_input"
    case BackendNotFound => "backend_not_found"
    case BackendAuthenticationRequired => "backend_authentication_required"
    case BackendAuthorizationDenied => "backend_authorization_denied"
    case BackendUnavailable => "backend_unavailable"
    case BackendIncompatible => "backend_incompatible"
    case BackendDeadlineExceeded => "backend_deadline_exceeded"
    case BackendRateLimited => "backend_rate_limited"
    case BackendTransient => "backend_transient"
    case BackendPermanent => "backend_permanent"
    case BackendContractViolation => "backend_contract_violation"
  }

  /** what tells the forty-two texts apart: length, third and eleventh character */
  function Marker(s: string): int {
    if |s| < 12 then 0 else |s| * 10000 + (s[2] as int - 95) * 100 + (s[10] as int - 95)
  }

  function Mark(c: ErrorCode): int {
    match c
    case UnsupportedPlatform => 202005
    case ConnectorNotInitialized => 251515
    case ConnectorKeyLocked => 201512
    case InteractiveUnlockRequired => 272106
    case ConnectorNotPaired => 201515
    case GrantRequired => 140210
    case ConnectorStateInvalid => 231520
    case ConnectorSchemaIncompatible => 291520
    case ConnectorServiceRunning => 251520
    case ConnectorOffline => 171516
    case ConnectorTlsFailed => 201521
    case ConnectorProtocolMismatch => 271517
    case ConnectorDeadlineExceeded => 271505
    case DeviceRevoked => 142316
    case GrantRevoked => 130212
    case GrantExpired => 130219
    case GrantSuperseded => 160219
    case GrantScopeDenied => 180206
    case GrantLimitExhausted => 210221
    case PolicyRevisionStale => 211310
    case BackendUnbound => 150403
    case RequestReplayed => 161817
    case ReceiptInvalid => 150423
    case ReceiptContextMismatch => 240415
    case ReceiptExpired => 150417
    case ReceiptReplayed => 160417
    case SecretUnavailable => 180423
    case SecretBindingDenied => 210405
    case ModelPolicyDenied => 190504
    case FileGrantInvalid => 181300
    case FileChanged => 121306
    case BackendInvalidInput => 210423
    case BackendNotFound => 170421
    case BackendAuthenticationRequired => 310421
    case BackendAuthorizationDenied => 280421
    case BackendUnavailable => 190402
    case BackendIncompatible => 200404
    case BackendDeadlineExceeded => 250402
    case BackendRateLimited => 200421
    case BackendTransient => 170402
    case BackendPermanent => 170419
    case BackendContractViolation => 260415
  }

  lemma EarlyMarks(c: ErrorCode)
    requires CategoryOf(c).Setup? || CategoryOf(c).Transport?
    ensures Marker(CodeText(c)) == Mark(c)
  {
  }

  lemma AuthorityMarks(c: ErrorCode)
    requires CategoryOf(c).Authority?
    ensures Marker(CodeText(c)) == Mark(c)
  {
  }

  lemma MiddleMarks(c: ErrorCode)
    requires !CategoryOf(c).Setup? && !CategoryOf(c).Transport? && !CategoryOf(c).Authority? && !CategoryOf(c).Backend?
    ensures Marker(CodeText(c)) == Mark(c)
  {
  }

  lemma BackendMarks(c: ErrorCode)
    requires CategoryOf(c).Backend?
    ensures Marker(CodeText(c)) == Mark(c)
  {
  }

  lemma MarksFit(c: ErrorCode)
    ensures Marker(CodeText(c)) == Mark(c)
  {
    hide Marker, CodeText, Mark, CategoryOf;
    match CategoryOf(c)
    case Setup | Transport => EarlyMarks(c);
    case Authority => AuthorityMarks(c);
    case Backend => BackendMarks(c);
    case _ => MiddleMarks(c);
  }

  lemma MarksDiffer(a: ErrorCode, b: ErrorCode)
    requires Mark(a) == Mark(b)
    ensures a == b
  {
    hide Mark, CategoryOf;
    match CategoryOf(a)
    case Backend => BackendMarksDiffer(a, b);
    case Authority => AuthorityMarksDiffer(a, b);
    case _ => OtherMarksDiffer(a, b);
  }

  lemma AuthorityMarksDiffer(a: ErrorCode, b: ErrorCode)
    requires CategoryOf(a).Authority? && Mark(a) == Mark(b)
    ensures a == b
  {
  }

  lemma BackendMarksDiffer(a: ErrorCode, b: ErrorCode)
    requires CategoryOf(a).Backend? && Mark(a) == Mark(b)
    ensures a == b
  {
  }

  lemma OtherMarksDiffer(a: ErrorCode, b: ErrorCode)
    requires !CategoryOf(a).Backend? && !CategoryOf(a).Authority? && Mark(a) == Mark(b)
    ensures a == b
  {
  }

  lemma CodeTextsDiffer(s: string)
    ensures forall a, b :: CodeText(a) == s && CodeText(b) == s ==> a == b
  {
    hide Marker, CodeText, Mark;
    forall a, b | CodeText(a) == s && CodeText(b) == s ensures a == b {
      MarksFit(a);
      MarksFit(b);
      MarksDiffer(a, b);
    }
  }

  /** ConnectorErrorCode(text): the one member with this value */
  function CodeOf(s: string): Option<ErrorCode> {
    if exists c :: CodeText(c) == s then
      CodeTextsDiffer(s);
      var c :| CodeText(c) == s;
      Some(c)
    else None
  }

  /** a text names a code exactly when it is that code's text */
  lemma CodesRoundTrip(s: string, c: ErrorCode)
    ensures CodeOf(s) == Some(c) <==> s == CodeText(c)
  {
    hide CodeText;
    CodeTextsDiffer(s);
  }

  function CategoryText(c: ErrorCategory): string {
    match c
    case Setup => "setup"
    case Transport => "transport"
    case Authority => "authority"
    case Receipt => "receipt"
    case Secret => "secret"
    case Model => "model"
    case File => "file"
    case Backend => "backend"
  }

  function CategoryNamed(s: string): Option<ErrorCategory> {
    if s == "setup" then Some(Setup)
    else if s == "transport" then Some(Transport)
    else if s == "authority" then Some(Authority)
    else if s == "receipt" then Some(Receipt)
    else if s == "secret" then Some(Secret)
    else if s == "model" then Some(Model)
    else if s == "file" then Some(File)
    else if s == "backend" then Some(Backend)
    else None
  }

  lemma CategoriesRoundTrip(s: string, c: ErrorCategory)
    ensures CategoryNamed(s) == Some(c) <==> s == CategoryText(c)
  {
  }

  function DataScopeText(d: DataScope): string {
    if d.PublicData? then "public" else "account_visible"
  }

  function DataScopeNamed(s: string): Option<DataScope> {
    if s == "public" then Some(PublicData) else if s == "account_visible" then Some(AccountVisible) else None
  }

  function DecisionText(d: Decision): string {
    if d.Allow? then "allow" else "deny"
  }

  function DecisionNamed(s: string): Option<Decision> {
    if s == "allow" then Some(Allow) else if s == "deny" then Some(Deny) else None
  }

  function OutcomeText(o: Outcome): string {
    if o.OutcomeOk? then "ok" else "error"
  }

  function OutcomeNamed(s: string): Option<Outcome> {
    if s == "ok" then Some(OutcomeOk) else if s == "error" then Some(OutcomeError) else None
  }

  // ------------------------------------------------------------------ scopes

  const SCOPE_KEYS := ["capability_id", "data_scope", "operation", "source"]

  /** _scope_mapping */
  function ScopeValue(s: Scope): Value {
    Object(SCOPE_KEYS, [OptionalText(s.capability), Str(DataScopeText(s.dataScope)), Str(s.operation), Str(s.source)])
  }

  /** _parse_scope */
  function ScopeOf(v: Value): Option<Scope> {
    var vs := ValuesOf(SCOPE_KEYS, v);
    if vs.None? then None
    else
      var w := vs.value;
      if TextOf(w[0]).None? || !w[1].Str? || DataScopeNamed(w[1].s).None? || !w[2].Str? || !w[3].Str? then None
      else Some(Scope(w[3].s, w[2].s, DataScopeNamed(w[1].s).value, TextOf(w[0]).value))
  }

  lemma ScopesAgree(v: Value, x: Scope)
    ensures ScopeOf(v) == Some(x) <==> v == ScopeValue(x)
  {
    var values := [OptionalText(x.capability), Str(DataScopeText(x.dataScope)), Str(x.operation), Str(x.source)];
    ReadsBuilt(SCOPE_KEYS, values, v);
    hide ValuesOf, Object;
    if ScopeOf(v) == Some(x) {
      assert ValuesOf(SCOPE_KEYS, v).value == values;
    }
  }

  function ScopesValue(xs: seq<Scope>): Value {
    Arr(Values(xs, ScopeValue))
  }

  function ScopesOf(v: Value): Option<seq<Scope>> {
    if v.Arr? then AllOf(v.items, ScopeOf) else None
  }

  lemma ScopeListsAgree(v: Value, xs: seq<Scope>)
    ensures ScopesOf(v) == Some(xs) <==> v == ScopesValue(xs)
  {
    hide ScopeValue, ScopeOf, Values, AllOf;
    forall w, x ensures ScopeOf(w) == Some(x) <==> w == ScopeValue(x) { ScopesAgree(w, x); }
    if v.Arr? { ListsAgree(v.items, xs, ScopeValue, ScopeOf); }
  }
}
