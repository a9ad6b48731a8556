/** Request validation (contracts.py) over an abstract finite catalog, and the protected call that crosses
    the wire (connector/protocol.py: protect_operation_call, parse_protected_operation). A JSON object in
    a request is a dict, in the form of module Json. */
module Contracts {
  import opened Prelude
  import opened Limits
  import opened Json
  import opened Schema
  import opened Wire

  const MAX_QUERY_LENGTH := 4096

  datatype Tool = Search | Read | Browse | Transcribe
  datatype OptionKind =
    | IntegerOption(minimum: Option<int>, maximum: Option<int>)
    | BooleanOption
    | StringOption(limit: nat, format: string)
  datatype OptionSpec = OptionSpec(name: string, kind: OptionKind, required: bool)
  datatype TargetSpec = TargetSpec(kind: string, maximum: nat, format: string)
  datatype Operation = Operation(name: string, tool: Tool, options: seq<OptionSpec>, targets: seq<TargetSpec>)

  /** the catalog, the closed string formats, and which characters str.strip removes */
  datatype Catalog = Catalog(
    sources: set<string>,
    operation: (string, string) -> Option<Operation>,
    formatOk: (string, string) -> bool,
    isSpace: char -> bool)

  datatype Target = Target(kind: string, value: string)

  /** a validated call; `operation` is the catalog's own row */
  datatype Call = Call(source: string, operation: Operation, options: seq<Field>, target: Option<Target>,
                       query: Option<string>)

  // ------------------------------------------------------------------ text

  function StripLeft(k: Catalog, s: string): (r: string)
    ensures |r| <= |s| && (r != "" ==> !k.isSpace(r[0]))
  {
    if s != "" && k.isSpace(s[0]) then StripLeft(k, s[1..]) else s
  }

  function StripRight(k: Catalog, s: string): (r: string)
    ensures r <= s && (r != "" ==> !k.isSpace(r[|r| - 1]))
  {
    if s != "" && k.isSpace(s[|s| - 1]) then StripRight(k, s[..|s| - 1]) else s
  }

  function Strip(k: Catalog, s: string): (r: string)
    ensures |r| <= |s|
  {
    StripRight(k, StripLeft(k, s))
  }

  lemma StripAgain(k: Catalog, s: string)
    ensures Strip(k, Strip(k, s)) == Strip(k, s)
  {
    var left := StripLeft(k, s);
    var r := StripRight(k, left);
    if r != "" { assert r[0] == left[0]; }
  }

  /** _text; None where it raises */
  function TextOf(k: Catalog, v: Value, maximum: nat): Option<string> {
    if !v.Str? || Strip(k, v.s) == "" || |v.s| > maximum then None else Some(Strip(k, v.s))
  }

  lemma TextAgain(k: Catalog, v: Value, maximum: nat)
    requires TextOf(k, v, maximum).Some?
    ensures TextOf(k, Str(TextOf(k, v, maximum).value), maximum) == TextOf(k, v, maximum)
    ensures 0 < |TextOf(k, v, maximum).value| <= maximum
  {
    StripAgain(k, v.s);
  }

  // ------------------------------------------------------------------ options and targets

  /** the specification of a named option, the last of that name as in the source's dict */
  function SpecOf(specs: seq<OptionSpec>, name: string): Option<OptionSpec> {
    if specs == [] then None
    else if specs[|specs| - 1].name == name then Some(specs[|specs| - 1])
    else SpecOf(specs[..|specs| - 1], name)
  }

  /** _validate_option */
  predicate OptionOk(k: Catalog, spec: OptionSpec, v: Value) {
    match spec.kind
    case IntegerOption(lo, hi) => v.Int? && (lo.Some? ==> lo.value <= v.n) && (hi.Some? ==> v.n <= hi.value)
    case BooleanOption => v.Bool?
    case StringOption(limit, format) =>
      var text := TextOf(k, v, if limit == 0 then 256 else limit);
      text.Some? && (format == "text" || k.formatOk(format, text.value))
  }

  predicate HasKey(fields: seq<Field>, name: string) {
    exists i :: 0 <= i < |fields| && fields[i].key == name
  }

  /** _options accepts */
  predicate OptionsOk(k: Catalog, op: Operation, v: Value) {
    && v.Obj?
    && (forall i | 0 <= i < |v.fields| :: SpecOf(op.options, v.fields[i].key).Some?)
    && (forall i | 0 <= i < |op.options| :: op.options[i].required ==> HasKey(v.fields, op.options[i].name))
    && (forall i | 0 <= i < |v.fields| :: OptionOk(k, SpecOf(op.options, v.fields[i].key).value, v.fields[i].value))
  }

  function FirstTarget(specs: seq<TargetSpec>, kind: string): Option<TargetSpec> {
    if specs == [] then None else if specs[0].kind == kind then Some(specs[0]) else FirstTarget(specs[1..], kind)
  }

  predicate IsWeb(s: string) {
    "https://" <= s || "http://" <= s
  }

  /** _target: no target, one target, or None where it raises */
  function TargetOf(k: Catalog, op: Operation, v: Value): Option<Option<Target>> {
    if op.targets == [] then (if v.Null? then Some(None) else None)
    else if !v.Obj? || |v.fields| != 1 then None
    else
      var kind := v.fields[0].key;
      var spec := FirstTarget(op.targets, kind);
      if spec.None? then None
      else
        var text := TextOf(k, v.fields[0].value, spec.value.maximum);
        if text.None? || (kind == "url" && !IsWeb(text.value))
           || !(spec.value.format == "text" || k.formatOk(spec.value.format, text.value))
        then None
        else Some(Some(Target(kind, text.value)))
  }

  function TargetValue(t: Option<Target>): Value {
    if t.None? then Null else Obj([Field(t.value.kind, Str(t.value.value))])
  }

  /** operation_call_is_valid */
  predicate CallIsValid(k: Catalog, c: Call) {
    && OptionsOk(k, c.operation, Obj(c.options))
    && if c.operation.tool.Search? then
         c.target.None? && c.query.Some? && TextOf(k, Str(c.query.value), MAX_QUERY_LENGTH) == c.query
       else
         c.query.None? && TargetOf(k, c.operation, TargetValue(c.target)) == Some(c.target)
  }

  /** a validated target validates again, unchanged */
  lemma TargetAgain(k: Catalog, op: Operation, v: Value)
    requires TargetOf(k, op, v).Some?
    ensures TargetOf(k, op, TargetValue(TargetOf(k, op, v).value)) == TargetOf(k, op, v)
  {
    if op.targets != [] {
      var spec := FirstTarget(op.targets, v.fields[0].key).value;
      TextAgain(k, v.fields[0].value, spec.maximum);
    }
  }

  // ------------------------------------------------------------------ validation of requests

  function Get(fields: seq<Field>, name: string): Value {
    if fields == [] then Null else if fields[0].key == name then fields[0].value else Get(fields[1..], name)
  }

  function GetOr(fields: seq<Field>, name: string, other: Value): Value {
    if HasKey(fields, name) then Get(fields, name) else other
  }

  predicate OnlyKeys(fields: seq<Field>, allowed: set<string>) {
    forall i | 0 <= i < |fields| :: fields[i].key in allowed
  }

  predicate VersionOk(fields: seq<Field>) {
    GetOr(fields, "protocol_version", Str("v1")) == Str("v1")
  }

  /** _source and _operation; None where they raise */
  function OperationOf(k: Catalog, source: Value, operation: Value, tool: Tool): Option<(string, Operation)> {
    var s, o := TextOf(k, source, 64), TextOf(k, operation, 128);
    if s.None? || s.value !in k.sources || o.None? then None
    else
      var op := k.operation(s.value, o.value);
      if op.None? || op.value.tool != tool then None else Some((s.value, op.value))
  }

  /** _single_call */
  function SingleCall(k: Catalog, args: Value, tool: Tool): Option<Call> {
    if !args.Obj? || !OnlyKeys(args.fields, {"protocol_version", "source", "operation", "options", "target"})
       || !VersionOk(args.fields) then None
    else
      var f := args.fields;
      var op := OperationOf(k, Get(f, "source"), Get(f, "operation"), tool);
      if op.None? then None
      else
        var options := GetOr(f, "options", Obj([]));
        var target := TargetOf(k, op.value.1, Get(f, "target"));
        if !OptionsOk(k, op.value.1, options) || target.None? then None
        else Some(Call(op.value.0, op.value.1, options.fields, target.value, None))
  }

  /** one request of a search; None where it raises */
  function SearchCall(k: Catalog, v: Value): Option<Call> {
    if !v.Obj? || !OnlyKeys(v.fields, {"source", "operation", "query", "options"}) then None
    else
      var op := OperationOf(k, Get(v.fields, "source"), Get(v.fields, "operation"), Search);
      if op.None? then None
      else
        var query := TextOf(k, Get(v.fields, "query"), MAX_QUERY_LENGTH);
        var options := GetOr(v.fields, "options", Obj([]));
        if query.None? || !OptionsOk(k, op.value.1, options) then None
        else Some(Call(op.value.0, op.value.1, options.fields, None, query))
  }

  /** a read, browse or transcribe call that validates stays valid when checked again */
  lemma SingleCallValid(k: Catalog, args: Value, tool: Tool)
    requires !tool.Search? && SingleCall(k, args, tool).Some?
    ensures CallIsValid(k, SingleCall(k, args, tool).value)
    ensures SingleCall(k, args, tool).value.operation.tool == tool
  {
    hide OptionsOk, TargetOf, OnlyKeys, VersionOk;
    var op := OperationOf(k, Get(args.fields, "source"), Get(args.fields, "operation"), tool).value;
    TargetAgain(k, op.1, Get(args.fields, "target"));
    OptionsAreObj(k, op.1, GetOr(args.fields, "options", Obj([])));
  }

  lemma OptionsAreObj(k: Catalog, op: Operation, v: Value)
    requires OptionsOk(k, op, v)
    ensures v.Obj? && v == Obj(v.fields)
  {
  }

  lemma SearchCallValid(k: Catalog, v: Value)
    requires SearchCall(k, v).Some?
    ensures CallIsValid(k, SearchCall(k, v).value)
  {
    hide OptionsOk, OnlyKeys, TextOf;
    TextAgain(k, Get(v.fields, "query"), MAX_QUERY_LENGTH);
    var op := OperationOf(k, Get(v.fields, "source"), Get(v.fields, "operation"), Search).value;
    OptionsAreObj(k, op.1, GetOr(v.fields, "options", Obj([])));
    QueryIsText(k, Get(v.fields, "query"));
  }

  lemma QueryIsText(k: Catalog, v: Value)
    ensures TextOf(k, v, MAX_QUERY_LENGTH).Some? ==> v.Str?
  {
  }

  /** validate_search: one to five requests for different sources, each of them a valid search call. */
  method ValidateSearch(k: Catalog, args: Value) returns (calls: Option<seq<Call>>)
    ensures calls.Some? ==>
              && args.Obj? && VersionOk(args.fields) && OnlyKeys(args.fields, {"protocol_version", "requests"})
              && var requests := Get(args.fields, "requests");
              && requests.Arr? && 1 <= |calls.value| == |requests.items| <= 5
              && (forall i | 0 <= i < |calls.value| ::
                    SearchCall(k, requests.items[i]) == Some(calls.value[i]) && CallIsValid(k, calls.value[i]))
              && (forall i, j | 0 <= i < j < |calls.value| :: calls.value[i].source != calls.value[j].source)
    ensures args.Obj? && VersionOk(args.fields) && OnlyKeys(args.fields, {"protocol_version", "requests"}) ==>
              var requests := Get(args.fields, "requests");
              (requests.Arr? && 1 <= |requests.items| <= 5
               && (forall i | 0 <= i < |requests.items| :: SearchCall(k, requests.items[i]).Some?)
               && (forall i, j | 0 <= i < j < |requests.items| ::
                     SearchCall(k, requests.items[i]).value.source != SearchCall(k, requests.items[j]).value.source)
               ==> calls.Some?)
  {
    hide SearchCall, CallIsValid;
    if !args.Obj? || !OnlyKeys(args.fields, {"protocol_version", "requests"}) || !VersionOk(args.fields) {
      return None;
    }
    var requests := Get(args.fields, "requests");
    if !requests.Arr? || !(1 <= |requests.items| <= 5) { return None; }
    var found: seq<Call> := [];
    var sources: set<string> := {};
    for i := 0 to |requests.items|
      invariant |found| == i
      invariant forall j | 0 <= j < i :: SearchCall(k, requests.items[j]) == Some(found[j]) && CallIsValid(k, found[j])
      invariant forall j, m | 0 <= j < m < i :: found[j].source != found[m].source
      invariant forall s :: s in sources <==> exists j :: 0 <= j < i && found[j].source == s
    {
      var call := SearchCall(k, requests.items[i]);
      if call.None? { return None; }
      if call.value.source in sources {
        var j :| 0 <= j < i && found[j].source == call.value.source;
        assert SearchCall(k, requests.items[j]).value.source == SearchCall(k, requests.items[i]).value.source;
        return None;
      }
      SearchCallValid(k, requests.items[i]);
      sources := sources + {call.value.source};
      found := found + [call.value];
    }
    return Some(found);
  }

  // ------------------------------------------------------------------ the protected call

  const PROTECTED_KEYS := ["operation", "options", "query", "source", "target"]

  function ProtectedSlots(c: Call): (vs: seq<Value>)
    ensures |vs| == |PROTECTED_KEYS|
  {
    [Str(c.operation.name), Obj(c.options), OptionalText(c.query), Str(c.source), TargetValue(c.target)]
  }

  /** the call is the catalog's: its operation is the row its names lead to */
  predicate CatalogOwned(k: Catalog, c: Call) {
    c.source in k.sources && k.operation(c.source, c.operation.name) == Some(c.operation)
  }

  predicate IsLocalFile(c: Call) {
    c.target.Some? && c.target.value.kind == "local_file"
  }

  /** protect_operation_call; None where it raises */
  function Protect(k: Catalog, c: Call): Option<Bytes> {
    if !CallIsValid(k, c) || !CatalogOwned(k, c) || IsLocalFile(c) then None
    else Printed(Object(PROTECTED_KEYS, ProtectedSlots(c)))
  }

  /** the target mapping of a parsed payload: None where it raises or has several entries, which
      operation_call_is_valid refuses */
  function TargetIn(v: Value): Option<Option<Target>> {
    match v
    case Null => Some(None)
    case Obj(fields) =>
      if |fields| != 1 || !fields[0].value.Str? || fields[0].key == "local_file" then None
      else Some(Some(Target(fields[0].key, fields[0].value.s)))
    case _ => None
  }

  /** parse_protected_operation; None where it raises */
  function ParseProtected(k: Catalog, raw: Bytes): Option<Call> {
    var v := Load(raw, MAX_FRAME_BYTES);
    if v.None? || ValuesOf(PROTECTED_KEYS, v.value).None? then None
    else
      var w := ValuesOf(PROTECTED_KEYS, v.value).value;
      if !w[0].Str? || !w[1].Obj? || !w[3].Str? || Schema.TextOf(w[2]).None? || TargetIn(w[4]).None?
         || w[3].s !in k.sources || k.operation(w[3].s, w[0].s).None?
      then None
      else
        var c := Call(w[3].s, k.operation(w[3].s, w[0].s).value, w[1].fields, TargetIn(w[4]).value,
                      Schema.TextOf(w[2]).value);
        if CallIsValid(k, c) then Some(c) else None
  }

  lemma ProtectedDict(c: Call)
    requires IsDict(Obj(c.options))
    ensures IsDict(Object(PROTECTED_KEYS, ProtectedSlots(c)))
  {
    hide Less;
    LessAt("operation", "options", 2);
    LessAt("options", "query", 0);
    LessAt("query", "source", 0);
    LessAt("source", "target", 0);
    ObjectIsDict(PROTECTED_KEYS, ProtectedSlots(c));
  }

  lemma TargetReads(t: Option<Target>)
    requires t.Some? ==> t.value.kind != "local_file"
    ensures TargetIn(TargetValue(t)) == Some(t)
  {
  }

  /** every row is found under its own name */
  ghost predicate Named(k: Catalog) {
    forall s, o :: k.operation(s, o).Some? ==> k.operation(s, o).value.name == o
  }

  lemma SlotsWritten(k: Catalog, w: seq<Value>, c: Call)
    requires |w| == 5 && w[0].Str? && w[1].Obj? && w[3].Str? && Schema.TextOf(w[2]).Some? && TargetIn(w[4]).Some?
    requires Named(k) && k.operation(w[3].s, w[0].s).Some?
    requires c == Call(w[3].s, k.operation(w[3].s, w[0].s).value, w[1].fields, TargetIn(w[4]).value,
                       Schema.TextOf(w[2]).value)
    ensures w == ProtectedSlots(c)
  {
    TargetWrites(w[4]);
    assert w == [w[0], w[1], w[2], w[3], w[4]];
  }

  /** What parses is exactly what was protected: a byte string parses as a call exactly when it is the
      protected form of that call. */
  lemma ProtectedRoundTrip(k: Catalog, raw: Bytes, c: Call)
    requires Named(k) && IsDict(Obj(c.options))
    ensures Protect(k, c) == Some(raw) <==> ParseProtected(k, raw) == Some(c)
  {
    hide Load, Printed, ValuesOf, Object, CallIsValid, IsDict, ProtectedSlots, Named;
    var v := Object(PROTECTED_KEYS, ProtectedSlots(c));
    ProtectedDict(c);
    LoadsPrinted(raw, v);
    ReadsBuilt(PROTECTED_KEYS, ProtectedSlots(c), v);
    if Protect(k, c) == Some(raw) {
      TargetReads(c.target);
      SlotsRead(c);
    }
    if ParseProtected(k, raw) == Some(c) {
      var u := Load(raw, MAX_FRAME_BYTES).value;
      var w := ValuesOf(PROTECTED_KEYS, u).value;
      SlotsWritten(k, w, c);
      RowNamed(k, w[3].s, w[0].s);
      TargetWrites(w[4]);
      ReadsBuilt(PROTECTED_KEYS, ProtectedSlots(c), u);
    }
  }

  lemma RowNamed(k: Catalog, s: string, o: string)
    requires Named(k) && k.operation(s, o).Some?
    ensures k.operation(s, o).value.name == o
  {
  }

  lemma SlotsRead(c: Call)
    ensures var w := ProtectedSlots(c);
            && w[0] == Str(c.operation.name) && w[1] == Obj(c.options) && Schema.TextOf(w[2]) == Some(c.query)
            && w[3] == Str(c.source) && w[4] == TargetValue(c.target)
  {
  }

  lemma TargetWrites(v: Value)
    requires TargetIn(v).Some?
    ensures TargetValue(TargetIn(v).value) == v
    ensures TargetIn(v).value.Some? ==> TargetIn(v).value.value.kind != "local_file"
  {
    if v.Obj? { assert v.fields == [v.fields[0]]; }
  }

  // ------------------------------------------------------------------ the size of a protected call

  lemma {:induction false} EscapesLength(s: string)
    ensures |Escapes(s)| <= 12 * |s|
  {
    if s != "" { EscapesLength(s[1..]); }
  }

  lemma QuotedLength(s: string)
    ensures |Quoted(s)| <= 12 * |s| + 2
  {
    EscapesLength(s);
  }

  /** the most characters a value of this option can print */
  function OptionWidth(kind: OptionKind): nat {
    match kind
    case IntegerOption(lo, hi) => if lo.None? || hi.None? then 0 else |IntText(lo.value)| + |IntText(hi.value)|
    case BooleanOption => 5
    case StringOption(limit, _) => 12 * (if limit == 0 then 256 else limit) + 2
  }

  /** the most characters an object with these options can print between its brackets, commas included */
  function OptionsWidth(specs: seq<OptionSpec>): nat {
    if specs == [] then 0
    else
      var last := specs[|specs| - 1];
      OptionsWidth(specs[..|specs| - 1]) + 12 * |last.name| + 4 + OptionWidth(last.kind)
  }

  /** an integer option has both its bounds, which print */
  predicate OptionBounded(spec: OptionSpec) {
    spec.kind.IntegerOption? ==>
      && spec.kind.minimum.Some? && spec.kind.maximum.Some?
      && |IntText(spec.kind.minimum.value)| <= MAX_INT_DIGITS && |IntText(spec.kind.maximum.value)| <= MAX_INT_DIGITS
  }

  /** the catalog's names, targets and options are bounded */
  ghost predicate Modest(k: Catalog) {
    && (forall s | s in k.sources :: |s| <= 64)
    && (forall s, o :: k.operation(s, o).Some? ==>
          var op := k.operation(s, o).value;
          && |o| <= 128
          && (forall t | t in op.targets :: |t.kind| <= 32 && t.maximum <= 4096)
          && (forall spec | spec in op.options :: OptionBounded(spec))
          && |op.options| <= MAX_JSON_CONTAINER_ITEMS && OptionsWidth(op.options) <= 8190)
  }

  lemma {:induction false} DecimalGrows(m: nat, n: nat)
    requires m <= n
    ensures |Decimal(m)| <= |Decimal(n)|
    decreases n
  {
    if m >= 10 { DecimalGrows(m / 10, n / 10); }
  }

  /** an integer between two bounds prints no longer than both together */
  lemma BetweenWidth(lo: int, n: int, hi: int)
    requires lo <= n <= hi
    ensures |IntText(n)| <= |IntText(lo)| + |IntText(hi)|
    ensures |IntText(n)| <= |IntText(lo)| || |IntText(n)| <= |IntText(hi)|
  {
    hide Decimal;
    if n < 0 { DecimalGrows(-n, -lo); } else { DecimalGrows(n, hi); }
  }

  /** the fields of an object with their quotes, colons and commas */
  function FieldsWidth(fields: seq<Field>): nat {
    if fields == [] then 0
    else |Quoted(fields[0].key)| + 2 + |Print(fields[0].value)| + FieldsWidth(fields[1..])
  }

  lemma {:induction false} FieldsWidthAdds(a: seq<Field>, b: seq<Field>)
    ensures FieldsWidth(a + b) == FieldsWidth(a) + FieldsWidth(b)
  {
    hide Print, Quoted;
    if a == [] {
      assert a + b == b;
    } else {
      assert (a + b)[1..] == a[1..] + b;
      FieldsWidthAdds(a[1..], b);
    }
  }

  lemma {:induction false} PrintWithin(v: Value, i: nat)
    requires v.Obj? && i <= |v.fields|
    ensures |PrintFields(v, i)| <= FieldsWidth(v.fields[i..])
    decreases |v.fields| - i
  {
    hide Print, PrintFields, Quoted;
    if i == |v.fields| {
      NoFieldsLeft(v);
    } else {
      FieldLength(v, i);
      assert v.fields[i..][0] == v.fields[i] && v.fields[i..][1..] == v.fields[i + 1..];
      PrintWithin(v, i + 1);
    }
  }

  ghost predicate DistinctKeys(fields: seq<Field>) {
    forall i, j | 0 <= i < j < |fields| :: fields[i].key != fields[j].key
  }

  /** every field is named by a specification and is no wider than it allows */
  ghost predicate FieldsAllowed(specs: seq<OptionSpec>, fields: seq<Field>) {
    forall i | 0 <= i < |fields| ::
      && SpecOf(specs, fields[i].key).Some?
      && |Print(fields[i].value)| <= OptionWidth(SpecOf(specs, fields[i].key).value.kind)
  }

  lemma {:induction false} SpecNamed(specs: seq<OptionSpec>, name: string)
    ensures SpecOf(specs, name).Some? ==> SpecOf(specs, name).value in specs && SpecOf(specs, name).value.name == name
  {
    if specs != [] { SpecNamed(specs[..|specs| - 1], name); }
  }

  /** distinct fields that all have a specification are no wider than the specifications together, and no more */
  lemma {:induction false} FieldsWithin(specs: seq<OptionSpec>, fields: seq<Field>)
    requires DistinctKeys(fields) && FieldsAllowed(specs, fields)
    ensures FieldsWidth(fields) <= OptionsWidth(specs) && |fields| <= |specs|
    decreases |specs|
  {
    hide Print, Quoted, OptionWidth;
    if specs == [] {
      assert fields == [] || SpecOf(specs, fields[0].key).Some?;
    } else {
      var front, last := specs[..|specs| - 1], specs[|specs| - 1];
      if i :| 0 <= i < |fields| && fields[i].key == last.name {
        var rest := fields[..i] + fields[i + 1..];
        assert fields == fields[..i] + ([fields[i]] + fields[i + 1..]);
        FieldsWidthAdds(fields[..i], [fields[i]] + fields[i + 1..]);
        FieldsWidthAdds([fields[i]], fields[i + 1..]);
        FieldsWidthAdds(fields[..i], fields[i + 1..]);
        OneField(fields[i]);
        RestAllowed(specs, fields, i);
        FieldsWithin(front, rest);
        QuotedLength(fields[i].key);
      } else {
        FieldsWithin(front, fields);
      }
    }
  }

  lemma OneField(f: Field)
    ensures FieldsWidth([f]) == |Quoted(f.key)| + 2 + |Print(f.value)|
  {
    hide Print, Quoted;
  }

  lemma RestAllowed(specs: seq<OptionSpec>, fields: seq<Field>, i: nat)
    requires specs != [] && i < |fields| && fields[i].key == specs[|specs| - 1].name
    requires DistinctKeys(fields) && FieldsAllowed(specs, fields)
    ensures var rest := fields[..i] + fields[i + 1..];
            DistinctKeys(rest) && FieldsAllowed(specs[..|specs| - 1], rest) && |rest| == |fields| - 1
  {
    hide Print, OptionWidth;
    var rest := fields[..i] + fields[i + 1..];
    forall j | 0 <= j < |rest| ensures rest[j] == fields[if j < i then j else j + 1] {}
  }

  lemma OptionWithin(k: Catalog, spec: OptionSpec, v: Value)
    requires OptionOk(k, spec, v) && OptionBounded(spec)
    ensures |Print(v)| <= OptionWidth(spec.kind)
    ensures Printable(v)
  {
    hide Decimal, Escapes, Strip;
    match spec.kind
    case IntegerOption(lo, hi) => BetweenWidth(lo.value, v.n, hi.value);
    case BooleanOption =>
    case StringOption(limit, _) => TextLength(v.s);
  }

  /** Options that validate against a bounded catalog row print within its width, and are few enough to
      print. */
  lemma OptionsFit(k: Catalog, op: Operation, options: seq<Field>)
    requires OptionsOk(k, op, Obj(options)) && IsDict(Obj(options))
    requires forall spec | spec in op.options :: OptionBounded(spec)
    ensures |Print(Obj(options))| <= OptionsWidth(op.options) + 2
    ensures |options| <= |op.options| && Printable(Obj(options))
  {
    hide OptionOk, OptionBounded, Less, PrintFields, OptionWidth, FieldsWidth, OptionsWidth;
    forall i | 0 <= i < |options|
      ensures |Print(options[i].value)| <= OptionWidth(SpecOf(op.options, options[i].key).value.kind)
      ensures Printable(options[i].value)
    {
      SpecNamed(op.options, options[i].key);
      OptionWithin(k, SpecOf(op.options, options[i].key).value, options[i].value);
    }
    forall i, j | 0 <= i < j < |options| ensures options[i].key != options[j].key {
      LessTrichotomy(options[i].key, options[j].key);
    }
    FieldsWithin(op.options, options);
    PrintWithin(Obj(options), 0);
    assert options[0..] == options;
    ObjectLength(Obj(options));
  }

  lemma ObjectLength(v: Value)
    requires v.Obj?
    ensures |Print(v)| == |PrintFields(v, 0)| + 2
  {
  }

  lemma {:induction false} FirstTargetIn(specs: seq<TargetSpec>, kind: string)
    ensures FirstTarget(specs, kind).Some? ==>
              FirstTarget(specs, kind).value in specs && FirstTarget(specs, kind).value.kind == kind
  {
    if specs != [] { FirstTargetIn(specs[1..], kind); }
  }

  lemma ValidTexts(k: Catalog, c: Call)
    requires Named(k) && Modest(k) && CallIsValid(k, c) && CatalogOwned(k, c)
    ensures |c.source| <= 64 && |c.operation.name| <= 128
    ensures c.query.None? || (|c.query.value| <= MAX_QUERY_LENGTH && c.target.None?)
    ensures c.target.Some? ==> |c.target.value.kind| <= 32 && |c.target.value.value| <= 4096
  {
    hide OptionsOk, Strip;
    assert k.operation(c.source, c.operation.name).Some?;
    if c.target.Some? {
      FirstTargetIn(c.operation.targets, c.target.value.kind);
    }
  }

  lemma TargetLength(t: Option<Target>)
    requires t.Some? ==> |t.value.kind| <= 32 && |t.value.value| <= 4096
    ensures |Print(TargetValue(t))| <= (if t.Some? then 49545 else 4)
  {
    hide Escapes, Quoted;
    if t.Some? {
      QuotedLength(t.value.kind);
      QuotedLength(t.value.value);
      var v := TargetValue(t);
      assert PrintFields(v, 0) == Quoted(t.value.kind) + ":" + Print(v.fields[0].value);
    }
  }

  lemma FiveFields(v: Value)
    requires v.Obj? && |v.fields| == 5
    ensures |Print(v)| ==
              2 + 4 + 5
              + |Quoted(v.fields[0].key)| + |Quoted(v.fields[1].key)| + |Quoted(v.fields[2].key)|
              + |Quoted(v.fields[3].key)| + |Quoted(v.fields[4].key)|
              + |Print(v.fields[0].value)| + |Print(v.fields[1].value)| + |Print(v.fields[2].value)|
              + |Print(v.fields[3].value)| + |Print(v.fields[4].value)|
  {
    hide Quoted;
    FieldLength(v, 0);
    FieldLength(v, 1);
    FieldLength(v, 2);
    FieldLength(v, 3);
    FieldLength(v, 4);
    assert |PrintFields(v, 5)| == 0;
    hide PrintFields;
    assert Print(v) == "{" + PrintFields(v, 0) + "}";
  }

  /** Any query or target of up to 4096 characters, with any options the catalog row accepts, stays within the
      64 KiB of a protected call. */
  lemma ProtectedFits(k: Catalog, c: Call)
    requires Named(k) && Modest(k) && CallIsValid(k, c) && CatalogOwned(k, c) && IsDict(Obj(c.options))
    ensures |Print(Object(PROTECTED_KEYS, ProtectedSlots(c)))| <= MAX_PROTECTED_OPERATION_BYTES
  {
    hide Named, Print, Quoted, OptionsOk, OptionsWidth, OptionBounded, IsDict, TargetOf, TextOf;
    ValidTexts(k, c);
    OptionsFit(k, c.operation, c.options);
    hide CallIsValid, CatalogOwned, Modest;
    var v := Object(PROTECTED_KEYS, ProtectedSlots(c));
    FiveFields(v);
    QuotedLength("operation");
    QuotedLength("options");
    QuotedLength("query");
    QuotedLength("source");
    QuotedLength("target");
    TargetLength(c.target);
    TextLength(c.operation.name);
    TextLength(c.source);
    if c.query.Some? { TextLength(c.query.value); }
    NullLength();
  }

  lemma TextLength(s: string)
    ensures |Print(Str(s))| <= 12 * |s| + 2
  {
    hide Quoted;
    QuotedLength(s);
  }

  lemma NullLength()
    ensures |Print(Null)| == 4
  {
  }

  // ------------------------------------------------------------------ when protection succeeds

  /** no string holds a control character */
  predicate CleanCall(c: Call) {
    && CleanText(c.operation.name) && CleanText(c.source)
    && (forall i | 0 <= i < |c.options| ::
          CleanText(c.options[i].key) && (c.options[i].value.Str? ==> CleanText(c.options[i].value.s)))
    && (c.query.Some? ==> CleanText(c.query.value))
    && (c.target.Some? ==> CleanText(c.target.value.kind) && CleanText(c.target.value.value))
  }

  /** options of a bounded catalog row are admissible JSON exactly when their strings are clean */
  lemma OptionsAdmissible(k: Catalog, op: Operation, options: seq<Field>)
    requires OptionsOk(k, op, Obj(options)) && IsDict(Obj(options))
    requires |op.options| <= MAX_JSON_CONTAINER_ITEMS && forall spec | spec in op.options :: OptionBounded(spec)
    ensures Printable(Obj(options))
    ensures Json.Valid(Obj(options), 1) <==>
              forall i | 0 <= i < |options| ::
                CleanText(options[i].key) && (options[i].value.Str? ==> CleanText(options[i].value.s))
  {
    hide OptionBounded, IsDict, Printable, Print, OptionsWidth, CleanText, Strip;
    OptionsFit(k, op, options);
    forall i | 0 <= i < |options|
      ensures Json.Valid(options[i].value, 2) <==> (options[i].value.Str? ==> CleanText(options[i].value.s))
    {
      ScalarOption(k, SpecOf(op.options, options[i].key).value, options[i].value);
    }
  }

  lemma ScalarOption(k: Catalog, spec: OptionSpec, v: Value)
    requires OptionOk(k, spec, v)
    ensures Json.Valid(v, 2) <==> (v.Str? ==> CleanText(v.s))
  {
    hide CleanText, Strip;
  }

  lemma CleanKeys()
    ensures forall i | 0 <= i < |PROTECTED_KEYS| :: CleanText(PROTECTED_KEYS[i])
  {
    assert CleanText("operation") && CleanText("options") && CleanText("query") && CleanText("source")
      && CleanText("target");
  }

  lemma CleanTarget(t: Option<Target>)
    ensures Json.Valid(TargetValue(t), 1) <==>
              (t.Some? ==> CleanText(t.value.kind) && CleanText(t.value.value))
    ensures Printable(TargetValue(t))
  {
    hide CleanText;
    if t.Some? {
      var v := TargetValue(t);
      assert v.fields[0] == Field(t.value.kind, Str(t.value.value));
    }
  }

  lemma SlotsClean(c: Call)
    ensures Json.Valid(Object(PROTECTED_KEYS, ProtectedSlots(c)), 0)
            && Printable(Object(PROTECTED_KEYS, ProtectedSlots(c)))
            <==> && CleanText(c.operation.name) && CleanText(c.source)
                 && Json.Valid(Obj(c.options), 1) && Printable(Obj(c.options))
                 && (c.query.Some? ==> CleanText(c.query.value))
                 && (c.target.Some? ==> CleanText(c.target.value.kind) && CleanText(c.target.value.value))
  {
    hide CleanText, TargetValue, Json.Valid, Printable;
    CleanKeys();
    CleanTarget(c.target);
    var w := ProtectedSlots(c);
    FiveAdmissible(w);
    TextAdmissible(w[0]);
    TextAdmissible(w[2]);
    TextAdmissible(w[3]);
    assert w[0] == Str(c.operation.name) && w[1] == Obj(c.options) && w[2] == OptionalText(c.query);
    assert w[3] == Str(c.source) && w[4] == TargetValue(c.target);
  }

  /** an object over the protected keys is admissible exactly when its five values are */
  lemma FiveAdmissible(w: seq<Value>)
    requires |w| == 5
    ensures Json.Valid(Object(PROTECTED_KEYS, w), 0) <==> forall i | 0 <= i < 5 :: Json.Valid(w[i], 1)
    ensures Printable(Object(PROTECTED_KEYS, w)) <==> forall i | 0 <= i < 5 :: Printable(w[i])
  {
    hide CleanText;
    CleanKeys();
    var v := Object(PROTECTED_KEYS, w);
    assert forall i | 0 <= i < 5 :: v.fields[i] == Field(PROTECTED_KEYS[i], w[i]);
    assert forall i | 0 <= i < 5 :: v.fields[i].value == w[i];
  }

  lemma TextAdmissible(v: Value)
    requires v.Str? || v.Null?
    ensures Printable(v) && (Json.Valid(v, 1) <==> (v.Str? ==> CleanText(v.s)))
  {
    hide CleanText;
  }

  /** Protection succeeds exactly on valid catalog calls without a local file whose strings are clean. */
  lemma ProtectSucceeds(k: Catalog, c: Call)
    requires Named(k) && Modest(k) && IsDict(Obj(c.options))
    ensures Protect(k, c).Some? <==> CallIsValid(k, c) && CatalogOwned(k, c) && !IsLocalFile(c) && CleanCall(c)
  {
    hide Named, Print, ProtectedSlots, Object, Json.Valid, Printable, OptionsOk, TargetOf, TextOf, OptionBounded,
         OptionsWidth, IsDict, CleanText;
    SlotsClean(c);
    var v := Object(PROTECTED_KEYS, ProtectedSlots(c));
    PrintAscii(v);
    PrintStarts(v);
    if CallIsValid(k, c) && CatalogOwned(k, c) {
      OptionsAdmissible(k, c.operation, c.options);
      ProtectedFits(k, c);
    }
  }

  // ------------------------------------------------------------------ from a request to the other side

  /** A validated call belongs to the catalog, and its options are the request's dict. */
  lemma SingleCallOwned(k: Catalog, args: Value, tool: Tool)
    requires Named(k) && IsDict(args) && SingleCall(k, args, tool).Some?
    ensures CatalogOwned(k, SingleCall(k, args, tool).value) && IsDict(Obj(SingleCall(k, args, tool).value.options))
  {
    hide OptionsOk, TargetOf, OnlyKeys, VersionOk, TextOf;
    var f := args.fields;
    OptionsAreObj(k, OperationOf(k, Get(f, "source"), Get(f, "operation"), tool).value.1, GetOr(f, "options", Obj([])));
    GotIsDict(f, "options");
  }

  lemma SearchCallOwned(k: Catalog, v: Value)
    requires Named(k) && IsDict(v) && SearchCall(k, v).Some?
    ensures CatalogOwned(k, SearchCall(k, v).value) && IsDict(Obj(SearchCall(k, v).value.options))
  {
    hide OptionsOk, OnlyKeys, TextOf;
    OptionsAreObj(k, OperationOf(k, Get(v.fields, "source"), Get(v.fields, "operation"), Search).value.1,
                  GetOr(v.fields, "options", Obj([])));
    GotIsDict(v.fields, "options");
  }

  lemma {:induction false} GotIsDict(fields: seq<Field>, name: string)
    requires forall i | 0 <= i < |fields| :: IsDict(fields[i].value)
    ensures IsDict(Get(fields, name)) && IsDict(GetOr(fields, name, Obj([])))
  {
    if fields != [] { GotIsDict(fields[1..], name); }
  }

  /** a valid call of the catalog with clean strings and no local file reaches the other side as it is */
  ghost predicate Crosses(k: Catalog, c: Call) {
    && CallIsValid(k, c) && CatalogOwned(k, c)
    && (CleanCall(c) && !IsLocalFile(c) ==>
          && Protect(k, c).Some? && |Protect(k, c).value| <= MAX_PROTECTED_OPERATION_BYTES
          && ParseProtected(k, Protect(k, c).value) == Some(c))
  }

  lemma ValidCallCrosses(k: Catalog, c: Call)
    requires Named(k) && Modest(k) && IsDict(Obj(c.options)) && CallIsValid(k, c) && CatalogOwned(k, c)
    ensures Crosses(k, c)
  {
    hide Named, Modest, IsDict, CallIsValid, CatalogOwned, CleanCall, ParseProtected, Canonical, Print, ProtectedSlots,
         IsLocalFile;
    ProtectSucceeds(k, c);
    if Protect(k, c).Some? {
      ProtectedRoundTrip(k, Protect(k, c).value, c);
      ProtectedFits(k, c);
      PrintedLength(Object(PROTECTED_KEYS, ProtectedSlots(c)));
    }
  }

  lemma PrintedLength(v: Value)
    ensures Printed(v).Some? ==> |Printed(v).value| == |Print(v)|
  {
    hide Print, Json.Valid, Printable;
  }

  /** Every read, browse or transcribe request that validates is a call that crosses. */
  lemma ValidatedCallCrosses(k: Catalog, args: Value, tool: Tool)
    requires Named(k) && Modest(k) && IsDict(args) && !tool.Search? && SingleCall(k, args, tool).Some?
    ensures Crosses(k, SingleCall(k, args, tool).value)
  {
    hide Named, Modest, IsDict, SingleCall, CallIsValid, CatalogOwned, Crosses;
    SingleCallValid(k, args, tool);
    SingleCallOwned(k, args, tool);
    ValidCallCrosses(k, SingleCall(k, args, tool).value);
  }

  /** Every search request that validates is a call that crosses. */
  lemma ValidatedSearchCrosses(k: Catalog, v: Value)
    requires Named(k) && Modest(k) && IsDict(v) && SearchCall(k, v).Some?
    ensures Crosses(k, SearchCall(k, v).value)
  {
    hide Named, Modest, IsDict, SearchCall, CallIsValid, CatalogOwned, Crosses;
    SearchCallValid(k, v);
    SearchCallOwned(k, v);
    ValidCallCrosses(k, SearchCall(k, v).value);
  }
}
