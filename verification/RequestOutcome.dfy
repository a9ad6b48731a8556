/** What a tool request means (contracts.py): the stripped text of each field, the call that is read from it, and that
    every valid call of the catalog can be asked for. */
module RequestOutcome {
  import opened Prelude
  import opened Json
  import opened Contracts
  import opened WireForm

  // ------------------------------------------------------------------ stripped text

  predicate AllSpace(k: Catalog, s: string) {
    forall i | 0 <= i < |s| :: k.isSpace(s[i])
  }

  /** t is s without the spaces around it */
  ghost predicate Inner(k: Catalog, s: string, t: string) {
    && (exists a, b :: AllSpace(k, a) && AllSpace(k, b) && s == a + t + b)
    && (t != "" ==> !k.isSpace(t[0]) && !k.isSpace(t[|t| - 1]))
  }

  lemma {:induction false} LeftStripped(k: Catalog, s: string) returns (a: string)
    ensures AllSpace(k, a) && s == a + StripLeft(k, s)
  {
    a := "";
    if s != "" && k.isSpace(s[0]) {
      var rest := LeftStripped(k, s[1..]);
      a := [s[0]] + rest;
    }
  }

  lemma {:induction false} RightStripped(k: Catalog, s: string) returns (b: string)
    ensures AllSpace(k, b) && s == StripRight(k, s) + b
  {
    b := "";
    if s != "" && k.isSpace(s[|s| - 1]) {
      var rest := RightStripped(k, s[..|s| - 1]);
      b := rest + [s[|s| - 1]];
      assert s == s[..|s| - 1] + [s[|s| - 1]];
    }
  }

  lemma {:induction false} LeftSpace(k: Catalog, a: string, s: string)
    requires AllSpace(k, a) && (s != "" ==> !k.isSpace(s[0]))
    ensures StripLeft(k, a + s) == s
  {
    if a == "" {
      assert a + s == s;
    } else {
      assert (a + s)[1..] == a[1..] + s && (a + s)[0] == a[0];
      LeftSpace(k, a[1..], s);
    }
  }

  lemma {:induction false} RightSpace(k: Catalog, s: string, b: string)
    requires AllSpace(k, b) && (s != "" ==> !k.isSpace(s[|s| - 1]))
    ensures StripRight(k, s + b) == s
  {
    if b == "" {
      assert s + b == s;
    } else {
      var n := |s + b| - 1;
      assert (s + b)[..n] == s + b[..|b| - 1] && (s + b)[n] == b[|b| - 1];
      RightSpace(k, s, b[..|b| - 1]);
    }
  }

  lemma StrippedIsInner(k: Catalog, s: string)
    ensures Inner(k, s, Strip(k, s))
  {
    hide AllSpace;
    var a := LeftStripped(k, s);
    var b := RightStripped(k, StripLeft(k, s));
    var r := Strip(k, s);
    assert s == a + r + b;
    if r != "" { assert r[0] == StripLeft(k, s)[0]; }
  }

  lemma InnerIsStripped(k: Catalog, s: string, t: string, x: string, y: string)
    requires AllSpace(k, x) && AllSpace(k, y) && s == x + t + y
    requires t != "" ==> !k.isSpace(t[0]) && !k.isSpace(t[|t| - 1])
    ensures Strip(k, s) == t
  {
    hide StripLeft, StripRight;
    if t == "" {
      assert AllSpace(k, x + y) && s == (x + y) + "";
      LeftSpace(k, x + y, "");
      RightSpace(k, "", "");
      assert "" + "" == "";
    } else {
      hide AllSpace;
      assert s == x + (t + y);
      LeftSpace(k, x, t + y);
      RightSpace(k, t, y);
    }
  }

  /** Stripping gives exactly the text without the spaces around it, whichever characters are spaces. */
  lemma StripExactly(k: Catalog, s: string, t: string)
    ensures Strip(k, s) == t <==> Inner(k, s, t)
  {
    hide Strip, AllSpace;
    StrippedIsInner(k, s);
    if Inner(k, s, t) {
      var x, y :| AllSpace(k, x) && AllSpace(k, y) && s == x + t + y;
      InnerIsStripped(k, s, t, x, y);
    }
  }

  /** the text under a key, stripped: not empty, and within its maximum as it was sent */
  ghost predicate TextUnder(k: Catalog, fields: seq<Field>, key: string, maximum: nat, text: string) {
    && Lookup(fields, key).Some? && Lookup(fields, key).value.Str?
    && |Lookup(fields, key).value.s| <= maximum && text != "" && Inner(k, Lookup(fields, key).value.s, text)
  }

  lemma {:induction false} GetIsLookup(fields: seq<Field>, key: string)
    ensures Get(fields, key) == if Lookup(fields, key).Some? then Lookup(fields, key).value else Null
    ensures HasKey(fields, key) <==> Lookup(fields, key).Some?
  {
    if fields != [] {
      GetIsLookup(fields[1..], key);
      if HasKey(fields[1..], key) {
        var i :| 0 <= i < |fields[1..]| && fields[1..][i].key == key;
        assert fields[i + 1].key == key;
      }
      if HasKey(fields, key) && fields[0].key != key {
        var i :| 0 <= i < |fields| && fields[i].key == key;
        assert fields[1..][i - 1].key == key;
      }
    }
  }

  lemma TextMeans(k: Catalog, fields: seq<Field>, key: string, maximum: nat, text: string)
    ensures TextOf(k, Get(fields, key), maximum) == Some(text) <==> TextUnder(k, fields, key, maximum, text)
  {
    hide Inner, Strip;
    GetIsLookup(fields, key);
    if Lookup(fields, key).Some? && Lookup(fields, key).value.Str? {
      StripExactly(k, Lookup(fields, key).value.s, text);
      StripExactly(k, Lookup(fields, key).value.s, Strip(k, Lookup(fields, key).value.s));
    }
  }

  // ------------------------------------------------------------------ what a request says

  /** source and operation name a row of the catalog for this tool, and the options, none if there are none, suit it */
  ghost predicate Names(k: Catalog, fields: seq<Field>, tool: Tool, c: Call) {
    && c.source in k.sources && TextUnder(k, fields, "source", 64, c.source)
    && (exists name :: TextUnder(k, fields, "operation", 128, name) && k.operation(c.source, name) == Some(c.operation))
    && c.operation.tool == tool
    && (if Lookup(fields, "options").Some? then Lookup(fields, "options") == Some(Obj(c.options)) else c.options == [])
    && OptionsOk(k, c.operation, Obj(c.options))
  }

  /** A read, browse or transcribe request is the call c exactly when it has no other keys and its version is v1, it
      names c's source, row and options, and its target is c's. */
  lemma SingleCallExactly(k: Catalog, args: Value, tool: Tool, c: Call)
    ensures SingleCall(k, args, tool) == Some(c) <==>
              && args.Obj? && OnlyKeys(args.fields, {"protocol_version", "source", "operation", "options", "target"})
              && (Lookup(args.fields, "protocol_version").None?
                  || Lookup(args.fields, "protocol_version") == Some(Str("v1")))
              && Names(k, args.fields, tool, c) && c.query.None?
              && TargetOf(k, c.operation,
                          if Lookup(args.fields, "target").Some? then Lookup(args.fields, "target").value else Null)
                 == Some(c.target)
  {
    hide OnlyKeys, OptionsOk, TargetOf, TextOf, TextUnder;
    if args.Obj? {
      var f := args.fields;
      GetIsLookup(f, "protocol_version");
      GetIsLookup(f, "target");
      NamesMean(k, f, tool, c);
      hide Names;
      NamedRow(k, f, tool, c);
    }
  }

  /** A search request is the call c exactly when it has no other keys, names c's source, row and options, and c's query
      is its stripped text. */
  lemma SearchCallExactly(k: Catalog, v: Value, c: Call)
    ensures SearchCall(k, v) == Some(c) <==>
              && v.Obj? && OnlyKeys(v.fields, {"source", "operation", "query", "options"})
              && Names(k, v.fields, Search, c) && c.target.None?
              && c.query.Some? && TextUnder(k, v.fields, "query", 4096, c.query.value)
  {
    hide OnlyKeys, OptionsOk, TextOf, TextUnder;
    if v.Obj? {
      NamesMean(k, v.fields, Search, c);
      NamedRow(k, v.fields, Search, c);
      hide Names;
      if c.query.Some? { TextMeans(k, v.fields, "query", 4096, c.query.value); }
    }
  }

  lemma NamesMean(k: Catalog, f: seq<Field>, tool: Tool, c: Call)
    ensures Names(k, f, tool, c) <==>
              && OperationOf(k, Get(f, "source"), Get(f, "operation"), tool) == Some((c.source, c.operation))
              && GetOr(f, "options", Obj([])) == Obj(c.options) && OptionsOk(k, c.operation, Obj(c.options))
  {
    hide OptionsOk, TextOf, TextUnder;
    GetIsLookup(f, "options");
    TextMeans(k, f, "source", 64, c.source);
    forall name ensures TextOf(k, Get(f, "operation"), 128) == Some(name) <==> TextUnder(k, f, "operation", 128, name) {
      TextMeans(k, f, "operation", 128, name);
    }
  }

  /** the options that are accepted are an object */
  lemma NamedRow(k: Catalog, f: seq<Field>, tool: Tool, c: Call)
    ensures forall op | OptionsOk(k, op, GetOr(f, "options", Obj([]))) ::
              GetOr(f, "options", Obj([])) == Obj(GetOr(f, "options", Obj([])).fields)
  {
  }

  // ------------------------------------------------------------------ options and targets

  /** An option suits its specification exactly when it is an integer within its bounds, a boolean, or a text whose
      stripped form is not empty, within the limit as sent (256 where none is set), and of its format. */
  lemma OptionExactly(k: Catalog, spec: OptionSpec, v: Value)
    ensures OptionOk(k, spec, v) <==>
              match spec.kind
              case IntegerOption(lo, hi) =>
                v.Int? && (lo.None? || lo.value <= v.n) && (hi.None? || v.n <= hi.value)
              case BooleanOption => v.Bool?
              case StringOption(limit, format) =>
                && v.Str? && |v.s| <= (if limit == 0 then 256 else limit)
                && exists t :: t != "" && Inner(k, v.s, t) && (format == "text" || k.formatOk(format, t))
  {
    hide Inner, Strip;
    if v.Str? {
      StrippedIsInner(k, v.s);
      forall t ensures Inner(k, v.s, t) <==> t == Strip(k, v.s) { StripExactly(k, v.s, t); }
    }
  }

  /** the specification of a kind: the first of that kind */
  ghost predicate SpecFor(specs: seq<TargetSpec>, kind: string, spec: TargetSpec) {
    exists i :: 0 <= i < |specs| && specs[i] == spec && spec.kind == kind && NoneBefore(specs, i, kind)
  }

  ghost predicate NoneBefore(specs: seq<TargetSpec>, i: nat, kind: string)
    requires i <= |specs|
  {
    forall j | 0 <= j < i :: specs[j].kind != kind
  }

  lemma {:induction false} FirstTargetExactly(specs: seq<TargetSpec>, kind: string, spec: TargetSpec)
    ensures FirstTarget(specs, kind) == Some(spec) <==> SpecFor(specs, kind, spec)
  {
    if specs != [] {
      FirstTargetExactly(specs[1..], kind, spec);
      if specs[0].kind == kind {
        assert specs[0] == spec ==> SpecFor(specs, kind, spec);
      } else {
        if SpecFor(specs[1..], kind, spec) {
          var i :| 0 <= i < |specs[1..]| && specs[1..][i] == spec && NoneBefore(specs[1..], i, kind);
          assert forall j | 0 < j < i + 1 :: specs[j] == specs[1..][j - 1];
          assert specs[i + 1] == spec && NoneBefore(specs, i + 1, kind);
        }
        if SpecFor(specs, kind, spec) {
          var i :| 0 <= i < |specs| && specs[i] == spec && NoneBefore(specs, i, kind);
          assert specs[1..][i - 1] == spec && NoneBefore(specs[1..], i - 1, kind);
        }
      }
    }
  }

  /** A value is a target exactly when it is an object of one key that the operation takes, whose stripped text is not
      empty, within the key's maximum as sent, of its format, and a web address where it is a URL; an operation that
      takes none has none. */
  lemma TargetExactly(k: Catalog, op: Operation, v: Value, t: Option<Target>)
    ensures TargetOf(k, op, v) == Some(t) <==>
              if op.targets == [] then v.Null? && t.None?
              else
                && v.Obj? && |v.fields| == 1 && t.Some? && t.value.kind == v.fields[0].key
                && v.fields[0].value.Str? && t.value.value != "" && Inner(k, v.fields[0].value.s, t.value.value)
                && (t.value.kind == "url" ==> "https://" <= t.value.value || "http://" <= t.value.value)
                && exists spec :: SpecFor(op.targets, t.value.kind, spec) && |v.fields[0].value.s| <= spec.maximum
                                  && (spec.format == "text" || k.formatOk(spec.format, t.value.value))
  {
    hide Inner, Strip, FirstTarget, SpecFor;
    if op.targets != [] && v.Obj? && |v.fields| == 1 {
      var x := v.fields[0];
      forall spec ensures FirstTarget(op.targets, x.key) == Some(spec) <==> SpecFor(op.targets, x.key, spec) {
        FirstTargetExactly(op.targets, x.key, spec);
      }
      if x.value.Str? {
        forall s ensures Inner(k, x.value.s, s) <==> s == Strip(k, x.value.s) { StripExactly(k, x.value.s, s); }
      }
    }
  }

  // ------------------------------------------------------------------ nothing valid is refused

  /** the request for a call, each field under its own key */
  function RequestFor(c: Call): Value {
    var common := [
      Field("operation", Str(c.operation.name)), Field("options", Obj(c.options)), Field("source", Str(c.source))];
    if c.query.Some? then Obj(common + [Field("query", Str(c.query.value))])
    else Obj(common + [Field("target", TargetValue(c.target))])
  }

  /** Every valid call of the catalog, with names that need no stripping, is what some request is read as. */
  lemma ValidIsRequestable(k: Catalog, c: Call)
    requires CallIsValid(k, c) && CatalogOwned(k, c)
    requires TextOf(k, Str(c.source), 64) == Some(c.source)
    requires TextOf(k, Str(c.operation.name), 128) == Some(c.operation.name)
    ensures if c.operation.tool.Search? then SearchCall(k, RequestFor(c)) == Some(c)
            else SingleCall(k, RequestFor(c), c.operation.tool) == Some(c)
  {
    hide OptionsOk, TargetOf, TextOf, Get, HasKey, Lookup;
    var f := RequestFor(c).fields;
    assert f[0].key == "operation" && f[1].key == "options" && f[2].key == "source" && |f| == 4;
    assert f[3].key == if c.query.Some? then "query" else "target";
    Found(f, 0);
    Found(f, 1);
    Found(f, 2);
    Found(f, 3);
    GetIsLookup(f, "operation");
    GetIsLookup(f, "options");
    GetIsLookup(f, "source");
    GetIsLookup(f, "query");
    GetIsLookup(f, "target");
    NotThere(f, "protocol_version");
    GetIsLookup(f, "protocol_version");
  }

  lemma {:induction false} NotThere(fields: seq<Field>, key: string)
    requires forall i | 0 <= i < |fields| :: fields[i].key != key
    ensures Lookup(fields, key).None?
  {
    if fields != [] { NotThere(fields[1..], key); }
  }
}
