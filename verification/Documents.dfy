/** The other documents the components write (connector/audit.py: a ledger line; connector/protocol.py: the protected
    call; connector/media_policy.py: the policy a digest is taken of): what stands under each key, looked up in the
    value the bytes load as. */
module Documents {
  import opened Prelude
  import opened Limits
  import opened Errors
  import opened Records
  import opened Json
  import opened Schema
  import opened Wire
  import opened WireForm
  import opened FileGrants
  import Ledger
  import Contracts
  import ModelPolicy

  // ------------------------------------------------------------------ a ledger line

  function RoleWord(r: Ledger.Role): string {
    match r
    case ConnectorRole => "connector"
    case VpsRole => "vps"
  }

  /** the receipt is the base64 text of its own encoding */
  ghost predicate LineForm(v: Value, e: Ledger.Evidence) {
    && Size(v) == 7 && At(v, "previous_hash") == Some(Str(e.previousHash))
    && At(v, "receipt_digest") == Some(Str(e.receiptDigest)) && At(v, "record_hash") == Some(Str(e.recordHash))
    && At(v, "recorded_at") == Some(Int(e.recordedAt)) && At(v, "role") == Some(Str(RoleWord(e.role)))
    && Under(v, "receipt", (x: Value) =>
               x.Str? && Ledger.StdDecode(x.s).Some? && Ledger.StdDecode(x.s) == EncodeSigned(ReceiptRecord(e.receipt)))
    && (At(v, "version") == Some(Int(1)) || At(v, "version") == Some(Bool(true)))
  }

  lemma LineHolds(e: Ledger.Evidence, text: string, asTrue: bool)
    requires Ledger.StdDecode(text).Some? && Ledger.StdDecode(text) == EncodeSigned(ReceiptRecord(e.receipt))
    ensures LineForm(Object(Ledger.EVIDENCE_KEYS, Ledger.SlotsWith(e, text, Ledger.VersionValue(asTrue))), e)
  {
    hide At, Object, Ascending, EncodeSigned, Ledger.StdDecode;
    var w := Ledger.SlotsWith(e, text, Ledger.VersionValue(asTrue));
    Ledger.EvidenceKeysAscend();
    SizeOf(Ledger.EVIDENCE_KEYS, w);
    AtKey(Ledger.EVIDENCE_KEYS, w, 0);
    AtKey(Ledger.EVIDENCE_KEYS, w, 1);
    AtKey(Ledger.EVIDENCE_KEYS, w, 2);
    AtKey(Ledger.EVIDENCE_KEYS, w, 3);
    AtKey(Ledger.EVIDENCE_KEYS, w, 4);
    AtKey(Ledger.EVIDENCE_KEYS, w, 5);
    AtKey(Ledger.EVIDENCE_KEYS, w, 6);
  }

  /** Any line that parses as a record says under every key what the record's field of that name holds. */
  lemma LineSays(g: Ledger.Config, line: Bytes, e: Ledger.Evidence)
    requires Ledger.ParseLine(g, line) == Some(e)
    ensures Load(line, MAX_FRAME_BYTES).Some? && LineForm(Load(line, MAX_FRAME_BYTES).value, e)
  {
    hide LineForm, Load, Object, EncodeSigned, Ledger.StdDecode, Printed, IsDict, Ledger.ParseLine, Ledger.LineReady;
    var text, asTrue := Ledger.ParsedIsVariant(g, line, e);
    Ledger.ScalarDict(Ledger.VersionValue(asTrue));
    Ledger.LineDict(e, text, Ledger.VersionValue(asTrue));
    LoadsPrinted(line, Object(Ledger.EVIDENCE_KEYS, Ledger.SlotsWith(e, text, Ledger.VersionValue(asTrue))));
    LineHolds(e, text, asTrue);
  }

  // ------------------------------------------------------------------ the protected call

  ghost predicate CallForm(v: Value, c: Contracts.Call) {
    && Size(v) == 5 && At(v, "source") == Some(Str(c.source)) && At(v, "operation") == Some(Str(c.operation.name))
    && At(v, "options") == Some(Obj(c.options)) && At(v, "query") == Some(OptionalText(c.query))
    && Under(v, "target", (x: Value) =>
               if c.target.None? then x.Null?
               else Size(x) == 1 && At(x, c.target.value.kind) == Some(Str(c.target.value.value)))
  }

  /** The protected form of a call says under every key what the call's field of that name holds. */
  lemma CallSays(k: Contracts.Catalog, raw: Bytes, c: Contracts.Call)
    requires Contracts.Protect(k, c) == Some(raw) && IsDict(Obj(c.options))
    ensures Load(raw, MAX_FRAME_BYTES).Some? && CallForm(Load(raw, MAX_FRAME_BYTES).value, c)
  {
    hide Load, Object, Printed, IsDict, Ascending, Contracts.CallIsValid, At;
    var w := Contracts.ProtectedSlots(c);
    Contracts.ProtectedDict(c);
    LoadsPrinted(raw, Object(Contracts.PROTECTED_KEYS, w));
    ProtectedKeysAscend();
    SizeOf(Contracts.PROTECTED_KEYS, w);
    AtKey(Contracts.PROTECTED_KEYS, w, 0);
    AtKey(Contracts.PROTECTED_KEYS, w, 1);
    AtKey(Contracts.PROTECTED_KEYS, w, 2);
    AtKey(Contracts.PROTECTED_KEYS, w, 3);
    AtKey(Contracts.PROTECTED_KEYS, w, 4);
    if c.target.Some? { OneField(c.target.value.kind, Str(c.target.value.value)); }
  }

  lemma OneField(key: string, x: Value)
    ensures At(Obj([Field(key, x)]), key) == Some(x)
  {
  }

  lemma ProtectedKeysAscend()
    ensures Ascending(Contracts.PROTECTED_KEYS)
  {
    hide Less;
    LessAt("operation", "options", 2);
    LessAt("options", "query", 0);
    LessAt("query", "source", 0);
    LessAt("source", "target", 0);
  }

  // ------------------------------------------------------------------ the policy behind a digest

  ghost predicate ModelForm(v: Value, m: ModelPolicy.Model) {
    Size(v) == 2 && At(v, "model") == Some(Str(m.model)) && At(v, "provider") == Some(Str(m.provider))
  }

  lemma ModelHolds(m: ModelPolicy.Model)
    ensures ModelForm(ModelPolicy.ModelValue(m), m)
  {
    hide At, Object, Ascending;
    PolicyKeysAscend();
    TwoKeys(ModelPolicy.MODEL_KEYS, Str(m.model), Str(m.provider));
  }

  ghost predicate RowForm(v: Value, r: ModelPolicy.Row) {
    && Size(v) == 10 && At(v, "source") == Some(Str(r.source)) && At(v, "operation") == Some(Str(r.operation))
    && At(v, "media_source_class") == Some(Str(r.mediaClass))
    && At(v, "maximum_chunks") == Some(Int(r.maximumChunks))
    && At(v, "maximum_duration_seconds") == Some(Int(r.maximumSeconds))
    && At(v, "maximum_source_bytes") == Some(Int(r.maximumBytes))
    && Under(v, "primary", (x: Value) => ModelForm(x, r.primary))
    && Under(v, "cleanup", (x: Value) => if r.cleanup.None? then x.Null? else ModelForm(x, r.cleanup.value))
    && Under(v, "fallbacks", (x: Value) =>
               x.Arr? && |x.items| == |r.fallbacks|
               && forall i | 0 <= i < |r.fallbacks| :: ModelForm(x.items[i], r.fallbacks[i]))
    && Under(v, "cost", (x: Value) =>
               Size(x) == 2 && At(x, "ceiling_microunits") == Some(Int(r.costCeiling))
               && At(x, "unit") == Some(Str(r.costUnit)))
  }

  lemma RowHolds(r: ModelPolicy.Row)
    ensures RowForm(ModelPolicy.RowValue(r), r)
  {
    hide At, Object, Ascending, ModelForm, ModelPolicy.ModelValue;
    var w := ModelPolicy.RowSlots(r);
    ModelPolicy.RowKeysAscend();
    PolicyKeysAscend();
    RowPartsHold(r);
    SizeOf(ModelPolicy.ROW_KEYS, w);
    AtKey(ModelPolicy.ROW_KEYS, w, 0);
    AtKey(ModelPolicy.ROW_KEYS, w, 1);
    AtKey(ModelPolicy.ROW_KEYS, w, 2);
    AtKey(ModelPolicy.ROW_KEYS, w, 3);
    AtKey(ModelPolicy.ROW_KEYS, w, 4);
    AtKey(ModelPolicy.ROW_KEYS, w, 5);
    AtKey(ModelPolicy.ROW_KEYS, w, 6);
    AtKey(ModelPolicy.ROW_KEYS, w, 7);
    AtKey(ModelPolicy.ROW_KEYS, w, 8);
    AtKey(ModelPolicy.ROW_KEYS, w, 9);
    TwoKeys(ModelPolicy.COST_KEYS, Int(r.costCeiling), Str(r.costUnit));
  }

  lemma RowPartsHold(r: ModelPolicy.Row)
    ensures ModelForm(ModelPolicy.ModelValue(r.primary), r.primary)
    ensures r.cleanup.Some? ==> ModelForm(ModelPolicy.ModelValue(r.cleanup.value), r.cleanup.value)
    ensures forall i | 0 <= i < |r.fallbacks| ::
              ModelForm(Values(r.fallbacks, ModelPolicy.ModelValue)[i], r.fallbacks[i])
  {
    hide ModelForm, ModelPolicy.ModelValue;
    ModelHolds(r.primary);
    if r.cleanup.Some? { ModelHolds(r.cleanup.value); }
    forall i | 0 <= i < |r.fallbacks|
      ensures ModelForm(Values(r.fallbacks, ModelPolicy.ModelValue)[i], r.fallbacks[i])
    {
      ModelHolds(r.fallbacks[i]);
    }
  }

  lemma PolicyKeysAscend()
    ensures Ascending(ModelPolicy.MODEL_KEYS) && Ascending(ModelPolicy.COST_KEYS) && Ascending(ModelPolicy.POLICY_KEYS)
  {
    hide Less;
    LessAt("model", "provider", 0);
    LessAt("ceiling_microunits", "unit", 0);
    LessAt("revision", "rows", 1);
    LessAt("rows", "version", 0);
  }

  /** ordered by source, then operation, then media class */
  ghost predicate RowsSorted(rows: seq<ModelPolicy.Row>) {
    forall i, j | 0 <= i < j < |rows| ::
      || Less(rows[i].source, rows[j].source)
      || (rows[i].source == rows[j].source && Less(rows[i].operation, rows[j].operation))
      || (rows[i].source == rows[j].source && rows[i].operation == rows[j].operation
          && Less(rows[i].mediaClass, rows[j].mediaClass))
  }

  ghost predicate PolicyForm(v: Value, p: ModelPolicy.Policy, rows: seq<ModelPolicy.Row>) {
    && Size(v) == 3 && At(v, "version") == Some(Str("v1")) && At(v, "revision") == Some(Int(p.revision))
    && Under(v, "rows", (x: Value) =>
               x.Arr? && |x.items| == |rows| && forall i | 0 <= i < |rows| :: RowForm(x.items[i], rows[i]))
  }

  /** The bytes a policy's digest is taken of hold its revision and exactly its rows, sorted, field by field. */
  lemma PolicySays(p: ModelPolicy.Policy, raw: Bytes) returns (rows: seq<ModelPolicy.Row>)
    requires ModelPolicy.DistinctRows(p.rows) && Printed(ModelPolicy.PolicyValue(p)) == Some(raw)
    ensures multiset(rows) == multiset(p.rows) && RowsSorted(rows)
    ensures Load(raw, MAX_FRAME_BYTES).Some? && PolicyForm(Load(raw, MAX_FRAME_BYTES).value, p, rows)
  {
    hide Load, Object, Printed, IsDict, Ascending, At, RowForm, ModelPolicy.RowValue, ModelPolicy.SortRows, Less,
         ModelPolicy.DistinctRows;
    rows := ModelPolicy.SortRows(p.rows);
    ModelPolicy.SortedRows(p.rows);
    ModelPolicy.PolicyDict(p);
    LoadsPrinted(raw, ModelPolicy.PolicyValue(p));
    PolicyKeysAscend();
    forall i | 0 <= i < |rows| ensures RowForm(Values(rows, ModelPolicy.RowValue)[i], rows[i]) { RowHolds(rows[i]); }
    var w := [Int(p.revision), Arr(Values(rows, ModelPolicy.RowValue)), Str("v1")];
    SizeOf(ModelPolicy.POLICY_KEYS, w);
    AtKey(ModelPolicy.POLICY_KEYS, w, 0);
    AtKey(ModelPolicy.POLICY_KEYS, w, 1);
    AtKey(ModelPolicy.POLICY_KEYS, w, 2);
  }
}
