/** The hash-chained receipt ledger (connector/audit.py): one line of canonical JSON for each record, the
    chain over the lines, appending, reading back and pruning, here on a file given as its lines. */
module Ledger {
  import opened Prelude
  import opened Limits
  import opened Errors
  import opened Records
  import opened Trust
  import opened Json
  import opened Schema
  import opened Bits
  import opened Text
  import opened Receipts
  import opened Wire
  import opened RecordConstructors

  const MAX_LEDGER_BYTES := 64 * 1024 * 1024
  const MAX_EVIDENCE_RECORDS := 100_000

  datatype Role = ConnectorRole | VpsRole

  datatype Evidence = Evidence(
    role: Role, recordedAt: int, receipt: SignedReceipt, receiptDigest: string, previousHash: string,
    recordHash: string)

  /** `hash` is the domain-separated SHA-256 of _evidence_hash, in hexadecimal */
  datatype Config = Config(env: Env, hash: Bytes -> string, role: Role)

  ghost predicate HexHashes(g: Config) {
    forall b :: IsHexOf(g.hash(b), 64)
  }

  // ------------------------------------------------------------------ padded base64

  function CharStd(d: int): char {
    if d == 62 then '+' else if d == 63 then '/' else Char64(d)
  }

  function CharsStd(ds: seq<int>): (s: string)
    ensures |s| == |ds|
  {
    if ds == [] then "" else [CharStd(ds[0])] + CharsStd(ds[1..])
  }

  function ValueStd(c: char): Option<int> {
    if c == '-' || c == '_' then None else Value64(c)
  }

  function ValuesStd(s: string): Option<seq<int>> {
    if s == "" then Some([])
    else
      var head, tail := ValueStd(s[0]), ValuesStd(s[1..]);
      if head.None? || tail.None? then None else Some([head.value] + tail.value)
  }

  /** base64.b64encode */
  function StdBase64(raw: Bytes): string {
    CharsStd(Encode(raw, 6)) + Equals((4 - Width(|raw|, 6) % 4) % 4)
  }

  /** base64.b64decode(validate=True); unlike the protocol's decoder it does not insist on zero pad bits */
  function StdDecode(s: string): Option<Bytes> {
    var pad := Padding(s);
    if |s| % 4 != 0 || pad > 2 then None
    else
      var values := ValuesStd(s[..|s| - pad]);
      if values.None? then None
      else
        var raw := Decode(values.value, 6);
        if AreBytes(raw) then Some(raw) else None
  }

  lemma {:induction false} CharsStdDecode(ds: seq<int>)
    requires Digits(ds, 6)
    ensures ValuesStd(CharsStd(ds)) == Some(ds)
    ensures forall i | 0 <= i < |ds| :: CharsStd(ds)[i] != '='
  {
    Pow2Small();
    if ds != [] {
      CharsStdDecode(ds[1..]);
      assert 0 <= ds[0] < 64;
      assert ValueStd(CharStd(ds[0])) == Some(ds[0]);
      assert ds == [ds[0]] + ds[1..];
    }
  }

  lemma PaddedGroups(n: nat)
    ensures (Width(n, 6) + (4 - Width(n, 6) % 4) % 4) % 4 == 0 && (4 - Width(n, 6) % 4) % 4 <= 2
  {
    var groups := n / 3;
    WholeGroups(groups, n - 3 * groups);
    hide Width;
    PadOf(groups, Width(n, 6) - 4 * groups);
  }

  lemma PadOf(groups: nat, spare: int)
    requires spare == 0 || spare == 2 || spare == 3
    ensures var w := 4 * groups + spare;
            (w + (4 - w % 4) % 4) % 4 == 0 && (4 - w % 4) % 4 <= 2
  {
    assert (4 * groups + spare) % 4 == spare;
  }

  /** three bytes make four characters */
  lemma WholeGroups(groups: nat, left: nat)
    requires left < 3
    ensures Width(3 * groups + left, 6) == 4 * groups + (if left == 0 then 0 else left + 1)
  {
  }

  lemma StdDecodes(raw: Bytes)
    ensures StdDecode(StdBase64(raw)) == Some(raw)
  {
    hide Encode, Decode, Width;
    var ds := Encode(raw, 6);
    DecodesEncoded(raw, 6);
    CharsStdDecode(ds);
    EncodeWidth(raw);
    PaddedGroups(|raw|);
    var pad := (4 - Width(|raw|, 6) % 4) % 4;
    PaddingOf(CharsStd(ds), pad);
    assert StdBase64(raw)[..|ds|] == CharsStd(ds);
    PlainIsRaw(raw);
  }

  lemma EncodeWidth(raw: Bytes)
    ensures |Encode(raw, 6)| == Width(|raw|, 6)
  {
  }

  lemma StdInjective(a: Bytes, b: Bytes)
    requires StdBase64(a) == StdBase64(b)
    ensures a == b
  {
    StdDecodes(a);
    StdDecodes(b);
  }

  // ------------------------------------------------------------------ one line

  const EVIDENCE_KEYS := [
    "previous_hash", "receipt", "receipt_digest", "record_hash", "recorded_at", "role", "version"]

  function RoleText(r: Role): string {
    if r.ConnectorRole? then "connector" else "vps"
  }

  function RoleNamed(s: string): Option<Role> {
    if s == "connector" then Some(ConnectorRole) else if s == "vps" then Some(VpsRole) else None
  }

  /** the values of a line with this receipt text and version */
  function SlotsWith(e: Evidence, text: string, version: Value): (vs: seq<Value>)
    ensures |vs| == |EVIDENCE_KEYS|
  {
    [
      Str(e.previousHash), Str(text), Str(e.receiptDigest), Str(e.recordHash), Int(e.recordedAt),
      Str(RoleText(e.role)), version]
  }

  function Slots(e: Evidence, receipt: Bytes): (vs: seq<Value>)
    ensures |vs| == |EVIDENCE_KEYS|
  {
    SlotsWith(e, StdBase64(receipt), Int(1))
  }

  /** _serialize_evidence; None where it raises */
  function Serialize(e: Evidence): Option<Bytes> {
    var receipt := EncodeSigned(ReceiptRecord(e.receipt));
    if receipt.None? then None else Printed(Object(EVIDENCE_KEYS, Slots(e, receipt.value)))
  }

  /** _evidence_hash: the hash of the line with an empty record_hash */
  function HashOf(g: Config, e: Evidence): Option<string> {
    Wrap(Serialize(e.(recordHash := "")), g.hash)
  }

  predicate IsHash(s: string) {
    IsHexOf(s, 64)
  }

  /** _parse_evidence; the version check compares with 1, which True also equals */
  function ParseLine(g: Config, line: Bytes): Option<Evidence> {
    var v := Load(line, MAX_FRAME_BYTES);
    if v.None? then None
    else
      var vs := ValuesOf(EVIDENCE_KEYS, v.value);
      if vs.None? then None
      else
        var w := vs.value;
        if !w[0].Str? || !w[1].Str? || !w[2].Str? || !w[3].Str? || !w[4].Int? || !w[5].Str?
           || !(w[6] == Int(1) || w[6] == Bool(true)) || w[1].s == "" || w[2].s == ""
           || StdDecode(w[1].s).None? || RoleNamed(w[5].s).None? || !IsTimestamp(w[4].n)
           || !(w[0].s == "" || IsHash(w[0].s)) || !IsHash(w[3].s)
        then None
        else
          var r := ParseSigned(Closed(g.env), StdDecode(w[1].s).value);
          if r.None? || !r.value.ReceiptRecord? || w[2].s != g.env.crypto.digest(r.value) then None
          else
            Some(Evidence(RoleNamed(w[5].s).value, w[4].n, r.value.receipt, w[2].s, w[0].s, w[3].s))
  }

  predicate LineReady(g: Config, e: Evidence) {
    && SignedConstructs(g.env, ReceiptRecord(e.receipt))
    && e.receiptDigest == g.env.crypto.digest(ReceiptRecord(e.receipt)) && e.receiptDigest != ""
    && IsTimestamp(e.recordedAt) && (e.previousHash == "" || IsHash(e.previousHash)) && IsHash(e.recordHash)
  }

  lemma EvidenceKeysAscend()
    ensures Ascending(EVIDENCE_KEYS)
  {
    hide Less;
    LessAt("previous_hash", "receipt", 0);
    LessAt("receipt", "receipt_digest", 7);
    LessAt("receipt_digest", "record_hash", 3);
    LessAt("record_hash", "recorded_at", 6);
    LessAt("recorded_at", "role", 1);
    LessAt("role", "version", 0);
  }

  lemma LineDict(e: Evidence, text: string, version: Value)
    requires IsDict(version)
    ensures IsDict(Object(EVIDENCE_KEYS, SlotsWith(e, text, version)))
  {
    hide Ascending;
    EvidenceKeysAscend();
    ObjectIsDict(EVIDENCE_KEYS, SlotsWith(e, text, version));
  }

  lemma WrittenDict(e: Evidence, receipt: Bytes)
    ensures IsDict(Object(EVIDENCE_KEYS, Slots(e, receipt)))
  {
    hide StdBase64, Object, IsDict;
    ScalarDict(Int(1));
    LineDict(e, StdBase64(receipt), Int(1));
  }

  lemma EncodedNotEmpty(raw: Bytes)
    requires raw != []
    ensures StdBase64(raw) != ""
  {
    EncodeWidth(raw);
  }

  /** the two version values that compare equal to 1 */
  function VersionValue(asTrue: bool): Value {
    if asTrue then Bool(true) else Int(1)
  }

  /** a receipt text that decodes to the record's receipt, and a line written with it and with this version */
  predicate Variant(e: Evidence, text: string, asTrue: bool, line: Bytes) {
    && text != "" && StdDecode(text).Some? && StdDecode(text) == EncodeSigned(ReceiptRecord(e.receipt))
    && Printed(Object(EVIDENCE_KEYS, SlotsWith(e, text, VersionValue(asTrue)))) == Some(line)
  }

  lemma VariantParses(g: Config, line: Bytes, e: Evidence, text: string, asTrue: bool)
    requires LineReady(g, e) && Variant(e, text, asTrue, line)
    ensures ParseLine(g, line) == Some(e)
  {
    hide Load, ValuesOf, Object, StdDecode, EncodeSigned, ParseSigned, Printed, SignedConstructs, IsHash, IsDict;
    var w := SlotsWith(e, text, VersionValue(asTrue));
    var v := Object(EVIDENCE_KEYS, w);
    ScalarDict(VersionValue(asTrue));
    LineDict(e, text, VersionValue(asTrue));
    LoadsPrinted(line, v);
    ReadsBuilt(EVIDENCE_KEYS, w, v);
    SignedRoundTrip(Closed(g.env), StdDecode(text).value, ReceiptRecord(e.receipt));
  }

  lemma ScalarDict(v: Value)
    requires v.Bool? || v.Int?
    ensures IsDict(v)
  {
  }

  /** a parsed line is a variant of the record it parses as */
  lemma ParsedIsVariant(g: Config, line: Bytes, e: Evidence) returns (text: string, asTrue: bool)
    requires ParseLine(g, line) == Some(e)
    ensures LineReady(g, e) && Variant(e, text, asTrue, line)
  {
    hide Load, ValuesOf, Object, StdDecode, EncodeSigned, ParseSigned, Printed, SignedConstructs, IsHash, IsDict;
    var v := Load(line, MAX_FRAME_BYTES).value;
    var w := ValuesOf(EVIDENCE_KEYS, v).value;
    text, asTrue := w[1].s, w[6].Bool?;
    LoadedIsSane(line, MAX_FRAME_BYTES);
    LoadsPrinted(line, v);
    ReadsBuilt(EVIDENCE_KEYS, w, v);
    assert w == [w[0], w[1], w[2], w[3], w[4], w[5], w[6]];
    assert w == SlotsWith(e, text, VersionValue(asTrue));
    SignedRoundTrip(Closed(g.env), StdDecode(text).value, ReceiptRecord(e.receipt));
  }

  /** A line parses as a record exactly when it is the record's line but for two freedoms: any base64 text
      that decodes to the receipt, and true for the version. So no line parses as a record whose receipt,
      digest, times or hashes are not the ones written in it. */
  lemma LineParsesExactly(g: Config, line: Bytes, e: Evidence)
    ensures ParseLine(g, line) == Some(e) <==> LineReady(g, e) && exists text, asTrue :: Variant(e, text, asTrue, line)
  {
    hide ParseLine, LineReady, Variant;
    if ParseLine(g, line) == Some(e) {
      var text, asTrue := ParsedIsVariant(g, line, e);
    }
    if LineReady(g, e) {
      if text, asTrue :| Variant(e, text, asTrue, line) { VariantParses(g, line, e, text, asTrue); }
    }
  }

  /** A variant is the line that is written for the record exactly when it uses neither freedom. */
  lemma WrittenExactly(e: Evidence, text: string, asTrue: bool, line: Bytes)
    requires Variant(e, text, asTrue, line)
    ensures Serialize(e) == Some(line) <==>
              !asTrue && text == StdBase64(EncodeSigned(ReceiptRecord(e.receipt)).value)
  {
    hide Object, ValuesOf, StdBase64, StdDecode, EncodeSigned, Printed, IsDict;
    var receipt := EncodeSigned(ReceiptRecord(e.receipt)).value;
    var w, written := SlotsWith(e, text, VersionValue(asTrue)), Slots(e, receipt);
    ScalarDict(VersionValue(asTrue));
    ScalarDict(Int(1));
    LineDict(e, text, VersionValue(asTrue));
    LineDict(e, StdBase64(receipt), Int(1));
    if Serialize(e) == Some(line) {
      LoadsPrinted(line, Object(EVIDENCE_KEYS, w));
      LoadsPrinted(line, Object(EVIDENCE_KEYS, written));
      ReadsBuilt(EVIDENCE_KEYS, w, Object(EVIDENCE_KEYS, w));
      ReadsBuilt(EVIDENCE_KEYS, written, Object(EVIDENCE_KEYS, w));
      assert w[1] == written[1] && w[6] == written[6];
    }
  }

  /** A written line reads back as the record it was written for. */
  lemma LineReadsBack(g: Config, e: Evidence)
    requires LineReady(g, e) && Serialize(e).Some?
    ensures ParseLine(g, Serialize(e).value) == Some(e)
  {
    hide ParseLine, StdBase64, StdDecode, EncodeSigned, Printed, Object, SignedConstructs, LineReady;
    var receipt := EncodeSigned(ReceiptRecord(e.receipt)).value;
    StdDecodes(receipt);
    EncodedFits(ReceiptRecord(e.receipt));
    EncodedNotEmpty(receipt);
    VariantParses(g, Serialize(e).value, e, StdBase64(receipt), false);
  }

  /** The first freedom is real: the line with true for the version, which prints whenever the written line
      leaves three characters, parses as the record and is not the written line. */
  lemma TrueForOneParses(g: Config, e: Evidence) returns (line: Bytes)
    requires LineReady(g, e) && Serialize(e).Some? && |Serialize(e).value| + 3 <= MAX_FRAME_BYTES
    ensures ParseLine(g, line) == Some(e) && Serialize(e) != Some(line)
  {
    hide ParseLine, StdBase64, StdDecode, EncodeSigned, SignedConstructs, LineReady, Serialize, Printed, Object;
    var receipt := SerializedReceipt(e);
    line := TrueLinePrints(e, receipt);
    StdDecodes(receipt);
    EncodedFits(ReceiptRecord(e.receipt));
    EncodedNotEmpty(receipt);
    VariantParses(g, line, e, StdBase64(receipt), true);
    WrittenExactly(e, StdBase64(receipt), true, line);
  }

  lemma TrueLinePrints(e: Evidence, receipt: Bytes) returns (line: Bytes)
    requires var written := Printed(Object(EVIDENCE_KEYS, Slots(e, receipt)));
             written.Some? && |written.value| + 3 <= MAX_FRAME_BYTES
    ensures Printed(Object(EVIDENCE_KEYS, SlotsWith(e, StdBase64(receipt), Bool(true)))) == Some(line)
  {
    hide Print, PrintFields, StdBase64, IsAscii, RoleText, Json.Valid, Printable;
    var a := Object(EVIDENCE_KEYS, SlotsWith(e, StdBase64(receipt), Bool(true)));
    var b := Object(EVIDENCE_KEYS, Slots(e, receipt));
    assert a.fields[..6] == b.fields[..6];
    OtherLast(a, b, 0);
    StillAdmissible(a, b);
    ObjectText(a);
    ObjectText(b);
    OneAndTrue();
    PrintAscii(a);
    line := AsBytes(Print(a));
  }

  lemma StillAdmissible(a: Value, b: Value)
    requires a.Obj? && b.Obj? && 0 < |a.fields| == |b.fields|
    requires a.fields[..|a.fields| - 1] == b.fields[..|a.fields| - 1]
    requires a.fields[|a.fields| - 1].key == b.fields[|a.fields| - 1].key && a.fields[|a.fields| - 1].value.Bool?
    requires Json.Valid(b, 0) && Printable(b)
    ensures Json.Valid(a, 0) && Printable(a)
  {
    hide CleanText, Decimal;
    forall i | 0 <= i < |a.fields| - 1 ensures a.fields[i] == b.fields[i] {
      assert a.fields[..|a.fields| - 1][i] == b.fields[..|a.fields| - 1][i];
    }
  }

  lemma ObjectText(v: Value)
    requires v.Obj?
    ensures |Print(v)| == |PrintFields(v, 0)| + 2
  {
  }

  lemma OneAndTrue()
    ensures |Print(Int(1))| == 1 && |Print(Bool(true))| == 4
  {
  }

  lemma SerializedReceipt(e: Evidence) returns (receipt: Bytes)
    requires Serialize(e).Some?
    ensures EncodeSigned(ReceiptRecord(e.receipt)) == Some(receipt)
    ensures Serialize(e) == Printed(Object(EVIDENCE_KEYS, Slots(e, receipt)))
  {
    hide EncodeSigned, Printed, Object;
    receipt := EncodeSigned(ReceiptRecord(e.receipt)).value;
  }

  /** The second freedom is real: the four pad bits of a one-byte text are ignored, so sixteen texts decode
      to the byte zero, and at most one of them is its encoding. */
  lemma PadBitsIgnored(d: int)
    requires 0 <= d < 16
    ensures StdDecode(['A', CharStd(d), '=', '=']) == Some([0])
    ensures d != 0 ==> ['A', CharStd(d), '=', '='] != "AA=="
  {
    hide Decode, Padding;
    var s := ['A', CharStd(d), '=', '='];
    PairDecodes(d);
    PaddingTwo(s);
    assert Digits([0, d], 6) by { Pow2Small(); }
    CharsStdDecode([0, d]);
    TwoChars(0, d);
    assert s[..2] == CharsStd([0, d]);
  }

  lemma TwoChars(a: int, b: int)
    ensures CharsStd([a, b]) == [CharStd(a), CharStd(b)]
  {
    assert [a, b][1..] == [b] && [b][1..] == [];
  }

  lemma PaddingTwo(s: string)
    requires |s| == 4 && s[1] != '=' && s[2] == '=' && s[3] == '='
    ensures Padding(s) == 2
  {
    assert Padding(s[..2]) == 0;
    assert s[..3][..2] == s[..2];
    assert Padding(s[..3]) == 1;
  }

  lemma PairDecodes(d: int)
    requires 0 <= d < 16
    ensures Decode([0, d], 6) == [0]
  {
    Pow2Small();
    hide Pow2;
    var ds := [0, d];
    assert ds[..1] == [0] && ds[..1][..0] == [];
    assert FromDigits([0], 6) == 0;
    assert FromDigits(ds, 6) == d;
    assert Quotient(d, 16) == 0 && Remainder(0, 256) == 0 && Quotient(0, 256) == 0;
    assert ToDigits(0, 1, 8) == [0];
  }

  lemma SlotsDiffer(a: Evidence, ra: Bytes, b: Evidence, rb: Bytes)
    requires Slots(a, ra) == Slots(b, rb)
    ensures ra == rb && a == b.(receipt := a.receipt)
  {
    hide StdBase64;
    var s, t := Slots(a, ra), Slots(b, rb);
    assert s[0] == t[0] && s[1] == t[1] && s[2] == t[2] && s[3] == t[3] && s[4] == t[4] && s[5] == t[5];
    StdInjective(ra, rb);
  }

  lemma SameReceipt(a: SignedReceipt, b: SignedReceipt)
    requires EncodeSigned(ReceiptRecord(a)).Some? && EncodeSigned(ReceiptRecord(a)) == EncodeSigned(ReceiptRecord(b))
    ensures a == b
  {
    hide EncodeSigned, ParseSigned;
    var any := Constructors((r: SignedRecord) => true, (w: WireRecord) => true);
    SignedRoundTrip(any, EncodeSigned(ReceiptRecord(a)).value, ReceiptRecord(a));
    SignedRoundTrip(any, EncodeSigned(ReceiptRecord(a)).value, ReceiptRecord(b));
  }

  /** Two records with the same line are the same record. */
  lemma LinesDiffer(a: Evidence, b: Evidence)
    requires Serialize(a).Some? && Serialize(a) == Serialize(b)
    ensures a == b
  {
    hide ValuesOf, Object, Slots, EncodeSigned, Printed, IsDict;
    var ra, rb := EncodeSigned(ReceiptRecord(a.receipt)).value, EncodeSigned(ReceiptRecord(b.receipt)).value;
    var va, vb := Object(EVIDENCE_KEYS, Slots(a, ra)), Object(EVIDENCE_KEYS, Slots(b, rb));
    WrittenDict(a, ra);
    WrittenDict(b, rb);
    LoadsPrinted(Serialize(a).value, va);
    LoadsPrinted(Serialize(a).value, vb);
    ReadsBuilt(EVIDENCE_KEYS, Slots(a, ra), va);
    ReadsBuilt(EVIDENCE_KEYS, Slots(b, rb), va);
    SlotsDiffer(a, ra, b, rb);
    SameReceipt(a.receipt, b.receipt);
  }

  // ------------------------------------------------------------------ the chain

  function Last(rs: seq<Evidence>): string {
    if rs == [] then "" else rs[|rs| - 1].recordHash
  }

  /** the checks _read_records makes on one record after those before it */
  predicate Follows(g: Config, before: seq<Evidence>, e: Evidence) {
    && g.env.crypto.verifies(g.env.crypto.connectorKey, ReceiptRecord(e.receipt))
    && e.role == g.role
    && e.previousHash == Last(before)
    && HashOf(g, e) == Some(e.recordHash)
    && (forall i | 0 <= i < |before| ::
          before[i].receipt.receiptId != e.receipt.receiptId && before[i].receiptDigest != e.receiptDigest)
    && (if before == [] then 0 <= e.recordedAt else before[|before| - 1].recordedAt <= e.recordedAt)
  }

  predicate Chained(g: Config, rs: seq<Evidence>) {
    forall i | 0 <= i < |rs| :: Follows(g, rs[..i], rs[i])
  }

  function ParseLines(g: Config, lines: seq<Bytes>): Option<seq<Evidence>> {
    if lines == [] then Some([])
    else
      var front, last := ParseLines(g, lines[..|lines| - 1]), ParseLine(g, lines[|lines| - 1]);
      if front.None? || last.None? then None else Some(front.value + [last.value])
  }

  /** the records of lines that parse and form a chain */
  function Verified(g: Config, lines: seq<Bytes>): Option<seq<Evidence>> {
    var rs := ParseLines(g, lines);
    if |lines| <= MAX_EVIDENCE_RECORDS && rs.Some? && Chained(g, rs.value) then rs else None
  }

  /** the bytes of the file: every line and its newline */
  function FileSize(lines: seq<Bytes>): nat {
    if lines == [] then 0 else FileSize(lines[..|lines| - 1]) + |lines[|lines| - 1]| + 1
  }

  /** _read_records; None where it raises */
  function ReadRecords(g: Config, lines: seq<Bytes>): Option<seq<Evidence>> {
    if FileSize(lines) > MAX_LEDGER_BYTES then None else Verified(g, lines)
  }

  predicate AlreadyThere(rs: seq<Evidence>, receipt: SignedReceipt, digest: string) {
    exists i :: 0 <= i < |rs| && (rs[i].receipt.receiptId == receipt.receiptId || rs[i].receiptDigest == digest)
  }

  function CheckCode(check: Check): ErrorCode {
    match check
    case ContextMismatch => ReceiptContextMismatch
    case ReceiptTooLate => ReceiptExpired
    case _ => ReceiptInvalid
  }

  /** the record append_verified makes after these, and its line; Rejected stands for ReceiptEvidenceError */
  function NewRecord(g: Config, rs: seq<Evidence>, receipt: SignedReceipt, now: int): Reply<(Evidence, Bytes)> {
    var digest := g.env.crypto.digest(ReceiptRecord(receipt));
    if AlreadyThere(rs, receipt, digest) then Raised(ReceiptReplayed)
    else if |rs| >= MAX_EVIDENCE_RECORDS || !IsTimestamp(now) || (rs != [] && now < rs[|rs| - 1].recordedAt)
    then Rejected
    else
      var draft := Evidence(g.role, now, receipt, digest, Last(rs), "");
      var hash := HashOf(g, draft);
      if hash.None? then Rejected
      else
        var e := draft.(recordHash := hash.value);
        var line := Serialize(e);
        if line.None? then Rejected else Done((e, line.value))
  }

  /** append_verified on a file of whole lines: the new lines, and the record */
  function Append(g: Config, lines: seq<Bytes>, receipt: SignedReceipt, request: SignedRequest, now: int)
    : (seq<Bytes>, Reply<Evidence>)
  {
    var check := VerifyReceipt(g.env.crypto, receipt, request, now);
    if !check.Good? then (lines, Raised(CheckCode(check)))
    else
      var rs := ReadRecords(g, lines);
      if rs.None? then (lines, Rejected)
      else
        match NewRecord(g, rs.value, receipt, now)
        case Raised(code) => (lines, Raised(code))
        case Rejected => (lines, Rejected)
        case Done((e, line)) =>
          if FileSize(lines) + |line| + 1 > MAX_LEDGER_BYTES then (lines, Rejected) else (lines + [line], Done(e))
  }

  /** one record linked behind a hash */
  function Relink(g: Config, e: Evidence, previous: string): Option<Evidence> {
    var draft := e.(previousHash := previous, recordHash := "");
    var hash := HashOf(g, draft);
    if hash.None? then None else Some(draft.(recordHash := hash.value))
  }

  /** _rechain */
  function Rechained(g: Config, rs: seq<Evidence>): (r: Option<seq<Evidence>>)
    ensures r.Some? ==> |r.value| == |rs|
  {
    if rs == [] then Some([])
    else
      var front := Rechained(g, rs[..|rs| - 1]);
      if front.None? then None
      else
        var e := Relink(g, rs[|rs| - 1], Last(front.value));
        if e.None? then None else Some(front.value + [e.value])
  }

  function SerializeAll(rs: seq<Evidence>): (r: Option<seq<Bytes>>)
    ensures r.Some? ==> |r.value| == |rs|
  {
    if rs == [] then Some([])
    else
      var front, last := SerializeAll(rs[..|rs| - 1]), Serialize(rs[|rs| - 1]);
      if front.None? || last.None? then None else Some(front.value + [last.value])
  }

  function Recent(rs: seq<Evidence>, cutoff: int): seq<Evidence> {
    if rs == [] then []
    else Recent(rs[..|rs| - 1], cutoff) + (if rs[|rs| - 1].recordedAt >= cutoff then [rs[|rs| - 1]] else [])
  }

  /** prune: the new lines, and how many records went */
  function Prune(g: Config, lines: seq<Bytes>, now: int): (seq<Bytes>, Reply<int>) {
    if !IsTimestamp(now) then (lines, Rejected)
    else
      var rs := ReadRecords(g, lines);
      if rs.None? then (lines, Rejected)
      else
        var retained := Recent(rs.value, Max(0, now - RETENTION_SECONDS));
        var removed := |rs.value| - |retained|;
        if removed == 0 then (lines, Done(0))
        else
          var linked := Rechained(g, retained);
          if linked.None? then (lines, Rejected)
          else
            var rewritten := SerializeAll(linked.value);
            if rewritten.None? then (lines, Rejected) else (rewritten.value, Done(removed))
  }

  // ------------------------------------------------------------------ appending

  lemma ParseLinesLength(g: Config, lines: seq<Bytes>)
    ensures ParseLines(g, lines).Some? ==> |ParseLines(g, lines).value| == |lines|
  {
    hide ParseLine;
    if lines != [] { ParseLinesLength(g, lines[..|lines| - 1]); }
  }

  lemma ChainGrows(g: Config, rs: seq<Evidence>, e: Evidence)
    requires Chained(g, rs) && Follows(g, rs, e)
    ensures Chained(g, rs + [e])
  {
    hide Follows;
    forall i | 0 <= i < |rs| + 1 ensures Follows(g, (rs + [e])[..i], (rs + [e])[i]) {
      if i < |rs| {
        assert (rs + [e])[..i] == rs[..i];
      } else {
        assert (rs + [e])[..i] == rs;
      }
    }
  }

  lemma AppendedFollows(
    g: Config, rs: seq<Evidence>, receipt: SignedReceipt, request: SignedRequest, now: int, e: Evidence)
    requires VerifyReceipt(g.env.crypto, receipt, request, now).Good?
    requires !AlreadyThere(rs, receipt, g.env.crypto.digest(ReceiptRecord(receipt)))
    requires IsTimestamp(now) && (rs != [] ==> rs[|rs| - 1].recordedAt <= now)
    requires e == Evidence(g.role, now, receipt, g.env.crypto.digest(ReceiptRecord(receipt)), Last(rs), e.recordHash)
    requires HashOf(g, e) == Some(e.recordHash)
    ensures Follows(g, rs, e)
  {
    hide HashOf, ContextMatches, Active, Last;
  }

  lemma LastIsHash(g: Config, rs: seq<Evidence>)
    requires Chained(g, rs) && HexHashes(g)
    ensures Last(rs) == "" || IsHash(Last(rs))
  {
    hide Serialize, HashOf, IsHash;
    if rs != [] {
      assert Follows(g, rs[..|rs| - 1], rs[|rs| - 1]);
      HashIsHex(g, rs[|rs| - 1]);
    }
  }

  /** After a successful append the file reads back as the old records and the new one, and still
      verifies. */
  lemma AppendReadsBack(
    g: Config, lines: seq<Bytes>, receipt: SignedReceipt, request: SignedRequest, now: int, rs: seq<Evidence>)
    requires HexHashes(g) && SignedConstructs(g.env, ReceiptRecord(receipt))
    requires g.env.crypto.digest(ReceiptRecord(receipt)) != ""
    requires ReadRecords(g, lines) == Some(rs) && Append(g, lines, receipt, request, now).1.Done?
    ensures var (lines', reply) := Append(g, lines, receipt, request, now);
            ReadRecords(g, lines') == Some(rs + [reply.value]) && reply.value.receipt == receipt
            && reply.value.recordedAt == now
  {
    hide ReadRecords, ParseLine, Serialize, Chained, VerifyReceipt, IsHash, SignedConstructs, AlreadyThere, HashOf,
         Last, HexHashes, FileSize;
    var (lines', reply) := Append(g, lines, receipt, request, now);
    var e := reply.value;
    var line := Serialize(e).value;
    SameHash(g, e);
    ReadMeansChained(g, lines, rs);
    AppendedFollows(g, rs, receipt, request, now, e);
    LastIsHash(g, rs);
    HashIsHex(g, e);
    LineReadsBack(g, e);
    ChainGrows(g, rs, e);
    LineAdded(g, lines, rs, line, e);
  }

  /** the hash does not depend on the record's own hash */
  lemma SameHash(g: Config, e: Evidence)
    ensures HashOf(g, e) == HashOf(g, e.(recordHash := ""))
  {
    hide Serialize;
    assert e.(recordHash := "").(recordHash := "") == e.(recordHash := "");
  }

  lemma ReadMeansChained(g: Config, lines: seq<Bytes>, rs: seq<Evidence>)
    requires ReadRecords(g, lines) == Some(rs)
    ensures Chained(g, rs) && ParseLines(g, lines) == Some(rs) && |lines| == |rs| <= MAX_EVIDENCE_RECORDS
    ensures FileSize(lines) <= MAX_LEDGER_BYTES
  {
    hide ParseLines, Chained, FileSize;
    ParseLinesLength(g, lines);
  }

  lemma LineAdded(g: Config, lines: seq<Bytes>, rs: seq<Evidence>, line: Bytes, e: Evidence)
    requires ParseLines(g, lines) == Some(rs) && ParseLine(g, line) == Some(e) && Chained(g, rs + [e])
    requires |lines| < MAX_EVIDENCE_RECORDS && FileSize(lines) + |line| + 1 <= MAX_LEDGER_BYTES
    ensures ReadRecords(g, lines + [line]) == Some(rs + [e])
  {
    hide ParseLine, Chained;
    assert (lines + [line])[..|lines|] == lines && (lines + [line])[|lines|] == line;
  }

  lemma HashIsHex(g: Config, e: Evidence)
    requires HexHashes(g)
    ensures HashOf(g, e).Some? ==> IsHash(HashOf(g, e).value)
  {
    hide Serialize;
  }

  // ------------------------------------------------------------------ pruning

  /** what pruning may change in a record */
  ghost predicate SameButLinks(a: Evidence, b: Evidence) {
    a.role == b.role && a.recordedAt == b.recordedAt && a.receipt == b.receipt && a.receiptDigest == b.receiptDigest
  }

  ghost predicate Ordered(rs: seq<Evidence>) {
    forall i, j | 0 <= i <= j < |rs| :: rs[i].recordedAt <= rs[j].recordedAt
  }

  lemma ChainPrefix(g: Config, rs: seq<Evidence>, n: nat)
    requires Chained(g, rs) && n <= |rs|
    ensures Chained(g, rs[..n])
  {
    hide Follows;
    forall i | 0 <= i < n ensures Follows(g, rs[..n][..i], rs[..n][i]) { assert rs[..n][..i] == rs[..i]; }
  }

  lemma {:induction false} ChainOrdered(g: Config, rs: seq<Evidence>)
    requires Chained(g, rs)
    ensures Ordered(rs) && (rs != [] ==> 0 <= rs[0].recordedAt)
  {
    hide Follows, Chained;
    if rs != [] {
      ChainPrefix(g, rs, |rs| - 1);
      ChainOrdered(g, rs[..|rs| - 1]);
      LastInOrder(g, rs);
    }
  }

  lemma LastInOrder(g: Config, rs: seq<Evidence>)
    requires Chained(g, rs) && rs != []
    ensures if |rs| == 1 then 0 <= rs[0].recordedAt else rs[|rs| - 2].recordedAt <= rs[|rs| - 1].recordedAt
  {
    hide HashOf;
    assert Follows(g, rs[..|rs| - 1], rs[|rs| - 1]);
  }

  /** with times in order, the recent records are a suffix */
  lemma {:induction false} RecentIsSuffix(rs: seq<Evidence>, cutoff: int) returns (k: nat)
    requires Ordered(rs)
    ensures k <= |rs| && Recent(rs, cutoff) == rs[k..]
    ensures forall i | 0 <= i < |rs| :: rs[i].recordedAt >= cutoff <==> k <= i
  {
    if rs == [] {
      k := 0;
    } else {
      var front, last := rs[..|rs| - 1], rs[|rs| - 1];
      var j := RecentIsSuffix(front, cutoff);
      k := if last.recordedAt >= cutoff then j else |rs|;
      hide Recent, Ordered;
      RecentLast(rs, cutoff);
      if last.recordedAt >= cutoff {
        SuffixSnoc(rs, j);
      } else {
        AllStale(front, rs, cutoff, j);
      }
    }
  }

  lemma RecentLast(rs: seq<Evidence>, cutoff: int)
    requires rs != []
    ensures Recent(rs, cutoff) == Recent(rs[..|rs| - 1], cutoff)
                                  + (if rs[|rs| - 1].recordedAt >= cutoff then [rs[|rs| - 1]] else [])
  {
  }

  lemma SuffixSnoc<T>(s: seq<T>, j: nat)
    requires s != [] && j < |s|
    ensures s[..|s| - 1][j..] + [s[|s| - 1]] == s[j..]
  {
  }

  /** when the last record is stale, so is every earlier one, and nothing was kept before it */
  lemma AllStale(front: seq<Evidence>, rs: seq<Evidence>, cutoff: int, j: nat)
    requires Ordered(rs) && rs != [] && rs[|rs| - 1].recordedAt < cutoff && front == rs[..|rs| - 1] && j <= |front|
    requires forall i | 0 <= i < |front| :: front[i].recordedAt >= cutoff <==> j <= i
    ensures j == |rs| - 1 && forall i | 0 <= i < |rs| :: rs[i].recordedAt < cutoff
  {
    forall i | 0 <= i < |rs| ensures rs[i].recordedAt < cutoff {
      assert rs[i].recordedAt <= rs[|rs| - 1].recordedAt;
    }
    if front != [] { assert front[|front| - 1] == rs[|front| - 1]; }
  }

  lemma RelinkFacts(g: Config, e: Evidence, previous: string)
    requires Relink(g, e, previous).Some?
    ensures var r := Relink(g, e, previous).value;
            SameButLinks(r, e) && r.previousHash == previous && HashOf(g, r) == Some(r.recordHash)
  {
    hide Serialize;
    var draft := e.(previousHash := previous, recordHash := "");
    assert draft.(recordHash := "") == draft;
    assert Relink(g, e, previous).value.(recordHash := "") == draft;
  }

  /** Relinking a stretch of a chain gives a chain of the same records. */
  lemma {:induction false} RechainedIsChain(g: Config, rs: seq<Evidence>, k: nat, n: nat)
    requires Chained(g, rs) && k <= n <= |rs| && Rechained(g, rs[k..n]).Some?
    ensures var out := Rechained(g, rs[k..n]).value;
            Chained(g, out) && forall i | 0 <= i < |out| :: SameButLinks(out[i], rs[k + i])
    decreases n
  {
    hide HashOf, Relink, Follows, Chained, SameButLinks, Last;
    if k == n {
      EmptyChain(g);
    } else {
      assert rs[k..n][..|rs[k..n]| - 1] == rs[k..n - 1];
      RechainedIsChain(g, rs, k, n - 1);
      var front := Rechained(g, rs[k..n - 1]).value;
      var e := Relink(g, rs[n - 1], Last(front)).value;
      RelinkFacts(g, rs[n - 1], Last(front));
      StillFollows(g, rs, k, n, front, e);
      ChainGrows(g, front, e);
      assert Rechained(g, rs[k..n]).value == front + [e];
    }
  }

  lemma EmptyChain(g: Config)
    ensures Chained(g, [])
  {
  }

  lemma StillFollows(g: Config, rs: seq<Evidence>, k: nat, n: nat, front: seq<Evidence>, e: Evidence)
    requires Chained(g, rs) && k < n <= |rs| && |front| == n - 1 - k
    requires forall i | 0 <= i < |front| :: SameButLinks(front[i], rs[k + i])
    requires SameButLinks(e, rs[n - 1]) && e.previousHash == Last(front) && HashOf(g, e) == Some(e.recordHash)
    ensures Follows(g, front, e)
  {
    hide HashOf, Last;
    assert Follows(g, rs[..n - 1], rs[n - 1]);
    assert |rs[..n - 1]| == n - 1;
    forall i | 0 <= i < |front|
      ensures front[i].receipt.receiptId != e.receipt.receiptId && front[i].receiptDigest != e.receiptDigest
    {
      assert rs[..n - 1][k + i] == rs[k + i];
    }
    ChainOrdered(g, rs);
  }

  ghost predicate AllReady(g: Config, rs: seq<Evidence>) {
    forall i | 0 <= i < |rs| :: LineReady(g, rs[i])
  }

  lemma {:induction false} SerializedReadsBack(g: Config, rs: seq<Evidence>)
    requires AllReady(g, rs) && SerializeAll(rs).Some?
    ensures ParseLines(g, SerializeAll(rs).value) == Some(rs)
  {
    hide Serialize, ParseLine, LineReady;
    if rs != [] {
      var front, last := rs[..|rs| - 1], rs[|rs| - 1];
      SerializedReadsBack(g, front);
      LineReadsBack(g, last);
      var lines := SerializeAll(rs).value;
      assert lines[..|lines| - 1] == SerializeAll(front).value;
      assert front + [last] == rs;
    }
  }

  /** a parsed line could be written again */
  lemma ParsedReady(g: Config, line: Bytes)
    requires ParseLine(g, line).Some?
    ensures LineReady(g, ParseLine(g, line).value)
  {
    hide Load, ValuesOf, StdDecode, SignedConstructs, IsHash, FrameOf, SignedOf;
  }

  lemma {:induction false} ParsedAllReady(g: Config, lines: seq<Bytes>)
    requires ParseLines(g, lines).Some?
    ensures AllReady(g, ParseLines(g, lines).value)
  {
    hide ParseLine, LineReady;
    if lines != [] {
      ParsedAllReady(g, lines[..|lines| - 1]);
      ParsedReady(g, lines[|lines| - 1]);
    }
  }

  // ------------------------------------------------------------------ a pruned file is no larger

  predicate PlainText(s: string) {
    forall i | 0 <= i < |s| :: ' ' <= s[i] <= '~' && s[i] != '"' && s[i] != '\\'
  }

  /** quoting adds two characters to plain text, and at least two to any */
  lemma {:induction false} QuotedLength(s: string)
    ensures |Quoted(s)| >= |s| + 2
    ensures PlainText(s) ==> |Quoted(s)| == |s| + 2
  {
    if s != "" {
      QuotedLength(s[1..]);
      if PlainText(s) { assert PlainText(s[1..]) && PlainText([s[0]]); }
    }
  }

  lemma {:induction false} CharsStdPlain(ds: seq<int>)
    ensures PlainText(CharsStd(ds))
  {
    if ds != [] { CharsStdPlain(ds[1..]); }
  }

  lemma HashPlain(s: string)
    requires s == "" || IsHash(s)
    ensures PlainText(s)
  {
  }

  lemma {:induction false} ValuesLength(s: string)
    ensures ValuesStd(s).Some? ==> |ValuesStd(s).value| == |s|
  {
    if s != "" { ValuesLength(s[1..]); }
  }

  /** every text that decodes to these bytes is as long as their encoding */
  lemma TextLength(text: string, raw: Bytes)
    requires StdDecode(text) == Some(raw)
    ensures |StdBase64(raw)| == |text|
  {
    hide Encode, FromDigits, ToDigits, Width, ValuesStd;
    var pad := Padding(text);
    var quads := |text| / 4;
    ValuesLength(text[..|text| - pad]);
    PaddedLength(quads, pad);
    EncodeWidth(raw);
  }

  /** four characters for every three bytes, less the padding */
  lemma PaddedLength(quads: nat, pad: nat)
    requires pad <= 2 && pad <= 4 * quads
    ensures var n := 6 * (4 * quads - pad) / 8;
            n == 3 * quads - pad && Width(n, 6) + (4 - Width(n, 6) % 4) % 4 == 4 * quads
  {
    if pad == 0 {
      WholeGroups(quads, 0);
    } else {
      WholeGroups(quads - 1, 3 - pad);
      assert 3 * quads - pad == 3 * (quads - 1) + (3 - pad);
    }
  }

  /** A relinked record's line is no longer than any line the record was read from. */
  lemma RelinkedNoLonger(e: Evidence, line: Bytes, text: string, asTrue: bool, e': Evidence, line': Bytes)
    requires Variant(e, text, asTrue, line) && Serialize(e') == Some(line') && SameButLinks(e', e)
    requires PlainText(e'.recordHash) && |e'.recordHash| <= |e.recordHash|
    requires PlainText(e'.previousHash) && |e'.previousHash| <= |e.previousHash|
    ensures |line'| <= |line|
  {
    hide StdBase64, StdDecode, EncodeSigned, Print, PrintFields, Quoted, Json.Valid, Printable, IsAscii, RoleText,
         PlainText, Object;
    var receipt := SerializedReceipt(e');
    ObjectNoLonger(e, text, asTrue, e', receipt);
  }

  lemma ObjectNoLonger(e: Evidence, text: string, asTrue: bool, e': Evidence, receipt: Bytes)
    requires StdDecode(text) == Some(receipt) && SameButLinks(e', e)
    requires PlainText(e'.recordHash) && |e'.recordHash| <= |e.recordHash|
    requires PlainText(e'.previousHash) && |e'.previousHash| <= |e.previousHash|
    ensures |Print(Object(EVIDENCE_KEYS, Slots(e', receipt)))|
            <= |Print(Object(EVIDENCE_KEYS, SlotsWith(e, text, VersionValue(asTrue))))|
  {
    hide StdBase64, StdDecode, Print, PrintFields, Quoted, RoleText, PlainText;
    var a := Object(EVIDENCE_KEYS, Slots(e', receipt));
    var b := Object(EVIDENCE_KEYS, SlotsWith(e, text, VersionValue(asTrue)));
    SlotsNoLonger(e, text, asTrue, e', receipt);
    forall i | 0 <= i < |a.fields|
      ensures a.fields[i].key == b.fields[i].key && |Print(a.fields[i].value)| <= |Print(b.fields[i].value)|
    {
      assert a.fields[i].value == Slots(e', receipt)[i];
      assert b.fields[i].value == SlotsWith(e, text, VersionValue(asTrue))[i];
    }
    FieldsNoLonger(a, b, 0);
    ObjectText(a);
    ObjectText(b);
  }

  /** and it can be written whenever that line could */
  lemma StillSerializes(e: Evidence, line: Bytes, text: string, asTrue: bool, e': Evidence)
    requires Variant(e, text, asTrue, line) && SameButLinks(e', e)
    requires PlainText(e'.recordHash) && |e'.recordHash| <= |e.recordHash|
    requires PlainText(e'.previousHash) && |e'.previousHash| <= |e.previousHash|
    ensures Serialize(e').Some?
  {
    hide StdBase64, StdDecode, EncodeSigned, Print, PrintFields, Quoted, IsAscii, RoleText, PlainText, Json.Valid,
         Printable, Object;
    var receipt := EncodeSigned(ReceiptRecord(e.receipt)).value;
    var a := Object(EVIDENCE_KEYS, Slots(e', receipt));
    ObjectNoLonger(e, text, asTrue, e', receipt);
    SlotsAdmissible(e, text, asTrue, e', receipt);
    ObjectsPrint(EVIDENCE_KEYS, Slots(e', receipt));
    PrintAscii(a);
  }

  lemma ObjectsPrint(keys: seq<string>, values: seq<Value>)
    requires |keys| == |values|
    ensures Print(Object(keys, values)) != ""
  {
  }

  lemma SlotsAdmissible(e: Evidence, text: string, asTrue: bool, e': Evidence, receipt: Bytes)
    requires SameButLinks(e', e) && PlainText(e'.recordHash) && PlainText(e'.previousHash)
    requires var b := Object(EVIDENCE_KEYS, SlotsWith(e, text, VersionValue(asTrue)));
             Json.Valid(b, 0) && Printable(b)
    ensures var a := Object(EVIDENCE_KEYS, Slots(e', receipt));
            Json.Valid(a, 0) && Printable(a)
  {
    hide StdBase64, Decimal, CleanText, RoleText, PlainText;
    var a := Object(EVIDENCE_KEYS, Slots(e', receipt));
    var b := Object(EVIDENCE_KEYS, SlotsWith(e, text, VersionValue(asTrue)));
    EncodingPlain(receipt);
    PlainIsClean(StdBase64(receipt));
    PlainIsClean(e'.recordHash);
    PlainIsClean(e'.previousHash);
    OnePrints();
    forall i | 0 <= i < |a.fields|
      ensures a.fields[i].key == b.fields[i].key && Json.Valid(a.fields[i].value, 1) && Printable(a.fields[i].value)
    {
      assert a.fields[i].value == Slots(e', receipt)[i];
      assert b.fields[i].value == SlotsWith(e, text, VersionValue(asTrue))[i];
      assert Json.Valid(b.fields[i].value, 1) && Printable(b.fields[i].value);
    }
  }

  lemma PlainIsClean(s: string)
    requires PlainText(s)
    ensures CleanText(s)
  {
  }

  lemma OnePrints()
    ensures Printable(Int(1)) && Json.Valid(Int(1), 1)
  {
  }

  lemma SlotsNoLonger(e: Evidence, text: string, asTrue: bool, e': Evidence, receipt: Bytes)
    requires StdDecode(text) == Some(receipt) && SameButLinks(e', e)
    requires PlainText(e'.recordHash) && |e'.recordHash| <= |e.recordHash|
    requires PlainText(e'.previousHash) && |e'.previousHash| <= |e.previousHash|
    ensures forall i | 0 <= i < |EVIDENCE_KEYS| ::
              |Print(Slots(e', receipt)[i])| <= |Print(SlotsWith(e, text, VersionValue(asTrue))[i])|
  {
    hide StdBase64, StdDecode, Quoted, PlainText;
    TextLength(text, receipt);
    EncodingPlain(receipt);
    QuotedLength(StdBase64(receipt));
    QuotedLength(text);
    QuotedLength(e'.previousHash);
    QuotedLength(e.previousHash);
    QuotedLength(e'.recordHash);
    QuotedLength(e.recordHash);
    OneAndTrue();
  }

  lemma EncodingPlain(raw: Bytes)
    ensures PlainText(StdBase64(raw))
  {
    hide Encode, Width;
    CharsStdPlain(Encode(raw, 6));
  }

  lemma ParseLinesAt(g: Config, lines: seq<Bytes>, i: nat)
    requires ParseLines(g, lines).Some? && i < |lines| == |ParseLines(g, lines).value|
    ensures ParseLine(g, lines[i]) == Some(ParseLines(g, lines).value[i])
  {
    hide ParseLine;
    ParseLinesLength(g, lines[..|lines| - 1]);
    if i < |lines| - 1 { ParseLinesAt(g, lines[..|lines| - 1], i); }
  }

  lemma {:induction false} SerializeAllAt(rs: seq<Evidence>, i: nat)
    requires SerializeAll(rs).Some? && i < |rs|
    ensures Serialize(rs[i]) == Some(SerializeAll(rs).value[i])
  {
    hide Serialize;
    if i < |rs| - 1 { SerializeAllAt(rs[..|rs| - 1], i); }
  }

  lemma {:induction false} SmallerLines(xs: seq<Bytes>, ys: seq<Bytes>)
    requires |xs| == |ys| && forall i | 0 <= i < |xs| :: |xs[i]| <= |ys[i]|
    ensures FileSize(xs) <= FileSize(ys)
  {
    if xs != [] { SmallerLines(xs[..|xs| - 1], ys[..|ys| - 1]); }
  }

  lemma {:induction false} FewerLines(lines: seq<Bytes>, k: nat)
    requires k <= |lines|
    ensures FileSize(lines[k..]) <= FileSize(lines)
  {
    if k < |lines| {
      assert lines[k..][..|lines[k..]| - 1] == lines[..|lines| - 1][k..];
      FewerLines(lines[..|lines| - 1], k);
    }
  }

  lemma RewrittenNoLarger(g: Config, lines: seq<Bytes>, rs: seq<Evidence>, k: nat, kept: seq<Evidence>)
    requires HexHashes(g) && ParseLines(g, lines) == Some(rs) && Chained(g, rs) && Chained(g, kept)
    requires |lines| == |rs| && k <= |rs| && |kept| == |rs| - k && SerializeAll(kept).Some?
    requires forall i | 0 <= i < |kept| :: SameButLinks(kept[i], rs[k + i])
    ensures FileSize(SerializeAll(kept).value) <= FileSize(lines)
  {
    hide Serialize, ParseLine, HashOf, Chained, HexHashes, SameButLinks, FileSize, Variant, LineReady, SerializeAll,
         ParseLines;
    var out := SerializeAll(kept).value;
    forall i | 0 <= i < |out| ensures |out[i]| <= |lines[k..][i]| {
      ParseLinesAt(g, lines, k + i);
      SerializeAllAt(kept, i);
      var text, asTrue := ParsedIsVariant(g, lines[k + i], rs[k + i]);
      LinksNoLonger(g, rs, k + i, kept, i);
      HashPlain(kept[i].previousHash);
      HashPlain(kept[i].recordHash);
      RelinkedNoLonger(rs[k + i], lines[k + i], text, asTrue, kept[i], out[i]);
    }
    SmallerLines(out, lines[k..]);
    FewerLines(lines, k);
  }

  /** hashes are all of one length, and only the first record of a chain has no previous one */
  lemma LinksNoLonger(g: Config, rs: seq<Evidence>, j: nat, kept: seq<Evidence>, i: nat)
    requires HexHashes(g) && Chained(g, rs) && Chained(g, kept) && i <= j < |rs| && i < |kept|
    ensures IsHash(rs[j].recordHash) && IsHash(kept[i].recordHash)
    ensures kept[i].previousHash == "" || IsHash(kept[i].previousHash)
    ensures |kept[i].previousHash| <= |rs[j].previousHash|
  {
    LinkShape(g, rs, j);
    LinkShape(g, kept, i);
  }

  lemma LinkShape(g: Config, rs: seq<Evidence>, i: nat)
    requires HexHashes(g) && Chained(g, rs) && i < |rs|
    ensures IsHash(rs[i].recordHash)
    ensures if i == 0 then rs[i].previousHash == "" else IsHash(rs[i].previousHash)
  {
    hide Serialize, HashOf, HexHashes;
    assert Follows(g, rs[..i], rs[i]);
    HashIsHex(g, rs[i]);
    ChainPrefix(g, rs, i);
    NonEmptyHash(g, rs[..i]);
    LastIsHash(g, rs[..i]);
  }

  /** Pruning keeps exactly the records no older than the cutoff, which are a suffix, unchanged but for
      their links, and leaves a file that reads back as them: no larger than before, every line parsing and
      every link verifying. */
  lemma PruneKeepsSuffix(g: Config, lines: seq<Bytes>, now: int, rs: seq<Evidence>)
    returns (k: nat, kept: seq<Evidence>)
    requires HexHashes(g) && ReadRecords(g, lines) == Some(rs) && Prune(g, lines, now).1.Done?
    ensures k == Prune(g, lines, now).1.value && k <= |rs| && |kept| == |rs| - k
    ensures forall i | 0 <= i < |rs| :: rs[i].recordedAt >= Max(0, now - RETENTION_SECONDS) <==> k <= i
    ensures forall i | 0 <= i < |kept| :: SameButLinks(kept[i], rs[k + i])
    ensures FileSize(Prune(g, lines, now).0) <= FileSize(lines)
    ensures ReadRecords(g, Prune(g, lines, now).0) == Some(kept)
  {
    hide Serialize, ParseLine, LineReady, HashOf, Chained, HexHashes, Rechained, AllReady, SameButLinks, Recent,
         FileSize;
    ReadMeansChained(g, lines, rs);
    ChainOrdered(g, rs);
    var cutoff := Max(0, now - RETENTION_SECONDS);
    k := RecentIsSuffix(rs, cutoff);
    if k == 0 {
      kept := rs;
      SameRecords(rs);
    } else {
      assert rs[k..] == rs[k..|rs|];
      kept := Rechained(g, rs[k..]).value;
      RewrittenVerifies(g, lines, rs, k, kept);
      RewrittenNoLarger(g, lines, rs, k, kept);
    }
  }

  lemma SameRecords(rs: seq<Evidence>)
    ensures forall i | 0 <= i < |rs| :: SameButLinks(rs[i], rs[0 + i])
  {
  }

  lemma RewrittenVerifies(g: Config, lines: seq<Bytes>, rs: seq<Evidence>, k: nat, kept: seq<Evidence>)
    requires HexHashes(g) && ParseLines(g, lines) == Some(rs) && Chained(g, rs) && k <= |rs| <= MAX_EVIDENCE_RECORDS
    requires Rechained(g, rs[k..|rs|]) == Some(kept) && SerializeAll(kept).Some?
    ensures Chained(g, kept) && Verified(g, SerializeAll(kept).value) == Some(kept)
    ensures forall i | 0 <= i < |kept| :: SameButLinks(kept[i], rs[k + i])
  {
    hide Serialize, ParseLine, LineReady, HashOf, Chained, HexHashes, AllReady, SameButLinks;
    RechainedIsChain(g, rs, k, |rs|);
    ParsedAllReady(g, lines);
    RelinkedReady(g, rs, k, kept);
    SerializedReadsBack(g, kept);
  }

  lemma RelinkedReady(g: Config, rs: seq<Evidence>, k: nat, kept: seq<Evidence>)
    requires HexHashes(g) && AllReady(g, rs) && Chained(g, kept) && k <= |rs| && |kept| == |rs| - k
    requires forall i | 0 <= i < |kept| :: SameButLinks(kept[i], rs[k + i])
    ensures AllReady(g, kept)
  {
    hide HashOf, SignedConstructs, IsHash;
    forall i | 0 <= i < |kept| ensures LineReady(g, kept[i]) {
      assert Follows(g, kept[..i], kept[i]);
      assert LineReady(g, rs[k + i]);
      HashIsHex(g, kept[i]);
      ChainPrefix(g, kept, i);
      LastIsHash(g, kept[..i]);
    }
  }

  // ------------------------------------------------------------------ pruning never fails on a readable file

  /** relinking a record that was read: its new hash can be taken, and its new line written */
  lemma Relinks(g: Config, line: Bytes, e: Evidence, previous: string)
    requires HexHashes(g) && ParseLine(g, line) == Some(e)
    requires (previous == "" || IsHash(previous)) && |previous| <= |e.previousHash|
    ensures Relink(g, e, previous).Some? && Serialize(Relink(g, e, previous).value).Some?
  {
    hide ParseLine, Serialize, LineReady, Variant, IsHash, PlainText;
    var text, asTrue := ParsedIsVariant(g, line, e);
    HashPlain(previous);
    HashPlain("");
    ReadyHash(g, e);
    var draft := e.(previousHash := previous, recordHash := "");
    StillSerializes(e, line, text, asTrue, draft);
    assert draft.(recordHash := "") == draft;
    HashIsHex(g, draft);
    var hash := HashOf(g, draft).value;
    HashPlain(hash);
    SixtyFour(hash);
    StillSerializes(e, line, text, asTrue, draft.(recordHash := hash));
  }

  lemma ReadyHash(g: Config, e: Evidence)
    requires LineReady(g, e)
    ensures |e.recordHash| == 64
  {
    hide SignedConstructs;
  }

  lemma SixtyFour(s: string)
    requires IsHash(s)
    ensures |s| == 64
  {
  }

  lemma {:induction false} RechainsAndSerializes(g: Config, lines: seq<Bytes>, rs: seq<Evidence>, k: nat, n: nat)
    requires HexHashes(g) && ParseLines(g, lines) == Some(rs) && |lines| == |rs| && Chained(g, rs) && k <= n <= |rs|
    ensures Rechained(g, rs[k..n]).Some? && SerializeAll(Rechained(g, rs[k..n]).value).Some?
    decreases n
  {
    hide HexHashes, ParseLine, Chained, Relink, Serialize, ParseLines, Last;
    if k == n {
      assert rs[k..n] == [];
    } else {
      hide SameButLinks;
      RechainsAndSerializes(g, lines, rs, k, n - 1);
      RechainedIsChain(g, rs, k, n - 1);
      NextRelinks(g, lines, rs, k, n, Rechained(g, rs[k..n - 1]).value);
      NextRechains(g, rs, k, n);
    }
  }

  lemma NextRelinks(g: Config, lines: seq<Bytes>, rs: seq<Evidence>, k: nat, n: nat, front: seq<Evidence>)
    requires HexHashes(g) && ParseLines(g, lines) == Some(rs) && |lines| == |rs| && Chained(g, rs) && k < n <= |rs|
    requires Chained(g, front) && |front| == n - 1 - k
    ensures var e := Relink(g, rs[n - 1], Last(front));
            e.Some? && Serialize(e.value).Some?
  {
    hide HexHashes, ParseLine, Chained, Relink, Serialize, ParseLines, Last, IsHash;
    LastIsHash(g, front);
    LinkShape(g, rs, n - 1);
    LastShape(g, front, k, n - 1, rs[n - 1].previousHash);
    ParseLinesAt(g, lines, n - 1);
    Relinks(g, lines[n - 1], rs[n - 1], Last(front));
  }

  lemma NextRechains(g: Config, rs: seq<Evidence>, k: nat, n: nat)
    requires k < n <= |rs| && Rechained(g, rs[k..n - 1]).Some?
    requires var front := Rechained(g, rs[k..n - 1]).value;
             && SerializeAll(front).Some?
             && var e := Relink(g, rs[n - 1], Last(front));
             e.Some? && Serialize(e.value).Some?
    ensures Rechained(g, rs[k..n]).Some? && SerializeAll(Rechained(g, rs[k..n]).value).Some?
  {
    hide Relink, Serialize, Last;
    assert rs[k..n][..n - k - 1] == rs[k..n - 1];
    var front := Rechained(g, rs[k..n - 1]).value;
    var e := Relink(g, rs[n - 1], Last(front)).value;
    assert (front + [e])[..|front|] == front;
  }

  /** the last hash before a record is no longer than the hash the record already names */
  lemma LastShape(g: Config, front: seq<Evidence>, k: nat, n: nat, named: string)
    requires k <= n && |front| == n - k
    requires Last(front) == "" || IsHash(Last(front))
    requires if n == 0 then named == "" else IsHash(named)
    ensures |Last(front)| <= |named|
  {
  }

  // ------------------------------------------------------------------ tamper evidence

  /** two different lines, one from each chain, with the same hash */
  ghost predicate Collides(g: Config, a: Evidence, b: Evidence) {
    var x, y := Serialize(a.(recordHash := "")), Serialize(b.(recordHash := ""));
    x.Some? && y.Some? && x != y && g.hash(x.value) == g.hash(y.value)
  }

  lemma SameHashSameRecord(g: Config, a: Evidence, b: Evidence)
    requires HashOf(g, a) == Some(a.recordHash) && HashOf(g, b) == Some(b.recordHash) && a.recordHash == b.recordHash
    ensures a == b || Collides(g, a, b)
  {
    hide Serialize;
    var x, y := a.(recordHash := ""), b.(recordHash := "");
    if Serialize(x) == Serialize(y) {
      LinesDiffer(x, y);
      assert a == x.(recordHash := a.recordHash) && b == y.(recordHash := b.recordHash);
    }
  }

  ghost predicate CollisionAmong(g: Config, rs: seq<Evidence>, qs: seq<Evidence>) {
    exists i, j :: 0 <= i < |rs| && 0 <= j < |qs| && Collides(g, rs[i], qs[j])
  }

  lemma CollisionFound(g: Config, rs: seq<Evidence>, qs: seq<Evidence>, m: nat, n: nat)
    requires m <= |rs| && n <= |qs| && CollisionAmong(g, rs[..m], qs[..n])
    ensures CollisionAmong(g, rs, qs)
  {
    hide Collides;
    var i, j :| 0 <= i < m && 0 <= j < n && Collides(g, rs[..m][i], qs[..n][j]);
    assert Collides(g, rs[i], qs[j]);
  }

  lemma LastFollows(g: Config, rs: seq<Evidence>)
    requires Chained(g, rs) && rs != []
    ensures var front, last := rs[..|rs| - 1], rs[|rs| - 1];
            && Chained(g, front) && last.previousHash == Last(front)
            && HashOf(g, last) == Some(last.recordHash) && Last(rs) == last.recordHash && rs == front + [last]
  {
    hide HashOf;
    ChainPrefix(g, rs, |rs| - 1);
    assert Follows(g, rs[..|rs| - 1], rs[|rs| - 1]);
  }

  /** Two verifying chains that end in the same hash are the same chain, record by record, or they show a
      collision of the hash. */
  lemma {:induction false} LastHashDeterminesChain(g: Config, rs: seq<Evidence>, qs: seq<Evidence>)
    requires HexHashes(g) && Chained(g, rs) && Chained(g, qs) && Last(rs) == Last(qs)
    ensures rs == qs || CollisionAmong(g, rs, qs)
    decreases |rs|
  {
    hide HashOf, Collides, HexHashes, Chained, Last;
    NonEmptyHash(g, rs);
    NonEmptyHash(g, qs);
    if rs != [] && qs != [] {
      LastFollows(g, rs);
      LastFollows(g, qs);
      var m, n := |rs| - 1, |qs| - 1;
      SameHashSameRecord(g, rs[m], qs[n]);
      if rs[m] == qs[n] {
        LastHashDeterminesChain(g, rs[..m], qs[..n]);
        if rs[..m] != qs[..n] { CollisionFound(g, rs, qs, m, n); }
      }
    }
  }

  lemma NonEmptyHash(g: Config, rs: seq<Evidence>)
    requires HexHashes(g) && Chained(g, rs)
    ensures Last(rs) == "" <==> rs == []
  {
    hide HashOf;
    if rs != [] {
      assert Follows(g, rs[..|rs| - 1], rs[|rs| - 1]);
      HashIsHex(g, rs[|rs| - 1]);
    }
  }

  // ------------------------------------------------------------------ no receipt twice, even after pruning

  datatype Op = AppendOp(receipt: SignedReceipt, request: SignedRequest, now: int) | PruneOp(now: int)

  function Step(g: Config, lines: seq<Bytes>, op: Op): seq<Bytes> {
    match op
    case AppendOp(receipt, request, now) => Append(g, lines, receipt, request, now).0
    case PruneOp(now) => Prune(g, lines, now).0
  }

  /** the file after the first n operations on an empty one */
  function FileAfter(g: Config, ops: seq<Op>, n: nat): seq<Bytes>
    requires n <= |ops|
  {
    if n == 0 then [] else Step(g, FileAfter(g, ops, n - 1), ops[n - 1])
  }

  /** receipts are objects their constructor accepted, and digests are not empty */
  ghost predicate Genuine(g: Config, op: Op) {
    op.AppendOp? ==>
      && SignedConstructs(g.env, ReceiptRecord(op.receipt))
      && g.env.crypto.digest(ReceiptRecord(op.receipt)) != ""
  }

  ghost predicate InTimeOrder(ops: seq<Op>) {
    forall i, j | 0 <= i <= j < |ops| :: ops[i].now <= ops[j].now
  }

  lemma StepReads(g: Config, lines: seq<Bytes>, op: Op)
    requires HexHashes(g) && Genuine(g, op) && ReadRecords(g, lines).Some?
    ensures ReadRecords(g, Step(g, lines, op)).Some?
  {
    hide ReadRecords, Append, Prune, HexHashes, SignedConstructs;
    var rs := ReadRecords(g, lines).value;
    if op.AppendOp? && Append(g, lines, op.receipt, op.request, op.now).1.Done? {
      AppendReadsBack(g, lines, op.receipt, op.request, op.now, rs);
    } else if op.AppendOp? {
      FailedAppend(g, lines, op.receipt, op.request, op.now);
    } else if Prune(g, lines, op.now).1.Done? {
      var k, kept := PruneKeepsSuffix(g, lines, op.now, rs);
    } else {
      PruneFacts(g, lines, op.now);
    }
  }

  /** Whatever is appended, refused or pruned, the file the ledger wrote can be read again: within its size,
      every line parsing and every link verifying. */
  lemma {:induction false} AlwaysReadable(g: Config, ops: seq<Op>, n: nat)
    requires HexHashes(g) && n <= |ops| && forall i | 0 <= i < n :: Genuine(g, ops[i])
    ensures ReadRecords(g, FileAfter(g, ops, n)).Some?
  {
    hide Step, HexHashes, Genuine, ReadRecords;
    if n == 0 {
      NothingReads(g);
    } else {
      AlwaysReadable(g, ops, n - 1);
      StepReads(g, FileAfter(g, ops, n - 1), ops[n - 1]);
    }
  }

  lemma NothingReads(g: Config)
    ensures ReadRecords(g, []) == Some([])
  {
    EmptyChain(g);
  }

  /** the file holds this receipt, recorded at this time */
  ghost predicate Holds(g: Config, lines: seq<Bytes>, receipt: SignedReceipt, at: int) {
    && Verified(g, lines).Some?
    && var rs := Verified(g, lines).value;
    && exists i :: 0 <= i < |rs| && rs[i].receipt == receipt && rs[i].recordedAt == at
  }

  lemma AppendHolds(g: Config, lines: seq<Bytes>, op: Op, receipt: SignedReceipt, at: int)
    requires HexHashes(g) && op.AppendOp? && Genuine(g, op) && Holds(g, lines, receipt, at)
    ensures Holds(g, Step(g, lines, op), receipt, at)
  {
    hide Verified, Append, HexHashes, SignedConstructs;
    if Append(g, lines, op.receipt, op.request, op.now).1.Done? {
      AppendedRead(g, lines, op.receipt, op.request, op.now);
      var rs := ReadRecords(g, lines).value;
      AppendReadsBack(g, lines, op.receipt, op.request, op.now, rs);
      var i :| 0 <= i < |rs| && rs[i].receipt == receipt && rs[i].recordedAt == at;
      var all := rs + [Append(g, lines, op.receipt, op.request, op.now).1.value];
      assert all[i] == rs[i];
    } else {
      FailedAppend(g, lines, op.receipt, op.request, op.now);
    }
  }

  lemma AppendedRead(g: Config, lines: seq<Bytes>, receipt: SignedReceipt, request: SignedRequest, now: int)
    requires Append(g, lines, receipt, request, now).1.Done?
    ensures ReadRecords(g, lines).Some? && ReadRecords(g, lines) == Verified(g, lines)
    ensures VerifyReceipt(g.env.crypto, receipt, request, now).Good?
    ensures !AlreadyThere(ReadRecords(g, lines).value, receipt, g.env.crypto.digest(ReceiptRecord(receipt)))
  {
    hide Verified, VerifyReceipt, AlreadyThere, Serialize, HashOf, FileSize;
  }

  lemma FailedAppend(g: Config, lines: seq<Bytes>, receipt: SignedReceipt, request: SignedRequest, now: int)
    requires !Append(g, lines, receipt, request, now).1.Done?
    ensures Append(g, lines, receipt, request, now).0 == lines
  {
    hide ReadRecords, VerifyReceipt, AlreadyThere, Serialize, HashOf, FileSize;
  }

  lemma PruneFacts(g: Config, lines: seq<Bytes>, now: int)
    ensures !Prune(g, lines, now).1.Done? ==> Prune(g, lines, now).0 == lines
    ensures Prune(g, lines, now).1.Done? ==> ReadRecords(g, lines).Some? && ReadRecords(g, lines) == Verified(g, lines)
  {
    hide Verified, Recent, Rechained, SerializeAll, FileSize;
  }

  lemma PruneHolds(g: Config, lines: seq<Bytes>, op: Op, receipt: SignedReceipt, at: int)
    requires HexHashes(g) && op.PruneOp? && Holds(g, lines, receipt, at) && 0 <= at
    ensures Holds(g, Step(g, lines, op), receipt, at) || op.now > at + RETENTION_SECONDS
  {
    hide Verified, Prune, HexHashes;
    PruneFacts(g, lines, op.now);
    if Prune(g, lines, op.now).1.Done? {
      var rs := ReadRecords(g, lines).value;
      var k, kept := PruneKeepsSuffix(g, lines, op.now, rs);
      var i :| 0 <= i < |rs| && rs[i].receipt == receipt && rs[i].recordedAt == at;
      if k <= i { assert SameButLinks(kept[i - k], rs[k + (i - k)]); }
    }
  }

  /** A recorded receipt is still there after any later operations, or one of them is a pruning more than
      the retention window later. */
  lemma {:induction false} StaysHeld(g: Config, ops: seq<Op>, i: nat, n: nat, receipt: SignedReceipt, at: int)
    returns (m: nat)
    requires HexHashes(g) && i <= n <= |ops| && 0 <= at
    requires forall j | 0 <= j < |ops| :: Genuine(g, ops[j])
    requires Holds(g, FileAfter(g, ops, i), receipt, at)
    ensures Holds(g, FileAfter(g, ops, n), receipt, at)
            || (i <= m < n && ops[m].now > at + RETENTION_SECONDS)
    decreases n
  {
    hide Step, Holds, HexHashes, Genuine;
    m := i;
    if i < n {
      m := StaysHeld(g, ops, i, n - 1, receipt, at);
      if Holds(g, FileAfter(g, ops, n - 1), receipt, at) {
        if ops[n - 1].AppendOp? {
          AppendHolds(g, FileAfter(g, ops, n - 1), ops[n - 1], receipt, at);
        } else {
          PruneHolds(g, FileAfter(g, ops, n - 1), ops[n - 1], receipt, at);
        }
        m := n - 1;
      }
    }
  }

  ghost predicate AppendedAt(g: Config, ops: seq<Op>, i: nat)
    requires i < |ops|
  {
    ops[i].AppendOp? && Append(g, FileAfter(g, ops, i), ops[i].receipt, ops[i].request, ops[i].now).1.Done?
  }

  lemma JustHeld(g: Config, lines: seq<Bytes>, op: Op)
    requires HexHashes(g) && op.AppendOp? && Genuine(g, op)
    requires Append(g, lines, op.receipt, op.request, op.now).1.Done?
    ensures Holds(g, Step(g, lines, op), op.receipt, op.now)
  {
    hide Verified, Append, HexHashes, SignedConstructs;
    AppendedRead(g, lines, op.receipt, op.request, op.now);
    var rs := ReadRecords(g, lines).value;
    AppendReadsBack(g, lines, op.receipt, op.request, op.now, rs);
    var all := rs + [Append(g, lines, op.receipt, op.request, op.now).1.value];
    assert all[|rs|].receipt == op.receipt;
  }

  lemma ReceiptWindow(c: Crypto, r: SignedReceipt, request: SignedRequest, now: int)
    requires VerifyReceipt(c, r, request, now).Good?
    ensures IsTimestamp(now) && r.endedAt <= now + CLOCK_SKEW_SECONDS && now < r.expiresAt
  {
    hide ContextMatches;
  }

  /** No receipt is ever recorded twice, wherever prunings fall: a pruned receipt is long past its
      verification window. */
  lemma NoReceiptTwice(g: Config, ops: seq<Op>, i: nat, j: nat)
    requires HexHashes(g) && InTimeOrder(ops) && i < |ops| && j < |ops|
    requires forall m | 0 <= m < |ops| :: Genuine(g, ops[m])
    requires AppendedAt(g, ops, i) && AppendedAt(g, ops, j) && ops[i].receipt == ops[j].receipt
    ensures i == j
  {
    if i < j { RecordedOnce(g, ops, i, j); }
    if j < i { RecordedOnce(g, ops, j, i); }
  }

  lemma RecordedOnce(g: Config, ops: seq<Op>, i: nat, j: nat)
    requires HexHashes(g) && InTimeOrder(ops) && i < j < |ops|
    requires forall m | 0 <= m < |ops| :: Genuine(g, ops[m])
    requires AppendedAt(g, ops, i) && AppendedAt(g, ops, j)
    ensures ops[i].receipt != ops[j].receipt
  {
    hide Append, Step, Verified, HexHashes, VerifyReceipt, AlreadyThere, Genuine;
    var r, at := ops[i].receipt, ops[i].now;
    AppendedRead(g, FileAfter(g, ops, i), r, ops[i].request, at);
    AppendedRead(g, FileAfter(g, ops, j), ops[j].receipt, ops[j].request, ops[j].now);
    ReceiptWindow(g.env.crypto, r, ops[i].request, at);
    JustHeld(g, FileAfter(g, ops, i), ops[i]);
    var m := StaysHeld(g, ops, i + 1, j, r, at);
    if ops[j].receipt == r {
      ReceiptWindow(g.env.crypto, r, ops[j].request, ops[j].now);
      ShortLived(g, ops[i]);
      HeldIsThere(g, FileAfter(g, ops, j), r, at);
    }
  }

  lemma ShortLived(g: Config, op: Op)
    requires op.AppendOp? && Genuine(g, op)
    ensures op.receipt.expiresAt - op.receipt.endedAt <= MAX_RECEIPT_TTL_SECONDS
  {
  }

  lemma HeldIsThere(g: Config, lines: seq<Bytes>, r: SignedReceipt, at: int)
    requires Holds(g, lines, r, at)
    ensures AlreadyThere(Verified(g, lines).value, r, g.env.crypto.digest(ReceiptRecord(r)))
  {
    hide Verified;
  }
}
