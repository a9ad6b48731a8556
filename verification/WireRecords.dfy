/** Operation results as closed JSON objects (connector/protocol.py: operation_result_mapping and its
    parsers). */
module WireResults {
  import opened Prelude
  import opened Records
  import opened Json
  import opened Schema

  const MEDIA_KEYS := [
    "comment_count", "coverage", "duration_seconds", "subtitle_language", "subtitle_origin", "version", "view_count"]
  const ITEM_KEYS := ["author", "kind", "media", "native_id", "published_at", "text", "title", "url"]
  const RESULT_KEYS := ["items", "truncated", "version"]
  const VERSION := "v1"

  function MediaSlots(m: ResultMedia): (vs: seq<Value>)
    ensures |vs| == |MEDIA_KEYS|
  {
    [
      OptionalInt(m.commentCount), Str(m.coverage), OptionalInt(m.durationSeconds), OptionalText(m.subtitleLanguage),
      OptionalText(m.subtitleOrigin), Str(VERSION), OptionalInt(m.viewCount)]
  }

  function MediaValue(m: Option<ResultMedia>): Value {
    if m.None? then Null else Object(MEDIA_KEYS, MediaSlots(m.value))
  }

  /** _parse_result_media */
  function MediaOf(v: Value): Option<Option<ResultMedia>> {
    if v.Null? then Some(None)
    else
      var vs := ValuesOf(MEDIA_KEYS, v);
      if vs.None? then None
      else
        var w := vs.value;
        if IntOf(w[0]).Some? && w[1].Str? && IntOf(w[2]).Some? && TextOf(w[3]).Some? && TextOf(w[4]).Some?
           && w[5] == Str(VERSION) && IntOf(w[6]).Some?
        then
          Some(Some(ResultMedia(
            w[1].s, IntOf(w[2]).value, IntOf(w[6]).value, IntOf(w[0]).value, TextOf(w[3]).value, TextOf(w[4]).value)))
        else None
  }

  lemma MediaAgrees(v: Value, m: Option<ResultMedia>)
    ensures MediaOf(v) == Some(m) <==> v == MediaValue(m)
  {
    hide ValuesOf, Object;
    if m.Some? {
      ReadsBuilt(MEDIA_KEYS, MediaSlots(m.value), v);
      assert Object(MEDIA_KEYS, MediaSlots(m.value)).Obj? by { IsObj(MEDIA_KEYS, MediaSlots(m.value)); }
      var vs := ValuesOf(MEDIA_KEYS, v);
      if vs.Some? {
        var w := vs.value;
        assert w == [w[0], w[1], w[2], w[3], w[4], w[5], w[6]];
      }
    }
  }

  lemma IsObj(keys: seq<string>, values: seq<Value>)
    requires |keys| == |values|
    ensures Object(keys, values).Obj?
  {
  }

  function ItemSlots(i: ResultItem): (vs: seq<Value>)
    ensures |vs| == |ITEM_KEYS|
  {
    [
      OptionalText(i.author), Str(i.kind), MediaValue(i.media), OptionalText(i.nativeId), OptionalText(i.publishedAt),
      Str(i.text), OptionalText(i.title), OptionalText(i.url)]
  }

  function ItemValue(i: ResultItem): Value {
    Object(ITEM_KEYS, ItemSlots(i))
  }

  /** _parse_result_item */
  function ItemOf(v: Value): Option<ResultItem> {
    var vs := ValuesOf(ITEM_KEYS, v);
    if vs.None? then None
    else
      var w := vs.value;
      if TextOf(w[0]).Some? && w[1].Str? && MediaOf(w[2]).Some? && TextOf(w[3]).Some? && TextOf(w[4]).Some? && w[5].Str?
         && TextOf(w[6]).Some? && TextOf(w[7]).Some?
      then
        Some(ResultItem(
          w[1].s, w[5].s, TextOf(w[3]).value, TextOf(w[6]).value, TextOf(w[7]).value, TextOf(w[0]).value,
          TextOf(w[4]).value, MediaOf(w[2]).value))
      else None
  }

  lemma TextAgrees(v: Value, t: Option<string>)
    ensures TextOf(v) == Some(t) <==> v == OptionalText(t)
  {
  }

  lemma ItemAgrees(v: Value, i: ResultItem)
    ensures ItemOf(v) == Some(i) <==> v == ItemValue(i)
  {
    hide ValuesOf, Object, MediaOf, MediaValue, TextOf, OptionalText;
    ReadsBuilt(ITEM_KEYS, ItemSlots(i), v);
    var vs := ValuesOf(ITEM_KEYS, v);
    if vs.Some? {
      var w := vs.value;
      MediaAgrees(w[2], i.media);
      TextAgrees(w[0], i.author);
      TextAgrees(w[3], i.nativeId);
      TextAgrees(w[4], i.publishedAt);
      TextAgrees(w[6], i.title);
      TextAgrees(w[7], i.url);
      assert w == [w[0], w[1], w[2], w[3], w[4], w[5], w[6], w[7]];
    }
  }

  function ResultValue(r: OperationResult): Value {
    Object(RESULT_KEYS, [Arr(Values(r.items, ItemValue)), Bool(r.truncated), Str(VERSION)])
  }

  /** _parse_operation_result */
  function ResultOf(v: Value): Option<OperationResult> {
    var vs := ValuesOf(RESULT_KEYS, v);
    if vs.None? then None
    else
      var w := vs.value;
      if !w[0].Arr? || !w[1].Bool? || w[2] != Str(VERSION) then None
      else
        var items := AllOf(w[0].items, ItemOf);
        if items.None? then None else Some(OperationResult(items.value, w[1].b))
  }

  lemma ResultAgrees(v: Value, r: OperationResult)
    ensures ResultOf(v) == Some(r) <==> v == ResultValue(r)
  {
    hide ValuesOf, Object, ItemOf, ItemValue, Values, AllOf;
    var values := [Arr(Values(r.items, ItemValue)), Bool(r.truncated), Str(VERSION)];
    ReadsBuilt(RESULT_KEYS, values, v);
    forall w, x ensures ItemOf(w) == Some(x) <==> w == ItemValue(x) { ItemAgrees(w, x); }
    ListsAgree(Values(r.items, ItemValue), r.items, ItemValue, ItemOf);
    var vs := ValuesOf(RESULT_KEYS, v);
    if vs.Some? {
      var w := vs.value;
      if w[0].Arr? { ListsAgree(w[0].items, r.items, ItemValue, ItemOf); }
      assert w == [w[0], w[1], w[2]];
    }
  }

  function OptionalResult(r: Option<OperationResult>): Value {
    if r.None? then Null else ResultValue(r.value)
  }

  function OptionalResultOf(v: Value): Option<Option<OperationResult>> {
    if v.Null? then Some(None)
    else
      var r := ResultOf(v);
      if r.None? then None else Some(Some(r.value))
  }

  lemma OptionalResultAgrees(v: Value, r: Option<OperationResult>)
    ensures OptionalResultOf(v) == Some(r) <==> v == OptionalResult(r)
  {
    hide ResultOf, ResultValue;
    if r.Some? {
      ResultAgrees(v, r.value);
      ResultIsObj(r.value);
    }
  }

  lemma ResultIsObj(r: OperationResult)
    ensures ResultValue(r).Obj?
  {
  }

  // ------------------------------------------------------------------ results are dicts

  lemma MediaDict(m: Option<ResultMedia>)
    ensures IsDict(MediaValue(m))
  {
    hide Less;
    LessAt("comment_count", "coverage", 2);
    LessAt("coverage", "duration_seconds", 0);
    LessAt("duration_seconds", "subtitle_language", 0);
    LessAt("subtitle_language", "subtitle_origin", 9);
    LessAt("subtitle_origin", "version", 0);
    LessAt("version", "view_count", 1);
    if m.Some? { ObjectIsDict(MEDIA_KEYS, MediaSlots(m.value)); }
  }

  lemma ItemKeysAscend()
    ensures Ascending(ITEM_KEYS)
  {
    hide Less;
    LessAt("author", "kind", 0);
    LessAt("kind", "media", 0);
    LessAt("media", "native_id", 0);
    LessAt("native_id", "published_at", 0);
    LessAt("published_at", "text", 0);
    LessAt("text", "title", 1);
    LessAt("title", "url", 0);
  }

  lemma ItemDict(i: ResultItem)
    ensures IsDict(ItemValue(i))
  {
    hide Ascending, MediaValue;
    ItemKeysAscend();
    MediaDict(i.media);
    ObjectIsDict(ITEM_KEYS, ItemSlots(i));
  }

  lemma ResultDict(r: OperationResult)
    ensures IsDict(ResultValue(r)) && IsDict(OptionalResult(Some(r)))
  {
    hide Less, ItemValue;
    LessAt("items", "truncated", 0);
    LessAt("truncated", "version", 0);
    var values := [Arr(Values(r.items, ItemValue)), Bool(r.truncated), Str(VERSION)];
    forall i | 0 <= i < |r.items| ensures IsDict(ItemValue(r.items[i])) { ItemDict(r.items[i]); }
    ObjectIsDict(RESULT_KEYS, values);
  }
}

/** Whole frames (connector/protocol.py): encode_record and parse_record, nested base64url records
    included, and the proof that they undo each other. */
module Wire {
  import opened Prelude
  import opened Limits
  import opened Errors
  import opened Records
  import opened Json
  import opened Schema
  import opened Text
  import opened WireValues
  import opened WireClaims
  import opened WireResults

  /** an OperationInvocationV1 carries its protected payload as the JSON object it is on the wire */
  datatype WireRecord =
    | Signed(r: SignedRecord)
    | Resolution(resolution: PairingResolution)
    | Invocation(messageId: Id, request: SignedRequest, payload: Value)
    | Response(response: OperationResponse)
    | ErrorFrame(messageId: Id, code: ErrorCode)

  /** What the constructors of the records demand: the catalog, the digests and the syntax of fields. The
      round trip below holds whatever they demand. */
  datatype Constructors = Constructors(signed: SignedRecord -> bool, envelope: WireRecord -> bool)

  // ------------------------------------------------------------------ frames

  const FRAME_KEYS := ["body", "message_id", "protocol", "type"]
  const SIGNED_KEYS := ["claims", "signature"]

  function Frame(kind: string, messageId: Id, body: Value): Value {
    Object(FRAME_KEYS, [body, Str(messageId), Str(PROTOCOL), Str(kind)])
  }

  datatype Opened = Opened(kind: string, messageId: Id, body: Value)

  function FrameOf(v: Value): Option<Opened> {
    var vs := ValuesOf(FRAME_KEYS, v);
    if vs.None? then None
    else
      var w := vs.value;
      if !w[1].Str? || w[2] != Str(PROTOCOL) || !w[3].Str? then None else Some(Opened(w[3].s, w[1].s, w[0]))
  }

  lemma FramesAgree(v: Value, o: Opened)
    ensures FrameOf(v) == Some(o) <==> v == Frame(o.kind, o.messageId, o.body)
  {
    hide ValuesOf, Object;
    ReadsBuilt(FRAME_KEYS, [o.body, Str(o.messageId), Str(PROTOCOL), Str(o.kind)], v);
    var vs := ValuesOf(FRAME_KEYS, v);
    if vs.Some? {
      var w := vs.value;
      assert w == [w[0], w[1], w[2], w[3]];
    }
  }

  lemma FrameDict(kind: string, messageId: Id, body: Value)
    requires IsDict(body)
    ensures IsDict(Frame(kind, messageId, body))
  {
    hide Less;
    LessAt("body", "message_id", 0);
    LessAt("message_id", "protocol", 0);
    LessAt("protocol", "type", 0);
    ObjectIsDict(FRAME_KEYS, [body, Str(messageId), Str(PROTOCOL), Str(kind)]);
  }

  // ------------------------------------------------------------------ signed records

  function KindOf(r: SignedRecord): string {
    match r
    case InitRecord(_) => "pairing-init"
    case ChallengeRecord(_) => "pairing-challenge"
    case CompleteRecord(_) => "pairing-complete"
    case GrantRecord(_) => "signed-grant"
    case RequestRecord(_) => "operation-request"
    case ReceiptRecord(_) => "operation-receipt"
    case FileGrantRecord(_) => "file-grant"
  }

  function MessageIdOf(r: SignedRecord): Id {
    match r
    case InitRecord(x) => x.messageId
    case ChallengeRecord(x) => x.messageId
    case CompleteRecord(x) => x.messageId
    case GrantRecord(x) => x.messageId
    case RequestRecord(x) => x.messageId
    case ReceiptRecord(x) => x.messageId
    case FileGrantRecord(x) => x.messageId
  }

  function SignatureOf(r: SignedRecord): Bytes {
    match r
    case InitRecord(x) => x.signature
    case ChallengeRecord(x) => x.signature
    case CompleteRecord(x) => x.signature
    case GrantRecord(x) => x.signature
    case RequestRecord(x) => x.signature
    case ReceiptRecord(x) => x.signature
    case FileGrantRecord(x) => x.signature
  }

  /** _claims_mapping */
  function ClaimsValue(r: SignedRecord): Value {
    match r
    case InitRecord(x) => Object(INIT_KEYS, InitSlots(x))
    case ChallengeRecord(x) => Object(CHALLENGE_KEYS, ChallengeSlots(x))
    case CompleteRecord(x) => Object(COMPLETE_KEYS, CompleteSlots(x))
    case GrantRecord(x) => Object(GRANT_KEYS, GrantSlots(x))
    case RequestRecord(x) => Object(REQUEST_KEYS, RequestSlots(x))
    case ReceiptRecord(x) => Object(RECEIPT_KEYS, ReceiptSlots(x))
    case FileGrantRecord(x) => Object(FILE_GRANT_KEYS, FileGrantSlots(x))
  }

  function Wrap<A, B>(o: Option<A>, f: A -> B): Option<B> {
    if o.None? then None else Some(f(o.value))
  }

  /** the record of this kind with these claims; the kind selects the parser, as the table of parsers does */
  function ClaimsOf(kind: string, messageId: Id, claims: Value, signature: Bytes): Option<SignedRecord> {
    if kind == "pairing-init" then
      var w := ValuesOf(INIT_KEYS, claims);
      if w.None? then None else Wrap(InitOfSlots(messageId, w.value, signature), (x: PairingInit) => InitRecord(x))
    else if kind == "pairing-challenge" then
      var w := ValuesOf(CHALLENGE_KEYS, claims);
      if w.None? then None
      else Wrap(ChallengeOfSlots(messageId, w.value, signature), (x: PairingChallenge) => ChallengeRecord(x))
    else if kind == "pairing-complete" then
      var w := ValuesOf(COMPLETE_KEYS, claims);
      if w.None? then None
      else Wrap(CompleteOfSlots(messageId, w.value, signature), (x: PairingComplete) => CompleteRecord(x))
    else if kind == "signed-grant" then
      var w := ValuesOf(GRANT_KEYS, claims);
      if w.None? then None else Wrap(GrantOfSlots(messageId, w.value, signature), (x: SignedGrant) => GrantRecord(x))
    else if kind == "operation-request" then
      var w := ValuesOf(REQUEST_KEYS, claims);
      if w.None? then None
      else Wrap(RequestOfSlots(messageId, w.value, signature), (x: SignedRequest) => RequestRecord(x))
    else if kind == "operation-receipt" then
      var w := ValuesOf(RECEIPT_KEYS, claims);
      if w.None? then None
      else Wrap(ReceiptOfSlots(messageId, w.value, signature), (x: SignedReceipt) => ReceiptRecord(x))
    else if kind == "file-grant" then
      var w := ValuesOf(FILE_GRANT_KEYS, claims);
      if w.None? then None
      else Wrap(FileGrantOfSlots(messageId, w.value, signature), (x: FileGrant) => FileGrantRecord(x))
    else None
  }

  /** encode_record of a signed record, before printing */
  function SignedFrame(r: SignedRecord): Value {
    Frame(KindOf(r), MessageIdOf(r), Object(SIGNED_KEYS, [ClaimsValue(r), Str(Base64(SignatureOf(r)))]))
  }

  /** _signed_parts and the record's parser, without its constructor's checks */
  function SignedOf(o: Opened): Option<SignedRecord> {
    var vs := ValuesOf(SIGNED_KEYS, o.body);
    if vs.None? || !vs.value[1].Str? then None
    else
      var signature := DecodeBase64(vs.value[1].s);
      if signature.None? then None else ClaimsOf(o.kind, o.messageId, vs.value[0], signature.value)
  }

  lemma InitClaims(messageId: Id, v: Value, signature: Bytes, x: PairingInit)
    ensures ClaimsOf("pairing-init", messageId, v, signature) == Some(InitRecord(x)) <==>
              x.messageId == messageId && x.signature == signature && v == Object(INIT_KEYS, InitSlots(x))
  {
    hide InitOfSlots, InitSlots, ValuesOf, Object;
    ReadsBuilt(INIT_KEYS, InitSlots(x), v);
    var w := ValuesOf(INIT_KEYS, v);
    if w.Some? { InitSlotsAgree(messageId, w.value, signature, x); }
  }

  lemma ChallengeClaims(messageId: Id, v: Value, signature: Bytes, x: PairingChallenge)
    ensures ClaimsOf("pairing-challenge", messageId, v, signature) == Some(ChallengeRecord(x)) <==>
              x.messageId == messageId && x.signature == signature && v == Object(CHALLENGE_KEYS, ChallengeSlots(x))
  {
    hide ChallengeOfSlots, ChallengeSlots, ValuesOf, Object;
    ReadsBuilt(CHALLENGE_KEYS, ChallengeSlots(x), v);
    var w := ValuesOf(CHALLENGE_KEYS, v);
    if w.Some? { ChallengeSlotsAgree(messageId, w.value, signature, x); }
  }

  lemma CompleteClaims(messageId: Id, v: Value, signature: Bytes, x: PairingComplete)
    ensures ClaimsOf("pairing-complete", messageId, v, signature) == Some(CompleteRecord(x)) <==>
              x.messageId == messageId && x.signature == signature && v == Object(COMPLETE_KEYS, CompleteSlots(x))
  {
    hide CompleteOfSlots, CompleteSlots, ValuesOf, Object;
    ReadsBuilt(COMPLETE_KEYS, CompleteSlots(x), v);
    var w := ValuesOf(COMPLETE_KEYS, v);
    if w.Some? { CompleteSlotsAgree(messageId, w.value, signature, x); }
  }

  lemma GrantClaimsAgree(messageId: Id, v: Value, signature: Bytes, x: SignedGrant)
    ensures ClaimsOf("signed-grant", messageId, v, signature) == Some(GrantRecord(x)) <==>
              x.messageId == messageId && x.signature == signature && v == Object(GRANT_KEYS, GrantSlots(x))
  {
    hide GrantOfSlots, GrantSlots, ValuesOf, Object;
    ReadsBuilt(GRANT_KEYS, GrantSlots(x), v);
    var w := ValuesOf(GRANT_KEYS, v);
    if w.Some? { GrantSlotsAgree(messageId, w.value, signature, x); }
  }

  lemma RequestClaims(messageId: Id, v: Value, signature: Bytes, x: SignedRequest)
    ensures ClaimsOf("operation-request", messageId, v, signature) == Some(RequestRecord(x)) <==>
              x.messageId == messageId && x.signature == signature && v == Object(REQUEST_KEYS, RequestSlots(x))
  {
    hide RequestOfSlots, RequestSlots, ValuesOf, Object;
    ReadsBuilt(REQUEST_KEYS, RequestSlots(x), v);
    var w := ValuesOf(REQUEST_KEYS, v);
    if w.Some? { RequestSlotsAgree(messageId, w.value, signature, x); }
  }

  lemma ReceiptClaims(messageId: Id, v: Value, signature: Bytes, x: SignedReceipt)
    ensures ClaimsOf("operation-receipt", messageId, v, signature) == Some(ReceiptRecord(x)) <==>
              x.messageId == messageId && x.signature == signature && v == Object(RECEIPT_KEYS, ReceiptSlots(x))
  {
    hide ReceiptOfSlots, ReceiptSlots, ValuesOf, Object;
    ReadsBuilt(RECEIPT_KEYS, ReceiptSlots(x), v);
    var w := ValuesOf(RECEIPT_KEYS, v);
    if w.Some? { ReceiptSlotsAgree(messageId, w.value, signature, x); }
  }

  lemma FileGrantClaims(messageId: Id, v: Value, signature: Bytes, x: FileGrant)
    ensures ClaimsOf("file-grant", messageId, v, signature) == Some(FileGrantRecord(x)) <==>
              x.messageId == messageId && x.signature == signature && v == Object(FILE_GRANT_KEYS, FileGrantSlots(x))
  {
    hide FileGrantOfSlots, FileGrantSlots, ValuesOf, Object;
    ReadsBuilt(FILE_GRANT_KEYS, FileGrantSlots(x), v);
    var w := ValuesOf(FILE_GRANT_KEYS, v);
    if w.Some? { FileGrantSlotsAgree(messageId, w.value, signature, x); }
  }

  /** each kind's parser returns that kind of record */
  lemma KindsMatch(kind: string, messageId: Id, v: Value, signature: Bytes)
    ensures ClaimsOf(kind, messageId, v, signature).Some? ==>
              kind == KindOf(ClaimsOf(kind, messageId, v, signature).value)
  {
    hide InitOfSlots, ChallengeOfSlots, CompleteOfSlots, GrantOfSlots, RequestOfSlots, ReceiptOfSlots, FileGrantOfSlots,
         ValuesOf;
  }

  /** Claims read back as a record exactly when they are that record's claims. */
  lemma ClaimsAgree(kind: string, messageId: Id, v: Value, signature: Bytes, r: SignedRecord)
    ensures ClaimsOf(kind, messageId, v, signature) == Some(r) <==>
              kind == KindOf(r) && MessageIdOf(r) == messageId && SignatureOf(r) == signature && v == ClaimsValue(r)
  {
    hide ClaimsOf, Object;
    KindsMatch(kind, messageId, v, signature);
    match r
    case InitRecord(x) => InitClaims(messageId, v, signature, x);
    case ChallengeRecord(x) => ChallengeClaims(messageId, v, signature, x);
    case CompleteRecord(x) => CompleteClaims(messageId, v, signature, x);
    case GrantRecord(x) => GrantClaimsAgree(messageId, v, signature, x);
    case RequestRecord(x) => RequestClaims(messageId, v, signature, x);
    case ReceiptRecord(x) => ReceiptClaims(messageId, v, signature, x);
    case FileGrantRecord(x) => FileGrantClaims(messageId, v, signature, x);
  }

  lemma SignedAgree(o: Opened, r: SignedRecord)
    ensures SignedOf(o) == Some(r) <==> Frame(o.kind, o.messageId, o.body) == SignedFrame(r)
  {
    hide ClaimsOf, ClaimsValue, KindOf, MessageIdOf, SignatureOf, Frame, ValuesOf, Object, Base64, DecodeBase64;
    var body := [ClaimsValue(r), Str(Base64(SignatureOf(r)))];
    FramesInjective(o, Opened(KindOf(r), MessageIdOf(r), Object(SIGNED_KEYS, body)));
    ReadsBuilt(SIGNED_KEYS, body, o.body);
    Base64Exact(Base64(SignatureOf(r)), SignatureOf(r));
    ClaimsAgree(o.kind, o.messageId, ClaimsValue(r), SignatureOf(r), r);
    var vs := ValuesOf(SIGNED_KEYS, o.body);
    if vs.Some? && vs.value[1].Str? {
      var w := vs.value;
      var signature := DecodeBase64(w[1].s);
      if signature.Some? {
        Base64Exact(w[1].s, signature.value);
        ClaimsAgree(o.kind, o.messageId, w[0], signature.value, r);
      }
      assert w == [w[0], w[1]];
    }
  }

  lemma FramesInjective(a: Opened, b: Opened)
    ensures Frame(a.kind, a.messageId, a.body) == Frame(b.kind, b.messageId, b.body) <==> a == b
  {
    hide Frame, FrameOf;
    FramesAgree(Frame(a.kind, a.messageId, a.body), a);
    FramesAgree(Frame(a.kind, a.messageId, a.body), b);
  }

  lemma SignedDict(r: SignedRecord)
    ensures IsDict(SignedFrame(r))
  {
    hide Less, Object, IsDict;
    LessAt("claims", "signature", 0);
    var body := [ClaimsValue(r), Str(Base64(SignatureOf(r)))];
    match r {
      case InitRecord(x) => InitDict(x);
      case ChallengeRecord(x) => ChallengeDict(x);
      case CompleteRecord(x) => CompleteDict(x);
      case GrantRecord(x) => GrantDict(x);
      case RequestRecord(x) => RequestDict(x);
      case ReceiptRecord(x) => ReceiptDict(x);
      case FileGrantRecord(x) => FileGrantDict(x);
    }
    StrDict(Base64(SignatureOf(r)));
    ObjectIsDict(SIGNED_KEYS, body);
    FrameDict(KindOf(r), MessageIdOf(r), Object(SIGNED_KEYS, body));
  }

  lemma StrDict(s: string)
    ensures IsDict(Str(s))
  {
  }

  // ------------------------------------------------------------------ bytes

  /** canonical_json_bytes as bytes */
  function Printed(v: Value): Option<Bytes> {
    var text := Canonical(v);
    if text.None? || !IsAscii(text.value) then None else Some(AsBytes(text.value))
  }

  lemma LoadsPrinted(raw: Bytes, v: Value)
    requires IsDict(v)
    ensures Load(raw, MAX_FRAME_BYTES) == Some(v) <==> Printed(v) == Some(raw)
  {
    hide Load, Valid, Printable, Print, IsDict;
    LoadsExactlyCanonical(raw, MAX_FRAME_BYTES, v);
  }

  function EncodeSigned(r: SignedRecord): Option<Bytes> {
    Printed(SignedFrame(r))
  }

  /** parse_record where only a signed record is wanted */
  function ParseSigned(k: Constructors, raw: Bytes): Option<SignedRecord> {
    var v := Load(raw, MAX_FRAME_BYTES);
    if v.None? || FrameOf(v.value).None? then None
    else
      var r := SignedOf(FrameOf(v.value).value);
      if r.Some? && k.signed(r.value) then r else None
  }

  /** A byte string is a signed record's frame, and parses as it, exactly when it is its encoding. */
  lemma SignedRoundTrip(k: Constructors, raw: Bytes, r: SignedRecord)
    ensures ParseSigned(k, raw) == Some(r) <==> k.signed(r) && EncodeSigned(r) == Some(raw)
  {
    hide Load, FrameOf, SignedOf, SignedFrame, Printed, IsDict;
    SignedDict(r);
    LoadsPrinted(raw, SignedFrame(r));
    var v := Load(raw, MAX_FRAME_BYTES);
    if v.Some? && FrameOf(v.value).Some? {
      var o := FrameOf(v.value).value;
      FramesAgree(v.value, o);
      SignedAgree(o, r);
    }
    SignedFrameOpens(r);
  }

  lemma SignedFrameOpens(r: SignedRecord)
    ensures FrameOf(SignedFrame(r)).Some?
  {
    hide Frame, FrameOf, KindOf, ClaimsValue, Object;
    var body := Object(SIGNED_KEYS, [ClaimsValue(r), Str(Base64(SignatureOf(r)))]);
    FramesAgree(SignedFrame(r), Opened(KindOf(r), MessageIdOf(r), body));
  }

  // ------------------------------------------------------------------ envelopes

  const RESOLUTION_KEYS := ["pairing_complete", "signed_grant"]
  const INVOCATION_KEYS := ["protected_payload", "signed_request"]
  const RESPONSE_KEYS := ["receipt", "result"]
  const ERROR_KEYS := ["code"]

  /** a nested record as text; None where encoding it raises */
  function Nested(r: SignedRecord): Option<Value> {
    Wrap(EncodeSigned(r), (raw: Bytes) => Str(Base64(raw)))
  }

  /** _decode_bounded_base64url and parse_record */
  function NestedOf(k: Constructors, v: Value): Option<SignedRecord> {
    if !v.Str? || DecodeBase64(v.s).None? then None
    else
      var raw := DecodeBase64(v.s).value;
      if 0 < |raw| <= MAX_FRAME_BYTES then ParseSigned(k, raw) else None
  }

  lemma NestedAgree(k: Constructors, v: Value, r: SignedRecord)
    ensures NestedOf(k, v) == Some(r) <==> k.signed(r) && Nested(r) == Some(v)
  {
    hide EncodeSigned, ParseSigned, Base64, DecodeBase64;
    if EncodeSigned(r).Some? {
      var raw := EncodeSigned(r).value;
      Base64Exact(Base64(raw), raw);
      SignedRoundTrip(k, raw, r);
      EncodedFits(r);
    }
    if v.Str? && DecodeBase64(v.s).Some? {
      var raw := DecodeBase64(v.s).value;
      Base64Exact(v.s, raw);
      SignedRoundTrip(k, raw, r);
    }
  }

  lemma EncodedFits(r: SignedRecord)
    ensures EncodeSigned(r).Some? ==> 0 < |EncodeSigned(r).value| <= MAX_FRAME_BYTES
  {
    hide SignedFrame, Print, Valid, Printable;
  }

  /** encode_record of an envelope, before printing; None where it raises on the way */
  function EnvelopeFrame(w: WireRecord): Option<Value>
    requires !w.Signed?
  {
    match w
    case Resolution(x) =>
      var complete, grant := Nested(CompleteRecord(x.pairingComplete)), Nested(GrantRecord(x.signedGrant));
      if complete.None? || grant.None? then None
      else Some(Frame("pairing-resolution", x.messageId, Object(RESOLUTION_KEYS, [complete.value, grant.value])))
    case Invocation(messageId, request, payload) =>
      var nested := Nested(RequestRecord(request));
      if nested.None? then None
      else Some(Frame("operation-invocation", messageId, Object(INVOCATION_KEYS, [payload, nested.value])))
    case Response(x) =>
      var receipt := Nested(ReceiptRecord(x.receipt));
      if receipt.None? then None
      else
        Some(Frame("operation-response", x.messageId, Object(RESPONSE_KEYS, [receipt.value, OptionalResult(x.result)])))
    case ErrorFrame(messageId, code) => Some(Frame("error", messageId, Object(ERROR_KEYS, [Str(CodeText(code))])))
  }

  /** the parser of each envelope, without its constructor's checks */
  function EnvelopeOf(k: Constructors, o: Opened): Option<WireRecord> {
    if o.kind == "pairing-resolution" then
      var w := ValuesOf(RESOLUTION_KEYS, o.body);
      if w.None? then None
      else
        var complete, grant := NestedOf(k, w.value[0]), NestedOf(k, w.value[1]);
        if complete.None? || grant.None? || !complete.value.CompleteRecord? || !grant.value.GrantRecord? then None
        else
          var c := complete.value.complete;
          Some(Resolution(PairingResolution(o.messageId, c.pairingId, grant.value.grant, c)))
    else if o.kind == "operation-invocation" then
      var w := ValuesOf(INVOCATION_KEYS, o.body);
      if w.None? then None
      else
        var request := NestedOf(k, w.value[1]);
        if request.None? || !request.value.RequestRecord? then None
        else Some(Invocation(o.messageId, request.value.request, w.value[0]))
    else if o.kind == "operation-response" then
      var w := ValuesOf(RESPONSE_KEYS, o.body);
      if w.None? then None
      else
        var receipt, result := NestedOf(k, w.value[0]), OptionalResultOf(w.value[1]);
        if receipt.None? || !receipt.value.ReceiptRecord? || result.None? then None
        else Some(Response(OperationResponse(o.messageId, receipt.value.receipt, result.value)))
    else if o.kind == "error" then
      var w := ValuesOf(ERROR_KEYS, o.body);
      if w.None? || !w.value[0].Str? then None
      else Wrap(CodeOf(w.value[0].s), (c: ErrorCode) => ErrorFrame(o.messageId, c))
    else None
  }

  /** The records nested in an envelope were accepted by their own constructors; a resolution's pairing
      identifier is its completion's; a protected payload is a dict. */
  ghost predicate WellNested(k: Constructors, w: WireRecord) {
    match w
    case Signed(r) => k.signed(r)
    case Resolution(x) =>
      && k.signed(CompleteRecord(x.pairingComplete)) && k.signed(GrantRecord(x.signedGrant))
      && x.pairingId == x.pairingComplete.pairingId
    case Invocation(_, request, payload) => k.signed(RequestRecord(request)) && IsDict(payload)
    case Response(x) => k.signed(ReceiptRecord(x.receipt))
    case ErrorFrame(_, _) => true
  }

  lemma ResolutionAgrees(k: Constructors, o: Opened, x: PairingResolution)
    requires o.kind == "pairing-resolution" && IsDict(o.body)
    ensures EnvelopeOf(k, o) == Some(Resolution(x)) <==>
              WellNested(k, Resolution(x)) && EnvelopeFrame(Resolution(x)) == Some(Frame(o.kind, o.messageId, o.body))
  {
    hide Nested, NestedOf, ValuesOf, Object, Frame, IsDict;
    var complete, grant := CompleteRecord(x.pairingComplete), GrantRecord(x.signedGrant);
    if Nested(complete).Some? && Nested(grant).Some? {
      var body := [Nested(complete).value, Nested(grant).value];
      FramesInjective(o, Opened("pairing-resolution", x.messageId, Object(RESOLUTION_KEYS, body)));
      ReadsBuilt(RESOLUTION_KEYS, body, o.body);
    }
    var w := ValuesOf(RESOLUTION_KEYS, o.body);
    if w.Some? {
      NestedAgree(k, w.value[0], complete);
      NestedAgree(k, w.value[1], grant);
      assert w.value == [w.value[0], w.value[1]];
    }
  }

  lemma InvocationAgrees(k: Constructors, o: Opened, messageId: Id, request: SignedRequest, payload: Value)
    requires o.kind == "operation-invocation" && IsDict(o.body)
    ensures EnvelopeOf(k, o) == Some(Invocation(messageId, request, payload)) <==>
              && WellNested(k, Invocation(messageId, request, payload))
              && EnvelopeFrame(Invocation(messageId, request, payload)) == Some(Frame(o.kind, o.messageId, o.body))
  {
    hide Nested, NestedOf, ValuesOf, Object, Frame, IsDict;
    var nested := Nested(RequestRecord(request));
    if nested.Some? {
      var body := [payload, nested.value];
      FramesInjective(o, Opened("operation-invocation", messageId, Object(INVOCATION_KEYS, body)));
      ReadsBuilt(INVOCATION_KEYS, body, o.body);
    }
    var w := ValuesOf(INVOCATION_KEYS, o.body);
    if w.Some? {
      NestedAgree(k, w.value[1], RequestRecord(request));
      assert w.value == [w.value[0], w.value[1]];
      SlotIsDict(INVOCATION_KEYS, o.body, 0);
    }
  }

  lemma SlotIsDict(keys: seq<string>, v: Value, i: nat)
    requires IsDict(v) && ValuesOf(keys, v).Some? && i < |keys|
    ensures IsDict(ValuesOf(keys, v).value[i])
  {
  }

  lemma ResponseAgrees(k: Constructors, o: Opened, x: OperationResponse)
    requires o.kind == "operation-response" && IsDict(o.body)
    ensures EnvelopeOf(k, o) == Some(Response(x)) <==>
              WellNested(k, Response(x)) && EnvelopeFrame(Response(x)) == Some(Frame(o.kind, o.messageId, o.body))
  {
    hide Nested, NestedOf, ValuesOf, Object, Frame, IsDict, OptionalResult, OptionalResultOf;
    var nested := Nested(ReceiptRecord(x.receipt));
    if nested.Some? {
      var body := [nested.value, OptionalResult(x.result)];
      FramesInjective(o, Opened("operation-response", x.messageId, Object(RESPONSE_KEYS, body)));
      ReadsBuilt(RESPONSE_KEYS, body, o.body);
    }
    var w := ValuesOf(RESPONSE_KEYS, o.body);
    if w.Some? {
      NestedAgree(k, w.value[0], ReceiptRecord(x.receipt));
      OptionalResultAgrees(w.value[1], x.result);
      assert w.value == [w.value[0], w.value[1]];
    }
  }

  lemma ErrorAgrees(k: Constructors, o: Opened, messageId: Id, code: ErrorCode)
    requires o.kind == "error"
    ensures EnvelopeOf(k, o) == Some(ErrorFrame(messageId, code)) <==>
              EnvelopeFrame(ErrorFrame(messageId, code)) == Some(Frame(o.kind, o.messageId, o.body))
  {
    hide ValuesOf, Object, Frame, CodeOf, CodeText;
    var body := [Str(CodeText(code))];
    FramesInjective(o, Opened("error", messageId, Object(ERROR_KEYS, body)));
    ReadsBuilt(ERROR_KEYS, body, o.body);
    CodesRoundTrip(CodeText(code), code);
    var w := ValuesOf(ERROR_KEYS, o.body);
    if w.Some? && w.value[0].Str? {
      CodesRoundTrip(w.value[0].s, code);
      assert w.value == [w.value[0]];
    }
  }

  function EnvelopeKind(w: WireRecord): string
    requires !w.Signed?
  {
    match w
    case Resolution(_) => "pairing-resolution"
    case Invocation(_, _, _) => "operation-invocation"
    case Response(_) => "operation-response"
    case ErrorFrame(_, _) => "error"
  }

  lemma EnvelopeKinds(k: Constructors, o: Opened, w: WireRecord)
    requires !w.Signed?
    ensures EnvelopeOf(k, o) == Some(w) ==> o.kind == EnvelopeKind(w)
    ensures EnvelopeFrame(w) == Some(Frame(o.kind, o.messageId, o.body)) ==> o.kind == EnvelopeKind(w)
  {
    hide Nested, NestedOf, ValuesOf, Object, Frame, OptionalResult, OptionalResultOf, CodeOf, CodeText;
    var f := EnvelopeFrame(w);
    if f.Some? && f == Some(Frame(o.kind, o.messageId, o.body)) {
      FrameOpens(f.value, o);
      EnvelopeOpens(w);
    }
  }

  lemma FrameOpens(v: Value, o: Opened)
    requires v == Frame(o.kind, o.messageId, o.body)
    ensures FrameOf(v) == Some(o)
  {
    hide Frame, FrameOf;
    FramesAgree(v, o);
  }

  lemma EnvelopeOpens(w: WireRecord)
    requires !w.Signed? && EnvelopeFrame(w).Some?
    ensures FrameOf(EnvelopeFrame(w).value).Some? && FrameOf(EnvelopeFrame(w).value).value.kind == EnvelopeKind(w)
  {
    hide Nested, Object, Frame, FrameOf, OptionalResult, CodeText;
    match w
    case Resolution(x) =>
      var body := [Nested(CompleteRecord(x.pairingComplete)).value, Nested(GrantRecord(x.signedGrant)).value];
      FrameOpens(EnvelopeFrame(w).value, Opened("pairing-resolution", x.messageId, Object(RESOLUTION_KEYS, body)));
    case Invocation(messageId, request, payload) =>
      var body := [payload, Nested(RequestRecord(request)).value];
      FrameOpens(EnvelopeFrame(w).value, Opened("operation-invocation", messageId, Object(INVOCATION_KEYS, body)));
    case Response(x) =>
      var body := [Nested(ReceiptRecord(x.receipt)).value, OptionalResult(x.result)];
      FrameOpens(EnvelopeFrame(w).value, Opened("operation-response", x.messageId, Object(RESPONSE_KEYS, body)));
    case ErrorFrame(messageId, code) =>
      FrameOpens(EnvelopeFrame(w).value, Opened("error", messageId, Object(ERROR_KEYS, [Str(CodeText(code))])));
  }

  /** An envelope is read back exactly from its own frame. */
  lemma EnvelopesAgree(k: Constructors, o: Opened, w: WireRecord)
    requires !w.Signed? && IsDict(o.body)
    ensures EnvelopeOf(k, o) == Some(w) <==>
              WellNested(k, w) && EnvelopeFrame(w) == Some(Frame(o.kind, o.messageId, o.body))
  {
    hide EnvelopeOf, EnvelopeFrame, Frame, IsDict;
    EnvelopeKinds(k, o, w);
    if o.kind == EnvelopeKind(w) {
      match w
      case Resolution(x) => ResolutionAgrees(k, o, x);
      case Invocation(messageId, request, payload) => InvocationAgrees(k, o, messageId, request, payload);
      case Response(x) => ResponseAgrees(k, o, x);
      case ErrorFrame(messageId, code) => ErrorAgrees(k, o, messageId, code);
    }
  }

  // ------------------------------------------------------------------ every record

  /** encode_record; None where it raises */
  function EncodeRecord(w: WireRecord): Option<Bytes> {
    if w.Signed? then EncodeSigned(w.r)
    else
      var frame := EnvelopeFrame(w);
      if frame.None? then None else Printed(frame.value)
  }

  /** parse_record; None where it raises */
  function ParseRecord(k: Constructors, raw: Bytes): Option<WireRecord> {
    var v := Load(raw, MAX_FRAME_BYTES);
    if v.None? || FrameOf(v.value).None? then None
    else
      var o := FrameOf(v.value).value;
      var r := SignedOf(o);
      if r.Some? then (if k.signed(r.value) then Some(Signed(r.value)) else None)
      else
        var e := EnvelopeOf(k, o);
        if e.Some? && k.envelope(e.value) then e else None
  }

  /** the constructors accept the record and everything nested in it */
  ghost predicate Constructed(k: Constructors, w: WireRecord) {
    WellNested(k, w) && (w.Signed? || k.envelope(w))
  }

  lemma BodyIsDict(v: Value)
    requires IsDict(v) && FrameOf(v).Some?
    ensures IsDict(FrameOf(v).value.body)
  {
    SlotIsDict(FRAME_KEYS, v, 0);
  }

  lemma PairDict(keys: seq<string>, a: Value, b: Value)
    requires |keys| == 2 && Less(keys[0], keys[1]) && IsDict(a) && IsDict(b)
    ensures IsDict(Object(keys, [a, b]))
  {
    ObjectIsDict(keys, [a, b]);
  }

  lemma OptionalResultDict(r: Option<OperationResult>)
    ensures IsDict(OptionalResult(r))
  {
    hide ResultValue;
    if r.Some? { ResultDict(r.value); }
  }

  lemma NestedDict(r: SignedRecord)
    ensures Nested(r).Some? ==> IsDict(Nested(r).value)
  {
    hide EncodeSigned, Base64;
  }

  lemma EnvelopeDict(k: Constructors, w: WireRecord)
    requires !w.Signed? && WellNested(k, w)
    ensures EnvelopeFrame(w).Some? ==> IsDict(EnvelopeFrame(w).value)
  {
    hide Less, Nested, Frame, Object, IsDict, OptionalResult, CodeText;
    if EnvelopeFrame(w).Some? {
      match w
      case Resolution(x) =>
        LessAt("pairing_complete", "signed_grant", 0);
        NestedDict(CompleteRecord(x.pairingComplete));
        NestedDict(GrantRecord(x.signedGrant));
        var a, b := Nested(CompleteRecord(x.pairingComplete)).value, Nested(GrantRecord(x.signedGrant)).value;
        PairDict(RESOLUTION_KEYS, a, b);
        FrameDict("pairing-resolution", x.messageId, Object(RESOLUTION_KEYS, [a, b]));
      case Invocation(messageId, request, payload) =>
        LessAt("protected_payload", "signed_request", 0);
        NestedDict(RequestRecord(request));
        var b := Nested(RequestRecord(request)).value;
        PairDict(INVOCATION_KEYS, payload, b);
        FrameDict("operation-invocation", messageId, Object(INVOCATION_KEYS, [payload, b]));
      case Response(x) =>
        LessAt("receipt", "result", 2);
        NestedDict(ReceiptRecord(x.receipt));
        OptionalResultDict(x.result);
        var a, b := Nested(ReceiptRecord(x.receipt)).value, OptionalResult(x.result);
        PairDict(RESPONSE_KEYS, a, b);
        FrameDict("operation-response", x.messageId, Object(RESPONSE_KEYS, [a, b]));
      case ErrorFrame(messageId, code) =>
        StrDict(CodeText(code));
        ObjectIsDict(ERROR_KEYS, [Str(CodeText(code))]);
        FrameDict("error", messageId, Object(ERROR_KEYS, [Str(CodeText(code))]));
    }
  }

  /** no frame reads both as a signed record and as an envelope */
  lemma KindsDisjoint(k: Constructors, o: Opened)
    ensures SignedOf(o).None? || EnvelopeOf(k, o).None?
  {
    hide NestedOf, ValuesOf, DecodeBase64, OptionalResultOf, CodeOf, InitOfSlots, ChallengeOfSlots, CompleteOfSlots,
         GrantOfSlots, RequestOfSlots, ReceiptOfSlots, FileGrantOfSlots;
  }

  lemma EnvelopeRoundTrip(k: Constructors, raw: Bytes, w: WireRecord)
    requires !w.Signed?
    ensures ParseRecord(k, raw) == Some(w) <==> Constructed(k, w) && EncodeRecord(w) == Some(raw)
  {
    hide Load, FrameOf, SignedOf, EnvelopeOf, EnvelopeFrame, Printed, IsDict, WellNested, Frame;
    var v := Load(raw, MAX_FRAME_BYTES);
    if v.Some? && FrameOf(v.value).Some? {
      var o := FrameOf(v.value).value;
      LoadedIsSane(raw, MAX_FRAME_BYTES);
      BodyIsDict(v.value);
      FramesAgree(v.value, o);
      EnvelopesAgree(k, o, w);
      KindsDisjoint(k, o);
      LoadsPrinted(raw, v.value);
    }
    if WellNested(k, w) && EnvelopeFrame(w).Some? {
      EnvelopeDict(k, w);
      LoadsPrinted(raw, EnvelopeFrame(w).value);
      EnvelopeOpens(w);
    }
  }

  lemma SignedParses(k: Constructors, raw: Bytes, r: SignedRecord)
    ensures ParseRecord(k, raw) == Some(Signed(r)) <==> ParseSigned(k, raw) == Some(r)
  {
    hide Load, FrameOf, SignedOf, EnvelopeOf;
    var v := Load(raw, MAX_FRAME_BYTES);
    if v.Some? && FrameOf(v.value).Some? { EnvelopesAreNotSigned(k, FrameOf(v.value).value); }
  }

  lemma EnvelopesAreNotSigned(k: Constructors, o: Opened)
    ensures EnvelopeOf(k, o).Some? ==> !EnvelopeOf(k, o).value.Signed?
  {
    hide NestedOf, ValuesOf, OptionalResultOf, CodeOf;
  }

  /** encode_record and parse_record are mutually inverse on all eleven record types: a byte string parses
      as a record exactly when the constructors accept that record and the bytes are its encoding. */
  lemma RecordRoundTrip(k: Constructors, raw: Bytes, w: WireRecord)
    ensures ParseRecord(k, raw) == Some(w) <==> Constructed(k, w) && EncodeRecord(w) == Some(raw)
  {
    hide ParseRecord, EncodeSigned, ParseSigned, EnvelopeFrame, Printed;
    if w.Signed? {
      SignedParses(k, raw, w.r);
      SignedRoundTrip(k, raw, w.r);
    } else {
      EnvelopeRoundTrip(k, raw, w);
    }
  }

  /** Two different records never share an encoding. */
  lemma EncodingsDiffer(k: Constructors, a: WireRecord, b: WireRecord)
    requires Constructed(k, a) && Constructed(k, b) && EncodeRecord(a).Some? && EncodeRecord(a) == EncodeRecord(b)
    ensures a == b
  {
    hide ParseRecord, EncodeRecord, Constructed;
    RecordRoundTrip(k, EncodeRecord(a).value, a);
    RecordRoundTrip(k, EncodeRecord(a).value, b);
  }
}
