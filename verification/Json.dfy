/** Canonical JSON (connector/protocol.py: canonical_json_bytes, load_canonical_json), with the printer
    and the parser of the JSON grammar (RFC 8259 sections 2 to 8) written out.

    A dict is its key-sorted association list; Dafny characters are Unicode scalar values, so a string
    with a lone surrogate, which the source's validation refuses, has no counterpart here and the parser
    refuses the escape that would make one.
 */
module Json {
  import opened Prelude
  import opened Limits

  datatype Value =
    | Null
    | Bool(b: bool)
    | Int(n: int)
    | Str(s: string)
    | Arr(items: seq<Value>)
    | Obj(fields: seq<Field>)
  datatype Field = Field(key: string, value: Value)

  /** Python refuses to print or to parse an int of more decimal digits than this. */
  const MAX_INT_DIGITS := 4300

  // ------------------------------------------------------------------ order of keys

  /** string comparison by code points */
  predicate Less(a: string, b: string) {
    |b| > 0 && (|a| == 0 || a[0] < b[0] || (a[0] == b[0] && Less(a[1..], b[1..])))
  }

  lemma {:induction false} LessTrichotomy(a: string, b: string)
    ensures Less(a, b) || Less(b, a) || a == b
    ensures !(Less(a, b) && Less(b, a)) && (a == b ==> !Less(a, b))
  {
    if |a| > 0 && |b| > 0 && a[0] == b[0] {
      LessTrichotomy(a[1..], b[1..]);
      assert a == [a[0]] + a[1..] && b == [b[0]] + b[1..];
    }
  }

  lemma {:induction false} LessTransitive(a: string, b: string, c: string)
    requires Less(a, b) && Less(b, c)
    ensures Less(a, c)
  {
    if |a| > 0 && a[0] == b[0] && b[0] == c[0] { LessTransitive(a[1..], b[1..], c[1..]); }
  }

  ghost predicate Sorted(fields: seq<Field>) {
    forall i, j | 0 <= i < j < |fields| :: Less(fields[i].key, fields[j].key)
  }

  /** every object in the value is a dict: its keys are distinct, and here sorted */
  ghost predicate IsDict(v: Value) {
    match v
    case Arr(items) => forall i | 0 <= i < |items| :: IsDict(items[i])
    case Obj(fields) => Sorted(fields) && forall i | 0 <= i < |fields| :: IsDict(fields[i].value)
    case _ => true
  }

  // ------------------------------------------------------------------ validation

  predicate CleanText(s: string) {
    forall i | 0 <= i < |s| :: s[i] >= ' '
  }

  /** _validate_json_value */
  predicate Valid(v: Value, depth: nat)
    decreases v
  {
    && depth <= MAX_JSON_DEPTH
    && match v
       case Str(s) => CleanText(s)
       case Arr(items) =>
         |items| <= MAX_JSON_CONTAINER_ITEMS && forall i | 0 <= i < |items| :: Valid(items[i], depth + 1)
       case Obj(fields) =>
         && |fields| <= MAX_JSON_CONTAINER_ITEMS
         && forall i | 0 <= i < |fields| ::
              depth + 1 <= MAX_JSON_DEPTH && CleanText(fields[i].key) && Valid(fields[i].value, depth + 1)
       case _ => true
  }

  /** str(int) is within Python's digit limit */
  predicate Printable(v: Value) {
    match v
    case Int(n) => |Decimal(if n < 0 then -n else n)| <= MAX_INT_DIGITS
    case Arr(items) => forall i | 0 <= i < |items| :: Printable(items[i])
    case Obj(fields) => forall i | 0 <= i < |fields| :: Printable(fields[i].value)
    case _ => true
  }

  // ------------------------------------------------------------------ printing

  function HexDigit(d: int): char
    requires 0 <= d < 16
  {
    if d < 10 then ('0' as int + d) as char else ('a' as int + d - 10) as char
  }

  function Hex4(n: int): (r: string)
    requires 0 <= n < 0x10000
    ensures |r| == 4
  {
    [HexDigit(n / 0x1000), HexDigit(n / 0x100 % 16), HexDigit(n / 0x10 % 16), HexDigit(n % 16)]
  }

  /** one character of a printed string, as json.dumps(ensure_ascii=True) writes it */
  function Escape(c: char): string {
    if c == '"' then "\\\""
    else if c == '\\' then "\\\\"
    else if ' ' <= c <= '~' then [c]
    else if c == '\n' then "\\n"
    else if c == '\r' then "\\r"
    else if c == '\t' then "\\t"
    else if c as int == 0x0C then "\\f"
    else if c as int == 0x08 then "\\b"
    else if c as int < 0x10000 then "\\u" + Hex4(c as int)
    else
      var n := c as int - 0x10000;
      "\\u" + Hex4(0xD800 + n / 0x400) + ("\\u" + Hex4(0xDC00 + n % 0x400))
  }

  function Escapes(s: string): string {
    if s == "" then "" else Escape(s[0]) + Escapes(s[1..])
  }

  function Quoted(s: string): string {
    "\"" + Escapes(s) + "\""
  }

  /** json.dumps with separators (",", ":") and sort_keys */
  function Print(v: Value): string
    decreases v, 1, 0
  {
    match v
    case Null => "null"
    case Bool(b) => if b then "true" else "false"
    case Int(n) => IntText(n)
    case Str(s) => Quoted(s)
    case Arr(items) => "[" + PrintItems(v, 0) + "]"
    case Obj(fields) => "{" + PrintFields(v, 0) + "}"
  }

  /** the items of an array from the k-th on */
  function PrintItems(v: Value, k: nat): string
    requires v.Arr? && k <= |v.items|
    decreases v, 0, |v.items| - k
  {
    if k == |v.items| then ""
    else Print(v.items[k]) + if k + 1 == |v.items| then "" else "," + PrintItems(v, k + 1)
  }

  function PrintFields(v: Value, k: nat): string
    requires v.Obj? && k <= |v.fields|
    decreases v, 0, |v.fields| - k
  {
    if k == |v.fields| then ""
    else
      Quoted(v.fields[k].key) + ":" + Print(v.fields[k].value)
      + if k + 1 == |v.fields| then "" else "," + PrintFields(v, k + 1)
  }

  predicate IsAscii(s: string) {
    forall i | 0 <= i < |s| :: s[i] < 128 as char
  }

  function AsBytes(s: string): (raw: Bytes)
    requires IsAscii(s)
    ensures |raw| == |s| && forall i | 0 <= i < |s| :: raw[i] == s[i] as int
  {
    if s == "" then []
    else
      assert s[0] < 128 as char;
      [s[0] as int] + AsBytes(s[1..])
  }

  // ------------------------------------------------------------------ parsing

  predicate IsSpace(c: char) {
    c == ' ' || c == '\t' || c == '\n' || c == '\r'
  }

  function SkipSpace(s: string): (r: string)
    ensures |r| <= |s|
  {
    if s != "" && IsSpace(s[0]) then SkipSpace(s[1..]) else s
  }

  predicate IsDigit(c: char) {
    '0' <= c <= '9'
  }

  /** how many leading characters are digits */
  function Span(s: string): (n: nat)
    ensures n <= |s|
    ensures forall i | 0 <= i < n :: IsDigit(s[i])
  {
    if s == "" || !IsDigit(s[0]) then 0 else 1 + Span(s[1..])
  }

  function DigitValue(c: char): (d: nat)
    requires IsDigit(c)
  {
    var code: int := c as int;
    code - 48
  }

  function FromDecimal(s: string): nat
    requires forall i | 0 <= i < |s| :: IsDigit(s[i])
  {
    if |s| == 0 then 0
    else
      FromDecimal(s[..|s| - 1]) * 10 + DigitValue(s[|s| - 1])
  }

  /** a fraction or an exponent follows, which makes the number a float */
  predicate IsFloatTail(s: string) {
    || (|s| >= 2 && s[0] == '.' && IsDigit(s[1]))
    || (|s| >= 2 && (s[0] == 'e' || s[0] == 'E') && IsDigit(s[1]))
    || (|s| >= 3 && (s[0] == 'e' || s[0] == 'E') && (s[1] == '+' || s[1] == '-') && IsDigit(s[2]))
  }

  /** the int at the start of s, and the rest; None for no number, a float, or too many digits */
  function ParseNumber(s: string): (r: Option<(int, string)>)
    ensures r.Some? ==> |r.value.1| < |s|
  {
    var negative := s != "" && s[0] == '-';
    var body := if negative then s[1..] else s;
    var k := if body != "" && body[0] == '0' then 1 else Span(body);
    if k == 0 || k > MAX_INT_DIGITS || IsFloatTail(body[k..]) then None
    else
      var n: int := FromDecimal(body[..k]);
      Some((if negative then -n else n, body[k..]))
  }

  function HexValue(c: char): (d: Option<int>)
    ensures d.Some? ==> 0 <= d.value < 16
  {
    if '0' <= c <= '9' then Some(c as int - '0' as int)
    else if 'a' <= c <= 'f' then Some(c as int - 'a' as int + 10)
    else if 'A' <= c <= 'F' then Some(c as int - 'A' as int + 10)
    else None
  }

  function ParseHex4(s: string): (r: Option<int>)
    ensures r.Some? ==> 0 <= r.value < 0x10000 && |s| >= 4
  {
    if |s| < 4 then None
    else
      var a, b, c, d := HexValue(s[0]), HexValue(s[1]), HexValue(s[2]), HexValue(s[3]);
      if a.None? || b.None? || c.None? || d.None? then None
      else Some(((a.value * 16 + b.value) * 16 + c.value) * 16 + d.value)
  }

  /** the escape after a backslash: its character and what follows it */
  function ParseEscape(s: string): (r: Option<(char, string)>)
    ensures r.Some? ==> |r.value.1| < |s|
  {
    if s == "" then None
    else
      match s[0]
      case '"' => Some(('"', s[1..]))
      case '\\' => Some(('\\', s[1..]))
      case '/' => Some(('/', s[1..]))
      case 'b' => Some((0x08 as char, s[1..]))
      case 'f' => Some((0x0C as char, s[1..]))
      case 'n' => Some(('\n', s[1..]))
      case 'r' => Some(('\r', s[1..]))
      case 't' => Some(('\t', s[1..]))
      case 'u' =>
        var unit := ParseHex4(s[1..]);
        if unit.None? then None
        else if !(0xD800 <= unit.value < 0xE000) then Some((unit.value as char, s[5..]))
        else if unit.value < 0xDC00 && |s| >= 11 && s[5] == '\\' && s[6] == 'u' then
          var low := ParseHex4(s[7..]);
          if low.Some? && 0xDC00 <= low.value < 0xE000
          then Some(((0x10000 + (unit.value - 0xD800) * 0x400 + (low.value - 0xDC00)) as char, s[11..]))
          else None
        else None
      case _ => None
  }

  /** a string after its opening quote */
  function ParseChars(s: string): (r: Option<(string, string)>)
    ensures r.Some? ==> |r.value.1| < |s|
    decreases |s|
  {
    if s == "" then None
    else if s[0] == '"' then Some(("", s[1..]))
    else if s[0] < ' ' then None
    else
      var step := if s[0] == '\\' then ParseEscape(s[1..]) else Some((s[0], s[1..]));
      if step.None? then None
      else
        var tail := ParseChars(step.value.1);
        if tail.None? then None else Some(([step.value.0] + tail.value.0, tail.value.1))
  }

  /** one step of _object_pairs into a sorted dict: None for a duplicate key */
  function Insert(fields: seq<Field>, f: Field): Option<seq<Field>> {
    if fields == [] then Some([f])
    else if Less(f.key, fields[0].key) then Some([f] + fields)
    else if f.key == fields[0].key then None
    else
      var tail := Insert(fields[1..], f);
      if tail.None? then None else Some([fields[0]] + tail.value)
  }

  /** the value at the start of s, which has no leading space, and the rest */
  function ParseValue(s: string): (r: Option<(Value, string)>)
    ensures r.Some? ==> |r.value.1| < |s|
    decreases |s|, 0
  {
    if s == "" then None
    else if s[0] == '"' then
      var text := ParseChars(s[1..]);
      if text.None? then None else Some((Str(text.value.0), text.value.1))
    else if s[0] == '[' then
      var rest := SkipSpace(s[1..]);
      if rest != "" && rest[0] == ']' then Some((Arr([]), rest[1..])) else ParseItems(rest, [])
    else if s[0] == '{' then
      var rest := SkipSpace(s[1..]);
      if rest != "" && rest[0] == '}' then Some((Obj([]), rest[1..])) else ParseFields(rest, [])
    else if "null" <= s then Some((Null, s[4..]))
    else if "true" <= s then Some((Bool(true), s[4..]))
    else if "false" <= s then Some((Bool(false), s[5..]))
    else
      var number := ParseNumber(s);
      if number.None? then None else Some((Int(number.value.0), number.value.1))
  }

  /** the rest of an array that already has these items */
  function ParseItems(s: string, items: seq<Value>): (r: Option<(Value, string)>)
    ensures r.Some? ==> |r.value.1| < |s|
    decreases |s|, 1
  {
    var item := ParseValue(s);
    if item.None? then None
    else
      var all := items + [item.value.0];
      var rest := SkipSpace(item.value.1);
      if rest == "" then None
      else if rest[0] == ']' then Some((Arr(all), rest[1..]))
      else if rest[0] == ',' then ParseItems(SkipSpace(rest[1..]), all)
      else None
  }

  /** the rest of an object that already has these fields */
  function ParseFields(s: string, fields: seq<Field>): (r: Option<(Value, string)>)
    ensures r.Some? ==> |r.value.1| < |s|
    decreases |s|, 1
  {
    if s == "" || s[0] != '"' then None
    else
      var key := ParseChars(s[1..]);
      if key.None? then None
      else
        var colon := SkipSpace(key.value.1);
        if colon == "" || colon[0] != ':' then None
        else
          var value := ParseValue(SkipSpace(colon[1..]));
          if value.None? then None
          else
            var all := Insert(fields, Field(key.value.0, value.value.0));
            var rest := SkipSpace(value.value.1);
            if all.None? || rest == "" then None
            else if rest[0] == '}' then Some((Obj(all.value), rest[1..]))
            else if rest[0] == ',' then ParseFields(SkipSpace(rest[1..]), all.value)
            else None
  }

  /** json.loads */
  function Parse(text: string): Option<Value> {
    var r := ParseValue(SkipSpace(text));
    if r.Some? && SkipSpace(r.value.1) == "" then Some(r.value.0) else None
  }

  predicate IsContinuation(b: Byte) {
    0x80 <= b < 0xC0
  }

  function Low6(b: Byte): int {
    b as int - 0x80
  }

  /** bytes.decode("utf-8", errors="strict") */
  function DecodeUtf8(raw: Bytes): Option<string> {
    if raw == [] then Some("")
    else
      var b: int := raw[0];
      var (k, n) :=
        if b < 0x80 then (1, b)
        else if 0xC2 <= b < 0xE0 && |raw| >= 2 && IsContinuation(raw[1]) then (2, (b - 0xC0) * 0x40 + Low6(raw[1]))
        else if 0xE0 <= b < 0xF0 && |raw| >= 3 && IsContinuation(raw[1]) && IsContinuation(raw[2])
        then (3, ((b - 0xE0) * 0x40 + Low6(raw[1])) * 0x40 + Low6(raw[2]))
        else if 0xF0 <= b < 0xF5 && |raw| >= 4 && IsContinuation(raw[1]) && IsContinuation(raw[2])
                && IsContinuation(raw[3])
        then (4, (((b - 0xF0) * 0x40 + Low6(raw[1])) * 0x40 + Low6(raw[2])) * 0x40 + Low6(raw[3]))
        else (0, 0);
      if k == 0 || (k == 3 && (n < 0x800 || 0xD800 <= n < 0xE000)) || (k == 4 && !(0x10000 <= n < 0x110000)) then None
      else
        var tail := DecodeUtf8(raw[k..]);
        if tail.None? then None else Some([n as char] + tail.value)
  }

  // ------------------------------------------------------------------ canonical_json_bytes and load_canonical_json

  /** canonical_json_bytes; None where it raises */
  function Canonical(v: Value): Option<string> {
    if !Valid(v, 0) || !Printable(v) then None
    else
      var text := Print(v);
      if text == "" || |text| > MAX_FRAME_BYTES then None else Some(text)
  }

  predicate StartsWithBom(raw: Bytes) {
    |raw| >= 3 && raw[0] == 0xEF && raw[1] == 0xBB && raw[2] == 0xBF
  }

  /** load_canonical_json; None where it raises */
  function Load(raw: Bytes, maximum: int): Option<Value> {
    if !(0 < |raw| <= maximum <= MAX_FRAME_BYTES) || StartsWithBom(raw) then None
    else
      var text := DecodeUtf8(raw);
      if text.None? then None
      else
        var v := Parse(text.value);
        if v.None? || !Valid(v.value, 0) then None
        else
          var again := Canonical(v.value);
          if again.None? || !IsAscii(again.value) || AsBytes(again.value) != raw then None else v
  }

  // ------------------------------------------------------------------ printed text is ASCII and decodes to itself

  /** printed text holds neither control characters nor anything beyond ASCII */
  predicate Visible(s: string) {
    forall i | 0 <= i < |s| :: ' ' <= s[i] <= '~'
  }

  lemma EscapeVisible(c: char)
    ensures Visible(Escape(c))
  {
    if c as int < 0x10000 {
      HexVisible(c as int);
    } else {
      var n := c as int - 0x10000;
      HexVisible(0xD800 + n / 0x400);
      HexVisible(0xDC00 + n % 0x400);
    }
    hide Hex4;
  }

  lemma HexVisible(n: int)
    requires 0 <= n < 0x10000
    ensures Visible(Hex4(n))
  {
  }

  lemma {:induction false} EscapesVisible(s: string)
    ensures Visible(Escapes(s))
  {
    hide Escape;
    if s != "" {
      EscapeVisible(s[0]);
      EscapesVisible(s[1..]);
    }
  }

  lemma {:induction false} DecimalDigits(n: nat)
    ensures forall i | 0 <= i < |Decimal(n)| :: IsDigit(Decimal(n)[i])
    ensures FromDecimal(Decimal(n)) == n
    ensures n > 0 ==> Decimal(n)[0] != '0'
    ensures n == 0 ==> Decimal(n) == "0"
    decreases n
  {
    if n >= 10 {
      DecimalDigits(n / 10);
      assert Decimal(n)[..|Decimal(n)| - 1] == Decimal(n / 10);
    } else {
      assert Decimal(n)[..|Decimal(n)| - 1] == "";
    }
  }

  lemma IntVisible(n: int)
    ensures Visible(IntText(n))
  {
    hide Decimal;
    var digits := Decimal(if n < 0 then -n else n);
    DecimalDigits(if n < 0 then -n else n);
    forall i | 0 <= i < |digits| ensures ' ' <= digits[i] <= '~' { assert IsDigit(digits[i]); }
  }

  lemma {:induction false} PrintVisible(v: Value)
    ensures Visible(Print(v))
    decreases v, 1, 0
  {
    hide IntText, Escapes, PrintItems, PrintFields;
    match v
    case Int(n) => IntVisible(n);
    case Str(s) => EscapesVisible(s);
    case Arr(items) => PrintItemsVisible(v, 0);
    case Obj(fields) => PrintFieldsVisible(v, 0);
    case Null => assert Print(v) == "null";
    case Bool(b) => assert Print(v) == if b then "true" else "false";
  }

  lemma {:induction false} PrintItemsVisible(v: Value, k: nat)
    requires v.Arr? && k <= |v.items|
    ensures Visible(PrintItems(v, k))
    decreases v, 0, |v.items| - k
  {
    if k < |v.items| {
      PrintVisible(v.items[k]);
      if k + 1 < |v.items| { PrintItemsVisible(v, k + 1); }
    }
  }

  lemma {:induction false} PrintFieldsVisible(v: Value, k: nat)
    requires v.Obj? && k <= |v.fields|
    ensures Visible(PrintFields(v, k))
    decreases v, 0, |v.fields| - k
  {
    hide Escapes, Print;
    if k < |v.fields| {
      EscapesVisible(v.fields[k].key);
      PrintVisible(v.fields[k].value);
      if k + 1 < |v.fields| { PrintFieldsVisible(v, k + 1); }
    }
  }

  lemma PrintAscii(v: Value)
    ensures IsAscii(Print(v))
  {
    hide Print;
    PrintVisible(v);
  }

  lemma AsciiByteDecodes(raw: Bytes)
    requires raw != [] && raw[0] < 0x80
    ensures DecodeUtf8(raw) ==
              (var tail := DecodeUtf8(raw[1..]);
               if tail.None? then None else Some([raw[0] as char] + tail.value))
  {
  }

  lemma {:induction false} AsciiDecodes(s: string)
    requires IsAscii(s)
    ensures DecodeUtf8(AsBytes(s)) == Some(s)
  {
    hide DecodeUtf8;
    if s == "" {
      EmptyDecodes();
    } else {
      assert s[0] < 128 as char;
      AsciiDecodes(s[1..]);
      assert AsBytes(s)[1..] == AsBytes(s[1..]);
      AsciiByteDecodes(AsBytes(s));
      assert s == [s[0]] + s[1..];
    }
  }

  lemma EmptyDecodes()
    ensures DecodeUtf8([]) == Some("")
  {
  }

  // ------------------------------------------------------------------ parsing what was printed

  /** what may follow a printed value */
  predicate Stop(rest: string) {
    rest == "" || rest[0] == ',' || rest[0] == ']' || rest[0] == '}'
  }

  lemma {:induction false} SpanStops(digits: string, rest: string)
    requires forall i | 0 <= i < |digits| :: IsDigit(digits[i])
    requires Stop(rest)
    ensures Span(digits + rest) == |digits|
  {
    if digits == "" {
      assert digits + rest == rest;
    } else {
      SpanStops(digits[1..], rest);
      assert (digits + rest)[1..] == digits[1..] + rest;
    }
  }

  /** digits that are no octal-looking number, then a stop */
  lemma BodyParses(digits: string, rest: string)
    requires digits != "" && forall i | 0 <= i < |digits| :: IsDigit(digits[i])
    requires Stop(rest) && (digits[0] != '0' || digits == "0")
    ensures var body := digits + rest;
            && body[0] == digits[0]
            && (if body[0] == '0' then 1 else Span(body)) == |digits|
            && body[..|digits|] == digits && body[|digits|..] == rest
            && !IsFloatTail(rest)
  {
    hide FromDecimal, ParseNumber, Span;
    SpanStops(digits, rest);
  }

  lemma NumberParses(n: int, rest: string)
    requires Stop(rest) && Printable(Int(n))
    ensures ParseNumber(IntText(n) + rest) == Some((n, rest))
  {
    hide FromDecimal, Decimal, Span, Stop, IsFloatTail;
    var m := if n < 0 then -n else n;
    var digits := Decimal(m);
    DecimalDigits(m);
    BodyParses(digits, rest);
    var text := IntText(n) + rest;
    if n < 0 {
      assert text[0] == '-' && text[1..] == digits + rest;
    } else {
      assert text == digits + rest && IsDigit(text[0]);
    }
  }

  lemma HexPlaces(n: int)
    requires 0 <= n < 0x10000
    ensures 0 <= n / 0x1000 < 16
    ensures n == ((n / 0x1000 * 16 + n / 0x100 % 16) * 16 + n / 0x10 % 16) * 16 + n % 16
  {
  }

  lemma HexParses(n: int, rest: string)
    requires 0 <= n < 0x10000
    ensures ParseHex4(Hex4(n) + rest) == Some(n) && (Hex4(n) + rest)[4..] == rest
  {
    hide HexDigit, HexValue;
    HexPlaces(n);
    var a, b, c, d := n / 0x1000, n / 0x100 % 16, n / 0x10 % 16, n % 16;
    HexDigitParses(a);
    HexDigitParses(b);
    HexDigitParses(c);
    HexDigitParses(d);
    var text := Hex4(n) + rest;
    assert text[0] == HexDigit(a) && text[1] == HexDigit(b) && text[2] == HexDigit(c) && text[3] == HexDigit(d);
  }

  lemma HexDigitParses(d: int)
    requires 0 <= d < 16
    ensures HexValue(HexDigit(d)) == Some(d)
  {
  }

  lemma EscapeParses(c: char, rest: string)
    requires !(' ' <= c <= '~') || c == '"' || c == '\\'
    ensures Escape(c)[0] == '\\' && ParseEscape((Escape(c) + rest)[1..]) == Some((c, rest))
  {
    var text := Escape(c) + rest;
    if c as int >= 0x10000 {
      WideEscapeParses(c, rest);
    } else if |Escape(c)| == 2 {
      assert text[1..] == [Escape(c)[1]] + rest;
    } else {
      HexParses(c as int, rest);
      assert text[1..] == "u" + (Hex4(c as int) + rest);
      assert text[1..][1..] == Hex4(c as int) + rest;
      assert text[1..][5..] == rest;
    }
  }

  lemma WideEscapeParses(c: char, rest: string)
    requires c as int >= 0x10000
    ensures Escape(c)[0] == '\\' && ParseEscape((Escape(c) + rest)[1..]) == Some((c, rest))
  {
    hide Hex4, ParseHex4;
    var n := c as int - 0x10000;
    var high, low := 0xD800 + n / 0x400, 0xDC00 + n % 0x400;
    var tail := "\\u" + (Hex4(low) + rest);
    var after := "u" + (Hex4(high) + tail);
    assert Escape(c) + rest == "\\" + after;
    assert (Escape(c) + rest)[1..] == after;
    HexParses(high, tail);
    HexParses(low, rest);
    PairParses(after, high, low, tail, rest);
    assert 0x10000 + (high - 0xD800) * 0x400 + (low - 0xDC00) == c as int;
  }

  /** a surrogate pair is read as one character */
  lemma PairParses(after: string, high: int, low: int, tail: string, rest: string)
    requires 0xD800 <= high < 0xDC00 <= low < 0xE000
    requires after == "u" + (Hex4(high) + tail) && tail == "\\u" + (Hex4(low) + rest)
    requires ParseHex4(Hex4(high) + tail) == Some(high) && ParseHex4(Hex4(low) + rest) == Some(low)
    ensures ParseEscape(after) == Some(((0x10000 + (high - 0xD800) * 0x400 + (low - 0xDC00)) as char, rest))
  {
    hide Hex4, ParseHex4;
    assert after[1..] == Hex4(high) + tail;
    assert after[5] == tail[0] && after[6] == tail[1];
    assert after[7..] == Hex4(low) + rest;
    assert after[11..] == rest;
  }

  lemma {:induction false} CharsParse(s: string, rest: string)
    ensures ParseChars(Escapes(s) + "\"" + rest) == Some((s, rest))
  {
    var text := Escapes(s) + "\"" + rest;
    if s == "" {
      assert text == "\"" + rest;
    } else {
      hide ParseChars, Escape;
      var tail := Escapes(s[1..]) + "\"" + rest;
      assert text == Escape(s[0]) + tail;
      CharsParse(s[1..], rest);
      CharParses(s[0], tail, s[1..], rest);
      assert s == [s[0]] + s[1..];
    }
  }

  /** one printed character in front of a string that parses */
  lemma CharParses(c: char, tail: string, s: string, rest: string)
    requires ParseChars(tail) == Some((s, rest))
    ensures ParseChars(Escape(c) + tail) == Some(([c] + s, rest))
  {
    var text := Escape(c) + tail;
    if !(' ' <= c <= '~') || c == '"' || c == '\\' {
      EscapeParses(c, tail);
      hide Escape, ParseEscape;
      assert text[0] == '\\';
    } else {
      hide ParseEscape;
      assert text[1..] == tail;
    }
  }

  lemma QuotedParses(s: string, rest: string)
    ensures Quoted(s) != "" && (Quoted(s) + rest)[0] == '"'
    ensures ParseChars((Quoted(s) + rest)[1..]) == Some((s, rest))
  {
    CharsParse(s, rest);
    assert (Quoted(s) + rest)[1..] == Escapes(s) + "\"" + rest;
  }

  /** what starts a printed value: never a space, never a closing bracket */
  predicate Starts(c: char) {
    !IsSpace(c) && c != ']' && c != '}' && c != ','
  }

  lemma PrintStarts(v: Value)
    ensures Print(v) != "" && Starts(Print(v)[0])
    ensures v.Int? ==> Print(v)[0] == '-' || IsDigit(Print(v)[0])
  {
    hide Decimal, Escapes, PrintItems, PrintFields;
    match v
    case Int(n) =>
      DecimalDigits(if n < 0 then -n else n);
      assert IsDigit(Decimal(if n < 0 then -n else n)[0]);
    case Str(s) => assert Print(v)[0] == '"';
    case Arr(_) => assert Print(v)[0] == '[';
    case Obj(_) => assert Print(v)[0] == '{';
    case _ =>
  }

  lemma SkipsNothing(s: string)
    requires s != "" && !IsSpace(s[0])
    ensures SkipSpace(s) == s
  {
  }

  lemma LiteralParses(v: Value, rest: string)
    requires v.Null? || v.Bool?
    ensures ParseValue(Print(v) + rest) == Some((v, rest))
  {
    hide ParseNumber, ParseChars, ParseItems, ParseFields;
    var text := Print(v) + rest;
    assert text[|Print(v)|..] == rest;
  }

  lemma IntParses(v: Value, rest: string)
    requires v.Int? && Printable(v) && Stop(rest)
    ensures ParseValue(Print(v) + rest) == Some((v, rest))
  {
    hide ParseNumber, ParseChars, ParseItems, ParseFields, IntText, Stop;
    PrintStarts(v);
    NumberParses(v.n, rest);
    var text := Print(v) + rest;
    assert text[0] == Print(v)[0];
  }

  lemma StrParses(v: Value, rest: string)
    requires v.Str?
    ensures ParseValue(Print(v) + rest) == Some((v, rest))
  {
    hide ParseNumber, ParseChars, ParseItems, ParseFields, Quoted;
    QuotedParses(v.s, rest);
  }

  /** an array text is its bracket and its items */
  lemma ArrayOpens(v: Value, rest: string)
    requires v.Arr?
    requires v.items == [] || ParseItems(PrintItems(v, 0) + "]" + rest, []) == Some((v, rest))
    ensures ParseValue(Print(v) + rest) == Some((v, rest))
  {
    hide ParseNumber, ParseChars, ParseItems, ParseFields, SkipSpace;
    var inner := PrintItems(v, 0) + "]" + rest;
    assert (Print(v) + rest)[0] == '[' && (Print(v) + rest)[1..] == inner;
    if v.items == [] {
      assert inner == "]" + rest;
      SkipsNothing(inner);
    } else {
      PrintStarts(v.items[0]);
      assert inner[0] == Print(v.items[0])[0];
      SkipsNothing(inner);
    }
  }

  lemma ObjectOpens(v: Value, rest: string)
    requires v.Obj?
    requires v.fields == [] || ParseFields(PrintFields(v, 0) + "}" + rest, []) == Some((v, rest))
    ensures ParseValue(Print(v) + rest) == Some((v, rest))
  {
    hide ParseNumber, ParseChars, ParseItems, ParseFields, SkipSpace;
    var inner := PrintFields(v, 0) + "}" + rest;
    assert (Print(v) + rest)[0] == '{' && (Print(v) + rest)[1..] == inner;
    if v.fields == [] {
      assert inner == "}" + rest;
      SkipsNothing(inner);
    } else {
      assert inner[0] == '"';
      SkipsNothing(inner);
    }
  }

  /** Parsing a printed value returns that value and leaves what follows. */
  lemma {:induction false} ValueParses(v: Value, rest: string)
    requires IsDict(v) && Printable(v) && (v.Int? ==> Stop(rest))
    ensures ParseValue(Print(v) + rest) == Some((v, rest))
    decreases v, 1, 0
  {
    hide Print, PrintItems, PrintFields, ParseValue, ParseItems, ParseFields, IsDict, Printable;
    match v
    case Int(_) => IntParses(v, rest);
    case Str(_) => StrParses(v, rest);
    case Arr(items) =>
      if items != [] {
        assert items[..0] == [];
        ItemsParse(v, 0, rest);
      }
      ArrayOpens(v, rest);
    case Obj(fields) =>
      if fields != [] {
        assert fields[..0] == [];
        FieldsParse(v, 0, rest);
      }
      ObjectOpens(v, rest);
    case _ => LiteralParses(v, rest);
  }

  /** one item and what follows it are read off the front */
  lemma ItemStep(v: Value, k: nat, rest: string, tail: string)
    requires v.Arr? && k < |v.items|
    requires tail == if k + 1 == |v.items| then "]" + rest else "," + PrintItems(v, k + 1) + "]" + rest
    requires ParseValue(Print(v.items[k]) + tail) == Some((v.items[k], tail))
    requires k + 1 < |v.items| ==> ParseItems(PrintItems(v, k + 1) + "]" + rest, v.items[..k + 1]) == Some((v, rest))
    ensures ParseItems(PrintItems(v, k) + "]" + rest, v.items[..k]) == Some((v, rest))
  {
    hide Print, ParseValue, SkipSpace;
    var items := v.items;
    assert PrintItems(v, k) + "]" + rest == Print(items[k]) + tail;
    assert items[..k] + [items[k]] == items[..k + 1];
    SkipsNothing(tail);
    if k + 1 == |items| {
      assert items[..k + 1] == items;
      assert tail[1..] == rest;
    } else {
      var next := PrintItems(v, k + 1) + "]" + rest;
      assert tail[1..] == next;
      PrintStarts(items[k + 1]);
      assert next[0] == Print(items[k + 1])[0];
      SkipsNothing(next);
    }
  }

  lemma {:induction false} ItemsParse(v: Value, k: nat, rest: string)
    requires v.Arr? && k < |v.items| && IsDict(v) && Printable(v)
    ensures ParseItems(PrintItems(v, k) + "]" + rest, v.items[..k]) == Some((v, rest))
    decreases v, 0, |v.items| - k
  {
    hide Print, PrintItems, ParseValue, ParseItems;
    var last := k + 1 == |v.items|;
    var tail := if last then "]" + rest else "," + PrintItems(v, k + 1) + "]" + rest;
    ValueParses(v.items[k], tail);
    if !last { ItemsParse(v, k + 1, rest); }
    ItemStep(v, k, rest, tail);
  }

  /** a key after all the others is appended */
  lemma {:induction false} InsertLast(fields: seq<Field>, f: Field)
    requires forall i | 0 <= i < |fields| :: Less(fields[i].key, f.key)
    ensures Insert(fields, f) == Some(fields + [f])
  {
    if fields == [] {
      assert fields + [f] == [f];
    } else {
      LessTrichotomy(fields[0].key, f.key);
      InsertLast(fields[1..], f);
      assert [fields[0]] + (fields[1..] + [f]) == fields + [f];
    }
  }

  lemma FieldStep(v: Value, k: nat, rest: string, tail: string)
    requires v.Obj? && k < |v.fields| && Sorted(v.fields)
    requires tail == if k + 1 == |v.fields| then "}" + rest else "," + PrintFields(v, k + 1) + "}" + rest
    requires ParseValue(Print(v.fields[k].value) + tail) == Some((v.fields[k].value, tail))
    requires k + 1 < |v.fields| ==>
               ParseFields(PrintFields(v, k + 1) + "}" + rest, v.fields[..k + 1]) == Some((v, rest))
    ensures ParseFields(PrintFields(v, k) + "}" + rest, v.fields[..k]) == Some((v, rest))
  {
    hide Print, ParseValue, SkipSpace, ParseChars, Quoted, Insert, Less, PrintFields;
    var fields := v.fields;
    var f := fields[k];
    var colon := ":" + Print(f.value) + tail;
    var text := Quoted(f.key) + colon;
    assert PrintFields(v, k) + "}" + rest == text by { FieldText(v, k, rest, tail); }
    QuotedParses(f.key, colon);
    SkipsNothing(colon);
    assert colon[1..] == Print(f.value) + tail;
    PrintStarts(f.value);
    SkipsNothing(colon[1..]);
    InsertLast(fields[..k], f);
    assert fields[..k] + [f] == fields[..k + 1];
    SkipsNothing(tail);
    if k + 1 == |fields| {
      assert fields[..k + 1] == fields;
      assert tail[1..] == rest;
    } else {
      var next := PrintFields(v, k + 1) + "}" + rest;
      assert tail[1..] == next;
      FieldsStart(v, k + 1);
      SkipsNothing(next);
    }
  }

  lemma FieldText(v: Value, k: nat, rest: string, tail: string)
    requires v.Obj? && k < |v.fields|
    requires tail == if k + 1 == |v.fields| then "}" + rest else "," + PrintFields(v, k + 1) + "}" + rest
    ensures PrintFields(v, k) + "}" + rest == Quoted(v.fields[k].key) + (":" + Print(v.fields[k].value) + tail)
  {
    hide Print, Quoted;
  }

  lemma FieldsStart(v: Value, k: nat)
    requires v.Obj? && k < |v.fields|
    ensures PrintFields(v, k) != "" && PrintFields(v, k)[0] == '"'
  {
    hide Print, Escapes;
    assert Quoted(v.fields[k].key)[0] == '"';
    hide Quoted;
    assert PrintFields(v, k)[0] == Quoted(v.fields[k].key)[0];
  }

  lemma {:induction false} FieldsParse(v: Value, k: nat, rest: string)
    requires v.Obj? && k < |v.fields| && IsDict(v) && Printable(v)
    ensures ParseFields(PrintFields(v, k) + "}" + rest, v.fields[..k]) == Some((v, rest))
    decreases v, 0, |v.fields| - k
  {
    hide Print, PrintFields, ParseValue, ParseFields, Sorted;
    var last := k + 1 == |v.fields|;
    var tail := if last then "}" + rest else "," + PrintFields(v, k + 1) + "}" + rest;
    ValueParses(v.fields[k].value, tail);
    if !last { FieldsParse(v, k + 1, rest); }
    FieldStep(v, k, rest, tail);
  }

  // ------------------------------------------------------------------ parsed objects are dicts

  /** Inserting keeps a dict sorted, adds exactly that field, and fails exactly on a key already there. */
  lemma {:induction false} InsertKeeps(fields: seq<Field>, f: Field)
    requires Sorted(fields)
    ensures Insert(fields, f).None? <==> exists i :: 0 <= i < |fields| && fields[i].key == f.key
    ensures Insert(fields, f).Some? ==>
              Sorted(Insert(fields, f).value) && multiset(Insert(fields, f).value) == multiset(fields) + multiset{f}
  {
    if fields != [] {
      var tail := fields[1..];
      assert fields == [fields[0]] + tail;
      assert Sorted(tail);
      LessTrichotomy(f.key, fields[0].key);
      hide Less;
      if Less(f.key, fields[0].key) {
        hide Insert;
        InsertedFirst(fields, f);
        assert Insert(fields, f) == Some([f] + fields) by { InsertCase(fields, f); }
      } else if f.key != fields[0].key {
        hide Insert, Sorted;
        InsertKeeps(tail, f);
        InsertCase(fields, f);
        KeyInTail(fields, f.key);
        if Insert(tail, f).Some? { InsertedAfter(fields[0], tail, f, Insert(tail, f).value); }
      }
    }
  }

  lemma InsertCase(fields: seq<Field>, f: Field)
    requires fields != [] && f.key != fields[0].key
    ensures Insert(fields, f) ==
              if Less(f.key, fields[0].key) then Some([f] + fields)
              else
                var tail := Insert(fields[1..], f);
                if tail.None? then None else Some([fields[0]] + tail.value)
  {
    hide Less;
  }

  lemma KeyInTail(fields: seq<Field>, key: string)
    requires fields != [] && key != fields[0].key
    ensures (exists i :: 0 <= i < |fields| && fields[i].key == key)
            <==> exists i :: 0 <= i < |fields[1..]| && fields[1..][i].key == key
  {
    assert forall i | 0 <= i < |fields[1..]| :: fields[1..][i] == fields[i + 1];
    if i :| 0 <= i < |fields| && fields[i].key == key {
      assert fields[1..][i - 1].key == key;
    }
  }

  lemma InsertedFirst(fields: seq<Field>, f: Field)
    requires Sorted(fields) && fields != [] && Less(f.key, fields[0].key)
    ensures Sorted([f] + fields) && multiset([f] + fields) == multiset(fields) + multiset{f}
    ensures forall i | 0 <= i < |fields| :: fields[i].key != f.key
    ensures f.key != fields[0].key
  {
    hide Less;
    forall i | 0 <= i < |fields| ensures Less(f.key, fields[i].key) {
      if i > 0 { LessTransitive(f.key, fields[0].key, fields[i].key); }
    }
    forall i | 0 <= i < |fields| ensures fields[i].key != f.key { LessTrichotomy(f.key, fields[i].key); }
  }

  lemma InsertedAfter(first: Field, tail: seq<Field>, f: Field, all: seq<Field>)
    requires Sorted([first] + tail) && Sorted(all) && Less(first.key, f.key)
    requires multiset(all) == multiset(tail) + multiset{f}
    ensures Sorted([first] + all)
  {
    forall i | 0 <= i < |all| ensures Less(first.key, all[i].key) {
      assert all[i] in multiset(all);
      if all[i] != f {
        assert all[i] in tail;
        var j :| 0 <= j < |tail| && tail[j] == all[i];
        assert ([first] + tail)[0] == first && ([first] + tail)[j + 1] == tail[j];
        assert Less(([first] + tail)[0].key, ([first] + tail)[j + 1].key);
      }
    }
  }

  ghost predicate DictFields(fields: seq<Field>) {
    Sorted(fields) && forall i | 0 <= i < |fields| :: IsDict(fields[i].value)
  }

  lemma InsertDict(fields: seq<Field>, f: Field)
    requires DictFields(fields) && IsDict(f.value) && Insert(fields, f).Some?
    ensures DictFields(Insert(fields, f).value)
  {
    InsertKeeps(fields, f);
    var all := Insert(fields, f).value;
    forall i | 0 <= i < |all| ensures IsDict(all[i].value) {
      assert all[i] in multiset(all);
      assert all[i] == f || all[i] in fields;
    }
  }

  lemma {:induction false} ParsedIsDict(s: string)
    ensures ParseValue(s).Some? ==> IsDict(ParseValue(s).value.0)
    decreases |s|, 0
  {
    hide ParseChars, ParseNumber, ParseItems, ParseFields, SkipSpace;
    if s != "" && s[0] == '[' {
      ItemsAreDicts(SkipSpace(s[1..]), []);
    } else if s != "" && s[0] == '{' {
      FieldsAreDicts(SkipSpace(s[1..]), []);
    }
  }

  lemma {:induction false} ItemsAreDicts(s: string, items: seq<Value>)
    requires forall i | 0 <= i < |items| :: IsDict(items[i])
    ensures ParseItems(s, items).Some? ==> IsDict(ParseItems(s, items).value.0)
    decreases |s|, 1
  {
    hide ParseValue, SkipSpace;
    ParsedIsDict(s);
    if ParseValue(s).Some? {
      var item := ParseValue(s).value;
      var rest := SkipSpace(item.1);
      if rest != "" && rest[0] == ',' { ItemsAreDicts(SkipSpace(rest[1..]), items + [item.0]); }
    }
  }

  lemma {:induction false} FieldsAreDicts(s: string, fields: seq<Field>)
    requires DictFields(fields)
    ensures ParseFields(s, fields).Some? ==> IsDict(ParseFields(s, fields).value.0)
    decreases |s|, 1
  {
    hide ParseValue, SkipSpace, ParseChars, Insert, Sorted;
    if ParseFields(s, fields).Some? {
      var key := ParseChars(s[1..]);
      var colon := SkipSpace(key.value.1);
      var text := SkipSpace(colon[1..]);
      ParsedIsDict(text);
      var value := ParseValue(text).value;
      var f := Field(key.value.0, value.0);
      InsertDict(fields, f);
      var rest := SkipSpace(value.1);
      if rest[0] == ',' { FieldsAreDicts(SkipSpace(rest[1..]), Insert(fields, f).value); }
    }
  }

  lemma NoneSorted()
    ensures Sorted([])
  {
  }

  lemma PairAdded(fields: seq<Field>, pairs: seq<Field>, i: nat)
    requires i < |pairs| && Sorted(fields) && multiset(fields) == multiset(pairs[..i])
    ensures Insert(fields, pairs[i]).None? <==> exists j :: 0 <= j < i && pairs[j].key == pairs[i].key
    ensures Insert(fields, pairs[i]).Some? ==>
              var next := Insert(fields, pairs[i]).value;
              Sorted(next) && multiset(next) == multiset(pairs[..i + 1])
  {
    hide Insert, Sorted;
    InsertKeeps(fields, pairs[i]);
    assert pairs[..i + 1] == pairs[..i] + [pairs[i]];
    if k :| 0 <= k < |fields| && fields[k].key == pairs[i].key {
      assert fields[k] in multiset(fields);
      assert fields[k] in pairs[..i];
    }
    if j :| 0 <= j < i && pairs[j].key == pairs[i].key {
      assert pairs[..i][j] in multiset(pairs[..i]);
      assert pairs[j] in multiset(fields);
      assert pairs[j] in fields;
    }
  }

  /** _object_pairs: the pairs become a dict with exactly those fields, unless two share a key. */
  method ObjectPairs(pairs: seq<Field>) returns (result: Option<seq<Field>>)
    ensures result.Some? <==> forall i, j | 0 <= i < j < |pairs| :: pairs[i].key != pairs[j].key
    ensures result.Some? ==> Sorted(result.value) && multiset(result.value) == multiset(pairs)
  {
    hide Insert, Sorted;
    var fields: seq<Field> := [];
    assert Sorted(fields) by { NoneSorted(); }
    for i := 0 to |pairs|
      invariant Sorted(fields) && multiset(fields) == multiset(pairs[..i])
      invariant forall j, k | 0 <= j < k < i :: pairs[j].key != pairs[k].key
    {
      PairAdded(fields, pairs, i);
      var next := Insert(fields, pairs[i]);
      if next.None? { return None; }
      fields := next.value;
    }
    assert pairs[..|pairs|] == pairs;
    return Some(fields);
  }

  // ------------------------------------------------------------------ one value, one accepted encoding

  /** json.loads undoes json.dumps. */
  lemma PrintedParses(v: Value)
    requires IsDict(v) && Printable(v)
    ensures Parse(Print(v)) == Some(v)
  {
    hide Print, ParseValue, Starts, SkipSpace;
    ValueParses(v, "");
    assert Print(v) + "" == Print(v);
    PrintStarts(v);
    assert !IsSpace(Print(v)[0]) by { StartsFacts(Print(v)[0]); }
    SkipsNothing(Print(v));
    EmptySkips();
  }

  lemma StartsFacts(c: char)
    requires Starts(c)
    ensures !IsSpace(c)
  {
  }

  lemma EmptySkips()
    ensures SkipSpace("") == ""
  {
  }

  /** A byte string is accepted, as a given value, exactly when it is that value's canonical encoding and
      within the limit: every admissible value has exactly one accepted encoding. */
  lemma LoadsExactlyCanonical(raw: Bytes, maximum: int, v: Value)
    requires IsDict(v)
    ensures Load(raw, maximum) == Some(v) <==>
              && Canonical(v).Some? && IsAscii(Canonical(v).value) && AsBytes(Canonical(v).value) == raw
              && |raw| <= maximum <= MAX_FRAME_BYTES
  {
    hide Print, Parse, DecodeUtf8, Valid, Printable, IsDict;
    if Canonical(v).Some? && IsAscii(Canonical(v).value) && AsBytes(Canonical(v).value) == raw {
      var text := Canonical(v).value;
      AsciiDecodes(text);
      PrintedParses(v);
    }
  }

  /** A canonical encoding is always ASCII, so it is accepted whenever it is within the limit. */
  lemma CanonicalLoads(v: Value, maximum: int)
    requires IsDict(v) && Canonical(v).Some? && |Canonical(v).value| <= maximum <= MAX_FRAME_BYTES
    ensures IsAscii(Canonical(v).value) && Load(AsBytes(Canonical(v).value), maximum) == Some(v)
  {
    hide Load, Print, Valid, Printable, IsDict;
    PrintAscii(v);
    LoadsExactlyCanonical(AsBytes(Canonical(v).value), maximum, v);
  }

  /** Whatever is accepted is a dict-only value within the depth, item and character limits. */
  lemma LoadedIsSane(raw: Bytes, maximum: int)
    requires Load(raw, maximum).Some?
    ensures IsDict(Load(raw, maximum).value) && Valid(Load(raw, maximum).value, 0)
    ensures Canonical(Load(raw, maximum).value).Some?
  {
    hide ParseValue, DecodeUtf8, Valid, Print, Printable, IsDict, SkipSpace;
    ParsedIsDict(SkipSpace(DecodeUtf8(raw).value));
  }

  /** No two byte strings are accepted as the same value, and no byte string as two. */
  lemma OneEncoding(a: Bytes, b: Bytes, m: int, n: int)
    requires Load(a, m).Some? && Load(a, m) == Load(b, n)
    ensures a == b
  {
    hide Load, IsDict;
    LoadedIsSane(a, m);
    LoadsExactlyCanonical(a, m, Load(a, m).value);
    LoadsExactlyCanonical(b, n, Load(a, m).value);
  }
}
