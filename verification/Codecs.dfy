/** Big-endian digits of fixed width in bits, and the one bit stream behind base32 and base64
    (RFC 4648 sections 3.5, 5 and 6). */
module Bits {
  import opened Prelude

  function Pow2(k: nat): (p: nat)
    ensures p >= 1
  {
    if k == 0 then 1 else 2 * Pow2(k - 1)
  }

  lemma {:induction false} Pow2Adds(a: nat, b: nat)
    ensures Pow2(a + b) == Pow2(a) * Pow2(b)
  {
    if b > 0 {
      Pow2Adds(a, b - 1);
      assert Pow2(a + b) == 2 * (Pow2(a) * Pow2(b - 1));
    }
  }

  ghost predicate Digits(ds: seq<int>, w: nat) {
    forall i | 0 <= i < |ds| :: 0 <= ds[i] < Pow2(w)
  }

  function Quotient(v: nat, p: nat): (q: nat)
    requires p >= 1
  {
    v / p
  }

  function Remainder(v: nat, p: nat): (r: nat)
    requires p >= 1
    ensures r < p
  {
    v % p
  }

  lemma DivisionRule(v: nat, p: nat)
    requires p >= 1
    ensures v == Quotient(v, p) * p + Remainder(v, p)
  {
  }

  lemma MultiplyMonotone(a: nat, b: nat, p: nat)
    ensures a <= b ==> a * p <= b * p
  {
  }

  lemma NextMultiple(a: nat, p: nat)
    ensures (a + 1) * p == a * p + p
  {
  }

  lemma QuotientBound(v: nat, p: nat, q: nat)
    requires p >= 1 && v < q * p
    ensures Quotient(v, p) < q
  {
    hide Quotient, Remainder;
    DivisionRule(v, p);
    MultiplyMonotone(q, Quotient(v, p), p);
  }

  lemma RestoreDivision(q: nat, p: nat, r: nat)
    requires r < p
    ensures Quotient(q * p + r, p) == q && Remainder(q * p + r, p) == r
  {
    hide Quotient, Remainder;
    var d := Quotient(q * p + r, p);
    DivisionRule(q * p + r, p);
    NextMultiple(d, p);
    NextMultiple(q, p);
    MultiplyMonotone(d + 1, q, p);
    MultiplyMonotone(q + 1, d, p);
  }

  lemma ScaledBound(q: nat, bound: nat, p: nat, r: nat)
    requires q < bound && r < p
    ensures q * p + r < bound * p
  {
    MultiplyMonotone(q + 1, bound, p);
    NextMultiple(q, p);
  }

  /** the last m digits of v in base 2^w, most significant first */
  function ToDigits(v: nat, m: nat, w: nat): (ds: seq<int>)
    ensures |ds| == m
    decreases m
  {
    if m == 0 then [] else ToDigits(Quotient(v, Pow2(w)), m - 1, w) + [Remainder(v, Pow2(w))]
  }

  function FromDigits(ds: seq<int>, w: nat): int {
    if |ds| == 0 then 0 else FromDigits(ds[..|ds| - 1], w) * Pow2(w) + ds[|ds| - 1]
  }

  lemma {:induction false} ToDigitsRange(v: nat, m: nat, w: nat)
    ensures Digits(ToDigits(v, m, w), w)
    decreases m
  {
    hide Quotient, Remainder, Pow2;
    if m > 0 { ToDigitsRange(Quotient(v, Pow2(w)), m - 1, w); }
  }

  /** A number below 2^(w*m) is recovered from its m digits. */
  lemma {:induction false} DigitsGiveValue(v: nat, m: nat, w: nat)
    requires v < Pow2(m * w)
    ensures FromDigits(ToDigits(v, m, w), w) == v
    decreases m
  {
    hide Quotient, Remainder;
    if m == 0 {
      assert m * w == 0;
    } else {
      hide Pow2;
      SplitWidth(m - 1, w);
      QuotientBound(v, Pow2(w), Pow2((m - 1) * w));
      DivisionRule(v, Pow2(w));
      DigitsGiveValue(Quotient(v, Pow2(w)), m - 1, w);
      LastDigitAdds(v, m, w);
    }
  }

  lemma LastDigitAdds(v: nat, m: nat, w: nat)
    requires m > 0
    ensures FromDigits(ToDigits(v, m, w), w) ==
              FromDigits(ToDigits(Quotient(v, Pow2(w)), m - 1, w), w) * Pow2(w) + Remainder(v, Pow2(w))
  {
    hide Quotient, Remainder, Pow2;
    var front := ToDigits(Quotient(v, Pow2(w)), m - 1, w);
    assert ToDigits(v, m, w)[..m - 1] == front;
  }

  lemma SplitWidth(n: nat, w: nat)
    ensures Pow2((n + 1) * w) == Pow2(n * w) * Pow2(w)
  {
    hide Pow2;
    Pow2Adds(n * w, w);
    NextMultiple(n, w);
  }

  /** Digits are recovered from their number, which is below 2^(w*m). */
  lemma {:induction false} ValueGivesDigits(ds: seq<int>, w: nat)
    requires Digits(ds, w)
    ensures 0 <= FromDigits(ds, w) < Pow2(|ds| * w)
    ensures ToDigits(FromDigits(ds, w), |ds|, w) == ds
  {
    hide Quotient, Remainder, Pow2;
    if |ds| > 0 {
      var front, last := ds[..|ds| - 1], ds[|ds| - 1];
      ValueGivesDigits(front, w);
      var q := FromDigits(front, w);
      RestoreDivision(q, Pow2(w), last);
      SplitWidth(|ds| - 1, w);
      ScaledBound(q, Pow2(|front| * w), Pow2(w), last);
      MultiplyMonotone(0, q, Pow2(w));
      assert ds == front + [last];
    }
  }

  /** bytes as an integer sequence */
  function Plain(raw: Bytes): (ds: seq<int>)
    ensures |ds| == |raw|
  {
    seq(|raw|, i requires 0 <= i < |raw| => raw[i] as int)
  }

  /** how many w-bit digits hold n bytes */
  function Width(n: nat, w: nat): nat
    requires w == 5 || w == 6
  {
    (8 * n + w - 1) / w
  }

  /** the digits of a byte string, its last digit padded with zero bits */
  function Encode(raw: Bytes, w: nat): seq<int>
    requires w == 5 || w == 6
  {
    var m := Width(|raw|, w);
    var value := FromDigits(Plain(raw), 8);
    ToDigits((if value < 0 then 0 else value) * Pow2(w * m - 8 * |raw|), m, w)
  }

  /** the whole bytes of a digit string, its left-over bits dropped */
  function Decode(ds: seq<int>, w: nat): seq<int>
    requires w == 5 || w == 6
  {
    var n := w * |ds| / 8;
    var value := FromDigits(ds, w);
    ToDigits(Quotient(if value < 0 then 0 else value, Pow2(w * |ds| - 8 * n)), n, 8)
  }

  lemma PlainDigits(raw: Bytes)
    ensures Digits(Plain(raw), 8)
  {
    assert Pow2(8) == 256 by { Pow2Small(); }
  }

  lemma Pow2Small()
    ensures Pow2(4) == 16 && Pow2(5) == 32 && Pow2(6) == 64 && Pow2(8) == 256
  {
    assert Pow2(3) == 8;
    assert Pow2(4) == 16;
    assert Pow2(5) == 32;
    assert Pow2(6) == 64;
    assert Pow2(7) == 128;
    assert Pow2(8) == 256;
  }

  /** the padding is less than one digit, and dropping it leaves the same number of bytes */
  lemma PadFits(n: nat, w: nat)
    requires w == 5 || w == 6
    ensures 0 <= w * Width(n, w) - 8 * n < w
    ensures w * Width(n, w) / 8 == n
  {
  }

  /** Decoding undoes encoding, for every byte string and both widths. */
  lemma DecodesEncoded(raw: Bytes, w: nat)
    requires w == 5 || w == 6
    ensures Decode(Encode(raw, w), w) == Plain(raw) && Digits(Encode(raw, w), w)
  {
    hide Quotient, Remainder, Pow2, ToDigits, FromDigits, Plain, Width, Digits;
    var n, m := |raw|, Width(|raw|, w);
    PadFits(n, w);
    var pad := w * m - 8 * n;
    var value := FromDigits(Plain(raw), 8);
    PlainDigits(raw);
    ValueGivesDigits(Plain(raw), 8);
    var shifted := value * Pow2(pad);
    Pow2Adds(8 * n, pad);
    ScaledBound(value, Pow2(8 * n), Pow2(pad), 0);
    DigitsGiveValue(shifted, m, w);
    ToDigitsRange(shifted, m, w);
    RestoreDivision(value, Pow2(pad), 0);
  }
}

/** The text encodings of the protocol (connector/protocol.py, store.py, client.py): each decoder keeps
    only strings that encode back to themselves. */
module Text {
  import opened Prelude
  import opened Bits

  function Lower32(d: int): char {
    if 0 <= d < 26 then ('a' as int + d) as char else if 26 <= d < 32 then ('2' as int + d - 26) as char else '?'
  }

  function Value32(c: char): Option<int> {
    if 'A' <= c <= 'Z' then Some(c as int - 'A' as int)
    else if '2' <= c <= '7' then Some(c as int - '2' as int + 26)
    else None
  }

  /** str.upper on the characters base32 text may have */
  function Upper(s: string): (r: string)
    ensures |r| == |s|
    ensures forall i | 0 <= i < |s| :: r[i] == if 'a' <= s[i] <= 'z' then (s[i] as int - 32) as char else s[i]
  {
    if s == "" then "" else [if 'a' <= s[0] <= 'z' then (s[0] as int - 32) as char else s[0]] + Upper(s[1..])
  }

  /** b32encode, without padding and in lower case */
  function Base32(raw: Bytes): string {
    var ds := Encode(raw, 5);
    seq(|ds|, i requires 0 <= i < |ds| => Lower32(ds[i]))
  }

  /** how many trailing characters are '=' */
  function Padding(s: string): (n: nat)
    ensures n <= |s|
  {
    if s == "" || s[|s| - 1] != '=' then 0 else 1 + Padding(s[..|s| - 1])
  }

  function Values32(s: string): Option<seq<int>> {
    if s == "" then Some([])
    else
      var head, tail := Value32(s[0]), Values32(s[1..]);
      if head.None? || tail.None? then None else Some([head.value] + tail.value)
  }

  /** base64.b32decode(casefold=False) */
  function B32Decode(s: string): Option<seq<int>> {
    var pad := Padding(s);
    if |s| % 8 != 0 || !(pad == 0 || pad == 1 || pad == 3 || pad == 4 || pad == 6) then None
    else
      var values := Values32(s[..|s| - pad]);
      if values.None? then None else Some(Decode(values.value, 5))
  }

  function Equals(n: nat): (s: string)
    ensures |s| == n && forall i | 0 <= i < n :: s[i] == '='
  {
    if n == 0 then "" else "=" + Equals(n - 1)
  }

  predicate EncodesBack(decoded: Option<seq<int>>, n: nat, value: string) {
    && decoded.Some? && |decoded.value| == n
    && (forall i | 0 <= i < n :: 0 <= decoded.value[i] < 256)
    && Base32(decoded.value) == value
  }

  /** _is_canonical_id of protocol.py */
  predicate ProtocolId(value: string) {
    |value| == 26 && EncodesBack(B32Decode(Upper(value) + Equals((8 - |value| % 8) % 8)), 16, value)
  }

  /** _require_id of store.py, whose padding is fixed */
  predicate StoreId(value: string) {
    |value| == 26 && EncodesBack(B32Decode(Upper(value) + "======"), 16, value)
  }

  /** _is_canonical_base32 of client.py, which refuses '=' first */
  predicate ClientId(value: string) {
    && |value| == 26 && '=' !in value
    && EncodesBack(B32Decode(Upper(value) + Equals((8 - |value| % 8) % 8)), 16, value)
  }

  /** _require_key_id: 32 characters need no padding */
  predicate ProtocolKeyId(value: string) {
    |value| == 32 && EncodesBack(B32Decode(Upper(value)), 20, value)
  }

  lemma {:induction false} PaddingOf(body: string, n: nat)
    requires body == "" || body[|body| - 1] != '='
    ensures Padding(body + Equals(n)) == n
  {
    if n == 0 {
      assert body + Equals(0) == body;
    } else {
      PaddingOf(body, n - 1);
      EqualsLast(n);
      assert (body + Equals(n))[..|body| + n - 1] == body + Equals(n - 1);
    }
  }

  lemma EqualsLast(n: nat)
    requires n > 0
    ensures Equals(n)[..n - 1] == Equals(n - 1) && Equals(n)[n - 1] == '='
  {
  }

  lemma {:induction false} Digits32Decode(ds: seq<int>)
    requires Digits(ds, 5)
    ensures var text := Upper(seq(|ds|, i requires 0 <= i < |ds| => Lower32(ds[i])));
            Values32(text) == Some(ds) && forall i | 0 <= i < |text| :: text[i] != '='
  {
    Pow2Small();
    var lower := seq(|ds|, i requires 0 <= i < |ds| => Lower32(ds[i]));
    var text := Upper(lower);
    if ds != [] {
      var rest := ds[1..];
      Digits32Decode(rest);
      assert lower[1..] == seq(|rest|, i requires 0 <= i < |rest| => Lower32(rest[i]));
      assert text[1..] == Upper(lower[1..]);
      assert 0 <= ds[0] < 32;
      assert Value32(text[0]) == Some(ds[0]);
      assert ds == [ds[0]] + rest;
    }
  }

  /** what base32 decoding makes of an encoded byte string, once padded to a whole number of groups */
  lemma Base32Decodes(raw: Bytes, n: nat)
    requires n == 0 || n == 1 || n == 3 || n == 4 || n == 6
    requires (|Base32(raw)| + n) % 8 == 0
    ensures B32Decode(Upper(Base32(raw)) + Equals(n)) == Some(Plain(raw))
  {
    var ds := Encode(raw, 5);
    DecodesEncoded(raw, 5);
    Digits32Decode(ds);
    var text := Upper(Base32(raw));
    PaddingOf(text, n);
    assert (text + Equals(n))[..|text|] == text;
  }

  lemma PlainIsRaw(raw: Bytes)
    ensures Plain(raw) == raw
  {
  }

  lemma EncodedIdAccepted(raw: Bytes)
    requires |raw| == 16
    ensures ProtocolId(Base32(raw)) && StoreId(Base32(raw)) && ClientId(Base32(raw))
  {
    hide Encode, Decode, B32Decode;
    assert Equals(6) == "======";
    assert |Base32(raw)| == 26 by { SixteenBytes(raw); }
    Base32Decodes(raw, 6);
    PlainIsRaw(raw);
    NoEquals(raw);
  }

  lemma SixteenBytes(raw: Bytes)
    requires |raw| == 16
    ensures |Base32(raw)| == 26
  {
  }

  lemma BackIsEncoding(decoded: Option<seq<int>>, n: nat, value: string) returns (raw: Bytes)
    requires EncodesBack(decoded, n, value)
    ensures |raw| == n && Base32(raw) == value
  {
    raw := decoded.value;
  }

  /** The three identifier checks accept the same strings: exactly the encodings of sixteen bytes. */
  lemma IdsAgree(value: string)
    ensures ProtocolId(value) <==> StoreId(value)
    ensures ProtocolId(value) <==> ClientId(value)
    ensures ProtocolId(value) <==> exists raw: Bytes :: |raw| == 16 && Base32(raw) == value
  {
    hide Base32, B32Decode, EncodesBack;
    if ProtocolId(value) || ClientId(value) {
      var raw := BackIsEncoding(B32Decode(Upper(value) + Equals((8 - |value| % 8) % 8)), 16, value);
      EncodedIdAccepted(raw);
    }
    if StoreId(value) {
      var raw := BackIsEncoding(B32Decode(Upper(value) + "======"), 16, value);
      EncodedIdAccepted(raw);
    }
    if raw: Bytes :| |raw| == 16 && Base32(raw) == value {
      EncodedIdAccepted(raw);
    }
  }

  lemma NoEquals(raw: Bytes)
    ensures '=' !in Base32(raw)
  {
    DecodesEncoded(raw, 5);
    Pow2Small();
    var ds := Encode(raw, 5);
    forall i | 0 <= i < |ds| ensures Lower32(ds[i]) != '=' { assert 0 <= ds[i] < 32; }
  }

  /** Key identifiers are exactly the encodings of twenty bytes. */
  lemma KeyIdsAreTwentyBytes(value: string)
    ensures ProtocolKeyId(value) <==> exists raw: Bytes :: |raw| == 20 && Base32(raw) == value
  {
    hide Encode, Decode, B32Decode, EncodesBack;
    if ProtocolKeyId(value) {
      var raw := BackIsEncoding(B32Decode(Upper(value)), 20, value);
    }
    if raw: Bytes :| |raw| == 20 && Base32(raw) == value {
      EncodedKeyIdAccepted(raw);
    }
  }

  lemma EncodedKeyIdAccepted(raw: Bytes)
    requires |raw| == 20
    ensures ProtocolKeyId(Base32(raw))
  {
    assert |Base32(raw)| == 32;
    hide Encode, Decode, B32Decode;
    assert Upper(Base32(raw)) + Equals(0) == Upper(Base32(raw));
    Base32Decodes(raw, 0);
    PlainIsRaw(raw);
  }

  /** Different byte strings of one length have different encodings. */
  lemma Base32Injective(a: Bytes, b: Bytes)
    requires |a| == |b| && Base32(a) == Base32(b)
    ensures a == b
  {
    DecodesEncoded(a, 5);
    DecodesEncoded(b, 5);
    Digits32Decode(Encode(a, 5));
    Digits32Decode(Encode(b, 5));
    PlainIsRaw(a);
    PlainIsRaw(b);
  }

  // ------------------------------------------------------------------ unpadded base64url

  function Char64(d: int): char {
    if 0 <= d < 26 then ('A' as int + d) as char
    else if 26 <= d < 52 then ('a' as int + d - 26) as char
    else if 52 <= d < 62 then ('0' as int + d - 52) as char
    else if d == 62 then '-'
    else '_'
  }

  /** the decoder takes both alphabets for the last two digits */
  function Value64(c: char): Option<int> {
    if 'A' <= c <= 'Z' then Some(c as int - 'A' as int)
    else if 'a' <= c <= 'z' then Some(c as int - 'a' as int + 26)
    else if '0' <= c <= '9' then Some(c as int - '0' as int + 52)
    else if c == '-' || c == '+' then Some(62)
    else if c == '_' || c == '/' then Some(63)
    else None
  }

  function Chars64(ds: seq<int>): (s: string)
    ensures |s| == |ds|
  {
    if ds == [] then "" else [Char64(ds[0])] + Chars64(ds[1..])
  }

  function Values64(s: string): Option<seq<int>> {
    if s == "" then Some([])
    else
      var head, tail := Value64(s[0]), Values64(s[1..]);
      if head.None? || tail.None? then None else Some([head.value] + tail.value)
  }

  /** _encode_base64url */
  function Base64(raw: Bytes): string {
    Chars64(Encode(raw, 6))
  }

  predicate AreBytes(ds: seq<int>) {
    forall i | 0 <= i < |ds| :: 0 <= ds[i] < 256
  }

  /** the decoding shared by _decode_base64url and _decode_bounded_base64url: what is not the encoding of
      its own decoding is refused */
  function DecodeBase64(value: string): Option<Bytes> {
    if '=' in value || |value| % 4 == 1 then None
    else
      var values := Values64(value);
      if values.None? then None
      else
        var raw := Decode(values.value, 6);
        if AreBytes(raw) && Base64(raw) == value then Some(raw) else None
  }

  lemma {:induction false} Chars64Decode(ds: seq<int>)
    requires Digits(ds, 6)
    ensures Values64(Chars64(ds)) == Some(ds)
    ensures forall i | 0 <= i < |ds| :: Chars64(ds)[i] != '=' && ' ' < Chars64(ds)[i] <= 'z'
  {
    Pow2Small();
    if ds != [] {
      Chars64Decode(ds[1..]);
      assert 0 <= ds[0] < 64;
      assert Value64(Char64(ds[0])) == Some(ds[0]);
      assert ds == [ds[0]] + ds[1..];
    }
  }

  /** A string decodes to given bytes exactly when it is their encoding. */
  lemma Base64Exact(value: string, raw: Bytes)
    ensures DecodeBase64(value) == Some(raw) <==> Base64(raw) == value
  {
    hide Encode, Decode, Width;
    if Base64(raw) == value {
      DecodesEncoded(raw, 6);
      Chars64Decode(Encode(raw, 6));
      PlainIsRaw(raw);
      NoLoneDigit(raw);
    }
  }

  /** the encoding has the length of its digits, never one more than whole groups, and is plain ASCII */
  lemma NoLoneDigit(raw: Bytes)
    ensures |Base64(raw)| == Width(|raw|, 6) && |Base64(raw)| % 4 != 1
  {
  }
}

/** What both sides of a pairing hash and show (connector/protocol.py: pairing_transcript_hash,
    pairing_sas). */
module Transcript {
  import opened Prelude
  import opened Bits

  // ------------------------------------------------------------------ framing

  /** int.to_bytes(4, "big") */
  function Length4(n: nat): Bytes
    requires n < 0x1_0000_0000
  {
    [n / 0x100_0000, n / 0x1_0000 % 256, n / 0x100 % 256, n % 256]
  }

  predicate IsHex(s: string) {
    |s| % 2 == 0 && forall i | 0 <= i < |s| :: '0' <= s[i] <= '9' || 'a' <= s[i] <= 'f'
  }

  function Nibble(c: char): int {
    if c <= '9' then c as int - '0' as int else c as int - 'a' as int + 10
  }

  /** bytes.fromhex on lower-case hexadecimal */
  function FromHex(s: string): (raw: Bytes)
    requires IsHex(s)
    ensures |raw| == |s| / 2
  {
    if s == "" then []
    else
      assert s[0] in s && s[1] in s;
      [Nibble(s[0]) * 16 + Nibble(s[1])] + FromHex(s[2..])
  }

  function Framed(block: Bytes): Bytes
    requires |block| < 0x1_0000_0000
  {
    Length4(|block|) + block
  }

  /** the bytes that are hashed: a domain, then each block behind its four-byte length */
  function Payload(domain: Bytes, init: Bytes, challenge: Bytes, leaf: string): Bytes
    requires |init| < 0x1_0000_0000 && |challenge| < 0x1_0000_0000 && IsHex(leaf) && |leaf| == 64
  {
    domain + (Framed(init) + (Framed(challenge) + Framed(FromHex(leaf))))
  }

  lemma Length4Injective(m: nat, n: nat)
    requires m < 0x1_0000_0000 && n < 0x1_0000_0000 && Length4(m) == Length4(n)
    ensures m == n
  {
    Places(m);
    Places(n);
    assert Length4(m)[0] == Length4(n)[0] && Length4(m)[1] == Length4(n)[1];
    assert Length4(m)[2] == Length4(n)[2] && Length4(m)[3] == Length4(n)[3];
  }

  lemma Places(n: nat)
    requires n < 0x1_0000_0000
    ensures n == ((n / 0x100_0000 * 256 + n / 0x1_0000 % 256) * 256 + n / 0x100 % 256) * 256 + n % 256
  {
  }

  /** a framed block and what follows it can be told apart */
  lemma FramedSplits(a: Bytes, x: Bytes, b: Bytes, y: Bytes)
    requires |a| < 0x1_0000_0000 && |b| < 0x1_0000_0000 && Framed(a) + x == Framed(b) + y
    ensures a == b && x == y
  {
    hide Length4;
    var s, t := Framed(a) + x, Framed(b) + y;
    LengthFour(|a|);
    LengthFour(|b|);
    assert s[..4] == Length4(|a|) && t[..4] == Length4(|b|);
    Length4Injective(|a|, |b|);
    assert s[4..4 + |a|] == a && t[4..4 + |b|] == b;
    assert s[4 + |a|..] == x && t[4 + |b|..] == y;
  }

  lemma LengthFour(n: nat)
    requires n < 0x1_0000_0000
    ensures |Length4(n)| == 4
  {
  }

  lemma {:induction false} FromHexInjective(a: string, b: string)
    requires IsHex(a) && IsHex(b) && FromHex(a) == FromHex(b)
    ensures a == b
  {
    if a == "" || b == "" {
      assert |FromHex(a)| == |a| / 2 && |FromHex(b)| == |b| / 2;
    } else {
      assert FromHex(a)[0] == FromHex(b)[0];
      assert FromHex(a)[1..] == FromHex(a[2..]) && FromHex(b)[1..] == FromHex(b[2..]);
      FromHexInjective(a[2..], b[2..]);
      NibblesInjective(a[0], a[1], b[0], b[1]);
      assert a == [a[0], a[1]] + a[2..] && b == [b[0], b[1]] + b[2..];
    }
  }

  predicate HexChar(c: char) {
    '0' <= c <= '9' || 'a' <= c <= 'f'
  }

  lemma NibblesInjective(a: char, b: char, c: char, d: char)
    requires HexChar(a) && HexChar(b) && HexChar(c) && HexChar(d)
    requires Nibble(a) * 16 + Nibble(b) == Nibble(c) * 16 + Nibble(d)
    ensures a == c && b == d
  {
  }

  /** The framing is injective: equal payloads come from the same two records and the same leaf. */
  lemma FramingInjective(
    domain: Bytes, init: Bytes, challenge: Bytes, leaf: string, init': Bytes, challenge': Bytes, leaf': string)
    requires |init| < 0x1_0000_0000 && |challenge| < 0x1_0000_0000 && IsHex(leaf) && |leaf| == 64
    requires |init'| < 0x1_0000_0000 && |challenge'| < 0x1_0000_0000 && IsHex(leaf') && |leaf'| == 64
    requires Payload(domain, init, challenge, leaf) == Payload(domain, init', challenge', leaf')
    ensures init == init' && challenge == challenge' && leaf == leaf'
  {
    hide Framed, FromHex, IsHex;
    var x := Framed(challenge) + Framed(FromHex(leaf));
    var y := Framed(challenge') + Framed(FromHex(leaf'));
    assert Payload(domain, init, challenge, leaf)[|domain|..] == Framed(init) + x;
    assert Payload(domain, init', challenge', leaf')[|domain|..] == Framed(init') + y;
    FramedSplits(init, x, init', y);
    FramedSplits(challenge, Framed(FromHex(leaf)), challenge', Framed(FromHex(leaf')));
    assert Framed(FromHex(leaf)) + [] == Framed(FromHex(leaf)) && Framed(FromHex(leaf')) + [] == Framed(FromHex(leaf'));
    FramedSplits(FromHex(leaf), [], FromHex(leaf'), []);
    FromHexInjective(leaf, leaf');
  }

  // ------------------------------------------------------------------ the short authentication string

  /** the Crockford alphabet 0-9 A-H J K M N P-T V-Z */
  function Crockford(d: int): char
    requires 0 <= d < 32
  {
    if d < 10 then ('0' as int + d) as char
    else if d < 18 then ('A' as int + d - 10) as char
    else if d < 20 then ('J' as int + d - 18) as char
    else if d < 22 then ('M' as int + d - 20) as char
    else if d < 27 then ('P' as int + d - 22) as char
    else ('V' as int + d - 27) as char
  }

  predicate Fives(ds: seq<int>) {
    forall i | 0 <= i < |ds| :: 0 <= ds[i] < 32
  }

  /** the first fifty bits of a hash */
  function First50(hash: Bytes): nat
    requires |hash| == 32
  {
    Quotient(Number(hash[..7]), 64)
  }

  /** int.from_bytes(raw, "big") */
  function Number(raw: Bytes): nat {
    if |raw| == 0 then 0 else Number(raw[..|raw| - 1]) * 256 + raw[|raw| - 1] as int
  }

  function Symbols(ds: seq<int>): (s: string)
    requires Fives(ds)
    ensures |s| == |ds|
  {
    if ds == [] then ""
    else
      assert Fives(ds[1..]);
      [Crockford(ds[0])] + Symbols(ds[1..])
  }

  /** ten digits of five bits, in two groups */
  ghost predicate IsSas(hash: Bytes, sas: string)
    requires |hash| == 32
  {
    var ds := ToDigits(First50(hash), 10, 5);
    Fives(ds) && sas == Symbols(ds)[..5] + "-" + Symbols(ds)[5..]
  }

  lemma {:induction false} NumberBound(raw: Bytes)
    ensures Number(raw) < Pow2(8 * |raw|)
  {
    if |raw| > 0 {
      NumberBound(raw[..|raw| - 1]);
      Pow2Adds(8 * (|raw| - 1), 8);
      Pow2Small();
    }
  }

  lemma First50Bound(hash: Bytes)
    requires |hash| == 32
    ensures First50(hash) < Pow2(50)
  {
    NumberBound(hash[..7]);
    Pow2Adds(50, 6);
    Pow2Small();
    QuotientBound(Number(hash[..7]), 64, Pow2(50));
  }

  lemma DigitRange(v: nat, m: nat)
    ensures Fives(ToDigits(v, m, 5))
  {
    ToDigitsRange(v, m, 5);
    Pow2Small();
  }

  lemma {:induction false} SymbolsInjective(a: seq<int>, b: seq<int>)
    requires |a| == |b| && Fives(a) && Fives(b) && Symbols(a) == Symbols(b)
    ensures a == b
  {
    if a != [] {
      assert Fives(a[1..]) && Fives(b[1..]);
      assert Symbols(a)[0] == Crockford(a[0]) && Symbols(b)[0] == Crockford(b[0]);
      assert Symbols(a)[1..] == Symbols(a[1..]) && Symbols(b)[1..] == Symbols(b[1..]);
      SymbolsInjective(a[1..], b[1..]);
      assert a == [a[0]] + a[1..] && b == [b[0]] + b[1..];
    }
  }

  lemma SymbolsCons(d: int, ds: seq<int>)
    requires 0 <= d < 32 && Fives(ds)
    ensures Fives([d] + ds) && Symbols([d] + ds) == [Crockford(d)] + Symbols(ds)
  {
    assert ([d] + ds)[1..] == ds;
  }

  /** one turn of the digit loop */
  lemma DigitMoves(v: nat, m: nat)
    requires m > 0 && v < Pow2(5 * m)
    ensures ToDigits(v, m, 5) == ToDigits(Quotient(v, 32), m - 1, 5) + [Remainder(v, 32)]
    ensures Quotient(v, 32) < Pow2(5 * (m - 1))
  {
    Pow2Small();
    hide Quotient, Remainder;
    Pow2Adds(5 * (m - 1), 5);
    assert 5 * (m - 1) + 5 == 5 * m;
    QuotientBound(v, 32, Pow2(5 * (m - 1)));
  }

  /** pairing_sas: the digit loop fills the string from the right and leaves no bits over. */
  method PairingSas(hash: Bytes) returns (sas: string, over: nat)
    requires |hash| == 32
    ensures IsSas(hash, sas) && over == 0
  {
    hide Quotient, Remainder, ToDigits, First50, Crockford;
    var value: nat := First50(hash);
    First50Bound(hash);
    DigitRange(value, 10);
    var characters := "";
    var index: nat := 10;
    ghost var low: seq<int> := [];
    while index > 0
      invariant 0 <= index <= 10
      invariant ToDigits(First50(hash), 10, 5) == ToDigits(value, index, 5) + low
      invariant Fives(low) && characters == Symbols(low)
      invariant value < Pow2(5 * index)
    {
      DigitMoves(value, index);
      var digit := Remainder(value, 32);
      SymbolsCons(digit, low);
      assert ToDigits(First50(hash), 10, 5) == ToDigits(Quotient(value, 32), index - 1, 5) + ([digit] + low);
      low := [digit] + low;
      characters := [Crockford(digit)] + characters;
      value := Quotient(value, 32);
      index := index - 1;
    }
    assert Pow2(5 * index) == 1;
    assert |ToDigits(value, 0, 5)| == 0;
    assert ToDigits(First50(hash), 10, 5) == low;
    sas := characters[..5] + "-" + characters[5..];
    over := value;
  }

  /** Two hashes show the same string exactly when their first fifty bits agree. */
  lemma SasSharesFiftyBits(a: Bytes, b: Bytes, x: string, y: string)
    requires |a| == 32 && |b| == 32 && IsSas(a, x) && IsSas(b, y)
    ensures x == y <==> First50(a) == First50(b)
  {
    if x == y {
      var s, t := Symbols(ToDigits(First50(a), 10, 5)), Symbols(ToDigits(First50(b), 10, 5));
      assert x[..5] == s[..5] && x[6..] == s[5..] && y[..5] == t[..5] && y[6..] == t[5..];
      assert s == s[..5] + s[5..] && t == t[..5] + t[5..];
      SymbolsInjective(ToDigits(First50(a), 10, 5), ToDigits(First50(b), 10, 5));
      First50Bound(a);
      First50Bound(b);
      DigitsGiveValue(First50(a), 10, 5);
      DigitsGiveValue(First50(b), 10, 5);
    }
  }
}
