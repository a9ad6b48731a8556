/** Concrete texts and tables the formats are fixed by: the canonical text of one JSON value with every kind of
    value and escape (RFC 8259), the alphabets and examples of RFC 4648, the layout of the pairing transcript and
    the bits of the authentication string. */
module Formats {
  import opened Prelude
  import opened Json
  import opened Bits
  import opened Text
  import opened Transcript
  import opened Ledger

  // ------------------------------------------------------------------ JSON

  lemma ScalarTexts()
    ensures Print(Null) == "null" && Print(Bool(true)) == "true" && Print(Bool(false)) == "false"
    ensures Print(Int(0)) == "0" && Print(Int(-12)) == "-12" && Print(Int(905)) == "905"
  {
  }

  /** control characters, quotes, DEL, one character beyond ASCII and one beyond U+FFFF */
  lemma EscapeTexts()
    ensures Escape('"') == "\\\"" && Escape('\\') == "\\\\" && Escape('/') == "/"
    ensures Escape('\n') == "\\n" && Escape('\r') == "\\r" && Escape('\t') == "\\t"
    ensures Escape(8 as char) == "\\b" && Escape(12 as char) == "\\f"
  {
  }

  lemma WideEscapeTexts()
    ensures Escape(31 as char) == "\\u001f" && Escape(127 as char) == "\\u007f" && Escape(0xE9 as char) == "\\u00e9"
  {
  }

  lemma PairEscapeText()
    ensures Escape(0x1F600 as char) == "\\ud83d\\ude00"
  {
  }

  lemma PlainTexts()
    ensures forall c: char | ' ' <= c <= '~' && c != '"' && c != '\\' :: Escape(c) == [c]
  {
  }

  lemma ArrayText()
    ensures Print(Arr([Int(1), Null])) == "[1,null]" && Print(Arr([])) == "[]"
  {
    ScalarTexts();
    var v := Arr([Int(1), Null]);
    assert PrintItems(v, 1) == "null";
    assert PrintItems(v, 0) == "1,null";
  }

  lemma QuotedLetters()
    ensures Quoted("a") == "\"a\"" && Quoted("b") == "\"b\"" && Quoted("x") == "\"x\""
  {
  }

  lemma ObjectText()
    ensures Print(Obj([Field("a", Bool(true)), Field("b", Str("x"))])) == "{\"a\":true,\"b\":\"x\"}"
    ensures Print(Obj([])) == "{}"
  {
    ScalarTexts();
    QuotedLetters();
    hide Quoted;
    var v := Obj([Field("a", Bool(true)), Field("b", Str("x"))]);
    assert PrintFields(v, 1) == "\"b\":\"x\"";
    assert PrintFields(v, 0) == "\"a\":true,\"b\":\"x\"";
  }

  // ------------------------------------------------------------------ which values have a text

  /** no list or object is nested more than n deep */
  predicate NestedWithin(v: Value, n: int) {
    match v
    case Arr(items) => n >= 0 && (items != [] ==> n > 0) && forall i | 0 <= i < |items| :: NestedWithin(items[i], n - 1)
    case Obj(fields) =>
      n >= 0 && (fields != [] ==> n > 0) && forall i | 0 <= i < |fields| :: NestedWithin(fields[i].value, n - 1)
    case _ => n >= 0
  }

  /** no list or object has more than this many members */
  predicate MembersWithin(v: Value, n: int) {
    match v
    case Arr(items) => |items| <= n && forall i | 0 <= i < |items| :: MembersWithin(items[i], n)
    case Obj(fields) => |fields| <= n && forall i | 0 <= i < |fields| :: MembersWithin(fields[i].value, n)
    case _ => true
  }

  predicate NoControls(s: string) {
    forall i | 0 <= i < |s| :: s[i] as int >= 0x20
  }

  /** no string or key holds a control character */
  predicate TextsClean(v: Value) {
    match v
    case Str(s) => NoControls(s)
    case Arr(items) => forall i | 0 <= i < |items| :: TextsClean(items[i])
    case Obj(fields) => forall i | 0 <= i < |fields| :: NoControls(fields[i].key) && TextsClean(fields[i].value)
    case _ => true
  }

  lemma SameCleanText(s: string)
    ensures CleanText(s) <==> NoControls(s)
  {
  }

  lemma {:induction false} ValidExactly(v: Value, depth: nat)
    ensures Json.Valid(v, depth) <==> NestedWithin(v, 32 - depth) && MembersWithin(v, 256) && TextsClean(v)
  {
    var n := 32 - depth;
    match v
    case Arr(items) =>
      forall i | 0 <= i < |items|
        ensures Json.Valid(items[i], depth + 1) <==>
                  NestedWithin(items[i], n - 1) && MembersWithin(items[i], 256) && TextsClean(items[i])
      {
        ValidExactly(items[i], depth + 1);
      }
      assert items != [] && n == 0 ==> !NestedWithin(items[0], n - 1);
    case Obj(fields) =>
      forall i | 0 <= i < |fields|
        ensures CleanText(fields[i].key) <==> NoControls(fields[i].key)
        ensures Json.Valid(fields[i].value, depth + 1) <==>
                  NestedWithin(fields[i].value, n - 1) && MembersWithin(fields[i].value, 256)
                  && TextsClean(fields[i].value)
      {
        ValidExactly(fields[i].value, depth + 1);
        SameCleanText(fields[i].key);
      }
      assert fields != [] && n == 0 ==> !NestedWithin(fields[0].value, n - 1);
    case Str(s) => SameCleanText(s);
    case _ =>
  }

  /** A value has a canonical text exactly when nothing in it is nested more than 32 deep, no list or object has more
      than 256 members, no text or key holds a control character, its numbers can be written and it fits a frame. */
  lemma WrittenExactly(v: Value)
    ensures Canonical(v).Some? <==>
              && NestedWithin(v, 32) && MembersWithin(v, 256) && TextsClean(v) && Printable(v)
              && 0 < |Print(v)| <= 262_144
  {
    hide NestedWithin, MembersWithin, TextsClean, Print, Printable, Json.Valid;
    ValidExactly(v, 0);
  }

  /** keys are sorted by code point, and a prefix comes first */
  lemma KeyOrder()
    ensures Less("a", "b") && Less("a", "aa") && Less("Z", "a") && Less("a_b", "aa") && !Less("a", "a")
  {
  }

  // ------------------------------------------------------------------ alphabets

  const UPPER := "ABCDEFGHIJKLMNOPQRSTUVWXYZ"
  const LOWER := "abcdefghijklmnopqrstuvwxyz"
  const BASE64 := UPPER + (LOWER + "0123456789-_")
  const BASE64_STANDARD := UPPER + (LOWER + "0123456789+/")
  const BASE32 := "abcdefghijklmnopqrstuvwxyz234567"
  const CROCKFORD := "0123456789ABCDEFGHJKMNPQRSTVWXYZ"

  lemma LetterAt(d: int, rest: string)
    requires 0 <= d < 64 && |rest| == 12
    ensures |UPPER| == 26 && |LOWER| == 26 && |UPPER + (LOWER + rest)| == 64
    ensures (UPPER + (LOWER + rest))[d] ==
              if d < 26 then ('A' as int + d) as char
              else if d < 52 then ('a' as int + d - 26) as char
              else rest[d - 52]
  {
    if d < 26 {
      assert (UPPER + (LOWER + rest))[d] == UPPER[d];
    } else if d < 52 {
      assert (UPPER + (LOWER + rest))[d] == LOWER[d - 26];
    }
  }

  /** the digits of the protocol's base32 and base64url, the ledger's base64 and the authentication string are the
      letters of their published alphabets, in order */
  lemma Alphabet64(d: int)
    requires 0 <= d < 64
    ensures |BASE64| == 64 && Char64(d) == BASE64[d]
  {
    LetterAt(d, "0123456789-_");
  }

  lemma AlphabetStd(d: int)
    requires 0 <= d < 64
    ensures |BASE64_STANDARD| == 64 && CharStd(d) == BASE64_STANDARD[d]
  {
    LetterAt(d, "0123456789+/");
  }

  lemma Alphabet32(d: int)
    requires 0 <= d < 32
    ensures Lower32(d) == BASE32[d]
  {
  }

  lemma AlphabetSas(d: int)
    requires 0 <= d < 32
    ensures Crockford(d) == CROCKFORD[d]
  {
  }

  lemma ThreeBytes(a: Byte, b: Byte, c: Byte)
    ensures FromDigits([a, b, c], 8) == (a * 256 + b) * 256 + c
  {
    Pow2Small();
    hide Pow2;
    assert [a, b, c][..2] == [a, b] && [a, b][..1] == [a] && [a][..0] == [];
    assert FromDigits([a], 8) == a;
    assert FromDigits([a, b], 8) == a * 256 + b;
  }

  lemma FourDigits(v: nat)
    ensures ToDigits(v, 4, 6) == [v / 64 / 64 / 64 % 64, v / 64 / 64 % 64, v / 64 % 64, v % 64]
  {
    Pow2Small();
    hide Pow2;
    assert ToDigits(v / 64 / 64 / 64, 1, 6) == [v / 64 / 64 / 64 % 64];
    assert ToDigits(v / 64 / 64, 2, 6) == [v / 64 / 64 / 64 % 64, v / 64 / 64 % 64];
    assert ToDigits(v / 64, 3, 6) == [v / 64 / 64 / 64 % 64, v / 64 / 64 % 64, v / 64 % 64];
  }

  lemma SixBits(a: Byte, b: Byte, c: Byte)
    ensures var v := (a * 256 + b) * 256 + c;
            && v % 64 == c % 64 && v / 64 % 64 == b % 16 * 4 + c / 64
            && v / 64 / 64 % 64 == a % 4 * 16 + b / 16 && v / 64 / 64 / 64 % 64 == a / 4
  {
    var v := (a * 256 + b) * 256 + c;
    assert v / 64 == (a * 256 + b) * 4 + c / 64;
    assert v / 64 / 64 == a * 16 + b / 16;
    assert v / 64 / 64 / 64 == a / 4;
  }

  /** one whole group of base64: three bytes give four digits of six bits, first bits first */
  lemma Group64(a: Byte, b: Byte, c: Byte)
    ensures Encode([a, b, c], 6) == [a / 4, a % 4 * 16 + b / 16, b % 16 * 4 + c / 64, c % 64]
  {
    hide ToDigits, FromDigits, Pow2;
    var raw: Bytes := [a, b, c];
    ThreeBytes(a, b, c);
    FourDigits((a * 256 + b) * 256 + c);
    SixBits(a, b, c);
    assert Plain(raw) == [a, b, c];
    assert Pow2(0) == 1 by { NoPower(); }
  }

  lemma NoPower()
    ensures Pow2(0) == 1
  {
  }

  // ------------------------------------------------------------------ the pairing transcript

  const HEX := "0123456789abcdef"

  lemma NibbleIsDigit(c: char)
    requires '0' <= c <= '9' || 'a' <= c <= 'f'
    ensures 0 <= Nibble(c) < 16 && HEX[Nibble(c)] == c
  {
  }

  lemma {:induction false} HexPairs(s: string, k: nat)
    requires IsHex(s) && 2 * k + 1 < |s|
    ensures FromHex(s)[k] == Nibble(s[2 * k]) * 16 + Nibble(s[2 * k + 1])
  {
    if k > 0 {
      HexPairs(s[2..], k - 1);
      assert FromHex(s)[1..] == FromHex(s[2..]);
    }
  }

  /** each byte of the leaf's fingerprint is the two digits that write it */
  lemma HexBytes(s: string, k: nat)
    requires IsHex(s) && 2 * k + 1 < |s|
    ensures s[2 * k] == HEX[FromHex(s)[k] / 16] && s[2 * k + 1] == HEX[FromHex(s)[k] % 16]
  {
    hide FromHex, Nibble;
    HexPairs(s, k);
    NibbleIsDigit(s[2 * k]);
    NibbleIsDigit(s[2 * k + 1]);
    TwoDigits(Nibble(s[2 * k]), Nibble(s[2 * k + 1]));
  }

  lemma TwoDigits(high: int, low: int)
    requires 0 <= high < 16 && 0 <= low < 16
    ensures (high * 16 + low) / 16 == high && (high * 16 + low) % 16 == low
  {
  }

  lemma LengthBytes(n: nat)
    requires n < 0x1_0000_0000
    ensures |Length4(n)| == 4 && Number(Length4(n)) == n
  {
    Places(n);
    var b := Length4(n);
    assert b[..4] == b && b[..4][..3] == b[..3] && b[..3][..2] == b[..2] && b[..2][..1] == b[..1] && b[..1][..0] == [];
    var x: int, y: int, z: int := b[0], b[1], b[2];
    assert Number(b[..1]) == x;
    assert Number(b[..2]) == x * 256 + y;
    assert Number(b[..3]) == (x * 256 + y) * 256 + z;
  }

  /** Where everything stands in the bytes both sides hash: the domain, then the init, the challenge and the 32 bytes of
      the leaf's fingerprint, each behind its length in four bytes, most significant first. */
  lemma PayloadLayout(domain: Bytes, init: Bytes, challenge: Bytes, leaf: string)
    requires |init| < 0x1_0000_0000 && |challenge| < 0x1_0000_0000 && IsHex(leaf) && |leaf| == 64
    ensures var p := Payload(domain, init, challenge, leaf);
            var i := |domain|;
            var j := i + 4 + |init|;
            var k := j + 4 + |challenge|;
            && |p| == k + 4 + 32
            && p[..i] == domain
            && Number(p[i..i + 4]) == |init| && p[i + 4..j] == init
            && Number(p[j..j + 4]) == |challenge| && p[j + 4..k] == challenge
            && Number(p[k..k + 4]) == 32 && p[k + 4..] == FromHex(leaf)
  {
    hide Length4, FromHex, IsHex, Number;
    var p := Payload(domain, init, challenge, leaf);
    var i := |domain|;
    var j := i + 4 + |init|;
    var k := j + 4 + |challenge|;
    LengthBytes(|init|);
    LengthBytes(|challenge|);
    LengthBytes(32);
    assert p[..i] == domain;
    assert p[i..i + 4] == Length4(|init|) && p[i + 4..j] == init;
    assert p[j..j + 4] == Length4(|challenge|) && p[j + 4..k] == challenge;
    assert p[k..k + 4] == Length4(32) && p[k + 4..] == FromHex(leaf);
  }

  // ------------------------------------------------------------------ the authentication string

  lemma {:induction false} NumberDetermines(a: Bytes, b: Bytes)
    requires |a| == |b|
    ensures Number(a) == Number(b) <==> a == b
  {
    if |a| > 0 {
      var n := |a| - 1;
      NumberDetermines(a[..n], b[..n]);
      assert a == a[..n] + [a[n]] && b == b[..n] + [b[n]];
    }
  }

  /** the first six bytes and two bits of the seventh */
  lemma FirstBits(hash: Bytes)
    requires |hash| == 32
    ensures First50(hash) == Number(hash[..6]) * 4 + hash[6] / 64
  {
    assert hash[..7][..6] == hash[..6];
  }

  /** Two hashes show the same string exactly when they agree on the first six bytes and the first two bits of the
      seventh. */
  lemma SasSharesBytes(a: Bytes, b: Bytes, x: string, y: string)
    requires |a| == 32 && |b| == 32 && IsSas(a, x) && IsSas(b, y)
    ensures x == y <==> a[..6] == b[..6] && a[6] / 64 == b[6] / 64
  {
    hide IsSas, First50, Number;
    SasSharesFiftyBits(a, b, x, y);
    FirstBits(a);
    FirstBits(b);
    NumberDetermines(a[..6], b[..6]);
  }

  lemma {:induction false} SymbolAt(ds: seq<int>, k: nat)
    requires Fives(ds) && k < |ds|
    ensures Symbols(ds)[k] == Crockford(ds[k])
  {
    assert Fives(ds[1..]);
    if k > 0 { SymbolAt(ds[1..], k - 1); }
  }

  /** and its last symbol holds the last five of those bits */
  lemma LastSymbol(hash: Bytes, sas: string)
    requires |hash| == 32 && IsSas(hash, sas)
    ensures |sas| == 11 && sas[5] == '-' && sas[10] == CROCKFORD[hash[5] % 8 * 4 + hash[6] / 64]
  {
    hide First50, Crockford, Number, Symbols;
    var ds := ToDigits(First50(hash), 10, 5);
    SymbolAt(ds, 9);
    LastDigit(First50(hash));
    FirstBits(hash);
    SixBytes(hash);
    AlphabetSas(ds[9]);
  }

  lemma LastDigit(v: nat)
    ensures ToDigits(v, 10, 5)[9] == v % 32
  {
    Pow2Small();
  }

  lemma SixBytes(hash: Bytes)
    requires |hash| == 32
    ensures (Number(hash[..6]) * 4 + hash[6] / 64) % 32 == hash[5] % 8 * 4 + hash[6] / 64
  {
    assert hash[..6][..5] == hash[..5];
    var n, b: int := Number(hash[..5]), hash[5];
    assert Number(hash[..6]) == n * 256 + b;
    hide Number;
    LowBits(n, b, hash[6] / 64);
  }

  lemma LowBits(n: int, b: int, q: int)
    requires 0 <= q < 4
    ensures ((n * 256 + b) * 4 + q) % 32 == b % 8 * 4 + q
  {
    assert (n * 256 + b) * 4 + q == 32 * (n * 32 + b / 8) + (b % 8 * 4 + q);
  }
}
