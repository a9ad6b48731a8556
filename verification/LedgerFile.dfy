/** Text lines in a byte file: bytes.splitlines, which breaks at \n, \r and \r\n and needs no break at the end,
    and the lines written with one \n each. */
module Lines {
  import opened Prelude

  const LF: Byte := 10
  const CR: Byte := 13

  predicate IsBreak(b: Byte) {
    b == LF || b == CR
  }

  /** where the first line ends */
  function LineEnd(raw: Bytes): (k: nat)
    ensures k <= |raw| && (k < |raw| ==> IsBreak(raw[k]))
    ensures forall i | 0 <= i < k :: !IsBreak(raw[i])
  {
    if raw == [] || IsBreak(raw[0]) then 0 else 1 + LineEnd(raw[1..])
  }

  /** how many bytes the break at this place has */
  function BreakLength(raw: Bytes, k: nat): nat
    requires k <= |raw|
  {
    if k == |raw| then 0 else if raw[k] == CR && k + 1 < |raw| && raw[k + 1] == LF then 2 else 1
  }

  function SplitLines(raw: Bytes): seq<Bytes> {
    if raw == [] then []
    else
      var k := LineEnd(raw);
      [raw[..k]] + SplitLines(raw[k + BreakLength(raw, k)..])
  }

  function Joined(lines: seq<Bytes>): Bytes {
    if lines == [] then [] else Joined(lines[..|lines| - 1]) + (lines[|lines| - 1] + [LF])
  }

  /** the last line is finished */
  predicate Whole(raw: Bytes) {
    raw == [] || IsBreak(raw[|raw| - 1])
  }

  /** a line that can be written: not empty, and without a break */
  predicate IsLine(line: Bytes) {
    line != [] && forall i | 0 <= i < |line| :: !IsBreak(line[i])
  }

  lemma {:induction false} LineEndIs(raw: Bytes, k: nat)
    requires k <= |raw| && (k < |raw| ==> IsBreak(raw[k])) && forall i | 0 <= i < k :: !IsBreak(raw[i])
    ensures LineEnd(raw) == k
  {
    if k > 0 {
      assert !IsBreak(raw[0]);
      LineEndIs(raw[1..], k - 1);
    }
  }

  lemma SplitStep(raw: Bytes, k: nat, n: nat)
    requires raw != [] && k == LineEnd(raw) && n == BreakLength(raw, k)
    ensures SplitLines(raw) == [raw[..k]] + SplitLines(raw[k + n..])
  {
  }

  /** a line, with its break or without, becomes the next line of a file whose last line is finished */
  lemma {:induction false} SplitAppend(raw: Bytes, line: Bytes, end: Bytes)
    requires Whole(raw) && IsLine(line) && (end == [] || end == [LF])
    ensures SplitLines(raw + (line + end)) == SplitLines(raw) + [line]
    decreases |raw|
  {
    hide SplitLines, LineEnd;
    var added := line + end;
    var full := raw + added;
    NoLines();
    if raw == [] {
      assert full == added;
      LineEndIs(added, |line|);
      SplitStep(added, |line|, |end|);
      assert added[..|line|] == line && added[|line| + |end|..] == [];
    } else {
      var k := LineEnd(raw);
      assert k < |raw|;
      var n := BreakLength(raw, k);
      assert forall i | 0 <= i < |raw| :: full[i] == raw[i];
      LineEndIs(full, k);
      assert k + 1 == |raw| ==> full[k + 1] == line[0];
      assert BreakLength(full, k) == n;
      SplitStep(raw, k, n);
      SplitStep(full, k, n);
      var rest := raw[k + n..];
      assert full[..k] == raw[..k] && full[k + n..] == rest + added;
      SplitAppend(rest, line, end);
    }
  }

  /** a line written behind an unfinished one is glued to it */
  lemma {:induction false} SplitGlues(raw: Bytes, line: Bytes)
    requires !Whole(raw) && IsLine(line)
    ensures SplitLines(raw) != []
    ensures var lines := SplitLines(raw);
            SplitLines(raw + (line + [LF])) == lines[..|lines| - 1] + [lines[|lines| - 1] + line]
    decreases |raw|
  {
    hide SplitLines, LineEnd;
    var added := line + [LF];
    var full := raw + added;
    assert forall i | 0 <= i < |raw| :: full[i] == raw[i];
    var k := LineEnd(raw);
    var n := BreakLength(raw, k);
    SplitStep(raw, k, n);
    NoLines();
    if k == |raw| {
      assert forall i | 0 <= i < |line| :: full[|raw| + i] == line[i];
      LineEndIs(full, |raw| + |line|);
      SplitStep(full, |raw| + |line|, 1);
      assert full[..|raw| + |line|] == raw + line && full[|raw| + |line| + 1..] == [];
      assert raw[..k] == raw && raw[k..] == [];
    } else {
      assert k + 1 < |raw|;
      LineEndIs(full, k);
      assert BreakLength(full, k) == n;
      SplitStep(full, k, n);
      var rest := raw[k + n..];
      assert full[..k] == raw[..k] && full[k + n..] == rest + added;
      assert rest != [] && rest[|rest| - 1] == raw[|raw| - 1];
      SplitGlues(rest, line);
    }
  }

  lemma NoLines()
    ensures SplitLines([]) == []
  {
  }

  /** lines that were written are the lines of the file */
  lemma {:induction false} SplitJoined(lines: seq<Bytes>)
    requires forall i | 0 <= i < |lines| :: IsLine(lines[i])
    ensures SplitLines(Joined(lines)) == lines && Whole(Joined(lines))
  {
    hide SplitLines, IsLine;
    if lines == [] {
      NoLines();
    } else {
      var front, last := lines[..|lines| - 1], lines[|lines| - 1];
      SplitJoined(front);
      SplitAppend(Joined(front), last, [LF]);
      assert lines == front + [last];
    }
  }
}

/** The ledger's file (connector/audit.py): the same operations on its bytes, and how they refine the ones on
    whole lines. */
module LedgerFile {
  import opened Prelude
  import opened Limits
  import opened Errors
  import opened Records
  import opened Json
  import opened Schema
  import opened Receipts
  import opened Wire
  import opened RecordConstructors
  import opened Ledger
  import opened Lines

  /** _read_records; None where it raises */
  function ReadFile(g: Config, file: Bytes): Option<seq<Evidence>> {
    if |file| > MAX_LEDGER_BYTES then None else Verified(g, SplitLines(file))
  }

  /** append_verified: the new bytes, and the record */
  function AppendFile(g: Config, file: Bytes, receipt: SignedReceipt, request: SignedRequest, now: int)
    : (Bytes, Reply<Evidence>)
  {
    var check := VerifyReceipt(g.env.crypto, receipt, request, now);
    if !check.Good? then (file, Raised(CheckCode(check)))
    else
      var rs := ReadFile(g, file);
      if rs.None? then (file, Rejected)
      else
        match NewRecord(g, rs.value, receipt, now)
        case Raised(code) => (file, Raised(code))
        case Rejected => (file, Rejected)
        case Done((e, line)) =>
          if |file| + |line| + 1 > MAX_LEDGER_BYTES then (file, Rejected) else (file + (line + [LF]), Done(e))
  }

  /** prune: the new bytes, and how many records went */
  function PruneFile(g: Config, file: Bytes, now: int): (Bytes, Reply<int>) {
    if !IsTimestamp(now) then (file, Rejected)
    else
      var rs := ReadFile(g, file);
      if rs.None? then (file, Rejected)
      else
        var retained := Recent(rs.value, Max(0, now - RETENTION_SECONDS));
        var removed := |rs.value| - |retained|;
        if removed == 0 then (file, Done(0))
        else
          var linked := Rechained(g, retained);
          if linked.None? then (file, Rejected)
          else
            var rewritten := SerializeAll(linked.value);
            if rewritten.None? then (file, Rejected) else (Joined(rewritten.value), Done(removed))
  }

  // ------------------------------------------------------------------ files the ledger wrote itself

  predicate Writable(lines: seq<Bytes>) {
    forall i | 0 <= i < |lines| :: IsLine(lines[i])
  }

  /** a serialized record is one visible line that starts with a brace */
  lemma SerializedIsLine(e: Evidence)
    requires Serialize(e).Some?
    ensures IsLine(Serialize(e).value) && Serialize(e).value[0] == '{' as int
  {
    hide EncodeSigned, Print, Json.Valid, Printable;
    var receipt := SerializedReceipt(e);
    var v := Object(EVIDENCE_KEYS, Slots(e, receipt));
    PrintVisible(v);
    OpensWithBrace(v);
    var line := Serialize(e).value;
    assert line == AsBytes(Print(v));
    forall i | 0 <= i < |line| ensures !IsBreak(line[i]) { assert ' ' <= Print(v)[i] <= '~'; }
  }

  lemma OpensWithBrace(v: Value)
    requires v.Obj?
    ensures Print(v) != "" && Print(v)[0] == '{'
  {
  }

  lemma {:induction false} SerializedAreLines(rs: seq<Evidence>)
    requires SerializeAll(rs).Some?
    ensures Writable(SerializeAll(rs).value)
  {
    hide Serialize, IsLine;
    if rs != [] {
      SerializedAreLines(rs[..|rs| - 1]);
      SerializedIsLine(rs[|rs| - 1]);
    }
  }

  lemma {:induction false} JoinedSize(lines: seq<Bytes>)
    ensures |Joined(lines)| == FileSize(lines)
  {
    if lines != [] { JoinedSize(lines[..|lines| - 1]); }
  }

  lemma OwnFileReads(g: Config, lines: seq<Bytes>)
    requires Writable(lines)
    ensures ReadFile(g, Joined(lines)) == ReadRecords(g, lines)
  {
    hide Verified, FileSize, SplitLines, Joined, IsLine;
    SplitJoined(lines);
    JoinedSize(lines);
  }

  /** On a file that is written lines, appending is appending to those lines. */
  lemma OwnFileAppends(g: Config, lines: seq<Bytes>, receipt: SignedReceipt, request: SignedRequest, now: int)
    requires Writable(lines)
    ensures var (lines', reply) := Append(g, lines, receipt, request, now);
            Writable(lines') && AppendFile(g, Joined(lines), receipt, request, now) == (Joined(lines'), reply)
  {
    hide ReadFile, ReadRecords, NewRecord, VerifyReceipt, IsLine, FileSize, Joined, Writable;
    OwnFileReads(g, lines);
    JoinedSize(lines);
    var rs := ReadRecords(g, lines);
    if rs.Some? && NewRecord(g, rs.value, receipt, now).Done? {
      NewLine(g, rs.value, receipt, now);
      JoinedOne(lines, NewRecord(g, rs.value, receipt, now).value.1);
    }
  }

  /** On a file that is written lines, pruning is pruning those lines. */
  lemma OwnFilePrunes(g: Config, lines: seq<Bytes>, now: int)
    requires Writable(lines)
    ensures var (lines', reply) := Prune(g, lines, now);
            Writable(lines') && PruneFile(g, Joined(lines), now) == (Joined(lines'), reply)
  {
    hide ReadFile, ReadRecords, Recent, Rechained, SerializeAll, Joined, Writable;
    OwnFileReads(g, lines);
    var rs := ReadRecords(g, lines);
    if rs.Some? {
      var linked := Rechained(g, Recent(rs.value, Max(0, now - RETENTION_SECONDS)));
      if linked.Some? && SerializeAll(linked.value).Some? { SerializedAreLines(linked.value); }
    }
  }

  lemma NewLine(g: Config, rs: seq<Evidence>, receipt: SignedReceipt, now: int)
    requires NewRecord(g, rs, receipt, now).Done?
    ensures var (e, line) := NewRecord(g, rs, receipt, now).value;
            Serialize(e) == Some(line) && IsLine(line) && line[0] == '{' as int
  {
    hide Serialize, HashOf, AlreadyThere, IsLine;
    SerializedIsLine(NewRecord(g, rs, receipt, now).value.0);
  }

  lemma JoinedOne(lines: seq<Bytes>, line: Bytes)
    requires Writable(lines) && IsLine(line)
    ensures Joined(lines + [line]) == Joined(lines) + (line + [LF]) && Writable(lines + [line])
  {
    hide IsLine;
    assert (lines + [line])[..|lines|] == lines;
  }

  function StepFile(g: Config, file: Bytes, op: Op): Bytes {
    match op
    case AppendOp(receipt, request, now) => AppendFile(g, file, receipt, request, now).0
    case PruneOp(now) => PruneFile(g, file, now).0
  }

  /** the bytes after the first n operations on an empty file */
  function BytesAfter(g: Config, ops: seq<Op>, n: nat): Bytes
    requires n <= |ops|
  {
    if n == 0 then [] else StepFile(g, BytesAfter(g, ops, n - 1), ops[n - 1])
  }

  /** Over any run, the bytes are the written lines, so every result about runs on lines is one about the
      file, and the file's last line is always finished. */
  lemma {:induction false} RunRefines(g: Config, ops: seq<Op>, n: nat)
    requires n <= |ops|
    ensures Writable(FileAfter(g, ops, n))
    ensures BytesAfter(g, ops, n) == Joined(FileAfter(g, ops, n)) && Whole(BytesAfter(g, ops, n))
  {
    hide AppendFile, PruneFile, Append, Prune, Writable, Whole, Joined;
    if n == 0 {
      NothingJoined();
    } else {
      RunRefines(g, ops, n - 1);
      match ops[n - 1]
      case AppendOp(receipt, request, now) => OwnFileAppends(g, FileAfter(g, ops, n - 1), receipt, request, now);
      case PruneOp(now) => OwnFilePrunes(g, FileAfter(g, ops, n - 1), now);
    }
    OwnFileSplits(FileAfter(g, ops, n));
  }

  /** Whatever is appended, refused or pruned, the ledger can read the file it wrote, and reads the records
      of its lines. */
  lemma FileAlwaysReads(g: Config, ops: seq<Op>, n: nat)
    requires HexHashes(g) && n <= |ops| && forall i | 0 <= i < n :: Genuine(g, ops[i])
    ensures ReadFile(g, BytesAfter(g, ops, n)).Some?
    ensures ReadFile(g, BytesAfter(g, ops, n)) == ReadRecords(g, FileAfter(g, ops, n))
  {
    hide ReadFile, ReadRecords, Writable, Joined, Whole, Step, StepFile, HexHashes, Genuine;
    AlwaysReadable(g, ops, n);
    RunRefines(g, ops, n);
    OwnFileReads(g, FileAfter(g, ops, n));
  }

  lemma NothingJoined()
    ensures Joined([]) == [] && Writable([])
  {
  }

  lemma OwnFileSplits(lines: seq<Bytes>)
    requires Writable(lines)
    ensures Whole(Joined(lines)) && SplitLines(Joined(lines)) == lines
  {
    SplitJoined(lines);
  }

  // ------------------------------------------------------------------ appending to any file

  lemma {:induction false} SplitSize(raw: Bytes)
    requires Whole(raw)
    ensures FileSize(SplitLines(raw)) <= |raw|
    decreases |raw|
  {
    hide SplitLines, LineEnd;
    NoLines();
    if raw != [] {
      var k := LineEnd(raw);
      var n := BreakLength(raw, k);
      SplitStep(raw, k, n);
      var rest := raw[k + n..];
      assert rest != [] ==> rest[|rest| - 1] == raw[|raw| - 1];
      SplitSize(rest);
      SizeFront(raw[..k], SplitLines(rest));
    }
  }

  lemma {:induction false} SizeFront(line: Bytes, lines: seq<Bytes>)
    ensures FileSize([line] + lines) == |line| + 1 + FileSize(lines)
  {
    if lines == [] {
      assert ([line] + lines)[..0] == [];
    } else {
      assert ([line] + lines)[..|lines|] == [line] + lines[..|lines| - 1];
      SizeFront(line, lines[..|lines| - 1]);
    }
  }

  /** two canonical objects on one line are no canonical line */
  lemma GluedDoesNotParse(g: Config, last: Bytes, line: Bytes)
    requires ParseLine(g, last).Some? && line != [] && line[0] == '{' as int
    ensures ParseLine(g, last + line).None?
  {
    hide Load, StdDecode, ParseSigned, IsHash;
    GluedDoesNotLoad(last, line);
  }

  lemma GluedDoesNotLoad(last: Bytes, line: Bytes)
    requires Load(last, MAX_FRAME_BYTES).Some? && Load(last, MAX_FRAME_BYTES).value.Obj?
    requires line != [] && line[0] == '{' as int
    ensures Load(last + line, MAX_FRAME_BYTES).None?
  {
    hide Print, ParseValue, Json.Valid, Printable, IsDict, DecodeUtf8, SkipSpace;
    var v := Load(last, MAX_FRAME_BYTES).value;
    LoadedIsSane(last, MAX_FRAME_BYTES);
    LoadsExactlyCanonical(last, MAX_FRAME_BYTES, v);
    var again := Load(last + line, MAX_FRAME_BYTES);
    if again.Some? {
      LoadedIsSane(last + line, MAX_FRAME_BYTES);
      LoadsExactlyCanonical(last + line, MAX_FRAME_BYTES, again.value);
      var a, b := Print(v), Print(again.value);
      AsBytesPrefix(a, b, last, line);
      OnlyOneObject(v, again.value, b[|a|..]);
    }
  }

  lemma AsBytesPrefix(a: string, b: string, last: Bytes, line: Bytes)
    requires IsAscii(a) && IsAscii(b) && AsBytes(a) == last && AsBytes(b) == last + line
    ensures |a| <= |b| && b == a + b[|a|..] && |b| - |a| == |line|
    ensures line != [] ==> b[|a|] as int == line[0]
  {
    var x, y := AsBytes(a), AsBytes(b);
    hide AsBytes, IsAscii;
    assert |x| == |a| && |y| == |b| == |a| + |line|;
    forall i | 0 <= i < |a| ensures a[i] == b[i] {
      assert y[i] == x[i];
      SameChar(a[i], b[i], x[i]);
    }
    assert b == a + b[|a|..];
    if line != [] { assert y[|a|] == line[0]; }
  }

  lemma SameChar(a: char, b: char, n: int)
    requires a as int == n && b as int == n
    ensures a == b
  {
  }

  /** no printed value is a printed object and more */
  lemma OnlyOneObject(v: Value, w: Value, rest: string)
    requires v.Obj? && IsDict(v) && Printable(v) && IsDict(w) && Printable(w)
    requires Print(w) == Print(v) + rest
    ensures rest == ""
  {
    hide Print, ParseValue, IsDict, Printable;
    ValueParses(v, rest);
    OpensWithBrace(v);
    if w.Int? { IntOpens(w); }
    ValueParses(w, "");
    assert Print(w) + "" == Print(w);
  }

  lemma IntOpens(w: Value)
    requires w.Int?
    ensures Print(w)[0] != '{'
  {
    hide Print;
    PrintStarts(w);
  }

  /** A successful append reads back exactly when the file's last line was finished. Reading accepts a last
      line without its break, and then the new line is glued to it and the file can no longer be read. */
  lemma AppendFileExactly(
    g: Config, file: Bytes, receipt: SignedReceipt, request: SignedRequest, now: int, rs: seq<Evidence>)
    requires HexHashes(g) && SignedConstructs(g.env, ReceiptRecord(receipt))
    requires g.env.crypto.digest(ReceiptRecord(receipt)) != ""
    requires ReadFile(g, file) == Some(rs) && AppendFile(g, file, receipt, request, now).1.Done?
    ensures var (file', reply) := AppendFile(g, file, receipt, request, now);
            && reply.value.receipt == receipt && reply.value.recordedAt == now
            && (ReadFile(g, file') == Some(rs + [reply.value]) <==> Whole(file))
            && (ReadFile(g, file').None? <==> !Whole(file))
  {
    hide HexHashes, SignedConstructs, ParseLine, VerifyReceipt, Chained, SplitLines, Serialize, HashOf, AlreadyThere,
         FileSize, Whole, Last;
    var lines := SplitLines(file);
    var (e, line) := NewRecord(g, rs, receipt, now).value;
    hide NewRecord;
    NewLine(g, rs, receipt, now);
    NewRecordIs(g, rs, receipt, now);
    if Whole(file) {
      SplitAppend(file, line, [LF]);
      SplitSize(file);
      AppendReadsBack(g, lines, receipt, request, now, rs);
    } else {
      SplitGlues(file, line);
      LastParses(g, lines);
      GluedDoesNotParse(g, lines[|lines| - 1], line);
      BadLastLine(g, lines[..|lines| - 1], lines[|lines| - 1] + line);
    }
  }

  /** the record of this receipt at this time, after these, still without its own hash */
  function DraftOf(g: Config, rs: seq<Evidence>, receipt: SignedReceipt, now: int): Evidence {
    Evidence(g.role, now, receipt, g.env.crypto.digest(ReceiptRecord(receipt)),
             if rs == [] then "" else rs[|rs| - 1].recordHash, "")
  }

  /** Every answer of an append, in the order of its checks: a receipt that does not verify for the request now, a file
      that does not read, a receipt or digest recorded before, a full ledger or a time before the last record's, a
      record that cannot be written or does not fit; and otherwise the record and its line at the end. */
  lemma AppendDecides(g: Config, file: Bytes, receipt: SignedReceipt, request: SignedRequest, now: int)
    ensures var (file', reply) := AppendFile(g, file, receipt, request, now);
            var check := VerifyReceipt(g.env.crypto, receipt, request, now);
            if !check.Good? then
              && file' == file
              && reply == Raised(match check
                                 case ContextMismatch => ReceiptContextMismatch
                                 case ReceiptTooLate => ReceiptExpired
                                 case _ => ReceiptInvalid)
            else if ReadFile(g, file).None? then file' == file && reply == Rejected
            else
              var rs := ReadFile(g, file).value;
              if exists i :: 0 <= i < |rs| && (rs[i].receipt.receiptId == receipt.receiptId
                                               || rs[i].receiptDigest == g.env.crypto.digest(ReceiptRecord(receipt)))
              then file' == file && reply == Raised(ReceiptReplayed)
              else if |rs| >= 100_000 || !IsTimestamp(now) || (rs != [] && now < rs[|rs| - 1].recordedAt)
              then file' == file && reply == Rejected
              else
                var draft := DraftOf(g, rs, receipt, now);
                if Serialize(draft).None? then file' == file && reply == Rejected
                else
                  var e := draft.(recordHash := g.hash(Serialize(draft).value));
                  if Serialize(e).None? || |file| + |Serialize(e).value| + 1 > 64 * 1024 * 1024
                  then file' == file && reply == Rejected
                  else file' == file + Serialize(e).value + [LF] && reply == Done(e)
  {
    hide ReadFile, VerifyReceipt, Serialize;
    var rs := ReadFile(g, file);
    if rs.Some? {
      var draft := DraftOf(g, rs.value, receipt, now);
      assert draft.(recordHash := "") == draft;
      if Serialize(draft).Some? {
        var e := draft.(recordHash := g.hash(Serialize(draft).value));
        if Serialize(e).Some? { assert file + Serialize(e).value + [LF] == file + (Serialize(e).value + [LF]); }
      }
    }
  }

  /** Pruning succeeds exactly at a representable time on a file that reads. */
  lemma PruneFileSucceeds(g: Config, file: Bytes, now: int)
    requires HexHashes(g)
    ensures PruneFile(g, file, now).1.Done? <==> IsTimestamp(now) && ReadFile(g, file).Some?
  {
    hide HexHashes, Recent, Rechained, SerializeAll, ParseLines, Chained, SplitLines, FileSize;
    if IsTimestamp(now) && ReadFile(g, file).Some? {
      var lines := SplitLines(file);
      var rs := ReadFile(g, file).value;
      ParseLinesLength(g, lines);
      ChainOrdered(g, rs);
      var k := RecentIsSuffix(rs, Max(0, now - RETENTION_SECONDS));
      RechainsAndSerializes(g, lines, rs, k, |rs|);
      assert rs[k..] == rs[k..|rs|];
    }
  }

  /** Such files are real: what the ledger wrote, cut short by its very last byte, still reads the same. */
  lemma UnfinishedStillReads(g: Config, front: seq<Bytes>, last: Bytes)
    requires Writable(front) && IsLine(last)
    ensures var file := Joined(front + [last]);
            && file != [] && !Whole(file[..|file| - 1])
            && (ReadFile(g, file).Some? ==> ReadFile(g, file[..|file| - 1]) == ReadFile(g, file))
  {
    hide Verified, SplitLines, Joined, IsLine, Whole, Writable;
    JoinedOne(front, last);
    OwnFileSplits(front);
    OwnFileSplits(front + [last]);
    CutLast(Joined(front), last, front);
  }

  lemma CutLast(raw: Bytes, line: Bytes, before: seq<Bytes>)
    requires Whole(raw) && IsLine(line) && SplitLines(raw) == before
    ensures var file := raw + (line + [LF]);
            !Whole(file[..|file| - 1]) && SplitLines(file[..|file| - 1]) == before + [line]
  {
    hide SplitLines;
    DropLast(raw, line);
    SplitAppend(raw, line, []);
    assert line + [] == line;
  }

  lemma DropLast(raw: Bytes, line: Bytes)
    requires IsLine(line)
    ensures var file := raw + (line + [LF]);
            file[..|file| - 1] == raw + line && !Whole(raw + line)
  {
    assert (raw + line)[|raw| + |line| - 1] == line[|line| - 1];
  }

  lemma NewRecordIs(g: Config, rs: seq<Evidence>, receipt: SignedReceipt, now: int)
    requires NewRecord(g, rs, receipt, now).Done?
    ensures NewRecord(g, rs, receipt, now).value.0.receipt == receipt
    ensures NewRecord(g, rs, receipt, now).value.0.recordedAt == now
  {
    hide Serialize, HashOf, AlreadyThere;
  }

  lemma LastParses(g: Config, lines: seq<Bytes>)
    requires ParseLines(g, lines).Some? && lines != []
    ensures ParseLine(g, lines[|lines| - 1]).Some?
  {
    hide ParseLine;
  }

  lemma BadLastLine(g: Config, front: seq<Bytes>, line: Bytes)
    requires ParseLine(g, line).None?
    ensures Verified(g, front + [line]).None?
  {
    hide ParseLine, Chained;
    assert (front + [line])[..|front|] == front;
  }

  // ------------------------------------------------------------------ the ledger object

  class ReceiptEvidenceLedger {
    const g: Config
    var file: Bytes

    constructor (g: Config)
      ensures this.g == g && file == []
    {
      this.g, file := g, [];
    }

    /** _read_records: split the bytes, parse every line, then walk the chain with the running hash, the
        identifiers and digests seen so far, and the running time. */
    method Read() returns (result: Option<seq<Evidence>>)
      ensures result == ReadFile(g, file)
    {
      hide ParseLine, HashOf, SplitLines;
      if |file| > MAX_LEDGER_BYTES { return None; }
      var lines := SplitLines(file);
      if |lines| > MAX_EVIDENCE_RECORDS { return None; }
      var records := ParseAll(lines);
      if records.None? { return None; }
      var chained := Walk(records.value);
      return if chained then records else None;
    }

    method Walk(rs: seq<Evidence>) returns (ok: bool)
      ensures ok <==> Chained(g, rs)
    {
      hide HashOf, Chained, Last;
      var previousHash, previousTime := "", 0;
      var seenIds: set<Id>, seenDigests: set<string> := {}, {};
      var i := 0;
      EmptyWalk(g);
      assert rs[..0] == [];
      while i < |rs|
        invariant 0 <= i <= |rs|
        invariant Chained(g, rs[..i]) && Walked(rs[..i], previousHash, previousTime, seenIds, seenDigests)
      {
        var e := rs[i];
        WalkStep(g, rs[..i], e, previousHash, previousTime, seenIds, seenDigests);
        if !g.env.crypto.verifies(g.env.crypto.connectorKey, ReceiptRecord(e.receipt))
           || e.role != g.role || e.previousHash != previousHash || HashOf(g, e) != Some(e.recordHash)
           || e.receipt.receiptId in seenIds || e.receiptDigest in seenDigests || e.recordedAt < previousTime {
          Broken(g, rs, i);
          return false;
        }
        hide Walked, Follows;
        ChainGrows(g, rs[..i], e);
        assert rs[..i + 1] == rs[..i] + [e];
        previousHash, previousTime := e.recordHash, e.recordedAt;
        seenIds, seenDigests := seenIds + {e.receipt.receiptId}, seenDigests + {e.receiptDigest};
        i := i + 1;
      }
      assert rs[..|rs|] == rs;
      return true;
    }

    method ParseAll(lines: seq<Bytes>) returns (result: Option<seq<Evidence>>)
      ensures result == ParseLines(g, lines)
    {
      hide ParseLine;
      var rs: seq<Evidence> := [];
      for i := 0 to |lines|
        invariant ParseLines(g, lines[..i]) == Some(rs)
      {
        assert lines[..i + 1][..i] == lines[..i];
        var e := ParseLine(g, lines[i]);
        if e.None? {
          UnparsedPrefix(g, lines, i + 1);
          return None;
        }
        rs := rs + [e.value];
      }
      assert lines[..|lines|] == lines;
      return Some(rs);
    }

    method AppendVerified(receipt: SignedReceipt, request: SignedRequest, now: int) returns (reply: Reply<Evidence>)
      modifies this`file
      ensures (file, reply) == AppendFile(g, old(file), receipt, request, now)
    {
      hide ReadFile, VerifyReceipt, HashOf, Serialize, Last;
      var check := VerifyReceipt(g.env.crypto, receipt, request, now);
      if !check.Good? { return Raised(CheckCode(check)); }
      var records := Read();
      if records.None? { return Rejected; }
      var rs := records.value;
      var digest := g.env.crypto.digest(ReceiptRecord(receipt));
      if AlreadyThere(rs, receipt, digest) { return Raised(ReceiptReplayed); }
      if |rs| >= MAX_EVIDENCE_RECORDS { return Rejected; }
      if !IsTimestamp(now) || (rs != [] && now < rs[|rs| - 1].recordedAt) { return Rejected; }
      var record := Evidence(g.role, now, receipt, digest, Last(rs), "");
      var hash := HashOf(g, record);
      if hash.None? { return Rejected; }
      record := record.(recordHash := hash.value);
      var line := Serialize(record);
      if line.None? || |file| + |line.value| + 1 > MAX_LEDGER_BYTES { return Rejected; }
      file := file + (line.value + [LF]);
      return Done(record);
    }

    /** _rechain */
    method Rechain(rs: seq<Evidence>) returns (result: Option<seq<Evidence>>)
      ensures result == Rechained(g, rs)
    {
      hide Relink;
      var linked: seq<Evidence> := [];
      var previousHash := "";
      for i := 0 to |rs|
        invariant Rechained(g, rs[..i]) == Some(linked) && previousHash == Last(linked)
      {
        assert rs[..i + 1][..i] == rs[..i];
        var e := Relink(g, rs[i], previousHash);
        if e.None? {
          UnlinkedPrefix(g, rs, i + 1);
          return None;
        }
        linked := linked + [e.value];
        previousHash := e.value.recordHash;
      }
      assert rs[..|rs|] == rs;
      return Some(linked);
    }

    method PruneBefore(now: int) returns (reply: Reply<int>)
      modifies this`file
      ensures (file, reply) == PruneFile(g, old(file), now)
    {
      hide ReadFile, Rechained, SerializeAll;
      if !IsTimestamp(now) { return Rejected; }
      var cutoff := Max(0, now - RETENTION_SECONDS);
      var records := Read();
      if records.None? { return Rejected; }
      var rs := records.value;
      var retained: seq<Evidence> := [];
      for i := 0 to |rs|
        invariant retained == Recent(rs[..i], cutoff)
      {
        assert rs[..i + 1][..i] == rs[..i];
        if rs[i].recordedAt >= cutoff { retained := retained + [rs[i]]; }
      }
      assert rs[..|rs|] == rs;
      var removed := |rs| - |retained|;
      if removed == 0 { return Done(0); }
      var linked := Rechain(retained);
      if linked.None? { return Rejected; }
      var rewritten := SerializeAll(linked.value);
      if rewritten.None? { return Rejected; }
      file := Joined(rewritten.value);
      return Done(removed);
    }
  }

  /** what the variables of the walk say about the records behind it */
  ghost predicate Walked(before: seq<Evidence>, hash: string, time: int, ids: set<Id>, digests: set<string>) {
    && hash == Last(before)
    && time == (if before == [] then 0 else before[|before| - 1].recordedAt)
    && (forall id :: id in ids <==> exists j :: 0 <= j < |before| && before[j].receipt.receiptId == id)
    && (forall d :: d in digests <==> exists j :: 0 <= j < |before| && before[j].receiptDigest == d)
  }

  lemma EmptyWalk(g: Config)
    ensures Chained(g, []) && Walked([], "", 0, {}, {})
  {
  }

  lemma WalkStep(
    g: Config, before: seq<Evidence>, e: Evidence, hash: string, time: int, ids: set<Id>, digests: set<string>)
    requires Walked(before, hash, time, ids, digests)
    ensures Follows(g, before, e) <==>
              && g.env.crypto.verifies(g.env.crypto.connectorKey, ReceiptRecord(e.receipt)) && e.role == g.role
              && e.previousHash == hash && HashOf(g, e) == Some(e.recordHash)
              && e.receipt.receiptId !in ids && e.receiptDigest !in digests && time <= e.recordedAt
    ensures Walked(before + [e], e.recordHash, e.recordedAt, ids + {e.receipt.receiptId}, digests + {e.receiptDigest})
  {
    hide HashOf;
    var all := before + [e];
    assert all[|before|] == e;
    forall id
      ensures id in ids + {e.receipt.receiptId}
              <==> exists j :: 0 <= j < |all| && all[j].receipt.receiptId == id
    {
      if j :| 0 <= j < |before| && before[j].receipt.receiptId == id { assert all[j].receipt.receiptId == id; }
    }
    forall d ensures d in digests + {e.receiptDigest} <==> exists j :: 0 <= j < |all| && all[j].receiptDigest == d {
      if j :| 0 <= j < |before| && before[j].receiptDigest == d { assert all[j].receiptDigest == d; }
    }
  }

  lemma Broken(g: Config, rs: seq<Evidence>, i: nat)
    requires i < |rs| && !Follows(g, rs[..i], rs[i])
    ensures !Chained(g, rs)
  {
  }

  lemma {:induction false} UnparsedPrefix(g: Config, lines: seq<Bytes>, n: nat)
    requires n <= |lines| && ParseLines(g, lines[..n]).None?
    ensures ParseLines(g, lines).None?
    decreases |lines| - n
  {
    hide ParseLine;
    if n < |lines| {
      assert lines[..n + 1][..n] == lines[..n];
      UnparsedPrefix(g, lines, n + 1);
    } else {
      assert lines[..n] == lines;
    }
  }

  lemma {:induction false} UnlinkedPrefix(g: Config, rs: seq<Evidence>, n: nat)
    requires n <= |rs| && Rechained(g, rs[..n]).None?
    ensures Rechained(g, rs).None?
    decreases |rs| - n
  {
    hide Relink;
    if n < |rs| {
      assert rs[..n + 1][..n] == rs[..n];
      UnlinkedPrefix(g, rs, n + 1);
    } else {
      assert rs[..n] == rs;
    }
  }
}
