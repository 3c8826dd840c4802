/**
 The event-chain verifier of norax/verify_event_chain.py. JSON, UTF-8 and SHA-256 are abstract:
 `Codec.read` gives the meaning of one line and `Codec.digest` the hash of a string.
 */
module EventChain {
  import opened Common

  type Bytes = seq<bv8>

  const MAX_EVENT_LINE_BYTES: nat := 4 * 1024 * 1024
  const MAX_EVENT_FILE_BYTES: nat := 256 * 1024 * 1024
  const NEWLINE: bv8 := 10

  /** `hash` and `prev` are None when missing or not strings; `body` is the canonical encoding of
      the object without its hash, None when it cannot be encoded. */
  datatype Record = Record(hash: Option<string>, prev: Option<string>, body: Option<string>)

  datatype Line = TooLong | BadUtf8 | Blank | BadJson | NotObject | Entry(record: Record)

  datatype Codec = Codec(read: Bytes -> Line, digest: string -> string)

  predicate HexDigit(c: char) {
    '0' <= c <= '9' || 'a' <= c <= 'f'
  }

  predicate ValidHash(value: Option<string>) {
    value.Some? && |value.value| == 64 && forall i | 0 <= i < 64 :: HexDigit(value.value[i])
  }

  /** The tail hash of a log without records. */
  function Zeros(n: nat): (s: string)
    ensures |s| == n && forall i | 0 <= i < n :: s[i] == '0'
  {
    seq(n, _ => '0')
  }

  // ----- physical lines -----

  /** Where the line that starts at `from` ends, its newline included. */
  function LineEnd(content: Bytes, from: nat): (end: nat)
    requires from < |content|
    ensures from < end <= |content|
    ensures forall i | from <= i < end - 1 :: content[i] != NEWLINE
    ensures end < |content| ==> content[end - 1] == NEWLINE
    decreases |content| - from
  {
    if content[from] == NEWLINE || from + 1 == |content| then from + 1 else LineEnd(content, from + 1)
  }

  function LinesFrom(content: Bytes, from: nat): seq<Bytes>
    requires from <= |content|
    decreases |content| - from
  {
    if from == |content| then []
    else
      var end := LineEnd(content, from);
      [content[from..end]] + LinesFrom(content, end)
  }

  function Meaning(codec: Codec, raw: Bytes): Line {
    if |raw| > MAX_EVENT_LINE_BYTES then TooLong else codec.read(raw)
  }

  function Meanings(codec: Codec, raws: seq<Bytes>): (lines: seq<Line>)
    ensures |lines| == |raws| && forall i | 0 <= i < |raws| :: lines[i] == Meaning(codec, raws[i])
  {
    if raws == [] then [] else [Meaning(codec, raws[0])] + Meanings(codec, raws[1..])
  }

  function LogLines(codec: Codec, content: Bytes): seq<Line> {
    Meanings(codec, LinesFrom(content, 0))
  }

  /** One `readline(size)`: up to `size` bytes, never past a newline. */
  function ReadLine(content: Bytes, from: nat, size: nat): (raw: Bytes)
    requires from <= |content|
    ensures from + |raw| <= |content|
    ensures from < |content| ==>
      from + |raw| == (if from + size < LineEnd(content, from) then from + size else LineEnd(content, from))
  {
    if from == |content| then []
    else
      var end := LineEnd(content, from);
      content[from..if from + size < end then from + size else end]
  }

  // ----- the scan -----

  datatype ErrorKind =
    | LineTooLarge
    | InvalidUtf8
    | JsonDecode
    | RecordNotObject
    | InvalidPrevHash
    | InvalidHash
    | RecordEncode
    | CrossFileMismatch(expected: string, got: string)
    | PrevMismatch(expected: string, got: string)
    | HashMismatch

  datatype LineError = LineError(line: nat, kind: ErrorKind)

  datatype Scan = Scan(
    records: nat, valid: nat, corrupt: nat, previous: Option<string>, firstPrev: string, tail: string,
    error: Option<LineError>)

  function Start(expected: Option<string>): Scan {
    Scan(0, 0, 0, expected, "", Zeros(64), None)
  }

  function Blame(error: Option<LineError>, line: nat, kind: ErrorKind): Option<LineError> {
    if error.None? then Some(LineError(line, kind)) else error
  }

  function Corrupt(s: Scan, line: nat, kind: ErrorKind): Scan {
    s.(records := s.records + 1, corrupt := s.corrupt + 1, error := Blame(s.error, line, kind))
  }

  function FollowHash(s: Scan, hash: string): Scan {
    s.(previous := Some(hash), tail := hash)
  }

  function NoteFirst(s: Scan, prev: Option<string>): Scan {
    if s.firstPrev == "" && prev.Some? then s.(firstPrev := prev.value) else s
  }

  /** Whether the record is well formed and hashes to its stored hash. */
  predicate Sound(codec: Codec, r: Record) {
    && ValidHash(r.prev) && ValidHash(r.hash) && r.body.Some?
    && r.hash.value == codec.digest(r.prev.value + r.body.value)
  }

  predicate Follows(previous: Option<string>, r: Record) {
    previous.None? || r.prev == previous
  }

  function RecordError(s: Scan, anchored: bool, r: Record): ErrorKind
    requires r.prev.Some?
  {
    if Follows(s.previous, r) then HashMismatch
    else if s.records == 0 && anchored then CrossFileMismatch(s.previous.value, r.prev.value)
    else PrevMismatch(s.previous.value, r.prev.value)
  }

  function RecordStep(codec: Codec, anchored: bool, line: nat, before: Scan, r: Record): Scan {
    var s := NoteFirst(before, r.prev);
    if !ValidHash(r.prev) then
      var bad := Corrupt(s, line, InvalidPrevHash);
      if ValidHash(r.hash) then FollowHash(bad, r.hash.value) else bad
    else if !ValidHash(r.hash) then Corrupt(s, line, InvalidHash)
    else if r.body.None? then FollowHash(Corrupt(s, line, RecordEncode), r.hash.value)
    else if Sound(codec, r) && Follows(s.previous, r) then
      FollowHash(s.(records := s.records + 1, valid := s.valid + 1), r.hash.value)
    else FollowHash(Corrupt(s, line, RecordError(s, anchored, r)), r.hash.value)
  }

  function LineStep(codec: Codec, anchored: bool, number: nat, s: Scan, line: Line): Scan {
    match line
    case TooLong => Corrupt(s, number, LineTooLarge)
    case BadUtf8 => Corrupt(s, number, InvalidUtf8)
    case Blank => s
    case BadJson => Corrupt(s, number, JsonDecode)
    case NotObject => Corrupt(s, number, RecordNotObject)
    case Entry(r) => RecordStep(codec, anchored, number, s, r)
  }

  /** All lines, the first of them numbered `number`. */
  function ScanLines(codec: Codec, anchored: bool, number: nat, s: Scan, lines: seq<Line>): Scan
    decreases |lines|
  {
    if lines == [] then s
    else ScanLines(codec, anchored, number + 1, LineStep(codec, anchored, number, s, lines[0]), lines[1..])
  }

  /** The same, but stopping at the first line met with `limit` records checked. */
  function ScanLimited(codec: Codec, anchored: bool, number: nat, s: Scan, lines: seq<Line>, limit: Option<int>): Scan
    decreases |lines|
  {
    if lines == [] || (limit.Some? && s.records >= limit.value) then s
    else ScanLimited(codec, anchored, number + 1, LineStep(codec, anchored, number, s, lines[0]), lines[1..], limit)
  }

  datatype File = Missing | Unreadable | Regular(content: Bytes)

  datatype FileError = InvalidLimit | InvalidExpectedPrevHash | FileMissing | FileReadError | FileTooLarge

  datatype FileResult = Failed(error: FileError) | Checked(scan: Scan)

  predicate Passed(result: FileResult) {
    result.Checked? && result.scan.corrupt == 0 && result.scan.records > 0
  }

  predicate Openable(file: File) {
    file.Regular? && |file.content| <= MAX_EVENT_FILE_BYTES
  }

  function CheckFile(codec: Codec, file: File, expected: Option<string>, limit: Option<int>): FileResult {
    if limit.Some? && limit.value <= 0 then Failed(InvalidLimit)
    else if expected.Some? && !ValidHash(expected) then Failed(InvalidExpectedPrevHash)
    else if file.Missing? then Failed(FileMissing)
    else if file.Unreadable? then Failed(FileReadError)
    else if !Openable(file) then Failed(FileTooLarge)
    else Checked(ScanLimited(codec, expected.Some?, 1, Start(expected), LogLines(codec, file.content), limit))
  }

  // ----- the loop -----

  /** The inner read loop that drops the rest of an over-long line. */
  method SkipLine(content: Bytes, start: nat, size: nat, first: Bytes) returns (pos: nat)
    requires start < |content| && size > 0 && first == ReadLine(content, start, size)
    ensures pos == LineEnd(content, start)
  {
    var raw := first;
    ghost var end := LineEnd(content, start);
    pos := start + |raw|;
    while raw != [] && raw[|raw| - 1] != NEWLINE
      invariant start < pos <= end
      invariant if raw == [] then pos == |content| else raw[|raw| - 1] == content[pos - 1]
      decreases end - pos, |raw|
    {
      if pos < |content| {
        LineEndWithin(content, start, pos);
      }
      raw := ReadLine(content, pos, size);
      pos := pos + |raw|;
    }
  }

  lemma {:induction false} LineEndWithin(content: Bytes, from: nat, mid: nat)
    requires from < |content| && from <= mid < LineEnd(content, from)
    ensures LineEnd(content, mid) == LineEnd(content, from)
    decreases mid - from
  {
    if from < mid {
      LineEndWithin(content, from + 1, mid);
    }
  }

  method CheckRecord(codec: Codec, anchored: bool, line: nat, before: Scan, r: Record) returns (s: Scan)
    ensures s == RecordStep(codec, anchored, line, before, r)
  {
    s := before;
    s := s.(records := s.records + 1);
    if s.firstPrev == "" && r.prev.Some? {
      s := s.(firstPrev := r.prev.value);
    }
    if !ValidHash(r.prev) {
      s := s.(corrupt := s.corrupt + 1, error := Blame(s.error, line, InvalidPrevHash));
      if ValidHash(r.hash) {
        s := s.(previous := r.hash, tail := r.hash.value);
      }
      return;
    }
    if !ValidHash(r.hash) {
      s := s.(corrupt := s.corrupt + 1, error := Blame(s.error, line, InvalidHash));
      return;
    }
    if r.body.None? {
      s := s.(corrupt := s.corrupt + 1, error := Blame(s.error, line, RecordEncode));
      s := s.(previous := r.hash, tail := r.hash.value);
      return;
    }
    var matches := r.hash.value == codec.digest(r.prev.value + r.body.value);
    var ok := matches;
    if s.previous.Some? && r.prev != s.previous {
      ok := false;
      var kind := if s.records == 1 && anchored
        then CrossFileMismatch(s.previous.value, r.prev.value)
        else PrevMismatch(s.previous.value, r.prev.value);
      s := s.(error := Blame(s.error, line, kind));
    }
    if !matches {
      s := s.(error := Blame(s.error, line, HashMismatch));
    }
    s := if ok then s.(valid := s.valid + 1) else s.(corrupt := s.corrupt + 1);
    s := s.(previous := r.hash, tail := r.hash.value);
  }

  /** `_verify_single_file`. */
  method VerifySingleFile(codec: Codec, file: File, expected: Option<string>, limit: Option<int>) returns (result: FileResult)
    ensures result == CheckFile(codec, file, expected, limit)
  {
    if limit.Some? && limit.value <= 0 {
      return Failed(InvalidLimit);
    }
    if expected.Some? && !ValidHash(expected) {
      return Failed(InvalidExpectedPrevHash);
    }
    match file {
      case Missing => return Failed(FileMissing);
      case Unreadable => return Failed(FileReadError);
      case Regular(content) =>
        if |content| > MAX_EVENT_FILE_BYTES {
          return Failed(FileTooLarge);
        }
        var scan := ReadLog(codec, content, expected, limit);
        return Checked(scan);
    }
  }

  lemma FirstMeaning(codec: Codec, content: Bytes, from: nat)
    requires from < |content|
    ensures var end := LineEnd(content, from);
      Meanings(codec, LinesFrom(content, from)) ==
      [Meaning(codec, content[from..end])] + Meanings(codec, LinesFrom(content, end))
  {
    var end := LineEnd(content, from);
    var line, rest := content[from..end], LinesFrom(content, end);
    assert ([line] + rest)[1..] == rest;
  }

  lemma ScanStep(codec: Codec, anchored: bool, number: nat, s: Scan, line: Line, rest: seq<Line>, limit: Option<int>)
    ensures ScanLimited(codec, anchored, number, s, [line] + rest, limit) ==
      if limit.Some? && s.records >= limit.value then s
      else ScanLimited(codec, anchored, number + 1, LineStep(codec, anchored, number, s, line), rest, limit)
  {
    assert ([line] + rest)[1..] == rest;
  }

  lemma ScanRest(codec: Codec, content: Bytes, pos: nat, anchored: bool, number: nat, s: Scan, limit: Option<int>)
    requires pos < |content|
    ensures var end := LineEnd(content, pos);
      ScanLimited(codec, anchored, number, s, Meanings(codec, LinesFrom(content, pos)), limit) ==
      if limit.Some? && s.records >= limit.value then s
      else
        ScanLimited(codec, anchored, number + 1,
          LineStep(codec, anchored, number, s, Meaning(codec, content[pos..end])),
          Meanings(codec, LinesFrom(content, end)), limit)
  {
    var end := LineEnd(content, pos);
    FirstMeaning(codec, content, pos);
    ScanStep(codec, anchored, number, s, Meaning(codec, content[pos..end]),
      Meanings(codec, LinesFrom(content, end)), limit);
  }

  /** What the loop does with the first read of a line. */
  method CheckLine(codec: Codec, content: Bytes, start: nat, anchored: bool, number: nat, before: Scan, raw: Bytes)
      returns (s: Scan, pos: nat)
    requires start < |content| && raw == ReadLine(content, start, MAX_EVENT_LINE_BYTES + 1)
    ensures pos == LineEnd(content, start)
    ensures s == LineStep(codec, anchored, number, before, Meaning(codec, content[start..pos]))
  {
    s := before;
    if |raw| > MAX_EVENT_LINE_BYTES {
      pos := SkipLine(content, start, MAX_EVENT_LINE_BYTES + 1, raw);
      s := Corrupt(s, number, LineTooLarge);
      return;
    }
    pos := start + |raw|;
    match codec.read(raw) {
      case TooLong => s := Corrupt(s, number, LineTooLarge);
      case BadUtf8 => s := Corrupt(s, number, InvalidUtf8);
      case Blank =>
      case BadJson => s := Corrupt(s, number, JsonDecode);
      case NotObject => s := Corrupt(s, number, RecordNotObject);
      case Entry(r) => s := CheckRecord(codec, anchored, number, s, r);
    }
  }

  method ReadLog(codec: Codec, content: Bytes, expected: Option<string>, limit: Option<int>) returns (scan: Scan)
    ensures scan == ScanLimited(codec, expected.Some?, 1, Start(expected), LogLines(codec, content), limit)
  {
    scan := Start(expected);
    var pos, number := 0, 0;
    while pos < |content|
      invariant pos <= |content|
      invariant ScanLimited(codec, expected.Some?, 1, Start(expected), LogLines(codec, content), limit)
        == ScanLimited(codec, expected.Some?, number + 1, scan, Meanings(codec, LinesFrom(content, pos)), limit)
    {
      ScanRest(codec, content, pos, expected.Some?, number + 1, scan, limit);
      var raw := ReadLine(content, pos, MAX_EVENT_LINE_BYTES + 1);
      number := number + 1;
      if limit.Some? && scan.records >= limit.value {
        return;
      }
      scan, pos := CheckLine(codec, content, pos, expected.Some?, number, scan, raw);
    }
  }
}
