/**
 The framing half of `_aggregate_openai_sse` (norax/gateway_proxy.py): line endings, blocks,
 fields. The format is that of section 9.2.6 of the WHATWG HTML Standard, except that a
 block at the end of the stream counts even without a blank line behind it.
 */
module SseFraming {

  newtype byte = x: int | 0 <= x < 256

  type Bytes = seq<byte>

  const LF: byte := 10
  const CR: byte := 13
  const COLON: byte := 58
  const SPACE: byte := 32
  const EVENT: Bytes := [101, 118, 101, 110, 116]
  const DATA: Bytes := [100, 97, 116, 97]

  /** One block that carried data: its last `event` value, or [], and its `data` values. */
  datatype Frame = Frame(event: Bytes, data: seq<Bytes>)

  // ----- parsing -----

  function ReplaceCrLf(s: Bytes): Bytes {
    if s == [] then []
    else if |s| >= 2 && s[0] == CR && s[1] == LF then [LF] + ReplaceCrLf(s[2..])
    else [s[0]] + ReplaceCrLf(s[1..])
  }

  function ReplaceCr(s: Bytes): Bytes {
    if s == [] then [] else [if s[0] == CR then LF else s[0]] + ReplaceCr(s[1..])
  }

  function Normalize(raw: Bytes): Bytes {
    ReplaceCr(ReplaceCrLf(raw))
  }

  /** Where the first blank line separator starts, or the length. */
  function FirstBreak(s: Bytes): (i: nat)
    ensures i <= |s|
    ensures i < |s| ==> i + 2 <= |s|
  {
    if |s| >= 2 && s[0] == LF && s[1] == LF then 0
    else if s == [] then 0
    else 1 + FirstBreak(s[1..])
  }

  function SplitBlocks(s: Bytes): seq<Bytes> {
    var i := FirstBreak(s);
    if i == |s| then [s] else [s[..i]] + SplitBlocks(s[i + 2..])
  }

  /** Where a byte first occurs, or the length. */
  function Find(s: Bytes, b: byte): (i: nat)
    ensures i <= |s|
    ensures i < |s| ==> s[i] == b
    ensures forall j | 0 <= j < i :: s[j] != b
  {
    if s == [] || s[0] == b then 0 else 1 + Find(s[1..], b)
  }

  function SplitLines(s: Bytes): seq<Bytes> {
    var i := Find(s, LF);
    if i == |s| then [s] else [s[..i]] + SplitLines(s[i + 1..])
  }

  function DropSpace(value: Bytes): Bytes {
    if value != [] && value[0] == SPACE then value[1..] else value
  }

  /** One line of a block. */
  function ReadLine(frame: Frame, line: Bytes): Frame {
    if line == [] || line[0] == COLON then frame
    else
      var i := Find(line, COLON);
      var value := DropSpace(if i < |line| then line[i + 1..] else []);
      if line[..i] == EVENT then frame.(event := value)
      else if line[..i] == DATA then frame.(data := frame.data + [value])
      else frame
  }

  function ReadLines(lines: seq<Bytes>): Frame {
    if lines == [] then Frame([], [])
    else ReadLine(ReadLines(lines[..|lines| - 1]), lines[|lines| - 1])
  }

  predicate IsSpace(b: byte) {
    b == SPACE || 9 <= b <= 13
  }

  predicate Blank(block: Bytes) {
    forall i | 0 <= i < |block| :: IsSpace(block[i])
  }

  function ReadBlock(block: Bytes): seq<Frame> {
    if Blank(block) then []
    else
      var frame := ReadLines(SplitLines(block));
      if frame.data == [] then [] else [frame]
  }

  function ReadBlocks(blocks: seq<Bytes>): seq<Frame> {
    if blocks == [] then [] else ReadBlock(blocks[0]) + ReadBlocks(blocks[1..])
  }

  function Parse(raw: Bytes): seq<Frame> {
    ReadBlocks(SplitBlocks(Normalize(raw)))
  }

  /** The loop over blocks. */
  method ParseStream(raw: Bytes) returns (frames: seq<Frame>)
    ensures frames == Parse(raw)
  {
    frames := [];
    var blocks := SplitBlocks(Normalize(raw));
    for b := 0 to |blocks|
      invariant frames + ReadBlocks(blocks[b..]) == ReadBlocks(blocks)
    {
      ghost var before, block, rest := frames, blocks[b], ReadBlocks(blocks[b + 1..]);
      assert blocks[b..][1..] == blocks[b + 1..];
      assert ReadBlocks(blocks[b..]) == ReadBlock(block) + rest;
      if !Blank(blocks[b]) {
        var frame := ParseBlock(blocks[b]);
        if frame.data != [] {
          frames := frames + [frame];
        }
      }
      assert frames == before + ReadBlock(block);
      Associate(before, ReadBlock(block), rest);
    }
    assert ReadBlocks(blocks[|blocks|..]) == [];
  }

  lemma Associate<T>(a: seq<T>, b: seq<T>, c: seq<T>)
    ensures a + (b + c) == (a + b) + c
  {
  }

  /** The loop over the lines of a block. */
  method ParseBlock(block: Bytes) returns (frame: Frame)
    ensures frame == ReadLines(SplitLines(block))
  {
    frame := Frame([], []);
    var lines := SplitLines(block);
    for l := 0 to |lines|
      invariant frame == ReadLines(lines[..l])
    {
      var line := lines[l];
      assert lines[..l + 1][..l] == lines[..l];
      if line != [] && line[0] != COLON {
        var i := Find(line, COLON);
        var value := if i < |line| then line[i + 1..] else [];
        if value != [] && value[0] == SPACE {
          value := value[1..];
        }
        if line[..i] == EVENT {
          frame := frame.(event := value);
        } else if line[..i] == DATA {
          frame := frame.(data := frame.data + [value]);
        }
      }
    }
    assert lines[..|lines|] == lines;
  }

  // ----- printing -----

  function BlockLines(frame: Frame): seq<Bytes> {
    (if frame.event == [] then [] else [EVENT + [COLON, SPACE] + frame.event]) + DataLines(frame.data)
  }

  function DataLines(data: seq<Bytes>): seq<Bytes> {
    if data == [] then [] else DataLines(data[..|data| - 1]) + [DATA + [COLON, SPACE] + data[|data| - 1]]
  }

  function JoinLines(lines: seq<Bytes>): Bytes {
    if lines == [] then [] else if |lines| == 1 then lines[0] else lines[0] + [LF] + JoinLines(lines[1..])
  }

  function Print(frames: seq<Frame>): Bytes {
    if frames == [] then [] else JoinLines(BlockLines(frames[0])) + [LF, LF] + Print(frames[1..])
  }

  datatype Ending = Lf | CrLf | Cr

  function Eol(ending: Ending): Bytes {
    match ending
    case Lf => [LF]
    case CrLf => [CR, LF]
    case Cr => [CR]
  }

  /** The same text with other line endings. */
  function Reline(s: Bytes, ending: Ending): Bytes {
    if s == [] then [] else (if s[0] == LF then Eol(ending) else [s[0]]) + Reline(s[1..], ending)
  }

  predicate OneLine(s: Bytes) {
    LF !in s && CR !in s
  }

  predicate Printable(frame: Frame) {
    OneLine(frame.event) && frame.data != [] && forall d | d in frame.data :: OneLine(d)
  }
}
