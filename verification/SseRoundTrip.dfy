/** Framing undoes printing, under every line ending. */
module SseRoundTrip {
  import opened SseFraming

  // ----- line endings do not matter -----

  lemma {:induction false} RelineCrLf(s: Bytes)
    requires CR !in s
    ensures ReplaceCrLf(Reline(s, CrLf)) == s
  {
    if s == [] {
    } else {
      RelineCrLf(s[1..]);
      assert s == [s[0]] + s[1..];
      if s[0] == LF {
        assert Reline(s, CrLf)[2..] == Reline(s[1..], CrLf);
      } else {
        assert Reline(s, CrLf)[1..] == Reline(s[1..], CrLf);
      }
    }
  }

  lemma {:induction false} NoCrUnchanged(s: Bytes)
    requires CR !in s
    ensures ReplaceCrLf(s) == s && ReplaceCr(s) == s
  {
    if s == [] {
    } else {
      NoCrUnchanged(s[1..]);
    }
  }

  lemma {:induction false} RelineCr(s: Bytes)
    requires CR !in s
    ensures LF !in Reline(s, Cr) && ReplaceCr(Reline(s, Cr)) == s
  {
    if s == [] {
    } else {
      RelineCr(s[1..]);
      assert Reline(s, Cr)[1..] == Reline(s[1..], Cr);
    }
  }

  lemma {:induction false} RelineLf(s: Bytes)
    ensures Reline(s, Lf) == s
  {
    if s == [] {
    } else {
      RelineLf(s[1..]);
    }
  }

  /** Any text reads the same under uniform LF, CRLF or CR line endings. */
  lemma EndingsIrrelevant(s: Bytes, ending: Ending)
    requires CR !in s
    ensures Normalize(Reline(s, ending)) == s && Parse(Reline(s, ending)) == Parse(s)
  {
    NoCrUnchanged(s);
    match ending
    case Lf => RelineLf(s);
    case CrLf => RelineCrLf(s);
    case Cr =>
      RelineCr(s);
  }

  // ----- round trip -----

  lemma {:induction false} FindSkips(line: Bytes, rest: Bytes, b: byte)
    requires b !in line
    ensures Find(line + rest, b) == |line| + Find(rest, b)
  {
    if line == [] {
      assert line + rest == rest;
    } else {
      assert (line + rest)[1..] == line[1..] + rest;
      FindSkips(line[1..], rest, b);
    }
  }

  lemma {:induction false} SplitJoined(lines: seq<Bytes>)
    requires lines != [] && forall l | l in lines :: LF !in l
    ensures SplitLines(JoinLines(lines)) == lines
  {
    var s := JoinLines(lines);
    if |lines| == 1 {
      FindSkips(lines[0], [], LF);
      assert lines[0] + [] == lines[0];
    } else {
      FindSkips(lines[0], [LF] + JoinLines(lines[1..]), LF);
      assert s == lines[0] + ([LF] + JoinLines(lines[1..]));
      assert s[..|lines[0]|] == lines[0] && s[|lines[0]| + 1..] == JoinLines(lines[1..]);
      SplitJoined(lines[1..]);
    }
  }

  lemma {:induction false} BreakSkips(line: Bytes, rest: Bytes)
    requires LF !in line
    ensures FirstBreak(line + rest) == |line| + FirstBreak(rest)
  {
    if line == [] {
      assert line + rest == rest;
    } else {
      assert (line + rest)[1..] == line[1..] + rest;
      BreakSkips(line[1..], rest);
    }
  }

  /** A block of non-empty lines contains no separator, so the first one is right behind it. */
  lemma {:induction false} BreakAfterLines(lines: seq<Bytes>, rest: Bytes)
    requires lines != [] && forall l | l in lines :: l != [] && LF !in l
    ensures JoinLines(lines) != [] && JoinLines(lines)[0] != LF
    ensures FirstBreak(JoinLines(lines) + [LF, LF] + rest) == |JoinLines(lines)|
  {
    var tail := [LF, LF] + rest;
    assert JoinLines(lines) + [LF, LF] + rest == JoinLines(lines) + tail;
    if |lines| == 1 {
      BreakSkips(lines[0], tail);
    } else {
      var more := JoinLines(lines[1..]);
      forall l | l in lines[1..] ensures l in lines {}
      BreakAfterLines(lines[1..], rest);
      assert more + [LF, LF] + rest == more + tail;
      assert JoinLines(lines) + tail == lines[0] + ([LF] + (more + tail));
      BreakSkips(lines[0], [LF] + (more + tail));
      assert ([LF] + (more + tail))[1..] == more + tail;
    }
  }

  lemma ReadField(frame: Frame, field: Bytes, value: Bytes)
    requires COLON !in field && field != []
    ensures ReadLine(frame, field + [COLON, SPACE] + value) ==
      if field == EVENT then frame.(event := value)
      else if field == DATA then frame.(data := frame.data + [value])
      else frame
  {
    var line := field + [COLON, SPACE] + value;
    assert line == field + ([COLON, SPACE] + value);
    FindSkips(field, [COLON, SPACE] + value, COLON);
    assert line[..|field|] == field && line[|field| + 1..] == [SPACE] + value;
  }

  /** The space behind the colon is optional, and so is the colon when there is no value. */
  lemma FieldForms(frame: Frame, field: Bytes, value: Bytes)
    requires COLON !in field && field != []
    ensures value == [] ==> ReadLine(frame, field) == ReadLine(frame, field + [COLON, SPACE] + value)
    ensures (value == [] || value[0] != SPACE) ==>
      ReadLine(frame, field + [COLON] + value) == ReadLine(frame, field + [COLON, SPACE] + value)
  {
    ReadField(frame, field, value);
    if value == [] {
      FindSkips(field, [], COLON);
      assert field + [] == field && field[..|field|] == field;
    }
    var line := field + [COLON] + value;
    assert line == field + ([COLON] + value);
    FindSkips(field, [COLON] + value, COLON);
    assert line[..|field|] == field && line[|field| + 1..] == value;
  }

  /** A line that starts with a colon is a comment. */
  lemma CommentsIgnored(frame: Frame, text: Bytes)
    ensures ReadLine(frame, [COLON] + text) == frame
  {
  }

  lemma {:induction false} ReadDataLines(event: seq<Bytes>, frame: Frame, data: seq<Bytes>)
    requires ReadLines(event) == frame
    ensures ReadLines(event + DataLines(data)) == frame.(data := frame.data + data)
  {
    if data == [] {
      assert event + DataLines(data) == event && frame.data + data == frame.data;
    } else {
      var n := |data| - 1;
      ReadDataLines(event, frame, data[..n]);
      var lines := event + DataLines(data);
      assert lines[..|lines| - 1] == event + DataLines(data[..n]);
      ReadField(frame.(data := frame.data + data[..n]), DATA, data[n]);
      AppendLast(frame.data, data);
    }
  }

  lemma AppendLast<T>(a: seq<T>, b: seq<T>)
    requires b != []
    ensures (a + b[..|b| - 1]) + [b[|b| - 1]] == a + b
  {
  }

  lemma ReadPrintedLines(frame: Frame)
    ensures ReadLines(BlockLines(frame)) == frame
  {
    if frame.event == [] {
      ReadDataLines([], Frame([], []), frame.data);
      assert [] + DataLines(frame.data) == DataLines(frame.data) && [] + frame.data == frame.data;
    } else {
      var line := EVENT + [COLON, SPACE] + frame.event;
      ReadField(Frame([], []), EVENT, frame.event);
      assert [line][..0] == [];
      assert ReadLines([line]) == Frame(frame.event, []);
      ReadDataLines([line], Frame(frame.event, []), frame.data);
      assert [] + frame.data == frame.data;
    }
  }

  lemma {:induction false} DataLinesPlain(data: seq<Bytes>)
    requires forall d | d in data :: OneLine(d)
    ensures |DataLines(data)| == |data|
    ensures forall l | l in DataLines(data) :: l != [] && OneLine(l) && l[0] == 100
  {
    if data == [] {
    } else {
      var n := |data| - 1;
      DataLinesPlain(data[..n]);
      assert OneLine(data[n]);
    }
  }

  lemma BlockLinesPlain(frame: Frame)
    requires Printable(frame)
    ensures BlockLines(frame) != []
    ensures forall l | l in BlockLines(frame) :: l != [] && OneLine(l) && !IsSpace(l[0])
  {
    DataLinesPlain(frame.data);
  }

  lemma JoinLinesHead(lines: seq<Bytes>)
    requires lines != [] && lines[0] != []
    ensures JoinLines(lines) != [] && JoinLines(lines)[0] == lines[0][0]
  {
  }

  lemma ReadPrintedBlock(frame: Frame)
    requires Printable(frame)
    ensures ReadBlock(JoinLines(BlockLines(frame))) == [frame]
  {
    var lines := BlockLines(frame);
    BlockLinesPlain(frame);
    SplitJoined(lines);
    ReadPrintedLines(frame);
    JoinLinesHead(lines);
    assert !Blank(JoinLines(lines));
  }

  lemma SplitPrinted(frame: Frame, rest: Bytes)
    requires Printable(frame)
    ensures var block := JoinLines(BlockLines(frame));
      SplitBlocks(block + [LF, LF] + rest) == [block] + SplitBlocks(rest)
  {
    var block := JoinLines(BlockLines(frame));
    BlockLinesPlain(frame);
    BreakAfterLines(BlockLines(frame), rest);
    var s := block + [LF, LF] + rest;
    assert s[..|block|] == block && s[|block| + 2..] == rest;
  }

  lemma {:induction false} ParsePrintedBlocks(frames: seq<Frame>)
    requires forall f | f in frames :: Printable(f)
    ensures ReadBlocks(SplitBlocks(Print(frames))) == frames
  {
    if frames == [] {
      assert Blank([]);
      assert ReadBlocks([[]]) == ReadBlock([]) + ReadBlocks([[]][1..]);
    } else {
      var rest := Print(frames[1..]);
      SplitPrinted(frames[0], rest);
      ReadPrintedBlock(frames[0]);
      ParsePrintedBlocks(frames[1..]);
      var blocks := SplitBlocks(Print(frames));
      assert blocks[1..] == SplitBlocks(rest);
      assert frames == [frames[0]] + frames[1..];
    }
  }

  lemma {:induction false} JoinedHasNoCr(lines: seq<Bytes>)
    requires forall l | l in lines :: CR !in l
    ensures CR !in JoinLines(lines)
  {
    if |lines| > 1 {
      JoinedHasNoCr(lines[1..]);
    }
  }

  lemma {:induction false} PrintHasNoCr(frames: seq<Frame>)
    requires forall f | f in frames :: Printable(f)
    ensures CR !in Print(frames)
  {
    if frames == [] {
    } else {
      BlockLinesPlain(frames[0]);
      JoinedHasNoCr(BlockLines(frames[0]));
      PrintHasNoCr(frames[1..]);
    }
  }

  /** Printing frames and parsing them gives them back, whatever the line endings. */
  lemma RoundTrip(frames: seq<Frame>, ending: Ending)
    requires forall f | f in frames :: Printable(f)
    ensures Parse(Reline(Print(frames), ending)) == frames
  {
    PrintHasNoCr(frames);
    EndingsIrrelevant(Print(frames), ending);
    NoCrUnchanged(Print(frames));
    ParsePrintedBlocks(frames);
  }
}
