/** What a verified event log guarantees. */
module EventChainTheorems {
  import opened Common
  import opened EventChain

  // ----- physical lines -----

  function Concat(raws: seq<Bytes>): Bytes {
    if raws == [] then [] else raws[0] + Concat(raws[1..])
  }

  predicate IsLine(raw: Bytes, last: bool) {
    && raw != [] && (forall i | 0 <= i < |raw| - 1 :: raw[i] != NEWLINE)
    && (last || raw[|raw| - 1] == NEWLINE)
  }

  predicate WellSplit(raws: seq<Bytes>) {
    forall k | 0 <= k < |raws| :: IsLine(raws[k], k == |raws| - 1)
  }

  lemma {:induction false} LinesCover(content: Bytes, from: nat)
    requires from <= |content|
    ensures Concat(LinesFrom(content, from)) == content[from..]
    ensures WellSplit(LinesFrom(content, from))
    decreases |content| - from
  {
    if from < |content| {
      var end := LineEnd(content, from);
      LinesCover(content, end);
      var line, rest := content[from..end], LinesFrom(content, end);
      assert ([line] + rest)[1..] == rest;
      assert line + content[end..] == content[from..];
      assert end < |content| ==> rest != [];
    }
  }

  /** The lines are the only way to cut the content behind its newlines. */
  lemma {:induction false} LinesUnique(raws: seq<Bytes>, content: Bytes, from: nat)
    requires from <= |content| && content[from..] == Concat(raws) && WellSplit(raws)
    ensures LinesFrom(content, from) == raws
    decreases |raws|
  {
    if raws == [] {
    } else {
      var line, rest := raws[0], raws[1..];
      assert IsLine(line, |raws| == 1);
      assert WellSplit(rest) by {
        forall k | 0 <= k < |rest| ensures IsLine(rest[k], k == |rest| - 1) {
          assert IsLine(raws[k + 1], k + 1 == |raws| - 1);
        }
      }
      var mid := from + |line|;
      assert content[from..mid] == line by {
        assert content[from..][..|line|] == line;
      }
      assert content[mid..] == content[from..][|line|..] == Concat(rest);
      assert rest == [] ==> mid == |content|;
      EndOfLine(content, from, mid);
      LinesUnique(rest, content, mid);
    }
  }

  lemma {:induction false} EndOfLine(content: Bytes, from: nat, mid: nat)
    requires from < mid <= |content| && IsLine(content[from..mid], mid == |content|)
    ensures LineEnd(content, from) == mid
    decreases mid - from
  {
    var line := content[from..mid];
    assert line[|line| - 1] == content[mid - 1];
    if from + 1 < mid {
      assert content[from] == line[0];
      assert content[from + 1..mid] == line[1..];
      EndOfLine(content, from + 1, mid);
    }
  }

  lemma {:induction false} ConcatJoin(a: seq<Bytes>, b: seq<Bytes>)
    ensures Concat(a + b) == Concat(a) + Concat(b)
  {
    if a == [] {
      assert a + b == b;
    } else {
      assert (a + b)[1..] == a[1..] + b;
      ConcatJoin(a[1..], b);
    }
  }

  lemma MeaningsJoin(codec: Codec, a: seq<Bytes>, b: seq<Bytes>)
    ensures Meanings(codec, a + b) == Meanings(codec, a) + Meanings(codec, b)
  {
  }

  /** Contents that end in a newline can be joined without changing any line. */
  lemma LogLinesJoin(codec: Codec, a: Bytes, b: Bytes)
    requires a == [] || a[|a| - 1] == NEWLINE
    ensures LogLines(codec, a + b) == LogLines(codec, a) + LogLines(codec, b)
  {
    var la, lb := LinesFrom(a, 0), LinesFrom(b, 0);
    LinesCover(a, 0);
    LinesCover(b, 0);
    ConcatJoin(la, lb);
    forall k | 0 <= k < |la + lb| ensures IsLine((la + lb)[k], k == |la + lb| - 1) {
      if k < |la| {
        assert IsLine(la[k], k == |la| - 1);
        if k == |la| - 1 {
          LastLine(la, a);
        }
      } else {
        assert IsLine(lb[k - |la|], k - |la| == |lb| - 1);
      }
    }
    LinesUnique(la + lb, a + b, 0);
    MeaningsJoin(codec, la, lb);
  }

  lemma {:induction false} LastLine(raws: seq<Bytes>, content: Bytes)
    requires raws != [] && WellSplit(raws) && Concat(raws) == content
    ensures content != [] && content[|content| - 1] == var last := raws[|raws| - 1]; last[|last| - 1]
  {
    var front, last := raws[..|raws| - 1], raws[|raws| - 1];
    assert IsLine(last, true);
    ConcatJoin(front, [last]);
    assert front + [last] == raws;
    assert Concat([last]) == last;
  }

  // ----- what a scan reports -----

  /** Every scanned record is counted once, as valid or as corrupt, and an error is reported
      exactly when one is corrupt. */
  predicate Balanced(s: Scan) {
    && s.valid + s.corrupt == s.records
    && (s.error.Some? <==> s.corrupt > 0)
  }

  function NonBlank(lines: seq<Line>): nat {
    if lines == [] then 0 else (if lines[0].Blank? then 0 else 1) + NonBlank(lines[1..])
  }

  lemma StepCounts(codec: Codec, anchored: bool, number: nat, s: Scan, line: Line)
    requires Balanced(s)
    ensures var t := LineStep(codec, anchored, number, s, line);
      Balanced(t) && t.corrupt >= s.corrupt && t.records == s.records + if line.Blank? then 0 else 1
  {
  }

  lemma {:induction false} ScanCounts(codec: Codec, anchored: bool, number: nat, s: Scan, lines: seq<Line>)
    requires Balanced(s)
    ensures var t := ScanLines(codec, anchored, number, s, lines);
      Balanced(t) && t.corrupt >= s.corrupt && t.records == s.records + NonBlank(lines)
    decreases |lines|
  {
    if lines == [] {
    } else {
      StepCounts(codec, anchored, number, s, lines[0]);
      ScanCounts(codec, anchored, number + 1, LineStep(codec, anchored, number, s, lines[0]), lines[1..]);
    }
  }

  /** The tail can always be handed on as the anchor of the next file. */
  lemma {:induction false} TailIsHash(codec: Codec, anchored: bool, number: nat, s: Scan, lines: seq<Line>)
    requires ValidHash(Some(s.tail))
    ensures ValidHash(Some(ScanLines(codec, anchored, number, s, lines).tail))
    decreases |lines|
  {
    if lines == [] {
    } else {
      TailIsHash(codec, anchored, number + 1, LineStep(codec, anchored, number, s, lines[0]), lines[1..]);
    }
  }

  lemma {:induction false} Unlimited(codec: Codec, anchored: bool, number: nat, s: Scan, lines: seq<Line>)
    ensures ScanLimited(codec, anchored, number, s, lines, None) == ScanLines(codec, anchored, number, s, lines)
    decreases |lines|
  {
    if lines == [] {
    } else {
      Unlimited(codec, anchored, number + 1, LineStep(codec, anchored, number, s, lines[0]), lines[1..]);
    }
  }

  /** A limited check is the full check of the leading lines that hold at most `limit` records,
      and stops early only behind exactly that many. */
  lemma {:induction false} LimitedIsPrefix(codec: Codec, anchored: bool, number: nat, s: Scan, lines: seq<Line>, limit: int)
      returns (n: nat)
    requires Balanced(s) && s.records <= limit
    ensures n <= |lines|
    ensures var t := ScanLimited(codec, anchored, number, s, lines, Some(limit));
      t == ScanLines(codec, anchored, number, s, lines[..n]) && t.records <= limit && (n < |lines| ==> t.records == limit)
    decreases |lines|
  {
    n := 0;
    if lines != [] && s.records < limit {
      StepCounts(codec, anchored, number, s, lines[0]);
      n := LimitedIsPrefix(codec, anchored, number + 1, LineStep(codec, anchored, number, s, lines[0]), lines[1..], limit);
      n := n + 1;
      assert lines[..n][1..] == lines[1..][..n - 1];
    }
  }

  // ----- what "ok" means -----

  function Entries(lines: seq<Line>): seq<Record> {
    if lines == [] then []
    else (if lines[0].Entry? then [lines[0].record] else []) + Entries(lines[1..])
  }

  predicate LinkedAt(records: seq<Record>, i: int)
    requires 0 < i < |records|
  {
    records[i].prev == records[i - 1].hash
  }

  predicate Chained(codec: Codec, previous: Option<string>, records: seq<Record>) {
    && (forall i | 0 <= i < |records| :: Sound(codec, records[i]))
    && (forall i | 0 < i < |records| :: LinkedAt(records, i))
    && (records != [] ==> Follows(previous, records[0]))
  }

  predicate OnlyRecords(lines: seq<Line>) {
    forall i | 0 <= i < |lines| :: lines[i].Blank? || lines[i].Entry?
  }

  /** A clean log: every line is blank or a sound record that links to the one before. */
  predicate Clean(codec: Codec, previous: Option<string>, lines: seq<Line>) {
    OnlyRecords(lines) && Chained(codec, previous, Entries(lines))
  }

  function LastHash(previous: Option<string>, records: seq<Record>): Option<string> {
    if records == [] then previous else records[|records| - 1].hash
  }

  lemma CleanFirst(codec: Codec, previous: Option<string>, lines: seq<Line>)
    requires lines != []
    ensures Clean(codec, previous, lines) <==>
      match lines[0]
      case Blank => Clean(codec, previous, lines[1..])
      case Entry(r) => Sound(codec, r) && Follows(previous, r) && Clean(codec, r.hash, lines[1..])
      case _ => false
  {
    var rest := lines[1..];
    var es, er := Entries(lines), Entries(rest);
    assert lines == [lines[0]] + rest;
    assert OnlyRecords(lines) <==> (lines[0].Blank? || lines[0].Entry?) && OnlyRecords(rest);
    if lines[0].Entry? {
      assert es == [lines[0].record] + er;
      ChainedFirst(codec, previous, lines[0].record, er);
    } else {
      assert es == er;
    }
  }

  lemma ChainedFirst(codec: Codec, previous: Option<string>, r: Record, rest: seq<Record>)
    ensures Chained(codec, previous, [r] + rest) <==>
      Sound(codec, r) && Follows(previous, r) && Chained(codec, r.hash, rest)
  {
    var all := [r] + rest;
    if Chained(codec, previous, all) {
      assert Sound(codec, all[0]);
      forall i | 0 <= i < |rest| ensures Sound(codec, rest[i]) {
        assert rest[i] == all[i + 1];
      }
      forall i | 0 < i < |rest| ensures LinkedAt(rest, i) {
        assert LinkedAt(all, i + 1);
      }
      assert rest != [] ==> LinkedAt(all, 1);
    }
    if Sound(codec, r) && Follows(previous, r) && Chained(codec, r.hash, rest) {
      forall i | 0 < i < |all| ensures LinkedAt(all, i) {
        assert i > 1 ==> LinkedAt(rest, i - 1);
      }
    }
  }

  /** Nothing is counted corrupt exactly when the log is clean. */
  lemma {:induction false} ScanIffClean(codec: Codec, anchored: bool, number: nat, s: Scan, lines: seq<Line>)
    requires Balanced(s)
    ensures ScanLines(codec, anchored, number, s, lines).corrupt == s.corrupt <==> Clean(codec, s.previous, lines)
    decreases |lines|
  {
    if lines == [] {
    } else {
      var t := LineStep(codec, anchored, number, s, lines[0]);
      CleanFirst(codec, s.previous, lines);
      StepCounts(codec, anchored, number, s, lines[0]);
      ScanCounts(codec, anchored, number + 1, t, lines[1..]);
      if t.corrupt == s.corrupt {
        ScanIffClean(codec, anchored, number + 1, t, lines[1..]);
      }
    }
  }

  lemma {:induction false} CleanTail(codec: Codec, anchored: bool, number: nat, s: Scan, lines: seq<Line>)
    requires Clean(codec, s.previous, lines)
    ensures var t := ScanLines(codec, anchored, number, s, lines);
      && t.previous == LastHash(s.previous, Entries(lines))
      && t.tail == (if Entries(lines) == [] then s.tail else LastHash(None, Entries(lines)).value)
      && t.firstPrev == (if s.firstPrev == "" && Entries(lines) != [] then Entries(lines)[0].prev.value else s.firstPrev)
    decreases |lines|
  {
    if lines == [] {
    } else {
      CleanFirst(codec, s.previous, lines);
      CleanTail(codec, anchored, number + 1, LineStep(codec, anchored, number, s, lines[0]), lines[1..]);
    }
  }

  lemma {:induction false} CleanCount(lines: seq<Line>)
    requires OnlyRecords(lines)
    ensures NonBlank(lines) == |Entries(lines)|
  {
    if lines == [] {
    } else {
      CleanCount(lines[1..]);
    }
  }

  lemma EntriesCounted(codec: Codec, previous: Option<string>, lines: seq<Line>)
    requires Clean(codec, previous, lines)
    ensures NonBlank(lines) == |Entries(lines)|
  {
    CleanCount(lines);
  }

  lemma ScanPasses(codec: Codec, anchored: bool, number: nat, s: Scan, lines: seq<Line>)
    requires Balanced(s) && s.corrupt == s.records == 0
    ensures var t := ScanLines(codec, anchored, number, s, lines);
      t.corrupt == 0 && t.records > 0 <==> Entries(lines) != [] && Clean(codec, s.previous, lines)
  {
    ScanCounts(codec, anchored, number, s, lines);
    ScanIffClean(codec, anchored, number, s, lines);
    if Clean(codec, s.previous, lines) {
      EntriesCounted(codec, s.previous, lines);
    }
  }

  predicate Readable(file: File, expected: Option<string>) {
    Openable(file) && (expected.Some? ==> ValidHash(expected))
  }

  lemma CheckedScan(codec: Codec, file: File, expected: Option<string>)
    ensures var r := CheckFile(codec, file, expected, None);
      if Readable(file, expected) then
        r == Checked(ScanLines(codec, expected.Some?, 1, Start(expected), LogLines(codec, file.content)))
      else r.Failed?
  {
    if Readable(file, expected) {
      Unlimited(codec, expected.Some?, 1, Start(expected), LogLines(codec, file.content));
    }
  }

  /** `ok` for one file: it can be read, holds a record, and is clean. */
  lemma OkIffClean(codec: Codec, file: File, expected: Option<string>)
    ensures Passed(CheckFile(codec, file, expected, None)) <==>
      && Readable(file, expected)
      && var lines := LogLines(codec, file.content);
         Entries(lines) != [] && Clean(codec, expected, lines)
  {
    CheckedScan(codec, file, expected);
    if Readable(file, expected) {
      ScanPasses(codec, expected.Some?, 1, Start(expected), LogLines(codec, file.content));
    }
  }

  // ----- tampering -----

  /** No two of these records are hashed from different strings to the same hash. */
  predicate NoCollision(codec: Codec, a: seq<Record>, b: seq<Record>) {
    forall i, j | 0 <= i < |a| && 0 <= j < |b| :: Distinguished(codec, a[i], b[j])
  }

  predicate Distinguished(codec: Codec, r: Record, s: Record) {
    r.prev.Some? && r.body.Some? && s.prev.Some? && s.body.Some? ==>
      var x, y := r.prev.value + r.body.value, s.prev.value + s.body.value;
      codec.digest(x) == codec.digest(y) ==> x == y
  }

  lemma SameHashSameRecord(codec: Codec, r: Record, s: Record)
    requires Sound(codec, r) && Sound(codec, s) && r.hash == s.hash && Distinguished(codec, r, s)
    ensures r == s
  {
    var x, y := r.prev.value + r.body.value, s.prev.value + s.body.value;
    assert x[..64] == r.prev.value && y[..64] == s.prev.value;
    assert x[64..] == r.body.value && y[64..] == s.body.value;
  }

  lemma ChainedFront(codec: Codec, previous: Option<string>, records: seq<Record>)
    requires Chained(codec, previous, records) && records != []
    ensures Chained(codec, previous, records[..|records| - 1])
  {
    var front := records[..|records| - 1];
    forall i | 0 < i < |front| ensures LinkedAt(front, i) {
      assert LinkedAt(records, i);
    }
  }

  /** The tail hash fixes the history: of two verified logs with the same tail hash, the
      shorter is a suffix of the longer. */
  lemma {:induction false} TailFixesHistory(
      codec: Codec, a: seq<Record>, b: seq<Record>, pa: Option<string>, pb: Option<string>)
    requires Chained(codec, pa, a) && Chained(codec, pb, b) && NoCollision(codec, a, b)
    requires 0 < |a| <= |b| && LastHash(None, a) == LastHash(None, b)
    ensures b[|b| - |a|..] == a
  {
    LastRecordsEqual(codec, a, b, pa, pb);
    var m, n := |a| - 1, |b| - 1;
    if m > 0 {
      ChainedFront(codec, pa, a);
      ChainedFront(codec, pb, b);
      assert LinkedAt(a, m) && LinkedAt(b, n);
      TailFixesHistory(codec, a[..m], b[..n], pa, pb);
      SuffixGrows(a, b);
    }
  }

  lemma LastRecordsEqual(codec: Codec, a: seq<Record>, b: seq<Record>, pa: Option<string>, pb: Option<string>)
    requires Chained(codec, pa, a) && Chained(codec, pb, b) && NoCollision(codec, a, b)
    requires a != [] && b != [] && LastHash(None, a) == LastHash(None, b)
    ensures a[|a| - 1] == b[|b| - 1]
  {
    assert Distinguished(codec, a[|a| - 1], b[|b| - 1]);
    SameHashSameRecord(codec, a[|a| - 1], b[|b| - 1]);
  }

  lemma SuffixGrows<T>(a: seq<T>, b: seq<T>)
    requires 0 < |a| <= |b| && a[|a| - 1] == b[|b| - 1]
    requires var m, n := |a| - 1, |b| - 1; b[..n][n - m..] == a[..m]
    ensures b[|b| - |a|..] == a
  {
    var m, n := |a| - 1, |b| - 1;
    assert b[n - m..] == b[..n][n - m..] + [b[n]];
    assert a == a[..m] + [a[m]];
  }

  /** The line with another body in place of its own; hash and prev_hash stay. */
  predicate BodySwap(clean: Line, forged: Line) {
    clean.Entry? && forged.Entry? &&
    clean.record.hash == forged.record.hash && clean.record.prev == forged.record.prev
  }

  predicate Forged(codec: Codec, clean: seq<Line>, forged: seq<Line>) {
    |clean| == |forged| && forall i | 0 <= i < |clean| :: ForgedLine(codec, clean[i], forged[i])
  }

  predicate ForgedLine(codec: Codec, clean: Line, forged: Line) {
    clean == forged || (BodySwap(clean, forged) && Distinguished(codec, clean.record, forged.record))
  }

  function Changed(clean: seq<Line>, forged: seq<Line>): nat
    requires |clean| == |forged|
  {
    if clean == [] then 0
    else (if clean[0] == forged[0] then 0 else 1) + Changed(clean[1..], forged[1..])
  }

  /** Where the lists first differ, or their length. */
  function FirstChange(clean: seq<Line>, forged: seq<Line>): (i: nat)
    requires |clean| == |forged|
    ensures i <= |clean| && clean[..i] == forged[..i]
    ensures i < |clean| ==> clean[i] != forged[i]
  {
    if clean == [] || clean[0] != forged[0] then 0
    else
      assert forall j :: 0 < j <= |clean| ==> clean[..j] == [clean[0]] + clean[1..][..j - 1];
      assert forall j :: 0 < j <= |clean| ==> forged[..j] == [forged[0]] + forged[1..][..j - 1];
      1 + FirstChange(clean[1..], forged[1..])
  }

  lemma ForgedStep(codec: Codec, anchored: bool, number: nat, s: Scan, clean: Line, forged: Line)
    requires clean.Entry? && Sound(codec, clean.record) && Follows(s.previous, clean.record)
    requires clean != forged && ForgedLine(codec, clean, forged)
    ensures var t := LineStep(codec, anchored, number, s, forged);
      && t.previous == clean.record.hash && t.corrupt == s.corrupt + 1 && t.records == s.records + 1
      && t.error == Blame(s.error, number, if forged.record.body.Some? then HashMismatch else RecordEncode)
  {
    var r, f := clean.record, forged.record;
    assert r.body != f.body;
    if f.body.Some? {
      var x, y := r.prev.value + r.body.value, f.prev.value + f.body.value;
      assert x[64..] == r.body.value && y[64..] == f.body.value;
    }
  }

  /** Changing bodies in a clean log corrupts exactly the changed records, does not spread to
      their neighbours, and the first error names the first changed line. */
  lemma {:induction false} ForgeryIsLocated(
      codec: Codec, anchored: bool, number: nat, s: Scan, clean: seq<Line>, forged: seq<Line>)
    requires Clean(codec, s.previous, clean) && Forged(codec, clean, forged)
    ensures var t := ScanLines(codec, anchored, number, s, forged);
      var i := FirstChange(clean, forged);
      && t.corrupt == s.corrupt + Changed(clean, forged)
      && t.records == s.records + |Entries(clean)|
      && (s.error.Some? || i == |clean| ==> t.error == s.error)
      && (s.error.None? && i < |clean| ==> t.error.Some? && t.error.value.line == number + i)
    decreases |clean|
  {
    if clean == [] {
    } else {
      CleanFirst(codec, s.previous, clean);
      assert ForgedLine(codec, clean[0], forged[0]);
      var t := LineStep(codec, anchored, number, s, forged[0]);
      if clean[0] != forged[0] {
        ForgedStep(codec, anchored, number, s, clean[0], forged[0]);
      }
      ForgeryIsLocated(codec, anchored, number + 1, t, clean[1..], forged[1..]);
    }
  }
}
