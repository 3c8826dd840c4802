/**
 `verify_all_generations` of norax/verify_event_chain.py: rotated files in time order, then the
 current file, each anchored at the tail hash of the one before. File names are ASCII.
 */
module EventGenerations {
  import opened Common
  import opened EventChain
  import opened EventChainTheorems

  const MAX_ROTATIONS: nat := 10000

  // ----- rotation names -----

  predicate Digit(c: char) {
    '0' <= c <= '9'
  }

  predicate Digits(s: string) {
    forall i | 0 <= i < |s| :: Digit(s[i])
  }

  predicate SuffixChars(s: string) {
    forall i | 0 <= i < |s| :: Digit(s[i]) || 'A' <= s[i] <= 'Z'
  }

  /** "" or `-` and at least one digit or capital. */
  predicate RotationSuffix(s: string) {
    s == "" || (|s| > 1 && s[0] == '-' && SuffixChars(s[1..]))
  }

  /** Eight digits, `T`, six or twelve digits, `Z`. */
  predicate Stamp(s: string) {
    && (|s| == 16 || |s| == 22) && s[8] == 'T' && s[|s| - 1] == 'Z'
    && Digits(s[..8]) && Digits(s[9..|s| - 1])
  }

  predicate HasStamp(middle: string, n: nat) {
    n <= |middle| && Stamp(middle[..n]) && RotationSuffix(middle[n..])
  }

  /** `_parse_rotation_timestamp`: "" for a name that is not a rotation. */
  function RotationStamp(name: string): (key: string)
    ensures key == "" || Key(key)
  {
    if |name| < 13 || name[..7] != "events-" || name[|name| - 6..] != ".jsonl" then ""
    else
      var middle := name[7..|name| - 6];
      if HasStamp(middle, 22) then middle[..22]
      else if HasStamp(middle, 16) then KeyOf(middle[..16])
      else ""
  }

  /** A stamp with seconds only sorts as the first microsecond of its second. */
  function KeyOf(stamp: string): (key: string)
    requires Stamp(stamp)
    ensures Key(key)
  {
    if |stamp| == 22 then stamp
    else
      var key := stamp[..15] + "000000Z";
      assert key[..8] == stamp[..8];
      assert key[9..21] == stamp[9..15] + "000000";
      key
  }

  predicate Key(s: string) {
    |s| == 22 && Stamp(s)
  }

  function NameOf(stamp: string, suffix: string): string {
    "events-" + (stamp + suffix) + ".jsonl"
  }

  /** The whole set of rotation names, and the key each sorts by. */
  lemma RotationNames(stamp: string, suffix: string)
    requires Stamp(stamp) && RotationSuffix(suffix)
    ensures RotationStamp(NameOf(stamp, suffix)) == KeyOf(stamp)
  {
    var name := NameOf(stamp, suffix);
    assert name[..7] == "events-" && name[|name| - 6..] == ".jsonl";
    var middle := name[7..|name| - 6];
    assert middle == stamp + suffix;
    assert middle[..|stamp|] == stamp && middle[|stamp|..] == suffix;
    if |stamp| == 16 && |middle| >= 22 {
      assert middle[15] == 'Z' && middle[15] == middle[..22][9..21][6];
      assert !Digits(middle[..22][9..21]);
    }
  }

  lemma OnlyRotationNames(name: string) returns (stamp: string, suffix: string)
    requires RotationStamp(name) != ""
    ensures Stamp(stamp) && RotationSuffix(suffix) && name == NameOf(stamp, suffix)
  {
    var middle := name[7..|name| - 6];
    CutAround(name, 7, |name| - 6);
    var n := if HasStamp(middle, 22) then 22 else 16;
    stamp, suffix := middle[..n], middle[n..];
    assert middle == stamp + suffix;
  }

  lemma CutAround<T>(s: seq<T>, i: nat, j: nat)
    requires i <= j <= |s|
    ensures s == s[..i] + s[i..j] + s[j..]
  {
  }

  // ----- the order of rotations -----

  predicate StringLe(a: string, b: string) {
    if a == "" then true
    else if b == "" then false
    else a[0] < b[0] || (a[0] == b[0] && StringLe(a[1..], b[1..]))
  }

  function Value(s: string): nat
    requires Digits(s)
  {
    if s == "" then 0 else 10 * Value(s[..|s| - 1]) + DigitValue(s[|s| - 1])
  }

  function DigitValue(c: char): (v: nat)
    requires Digit(c)
    ensures v <= 9
  {
    c as int - '0' as int
  }

  lemma {:induction false} SharedHead(a: string, b: string, x: string, y: string)
    requires |a| == |b|
    ensures StringLe(a + x, b + y) <==> if a == b then StringLe(x, y) else StringLe(a, b)
    ensures a != b ==> (StringLe(a, b) <==> !StringLe(b, a))
  {
    if a == "" {
      assert a + x == x && b + y == y;
    } else {
      assert (a + x)[1..] == a[1..] + x && (b + y)[1..] == b[1..] + y;
      SharedHead(a[1..], b[1..], x, y);
      assert a == [a[0]] + a[1..] && b == [b[0]] + b[1..];
    }
  }

  /** Digit strings of one length sort as the numbers they denote. */
  lemma {:induction false} DigitOrder(a: string, b: string)
    requires |a| == |b| && Digits(a) && Digits(b)
    ensures StringLe(a, b) <==> Value(a) <= Value(b)
    ensures a == b <==> Value(a) == Value(b)
  {
    if a != "" {
      var n := |a| - 1;
      assert a == a[..n] + [a[n]] && b == b[..n] + [b[n]];
      SharedHead(a[..n], b[..n], [a[n]], [b[n]]);
      DigitOrder(a[..n], b[..n]);
    }
  }

  function KeyDigits(key: string): (s: string)
    requires Key(key)
    ensures |s| == 20 && Digits(s)
  {
    key[..8] + key[9..21]
  }

  function Time(key: string): nat
    requires Key(key)
  {
    Value(KeyDigits(key))
  }

  /** Rotation keys sort as the times they denote. */
  lemma KeyOrder(a: string, b: string)
    requires Key(a) && Key(b)
    ensures StringLe(a, b) <==> Time(a) <= Time(b)
  {
    var da, db, ta, tb := a[..8], b[..8], a[9..21], b[9..21];
    assert a == da + ("T" + (ta + "Z")) && b == db + ("T" + (tb + "Z"));
    SharedHead(da, db, "T" + (ta + "Z"), "T" + (tb + "Z"));
    SharedHead("T", "T", ta + "Z", tb + "Z");
    SharedHead(ta, tb, "Z", "Z");
    SharedHead("Z", "Z", "", "");
    SharedHead(da, db, ta, tb);
    SharedHead(ta, tb, "", "");
    assert ta + "" == ta && tb + "" == tb;
    DigitOrder(KeyDigits(a), KeyDigits(b));
  }

  datatype Rotation = Rotation(name: string, file: File)

  predicate IsRotation(r: Rotation) {
    RotationStamp(r.name) != ""
  }

  function RotationTime(r: Rotation): nat
    requires IsRotation(r)
  {
    Time(RotationStamp(r.name))
  }

  function Insert(r: Rotation, sorted: seq<Rotation>): seq<Rotation> {
    if sorted == [] || StringLe(RotationStamp(r.name), RotationStamp(sorted[0].name)) then [r] + sorted
    else [sorted[0]] + Insert(r, sorted[1..])
  }

  /** The stable sort by key. */
  function InKeyOrder(rotations: seq<Rotation>): seq<Rotation> {
    if rotations == [] then [] else Insert(rotations[0], InKeyOrder(rotations[1..]))
  }

  predicate AllRotations(rotations: seq<Rotation>) {
    forall r | r in rotations :: IsRotation(r)
  }

  predicate InTimeOrder(rotations: seq<Rotation>)
    requires AllRotations(rotations)
  {
    rotations == [] ||
    ((forall r | r in rotations[1..] :: RotationTime(rotations[0]) <= RotationTime(r)) && InTimeOrder(rotations[1..]))
  }

  lemma {:induction false} InsertOrdered(r: Rotation, sorted: seq<Rotation>)
    requires IsRotation(r) && AllRotations(sorted) && InTimeOrder(sorted)
    ensures multiset(Insert(r, sorted)) == multiset(sorted) + multiset{r}
    ensures forall x | x in Insert(r, sorted) :: x == r || x in sorted
    ensures InTimeOrder(Insert(r, sorted))
  {
    if sorted == [] {
    } else {
      var head, rest := sorted[0], sorted[1..];
      assert sorted == [head] + rest && head in sorted;
      KeyOrder(RotationStamp(r.name), RotationStamp(head.name));
      if StringLe(RotationStamp(r.name), RotationStamp(head.name)) {
        assert ([r] + sorted)[1..] == sorted;
      } else {
        InsertOrdered(r, rest);
        assert ([head] + Insert(r, rest))[1..] == Insert(r, rest);
      }
    }
  }

  /** The rotations are visited in time order, each once. */
  lemma {:induction false} KeyOrderIsTimeOrder(rotations: seq<Rotation>)
    requires AllRotations(rotations)
    ensures multiset(InKeyOrder(rotations)) == multiset(rotations)
    ensures AllRotations(InKeyOrder(rotations)) && InTimeOrder(InKeyOrder(rotations))
  {
    if rotations == [] {
    } else {
      assert rotations == [rotations[0]] + rotations[1..];
      KeyOrderIsTimeOrder(rotations[1..]);
      InsertOrdered(rotations[0], InKeyOrder(rotations[1..]));
    }
  }

  predicate DistinctTimes(rotations: seq<Rotation>)
    requires AllRotations(rotations)
  {
    forall r, s | r in rotations && s in rotations && RotationTime(r) == RotationTime(s) :: r == s
  }

  lemma FirstIsEarliest(rotations: seq<Rotation>, r: Rotation)
    requires AllRotations(rotations) && InTimeOrder(rotations) && r in rotations
    ensures RotationTime(rotations[0]) <= RotationTime(r)
  {
    assert r == rotations[0] || r in rotations[1..];
  }

  lemma WithoutFirst(a: seq<Rotation>)
    requires a != []
    ensures multiset(a[1..]) == multiset(a) - multiset{a[0]}
  {
    assert a == [a[0]] + a[1..];
  }

  lemma SameFirst(a: seq<Rotation>, b: seq<Rotation>)
    requires AllRotations(a) && AllRotations(b) && multiset(a) == multiset(b) && a != [] && b != []
    requires InTimeOrder(a) && InTimeOrder(b) && DistinctTimes(a)
    ensures a[0] == b[0]
  {
    assert a[0] in multiset(b) && b[0] in multiset(a);
    FirstIsEarliest(a, b[0]);
    FirstIsEarliest(b, a[0]);
  }

  lemma {:induction false} TimeOrderUnique(a: seq<Rotation>, b: seq<Rotation>)
    requires AllRotations(a) && AllRotations(b) && multiset(a) == multiset(b)
    requires InTimeOrder(a) && InTimeOrder(b) && DistinctTimes(a)
    ensures a == b
  {
    assert |multiset(a)| == |a| && |multiset(b)| == |b|;
    if a != [] {
      SameFirst(a, b);
      WithoutFirst(a);
      WithoutFirst(b);
      TimeOrderUnique(a[1..], b[1..]);
      SameHead(a, b);
    }
  }

  lemma SameHead(a: seq<Rotation>, b: seq<Rotation>)
    requires a != [] && b != [] && a[0] == b[0] && a[1..] == b[1..]
    ensures a == b
  {
    assert a == [a[0]] + a[1..] && b == [b[0]] + b[1..];
  }

  /** Unless two rotations share a time, the order does not depend on the directory listing. */
  lemma ListingIrrelevant(a: seq<Rotation>, b: seq<Rotation>)
    requires AllRotations(a) && multiset(a) == multiset(b) && DistinctTimes(a)
    ensures InKeyOrder(a) == InKeyOrder(b)
  {
    forall r | r in b ensures IsRotation(r) {
      assert r in multiset(a);
    }
    KeyOrderIsTimeOrder(a);
    KeyOrderIsTimeOrder(b);
    forall r | r in InKeyOrder(a) ensures r in a {
      assert r in multiset(a);
    }
    TimeOrderUnique(InKeyOrder(a), InKeyOrder(b));
  }

  // ----- the chain of files -----

  function TailOf(r: FileResult): Option<string> {
    if r.Checked? then Some(r.scan.tail) else None
  }

  /** Each file anchored at the tail hash of the one before; no anchor behind a file that could
      not be checked. */
  function Chain(codec: Codec, files: seq<File>, expected: Option<string>): (results: seq<FileResult>)
    ensures |results| == |files|
  {
    if files == [] then []
    else
      var r := CheckFile(codec, files[0], expected, None);
      [r] + Chain(codec, files[1..], TailOf(r))
  }

  predicate AllPassed(results: seq<FileResult>) {
    forall i | 0 <= i < |results| :: Passed(results[i])
  }

  function Counted(r: FileResult): Scan {
    if r.Checked? then r.scan else Scan(0, 0, 0, None, "", "", None)
  }

  datatype Tally = Tally(records: nat, valid: nat, corrupt: nat)

  function Add(t: Tally, s: Scan): Tally {
    Tally(t.records + s.records, t.valid + s.valid, t.corrupt + s.corrupt)
  }

  /** Records, valid and corrupt over all files. */
  function Totals(results: seq<FileResult>): Tally {
    if results == [] then Tally(0, 0, 0)
    else Add(Totals(results[..|results| - 1]), Counted(results[|results| - 1]))
  }

  /** What the anchor file holds: the latest rotation's name and tail hash. */
  datatype Anchor = NoAnchor | Unparsable | Anchor(rotated: string, tailHash: string)

  datatype AnchorStatus =
    | Fine
    | InvalidAnchor
    | WithoutRotation
    | RotationMismatch(expected: string)
    | TailMismatch(observed: string)

  function CheckAnchor(anchor: Anchor, rotated: seq<Rotation>, results: seq<FileResult>): AnchorStatus
    requires |rotated| <= |results|
  {
    match anchor
    case NoAnchor => Fine
    case Unparsable => InvalidAnchor
    case Anchor(name, tailHash) =>
      if rotated == [] then WithoutRotation
      else
        var latest := |rotated| - 1;
        if name != rotated[latest].name then RotationMismatch(rotated[latest].name)
        else if TailOf(results[latest]) != Some(tailHash) then TailMismatch(Counted(results[latest]).tail)
        else Fine
  }

  datatype Outcome =
    | TooManyRotations
    | InvalidRotationName
    | NoFiles
    | Summary(
        ok: bool, results: seq<FileResult>, totals: Tally, root: string, tail: string, anchor: AnchorStatus)

  function FilesOf(rotated: seq<Rotation>, current: Option<File>): (files: seq<File>)
    ensures |rotated| <= |files|
  {
    seq(|rotated|, i requires 0 <= i < |rotated| => rotated[i].file) + if current.Some? then [current.value] else []
  }

  function Summarize(rotated: seq<Rotation>, results: seq<FileResult>, anchor: Anchor): Outcome
    requires |rotated| <= |results| && results != []
  {
    var status := CheckAnchor(anchor, rotated, results);
    Summary(AllPassed(results) && status.Fine?, results, Totals(results),
      Counted(results[0]).firstPrev, Counted(results[|results| - 1]).tail, status)
  }

  function AllGenerations(codec: Codec, candidates: seq<Rotation>, current: Option<File>, anchor: Anchor): Outcome {
    if |candidates| > MAX_ROTATIONS then TooManyRotations
    else if !AllRotations(candidates) then InvalidRotationName
    else
      var rotated := InKeyOrder(candidates);
      var files := FilesOf(rotated, current);
      if files == [] then NoFiles else Summarize(rotated, Chain(codec, files, None), anchor)
  }

  method VerifyAllGenerations(codec: Codec, candidates: seq<Rotation>, current: Option<File>, anchor: Anchor)
      returns (outcome: Outcome)
    ensures outcome == AllGenerations(codec, candidates, current, anchor)
  {
    if |candidates| > MAX_ROTATIONS {
      return TooManyRotations;
    }
    if !AllRotations(candidates) {
      return InvalidRotationName;
    }
    var rotated := InKeyOrder(candidates);
    var files := FilesOf(rotated, current);
    if files == [] {
      return NoFiles;
    }
    outcome := CheckChain(codec, files, rotated, anchor);
  }

  function NextExpected(results: seq<FileResult>): Option<string> {
    if results == [] then None else TailOf(results[|results| - 1])
  }

  lemma ChainStep(codec: Codec, files: seq<File>, i: nat, results: seq<FileResult>)
    requires i < |files|
    ensures var r := CheckFile(codec, files[i], NextExpected(results), None);
      results + Chain(codec, files[i..], NextExpected(results)) ==
      (results + [r]) + Chain(codec, files[i + 1..], NextExpected(results + [r]))
  {
    assert files[i..][1..] == files[i + 1..];
  }

  lemma TotalsStep(results: seq<FileResult>, r: FileResult)
    ensures Totals(results + [r]) == Add(Totals(results), Counted(r))
  {
    assert (results + [r])[..|results|] == results;
  }

  lemma AllPassedStep(results: seq<FileResult>, r: FileResult)
    ensures AllPassed(results + [r]) <==> AllPassed(results) && Passed(r)
  {
    var all := results + [r];
    assert all[|results|] == r && forall i :: 0 <= i < |results| ==> results[i] == all[i];
  }

  /** The loop over the files. */
  method CheckFiles(codec: Codec, files: seq<File>) returns (results: seq<FileResult>, totals: Tally, ok: bool)
    ensures results == Chain(codec, files, None) && totals == Totals(results) && ok == AllPassed(results)
  {
    results, totals, ok := [], Tally(0, 0, 0), true;
    assert files[0..] == files;
    for i := 0 to |files|
      invariant |results| == i
      invariant Chain(codec, files, None) == results + Chain(codec, files[i..], NextExpected(results))
      invariant totals == Totals(results) && ok == AllPassed(results)
    {
      var r := VerifySingleFile(codec, files[i], NextExpected(results), None);
      ChainStep(codec, files, i, results);
      TotalsStep(results, r);
      AllPassedStep(results, r);
      results := results + [r];
      totals := Add(totals, Counted(r));
      ok := ok && Passed(r);
    }
    ChainEnds(codec, files, results);
  }

  method CheckChain(codec: Codec, files: seq<File>, rotated: seq<Rotation>, anchor: Anchor) returns (outcome: Outcome)
    requires |rotated| <= |files| && files != []
    ensures outcome == Summarize(rotated, Chain(codec, files, None), anchor)
  {
    var results, totals, ok := CheckFiles(codec, files);
    var status := CheckAnchor(anchor, rotated, results);
    return Summary(ok && status.Fine?, results, totals,
      Counted(results[0]).firstPrev, Counted(results[|results| - 1]).tail, status);
  }

  lemma ChainEnds(codec: Codec, files: seq<File>, results: seq<FileResult>)
    requires |results| == |files| &&
      Chain(codec, files, None) == results + Chain(codec, files[|files|..], NextExpected(results))
    ensures results == Chain(codec, files, None)
  {
  }

  // ----- what the chain of files guarantees -----

  /** All lines of all files, in order. */
  function AllLines(codec: Codec, files: seq<File>): seq<Line> {
    if files == [] then []
    else (if files[0].Regular? then LogLines(codec, files[0].content) else []) + AllLines(codec, files[1..])
  }

  /** The file can be read and holds a record. */
  predicate HoldsRecord(codec: Codec, file: File) {
    Openable(file) && Entries(LogLines(codec, file.content)) != []
  }

  predicate AllHoldRecords(codec: Codec, files: seq<File>) {
    forall i | 0 <= i < |files| :: HoldsRecord(codec, files[i])
  }

  lemma {:induction false} EntriesJoin(a: seq<Line>, b: seq<Line>)
    ensures Entries(a + b) == Entries(a) + Entries(b)
  {
    if a == [] {
      assert a + b == b;
    } else {
      var first := if a[0].Entry? then [a[0].record] else [];
      assert (a + b)[1..] == a[1..] + b;
      EntriesJoin(a[1..], b);
      assert first + (Entries(a[1..]) + Entries(b)) == (first + Entries(a[1..])) + Entries(b);
    }
  }

  lemma {:induction false} CleanJoin(codec: Codec, previous: Option<string>, a: seq<Line>, b: seq<Line>)
    ensures Clean(codec, previous, a + b) <==>
      Clean(codec, previous, a) && Clean(codec, LastHash(previous, Entries(a)), b)
    decreases |a|
  {
    if a == [] {
      assert a + b == b;
    } else {
      assert (a + b)[1..] == a[1..] + b;
      CleanFirst(codec, previous, a + b);
      CleanFirst(codec, previous, a);
      LastHashFirst(previous, a);
      if a[0].Blank? {
        CleanJoin(codec, previous, a[1..], b);
      } else if a[0].Entry? {
        CleanJoin(codec, a[0].record.hash, a[1..], b);
      }
    }
  }

  lemma LastHashFirst(previous: Option<string>, lines: seq<Line>)
    requires lines != []
    ensures LastHash(previous, Entries(lines)) ==
      LastHash(if lines[0].Entry? then lines[0].record.hash else previous, Entries(lines[1..]))
  {
    if lines[0].Entry? {
      assert Entries(lines) == [lines[0].record] + Entries(lines[1..]);
    } else {
      assert Entries(lines) == Entries(lines[1..]);
    }
  }

  lemma PassedTail(codec: Codec, file: File, expected: Option<string>)
    requires Passed(CheckFile(codec, file, expected, None))
    ensures TailOf(CheckFile(codec, file, expected, None)) == LastHash(None, Entries(LogLines(codec, file.content)))
    ensures ValidHash(LastHash(None, Entries(LogLines(codec, file.content))))
  {
    CheckedScan(codec, file, expected);
    OkIffClean(codec, file, expected);
    CleanTail(codec, expected.Some?, 1, Start(expected), LogLines(codec, file.content));
    var es := Entries(LogLines(codec, file.content));
    assert Sound(codec, es[|es| - 1]);
  }

  lemma AllPassedFirst(r: FileResult, others: seq<FileResult>)
    ensures AllPassed([r] + others) <==> Passed(r) && AllPassed(others)
  {
    var all := [r] + others;
    assert all[0] == r && forall i :: 0 <= i < |others| ==> others[i] == all[i + 1];
  }

  /** Chaining files through their tails accepts exactly the histories that verify as one log
      and leave no file without a record. */
  lemma {:induction false} ChainIsOneLog(codec: Codec, files: seq<File>, expected: Option<string>)
    requires expected.Some? ==> ValidHash(expected)
    ensures AllPassed(Chain(codec, files, expected)) <==>
      AllHoldRecords(codec, files) && Clean(codec, expected, AllLines(codec, files))
    decreases |files|
  {
    if files == [] {
    } else {
      var file, rest := files[0], files[1..];
      var r := CheckFile(codec, file, expected, None);
      OkIffClean(codec, file, expected);
      assert files == [file] + rest;
      assert AllHoldRecords(codec, files) <==> HoldsRecord(codec, file) && AllHoldRecords(codec, rest);
      var others := Chain(codec, rest, TailOf(r));
      AllPassedFirst(r, others);
      if HoldsRecord(codec, file) {
        CleanJoin(codec, expected, LogLines(codec, file.content), AllLines(codec, rest));
      }
      if Passed(r) {
        PassedTail(codec, file, expected);
        ChainIsOneLog(codec, rest, TailOf(r));
      }
    }
  }

  /** The contents of all files, one behind the other. */
  function AllBytes(files: seq<File>): Bytes {
    if files == [] then []
    else (if files[0].Regular? then files[0].content else []) + AllBytes(files[1..])
  }

  predicate EndsLine(file: File) {
    file.Regular? && file.content != [] ==> file.content[|file.content| - 1] == NEWLINE
  }

  predicate AllButLastEndLines(files: seq<File>) {
    forall i | 0 <= i < |files| - 1 :: EndsLine(files[i])
  }

  lemma {:induction false} LinesOfAllBytes(codec: Codec, files: seq<File>)
    requires AllButLastEndLines(files)
    ensures LogLines(codec, AllBytes(files)) == AllLines(codec, files)
  {
    if files == [] {
      assert LogLines(codec, []) == [];
    } else {
      var mine, rest := if files[0].Regular? then files[0].content else [], files[1..];
      LinesOfAllBytes(codec, rest);
      if rest == [] {
        assert mine + [] == mine;
        assert LogLines(codec, mine) + [] == LogLines(codec, mine);
      } else {
        assert EndsLine(files[0]);
        LogLinesJoin(codec, mine, AllBytes(rest));
      }
    }
  }

  lemma {:induction false} RecordsInAll(codec: Codec, files: seq<File>)
    requires files != [] && AllHoldRecords(codec, files)
    ensures Entries(AllLines(codec, files)) != []
  {
    assert HoldsRecord(codec, files[0]);
    EntriesJoin(LogLines(codec, files[0].content), AllLines(codec, files[1..]));
  }

  /** Chaining files through their tails accepts exactly what checking their concatenation as
      one file accepts, when no file holds no record. Every file but the last must end its last
      line, and the concatenation must not be too large for one file. */
  lemma ChainIsOneFile(codec: Codec, files: seq<File>, expected: Option<string>)
    requires files != [] && (expected.Some? ==> ValidHash(expected))
    requires AllButLastEndLines(files) && |AllBytes(files)| <= MAX_EVENT_FILE_BYTES
    ensures AllPassed(Chain(codec, files, expected)) <==>
      AllHoldRecords(codec, files) && Passed(CheckFile(codec, Regular(AllBytes(files)), expected, None))
  {
    ChainIsOneLog(codec, files, expected);
    LinesOfAllBytes(codec, files);
    OkIffClean(codec, Regular(AllBytes(files)), expected);
    if AllHoldRecords(codec, files) {
      RecordsInAll(codec, files);
    }
  }

  lemma {:induction false} ChainTail(codec: Codec, files: seq<File>, expected: Option<string>, n: nat)
    requires (expected.Some? ==> ValidHash(expected)) && AllPassed(Chain(codec, files, expected)) && 0 < n <= |files|
    ensures TailOf(Chain(codec, files, expected)[n - 1]) == LastHash(None, Entries(AllLines(codec, files[..n])))
    ensures Entries(AllLines(codec, files[..n])) != []
    decreases n
  {
    var file, rest := files[0], files[1..];
    var r := CheckFile(codec, file, expected, None);
    var others := Chain(codec, rest, TailOf(r));
    assert Chain(codec, files, expected) == [r] + others;
    AllPassedFirst(r, others);
    PassedTail(codec, file, expected);
    OkIffClean(codec, file, expected);
    assert files[..n][1..] == rest[..n - 1];
    var mine, theirs := LogLines(codec, file.content), AllLines(codec, rest[..n - 1]);
    EntriesJoin(mine, theirs);
    if n > 1 {
      ChainTail(codec, rest, TailOf(r), n - 1);
    }
  }

  // ----- the directory -----

  function LinesIn(codec: Codec, file: File): seq<Line> {
    if file.Regular? then LogLines(codec, file.content) else []
  }

  /** The lines of every rotation, in order, and behind them those of the current log. */
  function History(codec: Codec, rotated: seq<Rotation>, current: Option<File>): seq<Line> {
    if rotated != [] then LinesIn(codec, rotated[0].file) + History(codec, rotated[1..], current)
    else if current.Some? then LinesIn(codec, current.value)
    else []
  }

  /** The anchor file names the latest rotation and the hash its history ends with. */
  predicate AnchorAgrees(codec: Codec, anchor: Anchor, rotated: seq<Rotation>) {
    anchor.NoAnchor? ||
    (anchor.Anchor? && rotated != [] && anchor.rotated == rotated[|rotated| - 1].name &&
      Some(anchor.tailHash) == LastHash(None, Entries(History(codec, rotated, None))))
  }

  /** Every rotation and the current log, if there is one, hold a record, and together they are
      one clean history with which the anchor agrees. */
  predicate OneHistory(codec: Codec, rotated: seq<Rotation>, current: Option<File>, anchor: Anchor) {
    && (rotated != [] || current.Some?)
    && (forall r | r in rotated :: HoldsRecord(codec, r.file))
    && (current.Some? ==> HoldsRecord(codec, current.value))
    && Clean(codec, None, History(codec, rotated, current))
    && AnchorAgrees(codec, anchor, rotated)
  }

  lemma {:induction false} HistoryIsAllLines(codec: Codec, rotated: seq<Rotation>, current: Option<File>)
    ensures AllLines(codec, FilesOf(rotated, current)) == History(codec, rotated, current)
  {
    var files := FilesOf(rotated, current);
    if rotated == [] {
      if current.Some? {
        assert files == [current.value];
        assert LinesIn(codec, current.value) + [] == LinesIn(codec, current.value);
      }
    } else {
      assert files[1..] == FilesOf(rotated[1..], current);
      HistoryIsAllLines(codec, rotated[1..], current);
    }
  }

  lemma FilesHoldRecords(codec: Codec, rotated: seq<Rotation>, current: Option<File>)
    ensures AllHoldRecords(codec, FilesOf(rotated, current)) <==>
      (forall r | r in rotated :: HoldsRecord(codec, r.file)) && (current.Some? ==> HoldsRecord(codec, current.value))
  {
    var files := FilesOf(rotated, current);
    forall i | 0 <= i < |rotated| ensures files[i] == rotated[i].file && rotated[i] in rotated {
    }
    assert current.Some? ==> files[|rotated|] == current.value;
    if AllHoldRecords(codec, files) {
      forall r | r in rotated ensures HoldsRecord(codec, r.file) {
        var i :| 0 <= i < |rotated| && rotated[i] == r;
        assert HoldsRecord(codec, files[i]);
      }
    }
  }

  lemma AnchorFineIff(codec: Codec, rotated: seq<Rotation>, files: seq<File>, anchor: Anchor)
    requires |rotated| <= |files| && files[..|rotated|] == FilesOf(rotated, None)
    requires AllPassed(Chain(codec, files, None))
    ensures CheckAnchor(anchor, rotated, Chain(codec, files, None)).Fine? <==> AnchorAgrees(codec, anchor, rotated)
  {
    if rotated != [] {
      ChainTail(codec, files, None, |rotated|);
      HistoryIsAllLines(codec, rotated, None);
    }
  }

  lemma SummaryOk(codec: Codec, rotated: seq<Rotation>, current: Option<File>, anchor: Anchor)
    requires FilesOf(rotated, current) != []
    ensures var files := FilesOf(rotated, current);
      Summarize(rotated, Chain(codec, files, None), anchor).ok <==> OneHistory(codec, rotated, current, anchor)
  {
    var files := FilesOf(rotated, current);
    ChainIsOneLog(codec, files, None);
    FilesHoldRecords(codec, rotated, current);
    HistoryIsAllLines(codec, rotated, current);
    if AllPassed(Chain(codec, files, None)) {
      assert files[..|rotated|] == FilesOf(rotated, None);
      AnchorFineIff(codec, rotated, files, anchor);
    }
  }

  predicate Verified(outcome: Outcome) {
    outcome.Summary? && outcome.ok
  }

  /** A directory verifies exactly when its rotations are not too many, have well-formed names,
      and are, in time order and with the current log behind them, one clean history. */
  lemma GenerationsIffOneHistory(codec: Codec, candidates: seq<Rotation>, current: Option<File>, anchor: Anchor)
    ensures Verified(AllGenerations(codec, candidates, current, anchor)) <==>
      |candidates| <= MAX_ROTATIONS && AllRotations(candidates) && OneHistory(codec, InKeyOrder(candidates), current, anchor)
  {
    var rotated := InKeyOrder(candidates);
    if FilesOf(rotated, current) != [] {
      SummaryOk(codec, rotated, current, anchor);
    } else {
      assert |FilesOf(rotated, current)| == 0;
    }
  }

  /** If no two rotations share a time, it does not matter how their time order is found. */
  lemma GenerationsInTimeOrder(
      codec: Codec, candidates: seq<Rotation>, order: seq<Rotation>, current: Option<File>, anchor: Anchor)
    requires AllRotations(order) && InTimeOrder(order) && DistinctTimes(order)
    requires multiset(order) == multiset(candidates) && |candidates| <= MAX_ROTATIONS
    ensures Verified(AllGenerations(codec, candidates, current, anchor)) <==> OneHistory(codec, order, current, anchor)
  {
    forall r | r in candidates ensures IsRotation(r) {
      assert r in multiset(order);
    }
    KeyOrderIsTimeOrder(candidates);
    TimeOrderUnique(order, InKeyOrder(candidates));
    GenerationsIffOneHistory(codec, candidates, current, anchor);
  }

  // ----- what a verified directory reports -----

  lemma FileReports(codec: Codec, file: File, expected: Option<string>)
    requires Passed(CheckFile(codec, file, expected, None))
    ensures var s, records := CheckFile(codec, file, expected, None).scan, Entries(LogLines(codec, file.content));
      && Openable(file) && records != [] && s.records == s.valid == |records| && s.corrupt == 0
      && Some(s.tail) == LastHash(None, records) && Some(s.firstPrev) == records[0].prev
  {
    var lines := LogLines(codec, file.content);
    CheckedScan(codec, file, expected);
    OkIffClean(codec, file, expected);
    EntriesCounted(codec, expected, lines);
    ScanCounts(codec, expected.Some?, 1, Start(expected), lines);
    CleanTail(codec, expected.Some?, 1, Start(expected), lines);
  }

  lemma {:induction false} TotalsFirst(r: FileResult, others: seq<FileResult>)
    ensures Totals([r] + others) == Add(Totals(others), Counted(r))
  {
    var all, n := [r] + others, |others| - 1;
    if others == [] {
      assert all[..0] == [];
    } else {
      assert all[..n + 1] == [r] + others[..n];
      TotalsFirst(r, others[..n]);
    }
  }

  lemma {:induction false} ChainReports(codec: Codec, files: seq<File>, expected: Option<string>)
    requires AllPassed(Chain(codec, files, expected))
    ensures var n := |Entries(AllLines(codec, files))|; Totals(Chain(codec, files, expected)) == Tally(n, n, 0)
    decreases |files|
  {
    if files == [] {
    } else {
      var file, rest := files[0], files[1..];
      var r := CheckFile(codec, file, expected, None);
      var others := Chain(codec, rest, TailOf(r));
      AllPassedFirst(r, others);
      FileReports(codec, file, expected);
      ChainReports(codec, rest, TailOf(r));
      TotalsFirst(r, others);
      EntriesJoin(LogLines(codec, file.content), AllLines(codec, rest));
    }
  }

  lemma RootReports(codec: Codec, files: seq<File>)
    requires files != [] && AllPassed(Chain(codec, files, None))
    ensures var records := Entries(AllLines(codec, files));
      records != [] && Some(Counted(Chain(codec, files, None)[0]).firstPrev) == records[0].prev
  {
    assert Chain(codec, files, None)[0] == CheckFile(codec, files[0], None, None);
    FileReports(codec, files[0], None);
    EntriesJoin(LogLines(codec, files[0].content), AllLines(codec, files[1..]));
  }

  lemma TailReports(codec: Codec, files: seq<File>)
    requires files != [] && AllPassed(Chain(codec, files, None))
    ensures var records := Entries(AllLines(codec, files));
      records != [] && Some(Counted(Chain(codec, files, None)[|files| - 1]).tail) == LastHash(None, records)
  {
    ChainTail(codec, files, None, |files|);
    assert files[..|files|] == files;
    assert Passed(Chain(codec, files, None)[|files| - 1]);
  }

  /** The reported number of records, none of them corrupt, and the first and the last hash. */
  predicate Reports(outcome: Outcome, records: seq<Record>) {
    && outcome.Summary? && records != [] && outcome.totals == Tally(|records|, |records|, 0)
    && Some(outcome.root) == records[0].prev && Some(outcome.tail) == LastHash(None, records)
  }

  lemma SummaryReports(codec: Codec, rotated: seq<Rotation>, files: seq<File>, anchor: Anchor)
    requires |rotated| <= |files| && files != [] && AllPassed(Chain(codec, files, None))
    ensures Reports(Summarize(rotated, Chain(codec, files, None), anchor), Entries(AllLines(codec, files)))
  {
    TailReports(codec, files);
    RootReports(codec, files);
    ChainReports(codec, files, None);
  }

  /** A verified directory reports the records of its history. */
  lemma VerifiedReports(codec: Codec, candidates: seq<Rotation>, current: Option<File>, anchor: Anchor)
    requires Verified(AllGenerations(codec, candidates, current, anchor))
    ensures Reports(AllGenerations(codec, candidates, current, anchor), Entries(History(codec, InKeyOrder(candidates), current)))
  {
    var rotated := InKeyOrder(candidates);
    SummaryReports(codec, rotated, FilesOf(rotated, current), anchor);
    HistoryIsAllLines(codec, rotated, current);
  }
}
