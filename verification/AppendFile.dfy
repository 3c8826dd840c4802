/**
 Concurrent appenders of norax/atomic.py (`append_bounded_text`): a lock per path in each process,
 then the advisory file lock. The operating system decides how much each write takes and when one
 fails. All callers name the same file.
 */
module AppendFile {
  import opened Common

  newtype byte = x: int | 0 <= x < 256

  type Bytes = seq<byte>

  // ----- one call under the lock -----

  datatype AppendError = InvalidLimit | TextTooLong | IrregularFile | WouldExceed | WriteFailed

  class LogFile {
    var content: Bytes

    constructor (content: Bytes)
      ensures this.content == content
    {
      this.content := content;
    }

    /** `os.write`: what it takes is decided by `wanted`; zero or less is a failed write. */
    method Write(data: Bytes, wanted: int) returns (written: int)
      modifies this
      ensures written <= |data| && (wanted > 0 && data != [] ==> written > 0)
      ensures content == if written > 0 then old(content) + data[..written] else old(content)
    {
      written := if wanted < |data| then wanted else |data|;
      if written > 0 {
        content := content + data[..written];
      }
    }

    /** The body of `append_bounded_text`. The k-th write is offered `wanted(k)`. */
    method AppendBounded(text: Bytes, maxBytes: int, regular: bool, wanted: nat -> int) returns (result: Result<nat, AppendError>)
      modifies this
      ensures result == Err(InvalidLimit) <==> maxBytes < 1
      ensures result == Err(TextTooLong) <==> 1 <= maxBytes < |text|
      ensures result == Err(IrregularFile) <==> maxBytes >= 1 && |text| <= maxBytes && !regular
      ensures result == Err(WouldExceed) <==>
        maxBytes >= 1 && |text| <= maxBytes && regular && |old(content)| + |text| > maxBytes
      ensures result.Ok? ==> content == old(content) + text && result.value == |content| <= maxBytes
      ensures result.Err? && result.error != WriteFailed ==> content == old(content)
      ensures result == Err(WriteFailed) ==> old(content) <= content < old(content) + text
      ensures (forall k :: wanted(k) > 0) ==> result != Err(WriteFailed)
    {
      if maxBytes < 1 {
        return Err(InvalidLimit);
      }
      if |text| > maxBytes {
        return Err(TextTooLong);
      }
      if !regular {
        return Err(IrregularFile);
      }
      var size := |content|;
      if size + |text| > maxBytes {
        return Err(WouldExceed);
      }
      var remaining, k := text, 0;
      while remaining != []
        invariant |remaining| <= |text| && remaining == text[|text| - |remaining|..]
        invariant content == old(content) + text[..|text| - |remaining|]
        decreases |remaining|
      {
        var written := Write(remaining, wanted(k));
        if written <= 0 {
          return Err(WriteFailed);
        }
        ghost var done := |text| - |remaining|;
        assert text[..done] + remaining[..written] == text[..done + written];
        remaining := remaining[written..];
        k := k + 1;
      }
      return Ok(size + |text|);
    }
  }

  // ----- the protocol -----

  type Caller = nat

  /** Where a caller stands. `size` is the file size it read under the lock, `left` what it has
      still to write. */
  datatype Phase =
    | Started
    | PathLocked
    | Opened
    | FileLocked
    | Writing(size: nat, left: Bytes)
    | Returned(size: nat)
    | Rejected
    | Failed(written: Bytes)

  /** What a caller brings: its process and its encoded text. */
  datatype Call = Call(process: nat, text: Bytes)

  /** What one holder of the file lock appended. */
  datatype Entry = Entry(caller: Caller, bytes: Bytes)

  /** The file, where each caller stands, and what finished holders appended, in lock order. */
  datatype State = State(content: Bytes, phases: seq<Phase>, log: seq<Entry>)

  datatype Action =
    | Refuse
    | LockPath
    | Open(regular: bool)
    | LockFile
    | CheckSize
    | WriteSome(n: nat)
    | WriteError
    | Finish

  datatype World = World(calls: seq<Call>, maxBytes: int)

  predicate HoldsPath(p: Phase) {
    p.PathLocked? || p.Opened? || HoldsFile(p)
  }

  predicate HoldsFile(p: Phase) {
    p.FileLocked? || p.Writing?
  }

  predicate Finished(p: Phase) {
    p.Returned? || p.Rejected? || p.Failed?
  }

  predicate PathFree(w: World, s: State, process: nat)
    requires |s.phases| == |w.calls|
  {
    forall d | 0 <= d < |s.phases| && w.calls[d].process == process :: !HoldsPath(s.phases[d])
  }

  predicate FileFree(s: State) {
    forall d | 0 <= d < |s.phases| :: !HoldsFile(s.phases[d])
  }

  /** The checks before any lock. */
  predicate Admitted(w: World, c: Caller)
    requires c < |w.calls|
  {
    w.maxBytes >= 1 && |w.calls[c].text| <= w.maxBytes
  }

  predicate Enabled(w: World, s: State, c: Caller, a: Action) {
    |s.phases| == |w.calls| && c < |w.calls| &&
    var p := s.phases[c];
    match a
    case Refuse => p.Started? && !Admitted(w, c)
    case LockPath => p.Started? && Admitted(w, c) && PathFree(w, s, w.calls[c].process)
    case Open(_) => p.PathLocked?
    case LockFile => p.Opened? && FileFree(s)
    case CheckSize => p.FileLocked?
    case WriteSome(n) => p.Writing? && 0 < n <= |p.left|
    case WriteError => p.Writing? && p.left != []
    case Finish => p.Writing? && p.left == []
  }

  function Done(text: Bytes, left: Bytes): Bytes {
    if |left| <= |text| then text[..|text| - |left|] else []
  }

  function Do(w: World, s: State, c: Caller, a: Action): State
    requires Enabled(w, s, c, a)
  {
    var p, text := s.phases[c], w.calls[c].text;
    match a
    case Refuse => s.(phases := s.phases[c := Rejected])
    case LockPath => s.(phases := s.phases[c := PathLocked])
    case Open(regular) => s.(phases := s.phases[c := if regular then Opened else Rejected])
    case LockFile => s.(phases := s.phases[c := FileLocked])
    case CheckSize =>
      s.(phases := s.phases[c :=
        if |s.content| + |text| > w.maxBytes then Rejected else Writing(|s.content|, text)])
    case WriteSome(n) => State(s.content + p.left[..n], s.phases[c := Writing(p.size, p.left[n..])], s.log)
    case WriteError =>
      s.(phases := s.phases[c := Failed(Done(text, p.left))], log := s.log + [Entry(c, Done(text, p.left))])
    case Finish => s.(phases := s.phases[c := Returned(p.size + |text|)], log := s.log + [Entry(c, text)])
  }

  datatype Move = Move(caller: Caller, action: Action)

  function Initial(w: World, content: Bytes): State {
    State(content, seq(|w.calls|, _ => Started), [])
  }

  /** The runs: any interleaving of enabled moves. */
  predicate Possible(w: World, s: State, moves: seq<Move>)
    decreases |moves|, 0
  {
    moves == [] ||
    var n := |moves| - 1;
    Possible(w, s, moves[..n]) && Enabled(w, After(w, s, moves[..n]), moves[n].caller, moves[n].action)
  }

  function After(w: World, s: State, moves: seq<Move>): State
    requires Possible(w, s, moves)
    decreases |moves|, 1
  {
    if moves == [] then s
    else
      var n := |moves| - 1;
      Do(w, After(w, s, moves[..n]), moves[n].caller, moves[n].action)
  }
}
