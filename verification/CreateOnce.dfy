/**
 Concurrent creators of norax/atomic.py (`atomic_create_bytes`): each fills a private temporary
 file and commits it with a hard link. All callers name the same target. Temporary names are
 unique; writing, linking and syncing may fail with an error that the caller sees.
 */
module CreateOnce {
  import opened Common
  import opened AppendFile

  /** `temp` is what the caller's temporary file holds. */
  datatype Stage =
    | Waiting
    | Locked
    | Filling(temp: Bytes)
    | Filled(temp: Bytes)
    | Linked
    | Created
    | Existed
    | Raised(installed: bool)

  datatype Creation = Creation(process: nat, data: Bytes)

  /** The target's content, if it exists, and who linked it there. */
  datatype Files = Files(target: Option<Bytes>, installer: Option<nat>, stages: seq<Stage>)

  datatype Act = Lock | Check | Fill(n: nat) | Flush | Link | Sync | Fault

  predicate Active(p: Stage) {
    p.Locked? || p.Filling? || p.Filled? || p.Linked?
  }

  predicate Ended(p: Stage) {
    p.Created? || p.Existed? || p.Raised?
  }

  predicate Installed(p: Stage) {
    p.Linked? || p.Created? || p == Raised(true)
  }

  predicate Free(w: seq<Creation>, s: Files, process: nat)
    requires |s.stages| == |w|
  {
    forall d | 0 <= d < |w| && w[d].process == process :: !Active(s.stages[d])
  }

  predicate CanAct(w: seq<Creation>, s: Files, c: nat, a: Act) {
    |s.stages| == |w| && c < |w| &&
    var p := s.stages[c];
    match a
    case Lock => p.Waiting? && Free(w, s, w[c].process)
    case Check => p.Locked?
    case Fill(n) => p.Filling? && 0 < n <= |w[c].data| - |p.temp|
    case Flush => p.Filling? && |p.temp| >= |w[c].data|
    case Link => p.Filled?
    case Sync => p.Linked?
    case Fault => Active(p)
  }

  function Advance(w: seq<Creation>, s: Files, c: nat, a: Act): Files
    requires CanAct(w, s, c, a)
  {
    var p := s.stages[c];
    match a
    case Lock => s.(stages := s.stages[c := Locked])
    case Check => s.(stages := s.stages[c := if s.target.Some? then Existed else Filling([])])
    case Fill(n) => s.(stages := s.stages[c := Filling(p.temp + w[c].data[|p.temp|..|p.temp| + n])])
    case Flush => s.(stages := s.stages[c := Filled(p.temp)])
    case Link =>
      if s.target.Some? then s.(stages := s.stages[c := Existed])
      else Files(Some(p.temp), Some(c), s.stages[c := Linked])
    case Sync => s.(stages := s.stages[c := Created])
    case Fault => s.(stages := s.stages[c := Raised(p.Linked?)])
  }

  datatype Turn = Turn(caller: nat, act: Act)

  function Before(w: seq<Creation>, target: Option<Bytes>): Files {
    Files(target, None, seq(|w|, _ => Waiting))
  }

  predicate Valid(w: seq<Creation>, s: Files, turns: seq<Turn>)
    decreases |turns|, 0
  {
    turns == [] ||
    var n := |turns| - 1;
    Valid(w, s, turns[..n]) && CanAct(w, Outcome(w, s, turns[..n]), turns[n].caller, turns[n].act)
  }

  function Outcome(w: seq<Creation>, s: Files, turns: seq<Turn>): Files
    requires Valid(w, s, turns)
    decreases |turns|, 1
  {
    if turns == [] then s
    else
      var n := |turns| - 1;
      Advance(w, Outcome(w, s, turns[..n]), turns[n].caller, turns[n].act)
  }
}
