/** What concurrent appenders guarantee over every interleaving. */
module AppendTheorems {
  import opened Common
  import opened AppendFile

  // ----- what every step keeps -----

  function Join(log: seq<Entry>): Bytes {
    if log == [] then [] else Join(log[..|log| - 1]) + log[|log| - 1].bytes
  }

  /** The holder of the file lock has appended the part of its text that is not left. */
  predicate HolderOk(w: World, s: State, base: Bytes, c: Caller)
    requires |s.phases| == |w.calls| && c < |w.calls|
  {
    var p, text := s.phases[c], w.calls[c].text;
    && (p.FileLocked? ==> s.content == base)
    && (p.Writing? ==>
        && |p.left| <= |text| && p.left == text[|text| - |p.left|..] && p.size == |base|
        && s.content == base + Done(text, p.left) && |base| + |text| <= w.maxBytes)
  }

  predicate Apart(w: World, s: State, c: Caller, d: Caller)
    requires |s.phases| == |w.calls| && c < |w.calls| && d < |w.calls|
  {
    && !(HoldsFile(s.phases[c]) && HoldsFile(s.phases[d]))
    && !(HoldsPath(s.phases[c]) && HoldsPath(s.phases[d]) && w.calls[c].process == w.calls[d].process)
  }

  /** Locks exclude. */
  predicate Exclusive(w: World, s: State) {
    |s.phases| == |w.calls| && forall c, d | 0 <= c < d < |w.calls| :: Apart(w, s, c, d)
  }

  /** The file is the initial content, what finished holders appended in lock order, and the
      current holder's part; appending never passes the limit. */
  predicate Content(w: World, initial: Bytes, s: State) {
    var base := initial + Join(s.log);
    && |s.phases| == |w.calls|
    && (forall c | 0 <= c < |w.calls| :: HolderOk(w, s, base, c))
    && (FileFree(s) ==> s.content == base)
    && (|s.content| <= w.maxBytes || s.content == initial)
  }

  lemma ExclusiveKept(w: World, s: State, c: Caller, a: Action)
    requires Exclusive(w, s) && Enabled(w, s, c, a)
    ensures Exclusive(w, Do(w, s, c, a))
  {
    var t := Do(w, s, c, a);
    forall d, e | 0 <= d < e < |w.calls| ensures Apart(w, t, d, e) {
      assert Apart(w, s, d, e);
    }
  }

  lemma OneHolder(w: World, s: State, c: Caller, d: Caller)
    requires Exclusive(w, s) && c < |w.calls| && d < |w.calls| && c != d && HoldsFile(s.phases[c])
    ensures !HoldsFile(s.phases[d])
  {
    assert c < d ==> Apart(w, s, c, d);
    assert d < c ==> Apart(w, s, d, c);
  }

  lemma WriteKeeps(w: World, base: Bytes, s: State, c: Caller, n: nat)
    requires Enabled(w, s, c, WriteSome(n)) && HolderOk(w, s, base, c)
    ensures var t := Do(w, s, c, WriteSome(n)); HolderOk(w, t, base, c) && |t.content| <= w.maxBytes
  {
    var text, left := w.calls[c].text, s.phases[c].left;
  }

  lemma EndKeeps(w: World, initial: Bytes, s: State, c: Caller, a: Action)
    requires Enabled(w, s, c, a) && (a.WriteError? || a.Finish?) && HolderOk(w, s, initial + Join(s.log), c)
    ensures var t := Do(w, s, c, a); t.content == initial + Join(t.log)
  {
    var text, left := w.calls[c].text, s.phases[c].left;
    if a.Finish? {
      assert Done(text, left) == text;
    }
  }

  /** The holder of the file lock moves. */
  lemma HolderMoves(w: World, initial: Bytes, s: State, c: Caller, a: Action)
    requires Exclusive(w, s) && Content(w, initial, s) && Enabled(w, s, c, a) && HoldsFile(s.phases[c])
    ensures Content(w, initial, Do(w, s, c, a))
  {
    var t := Do(w, s, c, a);
    forall d | 0 <= d < |w.calls| && d != c ensures !HoldsFile(t.phases[d]) {
      OneHolder(w, s, c, d);
    }
    assert HolderOk(w, s, initial + Join(s.log), c);
    match a {
      case CheckSize =>
      case WriteSome(n) => WriteKeeps(w, initial + Join(s.log), s, c, n);
      case _ => EndKeeps(w, initial, s, c, a);
    }
  }

  lemma ContentKept(w: World, initial: Bytes, s: State, c: Caller, a: Action)
    requires Exclusive(w, s) && Content(w, initial, s) && Enabled(w, s, c, a)
    ensures Content(w, initial, Do(w, s, c, a))
  {
    if HoldsFile(s.phases[c]) {
      HolderMoves(w, initial, s, c, a);
    } else {
      var t := Do(w, s, c, a);
      forall d | 0 <= d < |w.calls| ensures HolderOk(w, t, initial + Join(t.log), d) {
        assert HolderOk(w, s, initial + Join(s.log), d);
      }
      if FileFree(t) {
        forall d | 0 <= d < |s.phases| ensures !HoldsFile(s.phases[d]) {
          assert !HoldsFile(t.phases[d]);
        }
      }
    }
  }

  /** Over every interleaving: the file is whole texts in lock order, with the current holder's
      part behind them, and within the limit. */
  lemma {:induction false} RunKeeps(w: World, initial: Bytes, moves: seq<Move>)
    requires Possible(w, Initial(w, initial), moves)
    ensures var s := After(w, Initial(w, initial), moves);
      Exclusive(w, s) && Content(w, initial, s)
  {
    var s0 := Initial(w, initial);
    if moves == [] {
      assert initial + Join([]) == initial;
    } else {
      var n := |moves| - 1;
      RunKeeps(w, initial, moves[..n]);
      ExclusiveKept(w, After(w, s0, moves[..n]), moves[n].caller, moves[n].action);
      ContentKept(w, initial, After(w, s0, moves[..n]), moves[n].caller, moves[n].action);
    }
  }

  /** Only a write changes the file, so refused calls leave it alone. */
  lemma OnlyWritesChange(w: World, s: State, c: Caller, a: Action)
    requires Enabled(w, s, c, a) && Do(w, s, c, a).content != s.content
    ensures a.WriteSome? && HoldsFile(s.phases[c]) && !Do(w, s, c, a).phases[c].Rejected?
  {
  }

  // ----- outcomes -----

  /** How a log entry agrees with its caller's outcome; n entries reach up to and including it. */
  predicate EntryOk(w: World, initial: Bytes, s: State, n: nat)
    requires |s.phases| == |w.calls| && 0 < n <= |s.log|
  {
    var e := s.log[n - 1];
    e.caller < |w.calls| &&
    match s.phases[e.caller]
    case Returned(size) => e.bytes == w.calls[e.caller].text && size == |initial + Join(s.log[..n])|
    case Failed(part) => e.bytes == part < w.calls[e.caller].text
    case _ => false
  }

  predicate Outcomes(w: World, initial: Bytes, s: State) {
    && |s.phases| == |w.calls|
    && (forall n | 0 < n <= |s.log| :: EntryOk(w, initial, s, n))
    && CallersDistinct(s.log)
  }

  predicate CallersDistinct(log: seq<Entry>) {
    forall i, j | 0 <= i < j < |log| :: log[i].caller != log[j].caller
  }

  /** Entries of callers that have finished stay as they are. */
  lemma OldEntryKept(w: World, initial: Bytes, s: State, c: Caller, a: Action, n: nat)
    requires Outcomes(w, initial, s) && Enabled(w, s, c, a) && 0 < n <= |s.log|
    ensures var t := Do(w, s, c, a);
      |t.phases| == |w.calls| && |s.log| <= |t.log| && EntryOk(w, initial, t, n) && s.log[n - 1].caller != c
  {
    assert EntryOk(w, initial, s, n);
    assert Do(w, s, c, a).log[..n] == s.log[..n];
  }

  lemma JoinGrows(log: seq<Entry>, e: Entry)
    ensures Join(log + [e]) == Join(log) + e.bytes
  {
    assert (log + [e])[..|log|] == log;
  }

  lemma FinishedEntryOk(w: World, initial: Bytes, s: State, c: Caller)
    requires Enabled(w, s, c, Finish) && HolderOk(w, s, initial + Join(s.log), c)
    ensures var t := Do(w, s, c, Finish); |t.phases| == |w.calls| && EntryOk(w, initial, t, |s.log| + 1)
  {
    var t := Do(w, s, c, Finish);
    JoinGrows(s.log, Entry(c, w.calls[c].text));
    assert t.log[..|s.log| + 1] == t.log;
    assert t.phases[c] == Returned(s.phases[c].size + |w.calls[c].text|);
  }

  lemma FailedEntryOk(w: World, initial: Bytes, s: State, c: Caller)
    requires Enabled(w, s, c, WriteError) && HolderOk(w, s, initial + Join(s.log), c)
    ensures var t := Do(w, s, c, WriteError); |t.phases| == |w.calls| && EntryOk(w, initial, t, |s.log| + 1)
  {
    var t := Do(w, s, c, WriteError);
    var part := Done(w.calls[c].text, s.phases[c].left);
    assert t.phases[c] == Failed(part) && t.log[|s.log|] == Entry(c, part);
    assert part < w.calls[c].text;
  }

  lemma NewEntryOk(w: World, initial: Bytes, s: State, c: Caller, a: Action)
    requires Enabled(w, s, c, a) && (a.WriteError? || a.Finish?) && HolderOk(w, s, initial + Join(s.log), c)
    ensures var t := Do(w, s, c, a); |t.phases| == |w.calls| && |t.log| == |s.log| + 1 && EntryOk(w, initial, t, |t.log|)
  {
    if a.Finish? {
      FinishedEntryOk(w, initial, s, c);
    } else {
      FailedEntryOk(w, initial, s, c);
    }
  }

  lemma OutcomesKept(w: World, initial: Bytes, s: State, c: Caller, a: Action)
    requires Outcomes(w, initial, s) && Enabled(w, s, c, a) && HolderOk(w, s, initial + Join(s.log), c)
    ensures Outcomes(w, initial, Do(w, s, c, a))
  {
    var t := Do(w, s, c, a);
    forall n | 0 < n <= |s.log| ensures EntryOk(w, initial, t, n) && s.log[n - 1].caller != c {
      OldEntryKept(w, initial, s, c, a, n);
    }
    if a.WriteError? || a.Finish? {
      NewEntryOk(w, initial, s, c, a);
      forall i | 0 <= i < |s.log| ensures s.log[i].caller != c {
        OldEntryKept(w, initial, s, c, a, i + 1);
      }
    }
  }

  /** A returned size is exact: the initial content and all texts up to and including the
      caller's own. Each caller that appended is logged once, with its whole text if it
      returned and a strict prefix of it if its write failed. */
  lemma {:induction false} RunOutcomes(w: World, initial: Bytes, moves: seq<Move>)
    requires Possible(w, Initial(w, initial), moves)
    ensures Outcomes(w, initial, After(w, Initial(w, initial), moves))
  {
    if moves == [] {
    } else {
      var n := |moves| - 1;
      var before := After(w, Initial(w, initial), moves[..n]);
      RunKeeps(w, initial, moves[..n]);
      RunOutcomes(w, initial, moves[..n]);
      assert HolderOk(w, before, initial + Join(before.log), moves[n].caller);
      OutcomesKept(w, initial, before, moves[n].caller, moves[n].action);
    }
  }

  /** A rejected caller appends nothing: in no run does it have an entry in the log. */
  lemma RejectedAppendNothing(w: World, initial: Bytes, moves: seq<Move>, c: Caller, i: nat)
    requires Possible(w, Initial(w, initial), moves)
    requires var s := After(w, Initial(w, initial), moves);
      |s.phases| == |w.calls| && c < |w.calls| && s.phases[c].Rejected? && i < |s.log|
    ensures After(w, Initial(w, initial), moves).log[i].caller != c
  {
    RunOutcomes(w, initial, moves);
    assert EntryOk(w, initial, After(w, Initial(w, initial), moves), i + 1);
  }

  /** Every caller that returned or failed is in the log. */
  lemma {:induction false} FinishedIsLogged(w: World, initial: Bytes, moves: seq<Move>, c: Caller) returns (i: nat)
    requires Possible(w, Initial(w, initial), moves) && c < |w.calls|
    requires var p := After(w, Initial(w, initial), moves).phases;
      |p| == |w.calls| && (p[c].Returned? || p[c].Failed?)
    ensures var log := After(w, Initial(w, initial), moves).log; i < |log| && log[i].caller == c
  {
    var n := |moves| - 1;
    var before := After(w, Initial(w, initial), moves[..n]);
    if before.phases[c].Returned? || before.phases[c].Failed? {
      i := FinishedIsLogged(w, initial, moves[..n], c);
    } else {
      i := |before.log|;
    }
  }

  // ----- who is turned away -----

  /** The caller's text does not fit behind the initial content and what is appended by now. */
  predicate TooMuch(w: World, initial: Bytes, log: seq<Entry>, c: Caller)
    requires c < |w.calls|
  {
    |initial + Join(log)| + |w.calls[c].text| > w.maxBytes
  }

  /** Move i turns c away: its arguments are refused, the file is not regular, or its text does
      not fit when it has the file lock. */
  ghost predicate TurnedAway(w: World, initial: Bytes, moves: seq<Move>, c: Caller, i: nat)
    requires c < |w.calls| && i < |moves|
  {
    && moves[i].caller == c && Possible(w, Initial(w, initial), moves[..i])
    && match moves[i].action
       case Refuse => w.maxBytes < 1 || |w.calls[c].text| > w.maxBytes
       case Open(regular) => !regular
       case CheckSize => TooMuch(w, initial, After(w, Initial(w, initial), moves[..i]).log, c)
       case _ => false
  }

  lemma RejectedByMove(w: World, initial: Bytes, s: State, c: Caller, a: Action)
    requires Enabled(w, s, c, a) && Content(w, initial, s)
    ensures Do(w, s, c, a).phases[c].Rejected? <==>
      a.Refuse? || a == Open(false) || (a.CheckSize? && TooMuch(w, initial, s.log, c))
  {
    assert HolderOk(w, s, initial + Join(s.log), c);
  }

  lemma EarlierMove(w: World, initial: Bytes, moves: seq<Move>, c: Caller, i: nat)
    requires c < |w.calls| && i < |moves| - 1
    ensures TurnedAway(w, initial, moves[..|moves| - 1], c, i) <==> TurnedAway(w, initial, moves, c, i)
  {
    assert moves[..|moves| - 1][..i] == moves[..i];
  }

  lemma LastMoveTurnsAway(w: World, initial: Bytes, moves: seq<Move>, c: Caller)
    requires moves != [] && Possible(w, Initial(w, initial), moves) && c < |w.calls| && moves[|moves| - 1].caller == c
    ensures var n := |moves| - 1;
      var before, after := After(w, Initial(w, initial), moves[..n]), After(w, Initial(w, initial), moves);
      && |before.phases| == |after.phases| == |w.calls| && !before.phases[c].Rejected?
      && (after.phases[c].Rejected? <==> TurnedAway(w, initial, moves, c, n))
  {
    var n := |moves| - 1;
    RunKeeps(w, initial, moves[..n]);
    RejectedByMove(w, initial, After(w, Initial(w, initial), moves[..n]), c, moves[n].action);
  }

  ghost predicate EverTurnedAway(w: World, initial: Bytes, moves: seq<Move>, c: Caller)
    requires c < |w.calls|
  {
    exists i: nat | i < |moves| :: TurnedAway(w, initial, moves, c, i)
  }

  lemma TurnedAwaySooner(w: World, initial: Bytes, moves: seq<Move>, c: Caller)
    requires c < |w.calls| && moves != []
    ensures EverTurnedAway(w, initial, moves, c) <==>
      EverTurnedAway(w, initial, moves[..|moves| - 1], c) || TurnedAway(w, initial, moves, c, |moves| - 1)
  {
    var front := moves[..|moves| - 1];
    if EverTurnedAway(w, initial, front, c) {
      var i: nat :| i < |front| && TurnedAway(w, initial, front, c, i);
      EarlierMove(w, initial, moves, c, i);
    }
    if EverTurnedAway(w, initial, moves, c) {
      var i: nat :| i < |moves| && TurnedAway(w, initial, moves, c, i);
      if i < |front| {
        EarlierMove(w, initial, moves, c, i);
      }
    }
  }

  /** In any run a caller is rejected exactly when one of its moves turns it away. */
  lemma {:induction false} RejectedIff(w: World, initial: Bytes, moves: seq<Move>, c: Caller)
    requires Possible(w, Initial(w, initial), moves) && c < |w.calls|
    ensures var phases := After(w, Initial(w, initial), moves).phases;
      |phases| == |w.calls| && (phases[c].Rejected? <==> EverTurnedAway(w, initial, moves, c))
  {
    if moves == [] {
    } else {
      var n := |moves| - 1;
      RejectedIff(w, initial, moves[..n], c);
      TurnedAwaySooner(w, initial, moves, c);
      if moves[n].caller == c {
        LastMoveTurnsAway(w, initial, moves, c);
      }
    }
  }

  // ----- progress -----

  /** No deadlock: while a caller is unfinished, some caller can move. */
  lemma NeverStuck(w: World, s: State, c: Caller) returns (m: Move)
    requires |s.phases| == |w.calls| && c < |w.calls| && !Finished(s.phases[c])
    ensures Enabled(w, s, m.caller, m.action)
  {
    if d :| 0 <= d < |s.phases| && HoldsFile(s.phases[d]) {
      var p := s.phases[d];
      m := Move(d, if p.FileLocked? then CheckSize else if p.left == [] then Finish else WriteSome(1));
    } else if d :| 0 <= d < |s.phases| && HoldsPath(s.phases[d]) {
      m := Move(d, if s.phases[d].PathLocked? then Open(true) else LockFile);
    } else {
      m := Move(c, if Admitted(w, c) then LockPath else Refuse);
    }
  }

  function Weight(p: Phase, text: Bytes): nat {
    match p
    case Started => |text| + 6
    case PathLocked => |text| + 5
    case Opened => |text| + 4
    case FileLocked => |text| + 3
    case Writing(_, left) => |left| + 2
    case _ => 0
  }

  function Remaining(calls: seq<Call>, phases: seq<Phase>): nat
    requires |calls| == |phases|
  {
    if calls == [] then 0
    else
      var n := |calls| - 1;
      Remaining(calls[..n], phases[..n]) + Weight(phases[n], calls[n].text)
  }

  lemma {:induction false} RemainingUpdate(calls: seq<Call>, phases: seq<Phase>, c: nat, p: Phase)
    requires |calls| == |phases| && c < |calls|
    ensures Remaining(calls, phases[c := p]) ==
      Remaining(calls, phases) - Weight(phases[c], calls[c].text) + Weight(p, calls[c].text)
  {
    var n := |calls| - 1;
    if c < n {
      assert phases[c := p][..n] == phases[..n][c := p];
      RemainingUpdate(calls[..n], phases[..n], c, p);
    } else {
      assert phases[c := p][..n] == phases[..n];
    }
  }

  /** Every run ends: it has no more moves than the texts have bytes, and six a caller. */
  lemma {:induction false} RunsEnd(w: World, s: State, moves: seq<Move>)
    requires |s.phases| == |w.calls| && Possible(w, s, moves)
    ensures var t := After(w, s, moves);
      |t.phases| == |w.calls| && |moves| + Remaining(w.calls, t.phases) <= Remaining(w.calls, s.phases)
  {
    if moves == [] {
    } else {
      var n := |moves| - 1;
      var m, before := moves[n], After(w, s, moves[..n]);
      RunsEnd(w, s, moves[..n]);
      MoveSpends(w, before, m.caller, m.action);
    }
  }

  lemma MoveSpends(w: World, s: State, c: Caller, a: Action)
    requires Enabled(w, s, c, a)
    ensures var t := Do(w, s, c, a);
      |t.phases| == |w.calls| && Remaining(w.calls, t.phases) < Remaining(w.calls, s.phases)
  {
    RemainingUpdate(w.calls, s.phases, c, Do(w, s, c, a).phases[c]);
  }
}
