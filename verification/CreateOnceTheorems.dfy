/** What concurrent creators guarantee over every interleaving and every fault. */
module CreateOnceTheorems {
  import opened Common
  import opened AppendFile
  import opened CreateOnce

  /** A temporary file holds a prefix of its caller's data, all of it when it is linked. */
  predicate TempOk(w: seq<Creation>, s: Files, c: nat)
    requires |s.stages| == |w| && c < |w|
  {
    match s.stages[c]
    case Filling(temp) => temp <= w[c].data
    case Filled(temp) => temp == w[c].data
    case _ => true
  }

  /** A caller has installed its file exactly when it is the installer, and says that the file
      existed only when it does. */
  predicate StageOk(w: seq<Creation>, s: Files, c: nat)
    requires |s.stages| == |w| && c < |w|
  {
    && TempOk(w, s, c)
    && (Installed(s.stages[c]) <==> s.installer == Some(c))
    && (s.stages[c].Existed? ==> s.target.Some?)
  }

  /** The target is the original one, or the whole data of the one installer. */
  predicate Once(w: seq<Creation>, original: Option<Bytes>, s: Files) {
    && |s.stages| == |w|
    && (forall c | 0 <= c < |w| :: StageOk(w, s, c))
    && match s.installer
       case None => s.target == original
       case Some(c) => original.None? && c < |w| && s.target == Some(w[c].data)
  }

  lemma OnceKept(w: seq<Creation>, original: Option<Bytes>, s: Files, c: nat, a: Act)
    requires Once(w, original, s) && CanAct(w, s, c, a)
    ensures Once(w, original, Advance(w, s, c, a))
  {
    var t := Advance(w, s, c, a);
    assert StageOk(w, s, c);
    forall d | 0 <= d < |w| ensures StageOk(w, t, d) {
      assert StageOk(w, s, d);
    }
  }

  lemma {:induction false} RunIsOnce(w: seq<Creation>, original: Option<Bytes>, turns: seq<Turn>)
    requires Valid(w, Before(w, original), turns)
    ensures Once(w, original, Outcome(w, Before(w, original), turns))
  {
    if turns == [] {
    } else {
      var n := |turns| - 1;
      RunIsOnce(w, original, turns[..n]);
      OnceKept(w, original, Outcome(w, Before(w, original), turns[..n]), turns[n].caller, turns[n].act);
    }
  }

  /** At most one caller returns True, whatever fails and in every interleaving; the target is
      then its whole data. A target that existed before stays, and nobody returns True. */
  lemma OneCreator(w: seq<Creation>, original: Option<Bytes>, turns: seq<Turn>, c: nat)
    requires Valid(w, Before(w, original), turns) && c < |w|
    ensures var s := Outcome(w, Before(w, original), turns);
      |s.stages| == |w| && (s.stages[c].Created? ==>
        original.None? && s.target == Some(w[c].data) &&
        forall d | 0 <= d < |w| && s.stages[d].Created? :: d == c)
  {
    RunIsOnce(w, original, turns);
    var s := Outcome(w, Before(w, original), turns);
    assert StageOk(w, s, c);
    forall d | 0 <= d < |w| && s.stages[d].Created? ensures s.installer == Some(d) {
      assert StageOk(w, s, d);
    }
  }

  /** When all callers have returned without an error and the target was new, exactly one of
      them returned True. */
  lemma ExactlyOneCreator(w: seq<Creation>, turns: seq<Turn>) returns (c: nat)
    requires w != [] && Valid(w, Before(w, None), turns)
    requires var p := Outcome(w, Before(w, None), turns).stages;
      |p| == |w| && forall d | 0 <= d < |w| :: p[d].Created? || p[d].Existed?
    ensures var s := Outcome(w, Before(w, None), turns);
      c < |w| && |s.stages| == |w| && s.stages[c].Created? && s.target == Some(w[c].data) &&
      forall d | 0 <= d < |w| && d != c :: s.stages[d].Existed?
  {
    RunIsOnce(w, None, turns);
    var s := Outcome(w, Before(w, None), turns);
    assert StageOk(w, s, 0);
    c := s.installer.value;
    forall d | 0 <= d < |w| ensures Installed(s.stages[d]) <==> d == c {
      assert StageOk(w, s, d);
    }
  }

  lemma {:induction false} ValidPrefix(w: seq<Creation>, s: Files, turns: seq<Turn>, m: nat)
    requires Valid(w, s, turns) && m <= |turns|
    ensures Valid(w, s, turns[..m])
  {
    if m == |turns| {
      assert turns[..m] == turns;
    } else {
      ValidPrefix(w, s, turns[..|turns| - 1], m);
      assert turns[..|turns| - 1][..m] == turns[..m];
    }
  }

  /** Once there, the target never changes over the rest of the run: readers see nothing or one
      caller's whole data. */
  lemma {:induction false} TargetIsFinal(w: seq<Creation>, s: Files, turns: seq<Turn>, m: nat)
    requires Valid(w, s, turns) && m <= |turns|
    ensures Valid(w, s, turns[..m])
    ensures Outcome(w, s, turns[..m]).target.Some? ==> Outcome(w, s, turns).target == Outcome(w, s, turns[..m]).target
  {
    ValidPrefix(w, s, turns, m);
    if m == |turns| {
      assert turns[..m] == turns;
    } else {
      TargetIsFinal(w, s, turns[..|turns| - 1], m);
      assert turns[..|turns| - 1][..m] == turns[..m];
    }
  }

  /** No deadlock: an unfinished caller, or the one in its way, can act. */
  lemma CreatorsNeverStuck(w: seq<Creation>, s: Files, c: nat) returns (t: Turn)
    requires |s.stages| == |w| && c < |w| && !Ended(s.stages[c])
    ensures CanAct(w, s, t.caller, t.act) && !t.act.Fault?
  {
    if d :| 0 <= d < |w| && Active(s.stages[d]) {
      var p := s.stages[d];
      t := Turn(d,
        match p
        case Locked => Check
        case Filling(temp) => if |temp| < |w[d].data| then Fill(1) else Flush
        case Filled(_) => Link
        case _ => Sync);
    } else {
      t := Turn(c, Lock);
    }
  }
}
