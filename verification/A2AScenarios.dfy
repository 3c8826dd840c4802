/** Runs of one task that show what the server does not prevent. */
module A2AScenarios {
  import opened Common
  import opened A2AReply
  import opened A2AProtocol
  import opened A2AInvariants
  import opened A2ALocks

  lemma RunGrows(run: Run, e: Event, r: State) returns (longer: Run)
    requires ValidRun(run) && Enabled(run.states[|run.events|], e) && r == Apply(run.states[|run.events|], e)
    ensures longer == run.(events := run.events + [e], states := run.states + [r])
    ensures ValidRun(longer)
  {
    longer := run.(events := run.events + [e], states := run.states + [r]);
    forall i: nat | i < |longer.events| ensures StepAt(longer, i) {
      if i < |run.events| {
        assert StepAt(run, i);
      }
    }
  }

  /** The only task is 7, and its worker is the only one. */
  predicate Solo(s: State, phase: Phase, status: Status, cancelled: bool) {
    && s.workers == [Worker(7, phase, cancelled)] && s.store == {7} && s.futures == map[7 := 0]
    && s.objs.Keys == {7} && s.objs[7].status == status && s.objs[7].id == 7 && s.objs[7].context == "c" && s.maxTasks == 1
    && !s.closed && !s.detached && s.held == map[]
    && s.contextLocks == (if phase.WaitLock? then map["c" := phase.lock] else map[])
    && s.slots == if phase.HoldsSlot() then 0 else 1
  }

  lemma Begin() returns (run: Run)
    ensures ValidRun(run) && run.maxTasks == 1 && run.events == [ESendNew(7, "c", "hi", 0)]
    ensures Solo(run.states[1], Created, Submitted, false)
  {
    var empty := Initial(1, 1);
    assert MakeRoom(empty) == Some(empty);
    run := RunGrows(Run(1, 1, [], [empty]), ESendNew(7, "c", "hi", 0), Enroll(empty, 7, "c", "hi", 0));
  }

  lemma Starts(s: State)
    requires Solo(s, Created, Submitted, false)
    ensures Enabled(s, EStart(0)) && Solo(Apply(s, EStart(0)), WaitSlot, Submitted, false)
  {
  }

  lemma TakesSlot(s: State) returns (lock: LockId)
    requires Solo(s, WaitSlot, Submitted, false)
    ensures Enabled(s, ETakeSlot(0, 0)) && Solo(Apply(s, ETakeSlot(0, 0)), WaitLock(lock), Working, false)
  {
    lock := TakeSlot(s, 0, 0).workers[0].phase.lock;
  }

  /** Inside the turn, cancelled or not. */
  predicate InOnlyTurn(s: State, status: Status, cancelled: bool) {
    && |s.workers| == 1 && s.workers[0].task == 7 && s.workers[0].phase.InTurn? && s.workers[0].cancelled == cancelled
    && s.store == {7} && s.objs.Keys == {7} && s.objs[7].status == status && s.objs[7].id == 7 && s.objs[7].context == "c"
    && s.contextLocks == map["c" := s.workers[0].phase.lock] && s.held == map[s.workers[0].phase.lock := 0]
    && s.futures == map[7 := 0] && s.maxTasks == 1 && !s.closed
  }

  lemma TakesLock(s: State, lock: LockId)
    requires Solo(s, WaitLock(lock), Working, false)
    ensures Enabled(s, ETakeLock(0)) && InOnlyTurn(Apply(s, ETakeLock(0)), Working, false)
  {
  }

  lemma GetsCancelled(s: State)
    requires InOnlyTurn(s, Working, false)
    ensures Enabled(s, ECancel(7, 0)) && InOnlyTurn(Apply(s, ECancel(7, 0)), Canceled, true)
  {
    assert Cancel(s, 7, 0).Ok?;
  }

  lemma Fails(s: State)
    requires InOnlyTurn(s, Canceled, true)
    ensures var e := EEndTurn(0, Raised, 0); Enabled(s, e) && 7 in Apply(s, e).objs && Apply(s, e).objs[7].status == Failed
  {
  }

  lemma UpToTurn() returns (run: Run)
    ensures ValidRun(run) && run.maxTasks == 1
    ensures run.events == [ESendNew(7, "c", "hi", 0), EStart(0), ETakeSlot(0, 0), ETakeLock(0)]
    ensures InOnlyTurn(run.states[4], Working, false)
  {
    run := Begin();
    Starts(run.states[1]);
    run := RunGrows(run, EStart(0), Apply(run.states[1], EStart(0)));
    var lock := TakesSlot(run.states[2]);
    run := RunGrows(run, ETakeSlot(0, 0), Apply(run.states[2], ETakeSlot(0, 0)));
    TakesLock(run.states[3], lock);
    run := RunGrows(run, ETakeLock(0), Apply(run.states[3], ETakeLock(0)));
  }

  lemma UpToCancel() returns (run: Run)
    ensures ValidRun(run) && run.maxTasks == 1
    ensures run.events == [ESendNew(7, "c", "hi", 0), EStart(0), ETakeSlot(0, 0), ETakeLock(0), ECancel(7, 0)]
    ensures InOnlyTurn(run.states[5], Canceled, true)
  {
    run := UpToTurn();
    GetsCancelled(run.states[4]);
    run := RunGrows(run, ECancel(7, 0), Apply(run.states[4], ECancel(7, 0)));
  }

  /** A turn that swallows its cancellation and then raises turns CANCELED into FAILED. */
  lemma SwallowedCancelRun() returns (run: Run)
    ensures ValidRun(run)
    ensures run.events == [ESendNew(7, "c", "hi", 0), EStart(0), ETakeSlot(0, 0), ETakeLock(0), ECancel(7, 0), EEndTurn(0, Raised, 0)]
    ensures 7 in run.states[5].objs && run.states[5].objs[7].status == Canceled
    ensures 7 in run.states[6].objs && run.states[6].objs[7].status == Failed
  {
    run := UpToCancel();
    Fails(run.states[5]);
    run := RunGrows(run, EEndTurn(0, Raised, 0), Apply(run.states[5], EEndTurn(0, Raised, 0)));
  }

  /** Closing, before the worker's first step. */
  predicate OnlyClosing(s: State, phase: Phase) {
    && s.workers == [Worker(7, phase, true)] && s.closed && !s.detached && s.draining == {0}
    && 7 in s.objs && s.objs[7].status == Submitted
  }

  lemma ClosesEarly(s: State)
    requires Solo(s, Created, Submitted, false)
    ensures OnlyClosing(Apply(s, EClose), Created)
  {
    assert s.futures.Values == {0} by {
      assert s.futures[7] == 0;
    }
  }

  lemma IsDropped(s: State)
    requires OnlyClosing(s, Created)
    ensures Enabled(s, EStart(0)) && OnlyClosing(Apply(s, EStart(0)), Dropped)
  {
  }

  lemma ClosesFully(s: State)
    requires OnlyClosing(s, Dropped)
    ensures Enabled(s, ECloseDone)
    ensures var r := Apply(s, ECloseDone); r.detached && 7 in r.objs && r.objs[7].status == Submitted
  {
  }

  /** A task sent and not started before `close` stays SUBMITTED for ever. */
  lemma UnstartedTaskSurvivesClose() returns (run: Run)
    ensures ValidRun(run) && run.events == [ESendNew(7, "c", "hi", 0), EClose, EStart(0), ECloseDone]
    ensures run.states[4].detached && 7 in run.states[4].objs && run.states[4].objs[7].status == Submitted
  {
    run := Begin();
    ClosesEarly(run.states[1]);
    run := RunGrows(run, EClose, Apply(run.states[1], EClose));
    IsDropped(run.states[2]);
    run := RunGrows(run, EStart(0), Apply(run.states[2], EStart(0)));
    ClosesFully(run.states[3]);
    run := RunGrows(run, ECloseDone, Apply(run.states[3], ECloseDone));
  }

  // ----- a lock that outlives its context -----

  /** Task 8 of context "d" is stored alone, and the lock of context "c" is still there. */
  predicate LeftBehind(s: State, lock: LockId) {
    && s.store == {8} && 8 in s.objs && s.objs[8].context == "d" && 7 in s.objs
    && s.contextLocks == map["c" := lock]
    && |s.workers| == 2 && s.workers[0] == Worker(7, InTurn(lock), true) && s.held == map[lock := 0]
  }

  lemma EvictsSeven(s: State)
    requires InOnlyTurn(s, Canceled, true)
    ensures MakeRoom(s) == Some(s.(store := {}))
  {
    assert Oldest(s, 7);
    var t: TaskId :| Oldest(s, t) && MakeRoom(s) == MakeRoom(Evict(s, t));
    KeepsLock(s);
  }

  /** The lock is held, so evicting the task does not prune it. */
  lemma KeepsLock(s: State)
    requires InOnlyTurn(s, Canceled, true)
    ensures Evict(s, 7) == s.(store := {})
  {
    var forgotten := s.(store := s.store - {7});
    assert forgotten.store == {};
    assert s.contextLocks["c"] in s.held;
    assert PruneLock(forgotten, "c") == forgotten;
  }

  lemma IsEvicted(s: State)
    requires InOnlyTurn(s, Canceled, true)
    ensures var e := ESendNew(8, "d", "hi", 0);
      Enabled(s, e) && LeftBehind(Apply(s, e), s.workers[0].phase.lock)
  {
    EvictsSeven(s);
    assert Apply(s, ESendNew(8, "d", "hi", 0)) == Enroll(s.(store := {}), 8, "d", "hi", 0);
  }

  lemma EndsBehind(s: State, lock: LockId)
    requires LeftBehind(s, lock)
    ensures var e := EEndTurn(0, CancelRaised, 0);
      && Enabled(s, e)
      && Orphan(Apply(s, e), "c") && Apply(s, e).held == map[]
  {
    var r := Apply(s, EEndTurn(0, CancelRaised, 0));
    assert r.held == map[lock := 0] - {lock} == map[];
    assert r.store == {8} && r.objs[8].context == "d";
  }

  lemma UpToEviction() returns (run: Run, lock: LockId)
    ensures ValidRun(run) && run.maxTasks == 1
    ensures run.events == [ESendNew(7, "c", "hi", 0), EStart(0), ETakeSlot(0, 0), ETakeLock(0), ECancel(7, 0), ESendNew(8, "d", "hi", 0)]
    ensures LeftBehind(run.states[6], lock)
  {
    run := UpToCancel();
    lock := run.states[5].workers[0].phase.lock;
    IsEvicted(run.states[5]);
    run := RunGrows(run, ESendNew(8, "d", "hi", 0), Apply(run.states[5], ESendNew(8, "d", "hi", 0)));
  }

  /** A task that is evicted inside its cancelled turn leaves the lock of its context behind:
      nobody holds it any more, and no task of the context is stored. */
  lemma LockOutlivesContext() returns (run: Run)
    ensures ValidRun(run) && run.maxTasks == 1
    ensures run.events == [ESendNew(7, "c", "hi", 0), EStart(0), ETakeSlot(0, 0), ETakeLock(0), ECancel(7, 0),
                           ESendNew(8, "d", "hi", 0), EEndTurn(0, CancelRaised, 0)]
    ensures Orphan(run.states[7], "c") && run.states[7].held == map[]
  {
    var lock;
    run, lock := UpToEviction();
    EndsBehind(run.states[6], lock);
    run := RunGrows(run, EEndTurn(0, CancelRaised, 0), Apply(run.states[6], EEndTurn(0, CancelRaised, 0)));
  }
}
