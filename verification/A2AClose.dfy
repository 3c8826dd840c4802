/**
 What `close` leaves behind, decided when it is called. A worker cancelled before its first step
 never enters its `try`, so nothing marks its task.
 */
module A2AClose {
  import opened Common
  import opened A2AReply
  import opened A2AProtocol
  import opened A2AInvariants
  import opened A2ATheorems

  /** The task is live and its registered worker has not run its first step. */
  predicate Unstarted(s: State, t: TaskId) {
    Live(s, t) && t in s.futures && s.futures[t] < |s.workers| && s.workers[s.futures[t]].phase.Created?
  }

  /** The same, or the worker has been dropped at its first step. */
  predicate NeverRan(s: State, t: TaskId) {
    Live(s, t) && t in s.futures && s.futures[t] < |s.workers| &&
    (s.workers[s.futures[t]].phase.Created? || s.workers[s.futures[t]].phase.Dropped?)
  }

  /** Between `close` and the end of its wait. */
  predicate Closing(s: State) {
    s.closed && !s.detached
  }

  predicate CancelOf(e: Event, t: TaskId) {
    e.ECancel? && e.id == t
  }

  lemma WorkerStepKeepsNeverRan(s: State, e: Event, t: TaskId)
    requires Inv(s) && Closing(s) && Enabled(s, e) && WorkerEvent(e) && t in s.objs
    ensures t in WorkerStep(s, e).objs && Closing(WorkerStep(s, e))
    ensures NeverRan(WorkerStep(s, e), t) <==> NeverRan(s, t)
  {
    assert WorkerOk(s, e.w);
    assert t in s.futures ==> FutureOk(s, t);
    match e
    case EStart(w) => StartKeepsNeverRan(s, w, t);
    case ETakeSlot(_, _) =>
    case EAbandon(w, now) => AbandonKeepsNeverRan(s, w, now, t);
    case ETakeLock(_) =>
    case EEndTurn(w, outcome, now) => EndTurnKeepsNeverRan(s, w, outcome, now, t);
  }

  lemma StartKeepsNeverRan(s: State, w: WorkerId, t: TaskId)
    requires Closing(s) && Enabled(s, EStart(w)) && WorkerOk(s, w) && t in s.objs
    ensures NeverRan(Start(s, w), t) <==> NeverRan(s, t)
  {
    assert s.workers[w].cancelled;
  }

  lemma AbandonKeepsNeverRan(s: State, w: WorkerId, now: int, t: TaskId)
    requires Enabled(s, EAbandon(w, now)) && WorkerOk(s, w) && t in s.objs && (t in s.futures ==> FutureOk(s, t))
    ensures NeverRan(Abandon(s, w, now), t) <==> NeverRan(s, t)
  {
  }

  lemma EndTurnKeepsNeverRan(s: State, w: WorkerId, outcome: TurnOutcome, now: int, t: TaskId)
    requires Enabled(s, EEndTurn(w, outcome, now)) && WorkerOk(s, w) && t in s.objs && (t in s.futures ==> FutureOk(s, t))
    ensures NeverRan(EndTurn(s, w, outcome, now), t) <==> NeverRan(s, t)
  {
  }

  lemma OtherCancelKeepsNeverRan(s: State, id: TaskId, now: int, t: TaskId)
    requires id != t && t in s.objs && (t in s.futures ==> FutureOk(s, t))
    requires Cancel(s, id, now).Ok? && (id in s.futures ==> FutureOk(s, id))
    ensures NeverRan(Cancel(s, id, now).value, t) <==> NeverRan(s, t)
  {
  }

  lemma RequestKeepsNeverRan(s: State, e: Event, t: TaskId)
    requires Inv(s) && Closing(s) && Enabled(s, e) && !WorkerEvent(e) && !e.ECloseDone? && !CancelOf(e, t) && t in s.objs
    ensures t in RequestStep(s, e).objs && Closing(RequestStep(s, e))
    ensures NeverRan(RequestStep(s, e), t) <==> NeverRan(s, t)
  {
    if e.ECancel? {
      if Cancel(s, e.id, e.now).Ok? {
        assert t in s.futures ==> FutureOk(s, t);
        assert e.id in s.futures ==> FutureOk(s, e.id);
        OtherCancelKeepsNeverRan(s, e.id, e.now, t);
      }
    }
  }

  lemma CancelEndsNeverRan(s: State, t: TaskId, now: int)
    requires Inv(s) && Closing(s) && t in s.objs
    ensures var r := OkOr(Cancel(s, t, now), s); t in r.objs && Closing(r) && !NeverRan(r, t)
  {
    assert TaskOk(s, t);
  }

  lemma ClosingStep(s: State, e: Event, t: TaskId)
    requires Inv(s) && Closing(s) && Enabled(s, e) && !e.ECloseDone? && t in s.objs
    ensures t in Apply(s, e).objs && Closing(Apply(s, e))
    ensures NeverRan(Apply(s, e), t) <==> NeverRan(s, t) && !CancelOf(e, t)
  {
    if WorkerEvent(e) {
      WorkerStepKeepsNeverRan(s, e, t);
    } else if CancelOf(e, t) {
      CancelEndsNeverRan(s, t, e.now);
    } else {
      RequestKeepsNeverRan(s, e, t);
    }
  }

  lemma CloseStep(s: State, t: TaskId)
    requires Inv(s) && !s.closed && t in s.objs
    ensures Closing(Close(s)) && (NeverRan(Close(s), t) <==> Unstarted(s, t))
  {
    assert TaskOk(s, t);
    assert t in s.futures ==> FutureOk(s, t);
  }

  lemma CloseDoneStep(s: State, t: TaskId)
    requires Inv(s) && Enabled(s, ECloseDone) && t in s.objs
    ensures Live(CloseDone(s), t) <==> NeverRan(s, t)
  {
    assert TaskOk(s, t);
    if t in s.futures {
      assert FutureOk(s, t) && WorkerOk(s, s.futures[t]);
    }
  }

  lemma StepKeepsDetached(s: State, e: Event)
    requires Enabled(s, e) && s.detached
    ensures Apply(s, e).detached
  {
    if e.ESendNew? && MakeRoom(s).Some? {
      MakeRoomChanges(s);
    }
  }

  lemma WorkerStepTasks(s: State, e: Event)
    requires Enabled(s, e) && WorkerEvent(e)
    ensures WorkerStep(s, e).objs.Keys == s.objs.Keys && WorkerStep(s, e).closed == s.closed
  {
    match e
    case EStart(w) =>
    case ETakeSlot(w, now) => TakeSlotTasks(s, w, now);
    case EAbandon(w, now) => assert Abandon(s, w, now).objs == TouchTask(FreeSlot(s, w), s.workers[w].task, Canceled, now).objs;
    case ETakeLock(w) =>
    case EEndTurn(w, outcome, now) => EndTurnTasks(s, w, outcome, now);
  }

  lemma TakeSlotTasks(s: State, w: WorkerId, now: int)
    requires Enabled(s, ETakeSlot(w, now))
    ensures TakeSlot(s, w, now).objs.Keys == s.objs.Keys && TakeSlot(s, w, now).closed == s.closed
  {
    var id := s.workers[w].task;
    var permit := Permit(s, id, now);
    assert permit.objs.Keys == s.objs.Keys;
    assert SetDefaultLock(permit, s.objs[id].context).objs == permit.objs;
  }

  lemma EndTurnTasks(s: State, w: WorkerId, outcome: TurnOutcome, now: int)
    requires Enabled(s, EEndTurn(w, outcome, now))
    ensures EndTurn(s, w, outcome, now).objs.Keys == s.objs.Keys && EndTurn(s, w, outcome, now).closed == s.closed
  {
  }

  lemma ClosedStepTasks(s: State, e: Event)
    requires Inv(s) && s.closed && Enabled(s, e)
    ensures Apply(s, e).objs.Keys == s.objs.Keys && Apply(s, e).closed
  {
    if WorkerEvent(e) {
      WorkerStepTasks(s, e);
    }
  }

  // ----- runs -----

  /** The wait of `close` ends only once. */
  lemma {:induction false} DetachedStays(run: Run, i: nat, k: nat)
    requires ValidRun(run) && i <= k <= |run.events| && run.states[i].detached
    ensures run.states[k].detached
    decreases k - i
  {
    if i < k {
      DetachedStays(run, i, k - 1);
      assert StepAt(run, k - 1);
      StepKeepsDetached(run.states[k - 1], run.events[k - 1]);
    }
  }

  lemma EndDetaches(run: Run, i: nat)
    requires ValidRun(run) && i < |run.events| && run.events[i].ECloseDone?
    ensures !run.states[i].detached && run.states[i + 1].detached
  {
    assert StepAt(run, i);
  }

  /** A closed server takes no new task. */
  lemma {:induction false} ClosedTasks(run: Run, i: nat, k: nat)
    requires ValidRun(run) && i <= k <= |run.events| && run.states[i].closed
    ensures run.states[k].closed && run.states[k].objs.Keys == run.states[i].objs.Keys
    decreases k - i
  {
    if i < k {
      ClosedTasks(run, i, k - 1);
      NextTasks(run, k - 1);
    }
  }

  lemma NextTasks(run: Run, i: nat)
    requires ValidRun(run) && i < |run.events| && run.states[i].closed
    ensures run.states[i + 1].closed && run.states[i + 1].objs.Keys == run.states[i].objs.Keys
  {
    RunKeeps(run, i);
    assert StepAt(run, i);
    ClosedStepTasks(run.states[i], run.events[i]);
  }

  /** Event m closes an open server, and event n ends the wait. */
  ghost predicate Closes(run: Run, m: nat, n: nat) {
    && ValidRun(run) && m < n < |run.events| && !run.states[m].closed
    && run.events[m].EClose? && run.events[n].ECloseDone?
  }

  /** `cancel_task` is called for t between events m and n. */
  ghost predicate CancelledBetween(run: Run, m: nat, n: nat, t: TaskId)
    requires n <= |run.events|
  {
    exists i :: m < i < n && CancelOf(run.events[i], t)
  }

  lemma NoEarlierEnd(run: Run, m: nat, i: nat, n: nat)
    requires Closes(run, m, n) && i < n
    ensures !run.events[i].ECloseDone?
  {
    if run.events[i].ECloseDone? {
      EndDetaches(run, i);
      DetachedStays(run, i + 1, n);
      EndDetaches(run, n);
    }
  }

  lemma FirstClosing(run: Run, m: nat, n: nat, t: TaskId)
    requires Closes(run, m, n) && t in run.states[m].objs
    ensures t in run.states[m + 1].objs && Closing(run.states[m + 1])
    ensures NeverRan(run.states[m + 1], t) <==> Unstarted(run.states[m], t)
  {
    RunKeeps(run, m);
    assert StepAt(run, m);
    CloseStep(run.states[m], t);
  }

  lemma NextClosing(run: Run, m: nat, i: nat, n: nat, t: TaskId)
    requires Closes(run, m, n) && i < n && t in run.states[i].objs && Closing(run.states[i])
    ensures t in run.states[i + 1].objs && Closing(run.states[i + 1])
    ensures NeverRan(run.states[i + 1], t) <==> NeverRan(run.states[i], t) && !CancelOf(run.events[i], t)
  {
    NoEarlierEnd(run, m, i, n);
    RunKeeps(run, i);
    assert StepAt(run, i);
    ClosingStep(run.states[i], run.events[i], t);
  }

  /** While `close` waits, a live task whose worker never ran stays that way until it is
      cancelled, and no other task becomes one. */
  lemma {:induction false} ClosingRun(run: Run, m: nat, k: nat, n: nat, t: TaskId)
    requires Closes(run, m, n) && m < k <= n && t in run.states[m].objs
    ensures t in run.states[k].objs && Closing(run.states[k])
    ensures NeverRan(run.states[k], t) <==> Unstarted(run.states[m], t) && !CancelledBetween(run, m, k, t)
    decreases k
  {
    if k == m + 1 {
      FirstClosing(run, m, n, t);
    } else {
      ClosingRun(run, m, k - 1, n, t);
      NextClosing(run, m, k - 1, n, t);
      assert CancelledBetween(run, m, k, t) <==>
        CancelledBetween(run, m, k - 1, t) || CancelOf(run.events[k - 1], t);
    }
  }

  /** What `close` leaves non-terminal, seen from its call: exactly the live tasks whose worker
      has not run its first step, unless the task is cancelled while `close` waits. */
  lemma CloseLeavesExactly(run: Run, m: nat, n: nat, t: TaskId)
    requires Closes(run, m, n) && t in run.states[m].objs
    ensures t in run.states[n + 1].objs
    ensures Live(run.states[n + 1], t) <==> Unstarted(run.states[m], t) && !CancelledBetween(run, m, n, t)
  {
    ClosingRun(run, m, n, n, t);
    RunKeeps(run, n);
    assert StepAt(run, n);
    CloseDoneStep(run.states[n], t);
  }

  /** If every live task's worker has run its first step when `close` is called, every task
      ends terminal. */
  lemma CloseEndsAllStarted(run: Run, m: nat, n: nat, t: TaskId)
    requires Closes(run, m, n) && t in run.states[n + 1].objs
    requires forall u | u in run.states[m].objs :: !Unstarted(run.states[m], u)
    ensures run.states[n + 1].objs[t].status.Terminal()
  {
    assert StepAt(run, m);
    ClosedTasks(run, m + 1, n + 1);
    CloseLeavesExactly(run, m, n, t);
  }
}
