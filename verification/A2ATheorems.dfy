/** The guarantees of the task server over whole runs. */
module A2ATheorems {
  import opened Common
  import opened A2AReply
  import opened A2AProtocol
  import opened A2AInvariants

  lemma SendNewKeeps(s: State, id: TaskId, context: ContextId, text: string, now: int)
    requires Inv(s) && id !in s.objs && SendNew(s, id, context, text, now).Ok?
    ensures Inv(SendNew(s, id, context, text, now).value)
  {
    MakeRoomKeeps(s);
    MakeRoomChanges(s);
    EnrollKeeps(MakeRoom(s).value, id, context, text, now);
  }

  lemma RequestKeeps(s: State, e: Event)
    requires Inv(s) && Enabled(s, e) && (e.ESendNew? || e.ESendTo? || e.ECancel? || e.EClose?)
    ensures Inv(Apply(s, e))
  {
    match e
    case ESendNew(id, context, text, now) =>
      if SendNew(s, id, context, text, now).Ok? { SendNewKeeps(s, id, context, text, now); }
    case ESendTo(id, context, text, now) => NoRestart(s, id, context, text, now);
    case ECancel(id, now) => if Cancel(s, id, now).Ok? { CancelKeeps(s, id, now); }
    case EClose => if !s.closed { CloseKeeps(s); }
  }

  lemma StepKeeps(s: State, e: Event)
    requires Inv(s) && Enabled(s, e)
    ensures Inv(Apply(s, e))
  {
    match e
    case ESay(id, text) => if id in s.replies { SayKeeps(s, id, text); }
    case EStart(w) => StartKeeps(s, w);
    case ETakeSlot(w, now) => TakeSlotKeeps(s, w, now);
    case EAbandon(w, now) => AbandonKeeps(s, w, now);
    case ETakeLock(w) => TakeLockKeeps(s, w);
    case EEndTurn(w, outcome, now) => EndTurnKeeps(s, w, outcome, now);
    case ECloseDone => CloseDoneKeeps(s);
    case _ => RequestKeeps(s, e);
  }

  /** Every reachable state satisfies the invariant, whatever the interleaving. */
  lemma {:induction false} RunKeeps(run: Run, n: nat)
    requires ValidRun(run) && n <= |run.events|
    ensures Inv(run.states[n])
  {
    if n == 0 {
      InitialKeeps(run.maxTasks, run.maxConcurrent);
    } else {
      RunKeeps(run, n - 1);
      assert StepAt(run, n - 1);
      NextKeeps(run.states[n - 1], run.events[n - 1], run.states[n]);
    }
  }

  lemma InitialKeeps(maxTasks: nat, maxConcurrent: nat)
    requires 1 <= maxTasks && 1 <= maxConcurrent
    ensures Inv(Initial(maxTasks, maxConcurrent))
  {
  }

  lemma NextKeeps(s: State, e: Event, r: State)
    requires Inv(s) && Enabled(s, e) && r == Apply(s, e)
    ensures Inv(r)
  {
    StepKeeps(s, e);
  }

  // ----- exclusion -----

  /** At most one worker per context is inside a turn, and it holds the current lock of that
      context, although locks are dropped from the map and created again. */
  lemma OneTurnPerContext(run: Run, n: nat, v: WorkerId, w: WorkerId)
    requires ValidRun(run) && n <= |run.events|
    requires var s := run.states[n];
      && ValidWorker(s, v) && s.workers[v].phase.InTurn?
      && ValidWorker(s, w) && s.workers[w].phase.InTurn?
      && s.objs[s.workers[v].task].context == s.objs[s.workers[w].task].context
    ensures v == w
    ensures var s := run.states[n];
      CurrentLock(s, s.objs[s.workers[w].task].context, s.workers[w].phase.lock)
  {
    RunKeeps(run, n);
    var s := run.states[n];
    assert WorkerOk(s, v) && WorkerOk(s, w);
  }

  /** A worker that may still run its turn never waits on a lock dropped from the map. */
  lemma LiveWaiterHasCurrentLock(run: Run, n: nat, w: WorkerId)
    requires ValidRun(run) && n <= |run.events|
    requires var s := run.states[n];
      ValidWorker(s, w) && s.workers[w].phase.WaitLock? && Live(s, s.workers[w].task)
    ensures var s := run.states[n];
      CurrentLock(s, s.objs[s.workers[w].task].context, s.workers[w].phase.lock)
  {
    RunKeeps(run, n);
    assert WorkerOk(run.states[n], w);
  }

  // ----- capacity and progress -----

  function WorkingTasks(s: State): set<TaskId> {
    set t | t in s.objs && s.objs[t].status == Working
  }

  function HolderTasks(workers: seq<Worker>): set<TaskId> {
    set w | 0 <= w < |workers| && workers[w].phase.HoldsSlot() :: workers[w].task
  }

  lemma {:induction false} HolderTasksBounded(workers: seq<Worker>)
    ensures |HolderTasks(workers)| <= Holders(workers)
  {
    if workers == [] {
    } else {
      var n := |workers| - 1;
      HolderTasksBounded(workers[..n]);
      var rest := HolderTasks(workers[..n]);
      assert HolderTasks(workers) == rest + if workers[n].phase.HoldsSlot() then {workers[n].task} else {} by {
        forall t | t in HolderTasks(workers)
          ensures t in rest || (workers[n].phase.HoldsSlot() && t == workers[n].task)
        {
          var w :| 0 <= w < |workers| && workers[w].phase.HoldsSlot() && workers[w].task == t;
          assert w < n ==> workers[..n][w] == workers[w];
        }
        forall t | t in rest ensures t in HolderTasks(workers) {
          var w :| 0 <= w < n && workers[..n][w].phase.HoldsSlot() && workers[..n][w].task == t;
          assert workers[w] == workers[..n][w];
        }
      }
    }
  }

  lemma SubsetSize<T>(a: set<T>, b: set<T>)
    requires a <= b
    ensures |a| <= |b|
  {
    assert b == a + (b - a);
  }

  /** At every suspension point at most `max_concurrent` tasks are WORKING. */
  lemma WorkingBounded(run: Run, n: nat)
    requires ValidRun(run) && n <= |run.events|
    ensures |WorkingTasks(run.states[n])| <= run.states[n].maxConcurrent
  {
    RunKeeps(run, n);
    var s := run.states[n];
    forall t | t in WorkingTasks(s) ensures t in HolderTasks(s.workers) {
      assert TaskOk(s, t);
      assert t in s.futures;
      assert FutureOk(s, t) && WorkerOk(s, s.futures[t]);
      var w := s.futures[t];
      assert s.workers[w].phase.HoldsSlot() && s.workers[w].task == t;
    }
    SubsetSize(WorkingTasks(s), HolderTasks(s.workers));
    HolderTasksBounded(s.workers);
  }

  predicate Unfinished(s: State, w: WorkerId) {
    w < |s.workers| && !s.workers[w].phase.Finished()
  }

  /** No deadlock: while a worker is unfinished, some worker has a step or is in a turn. A
      context-lock holder holds a slot and waits for nothing. */
  lemma NeverDeadlocked(s: State, w: WorkerId) returns (e: Event)
    requires Inv(s) && Unfinished(s, w)
    ensures WorkerEvent(e) && Enabled(s, e)
  {
    assert WorkerOk(s, w);
    var v := w;
    if s.workers[w].phase.WaitSlot? && s.slots == 0 {
      v := SomeHolder(s.workers);
      assert WorkerOk(s, v);
    }
    match s.workers[v].phase
    case Created => e := EStart(v);
    case WaitSlot => e := if s.workers[v].cancelled then EAbandon(v, 0) else ETakeSlot(v, 0);
    case InTurn(_) => e := EEndTurn(v, Raised, 0);
    case WaitLock(l) =>
      if s.workers[v].cancelled {
        e := EAbandon(v, 0);
      } else if l !in s.held {
        e := ETakeLock(v);
      } else {
        assert HeldOk(s, l) && WorkerOk(s, s.held[l]);
        e := EEndTurn(s.held[l], Raised, 0);
      }
  }

  function Rank(phase: Phase): nat {
    match phase
    case Created => 4
    case WaitSlot => 3
    case WaitLock(_) => 2
    case InTurn(_) => 1
    case Done | Dropped => 0
  }

  function TotalRank(workers: seq<Worker>): nat {
    if workers == [] then 0
    else TotalRank(workers[..|workers| - 1]) + Rank(workers[|workers| - 1].phase)
  }

  lemma {:induction false} TotalRankUpdate(workers: seq<Worker>, i: nat, w: Worker)
    requires i < |workers|
    ensures TotalRank(workers[i := w]) + Rank(workers[i].phase) == TotalRank(workers) + Rank(w.phase)
  {
    var n := |workers| - 1;
    if i == n {
      assert workers[i := w][..n] == workers[..n];
    } else {
      assert workers[i := w][..n] == workers[..n][i := w];
      TotalRankUpdate(workers[..n], i, w);
    }
  }

  lemma {:induction false} TotalRankSamePhases(a: seq<Worker>, b: seq<Worker>)
    requires |a| == |b| && forall w | 0 <= w < |a| :: a[w].phase == b[w].phase
    ensures TotalRank(a) == TotalRank(b)
  {
    if a == [] {
    } else {
      TotalRankSamePhases(a[..|a| - 1], b[..|b| - 1]);
    }
  }

  /** One worker moves to a phase of lower rank. */
  lemma RankDrops(before: seq<Worker>, after: seq<Worker>, w: WorkerId)
    requires w < |before| == |after| && after == before[w := after[w]]
    requires Rank(after[w].phase) < Rank(before[w].phase)
    ensures TotalRank(after) < TotalRank(before)
  {
    TotalRankUpdate(before, w, after[w]);
  }

  lemma TakeSlotPhase(s: State, w: WorkerId, now: int)
    requires Enabled(s, ETakeSlot(w, now))
    ensures var phase := TakeSlot(s, w, now).workers[w].phase; phase.WaitLock? || phase.Done?
  {
    var id := s.workers[w].task;
    if s.objs[id].status == Canceled {
      assert TakeSlot(s, w, now) == Finish(s, w);
    } else {
      var r := SetDefaultLock(Permit(s, id, now), s.objs[id].context);
      assert r.workers == s.workers;
      assert TakeSlot(s, w, now).workers[w] == s.workers[w].(phase := WaitLock(r.contextLocks[s.objs[id].context]));
    }
  }

  lemma WorkerStepRank(s: State, e: Event)
    requires Enabled(s, e) && WorkerEvent(e)
    ensures TotalRank(WorkerStep(s, e).workers) < TotalRank(s.workers)
  {
    match e
    case EStart(w) => RankDrops(s.workers, Start(s, w).workers, w);
    case ETakeSlot(w, now) => TakeSlotPhase(s, w, now); RankDrops(s.workers, TakeSlot(s, w, now).workers, w);
    case EAbandon(w, now) => RankDrops(s.workers, Abandon(s, w, now).workers, w);
    case ETakeLock(w) => RankDrops(s.workers, TakeLock(s, w).workers, w);
    case EEndTurn(w, outcome, now) => RankDrops(s.workers, EndTurn(s, w, outcome, now).workers, w);
  }

  lemma RequestRank(s: State, e: Event)
    requires Inv(s) && Enabled(s, e) && !WorkerEvent(e)
    ensures TotalRank(RequestStep(s, e).workers) <= TotalRank(s.workers) + if e.ESendNew? then 4 else 0
  {
    if e.ESendNew? {
      SendNewRank(s, e.id, e.context, e.text, e.now);
    } else if e.ESendTo? {
      NoRestart(s, e.id, e.context, e.text, e.now);
    } else {
      TotalRankSamePhases(s.workers, RequestStep(s, e).workers);
    }
  }

  lemma SendNewRank(s: State, id: TaskId, context: ContextId, text: string, now: int)
    ensures TotalRank(OkOr(SendNew(s, id, context, text, now), s).workers) <= TotalRank(s.workers) + 4
  {
    if MakeRoom(s).Some? {
      MakeRoomChanges(s);
      assert (s.workers + [Worker(id, Created, false)])[..|s.workers|] == s.workers;
    }
  }

  /** Worker steps use up rank, and only a new task adds any. */
  lemma StepRank(s: State, e: Event, r: State)
    requires Inv(s) && Enabled(s, e) && r == Apply(s, e)
    ensures TotalRank(r.workers) + (if WorkerEvent(e) then 1 else 0) <=
      TotalRank(s.workers) + if e.ESendNew? then 4 else 0
  {
    if WorkerEvent(e) {
      WorkerStepRank(s, e);
    } else {
      RequestRank(s, e);
    }
  }

  function CountWorkerEvents(events: seq<Event>): nat {
    if events == [] then 0
    else CountWorkerEvents(events[..|events| - 1]) + if WorkerEvent(events[|events| - 1]) then 1 else 0
  }

  function CountSends(events: seq<Event>): nat {
    if events == [] then 0
    else CountSends(events[..|events| - 1]) + if events[|events| - 1].ESendNew? then 1 else 0
  }

  /** Under every scheduler, workers take at most four steps per task sent. With
      NeverDeadlocked, a server that gets no more messages finishes all its workers once
      every turn ends. */
  lemma {:induction false} WorkersDrain(run: Run, n: nat)
    requires ValidRun(run) && n <= |run.events|
    ensures CountWorkerEvents(run.events[..n]) + TotalRank(run.states[n].workers) <= 4 * CountSends(run.events[..n])
  {
    if n == 0 {
    } else {
      WorkersDrain(run, n - 1);
      RunKeeps(run, n - 1);
      assert StepAt(run, n - 1);
      StepRank(run.states[n - 1], run.events[n - 1], run.states[n]);
      assert run.events[..n][..n - 1] == run.events[..n - 1];
    }
  }

  // ----- the life of a task -----

  /** While the server is open a message that names a task is always refused: the task is
      unknown, terminal, in another context, or already running. */
  lemma NoRestart(s: State, id: TaskId, context: ContextId, text: string, now: int)
    requires Inv(s)
    ensures SendTo(s, id, context, text, now) ==
      if s.closed then Err(Unavailable)
      else if id !in s.store then Err(TaskNotFound)
      else if s.objs[id].status.Terminal() then Err(UnsupportedOperation)
      else if context != "" && context != s.objs[id].context then Err(ContextMismatch)
      else Err(TaskAlreadyRunning)
  {
    if id in s.store {
      assert TaskOk(s, id);
    }
  }

  /** The one way a terminal status changes: the turn of a task that is already terminal
      ends in an error other than the cancellation. */
  predicate OverwritesTerminal(s: State, e: Event, t: TaskId) {
    && t in s.objs && s.objs[t].status.Terminal() && !s.objs[t].status.Failed?
    && e.EEndTurn? && ValidWorker(s, e.w) && s.workers[e.w].task == t
    && (e.outcome.Raised? || (e.outcome.Returned? && (t !in s.replies || Harvest(s.replies[t]).None?)))
  }

  lemma RequestsKeepTerminal(s: State, e: Event, t: TaskId)
    requires Inv(s) && Enabled(s, e) && t in s.objs && s.objs[t].status.Terminal() && !WorkerEvent(e)
    ensures t in RequestStep(s, e).objs && RequestStep(s, e).objs[t].status == s.objs[t].status
  {
    match e
    case ESendNew(id, context, text, now) => SendNewKeepsObjs(s, id, context, text, now, t);
    case ESendTo(id, context, text, now) => SendToKeepsObjs(s, id, context, text, now);
    case ECancel(id, now) => CancelKeepsTerminal(s, id, now, t);
    case _ =>
  }

  lemma SendToKeepsObjs(s: State, id: TaskId, context: ContextId, text: string, now: int)
    requires Inv(s)
    ensures OkOr(SendTo(s, id, context, text, now), s) == s
  {
    NoRestart(s, id, context, text, now);
  }

  lemma CancelKeepsTerminal(s: State, id: TaskId, now: int, t: TaskId)
    requires t in s.objs && s.objs[t].status.Terminal()
    ensures var r := OkOr(Cancel(s, id, now), s); t in r.objs && r.objs[t].status == s.objs[t].status
  {
  }

  lemma SendNewKeepsObjs(s: State, id: TaskId, context: ContextId, text: string, now: int, t: TaskId)
    requires id !in s.objs && t in s.objs
    ensures var r := OkOr(SendNew(s, id, context, text, now), s); t in r.objs && r.objs[t] == s.objs[t]
  {
    if MakeRoom(s).Some? {
      MakeRoomChanges(s);
    }
  }

  lemma WaitsKeepTerminal(s: State, e: Event, t: TaskId)
    requires Enabled(s, e) && WorkerEvent(e) && !e.EEndTurn? && WorkerOk(s, e.w)
    requires t in s.objs && s.objs[t].status.Terminal()
    ensures t in WorkerStep(s, e).objs && WorkerStep(s, e).objs[t].status == s.objs[t].status
  {
    match e
    case EStart(w) =>
    case ETakeSlot(w, now) =>
    case EAbandon(w, now) => AbandonKeepsTerminal(s, w, now, t);
    case ETakeLock(w) =>
  }

  lemma AbandonKeepsTerminal(s: State, w: WorkerId, now: int, t: TaskId)
    requires Enabled(s, EAbandon(w, now)) && WorkerOk(s, w) && t in s.objs && s.objs[t].status.Terminal()
    ensures t in Abandon(s, w, now).objs && Abandon(s, w, now).objs[t].status == s.objs[t].status
  {
  }

  lemma EndTurnChangesExactly(s: State, w: WorkerId, outcome: TurnOutcome, now: int, t: TaskId)
    requires Enabled(s, EEndTurn(w, outcome, now)) && WorkerOk(s, w) && t in s.objs && s.objs[t].status.Terminal()
    ensures var r, overwrites := EndTurn(s, w, outcome, now), OverwritesTerminal(s, EEndTurn(w, outcome, now), t);
      && t in r.objs && (r.objs[t].status != s.objs[t].status <==> overwrites)
      && (overwrites ==> s.objs[t].status == Canceled && r.objs[t].status == Failed)
  {
  }

  lemma TerminalChangesExactly(s: State, e: Event, t: TaskId)
    requires Inv(s) && Enabled(s, e) && t in s.objs && s.objs[t].status.Terminal()
    ensures t in Apply(s, e).objs
    ensures Apply(s, e).objs[t].status != s.objs[t].status <==> OverwritesTerminal(s, e, t)
    ensures OverwritesTerminal(s, e, t) ==> s.objs[t].status == Canceled && Apply(s, e).objs[t].status == Failed
  {
    if e.EEndTurn? {
      assert WorkerOk(s, e.w);
      EndTurnChangesExactly(s, e.w, e.outcome, e.now, t);
    } else if WorkerEvent(e) {
      assert WorkerOk(s, e.w);
      WaitsKeepTerminal(s, e, t);
    } else {
      RequestsKeepTerminal(s, e, t);
    }
  }

  /** A turn that re-raises the cancellation it observed. */
  predicate Honest(s: State, e: Event) {
    e.EEndTurn? && ValidWorker(s, e.w) && s.workers[e.w].cancelled ==> e.outcome.CancelRaised?
  }

  ghost predicate HonestRun(run: Run, m: nat, n: nat)
    requires m <= n <= |run.events| < |run.states|
  {
    forall i | m <= i < n :: Honest(run.states[i], run.events[i])
  }

  /** With turns that re-raise cancellation, a terminal status never changes. */
  lemma {:induction false} TerminalIsForever(run: Run, m: nat, n: nat, t: TaskId)
    requires ValidRun(run) && m <= n <= |run.events| && HonestRun(run, m, n)
    requires t in run.states[m].objs && run.states[m].objs[t].status.Terminal()
    ensures t in run.states[n].objs && run.states[n].objs[t].status == run.states[m].objs[t].status
  {
    if m < n {
      TerminalIsForever(run, m, n - 1, t);
      RunKeeps(run, n - 1);
      assert StepAt(run, n - 1);
      assert Honest(run.states[n - 1], run.events[n - 1]);
      HonestKeepsTerminal(run.states[n - 1], run.events[n - 1], t);
    }
  }

  lemma HonestKeepsTerminal(s: State, e: Event, t: TaskId)
    requires Inv(s) && Enabled(s, e) && Honest(s, e) && t in s.objs && s.objs[t].status.Terminal()
    ensures t in Apply(s, e).objs && Apply(s, e).objs[t].status == s.objs[t].status
  {
    TerminalChangesExactly(s, e, t);
    if e.EEndTurn? {
      assert WorkerOk(s, e.w);
    }
  }

  /** Without that assumption it can: a turn that swallows its cancellation and then fails
      turns CANCELED into FAILED. */
  lemma SwallowedCancelOverwrites(s: State, w: WorkerId, now: int)
    requires Inv(s) && ValidWorker(s, w) && s.workers[w].phase.InTurn? && !s.closed && s.workers[w].cancelled
    ensures s.objs[s.workers[w].task].status == Canceled
    ensures EndTurn(s, w, Raised, now).objs[s.workers[w].task].status == Failed
  {
    assert WorkerOk(s, w);
  }

  // ----- the store -----

  lemma OldestUnique(s: State, t: TaskId, u: TaskId)
    requires Inv(s) && Oldest(s, t) && Oldest(s, u)
    ensures t == u
  {
    assert TaskOk(s, t) && TaskOk(s, u);
  }

  lemma {:induction false} LeastExists(s: State, candidates: set<TaskId>) returns (t: TaskId)
    requires candidates != {} && candidates <= s.objs.Keys
    requires forall u | u in candidates :: s.objs[u].id == u
    ensures t in candidates && forall u | u in candidates :: Before(s.objs[t], s.objs[u])
    decreases |candidates|
  {
    var c := AnyOf(candidates);
    var rest := candidates - {c};
    assert candidates == {c} + rest;
    t := c;
    if rest != {} {
      var u := LeastExists(s, rest);
      if !Before(s.objs[c], s.objs[u]) {
        t := u;
      }
      forall v | v in candidates ensures Before(s.objs[t], s.objs[v]) {
        assert v == c || v in rest;
      }
    } else {
      assert candidates == {c};
    }
  }

  lemma AnyOf<T>(candidates: set<T>) returns (t: T)
    requires candidates != {}
    ensures t in candidates
  {
    t :| t in candidates;
  }

  lemma OldestExists(s: State) returns (t: TaskId)
    requires Inv(s) && exists u :: TerminalStored(s, u)
    ensures Oldest(s, t)
  {
    var terminal := set u | u in s.store && TerminalStored(s, u);
    var some :| TerminalStored(s, some);
    assert some in terminal;
    forall u | u in terminal ensures s.objs[u].id == u { assert TaskOk(s, u); }
    t := LeastExists(s, terminal);
    forall u | TerminalStored(s, u) ensures Before(s.objs[t], s.objs[u]) { assert u in terminal; }
  }

  lemma FullStoreEvicts(s: State) returns (t: TaskId)
    requires |s.store| == s.maxTasks && exists u :: Oldest(s, u)
    ensures Oldest(s, t) && MakeRoom(s) == Some(Evict(s, t)) && Evict(s, t).store == s.store - {t}
  {
    t :| Oldest(s, t) && MakeRoom(s) == MakeRoom(Evict(s, t));
    var r := Evict(s, t);
    assert r.store == s.store - {t} && t in s.store && r.maxTasks == s.maxTasks;
    assert |r.store| < r.maxTasks;
    assert MakeRoom(r) == Some(r);
  }

  lemma FullStoreEvictsOnce(s: State) returns (t: TaskId)
    requires Inv(s) && |s.store| == s.maxTasks && exists u :: TerminalStored(s, u)
    ensures Oldest(s, t) && MakeRoom(s) == Some(Evict(s, t)) && Evict(s, t).store == s.store - {t}
  {
    var some := OldestExists(s);
    t := FullStoreEvicts(s);
  }

  /** A stored terminal task that was updated no later than any other, and of those the one
      with the least id. */
  ghost predicate LeastRecent(s: State, t: TaskId) {
    && TerminalStored(s, t)
    && forall u | TerminalStored(s, u) && u != t ::
         s.objs[t].updated < s.objs[u].updated || (s.objs[t].updated == s.objs[u].updated && t < u)
  }

  lemma OldestIsLeastRecent(s: State, t: TaskId)
    requires Inv(s) && Oldest(s, t)
    ensures LeastRecent(s, t)
  {
    assert TaskOk(s, t);
    forall u | TerminalStored(s, u) && u != t
      ensures s.objs[t].updated < s.objs[u].updated || (s.objs[t].updated == s.objs[u].updated && t < u)
    {
      assert TaskOk(s, u);
    }
  }

  /** A full store makes room by evicting exactly the terminal task that was updated least
      recently, and refuses only when no stored task is terminal; refusing changes nothing. */
  lemma StoreEvictsOldest(s: State)
    requires Inv(s)
    ensures |s.store| < s.maxTasks ==> MakeRoom(s) == Some(s)
    ensures |s.store| == s.maxTasks ==>
      (MakeRoom(s).None? <==> forall t :: !TerminalStored(s, t))
    ensures |s.store| == s.maxTasks && MakeRoom(s).Some? ==>
      exists t :: LeastRecent(s, t) && MakeRoom(s).value == Evict(s, t) && Evict(s, t).store == s.store - {t}
  {
    if |s.store| == s.maxTasks && exists t :: TerminalStored(s, t) {
      var t := FullStoreEvictsOnce(s);
      OldestIsLeastRecent(s, t);
    }
  }

  lemma EvictionIsMakeRoom(s: State, t: TaskId)
    requires Inv(s) && |s.store| >= s.maxTasks && Oldest(s, t)
    ensures MakeRoom(s) == Some(Evict(s, t)) && Inv(Evict(s, t)) && |Evict(s, t).store| < s.maxTasks
  {
    var u := FullStoreEvictsOnce(s);
    OldestUnique(s, t, u);
    MakeRoomKeeps(s);
  }

  lemma OtherStepsKeepStore(s: State, e: Event)
    requires Enabled(s, e) && !e.ESendNew?
    ensures Apply(s, e).store == s.store
  {
  }

  /** A stored task leaves the store only by eviction: the store was full, and the task was
      the least recently updated terminal one. */
  lemma OnlyOldestLeaves(s: State, e: Event, t: TaskId)
    requires Inv(s) && Enabled(s, e) && t in s.store && t !in Apply(s, e).store
    ensures e.ESendNew? && |s.store| == s.maxTasks && Oldest(s, t)
  {
    if e.ESendNew? {
      StoreEvictsOldest(s);
    } else {
      OtherStepsKeepStore(s, e);
    }
  }

  /** While the server is open, every non-terminal task is stored and registered with a
      worker that is still running and has not been asked to stop. */
  lemma LiveTaskIsServed(run: Run, n: nat, t: TaskId)
    requires ValidRun(run) && n <= |run.events| && !run.states[n].closed && Live(run.states[n], t)
    ensures var s := run.states[n];
      && t in s.store && t in s.futures && Unfinished(s, s.futures[t])
      && s.workers[s.futures[t]].task == t && !s.workers[s.futures[t]].cancelled
  {
    RunKeeps(run, n);
    var s := run.states[n];
    assert TaskOk(s, t);
    assert FutureOk(s, t);
  }

  // ----- the registry and shutdown -----

  /** `_task_futures` holds exactly the workers whose `finally` has not run. A worker dropped
      before its first step is finished, yet stays registered until the server closes. */
  lemma RegisteredUnlessDone(s: State, w: WorkerId)
    requires Inv(s) && !s.detached && w < |s.workers|
    ensures (s.workers[w].task in s.futures && s.futures[s.workers[w].task] == w) <==> !s.workers[w].phase.Done?
  {
    assert WorkerOk(s, w);
    assert s.workers[w].task in s.futures ==> FutureOk(s, s.workers[w].task);
  }

  /** After `close` every worker has finished, and a task is non-terminal exactly when it is
      still SUBMITTED; then its worker was dropped before its first step. */
  lemma ClosedLeavesOnlyUnstarted(s: State, t: TaskId)
    requires Inv(s) && s.detached && t in s.objs
    ensures Live(s, t) <==> s.objs[t].status == Submitted
    ensures Live(s, t) ==> AbandonedUnstarted(s, t)
    ensures forall w: WorkerId | w < |s.workers| :: s.workers[w].phase.Finished()
  {
    assert TaskOk(s, t);
    forall w: WorkerId | w < |s.workers| ensures s.workers[w].phase.Finished() {
      assert WorkerOk(s, w);
    }
  }
}
