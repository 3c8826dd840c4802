/**
 The task server of norax/a2a/server.py as a transition system. One event is the code that
 runs between two suspension points of the cooperative scheduler, so an interleaving of
 requests, cancellations, evictions and workers is a sequence of events.

 Task objects outlive their place in the store: a worker keeps its task after the store has
 evicted it. `objs` therefore holds every task object ever stored, and `store` the ids that
 `_tasks` still maps. Locks and workers have identities of their own, because a context's
 lock can be dropped from the map and created again.
 */
module A2AProtocol {
  import opened Common
  import opened A2AReply

  /** A task id is a uuid; numbers keep its order, which `_store_task` uses to break ties. */
  type TaskId = nat
  type ContextId = string
  type LockId = nat
  type WorkerId = nat

  /** The task states of section 4.1.3 of the A2A specification 1.0. */
  datatype Status =
    | Submitted | Working | Completed | Failed | Canceled | Rejected | InputRequired | AuthRequired
  {
    predicate Terminal() {
      Completed? || Failed? || Canceled? || Rejected?
    }
  }

  datatype Task = Task(id: TaskId, context: ContextId, status: Status, updated: int,
                       message: string, result: string, error: string)
  {
    function Touch(status: Status, now: int): Task {
      this.(status := status, updated := now)
    }

    function Complete(result: string, now: int): Task {
      this.(result := result, error := "").Touch(Completed, now)
    }

    function Fail(error: string, now: int): Task {
      this.(result := "", error := error).Touch(Failed, now)
    }

    function Restart(text: string, now: int): Task {
      this.(message := text, error := "", result := "").Touch(Submitted, now)
    }
  }

  function NewTask(id: TaskId, context: ContextId, text: string, now: int): Task {
    Task(id, context, Submitted, now, text, "", "")
  }

  /** Dropped is a worker cancelled before its first step: its `try` was never entered, so its
      `finally` never ran. */
  datatype Phase =
    | Created | WaitSlot | WaitLock(lock: LockId) | InTurn(lock: LockId) | Done | Dropped
  {
    predicate Finished() {
      Done? || Dropped?
    }

    predicate HoldsSlot() {
      WaitLock? || InTurn?
    }
  }

  /** `cancelled` records that a cancellation has been requested and not yet unwound. */
  datatype Worker = Worker(task: TaskId, phase: Phase, cancelled: bool)

  /** `lockOwner[l]` is the context lock l was created for, whether or not the map still has it. */
  datatype State = State(
    maxTasks: nat,
    maxConcurrent: nat,
    objs: map<TaskId, Task>,
    store: set<TaskId>,
    workers: seq<Worker>,
    futures: map<TaskId, WorkerId>,
    replies: map<TaskId, Reply>,
    contextLocks: map<ContextId, LockId>,
    held: map<LockId, WorkerId>,
    lockOwner: seq<ContextId>,
    slots: nat,
    closed: bool,
    draining: set<WorkerId>,
    detached: bool)

  datatype Rejection =
    | Unavailable | ResourceExhausted | TaskNotFound | UnsupportedOperation
    | ContextMismatch | TaskAlreadyRunning | TaskNotCancelable

  // ----- the store -----

  predicate Before(a: Task, b: Task) {
    a.updated < b.updated || (a.updated == b.updated && a.id <= b.id)
  }

  ghost predicate TerminalStored(s: State, t: TaskId) {
    t in s.store && t in s.objs && s.objs[t].status.Terminal()
  }

  /** The task `_store_task` evicts: least (updated_at, id) among the terminal ones. */
  ghost predicate Oldest(s: State, t: TaskId) {
    && TerminalStored(s, t)
    && forall u | TerminalStored(s, u) :: Before(s.objs[t], s.objs[u])
  }

  ghost function PruneLock(s: State, context: ContextId): State {
    if exists t | t in s.store :: t in s.objs && s.objs[t].context == context then s
    else if context in s.contextLocks && s.contextLocks[context] !in s.held then
      s.(contextLocks := s.contextLocks - {context})
    else s
  }

  ghost function Evict(s: State, t: TaskId): State
    requires t in s.objs
  {
    PruneLock(s.(store := s.store - {t}), s.objs[t].context)
  }

  /** `_store_task` up to the final assignment; None is the capacity error. */
  ghost function MakeRoom(s: State): (r: Option<State>)
    ensures r.Some? ==> |r.value.store| < s.maxTasks
    decreases |s.store|
  {
    if |s.store| < s.maxTasks then Some(s)
    else if t: TaskId :| Oldest(s, t) then
      assert t in s.store;
      assert |s.store - {t}| < |s.store|;
      MakeRoom(Evict(s, t))
    else None
  }

  // ----- requests -----

  /** A new task is stored and its worker created without a suspension in between. */
  function Enroll(s: State, id: TaskId, context: ContextId, text: string, now: int): State {
    s.(objs := s.objs[id := NewTask(id, context, text, now)],
       store := s.store + {id},
       workers := s.workers + [Worker(id, Created, false)],
       futures := s.futures[id := |s.workers|])
  }

  ghost function SendNew(s: State, id: TaskId, context: ContextId, text: string, now: int): Result<State, Rejection> {
    if s.closed then Err(Unavailable)
    else match MakeRoom(s)
      case None => Err(ResourceExhausted)
      case Some(r) => Ok(Enroll(r, id, context, text, now))
  }

  ghost function SendTo(s: State, id: TaskId, context: ContextId, text: string, now: int): Result<State, Rejection> {
    if s.closed then Err(Unavailable)
    else if id !in s.store || id !in s.objs then Err(TaskNotFound)
    else if s.objs[id].status.Terminal() then Err(UnsupportedOperation)
    else if context != "" && context != s.objs[id].context then Err(ContextMismatch)
    else if id in s.futures then Err(TaskAlreadyRunning)
    else
      Ok(s.(objs := s.objs[id := s.objs[id].Restart(text, now)],
            workers := s.workers + [Worker(id, Created, false)],
            futures := s.futures[id := |s.workers|]))
  }

  function CancelWorkers(workers: seq<Worker>, targets: set<WorkerId>): (r: seq<Worker>)
    ensures |r| == |workers|
    ensures forall w | 0 <= w < |workers| ::
      r[w] == if w in targets && !workers[w].phase.Finished() then workers[w].(cancelled := true) else workers[w]
  {
    seq(|workers|, w requires 0 <= w < |workers| =>
      if w in targets && !workers[w].phase.Finished() then workers[w].(cancelled := true) else workers[w])
  }

  function Cancel(s: State, id: TaskId, now: int): Result<State, Rejection> {
    if id !in s.store || id !in s.objs then Err(TaskNotFound)
    else if s.objs[id].status.Terminal() then Err(TaskNotCancelable)
    else
      Ok(s.(objs := s.objs[id := s.objs[id].Touch(Canceled, now)],
            workers := CancelWorkers(s.workers, if id in s.futures then {s.futures[id]} else {})))
  }

  function Close(s: State): State {
    if s.closed then s
    else s.(closed := true, draining := s.futures.Values,
            workers := CancelWorkers(s.workers, s.futures.Values))
  }

  function CloseDone(s: State): State {
    s.(replies := map[], futures := map[], detached := true)
  }

  /** The outbound adapter's `send`, which the runtime may call at any time. */
  function Say(s: State, id: TaskId, text: string): State {
    if id in s.replies then s.(replies := s.replies[id := Accept(s.replies[id], text).0]) else s
  }

  // ----- workers -----

  /** How a runtime turn ends, as `_run_task` sees it. */
  datatype TurnOutcome = Returned | Raised | CancelRaised

  predicate ValidWorker(s: State, w: WorkerId) {
    w < |s.workers| && s.workers[w].task in s.objs
  }

  function Finish(s: State, w: WorkerId): State
    requires ValidWorker(s, w)
  {
    var id := s.workers[w].task;
    s.(workers := s.workers[w := s.workers[w].(phase := Done)],
       futures := if id in s.futures && s.futures[id] == w then s.futures - {id} else s.futures)
  }

  function TouchTask(s: State, id: TaskId, status: Status, now: int): State
    requires id in s.objs
  {
    s.(objs := s.objs[id := s.objs[id].Touch(status, now)])
  }

  function Start(s: State, w: WorkerId): (r: State)
    requires ValidWorker(s, w)
    ensures |r.workers| == |s.workers| && r.workers == s.workers[w := r.workers[w]] && r.store == s.store
  {
    var worker := s.workers[w];
    s.(workers := s.workers[w := worker.(phase := if worker.cancelled then Dropped else WaitSlot)])
  }

  function Permit(s: State, id: TaskId, now: int): State
    requires id in s.objs && s.slots > 0
  {
    TouchTask(s, id, Working, now).(slots := s.slots - 1)
  }

  /** `setdefault` on the lock map. */
  function SetDefaultLock(s: State, context: ContextId): State {
    if context in s.contextLocks then s
    else s.(contextLocks := s.contextLocks[context := |s.lockOwner|], lockOwner := s.lockOwner + [context])
  }

  function TakeSlot(s: State, w: WorkerId, now: int): (r: State)
    requires ValidWorker(s, w) && s.slots > 0
    ensures |r.workers| == |s.workers| && r.workers == s.workers[w := r.workers[w]] && r.store == s.store
  {
    var id := s.workers[w].task;
    if s.objs[id].status == Canceled then Finish(s, w)
    else
      var context := s.objs[id].context;
      var r := SetDefaultLock(Permit(s, id, now), context);
      r.(workers := r.workers[w := r.workers[w].(phase := WaitLock(r.contextLocks[context]))])
  }

  function FreeSlot(s: State, w: WorkerId): State
    requires w < |s.workers|
  {
    s.(slots := if s.workers[w].phase.HoldsSlot() then s.slots + 1 else s.slots)
  }

  function Abandon(s: State, w: WorkerId, now: int): (r: State)
    requires ValidWorker(s, w)
    ensures |r.workers| == |s.workers| && r.workers == s.workers[w := r.workers[w]] && r.store == s.store
  {
    Finish(TouchTask(FreeSlot(s, w), s.workers[w].task, Canceled, now), w)
  }

  function TakeLock(s: State, w: WorkerId): (r: State)
    requires ValidWorker(s, w) && s.workers[w].phase.WaitLock?
    ensures |r.workers| == |s.workers| && r.workers == s.workers[w := r.workers[w]] && r.store == s.store
  {
    var lock := s.workers[w].phase.lock;
    s.(held := s.held[lock := w],
       replies := s.replies[s.workers[w].task := NO_REPLY],
       workers := s.workers[w := s.workers[w].(phase := InTurn(lock))])
  }

  /** The task after its turn: `_execute_task`'s reading of the reply, then `_run_task`'s
      assignment or exception handler. */
  function TaskAfter(task: Task, outcome: TurnOutcome, reply: Reply, now: int): Task {
    match outcome
    case CancelRaised => task.Touch(Canceled, now)
    case Raised => task.Fail("Task execution failed", now)
    case Returned =>
      match Harvest(reply)
      case None => task.Fail("Task execution failed", now)
      case Some(text) => if task.status == Canceled then task else task.Complete(text, now)
  }

  function Settled(s: State, id: TaskId, outcome: TurnOutcome, reply: Reply, now: int): State
    requires id in s.objs
  {
    s.(objs := s.objs[id := TaskAfter(s.objs[id], outcome, reply, now)])
  }

  /** The reply future is popped, the context lock and the slot are released. */
  function Released(s: State, id: TaskId, lock: LockId): State {
    s.(replies := s.replies - {id}, held := s.held - {lock}, slots := s.slots + 1)
  }

  function EndTurn(s: State, w: WorkerId, outcome: TurnOutcome, now: int): (r: State)
    requires ValidWorker(s, w) && s.workers[w].phase.InTurn?
    ensures |r.workers| == |s.workers| && r.workers == s.workers[w := r.workers[w]] && r.store == s.store
  {
    var id := s.workers[w].task;
    var reply := if id in s.replies then s.replies[id] else NO_REPLY;
    Finish(Settled(Released(s, id, s.workers[w].phase.lock), id, outcome, reply, now), w)
  }

  // ----- events and runs -----

  datatype Event =
    | ESendNew(id: TaskId, context: ContextId, text: string, now: int)
    | ESendTo(id: TaskId, context: ContextId, text: string, now: int)
    | ECancel(id: TaskId, now: int)
    | ESay(id: TaskId, text: string)
    | EStart(w: WorkerId)
    | ETakeSlot(w: WorkerId, now: int)
    | EAbandon(w: WorkerId, now: int)
    | ETakeLock(w: WorkerId)
    | EEndTurn(w: WorkerId, outcome: TurnOutcome, now: int)
    | EClose
    | ECloseDone

  /** A worker with a pending cancellation never acquires a slot or a lock. Fresh ids are
      those of no earlier task. */
  predicate Enabled(s: State, e: Event) {
    match e
    case ESendNew(id, _, _, _) => id !in s.objs
    case EStart(w) => ValidWorker(s, w) && s.workers[w].phase.Created?
    case ETakeSlot(w, _) =>
      ValidWorker(s, w) && s.workers[w].phase.WaitSlot? && !s.workers[w].cancelled && s.slots > 0
    case EAbandon(w, _) =>
      ValidWorker(s, w) && s.workers[w].cancelled && (s.workers[w].phase.WaitSlot? || s.workers[w].phase.WaitLock?)
    case ETakeLock(w) =>
      ValidWorker(s, w) && s.workers[w].phase.WaitLock? && !s.workers[w].cancelled && s.workers[w].phase.lock !in s.held
    case EEndTurn(w, _, _) => ValidWorker(s, w) && s.workers[w].phase.InTurn?
    case ECloseDone => s.closed && !s.detached && forall w | w in s.draining :: w < |s.workers| ==> s.workers[w].phase.Finished()
    case _ => true
  }

  ghost function OkOr(r: Result<State, Rejection>, s: State): State {
    if r.Ok? then r.value else s
  }

  predicate WorkerEvent(e: Event) {
    e.EStart? || e.ETakeSlot? || e.EAbandon? || e.ETakeLock? || e.EEndTurn?
  }

  function WorkerStep(s: State, e: Event): State
    requires WorkerEvent(e) && Enabled(s, e)
  {
    match e
    case EStart(w) => Start(s, w)
    case ETakeSlot(w, now) => TakeSlot(s, w, now)
    case EAbandon(w, now) => Abandon(s, w, now)
    case ETakeLock(w) => TakeLock(s, w)
    case EEndTurn(w, outcome, now) => EndTurn(s, w, outcome, now)
  }

  ghost function RequestStep(s: State, e: Event): State
    requires !WorkerEvent(e) && Enabled(s, e)
  {
    match e
    case ESendNew(id, context, text, now) => OkOr(SendNew(s, id, context, text, now), s)
    case ESendTo(id, context, text, now) => OkOr(SendTo(s, id, context, text, now), s)
    case ECancel(id, now) => OkOr(Cancel(s, id, now), s)
    case ESay(id, text) => Say(s, id, text)
    case EClose => Close(s)
    case ECloseDone => CloseDone(s)
  }

  ghost function Apply(s: State, e: Event): State
    requires Enabled(s, e)
  {
    if WorkerEvent(e) then WorkerStep(s, e) else RequestStep(s, e)
  }

  function Initial(maxTasks: nat, maxConcurrent: nat): State {
    State(maxTasks, maxConcurrent, map[], {}, [], map[], map[], map[], map[], [], maxConcurrent, false, {}, false)
  }

  /** The states before, between and behind the events. */
  datatype Run = Run(maxTasks: nat, maxConcurrent: nat, events: seq<Event>, states: seq<State>)

  ghost predicate StepAt(run: Run, i: nat)
    requires i < |run.events| && |run.states| == |run.events| + 1
  {
    Enabled(run.states[i], run.events[i]) && run.states[i + 1] == Apply(run.states[i], run.events[i])
  }

  /** Any interleaving: each event is enabled and leads to the next state. */
  ghost predicate ValidRun(run: Run) {
    && 1 <= run.maxTasks && 1 <= run.maxConcurrent
    && |run.states| == |run.events| + 1 && run.states[0] == Initial(run.maxTasks, run.maxConcurrent)
    && forall i: nat | i < |run.events| :: StepAt(run, i)
  }
}
