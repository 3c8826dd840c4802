/**
 `NoraxA2AServer` and `A2ATask` as the mutable objects they are. Each method is one step of
 the cooperative scheduler and is proved against the transition system of A2AProtocol: the
 view of the fields after the call is `Apply` of the view before it.
 */
module A2AServer {
  import opened Common
  import opened A2AReply
  import opened A2AProtocol
  import opened A2AInvariants
  import opened A2ATheorems

  class A2ATask {
    const id: TaskId
    const context: ContextId
    var status: Status
    var updated: int
    var message: string
    var result: string
    var error: string

    ghost function View(): Task
      reads this
    {
      Task(id, context, status, updated, message, result, error)
    }

    constructor (id: TaskId, context: ContextId, text: string, now: int)
      ensures View() == NewTask(id, context, text, now)
    {
      this.id, this.context := id, context;
      status, updated := Submitted, now;
      message, result, error := text, "", "";
    }

    method Touch(status: Status, now: int)
      modifies this
      ensures View() == old(View()).Touch(status, now)
    {
      this.status := status;
      updated := now;
    }

    method Complete(result: string, now: int)
      modifies this
      ensures View() == old(View()).Complete(result, now)
    {
      this.result := result;
      error := "";
      Touch(Completed, now);
    }

    method Fail(error: string, now: int)
      modifies this
      ensures View() == old(View()).Fail(error, now)
    {
      result := "";
      this.error := error;
      Touch(Failed, now);
    }
  }

  /** An asyncio task running `_run_task`; it keeps its A2ATask even after the store evicts it. */
  datatype Handle = Handle(task: A2ATask, phase: Phase, cancelled: bool)

  function WorkerViews(workers: seq<Handle>): (r: seq<Worker>)
    ensures |r| == |workers|
    ensures forall w | 0 <= w < |workers| :: r[w] == Worker(workers[w].task.id, workers[w].phase, workers[w].cancelled)
  {
    seq(|workers|, w requires 0 <= w < |workers| => Worker(workers[w].task.id, workers[w].phase, workers[w].cancelled))
  }

  class NoraxA2AServer {
    const maxTasks: nat
    const maxConcurrent: nat
    var tasks: map<TaskId, A2ATask>
    var workers: seq<Handle>
    var taskFutures: map<TaskId, WorkerId>
    var replies: map<TaskId, Reply>
    var contextLocks: map<ContextId, LockId>
    var held: map<LockId, WorkerId>
    var lockCount: nat
    var slots: nat
    var closed: bool
    var draining: set<WorkerId>
    var detached: bool
    ghost var lockOwner: seq<ContextId>
    ghost var objs: map<TaskId, A2ATask>

    ghost predicate Rep()
      reads this
    {
      && |lockOwner| == lockCount
      && (forall t | t in tasks :: t in objs && objs[t] == tasks[t])
      && (forall t | t in objs :: objs[t].id == t)
      && (forall w | 0 <= w < |workers| :: workers[w].task.id in objs && objs[workers[w].task.id] == workers[w].task)
    }

    ghost function TaskViews(): map<TaskId, Task>
      reads this, objs.Values
    {
      map t | t in objs :: objs[t].View()
    }

    ghost function View(): State
      reads this, objs.Values
    {
      State(maxTasks, maxConcurrent, TaskViews(), tasks.Keys, WorkerViews(workers),
            taskFutures, replies, contextLocks, held, lockOwner, slots, closed, draining, detached)
    }

    ghost predicate Valid()
      reads this, objs.Values
    {
      Rep() && Inv(View())
    }

    constructor (maxTasks: nat, maxConcurrent: nat)
      requires 1 <= maxTasks && 1 <= maxConcurrent
      ensures Valid() && objs == map[] && View() == Initial(maxTasks, maxConcurrent)
    {
      this.maxTasks, this.maxConcurrent := maxTasks, maxConcurrent;
      tasks, workers, taskFutures, replies := map[], [], map[], map[];
      contextLocks, held, lockCount, slots := map[], map[], 0, maxConcurrent;
      closed, draining, detached := false, {}, false;
      lockOwner, objs := [], map[];
    }

    /** `min` over the terminal stored tasks, by (updated_at, id). */
    method OldestTerminal() returns (oldest: Option<A2ATask>)
      requires Valid()
      ensures oldest.Some? ==> oldest.value.id in tasks && tasks[oldest.value.id] == oldest.value && Oldest(View(), oldest.value.id)
      ensures oldest.None? ==> forall t :: !TerminalStored(View(), t)
    {
      oldest := None;
      var rest := tasks.Keys;
      while rest != {}
        invariant rest <= tasks.Keys
        invariant oldest.Some? ==>
          && oldest.value.id in tasks && tasks[oldest.value.id] == oldest.value
          && oldest.value.status.Terminal()
          && forall t | t in tasks.Keys - rest && tasks[t].status.Terminal() :: Before(oldest.value.View(), tasks[t].View())
        invariant oldest.None? ==> forall t | t in tasks.Keys - rest :: !tasks[t].status.Terminal()
        decreases rest
      {
        var t :| t in rest;
        rest := rest - {t};
        var item := tasks[t];
        if item.status.Terminal() &&
           (oldest.None? || item.updated < oldest.value.updated || (item.updated == oldest.value.updated && item.id < oldest.value.id))
        {
          oldest := Some(item);
        }
      }
    }

    method PruneContextLock(context: ContextId)
      requires Rep()
      modifies this`contextLocks
      ensures Rep() && View() == PruneLock(old(View()), context)
    {
      var stored := exists t | t in tasks.Keys :: tasks[t].context == context;
      if stored {
        assert exists t | t in View().store :: t in View().objs && View().objs[t].context == context;
        return;
      }
      if context in contextLocks && contextLocks[context] !in held {
        contextLocks := contextLocks - {context};
      }
    }

    /** `self._tasks.pop(oldest.id)` */
    method Forget(id: TaskId)
      requires Rep()
      modifies this`tasks
      ensures Rep() && View() == old(View()).(store := old(View()).store - {id})
    {
      tasks := tasks - {id};
      assert View().store == old(tasks).Keys - {id};
    }

    method EvictOldest() returns (ok: bool)
      requires Valid() && |tasks.Keys| >= maxTasks
      modifies this`tasks, this`contextLocks
      ensures Valid()
      ensures ok ==> MakeRoom(old(View())) == Some(View()) && |tasks.Keys| < maxTasks
      ensures !ok ==> MakeRoom(old(View())).None? && View() == old(View())
    {
      ghost var before := View();
      var oldest := OldestTerminal();
      if oldest.None? {
        return false;
      }
      EvictionIsMakeRoom(before, oldest.value.id);
      assert before.objs[oldest.value.id].context == oldest.value.context;
      Forget(oldest.value.id);
      ghost var forgotten := View();
      PruneContextLock(oldest.value.context);
      assert View() == PruneLock(forgotten, oldest.value.context) == Evict(before, oldest.value.id);
      return true;
    }

    /** `_store_task`'s loop. */
    method MakeSpace() returns (ok: bool)
      requires Valid()
      modifies this`tasks, this`contextLocks
      ensures Valid()
      ensures ok ==> MakeRoom(old(View())) == Some(View())
      ensures !ok ==> MakeRoom(old(View())).None? && View() == old(View())
    {
      ghost var before := View();
      ghost var evicted := false;
      while |tasks.Keys| >= maxTasks
        invariant Valid()
        invariant if evicted then MakeRoom(before) == Some(View()) && |tasks.Keys| < maxTasks else View() == before
        decreases |tasks.Keys|, !evicted
      {
        var done := EvictOldest();
        if !done {
          return false;
        }
        evicted := true;
      }
      return true;
    }

    /** `self._tasks[task.id] = task` for a new task. */
    method Store(task: A2ATask)
      requires Rep() && task.id !in objs
      modifies this`tasks, this`objs
      ensures Rep() && objs == old(objs)[task.id := task]
      ensures View() == old(View()).(objs := old(View()).objs[task.id := task.View()], store := old(View()).store + {task.id})
    {
      ghost var before, stored := TaskViews(), tasks.Keys;
      tasks := tasks[task.id := task];
      objs := objs[task.id := task];
      assert Rep();
      assert TaskViews() == before[task.id := task.View()];
      assert tasks.Keys == stored + {task.id};
    }

    /** `asyncio.create_task(self._run_task(...))` and its registration. */
    method Spawn(task: A2ATask)
      requires Rep() && task.id in objs && objs[task.id] == task
      modifies this`taskFutures, this`workers
      ensures Rep()
      ensures View() == old(View()).(workers := old(View()).workers + [Worker(task.id, Created, false)],
                                     futures := old(View()).futures[task.id := |old(View()).workers|])
    {
      taskFutures := taskFutures[task.id := |workers|];
      ghost var handles := WorkerViews(workers);
      workers := workers + [Handle(task, Created, false)];
      assert WorkerViews(workers) == handles + [Worker(task.id, Created, false)];
    }

    method EnrollNew(id: TaskId, context: ContextId, text: string, now: int) returns (task: A2ATask)
      requires Rep() && id !in objs
      modifies this`tasks, this`objs, this`taskFutures, this`workers
      ensures Rep() && View() == Enroll(old(View()), id, context, text, now)
      ensures fresh(task) && task.id == id && objs == old(objs)[id := task]
    {
      ghost var room := View();
      task := new A2ATask(id, context, text, now);
      assert View() == room;
      Store(task);
      Spawn(task);
    }

    /** `send_message` without a task id. */
    method SendNewMessage(id: TaskId, context: ContextId, text: string, now: int) returns (r: Result<A2ATask, Rejection>)
      requires Valid() && id !in objs
      modifies this
      ensures Valid()
      ensures SendNew(old(View()), id, context, text, now).Ok? ==>
        r.Ok? && View() == SendNew(old(View()), id, context, text, now).value && fresh(r.value) && objs == old(objs)[id := r.value]
      ensures SendNew(old(View()), id, context, text, now).Err? ==>
        r == Err(SendNew(old(View()), id, context, text, now).error) && View() == old(View()) && objs == old(objs)
    {
      ghost var before := View();
      if closed {
        return Err(Unavailable);
      }
      var ok := MakeSpace();
      if !ok {
        return Err(ResourceExhausted);
      }
      SendNewKeeps(before, id, context, text, now);
      var task := EnrollNew(id, context, text, now);
      ghost var after := View();
      assert Inv(after);
      return Ok(task);
    }

    /** `send_message` naming a task. The restart at the end is reachable only outside the
        invariant (A2ATheorems.NoRestart). */
    method SendToTask(id: TaskId, context: ContextId, text: string, now: int) returns (r: Result<A2ATask, Rejection>)
      requires Rep()
      modifies this, tasks.Values
      ensures Rep() && objs == old(objs)
      ensures SendTo(old(View()), id, context, text, now).Ok? ==>
        r.Ok? && View() == SendTo(old(View()), id, context, text, now).value
      ensures SendTo(old(View()), id, context, text, now).Err? ==>
        r == Err(SendTo(old(View()), id, context, text, now).error) && View() == old(View())
    {
      if closed {
        return Err(Unavailable);
      }
      if id !in tasks {
        return Err(TaskNotFound);
      }
      var task := tasks[id];
      assert View().objs[id] == task.View();
      if task.status.Terminal() {
        return Err(UnsupportedOperation);
      }
      if context != "" && context != task.context {
        return Err(ContextMismatch);
      }
      if id in taskFutures {
        return Err(TaskAlreadyRunning);
      }
      RestartStored(task, text, now);
      Spawn(task);
      return Ok(task);
    }

    method RestartStored(task: A2ATask, text: string, now: int)
      requires Rep() && task.id in objs && objs[task.id] == task
      modifies task
      ensures Rep() && View() == old(View()).(objs := old(View()).objs[task.id := old(task.View()).Restart(text, now)])
    {
      ghost var before := TaskViews();
      task.message := text;
      task.error := "";
      task.result := "";
      task.Touch(Submitted, now);
      ShowOnlyChanged(before, task);
    }

    lemma ShowOnlyChanged(before: map<TaskId, Task>, task: A2ATask)
      requires Rep() && task.id in objs && objs[task.id] == task && before.Keys == objs.Keys
      requires forall t | t in objs && t != task.id :: before[t] == objs[t].View()
      ensures TaskViews() == before[task.id := task.View()]
    {
    }

    // ----- steps of a worker -----

    method SetWorker(w: WorkerId, phase: Phase, cancelled: bool)
      requires Rep() && w < |workers|
      modifies this`workers
      ensures Rep()
      ensures View() == old(View()).(workers := old(View()).workers[w := Worker(old(workers)[w].task.id, phase, cancelled)])
      ensures workers == old(workers)[w := Handle(old(workers)[w].task, phase, cancelled)]
    {
      ghost var views := WorkerViews(workers);
      workers := workers[w := Handle(workers[w].task, phase, cancelled)];
      assert WorkerViews(workers) == views[w := Worker(workers[w].task.id, phase, cancelled)];
    }

    /** `_run_task`'s `finally`. */
    method FinishWorker(w: WorkerId)
      requires Rep() && w < |workers|
      modifies this`workers, this`taskFutures
      ensures Rep() && ValidWorker(old(View()), w) && View() == Finish(old(View()), w)
    {
      var id := workers[w].task.id;
      assert id in View().objs;
      if id in taskFutures && taskFutures[id] == w {
        taskFutures := taskFutures - {id};
      }
      SetWorker(w, Done, workers[w].cancelled);
    }

    method TouchStored(task: A2ATask, status: Status, now: int)
      requires Rep() && task.id in objs && objs[task.id] == task
      modifies task
      ensures Rep() && View() == TouchTask(old(View()), task.id, status, now)
    {
      ghost var before := TaskViews();
      task.Touch(status, now);
      ShowOnlyChanged(before, task);
    }

    method FailStored(task: A2ATask, error: string, now: int)
      requires Rep() && task.id in objs && objs[task.id] == task
      modifies task
      ensures Rep() && View() == old(View()).(objs := old(View()).objs[task.id := old(task.View()).Fail(error, now)])
    {
      ghost var before := TaskViews();
      task.Fail(error, now);
      ShowOnlyChanged(before, task);
    }

    method CompleteStored(task: A2ATask, result: string, now: int)
      requires Rep() && task.id in objs && objs[task.id] == task
      modifies task
      ensures Rep() && View() == old(View()).(objs := old(View()).objs[task.id := old(task.View()).Complete(result, now)])
    {
      ghost var before := TaskViews();
      task.Complete(result, now);
      ShowOnlyChanged(before, task);
    }

    method StartWorker(w: WorkerId)
      requires Rep() && w < |workers| && workers[w].phase.Created?
      modifies this`workers
      ensures Rep() && View() == Start(old(View()), w)
    {
      SetWorker(w, if workers[w].cancelled then Dropped else WaitSlot, workers[w].cancelled);
    }

    /** `self._context_locks.setdefault(context_id, asyncio.Lock())` */
    method LockFor(context: ContextId) returns (lock: LockId)
      requires Rep()
      modifies this`contextLocks, this`lockOwner, this`lockCount
      ensures Rep() && context in contextLocks && contextLocks[context] == lock
      ensures View() == SetDefaultLock(old(View()), context)
    {
      if context !in contextLocks {
        contextLocks := contextLocks[context := lockCount];
        lockOwner := lockOwner + [context];
        lockCount := lockCount + 1;
      }
      lock := contextLocks[context];
    }

    method TakePermit(task: A2ATask, now: int)
      requires Rep() && task.id in objs && objs[task.id] == task && slots > 0
      modifies this`slots, task
      ensures Rep() && View() == Permit(old(View()), task.id, now)
    {
      slots := slots - 1;
      TouchStored(task, Working, now);
    }

    method ClaimSlot(w: WorkerId, now: int)
      requires Rep() && w < |workers| && !workers[w].cancelled && slots > 0 && workers[w].task.status != Canceled
      modifies this, workers[w].task
      ensures Rep() && View() == TakeSlot(old(View()), w, now)
    {
      assert View().objs[workers[w].task.id] == workers[w].task.View();
      TakePermit(workers[w].task, now);
      var lock := LockFor(workers[w].task.context);
      SetWorker(w, WaitLock(lock), false);
    }

    /** `async with self._slots`, up to the wait for the context lock. */
    method AcquireSlot(w: WorkerId, now: int)
      requires Rep() && w < |workers| && workers[w].phase.WaitSlot? && !workers[w].cancelled && slots > 0
      modifies this, workers[w].task
      ensures Rep() && View() == TakeSlot(old(View()), w, now)
    {
      assert View().objs[workers[w].task.id] == workers[w].task.View();
      if workers[w].task.status == Canceled {
        FinishWorker(w);
      } else {
        ClaimSlot(w, now);
      }
    }

    method ReturnPermit(w: WorkerId)
      requires Rep() && w < |workers|
      modifies this`slots
      ensures Rep() && View() == FreeSlot(old(View()), w)
    {
      if workers[w].phase.HoldsSlot() {
        slots := slots + 1;
      }
    }

    /** The cancellation arrives while the worker waits for a slot or for its lock. */
    method AbandonWait(w: WorkerId, now: int)
      requires Rep() && w < |workers| && workers[w].cancelled && (workers[w].phase.WaitSlot? || workers[w].phase.WaitLock?)
      modifies this, workers[w].task
      ensures Rep() && View() == Abandon(old(View()), w, now)
    {
      ReturnPermit(w);
      TouchStored(workers[w].task, Canceled, now);
      FinishWorker(w);
    }

    method AcquireLock(w: WorkerId)
      requires Rep() && w < |workers| && workers[w].phase.WaitLock? && !workers[w].cancelled && workers[w].phase.lock !in held
      modifies this
      ensures Rep() && View() == TakeLock(old(View()), w)
    {
      var lock := workers[w].phase.lock;
      held := held[lock := w];
      replies := replies[workers[w].task.id := NO_REPLY];
      SetWorker(w, InTurn(lock), workers[w].cancelled);
    }

    /** The assignment or the exception handler that ends `_run_task`. */
    method Settle(task: A2ATask, outcome: TurnOutcome, reply: Reply, now: int)
      requires Rep() && task.id in objs && objs[task.id] == task
      modifies task
      ensures Rep()
      ensures View() == Settled(old(View()), task.id, outcome, reply, now)
    {
      assert View().objs[task.id] == task.View();
      assert View().objs == View().objs[task.id := task.View()];
      var result := if outcome.Returned? then Harvest(reply) else None;
      if outcome.CancelRaised? {
        TouchStored(task, Canceled, now);
      } else if result.None? {
        FailStored(task, "Task execution failed", now);
      } else if task.status != Canceled {
        CompleteStored(task, result.value, now);
      }
    }

    /** The reply future is popped and the two `async with` blocks release. */
    method Release(id: TaskId, lock: LockId)
      requires Rep()
      modifies this`replies, this`held, this`slots
      ensures Rep()
      ensures View() == Released(old(View()), id, lock)
    {
      ghost var views := TaskViews();
      replies := replies - {id};
      held := held - {lock};
      slots := slots + 1;
      assert TaskViews() == views;
    }

    /** The end of `_execute_task` and the rest of `_run_task`. */
    method EndTurnOf(w: WorkerId, outcome: TurnOutcome, now: int)
      requires Rep() && w < |workers| && workers[w].phase.InTurn?
      modifies this, workers[w].task
      ensures Rep() && View() == EndTurn(old(View()), w, outcome, now)
    {
      var task := workers[w].task;
      assert View().objs[task.id] == task.View();
      var reply := if task.id in replies then replies[task.id] else NO_REPLY;
      Release(task.id, workers[w].phase.lock);
      Settle(task, outcome, reply, now);
      FinishWorker(w);
    }

    // ----- other requests -----

    /** The outbound adapter's `send`. */
    method OutboundSend(id: TaskId, text: string) returns (receipt: Option<Receipt>)
      requires Rep()
      modifies this`replies
      ensures Rep() && View() == Say(old(View()), id, text)
      ensures receipt == if id in old(replies) then Some(Accept(old(replies)[id], text).1) else None
    {
      if id !in replies {
        return None;
      }
      var reply := replies[id];
      var cleaned := Strip(text);
      if cleaned == "" {
        return Some(EmptyReply);
      }
      if Total(reply.chunks) + |cleaned| > MAX_RESULT_CHARS {
        if reply.future.Pending? {
          replies := replies[id := reply.(future := Broken)];
        }
        return Some(ReplyTooLarge);
      }
      replies := replies[id := Reply(reply.chunks + [cleaned], if reply.future.Pending? then Resolved else reply.future)];
      return Some(Delivered);
    }

    method CancelWorkersIn(targets: set<WorkerId>)
      requires Rep()
      modifies this`workers
      ensures Rep() && View() == old(View()).(workers := CancelWorkers(old(View()).workers, targets))
    {
      ghost var views := WorkerViews(workers);
      workers := seq(|workers|, w requires 0 <= w < |workers| reads this =>
        if w in targets && !workers[w].phase.Finished() then workers[w].(cancelled := true) else workers[w]);
      assert WorkerViews(workers) == CancelWorkers(views, targets);
    }

    method CancelTask(id: TaskId, now: int) returns (r: Result<A2ATask, Rejection>)
      requires Rep()
      modifies this`workers, tasks.Values
      ensures Rep() && objs == old(objs)
      ensures Cancel(old(View()), id, now).Ok? ==>
        r.Ok? && View() == Cancel(old(View()), id, now).value
      ensures Cancel(old(View()), id, now).Err? ==>
        r == Err(Cancel(old(View()), id, now).error) && View() == old(View())
    {
      if id !in tasks {
        return Err(TaskNotFound);
      }
      var task := tasks[id];
      assert View().objs[id] == task.View();
      if task.status.Terminal() {
        return Err(TaskNotCancelable);
      }
      CancelLive(task, now);
      return Ok(task);
    }

    /** The task is marked, and its worker asked to stop. */
    method CancelLive(task: A2ATask, now: int)
      requires Rep() && task.id in tasks && tasks[task.id] == task && !task.status.Terminal()
      modifies this`workers, task
      ensures Rep() && Cancel(old(View()), task.id, now) == Ok(View())
    {
      assert View().objs[task.id] == task.View();
      TouchStored(task, Canceled, now);
      CancelWorkersIn(if task.id in taskFutures then {taskFutures[task.id]} else {});
    }

    method BeginClose()
      requires Rep()
      modifies this
      ensures Rep() && View() == Close(old(View()))
    {
      if closed {
        return;
      }
      closed := true;
      draining := taskFutures.Values;
      CancelWorkersIn(taskFutures.Values);
    }

    /** The rest of `close`, once the gathered workers have finished. */
    method FinishClose()
      requires Rep() && closed && !detached && forall w | w in draining :: w < |workers| ==> workers[w].phase.Finished()
      modifies this
      ensures Rep() && View() == CloseDone(old(View()))
    {
      replies := map[];
      taskFutures := map[];
      detached := true;
    }
  }
}
