/** When the entry of a context lock outlives the stored tasks of its context. */
module A2ALocks {
  import opened Common
  import opened A2AProtocol
  import opened A2AInvariants
  import opened A2ATheorems
  import opened A2ATurns

  ghost predicate ContextStored(s: State, c: ContextId) {
    exists t | t in s.store :: t in s.objs && s.objs[t].context == c
  }

  /** The lock map still has an entry for a context of which no task is stored. */
  ghost predicate Orphan(s: State, c: ContextId) {
    c in s.contextLocks && !ContextStored(s, c)
  }

  ghost predicate EntryHeld(s: State, c: ContextId) {
    c in s.contextLocks && s.contextLocks[c] in s.held
  }

  // ----- one step -----

  lemma EvictionStored(s: State, t: TaskId, c: ContextId)
    requires t in s.objs
    ensures Evict(s, t).store == s.store - {t} && Evict(s, t).objs == s.objs
    ensures ContextStored(s, c) && !ContextStored(Evict(s, t), c) ==> c == s.objs[t].context
  {
    if ContextStored(s, c) {
      var u :| u in s.store && u in s.objs && s.objs[u].context == c;
      if u != t {
        assert u in Evict(s, t).store;
      }
    }
  }

  lemma EvictionPrunes(s: State, t: TaskId)
    requires t in s.objs && Orphan(Evict(s, t), s.objs[t].context)
    ensures EntryHeld(s, s.objs[t].context)
  {
  }

  /** A context whose last stored task is evicted keeps its entry only while its lock is held. */
  lemma EvictionOrphans(s: State, t: TaskId, c: ContextId)
    requires t in s.objs && Orphan(Evict(s, t), c) && !Orphan(s, c)
    ensures EntryHeld(s, c)
  {
    EvictionStored(s, t, c);
    assert c in Evict(s, t).contextLocks ==> c in s.contextLocks;
    assert c == s.objs[t].context;
    EvictionPrunes(s, t);
  }

  lemma EnrollStored(s: State, id: TaskId, context: ContextId, text: string, now: int, c: ContextId)
    requires id !in s.objs && ContextStored(s, c)
    ensures ContextStored(Enroll(s, id, context, text, now), c)
  {
    var t :| t in s.store && t in s.objs && s.objs[t].context == c;
    var r := Enroll(s, id, context, text, now);
    assert t in r.store && r.objs[t].context == c;
  }

  lemma EnrollOrphans(s: State, id: TaskId, context: ContextId, text: string, now: int, c: ContextId)
    requires id !in s.objs && Orphan(Enroll(s, id, context, text, now), c)
    ensures Orphan(s, c)
  {
    if ContextStored(s, c) {
      EnrollStored(s, id, context, text, now, c);
    }
  }

  lemma SendNewOrphans(s: State, id: TaskId, context: ContextId, text: string, now: int, c: ContextId)
    requires Inv(s) && id !in s.objs && !Orphan(s, c)
    requires Orphan(OkOr(SendNew(s, id, context, text, now), s), c)
    ensures EntryHeld(s, c)
  {
    var room := MakeRoom(s);
    assert !s.closed && room.Some?;
    StoreEvictsOldest(s);
    EnrollFresh(s, id);
    EnrollOrphans(room.value, id, context, text, now, c);
    if |s.store| == s.maxTasks {
      var t :| LeastRecent(s, t) && room.value == Evict(s, t);
      EvictionOrphans(s, t, c);
    }
  }

  lemma EnrollFresh(s: State, id: TaskId)
    requires MakeRoom(s).Some? && id !in s.objs
    ensures id !in MakeRoom(s).value.objs
  {
    MakeRoomChanges(s);
  }

  /** Worker w takes a slot for a task that is still live. */
  predicate TakesFor(s: State, e: Event, c: ContextId) {
    && e.ETakeSlot? && e.w < |s.workers|
    && var t := s.workers[e.w].task; t in s.objs && s.objs[t].status != Canceled && s.objs[t].context == c
  }

  /** A worker's step adds an entry at most for the context of a task that takes a slot. */
  predicate LocksGrow(s: State, r: State, e: Event) {
    r.store == s.store && forall c | c in r.contextLocks :: c in s.contextLocks || TakesFor(s, e, c)
  }

  lemma TakeSlotMap(s: State, w: WorkerId, now: int)
    requires Enabled(s, ETakeSlot(w, now)) && s.objs[s.workers[w].task].status != Canceled
    ensures TakeSlot(s, w, now).contextLocks.Keys == s.contextLocks.Keys + {s.objs[s.workers[w].task].context}
  {
  }

  lemma TakeSlotLocks(s: State, w: WorkerId, now: int)
    requires Enabled(s, ETakeSlot(w, now))
    ensures LocksGrow(s, TakeSlot(s, w, now), ETakeSlot(w, now))
  {
    if s.objs[s.workers[w].task].status != Canceled {
      TakeSlotMap(s, w, now);
    }
  }

  lemma TakerIsStored(s: State, e: Event, c: ContextId)
    requires Inv(s) && Enabled(s, e) && TakesFor(s, e, c)
    ensures ContextStored(s, c)
  {
    var t := s.workers[e.w].task;
    assert WorkerOk(s, e.w) && TaskOk(s, t);
  }

  lemma WorkerStepLocks(s: State, e: Event)
    requires Enabled(s, e) && WorkerEvent(e)
    ensures LocksGrow(s, WorkerStep(s, e), e)
  {
    match e
    case EStart(w) =>
    case ETakeSlot(w, now) => TakeSlotLocks(s, w, now);
    case EAbandon(w, now) =>
    case ETakeLock(w) =>
    case EEndTurn(w, outcome, now) =>
  }

  /** Tasks keep their context. */
  ghost predicate ContextsKept(s: State, r: State) {
    r.store == s.store && forall t | t in s.objs :: t in r.objs && r.objs[t].context == s.objs[t].context
  }

  lemma KeptStored(s: State, r: State, c: ContextId)
    requires ContextsKept(s, r) && ContextStored(s, c)
    ensures ContextStored(r, c)
  {
    var t :| t in s.store && t in s.objs && s.objs[t].context == c;
    assert t in r.store && r.objs[t].context == c;
  }

  lemma StepKeepsContexts(s: State, e: Event, r: State)
    requires Inv(s) && Enabled(s, e) && r == Apply(s, e) && r.store == s.store
    ensures ContextsKept(s, r)
  {
    forall t | t in s.objs ensures t in r.objs && r.objs[t].context == s.objs[t].context {
      TaskChangesAreStamped(s, e, t);
    }
  }

  lemma WorkerStepOrphans(s: State, e: Event, r: State, c: ContextId)
    requires Inv(s) && Enabled(s, e) && WorkerEvent(e) && r == Apply(s, e) && Orphan(r, c)
    ensures Orphan(s, c)
  {
    WorkerStepLocks(s, e);
    StepKeepsContexts(s, e, r);
    if ContextStored(s, c) {
      KeptStored(s, r, c);
    }
    if TakesFor(s, e, c) {
      TakerIsStored(s, e, c);
      KeptStored(s, r, c);
    }
  }

  lemma RequestLocks(s: State, e: Event)
    requires Inv(s) && Enabled(s, e) && !WorkerEvent(e) && !e.ESendNew?
    ensures RequestStep(s, e).store == s.store && RequestStep(s, e).contextLocks == s.contextLocks
  {
    if e.ESendTo? {
      SendToKeepsObjs(s, e.id, e.context, e.text, e.now);
    }
  }

  /** An entry outlives the stored tasks of its context only when, with its lock held, its last
      stored task is evicted to make room for a new one. */
  lemma OrphanArises(s: State, e: Event, r: State, c: ContextId)
    requires Inv(s) && Enabled(s, e) && r == Apply(s, e) && Orphan(r, c) && !Orphan(s, c)
    ensures e.ESendNew? && EntryHeld(s, c)
  {
    if WorkerEvent(e) {
      WorkerStepOrphans(s, e, r, c);
    } else if e.ESendNew? {
      SendNewOrphans(s, e.id, e.context, e.text, e.now, c);
    } else {
      RequestLocks(s, e);
      StepKeepsContexts(s, e, r);
      if ContextStored(s, c) {
        KeptStored(s, r, c);
      }
    }
  }

  // ----- over a run -----

  /** Every orphaned entry of a run has been one since a new task evicted the last of its
      context, whose turn still held the lock. */
  lemma {:induction false} OrphanSince(run: Run, n: nat, c: ContextId) returns (i: nat)
    requires ValidRun(run) && n <= |run.events| && Orphan(run.states[n], c)
    ensures i < n && run.events[i].ESendNew? && EntryHeld(run.states[i], c)
    ensures forall j | i < j <= n :: Orphan(run.states[j], c)
    decreases n
  {
    i := 0;
    if n == 0 {
    } else {
      RunKeeps(run, n - 1);
      assert StepAt(run, n - 1);
      if Orphan(run.states[n - 1], c) {
        i := OrphanSince(run, n - 1, c);
      } else {
        OrphanArises(run.states[n - 1], run.events[n - 1], run.states[n], c);
        i := n - 1;
      }
    }
  }
}
