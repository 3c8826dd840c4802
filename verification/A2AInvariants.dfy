/** What every event keeps, in every interleaving and for every behaviour of the runtime turn. */
module A2AInvariants {
  import opened Common
  import opened A2AReply
  import opened A2AProtocol

  predicate Live(s: State, t: TaskId) {
    t in s.objs && !s.objs[t].status.Terminal()
  }

  /** Which task statuses a worker of each phase can see. */
  predicate StatusFits(status: Status, worker: Worker, closed: bool) {
    && (!worker.phase.Done? && status == Canceled ==> worker.cancelled)
    && (!worker.phase.Done? && worker.cancelled && !closed ==> status == Canceled)
    && match worker.phase
       case Created | WaitSlot => status == Submitted || status == Canceled
       case WaitLock(_) | InTurn(_) => status == Working || status == Canceled
       case Done => status == Completed || status == Failed || status == Canceled
       case Dropped => worker.cancelled && (status == Submitted || status == Canceled)
  }

  /** The lock is the current map entry of the context. */
  predicate CurrentLock(s: State, context: ContextId, lock: LockId) {
    context in s.contextLocks && s.contextLocks[context] == lock
  }

  predicate WorkerOk(s: State, w: WorkerId)
    requires w < |s.workers|
  {
    var worker := s.workers[w];
    var t := worker.task;
    && t in s.objs
    && StatusFits(s.objs[t].status, worker, s.closed)
    && (t in s.futures ==> s.futures[t] == w)
    && (!worker.phase.Done? && !s.detached ==> t in s.futures)
    && (!worker.phase.Finished() ==> !s.detached && (s.closed ==> worker.cancelled && w in s.draining))
    && (worker.phase.WaitLock? && Live(s, t) ==> CurrentLock(s, s.objs[t].context, worker.phase.lock))
    && (worker.phase.InTurn? ==>
          && CurrentLock(s, s.objs[t].context, worker.phase.lock)
          && worker.phase.lock in s.held && s.held[worker.phase.lock] == w
          && t in s.replies)
  }

  predicate FutureOk(s: State, t: TaskId)
    requires t in s.futures
  {
    && s.futures[t] < |s.workers|
    && s.workers[s.futures[t]].task == t
    && !s.workers[s.futures[t]].phase.Done?
    && t in s.objs
  }

  ghost predicate AbandonedUnstarted(s: State, t: TaskId) {
    && t in s.objs && s.objs[t].status == Submitted
    && exists w :: 0 <= w < |s.workers| && s.workers[w].task == t && s.workers[w].phase.Dropped?
  }

  /** A live task is stored and has a registered worker. While the server is open that worker
      is still running and nobody has asked it to stop. */
  ghost predicate TaskOk(s: State, t: TaskId)
    requires t in s.objs
  {
    && s.objs[t].id == t
    && (Live(s, t) ==>
          && t in s.store
          && if s.detached then AbandonedUnstarted(s, t)
             else
               && t in s.futures && s.futures[t] < |s.workers|
               && (!s.closed ==> !s.workers[s.futures[t]].phase.Finished() && !s.workers[s.futures[t]].cancelled))
  }

  predicate HeldOk(s: State, l: LockId)
    requires l in s.held
  {
    s.held[l] < |s.workers| && s.workers[s.held[l]].phase == InTurn(l)
  }

  predicate ContextOk(s: State, c: ContextId)
    requires c in s.contextLocks
  {
    s.contextLocks[c] < |s.lockOwner| && s.lockOwner[s.contextLocks[c]] == c
  }

  predicate ReplyOk(s: State, t: TaskId)
    requires t in s.replies
  {
    Coherent(s.replies[t]) && t in s.futures && s.futures[t] < |s.workers| && s.workers[s.futures[t]].phase.InTurn?
  }

  function Holders(workers: seq<Worker>): nat {
    if workers == [] then 0
    else Holders(workers[..|workers| - 1]) + if workers[|workers| - 1].phase.HoldsSlot() then 1 else 0
  }

  ghost predicate Inv(s: State) {
    && 1 <= s.maxTasks && 1 <= s.maxConcurrent
    && s.store <= s.objs.Keys && |s.store| <= s.maxTasks
    && s.slots + Holders(s.workers) == s.maxConcurrent
    && (s.detached ==> s.closed && s.futures == map[])
    && (forall w: WorkerId | w < |s.workers| :: WorkerOk(s, w))
    && (forall t | t in s.futures :: FutureOk(s, t))
    && (forall t | t in s.objs :: TaskOk(s, t))
    && (forall l | l in s.held :: HeldOk(s, l))
    && (forall c | c in s.contextLocks :: ContextOk(s, c))
    && (forall t | t in s.replies :: ReplyOk(s, t))
  }

  // ----- counting slot holders -----

  lemma {:induction false} HoldersAppend(workers: seq<Worker>, w: Worker)
    ensures Holders(workers + [w]) == Holders(workers) + if w.phase.HoldsSlot() then 1 else 0
  {
    assert (workers + [w])[..|workers|] == workers;
  }

  lemma {:induction false} HoldersUpdate(workers: seq<Worker>, i: nat, w: Worker)
    requires i < |workers|
    ensures Holders(workers[i := w]) + (if workers[i].phase.HoldsSlot() then 1 else 0)
         == Holders(workers) + (if w.phase.HoldsSlot() then 1 else 0)
  {
    var n := |workers| - 1;
    if i == n {
      assert workers[i := w][..n] == workers[..n];
    } else {
      assert workers[i := w][..n] == workers[..n][i := w];
      HoldersUpdate(workers[..n], i, w);
    }
  }

  lemma {:induction false} HoldersSamePhases(a: seq<Worker>, b: seq<Worker>)
    requires |a| == |b| && forall w | 0 <= w < |a| :: a[w].phase == b[w].phase
    ensures Holders(a) == Holders(b)
  {
    if a == [] {
    } else {
      HoldersSamePhases(a[..|a| - 1], b[..|b| - 1]);
    }
  }

  lemma {:induction false} SomeHolder(workers: seq<Worker>) returns (w: nat)
    requires Holders(workers) > 0
    ensures w < |workers| && workers[w].phase.HoldsSlot()
  {
    var n := |workers| - 1;
    if workers[n].phase.HoldsSlot() {
      w := n;
    } else {
      w := SomeHolder(workers[..n]);
    }
  }

  // ----- a step of one worker leaves the others alone -----

  predicate Same<K(==), V(==)>(m: map<K, V>, n: map<K, V>, k: K) {
    (k in m <==> k in n) && (k in m && k in n ==> m[k] == n[k])
  }

  /** r differs from s at most in worker w, its task, and the lock of its context. */
  ghost predicate Local(s: State, r: State, w: WorkerId) {
    && r.maxTasks == s.maxTasks && r.maxConcurrent == s.maxConcurrent && r.store == s.store
    && r.closed == s.closed && r.draining == s.draining && r.detached == s.detached
    && w < |s.workers| && |r.workers| == |s.workers|
    && (forall v | 0 <= v < |s.workers| && v != w :: r.workers[v] == s.workers[v])
    && var t := s.workers[w].task;
    && t in s.futures && s.futures[t] == w && r.workers[w].task == t
    && t in s.objs && t in r.objs && r.objs[t].context == s.objs[t].context
    && (forall u | u != t :: Same(s.objs, r.objs, u))
    && (forall u | u != t :: Same(s.futures, r.futures, u))
    && (forall u | u != t :: Same(s.replies, r.replies, u))
    && (forall c | c != s.objs[t].context :: Same(s.contextLocks, r.contextLocks, c))
    && (s.objs[t].context in s.contextLocks ==> Same(s.contextLocks, r.contextLocks, s.objs[t].context))
    && s.lockOwner <= r.lockOwner
    && (forall l | l in s.held && s.held[l] != w :: l in r.held && r.held[l] == s.held[l])
    && (forall l | l in r.held && r.held[l] != w :: l in s.held && r.held[l] == s.held[l])
  }

  /** The part of the invariant that mentions worker w. */
  ghost predicate LocalOk(r: State, w: WorkerId)
    requires w < |r.workers|
  {
    var t := r.workers[w].task;
    && WorkerOk(r, w)
    && TaskOk(r, t)
    && (t in r.futures ==> FutureOk(r, t))
    && (t in r.replies ==> ReplyOk(r, t))
    && (r.objs[t].context in r.contextLocks ==> ContextOk(r, r.objs[t].context))
    && (forall l | l in r.held && r.held[l] == w :: r.workers[w].phase == InTurn(l))
    && r.slots + Holders(r.workers) == r.maxConcurrent
  }

  lemma LocalWorkers(s: State, r: State, w: WorkerId, v: WorkerId)
    requires Inv(s) && Local(s, r, w) && LocalOk(r, w) && v < |s.workers|
    ensures WorkerOk(r, v)
  {
    assert WorkerOk(s, v) && WorkerOk(s, w);
    if v != w {
      var t := s.workers[v].task;
      assert t != s.workers[w].task;
      assert Same(s.objs, r.objs, t) && Same(s.futures, r.futures, t) && Same(s.replies, r.replies, t);
      var c := s.objs[t].context;
      assert c != s.objs[s.workers[w].task].context ==> Same(s.contextLocks, r.contextLocks, c);
    }
  }

  lemma LocalTasks(s: State, r: State, w: WorkerId, t: TaskId)
    requires Inv(s) && Local(s, r, w) && LocalOk(r, w) && t in r.objs
    ensures TaskOk(r, t)
  {
    if t != s.workers[w].task {
      assert Same(s.objs, r.objs, t) && Same(s.futures, r.futures, t);
      assert TaskOk(s, t);
    }
  }

  lemma LocalFutures(s: State, r: State, w: WorkerId, t: TaskId)
    requires Inv(s) && Local(s, r, w) && LocalOk(r, w)
    ensures t in r.futures ==> FutureOk(r, t)
    ensures t in r.replies ==> ReplyOk(r, t)
  {
    if t != s.workers[w].task {
      assert Same(s.futures, r.futures, t) && Same(s.replies, r.replies, t) && Same(s.objs, r.objs, t);
      assert t in s.futures ==> FutureOk(s, t);
      assert t in s.replies ==> ReplyOk(s, t);
    }
  }

  lemma LocalKeeps(s: State, r: State, w: WorkerId)
    requires Inv(s) && Local(s, r, w) && LocalOk(r, w)
    ensures Inv(r)
  {
    var u := s.workers[w].task;
    forall v: WorkerId | v < |r.workers| ensures WorkerOk(r, v) { LocalWorkers(s, r, w, v); }
    forall t | t in r.objs ensures TaskOk(r, t) { LocalTasks(s, r, w, t); }
    forall t | t in r.futures ensures FutureOk(r, t) { LocalFutures(s, r, w, t); }
    forall t | t in r.replies ensures ReplyOk(r, t) { LocalFutures(s, r, w, t); }
    forall l | l in r.held ensures HeldOk(r, l) { assert r.held[l] != w ==> HeldOk(s, l); }
    forall c | c in r.contextLocks ensures ContextOk(r, c) {
      if c != s.objs[u].context { assert Same(s.contextLocks, r.contextLocks, c) && ContextOk(s, c); }
    }
    forall t | t in s.store ensures t in r.objs { if t != u { assert Same(s.objs, r.objs, t); } }
  }

  lemma LocalHolds(s: State, w: WorkerId)
    requires Inv(s) && w < |s.workers|
    ensures LocalOk(s, w)
  {
    var t := s.workers[w].task;
    assert WorkerOk(s, w) && TaskOk(s, t);
    assert t in s.futures ==> FutureOk(s, t);
    assert t in s.replies ==> ReplyOk(s, t);
    assert s.objs[t].context in s.contextLocks ==> ContextOk(s, s.objs[t].context);
    forall l | l in s.held && s.held[l] == w ensures s.workers[w].phase == InTurn(l) { assert HeldOk(s, l); }
  }

  // ----- workers -----

  lemma StartLocal(s: State, w: WorkerId)
    requires Enabled(s, EStart(w)) && LocalOk(s, w)
    ensures Local(s, Start(s, w), w) && LocalOk(Start(s, w), w)
  {
    HoldersUpdate(s.workers, w, Start(s, w).workers[w]);
  }

  lemma StartKeeps(s: State, w: WorkerId)
    requires Inv(s) && Enabled(s, EStart(w))
    ensures Inv(Start(s, w))
  {
    LocalHolds(s, w);
    StartLocal(s, w);
    LocalKeeps(s, Start(s, w), w);
  }

  /** The `status == CANCELED` test after the slot is acquired never succeeds: a cancelled
      worker does not acquire. */
  lemma SlotGoesToLiveTask(s: State, w: WorkerId, now: int)
    requires Inv(s) && Enabled(s, ETakeSlot(w, now))
    ensures s.objs[s.workers[w].task].status == Submitted
  {
    assert WorkerOk(s, w);
  }

  lemma TakeSlotLocal(s: State, w: WorkerId, now: int)
    requires Enabled(s, ETakeSlot(w, now)) && LocalOk(s, w)
    ensures Local(s, TakeSlot(s, w, now), w)
  {
  }

  lemma TakeSlotOk(s: State, w: WorkerId, now: int)
    requires Enabled(s, ETakeSlot(w, now)) && LocalOk(s, w)
    ensures LocalOk(TakeSlot(s, w, now), w)
  {
    HoldersUpdate(s.workers, w, TakeSlot(s, w, now).workers[w]);
  }

  lemma TakeSlotKeeps(s: State, w: WorkerId, now: int)
    requires Inv(s) && Enabled(s, ETakeSlot(w, now))
    ensures Inv(TakeSlot(s, w, now))
  {
    LocalHolds(s, w);
    TakeSlotLocal(s, w, now);
    TakeSlotOk(s, w, now);
    LocalKeeps(s, TakeSlot(s, w, now), w);
  }

  lemma AbandonLocal(s: State, w: WorkerId, now: int)
    requires Enabled(s, EAbandon(w, now)) && LocalOk(s, w)
    ensures Local(s, Abandon(s, w, now), w)
  {
  }

  lemma AbandonOk(s: State, w: WorkerId, now: int)
    requires Enabled(s, EAbandon(w, now)) && LocalOk(s, w)
    ensures LocalOk(Abandon(s, w, now), w)
  {
    HoldersUpdate(s.workers, w, Abandon(s, w, now).workers[w]);
  }

  lemma AbandonKeeps(s: State, w: WorkerId, now: int)
    requires Inv(s) && Enabled(s, EAbandon(w, now))
    ensures Inv(Abandon(s, w, now))
  {
    LocalHolds(s, w);
    AbandonLocal(s, w, now);
    AbandonOk(s, w, now);
    LocalKeeps(s, Abandon(s, w, now), w);
  }

  lemma TakeLockLocal(s: State, w: WorkerId)
    requires Enabled(s, ETakeLock(w)) && LocalOk(s, w)
    ensures Local(s, TakeLock(s, w), w) && LocalOk(TakeLock(s, w), w)
  {
    HoldersUpdate(s.workers, w, TakeLock(s, w).workers[w]);
  }

  lemma TakeLockKeeps(s: State, w: WorkerId)
    requires Inv(s) && Enabled(s, ETakeLock(w))
    ensures Inv(TakeLock(s, w))
  {
    LocalHolds(s, w);
    TakeLockLocal(s, w);
    LocalKeeps(s, TakeLock(s, w), w);
  }

  lemma EndTurnLocal(s: State, w: WorkerId, outcome: TurnOutcome, now: int)
    requires Enabled(s, EEndTurn(w, outcome, now)) && LocalOk(s, w)
    ensures Local(s, EndTurn(s, w, outcome, now), w) && LocalOk(EndTurn(s, w, outcome, now), w)
  {
    HoldersUpdate(s.workers, w, EndTurn(s, w, outcome, now).workers[w]);
  }

  lemma EndTurnKeeps(s: State, w: WorkerId, outcome: TurnOutcome, now: int)
    requires Inv(s) && Enabled(s, EEndTurn(w, outcome, now))
    ensures Inv(EndTurn(s, w, outcome, now))
  {
    LocalHolds(s, w);
    EndTurnLocal(s, w, outcome, now);
    LocalKeeps(s, EndTurn(s, w, outcome, now), w);
  }

  lemma SayLocal(s: State, id: TaskId, text: string)
    requires id in s.replies && id in s.futures && s.futures[id] < |s.workers| && s.workers[s.futures[id]].task == id
    requires LocalOk(s, s.futures[id]) && id in s.objs
    ensures Local(s, Say(s, id, text), s.futures[id]) && LocalOk(Say(s, id, text), s.futures[id])
  {
    AcceptCoherent(s.replies[id], text);
  }

  lemma SayKeeps(s: State, id: TaskId, text: string)
    requires Inv(s) && id in s.replies
    ensures Inv(Say(s, id, text))
  {
    assert ReplyOk(s, id) && FutureOk(s, id);
    LocalHolds(s, s.futures[id]);
    SayLocal(s, id, text);
    LocalKeeps(s, Say(s, id, text), s.futures[id]);
  }

  // ----- requests -----

  lemma PruneWorker(s: State, context: ContextId, v: WorkerId)
    requires Inv(s) && v < |s.workers|
    ensures v < |PruneLock(s, context).workers| && WorkerOk(PruneLock(s, context), v)
  {
    assert WorkerOk(s, v) && TaskOk(s, s.workers[v].task);
  }

  lemma PruneKeeps(s: State, context: ContextId)
    requires Inv(s)
    ensures Inv(PruneLock(s, context))
  {
    var r := PruneLock(s, context);
    if r != s {
      forall v: WorkerId | v < |r.workers| ensures WorkerOk(r, v) { PruneWorker(s, context, v); }
      forall c | c in r.contextLocks ensures ContextOk(r, c) { assert ContextOk(s, c); }
      forall t | t in r.futures ensures FutureOk(r, t) { assert FutureOk(s, t); }
      forall t | t in r.objs ensures TaskOk(r, t) { assert TaskOk(s, t); }
      forall l | l in r.held ensures HeldOk(r, l) { assert HeldOk(s, l); }
      forall t | t in r.replies ensures ReplyOk(r, t) { assert ReplyOk(s, t); }
    }
  }

  lemma ForgetKeeps(s: State, u: TaskId)
    requires Inv(s) && TerminalStored(s, u)
    ensures Inv(s.(store := s.store - {u}))
  {
    var r := s.(store := s.store - {u});
    assert s.store == r.store + {u};
    forall v: WorkerId | v < |r.workers| ensures WorkerOk(r, v) { assert v < |s.workers| ==> WorkerOk(s, v); }
    forall t | t in r.futures ensures FutureOk(r, t) { assert t in s.futures ==> FutureOk(s, t); }
    forall t | t in r.objs ensures TaskOk(r, t) { assert t in s.objs ==> TaskOk(s, t); }
    forall l | l in r.held ensures HeldOk(r, l) { assert l in s.held ==> HeldOk(s, l); }
    forall c | c in r.contextLocks ensures ContextOk(r, c) { assert c in s.contextLocks ==> ContextOk(s, c); }
    forall t | t in r.replies ensures ReplyOk(r, t) { assert t in s.replies ==> ReplyOk(s, t); }
  }

  lemma EvictKeeps(s: State, t: TaskId)
    requires Inv(s) && TerminalStored(s, t)
    ensures Inv(Evict(s, t))
  {
    ForgetKeeps(s, t);
    PruneKeeps(s.(store := s.store - {t}), s.objs[t].context);
  }

  lemma {:induction false} MakeRoomKeeps(s: State)
    requires Inv(s) && MakeRoom(s).Some?
    ensures Inv(MakeRoom(s).value)
    decreases |s.store|
  {
    if |s.store| >= s.maxTasks {
      var t: TaskId :| Oldest(s, t) && MakeRoom(s) == MakeRoom(Evict(s, t));
      assert |s.store - {t}| < |s.store|;
      EvictKeeps(s, t);
      MakeRoomKeeps(Evict(s, t));
    }
  }

  lemma {:induction false} MakeRoomChanges(s: State)
    requires MakeRoom(s).Some?
    ensures var r := MakeRoom(s).value; r == s.(store := r.store, contextLocks := r.contextLocks)
    decreases |s.store|
  {
    if |s.store| >= s.maxTasks {
      var t: TaskId :| Oldest(s, t) && MakeRoom(s) == MakeRoom(Evict(s, t));
      assert |s.store - {t}| < |s.store|;
      MakeRoomChanges(Evict(s, t));
    }
  }

  lemma EnrollWorkers(s: State, r: State, id: TaskId, v: WorkerId)
    requires Inv(s) && !s.closed && id !in s.objs && v < |s.workers|
    requires exists context, text, now :: r == Enroll(s, id, context, text, now)
    ensures WorkerOk(r, v)
  {
    assert WorkerOk(s, v);
  }

  lemma EnrollTasks(s: State, r: State, id: TaskId, t: TaskId)
    requires Inv(s) && !s.closed && id !in s.objs && t in r.objs
    requires exists context, text, now :: r == Enroll(s, id, context, text, now)
    ensures TaskOk(r, t)
    ensures t in r.futures ==> FutureOk(r, t)
    ensures t in r.replies ==> ReplyOk(r, t)
  {
    assert t in s.objs ==> TaskOk(s, t);
    assert t in s.futures ==> FutureOk(s, t);
    assert t in s.replies ==> ReplyOk(s, t);
  }

  lemma EnrollKeeps(s: State, id: TaskId, context: ContextId, text: string, now: int)
    requires Inv(s) && |s.store| < s.maxTasks && !s.closed && id !in s.objs
    ensures Inv(Enroll(s, id, context, text, now))
  {
    var r := Enroll(s, id, context, text, now);
    HoldersAppend(s.workers, Worker(id, Created, false));
    assert id in s.futures ==> FutureOk(s, id);
    forall v: WorkerId | v < |r.workers| ensures WorkerOk(r, v) { if v < |s.workers| { EnrollWorkers(s, r, id, v); } }
    forall t | t in r.objs ensures TaskOk(r, t) { EnrollTasks(s, r, id, t); }
    forall t | t in r.futures ensures FutureOk(r, t) { assert t in s.futures ==> FutureOk(s, t); EnrollTasks(s, r, id, t); }
    forall t | t in r.replies ensures ReplyOk(r, t) { assert ReplyOk(s, t) && FutureOk(s, t); EnrollTasks(s, r, id, t); }
    forall l | l in r.held ensures HeldOk(r, l) { assert l in s.held ==> HeldOk(s, l); }
    forall c | c in r.contextLocks ensures ContextOk(r, c) { assert c in s.contextLocks ==> ContextOk(s, c); }
  }

  lemma CancelLocal(s: State, id: TaskId, now: int)
    requires Cancel(s, id, now).Ok? && id in s.futures && FutureOk(s, id) && LocalOk(s, s.futures[id])
    ensures Local(s, Cancel(s, id, now).value, s.futures[id]) && LocalOk(Cancel(s, id, now).value, s.futures[id])
  {
    HoldersSamePhases(s.workers, Cancel(s, id, now).value.workers);
  }

  lemma CancelRegisteredKeeps(s: State, id: TaskId, now: int)
    requires Inv(s) && id in s.futures && Cancel(s, id, now).Ok?
    ensures Inv(Cancel(s, id, now).value)
  {
    assert FutureOk(s, id);
    LocalHolds(s, s.futures[id]);
    CancelLocal(s, id, now);
    LocalKeeps(s, Cancel(s, id, now).value, s.futures[id]);
  }

  lemma CancelUnregisteredKeeps(s: State, id: TaskId, now: int)
    requires Inv(s) && id !in s.futures && Cancel(s, id, now).Ok?
    ensures Inv(Cancel(s, id, now).value)
  {
    var r := Cancel(s, id, now).value;
    assert TaskOk(s, id);
    assert r.workers == s.workers;
    forall v: WorkerId | v < |r.workers| ensures WorkerOk(r, v) { assert WorkerOk(s, v); }
    forall t | t in r.objs ensures TaskOk(r, t) { assert t in s.objs ==> TaskOk(s, t); }
    forall l | l in r.held ensures HeldOk(r, l) { assert l in s.held ==> HeldOk(s, l); }
    forall c | c in r.contextLocks ensures ContextOk(r, c) { assert c in s.contextLocks ==> ContextOk(s, c); }
  }

  lemma CancelKeeps(s: State, id: TaskId, now: int)
    requires Inv(s) && Cancel(s, id, now).Ok?
    ensures Inv(Cancel(s, id, now).value)
  {
    if id in s.futures {
      CancelRegisteredKeeps(s, id, now);
    } else {
      CancelUnregisteredKeeps(s, id, now);
    }
  }

  lemma CloseWorker(s: State, v: WorkerId)
    requires !s.closed && v < |s.workers| && WorkerOk(s, v)
    ensures WorkerOk(Close(s), v)
  {
  }

  lemma CloseKeeps(s: State)
    requires Inv(s) && !s.closed
    ensures Inv(Close(s))
  {
    var r := Close(s);
    HoldersSamePhases(s.workers, r.workers);
    forall v: WorkerId | v < |r.workers| ensures WorkerOk(r, v) { CloseWorker(s, v); }
    forall t | t in r.futures ensures FutureOk(r, t) { assert t in s.futures ==> FutureOk(s, t); }
    forall t | t in r.objs ensures TaskOk(r, t) { assert t in s.objs ==> TaskOk(s, t); }
    forall l | l in r.held ensures HeldOk(r, l) { assert l in s.held ==> HeldOk(s, l); }
    forall c | c in r.contextLocks ensures ContextOk(r, c) { assert c in s.contextLocks ==> ContextOk(s, c); }
    forall t | t in r.replies ensures ReplyOk(r, t) { assert t in s.replies ==> ReplyOk(s, t); }
  }

  lemma CloseDoneKeeps(s: State)
    requires Inv(s) && Enabled(s, ECloseDone)
    ensures Inv(CloseDone(s))
  {
    var r := CloseDone(s);
    forall t | t in r.objs ensures TaskOk(r, t) {
      assert TaskOk(s, t);
      if Live(s, t) {
        assert FutureOk(s, t) && WorkerOk(s, s.futures[t]);
      }
    }
    forall v: WorkerId | v < |r.workers| ensures WorkerOk(r, v) { assert v < |s.workers| ==> WorkerOk(s, v); }
    forall l | l in r.held ensures HeldOk(r, l) { assert l in s.held ==> HeldOk(s, l); }
    forall c | c in r.contextLocks ensures ContextOk(r, c) { assert c in s.contextLocks ==> ContextOk(s, c); }
  }
}
