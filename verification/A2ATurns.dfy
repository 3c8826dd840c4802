/**
 What a runtime turn leaves in its task: the texts sent to the task between the lock and the end
 of the turn, and nothing else, decide its result.
 */
module A2ATurns {
  import opened Common
  import opened A2AReply
  import opened A2AProtocol
  import opened A2AInvariants
  import opened A2ATheorems

  function MoreSaid(texts: seq<string>, e: Event, t: TaskId): seq<string> {
    if e.ESay? && e.id == t then texts + [e.text] else texts
  }

  /** The texts sent to task t by the events from index m on and before index k, in order. */
  function SaidTo(events: seq<Event>, t: TaskId, m: nat, k: nat): seq<string>
    requires k <= |events|
  {
    if k <= m then [] else MoreSaid(SaidTo(events, t, m, k - 1), events[k - 1], t)
  }

  // ----- one step, seen from a worker in its turn -----

  /** Worker w runs the turn of task t, whose reply so far is `reply`. */
  predicate Replying(s: State, w: WorkerId, t: TaskId, reply: Reply) {
    && w < |s.workers| && s.workers[w].task == t && s.workers[w].phase.InTurn?
    && t in s.replies && s.replies[t] == reply
  }

  function AfterSay(e: Event, t: TaskId, reply: Reply): Reply {
    if e.ESay? && e.id == t then Accept(reply, e.text).0 else reply
  }

  lemma OtherTask(s: State, v: WorkerId, w: WorkerId)
    requires Inv(s) && v < |s.workers| && w < |s.workers| && v != w && !s.detached
    requires !s.workers[v].phase.Done? && !s.workers[w].phase.Done?
    ensures s.workers[v].task != s.workers[w].task
  {
    assert WorkerOk(s, v) && WorkerOk(s, w);
  }

  lemma WorkerStepReplying(s: State, e: Event, w: WorkerId, t: TaskId, reply: Reply)
    requires Inv(s) && Enabled(s, e) && WorkerEvent(e) && Replying(s, w, t, reply)
    ensures w < |WorkerStep(s, e).workers|
    ensures if e.EEndTurn? && e.w == w then WorkerStep(s, e).workers[w].phase.Done?
            else Replying(WorkerStep(s, e), w, t, reply)
  {
    assert WorkerOk(s, w) && WorkerOk(s, e.w);
    if e.w != w {
      OtherTask(s, e.w, w);
      OtherWorkerReplying(s, e, w, t, reply);
    } else {
      assert e.EEndTurn?;
    }
  }

  lemma OtherWorkerReplying(s: State, e: Event, w: WorkerId, t: TaskId, reply: Reply)
    requires Enabled(s, e) && WorkerEvent(e) && Replying(s, w, t, reply) && e.w != w && s.workers[e.w].task != t
    ensures Replying(WorkerStep(s, e), w, t, reply)
  {
    match e
    case EStart(v) =>
    case ETakeSlot(v, now) => TakeSlotEffect(s, v, now);
    case EAbandon(v, now) =>
    case ETakeLock(v) =>
    case EEndTurn(v, outcome, now) =>
  }

  lemma LockKeeps(s: State, context: ContextId)
    ensures SetDefaultLock(s, context).objs == s.objs && SetDefaultLock(s, context).replies == s.replies
  {
  }

  /** Taking a slot touches the task of the worker, unless it is canceled. */
  lemma TakeSlotEffect(s: State, w: WorkerId, now: int)
    requires Enabled(s, ETakeSlot(w, now))
    ensures var r, id := TakeSlot(s, w, now), s.workers[w].task;
      && r.replies == s.replies
      && r.objs == if s.objs[id].status == Canceled then s.objs else s.objs[id := s.objs[id].Touch(Working, now)]
  {
    var id := s.workers[w].task;
    if s.objs[id].status != Canceled {
      LockKeeps(Permit(s, id, now), s.objs[id].context);
    }
  }

  lemma SendNewReplying(s: State, e: Event, w: WorkerId, t: TaskId, reply: Reply)
    requires Enabled(s, e) && e.ESendNew? && Replying(s, w, t, reply)
    ensures Replying(OkOr(SendNew(s, e.id, e.context, e.text, e.now), s), w, t, reply)
  {
    if MakeRoom(s).Some? {
      MakeRoomChanges(s);
    }
  }

  lemma CancelReplying(s: State, id: TaskId, now: int, w: WorkerId, t: TaskId, reply: Reply)
    requires Replying(s, w, t, reply)
    ensures Replying(OkOr(Cancel(s, id, now), s), w, t, reply)
  {
  }

  lemma CloseReplying(s: State, w: WorkerId, t: TaskId, reply: Reply)
    requires Replying(s, w, t, reply)
    ensures Replying(Close(s), w, t, reply)
  {
  }

  lemma SayReplying(s: State, id: TaskId, text: string, w: WorkerId, t: TaskId, reply: Reply)
    requires Replying(s, w, t, reply)
    ensures Replying(Say(s, id, text), w, t, AfterSay(ESay(id, text), t, reply))
  {
  }

  lemma RequestReplying(s: State, e: Event, w: WorkerId, t: TaskId, reply: Reply)
    requires Inv(s) && Enabled(s, e) && !WorkerEvent(e) && Replying(s, w, t, reply)
    ensures Replying(RequestStep(s, e), w, t, AfterSay(e, t, reply))
  {
    assert WorkerOk(s, w);
    match e
    case ESendNew(id, context, text, now) => SendNewReplying(s, e, w, t, reply);
    case ESendTo(id, context, text, now) => SendToKeepsObjs(s, id, context, text, now);
    case ECancel(id, now) => CancelReplying(s, id, now, w, t, reply);
    case ESay(id, text) => SayReplying(s, id, text, w, t, reply);
    case EClose => CloseReplying(s, w, t, reply);
    case ECloseDone =>
  }

  lemma StepReplying(s: State, e: Event, r: State, w: WorkerId, t: TaskId, reply: Reply)
    requires Inv(s) && Enabled(s, e) && r == Apply(s, e) && Replying(s, w, t, reply)
    ensures w < |r.workers|
    ensures if e.EEndTurn? && e.w == w then r.workers[w].phase.Done? else Replying(r, w, t, AfterSay(e, t, reply))
  {
    if WorkerEvent(e) {
      WorkerStepReplying(s, e, w, t, reply);
    } else {
      RequestReplying(s, e, w, t, reply);
    }
  }

  lemma WorkerStepDone(s: State, e: Event, w: WorkerId)
    requires Enabled(s, e) && WorkerEvent(e) && w < |s.workers| && s.workers[w].phase.Done?
    ensures w < |WorkerStep(s, e).workers| && WorkerStep(s, e).workers[w].phase.Done?
  {
  }

  lemma StepDone(s: State, e: Event, r: State, w: WorkerId)
    requires Inv(s) && Enabled(s, e) && r == Apply(s, e) && w < |s.workers| && s.workers[w].phase.Done?
    ensures w < |r.workers| && r.workers[w].phase.Done?
  {
    if WorkerEvent(e) {
      WorkerStepDone(s, e, w);
    } else if e.ESendNew? {
      if MakeRoom(s).Some? { MakeRoomChanges(s); }
    }
  }

  // ----- over a run -----

  lemma {:induction false} DoneStays(run: Run, w: WorkerId, i: nat, k: nat)
    requires ValidRun(run) && i <= k <= |run.events| && w < |run.states[i].workers| && run.states[i].workers[w].phase.Done?
    ensures w < |run.states[k].workers| && run.states[k].workers[w].phase.Done?
    decreases k - i
  {
    if i == k {
    } else {
      DoneStays(run, w, i, k - 1);
      RunKeeps(run, k - 1);
      assert StepAt(run, k - 1);
      StepDone(run.states[k - 1], run.events[k - 1], run.states[k], w);
    }
  }

  /** Worker w takes its lock with event m and ends its turn with event n. */
  ghost predicate Turn(run: Run, w: WorkerId, t: TaskId, m: nat, n: nat) {
    && ValidRun(run) && m < n < |run.events| && run.events[m] == ETakeLock(w)
    && run.events[n].EEndTurn? && run.events[n].w == w
    && w < |run.states[m].workers| && run.states[m].workers[w].task == t
  }

  lemma TurnBegins(run: Run, w: WorkerId, t: TaskId, m: nat, n: nat)
    requires Turn(run, w, t, m, n)
    ensures Replying(run.states[m + 1], w, t, NO_REPLY)
  {
    assert StepAt(run, m);
  }

  lemma NotEndedBefore(run: Run, w: WorkerId, t: TaskId, m: nat, k: nat, n: nat, reply: Reply, next: Reply)
    requires Turn(run, w, t, m, n) && m < k < n && Replying(run.states[k], w, t, reply)
    requires next == AfterSay(run.events[k], t, reply)
    ensures Replying(run.states[k + 1], w, t, next)
  {
    NextReplying(run, k, w, t, reply);
    EndsInTurn(run, w, t, m, n);
    if run.events[k].EEndTurn? && run.events[k].w == w {
      DoneStays(run, w, k + 1, n);
    }
  }

  lemma NextReplying(run: Run, k: nat, w: WorkerId, t: TaskId, reply: Reply)
    requires ValidRun(run) && k < |run.events| && Replying(run.states[k], w, t, reply)
    ensures var r, e := run.states[k + 1], run.events[k];
      w < |r.workers| &&
      if e.EEndTurn? && e.w == w then r.workers[w].phase.Done? else Replying(r, w, t, AfterSay(e, t, reply))
  {
    RunKeeps(run, k);
    assert StepAt(run, k);
    StepReplying(run.states[k], run.events[k], run.states[k + 1], w, t, reply);
  }

  lemma EndsInTurn(run: Run, w: WorkerId, t: TaskId, m: nat, n: nat)
    requires Turn(run, w, t, m, n)
    ensures w < |run.states[n].workers| && run.states[n].workers[w].phase.InTurn?
  {
    assert StepAt(run, n);
  }

  /** At k the reply of the turn that began with event m is what was sent to its task since. */
  ghost predicate ReplyAt(run: Run, w: WorkerId, t: TaskId, m: nat, k: nat)
    requires k < |run.states| && k <= |run.events|
  {
    Replying(run.states[k], w, t, Sent(SaidTo(run.events, t, m + 1, k)))
  }

  lemma ReplyAtFirst(run: Run, w: WorkerId, t: TaskId, m: nat, n: nat)
    requires Turn(run, w, t, m, n)
    ensures ReplyAt(run, w, t, m, m + 1)
  {
    TurnBegins(run, w, t, m, n);
  }

  lemma ReplyAtNext(run: Run, w: WorkerId, t: TaskId, m: nat, k: nat, n: nat)
    requires Turn(run, w, t, m, n) && m < k < n && ReplyAt(run, w, t, m, k)
    ensures ReplyAt(run, w, t, m, k + 1)
  {
    NextReplyAt(run, w, t, m, k, n, SaidTo(run.events, t, m + 1, k), SaidTo(run.events, t, m + 1, k + 1));
  }

  lemma NextReplyAt(run: Run, w: WorkerId, t: TaskId, m: nat, k: nat, n: nat, texts: seq<string>, more: seq<string>)
    requires Turn(run, w, t, m, n) && m < k < n && Replying(run.states[k], w, t, Sent(texts))
    requires more == MoreSaid(texts, run.events[k], t)
    ensures Replying(run.states[k + 1], w, t, Sent(more))
  {
    SaidNext(texts, run.events[k], t);
    NotEndedBefore(run, w, t, m, k, n, Sent(texts), Sent(more));
  }

  /** During a turn the reply of its task is what was sent to it since the turn began. */
  lemma {:induction false} ReplyIsWhatWasSent(run: Run, w: WorkerId, t: TaskId, m: nat, k: nat, n: nat)
    requires Turn(run, w, t, m, n) && m < k <= n
    ensures ReplyAt(run, w, t, m, k)
    decreases k
  {
    if k == m + 1 {
      ReplyAtFirst(run, w, t, m, n);
    } else {
      ReplyIsWhatWasSent(run, w, t, m, k - 1, n);
      ReplyAtNext(run, w, t, m, k - 1, n);
    }
  }

  lemma SaidNext(texts: seq<string>, e: Event, t: TaskId)
    ensures Sent(MoreSaid(texts, e, t)) == AfterSay(e, t, Sent(texts))
  {
    if e.ESay? && e.id == t {
      assert (texts + [e.text])[..|texts|] == texts;
    }
  }

  // ----- the result -----

  /** The first text that is not blank fits on its own. */
  predicate FirstFits(texts: seq<string>) {
    exists i | 0 <= i < |texts| ::
      !Blank(texts[i]) && |Strip(texts[i])| <= MAX_RESULT_CHARS && forall j | 0 <= j < i :: Blank(texts[j])
  }

  lemma {:induction false} FirstNonBlank(texts: seq<string>) returns (i: nat)
    ensures i <= |texts| && (forall j | 0 <= j < i :: Blank(texts[j])) && (i < |texts| ==> !Blank(texts[i]))
  {
    i := 0;
    while i < |texts| && Blank(texts[i])
      invariant i <= |texts| && forall j | 0 <= j < i :: Blank(texts[j])
    {
      i := i + 1;
    }
  }

  lemma HarvestIffFirstFits(texts: seq<string>)
    ensures Harvest(Sent(texts)) == if FirstFits(texts) then Some(Join(Sent(texts).chunks)) else None
  {
    var i := FirstNonBlank(texts);
    if i == |texts| {
      NothingSent(texts);
    } else {
      FirstTextDecides(texts, i);
      SentCoherent(texts);
      if Sent(texts).future.Resolved? {
        HarvestIsJoin(Sent(texts));
      }
    }
  }

  /** The task behind a turn that was sent these texts. */
  predicate Settles(before: Task, after: Task, outcome: TurnOutcome, texts: seq<string>, now: int) {
    && after.id == before.id && after.context == before.context && after.message == before.message
    && match outcome
       case CancelRaised => after.status == Canceled && after.updated == now
       case Raised => after.status == Failed && after.result == "" && after.error == "Task execution failed" && after.updated == now
       case Returned =>
         if !FirstFits(texts) then
           after.status == Failed && after.result == "" && after.error == "Task execution failed" && after.updated == now
         else if before.status == Canceled then after == before
         else after.status == Completed && after.result == Join(Sent(texts).chunks) && after.error == "" && after.updated == now
  }

  lemma TurnSettles(s: State, w: WorkerId, t: TaskId, outcome: TurnOutcome, now: int, texts: seq<string>)
    requires Enabled(s, EEndTurn(w, outcome, now)) && Replying(s, w, t, Sent(texts))
    ensures var r := EndTurn(s, w, outcome, now);
      t in s.objs && t in r.objs && Settles(s.objs[t], r.objs[t], outcome, texts, now)
  {
    HarvestIffFirstFits(texts);
  }

  /** Whatever else happens during a turn, its end leaves in the task exactly what the texts
      sent to it in the turn make of it: if the first one that is not blank fits, the chunks
      joined, and a failure otherwise. */
  lemma TurnResult(run: Run, w: WorkerId, t: TaskId, m: nat, n: nat)
    requires Turn(run, w, t, m, n)
    ensures var s, r, e := run.states[n], run.states[n + 1], run.events[n];
      t in s.objs && t in r.objs && Settles(s.objs[t], r.objs[t], e.outcome, SaidTo(run.events, t, m + 1, n), e.now)
  {
    ReplyIsWhatWasSent(run, w, t, m, n, n);
    assert StepAt(run, n);
    TurnSettles(run.states[n], w, t, run.events[n].outcome, run.events[n].now, SaidTo(run.events, t, m + 1, n));
  }

  /** A returning turn that nobody cancelled completes its task with the reply, or fails it. */
  lemma ReturnedTurnAnswers(run: Run, w: WorkerId, t: TaskId, m: nat, n: nat)
    requires Turn(run, w, t, m, n) && run.events[n].outcome.Returned?
    requires w < |run.states[n].workers| && !run.states[n].workers[w].cancelled
    ensures t in run.states[n + 1].objs
    ensures var after, texts := run.states[n + 1].objs[t], SaidTo(run.events, t, m + 1, n);
      if FirstFits(texts) then after.status == Completed && after.result == Join(Sent(texts).chunks) && after.error == ""
      else after.status == Failed && after.result == ""
  {
    TurnResult(run, w, t, m, n);
    ReplyIsWhatWasSent(run, w, t, m, n, n);
    RunKeeps(run, n);
    assert WorkerOk(run.states[n], w);
  }

  // ----- the update time -----

  /** The clock reading of a step, if it takes one. */
  function Stamp(e: Event): Option<int> {
    match e
    case ESendNew(_, _, _, now) => Some(now)
    case ESendTo(_, _, _, now) => Some(now)
    case ECancel(_, now) => Some(now)
    case ETakeSlot(_, now) => Some(now)
    case EAbandon(_, now) => Some(now)
    case EEndTurn(_, _, now) => Some(now)
    case _ => None
  }

  predicate Stamped(before: map<TaskId, Task>, after: map<TaskId, Task>, t: TaskId, stamp: Option<int>)
    requires t in before
  {
    && t in after && after[t].id == before[t].id && after[t].context == before[t].context && after[t].message == before[t].message
    && (after[t] == before[t] || (stamp.Some? && after[t].updated == stamp.value))
  }

  lemma WorkerStepStamps(s: State, e: Event, t: TaskId)
    requires Enabled(s, e) && WorkerEvent(e) && t in s.objs
    ensures Stamped(s.objs, WorkerStep(s, e).objs, t, Stamp(e))
  {
    match e
    case EStart(w) =>
    case ETakeSlot(w, now) => TakeSlotStamps(s, w, now, t);
    case EAbandon(w, now) => AbandonStamps(s, w, now, t);
    case ETakeLock(w) =>
    case EEndTurn(w, outcome, now) => EndTurnStamps(s, w, outcome, now, t);
  }

  lemma TouchStamps(before: map<TaskId, Task>, id: TaskId, status: Status, now: int, t: TaskId)
    requires id in before && t in before
    ensures Stamped(before, before[id := before[id].Touch(status, now)], t, Some(now))
  {
  }

  lemma TakeSlotStamps(s: State, w: WorkerId, now: int, t: TaskId)
    requires Enabled(s, ETakeSlot(w, now)) && t in s.objs
    ensures Stamped(s.objs, TakeSlot(s, w, now).objs, t, Some(now))
  {
    TakeSlotEffect(s, w, now);
    TouchStamps(s.objs, s.workers[w].task, Working, now, t);
  }

  lemma AbandonStamps(s: State, w: WorkerId, now: int, t: TaskId)
    requires Enabled(s, EAbandon(w, now)) && t in s.objs
    ensures Stamped(s.objs, Abandon(s, w, now).objs, t, Some(now))
  {
  }

  lemma EndTurnStamps(s: State, w: WorkerId, outcome: TurnOutcome, now: int, t: TaskId)
    requires Enabled(s, EEndTurn(w, outcome, now)) && t in s.objs
    ensures Stamped(s.objs, EndTurn(s, w, outcome, now).objs, t, Some(now))
  {
  }

  /** Any step that changes a task sets its update time, which decides what is evicted. */
  lemma TaskChangesAreStamped(s: State, e: Event, t: TaskId)
    requires Inv(s) && Enabled(s, e) && t in s.objs
    ensures Stamped(s.objs, Apply(s, e).objs, t, Stamp(e))
  {
    if WorkerEvent(e) {
      WorkerStepStamps(s, e, t);
    } else {
      RequestStamps(s, e, t);
    }
  }

  lemma RequestStamps(s: State, e: Event, t: TaskId)
    requires Inv(s) && Enabled(s, e) && !WorkerEvent(e) && t in s.objs
    ensures Stamped(s.objs, RequestStep(s, e).objs, t, Stamp(e))
  {
    match e
    case ESendNew(id, context, text, now) => SendNewKeepsObjs(s, id, context, text, now, t);
    case ESendTo(id, context, text, now) => SendToKeepsObjs(s, id, context, text, now);
    case ECancel(id, now) => CancelStamps(s, id, now, t);
    case _ =>
  }

  lemma CancelEffect(s: State, id: TaskId, now: int)
    ensures var after := OkOr(Cancel(s, id, now), s).objs;
      after == s.objs || (id in s.objs && after == s.objs[id := s.objs[id].Touch(Canceled, now)])
  {
  }

  lemma CancelStamps(s: State, id: TaskId, now: int, t: TaskId)
    requires t in s.objs
    ensures Stamped(s.objs, OkOr(Cancel(s, id, now), s).objs, t, Some(now))
  {
    CancelEffect(s, id, now);
    if id in s.objs {
      TouchStamps(s.objs, id, Canceled, now, t);
    }
  }

  // ----- what was asked -----

  lemma WorkerStepNoNew(s: State, e: Event, t: TaskId)
    requires Enabled(s, e) && WorkerEvent(e) && t in WorkerStep(s, e).objs
    ensures t in s.objs
  {
    match e
    case EStart(w) =>
    case ETakeSlot(w, now) => TakeSlotEffect(s, w, now);
    case EAbandon(w, now) =>
    case ETakeLock(w) =>
    case EEndTurn(w, outcome, now) =>
  }

  lemma SendNewNew(s: State, e: Event, t: TaskId)
    requires Inv(s) && Enabled(s, e) && e.ESendNew? && t !in s.objs
    requires t in OkOr(SendNew(s, e.id, e.context, e.text, e.now), s).objs
    ensures e.id == t && OkOr(SendNew(s, e.id, e.context, e.text, e.now), s).objs[t] == NewTask(t, e.context, e.text, e.now)
  {
    if MakeRoom(s).Some? {
      MakeRoomChanges(s);
    }
  }

  lemma RequestNew(s: State, e: Event, t: TaskId)
    requires Inv(s) && Enabled(s, e) && !WorkerEvent(e) && t !in s.objs && t in RequestStep(s, e).objs
    ensures e.ESendNew? && e.id == t && RequestStep(s, e).objs[t] == NewTask(t, e.context, e.text, e.now)
  {
    match e
    case ESendNew(id, context, text, now) => SendNewNew(s, e, t);
    case ESendTo(id, context, text, now) => SendToKeepsObjs(s, id, context, text, now);
    case _ =>
  }

  /** Task t is in a state of the run and was sent with event i. */
  predicate SentAt(run: Run, t: TaskId, task: Task, i: nat) {
    && i < |run.events| && run.events[i].ESendNew? && run.events[i].id == t
    && task.id == t && task.context == run.events[i].context && task.message == run.events[i].text
  }

  lemma StepAsksSame(s: State, e: Event, t: TaskId)
    requires Inv(s) && Enabled(s, e) && t in Apply(s, e).objs
    ensures if t in s.objs then Stamped(s.objs, Apply(s, e).objs, t, Stamp(e))
            else e.ESendNew? && e.id == t && Apply(s, e).objs[t] == NewTask(t, e.context, e.text, e.now)
  {
    if t in s.objs {
      TaskChangesAreStamped(s, e, t);
    } else if WorkerEvent(e) {
      WorkerStepNoNew(s, e, t);
    } else {
      RequestNew(s, e, t);
    }
  }

  /** In every state of every run each task has the id, the context and the message it was sent
      with, by an event of the run. */
  lemma {:induction false} TaskIsWhatWasAsked(run: Run, k: nat, t: TaskId) returns (i: nat)
    requires ValidRun(run) && k <= |run.events| && t in run.states[k].objs
    ensures i < k && SentAt(run, t, run.states[k].objs[t], i)
    decreases k
  {
    i := 0;
    if k == 0 {
    } else {
      RunKeeps(run, k - 1);
      assert StepAt(run, k - 1);
      StepAsksSame(run.states[k - 1], run.events[k - 1], t);
      if t in run.states[k - 1].objs {
        i := TaskIsWhatWasAsked(run, k - 1, t);
      } else {
        i := k - 1;
      }
    }
  }

  // ----- which texts are kept -----

  /** The texts that are not blank, stripped. */
  function Stripped(texts: seq<string>): seq<string> {
    if texts == [] then []
    else
      var n := |texts| - 1;
      Stripped(texts[..n]) + if Blank(texts[n]) then [] else [Strip(texts[n])]
  }

  lemma StrippedNext(texts: seq<string>, text: string)
    ensures Stripped(texts + [text]) == Stripped(texts) + if Blank(text) then [] else [Strip(text)]
    ensures Total(Stripped(texts + [text])) == Total(Stripped(texts)) + if Blank(text) then 0 else |Strip(text)|
  {
    assert (texts + [text])[..|texts|] == texts;
    var kept := Stripped(texts);
    if Blank(text) {
      assert kept + [] == kept;
    } else {
      assert (kept + [Strip(text)])[..|kept|] == kept;
    }
  }

  lemma AcceptKeeps(reply: Reply, text: string)
    requires Blank(text) || Total(reply.chunks) + |Strip(text)| <= MAX_RESULT_CHARS
    ensures Accept(reply, text).0.chunks == reply.chunks + if Blank(text) then [] else [Strip(text)]
  {
  }

  /** As long as everything fits, every text that is not blank is a chunk of the reply. */
  lemma {:induction false} AllKept(texts: seq<string>)
    requires Total(Stripped(texts)) <= MAX_RESULT_CHARS
    ensures Sent(texts).chunks == Stripped(texts)
  {
    if texts == [] {
    } else {
      var n := |texts| - 1;
      StrippedNext(texts[..n], texts[n]);
      assert texts[..n] + [texts[n]] == texts;
      AllKept(texts[..n]);
      AcceptKeeps(Sent(texts[..n]), texts[n]);
    }
  }
}
