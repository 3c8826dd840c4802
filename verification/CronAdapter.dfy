/**
 The scheduler of norax/adapter/cron_in.py: initial schedule, ticks, jitter and the bounded
 queue. The clock reading of a tick and the jitter drawn for a job are arguments; both may be
 anything the source allows, and the clock may run backwards.
 */
module CronAdapter {
  import opened Common
  import opened CronSchedule

  const QUEUE_LIMIT: nat := 256

  datatype Job = Job(name: string, kind: string, schedule: Schedule, jitter: int, fire: Option<int>, nominal: Option<int>)

  datatype Envelope = Envelope(name: string, kind: string, at: int)

  predicate ValidSchedule(s: Schedule) {
    if s.Every? then s.seconds >= 0.001 else Offset(s).Some?
  }

  lemma ValidIffComputes(s: Schedule, now: int, previous: Option<int>)
    ensures ValidSchedule(s) <==> ComputeNext(s, now, previous).Ok?
  {
    if !s.Every? {
      CalendarIsFirstDue(s, now, previous);
    }
  }

  /** A draw the job's jitter allows. */
  predicate Draw(j: Job, draw: int) {
    0 <= draw && draw <= if j.jitter > 0 then j.jitter else 0
  }

  function Next(j: Job, now: int, previous: Option<int>): int
    requires ValidSchedule(j.schedule)
  {
    ValidIffComputes(j.schedule, now, previous);
    ComputeNext(j.schedule, now, previous).value
  }

  function Rescheduled(j: Job, now: int, previous: Option<int>, draw: int): Job
    requires ValidSchedule(j.schedule)
  {
    var next := Next(j, now, previous);
    j.(nominal := Some(next), fire := Some(next + draw))
  }

  predicate Fires(j: Job, now: int) {
    j.fire.Some? && now >= j.fire.value
  }

  predicate Ready(j: Job) {
    j.fire.Some? ==> ValidSchedule(j.schedule)
  }

  /** One job in one tick. */
  function Ticked(j: Job, now: int, draw: int): Job
    requires Ready(j)
  {
    if Fires(j, now) then Rescheduled(j, now, j.nominal, draw) else j
  }

  function Put(queue: seq<Envelope>, e: Envelope): seq<Envelope> {
    if |queue| < QUEUE_LIMIT then queue + [e] else queue
  }

  /** The queue after the firings of one tick. */
  function Queued(queue: seq<Envelope>, jobs: seq<Job>, now: int): seq<Envelope> {
    if jobs == [] then queue
    else
      var n := |jobs| - 1;
      var before := Queued(queue, jobs[..n], now);
      if Fires(jobs[n], now) then Put(before, Envelope(jobs[n].name, jobs[n].kind, now)) else before
  }

  function FireCount(jobs: seq<Job>, now: int): nat {
    if jobs == [] then 0
    else FireCount(jobs[..|jobs| - 1], now) + if Fires(jobs[|jobs| - 1], now) then 1 else 0
  }

  lemma TickNext(queue: seq<Envelope>, jobs: seq<Job>, i: nat, now: int)
    requires i < |jobs|
    ensures var before, fires := Queued(queue, jobs[..i], now), Fires(jobs[i], now);
      && Queued(queue, jobs[..i + 1], now) ==
           (if fires then Put(before, Envelope(jobs[i].name, jobs[i].kind, now)) else before)
      && FireCount(jobs[..i + 1], now) == FireCount(jobs[..i], now) + if fires then 1 else 0
  {
    assert jobs[..i + 1][..i] == jobs[..i];
  }

  // ----- the objects -----

  class CronJob {
    const name: string
    const kind: string
    const schedule: Schedule
    const jitter: int
    var nextFire: Option<int>
    var nextNominal: Option<int>

    ghost function View(): Job
      reads this
    {
      Job(name, kind, schedule, jitter, nextFire, nextNominal)
    }

    constructor (name: string, kind: string, schedule: Schedule, jitter: int)
      ensures View() == Job(name, kind, schedule, jitter, None, None)
    {
      this.name, this.kind, this.schedule, this.jitter := name, kind, schedule, jitter;
      nextFire, nextNominal := None, None;
    }

    method SetNext(nominal: int, fire: int)
      modifies this
      ensures View() == old(View()).(nominal := Some(nominal), fire := Some(fire))
    {
      nextNominal, nextFire := Some(nominal), Some(fire);
    }
  }

  class Adapter {
    const jobs: seq<CronJob>
    var queue: seq<Envelope>

    ghost predicate Valid()
      reads this, jobs
    {
      && (forall i, j | 0 <= i < j < |jobs| :: jobs[i] != jobs[j])
      && (forall i | 0 <= i < |jobs| :: Ready(jobs[i].View()))
      && |queue| <= QUEUE_LIMIT
    }

    constructor (jobs: seq<CronJob>)
      requires forall i, j | 0 <= i < j < |jobs| :: jobs[i] != jobs[j]
      requires forall i | 0 <= i < |jobs| :: jobs[i].nextFire.None?
      ensures this.jobs == jobs && queue == [] && Valid()
    {
      this.jobs, queue := jobs, [];
    }

    /** `_with_jitter`, with the random draw as an argument. */
    method WithJitter(job: CronJob, nominal: int, draw: int) returns (fire: int)
      requires Draw(job.View(), draw)
      ensures fire == nominal + draw
    {
      if job.jitter <= 0 {
        return nominal;
      }
      return nominal + draw;
    }

    /** The nominal times of all jobs, or nothing when one schedule is invalid. */
    method Plan(now: int) returns (ok: bool, nominals: seq<int>)
      ensures ok <==> forall i | 0 <= i < |jobs| :: ValidSchedule(jobs[i].schedule)
      ensures ok ==> |nominals| == |jobs| && forall i | 0 <= i < |jobs| ::
        ValidSchedule(jobs[i].schedule) && nominals[i] == Next(jobs[i].View(), now, None)
    {
      nominals := [];
      for i := 0 to |jobs|
        invariant |nominals| == i
        invariant forall k | 0 <= k < i :: ValidSchedule(jobs[k].schedule) && nominals[k] == Next(jobs[k].View(), now, None)
      {
        ValidIffComputes(jobs[i].schedule, now, None);
        var next := ComputeNext(jobs[i].schedule, now, None);
        if next.Err? {
          return false, [];
        }
        nominals := nominals + [next.value];
      }
      ok := true;
    }

    /** `_schedule_initial`: all jobs or, when one schedule is invalid, none. */
    method ScheduleInitial(now: int, draws: seq<int>) returns (ok: bool)
      requires Valid() && |draws| == |jobs| && forall i | 0 <= i < |jobs| :: Draw(jobs[i].View(), draws[i])
      modifies jobs
      ensures Valid() && queue == old(queue)
      ensures ok <==> forall i | 0 <= i < |jobs| :: ValidSchedule(jobs[i].schedule)
      ensures ok ==> forall i | 0 <= i < |jobs| ::
        ValidSchedule(jobs[i].schedule) && jobs[i].View() == Rescheduled(old(jobs[i].View()), now, None, draws[i])
      ensures !ok ==> forall i | 0 <= i < |jobs| :: jobs[i].View() == old(jobs[i].View())
    {
      var nominals;
      ok, nominals := Plan(now);
      if !ok {
        return;
      }
      for i := 0 to |jobs|
        modifies jobs
        invariant forall k | 0 <= k < i :: jobs[k].View() == Rescheduled(old(jobs[k].View()), now, None, draws[k])
        invariant forall k | i <= k < |jobs| :: jobs[k].View() == old(jobs[k].View())
      {
        var fire := WithJitter(jobs[i], nominals[i], draws[i]);
        jobs[i].SetNext(nominals[i], fire);
      }
    }

    method Fire(job: CronJob, at: int)
      modifies this`queue
      ensures queue == Put(old(queue), Envelope(job.name, job.kind, at))
    {
      if |queue| < QUEUE_LIMIT {
        queue := queue + [Envelope(job.name, job.kind, at)];
      }
    }

    method TickJob(job: CronJob, now: int, draw: int) returns (fired: bool)
      requires Ready(job.View()) && Draw(job.View(), draw)
      modifies this`queue, job
      ensures fired == old(Fires(job.View(), now))
      ensures job.View() == Ticked(old(job.View()), now, draw)
      ensures queue == if fired then Put(old(queue), Envelope(job.name, job.kind, now)) else old(queue)
    {
      fired := job.nextFire.Some? && now >= job.nextFire.value;
      if fired {
        Fire(job, now);
        ValidIffComputes(job.schedule, now, job.nextNominal);
        var next := ComputeNext(job.schedule, now, job.nextNominal).value;
        var fire := WithJitter(job, next, draw);
        job.SetNext(next, fire);
      }
    }

    /** The jobs before index i have ticked, the others are as they were. */
    ghost predicate TickedUpTo(before: seq<Job>, now: int, draws: seq<int>, i: nat)
      reads this, jobs
    {
      && |before| == |draws| == |jobs| && i <= |jobs|
      && (forall k | 0 <= k < |jobs| :: Ready(before[k]))
      && (forall k | 0 <= k < i :: jobs[k].View() == Ticked(before[k], now, draws[k]))
      && (forall k | i <= k < |jobs| :: jobs[k].View() == before[k])
    }

    /** One round of the loop. */
    method TickAt(ghost before: seq<Job>, now: int, draws: seq<int>, i: nat) returns (fired: bool)
      requires (forall j, k | 0 <= j < k < |jobs| :: jobs[j] != jobs[k]) && i < |jobs|
      requires TickedUpTo(before, now, draws, i) && Draw(before[i], draws[i])
      modifies this`queue, jobs[i]
      ensures TickedUpTo(before, now, draws, i + 1) && fired == Fires(before[i], now)
      ensures queue == if fired then Put(old(queue), Envelope(before[i].name, before[i].kind, now)) else old(queue)
    {
      assert jobs[i].View() == before[i];
      fired := TickJob(jobs[i], now, draws[i]);
    }

    /** `tick`: fire what is due, each job at most once, and schedule it anew. */
    method Tick(now: int, draws: seq<int>) returns (fires: nat)
      requires Valid() && |draws| == |jobs| && forall i | 0 <= i < |jobs| :: Draw(jobs[i].View(), draws[i])
      modifies this`queue, jobs
      ensures Valid()
      ensures forall i | 0 <= i < |jobs| :: jobs[i].View() == Ticked(old(jobs[i].View()), now, draws[i])
      ensures queue == Queued(old(queue), old(Views()), now)
      ensures fires == FireCount(old(Views()), now)
    {
      fires := 0;
      ghost var before := Views();
      for i := 0 to |jobs|
        modifies this`queue, jobs
        invariant TickedUpTo(before, now, draws, i)
        invariant queue == Queued(old(queue), before[..i], now) && |queue| <= QUEUE_LIMIT
        invariant fires == FireCount(before[..i], now)
      {
        TickNext(old(queue), before, i, now);
        var fired := TickAt(before, now, draws, i);
        if fired {
          fires := fires + 1;
        }
      }
      assert before[..|jobs|] == before;
    }

    ghost function Views(): (vs: seq<Job>)
      reads this, jobs
      ensures |vs| == |jobs| && forall i | 0 <= i < |jobs| :: vs[i] == jobs[i].View()
    {
      seq(|jobs|, i requires 0 <= i < |jobs| reads this, jobs => jobs[i].View())
    }
  }

  // ----- runs of one job -----

  datatype Reading = Reading(now: int, draw: int)

  predicate Readings(j: Job, ticks: seq<Reading>) {
    forall i | 0 <= i < |ticks| :: Draw(j, ticks[i].draw)
  }

  /** A job that has been scheduled: it fires at its nominal time or up to the jitter later. */
  predicate Scheduled(j: Job) {
    && ValidSchedule(j.schedule) && j.fire.Some? && j.nominal.Some?
    && Draw(j, j.fire.value - j.nominal.value)
  }

  function RunJob(j: Job, ticks: seq<Reading>): (r: Job)
    requires Scheduled(j) && Readings(j, ticks)
    ensures Scheduled(r) && r.schedule == j.schedule && r.jitter == j.jitter
  {
    if ticks == [] then j
    else
      var n := |ticks| - 1;
      Ticked(RunJob(j, ticks[..n]), ticks[n].now, ticks[n].draw)
  }

  function RunFires(j: Job, ticks: seq<Reading>): nat
    requires Scheduled(j) && Readings(j, ticks)
  {
    if ticks == [] then 0
    else
      var n := |ticks| - 1;
      RunFires(j, ticks[..n]) + if Fires(RunJob(j, ticks[..n]), ticks[n].now) then 1 else 0
  }

  function Nominal(j: Job): int
    requires j.nominal.Some?
  {
    j.nominal.value
  }
}
