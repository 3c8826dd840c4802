/** What the scheduler guarantees over any clock readings and jitter. */
module CronTheorems {
  import opened Common
  import opened CronSchedule
  import opened CronAdapter

  /** A job never fires before its nominal time, and it fires at any tick behind it by at least
      its jitter. */
  lemma FiresInWindow(j: Job, now: int)
    requires Scheduled(j)
    ensures now < Nominal(j) ==> !Fires(j, now)
    ensures now >= Nominal(j) + (if j.jitter > 0 then j.jitter else 0) ==> Fires(j, now)
  {
  }

  /** A job that has been rescheduled fires from its nominal time and the drawn delay on. */
  lemma FiresAfterDraw(j: Job, now: int, previous: Option<int>, draw: int, t: int)
    requires ValidSchedule(j.schedule) && Draw(j, draw)
    ensures var r := Rescheduled(j, now, previous, draw);
      r.nominal.Some? && Scheduled(r) && (Fires(r, t) <==> t >= Nominal(r) + draw)
  {
  }

  /** Firing always moves the nominal time forward; not firing leaves it. */
  lemma FiringAdvances(j: Job, now: int, draw: int)
    requires Scheduled(j) && Draw(j, draw)
    ensures var t := Ticked(j, now, draw);
      t.nominal.Some? && if Fires(j, now) then Nominal(t) > Nominal(j) else t == j
  {
    if Fires(j, now) {
      if j.schedule.Every? {
        DeltaPositive(j.schedule.seconds);
        var k := CatchUpStaysOnGrid(j.schedule.seconds, now, Nominal(j));
        Multiples(Delta(j.schedule.seconds), 1, k);
      } else {
        CalendarIsFirstDue(j.schedule, now, j.nominal);
      }
    }
  }

  /** Over any clock readings and draws, nominal times strictly increase with every firing, so
      none is fired twice. */
  lemma {:induction false} NominalsIncrease(j: Job, ticks: seq<Reading>)
    requires Scheduled(j) && Readings(j, ticks)
    ensures Nominal(RunJob(j, ticks)) >= Nominal(j) + RunFires(j, ticks)
  {
    if ticks == [] {
    } else {
      var n := |ticks| - 1;
      NominalsIncrease(j, ticks[..n]);
      FiringAdvances(RunJob(j, ticks[..n]), ticks[n].now, ticks[n].draw);
    }
  }

  lemma TickOnGrid(j: Job, now: int, draw: int, origin: int, k: nat) returns (k': nat)
    requires Scheduled(j) && Draw(j, draw) && j.schedule.Every?
    requires Nominal(j) == origin + k * Delta(j.schedule.seconds)
    ensures var t := Ticked(j, now, draw);
      t.nominal.Some? && Nominal(t) == origin + k' * Delta(j.schedule.seconds)
    ensures k' >= k && (Fires(j, now) ==> k' > k)
  {
    k' := k;
    if Fires(j, now) {
      var more := CatchUpStaysOnGrid(j.schedule.seconds, now, Nominal(j));
      Distribute(k, more, Delta(j.schedule.seconds));
      k' := k + more;
    }
  }

  lemma Distribute(a: int, b: int, delta: int)
    ensures (a + b) * delta == a * delta + b * delta
  {
  }

  /** No drift: whatever the jitter, the nominal times of an interval job stay on the grid of
      its interval, and each firing consumes at least one grid point. */
  lemma {:induction false} NominalsOnGrid(j: Job, ticks: seq<Reading>) returns (k: nat)
    requires Scheduled(j) && Readings(j, ticks) && j.schedule.Every?
    ensures Nominal(RunJob(j, ticks)) == Nominal(j) + k * Delta(j.schedule.seconds)
    ensures k >= RunFires(j, ticks)
  {
    k := 0;
    if ticks != [] {
      var n := |ticks| - 1;
      k := NominalsOnGrid(j, ticks[..n]);
      k := TickOnGrid(RunJob(j, ticks[..n]), ticks[n].now, ticks[n].draw, Nominal(j), k);
    }
  }

  /** From the start: the first nominal time is one interval behind it, so all of them are
      start + n * interval. */
  lemma IntervalJobFromStart(j: Job, start: int, draw: int, ticks: seq<Reading>) returns (k: nat)
    requires j.schedule.Every? && ValidSchedule(j.schedule) && Draw(j, draw) && Readings(j, ticks)
    ensures var first := Rescheduled(j, start, None, draw);
      Scheduled(first) && Readings(first, ticks) && Nominal(first) == start + Delta(j.schedule.seconds) &&
      Nominal(RunJob(first, ticks)) == start + k * Delta(j.schedule.seconds) && k > RunFires(first, ticks)
  {
    var first := Rescheduled(j, start, None, draw);
    k := NominalsOnGrid(first, ticks);
    Distribute(k, 1, Delta(j.schedule.seconds));
    k := k + 1;
  }

  /** The nominal time chosen at a firing is the first due instant behind the clock reading. */
  lemma CalendarJobReschedules(j: Job, now: int, draw: int)
    requires Scheduled(j) && Draw(j, draw) && Fires(j, now) && !j.schedule.Every?
    ensures FirstDue(j.schedule, now, Nominal(Ticked(j, now, draw)))
  {
    CalendarIsFirstDue(j.schedule, now, j.nominal);
  }

  /** For whole microseconds it is the first grid point behind the clock reading. */
  lemma IntervalJobReschedules(j: Job, now: int, draw: int)
    requires Scheduled(j) && Draw(j, draw) && Fires(j, now) && j.schedule.Every? && WholeMicroseconds(j.schedule.seconds)
    ensures now < Nominal(Ticked(j, now, draw)) <= now + Delta(j.schedule.seconds)
  {
    var missed := WholeMissed(j.schedule.seconds, now, Nominal(j));
    NextMultipleOf(Delta(j.schedule.seconds), missed);
  }

  lemma NextMultipleOf(delta: int, k: int)
    ensures delta * k == delta * (k - 1) + delta
  {
  }

  /** The queue keeps its order, never exceeds its limit, and drops only what does not fit. */
  lemma {:induction false} QueueBounded(queue: seq<Envelope>, jobs: seq<Job>, now: int)
    requires |queue| <= QUEUE_LIMIT
    ensures var q := Queued(queue, jobs, now);
      queue <= q && |q| == (if |queue| + FireCount(jobs, now) < QUEUE_LIMIT then |queue| + FireCount(jobs, now) else QUEUE_LIMIT)
  {
    if jobs == [] {
    } else {
      QueueBounded(queue, jobs[..|jobs| - 1], now);
    }
  }

  /** An envelope of a job that fired, with the clock reading of the tick. */
  predicate FromFired(jobs: seq<Job>, now: int, e: Envelope) {
    exists i | 0 <= i < |jobs| :: Fires(jobs[i], now) && e == Envelope(jobs[i].name, jobs[i].kind, now)
  }

  /** A tick puts nothing into the queue but envelopes of jobs that fired. */
  lemma {:induction false} QueueFromFired(queue: seq<Envelope>, jobs: seq<Job>, now: int, e: Envelope)
    requires e in Queued(queue, jobs, now) && e !in queue
    ensures FromFired(jobs, now, e)
  {
    var n := |jobs| - 1;
    if e in Queued(queue, jobs[..n], now) {
      QueueFromFired(queue, jobs[..n], now, e);
      var i :| 0 <= i < n && Fires(jobs[..n][i], now) && e == Envelope(jobs[..n][i].name, jobs[..n][i].kind, now);
      assert jobs[..n][i] == jobs[i];
    }
  }
}
