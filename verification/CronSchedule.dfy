/**
 `CronJob._compute_next` of norax/adapter/cron_in.py. Instants are whole microseconds of local
 wall-clock time since a Monday midnight, on a clock with a fixed offset; `every_seconds` is an
 exact number, and no date is out of range.
 */
module CronSchedule {
  import opened Common

  const SECOND: int := 1000000
  const MINUTE: int := 60 * SECOND
  const HOUR: int := 60 * MINUTE
  const DAY: int := 24 * HOUR
  const WEEK: int := 7 * DAY

  /** `day` is stripped and in lower case. */
  datatype Schedule =
    | Every(seconds: real)
    | At(hh: int, mm: int)
    | HourlyAtMinute(minute: real)
    | Weekly(day: string, hh: int, mm: int)
    | Unrecognized

  datatype ScheduleError = InvalidSchedule

  function DayIndex(day: string): Option<int> {
    var key := if |day| < 3 then day else day[..3];
    if key == "mon" then Some(0) else if key == "tue" then Some(1) else if key == "wed" then Some(2)
    else if key == "thu" then Some(3) else if key == "fri" then Some(4) else if key == "sat" then Some(5)
    else if key == "sun" then Some(6) else None
  }

  const WEEKDAYS: seq<string> := ["mon", "tue", "wed", "thu", "fri", "sat", "sun"]

  /** The first three letters name the day; a shorter text names none. */
  lemma DayNames(day: string, i: nat)
    requires i < 7
    ensures DayIndex(day) == Some(i) <==> |day| >= 3 && day[..3] == WEEKDAYS[i]
  {
  }

  predicate TimeOfDay(hh: int, mm: int) {
    0 <= hh < 24 && 0 <= mm < 60
  }

  /** To the nearest whole number, ties to the even one. */
  function Round(x: real): (r: int)
    ensures x - 0.5 <= r as real <= x + 0.5
  {
    var f, part := x.Floor, x - x.Floor as real;
    if part < 0.5 || (part == 0.5 && f % 2 == 0) then f else f + 1
  }

  lemma TiesToEven(x: real)
    requires Round(x) as real == x - 0.5 || Round(x) as real == x + 0.5
    ensures Round(x) % 2 == 0
  {
    var f := x.Floor;
    assert Round(x) == f || Round(x) == f + 1;
  }

  function StepOf(seconds: real): real {
    seconds * 1000000.0
  }

  /** The interval as a `timedelta`. */
  function Delta(seconds: real): int {
    Round(StepOf(seconds))
  }

  function CatchUp(seconds: real, now: int, previous: int): int
    requires seconds >= 0.001
  {
    if previous > now then previous
    else
      var missed := ((now - previous) as real / StepOf(seconds)).Floor + 1;
      var next := previous + Delta(seconds) * missed;
      if next <= now then next + Delta(seconds) else next
  }

  /** The candidate in the current period, or the next one when it is not after now. */
  function NextIn(period: int, candidate: int, now: int): int {
    if candidate <= now then candidate + period else candidate
  }

  function ComputeNext(s: Schedule, now: int, previous: Option<int>): Result<int, ScheduleError> {
    match s
    case Every(seconds) =>
      if seconds < 0.001 then Err(InvalidSchedule)
      else if previous.None? then Ok(now + Delta(seconds))
      else Ok(CatchUp(seconds, now, previous.value))
    case At(hh, mm) =>
      if !TimeOfDay(hh, mm) then Err(InvalidSchedule)
      else Ok(NextIn(DAY, now / DAY * DAY + hh * HOUR + mm * MINUTE, now))
    case HourlyAtMinute(minute) =>
      if minute != minute.Floor as real || !(0.0 <= minute < 60.0) then Err(InvalidSchedule)
      else Ok(NextIn(HOUR, now / HOUR * HOUR + minute.Floor * MINUTE, now))
    case Weekly(day, hh, mm) =>
      var index := DayIndex(day);
      if index.None? || !TimeOfDay(hh, mm) then Err(InvalidSchedule)
      else
        var daysAhead := (index.value - now / DAY % 7) % 7;
        Ok(NextIn(WEEK, (now / DAY + daysAhead) * DAY + hh * HOUR + mm * MINUTE, now))
    case Unrecognized => Err(InvalidSchedule)
  }

  // ----- calendar schedules -----

  /** The length of the period and the offset in it, for a valid calendar schedule. */
  function Period(s: Schedule): int {
    match s case At(_, _) => DAY case HourlyAtMinute(_) => HOUR case _ => WEEK
  }

  function Offset(s: Schedule): Option<int> {
    match s
    case At(hh, mm) => if TimeOfDay(hh, mm) then Some(hh * HOUR + mm * MINUTE) else None
    case HourlyAtMinute(minute) =>
      if minute == minute.Floor as real && 0.0 <= minute < 60.0 then Some(minute.Floor * MINUTE) else None
    case Weekly(day, hh, mm) =>
      if DayIndex(day).Some? && TimeOfDay(hh, mm) then Some(DayIndex(day).value * DAY + hh * HOUR + mm * MINUTE) else None
    case _ => None
  }

  /** The instant has the required minute, or time of day, or weekday and time of day. */
  predicate Due(s: Schedule, t: int) {
    Offset(s).Some? && t % Period(s) == Offset(s).value
  }

  /** `next` is the first due instant after now. */
  predicate FirstDue(s: Schedule, now: int, next: int) {
    && now < next <= now + Period(s) && Due(s, next)
    && forall t | now < t < next :: !Due(s, t)
  }

  lemma Multiples(period: int, x: int, y: int)
    requires period > 0 && x <= y
    ensures x * period <= y * period
  {
  }

  lemma SameResidue(period: int, a: int, b: int)
    requires period > 0 && a % period == b % period && a < b
    ensures a + period <= b
  {
    var x, y := a / period, b / period;
    assert a == x * period + a % period && b == y * period + b % period;
    if y <= x {
      Multiples(period, y, x);
    } else {
      Multiples(period, x + 1, y);
    }
  }

  lemma ResidueOf(period: int, k: int, offset: int)
    requires 0 <= offset < period
    ensures (k * period + offset) % period == offset
    ensures (k * period + offset) / period == k
  {
    var t := k * period + offset;
    var q, r := t / period, t % period;
    assert t == q * period + r;
    if q < k {
      Multiples(period, q + 1, k);
    } else if q > k {
      Multiples(period, k + 1, q);
    }
  }

  /** From the candidate of the current period to the first due instant. */
  lemma NextInIsFirst(s: Schedule, now: int, candidate: int)
    requires Due(s, candidate) && now - Period(s) < candidate <= now + Period(s)
    ensures FirstDue(s, now, NextIn(Period(s), candidate, now))
  {
    var period := Period(s);
    var next := NextIn(period, candidate, now);
    assert next % period == candidate % period by {
      Shifted(period, candidate);
    }
    forall t | now < t < next ensures !Due(s, t) {
      if Due(s, t) {
        SameResidue(period, t, next);
      }
    }
  }

  lemma Shifted(period: int, t: int)
    requires period > 0
    ensures (t + period) % period == t % period
  {
    var k, r := t / period, t % period;
    assert t + period == (k + 1) * period + r;
    ResidueOf(period, k + 1, r);
  }

  /** The start of the current period plus an offset in it. */
  lemma CurrentPeriod(now: int, period: int, offset: int)
    requires 0 <= offset < period
    ensures var c := now / period * period + offset; c % period == offset && now - period < c < now + period
  {
    ResidueOf(period, now / period, offset);
  }

  /** The weekly candidate: the required weekday of today or the six days ahead. */
  lemma WeekCandidate(now: int, index: int, time: int)
    requires 0 <= index < 7 && 0 <= time < DAY
    ensures var c := (now / DAY + (index - now / DAY % 7) % 7) * DAY + time;
      c % WEEK == index * DAY + time && now - WEEK < c <= now + WEEK
  {
    var today := now / DAY;
    var ahead := (index - today % 7) % 7;
    assert 0 <= ahead < 7;
    var k := (today + ahead - index) / 7;
    assert today + ahead == 7 * k + index;
    assert (today + ahead) * DAY + time == k * WEEK + (index * DAY + time);
    ResidueOf(WEEK, k, index * DAY + time);
  }

  lemma DailyIsFirstDue(s: Schedule, now: int, previous: Option<int>)
    requires s.At? && Offset(s).Some?
    ensures var r := ComputeNext(s, now, previous); r.Ok? && FirstDue(s, now, r.value)
  {
    CurrentPeriod(now, DAY, s.hh * HOUR + s.mm * MINUTE);
    NextInIsFirst(s, now, now / DAY * DAY + s.hh * HOUR + s.mm * MINUTE);
  }

  lemma HourlyIsFirstDue(s: Schedule, now: int, previous: Option<int>)
    requires s.HourlyAtMinute? && Offset(s).Some?
    ensures var r := ComputeNext(s, now, previous); r.Ok? && FirstDue(s, now, r.value)
  {
    CurrentPeriod(now, HOUR, s.minute.Floor * MINUTE);
    NextInIsFirst(s, now, now / HOUR * HOUR + s.minute.Floor * MINUTE);
  }

  lemma WeeklyIsFirstDue(s: Schedule, now: int, previous: Option<int>)
    requires s.Weekly? && Offset(s).Some?
    ensures var r := ComputeNext(s, now, previous); r.Ok? && FirstDue(s, now, r.value)
  {
    var index, time := DayIndex(s.day).value, s.hh * HOUR + s.mm * MINUTE;
    WeekCandidate(now, index, time);
    NextInIsFirst(s, now, (now / DAY + (index - now / DAY % 7) % 7) * DAY + time);
  }

  /** A calendar schedule answers with the first due instant after now, at most one period
      ahead, whatever came before; it is refused exactly when it names no offset. */
  lemma CalendarIsFirstDue(s: Schedule, now: int, previous: Option<int>)
    requires !s.Every?
    ensures var r := ComputeNext(s, now, previous);
      if Offset(s).Some? then r.Ok? && FirstDue(s, now, r.value) else r.Err?
  {
    if Offset(s).Some? {
      match s {
        case At(_, _) => DailyIsFirstDue(s, now, previous);
        case HourlyAtMinute(_) => HourlyIsFirstDue(s, now, previous);
        case Weekly(_, _, _) => WeeklyIsFirstDue(s, now, previous);
      }
    }
  }

  /** Minutes, hours, days and weeks nest. */
  lemma ClockNests(t: int)
    ensures t % HOUR == t / MINUTE % 60 * MINUTE + t % MINUTE
    ensures t % DAY == t / HOUR % 24 * HOUR + t % HOUR
    ensures t % WEEK == t / DAY % 7 * DAY + t % DAY
  {
    Nest(t, MINUTE, 60);
    Nest(t, HOUR, 24);
    Nest(t, DAY, 7);
  }

  lemma Nest(t: int, unit: int, n: int)
    requires unit > 0 && n > 0
    ensures t % (n * unit) == t / unit % n * unit + t % unit
  {
    var a, r := t / unit, t % unit;
    var b, m := a / n, a % n;
    assert t == a * unit + r && a == b * n + m;
    assert t == b * (n * unit) + (m * unit + r);
    Multiples(unit, 0, m);
    Multiples(unit, m + 1, n);
    ResidueOf(n * unit, b, m * unit + r);
  }

  /** What being due means on the wall clock. */
  predicate OnWallClock(s: Schedule, t: int)
    requires Offset(s).Some?
  {
    t % MINUTE == 0 && match s
    case At(hh, mm) => t / HOUR % 24 == hh && t / MINUTE % 60 == mm
    case HourlyAtMinute(minute) => t / MINUTE % 60 == minute.Floor
    case Weekly(day, hh, mm) => t / DAY % 7 == DayIndex(day).value && t / HOUR % 24 == hh && t / MINUTE % 60 == mm
  }

  lemma SameDigits(unit: int, a: int, low: int, b: int, low2: int)
    requires unit > 0 && 0 <= low < unit && 0 <= low2 < unit
    ensures a * unit + low == b * unit + low2 <==> a == b && low == low2
  {
    if a < b {
      Multiples(unit, a + 1, b);
    } else if b < a {
      Multiples(unit, b + 1, a);
    }
  }

  lemma SameReading(d: int, h: int, m: int, r: int, dd: int, hh: int, mm: int)
    requires TimeOfDay(h, m) && TimeOfDay(hh, mm) && 0 <= r < MINUTE
    ensures m * MINUTE + r == mm * MINUTE <==> m == mm && r == 0
    ensures h * HOUR + (m * MINUTE + r) == hh * HOUR + mm * MINUTE <==> h == hh && m == mm && r == 0
    ensures d * DAY + (h * HOUR + (m * MINUTE + r)) == dd * DAY + hh * HOUR + mm * MINUTE <==>
      d == dd && h == hh && m == mm && r == 0
  {
    var past, past2 := m * MINUTE + r, mm * MINUTE;
    SameDigits(MINUTE, m, r, mm, 0);
    SameDigits(HOUR, h, past, hh, past2);
    SameDigits(DAY, d, h * HOUR + past, dd, hh * HOUR + past2);
  }

  lemma DueOnWallClock(s: Schedule, t: int)
    requires Offset(s).Some?
    ensures Due(s, t) <==> OnWallClock(s, t)
  {
    ClockNests(t);
    var d, h, m, r := t / DAY % 7, t / HOUR % 24, t / MINUTE % 60, t % MINUTE;
    match s {
      case At(hh, mm) => SameReading(d, h, m, r, 0, hh, mm);
      case HourlyAtMinute(minute) => SameReading(d, h, m, r, 0, 0, minute.Floor);
      case Weekly(day, hh, mm) => SameReading(d, h, m, r, DayIndex(day).value, hh, mm);
    }
  }

  // ----- intervals -----

  /** Add the interval until the result is after now. */
  function Naive(previous: int, delta: int, now: int): (next: int)
    requires delta > 0
    ensures next > now
    decreases now - previous
  {
    if previous > now then previous else Naive(previous + delta, delta, now)
  }

  lemma {:induction false} NaiveJumps(previous: int, delta: int, now: int, k: nat)
    requires delta > 0 && previous + delta * k > now && (k == 0 || previous + delta * (k - 1) <= now)
    ensures Naive(previous, delta, now) == previous + delta * k
    decreases k
  {
    if k == 0 {
    } else {
      assert delta * k == delta + delta * (k - 1);
      Multiples(delta, 0, k - 1);
      if k > 1 {
        assert delta * (k - 1) == delta + delta * (k - 2);
      }
      NaiveJumps(previous + delta, delta, now, k - 1);
    }
  }

  lemma FloorRatio(e: real, step: real)
    requires step > 0.0
    ensures var f := (e / step).Floor; f as real * step <= e < (f + 1) as real * step
  {
    var x := e / step;
    assert x * step == e;
    var f := x.Floor;
    var above := (f + 1) as real;
    assert x < above;
    Scale(f as real, x, step);
    ScaleStrict(x, above, step);
    assert e < above * step;
  }

  lemma Scale(x: real, y: real, step: real)
    requires step > 0.0 && x <= y
    ensures x * step <= y * step
  {
  }

  lemma ScaleStrict(x: real, y: real, step: real)
    requires step > 0.0 && x < y
    ensures x * step < y * step
  {
  }

  lemma DeltaPositive(seconds: real)
    requires seconds >= 0.001
    ensures Delta(seconds) >= 1000 && StepOf(seconds) >= 1000.0
  {
  }

  /** The number of intervals the catch-up skips, seen from the interval and from the step. */
  lemma Missed(seconds: real, now: int, previous: int) returns (missed: int)
    requires seconds >= 0.001 && previous <= now
    ensures missed >= 1
    ensures missed == ((now - previous) as real / StepOf(seconds)).Floor + 1
    ensures (missed - 1) as real * StepOf(seconds) <= (now - previous) as real < missed as real * StepOf(seconds)
  {
    var e := (now - previous) as real;
    FloorRatio(e, StepOf(seconds));
    missed := (e / StepOf(seconds)).Floor + 1;
    if missed < 1 {
      Scale(missed as real, 0.0, StepOf(seconds));
    }
  }

  predicate WholeMicroseconds(seconds: real) {
    Delta(seconds) as real == StepOf(seconds)
  }

  lemma WholeMissed(seconds: real, now: int, previous: int) returns (missed: nat)
    requires seconds >= 0.001 && previous <= now && WholeMicroseconds(seconds)
    ensures missed == ((now - previous) as real / StepOf(seconds)).Floor + 1
    ensures Delta(seconds) * (missed - 1) <= now - previous < Delta(seconds) * missed
  {
    missed := Missed(seconds, now, previous);
    WholeProduct(missed - 1, Delta(seconds));
    WholeProduct(missed, Delta(seconds));
  }

  /** For an interval of whole microseconds the constant-time form is the loop. */
  lemma WholeStepIsNaive(seconds: real, now: int, previous: int)
    requires seconds >= 0.001 && WholeMicroseconds(seconds)
    ensures CatchUp(seconds, now, previous) == Naive(previous, Delta(seconds), now)
  {
    if previous <= now {
      var missed := WholeMissed(seconds, now, previous);
      NaiveJumps(previous, Delta(seconds), now, missed);
    }
  }

  lemma WholeProduct(k: int, delta: int)
    ensures k as real * delta as real == (delta * k) as real
  {
  }

  /** When the interval is rounded up or exact, the catch-up lands after now. */
  lemma RoundedUpIsAfter(seconds: real, now: int, previous: int)
    requires seconds >= 0.001 && Delta(seconds) as real >= StepOf(seconds)
    ensures CatchUp(seconds, now, previous) > now
  {
    if previous <= now {
      var missed := Missed(seconds, now, previous);
      Scale(StepOf(seconds), Delta(seconds) as real, missed as real);
      WholeProduct(missed, Delta(seconds));
    }
  }

  /** Otherwise there is a delay behind which the catch-up stays in the past. */
  lemma RoundedDownFallsBehind(seconds: real) returns (now: int)
    requires seconds >= 0.001 && Delta(seconds) as real < StepOf(seconds)
    ensures now >= 0 && CatchUp(seconds, now, 0) <= now
  {
    DeltaPositive(seconds);
    var step, delta := StepOf(seconds), Delta(seconds);
    var gap := step - delta as real;
    var k := (2.0 * delta as real / gap).Floor + 1;
    FloorRatio(2.0 * delta as real, gap);
    var x := k as real * step;
    now := x.Floor + 1;
    var missed := Missed(seconds, now, 0);
    BehindBy(step, delta, gap, k, now, missed);
  }

  lemma BehindBy(step: real, delta: int, gap: real, k: int, now: int, missed: int)
    requires delta > 0 && gap > 0.0 && step == delta as real + gap && k > 0
    requires k as real * gap > 2.0 * delta as real
    requires k as real * step < now as real <= k as real * step + 1.0 && step >= 1000.0
    requires (missed - 1) as real * step <= now as real < missed as real * step
    ensures now >= 0 && delta * missed + delta <= now
  {
    OneMore(k, step);
    LessFactor(missed - 1, k + 1, step);
    assert k as real * step == k as real * delta as real + k as real * gap;
    WholeProduct(k, delta);
    Multiples(delta, 0, k);
    Multiples(delta, missed, k + 1);
  }

  lemma OneMore(k: int, step: real)
    ensures (k + 1) as real * step == k as real * step + step
  {
    assert (k + 1) as real == k as real + 1.0;
  }

  lemma LessFactor(a: int, b: int, step: real)
    requires step > 0.0 && a as real * step < b as real * step
    ensures a < b
  {
    if b <= a {
      Scale(b as real, a as real, step);
    }
  }

  /** An interval rounded up overshoots the loop after a long enough delay. */
  lemma RoundedUpOvershoots(seconds: real) returns (now: int)
    requires seconds >= 0.001 && Delta(seconds) as real > StepOf(seconds)
    ensures CatchUp(seconds, now, 0) != Naive(0, Delta(seconds), now)
  {
    DeltaPositive(seconds);
    var delta := Delta(seconds);
    var gap := delta as real - StepOf(seconds);
    var n := Exceeding(StepOf(seconds), gap);
    NextMultiple(delta, n);
    now := delta * n;
    var missed := Missed(seconds, now, 0);
    AheadBy(StepOf(seconds), delta, gap, n, missed);
    NaiveJumps(0, delta, now, n + 1);
    RoundedUpIsAfter(seconds, now, 0);
  }

  lemma Exceeding(x: real, gap: real) returns (n: nat)
    requires x > 0.0 && gap > 0.0
    ensures n as real * gap > x && n > 0
  {
    FloorRatio(x, gap);
    var k := (x / gap).Floor + 1;
    if k < 1 {
      Scale(k as real, 0.0, gap);
    }
    n := k;
  }

  lemma NextMultiple(delta: int, n: nat)
    requires delta > 0
    ensures delta * (n + 1) > delta * n >= 0
  {
  }

  lemma AheadBy(step: real, delta: int, gap: real, n: int, missed: int)
    requires delta > 0 && gap > 0.0 && step == delta as real - gap && n > 0 && step > 0.0
    requires n as real * gap > step && (delta * n) as real < missed as real * step
    ensures missed > n + 1 && delta * missed > delta * (n + 1)
  {
    WholeProduct(n, delta);
    assert n as real * delta as real == n as real * step + n as real * gap;
    OneMore(n, step);
    LessFactor(n + 1, missed, step);
    Multiples(delta, n + 2, missed);
  }

  ghost predicate CatchUpIsNaive(seconds: real)
    requires seconds >= 0.001
  {
    DeltaPositive(seconds);
    forall now, previous :: CatchUp(seconds, now, previous) == Naive(previous, Delta(seconds), now)
  }

  ghost predicate CatchUpIsAfter(seconds: real)
    requires seconds >= 0.001
  {
    forall now, previous :: CatchUp(seconds, now, previous) > now
  }

  /** The constant-time catch-up always lands after now exactly when the interval is not
      rounded down to whole microseconds. */
  lemma AfterIffNotRoundedDown(seconds: real)
    requires seconds >= 0.001
    ensures CatchUpIsAfter(seconds) <==> Delta(seconds) as real >= StepOf(seconds)
  {
    if Delta(seconds) as real >= StepOf(seconds) {
      forall now, previous ensures CatchUp(seconds, now, previous) > now {
        RoundedUpIsAfter(seconds, now, previous);
      }
    } else {
      var now := RoundedDownFallsBehind(seconds);
    }
  }

  /** It equals the loop exactly when the interval is a whole number of microseconds. */
  lemma NaiveIffWhole(seconds: real)
    requires seconds >= 0.001
    ensures CatchUpIsNaive(seconds) <==> WholeMicroseconds(seconds)
  {
    DeltaPositive(seconds);
    if WholeMicroseconds(seconds) {
      forall now, previous ensures CatchUp(seconds, now, previous) == Naive(previous, Delta(seconds), now) {
        WholeStepIsNaive(seconds, now, previous);
      }
    } else if Delta(seconds) as real < StepOf(seconds) {
      var now := RoundedDownFallsBehind(seconds);
      assert CatchUp(seconds, now, 0) != Naive(0, Delta(seconds), now);
    } else {
      var now := RoundedUpOvershoots(seconds);
    }
  }

  /** For whole microseconds the boundary correction never applies. */
  lemma CorrectionIsDead(seconds: real, now: int, previous: int)
    requires seconds >= 0.001 && WholeMicroseconds(seconds) && previous <= now
    ensures previous + Delta(seconds) * (((now - previous) as real / StepOf(seconds)).Floor + 1) > now
  {
    var missed := WholeMissed(seconds, now, previous);
  }

  /** Any interval keeps the grid and moves past the previous nominal time when that is due. */
  lemma CatchUpStaysOnGrid(seconds: real, now: int, previous: int) returns (k: nat)
    requires seconds >= 0.001
    ensures CatchUp(seconds, now, previous) == previous + k * Delta(seconds)
    ensures previous <= now ==> k >= 1
  {
    k := 0;
    if previous <= now {
      k := Missed(seconds, now, previous);
      var delta := Delta(seconds);
      if previous + delta * k <= now {
        k := k + 1;
      }
    }
  }
}
