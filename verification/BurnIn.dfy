/**
 The burn-in window of scripts/burnin_monitor.py (`evaluate_status`): when the samples of a
 campaign show 72 continuous hours. Times are exact seconds; a sample without a usable timestamp
 is None.
 */
module BurnIn {
  import opened Common

  const TARGET_SECONDS: real := 259200.0
  const MIN_SAMPLES: nat := 200
  const MAX_SAMPLE_GAP_SECONDS: real := 180.0

  datatype Gates = Gates(duration: bool, minimumSamples: bool, observedWindow: bool)

  // ----- the samples -----

  predicate Acceptable(stamp: Option<real>, accepted: seq<real>, started: real, now: real) {
    stamp.Some? && started <= stamp.value <= now && (accepted == [] || stamp.value > accepted[|accepted| - 1])
  }

  /** The timestamps up to the first that is missing, out of order or outside the campaign. */
  function Timestamps(samples: seq<Option<real>>, started: real, now: real): seq<real> {
    if samples == [] then []
    else
      var n := |samples| - 1;
      var before := Timestamps(samples[..n], started, now);
      if |before| == n && Acceptable(samples[n], before, started, now) then before + [samples[n].value] else before
  }

  predicate AllValid(samples: seq<Option<real>>, started: real, now: real) {
    |Timestamps(samples, started, now)| == |samples|
  }

  predicate Below(times: seq<real>, i: int, j: int)
    requires 0 <= i < j < |times|
  {
    times[i] < times[j]
  }

  predicate Increasing(times: seq<real>) {
    forall i, j | 0 <= i < j < |times| :: Below(times, i, j)
  }

  function From(times: seq<real>, bound: real): seq<real> {
    if times == [] then []
    else
      var n := |times| - 1;
      From(times[..n], bound) + if times[n] >= bound then [times[n]] else []
  }

  predicate NoGaps(times: seq<real>) {
    forall i | 0 <= i < |times| - 1 :: times[i + 1] - times[i] <= MAX_SAMPLE_GAP_SECONDS
  }

  function WindowStart(started: real, now: real): real {
    if started > now - TARGET_SECONDS then started else now - TARGET_SECONDS
  }

  function WindowTimes(samples: seq<Option<real>>, started: real, now: real): seq<real> {
    From(Timestamps(samples, started, now), WindowStart(started, now) - MAX_SAMPLE_GAP_SECONDS)
  }

  predicate Continuous(w: seq<real>, start: real, now: real) {
    && |w| >= MIN_SAMPLES
    && w[0] <= start + MAX_SAMPLE_GAP_SECONDS
    && now - w[|w| - 1] <= MAX_SAMPLE_GAP_SECONDS
    && w[|w| - 1] - w[0] >= TARGET_SECONDS - MAX_SAMPLE_GAP_SECONDS
    && NoGaps(w)
  }

  predicate Observed(samples: seq<Option<real>>, started: real, now: real) {
    AllValid(samples, started, now) && Continuous(WindowTimes(samples, started, now), WindowStart(started, now), now)
  }

  // ----- the evaluation -----

  method Collect(samples: seq<Option<real>>, started: real, now: real) returns (times: seq<real>, valid: bool)
    ensures times == Timestamps(samples, started, now) && valid == AllValid(samples, started, now)
  {
    times, valid := [], true;
    for i := 0 to |samples|
      invariant valid && times == Timestamps(samples[..i], started, now) && |times| == i
    {
      assert samples[..i + 1][..i] == samples[..i];
      var sample := samples[i];
      if sample.None? || !(started <= sample.value <= now) || (times != [] && sample.value <= times[|times| - 1]) {
        valid := false;
        StopsHere(samples, started, now, i);
        return;
      }
      times := times + [sample.value];
    }
    assert samples[..|samples|] == samples;
  }

  lemma {:induction false} StopsHere(samples: seq<Option<real>>, started: real, now: real, i: nat)
    requires i < |samples|
    requires var before := Timestamps(samples[..i], started, now);
      |before| == i && !Acceptable(samples[i], before, started, now)
    ensures Timestamps(samples, started, now) == Timestamps(samples[..i], started, now)
  {
    var n := |samples| - 1;
    if i < n {
      assert samples[..n][..i] == samples[..i];
      StopsHere(samples[..n], started, now, i);
    }
  }

  method WindowOf(times: seq<real>, bound: real) returns (w: seq<real>)
    ensures w == From(times, bound)
  {
    w := [];
    for i := 0 to |times|
      invariant w == From(times[..i], bound)
    {
      assert times[..i + 1][..i] == times[..i];
      if times[i] >= bound {
        w := w + [times[i]];
      }
    }
    assert times[..|times|] == times;
  }

  /** The gates of `evaluate_status` that concern time. */
  method EvaluateStatus(samples: seq<Option<real>>, started: real, now: real) returns (gates: Gates)
    ensures gates.duration == (now - started >= TARGET_SECONDS) && gates.minimumSamples == (|samples| >= MIN_SAMPLES)
    ensures gates.observedWindow == Observed(samples, started, now)
  {
    var elapsed := if now - started > 0.0 then now - started else 0.0;
    var times, valid := Collect(samples, started, now);
    var start := WindowStart(started, now);
    var w := WindowOf(times, start - MAX_SAMPLE_GAP_SECONDS);
    var observed := valid && |w| >= MIN_SAMPLES && w[0] <= start + MAX_SAMPLE_GAP_SECONDS && now - w[|w| - 1] <= MAX_SAMPLE_GAP_SECONDS &&
      w[|w| - 1] - w[0] >= TARGET_SECONDS - MAX_SAMPLE_GAP_SECONDS && forall i | 0 <= i < |w| - 1 :: w[i + 1] - w[i] <= MAX_SAMPLE_GAP_SECONDS;
    return Gates(elapsed >= TARGET_SECONDS, |samples| >= MIN_SAMPLES, observed);
  }

  // ----- what the timestamps are -----

  lemma IncreasingGrows(times: seq<real>, t: real)
    requires Increasing(times)
    ensures Increasing(times + [t]) <==> times == [] || times[|times| - 1] < t
  {
    var n, all := |times|, times + [t];
    if n > 0 && times[n - 1] < t {
      forall i, j | 0 <= i < j < n + 1 ensures Below(all, i, j) {
        if j < n {
          assert Below(times, i, j);
        } else {
          assert i < n - 1 ==> Below(times, i, n - 1);
        }
      }
    }
    if n > 0 && Increasing(all) {
      assert Below(all, n - 1, n);
    }
  }

  lemma IncreasingFront(times: seq<real>)
    requires Increasing(times) && times != []
    ensures Increasing(times[..|times| - 1])
    ensures forall i | 0 <= i < |times| - 1 :: times[i] < times[|times| - 1]
  {
    var n := |times| - 1;
    forall i, j | 0 <= i < j < n ensures Below(times[..n], i, j) {
      assert Below(times, i, j);
    }
    forall i | 0 <= i < n ensures times[i] < times[n] {
      assert Below(times, i, n);
    }
  }

  lemma IncreasingSuffix(times: seq<real>, k: nat)
    requires Increasing(times) && k <= |times|
    ensures Increasing(times[k..])
  {
    forall i, j | 0 <= i < j < |times| - k ensures Below(times[k..], i, j) {
      assert Below(times, k + i, k + j);
    }
  }

  /** The accepted timestamps are the leading samples, in order and within the campaign. */
  lemma {:induction false} TimestampsLead(samples: seq<Option<real>>, started: real, now: real)
    ensures var t := Timestamps(samples, started, now);
      |t| <= |samples| && Increasing(t) &&
      forall i | 0 <= i < |t| :: samples[i] == Some(t[i]) && started <= t[i] <= now
  {
    if samples == [] {
    } else {
      var n := |samples| - 1;
      var before := Timestamps(samples[..n], started, now);
      TimestampsLead(samples[..n], started, now);
      if |before| == n && Acceptable(samples[n], before, started, now) {
        IncreasingGrows(before, samples[n].value);
      }
    }
  }

  lemma {:induction false} FromNone(times: seq<real>, bound: real)
    requires forall i | 0 <= i < |times| :: times[i] < bound
    ensures From(times, bound) == []
  {
    if times == [] {
    } else {
      FromNone(times[..|times| - 1], bound);
    }
  }

  lemma {:induction false} FromAll(times: seq<real>, bound: real)
    requires forall i | 0 <= i < |times| :: times[i] >= bound
    ensures From(times, bound) == times
  {
    if times == [] {
    } else {
      FromAll(times[..|times| - 1], bound);
    }
  }

  /** The samples in reach of the window are the last ones. */
  lemma {:induction false} FromIsSuffix(times: seq<real>, bound: real) returns (k: nat)
    requires Increasing(times)
    ensures k <= |times| && From(times, bound) == times[k..]
    ensures (forall i | 0 <= i < k :: times[i] < bound) && forall i | k <= i < |times| :: times[i] >= bound
  {
    k := |times|;
    if times != [] {
      var n := |times| - 1;
      IncreasingFront(times);
      if times[n] < bound {
        FromNone(times, bound);
      } else {
        k := FromIsSuffix(times[..n], bound);
        assert forall i :: 0 <= i < n ==> times[..n][i] == times[i];
        assert times[..n][k..] + [times[n]] == times[k..];
      }
    }
  }

  // ----- coverage -----

  /** A sample was taken in the 180 seconds up to t. */
  predicate Trailing(w: seq<real>, t: real) {
    exists i | 0 <= i < |w| :: t - MAX_SAMPLE_GAP_SECONDS <= w[i] <= t
  }

  /** The latest sample up to t, found from the end. */
  lemma {:induction false} TrailingWithin(w: seq<real>, now: real, t: real)
    requires w != [] && Increasing(w) && NoGaps(w) && now - w[|w| - 1] <= MAX_SAMPLE_GAP_SECONDS && w[0] <= t <= now
    ensures Trailing(w, t)
    decreases |w|
  {
    var n := |w| - 1;
    if w[n] <= t {
      assert t - MAX_SAMPLE_GAP_SECONDS <= w[n] <= t;
    } else {
      IncreasingFront(w);
      TrailingWithin(w[..n], w[n], t);
      var i :| 0 <= i < n && t - MAX_SAMPLE_GAP_SECONDS <= w[..n][i] <= t;
      assert t - MAX_SAMPLE_GAP_SECONDS <= w[i] <= t;
    }
  }

  lemma GapUncovered(w: seq<real>, i: nat, end: real)
    requires Increasing(w) && i < |w| && end - w[i] > MAX_SAMPLE_GAP_SECONDS && (i + 1 < |w| ==> end <= w[i + 1])
    ensures var t := (w[i] + MAX_SAMPLE_GAP_SECONDS + end) / 2.0; w[i] < t < end && !Trailing(w, t)
  {
    var t := (w[i] + MAX_SAMPLE_GAP_SECONDS + end) / 2.0;
    forall k | 0 <= k < |w| ensures !(t - MAX_SAMPLE_GAP_SECONDS <= w[k] <= t) {
      assert k < i ==> Below(w, k, i);
      assert k > i + 1 ==> Below(w, i + 1, k);
    }
  }

  /** Samples have no gap over 180 seconds up to now exactly when, from the first on, every
      instant has one in the 180 seconds before it. */
  lemma GapsIffTrailing(w: seq<real>, now: real)
    requires w != [] && Increasing(w) && w[|w| - 1] <= now
    ensures NoGaps(w) && now - w[|w| - 1] <= MAX_SAMPLE_GAP_SECONDS <==> forall t | w[0] <= t <= now :: Trailing(w, t)
  {
    if NoGaps(w) && now - w[|w| - 1] <= MAX_SAMPLE_GAP_SECONDS {
      forall t | w[0] <= t <= now ensures Trailing(w, t) {
        TrailingWithin(w, now, t);
      }
    }
    if forall t | w[0] <= t <= now :: Trailing(w, t) {
      var n := |w| - 1;
      forall i | 0 <= i < n ensures w[i + 1] - w[i] <= MAX_SAMPLE_GAP_SECONDS {
        assert (i > 0 ==> Below(w, 0, i)) && (i + 1 < n ==> Below(w, i + 1, n));
        if w[i + 1] - w[i] > MAX_SAMPLE_GAP_SECONDS {
          GapUncovered(w, i, w[i + 1]);
        }
      }
      assert n > 0 ==> Below(w, 0, n);
      if now - w[n] > MAX_SAMPLE_GAP_SECONDS {
        GapUncovered(w, n, now);
      }
    }
  }

  lemma WindowFacts(samples: seq<Option<real>>, started: real, now: real)
    ensures var w := WindowTimes(samples, started, now);
      Increasing(w) && forall i | 0 <= i < |w| ::
        started <= w[i] <= now && WindowStart(started, now) - MAX_SAMPLE_GAP_SECONDS <= w[i] && Some(w[i]) in samples
  {
    var times, w := Timestamps(samples, started, now), WindowTimes(samples, started, now);
    TimestampsLead(samples, started, now);
    var k := FromIsSuffix(times, WindowStart(started, now) - MAX_SAMPLE_GAP_SECONDS);
    IncreasingSuffix(times, k);
    forall i | 0 <= i < |w| ensures Some(w[i]) in samples && started <= w[i] <= now {
      assert w[i] == times[k + i] && samples[k + i] == Some(times[k + i]);
    }
  }

  /** The gate in terms of coverage: all timestamps valid, enough of them in reach of the window
      and spanning it, and from the first on every instant up to now has a sample in the 180
      seconds before it. */
  lemma ObservedIffCovered(samples: seq<Option<real>>, started: real, now: real)
    ensures var w := WindowTimes(samples, started, now);
      Observed(samples, started, now) <==>
      && AllValid(samples, started, now) && |w| >= MIN_SAMPLES
      && w[0] <= WindowStart(started, now) + MAX_SAMPLE_GAP_SECONDS && w[|w| - 1] - w[0] >= TARGET_SECONDS - MAX_SAMPLE_GAP_SECONDS
      && forall t | w[0] <= t <= now :: Trailing(w, t)
  {
    var w := WindowTimes(samples, started, now);
    WindowFacts(samples, started, now);
    if w != [] {
      GapsIffTrailing(w, now);
    }
  }

  /** A sample was taken within 180 seconds of t. */
  predicate Near(samples: seq<Option<real>>, t: real) {
    exists s: Option<real> | s in samples :: s.Some? && t - MAX_SAMPLE_GAP_SECONDS <= s.value <= t + MAX_SAMPLE_GAP_SECONDS
  }

  /** A passed gate leaves no instant of the window without a sample within 180 seconds, and
      the campaign has lasted 72 hours less that tolerance. */
  lemma ObservedCovers(samples: seq<Option<real>>, started: real, now: real, t: real)
    requires Observed(samples, started, now) && WindowStart(started, now) <= t <= now
    ensures Near(samples, t)
    ensures now - started >= TARGET_SECONDS - MAX_SAMPLE_GAP_SECONDS
  {
    var w := WindowTimes(samples, started, now);
    WindowFacts(samples, started, now);
    if t < w[0] {
      assert Some(w[0]) in samples;
    } else {
      TrailingWithin(w, now, t);
      var i :| 0 <= i < |w| && t - MAX_SAMPLE_GAP_SECONDS <= w[i] <= t;
      assert Some(w[i]) in samples;
    }
  }

  // ----- a covered window the gate refuses -----

  function Stamps(times: seq<real>): (samples: seq<Option<real>>)
    ensures |samples| == |times| && forall i | 0 <= i < |times| :: samples[i] == Some(times[i])
  {
    if times == [] then [] else Stamps(times[..|times| - 1]) + [Some(times[|times| - 1])]
  }

  /** Increasing times within the campaign are all accepted. */
  lemma {:induction false} AllAccepted(times: seq<real>, started: real, now: real)
    requires Increasing(times) && forall i | 0 <= i < |times| :: started <= times[i] <= now
    ensures Timestamps(Stamps(times), started, now) == times
  {
    if times == [] {
    } else {
      var n := |times| - 1;
      IncreasingFront(times);
      AllAccepted(times[..n], started, now);
      assert times == times[..n] + [times[n]];
      assert Stamps(times)[..n] == Stamps(times[..n]);
    }
  }

  lemma ContinuousCons(stale: real, times: seq<real>, start: real, now: real)
    requires Continuous(times, start, now) && stale <= times[0]
    ensures Continuous([stale] + times, start, now) <==> times[0] - stale <= MAX_SAMPLE_GAP_SECONDS
  {
    var all := [stale] + times;
    assert all[1] == times[0] && all[|all| - 1] == times[|times| - 1];
    if times[0] - stale <= MAX_SAMPLE_GAP_SECONDS {
      forall i | 0 <= i < |all| - 1 ensures all[i + 1] - all[i] <= MAX_SAMPLE_GAP_SECONDS {
        assert i > 0 ==> all[i] == times[i - 1] && all[i + 1] == times[i - 1 + 1];
      }
    }
  }

  lemma IncreasingCons(t: real, times: seq<real>)
    requires Increasing(times) && (times == [] || t < times[0])
    ensures Increasing([t] + times)
  {
    var all := [t] + times;
    forall i, j | 0 <= i < j < |all| ensures Below(all, i, j) {
      if i > 0 {
        assert Below(times, i - 1, j - 1);
      } else {
        assert j > 1 ==> Below(times, 0, j - 1);
      }
    }
  }

  predicate WithinReach(times: seq<real>, started: real, now: real) {
    forall i | 0 <= i < |times| :: started <= times[i] <= now && WindowStart(started, now) - MAX_SAMPLE_GAP_SECONDS <= times[i]
  }

  /** One more valid sample can close the gate: a stale sample in reach before the others keeps
      it open exactly when it lies no more than 180 seconds before the next. */
  lemma StaleSampleCloses(times: seq<real>, stale: real, started: real, now: real)
    requires Increasing(times) && WithinReach(times, started, now) && WithinReach([stale], started, now)
    requires Observed(Stamps(times), started, now) && stale < times[0]
    ensures AllValid(Stamps([stale] + times), started, now)
    ensures Observed(Stamps([stale] + times), started, now) <==> times[0] - stale <= MAX_SAMPLE_GAP_SECONDS
  {
    IncreasingCons(stale, times);
    forall i | 0 <= i < |times| + 1
      ensures started <= ([stale] + times)[i] <= now && WindowStart(started, now) - MAX_SAMPLE_GAP_SECONDS <= ([stale] + times)[i]
    {
      assert [stale][0] == stale;
    }
    WholeWindow(times, started, now);
    WholeWindow([stale] + times, started, now);
    ContinuousCons(stale, times, WindowStart(started, now), now);
  }

  lemma WholeWindow(times: seq<real>, started: real, now: real)
    requires Increasing(times) && WithinReach(times, started, now)
    ensures AllValid(Stamps(times), started, now) && WindowTimes(Stamps(times), started, now) == times
  {
    AllAccepted(times, started, now);
    FromAll(times, WindowStart(started, now) - MAX_SAMPLE_GAP_SECONDS);
  }

  function Steady(first: real, n: nat): (times: seq<real>)
    ensures |times| == n && forall i | 0 <= i < n :: times[i] == first + 120.0 * i as real
  {
    if n == 0 then [] else Steady(first, n - 1) + [first + 120.0 * (n - 1) as real]
  }

  /** A sample every two minutes for n minutes, from one minute into the window. */
  lemma SteadyObserved(n: nat, times: seq<real>)
    requires n == 2160 && times == Steady(1060.0, n)
    ensures Increasing(times) && WithinReach(times, 0.0, 260200.0) && Observed(Stamps(times), 0.0, 260200.0)
  {
    forall i | 0 <= i < n ensures 1060.0 <= times[i] <= 260140.0 {
      assert times[i] == 1060.0 + 120.0 * i as real;
    }
    assert times[n - 1] == 260140.0;
    WholeWindow(times, 0.0, 260200.0);
    forall i | 0 <= i < n - 1 ensures times[i + 1] - times[i] <= MAX_SAMPLE_GAP_SECONDS {
      assert times[i + 1] == 1060.0 + 120.0 * (i + 1) as real;
    }
  }

  lemma NearMore(times: seq<real>, stale: real, t: real)
    requires Near(Stamps(times), t)
    ensures Near(Stamps([stale] + times), t)
  {
    var s: Option<real> :| s in Stamps(times) && s.Some? && t - MAX_SAMPLE_GAP_SECONDS <= s.value <= t + MAX_SAMPLE_GAP_SECONDS;
    var i :| 0 <= i < |times| && Stamps(times)[i] == s;
    assert Stamps([stale] + times)[i + 1] == s;
  }

  /** The gate can be closed although every instant of the window has a sample within 180
      seconds: a sample every two minutes from one minute into the window, and one stale sample
      170 seconds before it. */
  lemma CoveredButRefused() returns (samples: seq<Option<real>>, started: real, now: real)
    ensures !Observed(samples, started, now) && AllValid(samples, started, now)
    ensures forall t | WindowStart(started, now) <= t <= now :: Near(samples, t)
  {
    started, now := 0.0, 260200.0;
    var n: nat := 2160;
    var times, stale := Steady(1060.0, n), 830.0;
    samples := Stamps([stale] + times);
    SteadyObserved(n, times);
    StaleSampleCloses(times, stale, started, now);
    forall t | WindowStart(started, now) <= t <= now ensures Near(samples, t) {
      ObservedCovers(Stamps(times), started, now, t);
      NearMore(times, stale, t);
    }
  }
}
