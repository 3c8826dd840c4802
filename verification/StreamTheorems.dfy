/** What the client of the streaming proxy is promised, for every upstream. */
module StreamTheorems {
  import opened Common
  import opened SseFraming
  import opened StreamRetry

  lemma BodyFits(a: Attempt, limit: nat)
    ensures Size(Body(a, limit)) <= limit
  {
    if a.Streamed? {
      NonEmptySize(a.chunks[..Accepted(a.chunks, limit, 0)]);
    }
  }

  /** One frame, separated exactly when bytes precede it. */
  predicate FrameOk(o: Out, body: seq<Bytes>) {
    o.ErrorFrame? && o.kind != Exhausted && (o.separated <==> body != [])
  }

  /** Only a complete or a cancelled stream ends without a frame. */
  lemma SilentEnd(a: Attempt, limit: nat)
    requires Tail(a, limit) == [] && !EndsCancelled(a, limit)
    ensures a.Streamed? && a.end.None? && Body(a, limit) == NonEmpty(a.chunks) != []
  {
    assert a.Streamed?;
    assert a.chunks[..|a.chunks|] == a.chunks;
  }

  predicate Framed(output: seq<Out>, body: seq<Bytes>) {
    var n := |output| - 1;
    n >= 0 && output[..n] == Chunks(body) && FrameOk(output[n], body)
  }

  /** An answer to the client: whole chunks of one attempt, in order and within the size limit,
      and at most one error frame behind them. */
  predicate Answer(output: seq<Out>, a: Attempt, limit: nat) {
    var body := Body(a, limit);
    && Size(body) <= limit
    && (output == Chunks(body) || Framed(output, body))
  }

  /** What the client gets from the attempt that is the last. */
  function AnswerOf(a: Attempt, limit: nat): seq<Out> {
    Chunks(Body(a, limit)) + Tail(a, limit)
  }

  lemma TailShape(a: Attempt, limit: nat)
    ensures var tail := Tail(a, limit); tail == [] || (|tail| == 1 && FrameOk(tail[0], Body(a, limit)))
  {
  }

  lemma FramedBehind(body: seq<Bytes>, o: Out)
    requires FrameOk(o, body)
    ensures Framed(Chunks(body) + [o], body)
  {
    var chunks := Chunks(body);
    var output, n := chunks + [o], |chunks|;
    assert |output| - 1 == n && output[n] == o;
    assert output[..n] == chunks;
  }

  lemma AttemptAnswers(a: Attempt, limit: nat)
    ensures Answer(AnswerOf(a, limit), a, limit)
  {
    BodyFits(a, limit);
    TailShape(a, limit);
    var body, tail := Body(a, limit), Tail(a, limit);
    if tail == [] {
      assert Chunks(body) + tail == Chunks(body);
    } else {
      assert tail == [tail[0]];
      FramedBehind(body, tail[0]);
    }
  }

  lemma SilentAnswer(a: Attempt, limit: nat)
    requires AnswerOf(a, limit) == Chunks(Body(a, limit)) && !EndsCancelled(a, limit)
    ensures a.Streamed? && a.end.None? && AnswerOf(a, limit) == Chunks(NonEmpty(a.chunks)) != []
  {
    var body, tail := Chunks(Body(a, limit)), Tail(a, limit);
    assert |body + tail| == |body| + |tail|;
    SilentEnd(a, limit);
  }

  /** The loop ended with the answer of its last attempt, or in the cancelled pause behind it. */
  predicate EndsWith(served: Served, u: Upstream, limit: nat) {
    || (served.output == [] && served.cancelled && u.sleepCancelled)
    || (served.output == AnswerOf(u.attempt, limit) && served.cancelled == EndsCancelled(u.attempt, limit))
  }

  function Last(script: nat -> Upstream, served: Served): Upstream
    requires served.requests > 0
  {
    script(served.requests - 1)
  }

  lemma FinalAttempt(script: nat -> Upstream, retries: nat, limit: nat, k: nat)
    requires k <= retries && !(Retryable(script(k).attempt, limit) && k < retries)
    ensures var served := Serve(script, retries, limit, k);
      served.requests == k + 1 && EndsWith(served, script(k), limit)
  {
  }

  /** Every run of the loop ends with its last attempt. */
  lemma {:induction false} LastAttemptAnswers(script: nat -> Upstream, retries: nat, limit: nat, k: nat)
    requires k <= retries
    ensures var served := Serve(script, retries, limit, k); EndsWith(served, Last(script, served), limit)
    decreases retries - k
  {
    var u := script(k);
    if !(Retryable(u.attempt, limit) && k < retries) {
      FinalAttempt(script, retries, limit, k);
    } else if u.sleepCancelled {
      assert Serve(script, retries, limit, k) == Served([], k + 1, true);
    } else {
      LastAttemptAnswers(script, retries, limit, k + 1);
      assert Serve(script, retries, limit, k) == Serve(script, retries, limit, k + 1);
    }
  }

  lemma EndsInAnswer(served: Served, u: Upstream, limit: nat)
    requires EndsWith(served, u, limit)
    ensures Answer(served.output, u.attempt, limit) || (served.output == [] && served.cancelled)
    ensures !served.cancelled && served.output == Chunks(Body(u.attempt, limit)) ==>
      u.attempt.Streamed? && u.attempt.end.None? && served.output == Chunks(NonEmpty(u.attempt.chunks)) != []
  {
    AttemptAnswers(u.attempt, limit);
    if !served.cancelled && served.output == Chunks(Body(u.attempt, limit)) {
      SilentAnswer(u.attempt, limit);
    }
  }

  /** The output answers with the last attempt made, or with nothing when a pause is cancelled. */
  lemma OutputShape(script: nat -> Upstream, retries: nat, limit: nat, k: nat)
    requires k <= retries
    ensures var served := Serve(script, retries, limit, k);
      Answer(served.output, Last(script, served).attempt, limit) || (served.output == [] && served.cancelled)
  {
    var served := Serve(script, retries, limit, k);
    LastAttemptAnswers(script, retries, limit, k);
    EndsInAnswer(served, Last(script, served), limit);
  }

  /** Unless cancelled, an output without an error frame is one whole stream. */
  lemma SilentOutput(script: nat -> Upstream, retries: nat, limit: nat, k: nat)
    requires k <= retries
    ensures var served := Serve(script, retries, limit, k);
      var last := Last(script, served).attempt;
      served.cancelled || served.output != Chunks(Body(last, limit)) ||
      (last.Streamed? && last.end.None? && served.output == Chunks(NonEmpty(last.chunks)) != [])
  {
    var served := Serve(script, retries, limit, k);
    LastAttemptAnswers(script, retries, limit, k);
    EndsInAnswer(served, Last(script, served), limit);
  }

  /** The body is a prefix of the attempt's non-empty chunks. */
  lemma {:induction false} BodyIsPrefix(chunks: seq<Bytes>, n: nat)
    requires n <= |chunks|
    ensures NonEmpty(chunks[..n]) <= NonEmpty(chunks)
  {
    if n < |chunks| {
      var m := |chunks| - 1;
      BodyIsPrefix(chunks[..m], n);
      assert chunks[..m][..n] == chunks[..n];
    } else {
      assert chunks[..n] == chunks;
    }
  }

  // ----- which attempts are repeated -----

  lemma {:induction false} SizeOfPrefix(chunks: seq<Bytes>, n: nat)
    requires n <= |chunks|
    ensures Size(chunks[..n]) <= Size(chunks)
  {
    if n == |chunks| {
      assert chunks[..n] == chunks;
    } else {
      var m := |chunks| - 1;
      assert chunks[..m][..n] == chunks[..n];
      SizeOfPrefix(chunks[..m], n);
    }
  }

  /** The chunks taken are the longest beginning within the limit. */
  lemma AcceptedIsLongest(chunks: seq<Bytes>, limit: nat, k: nat)
    requires k <= |chunks|
    ensures Size(chunks[..k]) <= limit <==> k <= Accepted(chunks, limit, 0)
  {
    var n := Accepted(chunks, limit, 0);
    if k <= n {
      assert chunks[..n][..k] == chunks[..k];
      SizeOfPrefix(chunks[..n], k);
    } else {
      assert chunks[..k][..n + 1] == chunks[..n + 1];
      SizeOfPrefix(chunks[..k], n + 1);
    }
  }

  lemma OverflowsIff(chunks: seq<Bytes>, limit: nat)
    ensures Overflows(chunks, limit) <==> Size(chunks) > limit
  {
    AcceptedIsLongest(chunks, limit, |chunks|);
    assert chunks[..|chunks|] == chunks;
  }

  lemma DeliveredAll(chunks: seq<Bytes>, limit: nat)
    requires Size(chunks) <= limit
    ensures Delivered(chunks, limit) == NonEmpty(chunks) && (Delivered(chunks, limit) == [] <==> Size(chunks) == 0)
  {
    OverflowsIff(chunks, limit);
    NonEmptySize(chunks);
    assert chunks[..Accepted(chunks, limit, 0)] == chunks;
  }

  /** A connection or a body that broke off for want of the network. */
  predicate Broke(end: Option<Fault>) {
    end == Some(Timeout) || end == Some(Transport)
  }

  /** The attempts that may be repeated, in terms of what the upstream did: it was not reached,
      answered with a server error, broke off in an error body that is not too large, or
      streamed no byte at all. */
  predicate FailedSilently(a: Attempt, limit: nat) {
    match a
    case Unopened(fault) => Broke(Some(fault))
    case Refused(status, body, end) => Size(body) <= limit && (Broke(end) || (end.None? && status >= 500))
    case Streamed(chunks, end) => Size(chunks) == 0 && (Broke(end) || end.None?)
  }

  lemma RetryableIff(a: Attempt, limit: nat)
    ensures Retryable(a, limit) <==> FailedSilently(a, limit)
  {
    match a
    case Unopened(fault) =>
    case Refused(status, body, end) => OverflowsIff(body, limit);
    case Streamed(chunks, end) =>
      OverflowsIff(chunks, limit);
      if Size(chunks) <= limit {
        DeliveredAll(chunks, limit);
      }
  }

  /** Attempt j is followed by another request. */
  predicate Repeats(script: nat -> Upstream, limit: nat, j: nat) {
    FailedSilently(script(j).attempt, limit) && !script(j).sleepCancelled
  }

  lemma {:induction false} RepeatedFrom(script: nat -> Upstream, retries: nat, limit: nat, k: nat, j: nat)
    requires k <= j <= retries
    ensures j < Serve(script, retries, limit, k).requests - 1 <==>
      j < retries && forall i: nat | k <= i <= j :: Repeats(script, limit, i)
    decreases retries - k
  {
    RetryableIff(script(k).attempt, limit);
    if k < retries && Repeats(script, limit, k) {
      if k < j {
        RepeatedFrom(script, retries, limit, k + 1, j);
      } else {
        assert Serve(script, retries, limit, k).requests == Serve(script, retries, limit, k + 1).requests;
      }
    } else {
      assert Serve(script, retries, limit, k).requests == k + 1;
      assert k < retries ==> !Repeats(script, limit, k);
    }
  }

  /** Attempt j is followed by another request exactly when a retry is left and every attempt up
      to it failed without a byte, of the network or of the server, and was paused behind in
      peace. No client error, no attempt that delivered a byte and no oversized body is repeated. */
  lemma RepeatedIff(script: nat -> Upstream, retries: nat, limit: nat, j: nat)
    requires j <= retries
    ensures j < Serve(script, retries, limit, 0).requests - 1 <==>
      j < retries && forall i: nat | 0 <= i <= j :: Repeats(script, limit, i)
  {
    RepeatedFrom(script, retries, limit, 0, j);
  }

  /** At most one request beyond the retries, and none after the first delivered byte. */
  lemma NoReplay(script: nat -> Upstream, retries: nat, limit: nat, j: nat)
    requires j < Serve(script, retries, limit, 0).requests - 1
    ensures j < retries && FailedSilently(script(j).attempt, limit) && Body(script(j).attempt, limit) == []
  {
    RepeatedIff(script, retries, limit, j);
    assert Repeats(script, limit, j);
    RetryableIff(script(j).attempt, limit);
  }

  // ----- what the client is told -----

  /** The size the limit bounds, and how the last attempt ended. */
  function SizeOf(a: Attempt): nat {
    match a
    case Unopened(_) => 0
    case Refused(_, body, _) => Size(body)
    case Streamed(chunks, _) => Size(chunks)
  }

  function EndOf(a: Attempt): Option<Fault> {
    match a
    case Unopened(fault) => Some(fault)
    case Refused(_, _, end) => end
    case Streamed(_, end) => end
  }

  /** What an error frame says of the attempt it reports. */
  predicate Explains(kind: ErrorKind, a: Attempt, limit: nat) {
    match kind
    case TooLarge => SizeOf(a) > limit
    case TimedOut => SizeOf(a) <= limit && EndOf(a) == Some(Timeout)
    case ProxyFault => SizeOf(a) <= limit && (EndOf(a) == Some(Transport) || EndOf(a) == Some(Other))
    case UpstreamStatus(status) => SizeOf(a) <= limit && EndOf(a) == None && a.Refused? && a.status == status
    case NoData => SizeOf(a) == 0 && EndOf(a) == None && a.Streamed?
    case Exhausted => false
  }

  /** The attempt ended well: the whole stream was delivered, and was not empty. */
  predicate Succeeds(a: Attempt, limit: nat) {
    a.Streamed? && a.end.None? && 0 < Size(a.chunks) <= limit
  }

  /** The frame of an attempt, if any, explains it; without one it succeeded or was cancelled. */
  predicate Truthful(tail: seq<Out>, a: Attempt, limit: nat) {
    if tail == [] then Succeeds(a, limit) || EndsCancelled(a, limit)
    else |tail| == 1 && tail[0].ErrorFrame? && Explains(tail[0].kind, a, limit) && !EndsCancelled(a, limit)
  }

  lemma OversizeTellsWhy(chunks: seq<Bytes>, end: Option<Fault>, limit: nat)
    requires Size(chunks) > limit
    ensures Truthful(Tail(Streamed(chunks, end), limit), Streamed(chunks, end), limit)
  {
    OverflowsIff(chunks, limit);
  }

  lemma StreamTellsWhy(chunks: seq<Bytes>, end: Option<Fault>, limit: nat)
    ensures Truthful(Tail(Streamed(chunks, end), limit), Streamed(chunks, end), limit)
  {
    if Size(chunks) > limit {
      OversizeTellsWhy(chunks, end, limit);
    } else {
      OverflowsIff(chunks, limit);
      DeliveredAll(chunks, limit);
    }
  }

  lemma RefusalTellsWhy(status: nat, body: seq<Bytes>, end: Option<Fault>, limit: nat)
    ensures Truthful(Tail(Refused(status, body, end), limit), Refused(status, body, end), limit)
  {
    OverflowsIff(body, limit);
  }

  lemma TailTellsWhy(a: Attempt, limit: nat)
    ensures Truthful(Tail(a, limit), a, limit)
  {
    match a
    case Unopened(fault) =>
    case Refused(status, body, end) => RefusalTellsWhy(status, body, end, limit);
    case Streamed(chunks, end) => StreamTellsWhy(chunks, end, limit);
  }

  lemma CancelledIff(a: Attempt, limit: nat)
    ensures EndsCancelled(a, limit) <==> SizeOf(a) <= limit && EndOf(a) == Some(Cancelled)
  {
    match a
    case Unopened(fault) =>
    case Refused(status, body, end) => OverflowsIff(body, limit);
    case Streamed(chunks, end) => OverflowsIff(chunks, limit);
  }

  /** The client is told the truth: behind what it got there is an error frame that explains the
      last attempt, or none because that attempt succeeded or was cancelled. */
  predicate Told(served: Served, a: Attempt, limit: nat) {
    var n := |Chunks(Body(a, limit))|;
    && n <= |served.output| <= n + 1 && served.output[..n] == Chunks(Body(a, limit))
    && (served.cancelled <==> SizeOf(a) <= limit && EndOf(a) == Some(Cancelled))
    && if |served.output| == n then Succeeds(a, limit) || served.cancelled
       else served.output[n].ErrorFrame? && Explains(served.output[n].kind, a, limit)
  }

  lemma AnswerTells(a: Attempt, limit: nat, served: Served)
    requires served.output == AnswerOf(a, limit) && served.cancelled == EndsCancelled(a, limit)
    ensures Told(served, a, limit)
  {
    TailTellsWhy(a, limit);
    CancelledIff(a, limit);
    var chunks, tail := Chunks(Body(a, limit)), Tail(a, limit);
    assert served.output == chunks + tail;
    assert served.output[..|chunks|] == chunks;
  }

  /** Every run tells the client how its last attempt ended, unless the pause behind that
      attempt was cancelled. */
  lemma ClientIsTold(script: nat -> Upstream, retries: nat, limit: nat, k: nat)
    requires k <= retries
    ensures var served := Serve(script, retries, limit, k);
      Told(served, Last(script, served).attempt, limit) ||
      (served.output == [] && served.cancelled && Last(script, served).sleepCancelled)
  {
    var served := Serve(script, retries, limit, k);
    LastAttemptAnswers(script, retries, limit, k);
    var a := Last(script, served).attempt;
    if served.output == AnswerOf(a, limit) && served.cancelled == EndsCancelled(a, limit) {
      AnswerTells(a, limit, served);
    }
  }

  // ----- which bytes are delivered -----

  function Flat(chunks: seq<Bytes>): Bytes {
    if chunks == [] then [] else Flat(chunks[..|chunks| - 1]) + chunks[|chunks| - 1]
  }

  lemma {:induction false} FlatNonEmpty(chunks: seq<Bytes>)
    ensures Flat(NonEmpty(chunks)) == Flat(chunks) && Size(chunks) == |Flat(chunks)|
  {
    if chunks == [] {
    } else {
      var n := |chunks| - 1;
      var kept := NonEmpty(chunks[..n]);
      FlatNonEmpty(chunks[..n]);
      if chunks[n] == [] {
        assert kept + [] == kept && Flat(chunks[..n]) + [] == Flat(chunks[..n]);
      } else {
        assert (kept + [chunks[n]])[..|kept|] == kept;
      }
    }
  }

  lemma {:induction false} FlatPrefix(chunks: seq<Bytes>, n: nat)
    requires n <= |chunks|
    ensures Flat(chunks[..n]) <= Flat(chunks)
  {
    if n == |chunks| {
      assert chunks[..n] == chunks;
    } else {
      var m := |chunks| - 1;
      assert chunks[..m][..n] == chunks[..n];
      FlatPrefix(chunks[..m], n);
    }
  }

  /** The bytes delivered are a beginning of the bytes that arrived, all of them when they fit. */
  lemma BytesInOrder(chunks: seq<Bytes>, limit: nat)
    ensures var bytes := Flat(Delivered(chunks, limit));
      bytes <= Flat(chunks) && |bytes| <= limit && (bytes == Flat(chunks) <== |Flat(chunks)| <= limit)
  {
    var n := Accepted(chunks, limit, 0);
    FlatNonEmpty(chunks[..n]);
    FlatNonEmpty(chunks);
    FlatPrefix(chunks, n);
    if |Flat(chunks)| <= limit {
      DeliveredAll(chunks, limit);
    }
  }
}
