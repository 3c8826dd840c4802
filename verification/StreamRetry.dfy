/**
 The streaming proxy of norax/gateway_proxy.py (`_stream_response.generate`): forward upstream
 bytes at once, retry only while nothing has been delivered. The upstream is adversarial; a
 response that closes is assumed to close without failing.
 */
module StreamRetry {
  import opened Common
  import opened SseFraming

  datatype Fault = Timeout | Transport | Cancelled | Other

  /** What one request meets: it cannot be opened, it answers with an error status and a body,
      or it streams chunks; either body may end in a fault. */
  datatype Attempt =
    | Unopened(fault: Fault)
    | Refused(status: nat, body: seq<Bytes>, end: Option<Fault>)
    | Streamed(chunks: seq<Bytes>, end: Option<Fault>)

  /** `sleepCancelled` says whether the pause before a retry is cancelled. */
  datatype Upstream = Upstream(attempt: Attempt, sleepCancelled: bool)

  datatype ErrorKind = UpstreamStatus(status: nat) | TooLarge | NoData | TimedOut | ProxyFault | Exhausted

  datatype Out = Chunk(bytes: Bytes) | ErrorFrame(separated: bool, kind: ErrorKind)

  /** What the client sees, how many requests were made, and whether the end was a cancellation. */
  datatype Served = Served(output: seq<Out>, requests: nat, cancelled: bool)

  function Size(chunks: seq<Bytes>): nat {
    if chunks == [] then 0 else Size(chunks[..|chunks| - 1]) + |chunks[|chunks| - 1]|
  }

  function NonEmpty(chunks: seq<Bytes>): seq<Bytes> {
    if chunks == [] then []
    else
      var n := |chunks| - 1;
      NonEmpty(chunks[..n]) + if chunks[n] == [] then [] else [chunks[n]]
  }

  /** How many chunks arrive before the one that exceeds the limit, or all of them. */
  function Accepted(chunks: seq<Bytes>, limit: nat, from: nat): (n: nat)
    requires from <= |chunks| && Size(chunks[..from]) <= limit
    ensures from <= n <= |chunks| && Size(chunks[..n]) <= limit
    ensures n < |chunks| ==> Size(chunks[..n + 1]) > limit
    decreases |chunks| - from
  {
    if from == |chunks| || Size(chunks[..from + 1]) > limit then from else Accepted(chunks, limit, from + 1)
  }

  function Delivered(chunks: seq<Bytes>, limit: nat): seq<Bytes> {
    NonEmpty(chunks[..Accepted(chunks, limit, 0)])
  }

  predicate Overflows(chunks: seq<Bytes>, limit: nat) {
    Accepted(chunks, limit, 0) < |chunks|
  }

  predicate Transient(fault: Fault) {
    fault.Timeout? || fault.Transport?
  }

  /** Whether the attempt may be repeated: a transient failure that delivered nothing. */
  predicate Retryable(a: Attempt, limit: nat) {
    match a
    case Unopened(fault) => Transient(fault)
    case Refused(status, body, end) =>
      !Overflows(body, limit) && if end.None? then status >= 500 else Transient(end.value)
    case Streamed(chunks, end) =>
      !Overflows(chunks, limit) && Delivered(chunks, limit) == [] && (end.None? || Transient(end.value))
  }

  function FaultFrame(fault: Fault, separated: bool): seq<Out> {
    match fault
    case Timeout => [ErrorFrame(separated, TimedOut)]
    case Cancelled => []
    case _ => [ErrorFrame(separated, ProxyFault)]
  }

  function Chunks(bytes: seq<Bytes>): (out: seq<Out>)
    ensures |out| == |bytes| && forall i | 0 <= i < |bytes| :: out[i] == Chunk(bytes[i])
  {
    seq(|bytes|, i requires 0 <= i < |bytes| => Chunk(bytes[i]))
  }

  /** The frame, if any, behind what an attempt delivers when it is the last one. */
  function Tail(a: Attempt, limit: nat): seq<Out> {
    match a
    case Unopened(fault) => FaultFrame(fault, false)
    case Refused(status, body, end) =>
      if Overflows(body, limit) then [ErrorFrame(false, TooLarge)]
      else if end.Some? then FaultFrame(end.value, false)
      else [ErrorFrame(false, UpstreamStatus(status))]
    case Streamed(chunks, end) =>
      var sent := Delivered(chunks, limit) != [];
      if Overflows(chunks, limit) then [ErrorFrame(sent, TooLarge)]
      else if end.Some? then FaultFrame(end.value, sent)
      else if sent then []
      else [ErrorFrame(false, NoData)]
  }

  function Body(a: Attempt, limit: nat): seq<Bytes> {
    if a.Streamed? then Delivered(a.chunks, limit) else []
  }

  predicate EndsCancelled(a: Attempt, limit: nat) {
    match a
    case Unopened(fault) => fault.Cancelled?
    case Refused(_, body, end) => !Overflows(body, limit) && end == Some(Cancelled)
    case Streamed(chunks, end) => !Overflows(chunks, limit) && end == Some(Cancelled)
  }

  /** The proxy from attempt k on: retry while allowed, then answer with that attempt alone. */
  function Serve(script: nat -> Upstream, retries: nat, limit: nat, k: nat): (served: Served)
    requires k <= retries
    ensures k + 1 <= served.requests <= retries + 1
    decreases retries - k
  {
    var u := script(k);
    if Retryable(u.attempt, limit) && k < retries then
      if u.sleepCancelled then Served([], k + 1, true) else Serve(script, retries, limit, k + 1)
    else
      Served(Chunks(Body(u.attempt, limit)) + Tail(u.attempt, limit), k + 1, EndsCancelled(u.attempt, limit))
  }

  // ----- the loop -----

  lemma {:induction false} NonEmptySize(chunks: seq<Bytes>)
    ensures Size(NonEmpty(chunks)) == Size(chunks)
    ensures NonEmpty(chunks) == [] <==> Size(chunks) == 0
    ensures forall c | c in NonEmpty(chunks) :: c != []
  {
    if chunks == [] {
    } else {
      var n := |chunks| - 1;
      NonEmptySize(chunks[..n]);
      if chunks[n] != [] {
        assert (NonEmpty(chunks[..n]) + [chunks[n]])[..|NonEmpty(chunks[..n])|] == NonEmpty(chunks[..n]);
      } else {
        assert NonEmpty(chunks[..n]) + [] == NonEmpty(chunks[..n]);
      }
    }
  }

  /** `_read_response_body`: false is the too-large error. */
  method ReadBody(body: seq<Bytes>, limit: nat) returns (ok: bool)
    ensures ok == !Overflows(body, limit)
  {
    var size := 0;
    assert body[..0] == [];
    for i := 0 to |body|
      invariant size == Size(body[..i]) <= limit
      invariant Accepted(body, limit, 0) == Accepted(body, limit, i)
    {
      assert body[..i + 1][..i] == body[..i];
      size := size + |body[i]|;
      if size > limit {
        return false;
      }
    }
    return true;
  }

  /** The inner loop of one streaming attempt; `fits` is false at the chunk that exceeds the limit. */
  method Forward(chunks: seq<Bytes>, limit: nat) returns (output: seq<Out>, attemptBytes: nat, fits: bool)
    ensures output == Chunks(Delivered(chunks, limit))
    ensures fits == !Overflows(chunks, limit)
    ensures fits ==> (attemptBytes == 0 <==> Delivered(chunks, limit) == [])
  {
    output, attemptBytes := [], 0;
    assert chunks[..0] == [];
    for i := 0 to |chunks|
      invariant attemptBytes == Size(chunks[..i]) <= limit
      invariant Accepted(chunks, limit, 0) == Accepted(chunks, limit, i)
      invariant output == Chunks(NonEmpty(chunks[..i]))
    {
      assert chunks[..i + 1][..i] == chunks[..i];
      var chunk := chunks[i];
      ghost var sent := NonEmpty(chunks[..i]);
      if chunk != [] {
        attemptBytes := attemptBytes + |chunk|;
        if attemptBytes > limit {
          return output, attemptBytes, false;
        }
        output := output + [Chunk(chunk)];
        assert Chunks(sent + [chunk]) == Chunks(sent) + [Chunk(chunk)];
      } else {
        assert sent + [] == sent;
      }
    }
    NonEmptySize(chunks[..|chunks|]);
    fits := true;
  }

  /** How one pass of the retry loop ends. */
  datatype Pass = Again | Stop(output: seq<Out>, cancelled: bool)

  /** An exception that reaches the handlers, with `bytes_sent` bytes delivered so far. */
  method Handle(fault: Fault, output: seq<Out>, anySent: bool, mayRetry: bool) returns (pass: Pass)
    ensures pass == if Transient(fault) && !anySent && mayRetry then Again
      else Stop(output + FaultFrame(fault, anySent), fault.Cancelled?)
  {
    match fault {
      case Cancelled =>
        assert output + [] == output;
        return Stop(output, true);
      case Timeout =>
        if !anySent && mayRetry {
          return Again;
        }
        return Stop(output + [ErrorFrame(anySent, TimedOut)], false);
      case Transport =>
        if !anySent && mayRetry {
          return Again;
        }
        return Stop(output + [ErrorFrame(anySent, ProxyFault)], false);
      case Other =>
        return Stop(output + [ErrorFrame(anySent, ProxyFault)], false);
    }
  }

  method RunAttempt(a: Attempt, limit: nat, mayRetry: bool) returns (pass: Pass)
    ensures pass == if Retryable(a, limit) && mayRetry then Again
      else Stop(Chunks(Body(a, limit)) + Tail(a, limit), EndsCancelled(a, limit))
  {
    match a {
      case Unopened(fault) =>
        pass := Handle(fault, [], false, mayRetry);
      case Refused(status, body, end) =>
        var ok := ReadBody(body, limit);
        if !ok {
          return Stop([ErrorFrame(false, TooLarge)], false);
        }
        if end.Some? {
          pass := Handle(end.value, [], false, mayRetry);
          return;
        }
        if status >= 500 && mayRetry {
          return Again;
        }
        return Stop([ErrorFrame(false, UpstreamStatus(status))], false);
      case Streamed(chunks, end) =>
        pass := RunStream(chunks, end, limit, mayRetry);
    }
  }

  method RunStream(chunks: seq<Bytes>, end: Option<Fault>, limit: nat, mayRetry: bool) returns (pass: Pass)
    ensures var a := Streamed(chunks, end);
      pass == if Retryable(a, limit) && mayRetry then Again
      else Stop(Chunks(Body(a, limit)) + Tail(a, limit), EndsCancelled(a, limit))
  {
    var output, attemptBytes, fits := Forward(chunks, limit);
    ghost var sent := Delivered(chunks, limit);
    if !fits {
      return Stop(output + [ErrorFrame(output != [], TooLarge)], false);
    }
    if end.Some? {
      pass := Handle(end.value, output, output != [], mayRetry);
      return;
    }
    if attemptBytes == 0 {
      if mayRetry {
        return Again;
      }
      return Stop(output + [ErrorFrame(false, NoData)], false);
    }
    assert Chunks(sent) + [] == output;
    return Stop(output, false);
  }

  /** `generate`. The frame after the loop is unreachable. */
  method Generate(script: nat -> Upstream, retries: nat, limit: nat) returns (served: Served)
    ensures served == Serve(script, retries, limit, 0)
  {
    served := Served([ErrorFrame(false, Exhausted)], retries + 1, false);
    var attempt := 0;
    while attempt < retries + 1
      invariant attempt <= retries && Serve(script, retries, limit, 0) == Serve(script, retries, limit, attempt)
      decreases retries - attempt
    {
      var u := script(attempt);
      var pass := RunAttempt(u.attempt, limit, attempt < retries);
      if pass.Stop? {
        return Served(pass.output, attempt + 1, pass.cancelled);
      }
      if u.sleepCancelled {
        return Served([], attempt + 1, true);
      }
      attempt := attempt + 1;
    }
    assert false;
  }
}
