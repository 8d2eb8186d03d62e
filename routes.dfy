/**
 * The request handlers of the service: the flaky `/unstable` endpoint
 * (its three-way operation, the 1-second `wait_for` bound around it, the
 * retry policy and the mapping of the outcome to an HTTP status), and
 * `/health` with its lazily recorded start time.
 *
 * The random choice of `_unstable_operation` is an input: `choices(k)` is
 * the string chosen on the k-th call. Durations are integer milliseconds.
 */
module Routes {
  import opened Wrappers
  import opened Utils

  /** The JSON body the operation returns on success. */
  datatype Payload = Payload(status: string, detail: string)

  /** One run of the operation: how long it sleeps before finishing, and how it finishes. */
  datatype Run = Run(sleepMs: nat, outcome: Outcome<Payload>)

  const TimeoutMs: nat := 1000     // asyncio.wait_for(..., timeout=1.0)
  const DelayMs: nat := 5000       // asyncio.sleep(5) on the "delay" branch
  const MaxRetries: int := 2       // retry_async(..., max_retries=2, ...)
  const BackoffMs: int := 200      // retry_async(..., backoff_seconds=0.2)

  const Completed := Payload("ok", "operation completed")
  const DelayedCompleted := Payload("ok", "delayed operation completed")
  const TransientFailure := "simulated transient failure"

  /** `_unstable_operation`, with the random choice given. */
  function UnstableOperation(choice: string): Run
  {
    if choice == "success" then Run(0, Ok(Completed))
    else if choice == "exception" then Run(0, Fail(Other, TransientFailure))
    else Run(DelayMs, Ok(DelayedCompleted))
  }

  /**
   * `asyncio.wait_for(run, timeout)`: a run that finishes within the bound
   * propagates its outcome unchanged; one that overruns it is abandoned
   * and becomes a timeout, whose text (`str(TimeoutError())`) is empty.
   */
  function WaitFor(run: Run, timeoutMs: nat): Outcome<Payload>
  {
    if run.sleepMs <= timeoutMs then run.outcome else Fail(Timeout, "")
  }

  /** `timed_action`: the operation bounded by the 1-second timeout. */
  function TimedAction(choice: string): Outcome<Payload>
  {
    WaitFor(UnstableOperation(choice), TimeoutMs)
  }

  /**
   * What one timed attempt yields for each choice: "success" gives the
   * completed payload, "exception" a transient (non-timeout) failure, and
   * every other choice sleeps 5 s, past the 1 s bound, so it times out.
   */
  lemma TimedActionByChoice(choice: string)
    ensures choice == "success" ==> TimedAction(choice) == Ok(Payload("ok", "operation completed"))
    ensures choice == "exception" ==> TimedAction(choice) == Fail(Other, "simulated transient failure")
    ensures choice != "success" && choice != "exception" ==> TimedAction(choice) == Fail(Timeout, "")
    ensures TimedAction(choice).Ok? <==> choice == "success"
  {
  }

  /** The JSON body of an `/unstable` response. */
  datatype Body = PayloadBody(payload: Payload) | Detail(detail: string) | Null

  /** An HTTP response of the service: status code and JSON body. */
  datatype Response = Response(status: nat, body: Body)

  /**
   * The `try`/`except` chain of `unstable`: a returned value is sent with
   * 200; a re-raised timeout is caught first and gives 504; any other
   * re-raised exception gives 500 "internal failure".
   */
  function RespondUnstable(result: RetryResult<Payload>): (r: Response)
    ensures result.Returned? ==> r == Response(200, PayloadBody(result.value))
    ensures result.Raised? ==> (r.status == 504 <==> result.kind == Timeout)
    ensures result.Raised? && result.kind == Timeout ==> r.body == Detail("operation timed out")
    ensures result.Raised? && result.kind == Other ==> r == Response(500, Detail("internal failure"))
  {
    match result
    case Returned(v) => Response(200, PayloadBody(v))
    case Raised(Timeout, _) => Response(504, Detail("operation timed out"))
    case Raised(Other, _) => Response(500, Detail("internal failure"))
    case NoResult => Response(200, Null)
  }

  /** The outcome of each timed call, given the choice made on each call. */
  function TimedActions(choices: nat -> string): nat -> Outcome<Payload>
  {
    (k: nat) => TimedAction(choices(k))
  }

  /** The retry run of one `/unstable` request, given the choices made on its calls. */
  function UnstableTrace(choices: nat -> string): Trace<Payload>
  {
    Retry(TimedActions(choices), MaxRetries, BackoffMs)
  }

  /** `unstable`: the response to one `/unstable` request. */
  function Unstable(choices: nat -> string): Response
  {
    RespondUnstable(UnstableTrace(choices).result)
  }

  /**
   * One `/unstable` request calls the operation between one and three
   * times, never returns `None`, and ends in 200, 504 or 500.
   */
  lemma UnstableAtMostThreeCalls(choices: nat -> string)
    ensures 1 <= UnstableTrace(choices).calls <= 3
    ensures !UnstableTrace(choices).result.NoResult?
    ensures Unstable(choices).status in {200, 504, 500}
  {
  }

  /**
   * The status of `/unstable` is decided by the choices of its three
   * permitted calls: 200 iff one of them is "success"; otherwise 504 iff
   * the third is a delay (it timed out) and 500 iff it is "exception".
   */
  lemma UnstableStatus(choices: nat -> string)
    ensures var r := Unstable(choices);
      && (r.status == 200 <==> exists k :: 1 <= k <= 3 && choices(k) == "success")
      && (r.status == 504 <==> (forall k :: 1 <= k <= 3 ==> choices(k) != "success")
                               && choices(3) != "exception")
      && (r.status == 500 <==> (forall k :: 1 <= k <= 3 ==> choices(k) != "success")
                               && choices(3) == "exception")
  {
  }

  /** A re-raised exception is a timeout iff the third call's choice was not "exception". */
  lemma RaisedKindIsLastChoice(choices: nat -> string)
    requires UnstableTrace(choices).result.Raised?
    ensures UnstableTrace(choices).result.kind == Timeout <==> choices(3) != "exception"
  {
  }

  /** The sleeps of the fixed policy after two failed attempts: 0.2 s, then 0.4 s. */
  lemma PolicyBackoff()
    ensures LinearBackoff(BackoffMs, 1, MaxRetries) == [200, 400]
  {
  }

  /** Forcing "success" on the first call: 200 with status "ok", after exactly one call. */
  lemma ForcedSuccess(choices: nat -> string)
    requires choices(1) == "success"
    ensures Unstable(choices) == Response(200, PayloadBody(Payload("ok", "operation completed")))
    ensures UnstableTrace(choices).calls == 1 && UnstableTrace(choices).sleeps == []
  {
  }

  /**
   * Forcing "exception" on every call: three calls with sleeps of 0.2 s and
   * 0.4 s between them, then 500 "internal failure".
   */
  lemma ForcedException(choices: nat -> string)
    requires forall k :: 1 <= k <= 3 ==> choices(k) == "exception"
    ensures Unstable(choices) == Response(500, Detail("internal failure"))
    ensures UnstableTrace(choices).calls == 3 && UnstableTrace(choices).sleeps == [200, 400]
  {
  }

  /** Forcing "delay" on every call: every attempt times out, so the response is 504. */
  lemma ForcedDelay(choices: nat -> string)
    requires forall k :: 1 <= k <= 3 ==> choices(k) == "delay"
    ensures Unstable(choices) == Response(504, Detail("operation timed out"))
    ensures UnstableTrace(choices).calls == 3
  {
    var action := TimedActions(choices);
    forall k | 1 <= k <= 3 ensures action(k) == Fail(Timeout, "") {
      TimedActionByChoice(choices(k));
    }
    ExhaustionReraisesLast(action, MaxRetries, BackoffMs);
  }

  /** Python's `int(x)` on a float: truncation toward zero. */
  function Trunc(x: real): (n: int)
    ensures x >= 0.0 ==> n >= 0 && n as real <= x < n as real + 1.0
    ensures x < 0.0 ==> n <= 0 && n as real - 1.0 < x <= n as real
  {
    if x >= 0.0 then x.Floor else -((-x).Floor)
  }

  /** `uptime_seconds`: the elapsed time since start, truncated to whole seconds. */
  function Uptime(start: real, now: real): (u: int)
    ensures now >= start ==> u >= 0 && u as real <= now - start < u as real + 1.0
    ensures u < 0 <==> now <= start - 1.0
  {
    Trunc(now - start)
  }

  /** For a fixed start, a later clock reading never gives a smaller uptime. */
  lemma UptimeMonotonic(start: real, now1: real, now2: real)
    requires now1 <= now2
    ensures Uptime(start, now1) <= Uptime(start, now2)
  {
  }

  /** The JSON body of `/health`. */
  datatype Health = Health(status: string, uptimeSeconds: int)

  /** `request.app.state`: the start time is an attribute that may be missing. */
  class AppState {
    var startTime: Option<real>

    constructor (startTime: Option<real>)
      ensures this.startTime == startTime
    {
      this.startTime := startTime;
    }

    /**
     * `health`: records the clock as the start time only when none is
     * recorded (a recorded one is never overwritten), then reports "OK"
     * with the uptime against a second clock reading.
     */
    method HealthCheck(clockAtInit: real, clockNow: real) returns (h: Health)
      modifies this
      ensures startTime == Some(old(startTime).GetOr(clockAtInit))
      ensures h == Health("OK", Uptime(startTime.value, clockNow))
      ensures clockNow >= startTime.value ==> h.uptimeSeconds >= 0
    {
      if startTime.None? {
        startTime := Some(clockAtInit);
      }
      var start := startTime.value;
      h := Health("OK", Uptime(start, clockNow));
    }
  }
}
