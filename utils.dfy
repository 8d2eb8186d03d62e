/**
 * The helpers of the service: the bounded retry executor `retry_async`
 * and the doubling `process_value`.
 *
 * The awaited action is an oracle: `action(k)` is what the k-th call
 * (1-based) of the action produces. Sleeps are not performed; their
 * durations (integer milliseconds) are recorded in order, and so are the
 * log entries the executor writes.
 */
module Utils {
  import opened Wrappers
  import opened Logger

  /** How a failed attempt failed: `asyncio.TimeoutError` or any other exception. */
  datatype FailKind = Timeout | Other

  /** The outcome of one awaited call of the action. */
  datatype Outcome<T> = Ok(payload: T) | Fail(kind: FailKind, reason: string)

  /**
   * The logging calls the executor makes, with the attempt number and
   * exception text it passes in their `extra` fields. What reaches the
   * written line is given by `WrittenEntry`: the attempt number does not.
   */
  datatype LogEvent =
    | AttemptLogged(attempt: nat)                 // info "retry attempt", message "attempt=k"
    | FailureLogged(attempt: nat, reason: string) // warning "retry failure", error_reason str(exc)
    | ExhaustedLogged(reason: string)             // error "max retries reached"

  /** What a call of the executor ends with. */
  datatype RetryResult<T> =
    | Returned(value: T)                     // the first successful attempt's value
    | Raised(kind: FailKind, reason: string) // the last attempt's exception, re-raised
    | NoResult                               // the loop never ran: the coroutine returns None

  /** The result of the executor together with what it did on the way. */
  datatype Trace<T> = Trace(result: RetryResult<T>, calls: nat, sleeps: seq<int>, log: seq<LogEvent>)

  /** The executor's behaviour from attempt `attempt` on: the specification of `RetryAsync`. */
  function RetryFrom<T>(action: nat -> Outcome<T>, maxRetries: int, backoffMs: int, attempt: nat): Trace<T>
    requires attempt >= 1
    decreases if attempt <= maxRetries + 1 then maxRetries + 2 - attempt else 0
  {
    if attempt > maxRetries + 1 then Trace(NoResult, 0, [], [])
    else
      match action(attempt)
      case Ok(v) => Trace(Returned(v), 1, [], [AttemptLogged(attempt)])
      case Fail(kind, reason) =>
        if attempt <= maxRetries then
          var rest := RetryFrom(action, maxRetries, backoffMs, attempt + 1);
          Trace(rest.result, 1 + rest.calls, [backoffMs * attempt] + rest.sleeps,
                [AttemptLogged(attempt), FailureLogged(attempt, reason)] + rest.log)
        else
          Trace(Raised(kind, reason), 1, [],
                [AttemptLogged(attempt), FailureLogged(attempt, reason), ExhaustedLogged(reason)])
  }

  /** A whole call of the executor: attempts 1 .. maxRetries + 1. */
  function Retry<T>(action: nat -> Outcome<T>, maxRetries: int, backoffMs: int): Trace<T>
  {
    RetryFrom(action, maxRetries, backoffMs, 1)
  }

  /** `t` with `calls` calls, `sleeps` and `log` done before it. */
  function After<T>(calls: nat, sleeps: seq<int>, log: seq<LogEvent>, t: Trace<T>): Trace<T>
  {
    Trace(t.result, calls + t.calls, sleeps + t.sleeps, log + t.log)
  }

  /**
   * The executor itself: a loop over attempts 1 .. maxRetries + 1 that
   * returns the first success, sleeps `backoffMs * attempt` after a failed
   * attempt that is not the last, and re-raises the last failure.
   */
  method RetryAsync<T>(action: nat -> Outcome<T>, maxRetries: int, backoffMs: int) returns (t: Trace<T>)
    ensures t == Retry(action, maxRetries, backoffMs)
  {
    var calls: nat, sleeps: seq<int>, log: seq<LogEvent> := 0, [], [];
    var attempt: nat := 1;
    while attempt <= maxRetries + 1
      invariant 1 <= attempt && calls == attempt - 1
      invariant Retry(action, maxRetries, backoffMs) == After(calls, sleeps, log, RetryFrom(action, maxRetries, backoffMs, attempt))
      decreases maxRetries + 2 - attempt
    {
      ghost var here := RetryFrom(action, maxRetries, backoffMs, attempt);
      log := log + [AttemptLogged(attempt)];
      var outcome := action(attempt);
      calls := calls + 1;
      if outcome.Ok? {
        assert here == Trace(Returned(outcome.payload), 1, [], [AttemptLogged(attempt)]);
        return Trace(Returned(outcome.payload), calls, sleeps, log);
      }
      log := log + [FailureLogged(attempt, outcome.reason)];
      if attempt > maxRetries {
        log := log + [ExhaustedLogged(outcome.reason)];
        return Trace(Raised(outcome.kind, outcome.reason), calls, sleeps, log);
      }
      ghost var next := RetryFrom(action, maxRetries, backoffMs, attempt + 1);
      assert here.sleeps == [backoffMs * attempt] + next.sleeps;
      assert here.log == [AttemptLogged(attempt), FailureLogged(attempt, outcome.reason)] + next.log;
      sleeps := sleeps + [backoffMs * attempt];
      attempt := attempt + 1;
    }
    t := Trace(NoResult, calls, sleeps, log);
  }

  /** Durations `backoffMs * first`, `backoffMs * (first + 1)`, ... : `n` linearly growing sleeps. */
  function LinearBackoff(backoffMs: int, first: nat, n: nat): (s: seq<int>)
    ensures |s| == n && forall i :: 0 <= i < n ==> s[i] == backoffMs * (first + i)
  {
    seq(n, i requires 0 <= i < n => backoffMs * (first + i))
  }

  /** The sum of a sequence of durations. */
  function Sum(s: seq<int>): int
  {
    if s == [] then 0 else Sum(s[..|s| - 1]) + s[|s| - 1]
  }

  /** The attempt numbers announced by the "retry attempt" entries of `log`, in order. */
  function Attempts(log: seq<LogEvent>): seq<nat>
  {
    if log == [] then []
    else (if log[0].AttemptLogged? then [log[0].attempt] else []) + Attempts(log[1..])
  }

  /** The attempt numbers named by the "retry failure" entries of `log`, in order. */
  function Failures(log: seq<LogEvent>): seq<nat>
  {
    if log == [] then []
    else (if log[0].FailureLogged? then [log[0].attempt] else []) + Failures(log[1..])
  }

  /** How many "max retries reached" entries `log` holds. */
  function Exhaustions(log: seq<LogEvent>): nat
  {
    if log == [] then 0 else (if log[0].ExhaustedLogged? then 1 else 0) + Exhaustions(log[1..])
  }

  /** The attempt numbers `first`, `first + 1`, ..., `first + n - 1`. */
  function Consecutive(first: nat, n: nat): (s: seq<nat>)
    ensures |s| == n && forall i :: 0 <= i < n ==> s[i] == first + i
  {
    seq(n, i requires 0 <= i < n => first + i)
  }

  /**
   * The entries of the failed attempts `a`, ..., `a + n - 1`, in order: each
   * attempt is announced, then its failure is logged with its exception's text.
   */
  function FailedEntries<T>(action: nat -> Outcome<T>, a: nat, n: nat): seq<LogEvent>
    requires forall j :: a <= j < a + n ==> action(j).Fail?
    decreases n
  {
    if n == 0 then [] else [AttemptLogged(a), FailureLogged(a, action(a).reason)] + FailedEntries(action, a + 1, n - 1)
  }

  lemma {:induction false} LogConcat(x: seq<LogEvent>, y: seq<LogEvent>)
    ensures Attempts(x + y) == Attempts(x) + Attempts(y)
    ensures Failures(x + y) == Failures(x) + Failures(y)
    ensures Exhaustions(x + y) == Exhaustions(x) + Exhaustions(y)
  {
    if x != [] {
      assert (x + y)[1..] == x[1..] + y;
      LogConcat(x[1..], y);
    } else {
      assert x + y == y;
    }
  }

  /**
   * From any attempt `a` that is still permitted: at least one and at most
   * `maxRetries + 2 - a` calls are made, each failed call but the last is
   * followed by one sleep of `backoffMs` times its attempt number, a value
   * is returned only from a successful call after failed ones, and an
   * exception is raised only by the last permitted attempt.
   */
  lemma {:induction false} RetryFromShape<T>(action: nat -> Outcome<T>, maxRetries: int, backoffMs: int, a: nat)
    requires 1 <= a <= maxRetries + 1
    ensures var t := RetryFrom(action, maxRetries, backoffMs, a);
      && 1 <= t.calls <= maxRetries + 2 - a
      && t.sleeps == LinearBackoff(backoffMs, a, t.calls - 1)
      && (forall j :: a <= j < a + t.calls - 1 ==> action(j).Fail?)
      && !t.result.NoResult?
      && (t.result.Returned? ==> action(a + t.calls - 1) == Ok(t.result.value))
      && (t.result.Raised? ==> t.calls == maxRetries + 2 - a
                               && action(maxRetries + 1) == Fail(t.result.kind, t.result.reason))
    decreases maxRetries + 1 - a
  {
    var t := RetryFrom(action, maxRetries, backoffMs, a);
    if action(a).Fail? && a <= maxRetries {
      var rest := RetryFrom(action, maxRetries, backoffMs, a + 1);
      RetryFromShape(action, maxRetries, backoffMs, a + 1);
      assert t.sleeps == [backoffMs * a] + rest.sleeps;
    }
  }

  /**
   * From any permitted attempt `a`: one "retry attempt" entry per call,
   * numbered consecutively; one "retry failure" entry per failed call; and
   * one "max retries reached" entry exactly when an exception is re-raised.
   */
  lemma {:induction false} RetryFromLog<T>(action: nat -> Outcome<T>, maxRetries: int, backoffMs: int, a: nat)
    requires 1 <= a <= maxRetries + 1
    ensures var t := RetryFrom(action, maxRetries, backoffMs, a);
      && Attempts(t.log) == Consecutive(a, t.calls)
      && Failures(t.log) == Consecutive(a, if t.result.Returned? then t.calls - 1 else t.calls)
      && Exhaustions(t.log) == (if t.result.Raised? then 1 else 0)
    decreases maxRetries + 1 - a
  {
    var t := RetryFrom(action, maxRetries, backoffMs, a);
    match action(a)
    case Ok(v) =>
      assert t.log == [AttemptLogged(a)];
      LogSingle(AttemptLogged(a));
    case Fail(kind, reason) =>
      var head := [AttemptLogged(a), FailureLogged(a, reason)];
      assert Attempts(head) == [a] && Failures(head) == [a] && Exhaustions(head) == 0 by {
        assert head == [AttemptLogged(a)] + [FailureLogged(a, reason)];
        LogConcat([AttemptLogged(a)], [FailureLogged(a, reason)]);
        LogSingle(AttemptLogged(a));
        LogSingle(FailureLogged(a, reason));
      }
      if a <= maxRetries {
        var rest := RetryFrom(action, maxRetries, backoffMs, a + 1);
        RetryFromShape(action, maxRetries, backoffMs, a + 1);
        RetryFromLog(action, maxRetries, backoffMs, a + 1);
        assert t.log == head + rest.log;
        LogConcat(head, rest.log);
        ConsecutiveCons(a, rest.calls);
        ConsecutiveCons(a, if rest.result.Returned? then rest.calls - 1 else rest.calls);
      } else {
        assert t.log == head + [ExhaustedLogged(reason)];
        LogConcat(head, [ExhaustedLogged(reason)]);
      }
  }

  /**
   * From any permitted attempt `a`, entry by entry: the log announces each
   * failed attempt and then logs its exception's text, and ends with the
   * announcement of the successful attempt, or with the re-raised
   * exception's text in "max retries reached".
   */
  lemma {:induction false} RetryFromEntries<T>(action: nat -> Outcome<T>, maxRetries: int, backoffMs: int, a: nat)
    requires 1 <= a <= maxRetries + 1
    ensures var t := RetryFrom(action, maxRetries, backoffMs, a);
      var failed := if t.result.Returned? then t.calls - 1 else t.calls;
      && (forall j :: a <= j < a + failed ==> action(j).Fail?)
      && (t.result.Returned? ==> t.log == FailedEntries(action, a, failed) + [AttemptLogged(a + failed)])
      && (t.result.Raised? ==> t.log == FailedEntries(action, a, failed) + [ExhaustedLogged(t.result.reason)])
    decreases maxRetries + 1 - a
  {
    var t := RetryFrom(action, maxRetries, backoffMs, a);
    match action(a)
    case Ok(v) =>
      assert FailedEntries(action, a, 0) == [];
    case Fail(kind, reason) =>
      var head := [AttemptLogged(a), FailureLogged(a, reason)];
      if a <= maxRetries {
        var rest := RetryFrom(action, maxRetries, backoffMs, a + 1);
        RetryFromShape(action, maxRetries, backoffMs, a + 1);
        RetryFromEntries(action, maxRetries, backoffMs, a + 1);
        var failed := if rest.result.Returned? then rest.calls - 1 else rest.calls;
        assert FailedEntries(action, a, failed + 1) == head + FailedEntries(action, a + 1, failed);
      } else {
        assert FailedEntries(action, a, 1) == head + FailedEntries(action, a + 1, 0);
      }
  }

  lemma LogSingle(e: LogEvent)
    ensures Attempts([e]) == (if e.AttemptLogged? then [e.attempt] else [])
    ensures Failures([e]) == (if e.FailureLogged? then [e.attempt] else [])
    ensures Exhaustions([e]) == (if e.ExhaustedLogged? then 1 else 0)
  {
  }

  lemma ConsecutiveCons(a: nat, n: nat)
    ensures [a] + Consecutive(a + 1, n) == Consecutive(a, n + 1)
  {
  }

  /** The level name of the logging call behind an executor entry. */
  function EntryLevel(e: LogEvent): string
  {
    match e
    case AttemptLogged(_) => "INFO"
    case FailureLogged(_, _) => "WARNING"
    case ExhaustedLogged(_) => "ERROR"
  }

  /** The message of the logging call behind an executor entry. */
  function EntryMessage(e: LogEvent): string
  {
    match e
    case AttemptLogged(_) => "retry attempt"
    case FailureLogged(_, _) => "retry failure"
    case ExhaustedLogged(_) => "max retries reached"
  }

  /**
   * The `extra` fields the executor passes with an entry; `render` gives
   * the decimal text of an attempt number.
   */
  function EntryExtra(e: LogEvent, render: nat -> string): map<string, Value>
  {
    match e
    case AttemptLogged(k) =>
      map["endpoint" := Text("retry_async"), "message" := Text("attempt=" + render(k))]
    case FailureLogged(k, reason) =>
      map["endpoint" := Text("retry_async"), "error_reason" := Text(reason), "message" := Text("attempt=" + render(k))]
    case ExhaustedLogged(reason) =>
      map["endpoint" := Text("retry_async"), "error_reason" := Text(reason)]
  }

  /** The record the logging call behind an entry creates at time `created`, once the adapter has processed it. */
  function EntryRecord(e: LogEvent, render: nat -> string, created: real): Record
  {
    RecordOf(created, EntryLevel(e), EntryMessage(e), Kwargs(Some(EntryExtra(e, render)), map[]), None)
  }

  /**
   * The line written for an executor entry: its level and fixed message,
   * endpoint "retry_async", and for a failure or exhaustion the exception's
   * text as `error_reason`. The "attempt=k" field is stripped by the
   * adapter, so no line carries an attempt number.
   */
  lemma WrittenEntry(e: LogEvent, render: nat -> string, created: real, renderTime: real -> string)
    ensures Format(EntryRecord(e, render, created), renderTime)
      == [("timestamp", Text(renderTime(created) + "Z")),
          ("level", Text(EntryLevel(e))),
          ("message", Text(EntryMessage(e))),
          ("endpoint", Text("retry_async"))]
         + (if e.AttemptLogged? then [] else [("error_reason", Text(e.reason))])
  {
  }

  /** Two entries that differ only in their attempt number are written as the same line. */
  lemma AttemptNumberNeverWritten(e1: LogEvent, e2: LogEvent, render: nat -> string, created: real,
                                  renderTime: real -> string)
    requires (e1.AttemptLogged? && e2.AttemptLogged?)
          || (e1.FailureLogged? && e2.FailureLogged? && e1.reason == e2.reason)
    ensures Format(EntryRecord(e1, render, created), renderTime) == Format(EntryRecord(e2, render, created), renderTime)
  {
  }

  /** With `maxRetries < 0` the loop body never runs: no call, no sleep, no log entry, and `None`. */
  lemma NegativeRetriesNeverCall<T>(action: nat -> Outcome<T>, maxRetries: int, backoffMs: int)
    requires maxRetries < 0
    ensures Retry(action, maxRetries, backoffMs) == Trace(NoResult, 0, [], [])
  {
  }

  /**
   * With `maxRetries >= 0` the action is called at least once and at most
   * `maxRetries + 1` times, the attempts are numbered 1, 2, ... in order,
   * and the result is a value or a re-raised exception, never `None`.
   */
  lemma AttemptsBounded<T>(action: nat -> Outcome<T>, maxRetries: int, backoffMs: int)
    requires maxRetries >= 0
    ensures var t := Retry(action, maxRetries, backoffMs);
      && 1 <= t.calls <= maxRetries + 1
      && Attempts(t.log) == Consecutive(1, t.calls)
      && !t.result.NoResult?
  {
    RetryFromShape(action, maxRetries, backoffMs, 1);
    RetryFromLog(action, maxRetries, backoffMs, 1);
  }

  /**
   * If attempt `k` is the first success, exactly `k` calls are made, its
   * value is returned unchanged, one sleep of `backoffMs * j` follows each
   * failed attempt `j < k`, and "max retries reached" is never logged.
   */
  lemma FirstSuccessReturns<T>(action: nat -> Outcome<T>, maxRetries: int, backoffMs: int, k: nat)
    requires 1 <= k <= maxRetries + 1
    requires action(k).Ok? && forall j :: 1 <= j < k ==> action(j).Fail?
    ensures var t := Retry(action, maxRetries, backoffMs);
      && t.result == Returned(action(k).payload)
      && t.calls == k
      && t.sleeps == LinearBackoff(backoffMs, 1, k - 1)
      && Failures(t.log) == Consecutive(1, k - 1)
      && Exhaustions(t.log) == 0
      && t.log == FailedEntries(action, 1, k - 1) + [AttemptLogged(k)]
  {
    RetryFromShape(action, maxRetries, backoffMs, 1);
    RetryFromLog(action, maxRetries, backoffMs, 1);
    RetryFromEntries(action, maxRetries, backoffMs, 1);
  }

  /**
   * If all `maxRetries + 1` attempts fail, the last attempt's exception is
   * re-raised with its kind and text, after `maxRetries + 1` calls and
   * `maxRetries` sleeps (none after the last attempt) totalling
   * `backoffMs * (1 + 2 + ... + maxRetries)`, and "max retries reached" is
   * logged exactly once.
   */
  lemma ExhaustionReraisesLast<T>(action: nat -> Outcome<T>, maxRetries: int, backoffMs: int)
    requires maxRetries >= 0
    requires forall j :: 1 <= j <= maxRetries + 1 ==> action(j).Fail?
    ensures var t := Retry(action, maxRetries, backoffMs);
      && t.result == Raised(action(maxRetries + 1).kind, action(maxRetries + 1).reason)
      && t.calls == maxRetries + 1
      && t.sleeps == LinearBackoff(backoffMs, 1, maxRetries)
      && 2 * Sum(t.sleeps) == backoffMs * maxRetries * (maxRetries + 1)
      && Failures(t.log) == Consecutive(1, maxRetries + 1)
      && Exhaustions(t.log) == 1
      && t.log == FailedEntries(action, 1, maxRetries + 1) + [ExhaustedLogged(action(maxRetries + 1).reason)]
  {
    var t := Retry(action, maxRetries, backoffMs);
    RetryFromShape(action, maxRetries, backoffMs, 1);
    RetryFromLog(action, maxRetries, backoffMs, 1);
    RetryFromEntries(action, maxRetries, backoffMs, 1);
    LinearBackoffSum(backoffMs, maxRetries);
  }

  /** An exception is re-raised exactly when every permitted attempt fails. */
  lemma RaisedIffAllFail<T>(action: nat -> Outcome<T>, maxRetries: int, backoffMs: int)
    requires maxRetries >= 0
    ensures Retry(action, maxRetries, backoffMs).result.Raised?
        <==> forall j :: 1 <= j <= maxRetries + 1 ==> action(j).Fail?
  {
    var t := Retry(action, maxRetries, backoffMs);
    RetryFromShape(action, maxRetries, backoffMs, 1);
    if t.result.Returned? {
      assert action(t.calls).Ok?;
    }
  }

  /** Twice the total of the linear sleeps 1..n is `backoffMs * n * (n + 1)`. */
  lemma {:induction false} LinearBackoffSum(backoffMs: int, n: nat)
    ensures 2 * Sum(LinearBackoff(backoffMs, 1, n)) == backoffMs * n * (n + 1)
  {
    if n > 0 {
      var s := LinearBackoff(backoffMs, 1, n);
      assert s[..n - 1] == LinearBackoff(backoffMs, 1, n - 1);
      LinearBackoffSum(backoffMs, n - 1);
      calc {
        2 * Sum(s);
        2 * Sum(s[..n - 1]) + 2 * s[n - 1];
        backoffMs * (n - 1) * n + 2 * backoffMs * n;
        { assert backoffMs * (n - 1) * n + 2 * backoffMs * n == backoffMs * n * (n + 1); }
        backoffMs * n * (n + 1);
      }
    }
  }

  /** The body of `process_value`: the input and its double. */
  datatype Processed = Processed(input: real, result: real)

  /**
   * `process_value`: returns the input unchanged with its double. Halving
   * the result gives the input back, and the result has the input's sign
   * (zero for zero, negative for negatives).
   */
  function ProcessValue(value: real): (r: Processed)
    ensures r.input == value && r.result / 2.0 == value
    ensures (r.result < 0.0 <==> value < 0.0) && (r.result == 0.0 <==> value == 0.0)
  {
    Processed(value, value * 2.0)
  }

  /**
   * The `extra` fields of the "processed value" entry that `process_value`
   * logs; `rendered` is the text `input=<value>`.
   */
  function ProcessLogExtra(value: real, rendered: string): map<string, Value>
  {
    map["endpoint" := Text("/process"), "message" := Text(rendered), "result" := Number(ProcessValue(value).result)]
  }

  /** The logging adapter drops the entry's "message" field and keeps its endpoint and result. */
  lemma ProcessLogDropsMessage(value: real, rendered: string)
    ensures SafeExtra(ProcessLogExtra(value, rendered)) == map["endpoint" := Text("/process"), "result" := Number(2.0 * value)]
  {
  }
}
