# Service reliability simulator — a Dafny model

This project models the decision logic of a small demonstration web service
and of the UI server that sits in front of it:

- **Retry executor** (`retry_async`, module `Utils`): attempts 1 .. max_retries + 1.
  It returns the first success. After a failed attempt k that is not the last, it
  sleeps `backoff × k`. After the last failure it re-raises that failure. It makes a logging call for every
  attempt, every failure and the exhaustion; the attempt number it passes is
  stripped by the logging adapter, so the written lines do not carry it. The awaited action is an
  oracle `action(k)`, the outcome of the k-th call. Sleeps are recorded as a trace
  of durations, in integer milliseconds. `process_value` doubles its input.
- **`/unstable` and `/health`** (module `Routes`): the three-way unstable
  operation, with the random choice given per call. The 1 s `wait_for` bound turns
  the 5 s "delay" branch into a timeout. The fixed retry policy is 2 retries with
  200 ms backoff. The outcome maps to 200, 504 or 500. `/health` records the start
  time only when none is recorded and reports the truncated uptime.
- **Structured logging** (module `Logger`): the reserved record attributes, the
  adapter that drops them from `extra`, and the JSON formatter's choice of fields.
- **UI reverse proxy** (module `Server`): dispatch by path prefix, the forwarded
  request (path without "/api", headers without Host, body only when announced),
  the relayed response (status, filtered headers, an appended Content-Type, 502 on
  failure), and the log-file endpoint (200 empty, 200 with Content-Length, 500).

The retry loop (`Utils.RetryAsync`) and the header-relay loop
(`Server.SendRelayedHeaders`) are methods with loop invariants. Each is proved
equal to a specification function (`Utils.Retry`, `Server.Relayed`). The lemmas
state the service's promises about those functions. The request handler of the UI
server is a class whose `DoGet` rewrites the request path in place. The
application state of `/health` is a class whose start time is written once.

Behaviours of the code worth noting, including where it differs from its comments:
- Backoff is linear (`backoff × attempt`), although the doc comment at
  app/utils.py:26 calls it exponential.
- `uptime_seconds` is negative only when the clock reading is at least one second
  before the recorded start time: `int()` truncates toward zero, so a reading less
  than one second early gives 0.
- The doc comment at app/utils.py:27 says each attempt is logged. The executor does
  make one logging call per attempt, but it passes the attempt number only as the
  `message` extra field. That name is reserved, so the adapter drops it
  (app/logger.py:33, 69-72), and no written line carries an attempt number.
- The excluded response headers are matched case-sensitively, so a lower-case
  `content-length` from the backend is relayed.
- A backend header named exactly `Content-Type` is not excluded. It is relayed, and
  then a second `Content-Type` header is appended (ui/server.py:59-63). A JSON reply
  therefore goes out with two Content-Type headers.

## Model

| member | source | states |
|---|---|---|
| `Utils.RetryAsync` | app/utils.py:20-42 | the loop's result, call count, sleep trace and log trace are exactly those of the executor's specification `Retry` |
| `Utils.RetryFromShape` | app/utils.py:30-42 | from any permitted attempt: 1 to max_retries + 2 − a calls; the sleeps are the linear backoff of each failed attempt except the last; every call before the last failed; a value comes only from a successful last call; a re-raise happens only after the last permitted attempt, with its kind and text; never `None` |
| `Utils.RetryFromLog` | app/utils.py:32-41 | one "retry attempt" logging call per call, numbered consecutively; one "retry failure" call per failed call; one "max retries reached" call exactly when the failure is re-raised |
| `Utils.RetryFromEntries` | app/utils.py:30-42 | entry by entry, each failed attempt is announced and then logged with its own exception text; the log ends with the successful attempt's announcement, or with "max retries reached" carrying the re-raised exception's text |
| `Utils.WrittenEntry` | app/utils.py:32-41 | the line written for an executor entry holds its level, its fixed message, endpoint "retry_async" and, for a failure or exhaustion, the exception text as error_reason; the "attempt=k" field is dropped by the adapter |
| `Utils.AttemptNumberNeverWritten` | app/utils.py:32-37 | two entries that differ only in their attempt number are written as the same line |
| `Utils.NegativeRetriesNeverCall` | app/utils.py:29-30 | with max_retries < 0, no call, no sleep, no log entry, and the result is `None` |
| `Utils.AttemptsBounded` | app/utils.py:30-33 | with max_retries ≥ 0, between 1 and max_retries + 1 calls, "retry attempt" logging calls numbered 1, 2, … in order, and the result is never `None` |
| `Utils.FirstSuccessReturns` | app/utils.py:30-39 | if attempt k is the first success, exactly k calls are made and its value is returned unchanged; the sleeps are backoff × 1 … backoff × (k−1); the log is attempts 1 … k−1 each followed by its failure text, then attempt k; "max retries reached" is not logged |
| `Utils.ExhaustionReraisesLast` | app/utils.py:34-42 | if all max_retries + 1 attempts fail, the last failure is re-raised with its kind and text; there are max_retries sleeps and none after the last attempt; their total is backoff × (1 + … + max_retries); every attempt is logged followed by its failure text, and the log ends with one "max retries reached" carrying the last failure's text |
| `Utils.RaisedIffAllFail` | app/utils.py:30-42 | a failure is re-raised if and only if every permitted attempt fails |
| `Utils.LinearBackoffSum` | app/utils.py:38-39 | twice the total of the linear sleeps 1..n is backoff × n × (n+1) |
| `Utils.ProcessValue` | app/utils.py:15-17 | the input is returned unchanged; half the result is the input; the result is negative or zero exactly when the input is |
| `Utils.ProcessLogDropsMessage` | app/utils.py:16 | the caller-supplied "message" of the "processed value" entry is dropped; its endpoint and result are kept |
| `Routes.TimedActionByChoice` | app/routes.py:62-85 | through the 1 s `wait_for` bound, "success" gives the completed payload; "exception" gives the transient RuntimeError text; any other choice sleeps 5 s past the 1 s bound and times out; only "success" succeeds |
| `Routes.RespondUnstable` | app/routes.py:87-97 | a returned value gives 200 with it as body; a re-raised failure gives 504 if and only if it is a timeout, and otherwise 500 "internal failure" |
| `Routes.UnstableAtMostThreeCalls` | app/routes.py:88 | one request calls the operation 1 to 3 times, never ends in `None`, and answers 200, 504 or 500 |
| `Routes.UnstableStatus` | app/routes.py:74-97 | 200 iff one of the three choices is "success"; otherwise 504 iff the third choice is a delay, and 500 iff it is "exception" |
| `Routes.RaisedKindIsLastChoice` | app/routes.py:70-71 | a re-raised failure is a timeout iff the third call's choice was not "exception" |
| `Routes.PolicyBackoff` | app/routes.py:88 | the fixed policy sleeps 200 ms and then 400 ms |
| `Routes.ForcedSuccess` | app/routes.py:64-65 | "success" on the first call gives 200 with status "ok" and detail "operation completed", after one call and no sleep |
| `Routes.ForcedException` | app/routes.py:66-68 | "exception" on every call gives 500 "internal failure" after 3 calls with sleeps of 200 and 400 ms |
| `Routes.ForcedDelay` | app/routes.py:70-71 | "delay" on every call gives 504 "operation timed out" after 3 calls |
| `Routes.Trunc` | app/routes.py:27 | `int()` truncates toward zero: within 1 of its argument, never past it |
| `Routes.Uptime` | app/routes.py:27 | when now ≥ start, the uptime is a non-negative whole number of seconds within 1 s of now − start; it is negative iff now is at least 1 s before start |
| `Routes.UptimeMonotonic` | app/routes.py:26-27 | for a fixed start, a later clock reading never gives a smaller uptime |
| `Routes.AppState.HealthCheck` | app/routes.py:20-34 | the start time is set to the clock only when absent and otherwise kept; the body is "OK" with the uptime against the second clock reading |
| `Logger.SafeExtra` | app/logger.py:69-72 | keeps exactly the non-reserved names, each with its value unchanged |
| `Logger.Process` | app/logger.py:66-74 | the message and the other keyword arguments are unchanged; an absent or empty `extra` leaves everything untouched; a non-empty one loses exactly its reserved names |
| `Logger.ProcessDropsReserved` | app/logger.py:12-34 | no reserved name is left in the processed `extra` |
| `Logger.ProcessIdempotent` | app/logger.py:69-73 | processing the adapter's own output changes nothing |
| `Logger.FormatFields` | app/logger.py:40-57 | a formatted line starts with timestamp (ending in "Z"), level and message, taken only from the record's creation time, level name and message; its names are distinct and among six; endpoint and error_reason appear iff the record has them; exc_info appears iff exception information is set |
| `Logger.LoggedLineKeepsOwnFields` | app/logger.py:41-51 | through adapter and formatter, the line's message and level are the call's own whatever `extra` holds, among extras without "asctime" or "taskName" (below); the caller's endpoint and error_reason appear with their values |
| `Server.RouteGetRules` | ui/server.py:19-29 | paths under "/api/logs" go to the log endpoint and are never proxied; other "/api/" paths are proxied; everything else is static, with only "/" rewritten to "/index.html" |
| `Server.RoutePostRules` | ui/server.py:31-37 | a POST is proxied iff its path starts with "/api/", and is otherwise not found |
| `Server.BackendPathRestores` | ui/server.py:41-42 | for an API path the backend path starts with "/", "/api" followed by it is the path, and the URL is the backend address followed by it |
| `Server.ForwardedHeadersRules` | ui/server.py:44 | no forwarded name is "host" in any case; every other request header name is forwarded once with its last value; distinct names keep their order |
| `Server.DictOfFacts` | ui/server.py:44 | a dictionary built from pairs has each name once, exactly the pairs' names, each mapped to its last value, and keeps the order of already distinct pairs |
| `Server.RequestData` | ui/server.py:46-47 | a body is read iff Content-Length > 0, and it is the first min(length, available) bytes of the stream |
| `Server.RelayedRules` | ui/server.py:59-62 | a backend header is relayed iff its name is not exactly one of the four excluded names; order is kept; a lower-case "content-length" is relayed |
| `Server.ContentTypeRules` | ui/server.py:63 | the appended Content-Type is the first backend header named content-type in any case, or "application/json" when there is none |
| `Server.ProxyResponseRules` | ui/server.py:49-65 | a failed backend request gives 502 text/plain with the error text; otherwise status and content are relayed, and the relayed headers are followed by one appended Content-Type |
| `Server.ContentTypeSentTwice` | ui/server.py:59-63 | a backend header named exactly "Content-Type" is relayed and a Content-Type is appended after it, so the response carries two |
| `Server.SendRelayedHeaders` | ui/server.py:58-63 | the header loop sends exactly the relayed headers in order, then the Content-Type |
| `Server.DecimalRoundTrip` | ui/server.py:80 | the decimal text sent as Content-Length reads back as the byte count |
| `Server.LogsResponseRules` | ui/server.py:67-86 | a missing log file gives 200 with an empty body; a readable one gives 200 with its bytes and a Content-Length equal to their count; a read error gives 500 |
| `Server.ProxyHandler.ProxyRequest` | ui/server.py:39-65 | the handler forwards `Forward(...)` of its request and sends `ProxyResponse` of the backend's reply |
| `Server.ProxyHandler.ServeLogs` | ui/server.py:67-86 | the handler answers 200 unless the file cannot be read; a missing file gives an empty body, a readable one its bytes with a Content-Length that reads back as their count, and a read error 500 with the error text |
| `Server.ProxyHandler.DoGet` | ui/server.py:19-29 | log, proxied and static requests are handled as routed; only a static request's path is rewritten |
| `Server.ProxyHandler.DoPost` | ui/server.py:31-37 | API paths are proxied; every other path gets 404 with body "Not found" |

## Left out

- HTTP transport and frameworks: FastAPI/Starlette routing and responses, `http.server`, the threading TCP server, `requests.request`. The headers `send_response` adds itself (Server, Date) and the writes to `wfile` are not modelled. Only the decisions are, as functions of their inputs.
- asyncio timing and cancellation: sleeps are recorded durations. `wait_for` compares the run's sleep with the bound. A run that finishes exactly at the bound counts as finished.
- Randomness: the choice of `_unstable_operation` is an input per call.
- Floating point: backoff and sleep durations are integer milliseconds (0.2 s is 200), `process_value` doubles a real, and clock readings are reals. Overflow to infinity is not modelled.
- Log entries other than the retry executor's are not traced: "unstable choice", "request received", "unstable success", "operation timed out/failed", "health check". The executor's trace records its logging calls by attempt number and error text; the text of an attempt number inside "attempt=k" is a parameter.
- Logger setup (`get_logger`), handlers, levels, `json.dumps` and the log sink are not modelled. The ISO-8601 rendering of the creation time is a parameter. `getMessage()` argument interpolation is not modelled. The record's attributes are the processed `extra`. The KeyError that Python's `makeRecord` raises for a name it refuses is not modelled. The adapter strips most such names, but its reserved set lacks "asctime", and from Python 3.12 on "taskName". The adapter passes these two names on and `makeRecord` rejects them, so such a call writes no line, whereas the model still builds a record and a line.
- Logger.FormatFields: `exc_info` is modelled as present or absent. Python's truthiness of an exception tuple and `formatException` are not modelled.
- `/process` as an endpoint: request validation and the 422 response come from the framework. The `except ValidationError` branch of the handler is unreachable because `process_value` never raises it.
- app/main.py (startup hook, global exception handler) is not part of this model. The start time it records uses a different clock than `/health` reads. `/health` takes its two clock readings as inputs.
- Server: the Content-Length request header is taken already converted by `int()`. A malformed value, which raises in the handler, is not modelled. Header names are lower-cased in ASCII only. The error text of a failed backend request and of a failed file read are given as their UTF-8 bytes. The backend's reply headers are assumed to have distinct names, ignoring case, as `requests` merges duplicates case-insensitively. `requests` adds its own request headers; these are not modelled.
- The static-file handler (`SimpleHTTPRequestHandler.do_GET`) is not modelled: the model only produces the path handed to it.
