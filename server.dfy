/**
 * The UI server: a static-file handler that forwards `/api/` requests to
 * the backend service and serves the service's log file.
 *
 * Only the decisions are modelled: which handler a path goes to, what is
 * forwarded, and which status, headers and body are sent back. The
 * backend's reply and the state of the log file are inputs.
 */
module Server {
  import opened Wrappers

  type Byte = b: int | 0 <= b < 256

  /** A header line: (name, value). */
  type Header = (string, string)

  const Backend := "http://127.0.0.1:8000"
  const TextPlain := "text/plain; charset=utf-8"
  const DefaultContentType := "application/json"

  /** Response headers of the backend that are not relayed, matched case-sensitively. */
  const Excluded: seq<string> := ["Content-Encoding", "Transfer-Encoding", "Content-Length", "Connection"]

  /** Python's `s.startswith(prefix)`. */
  predicate StartsWith(s: string, prefix: string)
  {
    |prefix| <= |s| && s[..|prefix|] == prefix
  }

  // ---------------------------------------------------------------- dispatch

  /** Where `do_GET` sends a request. */
  datatype GetRoute = ToLogs | ToBackend | ToStatic(path: string)

  /** The path `do_GET` hands to the static handler: "/" and "/index.html" become "/index.html". */
  function StaticPath(path: string): string
  {
    if path == "/" || path == "/index.html" then "/index.html" else path
  }

  /** `do_GET`: the log path is checked first, then the API prefix, then the static files. */
  function RouteGet(path: string): GetRoute
  {
    if StartsWith(path, "/api/logs") then ToLogs
    else if StartsWith(path, "/api/") then ToBackend
    else ToStatic(StaticPath(path))
  }

  /** Where `do_POST` sends a request. */
  datatype PostRoute = ProxyPost | NotFound

  /** `do_POST`: only API paths are forwarded. */
  function RoutePost(path: string): PostRoute
  {
    if StartsWith(path, "/api/") then ProxyPost else NotFound
  }

  /**
   * GET dispatch: every path under "/api/logs" is served from the log file
   * and never forwarded; the other "/api/" paths are forwarded; all other
   * paths go to the static handler, with only "/" rewritten.
   */
  lemma RouteGetRules(path: string)
    ensures StartsWith(path, "/api/logs") ==> RouteGet(path) == ToLogs
    ensures RouteGet(path) == ToBackend <==> StartsWith(path, "/api/") && !StartsWith(path, "/api/logs")
    ensures !StartsWith(path, "/api/") ==> RouteGet(path) == ToStatic(StaticPath(path))
    ensures RouteGet(path).ToStatic? ==>
      && (RouteGet(path).path == "/index.html" <==> path == "/" || path == "/index.html")
      && (path != "/" ==> RouteGet(path).path == path)
  {
  }

  /** POST dispatch: forwarded iff the path starts with "/api/". */
  lemma RoutePostRules(path: string)
    ensures RoutePost(path) == ProxyPost <==> StartsWith(path, "/api/")
    ensures RoutePost(path) == NotFound <==> !StartsWith(path, "/api/")
  {
  }

  // ----------------------------------------------------- the forwarded request

  /** `self.path[len("/api"):]`, with Python's slicing of a short string. */
  function BackendPath(path: string): string
  {
    if |path| >= 4 then path[4..] else ""
  }

  /** For an API path, the backend path keeps the leading slash and "/api" + it gives the path back. */
  lemma BackendPathRestores(path: string)
    requires StartsWith(path, "/api/")
    ensures "/api" + BackendPath(path) == path
    ensures |BackendPath(path)| >= 1 && BackendPath(path)[0] == '/'
    ensures Backend + BackendPath(path) == "http://127.0.0.1:8000" + path[4..]
  {
  }

  /** ASCII lower-casing of one character. */
  function LowerChar(c: char): char
  {
    if 'A' <= c <= 'Z' then (c as int + 32) as char else c
  }

  /** `s.lower()` for ASCII header names. */
  function Lower(s: string): (r: string)
    ensures |r| == |s| && forall i :: 0 <= i < |s| ==> r[i] == LowerChar(s[i])
  {
    seq(|s|, i requires 0 <= i < |s| => LowerChar(s[i]))
  }

  /** The request headers whose name is not "host" in any case, in order. */
  function WithoutHost(hs: seq<Header>): (r: seq<Header>)
  {
    if hs == [] then []
    else WithoutHost(hs[..|hs| - 1]) + (if Lower(hs[|hs| - 1].0) == "host" then [] else [hs[|hs| - 1]])
  }

  lemma {:induction false} WithoutHostMembers(hs: seq<Header>)
    ensures forall h :: h in WithoutHost(hs) <==> h in hs && Lower(h.0) != "host"
  {
    if hs != [] {
      WithoutHostMembers(hs[..|hs| - 1]);
      assert hs == hs[..|hs| - 1] + [hs[|hs| - 1]];
    }
  }

  /** The names of `hs`, in order. */
  function Names(hs: seq<Header>): (r: seq<string>)
    ensures |r| == |hs| && forall i :: 0 <= i < |hs| ==> r[i] == hs[i].0
  {
    seq(|hs|, i requires 0 <= i < |hs| => hs[i].0)
  }

  predicate Distinct(s: seq<string>)
  {
    forall i, j :: 0 <= i < j < |s| ==> s[i] != s[j]
  }

  /** The value of the first pair named `k`. */
  function Lookup(d: seq<Header>, k: string): Option<string>
  {
    if d == [] then None else if d[0].0 == k then Some(d[0].1) else Lookup(d[1..], k)
  }

  /** The value of the last pair named `k`: what a dictionary built from `hs` keeps. */
  function LastValue(hs: seq<Header>, k: string): Option<string>
  {
    if hs == [] then None
    else if hs[|hs| - 1].0 == k then Some(hs[|hs| - 1].1)
    else LastValue(hs[..|hs| - 1], k)
  }

  /** `d[k] = v` on a Python dictionary: an existing key keeps its place, a new one goes last. */
  function DictSet(d: seq<Header>, k: string, v: string): seq<Header>
  {
    if d == [] then [(k, v)]
    else if d[0].0 == k then [(k, v)] + d[1..]
    else [d[0]] + DictSet(d[1..], k, v)
  }

  /** A Python dictionary built from the pairs `hs` in order (the comprehension of `proxy_request`). */
  function DictOf(hs: seq<Header>): seq<Header>
  {
    if hs == [] then [] else DictSet(DictOf(hs[..|hs| - 1]), hs[|hs| - 1].0, hs[|hs| - 1].1)
  }

  lemma {:induction false} DictSetNames(d: seq<Header>, k: string, v: string)
    ensures forall n :: n in Names(DictSet(d, k, v)) <==> n in Names(d) || n == k
  {
    var r := DictSet(d, k, v);
    if d == [] {
      assert Names(r) == [k];
    } else {
      DictSetNames(d[1..], k, v);
      assert Names(d) == [d[0].0] + Names(d[1..]);
      if d[0].0 == k {
        assert Names(r) == [k] + Names(d[1..]);
      } else {
        assert Names(r) == [d[0].0] + Names(DictSet(d[1..], k, v));
      }
    }
  }

  lemma {:induction false} DictSetDistinct(d: seq<Header>, k: string, v: string)
    requires Distinct(Names(d))
    ensures Distinct(Names(DictSet(d, k, v)))
  {
    var r := DictSet(d, k, v);
    if d != [] {
      var tail := Names(d[1..]);
      assert Names(d) == [d[0].0] + tail;
      DistinctCons(d[0].0, tail);
      if d[0].0 == k {
        assert Names(r) == [k] + tail;
        DistinctCons(k, tail);
      } else {
        DictSetDistinct(d[1..], k, v);
        DictSetNames(d[1..], k, v);
        assert Names(r) == [d[0].0] + Names(DictSet(d[1..], k, v));
        DistinctCons(d[0].0, Names(DictSet(d[1..], k, v)));
      }
    }
  }

  lemma DistinctCons(a: string, s: seq<string>)
    ensures Distinct([a] + s) <==> a !in s && Distinct(s)
  {
    if Distinct([a] + s) {
      forall i, j | 0 <= i < j < |s| ensures s[i] != s[j] {
        assert s[i] == ([a] + s)[i + 1] && s[j] == ([a] + s)[j + 1];
      }
      forall i | 0 <= i < |s| ensures s[i] != a {
        assert ([a] + s)[0] == a && ([a] + s)[i + 1] == s[i];
      }
    }
  }

  lemma {:induction false} DictSetAppends(d: seq<Header>, k: string, v: string)
    requires k !in Names(d)
    ensures DictSet(d, k, v) == d + [(k, v)]
  {
    if d != [] {
      assert Names(d) == [d[0].0] + Names(d[1..]);
      DictSetAppends(d[1..], k, v);
      assert d == [d[0]] + d[1..];
    }
  }

  lemma {:induction false} DictSetLookup(d: seq<Header>, k: string, v: string, n: string)
    ensures Lookup(DictSet(d, k, v), n) == if n == k then Some(v) else Lookup(d, n)
  {
    if d != [] && d[0].0 != k {
      DictSetLookup(d[1..], k, v, n);
      assert DictSet(d, k, v)[1..] == DictSet(d[1..], k, v);
    }
  }

  /**
   * A dictionary built from pairs has each name once, has exactly the
   * names of the pairs, maps each to its last value, and keeps the pairs
   * in their order when their names are already distinct.
   */
  lemma {:induction false} DictOfFacts(hs: seq<Header>)
    ensures forall n :: n in Names(DictOf(hs)) <==> n in Names(hs)
    ensures Distinct(Names(DictOf(hs)))
    ensures forall n :: Lookup(DictOf(hs), n) == LastValue(hs, n)
    ensures Distinct(Names(hs)) ==> DictOf(hs) == hs
  {
    if hs != [] {
      var init, last := hs[..|hs| - 1], hs[|hs| - 1];
      DictOfFacts(init);
      DictSetNames(DictOf(init), last.0, last.1);
      DictSetDistinct(DictOf(init), last.0, last.1);
      forall n ensures Lookup(DictOf(hs), n) == LastValue(hs, n) {
        DictSetLookup(DictOf(init), last.0, last.1, n);
      }
      assert Names(hs) == Names(init) + [last.0];
      if Distinct(Names(hs)) {
        assert Distinct(Names(init)) by {
          forall i, j | 0 <= i < j < |init| ensures Names(init)[i] != Names(init)[j] {
            assert Names(hs)[i] == Names(init)[i] && Names(hs)[j] == Names(init)[j];
          }
        }
        assert last.0 !in Names(init) by {
          forall i | 0 <= i < |init| ensures Names(init)[i] != last.0 {
            assert Names(hs)[i] == Names(init)[i] && Names(hs)[|hs| - 1] == last.0;
          }
        }
        DictSetAppends(DictOf(init), last.0, last.1);
        assert hs == init + [last];
      }
    } else {
      forall n ensures Lookup(DictOf(hs), n) == LastValue(hs, n) { }
    }
  }

  /** The headers `proxy_request` forwards: a dictionary of the request headers other than Host. */
  function ForwardedHeaders(hs: seq<Header>): seq<Header>
  {
    DictOf(WithoutHost(hs))
  }

  /**
   * Forwarded headers: no name is "host" in any case; every other request
   * header name is forwarded once, with its last value; and when the
   * request's names are distinct they are forwarded in their original order.
   */
  lemma ForwardedHeadersRules(hs: seq<Header>)
    ensures forall n :: n in Names(ForwardedHeaders(hs)) <==> exists h :: h in hs && h.0 == n && Lower(n) != "host"
    ensures forall h :: h in ForwardedHeaders(hs) ==> Lower(h.0) != "host"
    ensures Distinct(Names(ForwardedHeaders(hs)))
    ensures forall n :: Lookup(ForwardedHeaders(hs), n) == LastValue(WithoutHost(hs), n)
    ensures Distinct(Names(WithoutHost(hs))) ==> ForwardedHeaders(hs) == WithoutHost(hs)
  {
    var w := WithoutHost(hs);
    var f := ForwardedHeaders(hs);
    WithoutHostMembers(hs);
    DictOfFacts(w);
    NamesMembers(w);
    NamesMembers(f);
    forall h | h in f ensures Lower(h.0) != "host" {
      assert h.0 in Names(f);
    }
  }

  /** A name is among the names of `hs` iff some pair of `hs` has it. */
  lemma NamesMembers(hs: seq<Header>)
    ensures forall n :: n in Names(hs) <==> exists h :: h in hs && h.0 == n
  {
  }

  /** `self.rfile.read(length) if length > 0 else None`: at most `length` bytes of the body stream. */
  function RequestData(contentLength: int, rfile: seq<Byte>): (r: Option<seq<Byte>>)
    ensures r.Some? <==> contentLength > 0
    ensures r.Some? ==> r.value <= rfile && |r.value| == if contentLength < |rfile| then contentLength else |rfile|
  {
    if contentLength > 0 then Some(rfile[..if contentLength < |rfile| then contentLength else |rfile|]) else None
  }

  /** The request `proxy_request` sends to the backend. */
  datatype Outbound = Outbound(verb: string, url: string, headers: seq<Header>, data: Option<seq<Byte>>)

  /** `proxy_request`'s request: same method, backend URL, headers without Host, body if announced. */
  function Forward(command: string, path: string, headers: seq<Header>, contentLength: int, rfile: seq<Byte>): Outbound
  {
    Outbound(command, Backend + BackendPath(path), ForwardedHeaders(headers), RequestData(contentLength, rfile))
  }

  // ------------------------------------------------------------- the response

  /** A response as sent: status, the headers passed to `send_header` in order, and the body. */
  datatype Response = Response(status: nat, headers: seq<Header>, body: seq<Byte>)

  /** What `requests.request` gives: a reply, or a `RequestException` with its text (UTF-8). */
  datatype BackendReply =
    | Reply(status: nat, headers: seq<Header>, content: seq<Byte>)
    | RequestFailed(error: seq<Byte>)

  /** The backend headers that are relayed: those not named in `Excluded` (exact match), in order. */
  function Relayed(hs: seq<Header>): seq<Header>
  {
    if hs == [] then []
    else Relayed(hs[..|hs| - 1]) + (if hs[|hs| - 1].0 in Excluded then [] else [hs[|hs| - 1]])
  }

  /** `resp.headers.get('Content-Type', 'application/json')`: a case-insensitive lookup. */
  function ContentTypeOf(hs: seq<Header>): string
  {
    if hs == [] then DefaultContentType
    else if Lower(hs[0].0) == "content-type" then hs[0].1
    else ContentTypeOf(hs[1..])
  }

  /**
   * The relayed headers are exactly the backend headers whose name is not
   * one of the four excluded names, and relaying keeps their order.
   * The comparison is exact: a lower-case "content-length" is relayed.
   */
  lemma {:induction false} RelayedRules(hs: seq<Header>, more: seq<Header>)
    ensures forall h :: h in Relayed(hs) <==> h in hs && h.0 !in Excluded
    ensures Relayed(hs + more) == Relayed(hs) + Relayed(more)
    ensures Relayed([("content-length", "0")]) == [("content-length", "0")]
    decreases |more|
  {
    RelayedMembers(hs);
    if more != [] {
      var init := more[..|more| - 1];
      RelayedRules(hs, init);
      assert (hs + more)[..|hs + more| - 1] == hs + init;
    } else {
      assert hs + more == hs;
    }
    assert "content-length" !in Excluded by {
      assert "content-length" != "Content-Length" by { assert "content-length"[0] != "Content-Length"[0]; }
    }
    assert [("content-length", "0")][..0] == [];
  }

  lemma {:induction false} RelayedMembers(hs: seq<Header>)
    ensures forall h :: h in Relayed(hs) <==> h in hs && h.0 !in Excluded
  {
    if hs != [] {
      RelayedMembers(hs[..|hs| - 1]);
      assert hs == hs[..|hs| - 1] + [hs[|hs| - 1]];
    }
  }

  /** The Content-Type that is appended: the backend's (any case), or "application/json". */
  lemma {:induction false} ContentTypeRules(hs: seq<Header>)
    ensures (forall h :: h in hs ==> Lower(h.0) != "content-type") ==> ContentTypeOf(hs) == DefaultContentType
    ensures (exists h :: h in hs && Lower(h.0) == "content-type") ==>
      exists i :: 0 <= i < |hs| && Lower(hs[i].0) == "content-type" && ContentTypeOf(hs) == hs[i].1
        && forall j :: 0 <= j < i ==> Lower(hs[j].0) != "content-type"
  {
    if hs != [] {
      ContentTypeRules(hs[1..]);
      if Lower(hs[0].0) != "content-type" && exists h :: h in hs && Lower(h.0) == "content-type" {
        var h :| h in hs && Lower(h.0) == "content-type";
        assert h in hs[1..];
        var i :| 0 <= i < |hs[1..]| && Lower(hs[1..][i].0) == "content-type" && ContentTypeOf(hs[1..]) == hs[1..][i].1
          && forall j :: 0 <= j < i ==> Lower(hs[1..][j].0) != "content-type";
        assert forall j :: 0 <= j < i + 1 ==> Lower(hs[j].0) != "content-type" by {
          forall j | 0 <= j < i + 1 ensures Lower(hs[j].0) != "content-type" {
            if j > 0 { assert hs[j] == hs[1..][j - 1]; }
          }
        }
      }
    }
  }

  /** The response `proxy_request` sends for the backend's reply. */
  function ProxyResponse(reply: BackendReply): Response
  {
    match reply
    case RequestFailed(error) => Response(502, [("Content-Type", TextPlain)], error)
    case Reply(status, hs, content) => Response(status, Relayed(hs) + [("Content-Type", ContentTypeOf(hs))], content)
  }

  /**
   * The status is 502 with the error text as plain text when the backend
   * request failed, and the backend's status and content otherwise; then
   * the relayed headers are followed by one appended Content-Type (a
   * backend "Content-Type" is relayed as well: see `ContentTypeSentTwice`).
   */
  lemma ProxyResponseRules(reply: BackendReply)
    ensures var r := ProxyResponse(reply);
      && (reply.RequestFailed? ==> r == Response(502, [("Content-Type", "text/plain; charset=utf-8")], reply.error))
      && (reply.Reply? ==>
            && r.status == reply.status && r.body == reply.content
            && |r.headers| >= 1
            && r.headers[|r.headers| - 1] == ("Content-Type", ContentTypeOf(reply.headers))
            && (forall h :: h in r.headers[..|r.headers| - 1] <==> h in reply.headers && h.0 !in Excluded))
  {
    if reply.Reply? {
      RelayedMembers(reply.headers);
      var r := ProxyResponse(reply);
      assert r.headers[..|r.headers| - 1] == Relayed(reply.headers);
    }
  }

  /**
   * A backend header named exactly "Content-Type" is not excluded: it is
   * relayed, and a second Content-Type is appended after it.
   */
  lemma ContentTypeSentTwice(status: nat, hs: seq<Header>, content: seq<Byte>, v: string)
    requires ("Content-Type", v) in hs
    ensures var r := ProxyResponse(Reply(status, hs, content));
      && |r.headers| >= 2
      && (exists i :: 0 <= i < |r.headers| - 1 && r.headers[i] == ("Content-Type", v))
      && r.headers[|r.headers| - 1].0 == "Content-Type"
  {
    var r := ProxyResponse(Reply(status, hs, content));
    assert "Content-Type" !in Excluded by {
      assert "Content-Type"[8] != "Content-Length"[8];
    }
    RelayedMembers(hs);
    var relayed := Relayed(hs);
    assert ("Content-Type", v) in relayed;
    var i :| 0 <= i < |relayed| && relayed[i] == ("Content-Type", v);
    assert r.headers[i] == relayed[i];
  }

  /**
   * The loop of `proxy_request` that sends the relayed headers one by one,
   * then the Content-Type.
   */
  method SendRelayedHeaders(backendHeaders: seq<Header>) returns (sent: seq<Header>)
    ensures sent == Relayed(backendHeaders) + [("Content-Type", ContentTypeOf(backendHeaders))]
  {
    sent := [];
    var i := 0;
    while i < |backendHeaders|
      invariant 0 <= i <= |backendHeaders|
      invariant sent == Relayed(backendHeaders[..i])
    {
      var (k, v) := backendHeaders[i];
      if k !in Excluded {
        sent := sent + [(k, v)];
      }
      assert backendHeaders[..i + 1][..i] == backendHeaders[..i];
      i := i + 1;
    }
    assert backendHeaders[..i] == backendHeaders;
    sent := sent + [("Content-Type", ContentTypeOf(backendHeaders))];
  }

  // ---------------------------------------------------------------- the log file

  /** The log file as `serve_logs` finds it. */
  datatype LogFile = Missing | Readable(data: seq<Byte>) | ReadFailed(error: seq<Byte>)

  /** `str(n)`: the decimal digits of `n`. */
  function Decimal(n: nat): (s: string)
    ensures |s| >= 1 && forall i :: 0 <= i < |s| ==> '0' <= s[i] <= '9'
    decreases n
  {
    if n < 10 then [('0' as int + n) as char] else Decimal(n / 10) + [('0' as int + n % 10) as char]
  }

  /** The number a string of decimal digits denotes. */
  function DecimalValue(s: string): nat
    requires forall i :: 0 <= i < |s| ==> '0' <= s[i] <= '9'
  {
    if s == [] then 0 else DecimalValue(s[..|s| - 1]) * 10 + (s[|s| - 1] as int - '0' as int)
  }

  /** Reading back the decimal text of `n` gives `n`. */
  lemma {:induction false} DecimalRoundTrip(n: nat)
    ensures DecimalValue(Decimal(n)) == n
    decreases n
  {
    var s := Decimal(n);
    if n >= 10 {
      DecimalRoundTrip(n / 10);
      assert s[..|s| - 1] == Decimal(n / 10);
    } else {
      assert s[..0] == [];
    }
  }

  /** The response of `serve_logs`. */
  function LogsResponse(file: LogFile): Response
  {
    match file
    case Missing => Response(200, [("Content-Type", TextPlain)], [])
    case Readable(data) => Response(200, [("Content-Type", TextPlain), ("Content-Length", Decimal(|data|))], data)
    case ReadFailed(error) => Response(500, [], error)
  }

  /**
   * A missing log file gives 200 with an empty body; a readable one gives
   * 200 with its bytes and a Content-Length that reads back as their count;
   * a read error gives 500 with the error text.
   */
  lemma LogsResponseRules(file: LogFile)
    ensures var r := LogsResponse(file);
      && (file.Missing? ==> r.status == 200 && r.body == [])
      && (file.Readable? ==>
            && r.status == 200 && r.body == file.data
            && exists v :: ("Content-Length", v) in r.headers
                 && (forall i :: 0 <= i < |v| ==> '0' <= v[i] <= '9') && DecimalValue(v) == |file.data|)
      && (file.ReadFailed? ==> r.status == 500 && r.body == file.error)
      && (r.status == 200 <==> !file.ReadFailed?)
  {
    if file.Readable? {
      DecimalRoundTrip(|file.data|);
      assert ("Content-Length", Decimal(|file.data|)) in LogsResponse(file).headers;
    }
  }

  // ---------------------------------------------------------------- the handler

  /** What a request handler does: send a response (after forwarding one request, if it proxies) or serve a static file. */
  datatype Handled =
    | Proxied(request: Outbound, response: Response)
    | Sent(response: Response)
    | Static(path: string)

  /** The body of a non-API POST: b"Not found". */
  const NotFoundBody: seq<Byte> := [78, 111, 116, 32, 102, 111, 117, 110, 100]

  /** `ProxyHandler`: one request, whose path `do_GET` may rewrite. */
  class ProxyHandler {
    var path: string
    const command: string
    const headers: seq<Header>
    /** `int(self.headers.get('Content-Length', 0))`. */
    const contentLength: int
    /** What `self.rfile` yields. */
    const rfile: seq<Byte>

    constructor (command: string, path: string, headers: seq<Header>, contentLength: int, rfile: seq<Byte>)
      ensures this.command == command && this.path == path && this.headers == headers
      ensures this.contentLength == contentLength && this.rfile == rfile
    {
      this.command := command;
      this.path := path;
      this.headers := headers;
      this.contentLength := contentLength;
      this.rfile := rfile;
    }

    /** `proxy_request`: forward the request, then relay the reply or report the failure. */
    method ProxyRequest(backend: Outbound -> BackendReply) returns (h: Handled)
      ensures h == Proxied(Forward(command, path, headers, contentLength, rfile),
                           ProxyResponse(backend(Forward(command, path, headers, contentLength, rfile))))
    {
      var request := Forward(command, path, headers, contentLength, rfile);
      match backend(request)
      case RequestFailed(error) =>
        h := Proxied(request, Response(502, [("Content-Type", TextPlain)], error));
      case Reply(status, hs, content) =>
        var sent := SendRelayedHeaders(hs);
        h := Proxied(request, Response(status, sent, content));
    }

    /**
     * `serve_logs`: 200 unless the file cannot be read; an empty body for a
     * missing file, the file's bytes with a Content-Length that reads back as
     * their count for a readable one, and the error text with 500 otherwise.
     */
    method ServeLogs(file: LogFile) returns (h: Handled)
      ensures h == Sent(LogsResponse(file))
      ensures h.Sent? && (h.response.status == 200 <==> !file.ReadFailed?)
      ensures file.Missing? ==> h.response.status == 200 && h.response.body == []
      ensures file.Readable? ==>
        && h.response.body == file.data
        && exists v :: ("Content-Length", v) in h.response.headers
             && (forall i :: 0 <= i < |v| ==> '0' <= v[i] <= '9') && DecimalValue(v) == |file.data|
      ensures file.ReadFailed? ==> h.response.status == 500 && h.response.body == file.error
    {
      h := Sent(LogsResponse(file));
      LogsResponseRules(file);
    }

    /** `do_GET`: the only request whose path is rewritten is a static one. */
    method DoGet(backend: Outbound -> BackendReply, file: LogFile) returns (h: Handled)
      modifies this`path
      ensures RouteGet(old(path)) == ToLogs ==> path == old(path) && h == Sent(LogsResponse(file))
      ensures RouteGet(old(path)) == ToBackend ==>
        && path == old(path)
        && h == Proxied(Forward(command, path, headers, contentLength, rfile),
                        ProxyResponse(backend(Forward(command, path, headers, contentLength, rfile))))
      ensures RouteGet(old(path)).ToStatic? ==> path == StaticPath(old(path)) && h == Static(path)
    {
      if StartsWith(path, "/api/logs") {
        h := ServeLogs(file);
        return;
      }
      if StartsWith(path, "/api/") {
        h := ProxyRequest(backend);
        return;
      }
      if path == "/" || path == "/index.html" {
        path := "/index.html";
      }
      h := Static(path);
    }

    /** `do_POST`: API paths are forwarded; every other path gets 404 "Not found". */
    method DoPost(backend: Outbound -> BackendReply) returns (h: Handled)
      ensures RoutePost(path) == ProxyPost ==>
        h == Proxied(Forward(command, path, headers, contentLength, rfile),
                     ProxyResponse(backend(Forward(command, path, headers, contentLength, rfile))))
      ensures RoutePost(path) == NotFound ==> h == Sent(Response(404, [], NotFoundBody))
    {
      if StartsWith(path, "/api/") {
        h := ProxyRequest(backend);
        return;
      }
      h := Sent(Response(404, [], NotFoundBody));
    }
  }
}
