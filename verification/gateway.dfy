/** `GatewayController`: the request pipeline of the gateway (`handle`) and
    the outbound header allow-list (`buildForwardHeaders`).

    The collaborators are not modelled; their answers are the fields of an
    `Oracle`: the rate limiter's verdict for the client IP, the URL returned
    by service discovery, and the result of the upstream HTTP exchange. What
    the controller asks of them is recorded in a `Trace`, so that "no
    outbound call is made" is a statement about the result. */
module Gateway {
  import opened Wrappers
  import opened PhpText

  const GatewayMarker := "api-gateway"
  /** Seconds, passed as the `timeout` option of the outbound request. */
  const ForwardTimeout := 5
  /** Passed as `max_redirects`: a 3xx from upstream is relayed, not followed. */
  const MaxRedirects := 0
  const UnavailableStatus := 503
  const UnavailableBody := "Service Unavailable"

  /** Inbound headers as Symfony's header bag keeps them: lower-cased names
      mapped to their values. */
  type HeaderBag = map<string, seq<string>>
  /** Response headers: name to values, as `getHeaders(false)` returns them. */
  type ResponseHeaders = map<string, seq<string>>
  /** The `headers` option of the outbound call; a value may be null. */
  type OutboundHeaders = map<string, Option<string>>

  datatype Request = Request(
    httpMethod: string,
    queryString: Option<string>,
    headers: HeaderBag,
    content: string,
    clientIp: Option<string>)

  datatype OutboundRequest = OutboundRequest(
    httpMethod: string,
    url: string,
    headers: OutboundHeaders,
    body: string,
    timeout: int,
    maxRedirects: int)

  /** A completed upstream exchange (whatever status line it carried), or a
      transport failure: any `Throwable` raised while sending or reading the
      response. */
  datatype ForwardResult =
    | Completed(status: int, headers: ResponseHeaders, body: string)
    | TransportFailure(message: string)

  /** The collaborators' answers for one request. */
  datatype Oracle = Oracle(admitted: bool, discovered: Option<string>, forwarded: ForwardResult)

  /** What the caller receives: the two HTTP exceptions the controller
      throws (429 and 404), or a `Response` it returns. */
  datatype Outcome =
    | TooManyRequests
    | ServiceNotFound(message: string)
    | Respond(status: int, headers: ResponseHeaders, body: string)

  /** An operator-facing log entry: `logger->error(...)` in the `catch` block. */
  datatype LogEntry = LogEntry(service: string, url: string, error: string)

  /** Which downstream calls one request made. The limiter is always asked,
      keyed by the client IP; each of the others is made at most once, as
      the pipeline has no retry edge. */
  datatype Trace = Trace(
    limiterKey: Option<string>,
    discoveryFor: Option<string>,
    sent: Option<OutboundRequest>,
    logged: Option<LogEntry>)

  datatype Exchange = Exchange(outcome: Outcome, trace: Trace)

  /** Symfony's `Response` accepts a status from 100 to 599 and throws
      `InvalidArgumentException` for any other. */
  predicate ValidStatus(status: int) {
    100 <= status < 600
  }

  /** The message of that exception, `The HTTP status code "<status>" is
      not valid.` */
  function InvalidStatusMessage(status: int): string {
    "The HTTP status code \"" + Decimal(status) + "\" is not valid."
  }

  /** The `Throwable` the `try` block ends in for an upstream result, if any:
      the transport failure itself, or the rejection of an invalid status by
      the `Response` constructor. */
  function ForwardError(r: ForwardResult): (e: Option<string>)
    ensures e.None? <==> r.Completed? && ValidStatus(r.status)
    ensures r.TransportFailure? ==> e == Some(r.message)
  {
    match r
    case TransportFailure(message) => Some(message)
    case Completed(status, _, _) => if ValidStatus(status) then None else Some(InvalidStatusMessage(status))
  }

  /** The HTTP status the caller sees. */
  function Status(o: Outcome): int {
    match o
    case TooManyRequests => 429
    case ServiceNotFound(_) => 404
    case Respond(status, _, _) => status
  }

  // ---------------------------------------------------------------------
  // Outbound headers
  // ---------------------------------------------------------------------

  /** `$request->headers->get($name)`: the first value stored under the
      lower-cased name, or null. */
  function HeaderGet(bag: HeaderBag, name: string): Option<string> {
    var key := Lower(name);
    if key in bag && |bag[key]| > 0 then Some(bag[key][0]) else None
  }

  const CopiedHeaders: set<string> := {"Accept", "Content-Type", "User-Agent"}
  const ForwardedHeaderNames: set<string> := CopiedHeaders + {"X-Gateway", "X-Client-IP"}

  /** `buildForwardHeaders`: three headers copied from the inbound request
      (null when absent), the gateway marker and the client IP. */
  function ForwardHeaders(req: Request): (h: OutboundHeaders)
    ensures h.Keys == ForwardedHeaderNames
    ensures forall name :: name in CopiedHeaders ==> h[name] == HeaderGet(req.headers, name)
    ensures h["X-Gateway"] == Some(GatewayMarker)
    ensures h["X-Client-IP"] == req.clientIp
  {
    map[
      "Accept" := HeaderGet(req.headers, "Accept"),
      "Content-Type" := HeaderGet(req.headers, "Content-Type"),
      "User-Agent" := HeaderGet(req.headers, "User-Agent"),
      "X-Gateway" := Some(GatewayMarker),
      "X-Client-IP" := req.clientIp]
  }

  /** The outbound headers depend on nothing but the three allow-listed
      inbound headers and the client IP. */
  lemma ForwardHeadersSeeOnlyAllowList(r1: Request, r2: Request)
    requires forall name :: name in CopiedHeaders ==> HeaderGet(r1.headers, name) == HeaderGet(r2.headers, name)
    requires r1.clientIp == r2.clientIp
    ensures ForwardHeaders(r1) == ForwardHeaders(r2)
  {
    var h1, h2 := ForwardHeaders(r1), ForwardHeaders(r2);
    forall name | name in ForwardedHeaderNames
      ensures h1[name] == h2[name]
    {
      if name in CopiedHeaders {
        assert h1[name] == HeaderGet(r1.headers, name);
      }
    }
  }

  /** Setting any inbound header other than the three allow-listed ones
      (an `Authorization` or `Cookie` header, say) changes nothing that is
      sent upstream, and only allow-listed names are ever sent. */
  lemma OtherHeadersNeverForwarded(req: Request, name: string, values: seq<string>)
    requires Lower(name) != "accept" && Lower(name) != "content-type" && Lower(name) != "user-agent"
    ensures ForwardHeaders(req.(headers := req.headers[Lower(name) := values])) == ForwardHeaders(req)
    ensures name in ForwardHeaders(req) ==> name in ForwardedHeaderNames
  {
    var req' := req.(headers := req.headers[Lower(name) := values]);
    assert Lower("Accept") == "accept";
    assert Lower("Content-Type") == "content-type";
    assert Lower("User-Agent") == "user-agent";
    ForwardHeadersSeeOnlyAllowList(req', req);
  }

  /** An `Authorization` header is never passed on. */
  lemma AuthorizationIsDropped(req: Request, token: string)
    ensures "Authorization" !in ForwardHeaders(req)
    ensures ForwardHeaders(req.(headers := req.headers["authorization" := [token]])) == ForwardHeaders(req)
  {
    assert Lower("Authorization") == "authorization";
    OtherHeadersNeverForwarded(req, "Authorization", [token]);
  }

  // ---------------------------------------------------------------------
  // Target URL
  // ---------------------------------------------------------------------

  /** `rtrim($baseUrl, '/') . '/' . ltrim($path, '/')`: the base without its
      trailing slashes, exactly one '/', the path without its leading
      slashes. */
  function JoinPath(baseUrl: string, path: string): (u: string)
    ensures var i := |RTrimSlash(baseUrl)|;
      && i < |u| && u[i] == '/'
      && !EndsWithSlash(u[..i]) && !StartsWithSlash(u[i + 1..])
      && u[..i] <= baseUrl && AllSlashes(baseUrl[i..])
      && |u| - i - 1 <= |path|
      && u[i + 1..] == path[|path| - (|u| - i - 1)..]
      && AllSlashes(path[..|path| - (|u| - i - 1)])
  {
    var stem, tail := RTrimSlash(baseUrl), LTrimSlash(path);
    var u := stem + "/" + tail;
    assert u[..|stem|] == stem && u[|stem| + 1..] == tail;
    u
  }

  /** Whatever runs of slashes surround the join point collapse into one. */
  lemma JoinCollapsesSlashRuns(stem: string, trailing: string, leading: string, tail: string)
    requires !EndsWithSlash(stem) && AllSlashes(trailing)
    requires AllSlashes(leading) && !StartsWithSlash(tail)
    ensures JoinPath(stem + trailing, leading + tail) == stem + "/" + tail
  {
    RTrimSlashRemovesExactlyTrailingRun(stem, trailing);
    LTrimSlashRemovesExactlyLeadingRun(leading, tail);
  }

  /** `if ($request->getQueryString()) $targetUrl .= '?' . $qs`: the query is
      appended when it is truthy, and the URL is otherwise left alone. */
  function AppendQuery(url: string, query: Option<string>): (u: string)
    ensures url <= u
    ensures u == url <==> Falsy(query)
    ensures !Falsy(query) ==> u[|url|..] == "?" + query.value
  {
    if !Falsy(query) then
      var u := url + "?" + query.value;
      assert |u| > |url|;
      u
    else url
  }

  /** Splits a URL at its first '?' into the part before and the query. */
  function SplitQuery(u: string): (string, Option<string>) {
    match FirstIndex(u, '?')
    case None => (u, None)
    case Some(i) => (u[..i], Some(u[i + 1..]))
  }

  /** For a URL without '?', the query can be read back from the target:
      the one that was appended, or none. */
  lemma AppendQueryRoundTrip(url: string, query: Option<string>)
    requires '?' !in url
    ensures SplitQuery(AppendQuery(url, query)) == (url, if Falsy(query) then None else query)
  {
    if !Falsy(query) {
      var u := AppendQuery(url, query);
      assert u == url + ['?'] + query.value;
      FirstIndexOfSeparator(url, '?', query.value);
      assert u[..|url|] == url && u[|url| + 1..] == query.value;
    }
  }

  /** Apart from the query "0" (falsy in PHP), '?' and the query are
      appended exactly when the query string is non-empty. */
  lemma QueryAppendedIffNonEmpty(url: string, query: Option<string>)
    requires query != Some("0")
    ensures AppendQuery(url, query) != url <==> query.Some? && query.value != ""
  {
  }

  /** The URL the request is forwarded to. */
  function TargetUrl(baseUrl: string, path: string, query: Option<string>): string {
    AppendQuery(JoinPath(baseUrl, path), query)
  }

  /** The one outbound request: original method and body, allow-listed
      headers, a 5 second timeout, redirects off. */
  function Outbound(req: Request, url: string): OutboundRequest {
    OutboundRequest(req.httpMethod, url, ForwardHeaders(req), req.content, ForwardTimeout, MaxRedirects)
  }

  // ---------------------------------------------------------------------
  // The pipeline
  // ---------------------------------------------------------------------

  /** `sprintf('Service "%s" not found.', $service)`. */
  function NotFoundMessage(service: string): string {
    "Service \"" + service + "\" not found."
  }

  const NotFoundPrefix := "Service \""
  const NotFoundSuffix := "\" not found."

  /** Reads the service name back out of a not-found message. */
  function ServiceOfMessage(message: string): Option<string> {
    if |message| >= |NotFoundPrefix| + |NotFoundSuffix|
       && message[..|NotFoundPrefix|] == NotFoundPrefix
       && message[|message| - |NotFoundSuffix|..] == NotFoundSuffix
    then Some(message[|NotFoundPrefix|..|message| - |NotFoundSuffix|])
    else None
  }

  /** The not-found message names the service that was asked for. */
  lemma NotFoundMessageRoundTrip(service: string)
    ensures ServiceOfMessage(NotFoundMessage(service)) == Some(service)
  {
    var m := NotFoundMessage(service);
    assert m == NotFoundPrefix + service + NotFoundSuffix;
    assert m[..|NotFoundPrefix|] == NotFoundPrefix;
    assert m[|m| - |NotFoundSuffix|..] == NotFoundSuffix;
    assert m[|NotFoundPrefix|..|m| - |NotFoundSuffix|] == service;
  }

  /** The response built in the `catch` block. */
  const Unavailable := Respond(UnavailableStatus, map[], UnavailableBody)

  /** `handle($request, $service, $path)`: rate limit, then discovery, then
      one forwarding attempt; every path ends in exactly one outcome. */
  function Handle(req: Request, service: string, path: string, o: Oracle): (x: Exchange)
    ensures x.trace.limiterKey == req.clientIp
    ensures x.outcome.TooManyRequests? <==> !o.admitted
    ensures x.outcome.ServiceNotFound? <==> o.admitted && Falsy(o.discovered)
    ensures x.trace.discoveryFor.Some? <==> o.admitted
    ensures x.trace.discoveryFor.Some? ==> x.trace.discoveryFor.value == service
    ensures x.trace.sent.Some? <==> o.admitted && !Falsy(o.discovered)
    ensures x.trace.logged.Some?
        <==> x.trace.sent.Some? && !(o.forwarded.Completed? && ValidStatus(o.forwarded.status))
    ensures x.trace.logged.Some? ==> x.trace.logged.value.url == x.trace.sent.value.url
    ensures x.outcome.Respond? && o.forwarded.Completed? && ValidStatus(o.forwarded.status)
        ==> x.outcome == Respond(o.forwarded.status, o.forwarded.headers, o.forwarded.body)
    ensures x.outcome.Respond? && !(o.forwarded.Completed? && ValidStatus(o.forwarded.status))
        ==> x.outcome == Unavailable
  {
    var key := req.clientIp;
    if !o.admitted then
      Exchange(TooManyRequests, Trace(key, None, None, None))
    else if Falsy(o.discovered) then
      Exchange(ServiceNotFound(NotFoundMessage(service)), Trace(key, Some(service), None, None))
    else
      var url := TargetUrl(o.discovered.value, path, req.queryString);
      var sent := Some(Outbound(req, url));
      match ForwardError(o.forwarded)
      case None =>
        Exchange(Respond(o.forwarded.status, o.forwarded.headers, o.forwarded.body),
                 Trace(key, Some(service), sent, None))
      case Some(error) =>
        Exchange(Unavailable, Trace(key, Some(service), sent, Some(LogEntry(service, url, error))))
  }

  /** A rejected client gets 429, and neither discovery nor the upstream
      service is contacted. */
  lemma RejectedRequestGets429(req: Request, service: string, path: string, o: Oracle)
    requires !o.admitted
    ensures Status(Handle(req, service, path, o).outcome) == 429
    ensures Handle(req, service, path, o).trace == Trace(req.clientIp, None, None, None)
  {
  }

  /** A falsy discovery result (null, "" or "0") gives 404 with the service
      named in the message, and nothing is sent upstream. */
  lemma UnknownServiceGets404(req: Request, service: string, path: string, o: Oracle)
    requires o.admitted && Falsy(o.discovered)
    ensures Handle(req, service, path, o).outcome == ServiceNotFound(NotFoundMessage(service))
    ensures Status(Handle(req, service, path, o).outcome) == 404
    ensures Handle(req, service, path, o).trace.sent == None
  {
  }

  /** An admitted request for a discovered service is sent upstream once,
      to the joined URL, with the original method and body, the allow-listed
      headers, a 5 second timeout and no redirects. */
  lemma ForwardedRequestIsSent(req: Request, service: string, path: string, o: Oracle)
    requires o.admitted && !Falsy(o.discovered)
    ensures Handle(req, service, path, o).trace.sent
         == Some(OutboundRequest(req.httpMethod, TargetUrl(o.discovered.value, path, req.queryString),
                                 ForwardHeaders(req), req.content, 5, 0))
  {
  }

  /** A completed upstream exchange with a status from 100 to 599 is relayed
      as is: a 4xx or 5xx from upstream is not turned into a gateway error. */
  lemma CompletedExchangeIsRelayed(req: Request, service: string, path: string, o: Oracle)
    requires o.admitted && !Falsy(o.discovered) && o.forwarded.Completed? && ValidStatus(o.forwarded.status)
    ensures Handle(req, service, path, o).outcome
         == Respond(o.forwarded.status, o.forwarded.headers, o.forwarded.body)
    ensures Handle(req, service, path, o).trace.logged == None
  {
  }

  /** A transport failure gives 503 "Service Unavailable"; the error is
      logged with the service and target URL, and never reaches the caller:
      any other error message yields the same outcome. */
  lemma TransportFailureGets503(req: Request, service: string, path: string, o: Oracle, other: string)
    requires o.admitted && !Falsy(o.discovered) && o.forwarded.TransportFailure?
    ensures Handle(req, service, path, o).outcome == Respond(503, map[], "Service Unavailable")
    ensures Handle(req, service, path, o).trace.logged
         == Some(LogEntry(service, TargetUrl(o.discovered.value, path, req.queryString), o.forwarded.message))
    ensures Handle(req, service, path, o.(forwarded := TransportFailure(other))).outcome
         == Handle(req, service, path, o).outcome
  {
  }

  /** An upstream status outside 100..599 makes the `Response` constructor
      throw inside the `try`: the caller gets the same 503 as for a transport
      failure, and the rejected status is logged. */
  lemma InvalidStatusGets503(req: Request, service: string, path: string, o: Oracle)
    requires o.admitted && !Falsy(o.discovered) && o.forwarded.Completed? && !ValidStatus(o.forwarded.status)
    ensures Handle(req, service, path, o).outcome == Respond(503, map[], "Service Unavailable")
    ensures Handle(req, service, path, o).trace.logged
         == Some(LogEntry(service, TargetUrl(o.discovered.value, path, req.queryString),
                          InvalidStatusMessage(o.forwarded.status)))
  {
  }

  // ---------------------------------------------------------------------
  // The request life cycle as a state machine
  // ---------------------------------------------------------------------

  /** Received, then Admitted or Rejected, then Resolved or Unresolved,
      then Forwarded. */
  datatype Stage =
    | Received
    | Admitted
    | Rejected
    | Resolved(baseUrl: string)
    | Unresolved
    | Forwarded(result: ForwardResult)

  predicate Terminal(s: Stage) {
    s.Rejected? || s.Unresolved? || s.Forwarded?
  }

  /** How far along the life cycle a stage is. */
  function Rank(s: Stage): nat {
    match s
    case Received => 0
    case Admitted => 1
    case Resolved(_) => 2
    case _ => 3
  }

  /** One transition; every transition moves forward, so there is no
      retry edge. */
  function Step(s: Stage, o: Oracle): (t: Stage)
    requires !Terminal(s)
    ensures Rank(t) > Rank(s)
  {
    match s
    case Received => if o.admitted then Admitted else Rejected
    case Admitted => if Falsy(o.discovered) then Unresolved else Resolved(o.discovered.value)
    case Resolved(_) => Forwarded(o.forwarded)
  }

  /** Runs the life cycle to its end. */
  function Run(s: Stage, o: Oracle): (t: Stage)
    ensures Terminal(t)
    ensures Rank(t) >= Rank(s)
    decreases 3 - Rank(s)
  {
    if Terminal(s) then s else Run(Step(s, o), o)
  }

  /** The single caller-facing response of each terminal stage. */
  function Reply(t: Stage, service: string): Outcome
    requires Terminal(t)
  {
    match t
    case Rejected => TooManyRequests
    case Unresolved => ServiceNotFound(NotFoundMessage(service))
    case Forwarded(result) =>
      if ForwardError(result).None? then Respond(result.status, result.headers, result.body) else Unavailable
  }

  /** Where the life cycle ends: rejected by the limiter, unresolved by
      discovery, or forwarded with the upstream result. */
  lemma RunFromReceived(o: Oracle)
    ensures Run(Received, o)
         == if !o.admitted then Rejected
            else if Falsy(o.discovered) then Unresolved
            else Forwarded(o.forwarded)
  {
    assert Run(Received, o) == Run(Step(Received, o), o);
    if o.admitted {
      assert Run(Admitted, o) == Run(Step(Admitted, o), o);
      if !Falsy(o.discovered) {
        var base := o.discovered.value;
        assert Run(Resolved(base), o) == Run(Step(Resolved(base), o), o);
      }
    }
  }

  /** `handle` follows the life cycle: its outcome is the reply of the
      terminal stage the collaborators' answers lead to. */
  lemma HandleFollowsLifeCycle(req: Request, service: string, path: string, o: Oracle)
    ensures Handle(req, service, path, o).outcome == Reply(Run(Received, o), service)
  {
    RunFromReceived(o);
  }

  // ---------------------------------------------------------------------
  // Examples from the controller's tests
  // ---------------------------------------------------------------------

  /** `GET /api/users/1` with discovery answering `http://10.0.0.1:8080`
      makes one outbound GET to `http://10.0.0.1:8080/1` and relays the
      upstream 200 and its body. */
  lemma ExampleForwardToUsers(token: string)
    ensures var req := Request("GET", None, map["authorization" := [token]], "", Some("127.0.0.1"));
      var upstream := Completed(200, map["Content-Type" := ["application/json"]], "{\"status\":\"ok\"}");
      var x := Handle(req, "users", "1", Oracle(true, Some("http://10.0.0.1:8080"), upstream));
      && x.trace.sent.Some?
      && x.trace.sent.value.httpMethod == "GET"
      && x.trace.sent.value.url == "http://10.0.0.1:8080/1"
      && "Authorization" !in x.trace.sent.value.headers
      && Status(x.outcome) == 200
      && x.outcome.body == "{\"status\":\"ok\"}"
  {
    var req := Request("GET", None, map["authorization" := [token]], "", Some("127.0.0.1"));
    var upstream := Completed(200, map["Content-Type" := ["application/json"]], "{\"status\":\"ok\"}");
    var o := Oracle(true, Some("http://10.0.0.1:8080"), upstream);
    assert !Falsy(o.discovered);
    ExampleTargetUrl();
    ForwardedRequestIsSent(req, "users", "1", o);
    CompletedExchangeIsRelayed(req, "users", "1", o);
    AuthorizationIsDropped(req, token);
  }

  /** Base `http://10.0.0.1:8080` and path `1` join to `http://10.0.0.1:8080/1`. */
  lemma ExampleTargetUrl()
    ensures TargetUrl("http://10.0.0.1:8080", "1", None) == "http://10.0.0.1:8080/1"
  {
    var base, path := "http://10.0.0.1:8080", "1";
    assert !EndsWithSlash(base) && !StartsWithSlash(path);
    JoinCollapsesSlashRuns(base, "", "", path);
    assert base + "" == base && "" + path == path;
    assert base + "/" + path == "http://10.0.0.1:8080/1";
  }

  /** Discovery answering null for `unknown` gives 404 and no outbound call. */
  lemma ExampleUnknownService(req: Request, upstream: ForwardResult)
    ensures var x := Handle(req, "unknown", "1", Oracle(true, None, upstream));
      && x.outcome == ServiceNotFound("Service \"unknown\" not found.")
      && x.trace.sent == None
  {
    assert NotFoundMessage("unknown") == "Service \"unknown\" not found.";
  }
}
