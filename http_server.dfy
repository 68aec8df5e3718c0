/** The HTTP server middleware (middleware/http/server.go): how the middlewares are
    stacked, when a request bypasses instrumentation, and what the request log holds. */
module HttpServer {
  import opened Results
  import opened GoStrings
  import C = HttpConfig

  /** The zap levels the middleware logs at. */
  datatype Level = DebugLevel | WarnLevel | ErrorLevel

  /** zap's numeric value of a level: more severe is larger. */
  function Severity(l: Level): int {
    match l
    case DebugLevel => -1
    case WarnLevel => 1
    case ErrorLevel => 2
  }

  /** `getLogLevel`. */
  function GetLogLevel(status: int): Level {
    if status >= 500 then ErrorLevel
    else if status >= 400 then WarnLevel
    else DebugLevel
  }

  // ----- Stacking -----

  /** A handler, by how it was built. */
  datatype Handler =
    | App(name: string)
    | OtelHandler(operation: string, opts: seq<C.OtelOption>, next: Handler)
    | Instrumented(settings: C.Settings, next: Handler)

  type Middleware = Handler -> Handler

  /** `ServerMiddleware(opts...)`: wraps a handler with the logging middleware. */
  function ServerMiddleware(opts: seq<C.Option>): Middleware {
    next => Instrumented(C.ApplyOptions(C.Defaults(), opts), next)
  }

  /** The `tr` closure of `ServerMiddlewareAll`: an otel handler named by the operation. */
  function Tracing(s: C.Settings): Middleware {
    next => OtelHandler(s.operation, s.otelOpts, next)
  }

  /** `ServerMiddlewareAll(opts...)(next)`: each middleware of `[mw, tr]` wraps the
      result so far, so tracing ends up outermost. */
  method ServerMiddlewareAll(opts: seq<C.Option>, next: Handler) returns (h: Handler)
    ensures var s := C.ApplyOptions(C.Defaults(), opts); h == OtelHandler(s.operation, s.otelOpts, Instrumented(s, next))
  {
    var s := C.ApplyOptions(C.Defaults(), opts);
    var tr := Tracing(s);
    var mw := ServerMiddleware(opts);
    var list := [mw, tr];
    h := next;
    var i := 0;
    while i < |list|
      invariant 0 <= i <= |list|
      invariant h == if i == 0 then next else if i == 1 then Instrumented(s, next) else OtelHandler(s.operation, s.otelOpts, Instrumented(s, next))
    {
      h := list[i](h);
      i := i + 1;
    }
  }

  // ----- Serving one request -----

  /** What the wrapped handler did: the status it wrote, the response body the writer
      captured (if any) and whether it panicked. */
  datatype Outcome = Outcome(statusCode: int, response: Option<string>, panicked: bool)

  /** A field of the request log line. */
  datatype Field =
    | DurationField
    | MethodField(httpMethod: string)
    | UserAgentField
    | IpField
    | UrlField(url: string)
    | StatusField(code: int)
    | RequestField(request: string)
    | ResponseField(response: string)
    | RecoveryField

  /** What the middleware did with a request: handed it on untouched, or served it and
      wrote one log line (`writtenStatus` is the status it forced after a panic). */
  datatype Served =
    | Bypassed
    | Logged(headerLogged: bool, bodyBuffered: bool, level: Level, fields: seq<Field>, message: string, writtenStatus: Option<int>)

  /** Some filter rejects the request. */
  predicate Rejected(filters: seq<C.Filter>, r: C.Request) {
    exists i :: 0 <= i < |filters| && !filters[i](r)
  }

  /** The body is read and kept when the request is to be dumped or dumped on error. */
  function RequestBody(s: C.Settings, body: Option<string>): Option<string> {
    if (s.readRequest || s.dumpPayloadOnError) && body.Some? then body else None
  }

  /** The fields every log line starts with. */
  function BaseFields(s: C.Settings, r: C.Request, status: int): seq<Field> {
    [DurationField, MethodField(r.httpMethod), UserAgentField, IpField, UrlField(s.pathExtractor(r)), StatusField(status)]
  }

  predicate LogsRequest(s: C.Settings, lvl: Level, reqBody: Option<string>) {
    ((lvl != DebugLevel && s.dumpPayloadOnError) || s.readRequest) && reqBody.Some?
  }

  predicate LogsResponse(s: C.Settings, lvl: Level, response: Option<string>) {
    ((lvl != DebugLevel && s.dumpPayloadOnError) || s.writeResponse) && response.Some?
  }

  /** The log fields as server.go:116-137 builds them: the request dump starts again
      from the context logger, so it drops the base fields. */
  function LogFieldsAsWritten(s: C.Settings, r: C.Request, reqBody: Option<string>, out: Outcome): seq<Field> {
    var lvl := GetLogLevel(out.statusCode);
    var l0 := BaseFields(s, r, out.statusCode);
    var l1 := if LogsRequest(s, lvl, reqBody) then [RequestField(reqBody.value)] else l0;
    var l2 := if LogsResponse(s, lvl, out.response) then l1 + [ResponseField(out.response.value)] else l1;
    if out.panicked then l2 + [RecoveryField] else l2
  }

  /** The log fields with the request dump added to the base fields, as the response
      dump is. */
  function LogFields(s: C.Settings, r: C.Request, reqBody: Option<string>, out: Outcome): seq<Field> {
    var lvl := GetLogLevel(out.statusCode);
    var l0 := BaseFields(s, r, out.statusCode);
    var l1 := if LogsRequest(s, lvl, reqBody) then l0 + [RequestField(reqBody.value)] else l0;
    var l2 := if LogsResponse(s, lvl, out.response) then l1 + [ResponseField(out.response.value)] else l1;
    if out.panicked then l2 + [RecoveryField] else l2
  }

  /** What `ServerMiddleware`'s handler does with one request, given how the log
      fields are put together. */
  function ServeWith(s: C.Settings, r: C.Request, body: Option<string>, out: Outcome, asWritten: bool): Served {
    if Rejected(s.filters, r) then Bypassed
    else
      var reqBody := RequestBody(s, body);
      Logged(s.readHeader, reqBody.Some?,
        if out.panicked then ErrorLevel else GetLogLevel(out.statusCode),
        if asWritten then LogFieldsAsWritten(s, r, reqBody, out) else LogFields(s, r, reqBody, out),
        "HTTP " + r.httpMethod + " " + r.requestUri,
        if out.panicked then Some(500) else None)
  }

  /** What `ServerMiddleware`'s handler does with one request, as server.go writes it. */
  function ServeSpec(s: C.Settings, r: C.Request, body: Option<string>, out: Outcome): Served {
    ServeWith(s, r, body, out, true)
  }

  /** The same handler with the request dump added to the base fields. */
  function ServeIntended(s: C.Settings, r: C.Request, body: Option<string>, out: Outcome): Served {
    ServeWith(s, r, body, out, false)
  }

  /** The handler `ServerMiddleware` builds, step by step: the filter loop, the body
      copy, then the deferred logging after the wrapped handler returns `out`. */
  method Serve(s: C.Settings, req: C.Request, body: Option<string>, out: Outcome) returns (served: Served)
    ensures served == ServeSpec(s, req, body, out)
  {
    var i := 0;
    while i < |s.filters|
      invariant 0 <= i <= |s.filters|
      invariant forall j :: 0 <= j < i ==> s.filters[j](req)
    {
      if !s.filters[i](req) {
        return Bypassed;
      }
      i := i + 1;
    }
    var reqBody: Option<string> := None;
    if !(!s.readRequest && !s.dumpPayloadOnError) && body.Some? {
      reqBody := body;
    }
    var headerLogged := s.readHeader;
    var l := BaseFields(s, req, out.statusCode);
    var lvl := GetLogLevel(out.statusCode);
    if ((lvl != DebugLevel && s.dumpPayloadOnError) || s.readRequest) && reqBody.Some? {
      // the logger is rebuilt from the context: the base fields are gone
      l := [RequestField(reqBody.value)];
    }
    if ((lvl != DebugLevel && s.dumpPayloadOnError) || s.writeResponse) && out.response.Some? {
      l := l + [ResponseField(out.response.value)];
    }
    var writtenStatus: Option<int> := None;
    if out.panicked {
      lvl := ErrorLevel;
      l := l + [RecoveryField];
      writtenStatus := Some(500);
    }
    served := Logged(headerLogged, reqBody.Some?, lvl, l, "HTTP " + req.httpMethod + " " + req.requestUri, writtenStatus);
  }

  // ----- Properties -----

  /** Error from 500 up, Warn from 400 to 499, Debug below. */
  lemma LogLevelBands(status: int)
    ensures GetLogLevel(status) == ErrorLevel <==> status >= 500
    ensures GetLogLevel(status) == WarnLevel <==> 400 <= status < 500
    ensures GetLogLevel(status) == DebugLevel <==> status < 400
  {
  }

  /** A larger status never logs at a lower level. */
  lemma LogLevelMonotone(a: int, b: int)
    requires a <= b
    ensures Severity(GetLogLevel(a)) <= Severity(GetLogLevel(b))
  {
  }

  /** A request is handed on untouched exactly when some filter rejects it; under any
      options, the default filter is among the filters, so a GET of `/health...` and a
      websocket upgrade always are. */
  lemma DefaultFilterBypasses(opts: seq<C.Option>, r: C.Request, body: Option<string>, out: Outcome)
    requires !C.DefaultFilter(r)
    ensures ServeSpec(C.ApplyOptions(C.Defaults(), opts), r, body, out) == Bypassed
  {
    var s := C.ApplyOptions(C.Defaults(), opts);
    C.FiltersAccumulate(opts);
    assert s.filters[0] == C.DefaultFilter;
  }

  /** The request is dumped: it has a body and either every request is dumped, or
      dumping on error is on and the status is 400 or more. */
  predicate RequestDumped(s: C.Settings, body: Option<string>, status: int) {
    (s.readRequest || (s.dumpPayloadOnError && status >= 400)) && body.Some?
  }

  lemma DumpedIsLogsRequest(s: C.Settings, body: Option<string>, status: int)
    ensures RequestDumped(s, body, status) <==> LogsRequest(s, GetLogLevel(status), RequestBody(s, body))
  {
  }

  /** The request body is logged exactly when the request is dumped, and the logged
      body is the request's; this holds as written and with the corrected fields. */
  lemma RequestLoggedIff(s: C.Settings, r: C.Request, body: Option<string>, out: Outcome, asWritten: bool)
    requires !Rejected(s.filters, r)
    ensures var served := ServeWith(s, r, body, out, asWritten);
      (exists b :: RequestField(b) in served.fields) <==> RequestDumped(s, body, out.statusCode)
    ensures var served := ServeWith(s, r, body, out, asWritten);
      forall b :: RequestField(b) in served.fields ==> body == Some(b)
  {
    var reqBody := RequestBody(s, body);
    var lvl := GetLogLevel(out.statusCode);
    var fields := ServeWith(s, r, body, out, asWritten).fields;
    DumpedIsLogsRequest(s, body, out.statusCode);
    if LogsRequest(s, lvl, reqBody) {
      assert RequestField(reqBody.value) in fields by {
        assert fields[if asWritten then 0 else 6] == RequestField(reqBody.value);
      }
    }
  }

  /** The response body is logged exactly when the writer captured one and either it is
      dumped on every request, or dumping on error is on and the status is 400 or more;
      as written and with the corrected fields alike. */
  lemma ResponseLoggedIff(s: C.Settings, r: C.Request, body: Option<string>, out: Outcome, asWritten: bool)
    requires !Rejected(s.filters, r)
    ensures var served := ServeWith(s, r, body, out, asWritten);
      (exists b :: ResponseField(b) in served.fields) <==>
        (s.writeResponse || (s.dumpPayloadOnError && out.statusCode >= 400)) && out.response.Some?
  {
    var reqBody := RequestBody(s, body);
    var lvl := GetLogLevel(out.statusCode);
    var l0 := BaseFields(s, r, out.statusCode);
    var l1 := if LogsRequest(s, lvl, reqBody) then (if asWritten then [] else l0) + [RequestField(reqBody.value)] else l0;
    var fields := ServeWith(s, r, body, out, asWritten).fields;
    if LogsRequest(s, lvl, reqBody) && asWritten {
      assert [] + [RequestField(reqBody.value)] == [RequestField(reqBody.value)];
    }
    if LogsResponse(s, lvl, out.response) {
      assert fields[|l1|] == ResponseField(out.response.value);
    }
  }

  /** A panic is logged at Error with the recovery field, and the status is forced to
      500; otherwise the level follows the status. The line starts with the base fields
      unless the request is dumped; as written, a dumped request's line starts with
      the body instead, and holds none of the base fields. */
  lemma PanicAndLevel(s: C.Settings, r: C.Request, body: Option<string>, out: Outcome, asWritten: bool)
    requires !Rejected(s.filters, r)
    ensures var served := ServeWith(s, r, body, out, asWritten);
      && (out.panicked ==> served.level == ErrorLevel && served.writtenStatus == Some(500) && RecoveryField in served.fields)
      && (!out.panicked ==> served.level == GetLogLevel(out.statusCode) && served.writtenStatus == None && RecoveryField !in served.fields)
    ensures var served := ServeWith(s, r, body, out, asWritten);
      !(asWritten && RequestDumped(s, body, out.statusCode)) ==>
        |served.fields| >= 6 && served.fields[..6] == BaseFields(s, r, out.statusCode)
    ensures var served := ServeWith(s, r, body, out, asWritten);
      asWritten && RequestDumped(s, body, out.statusCode) ==>
        && served.fields[0] == RequestField(body.value)
        && forall f :: f in served.fields ==> f.RequestField? || f.ResponseField? || f == RecoveryField
  {
    var served := ServeWith(s, r, body, out, asWritten);
    DumpedIsLogsRequest(s, body, out.statusCode);
    if out.panicked {
      assert served.fields[|served.fields| - 1] == RecoveryField;
    }
  }

  /** Under the options of `TestHttpServerMiddlewareAll` (dump on error off), a POST of
      `XXX` answered with `Hello World` below status 400 logs the request exactly when
      `WithDumpRequest(true)`, the response exactly when `WithDumpResponse(true)`, and
      the headers exactly when `WithHeaders(true)`. */
  lemma TestMiddlewareAllCases(t: C.Telemetry, dumpRequest: bool, dumpResponse: bool, headers: bool, status: int)
    requires status < 400
    ensures var s := C.ApplyOptions(C.Defaults(), [C.WithTel(t), C.WithDumpRequest(dumpRequest),
        C.WithDumpResponse(dumpResponse), C.WithDumpPayloadOnError(false), C.WithHeaders(headers)]);
      var served := ServeSpec(s, C.Request("POST", "/test", "/test", map[]), Some("XXX"), Outcome(status, Some("Hello World"), false));
      && served.Logged?
      && (RequestField("XXX") in served.fields <==> dumpRequest)
      && (ResponseField("Hello World") in served.fields <==> dumpResponse)
      && (served.headerLogged <==> headers)
  {
    var opts := [C.WithTel(t), C.WithDumpRequest(dumpRequest), C.WithDumpResponse(dumpResponse),
      C.WithDumpPayloadOnError(false), C.WithHeaders(headers)];
    var s := C.ApplyOptions(C.Defaults(), opts);
    var r := C.Request("POST", "/test", "/test", map[]);
    var out := Outcome(status, Some("Hello World"), false);
    var o1, o2, o3, o4, o5 := opts[0], opts[1], opts[2], opts[3], opts[4];
    var s1 := C.Step(C.Defaults(), o1);
    var s2 := C.Step(s1, o2);
    var s3 := C.Step(s2, o3);
    var s4 := C.Step(s3, o4);
    var s5 := C.Step(s4, o5);
    assert opts[1..] == [o2, o3, o4, o5] && opts[1..][1..] == [o3, o4, o5];
    assert opts[1..][1..][1..] == [o4, o5] && opts[1..][1..][1..][1..] == [o5];
    assert [o5][1..] == [];
    assert C.ApplyOptions(s4, [o5]) == C.ApplyOptions(s5, []) == s5;
    assert C.ApplyOptions(s3, [o4, o5]) == C.ApplyOptions(s4, [o5]);
    assert C.ApplyOptions(s2, [o3, o4, o5]) == C.ApplyOptions(s3, [o4, o5]);
    assert C.ApplyOptions(s1, [o2, o3, o4, o5]) == C.ApplyOptions(s2, [o3, o4, o5]);
    assert s == C.ApplyOptions(s1, [o2, o3, o4, o5]);
    assert s.filters == [C.DefaultFilter];
    assert s.readRequest == dumpRequest && s.writeResponse == dumpResponse;
    assert !s.dumpPayloadOnError && s.readHeader == headers;
    C.OthersInstrumented(r);
    assert !Rejected(s.filters, r);
    RequestLoggedIff(s, r, Some("XXX"), out, true);
    ResponseLoggedIff(s, r, Some("XXX"), out, true);
  }

  // ----- Finding: the request dump drops the base fields -----

  /** With `WithDumpRequest(true)` and a request body, the log line as written has lost
      the method, URL, status and the other base fields; with the dump added to them it
      keeps them. */
  lemma RequestDumpDropsFields(s: C.Settings, r: C.Request, b: string, status: int)
    requires s.readRequest && status < 400
    ensures MethodField(r.httpMethod) !in LogFieldsAsWritten(s, r, Some(b), Outcome(status, None, false))
    ensures LogFieldsAsWritten(s, r, Some(b), Outcome(status, None, false)) == [RequestField(b)]
    ensures LogFields(s, r, Some(b), Outcome(status, None, false)) == BaseFields(s, r, status) + [RequestField(b)]
  {
  }

  /** The two differ only in a dumped request's line: otherwise server.go's handler
      and the corrected one do the same. */
  lemma AsWrittenAgreesUnlessDumped(s: C.Settings, r: C.Request, body: Option<string>, out: Outcome)
    ensures ServeSpec(s, r, body, out) == ServeIntended(s, r, body, out) <==>
      Rejected(s.filters, r) || !RequestDumped(s, body, out.statusCode)
  {
    DumpedIsLogsRequest(s, body, out.statusCode);
    if !Rejected(s.filters, r) && RequestDumped(s, body, out.statusCode) {
      assert ServeSpec(s, r, body, out).fields[0] != ServeIntended(s, r, body, out).fields[0];
    }
  }
}
