/** Configuration of the HTTP server middleware (middleware/http/config.go): the default
    span name and request filter, the `config` record and the options that set it. */
module HttpConfig {
  import opened GoStrings
  import HttpGroupers
  import Results

  /** The parts of an incoming request the middleware reads. */
  datatype Request = Request(httpMethod: string, requestUri: string, urlPath: string, header: map<string, seq<string>>)

  /** `otelhttp.Filter`: false means "do not instrument this request". */
  type Filter = Request -> bool

  /** `PathExtractor`: the path recorded for a request. */
  type PathExtractor = Request -> string

  /** The telemetry handle; only its identity matters here. */
  datatype Telemetry = GlobalTelemetry | Telemetry(id: nat)

  /** An OpenTelemetry handler option, by kind. */
  datatype OtelOption =
    | SpanNameFormatterOpt
    | FilterOpt(f: Filter)
    | MeterProviderOpt(meterOf: Telemetry)
    | TracerProviderOpt(tracerOf: Telemetry)
    | OtherOtelOpt(name: string)

  /** `DefaultSpanNameFormatter`: the method, a colon and the grouped URL path; the
      operation name is ignored. */
  function DefaultSpanNameFormatter(operation: string, r: Request): string {
    r.httpMethod + ":" + HttpGroupers.DecreaseSpec(r.urlPath)
  }

  /** `DefaultFilter`: a websocket upgrade and a GET of `/health...` are not instrumented. */
  predicate DefaultFilter(r: Request) {
    if "Upgrade" in r.header && "websocket" in r.header["Upgrade"] then false
    else !(r.httpMethod == "GET" && HasPrefix(r.requestUri, "/health"))
  }

  /** `DefaultURI`: the request URI. */
  function DefaultUri(r: Request): string {
    r.requestUri
  }

  /** The `config` record. */
  datatype Settings = Settings(
    log: Telemetry,
    operation: string,
    otelOpts: seq<OtelOption>,
    pathExtractor: PathExtractor,
    filters: seq<Filter>,
    readRequest: bool,
    readHeader: bool,
    writeResponse: bool,
    dumpPayloadOnError: bool)

  /** What `newConfig` starts from. */
  function Defaults(): Settings {
    Settings(GlobalTelemetry, "HTTP", [SpanNameFormatterOpt, FilterOpt(DefaultFilter)], DefaultUri,
      [DefaultFilter], false, false, false, true)
  }

  datatype Option =
    | WithTel(t: Telemetry)
    | WithOperation(name: string)
    | WithOtelOpts(opts: seq<OtelOption>)
    | WithPathExtractor(extractor: PathExtractor)
    | WithFilter(fs: seq<Filter>)
    | WithDumpRequest(enable: bool)
    | WithHeaders(enable: bool)
    | WithDumpResponse(enable: bool)
    | WithDumpPayloadOnError(enable: bool)

  /** One otel filter option per filter, in order. */
  function FilterOpts(fs: seq<Filter>): (os: seq<OtelOption>)
    ensures |os| == |fs| && forall i :: 0 <= i < |fs| ==> os[i] == FilterOpt(fs[i])
  {
    seq(|fs|, i requires 0 <= i < |fs| => FilterOpt(fs[i]))
  }

  /** What applying one option does to the record. */
  function Step(s: Settings, o: Option): Settings {
    match o
    case WithTel(t) => s.(log := t, otelOpts := s.otelOpts + [MeterProviderOpt(t), TracerProviderOpt(t)])
    case WithOperation(name) => s.(operation := name)
    case WithOtelOpts(opts) => s.(otelOpts := s.otelOpts + opts)
    case WithPathExtractor(f) => s.(pathExtractor := f)
    case WithFilter(fs) => s.(filters := s.filters + fs, otelOpts := s.otelOpts + FilterOpts(fs))
    case WithDumpRequest(b) => s.(readRequest := b)
    case WithHeaders(b) => s.(readHeader := b)
    case WithDumpResponse(b) => s.(writeResponse := b)
    case WithDumpPayloadOnError(b) => s.(dumpPayloadOnError := b)
  }

  /** The options applied in order. */
  function ApplyOptions(s: Settings, opts: seq<Option>): Settings
    decreases |opts|
  {
    if |opts| == 0 then s else ApplyOptions(Step(s, opts[0]), opts[1..])
  }

  /** The mutable `config`, which option closures update in place. */
  class Config {
    var log: Telemetry
    var operation: string
    var otelOpts: seq<OtelOption>
    var pathExtractor: PathExtractor
    var filters: seq<Filter>
    var readRequest: bool
    var readHeader: bool
    var writeResponse: bool
    var dumpPayloadOnError: bool

    function Value(): Settings
      reads this
    {
      Settings(log, operation, otelOpts, pathExtractor, filters, readRequest, readHeader, writeResponse, dumpPayloadOnError)
    }

    /** The record `newConfig` allocates before applying options. */
    constructor ()
      ensures Value() == Defaults()
    {
      log := GlobalTelemetry;
      operation := "HTTP";
      otelOpts := [SpanNameFormatterOpt, FilterOpt(DefaultFilter)];
      pathExtractor := DefaultUri;
      filters := [DefaultFilter];
      readRequest := false;
      readHeader := false;
      writeResponse := false;
      dumpPayloadOnError := true;
    }

    /** `opt.apply(c)`. */
    method Apply(o: Option)
      modifies this
      ensures Value() == Step(old(Value()), o)
    {
      match o {
        case WithTel(t) =>
          log := t;
          otelOpts := otelOpts + [MeterProviderOpt(t), TracerProviderOpt(t)];
        case WithOperation(name) =>
          operation := name;
        case WithOtelOpts(opts) =>
          otelOpts := otelOpts + opts;
        case WithPathExtractor(f) =>
          pathExtractor := f;
        case WithFilter(fs) =>
          filters := filters + fs;
          var i := 0;
          while i < |fs|
            invariant 0 <= i <= |fs|
            invariant Value() == old(Value()).(filters := old(filters) + fs, otelOpts := old(otelOpts) + FilterOpts(fs[..i]))
          {
            assert FilterOpts(fs[..i + 1]) == FilterOpts(fs[..i]) + [FilterOpt(fs[i])];
            otelOpts := otelOpts + [FilterOpt(fs[i])];
            i := i + 1;
          }
          assert fs[..i] == fs;
        case WithDumpRequest(b) =>
          readRequest := b;
        case WithHeaders(b) =>
          readHeader := b;
        case WithDumpResponse(b) =>
          writeResponse := b;
        case WithDumpPayloadOnError(b) =>
          dumpPayloadOnError := b;
      }
    }
  }

  /** `newConfig`: the defaults, then every option in order. */
  method NewConfig(opts: seq<Option>) returns (c: Config)
    ensures fresh(c)
    ensures c.Value() == ApplyOptions(Defaults(), opts)
  {
    c := new Config();
    var i := 0;
    assert opts[0..] == opts;
    while i < |opts|
      invariant 0 <= i <= |opts|
      invariant ApplyOptions(c.Value(), opts[i..]) == ApplyOptions(Defaults(), opts)
    {
      assert opts[i..][0] == opts[i] && opts[i..][1..] == opts[i + 1..];
      c.Apply(opts[i]);
      i := i + 1;
    }
  }

  // ----- Properties -----

  /** The span name is the method, `:` and a path that starts with `/` and has the
      segments of the request path, each grouped; the operation plays no part. */
  lemma SpanNameShape(operation: string, r: Request)
    ensures var s := DefaultSpanNameFormatter(operation, r); var n := |r.httpMethod|;
      && |s| > n + 1 && s[..n] == r.httpMethod && s[n] == ':' && s[n + 1] == '/'
      && HttpGroupers.PathSegments(s[n + 1..]) == HttpGroupers.ReduceAll(HttpGroupers.PathSegments(r.urlPath))
    ensures forall other :: DefaultSpanNameFormatter(other, r) == DefaultSpanNameFormatter(operation, r)
  {
    var s := DefaultSpanNameFormatter(operation, r);
    var n := |r.httpMethod|;
    HttpGroupers.DecreaseSegmentwise(r.urlPath);
    assert s[n + 1..] == HttpGroupers.DecreaseSpec(r.urlPath);
  }

  /** A request carrying `Upgrade: websocket` among its upgrade values is never
      instrumented. */
  lemma WebsocketFiltered(r: Request)
    requires "Upgrade" in r.header && exists i :: 0 <= i < |r.header["Upgrade"]| && r.header["Upgrade"][i] == "websocket"
    ensures !DefaultFilter(r)
  {
  }

  /** Every GET whose request URI starts with `/health` is not instrumented, whatever
      follows: `/health`, `/healthz`, `/health/live`. */
  lemma HealthFiltered(httpMethod: string, suffix: string, path: string, header: map<string, seq<string>>)
    requires httpMethod == "GET"
    ensures !DefaultFilter(Request(httpMethod, "/health" + suffix, path, header))
  {
    assert ("/health" + suffix)[..|"/health"|] == "/health";
  }

  /** Every other request is instrumented: no websocket upgrade, and either not a GET
      or a request URI that does not start with `/health`. */
  lemma OthersInstrumented(r: Request)
    requires !("Upgrade" in r.header && "websocket" in r.header["Upgrade"])
    requires r.httpMethod != "GET" || !HasPrefix(r.requestUri, "/health")
    ensures DefaultFilter(r)
  {
  }

  /** The four flags. */
  datatype Flag = ReadRequest | ReadHeader | WriteResponse | DumpPayloadOnError

  function FlagOf(s: Settings, f: Flag): bool {
    match f
    case ReadRequest => s.readRequest
    case ReadHeader => s.readHeader
    case WriteResponse => s.writeResponse
    case DumpPayloadOnError => s.dumpPayloadOnError
  }

  /** The value an option gives a flag, if it sets that flag. */
  function Sets(o: Option, f: Flag): Results.Option<bool> {
    match o
    case WithDumpRequest(b) => if f == ReadRequest then Results.Some(b) else Results.None
    case WithHeaders(b) => if f == ReadHeader then Results.Some(b) else Results.None
    case WithDumpResponse(b) => if f == WriteResponse then Results.Some(b) else Results.None
    case WithDumpPayloadOnError(b) => if f == DumpPayloadOnError then Results.Some(b) else Results.None
    case _ => Results.None
  }

  /** The value set by the last option that sets the flag, else `d`. */
  function LastSet(opts: seq<Option>, f: Flag, d: bool): bool
    decreases |opts|
  {
    if |opts| == 0 then d
    else match Sets(opts[|opts| - 1], f)
      case Some(b) => b
      case None => LastSet(opts[..|opts| - 1], f, d)
  }

  /** Options are applied in order, so running a list and one more option is running
      the list, then the option. */
  lemma {:induction false} ApplyOptionsSnoc(s: Settings, opts: seq<Option>, o: Option)
    ensures ApplyOptions(s, opts + [o]) == Step(ApplyOptions(s, opts), o)
    decreases |opts|
  {
    if |opts| == 0 {
      assert [o][1..] == [];
    } else {
      assert (opts + [o])[1..] == opts[1..] + [o];
      ApplyOptionsSnoc(Step(s, opts[0]), opts[1..], o);
    }
  }

  /** Each flag option sets its own flag and nothing else; every other option leaves
      all four flags alone. */
  lemma StepFlag(s: Settings, o: Option, f: Flag)
    ensures FlagOf(Step(s, o), f) == match Sets(o, f) case Some(b) => b case None => FlagOf(s, f)
    ensures o.WithDumpRequest? || o.WithHeaders? || o.WithDumpResponse? || o.WithDumpPayloadOnError? ==>
      Step(s, o).(readRequest := s.readRequest, readHeader := s.readHeader,
                  writeResponse := s.writeResponse, dumpPayloadOnError := s.dumpPayloadOnError) == s
  {
  }

  /** After any options, each flag holds the value of the last option that sets it, or
      its previous value when none does. */
  lemma {:induction false} FlagLastWins(s: Settings, opts: seq<Option>, f: Flag)
    ensures FlagOf(ApplyOptions(s, opts), f) == LastSet(opts, f, FlagOf(s, f))
    decreases |opts|
  {
    if |opts| > 0 {
      var init := opts[..|opts| - 1];
      var o := opts[|opts| - 1];
      assert opts == init + [o];
      ApplyOptionsSnoc(s, init, o);
      FlagLastWins(s, init, f);
      StepFlag(ApplyOptions(s, init), o, f);
    }
  }

  /** The filters `WithFilter` options add, in order. */
  function AddedFilters(opts: seq<Option>): seq<Filter>
    decreases |opts|
  {
    if |opts| == 0 then []
    else AddedFilters(opts[..|opts| - 1]) + (match opts[|opts| - 1] case WithFilter(fs) => fs case _ => [])
  }

  /** Filters only accumulate: the defaults come first, then every filter any
      `WithFilter` option gave, in option order. */
  lemma {:induction false} FiltersAccumulate(opts: seq<Option>)
    ensures ApplyOptions(Defaults(), opts).filters == [DefaultFilter] + AddedFilters(opts)
    decreases |opts|
  {
    if |opts| > 0 {
      var init := opts[..|opts| - 1];
      var o := opts[|opts| - 1];
      assert opts == init + [o];
      ApplyOptionsSnoc(Defaults(), init, o);
      FiltersAccumulate(init);
    }
  }
}
