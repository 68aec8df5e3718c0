/** The chi middleware stack (middleware/gapchi): a builder that registers middleware
    kinds under fixed names and builds them in a fixed order, the response writer that
    keeps a copy of the status and body, and the route-parameter cleaner. */
module Gapchi {
  import opened GoStrings
  import opened Results

  // ----- MiddlewareBuilder -----

  /** `MiddlewareOptions`. */
  datatype MiddlewareOptions = MiddlewareOptions(
    serviceName: string,
    enabledLogger: bool,
    enabledTracer: bool,
    enabledRecover: bool,
    enabledMetrics: bool)

  /** The four middlewares the builder knows. */
  datatype Kind = Trace | Logger | Recovery | Metrics

  /** The map key each `Add*` writes. */
  function KeyOf(k: Kind): string {
    match k
    case Trace => "trace.middleware"
    case Logger => "logger.middleware"
    case Recovery => "recovery.middleware"
    case Metrics => "metrics.middleware"
  }

  /** No two kinds share a key. */
  lemma KeysDistinct(j: Kind, k: Kind)
    ensures KeyOf(j) == KeyOf(k) ==> j == k
  {
    assert |KeyOf(Trace)| == 16 && |KeyOf(Logger)| == 17;
    assert |KeyOf(Metrics)| == 18 && |KeyOf(Recovery)| == 19;
  }

  /** A middleware as `Build` produces it: its kind and the options it was made with. */
  datatype Middleware = Middleware(kind: Kind, opt: MiddlewareOptions)

  datatype BuildError = OptionsBlank

  /** The slots `Build` fills, in order: recovery wraps everything, and a second
      recovery sits next to the handler. */
  const StackOrder: seq<Kind> := [Recovery, Metrics, Trace, Logger, Recovery]

  /** The kinds of `order` that are registered, in order. */
  function Registered(order: seq<Kind>, middlewares: map<string, Kind>): (r: seq<Kind>)
    ensures |r| <= |order|
  {
    if |order| == 0 then []
    else (if KeyOf(order[0]) in middlewares then [order[0]] else []) + Registered(order[1..], middlewares)
  }

  /** What `Build` returns for a builder with these options and registrations. */
  function BuildSpec(opt: Option<MiddlewareOptions>, middlewares: map<string, Kind>): Result<seq<Middleware>, BuildError> {
    if opt.None? then Failure(OptionsBlank)
    else
      var kinds := Registered(StackOrder, middlewares);
      Success(Instances(kinds, opt.value))
  }

  /** `MiddlewareBuilder`; the logger, tracer and metrics it hands to the middlewares
      are not part of this model. Each map entry stands for the factory of its kind. */
  class MiddlewareBuilder {
    var opt: Option<MiddlewareOptions>
    var middlewares: map<string, Kind>

    /** Every entry sits under its own kind's key. */
    predicate Valid()
      reads this
    {
      forall key :: key in middlewares ==> KeyOf(middlewares[key]) == key
    }

    /** `NewMiddlewareBuilder`. */
    constructor (opt: Option<MiddlewareOptions>)
      ensures Valid() && this.opt == opt && middlewares == map[]
    {
      this.opt := opt;
      middlewares := map[];
    }

    /** The common body of the four `Add*` methods: write the kind's fixed key. */
    method Add(k: Kind) returns (b: MiddlewareBuilder)
      requires Valid()
      modifies this
      ensures Valid() && b == this && opt == old(opt)
      ensures middlewares == old(middlewares)[KeyOf(k) := k]
    {
      middlewares := middlewares[KeyOf(k) := k];
      b := this;
    }

    method AddTrace() returns (b: MiddlewareBuilder)
      requires Valid()
      modifies this
      ensures Valid() && b == this && opt == old(opt)
      ensures middlewares == old(middlewares)[KeyOf(Trace) := Trace]
    {
      b := Add(Trace);
    }

    method AddLogger() returns (b: MiddlewareBuilder)
      requires Valid()
      modifies this
      ensures Valid() && b == this && opt == old(opt)
      ensures middlewares == old(middlewares)[KeyOf(Logger) := Logger]
    {
      b := Add(Logger);
    }

    method AddMiddlewareRecover() returns (b: MiddlewareBuilder)
      requires Valid()
      modifies this
      ensures Valid() && b == this && opt == old(opt)
      ensures middlewares == old(middlewares)[KeyOf(Recovery) := Recovery]
    {
      b := Add(Recovery);
    }

    method AddMiddlewareMeter() returns (b: MiddlewareBuilder)
      requires Valid()
      modifies this
      ensures Valid() && b == this && opt == old(opt)
      ensures middlewares == old(middlewares)[KeyOf(Metrics) := Metrics]
    {
      b := Add(Metrics);
    }

    /** One lookup of `Build`: the kind's middleware if it is registered. */
    method Lookup(k: Kind, o: MiddlewareOptions) returns (found: seq<Middleware>)
      requires Valid()
      ensures found == Instances(Slot(k, middlewares), o)
    {
      found := [];
      if KeyOf(k) in middlewares {
        KeysDistinct(middlewares[KeyOf(k)], k);
        found := [Middleware(middlewares[KeyOf(k)], o)];
      }
    }

    /** `Build`: five lookups in the fixed order. */
    method Build() returns (r: Result<seq<Middleware>, BuildError>)
      requires Valid()
      ensures r == BuildSpec(opt, middlewares)
    {
      if opt.None? {
        return Failure(OptionsBlank);
      }
      var o := opt.value;
      var recMidForMid := Lookup(Recovery, o);
      var metrMid := Lookup(Metrics, o);
      var traceMid := Lookup(Trace, o);
      var logMid := Lookup(Logger, o);
      var recMidSrv := Lookup(Recovery, o);
      var out := recMidForMid + metrMid + traceMid + logMid + recMidSrv;
      RegisteredStack(middlewares);
      var m := middlewares;
      InstancesAppend(Slot(Recovery, m), Slot(Metrics, m), o);
      InstancesAppend(Slot(Recovery, m) + Slot(Metrics, m), Slot(Trace, m), o);
      InstancesAppend(Slot(Recovery, m) + Slot(Metrics, m) + Slot(Trace, m), Slot(Logger, m), o);
      InstancesAppend(Slot(Recovery, m) + Slot(Metrics, m) + Slot(Trace, m) + Slot(Logger, m), Slot(Recovery, m), o);
      r := Success(out);
    }
  }

  /** The registered kind of one slot. */
  function Slot(k: Kind, m: map<string, Kind>): seq<Kind> {
    if KeyOf(k) in m then [k] else []
  }

  /** One middleware per kind, all made with `o`. */
  function Instances(kinds: seq<Kind>, o: MiddlewareOptions): (r: seq<Middleware>)
    ensures |r| == |kinds| && forall i :: 0 <= i < |kinds| ==> r[i] == Middleware(kinds[i], o)
  {
    seq(|kinds|, i requires 0 <= i < |kinds| => Middleware(kinds[i], o))
  }

  lemma InstancesAppend(a: seq<Kind>, b: seq<Kind>, o: MiddlewareOptions)
    ensures Instances(a + b, o) == Instances(a, o) + Instances(b, o)
  {
  }

  /** The slot-by-slot form of the registered stack. */
  lemma RegisteredStack(m: map<string, Kind>)
    ensures Registered(StackOrder, m)
      == Slot(Recovery, m) + Slot(Metrics, m) + Slot(Trace, m) + Slot(Logger, m) + Slot(Recovery, m)
  {
    var s := StackOrder;
    assert s[1..][1..][1..][1..][1..] == [];
    var a := Registered(s[1..][1..][1..][1..], m);
    var b := Registered(s[1..][1..][1..], m);
    var c := Registered(s[1..][1..], m);
    var d := Registered(s[1..], m);
    assert a == (if KeyOf(Recovery) in m then [Recovery] else []);
    assert b == (if KeyOf(Logger) in m then [Logger] else []) + a;
    assert c == (if KeyOf(Trace) in m then [Trace] else []) + b;
    assert d == (if KeyOf(Metrics) in m then [Metrics] else []) + c;
  }

  function Count(b: bool): nat { if b then 1 else 0 }

  /** Without options `Build` fails. With them, the built stack is recovery first and
      last when registered, then metrics, trace and logger in that order, each only when
      registered, all made with those options. */
  lemma BuildOrder(o: MiddlewareOptions, middlewares: map<string, Kind>)
    requires forall key :: key in middlewares ==> KeyOf(middlewares[key]) == key
    ensures BuildSpec(None, middlewares) == Failure(OptionsBlank)
    ensures var r := BuildSpec(Some(o), middlewares).value;
      var rec, met, tr, lg := KeyOf(Recovery) in middlewares, KeyOf(Metrics) in middlewares,
        KeyOf(Trace) in middlewares, KeyOf(Logger) in middlewares;
      && |r| == 2 * Count(rec) + Count(met) + Count(tr) + Count(lg)
      && (forall i :: 0 <= i < |r| ==> r[i].opt == o)
      && (rec ==> r[0].kind == Recovery && r[|r| - 1].kind == Recovery)
      && (met ==> r[Count(rec)].kind == Metrics)
      && (tr ==> r[Count(rec) + Count(met)].kind == Trace)
      && (lg ==> r[Count(rec) + Count(met) + Count(tr)].kind == Logger)
  {
    RegisteredStack(middlewares);
  }

  /** Registering a kind twice is the same as registering it once, and the order of
      registration does not change what is built. */
  lemma AddCommutesAndRepeats(middlewares: map<string, Kind>, j: Kind, k: Kind, opt: Option<MiddlewareOptions>)
    ensures middlewares[KeyOf(k) := k][KeyOf(k) := k] == middlewares[KeyOf(k) := k]
    ensures BuildSpec(opt, middlewares[KeyOf(j) := j][KeyOf(k) := k])
      == BuildSpec(opt, middlewares[KeyOf(k) := k][KeyOf(j) := j])
  {
    var m1 := middlewares[KeyOf(j) := j][KeyOf(k) := k];
    var m2 := middlewares[KeyOf(k) := k][KeyOf(j) := j];
    assert m1.Keys == m2.Keys;
    RegisteredSameKeys(StackOrder, m1, m2);
  }

  lemma {:induction false} RegisteredSameKeys(order: seq<Kind>, m1: map<string, Kind>, m2: map<string, Kind>)
    requires m1.Keys == m2.Keys
    ensures Registered(order, m1) == Registered(order, m2)
    decreases |order|
  {
    if |order| > 0 {
      RegisteredSameKeys(order[1..], m1, m2);
    }
  }

  // ----- WrapWriter -----

  /** A call the wrapper passes on to the writer it wraps. */
  datatype Call = WriteCall(data: seq<byte>) | WriteHeaderCall(statusCode: int)

  /** The wrapped `http.ResponseWriter`, as a recorder of the calls it receives that
      accepts every write in full. */
  class Recorder {
    var calls: seq<Call>

    constructor ()
      ensures calls == []
    {
      calls := [];
    }

    method Write(data: seq<byte>) returns (n: int, err: Option<string>)
      modifies this
      ensures calls == old(calls) + [WriteCall(data)] && n == |data| && err.None?
    {
      calls := calls + [WriteCall(data)];
      n, err := |data|, None;
    }

    method WriteHeader(statusCode: int)
      modifies this
      ensures calls == old(calls) + [WriteHeaderCall(statusCode)]
    {
      calls := calls + [WriteHeaderCall(statusCode)];
    }
  }

  /** The bytes of every write in `calls`, in order. */
  function BodyOf(calls: seq<Call>): seq<byte> {
    if |calls| == 0 then []
    else BodyOf(calls[..|calls| - 1]) + (match calls[|calls| - 1] case WriteCall(d) => d case _ => [])
  }

  /** The status of the last header write in `calls`, or 0 if there is none. */
  function StatusOf(calls: seq<Call>): int {
    if |calls| == 0 then 0
    else match calls[|calls| - 1]
      case WriteHeaderCall(code) => code
      case _ => StatusOf(calls[..|calls| - 1])
  }

  /** `WrapWriter`: a copy of the status and body next to the wrapped writer. */
  class WrapWriter {
    var status: int
    var body: seq<byte>
    const inner: Recorder
    /** The calls made through this wrapper so far. */
    ghost var history: seq<Call>

    /** The status and body are those the history determines. */
    ghost predicate Valid()
      reads this
    {
      body == BodyOf(history) && status == StatusOf(history)
    }

    /** `NewWrapWriter`. */
    constructor (inner: Recorder)
      ensures Valid() && this.inner == inner && history == [] && body == [] && status == 0
    {
      status := 0;
      body := [];
      this.inner := inner;
      history := [];
    }

    /** `Write`: keep a copy, then forward the same bytes. */
    method Write(i: seq<byte>) returns (n: int, err: Option<string>)
      requires Valid()
      modifies this, inner
      ensures Valid() && history == old(history) + [WriteCall(i)]
      ensures body == old(body) + i && status == old(status)
      ensures inner.calls == old(inner.calls) + [WriteCall(i)]
      ensures n == |i| && err.None?
    {
      body := body + i;
      history := history + [WriteCall(i)];
      assert history[..|history| - 1] == old(history);
      n, err := inner.Write(i);
    }

    /** `WriteHeader`: keep the status, then forward it. */
    method WriteHeader(statusCode: int)
      requires Valid()
      modifies this, inner
      ensures Valid() && history == old(history) + [WriteHeaderCall(statusCode)]
      ensures status == statusCode && body == old(body)
      ensures inner.calls == old(inner.calls) + [WriteHeaderCall(statusCode)]
    {
      status := statusCode;
      history := history + [WriteHeaderCall(statusCode)];
      assert history[..|history| - 1] == old(history);
      inner.WriteHeader(statusCode);
    }

    /** `Status`. */
    method Status() returns (s: int)
      requires Valid()
      ensures s == StatusOf(history)
    {
      s := status;
    }

    /** `Body`. */
    method Body() returns (b: seq<byte>)
      requires Valid()
      ensures b == BodyOf(history)
    {
      b := body;
    }
  }

  /** The written bytes of a history made only of writes are their concatenation. */
  lemma {:induction false} BodyOfWrites(ds: seq<seq<byte>>, calls: seq<Call>)
    requires |calls| == |ds| && forall i :: 0 <= i < |ds| ==> calls[i] == WriteCall(ds[i])
    ensures BodyOf(calls) == Flatten(ds)
    ensures StatusOf(calls) == 0
    decreases |ds|
  {
    if |ds| > 0 {
      BodyOfWrites(ds[..|ds| - 1], calls[..|calls| - 1]);
      FlattenSnoc(ds[..|ds| - 1], ds[|ds| - 1]);
      assert ds == ds[..|ds| - 1] + [ds[|ds| - 1]];
    }
  }

  function Flatten(ds: seq<seq<byte>>): seq<byte> {
    if |ds| == 0 then [] else ds[0] + Flatten(ds[1..])
  }

  lemma {:induction false} FlattenSnoc(ds: seq<seq<byte>>, d: seq<byte>)
    ensures Flatten(ds + [d]) == Flatten(ds) + d
    decreases |ds|
  {
    if |ds| == 0 {
      assert [d][1..] == [];
    } else {
      assert (ds + [d])[1..] == ds[1..] + [d];
      FlattenSnoc(ds[1..], d);
    }
  }

  /** Header writes leave the body alone and body writes leave the status alone: the
      body is the writes in order and the status is the last header write after the
      history is split at any point. */
  lemma HistorySplit(h1: seq<Call>, h2: seq<Call>)
    ensures BodyOf(h1 + h2) == BodyOf(h1) + BodyOf(h2)
    ensures StatusOf(h1 + h2) == if StatusOf(h2) != 0 || HasHeader(h2) then StatusOf(h2) else StatusOf(h1)
  {
    BodySplit(h1, h2);
    StatusSplit(h1, h2);
  }

  lemma {:induction false} BodySplit(h1: seq<Call>, h2: seq<Call>)
    ensures BodyOf(h1 + h2) == BodyOf(h1) + BodyOf(h2)
    decreases |h2|
  {
    if |h2| == 0 {
      assert h1 + h2 == h1;
    } else {
      var init := h2[..|h2| - 1];
      var d := match h2[|h2| - 1] case WriteCall(d) => d case _ => [];
      assert (h1 + h2)[..|h1 + h2| - 1] == h1 + init;
      assert BodyOf(h1 + h2) == BodyOf(h1 + init) + d;
      BodySplit(h1, init);
      assert BodyOf(h1) + BodyOf(init) + d == BodyOf(h1) + (BodyOf(init) + d);
    }
  }

  lemma {:induction false} StatusSplit(h1: seq<Call>, h2: seq<Call>)
    ensures StatusOf(h1 + h2) == if StatusOf(h2) != 0 || HasHeader(h2) then StatusOf(h2) else StatusOf(h1)
    decreases |h2|
  {
    if |h2| == 0 {
      assert h1 + h2 == h1;
    } else {
      var init := h2[..|h2| - 1];
      assert (h1 + h2)[..|h1 + h2| - 1] == h1 + init;
      if h2[|h2| - 1].WriteHeaderCall? {
        assert HasHeader(h2) by { assert h2[|h2| - 1].WriteHeaderCall?; }
      } else {
        StatusSplit(h1, init);
        HeaderInInit(h2);
      }
    }
  }

  /** Without a header write at its end, a history has one iff all but its last call do. */
  lemma HeaderInInit(h: seq<Call>)
    requires |h| > 0 && !h[|h| - 1].WriteHeaderCall?
    ensures HasHeader(h) == HasHeader(h[..|h| - 1])
  {
    var init := h[..|h| - 1];
    if HasHeader(h) {
      var i :| 0 <= i < |h| && h[i].WriteHeaderCall?;
      assert init[i] == h[i];
    }
    if HasHeader(init) {
      var i :| 0 <= i < |init| && init[i].WriteHeaderCall?;
      assert h[i] == init[i];
    }
  }


  predicate HasHeader(calls: seq<Call>) {
    exists i :: 0 <= i < |calls| && calls[i].WriteHeaderCall?
  }

  // ----- RemoveChiPathParam -----

  /** chi's `RouteParams`: keys and values added in pairs. */
  datatype RouteParams = RouteParams(keys: seq<string>, values: seq<string>)

  /** The parts of a request the cleaner reads: the URL path and, when the router set
      one, the route context's parameters. */
  datatype ChiRequest = ChiRequest(urlPath: string, routeContext: Option<RouteParams>)

  /** Every value, in order, replaced at its first occurrence in the path as it stands by
      then with its key. */
  function ReplaceParams(path: string, keys: seq<string>, values: seq<string>): string
    requires |values| <= |keys|
    decreases |values|
  {
    if |values| == 0 then path
    else ReplaceParams(ReplaceFirst(path, values[0], keys[0]), keys[1..], values[1..])
  }

  /** `RemoveChiPathParam`. The source indexes `Keys` by the position of each value, so
      there must be a key for every value. */
  method RemoveChiPathParam(request: ChiRequest) returns (path: string)
    requires request.routeContext.Some? ==> |request.routeContext.value.values| <= |request.routeContext.value.keys|
    ensures request.routeContext.None? ==> path == request.urlPath
    ensures request.routeContext.Some? ==>
      path == ReplaceParams(request.urlPath, request.routeContext.value.keys, request.routeContext.value.values)
  {
    path := request.urlPath;
    if request.routeContext.Some? {
      var rctx := request.routeContext.value;
      for i := 0 to |rctx.values|
        invariant ReplaceParams(path, rctx.keys[i..], rctx.values[i..])
          == ReplaceParams(request.urlPath, rctx.keys, rctx.values)
      {
        assert rctx.values[i..][1..] == rctx.values[i + 1..] && rctx.keys[i..][1..] == rctx.keys[i + 1..];
        path := ReplaceFirst(path, rctx.values[i], rctx.keys[i]);
      }
    }
  }

  /** One step: a value that occurs is replaced by its key at its first occurrence,
      everything around it kept; a value that does not occur changes nothing. */
  lemma ReplaceStep(path: string, value: string, key: string)
    ensures var k := Index(path, value); var r := ReplaceFirst(path, value, key);
      && (k == -1 <==> forall i :: !OccursAt(path, value, i))
      && (k == -1 ==> r == path)
      && (k >= 0 ==> |r| == |path| - |value| + |key| && r[..k] == path[..k] && OccursAt(r, key, k)
                     && r[k + |key|..] == path[k + |value|..])
  {
    var k := Index(path, value);
    if k >= 0 {
      var r := ReplaceFirst(path, value, key);
      assert r[k..k + |key|] == key;
    }
  }

  /** The steps run in order on the path as it stands: the first pair applies before
      the rest see the path. */
  lemma {:induction false} ReplaceParamsSplit(path: string, keys: seq<string>, values: seq<string>, n: nat)
    requires |values| <= |keys| && n <= |values|
    ensures ReplaceParams(path, keys, values)
      == ReplaceParams(ReplaceParams(path, keys[..n], values[..n]), keys[n..], values[n..])
    decreases n
  {
    if n > 0 {
      assert keys[..n][1..] == keys[1..][..n - 1] && values[..n][1..] == values[1..][..n - 1];
      assert keys[n..] == keys[1..][n - 1..] && values[n..] == values[1..][n - 1..];
      ReplaceParamsSplit(ReplaceFirst(path, values[0], keys[0]), keys[1..], values[1..], n - 1);
    } else {
      assert keys[..0] == [] && values[..0] == [] && keys[0..] == keys && values[0..] == values;
    }
  }

  /** The replacement is not anchored to path segments: a value that also occurs inside
      an earlier segment is replaced there. With `id = 1`, `/v1/items/1` becomes
      `/vid/items/1`. */
  lemma ValueInsideEarlierSegment()
    ensures ReplaceParams("/v1/items/1", ["id"], ["1"]) == "/vid/items/1"
  {
    var p := "/v1/items/1";
    assert p[0] == '/' && p[1] == 'v' && p[2] == '1';
    assert p[0..1] == [p[0]] && p[1..2] == [p[1]] && p[2..3] == [p[2]];
    assert Index(p, "1") == 2;
    assert ReplaceFirst(p, "1", "id") == "/v" + "id" + p[3..];
  }
}
