/** What the gRPC interceptors of module/otelgrpc hand to their instruments, and the
    configuration they start from. An instrument is named by its map key; what a
    measurement carries is its attributes, and the durations a histogram receives are
    not modelled. */
module OtelGrpcMeasures {
  import opened Results

  /** `grpcType`. */
  datatype GrpcType = Unary | ClientStream | ServerStream | BidiStream

  /** A gRPC status code; `OK` is code 0. */
  datatype Code = Code(n: nat)

  const OK := Code(0)

  /** A constant label from `WithConstLabels`. */
  datatype Label = Label(key: string, value: string)

  /** The attributes of one measurement: the constant labels, then type, service and
      method, and the code for a handled counter. */
  datatype Attrs = Attrs(labels: seq<Label>, rpcType: GrpcType, serviceName: string, methodName: string, code: Option<Code>)

  /** One measurement: an `Add(1)` on a counter, or a `Record` on a histogram. */
  datatype Measure = Add(counter: string, attrs: Attrs) | Record(histogram: string, attrs: Attrs)

  /** The per-call reporter: the RPC's type and the two halves of its full method
      name (the split itself is not part of this model). */
  datatype Reporter = Reporter(rpcType: GrpcType, serviceName: string, methodName: string)

  function Base(labels: seq<Label>, r: Reporter): Attrs {
    Attrs(labels, r.rpcType, r.serviceName, r.methodName, None)
  }

  function WithCode(labels: seq<Label>, r: Reporter, c: Code): Attrs {
    Attrs(labels, r.rpcType, r.serviceName, r.methodName, Some(c))
  }

  /** The status code of a call's error: `OK` for no error. */
  function CodeOf(err: Option<Code>): Code {
    if err.None? then OK else err.value
  }

  /** How many of `ms` are adds on `counter`. */
  function CountOn(ms: seq<Measure>, counter: string): nat {
    if |ms| == 0 then 0
    else CountOn(ms[..|ms| - 1], counter) + (if ms[|ms| - 1].Add? && ms[|ms| - 1].counter == counter then 1 else 0)
  }

  lemma {:induction false} CountOnAppend(a: seq<Measure>, b: seq<Measure>, counter: string)
    ensures CountOn(a + b, counter) == CountOn(a, counter) + CountOn(b, counter)
    decreases |b|
  {
    if |b| == 0 {
      assert a + b == a;
    } else {
      assert (a + b)[..|a + b| - 1] == a + b[..|b| - 1];
      CountOnAppend(a, b[..|b| - 1], counter);
    }
  }

  lemma CountOnSingle(m: Measure, counter: string)
    ensures CountOn([m], counter) == if m.Add? && m.counter == counter then 1 else 0
  {
    assert [m][..0] == [];
  }

  // ----- config.go -----

  /** The options of config.go; the meter provider and the bucket are not used by what
      this model records. */
  datatype GrpcOption =
    | WithMeterProvider
    | WithConstLabels(l: seq<Label>)
    | WithBucket
    | WithServerHandledHistogram(v: bool)

  datatype Config = Config(labels: seq<Label>, serverHandledHistogramEnabled: bool)

  /** `newConfig`: the options in order from an empty record. */
  function NewConfig(opts: seq<GrpcOption>): Config {
    ApplyOptions(Config([], false), opts)
  }

  function ApplyOptions(c: Config, opts: seq<GrpcOption>): Config
    decreases |opts|
  {
    if |opts| == 0 then c
    else
      var c1 := match opts[0]
        case WithConstLabels(l) => c.(labels := l)
        case WithServerHandledHistogram(v) => c.(serverHandledHistogramEnabled := v)
        case _ => c;
      ApplyOptions(c1, opts[1..])
  }

  /** The last `WithConstLabels` decides the labels, and an option list without one
      leaves them empty. */
  lemma {:induction false} LastLabelsWin(c: Config, opts: seq<GrpcOption>, l: seq<Label>)
    ensures ApplyOptions(c, opts + [WithConstLabels(l)]).labels == l
    ensures (forall i :: 0 <= i < |opts| ==> !opts[i].WithConstLabels?) ==> ApplyOptions(c, opts).labels == c.labels
    decreases |opts|
  {
    if |opts| == 0 {
      assert [WithConstLabels(l)][1..] == [];
    } else {
      assert (opts + [WithConstLabels(l)])[1..] == opts[1..] + [WithConstLabels(l)];
      var c1 := match opts[0]
        case WithConstLabels(l0) => c.(labels := l0)
        case WithServerHandledHistogram(v) => c.(serverHandledHistogramEnabled := v)
        case _ => c;
      LastLabelsWin(c1, opts[1..], l);
    }
  }
}
