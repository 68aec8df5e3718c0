/** The server side of module/otelgrpc (server_metrics.go, server_reporter.go): the
    counters and histogram `NewServerMetrics` creates, and what the unary and stream
    interceptors and the wrapped server stream record. */
module OtelGrpcServer {
  import opened Results
  import opened OtelGrpcMeasures

  const ServerStartedCounter := "grpc_server_started_total"
  const ServerHandledCounter := "grpc_server_handled_total"
  const ServerStreamMsgReceived := "grpc_server_msg_received_total"
  /** The sent-messages counter name as server_metrics.go:17 writes it: the received
      name again. */
  const ServerStreamMsgSentAsWritten := "grpc_server_msg_received_total"
  /** The sent-messages counter name its description calls for. */
  const ServerStreamMsgSent := "grpc_server_msg_sent_total"
  const ServerHandledHistogram := "grpc_server_handling_seconds"

  /** The counter names are pairwise distinct once the sent counter has its own name. */
  lemma CounterNamesDistinct()
    ensures ServerStartedCounter != ServerHandledCounter
    ensures ServerStartedCounter != ServerStreamMsgReceived && ServerStartedCounter != ServerStreamMsgSent
    ensures ServerHandledCounter != ServerStreamMsgReceived && ServerHandledCounter != ServerStreamMsgSent
    ensures ServerStreamMsgReceived != ServerStreamMsgSent
  {
    assert ServerStartedCounter[12] == 's' && ServerHandledCounter[12] == 'h';
    assert ServerStreamMsgReceived[12] == 'm' && ServerStreamMsgSent[12] == 'm';
    assert ServerStreamMsgReceived[16] == 'r' && ServerStreamMsgSent[16] == 's';
  }

  /** `streamRPCType`. */
  function StreamRPCType(isClientStream: bool, isServerStream: bool): GrpcType {
    if isClientStream && !isServerStream then ClientStream
    else if !isClientStream && isServerStream then ServerStream
    else BidiStream
  }

  /** Only one direction streaming names that direction; both or neither is
      bidirectional, and a stream is never reported as unary. */
  lemma StreamRPCTypeCases(isClientStream: bool, isServerStream: bool)
    ensures var t := StreamRPCType(isClientStream, isServerStream);
      && (t == ClientStream <==> isClientStream && !isServerStream)
      && (t == ServerStream <==> !isClientStream && isServerStream)
      && (t == BidiStream <==> isClientStream == isServerStream)
      && t != Unary
  {
  }

  // ----- What each reporter call records -----

  function Started(labels: seq<Label>, r: Reporter): seq<Measure> {
    [Add(ServerStartedCounter, Base(labels, r))]
  }

  function Received(labels: seq<Label>, r: Reporter): seq<Measure> {
    [Add(ServerStreamMsgReceived, Base(labels, r))]
  }

  /** `SentMessage`, on the counter `sentCounter` names. */
  function Sent(sentCounter: string, labels: seq<Label>, r: Reporter): seq<Measure> {
    [Add(sentCounter, Base(labels, r))]
  }

  /** `Handled`: the handled counter with the code, then the latency histogram when it
      is enabled. */
  function Handled(labels: seq<Label>, histogram: bool, r: Reporter, c: Code): seq<Measure> {
    [Add(ServerHandledCounter, WithCode(labels, r, c))] + (if histogram then [Record(ServerHandledHistogram, Base(labels, r))] else [])
  }

  /** What the unary interceptor records for a handler that returns `err`. */
  function UnarySpec(sentCounter: string, labels: seq<Label>, histogram: bool, r: Reporter, err: Option<Code>): seq<Measure> {
    Started(labels, r) + Received(labels, r) + Handled(labels, histogram, r, CodeOf(err))
      + (if err.None? then Sent(sentCounter, labels, r) else [])
  }

  /** A call the handler makes on the wrapped stream, with what the inner stream
      returned. */
  datatype StreamOp = SendOp(err: Option<Code>) | RecvOp(err: Option<Code>)

  /** What the wrapped stream records for one call: a count only on success. */
  function OpSpec(sentCounter: string, labels: seq<Label>, r: Reporter, op: StreamOp): seq<Measure> {
    match op
    case SendOp(e) => if e.None? then Sent(sentCounter, labels, r) else []
    case RecvOp(e) => if e.None? then Received(labels, r) else []
  }

  function OpsSpec(sentCounter: string, labels: seq<Label>, r: Reporter, ops: seq<StreamOp>): seq<Measure> {
    if |ops| == 0 then []
    else OpsSpec(sentCounter, labels, r, ops[..|ops| - 1]) + OpSpec(sentCounter, labels, r, ops[|ops| - 1])
  }

  /** What the stream interceptor records for a handler that makes the calls `ops` and
      then returns `err`. */
  function StreamSpec(sentCounter: string, labels: seq<Label>, histogram: bool, r: Reporter, ops: seq<StreamOp>, err: Option<Code>): seq<Measure> {
    Started(labels, r) + OpsSpec(sentCounter, labels, r, ops) + Handled(labels, histogram, r, CodeOf(err))
  }

  /** The calls of each kind that succeeded. */
  function Successes(ops: seq<StreamOp>, send: bool): nat {
    if |ops| == 0 then 0
    else
      var last := ops[|ops| - 1];
      Successes(ops[..|ops| - 1], send) + (if last.err.None? && last.SendOp? == send then 1 else 0)
  }

  /** `ServerMetrics`, with the instruments it creates named by their map keys and the
      measurements they have received so far. */
  class ServerMetrics {
    var labels: seq<Label>
    var serverHandledHistogramEnabled: bool
    var counters: set<string>
    var valueRecorders: set<string>
    var records: seq<Measure>

    /** `NewServerMetrics`: `configure` takes the labels and turns the histogram on
        whatever the options say; `createMeasures` registers the four counter keys,
        the sent one under its own name, and the latency histogram. */
    constructor (opts: seq<GrpcOption>)
      ensures labels == NewConfig(opts).labels && serverHandledHistogramEnabled
      ensures counters == {ServerStartedCounter, ServerHandledCounter, ServerStreamMsgReceived, ServerStreamMsgSent}
      ensures valueRecorders == {ServerHandledHistogram}
      ensures records == []
    {
      var c := NewConfig(opts);
      var enabled := true;
      var recorders: set<string> := {};
      if enabled {
        recorders := recorders + {ServerHandledHistogram};
      }
      labels := c.labels;
      serverHandledHistogramEnabled := enabled;
      counters := {ServerStartedCounter, ServerHandledCounter, ServerStreamMsgReceived, ServerStreamMsgSent};
      valueRecorders := recorders;
      records := [];
    }

    /** `newServerReporter`: counts the start. */
    method NewServerReporter(rpcType: GrpcType, serviceName: string, methodName: string) returns (r: Reporter)
      modifies this
      ensures r == Reporter(rpcType, serviceName, methodName)
      ensures records == old(records) + Started(labels, r)
      ensures labels == old(labels) && serverHandledHistogramEnabled == old(serverHandledHistogramEnabled)
    {
      r := Reporter(rpcType, serviceName, methodName);
      records := records + Started(labels, r);
    }

    method ReceivedMessage(r: Reporter)
      modifies this
      ensures records == old(records) + Received(labels, r)
      ensures labels == old(labels) && serverHandledHistogramEnabled == old(serverHandledHistogramEnabled)
    {
      records := records + Received(labels, r);
    }

    method SentMessage(r: Reporter)
      modifies this
      ensures records == old(records) + Sent(ServerStreamMsgSent, labels, r)
      ensures labels == old(labels) && serverHandledHistogramEnabled == old(serverHandledHistogramEnabled)
    {
      records := records + Sent(ServerStreamMsgSent, labels, r);
    }

    method HandledCall(r: Reporter, c: Code)
      modifies this
      ensures records == old(records) + Handled(labels, serverHandledHistogramEnabled, r, c)
      ensures labels == old(labels) && serverHandledHistogramEnabled == old(serverHandledHistogramEnabled)
    {
      records := records + [Add(ServerHandledCounter, WithCode(labels, r, c))];
      if serverHandledHistogramEnabled {
        records := records + [Record(ServerHandledHistogram, Base(labels, r))];
      }
    }

    /** `UnaryServerInterceptor`, for a handler that returns `handlerErr`. */
    method UnaryServerInterceptor(serviceName: string, methodName: string, handlerErr: Option<Code>) returns (err: Option<Code>)
      modifies this
      ensures err == handlerErr
      ensures records == old(records)
        + UnarySpec(ServerStreamMsgSent, labels, serverHandledHistogramEnabled, Reporter(Unary, serviceName, methodName), handlerErr)
      ensures labels == old(labels) && serverHandledHistogramEnabled == old(serverHandledHistogramEnabled)
    {
      var monitor := NewServerReporter(Unary, serviceName, methodName);
      ReceivedMessage(monitor);
      err := handlerErr;
      HandledCall(monitor, CodeOf(err));
      if err.None? {
        SentMessage(monitor);
      }
    }

    /** `monitoredServerStream.SendMsg`, when the inner stream returns `innerErr`. */
    method SendMsg(r: Reporter, innerErr: Option<Code>) returns (err: Option<Code>)
      modifies this
      ensures err == innerErr
      ensures records == old(records) + OpSpec(ServerStreamMsgSent, labels, r, SendOp(innerErr))
      ensures labels == old(labels) && serverHandledHistogramEnabled == old(serverHandledHistogramEnabled)
    {
      if innerErr.Some? {
        return innerErr;
      }
      SentMessage(r);
      return None;
    }

    /** `monitoredServerStream.RecvMsg`, when the inner stream returns `innerErr`. */
    method RecvMsg(r: Reporter, innerErr: Option<Code>) returns (err: Option<Code>)
      modifies this
      ensures err == innerErr
      ensures records == old(records) + OpSpec(ServerStreamMsgSent, labels, r, RecvOp(innerErr))
      ensures labels == old(labels) && serverHandledHistogramEnabled == old(serverHandledHistogramEnabled)
    {
      err := innerErr;
      if err.Some? {
        return;
      }
      ReceivedMessage(r);
    }

    /** `StreamServerInterceptor`. The handler is the caller's: it is given here by the
        calls it makes on the wrapped stream, in order, and the error it returns. */
    method StreamServerInterceptor(isClientStream: bool, isServerStream: bool, serviceName: string, methodName: string,
                                   ops: seq<StreamOp>, handlerErr: Option<Code>) returns (err: Option<Code>)
      modifies this
      ensures err == handlerErr
      ensures records == old(records) + StreamSpec(ServerStreamMsgSent, labels, serverHandledHistogramEnabled,
        Reporter(StreamRPCType(isClientStream, isServerStream), serviceName, methodName), ops, handlerErr)
      ensures labels == old(labels) && serverHandledHistogramEnabled == old(serverHandledHistogramEnabled)
    {
      var monitor := NewServerReporter(StreamRPCType(isClientStream, isServerStream), serviceName, methodName);
      ghost var start := records;
      for i := 0 to |ops|
        invariant labels == old(labels) && serverHandledHistogramEnabled == old(serverHandledHistogramEnabled)
        invariant records == start + OpsSpec(ServerStreamMsgSent, labels, monitor, ops[..i])
      {
        assert ops[..i + 1][..i] == ops[..i];
        match ops[i] {
          case SendOp(e) => var _ := SendMsg(monitor, e);
          case RecvOp(e) => var _ := RecvMsg(monitor, e);
        }
      }
      assert ops[..|ops|] == ops;
      err := handlerErr;
      HandledCall(monitor, CodeOf(err));
    }
  }

  // ----- Properties -----

  /** `Handled` adds one to the handled counter and to no other. */
  lemma HandledCounts(labels: seq<Label>, histogram: bool, r: Reporter, c: Code, counter: string)
    ensures CountOn(Handled(labels, histogram, r, c), counter) == if counter == ServerHandledCounter then 1 else 0
  {
    var h := Handled(labels, histogram, r, c);
    CountOnSingle(h[0], counter);
    if histogram {
      assert h == [h[0]] + [h[1]];
      CountOnAppend([h[0]], [h[1]], counter);
      CountOnSingle(h[1], counter);
    } else {
      assert h == [h[0]];
    }
  }

  /** The unary interceptor counts the start, the request, the outcome with its code
      and, only when the handler succeeded, the response. */
  lemma UnaryEvents(labels: seq<Label>, r: Reporter, err: Option<Code>)
    ensures var ms := UnarySpec(ServerStreamMsgSent, labels, true, r, err);
      && |ms| == (if err.None? then 5 else 4)
      && ms[0] == Add(ServerStartedCounter, Base(labels, r))
      && ms[1] == Add(ServerStreamMsgReceived, Base(labels, r))
      && ms[2] == Add(ServerHandledCounter, WithCode(labels, r, CodeOf(err)))
      && ms[3] == Record(ServerHandledHistogram, Base(labels, r))
      && (err.None? <==> CountOn(ms, ServerStreamMsgSent) == 1)
      && (err.None? ==> CodeOf(err) == OK)
  {
    var s, rc, h := Started(labels, r), Received(labels, r), Handled(labels, true, r, CodeOf(err));
    var x := if err.None? then Sent(ServerStreamMsgSent, labels, r) else [];
    var name := ServerStreamMsgSent;
    CounterNamesDistinct();
    CountOnAppend(s, rc, name);
    CountOnAppend(s + rc, h, name);
    CountOnAppend(s + rc + h, x, name);
    CountOnSingle(s[0], name);
    CountOnSingle(rc[0], name);
    HandledCounts(labels, true, r, CodeOf(err), name);
    if err.None? {
      CountOnSingle(x[0], name);
    }
  }

  /** The wrapped stream counts exactly the calls that succeeded, each on its own
      counter, and never counts the start or the outcome. */
  lemma {:induction false} OpsCounts(labels: seq<Label>, r: Reporter, ops: seq<StreamOp>)
    ensures var ms := OpsSpec(ServerStreamMsgSent, labels, r, ops);
      && CountOn(ms, ServerStreamMsgSent) == Successes(ops, true)
      && CountOn(ms, ServerStreamMsgReceived) == Successes(ops, false)
      && CountOn(ms, ServerHandledCounter) == 0
      && CountOn(ms, ServerStartedCounter) == 0
    decreases |ops|
  {
    if |ops| > 0 {
      var init := ops[..|ops| - 1];
      OpsCounts(labels, r, init);
      CounterNamesDistinct();
      var one := OpSpec(ServerStreamMsgSent, labels, r, ops[|ops| - 1]);
      assert one == [] || one[..0] == [];
      CountOnAppend(OpsSpec(ServerStreamMsgSent, labels, r, init), one, ServerStreamMsgSent);
      CountOnAppend(OpsSpec(ServerStreamMsgSent, labels, r, init), one, ServerStreamMsgReceived);
      CountOnAppend(OpsSpec(ServerStreamMsgSent, labels, r, init), one, ServerHandledCounter);
      CountOnAppend(OpsSpec(ServerStreamMsgSent, labels, r, init), one, ServerStartedCounter);
    }
  }

  /** A stream RPC is counted as started once and handled once, with the handler's
      code, and the outcome comes after every message count. */
  lemma StreamHandledOnce(labels: seq<Label>, histogram: bool, r: Reporter, ops: seq<StreamOp>, err: Option<Code>)
    ensures var ms := StreamSpec(ServerStreamMsgSent, labels, histogram, r, ops, err);
      var k := |ms| - (if histogram then 2 else 1);
      && CountOn(ms, ServerStartedCounter) == 1
      && CountOn(ms, ServerHandledCounter) == 1
      && 0 <= k && ms[k] == Add(ServerHandledCounter, WithCode(labels, r, CodeOf(err)))
      && CountOn(ms[..k], ServerHandledCounter) == 0
      && CountOn(ms, ServerStreamMsgSent) == Successes(ops, true)
      && CountOn(ms, ServerStreamMsgReceived) == Successes(ops, false)
  {
    var s := Started(labels, r);
    var o := OpsSpec(ServerStreamMsgSent, labels, r, ops);
    var h := Handled(labels, histogram, r, CodeOf(err));
    var ms := s + o + h;
    OpsCounts(labels, r, ops);
    CounterNamesDistinct();
    forall name | name in {ServerStartedCounter, ServerHandledCounter, ServerStreamMsgSent, ServerStreamMsgReceived}
      ensures CountOn(ms, name) == CountOn(s, name) + CountOn(o, name) + CountOn(h, name)
      ensures CountOn(s, name) == if name == ServerStartedCounter then 1 else 0
      ensures CountOn(h, name) == if name == ServerHandledCounter then 1 else 0
    {
      CountOnAppend(s, o, name);
      CountOnAppend(s + o, h, name);
      CountOnSingle(s[0], name);
      HandledCounts(labels, histogram, r, CodeOf(err), name);
    }
    var k := |ms| - (if histogram then 2 else 1);
    assert ms[..k] == s + o;
    CountOnAppend(s, o, ServerHandledCounter);
  }

  // ----- Finding: the sent counter shares the received counter's key -----

  /** As written the sent and received keys are one string, so `createMeasures`
      registers three counters, and a stream that only sends one message is reported
      as having received one. With its own key the sent counter is a fourth counter
      and the received counter counts only receives. */
  lemma SentCounterAsWritten(labels: seq<Label>, r: Reporter)
    ensures ServerStreamMsgSentAsWritten == ServerStreamMsgReceived
    ensures |{ServerStartedCounter, ServerHandledCounter, ServerStreamMsgReceived, ServerStreamMsgSentAsWritten}| == 3
    ensures CountOn(StreamSpec(ServerStreamMsgSentAsWritten, labels, true, r, [SendOp(None)], None), ServerStreamMsgReceived) == 1
    ensures |{ServerStartedCounter, ServerHandledCounter, ServerStreamMsgReceived, ServerStreamMsgSent}| == 4
    ensures CountOn(StreamSpec(ServerStreamMsgSent, labels, true, r, [SendOp(None)], None), ServerStreamMsgReceived) == 0
  {
    CounterNamesDistinct();
    var names := {ServerStartedCounter, ServerHandledCounter, ServerStreamMsgReceived};
    assert |names| == 3;
    assert names + {ServerStreamMsgSent} == {ServerStartedCounter, ServerHandledCounter, ServerStreamMsgReceived, ServerStreamMsgSent};
    var ops := [SendOp(None)];
    assert ops[..0] == [];
    var aw := StreamSpec(ServerStreamMsgSentAsWritten, labels, true, r, ops, None);
    var s := Started(labels, r);
    var h := Handled(labels, true, r, OK);
    var o := Sent(ServerStreamMsgSentAsWritten, labels, r);
    assert OpsSpec(ServerStreamMsgSentAsWritten, labels, r, ops) == [] + o;
    assert aw == s + o + h;
    CountOnAppend(s, o, ServerStreamMsgReceived);
    CountOnAppend(s + o, h, ServerStreamMsgReceived);
    CountOnSingle(s[0], ServerStreamMsgReceived);
    CountOnSingle(o[0], ServerStreamMsgReceived);
    HandledCounts(labels, true, r, OK, ServerStreamMsgReceived);
    StreamHandledOnce(labels, true, r, ops, None);
  }
}
