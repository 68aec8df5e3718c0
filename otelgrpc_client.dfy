/** The client side of module/otelgrpc (client_metrics.go, client_reporter.go): the
    instruments `NewClientMetrics` creates, and what the unary and stream interceptors
    and the wrapped client stream record. */
module OtelGrpcClient {
  import opened Results
  import opened OtelGrpcMeasures

  const ClientStartedCounter := "grpc_client_started_total"
  const ClientHandledCounter := "grpc_client_handled_total"
  const ClientStreamMsgReceived := "grpc_client_msg_received_total"
  const ClientStreamMsgSent := "grpc_client_msg_sent_total"
  const ClientHandledHistogram := "grpc_client_handling_seconds"
  const ClientStreamRecvHistogram := "grpc_client_msg_recv_handling_seconds"
  const ClientStreamSendHistogram := "grpc_client_msg_send_handling_seconds"

  lemma CounterNamesDistinct()
    ensures ClientStartedCounter != ClientHandledCounter
    ensures ClientStartedCounter != ClientStreamMsgReceived && ClientStartedCounter != ClientStreamMsgSent
    ensures ClientHandledCounter != ClientStreamMsgReceived && ClientHandledCounter != ClientStreamMsgSent
    ensures ClientStreamMsgReceived != ClientStreamMsgSent
  {
    assert ClientStartedCounter[12] == 's' && ClientHandledCounter[12] == 'h';
    assert ClientStreamMsgReceived[12] == 'm' && ClientStreamMsgSent[12] == 'm';
    assert ClientStreamMsgReceived[16] == 'r' && ClientStreamMsgSent[16] == 's';
  }

  /** `clientStreamType`. */
  function ClientStreamType(clientStreams: bool, serverStreams: bool): GrpcType {
    if clientStreams && !serverStreams then ClientStream
    else if !clientStreams && serverStreams then ServerStream
    else BidiStream
  }

  /** The same rule as the server's: one direction names it, both or neither is
      bidirectional, never unary. */
  lemma ClientStreamTypeCases(clientStreams: bool, serverStreams: bool)
    ensures var t := ClientStreamType(clientStreams, serverStreams);
      && (t == ClientStream <==> clientStreams && !serverStreams)
      && (t == ServerStream <==> !clientStreams && serverStreams)
      && (t == BidiStream <==> clientStreams == serverStreams)
      && t != Unary
  {
  }

  // ----- What each reporter call records -----

  function Started(labels: seq<Label>, r: Reporter): seq<Measure> {
    [Add(ClientStartedCounter, Base(labels, r))]
  }

  function Received(labels: seq<Label>, r: Reporter): seq<Measure> {
    [Add(ClientStreamMsgReceived, Base(labels, r))]
  }

  function Sent(labels: seq<Label>, r: Reporter): seq<Measure> {
    [Add(ClientStreamMsgSent, Base(labels, r))]
  }

  /** `startTimer`: a latency on `histogram`, only when histograms are enabled. */
  function Timer(histogram: string, enabled: bool, labels: seq<Label>, r: Reporter): seq<Measure> {
    if enabled then [Record(histogram, Base(labels, r))] else []
  }

  /** `Handled`: the handled counter with the code, then the call latency. */
  function Handled(labels: seq<Label>, enabled: bool, r: Reporter, c: Code): seq<Measure> {
    [Add(ClientHandledCounter, WithCode(labels, r, c))] + Timer(ClientHandledHistogram, enabled, labels, r)
  }

  /** What the unary interceptor records when the invoker returns `err`. */
  function UnarySpec(labels: seq<Label>, enabled: bool, r: Reporter, err: Option<Code>): seq<Measure> {
    Started(labels, r) + Sent(labels, r) + (if err.None? then Received(labels, r) else [])
      + Handled(labels, enabled, r, CodeOf(err))
  }

  /** What `RecvMsg` on the inner stream returned. */
  datatype RecvResult = RecvOk | RecvEOF | RecvErr(code: Code)

  function SendSpec(labels: seq<Label>, enabled: bool, r: Reporter, innerErr: Option<Code>): seq<Measure> {
    Timer(ClientStreamSendHistogram, enabled, labels, r) + (if innerErr.None? then Sent(labels, r) else [])
  }

  /** A receive always times itself; a message is counted, end of stream is the call
      handled with `OK`, and any other error is the call handled with its code. */
  function RecvSpec(labels: seq<Label>, enabled: bool, r: Reporter, res: RecvResult): seq<Measure> {
    Timer(ClientStreamRecvHistogram, enabled, labels, r) + match res
      case RecvOk => Received(labels, r)
      case RecvEOF => Handled(labels, enabled, r, OK)
      case RecvErr(c) => Handled(labels, enabled, r, c)
  }

  /** `ClientMetrics`, with the instruments it creates named by their map keys and the
      measurements they have received so far. */
  class ClientMetrics {
    var labels: seq<Label>
    var clientHandledHistogramEnabled: bool
    var counters: set<string>
    var valueRecorders: set<string>
    var records: seq<Measure>

    /** `NewClientMetrics`: `configure` takes the labels and always enables the
        histograms, so `createMeasures` never returns early and creates all three. */
    constructor (opts: seq<GrpcOption>)
      ensures labels == NewConfig(opts).labels && clientHandledHistogramEnabled
      ensures counters == {ClientStartedCounter, ClientHandledCounter, ClientStreamMsgReceived, ClientStreamMsgSent}
      ensures valueRecorders == {ClientHandledHistogram, ClientStreamRecvHistogram, ClientStreamSendHistogram}
      ensures records == []
    {
      var c := NewConfig(opts);
      var enabled := true;
      var recorders: set<string> := {};
      if enabled {
        recorders := recorders + {ClientHandledHistogram} + {ClientStreamRecvHistogram} + {ClientStreamSendHistogram};
      }
      labels := c.labels;
      clientHandledHistogramEnabled := enabled;
      counters := {ClientStartedCounter, ClientHandledCounter, ClientStreamMsgReceived, ClientStreamMsgSent};
      valueRecorders := recorders;
      records := [];
    }

    /** `newClientReporter`: counts the start. */
    method NewClientReporter(rpcType: GrpcType, serviceName: string, methodName: string) returns (r: Reporter)
      modifies this
      ensures r == Reporter(rpcType, serviceName, methodName)
      ensures records == old(records) + Started(labels, r)
      ensures labels == old(labels) && clientHandledHistogramEnabled == old(clientHandledHistogramEnabled)
    {
      r := Reporter(rpcType, serviceName, methodName);
      records := records + Started(labels, r);
    }

    method StartTimer(histogram: string, r: Reporter)
      modifies this
      ensures records == old(records) + Timer(histogram, clientHandledHistogramEnabled, labels, r)
      ensures labels == old(labels) && clientHandledHistogramEnabled == old(clientHandledHistogramEnabled)
    {
      if !clientHandledHistogramEnabled {
        return;
      }
      records := records + [Record(histogram, Base(labels, r))];
    }

    method ReceivedMessage(r: Reporter)
      modifies this
      ensures records == old(records) + Received(labels, r)
      ensures labels == old(labels) && clientHandledHistogramEnabled == old(clientHandledHistogramEnabled)
    {
      records := records + Received(labels, r);
    }

    method SentMessage(r: Reporter)
      modifies this
      ensures records == old(records) + Sent(labels, r)
      ensures labels == old(labels) && clientHandledHistogramEnabled == old(clientHandledHistogramEnabled)
    {
      records := records + Sent(labels, r);
    }

    method HandledCall(r: Reporter, c: Code)
      modifies this
      ensures records == old(records) + Handled(labels, clientHandledHistogramEnabled, r, c)
      ensures labels == old(labels) && clientHandledHistogramEnabled == old(clientHandledHistogramEnabled)
    {
      records := records + [Add(ClientHandledCounter, WithCode(labels, r, c))];
      if clientHandledHistogramEnabled {
        StartTimer(ClientHandledHistogram, r);
      }
    }

    /** `UnaryClientInterceptor`, when the invoker returns `invokeErr`. */
    method UnaryClientInterceptor(serviceName: string, methodName: string, invokeErr: Option<Code>) returns (err: Option<Code>)
      modifies this
      ensures err == invokeErr
      ensures records == old(records)
        + UnarySpec(labels, clientHandledHistogramEnabled, Reporter(Unary, serviceName, methodName), invokeErr)
      ensures labels == old(labels) && clientHandledHistogramEnabled == old(clientHandledHistogramEnabled)
    {
      var monitor := NewClientReporter(Unary, serviceName, methodName);
      SentMessage(monitor);
      err := invokeErr;
      if err.None? {
        ReceivedMessage(monitor);
      }
      HandledCall(monitor, CodeOf(err));
    }

    /** `StreamClientInterceptor`, when the streamer returns `streamerErr`: on failure
        the call is handled and no stream is returned; otherwise the wrapped stream is
        returned, carrying its reporter, and nothing is handled yet. */
    method StreamClientInterceptor(clientStreams: bool, serverStreams: bool, serviceName: string, methodName: string,
                                   streamerErr: Option<Code>) returns (stream: Option<Reporter>, err: Option<Code>)
      modifies this
      ensures err == streamerErr
      ensures var r := Reporter(ClientStreamType(clientStreams, serverStreams), serviceName, methodName);
        && (streamerErr.Some? ==>
              stream.None? && records == old(records) + Started(labels, r) + Handled(labels, clientHandledHistogramEnabled, r, streamerErr.value))
        && (streamerErr.None? ==> stream == Some(r) && records == old(records) + Started(labels, r))
      ensures labels == old(labels) && clientHandledHistogramEnabled == old(clientHandledHistogramEnabled)
    {
      var monitor := NewClientReporter(ClientStreamType(clientStreams, serverStreams), serviceName, methodName);
      if streamerErr.Some? {
        HandledCall(monitor, streamerErr.value);
        return None, streamerErr;
      }
      return Some(monitor), None;
    }

    /** `monitoredClientStream.SendMsg`, when the inner stream returns `innerErr`. */
    method SendMsg(r: Reporter, innerErr: Option<Code>) returns (err: Option<Code>)
      modifies this
      ensures err == innerErr
      ensures records == old(records) + SendSpec(labels, clientHandledHistogramEnabled, r, innerErr)
      ensures labels == old(labels) && clientHandledHistogramEnabled == old(clientHandledHistogramEnabled)
    {
      err := innerErr;
      StartTimer(ClientStreamSendHistogram, r);
      if err.None? {
        SentMessage(r);
      }
    }

    /** `monitoredClientStream.RecvMsg`, when the inner stream returns `res`. */
    method RecvMsg(r: Reporter, res: RecvResult) returns (ret: RecvResult)
      modifies this
      ensures ret == res
      ensures records == old(records) + RecvSpec(labels, clientHandledHistogramEnabled, r, res)
      ensures labels == old(labels) && clientHandledHistogramEnabled == old(clientHandledHistogramEnabled)
    {
      ret := res;
      StartTimer(ClientStreamRecvHistogram, r);
      match res {
        case RecvOk => ReceivedMessage(r);
        case RecvEOF => HandledCall(r, OK);
        case RecvErr(c) => HandledCall(r, c);
      }
    }
  }

  // ----- Properties -----

  /** `Handled` adds one to the handled counter and to no other. */
  lemma HandledCounts(labels: seq<Label>, enabled: bool, r: Reporter, c: Code, counter: string)
    ensures CountOn(Handled(labels, enabled, r, c), counter) == if counter == ClientHandledCounter then 1 else 0
  {
    var h := Handled(labels, enabled, r, c);
    CountOnSingle(h[0], counter);
    if enabled {
      assert h == [h[0]] + [h[1]];
      CountOnAppend([h[0]], [h[1]], counter);
      CountOnSingle(h[1], counter);
    } else {
      assert h == [h[0]];
    }
  }

  /** The unary interceptor counts the start and the request, the response only when
      the invoker succeeded, and always the outcome, last but for its latency. */
  lemma UnaryEvents(labels: seq<Label>, r: Reporter, err: Option<Code>)
    ensures var ms := UnarySpec(labels, true, r, err);
      && |ms| == (if err.None? then 5 else 4)
      && ms[0] == Add(ClientStartedCounter, Base(labels, r))
      && ms[1] == Add(ClientStreamMsgSent, Base(labels, r))
      && ms[|ms| - 2] == Add(ClientHandledCounter, WithCode(labels, r, CodeOf(err)))
      && ms[|ms| - 1] == Record(ClientHandledHistogram, Base(labels, r))
      && (err.None? <==> CountOn(ms, ClientStreamMsgReceived) == 1)
      && CountOn(ms, ClientHandledCounter) == 1
  {
    var s, t, h := Started(labels, r), Sent(labels, r), Handled(labels, true, r, CodeOf(err));
    var x := if err.None? then Received(labels, r) else [];
    CounterNamesDistinct();
    assert UnarySpec(labels, true, r, err) == s + t + x + h;
    UnaryCount(s, t, x, h, ClientStreamMsgReceived);
    UnaryCount(s, t, x, h, ClientHandledCounter);
    HandledCounts(labels, true, r, CodeOf(err), ClientStreamMsgReceived);
    HandledCounts(labels, true, r, CodeOf(err), ClientHandledCounter);
    if err.None? {
      CountOnSingle(x[0], ClientStreamMsgReceived);
      CountOnSingle(x[0], ClientHandledCounter);
    }
  }

  lemma UnaryCount(s: seq<Measure>, t: seq<Measure>, x: seq<Measure>, h: seq<Measure>, name: string)
    requires |s| == 1 && |t| == 1 && s[0].Add? && t[0].Add? && s[0].counter != name && t[0].counter != name
    ensures CountOn(s + t + x + h, name) == CountOn(x, name) + CountOn(h, name)
  {
    CountOnAppend(s, t, name);
    CountOnAppend(s + t, x, name);
    CountOnAppend(s + t + x, h, name);
    CountOnSingle(s[0], name);
    CountOnSingle(t[0], name);
    assert s == [s[0]] && t == [t[0]];
  }

  /** A call on an open client stream. */
  datatype ClientOp = SendCall(err: Option<Code>) | RecvCall(res: RecvResult)

  /** What one call on an open client stream records. */
  function OpSpec(labels: seq<Label>, enabled: bool, r: Reporter, op: ClientOp): seq<Measure> {
    match op
    case SendCall(e) => SendSpec(labels, enabled, r, e)
    case RecvCall(res) => RecvSpec(labels, enabled, r, res)
  }

  /** What a sequence of calls on an open client stream records. */
  function SessionSpec(labels: seq<Label>, enabled: bool, r: Reporter, ops: seq<ClientOp>): seq<Measure> {
    if |ops| == 0 then []
    else SessionSpec(labels, enabled, r, ops[..|ops| - 1]) + OpSpec(labels, enabled, r, ops[|ops| - 1])
  }

  /** The counter one call adds to, if any. */
  function OpCounter(op: ClientOp): Option<string> {
    match op
    case SendCall(e) => if e.None? then Some(ClientStreamMsgSent) else None
    case RecvCall(res) => if res.RecvOk? then Some(ClientStreamMsgReceived) else Some(ClientHandledCounter)
  }

  /** A call's timer adds to no counter; a call adds one to at most one counter. */
  lemma OpCounts(labels: seq<Label>, enabled: bool, r: Reporter, op: ClientOp, name: string)
    ensures CountOn(OpSpec(labels, enabled, r, op), name) == if OpCounter(op) == Some(name) then 1 else 0
  {
    var tm := Timer(if op.SendCall? then ClientStreamSendHistogram else ClientStreamRecvHistogram, enabled, labels, r);
    var all := OpSpec(labels, enabled, r, op);
    var rest := all[|tm|..];
    assert all == tm + rest;
    CountOnAppend(tm, rest, name);
    if enabled {
      CountOnSingle(tm[0], name);
    } else {
      assert tm == [];
    }
    match op {
      case SendCall(e) =>
        if e.None? {
          CountOnSingle(rest[0], name);
        } else {
          assert rest == [];
        }
      case RecvCall(res) =>
        match res {
          case RecvOk => CountOnSingle(rest[0], name);
          case RecvEOF => HandledCounts(labels, enabled, r, OK, name);
          case RecvErr(c) => HandledCounts(labels, enabled, r, c, name);
        }
    }
  }

  /** How many of `ops` add to `counter`. */
  function CountedOps(ops: seq<ClientOp>, counter: string): nat {
    if |ops| == 0 then 0
    else CountedOps(ops[..|ops| - 1], counter) + (if OpCounter(ops[|ops| - 1]) == Some(counter) then 1 else 0)
  }

  /** On an open client stream each counter counts exactly the calls `OpCounter` maps to
      it: the call is counted as handled once per receive that ends the stream or
      fails, so not at all if the caller stops before the end and again for every
      receive after it; messages are counted per successful send and delivered
      receive; the start is never counted again. */
  lemma {:induction false} SessionCounts(labels: seq<Label>, enabled: bool, r: Reporter, ops: seq<ClientOp>, counter: string)
    ensures CountOn(SessionSpec(labels, enabled, r, ops), counter) == CountedOps(ops, counter)
    decreases |ops|
  {
    if |ops| > 0 {
      var init := ops[..|ops| - 1];
      var op := ops[|ops| - 1];
      SessionCounts(labels, enabled, r, init, counter);
      CountOnAppend(SessionSpec(labels, enabled, r, init), OpSpec(labels, enabled, r, op), counter);
      OpCounts(labels, enabled, r, op, counter);
    }
  }

  /** A stream whose caller reads until the end and meets no error is counted as
      handled exactly once, and the start is not counted again. */
  lemma ReadToEnd(labels: seq<Label>, enabled: bool, r: Reporter, ops: seq<ClientOp>)
    requires forall i :: 0 <= i < |ops| ==> ops[i].SendCall? || ops[i] == RecvCall(RecvOk)
    ensures CountOn(SessionSpec(labels, enabled, r, ops + [RecvCall(RecvEOF)]), ClientHandledCounter) == 1
    ensures CountOn(SessionSpec(labels, enabled, r, ops), ClientStartedCounter) == 0
  {
    CounterNamesDistinct();
    NoFailures(ops);
    var all := ops + [RecvCall(RecvEOF)];
    assert all[..|all| - 1] == ops;
    SessionCounts(labels, enabled, r, all, ClientHandledCounter);
    SessionCounts(labels, enabled, r, ops, ClientStartedCounter);
    NeverStarted(ops);
  }

  lemma {:induction false} NeverStarted(ops: seq<ClientOp>)
    ensures CountedOps(ops, ClientStartedCounter) == 0
    decreases |ops|
  {
    if |ops| > 0 {
      CounterNamesDistinct();
      NeverStarted(ops[..|ops| - 1]);
    }
  }

  lemma {:induction false} NoFailures(ops: seq<ClientOp>)
    requires forall i :: 0 <= i < |ops| ==> ops[i].SendCall? || ops[i] == RecvCall(RecvOk)
    ensures CountedOps(ops, ClientHandledCounter) == 0
    decreases |ops|
  {
    if |ops| > 0 {
      CounterNamesDistinct();
      NoFailures(ops[..|ops| - 1]);
    }
  }
}
