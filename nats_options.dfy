/** Options of the NATS middleware (middleware/nats/options.go): the default operation
    name of a message, the `config` record and its options, and the middleware lists
    used for subscriptions and publishing. */
module NatsOptions {
  import opened GoStrings
  import Results

  datatype Subscription = Subscription(queue: string)

  /** The parts of a NATS message the name convention reads; `sub` is absent for a
      message that did not arrive through a subscription. */
  datatype Msg = Msg(subject: string, sub: Results.Option<Subscription>)

  /** `NameFn`. */
  type NameFn = (string, Msg) -> string

  /** The `\d+` recogniser, unanchored: the part contains a digit somewhere. */
  predicate HasDigit(s: string) {
    exists i :: 0 <= i < |s| && IsDigit(s[i])
  }

  /** The token a subject part becomes: a digit anywhere wins, then an `_INBOX` prefix,
      then a `/` prefix; anything else is kept. */
  function ReducePart(part: string): string {
    if HasDigit(part) then ":partition:"
    else if HasPrefix(part, "_INBOX") then ":inbox:"
    else if HasPrefix(part, "/") then ":url:"
    else part
  }

  function ReduceParts(parts: seq<string>): (out: seq<string>)
    ensures |out| == |parts| && forall i :: 0 <= i < |parts| ==> out[i] == ReducePart(parts[i])
  {
    seq(|parts|, i requires 0 <= i < |parts| => ReducePart(parts[i]))
  }

  /** The subject with every dot-separated part reduced, rejoined with dots. */
  function ReduceSubject(subject: string): string {
    Join(ReduceParts(Split(subject, '.')), '.')
  }

  /** What `defaultOperationFn` returns. */
  function OperationSpec(kind: string, msg: Msg): string {
    "NATS:" + kind + (if msg.sub.Some? then "/" + msg.sub.value.queue else "") + "/" + ReduceSubject(msg.subject)
  }

  /** `defaultOperationFn`: a builder loop writing each reduced part, and a dot after
      every part but the last. */
  method DefaultOperationFn(kind: string, msg: Msg) returns (r: string)
    ensures r == OperationSpec(kind, msg)
  {
    var b := "NATS:" + kind;
    if msg.sub.Some? {
      b := b + "/" + msg.sub.value.queue;
    }
    b := b + "/";
    var subjectParts := Split(msg.subject, '.');
    SplitLength(msg.subject, '.');
    r := WriteParts(b, subjectParts);
  }

  /** The loop of `defaultOperationFn`: after what the builder holds, each reduced part,
      and a dot after every part but the last. */
  method WriteParts(b0: string, subjectParts: seq<string>) returns (b: string)
    requires |subjectParts| >= 1
    ensures b == b0 + Join(ReduceParts(subjectParts), '.')
  {
    ghost var out := ReduceParts(subjectParts);
    b := b0;
    var subjectPartsLastIdx := |subjectParts| - 1;
    var i := 0;
    while i < |subjectParts|
      invariant 0 <= i <= |subjectParts|
      invariant b == Written(b0, out, i)
    {
      var p := ReducePartOf(subjectParts[i]);
      b := b + p;
      if i != subjectPartsLastIdx {
        b := b + ".";
      }
      i := i + 1;
    }
    WrittenJoin(b0, out, |out|);
  }

  /** The branch of the loop body that picks a part's token. */
  method ReducePartOf(part: string) returns (p: string)
    ensures p == ReducePart(part)
  {
    p := part;
    if HasDigit(part) {
      p := ":partition:";
    } else if HasPrefix(part, "_INBOX") {
      p := ":inbox:";
    } else if HasPrefix(part, "/") {
      p := ":url:";
    }
  }

  /** What the builder holds after `prefix` and `i` parts: each part, with a dot after
      every part but the last. */
  function Written(prefix: string, out: seq<string>, i: nat): string
    requires i <= |out|
  {
    if i == 0 then prefix else Written(prefix, out, i - 1) + out[i - 1] + (if i - 1 != |out| - 1 then "." else "")
  }

  /** The builder writes the parts joined with dots, followed by a dot while parts
      remain. */
  lemma {:induction false} WrittenJoin(prefix: string, out: seq<string>, i: nat)
    requires 1 <= i <= |out|
    ensures i < |out| ==> Written(prefix, out, i) == prefix + Join(out[..i], '.') + "."
    ensures i == |out| ==> Written(prefix, out, i) == prefix + Join(out, '.')
    decreases i
  {
    if i == 1 {
      assert out[..1] == [out[0]];
      if i == |out| {
        assert out == [out[0]];
        assert Written(prefix, out, i) == prefix + out[0] + "";
      }
    } else {
      WrittenJoin(prefix, out, i - 1);
      var j := Join(out[..i - 1], '.');
      assert out[..i] == out[..i - 1] + [out[i - 1]];
      JoinSnoc(out[..i - 1], out[i - 1], '.');
      assert prefix + j + "." + out[i - 1] == prefix + (j + "." + out[i - 1]);
      if i == |out| {
        assert out[..i] == out;
        assert Written(prefix, out, i) == prefix + j + "." + out[i - 1] + "";
      }
    }
  }



  /** A string whose first character differs from a non-empty prefix's does not start
      with it. */
  lemma NotPrefix(s: string, p: string)
    requires |s| > 0 && |p| > 0 && s[0] != p[0]
    ensures !HasPrefix(s, p)
  {
    if |p| <= |s| {
      assert s[..|p|][0] == s[0];
    }
  }

  /** The three tokens are left as they are. */
  lemma TokensFixed()
    ensures ReducePart(":partition:") == ":partition:"
    ensures ReducePart(":inbox:") == ":inbox:"
    ensures ReducePart(":url:") == ":url:"
  {
    assert !HasDigit(":inbox:") && !HasDigit(":url:");
    NotPrefix(":inbox:", "_INBOX");
    NotPrefix(":inbox:", "/");
    NotPrefix(":url:", "_INBOX");
    NotPrefix(":url:", "/");
  }

  // ----- Configuration -----

  datatype Telemetry = GlobalTelemetry | Telemetry(id: nat)

  /** A message middleware, by kind; `User` stands for one supplied by the caller. */
  datatype Middleware =
    | Recovery
    | Logs(nameFn: NameFn, dumpPayloadOnError: bool, dump: bool)
    | Tracer(nameFn: NameFn)
    | Metrics
    | User(id: nat)

  /** A post hook; `Reply` is the one `WithReply` installs. */
  datatype PostHook = Reply | Hook(id: nat)

  /** The `config` record, without the meter and instruments `newConfig` creates. */
  datatype Settings = Settings(
    postHook: Results.Option<PostHook>,
    tele: Telemetry,
    dump: bool,
    dumpPayloadOnError: bool,
    nameFn: NameFn,
    notUserDefaultMW: bool,
    pubList: seq<Middleware>,
    subList: seq<Middleware>)

  /** The record `newConfig` starts from. */
  function Defaults(): Settings {
    Settings(Results.None, GlobalTelemetry, false, true, OperationSpec, false, [], [])
  }

  datatype Option =
    | WithTel(t: Telemetry)
    | WithDump(enable: bool)
    | WithDumpPayloadOnError(enable: bool)
    | WithNameFunction(fn: NameFn)
    | WithSubMiddleware(list: seq<Middleware>)
    | WithPubMiddleware(list: seq<Middleware>)
    | WithDisableDefaultMiddleware
    | WithReply(inject: bool)
    | WithPostHook(cb: PostHook)

  /** One option as options.go:140-206 writes it: `WithPubMiddleware` starts the
      publish list from the subscription list. Each `append` is read as a fresh list;
      a backing array the two lists may share is not modelled. */
  function StepAsWritten(s: Settings, o: Option): Settings {
    match o
    case WithPubMiddleware(list) => s.(pubList := s.subList + list)
    case _ => Step(s, o)
  }

  /** One option, with `WithPubMiddleware` appending to the publish list as
      `WithSubMiddleware` does to the subscription list. */
  function Step(s: Settings, o: Option): Settings {
    match o
    case WithTel(t) => s.(tele := t)
    case WithDump(b) => s.(dump := b)
    case WithDumpPayloadOnError(b) => s.(dumpPayloadOnError := b)
    case WithNameFunction(fn) => s.(nameFn := fn)
    case WithSubMiddleware(list) => s.(subList := s.subList + list)
    case WithPubMiddleware(list) => s.(pubList := s.pubList + list)
    case WithDisableDefaultMiddleware => s.(notUserDefaultMW := true)
    case WithReply(_) => s.(postHook := Results.Some(Reply))
    case WithPostHook(cb) => s.(postHook := Results.Some(cb))
  }

  function ApplyOptions(s: Settings, opts: seq<Option>): Settings
    decreases |opts|
  {
    if |opts| == 0 then s else ApplyOptions(Step(s, opts[0]), opts[1..])
  }

  function ApplyOptionsAsWritten(s: Settings, opts: seq<Option>): Settings
    decreases |opts|
  {
    if |opts| == 0 then s else ApplyOptionsAsWritten(StepAsWritten(s, opts[0]), opts[1..])
  }

  /** The mutable `config`. */
  class Config {
    var postHook: Results.Option<PostHook>
    var tele: Telemetry
    var dump: bool
    var dumpPayloadOnError: bool
    var nameFn: NameFn
    var notUserDefaultMW: bool
    var pubList: seq<Middleware>
    var subList: seq<Middleware>

    function Value(): Settings
      reads this
    {
      Settings(postHook, tele, dump, dumpPayloadOnError, nameFn, notUserDefaultMW, pubList, subList)
    }

    constructor ()
      ensures Value() == Defaults()
    {
      postHook := Results.None;
      tele := GlobalTelemetry;
      dump := false;
      dumpPayloadOnError := true;
      nameFn := OperationSpec;
      notUserDefaultMW := false;
      pubList := [];
      subList := [];
    }

    /** `o.apply(c)`, as options.go:140-206 write each closure. */
    method ApplyOne(o: Option)
      modifies this
      ensures Value() == StepAsWritten(old(Value()), o)
    {
      match o {
        case WithTel(t) => tele := t;
        case WithDump(b) => dump := b;
        case WithDumpPayloadOnError(b) => dumpPayloadOnError := b;
        case WithNameFunction(fn) => nameFn := fn;
        case WithSubMiddleware(list) => subList := subList + list;
        case WithPubMiddleware(list) => pubList := subList + list;
        case WithDisableDefaultMiddleware => notUserDefaultMW := true;
        case WithReply(_) => postHook := Results.Some(Reply);
        case WithPostHook(cb) => postHook := Results.Some(cb);
      }
    }

    /** `config.apply`: every option in order. */
    method Apply(opts: seq<Option>)
      modifies this
      ensures Value() == ApplyOptionsAsWritten(old(Value()), opts)
    {
      var i := 0;
      assert opts[0..] == opts;
      while i < |opts|
        invariant 0 <= i <= |opts|
        invariant ApplyOptionsAsWritten(Value(), opts[i..]) == ApplyOptionsAsWritten(old(Value()), opts)
      {
        assert opts[i..][0] == opts[i] && opts[i..][1..] == opts[i + 1..];
        ApplyOne(opts[i]);
        i := i + 1;
      }
    }
  }

  /** `newConfig`, without the meter and instruments. */
  method NewConfig(opts: seq<Option>) returns (c: Config)
    ensures fresh(c)
    ensures c.Value() == ApplyOptionsAsWritten(Defaults(), opts)
  {
    c := new Config();
    c.Apply(opts);
  }

  /** `DefaultMiddleware`: recovery, logs, tracing, metrics. */
  function DefaultMiddleware(s: Settings): seq<Middleware> {
    [Recovery, Logs(s.nameFn, s.dumpPayloadOnError, s.dump), Tracer(s.nameFn), Metrics]
  }

  /** `subMiddleware`. */
  function SubMiddleware(s: Settings): seq<Middleware> {
    if s.notUserDefaultMW then s.subList else DefaultMiddleware(s) + s.subList
  }

  /** `pubMiddleware`. */
  function PubMiddleware(s: Settings): seq<Middleware> {
    if s.notUserDefaultMW then s.pubList else DefaultMiddleware(s) + s.pubList
  }

  // ----- Properties -----

  /** The subject keeps its part count: read back, the reduced subject has exactly the
      reduced parts of the original, in order. */
  lemma SubjectPartsPreserved(subject: string)
    ensures Split(ReduceSubject(subject), '.') == ReduceParts(Split(subject, '.'))
    ensures |Split(ReduceSubject(subject), '.')| == |Split(subject, '.')|
  {
    var parts := Split(subject, '.');
    SplitPiecesAvoidSeparator(subject, '.');
    SplitLength(subject, '.');
    var out := ReduceParts(parts);
    forall i | 0 <= i < |out| ensures '.' !in out[i] {
      ReducePartAvoidsDot(parts[i]);
    }
    SplitJoin(out, '.');
  }

  /** A part without a dot reduces to a part without a dot. */
  lemma ReducePartAvoidsDot(part: string)
    requires '.' !in part
    ensures '.' !in ReducePart(part)
  {
    var r := ReducePart(part);
    if r != part {
      assert r == ":partition:" || r == ":inbox:" || r == ":url:";
    }
  }

  /** Which token a part becomes, with the priority digit, then `_INBOX`, then `/`; a
      part matching none is kept. */
  lemma ReducePartPriority(part: string)
    ensures ReducePart(part) == ":partition:" <==> HasDigit(part) || part == ":partition:"
    ensures !HasDigit(part) ==>
      (ReducePart(part) == ":inbox:" <==> HasPrefix(part, "_INBOX") || part == ":inbox:")
    ensures !HasDigit(part) && !HasPrefix(part, "_INBOX") ==>
      (ReducePart(part) == ":url:" <==> HasPrefix(part, "/") || part == ":url:")
    ensures !HasDigit(part) && !HasPrefix(part, "_INBOX") && !HasPrefix(part, "/") ==> ReducePart(part) == part
  {
    assert !HasDigit(":inbox:") && !HasDigit(":url:");
    TokensFixed();
  }

  /** `_INBOX1` has a digit, so it is a partition, not an inbox. */
  lemma InboxWithDigit()
    ensures ReducePart("_INBOX1") == ":partition:"
  {
    assert IsDigit("_INBOX1"[6]);
  }

  /** A reduced part is reduced again to itself. */
  lemma ReducePartIdempotent(part: string)
    ensures ReducePart(ReducePart(part)) == ReducePart(part)
  {
    TokensFixed();
  }

  /** The tokens are fixed points, so naming a reduced subject again changes nothing. */
  lemma ReduceSubjectIdempotent(subject: string)
    ensures ReduceSubject(ReduceSubject(subject)) == ReduceSubject(subject)
  {
    SubjectPartsPreserved(subject);
    var parts := Split(subject, '.');
    var out := ReduceParts(parts);
    forall i | 0 <= i < |out| ensures ReduceParts(out)[i] == out[i] {
      ReducePartIdempotent(parts[i]);
    }
    assert ReduceParts(out) == out;
  }

  /** The operation name starts with `NATS:` and the kind, carries `/` and the queue
      exactly when the message came through a subscription, and ends with `/` and the
      reduced subject. */
  lemma OperationShape(kind: string, msg: Msg)
    ensures var r := OperationSpec(kind, msg); var n := 5 + |kind|;
      && HasPrefix(r, "NATS:" + kind)
      && (msg.sub.Some? ==> HasPrefix(r[n..], "/" + msg.sub.value.queue + "/"))
      && (msg.sub.None? ==> r[n..] == "/" + ReduceSubject(msg.subject))
      && r[|r| - |ReduceSubject(msg.subject)| - 1..] == "/" + ReduceSubject(msg.subject)
  {
    var mid := if msg.sub.Some? then "/" + msg.sub.value.queue else "";
    var red := ReduceSubject(msg.subject);
    Layout("NATS:" + kind, mid, red);
    if msg.sub.Some? {
      PrefixOfConcat(mid + "/", red);
    }
  }

  /** Where the pieces of `head + mid + "/" + red` sit. */
  lemma Layout(head: string, mid: string, red: string)
    ensures var r := head + mid + "/" + red;
      && HasPrefix(r, head)
      && r[|head|..] == mid + "/" + red
      && r[|r| - |red| - 1..] == "/" + red
  {
    var r := head + mid + "/" + red;
    assert r[..|head|] == head;
    assert r[|head|..] == mid + "/" + red;
    assert r[|r| - |red| - 1..] == "/" + red;
  }

  lemma PrefixOfConcat(a: string, b: string)
    ensures HasPrefix(a + b, a)
  {
    assert (a + b)[..|a|] == a;
  }



  /** Disabling the defaults leaves only the user lists; otherwise the four defaults
      come first, in their order, followed by the user list. */
  lemma MiddlewareLists(s: Settings)
    ensures s.notUserDefaultMW ==> SubMiddleware(s) == s.subList && PubMiddleware(s) == s.pubList
    ensures !s.notUserDefaultMW ==>
      && |SubMiddleware(s)| == 4 + |s.subList| && SubMiddleware(s)[4..] == s.subList
      && |PubMiddleware(s)| == 4 + |s.pubList| && PubMiddleware(s)[4..] == s.pubList
      && SubMiddleware(s)[0] == Recovery && SubMiddleware(s)[1].Logs? && SubMiddleware(s)[2].Tracer? && SubMiddleware(s)[3] == Metrics
      && SubMiddleware(s)[..4] == PubMiddleware(s)[..4]
  {
  }

  /** Options are applied in order. */
  lemma {:induction false} ApplyOptionsSnoc(s: Settings, opts: seq<Option>, o: Option)
    ensures ApplyOptions(s, opts + [o]) == Step(ApplyOptions(s, opts), o)
    decreases |opts|
  {
    if |opts| == 0 {
      assert [o][1..] == [];
    } else {
      assert (opts + [o])[1..] == opts[1..] + [o];
      ApplyOptionsSnoc(Step(s, opts[0]), opts[1..], o);
    }
  }

  /** The middlewares the options of one kind supply, in option order. */
  function Supplied(opts: seq<Option>, publish: bool): seq<Middleware>
    decreases |opts|
  {
    if |opts| == 0 then []
    else Supplied(opts[..|opts| - 1], publish) + Contributed(opts[|opts| - 1], publish)
  }

  /** The middlewares one option adds to the publish or the subscription list. */
  function Contributed(o: Option, publish: bool): seq<Middleware> {
    match o
    case WithSubMiddleware(list) => if publish then [] else list
    case WithPubMiddleware(list) => if publish then list else []
    case _ => []
  }

  /** One corrected option appends its own middlewares to each list. */
  lemma StepLists(s: Settings, o: Option)
    ensures Step(s, o).subList == s.subList + Contributed(o, false)
    ensures Step(s, o).pubList == s.pubList + Contributed(o, true)
  {
  }

  /** With the corrected publish option, each list holds exactly the middlewares its own
      options supplied, in order, after what it held before. */
  lemma {:induction false} ListsAccumulate(s: Settings, opts: seq<Option>)
    ensures ApplyOptions(s, opts).subList == s.subList + Supplied(opts, false)
    ensures ApplyOptions(s, opts).pubList == s.pubList + Supplied(opts, true)
    decreases |opts|
  {
    if |opts| > 0 {
      var init := opts[..|opts| - 1];
      var o := opts[|opts| - 1];
      assert opts == init + [o];
      ApplyOptionsSnoc(s, init, o);
      ListsAccumulate(s, init);
      var mid := ApplyOptions(s, init);
      StepLists(mid, o);
      assert s.subList + Supplied(init, false) + Contributed(o, false) == s.subList + Supplied(opts, false);
      assert s.pubList + Supplied(init, true) + Contributed(o, true) == s.pubList + Supplied(opts, true);
    }
  }

  // ----- Finding: `WithPubMiddleware` copies the subscription list -----

  /** As written, a subscription middleware given before `WithPubMiddleware` also runs on
      publish, and a publish middleware given by an earlier `WithPubMiddleware` is lost;
      with the correction neither happens. */
  lemma PubMiddlewareAsWritten(a: Middleware, b: Middleware, c: Middleware)
    ensures ApplyOptionsAsWritten(Defaults(), [WithSubMiddleware([a]), WithPubMiddleware([b])]).pubList == [a, b]
    ensures ApplyOptionsAsWritten(Defaults(), [WithPubMiddleware([b]), WithPubMiddleware([c])]).pubList == [c]
    ensures ApplyOptions(Defaults(), [WithSubMiddleware([a]), WithPubMiddleware([b])]).pubList == [b]
    ensures ApplyOptions(Defaults(), [WithPubMiddleware([b]), WithPubMiddleware([c])]).pubList == [b, c]
  {
    var d := Defaults();
    var o1, o2, o3 := WithSubMiddleware([a]), WithPubMiddleware([b]), WithPubMiddleware([c]);
    assert [o1, o2][1..] == [o2] && [o2, o3][1..] == [o3];
    assert [o2][1..] == [] && [o3][1..] == [];
    assert ApplyOptionsAsWritten(d, [o1, o2]) == ApplyOptionsAsWritten(StepAsWritten(StepAsWritten(d, o1), o2), []);
    assert ApplyOptionsAsWritten(d, [o2, o3]) == ApplyOptionsAsWritten(StepAsWritten(StepAsWritten(d, o2), o3), []);
    assert ApplyOptions(d, [o1, o2]) == ApplyOptions(Step(Step(d, o1), o2), []);
    assert ApplyOptions(d, [o2, o3]) == ApplyOptions(Step(Step(d, o2), o3), []);
  }

  /** The record without its publish list. */
  function OffPublish(s: Settings): Settings {
    s.(pubList := [])
  }

  /** The copy slip touches only the publish list: as written and corrected, the options
      leave every other field alike. */
  lemma {:induction false} AsWrittenAgreesOffPublish(a: Settings, b: Settings, opts: seq<Option>)
    requires OffPublish(a) == OffPublish(b)
    ensures OffPublish(ApplyOptionsAsWritten(a, opts)) == OffPublish(ApplyOptions(b, opts))
    decreases |opts|
  {
    if |opts| > 0 {
      AsWrittenAgreesOffPublish(StepAsWritten(a, opts[0]), Step(b, opts[0]), opts[1..]);
    }
  }

  /** The publish list as written: the subscription list as it stood at the last
      `WithPubMiddleware`, followed by that option's middlewares; the starting list
      when there is none. */
  function PubListAsWritten(s: Settings, opts: seq<Option>): seq<Middleware>
    decreases |opts|
  {
    if |opts| == 0 then s.pubList
    else
      match opts[|opts| - 1]
      case WithPubMiddleware(list) => s.subList + Supplied(opts[..|opts| - 1], false) + list
      case _ => PubListAsWritten(s, opts[..|opts| - 1])
  }

  lemma {:induction false} ApplyOptionsAsWrittenSnoc(s: Settings, opts: seq<Option>, o: Option)
    ensures ApplyOptionsAsWritten(s, opts + [o]) == StepAsWritten(ApplyOptionsAsWritten(s, opts), o)
    decreases |opts|
  {
    if |opts| == 0 {
      assert [o][1..] == [];
    } else {
      assert (opts + [o])[1..] == opts[1..] + [o];
      ApplyOptionsAsWrittenSnoc(StepAsWritten(s, opts[0]), opts[1..], o);
    }
  }

  /** As written, the subscription list still accumulates, and the publish list is the
      one `PubListAsWritten` describes. */
  lemma {:induction false} ListsAsWritten(s: Settings, opts: seq<Option>)
    ensures ApplyOptionsAsWritten(s, opts).subList == s.subList + Supplied(opts, false)
    ensures ApplyOptionsAsWritten(s, opts).pubList == PubListAsWritten(s, opts)
    decreases |opts|
  {
    if |opts| > 0 {
      var init := opts[..|opts| - 1];
      var o := opts[|opts| - 1];
      assert opts == init + [o];
      ApplyOptionsAsWrittenSnoc(s, init, o);
      ListsAsWritten(s, init);
      assert s.subList + Supplied(init, false) + Contributed(o, false) == s.subList + Supplied(opts, false);
    }
  }
}
