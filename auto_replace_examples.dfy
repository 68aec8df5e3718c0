/** Concrete behaviour of the automatic reducer on the scenario of the repository's own
    test (cardinality/auto/replace_test.go): one request path with a numeric id, a file
    name and a UUID, reduced with one recogniser switched off at a time, and a
    dot-separated subject reduced under a brace-placeholder configuration. */
module AutoReplaceExamples {
  import opened GoStrings
  import opened AutoConfig
  import opened AutoReplace

  const Uuid := "550e8400-e29b-41d4-a716-446655440000"

  /** The segments of `/player/update/123/file/favicon.ico/<uuid>`. */
  const Sample := ["player", "update", "123", "file", "favicon.ico", Uuid]

  /** The test's path, `/` followed by the `Sample` segments, splits back into them. */
  lemma SamplePath()
    ensures Split(TrimLeft("/" + Join(Sample, '/'), '/'), '/') == Sample
  {
    assert forall p :: p in Sample ==> '/' !in p;
    SegmentsOfJoin(Sample, '/', true);
  }

  // ----- How each segment is recognised -----

  /** A word that starts with a non-digit, has no dot and is not 36 characters long is
      accepted by no recogniser. */
  lemma Plain(s: string)
    requires |s| > 0 && !IsDigit(s[0]) && '.' !in s && |s| != 36
    ensures forall r :: !Accepts(r, s)
  {
  }

  lemma PlainSegments()
    ensures forall r :: !Accepts(r, "player") && !Accepts(r, "update") && !Accepts(r, "file")
  {
    Plain("player");
    Plain("update");
    Plain("file");
  }

  lemma NumberSegment()
    ensures IsId("123") && !IsResource("123") && !IsUuid("123")
  {
  }

  lemma FileNameSegment()
    ensures !IsId("favicon.ico") && IsResource("favicon.ico") && !IsUuid("favicon.ico")
  {
    assert !IsDigit("favicon.ico"[0]);
    assert ResourceSplit("favicon.ico", 3);
  }

  lemma UuidSegment()
    ensures !IsId(Uuid) && !IsResource(Uuid) && IsUuid(Uuid)
  {
    assert !IsDigit(Uuid[8]);
    assert Uuid[31] != '.' && Uuid[32] != '.' && Uuid[33] != '.';
  }

  lemma SampleRecognition()
    ensures forall r :: !Accepts(r, "player") && !Accepts(r, "update") && !Accepts(r, "file")
    ensures IsId("123") && !IsResource("123") && !IsUuid("123")
    ensures !IsId("favicon.ico") && IsResource("favicon.ico") && !IsUuid("favicon.ico")
    ensures !IsId(Uuid) && !IsResource(Uuid) && IsUuid(Uuid)
  {
    PlainSegments();
    NumberSegment();
    FileNameSegment();
    UuidSegment();
  }

  /** A module with `/` as its leading separator maps the test's path to the classified
      `Sample` segments, joined by `/` after a leading one. */
  lemma SampleReplaces(m: AutoModule, path: string, e0: string, e1: string, e2: string, e3: string, e4: string, e5: string)
    requires m.separator == '/' && m.hasLeadingSeparator
    requires Split(TrimLeft(path, '/'), '/') == Sample
    requires Classify(m.matches, Sample[0]) == e0 && Classify(m.matches, Sample[1]) == e1
    requires Classify(m.matches, Sample[2]) == e2 && Classify(m.matches, Sample[3]) == e3
    requires Classify(m.matches, Sample[4]) == e4 && Classify(m.matches, Sample[5]) == e5
    ensures ReplaceSpec(m, path) == "/" + Join([e0, e1, e2, e3, e4, e5], '/')
  {
    assert ClassifyAll(m.matches, Sample) == [e0, e1, e2, e3, e4, e5];
  }

  // ----- `auto.New(auto.WithoutId())` -----

  const WithoutIdModule := AutoModule('/', [Match(ResourceExp, ":resource"), Match(UuidExp, ":uuid")], true)

  lemma WithoutIdBuilds()
    ensures Build(ApplyOptions(DefaultConfig(), [WithoutId])) == WithoutIdModule
  {
    var d := DefaultConfig();
    assert FirstWithId(d.matches, KeyId) == 0;
    var s := ApplyOptions(d, [WithoutId]);
    assert s == Step(d, WithoutId);
    var t := [MatchState(IdExp, false, KeyId, ""), MatchState(ResourceExp, true, KeyResource, ""), MatchState(UuidExp, true, KeyUUID, "")];
    assert s.matches == t;
    var f := s.reader.PlaceholderFormatter();
    assert f(KeyResource) == ":resource" && f(KeyUUID) == ":uuid";
    assert EnabledMatches(t[2..], f) == [Match(UuidExp, ":uuid")];
    assert EnabledMatches(t[1..], f) == WithoutIdModule.matches;
  }

  /** The id stays, the file name and the UUID are reduced. */
  lemma WithoutIdReplaces(path: string)
    requires Split(TrimLeft(path, '/'), '/') == Sample
    ensures ReplaceSpec(Build(ApplyOptions(DefaultConfig(), [WithoutId])), path)
      == "/" + Join(["player", "update", "123", "file", ":resource", ":uuid"], '/')
  {
    WithoutIdBuilds();
    SampleRecognition();
    SampleReplaces(WithoutIdModule, path, "player", "update", "123", "file", ":resource", ":uuid");
  }

  // ----- `auto.New(auto.WithoutResource())` -----

  const WithoutResourceModule := AutoModule('/', [Match(IdExp, ":id"), Match(UuidExp, ":uuid")], true)

  lemma WithoutResourceBuilds()
    ensures Build(ApplyOptions(DefaultConfig(), [WithoutResource])) == WithoutResourceModule
  {
    var d := DefaultConfig();
    assert FirstWithId(d.matches, KeyResource) == 1;
    var s := ApplyOptions(d, [WithoutResource]);
    assert s == Step(d, WithoutResource);
    var t := [MatchState(IdExp, true, KeyId, ""), MatchState(ResourceExp, false, KeyResource, ""), MatchState(UuidExp, true, KeyUUID, "")];
    assert s.matches == t;
    var f := s.reader.PlaceholderFormatter();
    assert f(KeyId) == ":id" && f(KeyUUID) == ":uuid";
    assert EnabledMatches(t[2..], f) == [Match(UuidExp, ":uuid")];
    assert EnabledMatches(t[1..], f) == [Match(UuidExp, ":uuid")];
  }

  /** The id and the UUID are reduced, the file name stays. */
  lemma WithoutResourceReplaces(path: string)
    requires Split(TrimLeft(path, '/'), '/') == Sample
    ensures ReplaceSpec(Build(ApplyOptions(DefaultConfig(), [WithoutResource])), path)
      == "/" + Join(["player", "update", ":id", "file", "favicon.ico", ":uuid"], '/')
  {
    WithoutResourceBuilds();
    SampleRecognition();
    SampleReplaces(WithoutResourceModule, path, "player", "update", ":id", "file", "favicon.ico", ":uuid");
  }

  // ----- `auto.New(auto.WithoutUUID())` -----

  const WithoutUuidModule := AutoModule('/', [Match(IdExp, ":id"), Match(ResourceExp, ":resource")], true)

  lemma WithoutUuidBuilds()
    ensures Build(ApplyOptions(DefaultConfig(), [WithoutUUID])) == WithoutUuidModule
  {
    var d := DefaultConfig();
    assert FirstWithId(d.matches, KeyUUID) == 2;
    var s := ApplyOptions(d, [WithoutUUID]);
    assert s == Step(d, WithoutUUID);
    var t := [MatchState(IdExp, true, KeyId, ""), MatchState(ResourceExp, true, KeyResource, ""), MatchState(UuidExp, false, KeyUUID, "")];
    assert s.matches == t;
    var f := s.reader.PlaceholderFormatter();
    assert f(KeyId) == ":id" && f(KeyResource) == ":resource";
    assert EnabledMatches(t[2..], f) == [];
    assert EnabledMatches(t[1..], f) == [Match(ResourceExp, ":resource")];
  }

  /** The id and the file name are reduced, the UUID stays. */
  lemma WithoutUuidReplaces(path: string)
    requires Split(TrimLeft(path, '/'), '/') == Sample
    ensures ReplaceSpec(Build(ApplyOptions(DefaultConfig(), [WithoutUUID])), path)
      == "/" + Join(["player", "update", ":id", "file", ":resource", Uuid], '/')
  {
    WithoutUuidBuilds();
    SampleRecognition();
    SampleReplaces(WithoutUuidModule, path, "player", "update", ":id", "file", ":resource", Uuid);
  }

  // ----- `auto.New(auto.WithConfigReader(<".", no leading separator, "{%s}">))` -----

  const DotModule := AutoModule('.', [Match(IdExp, "{id}"), Match(ResourceExp, "{resource}"), Match(UuidExp, "{uuid}")], false)

  lemma DotBuilds()
    ensures Build(ApplyOptions(DefaultConfig(), [WithConfigReader(NatsReader)])) == DotModule
  {
    var o := WithConfigReader(NatsReader);
    var s := ApplyOptions(DefaultConfig(), [o]);
    assert [o][1..] == [];
    assert s == ApplyOptions(Step(DefaultConfig(), o), []);
    var f := s.reader.PlaceholderFormatter();
    assert f(KeyId) == "{id}" && f(KeyResource) == "{resource}" && f(KeyUUID) == "{uuid}";
    var t := s.matches;
    assert EnabledMatches(t[2..], f) == [Match(UuidExp, "{uuid}")];
    assert EnabledMatches(t[1..], f) == [Match(ResourceExp, "{resource}"), Match(UuidExp, "{uuid}")];
  }

  /** `player.update.123` splits into its three words. */
  lemma DotSubject()
    ensures Split(TrimLeft(Join(["player", "update", "123"], '.'), '.'), '.') == ["player", "update", "123"]
  {
    assert forall p :: p in ["player", "update", "123"] ==> '.' !in p;
    SegmentsOfJoin(["player", "update", "123"], '.', false);
    assert [] + Join(["player", "update", "123"], '.') == Join(["player", "update", "123"], '.');
  }

  /** A dot-separated subject: the number becomes `{id}`, no separator is put in front. */
  lemma DotReplaces(path: string)
    requires Split(TrimLeft(path, '.'), '.') == ["player", "update", "123"]
    ensures ReplaceSpec(Build(ApplyOptions(DefaultConfig(), [WithConfigReader(NatsReader)])), path)
      == Join(["player", "update", "{id}"], '.')
  {
    DotBuilds();
    PlainSegments();
    NumberSegment();
    var ms := DotModule.matches;
    assert Classify(ms, "player") == "player" && Classify(ms, "update") == "update";
    assert Classify(ms, "123") == "{id}";
    assert ClassifyAll(ms, ["player", "update", "123"]) == ["player", "update", "{id}"];
  }

  /** The whole scenario, as the test runs it, through `New` and `Replace`. */
  method Scenario() returns (a: string, b: string, c: string, d: string)
    ensures a == "/" + Join(["player", "update", "123", "file", ":resource", ":uuid"], '/')
    ensures b == "/" + Join(["player", "update", ":id", "file", "favicon.ico", ":uuid"], '/')
    ensures c == "/" + Join(["player", "update", ":id", "file", ":resource", Uuid], '/')
    ensures d == Join(["player", "update", "{id}"], '.')
  {
    var u := "/" + Join(Sample, '/');
    var subject := Join(["player", "update", "123"], '.');
    SamplePath();
    WithoutIdReplaces(u);
    WithoutResourceReplaces(u);
    WithoutUuidReplaces(u);
    DotSubject();
    DotReplaces(subject);
    var m := New([WithoutId]);
    a := Replace(m, u);
    m := New([WithoutResource]);
    b := Replace(m, u);
    m := New([WithoutUUID]);
    c := Replace(m, u);
    m := New([WithConfigReader(NatsReader)]);
    d := Replace(m, subject);
  }
}
