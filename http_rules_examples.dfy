/** Concrete behaviour of the HTTP groupers on the repository's own test
    (middleware/http/cardinality_test.go): a rule grouper built from four rules, followed
    by the automatic grouper. */
module HttpRulesExamples {
  import opened GoStrings
  import opened Results
  import Cardinality
  import AutoConfig
  import AutoReplaceExamples
  import HttpGroupers
  import opened HttpRulesGrouper

  /** The rules `/false/:gameId`, `/gameBySlug/:gameId/hello/:gameName`,
      `/detail/:gameName` and `/:system/logout`. */
  const TestRules: seq<string> := [
    "/" + Join(["false", ":gameId"], '/'),
    "/" + Join(["gameBySlug", ":gameId", "hello", ":gameName"], '/'),
    "/" + Join(["detail", ":gameName"], '/'),
    "/" + Join([":system", "logout"], '/')]

  const TestPipeline: seq<Pipe> := [
    Pipe([Part(false, "false"), Part(true, ":gameId")], Some(0), 1),
    Pipe([Part(false, "gameBySlug"), Part(true, ":gameId"), Part(false, "hello"), Part(true, ":gameName")], Some(0), 1),
    Pipe([Part(false, "detail"), Part(true, ":gameName")], Some(0), 1),
    Pipe([Part(true, ":system"), Part(false, "logout")], Some(1), 0)]

  /** The grouper list of the test: the rule grouper, then the automatic grouper. */
  function TestList(): seq<Cardinality.Replacer> {
    [Grouper(TestPipeline), HttpGroupers.NewAutoGrouper()]
  }

  /** A rule written as `/` and its segments splits back into them. */
  lemma RuleOf(rule: string, segs: seq<string>)
    requires |segs| >= 1 && |segs[0]| > 0 && forall p :: p in segs ==> '/' !in p
    requires rule == "/" + Join(segs, '/')
    ensures NewStringList(rule) == segs
  {
    SegmentsOfJoin(segs, '/', true);
  }

  /** Each rule of the test splits into its segments. */
  lemma TestRuleSegments()
    ensures NewStringList(TestRules[0]) == ["false", ":gameId"]
    ensures NewStringList(TestRules[1]) == ["gameBySlug", ":gameId", "hello", ":gameName"]
    ensures NewStringList(TestRules[2]) == ["detail", ":gameName"]
    ensures NewStringList(TestRules[3]) == [":system", "logout"]
  {
    RuleOf(TestRules[0], ["false", ":gameId"]);
    RuleOf(TestRules[1], ["gameBySlug", ":gameId", "hello", ":gameName"]);
    RuleOf(TestRules[2], ["detail", ":gameName"]);
    RuleOf(TestRules[3], [":system", "logout"]);
  }

  lemma Rule0()
    ensures CompileRule(TestRules[0]) == Success(TestPipeline[0])
  {
    TestRuleSegments();
    assert Cardinality.PlaceholderRegexp(":gameId");
    assert ToParts(["false", ":gameId"]) == TestPipeline[0].parts;
  }

  lemma Rule1()
    ensures CompileRule(TestRules[1]) == Success(TestPipeline[1])
  {
    TestRuleSegments();
    assert Cardinality.PlaceholderRegexp(":gameId");
    assert Cardinality.PlaceholderRegexp(":gameName");
    assert ToParts(["gameBySlug", ":gameId", "hello", ":gameName"]) == TestPipeline[1].parts;
  }

  lemma Rule2()
    ensures CompileRule(TestRules[2]) == Success(TestPipeline[2])
  {
    TestRuleSegments();
    assert Cardinality.PlaceholderRegexp(":gameName");
    assert ToParts(["detail", ":gameName"]) == TestPipeline[2].parts;
  }

  lemma Rule3()
    ensures CompileRule(TestRules[3]) == Success(TestPipeline[3])
  {
    TestRuleSegments();
    assert Cardinality.PlaceholderRegexp(":system");
    assert ToParts([":system", "logout"]) == TestPipeline[3].parts;
  }

  /** The four rules of the test are accepted, in order. */
  lemma TestRulesCompile()
    ensures Rules2PipeSpec(TestRules) == Success(TestPipeline)
  {
    forall k | 0 <= k < |TestRules| ensures CompileRule(TestRules[k]) == Success(TestPipeline[k]) {
      if k == 0 { Rule0(); } else if k == 1 { Rule1(); } else if k == 2 { Rule2(); } else { Rule3(); }
    }
    Rules2PipeOutcome(TestRules);
    var ps := Rules2PipeSpec(TestRules).value;
    assert |ps| == |TestPipeline|;
    assert forall k :: 0 <= k < |ps| ==> ps[k] == TestPipeline[k];
    assert ps == TestPipeline;
  }

  /** The automatic grouper keeps a segment no recogniser accepts. */
  lemma Kept(seg: string)
    requires forall r :: !AutoConfig.Accepts(r, seg)
    ensures HttpGroupers.Reduce(seg) == seg
  {
    assert !AutoConfig.Accepts(AutoConfig.IdExp, seg);
    assert !AutoConfig.Accepts(AutoConfig.ResourceExp, seg);
    assert !AutoConfig.Accepts(AutoConfig.UuidExp, seg);
  }

  /** Segments the automatic grouper keeps one by one are kept as a list. */
  lemma KeptAll(segs: seq<string>)
    requires forall k :: 0 <= k < |segs| ==> HttpGroupers.Reduce(segs[k]) == segs[k]
    ensures HttpGroupers.ReduceAll(segs) == segs
  {
  }

  /** `/game/logout` is rewritten by the last rule alone: `game` takes the place of
      `:system`. */
  lemma GameLogoutRules(path: string)
    requires NewStringList(path) == ["game", "logout"]
    ensures GroupSpec(TestPipeline, path) == "/" + Join([":system", "logout"], '/')
  {
    var segs := NewStringList(path);
    assert segs[0] != TestPipeline[0].parts[0].value;
    assert segs[0] != TestPipeline[2].parts[0].value;
    ApplyPipeOutcome(TestPipeline[3], path);
    assert Values(TestPipeline[3].parts) + segs[2..] == [":system", "logout"];
    GroupFirstMatch(TestPipeline, path, 3);
  }

  /** `/:system/logout` splits into its segments, and the automatic grouper keeps both. */
  lemma SystemLogoutKept()
    ensures NewStringList("/" + Join([":system", "logout"], '/')) == [":system", "logout"]
    ensures HttpGroupers.ReduceAll([":system", "logout"]) == [":system", "logout"]
  {
    assert forall p :: p in [":system", "logout"] ==> '/' !in p;
    RuleOf("/" + Join([":system", "logout"], '/'), [":system", "logout"]);
    AutoConfig.ColonNeverAccepted(":system");
    Kept(":system");
    AutoReplaceExamples.Plain("logout");
    Kept("logout");
    KeptAll([":system", "logout"]);
  }

  /** `/game/logout` becomes `/:system/logout` through the whole list. */
  lemma GameLogout(path: string)
    requires NewStringList(path) == ["game", "logout"]
    ensures Cardinality.ApplyAll(TestList(), path) == "/" + Join([":system", "logout"], '/')
  {
    GameLogoutRules(path);
    SystemLogoutKept();
    assert TestList()[1..][1..] == [];
  }

  /** `/login` is shorter than every rule and has nothing to reduce: it is kept. */
  lemma Login(path: string)
    requires NewStringList(path) == ["login"]
    ensures Cardinality.ApplyAll(TestList(), path) == "/login"
  {
    forall k | 0 <= k < |TestPipeline| ensures !ApplyPipeSpec(TestPipeline[k], path).1 {
      ShortPathSkipped(TestPipeline[k], path);
    }
    GroupNoMatch(TestPipeline, path);
    AutoReplaceExamples.Plain("login");
    Kept("login");
    KeptAll(["login"]);
    assert TestList()[1..][1..] == [];
  }

  /** The segments of `/api/v1/tournaments/detail/diamond-luck`. */
  const TournamentSegs: seq<string> := ["api", "v1", "tournaments", "detail", "diamond-luck"]

  /** The automatic grouper keeps every segment of the tournament path. */
  lemma TournamentSegsKept()
    ensures HttpGroupers.ReduceAll(TournamentSegs) == TournamentSegs
  {
    AutoReplaceExamples.Plain("api");
    AutoReplaceExamples.Plain("v1");
    AutoReplaceExamples.Plain("tournaments");
    AutoReplaceExamples.Plain("detail");
    AutoReplaceExamples.Plain("diamond-luck");
    Kept("api");
    Kept("v1");
    Kept("tournaments");
    Kept("detail");
    Kept("diamond-luck");
    KeptAll(TournamentSegs);
  }

  /** Matching is anchored at the first segment: `/detail/:gameName` does not apply to
      `/api/v1/tournaments/detail/diamond-luck`, which comes back unchanged. */
  lemma TournamentKept(path: string)
    requires NewStringList(path) == TournamentSegs
    ensures Cardinality.ApplyAll(TestList(), path) == "/" + Join(TournamentSegs, '/')
  {
    var segs := NewStringList(path);
    assert segs[0] != TestPipeline[0].parts[0].value;
    assert segs[0] != TestPipeline[1].parts[0].value;
    assert segs[0] != TestPipeline[2].parts[0].value;
    assert segs[1] != TestPipeline[3].parts[1].value;
    assert forall k :: 0 <= k < |TestPipeline| ==> !ApplyPipeSpec(TestPipeline[k], path).1;
    GroupNoMatch(TestPipeline, path);
    TournamentSegsKept();
    assert TestList()[1..][1..] == [];
  }


  /** The two request paths of the test split into their segments. */
  lemma TestPaths()
    ensures NewStringList("/" + Join(["game", "logout"], '/')) == ["game", "logout"]
    ensures NewStringList("/" + Join(["login"], '/')) == ["login"]
  {
    assert forall p :: p in ["game", "logout"] ==> '/' !in p;
    RuleOf("/" + Join(["game", "logout"], '/'), ["game", "logout"]);
    RuleOf("/" + Join(["login"], '/'), ["login"]);
  }

  /** The test as it runs: a hundred rules are refused, the four rules are accepted,
      and the list maps `/game/logout` and `/login` as expected. */
  method Scenario() returns (tooMany: Result<seq<Pipe>, Error>, built: Result<seq<Pipe>, Error>, a: string, b: string)
    ensures tooMany == Failure(TooManyRules)
    ensures built == Success(TestPipeline)
    ensures a == "/" + Join([":system", "logout"], '/')
    ensures b == "/login"
  {
    tooMany := NewRulesGrouper(seq(100, _ => ""));
    TestRulesCompile();
    built := NewRulesGrouper(TestRules);
    var game := "/" + Join(["game", "logout"], '/');
    var login := "/" + Join(["login"], '/');
    TestPaths();
    GameLogout(game);
    Login(login);
    a := HttpGroupers.ApplyGroupers(TestList(), game);
    b := HttpGroupers.ApplyGroupers(TestList(), login);
  }
}
