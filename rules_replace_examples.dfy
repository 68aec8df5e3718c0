/** Concrete behaviour of the rule engine on the rule sets of the repository's own
    test table (cardinality/rules/replace_test.go) and on the inputs that show the
    partial match's indexing (cardinality/rules/replace.go, `mutatePartial`). */
module RulesReplaceExamples {
  import opened GoStrings
  import opened Results
  import opened RulesReplace
  import RulesConfig
  import CardinalityConfig
  import Cardinality

  function Lit(v: string): Part { Part(false, v) }
  function Ph(v: string): Part { Part(true, v) }

  const Defaults := RulesConfig.DefaultSettings()

  predicate Segments(segs: seq<string>) {
    |segs| >= 1 && |segs[0]| > 0 && segs[0][0] != '/' && forall k :: 0 <= k < |segs| ==> '/' !in segs[k]
  }

  /** A rule written as its segments, with or without one leading separator. */
  lemma RuleOf(rule: string, segs: seq<string>)
    requires Segments(segs)
    requires rule == Join(segs, '/') || rule == "/" + Join(segs, '/')
    ensures RuleSegments(rule, '/') == segs
  {
    var j := Join(segs, '/');
    JoinFirst(segs, '/');
    SplitJoin(segs, '/');
    TrimLeftNoop(j, '/');
    if rule == j {
      assert rule[..1][0] != '/';
    } else {
      assert rule[..1] == "/";
      TrimLeftCons(j, '/');
    }
  }

  /** A request path of the default form, `/` followed by its segments. */
  lemma PathOf(path: string, segs: seq<string>)
    requires Segments(segs)
    requires path == "/" + Join(segs, '/')
    ensures UrlParts(path, '/') == segs
  {
    assert forall p :: p in segs ==> '/' !in p;
    SegmentsOfJoin(segs, '/', true);
  }

  /** The first pattern that matches a path's segments decides the result. */
  lemma FirstMatchOnSegments(patterns: seq<Pattern>, path: string, segs: seq<string>, k: nat, out: string)
    requires UrlParts(path, '/') == segs && k < |patterns|
    requires forall x :: 0 <= x < k ==> ExecSegments(patterns[x], segs, '/', true) == NoMatch
    requires ExecSegments(patterns[k], segs, '/', true) == Matched(out)
    ensures ReplaceSpec(patterns, path, '/', true) == Replaced(out)
  {
    ReplaceFirstMatchWins(patterns, path, '/', true, k);
  }

  /** A path no pattern matches is returned as it came. */
  lemma NoMatchOnSegments(patterns: seq<Pattern>, path: string, segs: seq<string>)
    requires UrlParts(path, '/') == segs
    requires forall x :: 0 <= x < |patterns| ==> ExecSegments(patterns[x], segs, '/', true) == NoMatch
    ensures ReplaceSpec(patterns, path, '/', true) == Replaced(path)
  {
    ReplaceNoMatchKeepsPath(patterns, path, '/', true);
  }

  /** The rule whose segments are `segs` compiles to those segments, flagged by the default recogniser. */
  lemma CompileDefault(rule: string, segs: seq<string>, pat: Pattern)
    requires Segments(segs) && |segs| < 10
    requires rule == Join(segs, '/') || rule == "/" + Join(segs, '/')
    requires |pat.parts| == |segs|
    requires forall k :: 0 <= k < |segs| ==> pat.parts[k] == Part(Cardinality.PlaceholderRegexp(segs[k]), segs[k])
    requires HasPlaceholder(pat.parts) && pat.firstValuePos == FirstValuePos(pat.parts)
    ensures CompileRule(rule, '/', Defaults.reader.PlaceholderRegexp(), Defaults.maxSeparatorCount) == Success(pat)
  {
    RuleOf(rule, segs);
    assert ToParts(segs, Defaults.reader.PlaceholderRegexp()) == pat.parts;
  }

  /** Rules that each compile, fewer than the limit, compile together. */
  lemma CompileAll(rules: seq<string>, pats: seq<Pattern>)
    requires |rules| < Defaults.maxRuleCount && |pats| == |rules|
    requires forall k :: 0 <= k < |rules| ==>
      CompileRule(rules[k], '/', Defaults.reader.PlaceholderRegexp(), Defaults.maxSeparatorCount) == Success(pats[k])
    ensures Compile(rules, Defaults) == Success(pats)
  {
    CardinalityConfig.DefaultConfigValues();
    assert Defaults.reader.PathSeparator() == '/';
    CompileOutcome(rules, Defaults);
    assert Compile(rules, Defaults).Success?;
    var ps := Compile(rules, Defaults).value;
    assert forall k :: 0 <= k < |rules| ==> ps[k] == pats[k];
    assert ps == pats;
  }


  // ----- TestPartial (cardinality/rules/replace_test.go:16-36): a rule shorter than the path is matched around its literal. -----

  const PartialRules: seq<string> := ["a20/:XX", ":XX/b21", "b22/:XX", ":XX/c23"]

  const PartialPatterns: seq<Pattern> := [
    Pattern([Lit("a20"), Ph(":XX")], 0),
    Pattern([Ph(":XX"), Lit("b21")], 1),
    Pattern([Lit("b22"), Ph(":XX")], 0),
    Pattern([Ph(":XX"), Lit("c23")], 1)]

  lemma PartialRule0()
    ensures CompileRule(PartialRules[0], '/', Defaults.reader.PlaceholderRegexp(), 10) == Success(PartialPatterns[0])
  {
    assert Cardinality.PlaceholderRegexp(":XX");
    assert PartialPatterns[0].parts[1].isPlaceholder;
    CompileDefault("a20/:XX", ["a20", ":XX"], PartialPatterns[0]);
  }

  lemma PartialRule1()
    ensures CompileRule(PartialRules[1], '/', Defaults.reader.PlaceholderRegexp(), 10) == Success(PartialPatterns[1])
  {
    assert Cardinality.PlaceholderRegexp(":XX");
    assert PartialPatterns[1].parts[0].isPlaceholder;
    CompileDefault(":XX/b21", [":XX", "b21"], PartialPatterns[1]);
  }

  lemma PartialRule2()
    ensures CompileRule(PartialRules[2], '/', Defaults.reader.PlaceholderRegexp(), 10) == Success(PartialPatterns[2])
  {
    assert Cardinality.PlaceholderRegexp(":XX");
    assert PartialPatterns[2].parts[1].isPlaceholder;
    CompileDefault("b22/:XX", ["b22", ":XX"], PartialPatterns[2]);
  }

  lemma PartialRule3()
    ensures CompileRule(PartialRules[3], '/', Defaults.reader.PlaceholderRegexp(), 10) == Success(PartialPatterns[3])
  {
    assert Cardinality.PlaceholderRegexp(":XX");
    assert PartialPatterns[3].parts[0].isPlaceholder;
    CompileDefault(":XX/c23", [":XX", "c23"], PartialPatterns[3]);
  }

  /** The rules of this set are all accepted, in order. */
  lemma PartialRulesCompile()
    ensures Compile(PartialRules, Defaults) == Success(PartialPatterns)
  {
    var isPh := Defaults.reader.PlaceholderRegexp();
    forall k | 0 <= k < 4 ensures CompileRule(PartialRules[k], '/', isPh, 10) == Success(PartialPatterns[k]) {
      if k == 0 { PartialRule0(); } else if k == 1 { PartialRule1(); } else if k == 2 { PartialRule2(); } else { PartialRule3(); }
    }
    CompileAll(PartialRules, PartialPatterns);
  }

  lemma PartialA20On0()
    ensures ExecSegments(PartialPatterns[0], ["a20", "b20", "c20"], '/', true) == Matched("/a20/:XX/c20")
  {
    var segs := ["a20", "b20", "c20"];
    var pat := PartialPatterns[0];
    assert pat == Pattern([Lit("a20"), Ph(":XX")], 0);
    assert FindAnchor(segs, pat.parts, 0, 0) == Some((0, 0));
    assert AsWrittenImage(segs, pat.parts, 0, 0) == ["a20", ":XX", "c20"];
    Join3("a20", ":XX", "c20", '/');
  }

  /** `/a20/b20/c20` becomes `/a20/:XX/c20`. */
  lemma PartialA20(path: string)
    requires UrlParts(path, '/') == ["a20", "b20", "c20"]
    ensures ReplaceSpec(PartialPatterns, path, '/', true) == Replaced("/a20/:XX/c20")
  {
    var segs := ["a20", "b20", "c20"];
    PartialA20On0();
    FirstMatchOnSegments(PartialPatterns, path, segs, 0, "/a20/:XX/c20");
  }

  lemma PartialA21On0()
    ensures ExecSegments(PartialPatterns[0], ["a21", "b21", "c21"], '/', true) == NoMatch
  {
    var segs := ["a21", "b21", "c21"];
    var pat := PartialPatterns[0];
    assert pat == Pattern([Lit("a20"), Ph(":XX")], 0);
    assert FindAnchor(segs, pat.parts, 0, 0) == None;
  }

  lemma PartialA21On1()
    ensures ExecSegments(PartialPatterns[1], ["a21", "b21", "c21"], '/', true) == Matched("/:XX/b21/c21")
  {
    var segs := ["a21", "b21", "c21"];
    var pat := PartialPatterns[1];
    assert pat == Pattern([Ph(":XX"), Lit("b21")], 1);
    assert FindAnchor(segs, pat.parts, 1, 1) == Some((1, 1));
    assert AsWrittenImage(segs, pat.parts, 1, 1) == [":XX", "b21", "c21"];
    Join3(":XX", "b21", "c21", '/');
  }

  /** `/a21/b21/c21` becomes `/:XX/b21/c21`. */
  lemma PartialA21(path: string)
    requires UrlParts(path, '/') == ["a21", "b21", "c21"]
    ensures ReplaceSpec(PartialPatterns, path, '/', true) == Replaced("/:XX/b21/c21")
  {
    var segs := ["a21", "b21", "c21"];
    forall x | 0 <= x < 1 ensures ExecSegments(PartialPatterns[x], segs, '/', true) == NoMatch {
      PartialA21On0();
    }
    PartialA21On1();
    FirstMatchOnSegments(PartialPatterns, path, segs, 1, "/:XX/b21/c21");
  }

  lemma PartialA22On0()
    ensures ExecSegments(PartialPatterns[0], ["a22", "b22", "c22"], '/', true) == NoMatch
  {
    var segs := ["a22", "b22", "c22"];
    var pat := PartialPatterns[0];
    assert pat == Pattern([Lit("a20"), Ph(":XX")], 0);
    assert FindAnchor(segs, pat.parts, 0, 0) == None;
  }

  lemma PartialA22On1()
    ensures ExecSegments(PartialPatterns[1], ["a22", "b22", "c22"], '/', true) == NoMatch
  {
    var segs := ["a22", "b22", "c22"];
    var pat := PartialPatterns[1];
    assert pat == Pattern([Ph(":XX"), Lit("b21")], 1);
    assert FindAnchor(segs, pat.parts, 1, 1) == None;
  }

  lemma PartialA22On2()
    ensures ExecSegments(PartialPatterns[2], ["a22", "b22", "c22"], '/', true) == Matched("/a22/b22/:XX")
  {
    var segs := ["a22", "b22", "c22"];
    var pat := PartialPatterns[2];
    assert pat == Pattern([Lit("b22"), Ph(":XX")], 0);
    assert FindAnchor(segs, pat.parts, 0, 0) == Some((0, 1));
    assert AsWrittenImage(segs, pat.parts, 0, 1) == ["a22", "b22", ":XX"];
    Join3("a22", "b22", ":XX", '/');
  }

  /** `/a22/b22/c22` becomes `/a22/b22/:XX`. */
  lemma PartialA22(path: string)
    requires UrlParts(path, '/') == ["a22", "b22", "c22"]
    ensures ReplaceSpec(PartialPatterns, path, '/', true) == Replaced("/a22/b22/:XX")
  {
    var segs := ["a22", "b22", "c22"];
    forall x | 0 <= x < 2 ensures ExecSegments(PartialPatterns[x], segs, '/', true) == NoMatch {
      if x == 0 { PartialA22On0(); } else { PartialA22On1(); }
    }
    PartialA22On2();
    FirstMatchOnSegments(PartialPatterns, path, segs, 2, "/a22/b22/:XX");
  }

  lemma PartialA23On0()
    ensures ExecSegments(PartialPatterns[0], ["a23", "b23", "c23"], '/', true) == NoMatch
  {
    var segs := ["a23", "b23", "c23"];
    var pat := PartialPatterns[0];
    assert pat == Pattern([Lit("a20"), Ph(":XX")], 0);
    assert FindAnchor(segs, pat.parts, 0, 0) == None;
  }

  lemma PartialA23On1()
    ensures ExecSegments(PartialPatterns[1], ["a23", "b23", "c23"], '/', true) == NoMatch
  {
    var segs := ["a23", "b23", "c23"];
    var pat := PartialPatterns[1];
    assert pat == Pattern([Ph(":XX"), Lit("b21")], 1);
    assert FindAnchor(segs, pat.parts, 1, 1) == None;
  }

  lemma PartialA23On2()
    ensures ExecSegments(PartialPatterns[2], ["a23", "b23", "c23"], '/', true) == NoMatch
  {
    var segs := ["a23", "b23", "c23"];
    var pat := PartialPatterns[2];
    assert pat == Pattern([Lit("b22"), Ph(":XX")], 0);
    assert FindAnchor(segs, pat.parts, 0, 0) == None;
  }

  lemma PartialA23On3()
    ensures ExecSegments(PartialPatterns[3], ["a23", "b23", "c23"], '/', true) == Matched("/a23/:XX/c23")
  {
    var segs := ["a23", "b23", "c23"];
    var pat := PartialPatterns[3];
    assert pat == Pattern([Ph(":XX"), Lit("c23")], 1);
    assert FindAnchor(segs, pat.parts, 1, 1) == Some((1, 2));
    assert AsWrittenImage(segs, pat.parts, 1, 2) == ["a23", ":XX", "c23"];
    Join3("a23", ":XX", "c23", '/');
  }

  /** `/a23/b23/c23` becomes `/a23/:XX/c23`. */
  lemma PartialA23(path: string)
    requires UrlParts(path, '/') == ["a23", "b23", "c23"]
    ensures ReplaceSpec(PartialPatterns, path, '/', true) == Replaced("/a23/:XX/c23")
  {
    var segs := ["a23", "b23", "c23"];
    forall x | 0 <= x < 3 ensures ExecSegments(PartialPatterns[x], segs, '/', true) == NoMatch {
      if x == 0 { PartialA23On0(); } else if x == 1 { PartialA23On1(); } else { PartialA23On2(); }
    }
    PartialA23On3();
    FirstMatchOnSegments(PartialPatterns, path, segs, 3, "/a23/:XX/c23");
  }

  // ----- TestEqual (cardinality/rules/replace_test.go:38-82): rules as long as the path compare position by position; paths no rule fits are kept. -----

  const EqualRules: seq<string> := ["/:AA/b01/c01/:DD", "/a02/:BB/c02/:DD", "/a03/b03/:CC/:DD", "/a04/b04/c04/:DD", "/:AA/b05/c05/d05", "/:AA/:BB/c06/d06", "/:AA/b07/:CC/d07", "/:AA/b08/c08/:DD", "/a09/:BB/:CC/d09", "/a10/:BB/:CC/:DD", "/:AA/:BB/:CC/d11"]

  const EqualPatterns: seq<Pattern> := [
    Pattern([Ph(":AA"), Lit("b01"), Lit("c01"), Ph(":DD")], 1),
    Pattern([Lit("a02"), Ph(":BB"), Lit("c02"), Ph(":DD")], 0),
    Pattern([Lit("a03"), Lit("b03"), Ph(":CC"), Ph(":DD")], 0),
    Pattern([Lit("a04"), Lit("b04"), Lit("c04"), Ph(":DD")], 0),
    Pattern([Ph(":AA"), Lit("b05"), Lit("c05"), Lit("d05")], 1),
    Pattern([Ph(":AA"), Ph(":BB"), Lit("c06"), Lit("d06")], 2),
    Pattern([Ph(":AA"), Lit("b07"), Ph(":CC"), Lit("d07")], 1),
    Pattern([Ph(":AA"), Lit("b08"), Lit("c08"), Ph(":DD")], 1),
    Pattern([Lit("a09"), Ph(":BB"), Ph(":CC"), Lit("d09")], 0),
    Pattern([Lit("a10"), Ph(":BB"), Ph(":CC"), Ph(":DD")], 0),
    Pattern([Ph(":AA"), Ph(":BB"), Ph(":CC"), Lit("d11")], 3)]

  lemma EqualRule0()
    ensures CompileRule(EqualRules[0], '/', Defaults.reader.PlaceholderRegexp(), 10) == Success(EqualPatterns[0])
  {
    assert Cardinality.PlaceholderRegexp(":AA");
    assert Cardinality.PlaceholderRegexp(":DD");
    assert EqualPatterns[0].parts[0].isPlaceholder;
    CompileDefault("/:AA/b01/c01/:DD", [":AA", "b01", "c01", ":DD"], EqualPatterns[0]);
  }

  lemma EqualRule1()
    ensures CompileRule(EqualRules[1], '/', Defaults.reader.PlaceholderRegexp(), 10) == Success(EqualPatterns[1])
  {
    assert Cardinality.PlaceholderRegexp(":BB");
    assert Cardinality.PlaceholderRegexp(":DD");
    assert EqualPatterns[1].parts[1].isPlaceholder;
    CompileDefault("/a02/:BB/c02/:DD", ["a02", ":BB", "c02", ":DD"], EqualPatterns[1]);
  }

  lemma EqualRule2()
    ensures CompileRule(EqualRules[2], '/', Defaults.reader.PlaceholderRegexp(), 10) == Success(EqualPatterns[2])
  {
    assert Cardinality.PlaceholderRegexp(":CC");
    assert Cardinality.PlaceholderRegexp(":DD");
    assert EqualPatterns[2].parts[2].isPlaceholder;
    CompileDefault("/a03/b03/:CC/:DD", ["a03", "b03", ":CC", ":DD"], EqualPatterns[2]);
  }

  lemma EqualRule3()
    ensures CompileRule(EqualRules[3], '/', Defaults.reader.PlaceholderRegexp(), 10) == Success(EqualPatterns[3])
  {
    assert Cardinality.PlaceholderRegexp(":DD");
    assert EqualPatterns[3].parts[3].isPlaceholder;
    CompileDefault("/a04/b04/c04/:DD", ["a04", "b04", "c04", ":DD"], EqualPatterns[3]);
  }

  lemma EqualRule4()
    ensures CompileRule(EqualRules[4], '/', Defaults.reader.PlaceholderRegexp(), 10) == Success(EqualPatterns[4])
  {
    assert Cardinality.PlaceholderRegexp(":AA");
    assert EqualPatterns[4].parts[0].isPlaceholder;
    CompileDefault("/:AA/b05/c05/d05", [":AA", "b05", "c05", "d05"], EqualPatterns[4]);
  }

  lemma EqualRule5()
    ensures CompileRule(EqualRules[5], '/', Defaults.reader.PlaceholderRegexp(), 10) == Success(EqualPatterns[5])
  {
    assert Cardinality.PlaceholderRegexp(":AA");
    assert Cardinality.PlaceholderRegexp(":BB");
    assert EqualPatterns[5].parts[0].isPlaceholder;
    CompileDefault("/:AA/:BB/c06/d06", [":AA", ":BB", "c06", "d06"], EqualPatterns[5]);
  }

  lemma EqualRule6()
    ensures CompileRule(EqualRules[6], '/', Defaults.reader.PlaceholderRegexp(), 10) == Success(EqualPatterns[6])
  {
    assert Cardinality.PlaceholderRegexp(":AA");
    assert Cardinality.PlaceholderRegexp(":CC");
    assert EqualPatterns[6].parts[0].isPlaceholder;
    CompileDefault("/:AA/b07/:CC/d07", [":AA", "b07", ":CC", "d07"], EqualPatterns[6]);
  }

  lemma EqualRule7()
    ensures CompileRule(EqualRules[7], '/', Defaults.reader.PlaceholderRegexp(), 10) == Success(EqualPatterns[7])
  {
    assert Cardinality.PlaceholderRegexp(":AA");
    assert Cardinality.PlaceholderRegexp(":DD");
    assert EqualPatterns[7].parts[0].isPlaceholder;
    CompileDefault("/:AA/b08/c08/:DD", [":AA", "b08", "c08", ":DD"], EqualPatterns[7]);
  }

  lemma EqualRule8()
    ensures CompileRule(EqualRules[8], '/', Defaults.reader.PlaceholderRegexp(), 10) == Success(EqualPatterns[8])
  {
    assert Cardinality.PlaceholderRegexp(":BB");
    assert Cardinality.PlaceholderRegexp(":CC");
    assert EqualPatterns[8].parts[1].isPlaceholder;
    CompileDefault("/a09/:BB/:CC/d09", ["a09", ":BB", ":CC", "d09"], EqualPatterns[8]);
  }

  lemma EqualRule9()
    ensures CompileRule(EqualRules[9], '/', Defaults.reader.PlaceholderRegexp(), 10) == Success(EqualPatterns[9])
  {
    assert Cardinality.PlaceholderRegexp(":BB");
    assert Cardinality.PlaceholderRegexp(":CC");
    assert Cardinality.PlaceholderRegexp(":DD");
    assert EqualPatterns[9].parts[1].isPlaceholder;
    CompileDefault("/a10/:BB/:CC/:DD", ["a10", ":BB", ":CC", ":DD"], EqualPatterns[9]);
  }

  lemma EqualRule10()
    ensures CompileRule(EqualRules[10], '/', Defaults.reader.PlaceholderRegexp(), 10) == Success(EqualPatterns[10])
  {
    assert Cardinality.PlaceholderRegexp(":AA");
    assert Cardinality.PlaceholderRegexp(":BB");
    assert Cardinality.PlaceholderRegexp(":CC");
    assert EqualPatterns[10].parts[0].isPlaceholder;
    CompileDefault("/:AA/:BB/:CC/d11", [":AA", ":BB", ":CC", "d11"], EqualPatterns[10]);
  }

  /** The rules of this set are all accepted, in order. */
  lemma EqualRulesCompile()
    ensures Compile(EqualRules, Defaults) == Success(EqualPatterns)
  {
    var isPh := Defaults.reader.PlaceholderRegexp();
    forall k | 0 <= k < 11 ensures CompileRule(EqualRules[k], '/', isPh, 10) == Success(EqualPatterns[k]) {
      if k == 0 { EqualRule0(); } else if k == 1 { EqualRule1(); } else if k == 2 { EqualRule2(); } else if k == 3 { EqualRule3(); } else if k == 4 { EqualRule4(); } else if k == 5 { EqualRule5(); } else if k == 6 { EqualRule6(); } else if k == 7 { EqualRule7(); } else if k == 8 { EqualRule8(); } else if k == 9 { EqualRule9(); } else { EqualRule10(); }
    }
    CompileAll(EqualRules, EqualPatterns);
  }

  lemma EqualA01On0()
    ensures ExecSegments(EqualPatterns[0], ["a01", "b01", "c01", "d01"], '/', true) == Matched("/:AA/b01/c01/:DD")
  {
    var segs := ["a01", "b01", "c01", "d01"];
    var pat := EqualPatterns[0];
    assert pat == Pattern([Ph(":AA"), Lit("b01"), Lit("c01"), Ph(":DD")], 1);
    forall k | 0 <= k < 4 && !pat.parts[k].isPlaceholder ensures segs[k] == pat.parts[k].value {
      if k == 0 {} else if k == 1 {} else if k == 2 {} else {}
    }
    EqualMatchCollapsesToRule(segs, pat.parts, '/', true);
    assert Values(pat.parts) == [":AA", "b01", "c01", ":DD"];
    EqualA01Text();
  }

  lemma EqualA01Text()
    ensures Serialize([":AA", "b01", "c01", ":DD"], '/', true) == "/:AA/b01/c01/:DD"
  {
    Join4(":AA", "b01", "c01", ":DD", '/');
  }

  /** `/a01/b01/c01/d01` becomes `/:AA/b01/c01/:DD`. */
  lemma EqualA01(path: string)
    requires UrlParts(path, '/') == ["a01", "b01", "c01", "d01"]
    ensures ReplaceSpec(EqualPatterns, path, '/', true) == Replaced("/:AA/b01/c01/:DD")
  {
    var segs := ["a01", "b01", "c01", "d01"];
    EqualA01On0();
    FirstMatchOnSegments(EqualPatterns, path, segs, 0, "/:AA/b01/c01/:DD");
  }

  lemma EqualA02On0()
    ensures ExecSegments(EqualPatterns[0], ["a02", "b02", "c02", "d02"], '/', true) == NoMatch
  {
    var segs := ["a02", "b02", "c02", "d02"];
    var pat := EqualPatterns[0];
    assert pat == Pattern([Ph(":AA"), Lit("b01"), Lit("c01"), Ph(":DD")], 1);
    assert segs[1] != pat.parts[1].value;
  }

  lemma EqualA02On1()
    ensures ExecSegments(EqualPatterns[1], ["a02", "b02", "c02", "d02"], '/', true) == Matched("/a02/:BB/c02/:DD")
  {
    var segs := ["a02", "b02", "c02", "d02"];
    var pat := EqualPatterns[1];
    assert pat == Pattern([Lit("a02"), Ph(":BB"), Lit("c02"), Ph(":DD")], 0);
    forall k | 0 <= k < 4 && !pat.parts[k].isPlaceholder ensures segs[k] == pat.parts[k].value {
      if k == 0 {} else if k == 1 {} else if k == 2 {} else {}
    }
    EqualMatchCollapsesToRule(segs, pat.parts, '/', true);
    assert Values(pat.parts) == ["a02", ":BB", "c02", ":DD"];
    EqualA02Text();
  }

  lemma EqualA02Text()
    ensures Serialize(["a02", ":BB", "c02", ":DD"], '/', true) == "/a02/:BB/c02/:DD"
  {
    Join4("a02", ":BB", "c02", ":DD", '/');
  }

  /** `/a02/b02/c02/d02` becomes `/a02/:BB/c02/:DD`. */
  lemma EqualA02(path: string)
    requires UrlParts(path, '/') == ["a02", "b02", "c02", "d02"]
    ensures ReplaceSpec(EqualPatterns, path, '/', true) == Replaced("/a02/:BB/c02/:DD")
  {
    var segs := ["a02", "b02", "c02", "d02"];
    forall x | 0 <= x < 1 ensures ExecSegments(EqualPatterns[x], segs, '/', true) == NoMatch {
      EqualA02On0();
    }
    EqualA02On1();
    FirstMatchOnSegments(EqualPatterns, path, segs, 1, "/a02/:BB/c02/:DD");
  }

  lemma EqualA03On0()
    ensures ExecSegments(EqualPatterns[0], ["a03", "b03", "c03", "d03"], '/', true) == NoMatch
  {
    var segs := ["a03", "b03", "c03", "d03"];
    var pat := EqualPatterns[0];
    assert pat == Pattern([Ph(":AA"), Lit("b01"), Lit("c01"), Ph(":DD")], 1);
    assert segs[1] != pat.parts[1].value;
  }

  lemma EqualA03On1()
    ensures ExecSegments(EqualPatterns[1], ["a03", "b03", "c03", "d03"], '/', true) == NoMatch
  {
    var segs := ["a03", "b03", "c03", "d03"];
    var pat := EqualPatterns[1];
    assert pat == Pattern([Lit("a02"), Ph(":BB"), Lit("c02"), Ph(":DD")], 0);
    assert segs[0] != pat.parts[0].value;
  }

  lemma EqualA03On2()
    ensures ExecSegments(EqualPatterns[2], ["a03", "b03", "c03", "d03"], '/', true) == Matched("/a03/b03/:CC/:DD")
  {
    var segs := ["a03", "b03", "c03", "d03"];
    var pat := EqualPatterns[2];
    assert pat == Pattern([Lit("a03"), Lit("b03"), Ph(":CC"), Ph(":DD")], 0);
    forall k | 0 <= k < 4 && !pat.parts[k].isPlaceholder ensures segs[k] == pat.parts[k].value {
      if k == 0 {} else if k == 1 {} else if k == 2 {} else {}
    }
    EqualMatchCollapsesToRule(segs, pat.parts, '/', true);
    assert Values(pat.parts) == ["a03", "b03", ":CC", ":DD"];
    EqualA03Text();
  }

  lemma EqualA03Text()
    ensures Serialize(["a03", "b03", ":CC", ":DD"], '/', true) == "/a03/b03/:CC/:DD"
  {
    Join4("a03", "b03", ":CC", ":DD", '/');
  }

  /** `/a03/b03/c03/d03` becomes `/a03/b03/:CC/:DD`. */
  lemma EqualA03(path: string)
    requires UrlParts(path, '/') == ["a03", "b03", "c03", "d03"]
    ensures ReplaceSpec(EqualPatterns, path, '/', true) == Replaced("/a03/b03/:CC/:DD")
  {
    var segs := ["a03", "b03", "c03", "d03"];
    forall x | 0 <= x < 2 ensures ExecSegments(EqualPatterns[x], segs, '/', true) == NoMatch {
      if x == 0 { EqualA03On0(); } else { EqualA03On1(); }
    }
    EqualA03On2();
    FirstMatchOnSegments(EqualPatterns, path, segs, 2, "/a03/b03/:CC/:DD");
  }

  lemma EqualA04On0()
    ensures ExecSegments(EqualPatterns[0], ["a04", "b04", "c04", "d04"], '/', true) == NoMatch
  {
    var segs := ["a04", "b04", "c04", "d04"];
    var pat := EqualPatterns[0];
    assert pat == Pattern([Ph(":AA"), Lit("b01"), Lit("c01"), Ph(":DD")], 1);
    assert segs[1] != pat.parts[1].value;
  }

  lemma EqualA04On1()
    ensures ExecSegments(EqualPatterns[1], ["a04", "b04", "c04", "d04"], '/', true) == NoMatch
  {
    var segs := ["a04", "b04", "c04", "d04"];
    var pat := EqualPatterns[1];
    assert pat == Pattern([Lit("a02"), Ph(":BB"), Lit("c02"), Ph(":DD")], 0);
    assert segs[0] != pat.parts[0].value;
  }

  lemma EqualA04On2()
    ensures ExecSegments(EqualPatterns[2], ["a04", "b04", "c04", "d04"], '/', true) == NoMatch
  {
    var segs := ["a04", "b04", "c04", "d04"];
    var pat := EqualPatterns[2];
    assert pat == Pattern([Lit("a03"), Lit("b03"), Ph(":CC"), Ph(":DD")], 0);
    assert segs[0] != pat.parts[0].value;
  }

  lemma EqualA04On3()
    ensures ExecSegments(EqualPatterns[3], ["a04", "b04", "c04", "d04"], '/', true) == Matched("/a04/b04/c04/:DD")
  {
    var segs := ["a04", "b04", "c04", "d04"];
    var pat := EqualPatterns[3];
    assert pat == Pattern([Lit("a04"), Lit("b04"), Lit("c04"), Ph(":DD")], 0);
    forall k | 0 <= k < 4 && !pat.parts[k].isPlaceholder ensures segs[k] == pat.parts[k].value {
      if k == 0 {} else if k == 1 {} else if k == 2 {} else {}
    }
    EqualMatchCollapsesToRule(segs, pat.parts, '/', true);
    assert Values(pat.parts) == ["a04", "b04", "c04", ":DD"];
    EqualA04Text();
  }

  lemma EqualA04Text()
    ensures Serialize(["a04", "b04", "c04", ":DD"], '/', true) == "/a04/b04/c04/:DD"
  {
    Join4("a04", "b04", "c04", ":DD", '/');
  }

  /** `/a04/b04/c04/d04` becomes `/a04/b04/c04/:DD`. */
  lemma EqualA04(path: string)
    requires UrlParts(path, '/') == ["a04", "b04", "c04", "d04"]
    ensures ReplaceSpec(EqualPatterns, path, '/', true) == Replaced("/a04/b04/c04/:DD")
  {
    var segs := ["a04", "b04", "c04", "d04"];
    forall x | 0 <= x < 3 ensures ExecSegments(EqualPatterns[x], segs, '/', true) == NoMatch {
      if x == 0 { EqualA04On0(); } else if x == 1 { EqualA04On1(); } else { EqualA04On2(); }
    }
    EqualA04On3();
    FirstMatchOnSegments(EqualPatterns, path, segs, 3, "/a04/b04/c04/:DD");
  }

  lemma EqualA05On0()
    ensures ExecSegments(EqualPatterns[0], ["a05", "b05", "c05", "d05"], '/', true) == NoMatch
  {
    var segs := ["a05", "b05", "c05", "d05"];
    var pat := EqualPatterns[0];
    assert pat == Pattern([Ph(":AA"), Lit("b01"), Lit("c01"), Ph(":DD")], 1);
    assert segs[1] != pat.parts[1].value;
  }

  lemma EqualA05On1()
    ensures ExecSegments(EqualPatterns[1], ["a05", "b05", "c05", "d05"], '/', true) == NoMatch
  {
    var segs := ["a05", "b05", "c05", "d05"];
    var pat := EqualPatterns[1];
    assert pat == Pattern([Lit("a02"), Ph(":BB"), Lit("c02"), Ph(":DD")], 0);
    assert segs[0] != pat.parts[0].value;
  }

  lemma EqualA05On2()
    ensures ExecSegments(EqualPatterns[2], ["a05", "b05", "c05", "d05"], '/', true) == NoMatch
  {
    var segs := ["a05", "b05", "c05", "d05"];
    var pat := EqualPatterns[2];
    assert pat == Pattern([Lit("a03"), Lit("b03"), Ph(":CC"), Ph(":DD")], 0);
    assert segs[0] != pat.parts[0].value;
  }

  lemma EqualA05On3()
    ensures ExecSegments(EqualPatterns[3], ["a05", "b05", "c05", "d05"], '/', true) == NoMatch
  {
    var segs := ["a05", "b05", "c05", "d05"];
    var pat := EqualPatterns[3];
    assert pat == Pattern([Lit("a04"), Lit("b04"), Lit("c04"), Ph(":DD")], 0);
    assert segs[0] != pat.parts[0].value;
  }

  lemma EqualA05On4()
    ensures ExecSegments(EqualPatterns[4], ["a05", "b05", "c05", "d05"], '/', true) == Matched("/:AA/b05/c05/d05")
  {
    var segs := ["a05", "b05", "c05", "d05"];
    var pat := EqualPatterns[4];
    assert pat == Pattern([Ph(":AA"), Lit("b05"), Lit("c05"), Lit("d05")], 1);
    forall k | 0 <= k < 4 && !pat.parts[k].isPlaceholder ensures segs[k] == pat.parts[k].value {
      if k == 0 {} else if k == 1 {} else if k == 2 {} else {}
    }
    EqualMatchCollapsesToRule(segs, pat.parts, '/', true);
    assert Values(pat.parts) == [":AA", "b05", "c05", "d05"];
    EqualA05Text();
  }

  lemma EqualA05Text()
    ensures Serialize([":AA", "b05", "c05", "d05"], '/', true) == "/:AA/b05/c05/d05"
  {
    Join4(":AA", "b05", "c05", "d05", '/');
  }

  /** `/a05/b05/c05/d05` becomes `/:AA/b05/c05/d05`. */
  lemma EqualA05(path: string)
    requires UrlParts(path, '/') == ["a05", "b05", "c05", "d05"]
    ensures ReplaceSpec(EqualPatterns, path, '/', true) == Replaced("/:AA/b05/c05/d05")
  {
    var segs := ["a05", "b05", "c05", "d05"];
    forall x | 0 <= x < 4 ensures ExecSegments(EqualPatterns[x], segs, '/', true) == NoMatch {
      if x == 0 { EqualA05On0(); } else if x == 1 { EqualA05On1(); } else if x == 2 { EqualA05On2(); } else { EqualA05On3(); }
    }
    EqualA05On4();
    FirstMatchOnSegments(EqualPatterns, path, segs, 4, "/:AA/b05/c05/d05");
  }

  lemma EqualA06On0()
    ensures ExecSegments(EqualPatterns[0], ["a06", "b06", "c06", "d06"], '/', true) == NoMatch
  {
    var segs := ["a06", "b06", "c06", "d06"];
    var pat := EqualPatterns[0];
    assert pat == Pattern([Ph(":AA"), Lit("b01"), Lit("c01"), Ph(":DD")], 1);
    assert segs[1] != pat.parts[1].value;
  }

  lemma EqualA06On1()
    ensures ExecSegments(EqualPatterns[1], ["a06", "b06", "c06", "d06"], '/', true) == NoMatch
  {
    var segs := ["a06", "b06", "c06", "d06"];
    var pat := EqualPatterns[1];
    assert pat == Pattern([Lit("a02"), Ph(":BB"), Lit("c02"), Ph(":DD")], 0);
    assert segs[0] != pat.parts[0].value;
  }

  lemma EqualA06On2()
    ensures ExecSegments(EqualPatterns[2], ["a06", "b06", "c06", "d06"], '/', true) == NoMatch
  {
    var segs := ["a06", "b06", "c06", "d06"];
    var pat := EqualPatterns[2];
    assert pat == Pattern([Lit("a03"), Lit("b03"), Ph(":CC"), Ph(":DD")], 0);
    assert segs[0] != pat.parts[0].value;
  }

  lemma EqualA06On3()
    ensures ExecSegments(EqualPatterns[3], ["a06", "b06", "c06", "d06"], '/', true) == NoMatch
  {
    var segs := ["a06", "b06", "c06", "d06"];
    var pat := EqualPatterns[3];
    assert pat == Pattern([Lit("a04"), Lit("b04"), Lit("c04"), Ph(":DD")], 0);
    assert segs[0] != pat.parts[0].value;
  }

  lemma EqualA06On4()
    ensures ExecSegments(EqualPatterns[4], ["a06", "b06", "c06", "d06"], '/', true) == NoMatch
  {
    var segs := ["a06", "b06", "c06", "d06"];
    var pat := EqualPatterns[4];
    assert pat == Pattern([Ph(":AA"), Lit("b05"), Lit("c05"), Lit("d05")], 1);
    assert segs[1] != pat.parts[1].value;
  }

  lemma EqualA06On5()
    ensures ExecSegments(EqualPatterns[5], ["a06", "b06", "c06", "d06"], '/', true) == Matched("/:AA/:BB/c06/d06")
  {
    var segs := ["a06", "b06", "c06", "d06"];
    var pat := EqualPatterns[5];
    assert pat == Pattern([Ph(":AA"), Ph(":BB"), Lit("c06"), Lit("d06")], 2);
    forall k | 0 <= k < 4 && !pat.parts[k].isPlaceholder ensures segs[k] == pat.parts[k].value {
      if k == 0 {} else if k == 1 {} else if k == 2 {} else {}
    }
    EqualMatchCollapsesToRule(segs, pat.parts, '/', true);
    assert Values(pat.parts) == [":AA", ":BB", "c06", "d06"];
    EqualA06Text();
  }

  lemma EqualA06Text()
    ensures Serialize([":AA", ":BB", "c06", "d06"], '/', true) == "/:AA/:BB/c06/d06"
  {
    Join4(":AA", ":BB", "c06", "d06", '/');
  }

  /** `/a06/b06/c06/d06` becomes `/:AA/:BB/c06/d06`. */
  lemma EqualA06(path: string)
    requires UrlParts(path, '/') == ["a06", "b06", "c06", "d06"]
    ensures ReplaceSpec(EqualPatterns, path, '/', true) == Replaced("/:AA/:BB/c06/d06")
  {
    var segs := ["a06", "b06", "c06", "d06"];
    forall x | 0 <= x < 5 ensures ExecSegments(EqualPatterns[x], segs, '/', true) == NoMatch {
      if x == 0 { EqualA06On0(); } else if x == 1 { EqualA06On1(); } else if x == 2 { EqualA06On2(); } else if x == 3 { EqualA06On3(); } else { EqualA06On4(); }
    }
    EqualA06On5();
    FirstMatchOnSegments(EqualPatterns, path, segs, 5, "/:AA/:BB/c06/d06");
  }

  lemma EqualA07On0()
    ensures ExecSegments(EqualPatterns[0], ["a07", "b07", "c07", "d07"], '/', true) == NoMatch
  {
    var segs := ["a07", "b07", "c07", "d07"];
    var pat := EqualPatterns[0];
    assert pat == Pattern([Ph(":AA"), Lit("b01"), Lit("c01"), Ph(":DD")], 1);
    assert segs[1] != pat.parts[1].value;
  }

  lemma EqualA07On1()
    ensures ExecSegments(EqualPatterns[1], ["a07", "b07", "c07", "d07"], '/', true) == NoMatch
  {
    var segs := ["a07", "b07", "c07", "d07"];
    var pat := EqualPatterns[1];
    assert pat == Pattern([Lit("a02"), Ph(":BB"), Lit("c02"), Ph(":DD")], 0);
    assert segs[0] != pat.parts[0].value;
  }

  lemma EqualA07On2()
    ensures ExecSegments(EqualPatterns[2], ["a07", "b07", "c07", "d07"], '/', true) == NoMatch
  {
    var segs := ["a07", "b07", "c07", "d07"];
    var pat := EqualPatterns[2];
    assert pat == Pattern([Lit("a03"), Lit("b03"), Ph(":CC"), Ph(":DD")], 0);
    assert segs[0] != pat.parts[0].value;
  }

  lemma EqualA07On3()
    ensures ExecSegments(EqualPatterns[3], ["a07", "b07", "c07", "d07"], '/', true) == NoMatch
  {
    var segs := ["a07", "b07", "c07", "d07"];
    var pat := EqualPatterns[3];
    assert pat == Pattern([Lit("a04"), Lit("b04"), Lit("c04"), Ph(":DD")], 0);
    assert segs[0] != pat.parts[0].value;
  }

  lemma EqualA07On4()
    ensures ExecSegments(EqualPatterns[4], ["a07", "b07", "c07", "d07"], '/', true) == NoMatch
  {
    var segs := ["a07", "b07", "c07", "d07"];
    var pat := EqualPatterns[4];
    assert pat == Pattern([Ph(":AA"), Lit("b05"), Lit("c05"), Lit("d05")], 1);
    assert segs[1] != pat.parts[1].value;
  }

  lemma EqualA07On5()
    ensures ExecSegments(EqualPatterns[5], ["a07", "b07", "c07", "d07"], '/', true) == NoMatch
  {
    var segs := ["a07", "b07", "c07", "d07"];
    var pat := EqualPatterns[5];
    assert pat == Pattern([Ph(":AA"), Ph(":BB"), Lit("c06"), Lit("d06")], 2);
    assert segs[2] != pat.parts[2].value;
  }

  lemma EqualA07On6()
    ensures ExecSegments(EqualPatterns[6], ["a07", "b07", "c07", "d07"], '/', true) == Matched("/:AA/b07/:CC/d07")
  {
    var segs := ["a07", "b07", "c07", "d07"];
    var pat := EqualPatterns[6];
    assert pat == Pattern([Ph(":AA"), Lit("b07"), Ph(":CC"), Lit("d07")], 1);
    forall k | 0 <= k < 4 && !pat.parts[k].isPlaceholder ensures segs[k] == pat.parts[k].value {
      if k == 0 {} else if k == 1 {} else if k == 2 {} else {}
    }
    EqualMatchCollapsesToRule(segs, pat.parts, '/', true);
    assert Values(pat.parts) == [":AA", "b07", ":CC", "d07"];
    EqualA07Text();
  }

  lemma EqualA07Text()
    ensures Serialize([":AA", "b07", ":CC", "d07"], '/', true) == "/:AA/b07/:CC/d07"
  {
    Join4(":AA", "b07", ":CC", "d07", '/');
  }

  /** `/a07/b07/c07/d07` becomes `/:AA/b07/:CC/d07`. */
  lemma EqualA07(path: string)
    requires UrlParts(path, '/') == ["a07", "b07", "c07", "d07"]
    ensures ReplaceSpec(EqualPatterns, path, '/', true) == Replaced("/:AA/b07/:CC/d07")
  {
    var segs := ["a07", "b07", "c07", "d07"];
    forall x | 0 <= x < 6 ensures ExecSegments(EqualPatterns[x], segs, '/', true) == NoMatch {
      if x == 0 { EqualA07On0(); } else if x == 1 { EqualA07On1(); } else if x == 2 { EqualA07On2(); } else if x == 3 { EqualA07On3(); } else if x == 4 { EqualA07On4(); } else { EqualA07On5(); }
    }
    EqualA07On6();
    FirstMatchOnSegments(EqualPatterns, path, segs, 6, "/:AA/b07/:CC/d07");
  }

  lemma EqualA08On0()
    ensures ExecSegments(EqualPatterns[0], ["a08", "b08", "c08", "d08"], '/', true) == NoMatch
  {
    var segs := ["a08", "b08", "c08", "d08"];
    var pat := EqualPatterns[0];
    assert pat == Pattern([Ph(":AA"), Lit("b01"), Lit("c01"), Ph(":DD")], 1);
    assert segs[1] != pat.parts[1].value;
  }

  lemma EqualA08On1()
    ensures ExecSegments(EqualPatterns[1], ["a08", "b08", "c08", "d08"], '/', true) == NoMatch
  {
    var segs := ["a08", "b08", "c08", "d08"];
    var pat := EqualPatterns[1];
    assert pat == Pattern([Lit("a02"), Ph(":BB"), Lit("c02"), Ph(":DD")], 0);
    assert segs[0] != pat.parts[0].value;
  }

  lemma EqualA08On2()
    ensures ExecSegments(EqualPatterns[2], ["a08", "b08", "c08", "d08"], '/', true) == NoMatch
  {
    var segs := ["a08", "b08", "c08", "d08"];
    var pat := EqualPatterns[2];
    assert pat == Pattern([Lit("a03"), Lit("b03"), Ph(":CC"), Ph(":DD")], 0);
    assert segs[0] != pat.parts[0].value;
  }

  lemma EqualA08On3()
    ensures ExecSegments(EqualPatterns[3], ["a08", "b08", "c08", "d08"], '/', true) == NoMatch
  {
    var segs := ["a08", "b08", "c08", "d08"];
    var pat := EqualPatterns[3];
    assert pat == Pattern([Lit("a04"), Lit("b04"), Lit("c04"), Ph(":DD")], 0);
    assert segs[0] != pat.parts[0].value;
  }

  lemma EqualA08On4()
    ensures ExecSegments(EqualPatterns[4], ["a08", "b08", "c08", "d08"], '/', true) == NoMatch
  {
    var segs := ["a08", "b08", "c08", "d08"];
    var pat := EqualPatterns[4];
    assert pat == Pattern([Ph(":AA"), Lit("b05"), Lit("c05"), Lit("d05")], 1);
    assert segs[1] != pat.parts[1].value;
  }

  lemma EqualA08On5()
    ensures ExecSegments(EqualPatterns[5], ["a08", "b08", "c08", "d08"], '/', true) == NoMatch
  {
    var segs := ["a08", "b08", "c08", "d08"];
    var pat := EqualPatterns[5];
    assert pat == Pattern([Ph(":AA"), Ph(":BB"), Lit("c06"), Lit("d06")], 2);
    assert segs[2] != pat.parts[2].value;
  }

  lemma EqualA08On6()
    ensures ExecSegments(EqualPatterns[6], ["a08", "b08", "c08", "d08"], '/', true) == NoMatch
  {
    var segs := ["a08", "b08", "c08", "d08"];
    var pat := EqualPatterns[6];
    assert pat == Pattern([Ph(":AA"), Lit("b07"), Ph(":CC"), Lit("d07")], 1);
    assert segs[1] != pat.parts[1].value;
  }

  lemma EqualA08On7()
    ensures ExecSegments(EqualPatterns[7], ["a08", "b08", "c08", "d08"], '/', true) == Matched("/:AA/b08/c08/:DD")
  {
    var segs := ["a08", "b08", "c08", "d08"];
    var pat := EqualPatterns[7];
    assert pat == Pattern([Ph(":AA"), Lit("b08"), Lit("c08"), Ph(":DD")], 1);
    forall k | 0 <= k < 4 && !pat.parts[k].isPlaceholder ensures segs[k] == pat.parts[k].value {
      if k == 0 {} else if k == 1 {} else if k == 2 {} else {}
    }
    EqualMatchCollapsesToRule(segs, pat.parts, '/', true);
    assert Values(pat.parts) == [":AA", "b08", "c08", ":DD"];
    EqualA08Text();
  }

  lemma EqualA08Text()
    ensures Serialize([":AA", "b08", "c08", ":DD"], '/', true) == "/:AA/b08/c08/:DD"
  {
    Join4(":AA", "b08", "c08", ":DD", '/');
  }

  /** `/a08/b08/c08/d08` becomes `/:AA/b08/c08/:DD`. */
  lemma EqualA08(path: string)
    requires UrlParts(path, '/') == ["a08", "b08", "c08", "d08"]
    ensures ReplaceSpec(EqualPatterns, path, '/', true) == Replaced("/:AA/b08/c08/:DD")
  {
    var segs := ["a08", "b08", "c08", "d08"];
    forall x | 0 <= x < 7 ensures ExecSegments(EqualPatterns[x], segs, '/', true) == NoMatch {
      if x == 0 { EqualA08On0(); } else if x == 1 { EqualA08On1(); } else if x == 2 { EqualA08On2(); } else if x == 3 { EqualA08On3(); } else if x == 4 { EqualA08On4(); } else if x == 5 { EqualA08On5(); } else { EqualA08On6(); }
    }
    EqualA08On7();
    FirstMatchOnSegments(EqualPatterns, path, segs, 7, "/:AA/b08/c08/:DD");
  }

  lemma EqualA09On0()
    ensures ExecSegments(EqualPatterns[0], ["a09", "b09", "c09", "d09"], '/', true) == NoMatch
  {
    var segs := ["a09", "b09", "c09", "d09"];
    var pat := EqualPatterns[0];
    assert pat == Pattern([Ph(":AA"), Lit("b01"), Lit("c01"), Ph(":DD")], 1);
    assert segs[1] != pat.parts[1].value;
  }

  lemma EqualA09On1()
    ensures ExecSegments(EqualPatterns[1], ["a09", "b09", "c09", "d09"], '/', true) == NoMatch
  {
    var segs := ["a09", "b09", "c09", "d09"];
    var pat := EqualPatterns[1];
    assert pat == Pattern([Lit("a02"), Ph(":BB"), Lit("c02"), Ph(":DD")], 0);
    assert segs[0] != pat.parts[0].value;
  }

  lemma EqualA09On2()
    ensures ExecSegments(EqualPatterns[2], ["a09", "b09", "c09", "d09"], '/', true) == NoMatch
  {
    var segs := ["a09", "b09", "c09", "d09"];
    var pat := EqualPatterns[2];
    assert pat == Pattern([Lit("a03"), Lit("b03"), Ph(":CC"), Ph(":DD")], 0);
    assert segs[0] != pat.parts[0].value;
  }

  lemma EqualA09On3()
    ensures ExecSegments(EqualPatterns[3], ["a09", "b09", "c09", "d09"], '/', true) == NoMatch
  {
    var segs := ["a09", "b09", "c09", "d09"];
    var pat := EqualPatterns[3];
    assert pat == Pattern([Lit("a04"), Lit("b04"), Lit("c04"), Ph(":DD")], 0);
    assert segs[0] != pat.parts[0].value;
  }

  lemma EqualA09On4()
    ensures ExecSegments(EqualPatterns[4], ["a09", "b09", "c09", "d09"], '/', true) == NoMatch
  {
    var segs := ["a09", "b09", "c09", "d09"];
    var pat := EqualPatterns[4];
    assert pat == Pattern([Ph(":AA"), Lit("b05"), Lit("c05"), Lit("d05")], 1);
    assert segs[1] != pat.parts[1].value;
  }

  lemma EqualA09On5()
    ensures ExecSegments(EqualPatterns[5], ["a09", "b09", "c09", "d09"], '/', true) == NoMatch
  {
    var segs := ["a09", "b09", "c09", "d09"];
    var pat := EqualPatterns[5];
    assert pat == Pattern([Ph(":AA"), Ph(":BB"), Lit("c06"), Lit("d06")], 2);
    assert segs[2] != pat.parts[2].value;
  }

  lemma EqualA09On6()
    ensures ExecSegments(EqualPatterns[6], ["a09", "b09", "c09", "d09"], '/', true) == NoMatch
  {
    var segs := ["a09", "b09", "c09", "d09"];
    var pat := EqualPatterns[6];
    assert pat == Pattern([Ph(":AA"), Lit("b07"), Ph(":CC"), Lit("d07")], 1);
    assert segs[1] != pat.parts[1].value;
  }

  lemma EqualA09On7()
    ensures ExecSegments(EqualPatterns[7], ["a09", "b09", "c09", "d09"], '/', true) == NoMatch
  {
    var segs := ["a09", "b09", "c09", "d09"];
    var pat := EqualPatterns[7];
    assert pat == Pattern([Ph(":AA"), Lit("b08"), Lit("c08"), Ph(":DD")], 1);
    assert segs[1] != pat.parts[1].value;
  }

  lemma EqualA09On8()
    ensures ExecSegments(EqualPatterns[8], ["a09", "b09", "c09", "d09"], '/', true) == Matched("/a09/:BB/:CC/d09")
  {
    var segs := ["a09", "b09", "c09", "d09"];
    var pat := EqualPatterns[8];
    assert pat == Pattern([Lit("a09"), Ph(":BB"), Ph(":CC"), Lit("d09")], 0);
    forall k | 0 <= k < 4 && !pat.parts[k].isPlaceholder ensures segs[k] == pat.parts[k].value {
      if k == 0 {} else if k == 1 {} else if k == 2 {} else {}
    }
    EqualMatchCollapsesToRule(segs, pat.parts, '/', true);
    assert Values(pat.parts) == ["a09", ":BB", ":CC", "d09"];
    EqualA09Text();
  }

  lemma EqualA09Text()
    ensures Serialize(["a09", ":BB", ":CC", "d09"], '/', true) == "/a09/:BB/:CC/d09"
  {
    Join4("a09", ":BB", ":CC", "d09", '/');
  }

  /** `/a09/b09/c09/d09` becomes `/a09/:BB/:CC/d09`. */
  lemma EqualA09(path: string)
    requires UrlParts(path, '/') == ["a09", "b09", "c09", "d09"]
    ensures ReplaceSpec(EqualPatterns, path, '/', true) == Replaced("/a09/:BB/:CC/d09")
  {
    var segs := ["a09", "b09", "c09", "d09"];
    forall x | 0 <= x < 8 ensures ExecSegments(EqualPatterns[x], segs, '/', true) == NoMatch {
      if x == 0 { EqualA09On0(); } else if x == 1 { EqualA09On1(); } else if x == 2 { EqualA09On2(); } else if x == 3 { EqualA09On3(); } else if x == 4 { EqualA09On4(); } else if x == 5 { EqualA09On5(); } else if x == 6 { EqualA09On6(); } else { EqualA09On7(); }
    }
    EqualA09On8();
    FirstMatchOnSegments(EqualPatterns, path, segs, 8, "/a09/:BB/:CC/d09");
  }

  lemma EqualA10On0()
    ensures ExecSegments(EqualPatterns[0], ["a10", "b10", "c10", "d10"], '/', true) == NoMatch
  {
    var segs := ["a10", "b10", "c10", "d10"];
    var pat := EqualPatterns[0];
    assert pat == Pattern([Ph(":AA"), Lit("b01"), Lit("c01"), Ph(":DD")], 1);
    assert segs[1] != pat.parts[1].value;
  }

  lemma EqualA10On1()
    ensures ExecSegments(EqualPatterns[1], ["a10", "b10", "c10", "d10"], '/', true) == NoMatch
  {
    var segs := ["a10", "b10", "c10", "d10"];
    var pat := EqualPatterns[1];
    assert pat == Pattern([Lit("a02"), Ph(":BB"), Lit("c02"), Ph(":DD")], 0);
    assert segs[0] != pat.parts[0].value;
  }

  lemma EqualA10On2()
    ensures ExecSegments(EqualPatterns[2], ["a10", "b10", "c10", "d10"], '/', true) == NoMatch
  {
    var segs := ["a10", "b10", "c10", "d10"];
    var pat := EqualPatterns[2];
    assert pat == Pattern([Lit("a03"), Lit("b03"), Ph(":CC"), Ph(":DD")], 0);
    assert segs[0] != pat.parts[0].value;
  }

  lemma EqualA10On3()
    ensures ExecSegments(EqualPatterns[3], ["a10", "b10", "c10", "d10"], '/', true) == NoMatch
  {
    var segs := ["a10", "b10", "c10", "d10"];
    var pat := EqualPatterns[3];
    assert pat == Pattern([Lit("a04"), Lit("b04"), Lit("c04"), Ph(":DD")], 0);
    assert segs[0] != pat.parts[0].value;
  }

  lemma EqualA10On4()
    ensures ExecSegments(EqualPatterns[4], ["a10", "b10", "c10", "d10"], '/', true) == NoMatch
  {
    var segs := ["a10", "b10", "c10", "d10"];
    var pat := EqualPatterns[4];
    assert pat == Pattern([Ph(":AA"), Lit("b05"), Lit("c05"), Lit("d05")], 1);
    assert segs[1] != pat.parts[1].value;
  }

  lemma EqualA10On5()
    ensures ExecSegments(EqualPatterns[5], ["a10", "b10", "c10", "d10"], '/', true) == NoMatch
  {
    var segs := ["a10", "b10", "c10", "d10"];
    var pat := EqualPatterns[5];
    assert pat == Pattern([Ph(":AA"), Ph(":BB"), Lit("c06"), Lit("d06")], 2);
    assert segs[2] != pat.parts[2].value;
  }

  lemma EqualA10On6()
    ensures ExecSegments(EqualPatterns[6], ["a10", "b10", "c10", "d10"], '/', true) == NoMatch
  {
    var segs := ["a10", "b10", "c10", "d10"];
    var pat := EqualPatterns[6];
    assert pat == Pattern([Ph(":AA"), Lit("b07"), Ph(":CC"), Lit("d07")], 1);
    assert segs[1] != pat.parts[1].value;
  }

  lemma EqualA10On7()
    ensures ExecSegments(EqualPatterns[7], ["a10", "b10", "c10", "d10"], '/', true) == NoMatch
  {
    var segs := ["a10", "b10", "c10", "d10"];
    var pat := EqualPatterns[7];
    assert pat == Pattern([Ph(":AA"), Lit("b08"), Lit("c08"), Ph(":DD")], 1);
    assert segs[1] != pat.parts[1].value;
  }

  lemma EqualA10On8()
    ensures ExecSegments(EqualPatterns[8], ["a10", "b10", "c10", "d10"], '/', true) == NoMatch
  {
    var segs := ["a10", "b10", "c10", "d10"];
    var pat := EqualPatterns[8];
    assert pat == Pattern([Lit("a09"), Ph(":BB"), Ph(":CC"), Lit("d09")], 0);
    assert segs[0] != pat.parts[0].value;
  }

  lemma EqualA10On9()
    ensures ExecSegments(EqualPatterns[9], ["a10", "b10", "c10", "d10"], '/', true) == Matched("/a10/:BB/:CC/:DD")
  {
    var segs := ["a10", "b10", "c10", "d10"];
    var pat := EqualPatterns[9];
    assert pat == Pattern([Lit("a10"), Ph(":BB"), Ph(":CC"), Ph(":DD")], 0);
    forall k | 0 <= k < 4 && !pat.parts[k].isPlaceholder ensures segs[k] == pat.parts[k].value {
      if k == 0 {} else if k == 1 {} else if k == 2 {} else {}
    }
    EqualMatchCollapsesToRule(segs, pat.parts, '/', true);
    assert Values(pat.parts) == ["a10", ":BB", ":CC", ":DD"];
    EqualA10Text();
  }

  lemma EqualA10Text()
    ensures Serialize(["a10", ":BB", ":CC", ":DD"], '/', true) == "/a10/:BB/:CC/:DD"
  {
    Join4("a10", ":BB", ":CC", ":DD", '/');
  }

  /** `/a10/b10/c10/d10` becomes `/a10/:BB/:CC/:DD`. */
  lemma EqualA10(path: string)
    requires UrlParts(path, '/') == ["a10", "b10", "c10", "d10"]
    ensures ReplaceSpec(EqualPatterns, path, '/', true) == Replaced("/a10/:BB/:CC/:DD")
  {
    var segs := ["a10", "b10", "c10", "d10"];
    forall x | 0 <= x < 9 ensures ExecSegments(EqualPatterns[x], segs, '/', true) == NoMatch {
      if x == 0 { EqualA10On0(); } else if x == 1 { EqualA10On1(); } else if x == 2 { EqualA10On2(); } else if x == 3 { EqualA10On3(); } else if x == 4 { EqualA10On4(); } else if x == 5 { EqualA10On5(); } else if x == 6 { EqualA10On6(); } else if x == 7 { EqualA10On7(); } else { EqualA10On8(); }
    }
    EqualA10On9();
    FirstMatchOnSegments(EqualPatterns, path, segs, 9, "/a10/:BB/:CC/:DD");
  }

  lemma EqualA11On0()
    ensures ExecSegments(EqualPatterns[0], ["a11", "b11", "c11", "d11"], '/', true) == NoMatch
  {
    var segs := ["a11", "b11", "c11", "d11"];
    var pat := EqualPatterns[0];
    assert pat == Pattern([Ph(":AA"), Lit("b01"), Lit("c01"), Ph(":DD")], 1);
    assert segs[1] != pat.parts[1].value;
  }

  lemma EqualA11On1()
    ensures ExecSegments(EqualPatterns[1], ["a11", "b11", "c11", "d11"], '/', true) == NoMatch
  {
    var segs := ["a11", "b11", "c11", "d11"];
    var pat := EqualPatterns[1];
    assert pat == Pattern([Lit("a02"), Ph(":BB"), Lit("c02"), Ph(":DD")], 0);
    assert segs[0] != pat.parts[0].value;
  }

  lemma EqualA11On2()
    ensures ExecSegments(EqualPatterns[2], ["a11", "b11", "c11", "d11"], '/', true) == NoMatch
  {
    var segs := ["a11", "b11", "c11", "d11"];
    var pat := EqualPatterns[2];
    assert pat == Pattern([Lit("a03"), Lit("b03"), Ph(":CC"), Ph(":DD")], 0);
    assert segs[0] != pat.parts[0].value;
  }

  lemma EqualA11On3()
    ensures ExecSegments(EqualPatterns[3], ["a11", "b11", "c11", "d11"], '/', true) == NoMatch
  {
    var segs := ["a11", "b11", "c11", "d11"];
    var pat := EqualPatterns[3];
    assert pat == Pattern([Lit("a04"), Lit("b04"), Lit("c04"), Ph(":DD")], 0);
    assert segs[0] != pat.parts[0].value;
  }

  lemma EqualA11On4()
    ensures ExecSegments(EqualPatterns[4], ["a11", "b11", "c11", "d11"], '/', true) == NoMatch
  {
    var segs := ["a11", "b11", "c11", "d11"];
    var pat := EqualPatterns[4];
    assert pat == Pattern([Ph(":AA"), Lit("b05"), Lit("c05"), Lit("d05")], 1);
    assert segs[1] != pat.parts[1].value;
  }

  lemma EqualA11On5()
    ensures ExecSegments(EqualPatterns[5], ["a11", "b11", "c11", "d11"], '/', true) == NoMatch
  {
    var segs := ["a11", "b11", "c11", "d11"];
    var pat := EqualPatterns[5];
    assert pat == Pattern([Ph(":AA"), Ph(":BB"), Lit("c06"), Lit("d06")], 2);
    assert segs[2] != pat.parts[2].value;
  }

  lemma EqualA11On6()
    ensures ExecSegments(EqualPatterns[6], ["a11", "b11", "c11", "d11"], '/', true) == NoMatch
  {
    var segs := ["a11", "b11", "c11", "d11"];
    var pat := EqualPatterns[6];
    assert pat == Pattern([Ph(":AA"), Lit("b07"), Ph(":CC"), Lit("d07")], 1);
    assert segs[1] != pat.parts[1].value;
  }

  lemma EqualA11On7()
    ensures ExecSegments(EqualPatterns[7], ["a11", "b11", "c11", "d11"], '/', true) == NoMatch
  {
    var segs := ["a11", "b11", "c11", "d11"];
    var pat := EqualPatterns[7];
    assert pat == Pattern([Ph(":AA"), Lit("b08"), Lit("c08"), Ph(":DD")], 1);
    assert segs[1] != pat.parts[1].value;
  }

  lemma EqualA11On8()
    ensures ExecSegments(EqualPatterns[8], ["a11", "b11", "c11", "d11"], '/', true) == NoMatch
  {
    var segs := ["a11", "b11", "c11", "d11"];
    var pat := EqualPatterns[8];
    assert pat == Pattern([Lit("a09"), Ph(":BB"), Ph(":CC"), Lit("d09")], 0);
    assert segs[0] != pat.parts[0].value;
  }

  lemma EqualA11On9()
    ensures ExecSegments(EqualPatterns[9], ["a11", "b11", "c11", "d11"], '/', true) == NoMatch
  {
    var segs := ["a11", "b11", "c11", "d11"];
    var pat := EqualPatterns[9];
    assert pat == Pattern([Lit("a10"), Ph(":BB"), Ph(":CC"), Ph(":DD")], 0);
    assert segs[0] != pat.parts[0].value;
  }

  lemma EqualA11On10()
    ensures ExecSegments(EqualPatterns[10], ["a11", "b11", "c11", "d11"], '/', true) == Matched("/:AA/:BB/:CC/d11")
  {
    var segs := ["a11", "b11", "c11", "d11"];
    var pat := EqualPatterns[10];
    assert pat == Pattern([Ph(":AA"), Ph(":BB"), Ph(":CC"), Lit("d11")], 3);
    forall k | 0 <= k < 4 && !pat.parts[k].isPlaceholder ensures segs[k] == pat.parts[k].value {
      if k == 0 {} else if k == 1 {} else if k == 2 {} else {}
    }
    EqualMatchCollapsesToRule(segs, pat.parts, '/', true);
    assert Values(pat.parts) == [":AA", ":BB", ":CC", "d11"];
    EqualA11Text();
  }

  lemma EqualA11Text()
    ensures Serialize([":AA", ":BB", ":CC", "d11"], '/', true) == "/:AA/:BB/:CC/d11"
  {
    Join4(":AA", ":BB", ":CC", "d11", '/');
  }

  /** `/a11/b11/c11/d11` becomes `/:AA/:BB/:CC/d11`. */
  lemma EqualA11(path: string)
    requires UrlParts(path, '/') == ["a11", "b11", "c11", "d11"]
    ensures ReplaceSpec(EqualPatterns, path, '/', true) == Replaced("/:AA/:BB/:CC/d11")
  {
    var segs := ["a11", "b11", "c11", "d11"];
    forall x | 0 <= x < 10 ensures ExecSegments(EqualPatterns[x], segs, '/', true) == NoMatch {
      if x == 0 { EqualA11On0(); } else if x == 1 { EqualA11On1(); } else if x == 2 { EqualA11On2(); } else if x == 3 { EqualA11On3(); } else if x == 4 { EqualA11On4(); } else if x == 5 { EqualA11On5(); } else if x == 6 { EqualA11On6(); } else if x == 7 { EqualA11On7(); } else if x == 8 { EqualA11On8(); } else { EqualA11On9(); }
    }
    EqualA11On10();
    FirstMatchOnSegments(EqualPatterns, path, segs, 10, "/:AA/:BB/:CC/d11");
  }

  lemma EqualA12On0()
    ensures ExecSegments(EqualPatterns[0], ["a12", "b12", "c12", "d12"], '/', true) == NoMatch
  {
    var segs := ["a12", "b12", "c12", "d12"];
    var pat := EqualPatterns[0];
    assert pat == Pattern([Ph(":AA"), Lit("b01"), Lit("c01"), Ph(":DD")], 1);
    assert segs[1] != pat.parts[1].value;
  }

  lemma EqualA12On1()
    ensures ExecSegments(EqualPatterns[1], ["a12", "b12", "c12", "d12"], '/', true) == NoMatch
  {
    var segs := ["a12", "b12", "c12", "d12"];
    var pat := EqualPatterns[1];
    assert pat == Pattern([Lit("a02"), Ph(":BB"), Lit("c02"), Ph(":DD")], 0);
    assert segs[0] != pat.parts[0].value;
  }

  lemma EqualA12On2()
    ensures ExecSegments(EqualPatterns[2], ["a12", "b12", "c12", "d12"], '/', true) == NoMatch
  {
    var segs := ["a12", "b12", "c12", "d12"];
    var pat := EqualPatterns[2];
    assert pat == Pattern([Lit("a03"), Lit("b03"), Ph(":CC"), Ph(":DD")], 0);
    assert segs[0] != pat.parts[0].value;
  }

  lemma EqualA12On3()
    ensures ExecSegments(EqualPatterns[3], ["a12", "b12", "c12", "d12"], '/', true) == NoMatch
  {
    var segs := ["a12", "b12", "c12", "d12"];
    var pat := EqualPatterns[3];
    assert pat == Pattern([Lit("a04"), Lit("b04"), Lit("c04"), Ph(":DD")], 0);
    assert segs[0] != pat.parts[0].value;
  }

  lemma EqualA12On4()
    ensures ExecSegments(EqualPatterns[4], ["a12", "b12", "c12", "d12"], '/', true) == NoMatch
  {
    var segs := ["a12", "b12", "c12", "d12"];
    var pat := EqualPatterns[4];
    assert pat == Pattern([Ph(":AA"), Lit("b05"), Lit("c05"), Lit("d05")], 1);
    assert segs[1] != pat.parts[1].value;
  }

  lemma EqualA12On5()
    ensures ExecSegments(EqualPatterns[5], ["a12", "b12", "c12", "d12"], '/', true) == NoMatch
  {
    var segs := ["a12", "b12", "c12", "d12"];
    var pat := EqualPatterns[5];
    assert pat == Pattern([Ph(":AA"), Ph(":BB"), Lit("c06"), Lit("d06")], 2);
    assert segs[2] != pat.parts[2].value;
  }

  lemma EqualA12On6()
    ensures ExecSegments(EqualPatterns[6], ["a12", "b12", "c12", "d12"], '/', true) == NoMatch
  {
    var segs := ["a12", "b12", "c12", "d12"];
    var pat := EqualPatterns[6];
    assert pat == Pattern([Ph(":AA"), Lit("b07"), Ph(":CC"), Lit("d07")], 1);
    assert segs[1] != pat.parts[1].value;
  }

  lemma EqualA12On7()
    ensures ExecSegments(EqualPatterns[7], ["a12", "b12", "c12", "d12"], '/', true) == NoMatch
  {
    var segs := ["a12", "b12", "c12", "d12"];
    var pat := EqualPatterns[7];
    assert pat == Pattern([Ph(":AA"), Lit("b08"), Lit("c08"), Ph(":DD")], 1);
    assert segs[1] != pat.parts[1].value;
  }

  lemma EqualA12On8()
    ensures ExecSegments(EqualPatterns[8], ["a12", "b12", "c12", "d12"], '/', true) == NoMatch
  {
    var segs := ["a12", "b12", "c12", "d12"];
    var pat := EqualPatterns[8];
    assert pat == Pattern([Lit("a09"), Ph(":BB"), Ph(":CC"), Lit("d09")], 0);
    assert segs[0] != pat.parts[0].value;
  }

  lemma EqualA12On9()
    ensures ExecSegments(EqualPatterns[9], ["a12", "b12", "c12", "d12"], '/', true) == NoMatch
  {
    var segs := ["a12", "b12", "c12", "d12"];
    var pat := EqualPatterns[9];
    assert pat == Pattern([Lit("a10"), Ph(":BB"), Ph(":CC"), Ph(":DD")], 0);
    assert segs[0] != pat.parts[0].value;
  }

  lemma EqualA12On10()
    ensures ExecSegments(EqualPatterns[10], ["a12", "b12", "c12", "d12"], '/', true) == NoMatch
  {
    var segs := ["a12", "b12", "c12", "d12"];
    var pat := EqualPatterns[10];
    assert pat == Pattern([Ph(":AA"), Ph(":BB"), Ph(":CC"), Lit("d11")], 3);
    assert segs[3] != pat.parts[3].value;
  }

  /** `/a12/b12/c12/d12` (and any path with the same segments) matches no rule and is kept. */
  lemma EqualA12(path: string)
    requires UrlParts(path, '/') == ["a12", "b12", "c12", "d12"]
    ensures ReplaceSpec(EqualPatterns, path, '/', true) == Replaced(path)
  {
    var segs := ["a12", "b12", "c12", "d12"];
    forall x | 0 <= x < 11 ensures ExecSegments(EqualPatterns[x], segs, '/', true) == NoMatch {
      if x == 0 { EqualA12On0(); } else if x == 1 { EqualA12On1(); } else if x == 2 { EqualA12On2(); } else if x == 3 { EqualA12On3(); } else if x == 4 { EqualA12On4(); } else if x == 5 { EqualA12On5(); } else if x == 6 { EqualA12On6(); } else if x == 7 { EqualA12On7(); } else if x == 8 { EqualA12On8(); } else if x == 9 { EqualA12On9(); } else { EqualA12On10(); }
    }
    assert |EqualPatterns| == 11;
    NoMatchOnSegments(EqualPatterns, path, segs);
  }

  lemma EqualA13On0()
    ensures ExecSegments(EqualPatterns[0], ["a13", "b13", "c13"], '/', true) == NoMatch
  {
    var segs := ["a13", "b13", "c13"];
    var pat := EqualPatterns[0];
    assert pat == Pattern([Ph(":AA"), Lit("b01"), Lit("c01"), Ph(":DD")], 1);
  }

  lemma EqualA13On1()
    ensures ExecSegments(EqualPatterns[1], ["a13", "b13", "c13"], '/', true) == NoMatch
  {
    var segs := ["a13", "b13", "c13"];
    var pat := EqualPatterns[1];
    assert pat == Pattern([Lit("a02"), Ph(":BB"), Lit("c02"), Ph(":DD")], 0);
  }

  lemma EqualA13On2()
    ensures ExecSegments(EqualPatterns[2], ["a13", "b13", "c13"], '/', true) == NoMatch
  {
    var segs := ["a13", "b13", "c13"];
    var pat := EqualPatterns[2];
    assert pat == Pattern([Lit("a03"), Lit("b03"), Ph(":CC"), Ph(":DD")], 0);
  }

  lemma EqualA13On3()
    ensures ExecSegments(EqualPatterns[3], ["a13", "b13", "c13"], '/', true) == NoMatch
  {
    var segs := ["a13", "b13", "c13"];
    var pat := EqualPatterns[3];
    assert pat == Pattern([Lit("a04"), Lit("b04"), Lit("c04"), Ph(":DD")], 0);
  }

  lemma EqualA13On4()
    ensures ExecSegments(EqualPatterns[4], ["a13", "b13", "c13"], '/', true) == NoMatch
  {
    var segs := ["a13", "b13", "c13"];
    var pat := EqualPatterns[4];
    assert pat == Pattern([Ph(":AA"), Lit("b05"), Lit("c05"), Lit("d05")], 1);
  }

  lemma EqualA13On5()
    ensures ExecSegments(EqualPatterns[5], ["a13", "b13", "c13"], '/', true) == NoMatch
  {
    var segs := ["a13", "b13", "c13"];
    var pat := EqualPatterns[5];
    assert pat == Pattern([Ph(":AA"), Ph(":BB"), Lit("c06"), Lit("d06")], 2);
  }

  lemma EqualA13On6()
    ensures ExecSegments(EqualPatterns[6], ["a13", "b13", "c13"], '/', true) == NoMatch
  {
    var segs := ["a13", "b13", "c13"];
    var pat := EqualPatterns[6];
    assert pat == Pattern([Ph(":AA"), Lit("b07"), Ph(":CC"), Lit("d07")], 1);
  }

  lemma EqualA13On7()
    ensures ExecSegments(EqualPatterns[7], ["a13", "b13", "c13"], '/', true) == NoMatch
  {
    var segs := ["a13", "b13", "c13"];
    var pat := EqualPatterns[7];
    assert pat == Pattern([Ph(":AA"), Lit("b08"), Lit("c08"), Ph(":DD")], 1);
  }

  lemma EqualA13On8()
    ensures ExecSegments(EqualPatterns[8], ["a13", "b13", "c13"], '/', true) == NoMatch
  {
    var segs := ["a13", "b13", "c13"];
    var pat := EqualPatterns[8];
    assert pat == Pattern([Lit("a09"), Ph(":BB"), Ph(":CC"), Lit("d09")], 0);
  }

  lemma EqualA13On9()
    ensures ExecSegments(EqualPatterns[9], ["a13", "b13", "c13"], '/', true) == NoMatch
  {
    var segs := ["a13", "b13", "c13"];
    var pat := EqualPatterns[9];
    assert pat == Pattern([Lit("a10"), Ph(":BB"), Ph(":CC"), Ph(":DD")], 0);
  }

  lemma EqualA13On10()
    ensures ExecSegments(EqualPatterns[10], ["a13", "b13", "c13"], '/', true) == NoMatch
  {
    var segs := ["a13", "b13", "c13"];
    var pat := EqualPatterns[10];
    assert pat == Pattern([Ph(":AA"), Ph(":BB"), Ph(":CC"), Lit("d11")], 3);
  }

  /** `/a13/b13/c13` (and any path with the same segments) matches no rule and is kept. */
  lemma EqualA13(path: string)
    requires UrlParts(path, '/') == ["a13", "b13", "c13"]
    ensures ReplaceSpec(EqualPatterns, path, '/', true) == Replaced(path)
  {
    var segs := ["a13", "b13", "c13"];
    forall x | 0 <= x < 11 ensures ExecSegments(EqualPatterns[x], segs, '/', true) == NoMatch {
      if x == 0 { EqualA13On0(); } else if x == 1 { EqualA13On1(); } else if x == 2 { EqualA13On2(); } else if x == 3 { EqualA13On3(); } else if x == 4 { EqualA13On4(); } else if x == 5 { EqualA13On5(); } else if x == 6 { EqualA13On6(); } else if x == 7 { EqualA13On7(); } else if x == 8 { EqualA13On8(); } else if x == 9 { EqualA13On9(); } else { EqualA13On10(); }
    }
    assert |EqualPatterns| == 11;
    NoMatchOnSegments(EqualPatterns, path, segs);
  }

  lemma EqualA14On0()
    ensures ExecSegments(EqualPatterns[0], ["a14", "b14"], '/', true) == NoMatch
  {
    var segs := ["a14", "b14"];
    var pat := EqualPatterns[0];
    assert pat == Pattern([Ph(":AA"), Lit("b01"), Lit("c01"), Ph(":DD")], 1);
  }

  lemma EqualA14On1()
    ensures ExecSegments(EqualPatterns[1], ["a14", "b14"], '/', true) == NoMatch
  {
    var segs := ["a14", "b14"];
    var pat := EqualPatterns[1];
    assert pat == Pattern([Lit("a02"), Ph(":BB"), Lit("c02"), Ph(":DD")], 0);
  }

  lemma EqualA14On2()
    ensures ExecSegments(EqualPatterns[2], ["a14", "b14"], '/', true) == NoMatch
  {
    var segs := ["a14", "b14"];
    var pat := EqualPatterns[2];
    assert pat == Pattern([Lit("a03"), Lit("b03"), Ph(":CC"), Ph(":DD")], 0);
  }

  lemma EqualA14On3()
    ensures ExecSegments(EqualPatterns[3], ["a14", "b14"], '/', true) == NoMatch
  {
    var segs := ["a14", "b14"];
    var pat := EqualPatterns[3];
    assert pat == Pattern([Lit("a04"), Lit("b04"), Lit("c04"), Ph(":DD")], 0);
  }

  lemma EqualA14On4()
    ensures ExecSegments(EqualPatterns[4], ["a14", "b14"], '/', true) == NoMatch
  {
    var segs := ["a14", "b14"];
    var pat := EqualPatterns[4];
    assert pat == Pattern([Ph(":AA"), Lit("b05"), Lit("c05"), Lit("d05")], 1);
  }

  lemma EqualA14On5()
    ensures ExecSegments(EqualPatterns[5], ["a14", "b14"], '/', true) == NoMatch
  {
    var segs := ["a14", "b14"];
    var pat := EqualPatterns[5];
    assert pat == Pattern([Ph(":AA"), Ph(":BB"), Lit("c06"), Lit("d06")], 2);
  }

  lemma EqualA14On6()
    ensures ExecSegments(EqualPatterns[6], ["a14", "b14"], '/', true) == NoMatch
  {
    var segs := ["a14", "b14"];
    var pat := EqualPatterns[6];
    assert pat == Pattern([Ph(":AA"), Lit("b07"), Ph(":CC"), Lit("d07")], 1);
  }

  lemma EqualA14On7()
    ensures ExecSegments(EqualPatterns[7], ["a14", "b14"], '/', true) == NoMatch
  {
    var segs := ["a14", "b14"];
    var pat := EqualPatterns[7];
    assert pat == Pattern([Ph(":AA"), Lit("b08"), Lit("c08"), Ph(":DD")], 1);
  }

  lemma EqualA14On8()
    ensures ExecSegments(EqualPatterns[8], ["a14", "b14"], '/', true) == NoMatch
  {
    var segs := ["a14", "b14"];
    var pat := EqualPatterns[8];
    assert pat == Pattern([Lit("a09"), Ph(":BB"), Ph(":CC"), Lit("d09")], 0);
  }

  lemma EqualA14On9()
    ensures ExecSegments(EqualPatterns[9], ["a14", "b14"], '/', true) == NoMatch
  {
    var segs := ["a14", "b14"];
    var pat := EqualPatterns[9];
    assert pat == Pattern([Lit("a10"), Ph(":BB"), Ph(":CC"), Ph(":DD")], 0);
  }

  lemma EqualA14On10()
    ensures ExecSegments(EqualPatterns[10], ["a14", "b14"], '/', true) == NoMatch
  {
    var segs := ["a14", "b14"];
    var pat := EqualPatterns[10];
    assert pat == Pattern([Ph(":AA"), Ph(":BB"), Ph(":CC"), Lit("d11")], 3);
  }

  /** `/a14/b14` (and any path with the same segments) matches no rule and is kept. */
  lemma EqualA14(path: string)
    requires UrlParts(path, '/') == ["a14", "b14"]
    ensures ReplaceSpec(EqualPatterns, path, '/', true) == Replaced(path)
  {
    var segs := ["a14", "b14"];
    forall x | 0 <= x < 11 ensures ExecSegments(EqualPatterns[x], segs, '/', true) == NoMatch {
      if x == 0 { EqualA14On0(); } else if x == 1 { EqualA14On1(); } else if x == 2 { EqualA14On2(); } else if x == 3 { EqualA14On3(); } else if x == 4 { EqualA14On4(); } else if x == 5 { EqualA14On5(); } else if x == 6 { EqualA14On6(); } else if x == 7 { EqualA14On7(); } else if x == 8 { EqualA14On8(); } else if x == 9 { EqualA14On9(); } else { EqualA14On10(); }
    }
    assert |EqualPatterns| == 11;
    NoMatchOnSegments(EqualPatterns, path, segs);
  }

  lemma EqualA15On0()
    ensures ExecSegments(EqualPatterns[0], ["a15"], '/', true) == NoMatch
  {
    var segs := ["a15"];
    var pat := EqualPatterns[0];
    assert pat == Pattern([Ph(":AA"), Lit("b01"), Lit("c01"), Ph(":DD")], 1);
  }

  lemma EqualA15On1()
    ensures ExecSegments(EqualPatterns[1], ["a15"], '/', true) == NoMatch
  {
    var segs := ["a15"];
    var pat := EqualPatterns[1];
    assert pat == Pattern([Lit("a02"), Ph(":BB"), Lit("c02"), Ph(":DD")], 0);
  }

  lemma EqualA15On2()
    ensures ExecSegments(EqualPatterns[2], ["a15"], '/', true) == NoMatch
  {
    var segs := ["a15"];
    var pat := EqualPatterns[2];
    assert pat == Pattern([Lit("a03"), Lit("b03"), Ph(":CC"), Ph(":DD")], 0);
  }

  lemma EqualA15On3()
    ensures ExecSegments(EqualPatterns[3], ["a15"], '/', true) == NoMatch
  {
    var segs := ["a15"];
    var pat := EqualPatterns[3];
    assert pat == Pattern([Lit("a04"), Lit("b04"), Lit("c04"), Ph(":DD")], 0);
  }

  lemma EqualA15On4()
    ensures ExecSegments(EqualPatterns[4], ["a15"], '/', true) == NoMatch
  {
    var segs := ["a15"];
    var pat := EqualPatterns[4];
    assert pat == Pattern([Ph(":AA"), Lit("b05"), Lit("c05"), Lit("d05")], 1);
  }

  lemma EqualA15On5()
    ensures ExecSegments(EqualPatterns[5], ["a15"], '/', true) == NoMatch
  {
    var segs := ["a15"];
    var pat := EqualPatterns[5];
    assert pat == Pattern([Ph(":AA"), Ph(":BB"), Lit("c06"), Lit("d06")], 2);
  }

  lemma EqualA15On6()
    ensures ExecSegments(EqualPatterns[6], ["a15"], '/', true) == NoMatch
  {
    var segs := ["a15"];
    var pat := EqualPatterns[6];
    assert pat == Pattern([Ph(":AA"), Lit("b07"), Ph(":CC"), Lit("d07")], 1);
  }

  lemma EqualA15On7()
    ensures ExecSegments(EqualPatterns[7], ["a15"], '/', true) == NoMatch
  {
    var segs := ["a15"];
    var pat := EqualPatterns[7];
    assert pat == Pattern([Ph(":AA"), Lit("b08"), Lit("c08"), Ph(":DD")], 1);
  }

  lemma EqualA15On8()
    ensures ExecSegments(EqualPatterns[8], ["a15"], '/', true) == NoMatch
  {
    var segs := ["a15"];
    var pat := EqualPatterns[8];
    assert pat == Pattern([Lit("a09"), Ph(":BB"), Ph(":CC"), Lit("d09")], 0);
  }

  lemma EqualA15On9()
    ensures ExecSegments(EqualPatterns[9], ["a15"], '/', true) == NoMatch
  {
    var segs := ["a15"];
    var pat := EqualPatterns[9];
    assert pat == Pattern([Lit("a10"), Ph(":BB"), Ph(":CC"), Ph(":DD")], 0);
  }

  lemma EqualA15On10()
    ensures ExecSegments(EqualPatterns[10], ["a15"], '/', true) == NoMatch
  {
    var segs := ["a15"];
    var pat := EqualPatterns[10];
    assert pat == Pattern([Ph(":AA"), Ph(":BB"), Ph(":CC"), Lit("d11")], 3);
  }

  /** `/a15` (and any path with the same segments) matches no rule and is kept. */
  lemma EqualA15(path: string)
    requires UrlParts(path, '/') == ["a15"]
    ensures ReplaceSpec(EqualPatterns, path, '/', true) == Replaced(path)
  {
    var segs := ["a15"];
    forall x | 0 <= x < 11 ensures ExecSegments(EqualPatterns[x], segs, '/', true) == NoMatch {
      if x == 0 { EqualA15On0(); } else if x == 1 { EqualA15On1(); } else if x == 2 { EqualA15On2(); } else if x == 3 { EqualA15On3(); } else if x == 4 { EqualA15On4(); } else if x == 5 { EqualA15On5(); } else if x == 6 { EqualA15On6(); } else if x == 7 { EqualA15On7(); } else if x == 8 { EqualA15On8(); } else if x == 9 { EqualA15On9(); } else { EqualA15On10(); }
    }
    assert |EqualPatterns| == 11;
    NoMatchOnSegments(EqualPatterns, path, segs);
  }

  lemma EqualA16On0()
    ensures ExecSegments(EqualPatterns[0], ["a16", "b16", "c16", "d16"], '/', true) == NoMatch
  {
    var segs := ["a16", "b16", "c16", "d16"];
    var pat := EqualPatterns[0];
    assert pat == Pattern([Ph(":AA"), Lit("b01"), Lit("c01"), Ph(":DD")], 1);
    assert segs[1] != pat.parts[1].value;
  }

  lemma EqualA16On1()
    ensures ExecSegments(EqualPatterns[1], ["a16", "b16", "c16", "d16"], '/', true) == NoMatch
  {
    var segs := ["a16", "b16", "c16", "d16"];
    var pat := EqualPatterns[1];
    assert pat == Pattern([Lit("a02"), Ph(":BB"), Lit("c02"), Ph(":DD")], 0);
    assert segs[0] != pat.parts[0].value;
  }

  lemma EqualA16On2()
    ensures ExecSegments(EqualPatterns[2], ["a16", "b16", "c16", "d16"], '/', true) == NoMatch
  {
    var segs := ["a16", "b16", "c16", "d16"];
    var pat := EqualPatterns[2];
    assert pat == Pattern([Lit("a03"), Lit("b03"), Ph(":CC"), Ph(":DD")], 0);
    assert segs[0] != pat.parts[0].value;
  }

  lemma EqualA16On3()
    ensures ExecSegments(EqualPatterns[3], ["a16", "b16", "c16", "d16"], '/', true) == NoMatch
  {
    var segs := ["a16", "b16", "c16", "d16"];
    var pat := EqualPatterns[3];
    assert pat == Pattern([Lit("a04"), Lit("b04"), Lit("c04"), Ph(":DD")], 0);
    assert segs[0] != pat.parts[0].value;
  }

  lemma EqualA16On4()
    ensures ExecSegments(EqualPatterns[4], ["a16", "b16", "c16", "d16"], '/', true) == NoMatch
  {
    var segs := ["a16", "b16", "c16", "d16"];
    var pat := EqualPatterns[4];
    assert pat == Pattern([Ph(":AA"), Lit("b05"), Lit("c05"), Lit("d05")], 1);
    assert segs[1] != pat.parts[1].value;
  }

  lemma EqualA16On5()
    ensures ExecSegments(EqualPatterns[5], ["a16", "b16", "c16", "d16"], '/', true) == NoMatch
  {
    var segs := ["a16", "b16", "c16", "d16"];
    var pat := EqualPatterns[5];
    assert pat == Pattern([Ph(":AA"), Ph(":BB"), Lit("c06"), Lit("d06")], 2);
    assert segs[2] != pat.parts[2].value;
  }

  lemma EqualA16On6()
    ensures ExecSegments(EqualPatterns[6], ["a16", "b16", "c16", "d16"], '/', true) == NoMatch
  {
    var segs := ["a16", "b16", "c16", "d16"];
    var pat := EqualPatterns[6];
    assert pat == Pattern([Ph(":AA"), Lit("b07"), Ph(":CC"), Lit("d07")], 1);
    assert segs[1] != pat.parts[1].value;
  }

  lemma EqualA16On7()
    ensures ExecSegments(EqualPatterns[7], ["a16", "b16", "c16", "d16"], '/', true) == NoMatch
  {
    var segs := ["a16", "b16", "c16", "d16"];
    var pat := EqualPatterns[7];
    assert pat == Pattern([Ph(":AA"), Lit("b08"), Lit("c08"), Ph(":DD")], 1);
    assert segs[1] != pat.parts[1].value;
  }

  lemma EqualA16On8()
    ensures ExecSegments(EqualPatterns[8], ["a16", "b16", "c16", "d16"], '/', true) == NoMatch
  {
    var segs := ["a16", "b16", "c16", "d16"];
    var pat := EqualPatterns[8];
    assert pat == Pattern([Lit("a09"), Ph(":BB"), Ph(":CC"), Lit("d09")], 0);
    assert segs[0] != pat.parts[0].value;
  }

  lemma EqualA16On9()
    ensures ExecSegments(EqualPatterns[9], ["a16", "b16", "c16", "d16"], '/', true) == NoMatch
  {
    var segs := ["a16", "b16", "c16", "d16"];
    var pat := EqualPatterns[9];
    assert pat == Pattern([Lit("a10"), Ph(":BB"), Ph(":CC"), Ph(":DD")], 0);
    assert segs[0] != pat.parts[0].value;
  }

  lemma EqualA16On10()
    ensures ExecSegments(EqualPatterns[10], ["a16", "b16", "c16", "d16"], '/', true) == NoMatch
  {
    var segs := ["a16", "b16", "c16", "d16"];
    var pat := EqualPatterns[10];
    assert pat == Pattern([Ph(":AA"), Ph(":BB"), Ph(":CC"), Lit("d11")], 3);
    assert segs[3] != pat.parts[3].value;
  }

  /** `/a16/b16/c16/d16` (and any path with the same segments) matches no rule and is kept. */
  lemma EqualA16(path: string)
    requires UrlParts(path, '/') == ["a16", "b16", "c16", "d16"]
    ensures ReplaceSpec(EqualPatterns, path, '/', true) == Replaced(path)
  {
    var segs := ["a16", "b16", "c16", "d16"];
    forall x | 0 <= x < 11 ensures ExecSegments(EqualPatterns[x], segs, '/', true) == NoMatch {
      if x == 0 { EqualA16On0(); } else if x == 1 { EqualA16On1(); } else if x == 2 { EqualA16On2(); } else if x == 3 { EqualA16On3(); } else if x == 4 { EqualA16On4(); } else if x == 5 { EqualA16On5(); } else if x == 6 { EqualA16On6(); } else if x == 7 { EqualA16On7(); } else if x == 8 { EqualA16On8(); } else if x == 9 { EqualA16On9(); } else { EqualA16On10(); }
    }
    assert |EqualPatterns| == 11;
    NoMatchOnSegments(EqualPatterns, path, segs);
  }

  lemma EqualA17On0()
    ensures ExecSegments(EqualPatterns[0], ["a17", "b17", "c17"], '/', true) == NoMatch
  {
    var segs := ["a17", "b17", "c17"];
    var pat := EqualPatterns[0];
    assert pat == Pattern([Ph(":AA"), Lit("b01"), Lit("c01"), Ph(":DD")], 1);
  }

  lemma EqualA17On1()
    ensures ExecSegments(EqualPatterns[1], ["a17", "b17", "c17"], '/', true) == NoMatch
  {
    var segs := ["a17", "b17", "c17"];
    var pat := EqualPatterns[1];
    assert pat == Pattern([Lit("a02"), Ph(":BB"), Lit("c02"), Ph(":DD")], 0);
  }

  lemma EqualA17On2()
    ensures ExecSegments(EqualPatterns[2], ["a17", "b17", "c17"], '/', true) == NoMatch
  {
    var segs := ["a17", "b17", "c17"];
    var pat := EqualPatterns[2];
    assert pat == Pattern([Lit("a03"), Lit("b03"), Ph(":CC"), Ph(":DD")], 0);
  }

  lemma EqualA17On3()
    ensures ExecSegments(EqualPatterns[3], ["a17", "b17", "c17"], '/', true) == NoMatch
  {
    var segs := ["a17", "b17", "c17"];
    var pat := EqualPatterns[3];
    assert pat == Pattern([Lit("a04"), Lit("b04"), Lit("c04"), Ph(":DD")], 0);
  }

  lemma EqualA17On4()
    ensures ExecSegments(EqualPatterns[4], ["a17", "b17", "c17"], '/', true) == NoMatch
  {
    var segs := ["a17", "b17", "c17"];
    var pat := EqualPatterns[4];
    assert pat == Pattern([Ph(":AA"), Lit("b05"), Lit("c05"), Lit("d05")], 1);
  }

  lemma EqualA17On5()
    ensures ExecSegments(EqualPatterns[5], ["a17", "b17", "c17"], '/', true) == NoMatch
  {
    var segs := ["a17", "b17", "c17"];
    var pat := EqualPatterns[5];
    assert pat == Pattern([Ph(":AA"), Ph(":BB"), Lit("c06"), Lit("d06")], 2);
  }

  lemma EqualA17On6()
    ensures ExecSegments(EqualPatterns[6], ["a17", "b17", "c17"], '/', true) == NoMatch
  {
    var segs := ["a17", "b17", "c17"];
    var pat := EqualPatterns[6];
    assert pat == Pattern([Ph(":AA"), Lit("b07"), Ph(":CC"), Lit("d07")], 1);
  }

  lemma EqualA17On7()
    ensures ExecSegments(EqualPatterns[7], ["a17", "b17", "c17"], '/', true) == NoMatch
  {
    var segs := ["a17", "b17", "c17"];
    var pat := EqualPatterns[7];
    assert pat == Pattern([Ph(":AA"), Lit("b08"), Lit("c08"), Ph(":DD")], 1);
  }

  lemma EqualA17On8()
    ensures ExecSegments(EqualPatterns[8], ["a17", "b17", "c17"], '/', true) == NoMatch
  {
    var segs := ["a17", "b17", "c17"];
    var pat := EqualPatterns[8];
    assert pat == Pattern([Lit("a09"), Ph(":BB"), Ph(":CC"), Lit("d09")], 0);
  }

  lemma EqualA17On9()
    ensures ExecSegments(EqualPatterns[9], ["a17", "b17", "c17"], '/', true) == NoMatch
  {
    var segs := ["a17", "b17", "c17"];
    var pat := EqualPatterns[9];
    assert pat == Pattern([Lit("a10"), Ph(":BB"), Ph(":CC"), Ph(":DD")], 0);
  }

  lemma EqualA17On10()
    ensures ExecSegments(EqualPatterns[10], ["a17", "b17", "c17"], '/', true) == NoMatch
  {
    var segs := ["a17", "b17", "c17"];
    var pat := EqualPatterns[10];
    assert pat == Pattern([Ph(":AA"), Ph(":BB"), Ph(":CC"), Lit("d11")], 3);
  }

  /** `/a17/b17/c17` (and any path with the same segments) matches no rule and is kept. */
  lemma EqualA17(path: string)
    requires UrlParts(path, '/') == ["a17", "b17", "c17"]
    ensures ReplaceSpec(EqualPatterns, path, '/', true) == Replaced(path)
  {
    var segs := ["a17", "b17", "c17"];
    forall x | 0 <= x < 11 ensures ExecSegments(EqualPatterns[x], segs, '/', true) == NoMatch {
      if x == 0 { EqualA17On0(); } else if x == 1 { EqualA17On1(); } else if x == 2 { EqualA17On2(); } else if x == 3 { EqualA17On3(); } else if x == 4 { EqualA17On4(); } else if x == 5 { EqualA17On5(); } else if x == 6 { EqualA17On6(); } else if x == 7 { EqualA17On7(); } else if x == 8 { EqualA17On8(); } else if x == 9 { EqualA17On9(); } else { EqualA17On10(); }
    }
    assert |EqualPatterns| == 11;
    NoMatchOnSegments(EqualPatterns, path, segs);
  }

  lemma EqualA18On0()
    ensures ExecSegments(EqualPatterns[0], ["a18", "b18"], '/', true) == NoMatch
  {
    var segs := ["a18", "b18"];
    var pat := EqualPatterns[0];
    assert pat == Pattern([Ph(":AA"), Lit("b01"), Lit("c01"), Ph(":DD")], 1);
  }

  lemma EqualA18On1()
    ensures ExecSegments(EqualPatterns[1], ["a18", "b18"], '/', true) == NoMatch
  {
    var segs := ["a18", "b18"];
    var pat := EqualPatterns[1];
    assert pat == Pattern([Lit("a02"), Ph(":BB"), Lit("c02"), Ph(":DD")], 0);
  }

  lemma EqualA18On2()
    ensures ExecSegments(EqualPatterns[2], ["a18", "b18"], '/', true) == NoMatch
  {
    var segs := ["a18", "b18"];
    var pat := EqualPatterns[2];
    assert pat == Pattern([Lit("a03"), Lit("b03"), Ph(":CC"), Ph(":DD")], 0);
  }

  lemma EqualA18On3()
    ensures ExecSegments(EqualPatterns[3], ["a18", "b18"], '/', true) == NoMatch
  {
    var segs := ["a18", "b18"];
    var pat := EqualPatterns[3];
    assert pat == Pattern([Lit("a04"), Lit("b04"), Lit("c04"), Ph(":DD")], 0);
  }

  lemma EqualA18On4()
    ensures ExecSegments(EqualPatterns[4], ["a18", "b18"], '/', true) == NoMatch
  {
    var segs := ["a18", "b18"];
    var pat := EqualPatterns[4];
    assert pat == Pattern([Ph(":AA"), Lit("b05"), Lit("c05"), Lit("d05")], 1);
  }

  lemma EqualA18On5()
    ensures ExecSegments(EqualPatterns[5], ["a18", "b18"], '/', true) == NoMatch
  {
    var segs := ["a18", "b18"];
    var pat := EqualPatterns[5];
    assert pat == Pattern([Ph(":AA"), Ph(":BB"), Lit("c06"), Lit("d06")], 2);
  }

  lemma EqualA18On6()
    ensures ExecSegments(EqualPatterns[6], ["a18", "b18"], '/', true) == NoMatch
  {
    var segs := ["a18", "b18"];
    var pat := EqualPatterns[6];
    assert pat == Pattern([Ph(":AA"), Lit("b07"), Ph(":CC"), Lit("d07")], 1);
  }

  lemma EqualA18On7()
    ensures ExecSegments(EqualPatterns[7], ["a18", "b18"], '/', true) == NoMatch
  {
    var segs := ["a18", "b18"];
    var pat := EqualPatterns[7];
    assert pat == Pattern([Ph(":AA"), Lit("b08"), Lit("c08"), Ph(":DD")], 1);
  }

  lemma EqualA18On8()
    ensures ExecSegments(EqualPatterns[8], ["a18", "b18"], '/', true) == NoMatch
  {
    var segs := ["a18", "b18"];
    var pat := EqualPatterns[8];
    assert pat == Pattern([Lit("a09"), Ph(":BB"), Ph(":CC"), Lit("d09")], 0);
  }

  lemma EqualA18On9()
    ensures ExecSegments(EqualPatterns[9], ["a18", "b18"], '/', true) == NoMatch
  {
    var segs := ["a18", "b18"];
    var pat := EqualPatterns[9];
    assert pat == Pattern([Lit("a10"), Ph(":BB"), Ph(":CC"), Ph(":DD")], 0);
  }

  lemma EqualA18On10()
    ensures ExecSegments(EqualPatterns[10], ["a18", "b18"], '/', true) == NoMatch
  {
    var segs := ["a18", "b18"];
    var pat := EqualPatterns[10];
    assert pat == Pattern([Ph(":AA"), Ph(":BB"), Ph(":CC"), Lit("d11")], 3);
  }

  /** `/a18/b18` (and any path with the same segments) matches no rule and is kept. */
  lemma EqualA18(path: string)
    requires UrlParts(path, '/') == ["a18", "b18"]
    ensures ReplaceSpec(EqualPatterns, path, '/', true) == Replaced(path)
  {
    var segs := ["a18", "b18"];
    forall x | 0 <= x < 11 ensures ExecSegments(EqualPatterns[x], segs, '/', true) == NoMatch {
      if x == 0 { EqualA18On0(); } else if x == 1 { EqualA18On1(); } else if x == 2 { EqualA18On2(); } else if x == 3 { EqualA18On3(); } else if x == 4 { EqualA18On4(); } else if x == 5 { EqualA18On5(); } else if x == 6 { EqualA18On6(); } else if x == 7 { EqualA18On7(); } else if x == 8 { EqualA18On8(); } else if x == 9 { EqualA18On9(); } else { EqualA18On10(); }
    }
    assert |EqualPatterns| == 11;
    NoMatchOnSegments(EqualPatterns, path, segs);
  }

  lemma EqualA19On0()
    ensures ExecSegments(EqualPatterns[0], ["a19"], '/', true) == NoMatch
  {
    var segs := ["a19"];
    var pat := EqualPatterns[0];
    assert pat == Pattern([Ph(":AA"), Lit("b01"), Lit("c01"), Ph(":DD")], 1);
  }

  lemma EqualA19On1()
    ensures ExecSegments(EqualPatterns[1], ["a19"], '/', true) == NoMatch
  {
    var segs := ["a19"];
    var pat := EqualPatterns[1];
    assert pat == Pattern([Lit("a02"), Ph(":BB"), Lit("c02"), Ph(":DD")], 0);
  }

  lemma EqualA19On2()
    ensures ExecSegments(EqualPatterns[2], ["a19"], '/', true) == NoMatch
  {
    var segs := ["a19"];
    var pat := EqualPatterns[2];
    assert pat == Pattern([Lit("a03"), Lit("b03"), Ph(":CC"), Ph(":DD")], 0);
  }

  lemma EqualA19On3()
    ensures ExecSegments(EqualPatterns[3], ["a19"], '/', true) == NoMatch
  {
    var segs := ["a19"];
    var pat := EqualPatterns[3];
    assert pat == Pattern([Lit("a04"), Lit("b04"), Lit("c04"), Ph(":DD")], 0);
  }

  lemma EqualA19On4()
    ensures ExecSegments(EqualPatterns[4], ["a19"], '/', true) == NoMatch
  {
    var segs := ["a19"];
    var pat := EqualPatterns[4];
    assert pat == Pattern([Ph(":AA"), Lit("b05"), Lit("c05"), Lit("d05")], 1);
  }

  lemma EqualA19On5()
    ensures ExecSegments(EqualPatterns[5], ["a19"], '/', true) == NoMatch
  {
    var segs := ["a19"];
    var pat := EqualPatterns[5];
    assert pat == Pattern([Ph(":AA"), Ph(":BB"), Lit("c06"), Lit("d06")], 2);
  }

  lemma EqualA19On6()
    ensures ExecSegments(EqualPatterns[6], ["a19"], '/', true) == NoMatch
  {
    var segs := ["a19"];
    var pat := EqualPatterns[6];
    assert pat == Pattern([Ph(":AA"), Lit("b07"), Ph(":CC"), Lit("d07")], 1);
  }

  lemma EqualA19On7()
    ensures ExecSegments(EqualPatterns[7], ["a19"], '/', true) == NoMatch
  {
    var segs := ["a19"];
    var pat := EqualPatterns[7];
    assert pat == Pattern([Ph(":AA"), Lit("b08"), Lit("c08"), Ph(":DD")], 1);
  }

  lemma EqualA19On8()
    ensures ExecSegments(EqualPatterns[8], ["a19"], '/', true) == NoMatch
  {
    var segs := ["a19"];
    var pat := EqualPatterns[8];
    assert pat == Pattern([Lit("a09"), Ph(":BB"), Ph(":CC"), Lit("d09")], 0);
  }

  lemma EqualA19On9()
    ensures ExecSegments(EqualPatterns[9], ["a19"], '/', true) == NoMatch
  {
    var segs := ["a19"];
    var pat := EqualPatterns[9];
    assert pat == Pattern([Lit("a10"), Ph(":BB"), Ph(":CC"), Ph(":DD")], 0);
  }

  lemma EqualA19On10()
    ensures ExecSegments(EqualPatterns[10], ["a19"], '/', true) == NoMatch
  {
    var segs := ["a19"];
    var pat := EqualPatterns[10];
    assert pat == Pattern([Ph(":AA"), Ph(":BB"), Ph(":CC"), Lit("d11")], 3);
  }

  /** `/a19` (and any path with the same segments) matches no rule and is kept. */
  lemma EqualA19(path: string)
    requires UrlParts(path, '/') == ["a19"]
    ensures ReplaceSpec(EqualPatterns, path, '/', true) == Replaced(path)
  {
    var segs := ["a19"];
    forall x | 0 <= x < 11 ensures ExecSegments(EqualPatterns[x], segs, '/', true) == NoMatch {
      if x == 0 { EqualA19On0(); } else if x == 1 { EqualA19On1(); } else if x == 2 { EqualA19On2(); } else if x == 3 { EqualA19On3(); } else if x == 4 { EqualA19On4(); } else if x == 5 { EqualA19On5(); } else if x == 6 { EqualA19On6(); } else if x == 7 { EqualA19On7(); } else if x == 8 { EqualA19On8(); } else if x == 9 { EqualA19On9(); } else { EqualA19On10(); }
    }
    assert |EqualPatterns| == 11;
    NoMatchOnSegments(EqualPatterns, path, segs);
  }

  // ----- TestRulesByLen1 (cardinality/rules/replace_test.go:112-132): all-placeholder rules pick the rule of the path's own length. -----

  const ByLenRules: seq<string> := ["/:AA/:BB/:CC/:DD", "/:AA/:BB/:CC", "/:AA/:BB", "/:AA"]

  const ByLenPatterns: seq<Pattern> := [
    Pattern([Ph(":AA"), Ph(":BB"), Ph(":CC"), Ph(":DD")], 0),
    Pattern([Ph(":AA"), Ph(":BB"), Ph(":CC")], 0),
    Pattern([Ph(":AA"), Ph(":BB")], 0),
    Pattern([Ph(":AA")], 0)]

  lemma ByLenRule0()
    ensures CompileRule(ByLenRules[0], '/', Defaults.reader.PlaceholderRegexp(), 10) == Success(ByLenPatterns[0])
  {
    assert Cardinality.PlaceholderRegexp(":AA");
    assert Cardinality.PlaceholderRegexp(":BB");
    assert Cardinality.PlaceholderRegexp(":CC");
    assert Cardinality.PlaceholderRegexp(":DD");
    assert ByLenPatterns[0].parts[0].isPlaceholder;
    CompileDefault("/:AA/:BB/:CC/:DD", [":AA", ":BB", ":CC", ":DD"], ByLenPatterns[0]);
  }

  lemma ByLenRule1()
    ensures CompileRule(ByLenRules[1], '/', Defaults.reader.PlaceholderRegexp(), 10) == Success(ByLenPatterns[1])
  {
    assert Cardinality.PlaceholderRegexp(":AA");
    assert Cardinality.PlaceholderRegexp(":BB");
    assert Cardinality.PlaceholderRegexp(":CC");
    assert ByLenPatterns[1].parts[0].isPlaceholder;
    CompileDefault("/:AA/:BB/:CC", [":AA", ":BB", ":CC"], ByLenPatterns[1]);
  }

  lemma ByLenRule2()
    ensures CompileRule(ByLenRules[2], '/', Defaults.reader.PlaceholderRegexp(), 10) == Success(ByLenPatterns[2])
  {
    assert Cardinality.PlaceholderRegexp(":AA");
    assert Cardinality.PlaceholderRegexp(":BB");
    assert ByLenPatterns[2].parts[0].isPlaceholder;
    CompileDefault("/:AA/:BB", [":AA", ":BB"], ByLenPatterns[2]);
  }

  lemma ByLenRule3()
    ensures CompileRule(ByLenRules[3], '/', Defaults.reader.PlaceholderRegexp(), 10) == Success(ByLenPatterns[3])
  {
    assert Cardinality.PlaceholderRegexp(":AA");
    assert ByLenPatterns[3].parts[0].isPlaceholder;
    CompileDefault("/:AA", [":AA"], ByLenPatterns[3]);
  }

  /** The rules of this set are all accepted, in order. */
  lemma ByLenRulesCompile()
    ensures Compile(ByLenRules, Defaults) == Success(ByLenPatterns)
  {
    var isPh := Defaults.reader.PlaceholderRegexp();
    forall k | 0 <= k < 4 ensures CompileRule(ByLenRules[k], '/', isPh, 10) == Success(ByLenPatterns[k]) {
      if k == 0 { ByLenRule0(); } else if k == 1 { ByLenRule1(); } else if k == 2 { ByLenRule2(); } else { ByLenRule3(); }
    }
    CompileAll(ByLenRules, ByLenPatterns);
  }

  lemma ByLenA12On0()
    ensures ExecSegments(ByLenPatterns[0], ["a12", "b12", "c12", "d12"], '/', true) == Matched("/:AA/:BB/:CC/:DD")
  {
    var segs := ["a12", "b12", "c12", "d12"];
    var pat := ByLenPatterns[0];
    assert pat == Pattern([Ph(":AA"), Ph(":BB"), Ph(":CC"), Ph(":DD")], 0);
    assert LiteralsAgree(segs, pat.parts);
    EqualMatchCollapsesToRule(segs, pat.parts, '/', true);
    assert Values(pat.parts) == [":AA", ":BB", ":CC", ":DD"];
    ByLenA12Text();
  }

  lemma ByLenA12Text()
    ensures Serialize([":AA", ":BB", ":CC", ":DD"], '/', true) == "/:AA/:BB/:CC/:DD"
  {
    Join4(":AA", ":BB", ":CC", ":DD", '/');
  }

  /** `/a12/b12/c12/d12` becomes `/:AA/:BB/:CC/:DD`. */
  lemma ByLenA12(path: string)
    requires UrlParts(path, '/') == ["a12", "b12", "c12", "d12"]
    ensures ReplaceSpec(ByLenPatterns, path, '/', true) == Replaced("/:AA/:BB/:CC/:DD")
  {
    var segs := ["a12", "b12", "c12", "d12"];
    ByLenA12On0();
    FirstMatchOnSegments(ByLenPatterns, path, segs, 0, "/:AA/:BB/:CC/:DD");
  }

  lemma ByLenA13On0()
    ensures ExecSegments(ByLenPatterns[0], ["a13", "b13", "c13"], '/', true) == NoMatch
  {
    var segs := ["a13", "b13", "c13"];
    var pat := ByLenPatterns[0];
    assert pat == Pattern([Ph(":AA"), Ph(":BB"), Ph(":CC"), Ph(":DD")], 0);
  }

  lemma ByLenA13On1()
    ensures ExecSegments(ByLenPatterns[1], ["a13", "b13", "c13"], '/', true) == Matched("/:AA/:BB/:CC")
  {
    var segs := ["a13", "b13", "c13"];
    var pat := ByLenPatterns[1];
    assert pat == Pattern([Ph(":AA"), Ph(":BB"), Ph(":CC")], 0);
    assert LiteralsAgree(segs, pat.parts);
    EqualMatchCollapsesToRule(segs, pat.parts, '/', true);
    assert Values(pat.parts) == [":AA", ":BB", ":CC"];
    ByLenA13Text();
  }

  lemma ByLenA13Text()
    ensures Serialize([":AA", ":BB", ":CC"], '/', true) == "/:AA/:BB/:CC"
  {
    Join3(":AA", ":BB", ":CC", '/');
  }

  /** `/a13/b13/c13` becomes `/:AA/:BB/:CC`. */
  lemma ByLenA13(path: string)
    requires UrlParts(path, '/') == ["a13", "b13", "c13"]
    ensures ReplaceSpec(ByLenPatterns, path, '/', true) == Replaced("/:AA/:BB/:CC")
  {
    var segs := ["a13", "b13", "c13"];
    forall x | 0 <= x < 1 ensures ExecSegments(ByLenPatterns[x], segs, '/', true) == NoMatch {
      ByLenA13On0();
    }
    ByLenA13On1();
    FirstMatchOnSegments(ByLenPatterns, path, segs, 1, "/:AA/:BB/:CC");
  }

  lemma ByLenA14On0()
    ensures ExecSegments(ByLenPatterns[0], ["a14", "b14"], '/', true) == NoMatch
  {
    var segs := ["a14", "b14"];
    var pat := ByLenPatterns[0];
    assert pat == Pattern([Ph(":AA"), Ph(":BB"), Ph(":CC"), Ph(":DD")], 0);
  }

  lemma ByLenA14On1()
    ensures ExecSegments(ByLenPatterns[1], ["a14", "b14"], '/', true) == NoMatch
  {
    var segs := ["a14", "b14"];
    var pat := ByLenPatterns[1];
    assert pat == Pattern([Ph(":AA"), Ph(":BB"), Ph(":CC")], 0);
  }

  lemma ByLenA14On2()
    ensures ExecSegments(ByLenPatterns[2], ["a14", "b14"], '/', true) == Matched("/:AA/:BB")
  {
    var segs := ["a14", "b14"];
    var pat := ByLenPatterns[2];
    assert pat == Pattern([Ph(":AA"), Ph(":BB")], 0);
    assert LiteralsAgree(segs, pat.parts);
    EqualMatchCollapsesToRule(segs, pat.parts, '/', true);
    assert Values(pat.parts) == [":AA", ":BB"];
    ByLenA14Text();
  }

  lemma ByLenA14Text()
    ensures Serialize([":AA", ":BB"], '/', true) == "/:AA/:BB"
  {
    Join2(":AA", ":BB", '/');
  }

  /** `/a14/b14` becomes `/:AA/:BB`. */
  lemma ByLenA14(path: string)
    requires UrlParts(path, '/') == ["a14", "b14"]
    ensures ReplaceSpec(ByLenPatterns, path, '/', true) == Replaced("/:AA/:BB")
  {
    var segs := ["a14", "b14"];
    forall x | 0 <= x < 2 ensures ExecSegments(ByLenPatterns[x], segs, '/', true) == NoMatch {
      if x == 0 { ByLenA14On0(); } else { ByLenA14On1(); }
    }
    ByLenA14On2();
    FirstMatchOnSegments(ByLenPatterns, path, segs, 2, "/:AA/:BB");
  }

  lemma ByLenA15On0()
    ensures ExecSegments(ByLenPatterns[0], ["a15"], '/', true) == NoMatch
  {
    var segs := ["a15"];
    var pat := ByLenPatterns[0];
    assert pat == Pattern([Ph(":AA"), Ph(":BB"), Ph(":CC"), Ph(":DD")], 0);
  }

  lemma ByLenA15On1()
    ensures ExecSegments(ByLenPatterns[1], ["a15"], '/', true) == NoMatch
  {
    var segs := ["a15"];
    var pat := ByLenPatterns[1];
    assert pat == Pattern([Ph(":AA"), Ph(":BB"), Ph(":CC")], 0);
  }

  lemma ByLenA15On2()
    ensures ExecSegments(ByLenPatterns[2], ["a15"], '/', true) == NoMatch
  {
    var segs := ["a15"];
    var pat := ByLenPatterns[2];
    assert pat == Pattern([Ph(":AA"), Ph(":BB")], 0);
  }

  lemma ByLenA15On3()
    ensures ExecSegments(ByLenPatterns[3], ["a15"], '/', true) == Matched("/:AA")
  {
    var segs := ["a15"];
    var pat := ByLenPatterns[3];
    assert pat == Pattern([Ph(":AA")], 0);
    assert LiteralsAgree(segs, pat.parts);
    EqualMatchCollapsesToRule(segs, pat.parts, '/', true);
    assert Values(pat.parts) == [":AA"];
  }

  /** `/a15` becomes `/:AA`. */
  lemma ByLenA15(path: string)
    requires UrlParts(path, '/') == ["a15"]
    ensures ReplaceSpec(ByLenPatterns, path, '/', true) == Replaced("/:AA")
  {
    var segs := ["a15"];
    forall x | 0 <= x < 3 ensures ExecSegments(ByLenPatterns[x], segs, '/', true) == NoMatch {
      if x == 0 { ByLenA15On0(); } else if x == 1 { ByLenA15On1(); } else { ByLenA15On2(); }
    }
    ByLenA15On3();
    FirstMatchOnSegments(ByLenPatterns, path, segs, 3, "/:AA");
  }

  // ----- TestRulesByLen2 (cardinality/rules/replace_test.go:134-158): the first rule of the path's length whose literals agree wins. -----

  const ByLen2Rules: seq<string> := ["/a10/:BB/c10", "/a11/b11/:CC", "/a12/:BB", "/:AA/b13/c13", "/:AA/b14", "/:AA"]

  const ByLen2Patterns: seq<Pattern> := [
    Pattern([Lit("a10"), Ph(":BB"), Lit("c10")], 0),
    Pattern([Lit("a11"), Lit("b11"), Ph(":CC")], 0),
    Pattern([Lit("a12"), Ph(":BB")], 0),
    Pattern([Ph(":AA"), Lit("b13"), Lit("c13")], 1),
    Pattern([Ph(":AA"), Lit("b14")], 1),
    Pattern([Ph(":AA")], 0)]

  lemma ByLen2Rule0()
    ensures CompileRule(ByLen2Rules[0], '/', Defaults.reader.PlaceholderRegexp(), 10) == Success(ByLen2Patterns[0])
  {
    assert Cardinality.PlaceholderRegexp(":BB");
    assert ByLen2Patterns[0].parts[1].isPlaceholder;
    CompileDefault("/a10/:BB/c10", ["a10", ":BB", "c10"], ByLen2Patterns[0]);
  }

  lemma ByLen2Rule1()
    ensures CompileRule(ByLen2Rules[1], '/', Defaults.reader.PlaceholderRegexp(), 10) == Success(ByLen2Patterns[1])
  {
    assert Cardinality.PlaceholderRegexp(":CC");
    assert ByLen2Patterns[1].parts[2].isPlaceholder;
    CompileDefault("/a11/b11/:CC", ["a11", "b11", ":CC"], ByLen2Patterns[1]);
  }

  lemma ByLen2Rule2()
    ensures CompileRule(ByLen2Rules[2], '/', Defaults.reader.PlaceholderRegexp(), 10) == Success(ByLen2Patterns[2])
  {
    assert Cardinality.PlaceholderRegexp(":BB");
    assert ByLen2Patterns[2].parts[1].isPlaceholder;
    CompileDefault("/a12/:BB", ["a12", ":BB"], ByLen2Patterns[2]);
  }

  lemma ByLen2Rule3()
    ensures CompileRule(ByLen2Rules[3], '/', Defaults.reader.PlaceholderRegexp(), 10) == Success(ByLen2Patterns[3])
  {
    assert Cardinality.PlaceholderRegexp(":AA");
    assert ByLen2Patterns[3].parts[0].isPlaceholder;
    CompileDefault("/:AA/b13/c13", [":AA", "b13", "c13"], ByLen2Patterns[3]);
  }

  lemma ByLen2Rule4()
    ensures CompileRule(ByLen2Rules[4], '/', Defaults.reader.PlaceholderRegexp(), 10) == Success(ByLen2Patterns[4])
  {
    assert Cardinality.PlaceholderRegexp(":AA");
    assert ByLen2Patterns[4].parts[0].isPlaceholder;
    CompileDefault("/:AA/b14", [":AA", "b14"], ByLen2Patterns[4]);
  }

  lemma ByLen2Rule5()
    ensures CompileRule(ByLen2Rules[5], '/', Defaults.reader.PlaceholderRegexp(), 10) == Success(ByLen2Patterns[5])
  {
    assert Cardinality.PlaceholderRegexp(":AA");
    assert ByLen2Patterns[5].parts[0].isPlaceholder;
    CompileDefault("/:AA", [":AA"], ByLen2Patterns[5]);
  }

  /** The rules of this set are all accepted, in order. */
  lemma ByLen2RulesCompile()
    ensures Compile(ByLen2Rules, Defaults) == Success(ByLen2Patterns)
  {
    var isPh := Defaults.reader.PlaceholderRegexp();
    forall k | 0 <= k < 6 ensures CompileRule(ByLen2Rules[k], '/', isPh, 10) == Success(ByLen2Patterns[k]) {
      if k == 0 { ByLen2Rule0(); } else if k == 1 { ByLen2Rule1(); } else if k == 2 { ByLen2Rule2(); } else if k == 3 { ByLen2Rule3(); } else if k == 4 { ByLen2Rule4(); } else { ByLen2Rule5(); }
    }
    CompileAll(ByLen2Rules, ByLen2Patterns);
  }

  lemma ByLen2A13On0()
    ensures ExecSegments(ByLen2Patterns[0], ["a13", "b13", "c13"], '/', true) == NoMatch
  {
    var segs := ["a13", "b13", "c13"];
    var pat := ByLen2Patterns[0];
    assert pat == Pattern([Lit("a10"), Ph(":BB"), Lit("c10")], 0);
    assert segs[0] != pat.parts[0].value;
  }

  lemma ByLen2A13On1()
    ensures ExecSegments(ByLen2Patterns[1], ["a13", "b13", "c13"], '/', true) == NoMatch
  {
    var segs := ["a13", "b13", "c13"];
    var pat := ByLen2Patterns[1];
    assert pat == Pattern([Lit("a11"), Lit("b11"), Ph(":CC")], 0);
    assert segs[0] != pat.parts[0].value;
  }

  lemma ByLen2A13On2()
    ensures ExecSegments(ByLen2Patterns[2], ["a13", "b13", "c13"], '/', true) == NoMatch
  {
    var segs := ["a13", "b13", "c13"];
    var pat := ByLen2Patterns[2];
    assert pat == Pattern([Lit("a12"), Ph(":BB")], 0);
    assert FindAnchor(segs, pat.parts, 0, 0) == None;
  }

  lemma ByLen2A13On3()
    ensures ExecSegments(ByLen2Patterns[3], ["a13", "b13", "c13"], '/', true) == Matched("/:AA/b13/c13")
  {
    var segs := ["a13", "b13", "c13"];
    var pat := ByLen2Patterns[3];
    assert pat == Pattern([Ph(":AA"), Lit("b13"), Lit("c13")], 1);
    forall k | 0 <= k < 3 && !pat.parts[k].isPlaceholder ensures segs[k] == pat.parts[k].value {
      if k == 0 {} else if k == 1 {} else {}
    }
    EqualMatchCollapsesToRule(segs, pat.parts, '/', true);
    assert Values(pat.parts) == [":AA", "b13", "c13"];
    ByLen2A13Text();
  }

  lemma ByLen2A13Text()
    ensures Serialize([":AA", "b13", "c13"], '/', true) == "/:AA/b13/c13"
  {
    Join3(":AA", "b13", "c13", '/');
  }

  /** `/a13/b13/c13` becomes `/:AA/b13/c13`. */
  lemma ByLen2A13(path: string)
    requires UrlParts(path, '/') == ["a13", "b13", "c13"]
    ensures ReplaceSpec(ByLen2Patterns, path, '/', true) == Replaced("/:AA/b13/c13")
  {
    var segs := ["a13", "b13", "c13"];
    forall x | 0 <= x < 3 ensures ExecSegments(ByLen2Patterns[x], segs, '/', true) == NoMatch {
      if x == 0 { ByLen2A13On0(); } else if x == 1 { ByLen2A13On1(); } else { ByLen2A13On2(); }
    }
    ByLen2A13On3();
    FirstMatchOnSegments(ByLen2Patterns, path, segs, 3, "/:AA/b13/c13");
  }

  // ----- TestBreakRule (cardinality/rules/replace_test.go:160-174): a differing literal keeps the path. -----

  const BreakRules: seq<string> := ["/:AA/b01/:DD/e01"]

  const BreakPatterns: seq<Pattern> := [
    Pattern([Ph(":AA"), Lit("b01"), Ph(":DD"), Lit("e01")], 1)]

  lemma BreakRule0()
    ensures CompileRule(BreakRules[0], '/', Defaults.reader.PlaceholderRegexp(), 10) == Success(BreakPatterns[0])
  {
    assert Cardinality.PlaceholderRegexp(":AA");
    assert Cardinality.PlaceholderRegexp(":DD");
    assert BreakPatterns[0].parts[0].isPlaceholder;
    CompileDefault("/:AA/b01/:DD/e01", [":AA", "b01", ":DD", "e01"], BreakPatterns[0]);
  }

  /** The rules of this set are all accepted, in order. */
  lemma BreakRulesCompile()
    ensures Compile(BreakRules, Defaults) == Success(BreakPatterns)
  {
    var isPh := Defaults.reader.PlaceholderRegexp();
    forall k | 0 <= k < 1 ensures CompileRule(BreakRules[k], '/', isPh, 10) == Success(BreakPatterns[k]) {
      BreakRule0();
    }
    CompileAll(BreakRules, BreakPatterns);
  }

  lemma BreakA01On0()
    ensures ExecSegments(BreakPatterns[0], ["a01", "b01", "c01", "d01"], '/', true) == NoMatch
  {
    var segs := ["a01", "b01", "c01", "d01"];
    var pat := BreakPatterns[0];
    assert pat == Pattern([Ph(":AA"), Lit("b01"), Ph(":DD"), Lit("e01")], 1);
    assert segs[3] != pat.parts[3].value;
  }

  /** `/a01/b01/c01/d01` (and any path with the same segments) matches no rule and is kept. */
  lemma BreakA01(path: string)
    requires UrlParts(path, '/') == ["a01", "b01", "c01", "d01"]
    ensures ReplaceSpec(BreakPatterns, path, '/', true) == Replaced(path)
  {
    var segs := ["a01", "b01", "c01", "d01"];
    forall x | 0 <= x < 1 ensures ExecSegments(BreakPatterns[x], segs, '/', true) == NoMatch {
      BreakA01On0();
    }
    assert |BreakPatterns| == 1;
    NoMatchOnSegments(BreakPatterns, path, segs);
  }

  // ----- TestInvalidRules (cardinality/rules/replace_test.go:84-110) -----

  /** A one-rule list compiles exactly as its rule does. */
  lemma CompileSingle(rule: string)
    ensures Compile([rule], Defaults) ==
      match CompileRule(rule, '/', Defaults.reader.PlaceholderRegexp(), Defaults.maxSeparatorCount)
      case Success(p) => Success([p])
      case Failure(e) => Failure(e)
  {
    CardinalityConfig.DefaultConfigValues();
    var isPh := Defaults.reader.PlaceholderRegexp();
    assert [rule][1..] == [];
    match CompileRule(rule, '/', isPh, 10)
    case Success(p) =>
      assert Prepare([rule], '/', isPh, 10) == Prepared([p], None);
    case Failure(e) =>
      assert Prepare([rule], '/', isPh, 10) == Prepared([], Some(e));
  }

  /** No rules at all is accepted; so are the empty list and a missing one. */
  lemma NoRulesAccepted()
    ensures Compile([], Defaults) == Success([])
  {
  }

  /** A rule that is empty, or only separators, has one empty segment and no placeholder. */
  lemma EmptyRulesRejected()
    ensures Compile([""], Defaults) == Failure(RuleWithoutPlaceholder)
    ensures Compile(["/"], Defaults) == Failure(RuleWithoutPlaceholder)
    ensures Compile(["//"], Defaults) == Failure(RuleWithoutPlaceholder)
  {
    var isPh := Defaults.reader.PlaceholderRegexp();
    assert RuleSegments("", '/') == [""];
    assert ToParts([""], isPh) == [Part(false, "")];
    CompileSingle("");
    TrimLeftCons("", '/');
    assert "/" == ['/'] + "";
    assert RuleSegments("/", '/') == [""];
    CompileSingle("/");
    TrimLeftCons("/", '/');
    assert "//" == ['/'] + "/";
    assert RuleSegments("//", '/') == [""];
    CompileSingle("//");
  }

  /** A rule without a placeholder is redundant and rejected. */
  lemma LiteralRuleRejected()
    ensures Compile(["/main"], Defaults) == Failure(RuleWithoutPlaceholder)
  {
    assert "/main" == "/" + Join(["main"], '/');
    RuleOf("/main", ["main"]);
    CompileSingle("/main");
  }

  /** `strings.Repeat(s, n)`. */
  function Repeat(s: string, n: nat): string {
    if n == 0 then "" else s + Repeat(s, n - 1)
  }

  lemma {:induction false} RepeatedSegments(n: nat)
    requires n >= 1
    ensures Split(":x" + Repeat("/:x", n - 1), '/') == seq(n, _ => ":x")
  {
    if n == 1 {
      assert ":x" + Repeat("/:x", 0) == ":x";
      SplitNoSeparator(":x", '/');
    } else {
      RepeatedSegments(n - 1);
      assert ":x" + Repeat("/:x", n - 1) == ":x" + "/" + (":x" + Repeat("/:x", n - 2));
      SplitCons(":x", '/', ":x" + Repeat("/:x", n - 2));
      assert [":x"] + seq(n - 1, _ => ":x") == seq(n, _ => ":x");
    }
  }

  /** `strings.Repeat("/:x", n)` has `n` segments, so from `DefaultMaxSeparatorCount` on it is too long. */
  lemma LongRuleRejected(n: nat)
    requires n >= RulesConfig.DefaultMaxSeparatorCount
    ensures Compile([Repeat("/:x", n)], Defaults) == Failure(RuleTooLong)
  {
    var r := Repeat("/:x", n);
    assert r == "/" + (":x" + Repeat("/:x", n - 1));
    assert HasPrefix(r, "/");
    TrimLeftCons(":x" + Repeat("/:x", n - 1), '/');
    assert r == ['/'] + (":x" + Repeat("/:x", n - 1));
    RepeatedSegments(n);
    assert |RuleSegments(r, '/')| == n;
    CompileSingle(r);
  }

  /** `DefaultMaxRuleCount` rules are already too many, whatever they are. */
  lemma TooManyRulesRejected(rules: seq<string>)
    requires |rules| == RulesConfig.DefaultMaxRuleCount
    ensures Compile(rules, Defaults) == Failure(TooManyRules)
  {
  }

  // ----- The partial match as written (cardinality/rules/replace.go:143-171) -----

  const WindowPattern := Pattern([Ph(":A"), Lit("x"), Ph(":B")], 1)

  lemma WindowRuleCompiles()
    ensures CompileRule("/:A/x/:B", '/', Defaults.reader.PlaceholderRegexp(), 10) == Success(WindowPattern)
  {
    assert Cardinality.PlaceholderRegexp(":A");
    assert Cardinality.PlaceholderRegexp(":B");
    assert WindowPattern.parts[0].isPlaceholder;
    CompileDefault("/:A/x/:B", [":A", "x", ":B"], WindowPattern);
  }

  /** The placeholder after the anchor lands one segment too far right: `/p/x/q/r`
      becomes `/:A/x/q/:B`, where the rule laid over the path gives `/:A/x/:B/r`. */
  lemma RightPlaceholderMisplaced()
    ensures ExecSegments(WindowPattern, ["p", "x", "q", "r"], '/', true) == Matched("/:A/x/q/:B")
    ensures ExecSegmentsIntended(WindowPattern, ["p", "x", "q", "r"], '/', true) == Matched("/:A/x/:B/r")
  {
    var segs := ["p", "x", "q", "r"];
    assert FindAnchor(segs, WindowPattern.parts, 1, 1) == Some((1, 1));
    assert AsWrittenImage(segs, WindowPattern.parts, 1, 1) == [":A", "x", "q", ":B"];
    Join4(":A", "x", "q", ":B", '/');
    assert LaidOver(segs, WindowPattern.parts, 0) == [":A", "x", ":B", "r"];
    Join4(":A", "x", ":B", "r", '/');
  }

  /** With the anchor one segment further right the same write leaves the path:
      `/p/q/x/r` panics, where the rule laid over the path gives `/p/:A/x/:B`. */
  lemma RightPlaceholderPanics()
    ensures ExecSegments(WindowPattern, ["p", "q", "x", "r"], '/', true) == IndexPanic
    ensures ExecSegmentsIntended(WindowPattern, ["p", "q", "x", "r"], '/', true) == Matched("/p/:A/x/:B")
  {
    var segs := ["p", "q", "x", "r"];
    assert FindAnchor(segs, WindowPattern.parts, 1, 1) == Some((1, 2));
    assert LaidOver(segs, WindowPattern.parts, 1) == ["p", ":A", "x", ":B"];
    Join4("p", ":A", "x", ":B", '/');
  }

  const LeftPattern := Pattern([Ph(":X"), Lit("a"), Ph(":Y"), Lit("b")], 1)

  lemma LeftRuleCompiles()
    ensures CompileRule("/:X/a/:Y/b", '/', Defaults.reader.PlaceholderRegexp(), 10) == Success(LeftPattern)
  {
    assert Cardinality.PlaceholderRegexp(":X");
    assert Cardinality.PlaceholderRegexp(":Y");
    assert LeftPattern.parts[0].isPlaceholder;
    CompileDefault("/:X/a/:Y/b", [":X", "a", ":Y", "b"], LeftPattern);
  }

  /** An anchor found left of its own position in the rule makes the first write go to a
      negative index: `/z/b/w/v/u` panics, where a rule that cannot be laid over the path
      simply does not match. */
  lemma LeftPlaceholderPanics()
    ensures ExecSegments(LeftPattern, ["z", "b", "w", "v", "u"], '/', true) == IndexPanic
    ensures ExecSegmentsIntended(LeftPattern, ["z", "b", "w", "v", "u"], '/', true) == NoMatch
  {
    var segs := ["z", "b", "w", "v", "u"];
    assert FindAnchor(segs, LeftPattern.parts, 1, 2) == Some((3, 1));
    assert FindAnchor(segs, LeftPattern.parts, 1, 1) == Some((3, 1));
  }
}
