/** The oldest rule grouper of the HTTP middleware (middleware/http/cardinality.go):
    rules are compiled and checked, but the per-rule step `applyFn` never modifies the
    path, so the grouper it builds is the identity. */
module HttpLegacyRules {
  import opened GoStrings
  import opened Results
  import Cardinality

  datatype Part = Part(isPlaceholder: bool, value: string)

  /** `pipe`: the compiled rule and the index of its first placeholder. */
  datatype Pipe = Pipe(parts: seq<Part>, skip: nat)

  datatype Error =
    | TooManyRules           // "using too large a list of rules slows down processing"
    | ConditionTooLarge      // "using too large condition slows down processing"
    | ConditionNotPrecise    // "the condition is not precise enough. (min.len:2)"
    | ConditionWithoutPlaceholder

  const MaxRuleCount := 100
  const MaxRuleParts := 10

  /** The segments of a rule: leading slashes dropped, then split on `/`. */
  function RuleSegments(rule: string): seq<string> {
    Split(TrimLeft(rule, '/'), '/')
  }

  function ToParts(segs: seq<string>): (parts: seq<Part>)
    ensures |parts| == |segs|
    ensures forall k :: 0 <= k < |segs| ==>
      parts[k] == Part(Cardinality.PlaceholderRegexp(segs[k]), segs[k])
  {
    seq(|segs|, k requires 0 <= k < |segs| => Part(Cardinality.PlaceholderRegexp(segs[k]), segs[k]))
  }

  /** Index of the first placeholder, or `|parts|` when there is none. */
  function FirstPlaceholder(parts: seq<Part>): (k: nat)
    ensures k <= |parts|
    ensures forall x :: 0 <= x < k ==> !parts[x].isPlaceholder
    ensures k < |parts| ==> parts[k].isPlaceholder
  {
    if |parts| == 0 then 0
    else if parts[0].isPlaceholder then 0
    else 1 + FirstPlaceholder(parts[1..])
  }

  /** One rule of `rules2Pipe`: more than ten segments, fewer than two, or no
      placeholder is an error. */
  function CompileRule(rule: string): Result<Pipe, Error> {
    var segs := RuleSegments(rule);
    if |segs| > MaxRuleParts then Failure(ConditionTooLarge)
    else if |segs| < 2 then Failure(ConditionNotPrecise)
    else
      var parts := ToParts(segs);
      var k := FirstPlaceholder(parts);
      if k == |parts| then Failure(ConditionWithoutPlaceholder)
      else Success(Pipe(parts, k))
  }

  /** `rules2Pipe`: the rules compiled in order; the first failing rule decides. */
  function Rules2PipeSpec(rules: seq<string>): Result<seq<Pipe>, Error>
    decreases |rules|
  {
    if |rules| == 0 then Success([])
    else match CompileRule(rules[0])
      case Failure(e) => Failure(e)
      case Success(p) =>
        match Rules2PipeSpec(rules[1..])
        case Failure(e) => Failure(e)
        case Success(ps) => Success([p] + ps)
  }

  /** The inner loop of `rules2Pipe`: one part per segment, and the position of the
      first placeholder if there is one. */
  method RuleParts(pathParts: seq<string>) returns (parts: seq<Part>, placeholderPos: Option<nat>)
    ensures parts == ToParts(pathParts)
    ensures placeholderPos == if FirstPlaceholder(parts) < |parts| then Some(FirstPlaceholder(parts)) else None
  {
    parts := [];
    placeholderPos := None;
    var j := 0;
    while j < |pathParts|
      invariant 0 <= j <= |pathParts|
      invariant parts == ToParts(pathParts[..j])
      invariant placeholderPos == if FirstPlaceholder(parts) < j then Some(FirstPlaceholder(parts)) else None
    {
      var placeholderMatch := Cardinality.PlaceholderRegexp(pathParts[j]);
      if placeholderMatch && placeholderPos.None? {
        placeholderPos := Some(j);
      }
      FirstPlaceholderSnoc(parts, Part(placeholderMatch, pathParts[j]));
      parts := parts + [Part(placeholderMatch, pathParts[j])];
      assert pathParts[..j + 1] == pathParts[..j] + [pathParts[j]];
      j := j + 1;
    }
    assert pathParts[..j] == pathParts;
  }

  /** The body of `rules2Pipe` for one rule: the segment-count checks, then the parts. */
  method CompileOne(val: string) returns (r: Result<Pipe, Error>)
    ensures r == CompileRule(val)
  {
    var pathParts := RuleSegments(val);
    var pLen := |pathParts|;
    if pLen > MaxRuleParts {
      return Failure(ConditionTooLarge);
    }
    if pLen < 2 {
      return Failure(ConditionNotPrecise);
    }
    var parts, placeholderPos := RuleParts(pathParts);
    if placeholderPos.None? {
      return Failure(ConditionWithoutPlaceholder);
    }
    r := Success(Pipe(parts, placeholderPos.value));
  }

  /** `rules2Pipe`: appends one pipe per rule, returning on the first bad rule. */
  method Rules2Pipe(rules: seq<string>) returns (r: Result<seq<Pipe>, Error>)
    ensures r == Rules2PipeSpec(rules)
  {
    var mutates: seq<Pipe> := [];
    var i := 0;
    Rules2PipeStart(rules);
    while i < |rules|
      invariant 0 <= i <= |rules|
      invariant Rules2PipeSoFar(rules, i, mutates)
    {
      var one := CompileOne(rules[i]);
      Rules2PipeStep(rules, i, mutates);
      if one.Failure? {
        return Failure(one.error);
      }
      mutates := mutates + [one.value];
      i := i + 1;
    }
    assert rules[i..] == [] && mutates + [] == mutates;
    r := Success(mutates);
  }

  /** After `i` rules, `mutates` holds their pipes: the outcome over all rules is the
      outcome over the rest, with `mutates` in front of its pipes. */
  predicate Rules2PipeSoFar(rules: seq<string>, i: nat, mutates: seq<Pipe>)
    requires i <= |rules|
  {
    && (Rules2PipeSpec(rules[i..]).Failure? ==> Rules2PipeSpec(rules) == Rules2PipeSpec(rules[i..]))
    && (Rules2PipeSpec(rules[i..]).Success? ==> Rules2PipeSpec(rules) == Success(mutates + Rules2PipeSpec(rules[i..]).value))
  }

  lemma Rules2PipeStart(rules: seq<string>)
    ensures Rules2PipeSoFar(rules, 0, [])
  {
    assert rules[0..] == rules;
    assert Rules2PipeSpec(rules).Success? ==> [] + Rules2PipeSpec(rules).value == Rules2PipeSpec(rules).value;
  }

  /** One turn of the loop: a bad rule decides the outcome, a good one moves its pipe
      into `mutates`. */
  lemma Rules2PipeStep(rules: seq<string>, i: nat, mutates: seq<Pipe>)
    requires i < |rules| && Rules2PipeSoFar(rules, i, mutates)
    ensures CompileRule(rules[i]).Failure? ==> Rules2PipeSpec(rules) == Failure(CompileRule(rules[i]).error)
    ensures CompileRule(rules[i]).Success? ==> Rules2PipeSoFar(rules, i + 1, mutates + [CompileRule(rules[i]).value])
  {
    assert rules[i..][0] == rules[i] && rules[i..][1..] == rules[i + 1..];
    if CompileRule(rules[i]).Success? {
      var m := CompileRule(rules[i]).value;
      var rest := Rules2PipeSpec(rules[i + 1..]);
      if rest.Success? {
        assert Rules2PipeSpec(rules[i..]) == Success([m] + rest.value);
        assert mutates + ([m] + rest.value) == (mutates + [m]) + rest.value;
      }
    }
  }


  /** `applyFn`: when the rule is longer than the path it returns the path; otherwise
      `isModified` is never set, so it returns the path as well. */
  function ApplyFn(m: Pipe, path: string): (r: string)
    ensures r == path
  {
    var pathParts := Split(TrimLeft(path, '/'), '/');
    if |m.parts| > |pathParts| then path
    else
      var isModified := false;
      if !isModified then path else "/" + Join(pathParts, '/')
  }

  /** The grouper `NewRulesGrouper` returns: the path through `applyFn` for every pipe. */
  method Group(pipeline: seq<Pipe>, path: string) returns (r: string)
    ensures r == path
  {
    r := path;
    var i := 0;
    while i < |pipeline|
      invariant 0 <= i <= |pipeline|
      invariant r == path
    {
      r := ApplyFn(pipeline[i], r);
      i := i + 1;
    }
  }

  /** `NewRulesGrouper`: at least a hundred rules, or a bad rule, is an error; the
      grouper is `Group` over the compiled pipeline. */
  method NewRulesGrouper(rules: seq<string>) returns (r: Result<seq<Pipe>, Error>)
    ensures |rules| >= MaxRuleCount ==> r == Failure(TooManyRules)
    ensures |rules| < MaxRuleCount ==> r == Rules2PipeSpec(rules)
  {
    if |rules| >= MaxRuleCount {
      return Failure(TooManyRules);
    }
    r := Rules2Pipe(rules);
  }

  // ----- Properties -----

  lemma {:induction false} FirstPlaceholderSnoc(parts: seq<Part>, p: Part)
    ensures FirstPlaceholder(parts + [p]) ==
      if FirstPlaceholder(parts) < |parts| then FirstPlaceholder(parts)
      else if p.isPlaceholder then |parts| else |parts| + 1
    decreases |parts|
  {
    if |parts| == 0 {
      assert [p][1..] == [];
    } else {
      assert (parts + [p])[1..] == parts[1..] + [p];
      FirstPlaceholderSnoc(parts[1..], p);
    }
  }

  /** A rule is rejected exactly when it has more than ten segments, fewer than two, or
      no segment of the form `:name`; an accepted rule keeps every segment, flagged by
      the recogniser, and `skip` is its first placeholder. */
  lemma CompileRuleOutcome(rule: string)
    ensures var segs := RuleSegments(rule);
      (CompileRule(rule) == Failure(ConditionTooLarge) <==> |segs| > MaxRuleParts) &&
      (CompileRule(rule) == Failure(ConditionNotPrecise) <==> |segs| < 2) &&
      (CompileRule(rule) == Failure(ConditionWithoutPlaceholder) <==>
        2 <= |segs| <= MaxRuleParts && forall k :: 0 <= k < |segs| ==> !Cardinality.PlaceholderRegexp(segs[k])) &&
      (CompileRule(rule).Success? ==>
        CompileRule(rule).value.parts == ToParts(segs) &&
        CompileRule(rule).value.parts[CompileRule(rule).value.skip].isPlaceholder &&
        forall k :: 0 <= k < CompileRule(rule).value.skip ==> !Cardinality.PlaceholderRegexp(segs[k]))
  {
    var segs := RuleSegments(rule);
    if 2 <= |segs| <= MaxRuleParts {
      var parts := ToParts(segs);
      if FirstPlaceholder(parts) < |parts| {
        assert parts[FirstPlaceholder(parts)].isPlaceholder;
      }
    }
  }

  /** `rules2Pipe` succeeds exactly when every rule compiles, with one pipe per rule in
      order; otherwise it fails with the error of the first rule that does not. */
  lemma Rules2PipeOutcome(rules: seq<string>)
    ensures Rules2PipeSpec(rules).Success? <==> forall k :: 0 <= k < |rules| ==> CompileRule(rules[k]).Success?
    ensures Rules2PipeSpec(rules).Success? ==>
      |Rules2PipeSpec(rules).value| == |rules| &&
      forall k :: 0 <= k < |rules| ==> Success(Rules2PipeSpec(rules).value[k]) == CompileRule(rules[k])
    ensures Rules2PipeSpec(rules).Failure? ==>
      exists k ::
        && 0 <= k < |rules|
        && (forall x :: 0 <= x < k ==> CompileRule(rules[x]).Success?)
        && CompileRule(rules[k]) == Failure(Rules2PipeSpec(rules).error)
  {
    Rules2PipeSucceeds(rules);
    Rules2PipeValues(rules);
    Rules2PipeFirstFailure(rules);
  }

  lemma {:induction false} Rules2PipeSucceeds(rules: seq<string>)
    ensures Rules2PipeSpec(rules).Success? <==> forall k :: 0 <= k < |rules| ==> CompileRule(rules[k]).Success?
    decreases |rules|
  {
    if |rules| > 0 {
      Rules2PipeSucceeds(rules[1..]);
      assert forall k :: 1 <= k < |rules| ==> rules[1..][k - 1] == rules[k];
    }
  }

  lemma {:induction false} Rules2PipeValues(rules: seq<string>)
    ensures Rules2PipeSpec(rules).Success? ==>
      |Rules2PipeSpec(rules).value| == |rules| &&
      forall k :: 0 <= k < |rules| ==> Success(Rules2PipeSpec(rules).value[k]) == CompileRule(rules[k])
    decreases |rules|
  {
    if |rules| > 0 && Rules2PipeSpec(rules).Success? {
      Rules2PipeValues(rules[1..]);
      var ps := Rules2PipeSpec(rules[1..]).value;
      assert Rules2PipeSpec(rules).value == [CompileRule(rules[0]).value] + ps;
      forall k | 1 <= k < |rules| ensures Success(Rules2PipeSpec(rules).value[k]) == CompileRule(rules[k]) {
        assert rules[1..][k - 1] == rules[k];
      }
    }
  }

  lemma {:induction false} Rules2PipeFirstFailure(rules: seq<string>)
    ensures Rules2PipeSpec(rules).Failure? ==>
      exists k ::
        && 0 <= k < |rules|
        && (forall x :: 0 <= x < k ==> CompileRule(rules[x]).Success?)
        && CompileRule(rules[k]) == Failure(Rules2PipeSpec(rules).error)
    decreases |rules|
  {
    if |rules| > 0 && Rules2PipeSpec(rules).Failure? {
      if CompileRule(rules[0]).Success? {
        Rules2PipeFirstFailure(rules[1..]);
        var k :| 0 <= k < |rules[1..]| && (forall x :: 0 <= x < k ==> CompileRule(rules[1..][x]).Success?) &&
          CompileRule(rules[1..][k]) == Failure(Rules2PipeSpec(rules[1..]).error);
        forall x | 0 <= x < k + 1 ensures CompileRule(rules[x]).Success? {
          if x > 0 { assert rules[x] == rules[1..][x - 1]; }
        }
        assert rules[k + 1] == rules[1..][k];
      } else {
        assert CompileRule(rules[0]) == Failure(Rules2PipeSpec(rules).error);
      }
    }
  }

}
