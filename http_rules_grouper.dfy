/** The rule grouper of the HTTP middleware (middleware/http/cardinality_rules.go):
    rules such as `/detail/:gameName` are compiled into pipes, and a path is rewritten
    by the first pipe whose literal segments agree with it position by position. */
module HttpRulesGrouper {
  import opened GoStrings
  import opened Results
  import Cardinality

  datatype Part = Part(isPlaceholder: bool, value: string)

  /** `pipe`: the compiled rule, the index of its first literal (`skip`, absent when
      every segment is a placeholder) and the index of its first placeholder. */
  datatype Pipe = Pipe(parts: seq<Part>, skip: Option<nat>, firstPlaceholder: nat)

  datatype Error =
    | EmptyRules                  // "redundant using empty list of rules"
    | TooManyRules                // "using too large a list of rules slows down processing"
    | ConditionTooLarge           // "using too large condition slows down processing"
    | ConditionWithoutPlaceholder // "the condition without placeholder"

  const MaxRuleCount := 100
  const MaxRulePartCount := 10

  /** `newStringList`: leading slashes dropped, then split on `/`. */
  function NewStringList(path: string): seq<string> {
    Split(TrimLeft(path, '/'), '/')
  }

  /** `stringList.serialize`: `/` and the segments joined by `/`. */
  function Serialize(list: seq<string>): (s: string)
    ensures |s| > 0 && s[0] == '/'
  {
    "/" + Join(list, '/')
  }

  function ToParts(segs: seq<string>): (parts: seq<Part>)
    ensures |parts| == |segs|
    ensures forall k :: 0 <= k < |segs| ==>
      parts[k] == Part(Cardinality.PlaceholderRegexp(segs[k]), segs[k])
  {
    seq(|segs|, k requires 0 <= k < |segs| => Part(Cardinality.PlaceholderRegexp(segs[k]), segs[k]))
  }

  /** The segments of a rule, as written. */
  function Values(parts: seq<Part>): (vs: seq<string>)
    ensures |vs| == |parts| && forall k :: 0 <= k < |parts| ==> vs[k] == parts[k].value
  {
    seq(|parts|, k requires 0 <= k < |parts| => parts[k].value)
  }

  /** Index of the first part whose placeholder flag is `flag`, or `|parts|`. */
  function FirstWith(parts: seq<Part>, flag: bool): (k: nat)
    ensures k <= |parts|
    ensures forall x :: 0 <= x < k ==> parts[x].isPlaceholder != flag
    ensures k < |parts| ==> parts[k].isPlaceholder == flag
  {
    if |parts| == 0 then 0
    else if parts[0].isPlaceholder == flag then 0
    else 1 + FirstWith(parts[1..], flag)
  }

  /** One rule of `rules2Pipe`: ten segments or more, or no placeholder, is an error. */
  function CompileRule(rule: string): Result<Pipe, Error> {
    var segs := NewStringList(rule);
    if |segs| >= MaxRulePartCount then Failure(ConditionTooLarge)
    else
      var parts := ToParts(segs);
      var ph := FirstWith(parts, true);
      var lit := FirstWith(parts, false);
      if ph == |parts| then Failure(ConditionWithoutPlaceholder)
      else Success(Pipe(parts, if lit < |parts| then Some(lit) else None, ph))
  }

  /** `rules2Pipe`: the rules compiled in order; the first failing rule decides. */
  function Rules2PipeSpec(rules: seq<string>): Result<seq<Pipe>, Error>
    decreases |rules|
  {
    if |rules| == 0 then Success([])
    else match CompileRule(rules[0])
      case Failure(e) => Failure(e)
      case Success(p) =>
        match Rules2PipeSpec(rules[1..])
        case Failure(e) => Failure(e)
        case Success(ps) => Success([p] + ps)
  }

  /** The inner loop of `rules2Pipe`: one part per segment, the position of the first
      literal and of the first placeholder. */
  method RuleParts(pathParts: seq<string>) returns (parts: seq<Part>, valuePos: Option<nat>, placeholderPos: Option<nat>)
    ensures parts == ToParts(pathParts)
    ensures valuePos == if FirstWith(parts, false) < |parts| then Some(FirstWith(parts, false)) else None
    ensures placeholderPos == if FirstWith(parts, true) < |parts| then Some(FirstWith(parts, true)) else None
  {
    parts := [];
    valuePos := None;
    placeholderPos := None;
    var i := 0;
    while i < |pathParts|
      invariant 0 <= i <= |pathParts|
      invariant parts == ToParts(pathParts[..i])
      invariant valuePos == if FirstWith(parts, false) < i then Some(FirstWith(parts, false)) else None
      invariant placeholderPos == if FirstWith(parts, true) < i then Some(FirstWith(parts, true)) else None
    {
      var placeholderMatch := Cardinality.PlaceholderRegexp(pathParts[i]);
      if !placeholderMatch && valuePos.None? {
        valuePos := Some(i);
      }
      if placeholderMatch && placeholderPos.None? {
        placeholderPos := Some(i);
      }
      var q := Part(placeholderMatch, pathParts[i]);
      FirstWithSnoc(parts, q, false);
      FirstWithSnoc(parts, q, true);
      parts := parts + [q];
      assert pathParts[..i + 1] == pathParts[..i] + [pathParts[i]];
      i := i + 1;
    }
    assert pathParts[..i] == pathParts;
  }

  /** The body of `rules2Pipe` for one rule. */
  method CompileOne(val: string) returns (r: Result<Pipe, Error>)
    ensures r == CompileRule(val)
  {
    var pathParts := NewStringList(val);
    var pLen := |pathParts|;
    if pLen >= MaxRulePartCount {
      return Failure(ConditionTooLarge);
    }
    var parts, valuePos, placeholderPos := RuleParts(pathParts);
    if placeholderPos.None? {
      return Failure(ConditionWithoutPlaceholder);
    }
    r := Success(Pipe(parts, valuePos, placeholderPos.value));
  }

  /** `rules2Pipe`: appends one pipe per rule, returning on the first bad rule. */
  method Rules2Pipe(rules: seq<string>) returns (r: Result<seq<Pipe>, Error>)
    ensures r == Rules2PipeSpec(rules)
  {
    var mutates: seq<Pipe> := [];
    var i := 0;
    Rules2PipeStart(rules);
    while i < |rules|
      invariant 0 <= i <= |rules|
      invariant Rules2PipeSoFar(rules, i, mutates)
    {
      var one := CompileOne(rules[i]);
      Rules2PipeStep(rules, i, mutates);
      if one.Failure? {
        return Failure(one.error);
      }
      mutates := mutates + [one.value];
      i := i + 1;
    }
    assert rules[i..] == [] && mutates + [] == mutates;
    r := Success(mutates);
  }

  /** After `i` rules, `mutates` holds their pipes: the outcome over all rules is the
      outcome over the rest, with `mutates` in front of its pipes. */
  predicate Rules2PipeSoFar(rules: seq<string>, i: nat, mutates: seq<Pipe>)
    requires i <= |rules|
  {
    && (Rules2PipeSpec(rules[i..]).Failure? ==> Rules2PipeSpec(rules) == Rules2PipeSpec(rules[i..]))
    && (Rules2PipeSpec(rules[i..]).Success? ==> Rules2PipeSpec(rules) == Success(mutates + Rules2PipeSpec(rules[i..]).value))
  }

  lemma Rules2PipeStart(rules: seq<string>)
    ensures Rules2PipeSoFar(rules, 0, [])
  {
    assert rules[0..] == rules;
    assert Rules2PipeSpec(rules).Success? ==> [] + Rules2PipeSpec(rules).value == Rules2PipeSpec(rules).value;
  }

  /** One turn of the loop: a bad rule decides the outcome, a good one moves its pipe
      into `mutates`. */
  lemma Rules2PipeStep(rules: seq<string>, i: nat, mutates: seq<Pipe>)
    requires i < |rules| && Rules2PipeSoFar(rules, i, mutates)
    ensures CompileRule(rules[i]).Failure? ==> Rules2PipeSpec(rules) == Failure(CompileRule(rules[i]).error)
    ensures CompileRule(rules[i]).Success? ==> Rules2PipeSoFar(rules, i + 1, mutates + [CompileRule(rules[i]).value])
  {
    assert rules[i..][0] == rules[i] && rules[i..][1..] == rules[i + 1..];
    if CompileRule(rules[i]).Success? {
      var m := CompileRule(rules[i]).value;
      var rest := Rules2PipeSpec(rules[i + 1..]);
      if rest.Success? {
        assert Rules2PipeSpec(rules[i..]) == Success([m] + rest.value);
        assert mutates + ([m] + rest.value) == (mutates + [m]) + rest.value;
      }
    }
  }


  /** `NewRulesGrouper`: an empty list, a hundred rules or more, or a bad rule is an
      error; the grouper it returns is `Group` over the compiled pipeline. */
  method NewRulesGrouper(rules: seq<string>) returns (r: Result<seq<Pipe>, Error>)
    ensures |rules| == 0 ==> r == Failure(EmptyRules)
    ensures |rules| >= MaxRuleCount ==> r == Failure(TooManyRules)
    ensures 0 < |rules| < MaxRuleCount ==> r == Rules2PipeSpec(rules)
  {
    if |rules| == 0 {
      return Failure(EmptyRules);
    }
    if |rules| >= MaxRuleCount {
      return Failure(TooManyRules);
    }
    r := Rules2Pipe(rules);
  }

  // ----- Applying one pipe -----

  /** The path segments with the placeholders of `parts` written over their positions. */
  function Overlay(segs: seq<string>, parts: seq<Part>): (out: seq<string>)
    ensures |out| == |segs|
  {
    seq(|segs|, k requires 0 <= k < |segs| =>
      if k < |parts| && parts[k].isPlaceholder then parts[k].value else segs[k])
  }

  /** The path is at least as long as the rule and every literal of the rule equals the
      path segment at the same position. */
  predicate Fits(segs: seq<string>, parts: seq<Part>) {
    |parts| <= |segs| &&
    forall k :: 0 <= k < |parts| && !parts[k].isPlaceholder ==> segs[k] == parts[k].value
  }

  /** What `applyPipe` returns. */
  function ApplyPipeSpec(m: Pipe, path: string): (string, bool) {
    var segs := NewStringList(path);
    if Fits(segs, m.parts) then (Serialize(Overlay(segs, m.parts)), true) else (path, false)
  }

  /** `applyPipe`: copies the path segments into an array, then walks the rule; a
      placeholder is written over the segment at its position, a literal is compared
      with the segment at position `skipped`, which is always the rule position. */
  method ApplyPipe(m: Pipe, path: string) returns (r: string, ok: bool)
    ensures (r, ok) == ApplyPipeSpec(m, path)
  {
    var segs := NewStringList(path);
    var urlParts := new string[|segs|](k requires 0 <= k < |segs| => segs[k]);
    var urlPartCount := urlParts.Length;
    var patternPartCount := |m.parts|;
    if urlPartCount < patternPartCount {
      return path, false;
    }
    var startCompareFlag := false;
    var skipped := 0;
    var p := 0;
    while p < patternPartCount
      invariant 0 <= p <= patternPartCount
      invariant skipped == p
      invariant urlParts[..] == Overlay(segs, m.parts[..p])
      invariant Fits(segs, m.parts[..p])
    {
      if m.parts[p].isPlaceholder {
        skipped := skipped + 1;
        urlParts[p] := m.parts[p].value;
        assert m.parts[..p + 1] == m.parts[..p] + [m.parts[p]];
        p := p + 1;
        continue;
      }
      // The inner `for u := skipped` loop either breaks or returns in its first
      // iteration, and `skipped < urlPartCount` holds here, so it runs exactly once.
      var u := skipped;
      if urlParts[u] == m.parts[p].value {
        if !startCompareFlag {
          startCompareFlag := true;
        }
        skipped := skipped + 1;
      } else {
        assert !Fits(segs, m.parts);
        return path, false;
      }
      assert m.parts[..p + 1] == m.parts[..p] + [m.parts[p]];
      p := p + 1;
    }
    assert m.parts[..p] == m.parts;
    r := Serialize(urlParts[..]);
    ok := true;
  }

  // ----- The grouper -----

  /** What the grouper returns: the output of the first pipe that applies, else the path. */
  function GroupSpec(pipeline: seq<Pipe>, path: string): string
    decreases |pipeline|
  {
    if |pipeline| == 0 then path
    else
      var (nv, state) := ApplyPipeSpec(pipeline[0], path);
      if state then nv else GroupSpec(pipeline[1..], path)
  }

  /** The closure `NewRulesGrouper` returns: the pipes in order, stopping at the first
      that applies. */
  method Group(pipeline: seq<Pipe>, path: string) returns (r: string)
    ensures r == GroupSpec(pipeline, path)
  {
    var i := 0;
    while i < |pipeline|
      invariant 0 <= i <= |pipeline|
      invariant GroupSpec(pipeline, path) == GroupSpec(pipeline[i..], path)
    {
      assert pipeline[i..][0] == pipeline[i] && pipeline[i..][1..] == pipeline[i + 1..];
      var nv, state := ApplyPipe(pipeline[i], path);
      if state {
        return nv;
      }
      i := i + 1;
    }
    r := path;
  }

  /** The grouper as a path rewriter. */
  function Grouper(pipeline: seq<Pipe>): (g: Cardinality.Replacer)
    ensures forall path :: g(path) == GroupSpec(pipeline, path)
  {
    path => GroupSpec(pipeline, path)
  }

  // ----- Properties -----

  lemma {:induction false} FirstWithSnoc(parts: seq<Part>, q: Part, flag: bool)
    ensures FirstWith(parts + [q], flag) ==
      if FirstWith(parts, flag) < |parts| then FirstWith(parts, flag)
      else if q.isPlaceholder == flag then |parts| else |parts| + 1
    decreases |parts|
  {
    if |parts| == 0 {
      assert [q][1..] == [];
    } else {
      assert (parts + [q])[1..] == parts[1..] + [q];
      FirstWithSnoc(parts[1..], q, flag);
    }
  }

  /** A rule is rejected exactly when it has ten segments or more, or no segment of the
      form `:name`; an accepted rule keeps every segment, `skip` is its first literal
      (absent when there is none) and `firstPlaceholder` its first placeholder. */
  lemma CompileRuleOutcome(rule: string)
    ensures var segs := NewStringList(rule);
      (CompileRule(rule) == Failure(ConditionTooLarge) <==> |segs| >= MaxRulePartCount) &&
      (CompileRule(rule) == Failure(ConditionWithoutPlaceholder) <==>
        |segs| < MaxRulePartCount && forall k :: 0 <= k < |segs| ==> !Cardinality.PlaceholderRegexp(segs[k]))
    ensures var segs := NewStringList(rule);
      CompileRule(rule).Success? ==>
        var m := CompileRule(rule).value;
        && Values(m.parts) == segs
        && (forall k :: 0 <= k < |segs| ==> m.parts[k].isPlaceholder == Cardinality.PlaceholderRegexp(segs[k]))
        && m.firstPlaceholder < |segs| && Cardinality.PlaceholderRegexp(segs[m.firstPlaceholder])
        && (forall k :: 0 <= k < m.firstPlaceholder ==> !Cardinality.PlaceholderRegexp(segs[k]))
        && (m.skip.Some? ==> m.skip.value < |segs| && !Cardinality.PlaceholderRegexp(segs[m.skip.value]))
        && (forall k :: 0 <= k < |segs| && (m.skip.None? || k < m.skip.value) ==> Cardinality.PlaceholderRegexp(segs[k]))
  {
    var segs := NewStringList(rule);
    if |segs| < MaxRulePartCount {
      var parts := ToParts(segs);
      if FirstWith(parts, true) < |parts| {
        assert parts[FirstWith(parts, true)].isPlaceholder;
      }
      if FirstWith(parts, false) < |parts| {
        assert !parts[FirstWith(parts, false)].isPlaceholder;
      }
      assert Values(parts) == segs;
    }
  }

  /** `rules2Pipe` succeeds exactly when every rule compiles, with one pipe per rule in
      order; otherwise it fails with the error of the first rule that does not. */
  lemma Rules2PipeOutcome(rules: seq<string>)
    ensures Rules2PipeSpec(rules).Success? <==> forall k :: 0 <= k < |rules| ==> CompileRule(rules[k]).Success?
    ensures Rules2PipeSpec(rules).Success? ==>
      |Rules2PipeSpec(rules).value| == |rules| &&
      forall k :: 0 <= k < |rules| ==> Success(Rules2PipeSpec(rules).value[k]) == CompileRule(rules[k])
    ensures Rules2PipeSpec(rules).Failure? ==>
      exists k ::
        && 0 <= k < |rules|
        && (forall x :: 0 <= x < k ==> CompileRule(rules[x]).Success?)
        && CompileRule(rules[k]) == Failure(Rules2PipeSpec(rules).error)
  {
    Rules2PipeSucceeds(rules);
    Rules2PipeValues(rules);
    Rules2PipeFirstFailure(rules);
  }

  lemma {:induction false} Rules2PipeSucceeds(rules: seq<string>)
    ensures Rules2PipeSpec(rules).Success? <==> forall k :: 0 <= k < |rules| ==> CompileRule(rules[k]).Success?
    decreases |rules|
  {
    if |rules| > 0 {
      Rules2PipeSucceeds(rules[1..]);
      assert forall k :: 1 <= k < |rules| ==> rules[1..][k - 1] == rules[k];
    }
  }

  lemma {:induction false} Rules2PipeValues(rules: seq<string>)
    ensures Rules2PipeSpec(rules).Success? ==>
      |Rules2PipeSpec(rules).value| == |rules| &&
      forall k :: 0 <= k < |rules| ==> Success(Rules2PipeSpec(rules).value[k]) == CompileRule(rules[k])
    decreases |rules|
  {
    if |rules| > 0 && Rules2PipeSpec(rules).Success? {
      Rules2PipeValues(rules[1..]);
      var ps := Rules2PipeSpec(rules[1..]).value;
      assert Rules2PipeSpec(rules).value == [CompileRule(rules[0]).value] + ps;
      forall k | 1 <= k < |rules| ensures Success(Rules2PipeSpec(rules).value[k]) == CompileRule(rules[k]) {
        assert rules[1..][k - 1] == rules[k];
      }
    }
  }

  lemma {:induction false} Rules2PipeFirstFailure(rules: seq<string>)
    ensures Rules2PipeSpec(rules).Failure? ==>
      exists k ::
        && 0 <= k < |rules|
        && (forall x :: 0 <= x < k ==> CompileRule(rules[x]).Success?)
        && CompileRule(rules[k]) == Failure(Rules2PipeSpec(rules).error)
    decreases |rules|
  {
    if |rules| > 0 && Rules2PipeSpec(rules).Failure? {
      if CompileRule(rules[0]).Success? {
        Rules2PipeFirstFailure(rules[1..]);
        var k :| 0 <= k < |rules[1..]| && (forall x :: 0 <= x < k ==> CompileRule(rules[1..][x]).Success?) &&
          CompileRule(rules[1..][k]) == Failure(Rules2PipeSpec(rules[1..]).error);
        forall x | 0 <= x < k + 1 ensures CompileRule(rules[x]).Success? {
          if x > 0 { assert rules[x] == rules[1..][x - 1]; }
        }
        assert rules[k + 1] == rules[1..][k];
      } else {
        assert CompileRule(rules[0]) == Failure(Rules2PipeSpec(rules).error);
      }
    }
  }


  /** A pipe applies exactly when the path has at least as many segments as the rule and
      every literal of the rule equals the path segment at its position. Then the output
      is `/`, the rule as written, and the path's remaining segments; otherwise the path
      comes back unchanged. */
  lemma ApplyPipeOutcome(m: Pipe, path: string)
    ensures var segs := NewStringList(path);
      ApplyPipeSpec(m, path).1 <==>
        |m.parts| <= |segs| && forall k :: 0 <= k < |m.parts| && !m.parts[k].isPlaceholder ==> segs[k] == m.parts[k].value
    ensures var segs := NewStringList(path);
      ApplyPipeSpec(m, path).1 ==> ApplyPipeSpec(m, path).0 == "/" + Join(Values(m.parts) + segs[|m.parts|..], '/')
    ensures !ApplyPipeSpec(m, path).1 ==> ApplyPipeSpec(m, path).0 == path
  {
    var segs := NewStringList(path);
    if Fits(segs, m.parts) {
      assert Overlay(segs, m.parts) == Values(m.parts) + segs[|m.parts|..];
    }
  }

  /** A path shorter than the rule is never rewritten by it. */
  lemma ShortPathSkipped(m: Pipe, path: string)
    requires |NewStringList(path)| < |m.parts|
    ensures ApplyPipeSpec(m, path) == (path, false)
  {
  }

  /** When no pipe applies, the grouper returns the path unchanged. */
  lemma {:induction false} GroupNoMatch(pipeline: seq<Pipe>, path: string)
    requires forall k :: 0 <= k < |pipeline| ==> !ApplyPipeSpec(pipeline[k], path).1
    ensures GroupSpec(pipeline, path) == path
    decreases |pipeline|
  {
    if |pipeline| > 0 {
      assert forall k :: 0 <= k < |pipeline| - 1 ==> pipeline[1..][k] == pipeline[k + 1];
      GroupNoMatch(pipeline[1..], path);
    }
  }

  /** The grouper returns the output of the first pipe that applies. */
  lemma {:induction false} GroupFirstMatch(pipeline: seq<Pipe>, path: string, k: nat)
    requires k < |pipeline| && ApplyPipeSpec(pipeline[k], path).1
    requires forall x :: 0 <= x < k ==> !ApplyPipeSpec(pipeline[x], path).1
    ensures GroupSpec(pipeline, path) == ApplyPipeSpec(pipeline[k], path).0
    decreases k
  {
    if k > 0 {
      assert forall x :: 0 <= x < k - 1 ==> pipeline[1..][x] == pipeline[x + 1];
      GroupFirstMatch(pipeline[1..], path, k - 1);
    }
  }
}
