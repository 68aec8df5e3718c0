/** The rule engine (cardinality/rules/replace.go): operator templates are
    compiled once into literal/placeholder part lists, then every path is
    matched against them in declaration order, the first match winning.

    A Go slice index outside its bounds is a runtime panic; the matcher can
    reach one (see `RealignAsWritten`), and the model reports it as the
    explicit outcome `IndexPanic` instead of leaving it out. */
module RulesReplace {
  import opened GoStrings
  import opened Results
  import CardinalityConfig
  import RulesConfig

  /** One segment of a compiled rule: a literal to compare, or a placeholder to write. */
  datatype Part = Part(isPlaceholder: bool, value: string)

  /** A compiled rule: its parts and the index of the first literal part (0 if none). */
  datatype Pattern = Pattern(parts: seq<Part>, firstValuePos: nat)

  /** The construction errors of `New`. */
  datatype Error = TooManyRules | RuleTooLong | RuleWithoutPlaceholder

  /** What `exec` yields for one pattern: the rewritten path, no match, or a Go index panic. */
  datatype Exec = Matched(path: string) | NoMatch | IndexPanic

  /** What `Replace` yields: a path, or the panic of a pattern it tried. */
  datatype Outcome = Replaced(path: string) | Panicked

  // ---------------------------------------------------------------------------
  // Compilation

  /** The parts of a rule, each segment classified by the placeholder recogniser. */
  function ToParts(segs: seq<string>, isPlaceholder: string -> bool): (parts: seq<Part>)
    ensures |parts| == |segs|
    ensures forall k :: 0 <= k < |segs| ==> parts[k] == Part(isPlaceholder(segs[k]), segs[k])
  {
    seq(|segs|, k requires 0 <= k < |segs| => Part(isPlaceholder(segs[k]), segs[k]))
  }

  /** Index of the first non-placeholder part in `parts[lo..hi]`, or `hi` if there is none. */
  function FirstLiteralIn(parts: seq<Part>, lo: nat, hi: nat): (k: nat)
    requires lo <= hi <= |parts|
    ensures lo <= k <= hi
    ensures forall x :: lo <= x < k ==> parts[x].isPlaceholder
    ensures k < hi ==> !parts[k].isPlaceholder
    decreases hi - lo
  {
    if lo == hi then hi
    else if !parts[lo].isPlaceholder then lo
    else FirstLiteralIn(parts, lo + 1, hi)
  }

  predicate HasPlaceholder(parts: seq<Part>) {
    exists k :: 0 <= k < |parts| && parts[k].isPlaceholder
  }

  /** `firstValuePos`: the first literal's index, 0 when every part is a placeholder. */
  function FirstValuePos(parts: seq<Part>): nat {
    var k := FirstLiteralIn(parts, 0, |parts|);
    if k < |parts| then k else 0
  }

  /** The segments of a rule: a rule starting with the separator has all leading separators stripped. */
  function RuleSegments(rule: string, sep: char): seq<string> {
    Split(if HasPrefix(rule, [sep]) then TrimLeft(rule, sep) else rule, sep)
  }

  /** Compilation of one rule. */
  function CompileRule(rule: string, sep: char, isPlaceholder: string -> bool, maxSeparatorCount: int): Result<Pattern, Error> {
    var segs := RuleSegments(rule, sep);
    if |segs| >= maxSeparatorCount then Failure(RuleTooLong)
    else
      var parts := ToParts(segs, isPlaceholder);
      if !HasPlaceholder(parts) then Failure(RuleWithoutPlaceholder)
      else Success(Pattern(parts, FirstValuePos(parts)))
  }

  /** What `preparePatterns` leaves behind: the patterns appended before the first failing rule, and that rule's error. */
  datatype Prepared = Prepared(patterns: seq<Pattern>, err: Option<Error>)

  function Prepare(rules: seq<string>, sep: char, isPlaceholder: string -> bool, maxSeparatorCount: int): Prepared
    decreases |rules|
  {
    if |rules| == 0 then Prepared([], None)
    else match CompileRule(rules[0], sep, isPlaceholder, maxSeparatorCount)
      case Failure(e) => Prepared([], Some(e))
      case Success(p) =>
        var rest := Prepare(rules[1..], sep, isPlaceholder, maxSeparatorCount);
        Prepared([p] + rest.patterns, rest.err)
  }

  /** What `New` computes from the rule list and its (already applied) settings. */
  function Compile(rules: seq<string>, s: RulesConfig.Settings): Result<seq<Pattern>, Error> {
    if |rules| >= s.maxRuleCount then Failure(TooManyRules)
    else
      var p := Prepare(rules, s.reader.PathSeparator(), s.reader.PlaceholderRegexp(), s.maxSeparatorCount);
      if p.err.Some? then Failure(p.err.value) else Success(p.patterns)
  }

  // ---------------------------------------------------------------------------
  // Matching

  /** `serialize`: join with the separator, prefixed by one separator iff `hasLeadingSeparator`. */
  function Serialize(list: seq<string>, sep: char, hasLeadingSeparator: bool): string {
    (if hasLeadingSeparator then [sep] else []) + Join(list, sep)
  }

  /** The segments a path is matched on: leading separators stripped, then split. */
  function UrlParts(path: string, sep: char): seq<string> {
    Split(TrimLeft(path, sep), sep)
  }

  /** Every literal part equals the segment at the same position. */
  predicate LiteralsAgree(segs: seq<string>, parts: seq<Part>)
    requires |parts| <= |segs|
  {
    forall k :: 0 <= k < |parts| && !parts[k].isPlaceholder ==> segs[k] == parts[k].value
  }

  /** The segments with every placeholder position of `parts` overwritten by the placeholder. */
  function Substituted(segs: seq<string>, parts: seq<Part>): (r: seq<string>)
    requires |parts| <= |segs|
    ensures |r| == |segs|
  {
    seq(|segs|, k requires 0 <= k < |segs| => if k < |parts| && parts[k].isPlaceholder then parts[k].value else segs[k])
  }

  /** The exact-length match (`mutateEqual`). */
  function EqualMatch(segs: seq<string>, parts: seq<Part>, sep: char, lead: bool): Exec
    requires |parts| == |segs|
  {
    if LiteralsAgree(segs, parts) then Matched(Serialize(Substituted(segs, parts), sep, lead)) else NoMatch
  }

  /** First `j` in `[from, |segs|)` with `segs[j] == v`, or `|segs|`. */
  function FindSegment(segs: seq<string>, v: string, from: nat): (j: nat)
    requires from <= |segs|
    ensures from <= j <= |segs|
    ensures forall x :: from <= x < j ==> segs[x] != v
    ensures j < |segs| ==> segs[j] == v
    decreases |segs| - from
  {
    if from == |segs| then from
    else if segs[from] == v then from
    else FindSegment(segs, v, from + 1)
  }

  /** `(i, j)` is a candidate anchor: the rule's part `i` equals the path's segment `j`. */
  predicate IsAnchor(segs: seq<string>, parts: seq<Part>, i: int, j: int) {
    0 <= i < |parts| && 0 <= j < |segs| && segs[j] == parts[i].value
  }

  /** The anchor search of `mutatePartial`: the first `(i, j)` in nested order, both
      starting at `from` (the pattern's `firstValuePos`), whose segment equals the part. */
  function FindAnchor(segs: seq<string>, parts: seq<Part>, from: nat, i: nat): (a: Option<(nat, nat)>)
    requires from <= |segs|
    ensures a.Some? ==> i <= a.value.0 && from <= a.value.1 && IsAnchor(segs, parts, a.value.0, a.value.1)
    ensures a.Some? ==> forall x, y :: i <= x < a.value.0 && from <= y < |segs| ==> !IsAnchor(segs, parts, x, y)
    ensures a.Some? ==> forall y :: from <= y < a.value.1 ==> !IsAnchor(segs, parts, a.value.0, y)
    ensures a.None? ==> forall x, y :: i <= x && from <= y ==> !IsAnchor(segs, parts, x, y)
    decreases |parts| - i
  {
    if i >= |parts| then None
    else
      var j := FindSegment(segs, parts[i].value, from);
      if j < |segs| then Some((i, j)) else FindAnchor(segs, parts, from, i + 1)
  }

  /** The path's segments after `mutatePartial` has written the placeholders around the
      anchor `(i, j)` exactly as the source indexes them: parts before the anchor at
      `(j - i) + k`, parts after it at `j + k`. */
  function AsWrittenImage(segs: seq<string>, parts: seq<Part>, i: nat, j: nat): (r: seq<string>)
    requires i < |parts| && j < |segs|
    ensures |r| == |segs|
  {
    seq(|segs|, x requires 0 <= x < |segs| =>
      if j - i <= x < j then parts[x - (j - i)].value
      else if j + i + 1 <= x < j + |parts| then parts[x - j].value
      else segs[x])
  }

  /** The re-alignment around an anchor, as written: a literal other than the anchor
      rejects the rule; a write outside the path's segments is a Go index panic. */
  function RealignAsWritten(segs: seq<string>, parts: seq<Part>, i: nat, j: nat, sep: char, lead: bool): Exec
    requires i < |parts| && j < |segs|
  {
    var left := j - i;
    var k0 := FirstLiteralIn(parts, 0, i);
    var k1 := FirstLiteralIn(parts, i + 1, |parts|);
    if k0 > 0 && left < 0 then IndexPanic          // first write, at index left + 0
    else if k0 < i then NoMatch
    else if k1 > i + 1 && j + k1 - 1 >= |segs| then IndexPanic
    else if k1 < |parts| then NoMatch
    else Matched(Serialize(AsWrittenImage(segs, parts, i, j), sep, lead))
  }

  /** The anchored partial match (`mutatePartial`), as written. */
  function PartialMatch(segs: seq<string>, pat: Pattern, sep: char, lead: bool): Exec {
    if pat.firstValuePos > |segs| then NoMatch
    else match FindAnchor(segs, pat.parts, pat.firstValuePos, pat.firstValuePos)
      case None => NoMatch
      case Some((i, j)) => RealignAsWritten(segs, pat.parts, i, j, sep, lead)
  }

  /** `exec`: fewer segments than parts never match, equal counts match position by
      position, more segments use the anchored partial match. */
  function ExecSpec(pat: Pattern, path: string, sep: char, lead: bool): Exec {
    ExecSegments(pat, UrlParts(path, sep), sep, lead)
  }

  /** `exec` once the path is split into its segments. */
  function ExecSegments(pat: Pattern, segs: seq<string>, sep: char, lead: bool): Exec {
    if |segs| < |pat.parts| then NoMatch
    else if |segs| == |pat.parts| then EqualMatch(segs, pat.parts, sep, lead)
    else PartialMatch(segs, pat, sep, lead)
  }

  /** `Replace`: the first pattern that matches decides; none matching leaves the path as it was. */
  function ReplaceSpec(patterns: seq<Pattern>, path: string, sep: char, lead: bool): Outcome
    decreases |patterns|
  {
    if |patterns| == 0 then Replaced(path)
    else match ExecSpec(patterns[0], path, sep, lead)
      case Matched(p) => Replaced(p)
      case IndexPanic => Panicked
      case NoMatch => ReplaceSpec(patterns[1..], path, sep, lead)
  }

  // ---------------------------------------------------------------------------
  // The replacer object

  /** The `module` value `New` returns: its settings and compiled patterns. */
  class Module {
    const maxSeparatorCount: int
    const pathSeparator: char
    const placeholderRegexp: string -> bool
    const hasLeadingSeparator: bool
    var patterns: seq<Pattern>

    constructor (s: RulesConfig.Settings)
      ensures maxSeparatorCount == s.maxSeparatorCount
      ensures pathSeparator == s.reader.PathSeparator()
      ensures placeholderRegexp == s.reader.PlaceholderRegexp()
      ensures hasLeadingSeparator == s.reader.HasLeadingSeparator()
      ensures patterns == []
    {
      maxSeparatorCount := s.maxSeparatorCount;
      pathSeparator := s.reader.PathSeparator();
      placeholderRegexp := s.reader.PlaceholderRegexp();
      hasLeadingSeparator := s.reader.HasLeadingSeparator();
      patterns := [];
    }

    /** The inner loop of `preparePatterns`: classify every segment, remembering the
        first literal's position and whether any placeholder was seen. */
    method ClassifySegments(pathParts: seq<string>) returns (parts: seq<Part>, valuePos: nat, placeholderExists: bool)
      ensures parts == ToParts(pathParts, placeholderRegexp)
      ensures valuePos == FirstValuePos(parts)
      ensures placeholderExists == HasPlaceholder(parts)
    {
      parts := [];
      valuePos := 0;
      var valueExists := false;
      placeholderExists := false;
      var i := 0;
      while i < |pathParts|
        invariant 0 <= i <= |pathParts|
        invariant parts == ToParts(pathParts[..i], placeholderRegexp)
        invariant valueExists == (FirstLiteralIn(parts, 0, i) < i)
        invariant valueExists ==> valuePos == FirstLiteralIn(parts, 0, i)
        invariant !valueExists ==> valuePos == 0
        invariant placeholderExists == HasPlaceholder(parts)
      {
        var placeholderMatch := placeholderRegexp(pathParts[i]);
        if !placeholderMatch && !valueExists {
          valueExists := true;
          valuePos := i;
        }
        if placeholderMatch && !placeholderExists {
          placeholderExists := true;
        }
        ghost var before := parts;
        parts := parts + [Part(placeholderMatch, pathParts[i])];
        ToPartsSnoc(pathParts, i, placeholderRegexp);
        HasPlaceholderSnoc(before, Part(placeholderMatch, pathParts[i]));
        FirstLiteralExtend(before, parts, i);
        i := i + 1;
      }
      assert pathParts[..i] == pathParts;
    }

    /** `preparePatterns`: compile the rules in order, appending each pattern, and stop at the first bad rule. */
    method PreparePatterns(rules: seq<string>) returns (err: Option<Error>)
      modifies this
      ensures var p := Prepare(rules, pathSeparator, placeholderRegexp, maxSeparatorCount);
        patterns == old(patterns) + p.patterns && err == p.err
    {
      var idx := 0;
      PrepareStart(rules, pathSeparator, placeholderRegexp, maxSeparatorCount, patterns);
      while idx < |rules|
        invariant 0 <= idx <= |rules|
        invariant PrepareSoFar(rules, idx, pathSeparator, placeholderRegexp, maxSeparatorCount, old(patterns), patterns)
      {
        var val := rules[idx];
        PrepareStep(rules, idx, pathSeparator, placeholderRegexp, maxSeparatorCount, old(patterns), patterns);
        if HasPrefix(val, [pathSeparator]) {
          val := TrimLeft(val, pathSeparator);
        }
        var pathParts := Split(val, pathSeparator);
        var pLen := |pathParts|;
        if pLen >= maxSeparatorCount {
          return Some(RuleTooLong);
        }
        var parts, valuePos, placeholderExists := ClassifySegments(pathParts);
        if !placeholderExists {
          return Some(RuleWithoutPlaceholder);
        }
        patterns := patterns + [Pattern(parts, valuePos)];
        idx := idx + 1;
      }
      assert rules[idx..] == [];
      return None;
    }


    /** `Replace`: try the patterns in order; the first that matches gives the result. */
    method Replace(path: string) returns (r: Outcome)
      ensures r == ReplaceSpec(patterns, path, pathSeparator, hasLeadingSeparator)
    {
      var k := 0;
      while k < |patterns|
        invariant 0 <= k <= |patterns|
        invariant ReplaceSpec(patterns, path, pathSeparator, hasLeadingSeparator)
               == ReplaceSpec(patterns[k..], path, pathSeparator, hasLeadingSeparator)
      {
        assert patterns[k..][0] == patterns[k] && patterns[k..][1..] == patterns[k + 1..];
        var e := Exec(patterns[k], path);
        match e {
          case Matched(nv) => return Replaced(nv);
          case IndexPanic => return Panicked;
          case NoMatch =>
        }
        k := k + 1;
      }
      return Replaced(path);
    }

    /** `exec`: split the path and dispatch on the segment count. */
    method Exec(pat: Pattern, path: string) returns (r: Exec)
      ensures r == ExecSpec(pat, path, pathSeparator, hasLeadingSeparator)
    {
      var segs := UrlParts(path, pathSeparator);
      var urlParts := new string[|segs|](k requires 0 <= k < |segs| => segs[k]);
      assert urlParts[..] == segs;
      var urlPartCount := urlParts.Length;
      var patternPartCount := |pat.parts|;
      if urlPartCount < patternPartCount {
        return NoMatch;
      }
      if urlPartCount == patternPartCount {
        r := MutateEqual(urlParts, pat);
        return;
      }
      r := MutatePartial(urlParts, pat);
    }

    /** `mutateEqual`: overwrite placeholder positions, reject on the first differing literal. */
    method MutateEqual(urlParts: array<string>, pat: Pattern) returns (r: Exec)
      requires urlParts.Length == |pat.parts|
      modifies urlParts
      ensures r == EqualMatch(old(urlParts[..]), pat.parts, pathSeparator, hasLeadingSeparator)
    {
      ghost var segs := urlParts[..];
      var i := 0;
      while i < |pat.parts|
        invariant 0 <= i <= |pat.parts|
        invariant forall k :: 0 <= k < i && !pat.parts[k].isPlaceholder ==> segs[k] == pat.parts[k].value
        invariant forall k :: 0 <= k < urlParts.Length ==>
          urlParts[k] == if k < i && pat.parts[k].isPlaceholder then pat.parts[k].value else segs[k]
      {
        if pat.parts[i].isPlaceholder {
          urlParts[i] := pat.parts[i].value;
        } else if urlParts[i] != pat.parts[i].value {
          assert !LiteralsAgree(segs, pat.parts);
          return NoMatch;
        }
        i := i + 1;
      }
      assert urlParts[..] == Substituted(segs, pat.parts);
      return Matched(Serialize(urlParts[..], pathSeparator, hasLeadingSeparator));
    }

    /** `mutatePartial`: search the anchor in nested order, then re-align around it. */
    method MutatePartial(urlParts: array<string>, pat: Pattern) returns (r: Exec)
      modifies urlParts
      ensures r == PartialMatch(old(urlParts[..]), pat, pathSeparator, hasLeadingSeparator)
    {
      ghost var segs := urlParts[..];
      var urlPartCount := urlParts.Length;
      var patternPartCount := |pat.parts|;
      var i := pat.firstValuePos;
      if i > urlPartCount {
        // the inner loop never runs: `j` would start past the last segment
        return NoMatch;
      }
      while i < patternPartCount
        invariant pat.firstValuePos <= i
        invariant urlParts[..] == segs
        invariant FindAnchor(segs, pat.parts, pat.firstValuePos, pat.firstValuePos)
               == FindAnchor(segs, pat.parts, pat.firstValuePos, i)
      {
        var j := pat.firstValuePos;
        while j < urlPartCount
          invariant pat.firstValuePos <= j <= urlPartCount
          invariant urlParts[..] == segs
          invariant FindSegment(segs, pat.parts[i].value, pat.firstValuePos) == FindSegment(segs, pat.parts[i].value, j)
        {
          if urlParts[j] == pat.parts[i].value {
            r := Realign(urlParts, pat.parts, i, j);
            return;
          }
          j := j + 1;
        }
        i := i + 1;
      }
      return NoMatch;
    }

    /** The body of `mutatePartial` once the anchor `(i, j)` is found: placeholders before
        the anchor go to `left + iL` with `left = j - i`, those after it to `j + iR`. */
    method Realign(urlParts: array<string>, parts: seq<Part>, i: nat, j: nat) returns (r: Exec)
      requires i < |parts| && j < urlParts.Length
      modifies urlParts
      ensures r == RealignAsWritten(old(urlParts[..]), parts, i, j, pathSeparator, hasLeadingSeparator)
    {
      ghost var segs := urlParts[..];
      var patternPartCount := |parts|;
      var left := j - i;
      var iL := 0;
      while iL < i
        invariant 0 <= iL <= i
        invariant forall k :: 0 <= k < iL ==> parts[k].isPlaceholder
        invariant iL > 0 ==> left >= 0
        invariant forall x :: 0 <= x < urlParts.Length ==>
          urlParts[x] == if left <= x < left + iL then parts[x - left].value else segs[x]
      {
        if parts[iL].isPlaceholder {
          if left + iL < 0 {
            return IndexPanic;
          }
          urlParts[left + iL] := parts[iL].value;
        } else {
          return NoMatch;
        }
        iL := iL + 1;
      }
      var iR := i + 1;
      while iR < patternPartCount
        invariant i + 1 <= iR <= patternPartCount
        invariant forall k :: i + 1 <= k < iR ==> parts[k].isPlaceholder
        invariant iR > i + 1 ==> j + iR - 1 < urlParts.Length
        invariant forall x :: 0 <= x < urlParts.Length ==>
          urlParts[x] == if left <= x < j then parts[x - left].value
                         else if j + i + 1 <= x < j + iR then parts[x - j].value
                         else segs[x]
      {
        if parts[iR].isPlaceholder {
          if j + iR >= urlParts.Length {
            return IndexPanic;
          }
          urlParts[j + iR] := parts[iR].value;
        } else {
          return NoMatch;
        }
        iR := iR + 1;
      }
      assert urlParts[..] == AsWrittenImage(segs, parts, i, j);
      return Matched(Serialize(urlParts[..], pathSeparator, hasLeadingSeparator));
    }
  }

  /** After `idx` rules of `preparePatterns`, the patterns appended so far followed by
      what the rest of the rules give are what all the rules give, with the same error. */
  predicate PrepareSoFar(rules: seq<string>, idx: nat, sep: char, isPlaceholder: string -> bool, maxSeparatorCount: int,
                         before: seq<Pattern>, now: seq<Pattern>)
    requires idx <= |rules|
  {
    var p := Prepare(rules, sep, isPlaceholder, maxSeparatorCount);
    var q := Prepare(rules[idx..], sep, isPlaceholder, maxSeparatorCount);
    p.err == q.err && before + p.patterns == now + q.patterns
  }

  lemma PrepareStart(rules: seq<string>, sep: char, isPlaceholder: string -> bool, maxSeparatorCount: int, now: seq<Pattern>)
    ensures PrepareSoFar(rules, 0, sep, isPlaceholder, maxSeparatorCount, now, now)
  {
    assert rules[0..] == rules;
  }

  /** One turn of the loop of `preparePatterns`: a bad rule ends it with that rule's
      error, a good one appends its pattern. */
  lemma PrepareStep(rules: seq<string>, idx: nat, sep: char, isPlaceholder: string -> bool, maxSeparatorCount: int,
                    before: seq<Pattern>, now: seq<Pattern>)
    requires idx < |rules| && PrepareSoFar(rules, idx, sep, isPlaceholder, maxSeparatorCount, before, now)
    ensures var c := CompileRule(rules[idx], sep, isPlaceholder, maxSeparatorCount);
      var p := Prepare(rules, sep, isPlaceholder, maxSeparatorCount);
      && (c.Failure? ==> p.err == Some(c.error) && before + p.patterns == now)
      && (c.Success? ==> PrepareSoFar(rules, idx + 1, sep, isPlaceholder, maxSeparatorCount, before, now + [c.value]))
  {
    assert rules[idx..][0] == rules[idx] && rules[idx..][1..] == rules[idx + 1..];
    var c := CompileRule(rules[idx], sep, isPlaceholder, maxSeparatorCount);
    if c.Success? {
      var rest := Prepare(rules[idx + 1..], sep, isPlaceholder, maxSeparatorCount);
      assert now + ([c.value] + rest.patterns) == (now + [c.value]) + rest.patterns;
    } else {
      assert now + [] == now;
    }
  }

  lemma ToPartsSnoc(segs: seq<string>, i: nat, isPlaceholder: string -> bool)
    requires i < |segs|
    ensures ToParts(segs[..i + 1], isPlaceholder) == ToParts(segs[..i], isPlaceholder) + [Part(isPlaceholder(segs[i]), segs[i])]
  {
    assert segs[..i + 1] == segs[..i] + [segs[i]];
  }

  lemma HasPlaceholderSnoc(parts: seq<Part>, p: Part)
    ensures HasPlaceholder(parts + [p]) == (HasPlaceholder(parts) || p.isPlaceholder)
  {
    if p.isPlaceholder {
      assert (parts + [p])[|parts|] == p;
    }
    if HasPlaceholder(parts) {
      var k :| 0 <= k < |parts| && parts[k].isPlaceholder;
      assert (parts + [p])[k] == parts[k];
    }
    if HasPlaceholder(parts + [p]) {
      var k :| 0 <= k < |parts + [p]| && (parts + [p])[k].isPlaceholder;
      if k < |parts| {
        assert parts[k] == (parts + [p])[k];
      }
    }
  }

  /** Extending the classified prefix by one part moves the first literal only when none was seen yet. */
  lemma FirstLiteralExtend(before: seq<Part>, after: seq<Part>, i: nat)
    requires |before| == i && |after| == i + 1 && after[..i] == before
    ensures FirstLiteralIn(after, 0, i + 1) ==
      if FirstLiteralIn(before, 0, i) < i then FirstLiteralIn(before, 0, i)
      else if after[i].isPlaceholder then i + 1 else i
  {
    var a := FirstLiteralIn(after, 0, i + 1);
    var b := FirstLiteralIn(before, 0, i);
    assert forall x :: 0 <= x < i ==> after[x] == before[x];
  }

  /** `New(rules, options...)`: apply the options to the defaults, refuse too many rules,
      then compile; the result is a replacer or the first error. */
  method New(rules: seq<string>, options: seq<RulesConfig.Option>) returns (r: Result<Module, Error>)
    ensures var s := RulesConfig.ApplyOptions(RulesConfig.DefaultSettings(), options);
      match Compile(rules, s)
      case Failure(e) => r == Failure(e)
      case Success(ps) => (r.Success? && fresh(r.value) && r.value.patterns == ps
        && r.value.pathSeparator == s.reader.PathSeparator()
        && r.value.hasLeadingSeparator == s.reader.HasLeadingSeparator())
  {
    var c := new RulesConfig.Config();
    c.ApplyAll(options);
    if |rules| >= c.maxRuleCount {
      return Failure(TooManyRules);
    }
    var m := new Module(c.Value());
    var err := m.PreparePatterns(rules);
    if err.Some? {
      return Failure(err.value);
    }
    return Success(m);
  }

  // ---------------------------------------------------------------------------
  // The corrected partial match

  /** The re-alignment evidently intended: the rule is laid over the path as one window
      starting at `j - i`, so that its part `i` sits on the anchor; a window that does not
      fit the path rejects the rule instead of indexing outside it. */
  function RealignIntended(segs: seq<string>, parts: seq<Part>, i: nat, j: nat, sep: char, lead: bool): Exec
    requires i < |parts| && j < |segs|
  {
    var left := j - i;
    if left < 0 || left + |parts| > |segs| then NoMatch
    else if FirstLiteralIn(parts, 0, i) < i || FirstLiteralIn(parts, i + 1, |parts|) < |parts| then NoMatch
    else Matched(Serialize(LaidOver(segs, parts, left), sep, lead))
  }

  /** `segs` with the values of `parts` written over positions `left` onwards. */
  function LaidOver(segs: seq<string>, parts: seq<Part>, left: nat): seq<string>
    requires left + |parts| <= |segs|
  {
    segs[..left] + Values(parts) + segs[left + |parts|..]
  }

  function PartialMatchIntended(segs: seq<string>, pat: Pattern, sep: char, lead: bool): Exec {
    if pat.firstValuePos > |segs| then NoMatch
    else match FindAnchor(segs, pat.parts, pat.firstValuePos, pat.firstValuePos)
      case None => NoMatch
      case Some((i, j)) => RealignIntended(segs, pat.parts, i, j, sep, lead)
  }

  /** `exec` with the corrected partial match. */
  function ExecIntended(pat: Pattern, path: string, sep: char, lead: bool): Exec {
    ExecSegmentsIntended(pat, UrlParts(path, sep), sep, lead)
  }

  function ExecSegmentsIntended(pat: Pattern, segs: seq<string>, sep: char, lead: bool): Exec {
    if |segs| < |pat.parts| then NoMatch
    else if |segs| == |pat.parts| then EqualMatch(segs, pat.parts, sep, lead)
    else PartialMatchIntended(segs, pat, sep, lead)
  }

  /** `Replace` with the corrected partial match. */
  function ReplaceIntended(patterns: seq<Pattern>, path: string, sep: char, lead: bool): Outcome
    decreases |patterns|
  {
    if |patterns| == 0 then Replaced(path)
    else match ExecIntended(patterns[0], path, sep, lead)
      case Matched(p) => Replaced(p)
      case IndexPanic => Panicked
      case NoMatch => ReplaceIntended(patterns[1..], path, sep, lead)
  }

  /** The literal texts of a rule's parts. */
  function Values(parts: seq<Part>): (vs: seq<string>)
    ensures |vs| == |parts|
    ensures forall k :: 0 <= k < |parts| ==> vs[k] == parts[k].value
  {
    seq(|parts|, k requires 0 <= k < |parts| => parts[k].value)
  }

  // ---------------------------------------------------------------------------
  // Properties of compilation

  /** A rule compiles iff it has fewer segments than the limit and at least one of
      them is a placeholder; the two errors are exactly the two ways to fail. */
  lemma CompileRuleErrors(rule: string, sep: char, isPlaceholder: string -> bool, maxSeparatorCount: int)
    ensures var segs := RuleSegments(rule, sep);
      var r := CompileRule(rule, sep, isPlaceholder, maxSeparatorCount);
      (r == Failure(RuleTooLong) <==> |segs| >= maxSeparatorCount) &&
      (r == Failure(RuleWithoutPlaceholder) <==>
         |segs| < maxSeparatorCount && forall k :: 0 <= k < |segs| ==> !isPlaceholder(segs[k])) &&
      (r.Success? <==> |segs| < maxSeparatorCount && exists k :: 0 <= k < |segs| && isPlaceholder(segs[k]))
  {
    var segs := RuleSegments(rule, sep);
    var parts := ToParts(segs, isPlaceholder);
    if HasPlaceholder(parts) {
      var k :| 0 <= k < |parts| && parts[k].isPlaceholder;
      assert isPlaceholder(segs[k]);
    }
    if exists k :: 0 <= k < |segs| && isPlaceholder(segs[k]) {
      var k :| 0 <= k < |segs| && isPlaceholder(segs[k]);
      assert parts[k].isPlaceholder;
    }
  }

  /** A compiled rule gives the rule back: its parts, joined, are the rule without its
      leading separators; each part is flagged by the recogniser; `firstValuePos` is
      the first literal (0 when every part is a placeholder). */
  lemma CompileRuleRoundTrip(rule: string, sep: char, isPlaceholder: string -> bool, maxSeparatorCount: int)
    requires CompileRule(rule, sep, isPlaceholder, maxSeparatorCount).Success?
    ensures var pat := CompileRule(rule, sep, isPlaceholder, maxSeparatorCount).value;
      Join(Values(pat.parts), sep) == (if HasPrefix(rule, [sep]) then TrimLeft(rule, sep) else rule) &&
      (forall k :: 0 <= k < |pat.parts| ==> pat.parts[k].isPlaceholder == isPlaceholder(pat.parts[k].value)) &&
      (forall k :: 0 <= k < pat.firstValuePos ==> pat.parts[k].isPlaceholder) &&
      (pat.firstValuePos < |pat.parts| && (pat.firstValuePos > 0 || !pat.parts[0].isPlaceholder ||
         forall k :: 0 <= k < |pat.parts| ==> pat.parts[k].isPlaceholder))
  {
    var segs := RuleSegments(rule, sep);
    var pat := CompileRule(rule, sep, isPlaceholder, maxSeparatorCount).value;
    assert Values(pat.parts) == segs;
    JoinSplit(if HasPrefix(rule, [sep]) then TrimLeft(rule, sep) else rule, sep);
  }

  /** `preparePatterns` compiles the rules in order and stops at the first bad one: the
      patterns it keeps are the compilations of a prefix of the rules, and when it
      reports an error that is the error of the very next rule. */
  lemma {:induction false} PrepareOutcome(rules: seq<string>, sep: char, isPlaceholder: string -> bool, maxSeparatorCount: int)
    ensures var p := Prepare(rules, sep, isPlaceholder, maxSeparatorCount);
      |p.patterns| <= |rules| &&
      (forall k :: 0 <= k < |p.patterns| ==>
         CompileRule(rules[k], sep, isPlaceholder, maxSeparatorCount) == Success(p.patterns[k])) &&
      (p.err.None? <==> |p.patterns| == |rules|) &&
      (p.err.Some? ==> CompileRule(rules[|p.patterns|], sep, isPlaceholder, maxSeparatorCount) == Failure(p.err.value))
    decreases |rules|
  {
    if |rules| > 0 {
      match CompileRule(rules[0], sep, isPlaceholder, maxSeparatorCount)
      case Failure(e) =>
      case Success(pat) =>
        PrepareOutcome(rules[1..], sep, isPlaceholder, maxSeparatorCount);
        var rest := Prepare(rules[1..], sep, isPlaceholder, maxSeparatorCount);
        var p := Prepare(rules, sep, isPlaceholder, maxSeparatorCount);
        assert p.patterns == [pat] + rest.patterns;
        forall k | 0 <= k < |p.patterns|
          ensures CompileRule(rules[k], sep, isPlaceholder, maxSeparatorCount) == Success(p.patterns[k])
        {
          if k > 0 { assert rules[k] == rules[1..][k - 1]; }
        }
        if p.err.Some? { assert rules[|p.patterns|] == rules[1..][|rest.patterns|]; }
    }
  }

  /** `New` succeeds iff there are fewer rules than `maxRuleCount` and every rule compiles;
      the patterns are then the rules' compilations, in order. */
  lemma CompileOutcome(rules: seq<string>, s: RulesConfig.Settings)
    ensures var sep := s.reader.PathSeparator();
      var isPlaceholder := s.reader.PlaceholderRegexp();
      var r := Compile(rules, s);
      (r.Success? <==> (|rules| < s.maxRuleCount &&
         forall k :: 0 <= k < |rules| ==> CompileRule(rules[k], sep, isPlaceholder, s.maxSeparatorCount).Success?)) &&
      (r.Success? ==> |r.value| == |rules| && forall k :: 0 <= k < |rules| ==>
         Success(r.value[k]) == CompileRule(rules[k], sep, isPlaceholder, s.maxSeparatorCount)) &&
      (|rules| >= s.maxRuleCount ==> r == Failure(TooManyRules))
  {
    var sep := s.reader.PathSeparator();
    var isPlaceholder := s.reader.PlaceholderRegexp();
    PrepareOutcome(rules, sep, isPlaceholder, s.maxSeparatorCount);
  }

  // ---------------------------------------------------------------------------
  // Properties of matching

  /** A path with fewer segments than the rule is never rewritten by it. */
  lemma ShorterPathNeverMatches(pat: Pattern, path: string, sep: char, lead: bool)
    requires |UrlParts(path, sep)| < |pat.parts|
    ensures ExecSpec(pat, path, sep, lead) == NoMatch
  {
  }

  /** An equal-length path matches iff every literal of the rule equals its segment, and
      then it collapses to the rule itself: every path a rule matches this way yields the
      same output. */
  lemma EqualMatchCollapsesToRule(segs: seq<string>, parts: seq<Part>, sep: char, lead: bool)
    requires |parts| == |segs|
    ensures EqualMatch(segs, parts, sep, lead).Matched? <==> LiteralsAgree(segs, parts)
    ensures LiteralsAgree(segs, parts) ==> EqualMatch(segs, parts, sep, lead) == Matched(Serialize(Values(parts), sep, lead))
  {
    if LiteralsAgree(segs, parts) {
      assert Substituted(segs, parts) == Values(parts);
    }
  }

  /** `Replace` applies the first matching pattern: patterns before it are skipped,
      patterns after it are never consulted. */
  lemma {:induction false} ReplaceFirstMatchWins(patterns: seq<Pattern>, path: string, sep: char, lead: bool, k: nat)
    requires k < |patterns|
    requires forall x :: 0 <= x < k ==> ExecSpec(patterns[x], path, sep, lead) == NoMatch
    requires ExecSpec(patterns[k], path, sep, lead).Matched?
    ensures ReplaceSpec(patterns, path, sep, lead) == Replaced(ExecSpec(patterns[k], path, sep, lead).path)
    decreases k
  {
    if k > 0 {
      assert patterns[1..][k - 1] == patterns[k];
      ReplaceFirstMatchWins(patterns[1..], path, sep, lead, k - 1);
    }
  }

  /** When no pattern matches and none panics, the path is returned unchanged. */
  lemma {:induction false} ReplaceNoMatchKeepsPath(patterns: seq<Pattern>, path: string, sep: char, lead: bool)
    requires forall x :: 0 <= x < |patterns| ==> ExecSpec(patterns[x], path, sep, lead) == NoMatch
    ensures ReplaceSpec(patterns, path, sep, lead) == Replaced(path)
    decreases |patterns|
  {
    if |patterns| > 0 {
      assert forall x :: 0 <= x < |patterns| - 1 ==> patterns[1..][x] == patterns[x + 1];
      ReplaceNoMatchKeepsPath(patterns[1..], path, sep, lead);
    }
  }

  /** When the anchor is the rule's first part and the rule fits in the path from
      there, the code as written and the corrected re-alignment agree. */
  lemma AsWrittenAgreesWhenAnchorFirst(segs: seq<string>, parts: seq<Part>, j: nat, sep: char, lead: bool)
    requires 0 < |parts| && j + |parts| <= |segs| && IsAnchor(segs, parts, 0, j)
    ensures RealignAsWritten(segs, parts, 0, j, sep, lead) == RealignIntended(segs, parts, 0, j, sep, lead)
  {
    if FirstLiteralIn(parts, 1, |parts|) == |parts| {
      var image := AsWrittenImage(segs, parts, 0, j);
      var window := LaidOver(segs, parts, j);
      forall x | 0 <= x < |segs| ensures image[x] == window[x] {
        if j <= x < j + |parts| { assert window[x] == Values(parts)[x - j]; }
      }
      assert image == window;
    }
  }

  /** The corrected partial match never panics, and when it matches the rule's parts
      occupy one window of the path, every other segment is kept, and the path keeps
      its segment count. */
  lemma IntendedPartialPlacesRule(segs: seq<string>, pat: Pattern, sep: char, lead: bool)
    ensures PartialMatchIntended(segs, pat, sep, lead) != IndexPanic
    ensures PartialMatchIntended(segs, pat, sep, lead).Matched? ==>
      exists left: nat, out: seq<string> :: Window(segs, pat.parts, left, out) &&
        PartialMatchIntended(segs, pat, sep, lead) == Matched(Serialize(out, sep, lead))
  {
    if pat.firstValuePos <= |segs| {
      var a := FindAnchor(segs, pat.parts, pat.firstValuePos, pat.firstValuePos);
      if a.Some? {
        RealignIntendedWindow(segs, pat.parts, a.value.0, a.value.1, sep, lead);
        if PartialMatchIntended(segs, pat, sep, lead).Matched? {
          var left: nat := a.value.1 - a.value.0;
          assert Window(segs, pat.parts, left, LaidOver(segs, pat.parts, left));
        }
      }
    }
  }

  lemma RealignIntendedWindow(segs: seq<string>, parts: seq<Part>, i: nat, j: nat, sep: char, lead: bool)
    requires i < |parts| && j < |segs|
    ensures RealignIntended(segs, parts, i, j, sep, lead) != IndexPanic
    ensures RealignIntended(segs, parts, i, j, sep, lead).Matched? ==>
      i <= j && j - i + |parts| <= |segs| && Window(segs, parts, j - i, LaidOver(segs, parts, j - i)) &&
      RealignIntended(segs, parts, i, j, sep, lead) == Matched(Serialize(LaidOver(segs, parts, j - i), sep, lead))
  {
    var left := j - i;
    if left >= 0 && left + |parts| <= |segs| {
      LaidOverIsWindow(segs, parts, left);
    }
  }

  lemma LaidOverIsWindow(segs: seq<string>, parts: seq<Part>, left: nat)
    requires left + |parts| <= |segs|
    ensures Window(segs, parts, left, LaidOver(segs, parts, left))
  {
    var out := LaidOver(segs, parts, left);
    forall x | 0 <= x < |parts| ensures out[left + x] == parts[x].value {
      assert out[left + x] == Values(parts)[x];
    }
    forall x | 0 <= x < |segs| && !(left <= x < left + |parts|) ensures out[x] == segs[x] {
      if x >= left + |parts| { assert out[x] == segs[left + |parts|..][x - left - |parts|]; }
    }
  }

  /** `out` is `segs` with the parts' values laid over it from position `left` on. */
  predicate Window(segs: seq<string>, parts: seq<Part>, left: nat, out: seq<string>) {
    left + |parts| <= |segs| && |out| == |segs| &&
    (forall x :: 0 <= x < |parts| ==> out[left + x] == parts[x].value) &&
    (forall x :: 0 <= x < |segs| && !(left <= x < left + |parts|) ==> out[x] == segs[x])
  }

  /** With the corrected partial match `Replace` never panics, whatever the rules and the path. */
  lemma {:induction false} ReplaceIntendedNeverPanics(patterns: seq<Pattern>, path: string, sep: char, lead: bool)
    ensures ReplaceIntended(patterns, path, sep, lead) != Panicked
    decreases |patterns|
  {
    if |patterns| > 0 {
      IntendedPartialPlacesRule(UrlParts(path, sep), patterns[0], sep, lead);
      ReplaceIntendedNeverPanics(patterns[1..], path, sep, lead);
    }
  }
}
