/** The automatic reducer (cardinality/auto/replace.go): every segment of a path that
    one of the enabled recognisers accepts becomes that recogniser's placeholder. */
module AutoReplace {
  import opened GoStrings
  import AutoConfig

  /** `match`: a recogniser that is on, with its formatted placeholder. */
  datatype Match = Match(exp: AutoConfig.Recogniser, placeholder: string)

  /** `module`: what `New` keeps of the configuration; `Replace` only reads it. */
  datatype AutoModule = AutoModule(separator: char, matches: seq<Match>, hasLeadingSeparator: bool)

  /** The recognisers of `table` that are on, in order, each with `formatter(id)`. */
  function EnabledMatches(table: seq<AutoConfig.MatchState>, formatter: string -> string): seq<Match>
    decreases |table|
  {
    if |table| == 0 then []
    else (if table[0].state then [Match(table[0].exp, formatter(table[0].id))] else [])
         + EnabledMatches(table[1..], formatter)
  }

  /** The reducer `New` builds from a configuration: its prefix table plays no part. */
  function Build(s: AutoConfig.Settings): AutoModule {
    AutoModule(s.reader.PathSeparator(), EnabledMatches(s.matches, s.reader.PlaceholderFormatter()),
               s.reader.HasLeadingSeparator())
  }

  /** `defaultConfig()`: the HTTP table. */
  function DefaultConfig(): AutoConfig.Settings { AutoConfig.DefaultConfigHttp() }

  /** `New`: apply the options to the defaults, then keep the recognisers that are on. */
  method New(options: seq<AutoConfig.Option>) returns (m: AutoModule)
    ensures m == Build(AutoConfig.ApplyOptions(DefaultConfig(), options))
  {
    var c := new AutoConfig.Config(DefaultConfig());
    c.ApplyAll(options);
    var formatter := c.reader.PlaceholderFormatter();
    var matches: seq<Match> := [];
    var i := 0;
    while i < |c.matches|
      invariant 0 <= i <= |c.matches|
      invariant c.Value() == AutoConfig.ApplyOptions(DefaultConfig(), options)
      invariant matches == EnabledMatches(c.matches[..i], formatter)
    {
      var st := c.matches[i];
      EnabledMatchesSnoc(c.matches[..i], st, formatter);
      assert c.matches[..i + 1] == c.matches[..i] + [st];
      if st.state {
        matches := matches + [Match(st.exp, formatter(st.id))];
      }
      i := i + 1;
    }
    assert c.matches[..i] == c.matches;
    m := AutoModule(c.reader.PathSeparator(), matches, c.reader.HasLeadingSeparator());
  }

  /** What one segment becomes: the placeholder of the first recogniser that accepts it,
      or the segment itself. */
  function Classify(matches: seq<Match>, part: string): string
    decreases |matches|
  {
    if |matches| == 0 then part
    else if AutoConfig.Accepts(matches[0].exp, part) then matches[0].placeholder
    else Classify(matches[1..], part)
  }

  function ClassifyAll(matches: seq<Match>, parts: seq<string>): (out: seq<string>)
    ensures |out| == |parts|
  {
    seq(|parts|, k requires 0 <= k < |parts| => Classify(matches, parts[k]))
  }

  /** The separator written before the first segment. */
  function Lead(m: AutoModule): string {
    if m.hasLeadingSeparator then [m.separator] else []
  }

  /** The segments `Replace` walks: the path without its leading separators, split. */
  function Segments(m: AutoModule, path: string): seq<string> {
    Split(TrimLeft(path, m.separator), m.separator)
  }

  /** What `Replace` returns: the classified segments joined, after the leading separator. */
  function ReplaceSpec(m: AutoModule, path: string): string {
    Lead(m) + Join(ClassifyAll(m.matches, Segments(m, path)), m.separator)
  }

  /** `module.Replace`: one pass over the segments, writing into a builder. */
  method Replace(m: AutoModule, path: string) returns (r: string)
    ensures r == ReplaceSpec(m, path)
  {
    var trimmed := TrimLeft(path, m.separator);
    var pathParts := Split(trimmed, m.separator);
    ghost var out := ClassifyAll(m.matches, pathParts);
    var b: string := [];
    var i := 0;
    while i < |pathParts|
      invariant 0 <= i <= |pathParts|
      invariant b == if i == 0 then [] else Lead(m) + Join(out[..i], m.separator)
    {
      if m.hasLeadingSeparator || (!m.hasLeadingSeparator && i != 0) {
        b := b + [m.separator];
      }
      var part := pathParts[i];
      var p := part;
      var j := 0;
      while j < |m.matches|
        invariant 0 <= j <= |m.matches|
        invariant p == part
        invariant Classify(m.matches, part) == Classify(m.matches[j..], part)
      {
        assert m.matches[j..][1..] == m.matches[j + 1..];
        if AutoConfig.Accepts(m.matches[j].exp, part) {
          p := m.matches[j].placeholder;
          break;
        }
        j := j + 1;
      }
      assert p == out[i];
      b := b + p;
      if i == 0 {
        assert out[..1] == [out[0]];
      } else {
        assert out[..i + 1] == out[..i] + [out[i]];
        JoinSnoc(out[..i], out[i], m.separator);
      }
      i := i + 1;
    }
    assert out[..i] == out;
    r := b;
  }

  // ----- Properties -----

  /** `New` appends in order: the matches of `t + [st]` are those of `t`, then `st`'s. */
  lemma {:induction false} EnabledMatchesSnoc(t: seq<AutoConfig.MatchState>, st: AutoConfig.MatchState, f: string -> string)
    ensures EnabledMatches(t + [st], f) == EnabledMatches(t, f) + (if st.state then [Match(st.exp, f(st.id))] else [])
    decreases |t|
  {
    if |t| == 0 {
      assert [st][1..] == [];
    } else {
      assert (t + [st])[1..] == t[1..] + [st];
      EnabledMatchesSnoc(t[1..], st, f);
    }
  }

  /** Index of the first entry of the table that is on and accepts `part`, or `|table|`. */
  function FirstAccepting(table: seq<AutoConfig.MatchState>, part: string): (k: nat)
    ensures k <= |table|
    ensures forall x :: 0 <= x < k ==> !(table[x].state && AutoConfig.Accepts(table[x].exp, part))
    ensures k < |table| ==> table[k].state && AutoConfig.Accepts(table[k].exp, part)
    decreases |table|
  {
    if |table| == 0 then 0
    else if table[0].state && AutoConfig.Accepts(table[0].exp, part) then 0
    else 1 + FirstAccepting(table[1..], part)
  }

  /** A segment becomes `formatter(id)` of the first entry that is on and accepts it;
      entries that are off are skipped; a segment nobody accepts is kept. */
  lemma {:induction false} ClassifyFirstEnabled(table: seq<AutoConfig.MatchState>, f: string -> string, part: string)
    ensures var k := FirstAccepting(table, part);
      Classify(EnabledMatches(table, f), part) == if k < |table| then f(table[k].id) else part
    decreases |table|
  {
    if |table| > 0 {
      ClassifyFirstEnabled(table[1..], f, part);
      var rest := EnabledMatches(table[1..], f);
      if table[0].state {
        var ms := [Match(table[0].exp, f(table[0].id))] + rest;
        assert EnabledMatches(table, f) == ms;
        assert ms[1..] == rest;
      } else {
        assert EnabledMatches(table, f) == rest;
      }
    }
  }

  /** Every placeholder of the reducer is the formatter's output for some entry that is on. */
  lemma {:induction false} EnabledMatchesFrom(table: seq<AutoConfig.MatchState>, f: string -> string)
    ensures forall mt :: mt in EnabledMatches(table, f) ==>
      exists x :: 0 <= x < |table| && table[x].state && mt == Match(table[x].exp, f(table[x].id))
    decreases |table|
  {
    if |table| > 0 {
      EnabledMatchesFrom(table[1..], f);
      forall mt | mt in EnabledMatches(table, f)
        ensures exists x :: 0 <= x < |table| && table[x].state && mt == Match(table[x].exp, f(table[x].id))
      {
        if mt in EnabledMatches(table[1..], f) {
          var x :| 0 <= x < |table[1..]| && table[1..][x].state && mt == Match(table[1..][x].exp, f(table[1..][x].id));
          assert table[x + 1] == table[1..][x];
        } else {
          assert table[0].state && mt == Match(table[0].exp, f(table[0].id));
        }
      }
    }
  }

  /** The placeholders are usable as segments: not empty, free of the separator. */
  predicate SegmentSafe(m: AutoModule) {
    forall mt :: mt in m.matches ==> mt.placeholder != [] && m.separator !in mt.placeholder
  }

  /** No recogniser of the reducer accepts one of its placeholders. */
  predicate PlaceholdersInert(m: AutoModule) {
    forall a, b :: a in m.matches && b in m.matches ==> !AutoConfig.Accepts(a.exp, b.placeholder)
  }

  /** A classified segment is either a placeholder of the reducer or the segment itself. */
  lemma {:induction false} ClassifyIsPlaceholderOrSelf(matches: seq<Match>, part: string)
    ensures Classify(matches, part) == part || exists mt :: mt in matches && Classify(matches, part) == mt.placeholder
    decreases |matches|
  {
    if |matches| > 0 && !AutoConfig.Accepts(matches[0].exp, part) {
      ClassifyIsPlaceholderOrSelf(matches[1..], part);
      if Classify(matches, part) != part {
        var mt :| mt in matches[1..] && Classify(matches[1..], part) == mt.placeholder;
        assert mt in matches;
      }
    }
  }

  /** A segment that no recogniser accepts is kept as it is. */
  lemma {:induction false} ClassifyNoneAccepts(matches: seq<Match>, part: string)
    requires forall mt :: mt in matches ==> !AutoConfig.Accepts(mt.exp, part)
    ensures Classify(matches, part) == part
    decreases |matches|
  {
    if |matches| > 0 {
      assert matches[0] in matches;
      assert forall mt :: mt in matches[1..] ==> mt in matches;
      ClassifyNoneAccepts(matches[1..], part);
    }
  }

  /** `Replace` keeps the shape of the path: read back with the same separator, its
      output has exactly the input's segments, each one classified on its own. */
  lemma ReplaceSegmentwise(m: AutoModule, path: string)
    requires SegmentSafe(m)
    ensures Segments(m, ReplaceSpec(m, path)) == ClassifyAll(m.matches, Segments(m, path))
  {
    var c := m.separator;
    var t := TrimLeft(path, c);
    var segs := Split(t, c);
    var out := ClassifyAll(m.matches, segs);
    SplitPiecesAvoidSeparator(t, c);
    forall p | p in out ensures c !in p {
      var k :| 0 <= k < |out| && out[k] == p;
      ClassifyIsPlaceholderOrSelf(m.matches, segs[k]);
      assert segs[k] in segs;
    }
    SplitJoin(out, c);
    TrimLeftShape(path, c);
    if out[0] != [] {
      JoinFirst(out, c);
      TrimLeftNoop(Join(out, c), c);
      if m.hasLeadingSeparator {
        TrimLeftCons(Join(out, c), c);
        assert TrimLeft(ReplaceSpec(m, path), c) == Join(out, c);
      } else {
        assert TrimLeft(ReplaceSpec(m, path), c) == Join(out, c);
      }
    } else {
      ClassifyIsPlaceholderOrSelf(m.matches, segs[0]);
      assert segs[0] == [];
      SplitFirstEmpty(t, c);
      assert segs == [""];
      assert Join(out, c) == [];
    }
  }

  /** Running a reducer over its own output changes nothing, when its placeholders are
      usable as segments and none of its recognisers accepts a placeholder. */
  lemma ReplaceIdempotent(m: AutoModule, path: string)
    requires SegmentSafe(m) && PlaceholdersInert(m)
    ensures ReplaceSpec(m, ReplaceSpec(m, path)) == ReplaceSpec(m, path)
  {
    var out := ClassifyAll(m.matches, Segments(m, path));
    ReplaceSegmentwise(m, path);
    forall k | 0 <= k < |out| ensures Classify(m.matches, out[k]) == out[k] {
      var seg := Segments(m, path)[k];
      ClassifyIsPlaceholderOrSelf(m.matches, seg);
      if out[k] != seg {
        ClassifyNoneAccepts(m.matches, out[k]);
      }
    }
    assert ClassifyAll(m.matches, out) == out;
  }

  /** With the HTTP defaults, whatever recognisers the options switch off, a reduced
      path is left as it is by a second pass: `:id`, `:resource` and `:uuid` contain no
      `/` and none of the recognisers accepts them. */
  lemma DefaultReplaceIdempotent(options: seq<AutoConfig.Option>, path: string)
    requires forall o :: o in options ==> !o.WithConfigReader?
    ensures var m := Build(AutoConfig.ApplyOptions(DefaultConfig(), options));
      ReplaceSpec(m, ReplaceSpec(m, path)) == ReplaceSpec(m, path)
  {
    var d := DefaultConfig();
    var s := AutoConfig.ApplyOptions(d, options);
    var m := Build(s);
    AutoConfig.ApplyOptionsKeepsShape(d, options);
    EnabledMatchesFrom(s.matches, s.reader.PlaceholderFormatter());
    assert m.separator == '/';
    forall mt | mt in m.matches
      ensures mt.placeholder != [] && m.separator !in mt.placeholder
      ensures forall r :: !AutoConfig.Accepts(r, mt.placeholder)
    {
      var x :| 0 <= x < |s.matches| && s.matches[x].state
        && mt == Match(s.matches[x].exp, s.reader.PlaceholderFormatter()(s.matches[x].id));
      assert s.matches[x].id == d.matches[x].id;
      assert mt.placeholder == ":" + d.matches[x].id;
      AutoConfig.ColonNeverAccepted(mt.placeholder);
    }
    ReplaceIdempotent(m, path);
  }

  /** `WithoutInbox` and `WithoutUrl` edit the prefix table only: wherever one of them
      stands in the option list, the reducer `New` builds is the same without it. */
  lemma PrefixOptionsIgnored(s: AutoConfig.Settings, a: seq<AutoConfig.Option>, o: AutoConfig.Option, b: seq<AutoConfig.Option>)
    requires o.WithoutInbox? || o.WithoutUrl?
    ensures Build(AutoConfig.ApplyOptions(s, a + [o] + b)) == Build(AutoConfig.ApplyOptions(s, a + b))
  {
    var t := AutoConfig.ApplyOptions(s, a);
    AutoConfig.ApplyOptionsConcat(s, a + [o], b);
    AutoConfig.ApplyOptionsConcat(s, a, [o]);
    AutoConfig.ApplyOptionsConcat(s, a, b);
    assert [o][1..] == [];
    SameMatchesSameModule(AutoConfig.Step(t, o), t, b);
  }

  /** Two configurations that agree on the match table and the reader give the same
      reducer after the same options. */
  lemma {:induction false} SameMatchesSameModule(s1: AutoConfig.Settings, s2: AutoConfig.Settings, opts: seq<AutoConfig.Option>)
    requires s1.matches == s2.matches && s1.reader == s2.reader
    ensures var r1 := AutoConfig.ApplyOptions(s1, opts); var r2 := AutoConfig.ApplyOptions(s2, opts);
      r1.matches == r2.matches && r1.reader == r2.reader
    decreases |opts|
  {
    if |opts| > 0 {
      SameMatchesSameModule(AutoConfig.Step(s1, opts[0]), AutoConfig.Step(s2, opts[0]), opts[1..]);
    }
  }
}
