/** The HTTP middleware's own path groupers (middleware/http/cardinality.go,
    cardinality_auto.go and config.go): the fixed automatic grouper, which the three
    files define identically, and the grouper list. */
module HttpGroupers {
  import opened GoStrings
  import AutoConfig
  import AutoReplace
  import Cardinality

  /** `CardinalityGrouper`: a path rewriter, the same contract as a replacer. */
  type Grouper = Cardinality.Replacer

  /** The token one segment becomes: an id wins over a resource, a resource over a
      UUID; any other segment is kept. */
  function Reduce(seg: string): string {
    if AutoConfig.IsId(seg) then ":id:"
    else if AutoConfig.IsResource(seg) then ":resource:"
    else if AutoConfig.IsUuid(seg) then ":uuid:"
    else seg
  }

  /** The segments of a path: leading slashes dropped, then split on `/`. */
  function PathSegments(path: string): seq<string> {
    Split(TrimLeft(path, '/'), '/')
  }

  /** Every segment reduced on its own. */
  function ReduceAll(segs: seq<string>): (out: seq<string>)
    ensures |out| == |segs| && forall k :: 0 <= k < |segs| ==> out[k] == Reduce(segs[k])
  {
    seq(|segs|, k requires 0 <= k < |segs| => Reduce(segs[k]))
  }

  /** What `decreasePathCardinality` returns: `/` before every reduced segment. */
  function DecreaseSpec(path: string): string {
    "/" + Join(ReduceAll(PathSegments(path)), '/')
  }

  /** `decreasePathCardinality`: a builder loop writing `/` and the reduced segment. */
  method DecreasePathCardinality(path: string) returns (r: string)
    ensures r == DecreaseSpec(path)
  {
    var trimmed := TrimLeft(path, '/');
    var pathParts := Split(trimmed, '/');
    r := WriteSegments(pathParts);
  }

  /** The loop of `decreasePathCardinality`: `/` and the reduced segment, for every
      segment in order. */
  method WriteSegments(pathParts: seq<string>) returns (b: string)
    requires |pathParts| >= 1
    ensures b == "/" + Join(ReduceAll(pathParts), '/')
  {
    ghost var out := ReduceAll(pathParts);
    b := [];
    var i := 0;
    while i < |pathParts|
      invariant 0 <= i <= |pathParts|
      invariant b == Built(out, i)
    {
      b := b + "/";
      var p := ReduceOf(pathParts[i]);
      b := b + p;
      i := i + 1;
    }
    BuiltJoin(out, i);
    assert out[..i] == out;
  }


  /** The body of the loop: the placeholder of the first recogniser that accepts the
      segment, or the segment itself. */
  method ReduceOf(part: string) returns (p: string)
    ensures p == Reduce(part)
  {
    p := part;
    if AutoConfig.IsId(part) {
      p := ":id:";
    } else if AutoConfig.IsResource(part) {
      p := ":resource:";
    } else if AutoConfig.IsUuid(part) {
      p := ":uuid:";
    }
  }

  /** What the builder holds after `i` segments: `/` before each reduced segment. */
  function Built(out: seq<string>, i: nat): string
    requires i <= |out|
  {
    if i == 0 then [] else Built(out, i - 1) + "/" + out[i - 1]
  }

  lemma {:induction false} BuiltJoin(out: seq<string>, i: nat)
    requires 1 <= i <= |out|
    ensures Built(out, i) == "/" + Join(out[..i], '/')
    decreases i
  {
    if i == 1 {
      assert out[..1] == [out[0]];
    } else {
      BuiltJoin(out, i - 1);
      var j := Join(out[..i - 1], '/');
      assert out[..i] == out[..i - 1] + [out[i - 1]];
      JoinSnoc(out[..i - 1], out[i - 1], '/');
      assert "/" + j + "/" + out[i - 1] == "/" + (j + "/" + out[i - 1]);
    }
  }


  /** `NewAutoGrouper`: the grouper that is `decreasePathCardinality`. */
  function NewAutoGrouper(): (g: Grouper)
    ensures forall path :: g(path) == DecreaseSpec(path)
  {
    path => DecreaseSpec(path)
  }

  /** `CardinalityGrouperList.Apply`: every grouper in order, each on the previous output. */
  method ApplyGroupers(list: seq<Grouper>, path: string) returns (r: string)
    ensures r == Cardinality.ApplyAll(list, path)
  {
    r := path;
    var i := 0;
    while i < |list|
      invariant 0 <= i <= |list|
      invariant Cardinality.ApplyAll(list, path) == Cardinality.ApplyAll(list[i..], r)
    {
      assert list[i..][1..] == list[i + 1..];
      r := list[i](r);
      i := i + 1;
    }
  }

  // ----- Properties -----

  /** The fixed grouper is the automatic reducer with the HTTP recognisers in their
      order, `/` with a leading separator, and the placeholders `:id:`, `:resource:`
      and `:uuid:`. */
  const LegacyModule := AutoReplace.AutoModule('/', [
    AutoReplace.Match(AutoConfig.IdExp, ":id:"),
    AutoReplace.Match(AutoConfig.ResourceExp, ":resource:"),
    AutoReplace.Match(AutoConfig.UuidExp, ":uuid:")], true)

  lemma ReduceIsClassify(seg: string)
    ensures Reduce(seg) == AutoReplace.Classify(LegacyModule.matches, seg)
  {
    var ms := LegacyModule.matches;
    assert ms[1..][1..] == [ms[2]];
    assert ms[2..][1..] == [];
  }

  lemma DecreaseIsAutoReplace(path: string)
    ensures DecreaseSpec(path) == AutoReplace.ReplaceSpec(LegacyModule, path)
  {
    var segs := PathSegments(path);
    forall k | 0 <= k < |segs| ensures Reduce(segs[k]) == AutoReplace.Classify(LegacyModule.matches, segs[k]) {
      ReduceIsClassify(segs[k]);
    }
    assert AutoReplace.Segments(LegacyModule, path) == segs;
    assert AutoReplace.Lead(LegacyModule) == "/";
    assert ReduceAll(segs) == AutoReplace.ClassifyAll(LegacyModule.matches, segs);
  }

  /** The output starts with `/` and, read back, has exactly the segments of the
      left-trimmed input, each reduced on its own: `//a/1` becomes `/a/:id:`. */
  lemma DecreaseSegmentwise(path: string)
    ensures |DecreaseSpec(path)| > 0 && DecreaseSpec(path)[0] == '/'
    ensures PathSegments(DecreaseSpec(path)) == ReduceAll(PathSegments(path))
  {
    DecreaseIsAutoReplace(path);
    LegacySafe();
    AutoReplace.ReplaceSegmentwise(LegacyModule, path);
    DecreaseIsAutoReplace(DecreaseSpec(path));
  }

  lemma LegacySafe()
    ensures AutoReplace.SegmentSafe(LegacyModule) && AutoReplace.PlaceholdersInert(LegacyModule)
  {
    AutoConfig.ColonNeverAccepted(":id:");
    AutoConfig.ColonNeverAccepted(":resource:");
    AutoConfig.ColonNeverAccepted(":uuid:");
  }

  /** Grouping twice is grouping once: `:id:`, `:resource:` and `:uuid:` match none of
      the recognisers. */
  lemma DecreaseIdempotent(path: string)
    ensures DecreaseSpec(DecreaseSpec(path)) == DecreaseSpec(path)
  {
    LegacySafe();
    DecreaseIsAutoReplace(path);
    DecreaseIsAutoReplace(DecreaseSpec(path));
    AutoReplace.ReplaceIdempotent(LegacyModule, path);
  }

  /** The empty path and any run of slashes group to `/`. */
  lemma DecreaseOnlySlashes(path: string)
    requires forall i :: 0 <= i < |path| ==> path[i] == '/'
    ensures DecreaseSpec(path) == "/"
  {
    TrimLeftShape(path, '/');
    assert PathSegments(path) == [""];
    assert Reduce("") == "";
  }

  /** Which token a segment becomes. A segment that already reads `:id:` (or one of
      the other tokens) is kept, so each token comes either from its recogniser, with
      the stated priority, or from a segment equal to it. */
  lemma ReducePriority(seg: string)
    ensures Reduce(seg) == ":id:" <==> AutoConfig.IsId(seg) || seg == ":id:"
    ensures Reduce(seg) == ":resource:" <==> (!AutoConfig.IsId(seg) && AutoConfig.IsResource(seg)) || seg == ":resource:"
    ensures Reduce(seg) == ":uuid:" <==>
      (!AutoConfig.IsId(seg) && !AutoConfig.IsResource(seg) && AutoConfig.IsUuid(seg)) || seg == ":uuid:"
    ensures !AutoConfig.IsId(seg) && !AutoConfig.IsResource(seg) && !AutoConfig.IsUuid(seg) ==> Reduce(seg) == seg
  {
    AutoConfig.ColonNeverAccepted(":id:");
    AutoConfig.ColonNeverAccepted(":resource:");
    AutoConfig.ColonNeverAccepted(":uuid:");
    assert AutoConfig.Accepts(AutoConfig.IdExp, seg) == AutoConfig.IsId(seg);
    assert AutoConfig.Accepts(AutoConfig.ResourceExp, seg) == AutoConfig.IsResource(seg);
    assert AutoConfig.Accepts(AutoConfig.UuidExp, seg) == AutoConfig.IsUuid(seg);
  }
}
