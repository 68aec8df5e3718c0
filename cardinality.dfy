/** The replacer contract shared by every cardinality reducer, and the
    package-wide placeholder convention (cardinality/cardinality.go). */
module Cardinality {
  import opened GoStrings

  /** Default separator between path segments. */
  const PathSeparator: char := '/'

  /** Default placeholder formatter: a logical name `id` becomes the token `:id`. */
  function PlaceholderFormatter(id: string): string {
    ":" + id
  }

  /** Default placeholder recogniser, the regular expression `^:[-\w]+$`:
      a colon followed by one or more word or hyphen characters. */
  predicate PlaceholderRegexp(s: string) {
    |s| >= 2 && s[0] == ':' && AllWordOrHyphen(s[1..])
  }

  /** A replacer rewrites a path into a (possibly) lower-cardinality path. */
  type Replacer = string -> string

  /** What `ReplacerList.Apply` computes: every replacer in list order, each
      seeing the previous one's output. */
  function ApplyAll(list: seq<Replacer>, path: string): string
    decreases |list|
  {
    if |list| == 0 then path else ApplyAll(list[1..], list[0](path))
  }

  /** `ReplacerList.Apply`: threads the path through every member in order;
      there is no early exit. */
  method Apply(list: seq<Replacer>, path: string) returns (r: string)
    ensures r == ApplyAll(list, path)
  {
    r := path;
    var i := 0;
    while i < |list|
      invariant 0 <= i <= |list|
      invariant ApplyAll(list, path) == ApplyAll(list[i..], r)
    {
      assert list[i..][1..] == list[i + 1..];
      r := list[i](r);
      i := i + 1;
    }
  }

  /** The empty list leaves the path unchanged. */
  lemma ApplyEmpty(path: string)
    ensures ApplyAll([], path) == path
  {
  }

  /** A one-element list is the replacer itself. */
  lemma ApplySingle(r: Replacer, path: string)
    ensures ApplyAll([r], path) == r(path)
  {
  }

  /** Running a concatenated list is running the first part, then the second on its output. */
  lemma {:induction false} ApplyConcat(l1: seq<Replacer>, l2: seq<Replacer>, path: string)
    ensures ApplyAll(l1 + l2, path) == ApplyAll(l2, ApplyAll(l1, path))
    decreases |l1|
  {
    if |l1| > 0 {
      assert (l1 + l2)[1..] == l1[1..] + l2;
      ApplyConcat(l1[1..], l2, l1[0](path));
    } else {
      assert l1 + l2 == l2;
    }
  }

  /** Appending a replacer applies it last: `Apply(l ++ [r]) == r . Apply(l)`. */
  lemma ApplySnoc(l: seq<Replacer>, r: Replacer, path: string)
    ensures ApplyAll(l + [r], path) == r(ApplyAll(l, path))
  {
    ApplyConcat(l, [r], path);
  }

  /** The default formatter's output is accepted by the default recogniser for any
      non-empty name of word or hyphen characters. */
  lemma FormatterOutputIsPlaceholder(id: string)
    requires |id| >= 1 && AllWordOrHyphen(id)
    ensures PlaceholderRegexp(PlaceholderFormatter(id))
  {
    assert PlaceholderFormatter(id)[1..] == id;
  }

  /** Conversely every recognised placeholder is the formatter's output for its name. */
  lemma PlaceholderIsFormatterOutput(s: string)
    requires PlaceholderRegexp(s)
    ensures s == PlaceholderFormatter(s[1..]) && |s[1..]| >= 1 && AllWordOrHyphen(s[1..])
  {
    assert [s[0]] + s[1..] == s;
  }
}
