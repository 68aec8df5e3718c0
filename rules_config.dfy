/** Settings of the rule engine and their functional options (cardinality/rules/config.go). */
module RulesConfig {
  import CardinalityConfig

  const DefaultMaxRuleCount: int := 100
  const DefaultMaxSeparatorCount: int := 10

  /** The options `WithMaxRuleCount`, `WithMaxSeparatorCount` and `WithConfigReader`. */
  datatype Option =
    | WithMaxRuleCount(max: int)
    | WithMaxSeparatorCount(max: int)
    | WithConfigReader(reader: CardinalityConfig.ConfigReader)

  /** A snapshot of the `config` record's fields. */
  datatype Settings = Settings(maxRuleCount: int, maxSeparatorCount: int, reader: CardinalityConfig.ConfigReader)

  /** The fields `defaultConfig()` starts from. */
  function DefaultSettings(): Settings {
    Settings(DefaultMaxRuleCount, DefaultMaxSeparatorCount, CardinalityConfig.DefaultConfig())
  }

  /** The effect of one option on the record: it assigns its own field only. */
  function Step(s: Settings, o: Option): Settings {
    match o
    case WithMaxRuleCount(n) => s.(maxRuleCount := n)
    case WithMaxSeparatorCount(n) => s.(maxSeparatorCount := n)
    case WithConfigReader(r) => s.(reader := r)
  }

  /** Options applied in sequence, as `New` does. */
  function ApplyOptions(s: Settings, opts: seq<Option>): Settings
    decreases |opts|
  {
    if |opts| == 0 then s else ApplyOptions(Step(s, opts[0]), opts[1..])
  }

  /** The mutable `config` record that the option closures write into. */
  class Config {
    var maxRuleCount: int
    var maxSeparatorCount: int
    var reader: CardinalityConfig.ConfigReader

    function Value(): Settings
      reads this
    {
      Settings(maxRuleCount, maxSeparatorCount, reader)
    }

    /** `defaultConfig()`. */
    constructor ()
      ensures Value() == DefaultSettings()
      ensures maxRuleCount == 100 && maxSeparatorCount == 10
      ensures reader == CardinalityConfig.DefaultConfig()
    {
      reader := CardinalityConfig.DefaultConfig();
      maxRuleCount := DefaultMaxRuleCount;
      maxSeparatorCount := DefaultMaxSeparatorCount;
    }

    /** `opt.apply(c)`: the option's closure assigns exactly one field. */
    method Apply(o: Option)
      modifies this
      ensures Value() == Step(old(Value()), o)
      ensures o.WithMaxRuleCount? ==> maxRuleCount == o.max && maxSeparatorCount == old(maxSeparatorCount) && reader == old(reader)
      ensures o.WithMaxSeparatorCount? ==> maxSeparatorCount == o.max && maxRuleCount == old(maxRuleCount) && reader == old(reader)
      ensures o.WithConfigReader? ==> reader == o.reader && maxRuleCount == old(maxRuleCount) && maxSeparatorCount == old(maxSeparatorCount)
    {
      match o
      case WithMaxRuleCount(n) => maxRuleCount := n;
      case WithMaxSeparatorCount(n) => maxSeparatorCount := n;
      case WithConfigReader(r) => reader := r;
    }

    /** The loop at the top of `New`: every option, in order. */
    method ApplyAll(opts: seq<Option>)
      modifies this
      ensures Value() == ApplyOptions(old(Value()), opts)
    {
      var i := 0;
      while i < |opts|
        invariant 0 <= i <= |opts|
        invariant ApplyOptions(old(Value()), opts) == ApplyOptions(Value(), opts[i..])
      {
        assert opts[i..][1..] == opts[i + 1..];
        Apply(opts[i]);
        i := i + 1;
      }
    }
  }

  /** With no options the defaults are 100 rules, 10 segments and the default reader. */
  lemma DefaultsWithoutOptions()
    ensures ApplyOptions(DefaultSettings(), []) == DefaultSettings()
    ensures DefaultSettings().maxRuleCount == 100 && DefaultSettings().maxSeparatorCount == 10
    ensures DefaultSettings().reader == CardinalityConfig.DefaultConfig()
  {
  }

  /** Options compose: applying `a + b` is applying `a`, then `b`. */
  lemma {:induction false} ApplyOptionsConcat(s: Settings, a: seq<Option>, b: seq<Option>)
    ensures ApplyOptions(s, a + b) == ApplyOptions(ApplyOptions(s, a), b)
    decreases |a|
  {
    if |a| == 0 {
      assert a + b == b;
    } else {
      assert (a + b)[1..] == a[1..] + b;
      ApplyOptionsConcat(Step(s, a[0]), a[1..], b);
    }
  }

  /** The last option touching `maxRuleCount` wins, whatever precedes it. */
  lemma LastMaxRuleCountWins(s: Settings, opts: seq<Option>, n: int)
    ensures ApplyOptions(s, opts + [WithMaxRuleCount(n)]).maxRuleCount == n
  {
    ApplyOptionsConcat(s, opts, [WithMaxRuleCount(n)]);
  }

  /** The last option touching `maxSeparatorCount` wins. */
  lemma LastMaxSeparatorCountWins(s: Settings, opts: seq<Option>, n: int)
    ensures ApplyOptions(s, opts + [WithMaxSeparatorCount(n)]).maxSeparatorCount == n
  {
    ApplyOptionsConcat(s, opts, [WithMaxSeparatorCount(n)]);
  }

  /** A field no option touches keeps its starting value. */
  lemma {:induction false} UntouchedFieldsKept(s: Settings, opts: seq<Option>)
    ensures (forall k :: 0 <= k < |opts| ==> !opts[k].WithMaxRuleCount?) ==>
      ApplyOptions(s, opts).maxRuleCount == s.maxRuleCount
    ensures (forall k :: 0 <= k < |opts| ==> !opts[k].WithMaxSeparatorCount?) ==>
      ApplyOptions(s, opts).maxSeparatorCount == s.maxSeparatorCount
    ensures (forall k :: 0 <= k < |opts| ==> !opts[k].WithConfigReader?) ==>
      ApplyOptions(s, opts).reader == s.reader
    decreases |opts|
  {
    if |opts| > 0 {
      UntouchedFieldsKept(Step(s, opts[0]), opts[1..]);
      assert forall k :: 0 <= k < |opts[1..]| ==> opts[1..][k] == opts[k + 1];
    }
  }

  /** Options on different fields commute. */
  lemma DistinctOptionsCommute(s: Settings, a: Option, b: Option)
    requires a.WithMaxRuleCount? ==> !b.WithMaxRuleCount?
    requires a.WithMaxSeparatorCount? ==> !b.WithMaxSeparatorCount?
    requires a.WithConfigReader? ==> !b.WithConfigReader?
    ensures Step(Step(s, a), b) == Step(Step(s, b), a)
  {
  }
}
