/** The segment configuration shared by both reducers (cardinality/config.go):
    an immutable record built once and only read afterwards. */
module CardinalityConfig {
  import opened GoStrings
  import Cardinality

  /** `ConfigReader`: separator, whether output re-prepends it, the recogniser of
      already-formatted placeholders, and the formatter of logical names. */
  datatype ConfigReader = ImmutableCfg(
    hasLeadingSeparator: bool,
    pathSeparator: char,
    placeholderRegexp: string -> bool,
    placeholderFormatter: string -> string)
  {
    function HasLeadingSeparator(): bool { hasLeadingSeparator }
    function PathSeparator(): char { pathSeparator }
    function PlaceholderRegexp(): string -> bool { placeholderRegexp }
    function PlaceholderFormatter(): string -> string { placeholderFormatter }
  }

  /** `NewConfig(separator, hasLeadingSeparator, exp, formatter)`. */
  function NewConfig(separator: char, hasLeadingSeparator: bool,
                     exp: string -> bool, formatter: string -> string): ConfigReader
  {
    ImmutableCfg(hasLeadingSeparator, separator, exp, formatter)
  }

  /** The process-wide default: `/`, leading separator, `^:[-\w]+$`, `:name`. */
  const GlobalConfig: ConfigReader :=
    NewConfig('/', true, s => Cardinality.PlaceholderRegexp(s), id => Cardinality.PlaceholderFormatter(id))

  /** `DefaultConfig()` hands out the one shared default. */
  function DefaultConfig(): ConfigReader { GlobalConfig }

  /** Every accessor returns exactly what `NewConfig` was given. */
  lemma NewConfigAccessors(separator: char, hasLeadingSeparator: bool,
                           exp: string -> bool, formatter: string -> string)
    ensures var c := NewConfig(separator, hasLeadingSeparator, exp, formatter);
      c.PathSeparator() == separator && c.HasLeadingSeparator() == hasLeadingSeparator &&
      c.PlaceholderRegexp() == exp && c.PlaceholderFormatter() == formatter
  {
  }

  /** The default configuration's values, and that every call returns the same one. */
  lemma DefaultConfigValues()
    ensures DefaultConfig() == GlobalConfig
    ensures DefaultConfig().PathSeparator() == '/' && DefaultConfig().HasLeadingSeparator()
    ensures forall id :: DefaultConfig().PlaceholderFormatter()(id) == ":" + id
    ensures forall s :: DefaultConfig().PlaceholderRegexp()(s) <==> Cardinality.PlaceholderRegexp(s)
    ensures DefaultConfig().PlaceholderFormatter()("id") == ":id"
  {
  }

  /** The default recogniser accepts whatever the default formatter emits for a
      non-empty word-or-hyphen name, `:id` among them. */
  lemma DefaultFormatterRecognised(id: string)
    requires |id| >= 1 && AllWordOrHyphen(id)
    ensures DefaultConfig().PlaceholderRegexp()(DefaultConfig().PlaceholderFormatter()(id))
  {
    Cardinality.FormatterOutputIsPlaceholder(id);
  }
}
