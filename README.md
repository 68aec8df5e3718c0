# tel-io instrumentation: a Dafny model of the cardinality reducers and middleware decisions

This project models the parts of the tel-io instrumentation library (Go) that decide
*what* gets reported, leaving out *how* it is reported. Its centre is the
cardinality engine. The engine turns concrete request paths and NATS subjects into
templated ones, such as `/user/123/profile` into `/user/:id/profile`, so that span
names and metric labels stay few. Around it sit the middleware decisions that use it
or sit next to it.

| Dafny module | Go source | form |
|---|---|---|
| `GoStrings` | `strings.Split`, `Join`, `TrimLeft`, `HasPrefix`, `Index`, `Replace(.., 1)` | functions with Go's semantics (`Split("", s) == [""]`), `Join(Split(x)) == x` |
| `Results` | — | `Option` and `Result` |
| `Cardinality`, `CardinalityConfig` | cardinality/cardinality.go, cardinality/config.go | `ReplacerList.Apply` as a loop; the immutable segment configuration and the default recogniser `^:[-\w]+$` as a predicate |
| `AutoConfig`, `AutoReplace` | cardinality/auto/config.go, cardinality/auto/replace.go | the recogniser tables as a class whose `Without*` toggles clear flags in place; the classifier as a method building the output segment by segment |
| `RulesConfig`, `RulesReplace` | cardinality/rules/config.go, cardinality/rules/replace.go | option closures as a class; rule compilation and the equal-length and partial matchers as methods over `array<string>`, proved against functions |
| `HttpGroupers`, `HttpLegacyRules`, `HttpRulesGrouper` | middleware/http/cardinality*.go | the fixed-shape auto grouper, the stub rules grouper whose `applyFn` never reports a change, and the positional `applyPipe` grouper |
| `HttpConfig`, `HttpServer` | middleware/http/config.go, middleware/http/server.go | the span-name formatter and default filter, the option closures, the log-level bands and which payloads the server logs |
| `NatsOptions` | middleware/nats/options.go | the span-name subject reducer, the default middleware lists and the option closures |
| `PgxLogger` | plugins/pgx/logger.go | `logQueryArgs`: hex for byte slices, rune-boundary truncation for long strings |
| `Gapchi` | middleware/gapchi/middleware.go, chi_path_cleaner.go | the middleware builder's fixed stack order, the copying `WrapWriter`, `RemoveChiPathParam` |
| `OtelGrpcMeasures`, `OtelGrpcServer`, `OtelGrpcClient` | module/otelgrpc | the sequence of counter adds and histogram records each interceptor and wrapped stream makes |
| `*Examples` | the `*_test.go` files | the repository's test vectors, each as a lemma about the model |

Go's slice-index panics are an explicit outcome (`IndexPanic`, `Panicked`), not a
precondition. Go strings are bytes. Where only ASCII text is involved they are
`seq<char>`; where the byte values matter, as in the pgx logger, they are `seq<byte>`.

Two places where the code and its tests disagree; the model follows the code:

- `middleware/http/cardinality_test.go:28-38` expects rule templates that do not follow
  from the groupers in middleware/http. With the positional `applyPipe`, `/api/v1/tournaments/detail/diamond-luck`
  keeps its path (`HttpRulesExamples.TournamentKept`). Only the 100-rule rejection and the
  `/game/logout` case are used as vectors.
- `cardinality/cardinality_bench_test.go:12` expects `{id}` under the HTTP table, which
  writes `:id`. The model follows the table.

Two versions of the code disagree with each other:

- `cardinality/auto/config.go:123-129` calls a `NewConfig` with options, but
  `cardinality/config.go`'s `NewConfig` takes positional arguments. The positional form
  is modelled.
- `auto.New` (cardinality/auto/replace.go:19) calls `defaultConfig()`, whose definition
  is not modelled. The model takes the HTTP table, which is what
  `cardinality/auto/replace_test.go:18-25` expects.

## Model

| member | source | states |
|---|---|---|
| Cardinality.Apply | cardinality/cardinality.go:23-29 | the path is threaded through every replacer of the list in order, each seeing the previous one's output, with no early exit |
| Cardinality.ApplyEmpty | cardinality/cardinality.go:23-29 | an empty replacer list returns the path unchanged |
| Cardinality.ApplySingle | cardinality/cardinality.go:23-29 | a one-element list is that replacer |
| Cardinality.ApplyConcat | cardinality/cardinality.go:23-29 | applying `l1 + l2` is applying `l1`, then `l2` on its output |
| Cardinality.ApplySnoc | cardinality/cardinality.go:23-29 | a replacer appended to a list runs last, on the list's output |
| Cardinality.FormatterOutputIsPlaceholder | cardinality/cardinality.go:13-14 | the default formatter's `:name` for any non-empty word-or-hyphen name is accepted by `^:[-\w]+$` |
| Cardinality.PlaceholderIsFormatterOutput | cardinality/cardinality.go:13-14 | every string `^:[-\w]+$` accepts is the default formatter's output for its own name |
| CardinalityConfig.NewConfigAccessors | cardinality/config.go:30-61 | each accessor of the immutable record returns exactly the value `NewConfig` was given |
| CardinalityConfig.DefaultConfigValues | cardinality/config.go:9-21 | the shared default is `/`, with a leading separator, formatter `:name` and recogniser `^:[-\w]+$`, and every `DefaultConfig()` call returns that one value |
| CardinalityConfig.DefaultFormatterRecognised | cardinality/config.go:9-17 | the default recogniser accepts whatever the default formatter emits for a non-empty word-or-hyphen name |
| AutoConfig.FirstWithId | cardinality/auto/config.go:33-38 | the index found is the first entry carrying the id, or the table's length when none does |
| AutoConfig.Config.constructor | cardinality/auto/config.go:108-114 | the mutable record starts from the given snapshot |
| AutoConfig.Config.DisableMatch | cardinality/auto/config.go:31-40 | the loop over `c.matches` switches off the first entry with the key and returns; prefixes and reader are untouched |
| AutoConfig.Config.DisablePrefix | cardinality/auto/config.go:64-84 | the loop over `c.prefixes` switches off the first entry with the key; matches and reader are untouched |
| AutoConfig.Config.Apply | cardinality/auto/config.go:25-95 | one option changes the record exactly as its closure does: a config reader replaces the reader, each `Without…` option clears its own key in its own table |
| AutoConfig.Config.ApplyAll | cardinality/auto/replace.go:18-24 | the options are applied in order, each to the record left by the previous one |
| AutoConfig.DisableOnlyClears | cardinality/auto/config.go:31-95 | a `Without…` option keeps the table's length, ids and recognisers, clears the first entry with the key and leaves every other entry's state as it was |
| AutoConfig.DisableAbsent | cardinality/auto/config.go:31-95 | a key the table does not hold leaves the table unchanged |
| AutoConfig.DisableIdempotent | cardinality/auto/config.go:31-95 | giving the same `Without…` option twice is giving it once |
| AutoConfig.DisableCommutes | cardinality/auto/config.go:31-95 | two `Without…` options on the same table may be given in either order |
| AutoConfig.FirstWithIdSameIds | cardinality/auto/config.go:33-38 | the entry an option finds depends only on the ids, not on the states already cleared |
| AutoConfig.ApplyOptionsConcat | cardinality/auto/replace.go:18-24 | applying options `a + b` is applying `a`, then `b` |
| AutoConfig.StepShape | cardinality/auto/config.go:31-95 | `WithoutInbox` and `WithoutUrl` edit only the prefix table, the other `Without…` options only the match table |
| AutoConfig.StepsCommute | cardinality/auto/config.go:25-95 | any two options commute, except two config readers, where the last one wins |
| AutoConfig.DefaultConfigHttpValues | cardinality/auto/config.go:154-182 | the HTTP defaults' match table is exactly the id, resource and UUID recognisers with ids `id`, `resource`, `uuid`, all on and in that order (the order the reducer tries them in); no prefixes; separator `/` with a leading separator and `:name` placeholders |
| AutoConfig.DefaultConfigNatsValues | cardinality/auto/config.go:122-152 | the NATS defaults' prefix table is exactly `_INBOX` with id `inbox` and `/` with id `url`, both on; the match table is exactly the numeric recogniser with id `partition`, on; separator `.` without a leading separator and `{name}` placeholders |
| AutoConfig.ApplyOptionsKeepsShape | cardinality/auto/config.go:31-95 | options other than a config reader keep the reader and the ids and recognisers of both tables; only states change |
| AutoConfig.ColonNeverAccepted | cardinality/auto/config.go:10-14 | a segment starting with `:` that is not 36 characters long matches none of `^\d+$`, the resource expression or the UUID expression |
| AutoReplace.New | cardinality/auto/replace.go:18-43 | the reducer is built from the defaults after every option, keeping the recognisers that are on, in table order, each with `formatter(id)` as placeholder, and the reader's separator settings |
| AutoReplace.ClassifyAll | cardinality/auto/replace.go:63-78 | every segment yields exactly one output segment |
| AutoReplace.Replace | cardinality/auto/replace.go:57-81 | the result is the leading separator (when configured) followed by the trimmed, split segments, each replaced by the first accepting placeholder, joined by the separator |
| AutoReplace.EnabledMatchesSnoc | cardinality/auto/replace.go:27-36 | `New` keeps table order: an entry appended to the table adds its match at the end, or nothing when it is off |
| AutoReplace.FirstAccepting | cardinality/auto/replace.go:70-75 | the index found is the first entry that is on and accepts the segment, or the table's length |
| AutoReplace.ClassifyFirstEnabled | cardinality/auto/replace.go:27-36 | a segment becomes `formatter(id)` of the first table entry that is on and accepts it; entries that are off are skipped; a segment nobody accepts is kept |
| AutoReplace.EnabledMatchesFrom | cardinality/auto/replace.go:27-36 | every placeholder of the reducer is the formatter's output for some entry that is on |
| AutoReplace.ClassifyIsPlaceholderOrSelf | cardinality/auto/replace.go:68-77 | an output segment is either one of the reducer's placeholders or the input segment itself |
| AutoReplace.ClassifyNoneAccepts | cardinality/auto/replace.go:68-77 | a segment no recogniser accepts is written unchanged |
| AutoReplace.ReplaceSegmentwise | cardinality/auto/replace.go:57-81 | when placeholders are non-empty and free of the separator, the output read back with the same separator gives exactly the classified input segments |
| AutoReplace.ReplaceIdempotent | cardinality/auto/replace.go:57-81 | when, in addition, no recogniser accepts a placeholder, a second pass over the output changes nothing |
| AutoReplace.DefaultReplaceIdempotent | cardinality/auto/replace.go:18-81 | with the HTTP defaults and any `Without…` options, reducing a reduced path changes nothing |
| AutoReplace.PrefixOptionsIgnored | cardinality/auto/replace.go:18-43 | `WithoutInbox` and `WithoutUrl` anywhere in the option list do not change the reducer `New` builds, since it never reads the prefix table |
| AutoReplace.SameMatchesSameModule | cardinality/auto/replace.go:18-43 | two configurations that agree on the match table and the reader still agree on both after the same options |
| AutoReplaceExamples.SamplePath | cardinality/auto/replace_test.go:16 | the test's path splits, after trimming the leading `/`, into its six segments |
| AutoReplaceExamples.Plain | cardinality/auto/config.go:10-14 | a segment starting with a non-digit, without a dot and not 36 characters long matches no recogniser |
| AutoReplaceExamples.SampleRecognition | cardinality/auto/config.go:10-14 | of the test's segments, only `123` is an id, only `favicon.ico` a resource and only the UUID a UUID |
| AutoReplaceExamples.WithoutIdReplaces | cardinality/auto/replace_test.go:18-19 | with `WithoutId` the test's path becomes `/player/update/123/file/:resource/:uuid` |
| AutoReplaceExamples.WithoutResourceReplaces | cardinality/auto/replace_test.go:21-22 | with `WithoutResource` it becomes `/player/update/:id/file/favicon.ico/:uuid` |
| AutoReplaceExamples.WithoutUuidReplaces | cardinality/auto/replace_test.go:24-25 | with `WithoutUUID` it becomes `/player/update/:id/file/:resource/<uuid>` |
| AutoReplaceExamples.DotReplaces | cardinality/auto/replace_test.go:27-37 | with a `.`-separated reader without a leading separator, `player.update.123` becomes `player.update.{id}` |
| AutoReplaceExamples.Scenario | cardinality/auto/replace_test.go:13-38 | the four results of the test, obtained through the `New` and `Replace` methods, are the strings the test expects |
| RulesConfig.Config.constructor | cardinality/rules/config.go:46-52 | the record starts at 100 rules, 10 segments and the shared default reader |
| RulesConfig.Config.Apply | cardinality/rules/config.go:7-23 | each option's closure assigns its own field and leaves the other two as they were |
| RulesConfig.Config.ApplyAll | cardinality/rules/replace.go:18-24 | the options are applied in order |
| RulesConfig.DefaultsWithoutOptions | cardinality/rules/config.go:25-52 | without options the settings are 100 rules, 10 segments and the default reader |
| RulesConfig.ApplyOptionsConcat | cardinality/rules/replace.go:18-24 | applying `a + b` is applying `a`, then `b` |
| RulesConfig.LastMaxRuleCountWins | cardinality/rules/config.go:7-11 | the last `WithMaxRuleCount` decides the rule limit |
| RulesConfig.LastMaxSeparatorCountWins | cardinality/rules/config.go:13-17 | the last `WithMaxSeparatorCount` decides the segment limit |
| RulesConfig.UntouchedFieldsKept | cardinality/rules/config.go:7-23 | a field no option in the list assigns keeps its starting value |
| RulesConfig.DistinctOptionsCommute | cardinality/rules/config.go:7-23 | options on different fields may be given in either order |
| RulesReplace.ToParts | cardinality/rules/replace.go:81-96 | a rule has one part per segment, in order, flagged as a placeholder exactly when the recogniser accepts the segment |
| RulesReplace.FirstLiteralIn | cardinality/rules/replace.go:81-86 | the index found is the first non-placeholder part in the range, or the range's end |
| RulesReplace.FindSegment | cardinality/rules/replace.go:145-146 | the index found is the first segment from `from` on equal to the value, or the segment count |
| RulesReplace.FindAnchor | cardinality/rules/replace.go:144-146 | the anchor found is the first (part, segment) pair in the nested loops' order, both starting at `firstValuePos`, whose segment equals the part; none is found only when no such pair exists |
| RulesReplace.Module.constructor | cardinality/rules/replace.go:28-33 | the replacer copies the separator, leading-separator flag, recogniser and segment limit from the settings and has no patterns yet |
| RulesReplace.Module.ClassifySegments | cardinality/rules/replace.go:77-96 | the inner loop yields the rule's parts, the first literal's index (0 when there is none) and whether any part is a placeholder |
| RulesReplace.Module.PreparePatterns | cardinality/rules/replace.go:64-109 | the rules are compiled in order and appended to the patterns, stopping at the first rule that is too long or has no placeholder, whose error is returned |
| RulesReplace.PrepareStep | cardinality/rules/replace.go:64-109 | one turn of the loop: a rule that does not compile ends it with that rule's error, one that compiles appends its pattern and leaves the rest to the remaining rules |
| RulesReplace.HasPlaceholderSnoc | cardinality/rules/replace.go:88-95 | one more part leaves a placeholder seen iff one was seen before or the new part is one |
| RulesReplace.Module.Replace | cardinality/rules/replace.go:52-62 | the patterns are tried in order and the first that matches gives the result; with no match the path is returned unchanged |
| RulesReplace.Module.Exec | cardinality/rules/replace.go:111-126 | the path is trimmed and split; fewer segments than parts never match, equal counts use the equal match, more use the partial match |
| RulesReplace.Module.MutateEqual | cardinality/rules/replace.go:128-141 | the equal match overwrites placeholder positions and matches iff every literal equals its segment, returning the serialised segments |
| RulesReplace.Module.MutatePartial | cardinality/rules/replace.go:143-171 | the partial match finds the anchor in nested order and re-aligns around it, with the source's own indexing |
| RulesReplace.Module.Realign | cardinality/rules/replace.go:147-165 | once the anchor is found, any literal other than the anchor rejects the rule, writes go to `j - i + k` before and `j + k` after the anchor, and a write outside the path is a Go index panic |
| RulesReplace.New | cardinality/rules/replace.go:18-41 | the options are applied to the defaults; `maxRuleCount` or more rules is an error, so is the first bad rule; otherwise a fresh replacer holds every rule's compilation in order |
| RulesReplace.FirstLiteralExtend | cardinality/rules/replace.go:83-86 | `valuePos` moves only at the first literal seen |
| RulesReplace.Values | cardinality/rules/replace.go:182-185 | the values of a rule's parts, one per part, in order |
| RulesReplace.CompileRuleErrors | cardinality/rules/replace.go:70-100 | a rule compiles iff it has fewer segments than the limit and at least one placeholder segment; each error arises in exactly its own case |
| RulesReplace.CompileRuleRoundTrip | cardinality/rules/replace.go:64-105 | a compiled rule's values joined by the separator give back the rule without its leading separators; every part is flagged by the recogniser; `firstValuePos` is the first literal, or 0 when all parts are placeholders |
| RulesReplace.PrepareOutcome | cardinality/rules/replace.go:64-109 | the patterns kept are the compilations of a prefix of the rules; there is no error iff every rule was kept, and an error is that of the next rule |
| RulesReplace.CompileOutcome | cardinality/rules/replace.go:18-41 | `New` succeeds iff there are fewer rules than the limit and every rule compiles; the patterns are then the rules' compilations in order; too many rules is always `TooManyRules` |
| RulesReplace.ShorterPathNeverMatches | cardinality/rules/replace.go:117-119 | a path with fewer segments than the rule is never rewritten by it |
| RulesReplace.EqualMatchCollapsesToRule | cardinality/rules/replace.go:128-141 | an equal-length path matches iff every literal equals its segment, and then the output is the rule itself, serialised |
| RulesReplace.ReplaceFirstMatchWins | cardinality/rules/replace.go:52-62 | the first matching pattern decides; patterns after it are not consulted |
| RulesReplace.ReplaceNoMatchKeepsPath | cardinality/rules/replace.go:52-62 | when no pattern matches, the path is returned unchanged |
| RulesReplace.AsWrittenAgreesWhenAnchorFirst | cardinality/rules/replace.go:143-171 | when the anchor is the rule's first part and the rule fits from there, the code as written and the corrected re-alignment give the same result |
| RulesReplace.IntendedPartialPlacesRule | cardinality/rules/replace.go:143-171 | the corrected partial match never panics, and when it matches the rule's parts occupy one window of the path and every other segment is kept |
| RulesReplace.RealignIntendedWindow | cardinality/rules/replace.go:147-165 | the corrected re-alignment never panics and, when it matches, writes the rule over the window starting at `j - i` |
| RulesReplace.LaidOverIsWindow | cardinality/rules/replace.go:147-165 | laying the rule over the path from `left` writes its values there and keeps every other segment |
| RulesReplace.ReplaceIntendedNeverPanics | cardinality/rules/replace.go:52-62 | with the corrected partial match, `Replace` never panics, whatever the rules and the path |
| RulesReplaceExamples.RuleOf | cardinality/rules/replace.go:66-70 | a rule written as its segments, with or without a leading `/`, splits back into those segments |
| RulesReplaceExamples.PathOf | cardinality/rules/replace.go:112 | a path `/` followed by its segments is matched on those segments |
| RulesReplaceExamples.CompileAll | cardinality/rules/replace.go:18-41 | fewer than 100 rules that each compile compile together, in order |
| RulesReplaceExamples.PartialRulesCompile | cardinality/rules/replace_test.go:17-23 | the four rules of TestPartial compile without error |
| RulesReplaceExamples.PartialA20 | cardinality/rules/replace_test.go:26 | `/a20/b20/c20` becomes `/a20/:XX/c20` |
| RulesReplaceExamples.PartialA21 | cardinality/rules/replace_test.go:27 | `/a21/b21/c21` becomes `/:XX/b21/c21` |
| RulesReplaceExamples.PartialA22 | cardinality/rules/replace_test.go:28 | `/a22/b22/c22` becomes `/a22/b22/:XX` |
| RulesReplaceExamples.PartialA23 | cardinality/rules/replace_test.go:29 | `/a23/b23/c23` becomes `/a23/:XX/c23` |
| RulesReplaceExamples.EqualRulesCompile | cardinality/rules/replace_test.go:39-52 | the eleven rules of TestEqual compile without error |
| RulesReplaceExamples.EqualA01 | cardinality/rules/replace_test.go:55 | `/a01/b01/c01/d01` becomes `/:AA/b01/c01/:DD` |
| RulesReplaceExamples.EqualA02 | cardinality/rules/replace_test.go:56 | `/a02/b02/c02/d02` becomes `/a02/:BB/c02/:DD`, after one rule that does not match |
| RulesReplaceExamples.EqualA03 | cardinality/rules/replace_test.go:57 | `/a03/b03/c03/d03` becomes `/a03/b03/:CC/:DD`, after two rules that do not match |
| RulesReplaceExamples.EqualA04 | cardinality/rules/replace_test.go:58 | `/a04/b04/c04/d04` becomes `/a04/b04/c04/:DD`, after three rules that do not match |
| RulesReplaceExamples.EqualA05 | cardinality/rules/replace_test.go:59 | `/a05/b05/c05/d05` becomes `/:AA/b05/c05/d05` |
| RulesReplaceExamples.EqualA06 | cardinality/rules/replace_test.go:60 | `/a06/b06/c06/d06` becomes `/:AA/:BB/c06/d06`, after five rules that do not match |
| RulesReplaceExamples.EqualA07 | cardinality/rules/replace_test.go:61 | `/a07/b07/c07/d07` becomes `/:AA/b07/:CC/d07`, after six rules that do not match |
| RulesReplaceExamples.EqualA08 | cardinality/rules/replace_test.go:62 | `/a08/b08/c08/d08` becomes `/:AA/b08/c08/:DD`, after seven rules that do not match |
| RulesReplaceExamples.EqualA09 | cardinality/rules/replace_test.go:63 | `/a09/b09/c09/d09` becomes `/a09/:BB/:CC/d09`, after eight rules that do not match |
| RulesReplaceExamples.EqualA10 | cardinality/rules/replace_test.go:64 | `/a10/b10/c10/d10` becomes `/a10/:BB/:CC/:DD`, after nine rules that do not match |
| RulesReplaceExamples.EqualA11 | cardinality/rules/replace_test.go:65 | `/a11/b11/c11/d11` becomes `/:AA/:BB/:CC/d11`, after ten rules that do not match |
| RulesReplaceExamples.EqualA12 | cardinality/rules/replace_test.go:67 | `/a12/b12/c12/d12`, which no rule fits, is kept |
| RulesReplaceExamples.EqualA13 | cardinality/rules/replace_test.go:68 | `/a13/b13/c13`, shorter than every rule, is kept |
| RulesReplaceExamples.EqualA14 | cardinality/rules/replace_test.go:69 | `/a14/b14`, shorter than every rule, is kept |
| RulesReplaceExamples.EqualA15 | cardinality/rules/replace_test.go:70 | `/a15`, shorter than every rule, is kept |
| RulesReplaceExamples.EqualA16 | cardinality/rules/replace_test.go:72 | `/a16/b16/c16/d16`, whose literals agree with no rule, is kept |
| RulesReplaceExamples.EqualA17 | cardinality/rules/replace_test.go:73 | `/a17/b17/c17`, shorter than every rule, is kept |
| RulesReplaceExamples.EqualA18 | cardinality/rules/replace_test.go:74 | `/a18/b18`, shorter than every rule, is kept |
| RulesReplaceExamples.EqualA19 | cardinality/rules/replace_test.go:75 | `/a19`, shorter than every rule, is kept |
| RulesReplaceExamples.ByLenRulesCompile | cardinality/rules/replace_test.go:113-119 | the four all-placeholder rules compile |
| RulesReplaceExamples.ByLenA12 | cardinality/rules/replace_test.go:122 | a four-segment path becomes `/:AA/:BB/:CC/:DD` |
| RulesReplaceExamples.ByLenA13 | cardinality/rules/replace_test.go:123 | a three-segment path becomes `/:AA/:BB/:CC` |
| RulesReplaceExamples.ByLenA14 | cardinality/rules/replace_test.go:124 | a two-segment path becomes `/:AA/:BB` |
| RulesReplaceExamples.ByLenA15 | cardinality/rules/replace_test.go:125 | a one-segment path becomes `/:AA` |
| RulesReplaceExamples.ByLen2RulesCompile | cardinality/rules/replace_test.go:135-143 | the six rules of TestRulesByLen2 compile without error |
| RulesReplaceExamples.ByLen2A13 | cardinality/rules/replace_test.go:149 | `/a13/b13/c13` fits none of the first three rules, whose literals `a10`, `a11`, `a12` it lacks, and becomes `/:AA/b13/c13` |
| RulesReplaceExamples.BreakRulesCompile | cardinality/rules/replace_test.go:161-164 | the rule of TestBreakRule compiles |
| RulesReplaceExamples.BreakA01 | cardinality/rules/replace_test.go:167 | a differing literal keeps `/a01/b01/c01/d01` as it is |
| RulesReplaceExamples.CompileSingle | cardinality/rules/replace.go:18-41 | a one-rule list compiles exactly as its rule does |
| RulesReplaceExamples.NoRulesAccepted | cardinality/rules/replace_test.go:87-91 | an empty rule list is accepted |
| RulesReplaceExamples.EmptyRulesRejected | cardinality/rules/replace_test.go:93-100 | `""`, `/` and `//` are rejected as rules without a placeholder |
| RulesReplaceExamples.LiteralRuleRejected | cardinality/rules/replace_test.go:102-103 | `/main` is rejected as a rule without a placeholder |
| RulesReplaceExamples.LongRuleRejected | cardinality/rules/replace_test.go:105-106 | `strings.Repeat("/:x", n)` for `n >= 10` is rejected as too long |
| RulesReplaceExamples.TooManyRulesRejected | cardinality/rules/replace_test.go:108-109 | 100 rules are rejected as too many, whatever they are |
| RulesReplaceExamples.WindowRuleCompiles | cardinality/rules/replace.go:64-109 | `/:A/x/:B` compiles with its literal at position 1 |
| RulesReplaceExamples.RightPlaceholderMisplaced | cardinality/rules/replace.go:157-163 | as written, `/p/x/q/r` becomes `/:A/x/q/:B`; the corrected match gives `/:A/x/:B/r` |
| RulesReplaceExamples.RightPlaceholderPanics | cardinality/rules/replace.go:157-163 | as written, `/p/q/x/r` indexes past the path's end (a panic); the corrected match gives `/p/:A/x/:B` |
| RulesReplaceExamples.LeftRuleCompiles | cardinality/rules/replace.go:64-109 | `/:X/a/:Y/b` compiles with its first literal at position 1 |
| RulesReplaceExamples.LeftPlaceholderPanics | cardinality/rules/replace.go:144-154 | as written, `/z/b/w/v/u` writes to a negative index (a panic); the corrected match does not match |
| HttpGroupers.ReduceAll | middleware/http/cardinality.go:19-31 | every segment is reduced on its own, one output per input segment |
| HttpGroupers.DecreasePathCardinality | middleware/http/cardinality.go:14-34 | the builder loop writes `/` and the reduced segment for every segment of the left-trimmed, split path |
| HttpGroupers.WriteSegments | middleware/http/cardinality.go:19-31 | the loop writes `/` followed by the reduced segment for every segment, in order |
| HttpGroupers.ReduceOf | middleware/http/cardinality.go:22-29 | the body of the loop picks the same token as the segment rule: `:id:`, `:resource:`, `:uuid:` or the segment itself |
| HttpGroupers.BuiltJoin | middleware/http/cardinality.go:19-31 | after some turns of the loop the builder holds `/` and the reduced segments so far joined by `/` |
| HttpGroupers.NewAutoGrouper | middleware/http/cardinality_auto.go:36-40 | the automatic grouper is `decreasePathCardinality` on every path |
| HttpGroupers.ApplyGroupers | middleware/http/cardinality.go:41-47 | the grouper list threads the path through every grouper in order |
| HttpGroupers.ReduceIsClassify | middleware/http/cardinality.go:21-29 | the segment rule (id before resource before UUID, else kept) is the automatic reducer's first-match rule with the three recognisers in that order |
| HttpGroupers.DecreaseIsAutoReplace | middleware/http/cardinality.go:14-34 | the fixed grouper computes what the automatic reducer computes with `/`, a leading separator and the placeholders `:id:`, `:resource:`, `:uuid:` |
| HttpGroupers.DecreaseSegmentwise | middleware/http/cardinality.go:14-34 | the output starts with `/` and, read back, has exactly the input's segments, each reduced on its own |
| HttpGroupers.LegacySafe | middleware/http/cardinality.go:9-12 | the three tokens are non-empty, contain no `/` and match none of the recognisers |
| HttpGroupers.DecreaseIdempotent | middleware/http/cardinality.go:14-34 | grouping a grouped path changes nothing |
| HttpGroupers.DecreaseOnlySlashes | middleware/http/cardinality.go:14-34 | the empty path and any run of slashes group to `/` |
| HttpGroupers.ReducePriority | middleware/http/cardinality.go:21-29 | a segment becomes `:id:` iff it is numeric (or already `:id:`), `:resource:` iff it is a non-numeric resource name (or already the token), `:uuid:` iff it is only a UUID (or already the token); any other segment is kept |
| HttpLegacyRules.ToParts | middleware/http/cardinality.go:86-98 | one part per segment, flagged by `^:[-\w]+$` |
| HttpLegacyRules.FirstPlaceholder | middleware/http/cardinality.go:88-92 | the index found is the first placeholder part, or the part count when there is none |
| HttpLegacyRules.RuleParts | middleware/http/cardinality.go:86-98 | the inner loop yields the parts and the position of the first placeholder, if any |
| HttpLegacyRules.CompileOne | middleware/http/cardinality.go:75-107 | one rule is checked for more than ten segments, then fewer than two, then compiled; no placeholder is an error |
| HttpLegacyRules.Rules2Pipe | middleware/http/cardinality.go:73-111 | one pipe per rule is appended in order, returning at the first bad rule |
| HttpLegacyRules.ApplyFn | middleware/http/cardinality.go:113-140 | `applyFn` returns the path it was given in every case: a rule longer than the path returns it, and `isModified` is never set |
| HttpLegacyRules.Group | middleware/http/cardinality.go:154-160 | the grouper `NewRulesGrouper` returns leaves every path unchanged |
| HttpLegacyRules.NewRulesGrouper | middleware/http/cardinality.go:142-161 | 100 rules or more is an error; otherwise the result is what `rules2Pipe` gives |
| HttpLegacyRules.FirstPlaceholderSnoc | middleware/http/cardinality.go:88-92 | the first placeholder index moves only at the first placeholder seen |
| HttpLegacyRules.CompileRuleOutcome | middleware/http/cardinality.go:74-107 | a rule is rejected exactly when it has more than ten segments, fewer than two, or no placeholder segment, with the matching error; otherwise its parts are its segments and `skip` is its first placeholder, which is what line 91's `&i` gives under the per-iteration loop variables of Go 1.22 and later (before 1.22 it would read as the last index; `skip` is never read, so nothing observable depends on it) |
| HttpLegacyRules.Rules2PipeOutcome | middleware/http/cardinality.go:73-111 | `rules2Pipe` succeeds iff every rule compiles, with one pipe per rule in order; otherwise it fails with the first bad rule's error |
| HttpLegacyRules.Rules2PipeStep | middleware/http/cardinality.go:73-111 | one turn of the loop: a rule that does not compile decides the error, one that compiles moves its pipe to the end of the list built so far |
| HttpLegacyRules.Rules2PipeSucceeds | middleware/http/cardinality.go:73-111 | `rules2Pipe` succeeds iff every rule compiles |
| HttpLegacyRules.Rules2PipeValues | middleware/http/cardinality.go:73-111 | on success there is one pipe per rule, each the compiled rule at its position |
| HttpLegacyRules.Rules2PipeFirstFailure | middleware/http/cardinality.go:73-111 | on failure the error is that of a rule all of whose predecessors compile |
| HttpRulesGrouper.Serialize | middleware/http/cardinality_rules.go:61-63 | a serialised segment list always starts with `/` |
| HttpRulesGrouper.ToParts | middleware/http/cardinality_rules.go:229-247 | one part per segment, flagged by `^:[-\w]+$` |
| HttpRulesGrouper.Values | middleware/http/cardinality_rules.go:16-19 | the rule's segments as written, one per part |
| HttpRulesGrouper.FirstWith | middleware/http/cardinality_rules.go:231-241 | the index found is the first part with the given flag, or the part count |
| HttpRulesGrouper.RuleParts | middleware/http/cardinality_rules.go:229-247 | the inner loop yields the parts, the position of the first literal and that of the first placeholder, each absent when there is none |
| HttpRulesGrouper.CompileOne | middleware/http/cardinality_rules.go:222-257 | ten segments or more is an error, so is a rule without a placeholder; otherwise the pipe holds the parts, `skip` and `firstPlaceholder` |
| HttpRulesGrouper.Rules2Pipe | middleware/http/cardinality_rules.go:220-261 | one pipe per rule is appended in order, returning at the first bad rule |
| HttpRulesGrouper.NewRulesGrouper | middleware/http/cardinality_rules.go:32-45 | an empty list is an error, so are 100 rules or more; otherwise the result is what `rules2Pipe` gives |
| HttpRulesGrouper.Overlay | middleware/http/cardinality_rules.go:87-93 | overwriting placeholder positions keeps the segment count |
| HttpRulesGrouper.ApplyPipe | middleware/http/cardinality_rules.go:69-119 | the walk over the rule overwrites placeholders and compares each literal with the segment at position `skipped`, which is always its own position; a mismatch returns the path and `false` |
| HttpRulesGrouper.Group | middleware/http/cardinality_rules.go:48-58 | the closure tries the pipes in order and returns the first one's output that applies, else the path |
| HttpRulesGrouper.Grouper | middleware/http/cardinality_rules.go:48-58 | the grouper as a path rewriter computes the same as `Group` on every path |
| HttpRulesGrouper.FirstWithSnoc | middleware/http/cardinality_rules.go:231-241 | a first-position index moves only at the first part with the flag |
| HttpRulesGrouper.CompileRuleOutcome | middleware/http/cardinality_rules.go:220-257 | a rule is rejected exactly when it has ten segments or more, or no placeholder segment; an accepted rule keeps every segment and records its first literal and first placeholder |
| HttpRulesGrouper.Rules2PipeOutcome | middleware/http/cardinality_rules.go:220-261 | `rules2Pipe` succeeds iff every rule compiles, one pipe per rule in order; otherwise it fails with the first bad rule's error |
| HttpRulesGrouper.Rules2PipeStep | middleware/http/cardinality_rules.go:220-261 | one turn of the loop: a rule that does not compile decides the error, one that compiles moves its pipe to the end of the list built so far |
| HttpRulesGrouper.Rules2PipeSucceeds | middleware/http/cardinality_rules.go:220-261 | `rules2Pipe` succeeds iff every rule compiles |
| HttpRulesGrouper.Rules2PipeValues | middleware/http/cardinality_rules.go:220-261 | on success there is one pipe per rule, each the compiled rule at its position |
| HttpRulesGrouper.Rules2PipeFirstFailure | middleware/http/cardinality_rules.go:220-261 | on failure the error is that of a rule all of whose predecessors compile |
| HttpRulesGrouper.ApplyPipeOutcome | middleware/http/cardinality_rules.go:69-119 | a pipe applies iff the path has at least as many segments as the rule and every literal equals the segment at its position; the output is then `/`, the rule as written and the rest of the path; otherwise the path comes back unchanged |
| HttpRulesGrouper.ShortPathSkipped | middleware/http/cardinality_rules.go:75-77 | a path shorter than the rule is returned unchanged, with `false` |
| HttpRulesGrouper.GroupNoMatch | middleware/http/cardinality_rules.go:48-58 | when no pipe applies, the grouper returns the path unchanged |
| HttpRulesGrouper.GroupFirstMatch | middleware/http/cardinality_rules.go:48-58 | the grouper returns the output of the first pipe that applies |
| HttpRulesExamples.RuleOf | middleware/http/cardinality_rules.go:65-67 | a rule written as `/` and its segments splits back into them |
| HttpRulesExamples.TestRulesCompile | middleware/http/cardinality_test.go:16-21 | the test's four rules compile to their pipes |
| HttpRulesExamples.Kept | middleware/http/cardinality.go:21-29 | a segment no recogniser accepts is kept by the automatic grouper |
| HttpRulesExamples.GameLogoutRules | middleware/http/cardinality_test.go:30 | the rule grouper turns `/game/logout` into `/:system/logout` |
| HttpRulesExamples.GameLogout | middleware/http/cardinality_test.go:30 | the test's grouper list turns `/game/logout` into `/:system/logout` |
| HttpRulesExamples.Login | middleware/http/cardinality_test.go:29 | the test's grouper list keeps `/login` |
| HttpRulesExamples.TournamentKept | middleware/http/cardinality_test.go:35 | the test's grouper list keeps `/api/v1/tournaments/detail/diamond-luck` unchanged, not `/api/v1/tournaments/detail/:gameName` as the test expects |
| HttpRulesExamples.Scenario | middleware/http/cardinality_test.go:9-30 | 100 rules are refused, the four rules compile, and the list maps `/game/logout` and `/login` as the test expects |
| HttpConfig.FilterOpts | middleware/http/config.go:147-149 | `WithFilter` adds one otel filter option per filter, in order |
| HttpConfig.Config.constructor | middleware/http/config.go:93-103 | the record starts with operation `HTTP`, the default span-name and filter options, `DefaultURI`, the default filter and only `dumpPayloadOnError` on |
| HttpConfig.Config.Apply | middleware/http/config.go:112-186 | one option updates the record exactly as its closure does: `WithTel` and `WithOtelOpts` append otel options, `WithFilter` appends filters and their otel options, the rest assign one field |
| HttpConfig.NewConfig | middleware/http/config.go:90-110 | a fresh record holds the defaults after every option, in order |
| HttpConfig.SpanNameShape | middleware/http/config.go:40-48 | the span name is the method, `:` and a path starting with `/` whose segments are the request path's, each grouped; the operation name plays no part |
| HttpConfig.WebsocketFiltered | middleware/http/config.go:50-57 | a request with `websocket` among its `Upgrade` header values is not instrumented |
| HttpConfig.HealthFiltered | middleware/http/config.go:59 | a GET whose request URI starts with `/health` is not instrumented |
| HttpConfig.OthersInstrumented | middleware/http/config.go:50-60 | every other request is instrumented |
| HttpConfig.ApplyOptionsSnoc | middleware/http/config.go:105-107 | the options are applied in order: one more option runs last |
| HttpConfig.StepFlag | middleware/http/config.go:153-186 | each flag option sets its own flag and nothing else; every other option leaves the four flags alone |
| HttpConfig.FlagLastWins | middleware/http/config.go:153-186 | after any options each flag holds the value of the last option that sets it, or its starting value |
| HttpConfig.FiltersAccumulate | middleware/http/config.go:101-151 | filters only accumulate: the default filter first, then every filter the `WithFilter` options gave, in order |
| HttpServer.ServerMiddlewareAll | middleware/http/server.go:30-46 | each of `[mw, tr]` wraps the result so far, so the otel handler named by the operation ends up outermost, around the logging middleware, around the application handler |
| HttpServer.Serve | middleware/http/server.go:55-150 | the handler bypasses everything when a filter rejects the request; otherwise it buffers the body when a dump is possible and writes one log line whose level, fields, message and forced status are those of the request's outcome, with a dumped request's body replacing the base fields as line 128 does |
| HttpServer.LogLevelBands | middleware/http/server.go:156-165 | Error from status 500 up, Warn from 400 to 499, Debug below 400 |
| HttpServer.LogLevelMonotone | middleware/http/server.go:156-165 | a larger status never logs at a less severe level |
| HttpServer.DefaultFilterBypasses | middleware/http/server.go:57-62 | under any options the default filter stays in the list, so a request it rejects is handed on untouched |
| HttpServer.RequestLoggedIff | middleware/http/server.go:93-129 | the request body is logged iff there is a body and either every request is dumped or dumping on error is on and the status is 400 or more; the logged body is the request's; both as written and corrected |
| HttpServer.ResponseLoggedIff | middleware/http/server.go:131-133 | the response body is logged iff the writer captured one and either every response is dumped or dumping on error is on and the status is 400 or more; both as written and corrected |
| HttpServer.PanicAndLevel | middleware/http/server.go:116-144 | a panic logs at Error with the recovery field and forces status 500; otherwise the level follows the status; the line starts with the base fields unless, as written, the request is dumped, and then it starts with the body and holds no base field |
| HttpServer.AsWrittenAgreesUnlessDumped | middleware/http/server.go:116-129 | the handler as written and the corrected one give the same result exactly when the request is bypassed or not dumped |
| HttpServer.TestMiddlewareAllCases | middleware/http/server_test.go:131-236 | under the test's options, below status 400, the request is logged iff `WithDumpRequest(true)`, the response iff `WithDumpResponse(true)` and the headers iff `WithHeaders(true)` |
| HttpServer.RequestDumpDropsFields | middleware/http/server.go:116-129 | as written, a dumped request body replaces the base fields, so the line holds only the body; with the dump added to them the base fields are kept |
| NatsOptions.ReduceParts | middleware/nats/options.go:50-64 | every subject part is reduced on its own, one output per part |
| NatsOptions.DefaultOperationFn | middleware/nats/options.go:36-67 | the builder loop yields `NATS:`, the kind, `/` and the queue when the message has a subscription, `/`, then the reduced parts with a dot after every part but the last |
| NatsOptions.ReducePartOf | middleware/nats/options.go:51-58 | the body of the loop picks the same replacement for a part as the reducer: `:partition:`, `:inbox:`, `:url:` or the part itself |
| NatsOptions.WriteParts | middleware/nats/options.go:48-64 | the loop writes, after what the builder holds, the reduced parts joined by dots |
| NatsOptions.WrittenJoin | middleware/nats/options.go:50-64 | after some turns of the loop the builder holds the reduced parts so far joined by dots, with a trailing dot unless the last part has been written |
| NatsOptions.ReducePartAvoidsDot | middleware/nats/options.go:51-58 | a part without a dot stays without one, so splitting the reduced subject finds the same parts |
| NatsOptions.ReducePartIdempotent | middleware/nats/options.go:51-58 | reducing a reduced part changes nothing |
| NatsOptions.NotPrefix | middleware/nats/options.go:54-56 | a part whose first character differs from the prefix's does not start with it |
| NatsOptions.TokensFixed | middleware/nats/options.go:52-58 | `:partition:`, `:inbox:` and `:url:` are left as they are |
| NatsOptions.Config.constructor | middleware/nats/options.go:89-94 | the record starts with the global telemetry, dump on error on, the defaults enabled, `defaultOperationFn` and empty lists |
| NatsOptions.Config.ApplyOne | middleware/nats/options.go:140-206 | one option updates the record in place as its closure does, `WithPubMiddleware` included: it sets the publish list to the subscription list followed by its middlewares |
| NatsOptions.Config.Apply | middleware/nats/options.go:108-112 | every option in order, each as its closure is written |
| NatsOptions.NewConfig | middleware/nats/options.go:88-106 | a fresh record holds the defaults after every option, in order, each as its closure is written |
| NatsOptions.SubjectPartsPreserved | middleware/nats/options.go:48-64 | the reduced subject, split on dots, has exactly the reduced parts of the original, as many as it had |
| NatsOptions.ReducePartPriority | middleware/nats/options.go:51-58 | a part becomes `:partition:` iff it contains a digit (or is the token), else `:inbox:` iff it starts with `_INBOX`, else `:url:` iff it starts with `/`; any other part is kept |
| NatsOptions.InboxWithDigit | middleware/nats/options.go:15-55 | `_INBOX1` contains a digit, so it becomes `:partition:`, not `:inbox:` |
| NatsOptions.ReduceSubjectIdempotent | middleware/nats/options.go:48-64 | reducing a reduced subject changes nothing |
| NatsOptions.OperationShape | middleware/nats/options.go:36-67 | the name starts with `NATS:` and the kind, carries `/` and the queue exactly when the message has a subscription, and ends with `/` and the reduced subject |
| NatsOptions.MiddlewareLists | middleware/nats/options.go:115-138 | with the defaults disabled the lists are the user lists; otherwise recovery, logs, tracing and metrics come first, then the user list |
| NatsOptions.ApplyOptionsSnoc | middleware/nats/options.go:108-112 | the options are applied in order: one more option runs last |
| NatsOptions.StepLists | middleware/nats/options.go:170-182 | with the corrected publish option, one option appends to each list exactly what it contributes to that list |
| NatsOptions.ListsAccumulate | middleware/nats/options.go:170-182 | with the corrected publish option, each list holds what it held before followed by exactly the middlewares its own options supplied, in order |
| NatsOptions.AsWrittenAgreesOffPublish | middleware/nats/options.go:140-206 | the options as written and corrected leave every field but the publish list alike |
| NatsOptions.ListsAsWritten | middleware/nats/options.go:170-182 | as written, with each `append` taken as a fresh list, the subscription list accumulates every `WithSubMiddleware`, and the publish list is the subscription list at the last `WithPubMiddleware` followed by its middlewares, or the starting list without one (the shared backing array is under Left out) |
| NatsOptions.PubMiddlewareAsWritten | middleware/nats/options.go:178-182 | as written, `[WithSubMiddleware(a), WithPubMiddleware(b)]` publishes through `[a, b]` and two `WithPubMiddleware` options keep only the last; corrected, they give `[b]` and `[b, c]` |
| PgxLogger.Text | plugins/pgx/logger.go:166-175 | an ASCII text becomes its bytes, one per character |
| PgxLogger.Hex | plugins/pgx/logger.go:163-166 | hex encoding gives two lowercase hex digits per byte |
| PgxLogger.Decimal | plugins/pgx/logger.go:166-175 | `%d` gives at least one decimal digit |
| PgxLogger.RuneWidth | plugins/pgx/logger.go:171-173 | `utf8.DecodeRuneInString` advances by 1 to 4 bytes on a non-empty string, never past its end, and every byte it steps over after the first is a continuation byte |
| PgxLogger.CutPoint | plugins/pgx/logger.go:170-173 | the rune scan stops at or past byte 64, within the string, and less than four bytes past 64 |
| PgxLogger.LogQueryArgs | plugins/pgx/logger.go:157-183 | the output has one entry per argument, each argument printed by the type switch: byte slices as hex, cut at 64 bytes with a note; strings over 64 bytes cut at a rune boundary with a note; anything else unchanged |
| PgxLogger.LogOneArg | plugins/pgx/logger.go:161-179 | one turn of the loop prints its argument as the type switch says: a byte slice by the byte rule, a string by the string rule, anything else unchanged |
| PgxLogger.LogBytesOf | plugins/pgx/logger.go:162-167 | a byte slice shorter than 64 becomes its hex form; a longer one the hex of its first 64 bytes and the note counting the rest |
| PgxLogger.LogStringOf | plugins/pgx/logger.go:168-177 | a string of at most 64 bytes is kept; a longer one is cut where the rune scan stops, with the note, unless the scan reached its end |
| PgxLogger.ScanRunes | plugins/pgx/logger.go:170-173 | the rune loop stops exactly where the rune-boundary scan says: the first boundary at or past byte 64 |
| PgxLogger.HexRoundTrip | plugins/pgx/logger.go:163-166 | the hex form reads back to the bytes |
| PgxLogger.DecimalRoundTrip | plugins/pgx/logger.go:166-175 | the decimal count reads back to the number |
| PgxLogger.ShortBytes | plugins/pgx/logger.go:163-164 | a byte slice shorter than 64 is printed whole as hex and reads back to itself |
| PgxLogger.LongBytes | plugins/pgx/logger.go:165-166 | a byte slice of 64 bytes or more prints its first 64 bytes as hex, then ` (truncated N bytes)` where N reads back to the count of the rest |
| PgxLogger.PassedThrough | plugins/pgx/logger.go:168-178 | a string of at most 64 bytes, and any value that is neither bytes nor string, is passed through unchanged |
| PgxLogger.CutFinishesRune | plugins/pgx/logger.go:170-173 | every byte the scan keeps past byte 64 is a continuation byte, so the cut never splits a rune |
| PgxLogger.LongString | plugins/pgx/logger.go:168-177 | a long string keeps 64 to 67 bytes, ending on a rune boundary, followed by the note counting the rest; when the scan reaches the end the string is left alone |
| PgxLogger.AsciiCut | plugins/pgx/logger.go:170-173 | on ASCII text the cut is exactly at byte 64 |
| PgxLogger.SeventyAscii | plugins/pgx/logger.go:168-177 | 70 ASCII bytes print as their first 64 and ` (truncated 6 bytes)` |
| Gapchi.KeysDistinct | middleware/gapchi/middleware.go:22-27 | the four builder keys are pairwise different, so each `Add*` writes its own slot |
| Gapchi.Registered | middleware/gapchi/middleware.go:91-116 | the registered kinds of the stack order, never more than the order has slots |
| Gapchi.MiddlewareBuilder.constructor | middleware/gapchi/middleware.go:37-51 | a new builder keeps its options and starts with no registered middleware |
| Gapchi.MiddlewareBuilder.Add | middleware/gapchi/middleware.go:53-83 | an `Add*` call writes the kind under its fixed key, keeps the options and returns the same builder |
| Gapchi.MiddlewareBuilder.AddTrace | middleware/gapchi/middleware.go:53-59 | registers the tracer under `trace.middleware` and returns the builder |
| Gapchi.MiddlewareBuilder.AddLogger | middleware/gapchi/middleware.go:61-67 | registers the logger under `logger.middleware` and returns the builder |
| Gapchi.MiddlewareBuilder.AddMiddlewareRecover | middleware/gapchi/middleware.go:69-75 | registers recovery under `recovery.middleware` and returns the builder |
| Gapchi.MiddlewareBuilder.AddMiddlewareMeter | middleware/gapchi/middleware.go:77-83 | registers metrics under `metrics.middleware` and returns the builder |
| Gapchi.MiddlewareBuilder.Lookup | middleware/gapchi/middleware.go:93-96 | one map lookup of `Build`: the kind's middleware, made with the options, exactly when it is registered |
| Gapchi.MiddlewareBuilder.Build | middleware/gapchi/middleware.go:86-119 | the five lookups give the stack `BuildSpec` describes: an error without options, otherwise the registered kinds in stack order |
| Gapchi.Instances | middleware/gapchi/middleware.go:95-115 | one middleware per registered kind, in order, each made with the builder's options |
| Gapchi.RegisteredStack | middleware/gapchi/middleware.go:93-116 | the registered stack is recovery, metrics, trace, logger, recovery, each slot present exactly when its key is in the map |
| Gapchi.BuildOrder | middleware/gapchi/middleware.go:86-119 | no options means "options cannot be blank"; otherwise recovery is first and last when registered, then metrics, trace and logger, the length counts recovery twice, and every middleware gets the options |
| Gapchi.AddCommutesAndRepeats | middleware/gapchi/middleware.go:53-83 | registering a kind twice equals registering it once, and the order of two registrations does not change what `Build` returns |
| Gapchi.RegisteredSameKeys | middleware/gapchi/middleware.go:93-116 | `Build` reads only which keys are present: maps with the same keys build the same stack |
| Gapchi.Recorder.Write | middleware/gapchi/middleware.go:136-140 | the wrapped writer receives the write and accepts all of it |
| Gapchi.Recorder.WriteHeader | middleware/gapchi/middleware.go:142-146 | the wrapped writer receives the status |
| Gapchi.WrapWriter.constructor | middleware/gapchi/middleware.go:128-130 | a new wrapper has status 0, an empty body and no history, over the given writer |
| Gapchi.WrapWriter.Write | middleware/gapchi/middleware.go:136-140 | the bytes are appended to the body copy, the status is untouched, the same bytes go to the inner writer and its count and error are returned |
| Gapchi.WrapWriter.WriteHeader | middleware/gapchi/middleware.go:142-146 | the status is kept, the body untouched, and the same status goes to the inner writer |
| Gapchi.WrapWriter.Status | middleware/gapchi/middleware.go:148-150 | the status is that of the last header write of the history, 0 if there was none |
| Gapchi.WrapWriter.Body | middleware/gapchi/middleware.go:152-154 | the body is every written byte of the history, in order |
| Gapchi.BodyOfWrites | middleware/gapchi/middleware.go:136-154 | after only writes, the body is their concatenation and the status is still 0 |
| Gapchi.FlattenSnoc | middleware/gapchi/middleware.go:136-140 | one more write extends the concatenation by exactly its bytes |
| Gapchi.HistorySplit | middleware/gapchi/middleware.go:136-154 | body and status split over any cut of the history: bodies concatenate, and the later part's last header write wins |
| Gapchi.BodySplit | middleware/gapchi/middleware.go:136-154 | the body over a cut history is the body of the first part followed by the body of the second |
| Gapchi.StatusSplit | middleware/gapchi/middleware.go:136-154 | the status over a cut history is the later part's last header write, or the earlier part's status when the later part has none |
| Gapchi.RemoveChiPathParam | middleware/gapchi/chi_path_cleaner.go:10-19 | without a route context the path is returned; with one, each value in order is replaced by its key at its first occurrence in the path as it then stands |
| Gapchi.ReplaceStep | middleware/gapchi/chi_path_cleaner.go:14 | one `strings.Replace(path, v, key, 1)`: nothing changes when `v` does not occur, otherwise the text before its first occurrence and after it is kept and the key sits in its place |
| Gapchi.ReplaceParamsSplit | middleware/gapchi/chi_path_cleaner.go:13-15 | the replacements run in order on the path as it stands: the first `n` pairs, then the rest |
| Gapchi.ValueInsideEarlierSegment | middleware/gapchi/chi_path_cleaner.go:13-15 | the replacement is not anchored to segments: with `id = 1`, `/v1/items/1` becomes `/vid/items/1` |
| OtelGrpcMeasures.CountOnAppend | module/otelgrpc/server_reporter.go:33-84 | every reporter call only appends measurements, so counts over a run add up over any split of it |
| OtelGrpcMeasures.CountOnSingle | module/otelgrpc/server_reporter.go:65-72 | one measurement adds one to its own counter and to no other |
| OtelGrpcMeasures.LastLabelsWin | module/otelgrpc/config.go:50-81 | options apply in order, so the last `WithConstLabels` decides the labels, and without one they stay as they were |
| OtelGrpcServer.CounterNamesDistinct | module/otelgrpc/server_metrics.go:14-16 | the started, handled and received counter names, and the sent counter's intended name, are pairwise different |
| OtelGrpcServer.StreamRPCTypeCases | module/otelgrpc/server_metrics.go:126-133 | a stream is client-streaming or server-streaming exactly when only that side streams, bidirectional when both or neither do, and never unary |
| OtelGrpcServer.ServerMetrics.constructor | module/otelgrpc/server_metrics.go:44-92 | the labels come from the options, the histogram is on whatever `WithServerHandledHistogram` says, four counters and the latency histogram are created, and nothing is recorded |
| OtelGrpcServer.ServerMetrics.NewServerReporter | module/otelgrpc/server_reporter.go:22-42 | the reporter carries the type, service and method, and the started counter gets one add with those attributes |
| OtelGrpcServer.ServerMetrics.ReceivedMessage | module/otelgrpc/server_reporter.go:44-52 | one add on the received counter |
| OtelGrpcServer.ServerMetrics.SentMessage | module/otelgrpc/server_reporter.go:54-62 | one add on the sent counter |
| OtelGrpcServer.ServerMetrics.HandledCall | module/otelgrpc/server_reporter.go:64-85 | one add on the handled counter with the code, then a latency record when the histogram is on |
| OtelGrpcServer.ServerMetrics.UnaryServerInterceptor | module/otelgrpc/server_metrics.go:101-113 | the handler's error is returned; started, received and handled with its code are recorded, and sent only when the handler succeeded |
| OtelGrpcServer.ServerMetrics.SendMsg | module/otelgrpc/server_metrics.go:141-149 | the inner error is returned, and a sent message is counted only when there was none |
| OtelGrpcServer.ServerMetrics.RecvMsg | module/otelgrpc/server_metrics.go:151-160 | the inner error is returned, and a received message is counted only when there was none |
| OtelGrpcServer.ServerMetrics.StreamServerInterceptor | module/otelgrpc/server_metrics.go:116-124 | the handler's error is returned; the start, then what every call on the wrapped stream recorded in order, then the outcome with the handler's code |
| OtelGrpcServer.HandledCounts | module/otelgrpc/server_reporter.go:64-85 | the outcome adds exactly one to the handled counter and nothing to any other counter |
| OtelGrpcServer.UnaryEvents | module/otelgrpc/server_metrics.go:101-113 | a unary call records start, request, outcome with its code and latency, and the response exactly when the handler succeeded, whose code is then OK |
| OtelGrpcServer.OpsCounts | module/otelgrpc/server_metrics.go:141-160 | the wrapped stream counts exactly the successful sends and the successful receives, and never a start or an outcome |
| OtelGrpcServer.StreamHandledOnce | module/otelgrpc/server_metrics.go:116-124 | a stream RPC is counted as started once and handled once, with the handler's code after every message count, and its message counts are its successful calls |
| OtelGrpcServer.SentCounterAsWritten | module/otelgrpc/server_metrics.go:17 | as written the sent counter has the received counter's name, so three counters exist and a stream that only sends is counted as having received; with its own name there are four and nothing is received |
| OtelGrpcClient.CounterNamesDistinct | module/otelgrpc/client_metrics.go:30-35 | the four client counter names are pairwise different |
| OtelGrpcClient.ClientStreamTypeCases | module/otelgrpc/client_metrics.go:139-146 | a stream is client-streaming or server-streaming exactly when only that side streams, bidirectional when both or neither do, and never unary |
| OtelGrpcClient.ClientMetrics.constructor | module/otelgrpc/client_metrics.go:45-108 | the labels come from the options, histograms are always on, four counters and all three histograms are created, and nothing is recorded |
| OtelGrpcClient.ClientMetrics.NewClientReporter | module/otelgrpc/client_reporter.go:22-43 | the reporter carries the type, service and method, and the started counter gets one add with those attributes |
| OtelGrpcClient.ClientMetrics.StartTimer | module/otelgrpc/client_reporter.go:88-102 | a latency record on the named histogram when histograms are on, nothing otherwise |
| OtelGrpcClient.ClientMetrics.ReceivedMessage | module/otelgrpc/client_reporter.go:49-57 | one add on the received counter |
| OtelGrpcClient.ClientMetrics.SentMessage | module/otelgrpc/client_reporter.go:63-71 | one add on the sent counter |
| OtelGrpcClient.ClientMetrics.HandledCall | module/otelgrpc/client_reporter.go:73-86 | one add on the handled counter with the code, then the call latency when histograms are on |
| OtelGrpcClient.ClientMetrics.UnaryClientInterceptor | module/otelgrpc/client_metrics.go:111-123 | the invoker's error is returned; started and sent are recorded, received only on success, and then handled with the error's code |
| OtelGrpcClient.ClientMetrics.StreamClientInterceptor | module/otelgrpc/client_metrics.go:126-137 | a failed streamer returns no stream and records the start and the outcome with its code; otherwise the wrapped stream is returned and only the start is recorded |
| OtelGrpcClient.ClientMetrics.SendMsg | module/otelgrpc/client_metrics.go:154-163 | the inner error is returned; the send is always timed and counted only when it succeeded |
| OtelGrpcClient.ClientMetrics.RecvMsg | module/otelgrpc/client_metrics.go:165-179 | the inner result is returned; the receive is always timed, a message is counted, end of stream is handled with OK and any other error is handled with its code |
| OtelGrpcClient.HandledCounts | module/otelgrpc/client_reporter.go:73-86 | the outcome adds exactly one to the handled counter and nothing to any other counter |
| OtelGrpcClient.UnaryEvents | module/otelgrpc/client_metrics.go:111-123 | a unary call records start and request first and outcome and latency last, the response exactly when the invoker succeeded, and one outcome |
| OtelGrpcClient.UnaryCount | module/otelgrpc/client_metrics.go:113-120 | the start and request adds do not count on a different counter, so the counts of a unary call are those of its response and outcome |
| OtelGrpcClient.OpCounts | module/otelgrpc/client_metrics.go:154-179 | one call on the wrapped stream adds to at most one counter: sent on a successful send, received on a message, handled on end of stream or error; its timer counts on none |
| OtelGrpcClient.SessionCounts | module/otelgrpc/client_metrics.go:154-179 | over any sequence of calls on an open stream each counter counts exactly the calls that map to it, so the outcome is counted once per ending or failing receive |
| OtelGrpcClient.ReadToEnd | module/otelgrpc/client_metrics.go:165-179 | a caller that reads to the end without an error has the call counted as handled exactly once and never as started again |
| OtelGrpcClient.NeverStarted | module/otelgrpc/client_metrics.go:154-179 | no call on an open stream maps to the started counter |
| OtelGrpcClient.NoFailures | module/otelgrpc/client_metrics.go:170-177 | sends and delivered receives never map to the handled counter |

## Left out

- Instrument creation and recording are not modelled: meters, counters and histograms from OpenTelemetry, and the NATS metric helpers. A measurement is the name of its instrument and its attributes. Durations and wall-clock time are not recorded.
- Tracing, logging (zap) and panic-recovery adapters are not modelled. Neither is the logging body of the pgx tracer. The HTTP server's own log line is modelled only as the list of fields it carries.
- The following are not modelled:
  - `respWriterWrapper`, the `Labeler`, `httpsnoop`;
  - the user agent and remote address;
  - `debug.PrintStack`.
- The HTTP server takes the response status and body that the wrapped handler produced as inputs.
- `applyPipe2` (middleware/http/cardinality_rules.go:121-218) is dead debugging code that prints to stdout. It is not modelled.
- The three copies of `decreasePathCardinality` are modelled once, as `HttpGroupers.DecreasePathCardinality`. The copies are middleware/http/cardinality.go:14-34, cardinality_auto.go:13-33 and config.go:18-38, and they are identical.
- Regular expressions are modelled as the character-class predicates they denote. `WithConfigReader` takes such predicates, not compiled `regexp` objects.
- Connection, subscription and network plumbing are not modelled: NATS, gapnats, pgx dispatch, mongo and the health checkers. Nor is the glue for the echo, gin, chi and fasthttp frameworks.
- gRPC `splitMethodName` (module/otelgrpc/util.go) and `status.FromError` are not modelled. An interceptor receives the service and method names already split, and the status code of the error as a `Code`.
- Gapchi.Recorder.Write: the wrapped `http.ResponseWriter` is a recorder that accepts every write in full. Short writes and write errors of a real writer are not modelled.
- Gapchi.RemoveChiPathParam: requires a key for every value. chi adds keys and values in pairs. The source would panic on a shorter key list, and that case is not modelled.
- HttpRulesGrouper.ApplyPipe: the inner `for u := skipped` loop runs its first iteration only, since it either breaks or returns there. It is modelled as an `if`.
- HttpLegacyRules.ApplyFn: the stub's `isModified` is never set, so the legacy rules grouper returns every path unchanged. The pipe's `skip` index is computed but never read.
- OtelGrpcServer.ServerMetrics.constructor: the counter map is modelled with the sent counter under its own name. The source's shared name is kept apart in `OtelGrpcServer.SentCounterAsWritten` (see Findings). Every member that adds on the sent counter uses that corrected key too: `ServerMetrics.SentMessage`, `UnaryServerInterceptor`, `SendMsg` and `StreamServerInterceptor`, and the lemmas `UnaryEvents`, `OpsCounts` and `StreamHandledOnce`. Under server_metrics.go:17 as written, each of their sent adds lands on `grpc_server_msg_received_total`, so a successful unary call adds 2 there.
- NatsOptions.Config.ApplyOne: `WithPubMiddleware` is modelled as making a fresh publish list. In Go, `append(c.subList, list...)` reuses `subList`'s backing array when it has spare capacity. A later `WithSubMiddleware` can then overwrite the publish list's tail. For example, sub `a`, `b`, `c`, then pub `e`, then sub `f` publishes through `[a, b, c, f]` under gc's growth policy. Slice capacity and the runtime's growth policy are not modelled.
- NatsOptions.Config.Apply: inherits the fresh-list reading of `WithPubMiddleware` from `NatsOptions.Config.ApplyOne`, so the shared backing array is not modelled.
- NatsOptions.NewConfig: inherits the same gap through `NatsOptions.Config.Apply`.
- NatsOptions.ListsAsWritten: the publish list it states is Go's only while no `WithSubMiddleware` writes into the backing array the two lists share. Aliasing is not modelled.
- The path separator is a single character throughout (`GoStrings.Split`, `GoStrings.TrimLeft`, `CardinalityConfig`). Go's `WithPathSeparator` takes a string, and `strings.TrimLeft` treats it as a set of characters to strip. A separator of several characters, which behaves differently there, cannot be expressed. Every separator the repository sets is one character.
- The readers of the auto defaults (`AutoConfig.HttpReader`, `AutoConfig.NatsReader`) carry a placeholder recogniser where cardinality/auto/config.go:125 and 157 pass `nil`. Auto's `Replace` never calls the recogniser, so no result depends on it.
- `DefaultConfig` returns one shared instance in Go. Dafny values have no identity, so the model states only that it always returns the same value.

## Findings

| source | as written | input that shows it | evidently intended | confidence | as-written member | corrected member |
|---|---|---|---|---|---|---|
| cardinality/rules/replace.go:157-163 | after the anchor, rule part `iR` is written to path index `j+iR` | rule `/:A/x/:B` on `/p/x/q/r` gives `/:A/x/q/:B`; on `/p/q/x/r` the write is out of range and panics | the rule laid over the path at offset `j-i`, writing to `(j-i)+iR`: `/:A/x/:B/r` and `/p/:A/x/:B` | not executed | RulesReplaceExamples.RightPlaceholderMisplaced | RulesReplace.IntendedPartialPlacesRule |
| cardinality/rules/replace.go:147-150 | before the anchor, part `iL` is written to `j-i+iL` even when `j < i` | rule `/:X/a/:Y/b` on `/z/b/w/v/u` anchors `b` at path index 1 and rule index 3, so it writes to index -2 and panics | a rule that cannot be laid over the path does not match | not executed | RulesReplaceExamples.LeftPlaceholderPanics | RulesReplace.ReplaceIntendedNeverPanics |
| middleware/nats/options.go:180 | `WithPubMiddleware` sets `pubList` to `subList` followed by its arguments, in a slice that can share `subList`'s backing array, so a later `WithSubMiddleware` can overwrite its tail | `WithSubMiddleware(a), WithPubMiddleware(b)` publishes through `[a, b]`; `WithPubMiddleware(b), WithPubMiddleware(c)` through `[c]` | append to `pubList`, as `WithSubMiddleware` does for `subList`: `[b]` and `[b, c]` | not executed | NatsOptions.PubMiddlewareAsWritten | NatsOptions.ListsAccumulate |
| module/otelgrpc/server_metrics.go:17 | `serverStreamMsgSent` is `"grpc_server_msg_received_total"` | a stream handler that sends one message and receives none is counted as one message received, and the counter map has three keys | a sent counter of its own, `grpc_server_msg_sent_total` | not executed | OtelGrpcServer.SentCounterAsWritten | OtelGrpcServer.StreamHandledOnce |
| middleware/http/server.go:128 | the request dump rebuilds the logger from the context with only the request field | `WithDumpRequest(true)`, a request body and status 200 log the body without method, URL or status | add the request field to the logger that already holds those fields | not executed | HttpServer.RequestDumpDropsFields | HttpServer.PanicAndLevel |
