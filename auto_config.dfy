/** The automatic reducer's settings (cardinality/auto/config.go): which
    segment recognisers are on, the (unused by `New`) prefix table, and the
    segment configuration. Options switch single entries off in place. */
module AutoConfig {
  import opened GoStrings
  import Cardinality
  import CardinalityConfig

  const KeyId := "id"
  const KeyResource := "resource"
  const KeyUUID := "uuid"
  const KeyPartition := "partition"
  const KeyInbox := "inbox"
  const KeyUrl := "url"

  /** The regular expression an entry carries; prefix entries carry none. */
  datatype Recogniser = IdExp | ResourceExp | UuidExp | NoExp

  /** `^\d+$`: one or more ASCII digits. */
  predicate IsId(s: string) {
    |s| >= 1 && AllDigits(s)
  }

  /** `[a-zA-Z0-9\-]`. */
  predicate IsNameChar(ch: char) { IsDigit(ch) || IsLetter(ch) || ch == '-' }

  predicate AllNameChars(s: string) { forall i :: 0 <= i < |s| ==> IsNameChar(s[i]) }

  predicate AllWordChars(s: string) { forall i :: 0 <= i < |s| ==> IsWordChar(s[i]) }

  /** `^[a-zA-Z0-9\-]+\.\w{2,4}$`: a name, one dot, an extension of two to four word
      characters. Neither part can hold a dot, so the dot is the one before the last
      `e` characters for some `e` in 2..4. */
  predicate IsResource(s: string) {
    exists e :: 2 <= e <= 4 && ResourceSplit(s, e)
  }

  /** `s` is a name, a dot, and an extension of exactly `e` characters. */
  predicate ResourceSplit(s: string, e: int) {
    0 <= e && e + 2 <= |s| && s[|s| - e - 1] == '.' && AllNameChars(s[..|s| - e - 1]) && AllWordChars(s[|s| - e..])
  }

  /** The positions of the four hyphens in `^[a-f\d]{4}(?:[a-f\d]{4}-){4}[a-f\d]{12}$`. */
  predicate IsUuidHyphen(i: int) { i == 8 || i == 13 || i == 18 || i == 23 }

  /** `^[a-f\d]{4}(?:[a-f\d]{4}-){4}[a-f\d]{12}$`: 36 characters, hyphens at 8, 13, 18
      and 23, lower-case hexadecimal digits everywhere else. */
  predicate IsUuid(s: string) {
    |s| == 36 && forall i :: 0 <= i < 36 ==> if IsUuidHyphen(i) then s[i] == '-' else IsLowerHex(s[i])
  }

  /** `exp.MatchString(s)`. An entry without a regular expression is never matched
      (`New` only reads the `matches` table, whose entries all carry one). */
  predicate Accepts(r: Recogniser, s: string) {
    match r
    case IdExp => IsId(s)
    case ResourceExp => IsResource(s)
    case UuidExp => IsUuid(s)
    case NoExp => false
  }

  /** `matchState`: an entry of the prefix or the match table. */
  datatype MatchState = MatchState(exp: Recogniser, state: bool, id: string, prefix: string)

  /** A snapshot of the `config` record. */
  datatype Settings = Settings(prefixes: seq<MatchState>, matches: seq<MatchState>, reader: CardinalityConfig.ConfigReader)

  /** The options of the automatic reducer. */
  datatype Option =
    | WithConfigReader(reader: CardinalityConfig.ConfigReader)
    | WithoutId
    | WithoutResource
    | WithoutPartition
    | WithoutInbox
    | WithoutUrl
    | WithoutUUID

  /** Index of the first entry whose id is `id`, or `|table|`. */
  function FirstWithId(table: seq<MatchState>, id: string): (k: nat)
    ensures k <= |table|
    ensures forall x :: 0 <= x < k ==> table[x].id != id
    ensures k < |table| ==> table[k].id == id
  {
    if |table| == 0 then 0
    else if table[0].id == id then 0
    else 1 + FirstWithId(table[1..], id)
  }

  /** The table after a `Without…` option: the first entry carrying `id` is switched off. */
  function Disable(table: seq<MatchState>, id: string): seq<MatchState> {
    var k := FirstWithId(table, id);
    if k == |table| then table else table[k := table[k].(state := false)]
  }

  /** The effect of one option on the record. */
  function Step(s: Settings, o: Option): Settings {
    match o
    case WithConfigReader(r) => s.(reader := r)
    case WithoutId => s.(matches := Disable(s.matches, KeyId))
    case WithoutResource => s.(matches := Disable(s.matches, KeyResource))
    case WithoutPartition => s.(matches := Disable(s.matches, KeyPartition))
    case WithoutInbox => s.(prefixes := Disable(s.prefixes, KeyInbox))
    case WithoutUrl => s.(prefixes := Disable(s.prefixes, KeyUrl))
    case WithoutUUID => s.(matches := Disable(s.matches, KeyUUID))
  }

  function ApplyOptions(s: Settings, opts: seq<Option>): Settings
    decreases |opts|
  {
    if |opts| == 0 then s else ApplyOptions(Step(s, opts[0]), opts[1..])
  }

  /** `{name}`, the NATS placeholder formatter. */
  function BraceFormatter(id: string): string { "{" + id + "}" }

  /** `^\{[-\w]+}$`, the recogniser that goes with `BraceFormatter`. */
  predicate BracePlaceholder(s: string) {
    |s| >= 3 && s[0] == '{' && s[|s| - 1] == '}' && AllWordOrHyphen(s[1..|s| - 1])
  }

  /** The segment configuration of `defaultConfigHttp`: `/`, leading separator, `:name`. */
  const HttpReader: CardinalityConfig.ConfigReader :=
    CardinalityConfig.NewConfig('/', true, s => Cardinality.PlaceholderRegexp(s), id => Cardinality.PlaceholderFormatter(id))

  /** The segment configuration of `defaultConfigNats`: `.`, no leading separator, `{name}`. */
  const NatsReader: CardinalityConfig.ConfigReader :=
    CardinalityConfig.NewConfig('.', false, s => BracePlaceholder(s), id => BraceFormatter(id))

  /** `defaultConfigHttp`: numeric ids, resource file names and UUIDs, in that order. */
  function DefaultConfigHttp(): Settings {
    Settings([], [
      MatchState(IdExp, true, KeyId, ""),
      MatchState(ResourceExp, true, KeyResource, ""),
      MatchState(UuidExp, true, KeyUUID, "")], HttpReader)
  }

  /** `defaultConfigNats`: the `_INBOX` and `/` prefixes, and numeric partitions. */
  function DefaultConfigNats(): Settings {
    Settings([
      MatchState(NoExp, true, KeyInbox, "_INBOX"),
      MatchState(NoExp, true, KeyUrl, "/")], [
      MatchState(IdExp, true, KeyPartition, "")], NatsReader)
  }

  /** The mutable `config` record that the option closures write into. */
  class Config {
    var prefixes: seq<MatchState>
    var matches: seq<MatchState>
    var reader: CardinalityConfig.ConfigReader

    function Value(): Settings
      reads this
    {
      Settings(prefixes, matches, reader)
    }

    constructor (s: Settings)
      ensures Value() == s
    {
      prefixes := s.prefixes;
      matches := s.matches;
      reader := s.reader;
    }

    /** The loop of `WithoutId` and its siblings over `c.matches`. */
    method DisableMatch(key: string)
      modifies this
      ensures matches == Disable(old(matches), key)
      ensures prefixes == old(prefixes) && reader == old(reader)
    {
      var i := 0;
      while i < |matches|
        invariant 0 <= i <= |matches|
        invariant matches == old(matches) && prefixes == old(prefixes) && reader == old(reader)
        invariant forall x :: 0 <= x < i ==> matches[x].id != key
      {
        if matches[i].id == key {
          matches := matches[i := matches[i].(state := false)];
          return;
        }
        i := i + 1;
      }
    }

    /** The loop of `WithoutInbox` and `WithoutUrl` over `c.prefixes`. */
    method DisablePrefix(key: string)
      modifies this
      ensures prefixes == Disable(old(prefixes), key)
      ensures matches == old(matches) && reader == old(reader)
    {
      var i := 0;
      while i < |prefixes|
        invariant 0 <= i <= |prefixes|
        invariant matches == old(matches) && prefixes == old(prefixes) && reader == old(reader)
        invariant forall x :: 0 <= x < i ==> prefixes[x].id != key
      {
        if prefixes[i].id == key {
          prefixes := prefixes[i := prefixes[i].(state := false)];
          return;
        }
        i := i + 1;
      }
    }

    /** `opt.apply(c)`. */
    method Apply(o: Option)
      modifies this
      ensures Value() == Step(old(Value()), o)
    {
      match o
      case WithConfigReader(r) => reader := r;
      case WithoutId => DisableMatch(KeyId);
      case WithoutResource => DisableMatch(KeyResource);
      case WithoutPartition => DisableMatch(KeyPartition);
      case WithoutInbox => DisablePrefix(KeyInbox);
      case WithoutUrl => DisablePrefix(KeyUrl);
      case WithoutUUID => DisableMatch(KeyUUID);
    }

    /** The option loop at the top of `New`. */
    method ApplyAll(opts: seq<Option>)
      modifies this
      ensures Value() == ApplyOptions(old(Value()), opts)
    {
      var i := 0;
      while i < |opts|
        invariant 0 <= i <= |opts|
        invariant ApplyOptions(old(Value()), opts) == ApplyOptions(Value(), opts[i..])
      {
        assert opts[i..][1..] == opts[i + 1..];
        Apply(opts[i]);
        i := i + 1;
      }
    }
  }

  // ----- Properties -----

  /** A `Without…` option only ever switches one entry off: the table keeps its length,
      every entry keeps its recogniser, id and prefix, the first entry with the id is
      off, and every other entry is as it was. */
  lemma DisableOnlyClears(table: seq<MatchState>, id: string)
    ensures |Disable(table, id)| == |table|
    ensures forall x :: 0 <= x < |table| ==>
      Disable(table, id)[x] == table[x].(state := Disable(table, id)[x].state)
    ensures forall x :: 0 <= x < |table| && table[x].id == id && (forall y :: 0 <= y < x ==> table[y].id != id) ==>
      !Disable(table, id)[x].state
    ensures forall x :: 0 <= x < |table| && (table[x].id != id || exists y :: 0 <= y < x && table[y].id == id) ==>
      Disable(table, id)[x] == table[x]
  {
  }

  /** An id the table does not hold leaves it as it is. */
  lemma DisableAbsent(table: seq<MatchState>, id: string)
    requires forall x :: 0 <= x < |table| ==> table[x].id != id
    ensures Disable(table, id) == table
  {
  }

  /** Switching the same entry off twice is switching it off once. */
  lemma DisableIdempotent(table: seq<MatchState>, id: string)
    ensures Disable(Disable(table, id), id) == Disable(table, id)
  {
    var t := Disable(table, id);
    assert forall x :: 0 <= x < |t| ==> t[x].id == table[x].id;
    FirstWithIdSameIds(table, t, id);
  }

  /** Two `Without…` options on the same table may be given in either order. */
  lemma DisableCommutes(table: seq<MatchState>, a: string, b: string)
    ensures Disable(Disable(table, a), b) == Disable(Disable(table, b), a)
  {
    var ta := Disable(table, a);
    var tb := Disable(table, b);
    assert forall x :: 0 <= x < |ta| ==> ta[x].id == table[x].id;
    assert forall x :: 0 <= x < |tb| ==> tb[x].id == table[x].id;
    FirstWithIdSameIds(table, ta, b);
    FirstWithIdSameIds(table, tb, a);
  }

  /** The first index carrying an id depends on the ids alone. */
  lemma FirstWithIdSameIds(t1: seq<MatchState>, t2: seq<MatchState>, id: string)
    requires |t1| == |t2| && forall x :: 0 <= x < |t1| ==> t1[x].id == t2[x].id
    ensures FirstWithId(t1, id) == FirstWithId(t2, id)
  {
  }

  /** Options compose: applying `a + b` is applying `a`, then `b`. */
  lemma {:induction false} ApplyOptionsConcat(s: Settings, a: seq<Option>, b: seq<Option>)
    ensures ApplyOptions(s, a + b) == ApplyOptions(ApplyOptions(s, a), b)
    decreases |a|
  {
    if |a| == 0 {
      assert a + b == b;
    } else {
      assert (a + b)[1..] == a[1..] + b;
      ApplyOptionsConcat(Step(s, a[0]), a[1..], b);
    }
  }

  /** Which table a `Without…` option edits. */
  predicate OnPrefixes(o: Option) { o.WithoutInbox? || o.WithoutUrl? }

  /** The id a `Without…` option looks for. */
  function KeyOf(o: Option): string
    requires !o.WithConfigReader?
  {
    match o
    case WithoutId => KeyId
    case WithoutResource => KeyResource
    case WithoutPartition => KeyPartition
    case WithoutInbox => KeyInbox
    case WithoutUrl => KeyUrl
    case WithoutUUID => KeyUUID
  }

  /** Every `Without…` option disables its key in its table and touches nothing else. */
  lemma StepShape(s: Settings, o: Option)
    requires !o.WithConfigReader?
    ensures Step(s, o) == if OnPrefixes(o) then s.(prefixes := Disable(s.prefixes, KeyOf(o)))
                          else s.(matches := Disable(s.matches, KeyOf(o)))
  {
  }

  /** Any two options may be swapped, except two config readers (the last one wins):
      each touches its own field or its own entry. */
  lemma StepsCommute(s: Settings, o1: Option, o2: Option)
    requires !(o1.WithConfigReader? && o2.WithConfigReader?)
    ensures Step(Step(s, o1), o2) == Step(Step(s, o2), o1)
  {
    if o1.WithConfigReader? {
      StepShape(s, o2);
      StepShape(Step(s, o1), o2);
    } else if o2.WithConfigReader? {
      StepShape(s, o1);
      StepShape(Step(s, o2), o1);
    } else {
      StepShape(s, o1);
      StepShape(s, o2);
      StepShape(Step(s, o1), o2);
      StepShape(Step(s, o2), o1);
      DisableCommutes(s.matches, KeyOf(o1), KeyOf(o2));
      DisableCommutes(s.prefixes, KeyOf(o1), KeyOf(o2));
    }
  }

  /** The HTTP defaults: the id, resource and UUID recognisers, all on and in that
      order (which is the order the reducer tries them in), no prefixes,
      `/`-separated with a leading separator, placeholders `:id`, `:resource`, `:uuid`. */
  lemma DefaultConfigHttpValues()
    ensures var s := DefaultConfigHttp();
      && s.prefixes == []
      && s.matches == [MatchState(IdExp, true, KeyId, ""), MatchState(ResourceExp, true, KeyResource, ""), MatchState(UuidExp, true, KeyUUID, "")]
      && s.reader.PathSeparator() == '/' && s.reader.HasLeadingSeparator()
      && s.reader.PlaceholderFormatter()(KeyId) == ":id"
      && s.reader.PlaceholderFormatter()(KeyResource) == ":resource"
      && s.reader.PlaceholderFormatter()(KeyUUID) == ":uuid"
  {
  }

  /** The NATS defaults: the `_INBOX` and `/` prefixes, both on, then one numeric
      partition recogniser, on; `.`-separated without a leading separator,
      placeholders in braces. */
  lemma DefaultConfigNatsValues()
    ensures var s := DefaultConfigNats();
      && s.prefixes == [MatchState(NoExp, true, KeyInbox, "_INBOX"), MatchState(NoExp, true, KeyUrl, "/")]
      && s.matches == [MatchState(IdExp, true, KeyPartition, "")]
      && s.reader.PathSeparator() == '.' && !s.reader.HasLeadingSeparator()
      && s.reader.PlaceholderFormatter()(KeyPartition) == "{partition}"
  {
  }

  /** Options other than a config reader keep the reader and the shape of both tables:
      only the on/off flags of their entries change. */
  lemma {:induction false} ApplyOptionsKeepsShape(s: Settings, opts: seq<Option>)
    requires forall o :: o in opts ==> !o.WithConfigReader?
    ensures var r := ApplyOptions(s, opts);
      r.reader == s.reader && |r.matches| == |s.matches| && |r.prefixes| == |s.prefixes| &&
      (forall x :: 0 <= x < |s.matches| ==> r.matches[x] == s.matches[x].(state := r.matches[x].state)) &&
      (forall x :: 0 <= x < |s.prefixes| ==> r.prefixes[x] == s.prefixes[x].(state := r.prefixes[x].state))
    decreases |opts|
  {
    if |opts| > 0 {
      var o := opts[0];
      assert o in opts;
      StepShape(s, o);
      DisableOnlyClears(s.matches, KeyOf(o));
      DisableOnlyClears(s.prefixes, KeyOf(o));
      assert forall o' :: o' in opts[1..] ==> o' in opts;
      ApplyOptionsKeepsShape(Step(s, o), opts[1..]);
    }
  }

  /** A string that starts with `:` and is not 36 characters long is accepted by no
      recogniser; the HTTP placeholders are such strings. */
  lemma ColonNeverAccepted(p: string)
    requires |p| > 0 && p[0] == ':' && |p| != 36
    ensures forall r :: !Accepts(r, p)
  {
    assert !IsDigit(p[0]);
  }
}
