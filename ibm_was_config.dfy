/**
 * Construction of the IBM WAS check (`IbmWasCheck.__init__`): the categories
 * to collect, the built-in tables merged with the custom queries, the tags of
 * the service check, and the options handed to the HTTP client.
 *
 * The helpers whose source is not part of this model are parameters:
 * `_is_affirmative` (affirmative), `validation.validate_query` (valid) and the
 * tables of the check's `metrics` module (`Metrics`).
 */
module IbmWasConfig {
  import opened Wrappers
  import opened PyDict

  /** A scalar option of the instance configuration, as the YAML loader yields it. */
  datatype Value = VNone | VBool(b: bool) | VInt(i: int) | VStr(s: string)

  /** Python truthiness of a scalar. */
  predicate Truthy(v: Value) {
    match v
    case VNone => false
    case VBool(b) => b
    case VInt(i) => i != 0
    case VStr(s) => s != ""
  }

  function DecimalDigit(d: nat): char
    requires d < 10
  {
    "0123456789"[d]
  }

  function Decimal(n: nat): string
    decreases n
  {
    if n < 10 then [DecimalDigit(n)] else Decimal(n / 10) + [DecimalDigit(n % 10)]
  }

  /** Python's `str()` of a scalar, as `'{}'.format(v)` renders it. */
  function Str(v: Value): string {
    match v
    case VNone => "None"
    case VBool(b) => if b then "True" else "False"
    case VInt(i) => if i < 0 then "-" + Decimal(-i) else Decimal(i)
    case VStr(s) => s
  }

  /** One entry of `custom_queries`: `stat`, `metric_prefix` and `tag_keys` (absent means the empty list). */
  datatype CustomQuery = CustomQuery(stat: string, metricPrefix: string, tagKeys: seq<string>)

  /**
   * A check instance: its scalar options (servlet_url, username, password,
   * tls_*, collect_<prefix>_stats), `tags`, `custom_queries` and
   * `custom_queries_units_gauge`; an absent list is the empty one.
   */
  datatype Instance = Instance(
    options: map<string, Value>,
    tags: seq<string>,
    customQueries: seq<CustomQuery>,
    unitsGauge: set<string>)

  /** `instance.get(key, default)`. */
  function OptionOr(inst: Instance, key: string, default: Value): Value {
    if key in inst.options then inst.options[key] else default
  }

  /**
   * The tables of the metrics module: METRIC_VALUE_FIELDS, CATEGORY_FIELDS,
   * NESTED_TAGS (prefix to tag keys by depth) and METRIC_CATEGORIES (stat
   * category to metric prefix).
   */
  datatype Metrics = Metrics(
    valueFields: map<string, string>,
    categoryFields: set<string>,
    nestedTags: Dict<seq<string>>,
    metricCategories: Dict<string>)

  // ---------------------------------------------------------------------------
  // HTTP options

  /** `verify=`: a CA bundle path or a flag. */
  datatype Verify = VerifyCaBundle(path: string) | VerifyFlag(enabled: bool)

  /** `cert=`: none, a combined certificate file, or a certificate and key pair. */
  datatype Cert = NoCert | CertFile(cert: string) | CertAndKey(cert: string, key: string)

  datatype HttpOptions = HttpOptions(auth: Option<(Value, Value)>, cert: Cert, verify: Verify)

  /** The `http_options` built at the end of `__init__`. */
  function HttpOptionsOf(inst: Instance, affirmative: Value -> bool): (h: HttpOptions)
    ensures h.auth.Some? <==>
      Truthy(OptionOr(inst, "username", VNone)) && Truthy(OptionOr(inst, "password", VNone))
    ensures h.auth.Some? ==> h.auth.value == (OptionOr(inst, "username", VNone), OptionOr(inst, "password", VNone))
    ensures OptionOr(inst, "tls_ca_cert", VNone).VStr? ==>
      h.verify == VerifyCaBundle(OptionOr(inst, "tls_ca_cert", VNone).s)
    ensures !OptionOr(inst, "tls_ca_cert", VNone).VStr? ==>
      (h.verify == VerifyFlag(false) <==> !affirmative(OptionOr(inst, "tls_verify", VBool(true))))
    ensures h.verify.VerifyCaBundle? <==> OptionOr(inst, "tls_ca_cert", VNone).VStr?
    ensures h.cert.CertAndKey? <==>
      OptionOr(inst, "tls_cert", VNone).VStr? && OptionOr(inst, "tls_private_key", VNone).VStr?
    ensures h.cert.CertFile? <==>
      OptionOr(inst, "tls_cert", VNone).VStr? && !OptionOr(inst, "tls_private_key", VNone).VStr?
    ensures h.cert != NoCert ==> h.cert.cert == OptionOr(inst, "tls_cert", VNone).s
    ensures h.cert.CertAndKey? ==> h.cert.key == OptionOr(inst, "tls_private_key", VNone).s
  {
    var username := OptionOr(inst, "username", VNone);
    var password := OptionOr(inst, "password", VNone);
    var tlsVerify := affirmative(OptionOr(inst, "tls_verify", VBool(true)));
    var tlsCert := OptionOr(inst, "tls_cert", VNone);
    var tlsPrivateKey := OptionOr(inst, "tls_private_key", VNone);
    var tlsCaCert := OptionOr(inst, "tls_ca_cert", VNone);
    var auth := if Truthy(username) && Truthy(password) then Some((username, password)) else None;
    var verify :=
      if tlsCaCert.VStr? then VerifyCaBundle(tlsCaCert.s)
      else if !tlsVerify then VerifyFlag(false)
      else VerifyFlag(true);
    var cert :=
      if tlsCert.VStr? then
        (if tlsPrivateKey.VStr? then CertAndKey(tlsCert.s, tlsPrivateKey.s) else CertFile(tlsCert.s))
      else NoCert;
    HttpOptions(auth, cert, verify)
  }

  // ---------------------------------------------------------------------------
  // setup_configured_stats

  function CollectOptionKey(prefix: string): string {
    "collect_" + prefix + "_stats"
  }

  /** `_is_affirmative(instance.get('collect_<prefix>_stats', True))`. */
  predicate CollectEnabled(inst: Instance, affirmative: Value -> bool, prefix: string) {
    affirmative(OptionOr(inst, CollectOptionKey(prefix), VBool(true)))
  }

  /** What `setup_configured_stats` returns after visiting `categories` in order. */
  function ConfiguredStats(inst: Instance, categories: Dict<string>, affirmative: Value -> bool): Dict<bool>
    decreases |categories|
  {
    if categories == [] then []
    else
      var last := categories[|categories| - 1];
      var before := ConfiguredStats(inst, categories[..|categories| - 1], affirmative);
      if CollectEnabled(inst, affirmative, last.1) then Set(before, last.0, true) else before
  }

  /**
   * A category is collected, with the value True, exactly when it is one of the
   * defaults and its `collect_<prefix>_stats` option is affirmative (absent
   * counts as true); nothing else is in the result.
   */
  lemma {:induction false} ConfiguredStatsGet(inst: Instance, categories: Dict<string>, affirmative: Value -> bool, c: string)
    requires NoDuplicateKeys(categories)
    ensures Get(ConfiguredStats(inst, categories, affirmative), c) ==
      if Get(categories, c).Some? && CollectEnabled(inst, affirmative, Get(categories, c).value) then Some(true)
      else None
    decreases |categories|
  {
    if categories != [] {
      var init := categories[..|categories| - 1];
      var last := categories[|categories| - 1];
      assert categories == init + [last];
      assert NoDuplicateKeys(init);
      assert last.0 !in Keys(init) by {
        forall i | 0 <= i < |init| ensures Keys(init)[i] != last.0 {
          assert init[i] == categories[i];
        }
      }
      ConfiguredStatsGet(inst, init, affirmative, c);
      GetAppend(init, last, c);
      SetGet(ConfiguredStats(inst, init, affirmative), last.0, true, c);
    }
  }

  /** `setup_configured_stats()`: one loop over METRIC_CATEGORIES filling a fresh dict. */
  method SetupConfiguredStats(inst: Instance, categories: Dict<string>, affirmative: Value -> bool)
    returns (collect: Dict<bool>)
    ensures collect == ConfiguredStats(inst, categories, affirmative)
    ensures NoDuplicateKeys(categories) ==> forall c ::
      Get(collect, c) == if Get(categories, c).Some? && CollectEnabled(inst, affirmative, Get(categories, c).value)
                         then Some(true) else None
  {
    collect := [];
    var i := 0;
    while i < |categories|
      invariant 0 <= i <= |categories|
      invariant collect == ConfiguredStats(inst, categories[..i], affirmative)
    {
      var (category, prefix) := categories[i];
      assert categories[..i + 1][..i] == categories[..i];
      if CollectEnabled(inst, affirmative, prefix) {
        collect := Set(collect, category, true);
      }
      i := i + 1;
    }
    assert categories[..i] == categories;
    if NoDuplicateKeys(categories) {
      forall c | true
        ensures Get(collect, c) ==
          if Get(categories, c).Some? && CollectEnabled(inst, affirmative, Get(categories, c).value)
          then Some(true) else None
      {
        ConfiguredStatsGet(inst, categories, affirmative, c);
      }
    }
  }

  // ---------------------------------------------------------------------------
  // append_custom_queries

  /** `validate_query` raised for the custom query at this position. */
  datatype ConfigError = InvalidCustomQuery(index: nat)

  /** The merged tables: nested_tags, metric_categories, and collect_stats after the forced entries. */
  datatype CustomMerge = CustomMerge(
    nestedTags: Dict<seq<string>>,
    metricCategories: Dict<string>,
    collectStats: Dict<bool>)

  /** The position of the first query `validate_query` rejects. */
  function FirstInvalid(queries: seq<CustomQuery>, valid: CustomQuery -> bool): (r: Option<nat>)
    ensures r.None? <==> forall j :: 0 <= j < |queries| ==> valid(queries[j])
    ensures r.Some? ==> r.value < |queries| && !valid(queries[r.value]) &&
                        forall j :: 0 <= j < r.value ==> valid(queries[j])
    decreases |queries|
  {
    if queries == [] then None
    else if !valid(queries[0]) then Some(0)
    else
      match FirstInvalid(queries[1..], valid)
      case None => None
      case Some(i) => Some(i + 1)
  }

  /** The assignments `custom_metric_categories[stat] = metric_prefix`, in query order. */
  function CategoryEntries(queries: seq<CustomQuery>): (es: seq<(string, string)>)
    ensures |es| == |queries|
    ensures forall i :: 0 <= i < |queries| ==> es[i] == (queries[i].stat, queries[i].metricPrefix)
  {
    seq(|queries|, i requires 0 <= i < |queries| => (queries[i].stat, queries[i].metricPrefix))
  }

  /** The assignments `custom_recursion_tags[metric_prefix] = tag_keys`, in query order. */
  function TagKeyEntries(queries: seq<CustomQuery>): (es: seq<(string, seq<string>)>)
    ensures |es| == |queries|
    ensures forall i :: 0 <= i < |queries| ==> es[i] == (queries[i].metricPrefix, queries[i].tagKeys)
  {
    seq(|queries|, i requires 0 <= i < |queries| => (queries[i].metricPrefix, queries[i].tagKeys))
  }

  /** The assignments `collect_stats[stat] = True`, in query order. */
  function CollectEntries(queries: seq<CustomQuery>): (es: seq<(string, bool)>)
    ensures |es| == |queries|
    ensures forall i :: 0 <= i < |queries| ==> es[i] == (queries[i].stat, true)
  {
    seq(|queries|, i requires 0 <= i < |queries| => (queries[i].stat, true))
  }

  /** What `append_custom_queries` returns, and leaves in collect_stats, given collect_stats on entry. */
  function CustomQueriesMerged(metrics: Metrics, queries: seq<CustomQuery>, valid: CustomQuery -> bool, collect: Dict<bool>)
    : Result<CustomMerge, ConfigError>
  {
    match FirstInvalid(queries, valid)
    case Some(i) => Err(InvalidCustomQuery(i))
    case None =>
      Ok(CustomMerge(
        Merge(metrics.nestedTags, Merge([], TagKeyEntries(queries))),
        Merge(metrics.metricCategories, Merge([], CategoryEntries(queries))),
        Merge(collect, CollectEntries(queries))))
  }

  /** Recording one more query assigns its entries after those of the queries before it. */
  lemma CustomQueryStep(queries: seq<CustomQuery>, i: nat, collectIn: Dict<bool>)
    requires i < |queries|
    ensures Merge([], CategoryEntries(queries[..i + 1])) ==
            Set(Merge([], CategoryEntries(queries[..i])), queries[i].stat, queries[i].metricPrefix)
    ensures Merge([], TagKeyEntries(queries[..i + 1])) ==
            Set(Merge([], TagKeyEntries(queries[..i])), queries[i].metricPrefix, queries[i].tagKeys)
    ensures Merge(collectIn, CollectEntries(queries[..i + 1])) ==
            Set(Merge(collectIn, CollectEntries(queries[..i])), queries[i].stat, true)
  {
    var query := queries[i];
    assert CategoryEntries(queries[..i + 1]) == CategoryEntries(queries[..i]) + [(query.stat, query.metricPrefix)];
    assert TagKeyEntries(queries[..i + 1]) == TagKeyEntries(queries[..i]) + [(query.metricPrefix, query.tagKeys)];
    assert CollectEntries(queries[..i + 1]) == CollectEntries(queries[..i]) + [(query.stat, true)];
    MergeSnoc([], CategoryEntries(queries[..i]), (query.stat, query.metricPrefix));
    MergeSnoc([], TagKeyEntries(queries[..i]), (query.metricPrefix, query.tagKeys));
    MergeSnoc(collectIn, CollectEntries(queries[..i]), (query.stat, true));
  }

  /** `append_custom_queries()`: validate each query, then record it in the custom tables. */
  method AppendCustomQueries(metrics: Metrics, queries: seq<CustomQuery>, valid: CustomQuery -> bool, collectIn: Dict<bool>)
    returns (r: Result<CustomMerge, ConfigError>)
    ensures r == CustomQueriesMerged(metrics, queries, valid, collectIn)
  {
    var customRecursionTags: Dict<seq<string>> := [];
    var customMetricCategories: Dict<string> := [];
    var collect := collectIn;
    var i := 0;
    while i < |queries|
      invariant 0 <= i <= |queries|
      invariant forall j :: 0 <= j < i ==> valid(queries[j])
      invariant customMetricCategories == Merge([], CategoryEntries(queries[..i]))
      invariant customRecursionTags == Merge([], TagKeyEntries(queries[..i]))
      invariant collect == Merge(collectIn, CollectEntries(queries[..i]))
    {
      var query := queries[i];
      if !valid(query) {
        return Err(InvalidCustomQuery(i));
      }
      CustomQueryStep(queries, i, collectIn);
      customMetricCategories := Set(customMetricCategories, query.stat, query.metricPrefix);
      customRecursionTags := Set(customRecursionTags, query.metricPrefix, query.tagKeys);
      collect := Set(collect, query.stat, true);
      i := i + 1;
    }
    assert queries[..i] == queries;
    r := Ok(CustomMerge(
      Merge(metrics.nestedTags, customRecursionTags),
      Merge(metrics.metricCategories, customMetricCategories),
      collect));
  }

  /**
   * The merged nested_tags: a prefix named by a custom query takes the tag keys
   * of the last query naming it; every other prefix keeps its built-in entry.
   */
  lemma CustomTagKeysWin(metrics: Metrics, queries: seq<CustomQuery>, p: string)
    ensures Get(Merge(metrics.nestedTags, Merge([], TagKeyEntries(queries))), p) ==
      if LastGet(TagKeyEntries(queries), p).Some? then LastGet(TagKeyEntries(queries), p)
      else Get(metrics.nestedTags, p)
  {
    var custom := Merge([], TagKeyEntries(queries));
    MergeNoDuplicateKeys([], TagKeyEntries(queries));
    MergeDictGet(metrics.nestedTags, custom, p);
    MergeGet([], TagKeyEntries(queries), p);
  }

  /**
   * The merged metric_categories: a stat named by a custom query maps to the
   * prefix of the last query naming it; every other stat keeps its built-in prefix.
   */
  lemma CustomCategoriesWin(metrics: Metrics, queries: seq<CustomQuery>, c: string)
    ensures Get(Merge(metrics.metricCategories, Merge([], CategoryEntries(queries))), c) ==
      if LastGet(CategoryEntries(queries), c).Some? then LastGet(CategoryEntries(queries), c)
      else Get(metrics.metricCategories, c)
  {
    var custom := Merge([], CategoryEntries(queries));
    MergeNoDuplicateKeys([], CategoryEntries(queries));
    MergeDictGet(metrics.metricCategories, custom, c);
    MergeGet([], CategoryEntries(queries), c);
  }

  /** Every custom stat is forced to be collected; other entries of collect_stats are untouched. */
  lemma CustomStatsForced(collect: Dict<bool>, queries: seq<CustomQuery>, c: string)
    ensures Get(Merge(collect, CollectEntries(queries)), c) ==
      if exists j :: 0 <= j < |queries| && queries[j].stat == c then Some(true) else Get(collect, c)
  {
    MergeGet(collect, CollectEntries(queries), c);
    LastGetIn(CollectEntries(queries), c);
    if exists j :: 0 <= j < |queries| && queries[j].stat == c {
      var j :| 0 <= j < |queries| && queries[j].stat == c;
      assert Keys(CollectEntries(queries))[j] == c;
    }
  }

  // ---------------------------------------------------------------------------
  // The constructed check

  /** The fields `__init__` leaves on the check object. */
  datatype CheckConfig = CheckConfig(
    url: Value,
    customTags: seq<string>,
    unitsGauge: set<string>,
    collectStats: Dict<bool>,
    nestedTags: Dict<seq<string>>,
    metricCategories: Dict<string>,
    customStats: set<string>,
    serviceCheckTags: seq<string>,
    http: HttpOptions)

  /** `set(d)`: the keys of a dictionary. */
  function KeySet<V>(d: Dict<V>): (ks: set<string>)
    ensures forall k :: k in ks <==> k in Keys(d)
  {
    set k | k in Keys(d)
  }

  /** `IbmWasCheck.__init__`; a query `validate_query` rejects aborts construction. */
  function Configure(inst: Instance, metrics: Metrics, affirmative: Value -> bool, valid: CustomQuery -> bool)
    : Result<CheckConfig, ConfigError>
  {
    var collect := ConfiguredStats(inst, metrics.metricCategories, affirmative);
    match CustomQueriesMerged(metrics, inst.customQueries, valid, collect)
    case Err(e) => Err(e)
    case Ok(merged) =>
      var url := OptionOr(inst, "servlet_url", VNone);
      Ok(CheckConfig(
        url,
        inst.tags,
        inst.unitsGauge,
        merged.collectStats,
        merged.nestedTags,
        merged.metricCategories,
        KeySet(merged.nestedTags),
        inst.tags + ["url:" + Str(url)],
        HttpOptionsOf(inst, affirmative)))
  }

  /** `IbmWasCheck.__init__` as the source runs it: the two table-building loops, then the remaining fields. */
  method NewIbmWasCheck(inst: Instance, metrics: Metrics, affirmative: Value -> bool, valid: CustomQuery -> bool)
    returns (r: Result<CheckConfig, ConfigError>)
    ensures r == Configure(inst, metrics, affirmative, valid)
  {
    var collect := SetupConfiguredStats(inst, metrics.metricCategories, affirmative);
    var merged := AppendCustomQueries(metrics, inst.customQueries, valid, collect);
    if merged.Err? {
      return Err(merged.error);
    }
    var url := OptionOr(inst, "servlet_url", VNone);
    r := Ok(CheckConfig(
      url,
      inst.tags,
      inst.unitsGauge,
      merged.value.collectStats,
      merged.value.nestedTags,
      merged.value.metricCategories,
      KeySet(merged.value.nestedTags),
      inst.tags + ["url:" + Str(url)],
      HttpOptionsOf(inst, affirmative)));
  }

  /** Construction fails exactly when some custom query is invalid, and then names the first one. */
  lemma ConfigureFails(inst: Instance, metrics: Metrics, affirmative: Value -> bool, valid: CustomQuery -> bool)
    ensures Configure(inst, metrics, affirmative, valid).Err? <==>
      exists j :: 0 <= j < |inst.customQueries| && !valid(inst.customQueries[j])
    ensures Configure(inst, metrics, affirmative, valid).Err? ==>
      var i := Configure(inst, metrics, affirmative, valid).error.index;
      i < |inst.customQueries| && !valid(inst.customQueries[i]) &&
      forall j :: 0 <= j < i ==> valid(inst.customQueries[j])
  {
  }

  /**
   * custom_stats is the key set of the MERGED nested_tags: it holds every
   * built-in prefix that has nested tags as well as every custom prefix.
   */
  lemma ConfigureCustomStats(inst: Instance, metrics: Metrics, affirmative: Value -> bool, valid: CustomQuery -> bool, p: string)
    requires Configure(inst, metrics, affirmative, valid).Ok?
    ensures p in Configure(inst, metrics, affirmative, valid).value.customStats <==>
      p in Keys(metrics.nestedTags) || exists j :: 0 <= j < |inst.customQueries| && inst.customQueries[j].metricPrefix == p
  {
    var es := TagKeyEntries(inst.customQueries);
    MergeKeySet(metrics.nestedTags, Merge([], es), p);
    MergeKeySet([], es, p);
    if exists j :: 0 <= j < |inst.customQueries| && inst.customQueries[j].metricPrefix == p {
      var j :| 0 <= j < |inst.customQueries| && inst.customQueries[j].metricPrefix == p;
      assert Keys(es)[j] == p;
    }
  }

  /**
   * After construction a category is marked for collection (always with True)
   * exactly when a custom query names it, or it is a default category whose
   * collect option is affirmative.
   */
  lemma ConfigureCollectStats(inst: Instance, metrics: Metrics, affirmative: Value -> bool, valid: CustomQuery -> bool, c: string)
    requires NoDuplicateKeys(metrics.metricCategories)
    requires Configure(inst, metrics, affirmative, valid).Ok?
    ensures Get(Configure(inst, metrics, affirmative, valid).value.collectStats, c) ==
      if (exists j :: 0 <= j < |inst.customQueries| && inst.customQueries[j].stat == c) ||
         (Get(metrics.metricCategories, c).Some? &&
          CollectEnabled(inst, affirmative, Get(metrics.metricCategories, c).value))
      then Some(true) else None
  {
    var collect := ConfiguredStats(inst, metrics.metricCategories, affirmative);
    CustomStatsForced(collect, inst.customQueries, c);
    ConfiguredStatsGet(inst, metrics.metricCategories, affirmative, c);
  }
}
