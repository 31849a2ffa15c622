/**
 * The statistics-tree translator of the IBM WebSphere Application Server check:
 * `process_stats` walks the parsed PMI statistics document depth first and
 * `submit_metrics` turns each leaf statistic into one or two metric samples.
 *
 * Parsing is not modelled: the document arrives as an `Element` tree. The
 * aggregator is not modelled either: a walk returns the samples it would have
 * submitted, in submission order.
 */
module IbmWasStats {
  import opened Wrappers
  import opened PyDict

  /** The three submission functions of the agent's check base class. */
  datatype Kind = Gauge | MonotonicCount | Rate

  /**
   * An XML element of the statistics document: its tag, its `name` attribute,
   * its other attributes and its child elements in document order.
   */
  datatype Element = Element(tag: string, name: string, attrs: map<string, string>, children: seq<Element>)

  /** One call of gauge, monotonic_count or rate: name, raw value attribute, tags. */
  datatype Sample = Sample(name: string, value: Option<string>, tags: seq<string>, kind: Kind)

  /**
   * What a walk submits: the samples in order and, when the kind lookup of a
   * leaf raised KeyError, that leaf's tag. Samples submitted before the error
   * stay submitted; nothing after it is.
   */
  datatype Emission = Emission(samples: seq<Sample>, keyError: Option<string>)

  /**
   * What the walk reads from the check object: METRIC_VALUE_FIELDS (leaf tag to
   * value attribute), CATEGORY_FIELDS, the merged nested_tags, custom_stats
   * (the set of nested_tags keys), custom_queries_units_gauge, and the base
   * class's `normalize(name, prefix, fix_case=True)`, whose source is not part
   * of this model.
   */
  datatype Translator = Translator(
    valueFields: map<string, string>,
    categoryFields: set<string>,
    nestedTags: Dict<seq<string>>,
    customStats: set<string>,
    unitsGauge: set<string>,
    normalize: (string, string) -> string)

  const MetricPrefix: string := "ibm_was"
  const JvmPrefix: string := "jvm"
  const GaugeSuffix: string := "_gauge"

  /** The check's metric_type_mapping. */
  function KindOf(tag: string): (k: Option<Kind>)
    ensures k == Some(MonotonicCount) <==> tag == "CountStatistic"
    ensures k == Some(Rate) <==> tag == "DoubleStatistic"
    ensures k == Some(Gauge) <==>
      tag in {"AverageStatistic", "BoundedRangeStatistic", "RangeStatistic", "TimeStatistic"}
  {
    if tag == "AverageStatistic" || tag == "BoundedRangeStatistic" then Some(Gauge)
    else if tag == "CountStatistic" then Some(MonotonicCount)
    else if tag == "DoubleStatistic" then Some(Rate)
    else if tag == "RangeStatistic" || tag == "TimeStatistic" then Some(Gauge)
    else None
  }

  /** `element.get(key)`. */
  function Attr(e: Element, key: string): Option<string> {
    if key in e.attrs then Some(e.attrs[key]) else None
  }

  /** The condition under which a CountStatistic is submitted through the TimeStatistic entry. */
  predicate RemapsToGauge(t: Translator, leaf: Element, prefix: string) {
    && Attr(leaf, "unit").Some?
    && Attr(leaf, "unit").value in t.unitsGauge
    && prefix in t.customStats
    && leaf.tag == "CountStatistic"
  }

  /** The metric name: the leaf's name normalized under `ibm_was.<prefix>`. */
  function MetricName(t: Translator, leaf: Element, prefix: string): string {
    t.normalize(leaf.name, MetricPrefix + "." + prefix)
  }

  /** How many samples a leaf under `prefix` yields. */
  function SamplesPerLeaf(prefix: string): nat {
    if prefix == JvmPrefix then 2 else 1
  }

  /** `submit_metrics(child, prefix, tags)`. */
  function SubmitMetrics(t: Translator, leaf: Element, prefix: string, tags: seq<string>): (e: Emission)
    requires leaf.tag in t.valueFields
    ensures e.keyError.Some? <==> KindOf(leaf.tag).None?
    ensures e.keyError.Some? ==> e.samples == [] && e.keyError.value == leaf.tag
    ensures e.keyError.None? ==> |e.samples| == SamplesPerLeaf(prefix)
    ensures forall s :: s in e.samples ==> s.tags == tags && s.value == Attr(leaf, t.valueFields[leaf.tag])
    ensures e.keyError.None? ==> e.samples[0].name == MetricName(t, leaf, prefix)
    ensures e.keyError.None? && leaf.tag == "CountStatistic" ==>
      (e.samples[0].kind == Gauge <==> RemapsToGauge(t, leaf, prefix)) &&
      (e.samples[0].kind == MonotonicCount <==> !RemapsToGauge(t, leaf, prefix))
    ensures e.keyError.None? && leaf.tag != "CountStatistic" ==> Some(e.samples[0].kind) == KindOf(leaf.tag)
    ensures e.keyError.None? && prefix == JvmPrefix ==>
      e.samples[1].name == MetricName(t, leaf, prefix) + GaugeSuffix && e.samples[1].kind == Gauge
  {
    var value := Attr(leaf, t.valueFields[leaf.tag]);
    var name := MetricName(t, leaf, prefix);
    var tag := if RemapsToGauge(t, leaf, prefix) then "TimeStatistic" else leaf.tag;
    match KindOf(tag)
    case None => Emission([], Some(tag))
    case Some(kind) =>
      var first := Sample(name, value, tags, kind);
      if prefix == JvmPrefix then Emission([first, Sample(name + GaugeSuffix, value, tags, Gauge)], None)
      else Emission([first], None)
  }

  /** `nested_tags.get(prefix)`, with a missing entry read as the empty list. */
  function TagKeys(t: Translator, prefix: string): seq<string> {
    match Get(t.nestedTags, prefix)
    case Some(keys) => keys
    case None => []
  }

  /** The tags `process_stats` passes into a category child found at depth `level`. */
  function DescendTags(t: Translator, prefix: string, tags: seq<string>, level: nat, child: Element): (r: seq<string>)
    ensures |r| == |tags| + 1 <==> level < |TagKeys(t, prefix)|
    ensures |r| == |tags| || |r| == |tags| + 1
    ensures r[..|tags|] == tags
    ensures |r| == |tags| + 1 ==> r[|tags|] == TagKeys(t, prefix)[level] + ":" + child.name
  {
    var tagList := Get(t.nestedTags, prefix);
    if tagList.Some? && |tagList.value| > level then tags + [tagList.value[level] + ":" + child.name]
    else tags
  }

  /** Run one emission after another, unless the first one raised. */
  function Then(first: Emission, next: Emission): Emission {
    if first.keyError.Some? then first else Emission(first.samples + next.samples, next.keyError)
  }

  /**
   * `process_stats(stats, prefix, tags, recursion_level)`, given the children of
   * `stats` (an element, or the empty list `get_node_from_name` returns).
   */
  function ProcessStats(t: Translator, children: seq<Element>, prefix: string, tags: seq<string>, level: nat): Emission
    decreases children
  {
    if children == [] then Emission([], None)
    else
      var child := children[0];
      var head :=
        if child.tag in t.valueFields then SubmitMetrics(t, child, prefix, tags)
        else if child.tag in t.categoryFields then
          ProcessStats(t, child.children, prefix, DescendTags(t, prefix, tags, level, child), level + 1)
        else Emission([], None);
      if head.keyError.Some? then head else Then(head, ProcessStats(t, children[1..], prefix, tags, level))
  }

  // ---------------------------------------------------------------------------
  // A reference description of the walk: first list the leaves with the
  // category elements above them, then submit each leaf with the tags its path
  // earns it.

  /** A leaf statistic and the category elements on the way down to it. */
  datatype LeafAt = LeafAt(leaf: Element, path: seq<Element>)

  function Under(c: Element, ls: seq<LeafAt>): (r: seq<LeafAt>)
    ensures |r| == |ls|
    ensures forall i :: 0 <= i < |ls| ==> r[i] == LeafAt(ls[i].leaf, [c] + ls[i].path)
  {
    if ls == [] then [] else [LeafAt(ls[0].leaf, [c] + ls[0].path)] + Under(c, ls[1..])
  }

  /** The leaf statistics below `children`, in document order. */
  function Leaves(t: Translator, children: seq<Element>): (ls: seq<LeafAt>)
    ensures forall l :: l in ls ==> l.leaf.tag in t.valueFields
    decreases children
  {
    if children == [] then []
    else
      var child := children[0];
      var here :=
        if child.tag in t.valueFields then [LeafAt(child, [])]
        else if child.tag in t.categoryFields then Under(child, Leaves(t, child.children))
        else [];
      here + Leaves(t, children[1..])
  }

  /** The tags a path of categories adds below depth `level`: one per depth that has a tag key. */
  function PathTags(keys: seq<string>, level: nat, path: seq<Element>): seq<string>
    decreases path
  {
    if path == [] || |keys| <= level then []
    else [keys[level] + ":" + path[0].name] + PathTags(keys, level + 1, path[1..])
  }

  /** Submit every listed leaf with its path's tags, stopping at the first KeyError. */
  function SubmitAll(t: Translator, ls: seq<LeafAt>, prefix: string, tags: seq<string>, level: nat): Emission
    requires forall l :: l in ls ==> l.leaf.tag in t.valueFields
  {
    if ls == [] then Emission([], None)
    else
      var head := SubmitMetrics(t, ls[0].leaf, prefix, tags + PathTags(TagKeys(t, prefix), level, ls[0].path));
      Then(head, SubmitAll(t, ls[1..], prefix, tags, level))
  }

  lemma ThenAssociative(a: Emission, b: Emission, c: Emission)
    ensures Then(Then(a, b), c) == Then(a, Then(b, c))
  {
    if a.keyError.None? && b.keyError.None? {
      assert a.samples + b.samples + c.samples == a.samples + (b.samples + c.samples);
    }
  }

  lemma {:induction false} SubmitAllAppend(t: Translator, a: seq<LeafAt>, b: seq<LeafAt>, prefix: string, tags: seq<string>, level: nat)
    requires forall l :: l in a + b ==> l.leaf.tag in t.valueFields
    ensures SubmitAll(t, a + b, prefix, tags, level) ==
      Then(SubmitAll(t, a, prefix, tags, level), SubmitAll(t, b, prefix, tags, level))
  {
    if a == [] {
      assert a + b == b;
    } else {
      assert (a + b)[0] == a[0];
      assert (a + b)[1..] == a[1..] + b;
      SubmitAllAppend(t, a[1..], b, prefix, tags, level);
      var head := SubmitMetrics(t, a[0].leaf, prefix, tags + PathTags(TagKeys(t, prefix), level, a[0].path));
      ThenAssociative(head, SubmitAll(t, a[1..], prefix, tags, level), SubmitAll(t, b, prefix, tags, level));
    }
  }

  /** Entering a category is the same as prefixing it to the path of every leaf below it. */
  lemma {:induction false} SubmitAllUnder(t: Translator, c: Element, ls: seq<LeafAt>, prefix: string, tags: seq<string>, level: nat)
    requires forall l :: l in ls ==> l.leaf.tag in t.valueFields
    ensures forall l :: l in Under(c, ls) ==> l.leaf.tag in t.valueFields
    ensures SubmitAll(t, Under(c, ls), prefix, tags, level) ==
      SubmitAll(t, ls, prefix, DescendTags(t, prefix, tags, level, c), level + 1)
  {
    var keys := TagKeys(t, prefix);
    forall l | l in Under(c, ls) ensures l.leaf.tag in t.valueFields {
      var i :| 0 <= i < |Under(c, ls)| && Under(c, ls)[i] == l;
      assert ls[i] in ls;
    }
    if ls != [] {
      var down := DescendTags(t, prefix, tags, level, c);
      assert tags + PathTags(keys, level, [c] + ls[0].path) == down + PathTags(keys, level + 1, ls[0].path) by {
        if |keys| > level {
          assert ([c] + ls[0].path)[1..] == ls[0].path;
        } else {
          assert PathTags(keys, level + 1, ls[0].path) == [];
        }
      }
      assert Under(c, ls)[1..] == Under(c, ls[1..]);
      SubmitAllUnder(t, c, ls[1..], prefix, tags, level);
    }
  }

  /**
   * The walk submits exactly the leaves of the tree, in document order, each
   * with the outer tags plus one `key:name` per category above it that sits at
   * a depth having a tag key; it stops at the first leaf whose kind is unknown.
   */
  lemma {:induction false} ProcessStatsIsSubmitAll(t: Translator, children: seq<Element>, prefix: string, tags: seq<string>, level: nat)
    ensures ProcessStats(t, children, prefix, tags, level) == SubmitAll(t, Leaves(t, children), prefix, tags, level)
    decreases children
  {
    if children != [] {
      var child := children[0];
      var rest := children[1..];
      var here :=
        if child.tag in t.valueFields then [LeafAt(child, [])]
        else if child.tag in t.categoryFields then Under(child, Leaves(t, child.children))
        else [];
      assert Leaves(t, children) == here + Leaves(t, rest);
      ProcessStatsIsSubmitAll(t, rest, prefix, tags, level);
      SubmitAllAppend(t, here, Leaves(t, rest), prefix, tags, level);
      if child.tag in t.valueFields {
        assert PathTags(TagKeys(t, prefix), level, []) == [];
        assert tags + [] == tags;
      } else if child.tag in t.categoryFields {
        ProcessStatsIsSubmitAll(t, child.children, prefix, DescendTags(t, prefix, tags, level, child), level + 1);
        SubmitAllUnder(t, child, Leaves(t, child.children), prefix, tags, level);
      }
    }
  }

  /** `SubmitAll` raises exactly when some listed leaf has a tag outside the kind table. */
  lemma {:induction false} SubmitAllRaises(t: Translator, ls: seq<LeafAt>, prefix: string, tags: seq<string>, level: nat)
    requires forall l :: l in ls ==> l.leaf.tag in t.valueFields
    ensures SubmitAll(t, ls, prefix, tags, level).keyError.None? <==>
      forall l :: l in ls ==> KindOf(l.leaf.tag).Some?
  {
    if ls != [] {
      var head := SubmitMetrics(t, ls[0].leaf, prefix, tags + PathTags(TagKeys(t, prefix), level, ls[0].path));
      SubmitAllRaises(t, ls[1..], prefix, tags, level);
      assert forall l :: l in ls <==> l == ls[0] || l in ls[1..];
    }
  }

  lemma PerLeafStep(k: nat, n: nat)
    requires n >= 1
    ensures k + k * (n - 1) == k * n
  {
  }

  /** Without KeyError, `SubmitAll` submits `SamplesPerLeaf` samples per listed leaf. */
  lemma {:induction false} SubmitAllCount(t: Translator, ls: seq<LeafAt>, prefix: string, tags: seq<string>, level: nat)
    requires forall l :: l in ls ==> l.leaf.tag in t.valueFields
    ensures SubmitAll(t, ls, prefix, tags, level).keyError.None? ==>
      |SubmitAll(t, ls, prefix, tags, level).samples| == SamplesPerLeaf(prefix) * |ls|
  {
    if ls != [] {
      var head := SubmitMetrics(t, ls[0].leaf, prefix, tags + PathTags(TagKeys(t, prefix), level, ls[0].path));
      var rest := SubmitAll(t, ls[1..], prefix, tags, level);
      SubmitAllCount(t, ls[1..], prefix, tags, level);
      if head.keyError.None? && rest.keyError.None? {
        PerLeafStep(SamplesPerLeaf(prefix), |ls|);
      }
    }
  }

  /**
   * A walk without KeyError submits one sample per leaf, two under `jvm`; it
   * raises exactly when a leaf's tag is in METRIC_VALUE_FIELDS but not in the
   * kind table.
   */
  lemma ProcessStatsCount(t: Translator, children: seq<Element>, prefix: string, tags: seq<string>, level: nat)
    ensures ProcessStats(t, children, prefix, tags, level).keyError.None? <==>
      forall l :: l in Leaves(t, children) ==> KindOf(l.leaf.tag).Some?
    ensures ProcessStats(t, children, prefix, tags, level).keyError.None? ==>
      |ProcessStats(t, children, prefix, tags, level).samples| == SamplesPerLeaf(prefix) * |Leaves(t, children)|
  {
    ProcessStatsIsSubmitAll(t, children, prefix, tags, level);
    SubmitAllRaises(t, Leaves(t, children), prefix, tags, level);
    SubmitAllCount(t, Leaves(t, children), prefix, tags, level);
  }

  /** Children are visited in order: the walk of `a + b` is the walk of `a` followed by that of `b`. */
  lemma {:induction false} ProcessStatsAppend(t: Translator, a: seq<Element>, b: seq<Element>, prefix: string, tags: seq<string>, level: nat)
    ensures ProcessStats(t, a + b, prefix, tags, level) ==
      Then(ProcessStats(t, a, prefix, tags, level), ProcessStats(t, b, prefix, tags, level))
  {
    if a == [] {
      assert a + b == b;
    } else {
      assert (a + b)[0] == a[0];
      assert (a + b)[1..] == a[1..] + b;
      ProcessStatsAppend(t, a[1..], b, prefix, tags, level);
      var child := a[0];
      var head :=
        if child.tag in t.valueFields then SubmitMetrics(t, child, prefix, tags)
        else if child.tag in t.categoryFields then
          ProcessStats(t, child.children, prefix, DescendTags(t, prefix, tags, level, child), level + 1)
        else Emission([], None);
      ThenAssociative(head, ProcessStats(t, a[1..], prefix, tags, level), ProcessStats(t, b, prefix, tags, level));
    }
  }

  /**
   * One child, by its tag: a leaf statistic is submitted once with the current
   * tags; a category is walked one level deeper with the descended tags; any
   * other element submits nothing.
   */
  lemma ProcessStatsOneChild(t: Translator, child: Element, prefix: string, tags: seq<string>, level: nat)
    ensures child.tag in t.valueFields ==>
      ProcessStats(t, [child], prefix, tags, level) == SubmitMetrics(t, child, prefix, tags)
    ensures child.tag !in t.valueFields && child.tag in t.categoryFields ==>
      ProcessStats(t, [child], prefix, tags, level) ==
      ProcessStats(t, child.children, prefix, DescendTags(t, prefix, tags, level, child), level + 1)
    ensures child.tag !in t.valueFields && child.tag !in t.categoryFields ==>
      ProcessStats(t, [child], prefix, tags, level) == Emission([], None)
  {
    var e := ProcessStats(t, [child], prefix, tags, level);
    assert [child][1..] == [];
    if child.tag in t.valueFields {
      var s := SubmitMetrics(t, child, prefix, tags);
      if s.keyError.None? { assert s.samples + [] == s.samples; }
    } else if child.tag in t.categoryFields {
      var s := ProcessStats(t, child.children, prefix, DescendTags(t, prefix, tags, level, child), level + 1);
      if s.keyError.None? { assert s.samples + [] == s.samples; }
    }
  }

  /** Every sample of a walk carries the outer tags first, then at most one tag per configured key depth. */
  lemma {:induction false} SubmitAllTags(t: Translator, ls: seq<LeafAt>, prefix: string, tags: seq<string>, level: nat)
    requires forall l :: l in ls ==> l.leaf.tag in t.valueFields
    ensures forall s :: s in SubmitAll(t, ls, prefix, tags, level).samples ==>
      |tags| <= |s.tags| && s.tags[..|tags|] == tags &&
      |s.tags| - |tags| <= if level < |TagKeys(t, prefix)| then |TagKeys(t, prefix)| - level else 0
  {
    if ls != [] {
      SubmitAllTags(t, ls[1..], prefix, tags, level);
      PathTagsLength(TagKeys(t, prefix), level, ls[0].path);
      var extra := PathTags(TagKeys(t, prefix), level, ls[0].path);
      assert (tags + extra)[..|tags|] == tags;
    }
  }

  lemma {:induction false} PathTagsLength(keys: seq<string>, level: nat, path: seq<Element>)
    ensures |PathTags(keys, level, path)| <= |path|
    ensures |PathTags(keys, level, path)| <= if level < |keys| then |keys| - level else 0
    decreases path
  {
    if path != [] && level < |keys| {
      PathTagsLength(keys, level + 1, path[1..]);
    }
  }

  /** The walk only ever adds tags after the outer ones, and no more than the prefix has tag keys. */
  lemma ProcessStatsTags(t: Translator, children: seq<Element>, prefix: string, tags: seq<string>)
    ensures forall s :: s in ProcessStats(t, children, prefix, tags, 0).samples ==>
      |tags| <= |s.tags| && s.tags[..|tags|] == tags && |s.tags| <= |tags| + |TagKeys(t, prefix)|
  {
    ProcessStatsIsSubmitAll(t, children, prefix, tags, 0);
    SubmitAllTags(t, Leaves(t, children), prefix, tags, 0);
  }
}
