/**
 * One run of the IBM WAS check (`IbmWasCheck.check`): fetch the PMI servlet's
 * document, report whether it could be reached, and walk every configured
 * category of every server of every node with the translator.
 *
 * The HTTP request and the XML parser are not modelled: their outcome is the
 * `Response` input. What the check submits (metrics, service checks, warnings)
 * is returned as a sequence of events in submission order.
 */
module IbmWasCheck {
  import opened Wrappers
  import opened PyDict
  import opened XPathText
  import opened IbmWasStats
  import opened IbmWasConfig

  /** AgentCheck.OK and AgentCheck.CRITICAL. */
  datatype ServiceStatus = StatusOk | StatusCritical

  /** Something the check hands to the aggregator or the log, in order. */
  datatype Event =
    | Metric(sample: Sample)
    | ConnectGauge(value: int, tags: seq<string>)
    | ServiceCheck(status: ServiceStatus, tags: seq<string>)
    | Warning(message: string)

  /** How fetching and parsing the servlet's response went. */
  datatype Response =
    | ConnectionFailed(error: string)   // requests.ConnectionError or HTTPError from raise_for_status
    | Malformed(error: string)          // lxml's etree.fromstring raised XMLSyntaxError
    | Document(root: Element)

  /** An exception that leaves `check`. */
  datatype CheckError =
    | MissingUrl                        // ValueError: no servlet_url
    | ConnectError(error: string)       // re-raised by make_request
    | UnknownStatType(tag: string)      // KeyError in submit_metrics
    | XmlSyntax(error: string)          // lxml's XMLSyntaxError, which `except ParseError` does not catch

  /** The events of a run, and the exception that ended it, if one did. */
  datatype CheckRun = CheckRun(events: seq<Event>, raised: Option<CheckError>)

  const ServiceCheckConnect: string := "ibm_was.can_connect"

  /** `submit_service_checks(value)`: a 1/0 gauge and the service check, both tagged with the service-check tags. */
  function SubmitServiceChecks(cfg: CheckConfig, status: ServiceStatus): seq<Event> {
    [ConnectGauge(if status == StatusOk then 1 else 0, cfg.serviceCheckTags),
     ServiceCheck(status, cfg.serviceCheckTags)]
  }

  function ConnectWarning(cfg: CheckConfig, error: string): Event {
    Warning("Couldn't connect to URL: " + Str(cfg.url) + " with exception: " + error
            + ". Please verify the address is reachable")
  }

  function MissingStatsWarning(category: string): Event {
    Warning("Error finding " + category + " stats in XML output.")
  }

  /** The translator the check object configures. */
  function TranslatorOf(cfg: CheckConfig, metrics: Metrics, normalize: (string, string) -> string): Translator {
    Translator(metrics.valueFields, metrics.categoryFields, cfg.nestedTags, cfg.customStats, cfg.unitsGauge, normalize)
  }

  function MetricEvents(samples: seq<Sample>): (es: seq<Event>)
    ensures |es| == |samples|
    ensures forall i :: 0 <= i < |samples| ==> es[i] == Metric(samples[i])
  {
    seq(|samples|, i requires 0 <= i < |samples| => Metric(samples[i]))
  }

  // ---------------------------------------------------------------------------
  // get_node_from_root and get_node_from_name

  /** `element.findall(tag)`: the children with that tag, in order. */
  function ChildrenTagged(children: seq<Element>, tag: string): (r: seq<Element>)
    ensures forall e :: e in r <==> e in children && e.tag == tag
    ensures |r| <= |children|
    ensures |children| == 1 ==> r == (if children[0].tag == tag then children else [])
  {
    if children == [] then []
    else (if children[0].tag == tag then [children[0]] else []) + ChildrenTagged(children[1..], tag)
  }

  /**
   * `findall` keeps document order and multiplicity: the matches among
   * `a + b` are those among `a` followed by those among `b`. With the
   * one-child case above this fixes the result for every list of children.
   */
  lemma {:induction false} ChildrenTaggedAppend(a: seq<Element>, b: seq<Element>, tag: string)
    ensures ChildrenTagged(a + b, tag) == ChildrenTagged(a, tag) + ChildrenTagged(b, tag)
    decreases |a|
  {
    if a != [] {
      var ab := a + b;
      var head := if a[0].tag == tag then [a[0]] else [];
      ChildrenTaggedAppend(a[1..], b, tag);
      assert ab[0] == a[0] && ab[1..] == a[1..] + b;
      assert ChildrenTagged(ab, tag) == head + ChildrenTagged(a[1..] + b, tag);
      assert ChildrenTagged(a, tag) == head + ChildrenTagged(a[1..], tag);
    } else {
      assert a + b == b;
    }
  }

  /** Two children with the tag, even equal ones, are both found, in order. */
  lemma ChildrenTaggedTwice(x: Element, y: Element)
    requires x.tag == y.tag
    ensures ChildrenTagged([x, y], x.tag) == [x, y]
  {
    ChildrenTaggedAppend([x], [y], x.tag);
    assert [x] + [y] == [x, y];
  }

  /** The descendant axis below some children, in document order. */
  function Descendants(children: seq<Element>): seq<Element>
    decreases children
  {
    if children == [] then []
    else [children[0]] + Descendants(children[0].children) + Descendants(children[1..])
  }

  /** The XPath predicate `self::Stat[normalize-space(@name)="<category>"]`. */
  predicate IsStatNamed(e: Element, category: string) {
    e.tag == "Stat" && NormalizeSpace(e.name) == category
  }

  /** The first element satisfying `IsStatNamed`. */
  function FirstStatNamed(es: seq<Element>, category: string): (r: Option<Element>)
    ensures r.None? <==> forall i :: 0 <= i < |es| ==> !IsStatNamed(es[i], category)
    ensures r.Some? ==> exists i :: 0 <= i < |es| && es[i] == r.value && IsStatNamed(es[i], category) &&
                                   forall j :: 0 <= j < i ==> !IsStatNamed(es[j], category)
  {
    if es == [] then None
    else if IsStatNamed(es[0], category) then Some(es[0])
    else
      var r := FirstStatNamed(es[1..], category);
      assert forall i :: 1 <= i < |es| ==> es[i] == es[1..][i - 1];
      r
  }

  /**
   * `get_node_from_name(server, category)`: the first `Stat` below the server
   * whose normalized name is the category, whose children are then walked; or
   * a warning and nothing to walk.
   */
  function GetNodeFromName(server: Element, category: string): (r: (seq<Element>, seq<Event>))
  {
    match FirstStatNamed(Descendants(server.children), category)
    case Some(stat) => (stat.children, [])
    case None => ([], [MissingStatsWarning(category)])
  }

  // ---------------------------------------------------------------------------
  // The run, as a specification

  /** Run one part after another, unless the first raised. */
  function Chain(a: CheckRun, b: CheckRun): CheckRun {
    if a.raised.Some? then a else CheckRun(a.events + b.events, b.raised)
  }

  /** Run `f` on each element in order, stopping at the first that raises. */
  function RunAll<T>(xs: seq<T>, f: T -> CheckRun): CheckRun
    decreases |xs|
  {
    if xs == [] then CheckRun([], None)
    else Chain(RunAll(xs[..|xs| - 1], f), f(xs[|xs| - 1]))
  }

  /** The `node:` tag follows the custom tags. */
  function NodeTags(cfg: CheckConfig, node: Element): seq<string> {
    cfg.customTags + ["node:" + node.name]
  }

  /** The `server:` tag comes first, then the node's tags. */
  function ServerTags(server: Element, nodeTags: seq<string>): seq<string> {
    ["server:" + server.name] + nodeTags
  }

  /** The body of the innermost loop, for one (category, prefix) entry of metric_categories. */
  function CategoryRun(t: Translator, cfg: CheckConfig, server: Element, serverTags: seq<string>, entry: (string, string)): CheckRun {
    if Get(cfg.collectStats, entry.0) == Some(true) then
      var (stats, warnings) := GetNodeFromName(server, entry.0);
      var e := ProcessStats(t, stats, entry.1, serverTags, 0);
      CheckRun(warnings + MetricEvents(e.samples),
               if e.keyError.Some? then Some(UnknownStatType(e.keyError.value)) else None)
    else CheckRun([], None)
  }

  function ServerRun(t: Translator, cfg: CheckConfig, nodeTags: seq<string>, server: Element): CheckRun {
    RunAll(cfg.metricCategories, entry => CategoryRun(t, cfg, server, ServerTags(server, nodeTags), entry))
  }

  function NodeRun(t: Translator, cfg: CheckConfig, node: Element): CheckRun {
    RunAll(ChildrenTagged(node.children, "Server"), server => ServerRun(t, cfg, NodeTags(cfg, node), server))
  }

  function DocumentRun(t: Translator, cfg: CheckConfig, root: Element): CheckRun {
    RunAll(ChildrenTagged(root.children, "Node"), node => NodeRun(t, cfg, node))
  }

  /** `check(instance)` on a configured check, given the fetch-and-parse outcome. */
  function CheckSpec(cfg: CheckConfig, metrics: Metrics, normalize: (string, string) -> string, response: Response): CheckRun {
    if !Truthy(cfg.url) then CheckRun([], Some(MissingUrl))
    else
      match response
      case ConnectionFailed(error) =>
        CheckRun([ConnectWarning(cfg, error)] + SubmitServiceChecks(cfg, StatusCritical), Some(ConnectError(error)))
      case Malformed(error) =>
        CheckRun(SubmitServiceChecks(cfg, StatusOk), Some(XmlSyntax(error)))
      case Document(root) =>
        Chain(CheckRun(SubmitServiceChecks(cfg, StatusOk), None), DocumentRun(TranslatorOf(cfg, metrics, normalize), cfg, root))
  }

  lemma RunAllPrefix<T>(xs: seq<T>, f: T -> CheckRun, k: nat)
    requires k < |xs|
    ensures RunAll(xs[..k + 1], f) == Chain(RunAll(xs[..k], f), f(xs[k]))
  {
    assert xs[..k + 1][..k] == xs[..k];
  }

  /** Once a prefix has raised, the rest of the elements change nothing. */
  lemma {:induction false} RunAllStops<T>(xs: seq<T>, f: T -> CheckRun, k: nat)
    requires k <= |xs|
    requires RunAll(xs[..k], f).raised.Some?
    ensures RunAll(xs, f) == RunAll(xs[..k], f)
    decreases |xs| - k
  {
    if k < |xs| {
      RunAllPrefix(xs, f, k);
      RunAllStops(xs, f, k + 1);
    } else {
      assert xs[..k] == xs;
    }
  }

  // ---------------------------------------------------------------------------
  // The run, as the source performs it: the three nested loops of `check`,
  // one method per loop level

  /** The innermost loop: every (category, prefix) entry of metric_categories for one server. */
  method CheckServer(t: Translator, cfg: CheckConfig, nodeTags: seq<string>, server: Element) returns (run: CheckRun)
    ensures run == ServerRun(t, cfg, nodeTags, server)
  {
    var serverTags := ServerTags(server, nodeTags);
    var step := entry => CategoryRun(t, cfg, server, serverTags, entry);
    var events: seq<Event> := [];
    var c := 0;
    while c < |cfg.metricCategories|
      invariant 0 <= c <= |cfg.metricCategories|
      invariant RunAll(cfg.metricCategories[..c], step) == CheckRun(events, None)
    {
      var (category, prefix) := cfg.metricCategories[c];
      RunAllPrefix(cfg.metricCategories, step, c);
      if Get(cfg.collectStats, category) == Some(true) {
        var (stats, warnings) := GetNodeFromName(server, category);
        var e := ProcessStats(t, stats, prefix, serverTags, 0);
        events := events + (warnings + MetricEvents(e.samples));
        if e.keyError.Some? {
          RunAllStops(cfg.metricCategories, step, c + 1);
          return CheckRun(events, Some(UnknownStatType(e.keyError.value)));
        }
      }
      c := c + 1;
    }
    assert cfg.metricCategories[..c] == cfg.metricCategories;
    return CheckRun(events, None);
  }

  /** The middle loop: every `Server` of one `Node`. */
  method CheckNode(t: Translator, cfg: CheckConfig, node: Element) returns (run: CheckRun)
    ensures run == NodeRun(t, cfg, node)
  {
    var nodeTags := NodeTags(cfg, node);
    var servers := ChildrenTagged(node.children, "Server");
    var step := server => ServerRun(t, cfg, nodeTags, server);
    var events: seq<Event> := [];
    var s := 0;
    while s < |servers|
      invariant 0 <= s <= |servers|
      invariant RunAll(servers[..s], step) == CheckRun(events, None)
    {
      var r := CheckServer(t, cfg, nodeTags, servers[s]);
      RunAllPrefix(servers, step, s);
      events := events + r.events;
      if r.raised.Some? {
        RunAllStops(servers, step, s + 1);
        return CheckRun(events, r.raised);
      }
      s := s + 1;
    }
    assert servers[..s] == servers;
    return CheckRun(events, None);
  }

  /** The outer loop: every `Node` of the document. */
  method CheckDocument(t: Translator, cfg: CheckConfig, root: Element) returns (run: CheckRun)
    ensures run == DocumentRun(t, cfg, root)
  {
    var nodes := ChildrenTagged(root.children, "Node");
    var step := node => NodeRun(t, cfg, node);
    var events: seq<Event> := [];
    var n := 0;
    while n < |nodes|
      invariant 0 <= n <= |nodes|
      invariant RunAll(nodes[..n], step) == CheckRun(events, None)
    {
      var r := CheckNode(t, cfg, nodes[n]);
      RunAllPrefix(nodes, step, n);
      events := events + r.events;
      if r.raised.Some? {
        RunAllStops(nodes, step, n + 1);
        return CheckRun(events, r.raised);
      }
      n := n + 1;
    }
    assert nodes[..n] == nodes;
    return CheckRun(events, None);
  }

  /** `check()`: require a servlet_url, fetch and report the connection status, then walk the document. */
  method Check(cfg: CheckConfig, metrics: Metrics, normalize: (string, string) -> string, response: Response)
    returns (run: CheckRun)
    ensures run == CheckSpec(cfg, metrics, normalize, response)
  {
    if !Truthy(cfg.url) {
      return CheckRun([], Some(MissingUrl));
    }
    if response.ConnectionFailed? {
      return CheckRun([ConnectWarning(cfg, response.error)] + SubmitServiceChecks(cfg, StatusCritical),
                      Some(ConnectError(response.error)));
    }
    var events := SubmitServiceChecks(cfg, StatusOk);
    if response.Malformed? {
      return CheckRun(events, Some(XmlSyntax(response.error)));
    }
    var walk := CheckDocument(TranslatorOf(cfg, metrics, normalize), cfg, response.root);
    return CheckRun(events + walk.events, walk.raised);
  }

  // ---------------------------------------------------------------------------
  // Properties of a run

  /** Every event of `RunAll` comes from one of the elements' runs. */
  lemma {:induction false} RunAllEvents<T>(xs: seq<T>, f: T -> CheckRun, p: Event -> bool)
    requires forall i :: 0 <= i < |xs| ==> forall e :: e in f(xs[i]).events ==> p(e)
    ensures forall e :: e in RunAll(xs, f).events ==> p(e)
    decreases |xs|
  {
    if xs != [] {
      RunAllEvents(xs[..|xs| - 1], f, p);
    }
  }

  /** Whatever `RunAll` raises, one of the elements' runs raised. */
  lemma {:induction false} RunAllRaises<T>(xs: seq<T>, f: T -> CheckRun)
    ensures RunAll(xs, f).raised.Some? ==> exists i :: 0 <= i < |xs| && f(xs[i]).raised == RunAll(xs, f).raised
    decreases |xs|
  {
    if xs != [] {
      RunAllRaises(xs[..|xs| - 1], f);
    }
  }

  predicate FromWalk(e: Event) {
    e.Metric? || e.Warning?
  }

  /** Walking one server submits only metrics and warnings, and can raise only KeyError. */
  lemma ServerRunShape(t: Translator, cfg: CheckConfig, nodeTags: seq<string>, server: Element)
    ensures forall e :: e in ServerRun(t, cfg, nodeTags, server).events ==> FromWalk(e)
    ensures ServerRun(t, cfg, nodeTags, server).raised.Some? ==>
            ServerRun(t, cfg, nodeTags, server).raised.value.UnknownStatType?
  {
    var step := entry => CategoryRun(t, cfg, server, ServerTags(server, nodeTags), entry);
    RunAllEvents(cfg.metricCategories, step, FromWalk);
    RunAllRaises(cfg.metricCategories, step);
  }

  /** Walking one node submits only metrics and warnings, and can raise only KeyError. */
  lemma NodeRunShape(t: Translator, cfg: CheckConfig, node: Element)
    ensures forall e :: e in NodeRun(t, cfg, node).events ==> FromWalk(e)
    ensures NodeRun(t, cfg, node).raised.Some? ==> NodeRun(t, cfg, node).raised.value.UnknownStatType?
  {
    var servers := ChildrenTagged(node.children, "Server");
    var step := server => ServerRun(t, cfg, NodeTags(cfg, node), server);
    forall i | 0 <= i < |servers|
      ensures forall e :: e in step(servers[i]).events ==> FromWalk(e)
      ensures step(servers[i]).raised.Some? ==> step(servers[i]).raised.value.UnknownStatType?
    {
      ServerRunShape(t, cfg, NodeTags(cfg, node), servers[i]);
    }
    RunAllEvents(servers, step, FromWalk);
    RunAllRaises(servers, step);
  }

  /** Walking the whole document submits only metrics and warnings, and can raise only KeyError. */
  lemma DocumentRunShape(t: Translator, cfg: CheckConfig, root: Element)
    ensures var run := DocumentRun(t, cfg, root);
      (forall e :: e in run.events ==> FromWalk(e)) && (run.raised.Some? ==> run.raised.value.UnknownStatType?)
  {
    var nodes := ChildrenTagged(root.children, "Node");
    var step := node => NodeRun(t, cfg, node);
    forall i | 0 <= i < |nodes|
      ensures forall e :: e in step(nodes[i]).events ==> FromWalk(e)
      ensures step(nodes[i]).raised.Some? ==> step(nodes[i]).raised.value.UnknownStatType?
    {
      NodeRunShape(t, cfg, nodes[i]);
    }
    RunAllEvents(nodes, step, FromWalk);
    RunAllRaises(nodes, step);
  }

  /**
   * The connection is reported before anything else: an unreachable servlet
   * yields a warning, a CRITICAL service check and the re-raised error; a
   * malformed document yields OK (from the fetch) and then the parser's error
   * leaves the check, with no CRITICAL and no metrics; a parsed document
   * yields OK and then only metrics and warnings, and can only end in
   * KeyError. Without a servlet_url nothing is submitted.
   */
  lemma CheckServiceChecks(cfg: CheckConfig, metrics: Metrics, normalize: (string, string) -> string, response: Response)
    ensures !Truthy(cfg.url) ==> CheckSpec(cfg, metrics, normalize, response) == CheckRun([], Some(MissingUrl))
    ensures Truthy(cfg.url) && response.ConnectionFailed? ==>
      CheckSpec(cfg, metrics, normalize, response).raised == Some(ConnectError(response.error)) &&
      |CheckSpec(cfg, metrics, normalize, response).events| == 3 &&
      CheckSpec(cfg, metrics, normalize, response).events[0] == ConnectWarning(cfg, response.error) &&
      CheckSpec(cfg, metrics, normalize, response).events[1..] == SubmitServiceChecks(cfg, StatusCritical)
    ensures Truthy(cfg.url) && response.Malformed? ==>
      CheckSpec(cfg, metrics, normalize, response) ==
      CheckRun(SubmitServiceChecks(cfg, StatusOk), Some(XmlSyntax(response.error)))
    ensures Truthy(cfg.url) && response.Document? ==>
      var run := CheckSpec(cfg, metrics, normalize, response);
      |run.events| >= 2 && run.events[..2] == SubmitServiceChecks(cfg, StatusOk) &&
      (run.raised.Some? ==> run.raised.value.UnknownStatType?) &&
      forall i :: 2 <= i < |run.events| ==> FromWalk(run.events[i])
  {
    if Truthy(cfg.url) && response.Document? {
      var t := TranslatorOf(cfg, metrics, normalize);
      var rest := DocumentRun(t, cfg, response.root);
      DocumentRunShape(t, cfg, response.root);
      var run := CheckSpec(cfg, metrics, normalize, response);
      assert run.events == SubmitServiceChecks(cfg, StatusOk) + rest.events;
      forall i | 2 <= i < |run.events| ensures FromWalk(run.events[i]) {
        assert run.events[i] == rest.events[i - 2];
      }
    }
  }

  /** Every category, server and node that yields nothing: the run is empty. */
  lemma {:induction false} RunAllQuiet<T>(xs: seq<T>, f: T -> CheckRun)
    requires forall i :: 0 <= i < |xs| ==> f(xs[i]) == CheckRun([], None)
    ensures RunAll(xs, f) == CheckRun([], None)
    decreases |xs|
  {
    if xs != [] {
      RunAllQuiet(xs[..|xs| - 1], f);
    }
  }

  /**
   * A category whose entry in collect_stats is not True is never looked up:
   * when no category is collected, a parsed document yields only the OK
   * service check, whatever it contains.
   */
  lemma NothingCollected(cfg: CheckConfig, metrics: Metrics, normalize: (string, string) -> string, root: Element)
    requires Truthy(cfg.url)
    requires forall i :: 0 <= i < |cfg.metricCategories| ==> Get(cfg.collectStats, cfg.metricCategories[i].0) != Some(true)
    ensures CheckSpec(cfg, metrics, normalize, Document(root)) == CheckRun(SubmitServiceChecks(cfg, StatusOk), None)
  {
    var t := TranslatorOf(cfg, metrics, normalize);
    var nodes := ChildrenTagged(root.children, "Node");
    forall i | 0 <= i < |nodes| ensures NodeRun(t, cfg, nodes[i]) == CheckRun([], None) {
      var node := nodes[i];
      var servers := ChildrenTagged(node.children, "Server");
      forall j | 0 <= j < |servers| ensures ServerRun(t, cfg, NodeTags(cfg, node), servers[j]) == CheckRun([], None) {
        var server := servers[j];
        RunAllQuiet(cfg.metricCategories, entry => CategoryRun(t, cfg, server, ServerTags(server, NodeTags(cfg, node)), entry));
      }
      RunAllQuiet(servers, server => ServerRun(t, cfg, NodeTags(cfg, node), server));
    }
    RunAllQuiet(nodes, node => NodeRun(t, cfg, node));
  }

  /** `tags` begins with `head`. */
  predicate StartsWith(tags: seq<string>, head: seq<string>) {
    |head| <= |tags| && tags[..|head|] == head
  }

  /** Every metric of one server carries the server's tags (`server:`, custom tags, `node:`) before any nested tag. */
  lemma ServerRunTags(t: Translator, cfg: CheckConfig, nodeTags: seq<string>, server: Element)
    ensures forall e :: e in ServerRun(t, cfg, nodeTags, server).events && e.Metric? ==>
      StartsWith(e.sample.tags, ServerTags(server, nodeTags))
  {
    var serverTags := ServerTags(server, nodeTags);
    var step := entry => CategoryRun(t, cfg, server, serverTags, entry);
    var p := (e: Event) => e.Metric? ==> StartsWith(e.sample.tags, serverTags);
    forall i | 0 <= i < |cfg.metricCategories| ensures forall e :: e in step(cfg.metricCategories[i]).events ==> p(e) {
      var entry := cfg.metricCategories[i];
      if Get(cfg.collectStats, entry.0) == Some(true) {
        var stats := GetNodeFromName(server, entry.0).0;
        ProcessStatsTags(t, stats, entry.1, serverTags);
      }
    }
    RunAllEvents(cfg.metricCategories, step, p);
  }

  /**
   * Every metric of a document is tagged, in order, `server:<server name>`,
   * the instance's tags and `node:<node name>` for a `Server` and the `Node`
   * above it, followed only by the nested tags of its category.
   */
  lemma DocumentRunTags(t: Translator, cfg: CheckConfig, root: Element)
    ensures forall e :: e in DocumentRun(t, cfg, root).events && e.Metric? ==>
      exists node, server :: node in ChildrenTagged(root.children, "Node") &&
                             server in ChildrenTagged(node.children, "Server") &&
                             StartsWith(e.sample.tags, ServerTags(server, NodeTags(cfg, node)))
  {
    var nodes := ChildrenTagged(root.children, "Node");
    var p := (e: Event) => e.Metric? ==>
      exists node, server :: node in nodes && server in ChildrenTagged(node.children, "Server") &&
                             StartsWith(e.sample.tags, ServerTags(server, NodeTags(cfg, node)));
    var step := node => NodeRun(t, cfg, node);
    forall i | 0 <= i < |nodes| ensures forall e :: e in step(nodes[i]).events ==> p(e) {
      var node := nodes[i];
      var servers := ChildrenTagged(node.children, "Server");
      var serverStep := server => ServerRun(t, cfg, NodeTags(cfg, node), server);
      var q := (e: Event) => e.Metric? ==>
        exists server :: server in servers && StartsWith(e.sample.tags, ServerTags(server, NodeTags(cfg, node)));
      forall j | 0 <= j < |servers| ensures forall e :: e in serverStep(servers[j]).events ==> q(e) {
        ServerRunTags(t, cfg, NodeTags(cfg, node), servers[j]);
      }
      RunAllEvents(servers, serverStep, q);
    }
    RunAllEvents(nodes, step, p);
  }

  // ---------------------------------------------------------------------------
  // Finding a category's statistics

  /** A child and everything below it are on the descendant axis of its parent's children. */
  lemma {:induction false} DescendantsContain(children: seq<Element>, i: nat)
    requires i < |children|
    ensures children[i] in Descendants(children)
    ensures forall d :: d in Descendants(children[i].children) ==> d in Descendants(children)
    decreases children
  {
    if i > 0 {
      DescendantsContain(children[1..], i - 1);
    }
  }

  /**
   * `get_node_from_name` finds a category's `Stat` at any depth below the
   * server, matching the name after white-space normalization; only when no
   * such `Stat` exists does it warn and return nothing to walk.
   */
  lemma GetNodeFromNameFinds(server: Element, category: string)
    ensures GetNodeFromName(server, category).1 == [] <==>
      exists d :: d in Descendants(server.children) && IsStatNamed(d, category)
    ensures GetNodeFromName(server, category).1 != [] ==>
      GetNodeFromName(server, category) == ([], [MissingStatsWarning(category)])
    ensures GetNodeFromName(server, category).1 == [] ==>
      exists i :: 0 <= i < |Descendants(server.children)| &&
        GetNodeFromName(server, category).0 == Descendants(server.children)[i].children &&
        IsStatNamed(Descendants(server.children)[i], category) &&
        forall j :: 0 <= j < i ==> !IsStatNamed(Descendants(server.children)[j], category)
  {
    var ds := Descendants(server.children);
    if exists d :: d in ds && IsStatNamed(d, category) {
      var d :| d in ds && IsStatNamed(d, category);
      var i :| 0 <= i < |ds| && ds[i] == d;
    }
  }

  /** A `Stat` nested inside another category's `Stat` is found too, whatever white space surrounds its name. */
  lemma GetNodeFromNameNested(server: Element, i: nat, outer: Element, category: string)
    requires i < |server.children| && server.children[i] == outer
    requires exists d :: d in Descendants(outer.children) && d.tag == "Stat" && NormalizeSpace(d.name) == category
    ensures GetNodeFromName(server, category).1 == []
  {
    DescendantsContain(server.children, i);
    var d :| d in Descendants(outer.children) && d.tag == "Stat" && NormalizeSpace(d.name) == category;
    assert IsStatNamed(d, category);
    GetNodeFromNameFinds(server, category);
  }

  // ---------------------------------------------------------------------------
  // Built-in categories and the units-gauge remap

  /**
   * The remap of a CountStatistic to a gauge applies to built-in categories
   * too: every built-in prefix with nested tags is in custom_stats, so a
   * CountStatistic whose unit is listed in custom_queries_units_gauge is
   * submitted as a gauge even under a default category.
   */
  lemma BuiltinPrefixRemaps(inst: Instance, metrics: Metrics, affirmative: Value -> bool, valid: CustomQuery -> bool,
                            normalize: (string, string) -> string, leaf: Element, prefix: string)
    requires Configure(inst, metrics, affirmative, valid).Ok?
    requires prefix in Keys(metrics.nestedTags)
    requires leaf.tag == "CountStatistic" && "unit" in leaf.attrs && leaf.attrs["unit"] in inst.unitsGauge
    requires leaf.tag in metrics.valueFields
    ensures var t := TranslatorOf(Configure(inst, metrics, affirmative, valid).value, metrics, normalize);
      RemapsToGauge(t, leaf, prefix) && SubmitMetrics(t, leaf, prefix, []).samples[0].kind == Gauge
  {
    ConfigureCustomStats(inst, metrics, affirmative, valid, prefix);
  }

  /** A category name without white space is its own normal form. */
  lemma JvmCategoryNormal()
    ensures NormalizeSpace("jvmRuntimeModule") == "jvmRuntimeModule"
  {
    var name := "jvmRuntimeModule";
    assert forall i :: 0 <= i < |name| ==> !IsXmlSpace(name[i]);
    NormalizeSpaceFixpoint(name);
  }

  /** The `Stat` of the jvm category is the first descendant of the server. */
  lemma JvmStatFound(server: Element, leaf: Element)
    requires server.children == [Element("Stat", "jvmRuntimeModule", map[], [leaf])] && leaf.children == []
    ensures GetNodeFromName(server, "jvmRuntimeModule") == ([leaf], [])
  {
    var stat := server.children[0];
    JvmCategoryNormal();
    assert IsStatNamed(stat, "jvmRuntimeModule");
    assert Descendants(server.children)[0] == stat;
  }

  /** The walk of the jvm category: one CountStatistic without a unit yields the count and its `_gauge` twin. */
  lemma JvmLeafSamples(t: Translator, leaf: Element, tags: seq<string>)
    requires t.valueFields == map["CountStatistic" := "count"]
    requires leaf == Element("CountStatistic", "requestCount", map["count" := "7"], [])
    requires t.normalize("requestCount", "ibm_was.jvm") == "ibm_was.jvm.requestcount"
    ensures ProcessStats(t, [leaf], "jvm", tags, 0) ==
      Emission([Sample("ibm_was.jvm.requestcount", Some("7"), tags, MonotonicCount),
                Sample("ibm_was.jvm.requestcount_gauge", Some("7"), tags, Gauge)], None)
  {
    assert MetricPrefix + "." + JvmPrefix == "ibm_was.jvm";
    assert !RemapsToGauge(t, leaf, "jvm");
    var e := SubmitMetrics(t, leaf, "jvm", tags);
    assert Attr(leaf, "count") == Some("7");
    assert e.samples[0] == Sample("ibm_was.jvm.requestcount", Some("7"), tags, MonotonicCount);
    assert "ibm_was.jvm.requestcount" + GaugeSuffix == "ibm_was.jvm.requestcount_gauge";
    assert e.samples[1] == Sample("ibm_was.jvm.requestcount_gauge", Some("7"), tags, Gauge);
    assert [leaf][1..] == [];
  }

  lemma MetricEventsPair(a: Sample, b: Sample)
    ensures MetricEvents([a, b]) == [Metric(a), Metric(b)]
  {
  }

  lemma RunAllSingle<T>(x: T, f: T -> CheckRun)
    ensures RunAll([x], f) == f(x)
  {
    assert [x][..0] == [];
  }

  lemma DocumentRunSingle(t: Translator, cfg: CheckConfig, root: Element, node: Element)
    requires ChildrenTagged(root.children, "Node") == [node]
    ensures DocumentRun(t, cfg, root) == NodeRun(t, cfg, node)
  {
    RunAllSingle(node, n => NodeRun(t, cfg, n));
  }

  lemma NodeRunSingle(t: Translator, cfg: CheckConfig, node: Element, server: Element)
    requires ChildrenTagged(node.children, "Server") == [server]
    ensures NodeRun(t, cfg, node) == ServerRun(t, cfg, NodeTags(cfg, node), server)
  {
    RunAllSingle(server, s => ServerRun(t, cfg, NodeTags(cfg, node), s));
  }

  /** The jvm category of server S1 yields exactly the samples of its one statistic. */
  lemma JvmServerRun(cfg: CheckConfig, t: Translator, nodeTags: seq<string>, server: Element, samples: seq<Sample>)
    requires cfg.metricCategories == [("jvmRuntimeModule", "jvm")]
    requires Get(cfg.collectStats, "jvmRuntimeModule") == Some(true)
    requires GetNodeFromName(server, "jvmRuntimeModule").1 == []
    requires ProcessStats(t, GetNodeFromName(server, "jvmRuntimeModule").0, "jvm", ServerTags(server, nodeTags), 0) ==
             Emission(samples, None)
    ensures ServerRun(t, cfg, nodeTags, server) == CheckRun(MetricEvents(samples), None)
  {
    var serverTags := ServerTags(server, nodeTags);
    RunAllSingle(("jvmRuntimeModule", "jvm"), entry => CategoryRun(t, cfg, server, serverTags, entry));
  }

  /** The scenario document: node N1, server S1, a jvm category holding one CountStatistic `requestCount` of 7. */
  function JvmDocument(): Element {
    Element("PerformanceMonitor", "", map[], [Element("Node", "N1", map[], [Element("Server", "S1", map[],
      [Element("Stat", "jvmRuntimeModule", map[], [Element("CountStatistic", "requestCount", map["count" := "7"], [])])])])])
  }

  /** Node N1 of the scenario document: its one server's jvm category, tagged by server and node. */
  lemma JvmNodeRun(cfg: CheckConfig, t: Translator, node: Element, samples: seq<Sample>)
    requires cfg.customTags == []
    requires cfg.metricCategories == [("jvmRuntimeModule", "jvm")]
    requires Get(cfg.collectStats, "jvmRuntimeModule") == Some(true)
    requires t.valueFields == map["CountStatistic" := "count"]
    requires t.normalize("requestCount", "ibm_was.jvm") == "ibm_was.jvm.requestcount"
    requires node == JvmDocument().children[0]
    requires samples == [Sample("ibm_was.jvm.requestcount", Some("7"), ["server:S1", "node:N1"], MonotonicCount),
                         Sample("ibm_was.jvm.requestcount_gauge", Some("7"), ["server:S1", "node:N1"], Gauge)]
    ensures NodeRun(t, cfg, node) == CheckRun(MetricEvents(samples), None)
  {
    var server := node.children[0];
    var leaf := server.children[0].children[0];
    var tags := ["server:S1", "node:N1"];
    var nodeTags := NodeTags(cfg, node);
    JvmNodeTags(cfg, node);
    JvmStatFound(server, leaf);
    JvmLeafSamples(t, leaf, tags);
    JvmServerRun(cfg, t, nodeTags, server, samples);
    JvmNodeServers(node);
    NodeRunSingle(t, cfg, node, server);
  }

  /** Node N1 has the one server S1. */
  lemma JvmNodeServers(node: Element)
    requires node == JvmDocument().children[0]
    ensures ChildrenTagged(node.children, "Server") == [node.children[0]]
  {
    assert node.children == [node.children[0]];
    assert node.children[0].tag == "Server";
  }

  /** Server S1 of node N1 is tagged `server:S1`, then `node:N1`. */
  lemma JvmNodeTags(cfg: CheckConfig, node: Element)
    requires cfg.customTags == []
    requires node == JvmDocument().children[0]
    ensures ServerTags(node.children[0], NodeTags(cfg, node)) == ["server:S1", "node:N1"]
  {
    assert "server:" + "S1" == "server:S1";
    assert "node:" + "N1" == "node:N1";
    assert NodeTags(cfg, node) == ["node:N1"];
  }

  /**
   * A document for node N1 and server S1 whose jvm category holds a
   * CountStatistic `requestCount`, under a prefix with no nested tags, is
   * walked into `ibm_was.jvm.requestcount` as a monotonic count and
   * `ibm_was.jvm.requestcount_gauge` as a gauge, both tagged `server:S1` and
   * `node:N1` and carrying the statistic's count; in a run these follow the
   * OK service check (`CheckServiceChecks`).
   */
  lemma JvmRequestCount(cfg: CheckConfig, metrics: Metrics, normalize: (string, string) -> string)
    requires cfg.customTags == []
    requires cfg.metricCategories == [("jvmRuntimeModule", "jvm")]
    requires Get(cfg.collectStats, "jvmRuntimeModule") == Some(true)
    requires metrics.valueFields == map["CountStatistic" := "count"]
    requires normalize("requestCount", "ibm_was.jvm") == "ibm_was.jvm.requestcount"
    ensures DocumentRun(TranslatorOf(cfg, metrics, normalize), cfg, JvmDocument()) ==
      CheckRun([Metric(Sample("ibm_was.jvm.requestcount", Some("7"), ["server:S1", "node:N1"], MonotonicCount)),
                Metric(Sample("ibm_was.jvm.requestcount_gauge", Some("7"), ["server:S1", "node:N1"], Gauge))], None)
  {
    var t := TranslatorOf(cfg, metrics, normalize);
    var root := JvmDocument();
    var node := root.children[0];
    var samples := [Sample("ibm_was.jvm.requestcount", Some("7"), ["server:S1", "node:N1"], MonotonicCount),
                    Sample("ibm_was.jvm.requestcount_gauge", Some("7"), ["server:S1", "node:N1"], Gauge)];
    JvmNodeRun(cfg, t, node, samples);
    assert ChildrenTagged(root.children, "Node") == [node];
    DocumentRunSingle(t, cfg, root, node);
    MetricEventsPair(samples[0], samples[1]);
    assert samples == [samples[0], samples[1]];
  }
}
