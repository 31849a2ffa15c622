# Datadog agent: IBM WAS statistics check and agent process control

This project is a Dafny model of two parts of the Datadog agent, with
proofs about each.

1. **The IBM WebSphere Application Server check** (`IbmWasCheck`). It has
   two phases:
   - Construction: the check merges the built-in category and tag-key tables
     with the instance's custom queries. It also decides which categories to
     collect and picks the HTTP options.
   - A run: the check reports whether the PMI servlet could be reached. It
     then walks the statistics document node by node, server by server and
     category by category. Each leaf statistic becomes one metric sample, or
     two under the `jvm` prefix, tagged with the path that leads to it.
2. **The agent process** (`agent.py`). This part covers:
   - the collection loop of `AgentRunner` and how `stop()` ends it;
   - the command-line checks of `main` and their exit codes;
   - the start-up checks, start order, registration order and shutdown order
     of `Agent.run`;
   - the answer that confirms a flare upload.

What the model cannot compute is an input:
- the HTTP fetch and XML parse outcome;
- the clock reading and which collaborator calls raise in each collection
  cycle;
- whether configuration loading or hostname lookup fails;
- the helpers whose code is outside this model: `normalize`,
  `_is_affirmative`, `validate_query`, and the tables of the check's
  `metrics` module.

What the code submits or does is returned as a sequence, in order: metric
samples, service checks and warnings for the check; the calls of a
collection cycle; the start, register, join, stop and exit steps of
`Agent.run`.

Files:

| file | module | content |
|---|---|---|
| `wrappers.dfy` | `Wrappers` | `Option` and `Result` |
| `pydict.dfy` | `PyDict` | Python dictionaries as insertion-ordered association lists: `d[k] = v`, `d.get(k)`, `dict(a, **b)` |
| `xpath_text.dfy` | `XPathText` | the XPath `normalize-space` function used to match category names |
| `ibm_was_stats.dfy` | `IbmWasStats` | `process_stats` and `submit_metrics`, plus a reference description of the walk |
| `ibm_was_config.dfy` | `IbmWasConfig` | `__init__`: `setup_configured_stats`, `append_custom_queries` and the HTTP options |
| `ibm_was_check.dfy` | `IbmWasCheck` | `check`, `get_node_from_name` and `submit_service_checks` |
| `agent_collection.dfy` | `AgentCollection` | the `AgentRunner` class: `collection` and `stop` |
| `agent_process.dfy` | `AgentProcess` | `main` and `Agent.run` |
| `agent_flare.dfy` | `AgentFlare` | the flare confirmation (`strip`, `lower`, accepted answers) |

Shape of the model:
- Loops that fill dictionaries become methods with loops. These are
  `setup_configured_stats`, `append_custom_queries`, and the three nested
  loops of `check` (one method per loop level).
- `AgentRunner` becomes a class whose fields `metaTs` and `stopped` its
  methods update.
- `Agent.run` becomes a method that performs its steps one after the other.
- Each of these methods is proved equal to a specification function.
- Lemmas about those functions state what the source promises.
- The recursive walk `process_stats`, the kind table and the command checks
  of `main` are functions.

Behaviours of the code worth knowing when reading the model:
- **The units-gauge remap applies to built-in prefixes too.** `custom_stats`
  is the key set of the merged `nested_tags` (`ibm_was.py:39`, `:178`), so a
  `CountStatistic` under any built-in prefix with nested tags is remapped to
  a gauge when its unit is listed. See `IbmWasConfig.ConfigureCustomStats`
  and `IbmWasCheck.BuiltinPrefixRemaps`.
- **OK is reported before parsing.** `make_request` submits the OK service
  check as soon as the response arrives (`ibm_was.py:156`), before the
  document is parsed (`:79`).
- **A malformed document leaves the check after OK.** The parse uses lxml's
  `etree.fromstring` (`ibm_was.py:7`, `:79`), which raises lxml's
  `XMLSyntaxError`. The handler at `:80` catches the `ParseError` of
  `xml.etree.ElementTree` (`:4`), which is a different class, so it does not
  apply: a run submits OK and then the parse error leaves `check`, with no
  CRITICAL service check.
- **A fetch error leaves the check.** After the warning and the CRITICAL
  service check, the connection error is raised again (`ibm_was.py:162`).
- **KeyError mid-walk.** A leaf whose tag is in `METRIC_VALUE_FIELDS` but not
  in the kind table raises `KeyError` in the middle of the walk. The samples
  submitted before it stay submitted.

## Model

| member | source | states |
|---|---|---|
| `IbmWasStats.KindOf` | checks/bundled/ibm_was/datadog_checks/ibm_was/ibm_was.py:25-32 | `CountStatistic` maps to a monotonic count and `DoubleStatistic` to a rate, each if and only if. The four gauge tags, and only they, map to a gauge. |
| `IbmWasStats.SubmitMetrics` | checks/bundled/ibm_was/datadog_checks/ibm_was/ibm_was.py:132-150 | KeyError exactly when the leaf's tag has no kind. Otherwise: one sample, or two under `jvm`. Every sample has the leaf's value attribute and the given tags. The first sample has the normalized name. A `CountStatistic` is a gauge if and only if the three-part remap condition holds, and a monotonic count otherwise. Any other leaf's kind comes from the table. The `jvm` twin is `<name>_gauge` and is a gauge. |
| `IbmWasStats.DescendTags` | checks/bundled/ibm_was/datadog_checks/ibm_was/ibm_was.py:125-129 | Entering a category adds exactly one tag, `tag_keys[level]:<child name>`, if and only if the prefix's tag-key list is longer than the depth. Otherwise the tags pass through unchanged, and the outer tags are always kept as a prefix. |
| `IbmWasStats.ProcessStatsOneChild` | checks/bundled/ibm_was/datadog_checks/ibm_was/ibm_was.py:121-130 | For a single child: a leaf statistic is one `submit_metrics` with the current tags; a category is walked one level deeper with the descended tags; any other element submits nothing. |
| `IbmWasStats.ProcessStatsAppend` | checks/bundled/ibm_was/datadog_checks/ibm_was/ibm_was.py:121-130 | Children are visited in order. The walk of `a + b` is the walk of `a`, then, unless it raised, the walk of `b`. |
| `IbmWasStats.ProcessStatsIsSubmitAll` | checks/bundled/ibm_was/datadog_checks/ibm_was/ibm_was.py:115-130 | The recursive walk equals an independent reference description. That description lists the leaves in document order with the categories above them, then submits each leaf with the outer tags plus one `key:name` per category at a depth that has a tag key. |
| `IbmWasStats.ProcessStatsCount` | checks/bundled/ibm_was/datadog_checks/ibm_was/ibm_was.py:115-150 | A walk raises if and only if some leaf below has a tag outside the kind table. Without KeyError it submits one sample per leaf, or two per leaf under `jvm`. |
| `IbmWasStats.ProcessStatsTags` | checks/bundled/ibm_was/datadog_checks/ibm_was/ibm_was.py:125-130 | Every sample carries the outer tags first. It adds no more tags than the prefix has tag keys. |
| `PyDict.SetGet` | checks/bundled/ibm_was/datadog_checks/ibm_was/ibm_was.py:174-176 | After `d[k] = v`, `k` maps to `v` and every other key keeps its value. |
| `PyDict.SetKeys` | checks/bundled/ibm_was/datadog_checks/ibm_was/ibm_was.py:174-176 | Assigning to an existing key keeps its position; a new key goes at the end. |
| `PyDict.MergeDictGet` | checks/bundled/ibm_was/datadog_checks/ibm_was/ibm_was.py:178-179 | In `dict(base, **over)`, the entry of `over` wins on a shared key. Other keys keep their value from `base`. |
| `PyDict.MergeKeySet` | checks/bundled/ibm_was/datadog_checks/ibm_was/ibm_was.py:178-179 | The keys of `dict(base, **over)` are exactly the keys of `base` and those of `over`. |
| `PyDict.MergeNoDuplicateKeys` | checks/bundled/ibm_was/datadog_checks/ibm_was/ibm_was.py:178-179 | The merge is a dictionary: no key repeats. |
| `XPathText.NormalizeSpaceNormalized` | checks/bundled/ibm_was/datadog_checks/ibm_was/ibm_was.py:105 | `normalize-space` leaves no leading, trailing or doubled space, and no white space other than a space. |
| `XPathText.NormalizeSpaceWords` | checks/bundled/ibm_was/datadog_checks/ibm_was/ibm_was.py:105 | `normalize-space` keeps exactly the words of its argument (maximal runs of non-white-space characters), in order, with one space between each two. |
| `XPathText.NormalizeSpaceIdempotent` | checks/bundled/ibm_was/datadog_checks/ibm_was/ibm_was.py:105 | `normalize-space` applied twice is `normalize-space` applied once. |
| `IbmWasConfig.HttpOptionsOf` | checks/bundled/ibm_was/datadog_checks/ibm_was/ibm_was.py:43-70 | `auth` is set if and only if both username and password are truthy. `verify` is the CA certificate when that is a string; otherwise it is false exactly when `tls_verify` is not affirmative. `cert` is the pair when cert and key are both strings, the cert alone when only the cert is a string, and none otherwise. |
| `IbmWasConfig.SetupConfiguredStats` | checks/bundled/ibm_was/datadog_checks/ibm_was/ibm_was.py:182-187 | The loop computes the configured-stats specification. A category is present, with True, exactly when it is a default whose `collect_<prefix>_stats` is affirmative; absent counts as true. |
| `IbmWasConfig.ConfiguredStatsGet` | checks/bundled/ibm_was/datadog_checks/ibm_was/ibm_was.py:182-187 | The same characterization, for the specification function: True exactly for an affirmative default category, nothing else present. |
| `IbmWasConfig.FirstInvalid` | checks/bundled/ibm_was/datadog_checks/ibm_was/ibm_was.py:172-173 | There is no result if and only if every query validates. Otherwise the result is the first query that does not. |
| `IbmWasConfig.AppendCustomQueries` | checks/bundled/ibm_was/datadog_checks/ibm_was/ibm_was.py:169-180 | The loop equals the merge specification. It fails at the first invalid query. Otherwise it returns the built-in tables with the custom entries assigned over them, and `collect_stats` with each custom stat set to True. |
| `IbmWasConfig.CustomTagKeysWin` | checks/bundled/ibm_was/datadog_checks/ibm_was/ibm_was.py:175-178 | In the merged `nested_tags`, a prefix named by a custom query takes the tag keys of the last query naming it. Other prefixes keep their built-in keys. |
| `IbmWasConfig.CustomCategoriesWin` | checks/bundled/ibm_was/datadog_checks/ibm_was/ibm_was.py:174-179 | In the merged `metric_categories`, a stat named by a custom query maps to the last query's prefix. Other stats keep their built-in prefix. |
| `IbmWasConfig.CustomStatsForced` | checks/bundled/ibm_was/datadog_checks/ibm_was/ibm_was.py:176 | Every custom stat is set to collect (True). Other entries of `collect_stats` are unchanged. |
| `IbmWasConfig.NewIbmWasCheck` | checks/bundled/ibm_was/datadog_checks/ibm_was/ibm_was.py:21-70 | Construction, run as the source runs it, computes the configuration specification. |
| `IbmWasConfig.ConfigureFails` | checks/bundled/ibm_was/datadog_checks/ibm_was/ibm_was.py:172-173 | Construction fails if and only if some custom query is invalid, and it names the first one. |
| `IbmWasConfig.ConfigureCustomStats` | checks/bundled/ibm_was/datadog_checks/ibm_was/ibm_was.py:39 | `custom_stats` holds every built-in prefix with nested tags and every custom prefix, and nothing else. |
| `IbmWasConfig.ConfigureCollectStats` | checks/bundled/ibm_was/datadog_checks/ibm_was/ibm_was.py:37-38 | After construction, a category is collected (True) exactly when a custom query names it, or it is a default with an affirmative collect option. |
| `IbmWasCheck.ChildrenTagged` | checks/bundled/ibm_was/datadog_checks/ibm_was/ibm_was.py:112-113 | `findall` returns exactly the children with the tag, and never more elements than there are children; a single child is returned when it has the tag, and nothing otherwise. |
| `IbmWasCheck.ChildrenTaggedAppend` | checks/bundled/ibm_was/datadog_checks/ibm_was/ibm_was.py:112-113 | `findall` keeps document order and multiplicity: the matches among `a + b` are those among `a` followed by those among `b`. |
| `IbmWasCheck.FirstStatNamed` | checks/bundled/ibm_was/datadog_checks/ibm_was/ibm_was.py:105-107 | If any element is a `Stat` whose normalized name is the category, the first such element is found; otherwise nothing is. |
| `IbmWasCheck.GetNodeFromNameFinds` | checks/bundled/ibm_was/datadog_checks/ibm_was/ibm_was.py:102-110 | No warning if and only if some descendant of the server is a `Stat` with the category's normalized name. Its children are those of the first such descendant in document order. Otherwise: one warning and nothing to walk. |
| `IbmWasCheck.GetNodeFromNameNested` | checks/bundled/ibm_was/datadog_checks/ibm_was/ibm_was.py:105 | A `Stat` nested inside another category's `Stat` is found too. |
| `IbmWasCheck.CheckServer` | checks/bundled/ibm_was/datadog_checks/ibm_was/ibm_was.py:96-100 | The innermost loop equals the fold of the category step over `metric_categories`. It stops at the first KeyError. |
| `IbmWasCheck.CheckNode` | checks/bundled/ibm_was/datadog_checks/ibm_was/ibm_was.py:88-95 | The server loop equals the fold of the server walk over the node's `Server` children. |
| `IbmWasCheck.CheckDocument` | checks/bundled/ibm_was/datadog_checks/ibm_was/ibm_was.py:85-91 | The node loop equals the fold of the node walk over the root's `Node` children. |
| `IbmWasCheck.Check` | checks/bundled/ibm_was/datadog_checks/ibm_was/ibm_was.py:72-100 | `check` equals the run specification for every fetch and parse outcome, an lxml syntax error included. |
| `IbmWasCheck.CheckServiceChecks` | checks/bundled/ibm_was/datadog_checks/ibm_was/ibm_was.py:72-83 | Without `servlet_url`: ValueError, with nothing submitted. Unreachable servlet: the connection warning, then the CRITICAL gauge and service check, then the error raised again. Malformed document: OK, then lxml's syntax error leaves the check, with no CRITICAL and no metrics. Parsed document: OK first, then only metrics and warnings; it can end only in KeyError. |
| `IbmWasCheck.DocumentRunShape` | checks/bundled/ibm_was/datadog_checks/ibm_was/ibm_was.py:85-100 | Walking a document submits only metrics and warnings and can raise only KeyError. |
| `IbmWasCheck.NothingCollected` | checks/bundled/ibm_was/datadog_checks/ibm_was/ibm_was.py:96-100 | When no category is marked for collection, a parsed document yields only the OK service check, whatever it contains. |
| `IbmWasCheck.ServerRunTags` | checks/bundled/ibm_was/datadog_checks/ibm_was/ibm_was.py:89-100 | Every metric of a server starts with `server:<name>`, then the instance's tags, then `node:<name>`. |
| `IbmWasCheck.DocumentRunTags` | checks/bundled/ibm_was/datadog_checks/ibm_was/ibm_was.py:85-100 | Every metric of a document starts with the tags of some `Server` and the `Node` above it, in that order. |
| `IbmWasCheck.BuiltinPrefixRemaps` | checks/bundled/ibm_was/datadog_checks/ibm_was/ibm_was.py:139-144 | A `CountStatistic` under a built-in prefix with nested tags, whose unit is in `custom_queries_units_gauge`, is submitted as a gauge. |
| `IbmWasCheck.JvmRequestCount` | checks/bundled/ibm_was/datadog_checks/ibm_was/ibm_was.py:145-150 | A jvm category holding one `CountStatistic` yields `ibm_was.jvm.requestcount` as a monotonic count, then `ibm_was.jvm.requestcount_gauge` as a gauge. Both are tagged `server:S1`, `node:N1` and carry the same value. |
| `AgentCollection.CycleActions` | agent.py:63-76 | Metadata is attempted exactly when it is due, as the cycle's first call, and nowhere else. It carries the start event exactly when `_meta_ts` is unset. |
| `AgentCollection.NextMetaTs` | agent.py:66-69 | `_meta_ts` moves to the clock reading only after a due submission that returned. A raising submission leaves it unchanged. Once set, it stays set. |
| `AgentCollection.AgentRunner.constructor` | agent.py:53-59 | A new runner has no `_meta_ts` and the event clear. |
| `AgentCollection.AgentRunner.Stop` | agent.py:78-80 | `stop()` sets the event and changes nothing else. |
| `AgentCollection.AgentRunner.RunCycle` | agent.py:63-76 | One cycle submits the calls of the cycle specification and updates `_meta_ts` as `NextMetaTs` says. |
| `AgentCollection.AgentRunner.Collection` | agent.py:61-76 | The loop computes the collection specification: its calls, its number of cycles, and the final `_meta_ts` and event. |
| `AgentCollection.CycleFaultIsolation` | agent.py:63-76 | A raising metadata submission skips the checks and the push. Raising checks skip the push. Any exception is logged once. Every cycle ends in its one sleep. |
| `AgentCollection.RetryAfterFailure` | agent.py:66-69 | After a failed submission, metadata is due again on the next cycle. |
| `AgentCollection.CollectionCycles` | agent.py:62-76 | Exceptions raised before the sleep never end the loop. Without `stop()`, every input is a cycle, and each cycle sleeps exactly once. |
| `AgentCollection.StopEndsCollection` | agent.py:62 | A set event runs no cycle. A `stop()` during cycle k lets that cycle finish and no other start. |
| `AgentCollection.StartEventOnce` | agent.py:67 | In a run, at most one submission that returned carries the start event, and none once `_meta_ts` is set. |
| `AgentCollection.SubmissionsSpaced` | agent.py:66-69 | Successful submissions are at least `host_metadata_interval` apart, the first counted from `_meta_ts` on entry. |
| `AgentProcess.Main` | agent.py:326-382 | Exit code 2 if and only if there is no command. Exit code 3 if and only if the command is unknown. Exit code 1 if and only if the configuration fails to load, or start/restart is given without `--manual`. `init_config` is reached exactly for a known command, with `do_log = --force-logging or COMMANDS[command]`. A dispatched operation matches its command and flags. |
| `AgentProcess.AgentRun` | agent.py:190-311 | `Agent.run`, step by step, produces the run specification. |
| `AgentProcess.RunExitCode` | agent.py:191-208 | A run ends with its one exit: 1 after a failed hostname, `dd_url` or `api_key` check, and 0 otherwise. |
| `AgentProcess.FatalStartsNothing` | agent.py:191-220 | A failed start-up check exits before the forwarder or anything else is started or registered. |
| `AgentProcess.RunOrder` | agent.py:220-307 | After the checks pass: the forwarder starts first. Registration order is runner, forwarder, api, then reporter and `dsd_server` when dogstatsd is enabled. Every start precedes every join or stop. Shutdown order is the join of the `DogstatsdRunner` thread (with the reporter stop on error), then runner, api, signal-handler stop and join. The reporter is stopped if and only if dogstatsd is enabled and reports an error. |
| `AgentFlare.StripStart` | agent.py:177 | The result is the suffix left after removing leading white space: everything removed is white space, and the result does not start with white space. |
| `AgentFlare.StripEnd` | agent.py:177 | The result is the prefix left after removing trailing white space: everything removed is white space, and the result does not end with white space. |
| `AgentFlare.Lower` | agent.py:177 | Same length; each character is lowered. |
| `AgentFlare.StripLower` | agent.py:177 | Stripping and lowering commute. |
| `AgentFlare.FlareConfirmedIgnoresCase` | agent.py:176-179 | An answer confirms exactly when its lowered form does. |
| `AgentFlare.FlareConfirmedIgnoresSpace` | agent.py:176-179 | An answer confirms exactly when its stripped form does. |
| `AgentFlare.BlankAnswerConfirms` | agent.py:176-179 | An empty or all-white-space answer (just pressing enter) confirms. |
| `AgentFlare.NoAnswerAborts` | agent.py:176-179 | An answer whose first visible letter is `n` or `N` aborts. |

## Left out

- The HTTP request (`make_request`'s `requests.get` and the HTTP options
  passed to it) and the lxml parser are not modelled. Their outcome is an
  input: connection error, an lxml syntax error, or a parsed tree. Request exceptions
  other than `HTTPError` and `ConnectionError` are not modelled.
- The `except ParseError` branch (`ibm_was.py:80-83`) is not modelled: the
  parser raises lxml's own error class, which that handler does not catch,
  so the branch is not reached from a parse failure. The debug log lines are
  not modelled either.
- Non-element nodes (comments, processing instructions) among the children
  are not modelled. A missing `name` attribute, which would format as
  `None`, is not modelled either. Every element has a name.
- `normalize`, `_is_affirmative`, `validate_query`, the `AgentCheck`
  submission functions and the `metrics` module's tables are external; they
  are parameters. So the metric names are `normalize`'s results, not
  concrete strings.
- `init_config` (search paths, logging set-up, file providers) is not
  modelled. Only whether it raises is an input to `main`.
- The daemon operations (`agent.start`, `stop`, `restart`, `status`), the pid
  file and the installed-path check are not modelled. `main` is modelled up
  to the operation it dispatches.
- The `__main__` exception wrapper is not modelled.
- The flare's prompts for an email and a case id, the archive, the upload,
  the abort message and `sys.exit(0)` are not modelled. Only the
  confirmation predicate is.
- The status page rendering is not modelled.
- Threads, `Event`, `time.sleep` as real waiting, and the signal handler's
  internals are not modelled. `AgentRunner.run` only calls `collection`.
- In `Agent.run`, the construction of the aggregator, serializer, collector,
  API server and dogstatsd objects is not modelled; neither are the proxy
  and site look-ups, the status dictionary or the info log lines. The two
  `handler.handle` calls are one step.
- AgentCollection.AgentRunner.Collection: runs over a finite list of cycle
  inputs and also stops when they run out. The source's loop runs until the
  event is set. Clock readings are integers; `time.monotonic` returns
  floats.
- AgentFlare.Lower: lowers only ASCII letters; Python's `lower` also
  handles the rest of Unicode.
- AgentFlare.StripStart: strips only space, tab, LF, CR, VT and FF; Python's
  `strip` also removes the separators `\x1c`-`\x1f` and Unicode white space.
- AgentFlare.StripEnd: strips only space, tab, LF, CR, VT and FF, like
  `StripStart`.
- AgentCollection.AgentRunner.constructor: `min_collection_interval` is a
  non-negative number. A negative or missing one makes `time.sleep` raise at
  `agent.py:76`, outside the `try`, which ends `collection` and the runner
  thread; that outcome is not modelled.
- `main` takes the options and arguments already parsed. An unknown option
  makes `parser.parse_args()` (`agent.py:325`) print usage and exit with
  status 2 before any of `main`'s own checks; that is not modelled.
