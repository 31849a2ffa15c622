/**
 * Process control in the agent's entry point: the command-line checks of
 * `main` and the exit code they return, the fatal start-up checks and the
 * start, registration and shutdown order of `Agent.run`.
 *
 * Configuration loading, hostname lookup and the components themselves are
 * not modelled: whether each of them succeeds, and what the configuration
 * holds, are inputs.
 */
module AgentProcess {
  import opened Wrappers

  // ---------------------------------------------------------------------------
  // main

  /** `Agent.COMMANDS`: each command and whether it logs by default. */
  const Commands: map<string, bool> :=
    map["start" := true, "stop" := true, "restart" := false, "status" := false, "flare" := false]

  /** The parsed `-b`, `-l` and `-m` flags. */
  datatype Options = Options(background: bool, forceLogging: bool, manual: bool)

  /** The daemon operation `main` hands over to. */
  datatype Dispatch = StartDaemon(foreground: bool) | StopDaemon | RestartDaemon | ShowStatus | SendFlare

  datatype MainOutcome = ExitCode(code: int) | Dispatched(action: Dispatch)

  /** What `main` did: the `do_log` it passed to init_config (if it got that far), and how it ended. */
  datatype MainRun = MainRun(initConfig: Option<bool>, outcome: MainOutcome)

  /** The command that leads `main` to hand over to `action`, with the flags it needs. */
  predicate DispatchMatches(action: Dispatch, command: string, opts: Options) {
    match action
    case StartDaemon(foreground) => command == "start" && opts.manual && foreground == !opts.background
    case StopDaemon => command == "stop"
    case RestartDaemon => command == "restart" && opts.manual
    case ShowStatus => command == "status"
    case SendFlare => command == "flare"
  }

  /**
   * `main()`, given the positional arguments, the flags and whether
   * init_config raises. It returns 2 without a command, 3 for an unknown
   * command, 1 when the configuration cannot be loaded and 1 for start or
   * restart without `--manual`; otherwise it dispatches the command.
   */
  function Main(args: seq<string>, opts: Options, configFails: bool): (r: MainRun)
    ensures r.outcome == ExitCode(2) <==> args == []
    ensures r.outcome == ExitCode(3) <==> args != [] && args[0] !in Commands
    ensures r.outcome == ExitCode(1) <==>
      args != [] && args[0] in Commands && (configFails || ((args[0] == "start" || args[0] == "restart") && !opts.manual))
    ensures r.outcome.ExitCode? ==> r.outcome.code in {1, 2, 3}
    ensures r.initConfig.Some? <==> args != [] && args[0] in Commands
    ensures r.initConfig.Some? ==> r.initConfig.value == (opts.forceLogging || Commands[args[0]])
    ensures r.outcome.Dispatched? ==> !configFails && args != [] && DispatchMatches(r.outcome.action, args[0], opts)
  {
    if args == [] then MainRun(None, ExitCode(2))
    else
      var command := args[0];
      if command !in Commands then MainRun(None, ExitCode(3))
      else
        var doLog := opts.forceLogging || Commands[command];
        if configFails then MainRun(Some(doLog), ExitCode(1))
        else
          var outcome :=
            if command == "start" then (if opts.manual then Dispatched(StartDaemon(!opts.background)) else ExitCode(1))
            else if command == "stop" then Dispatched(StopDaemon)
            else if command == "restart" then (if opts.manual then Dispatched(RestartDaemon) else ExitCode(1))
            else if command == "status" then Dispatched(ShowStatus)
            else Dispatched(SendFlare);
          MainRun(Some(doLog), outcome)
  }

  // ---------------------------------------------------------------------------
  // Agent.run

  /** What `Agent.run` reads from the environment and the configuration. */
  datatype RunEnv = RunEnv(
    hostnameFails: bool,        // get_hostname raises HostnameException
    ddUrl: Option<string>,      // config dd_url
    apiKey: Option<string>,     // config api_key
    dsdEnabled: bool,           // dogstatsd.enabled
    dsdEnable: bool,            // dogstatsd.enable, the misspelt key kept for compatibility
    dsdFails: bool)             // dsd.raise_for_status raises after the server ends

  /** Python truthiness of an optional string setting. */
  predicate Truthy(v: Option<string>) {
    v.Some? && v.value != ""
  }

  /**
   * The threads and servers `Agent.run` starts, registers and joins. The
   * dogstatsd server is registered with the signal handler, while the
   * `DogstatsdRunner` thread wrapped around it is what is started and joined.
   */
  datatype Component = Forwarder | Runner | Api | Reporter | DsdServer | DsdRunner | SignalHandler

  /** The errors `Agent.run` logs. */
  datatype Failure = NoDatadogUrl | NoApiKey | DogstatsdProblem

  /** The observable steps of `Agent.run`, in order. */
  datatype Step =
    | LogCritical | LogError(failure: Failure)
    | Register(component: Component) | HandleSignals
    | Start(started: Component) | Join(joined: Component) | Stop(stopped: Component)
    | Exit(code: int)

  /** The two views of a run its ordering properties are stated on. */
  datatype View = Registrations | Shutdown

  predicate InView(s: Step, v: View) {
    match v
    case Registrations => s.Register?
    case Shutdown => s.Join? || s.Stop?
  }

  /** The steps of `steps` in view `v`, in order. */
  function Filter(steps: seq<Step>, v: View): seq<Step>
  {
    if |steps| == 0 then [] else (if InView(steps[0], v) then [steps[0]] else []) + Filter(steps[1..], v)
  }

  lemma {:induction false} FilterAppend(a: seq<Step>, b: seq<Step>, v: View)
    ensures Filter(a + b, v) == Filter(a, v) + Filter(b, v)
    decreases |a|
  {
    if |a| == 0 {
      assert a + b == b;
    } else {
      var ab := a + b;
      var head := if InView(a[0], v) then [a[0]] else [];
      assert ab[0] == a[0];
      assert ab[1..] == a[1..] + b;
      FilterAppend(a[1..], b, v);
      assert Filter(ab, v) == head + (Filter(a[1..], v) + Filter(b, v));
      assert Filter(a, v) == head + Filter(a[1..], v);
    }
  }

  /** Filtering a run none of whose steps is in the view. */
  lemma {:induction false} FilterNone(steps: seq<Step>, v: View)
    requires forall k :: 0 <= k < |steps| ==> !InView(steps[k], v)
    ensures Filter(steps, v) == []
    decreases |steps|
  {
    if |steps| > 0 {
      FilterNone(steps[1..], v);
    }
  }

  /** Filtering a run all of whose steps are in the view. */
  lemma {:induction false} FilterAll(steps: seq<Step>, v: View)
    requires forall k :: 0 <= k < |steps| ==> InView(steps[k], v)
    ensures Filter(steps, v) == steps
    decreases |steps|
  {
    if |steps| > 0 {
      FilterAll(steps[1..], v);
    }
  }

  /** One of the three checks that end `Agent.run` before anything is started. */
  predicate Fatal(env: RunEnv) {
    env.hostnameFails || !Truthy(env.ddUrl) || !Truthy(env.apiKey)
  }

  function DogstatsdEnabled(env: RunEnv): bool {
    env.dsdEnabled || env.dsdEnable
  }

  /** The components registered with the signal handler, in order. */
  function RegistrationOrder(dsd: bool): seq<Step> {
    [Register(Runner), Register(Forwarder), Register(Api)] +
    (if dsd then [Register(Reporter), Register(DsdServer)] else [])
  }

  /** Installing the signal handler and starting the threads. */
  function Launches(dsd: bool): seq<Step> {
    [HandleSignals, Start(SignalHandler), Start(Runner), Start(Api)] +
    (if dsd then [Start(Reporter), Start(DsdRunner)] else [])
  }

  /** The steps after every thread has been started, up to the exit. */
  function ShutdownSteps(dsd: bool, dsdFails: bool): seq<Step> {
    DogstatsdShutdown(dsd, dsdFails) +
    [Join(Runner), Join(Api), Stop(SignalHandler), Join(SignalHandler), Exit(0)]
  }

  /** The joins and stops of a clean shutdown, in order. */
  function ShutdownOrder(dsd: bool, dsdFails: bool): seq<Step> {
    (if dsd then [Join(DsdRunner)] + (if dsdFails then [Stop(Reporter)] else []) else []) +
    [Join(Runner), Join(Api), Stop(SignalHandler), Join(SignalHandler)]
  }

  /** The steps after the start-up checks: dogstatsd enabled or not, its status check failing or not. */
  function ServeSteps(dsd: bool, dsdFails: bool): seq<Step> {
    [Start(Forwarder)] + RegistrationOrder(dsd) + Launches(dsd) + ShutdownSteps(dsd, dsdFails)
  }

  /**
   * The steps `Agent.run()` takes. A hostname failure, a missing Datadog URL
   * or a missing API key end it with exit code 1; otherwise it starts the
   * forwarder, registers and starts the components, waits for them and
   * exits with 0.
   */
  function RunSteps(env: RunEnv): seq<Step> {
    if env.hostnameFails then [LogCritical, Exit(1)]
    else if !Truthy(env.ddUrl) then [LogError(NoDatadogUrl), Exit(1)]
    else if !Truthy(env.apiKey) then [LogError(NoApiKey), Exit(1)]
    else ServeSteps(DogstatsdEnabled(env), env.dsdFails)
  }

  /** `Agent.run()`, one step after the other. */
  method AgentRun(env: RunEnv) returns (steps: seq<Step>)
    ensures steps == RunSteps(env)
  {
    if env.hostnameFails {
      steps := [LogCritical, Exit(1)];
      return;
    }
    if !Truthy(env.ddUrl) {
      steps := [LogError(NoDatadogUrl), Exit(1)];
      return;
    }
    if !Truthy(env.apiKey) {
      steps := [LogError(NoApiKey), Exit(1)];
      return;
    }
    var dsd := env.dsdEnabled || env.dsdEnable;
    steps := [Start(Forwarder)];
    steps := steps + [Register(Runner), Register(Forwarder), Register(Api)];
    if dsd {
      steps := steps + [Register(Reporter), Register(DsdServer)];
    }
    steps := steps + [HandleSignals, Start(SignalHandler), Start(Runner), Start(Api)];
    if dsd {
      steps := steps + [Start(Reporter), Start(DsdRunner)];
      steps := steps + [Join(DsdRunner)];
      if env.dsdFails {
        steps := steps + [LogError(DogstatsdProblem), Stop(Reporter)];
      }
    }
    steps := steps + [Join(Runner), Join(Api), Stop(SignalHandler), Join(SignalHandler), Exit(0)];
    assert steps == [Start(Forwarder)] + RegistrationOrder(dsd) + Launches(dsd) + ShutdownSteps(dsd, env.dsdFails);
  }

  /** Every thread is started before the first join or stop. */
  ghost predicate StartsBeforeShutdown(steps: seq<Step>) {
    forall i, j :: 0 <= i < j < |steps| && InView(steps[i], Shutdown) ==> !steps[j].Start?
  }

  /** A run ends with its one exit: 1 after a failed start-up check, 0 otherwise. */
  lemma RunExitCode(env: RunEnv)
    ensures var steps := RunSteps(env);
      |steps| > 0 && steps[|steps| - 1] == Exit(if Fatal(env) then 1 else 0) &&
      forall k :: 0 <= k < |steps| - 1 ==> !steps[k].Exit?
  {
    if !Fatal(env) {
      ServeExitCode(DogstatsdEnabled(env), env.dsdFails);
    }
  }

  lemma ServeExitCode(dsd: bool, dsdFails: bool)
    ensures var steps := ServeSteps(dsd, dsdFails);
      steps[|steps| - 1] == Exit(0) && forall k :: 0 <= k < |steps| - 1 ==> !steps[k].Exit?
  {
    var steps := ServeSteps(dsd, dsdFails);
    var body := steps[..|steps| - 5];
    assert steps == body + [Join(Runner), Join(Api), Stop(SignalHandler), Join(SignalHandler), Exit(0)];
    forall k | 0 <= k < |steps| - 1 ensures !steps[k].Exit? {
      if k >= |body| {
        assert steps[k] == [Join(Runner), Join(Api), Stop(SignalHandler), Join(SignalHandler), Exit(0)][k - |body|];
      }
    }
  }

  /** A failed start-up check exits before the forwarder or anything else is started or registered. */
  lemma FatalStartsNothing(env: RunEnv)
    requires Fatal(env)
    ensures forall k :: 0 <= k < |RunSteps(env)| ==> !RunSteps(env)[k].Start? && !RunSteps(env)[k].Register?
  {
  }

  /**
   * A run that passes the start-up checks starts the forwarder first,
   * registers the components in order, starts every thread before joining
   * any, and shuts down in order; the reporter is stopped exactly when
   * dogstatsd is enabled and its status check fails.
   */
  lemma RunOrder(env: RunEnv)
    requires !Fatal(env)
    ensures RunSteps(env)[0] == Start(Forwarder)
    ensures Filter(RunSteps(env), Registrations) == RegistrationOrder(DogstatsdEnabled(env))
    ensures Filter(RunSteps(env), Shutdown) == ShutdownOrder(DogstatsdEnabled(env), env.dsdFails)
    ensures StartsBeforeShutdown(RunSteps(env))
    ensures Stop(Reporter) in RunSteps(env) <==> DogstatsdEnabled(env) && env.dsdFails
  {
    var dsd, fails := DogstatsdEnabled(env), env.dsdFails;
    var startup := [Start(Forwarder)] + RegistrationOrder(dsd) + Launches(dsd);
    var shutdown := ShutdownSteps(dsd, fails);
    assert RunSteps(env) == startup + shutdown;
    StartupFilters(dsd);
    FilterNone(startup, Shutdown);
    ShutdownFilters(dsd, fails);
    FilterAppend(startup, shutdown, Registrations);
    FilterAppend(startup, shutdown, Shutdown);
    var steps := startup + shutdown;
    forall i, j | 0 <= i < j < |steps| && InView(steps[i], Shutdown) ensures !steps[j].Start? {
      assert steps[j] == shutdown[j - |startup|];
    }
    assert steps[0] == startup[0];
    assert Stop(Reporter) in steps <==> Stop(Reporter) in startup || Stop(Reporter) in shutdown;
  }

  /** Start-up registers the components in order and joins or stops nothing. */
  lemma StartupFilters(dsd: bool)
    ensures var startup := [Start(Forwarder)] + RegistrationOrder(dsd) + Launches(dsd);
      Filter(startup, Registrations) == RegistrationOrder(dsd) &&
      (forall k :: 0 <= k < |startup| ==> !InView(startup[k], Shutdown)) &&
      Stop(Reporter) !in startup
  {
    var regs, launches := RegistrationOrder(dsd), Launches(dsd);
    FilterNone([Start(Forwarder)], Registrations);
    FilterAll(regs, Registrations);
    FilterNone(launches, Registrations);
    FilterAppend([Start(Forwarder)], regs, Registrations);
    FilterAppend([Start(Forwarder)] + regs, launches, Registrations);
    var startup := [Start(Forwarder)] + regs + launches;
    forall k | 0 <= k < |startup| ensures !InView(startup[k], Shutdown) {
      if k >= 1 + |regs| {
        assert startup[k] == launches[k - 1 - |regs|];
      } else if k >= 1 {
        assert startup[k] == regs[k - 1];
      }
    }
  }

  /** Shutdown starts and registers nothing, and its joins and stops come in order. */
  lemma ShutdownFilters(dsd: bool, dsdFails: bool)
    ensures var shutdown := ShutdownSteps(dsd, dsdFails);
      Filter(shutdown, Shutdown) == ShutdownOrder(dsd, dsdFails) &&
      Filter(shutdown, Registrations) == [] &&
      (forall k :: 0 <= k < |shutdown| ==> !shutdown[k].Start?) &&
      (Stop(Reporter) in shutdown <==> dsd && dsdFails)
  {
    ShutdownOrderFilter(dsd, dsdFails);
    ShutdownStartsNothing(dsd, dsdFails);
  }

  lemma ShutdownOrderFilter(dsd: bool, dsdFails: bool)
    ensures Filter(ShutdownSteps(dsd, dsdFails), Shutdown) == ShutdownOrder(dsd, dsdFails)
    ensures Filter(ShutdownSteps(dsd, dsdFails), Registrations) == []
  {
    var head := DogstatsdShutdown(dsd, dsdFails);
    var tail := [Join(Runner), Join(Api), Stop(SignalHandler), Join(SignalHandler), Exit(0)];
    DogstatsdShutdownFilters(dsd, dsdFails);
    FinalShutdownFilters();
    FilterAppend(head, tail, Shutdown);
    FilterAppend(head, tail, Registrations);
  }

  lemma ShutdownStartsNothing(dsd: bool, dsdFails: bool)
    ensures var shutdown := ShutdownSteps(dsd, dsdFails);
      (forall k :: 0 <= k < |shutdown| ==> !shutdown[k].Start?) &&
      (Stop(Reporter) in shutdown <==> dsd && dsdFails)
  {
    var head := DogstatsdShutdown(dsd, dsdFails);
    var tail := [Join(Runner), Join(Api), Stop(SignalHandler), Join(SignalHandler), Exit(0)];
    DogstatsdShutdownFilters(dsd, dsdFails);
    FinalShutdownFilters();
    var shutdown := head + tail;
    forall k | 0 <= k < |shutdown| ensures !shutdown[k].Start? {
      if k >= |head| {
        assert shutdown[k] == tail[k - |head|];
      }
    }
  }

  /** Joining dogstatsd, and stopping the reporter when its status check failed. */
  function DogstatsdShutdown(dsd: bool, dsdFails: bool): seq<Step> {
    if dsd then [Join(DsdRunner)] + (if dsdFails then [LogError(DogstatsdProblem), Stop(Reporter)] else []) else []
  }

  lemma DogstatsdShutdownFilters(dsd: bool, dsdFails: bool)
    ensures var head := DogstatsdShutdown(dsd, dsdFails);
      Filter(head, Shutdown) == (if dsd then [Join(DsdRunner)] + (if dsdFails then [Stop(Reporter)] else []) else []) &&
      Filter(head, Registrations) == [] &&
      (forall k :: 0 <= k < |head| ==> !head[k].Start?) &&
      (Stop(Reporter) in head <==> dsd && dsdFails)
  {
    var head := DogstatsdShutdown(dsd, dsdFails);
    FilterNone(head, Registrations);
    if dsd && dsdFails {
      assert head == [Join(DsdRunner), LogError(DogstatsdProblem), Stop(Reporter)];
      assert Filter([Join(DsdRunner), LogError(DogstatsdProblem), Stop(Reporter)], Shutdown) == [Join(DsdRunner), Stop(Reporter)];
    } else if dsd {
      assert head == [Join(DsdRunner)];
      assert Filter([Join(DsdRunner)], Shutdown) == [Join(DsdRunner)];
    }
  }

  lemma FinalShutdownFilters()
    ensures var tail := [Join(Runner), Join(Api), Stop(SignalHandler), Join(SignalHandler), Exit(0)];
      Filter(tail, Shutdown) == [Join(Runner), Join(Api), Stop(SignalHandler), Join(SignalHandler)] &&
      Filter(tail, Registrations) == [] &&
      (forall k :: 0 <= k < |tail| ==> !tail[k].Start?) &&
      Stop(Reporter) !in tail
  {
    var tail := [Join(Runner), Join(Api), Stop(SignalHandler), Join(SignalHandler), Exit(0)];
    FilterNone(tail, Registrations);
  }
}
