/**
 * The agent's collection loop (`AgentRunner.collection` and `AgentRunner.stop`).
 *
 * Each cycle reads the monotonic clock, submits host metadata when it has
 * never been submitted or the metadata interval has elapsed, runs the checks,
 * serializes and pushes, and sleeps. An exception in the guarded part of the
 * cycle (everything before the sleep) is logged and abandons the rest of that
 * part, never the loop. The sleep itself is unguarded; the interval is a
 * non-negative number here, so it always returns. `stop()` sets an event that
 * the loop tests before each cycle.
 *
 * The world is an input: one `CycleInput` per cycle gives the clock reading,
 * which collaborator calls raise, and whether `stop()` was called from another
 * thread while the cycle ran. A run is observed over a finite list of such
 * inputs; what the cycle does is returned as a sequence of actions.
 */
module AgentCollection {
  import opened Wrappers

  /** What happens during one cycle that the model cannot compute. */
  datatype CycleInput = CycleInput(
    clock: int,             // time.monotonic(), in ticks
    metadataFails: bool,    // get_hostname, get_metadata or submit_metadata raises
    checksFail: bool,       // collector.run_checks raises
    pushFails: bool,        // serializer.serialize_and_push raises
    stopRequested: bool)    // stop() is called while the cycle runs

  /** A call the cycle makes, with whether it returned normally. */
  datatype Action =
    | Metadata(clock: int, startEvent: bool, ok: bool)   // metadata built and submitted at `clock`
    | RunChecks(ok: bool)
    | Push(ok: bool)
    | LogError                                           // log.exception for the abandoned cycle
    | Sleep(interval: nat)                               // time.sleep(min_collection_interval)

  /** Whether metadata is due: never submitted, or at least the interval since the last submission. */
  predicate Due(metaTs: Option<int>, now: int, interval: int) {
    metaTs.None? || now - metaTs.value >= interval
  }

  /**
   * The calls of one cycle, from the last submission time on entry. Metadata
   * is attempted exactly when it is due, as the cycle's first call, and
   * carries the start event exactly when metadata was never submitted.
   */
  function CycleActions(metaTs: Option<int>, c: CycleInput, metadataInterval: int, collectionInterval: nat): (acts: seq<Action>)
    ensures |acts| >= 2
    ensures acts[0].Metadata? <==> Due(metaTs, c.clock, metadataInterval)
    ensures forall k :: 0 < k < |acts| ==> !acts[k].Metadata?
    ensures acts[0].Metadata? ==> acts[0] == Metadata(c.clock, metaTs.None?, !c.metadataFails)
  {
    var due := Due(metaTs, c.clock, metadataInterval);
    var metadata := if due then [Metadata(c.clock, metaTs.None?, !c.metadataFails)] else [];
    var work :=
      if due && c.metadataFails then []
      else if c.checksFail then [RunChecks(false)]
      else [RunChecks(true), Push(!c.pushFails)];
    var raised := (due && c.metadataFails) || c.checksFail || c.pushFails;
    metadata + work + (if raised then [LogError] else []) + [Sleep(collectionInterval)]
  }

  /**
   * `_meta_ts` after one cycle. It moves only to the clock reading of a due
   * submission that returned; a submission that raised leaves it as it was,
   * and once set it stays set.
   */
  function NextMetaTs(metaTs: Option<int>, c: CycleInput, metadataInterval: int): (r: Option<int>)
    ensures r == metaTs || (Due(metaTs, c.clock, metadataInterval) && !c.metadataFails && r == Some(c.clock))
    ensures Due(metaTs, c.clock, metadataInterval) && !c.metadataFails ==> r == Some(c.clock)
    ensures Due(metaTs, c.clock, metadataInterval) && c.metadataFails ==> r == metaTs
    ensures metaTs.Some? ==> r.Some?
  {
    if Due(metaTs, c.clock, metadataInterval) && !c.metadataFails then Some(c.clock) else metaTs
  }

  /** The calls, final state and number of cycles of a collection run. */
  datatype RunOutcome = RunOutcome(actions: seq<Action>, metaTs: Option<int>, stopped: bool, cycles: nat)

  /** `collection()` over the given cycle inputs, from `_meta_ts` and the event's state on entry. */
  function CollectionSpec(metaTs: Option<int>, stopped: bool, env: seq<CycleInput>,
                          metadataInterval: int, collectionInterval: nat): RunOutcome
    decreases |env|
  {
    if stopped || env == [] then RunOutcome([], metaTs, stopped, 0)
    else
      var rest := CollectionSpec(NextMetaTs(metaTs, env[0], metadataInterval), env[0].stopRequested, env[1..],
                                 metadataInterval, collectionInterval);
      RunOutcome(CycleActions(metaTs, env[0], metadataInterval, collectionInterval) + rest.actions,
                 rest.metaTs, rest.stopped, rest.cycles + 1)
  }

  class AgentRunner {
    /** `_meta_ts`: when metadata was last submitted successfully. */
    var metaTs: Option<int>
    /** Whether `_event` is set. */
    var stopped: bool
    /** The configuration's host_metadata_interval and min_collection_interval (a valid `time.sleep` argument). */
    const metadataInterval: int
    const collectionInterval: nat

    constructor(metadataInterval: int, collectionInterval: nat)
      ensures metaTs == None && !stopped
      ensures this.metadataInterval == metadataInterval && this.collectionInterval == collectionInterval
    {
      this.metadataInterval := metadataInterval;
      this.collectionInterval := collectionInterval;
      metaTs := None;
      stopped := false;
    }

    /** `stop()`: set the event; the loop sees it before its next cycle. */
    method Stop()
      modifies this
      ensures stopped && metaTs == old(metaTs)
    {
      stopped := true;
    }

    /** The body of the `while` loop: one cycle. */
    method RunCycle(c: CycleInput) returns (actions: seq<Action>)
      modifies this
      ensures actions == CycleActions(old(metaTs), c, metadataInterval, collectionInterval)
      ensures metaTs == NextMetaTs(old(metaTs), c, metadataInterval)
      ensures stopped == old(stopped)
    {
      actions := [];
      var raised := false;
      if metaTs.None? || c.clock - metaTs.value >= metadataInterval {
        actions := actions + [Metadata(c.clock, metaTs.None?, !c.metadataFails)];
        if c.metadataFails {
          raised := true;
        } else {
          metaTs := Some(c.clock);
        }
      }
      if !raised {
        actions := actions + [RunChecks(!c.checksFail)];
        if c.checksFail {
          raised := true;
        } else {
          actions := actions + [Push(!c.pushFails)];
          raised := c.pushFails;
        }
      }
      if raised {
        actions := actions + [LogError];
      }
      actions := actions + [Sleep(collectionInterval)];
    }

    /** `collection()`: cycles until the event is set (here: or the inputs run out). */
    method Collection(env: seq<CycleInput>) returns (actions: seq<Action>, cycles: nat)
      modifies this
      ensures var spec := CollectionSpec(old(metaTs), old(stopped), env, metadataInterval, collectionInterval);
        actions == spec.actions && cycles == spec.cycles && metaTs == spec.metaTs && stopped == spec.stopped
    {
      actions := [];
      cycles := 0;
      ghost var spec := CollectionSpec(metaTs, stopped, env, metadataInterval, collectionInterval);
      ghost var remaining := spec;
      var i := 0;
      while !stopped && i < |env|
        invariant 0 <= i <= |env| && cycles == i
        invariant remaining == CollectionSpec(metaTs, stopped, env[i..], metadataInterval, collectionInterval)
        invariant spec == Continue(actions, cycles, remaining)
        decreases |env| - i
      {
        CollectionStep(metaTs, env, i, metadataInterval, collectionInterval);
        var a := RunCycle(env[i]);
        if env[i].stopRequested {
          Stop();
        }
        ghost var next := CollectionSpec(metaTs, stopped, env[i + 1..], metadataInterval, collectionInterval);
        ContinueStep(actions, cycles, a, next);
        actions := actions + a;
        cycles := cycles + 1;
        i := i + 1;
        remaining := next;
      }
      assert actions + [] == actions;
    }
  }

  /** One more cycle's calls in front of the rest of a run. */
  function Prepend(a: seq<Action>, rest: RunOutcome): RunOutcome {
    RunOutcome(a + rest.actions, rest.metaTs, rest.stopped, rest.cycles + 1)
  }

  /** The calls already made and the cycles already run, followed by the rest of a run. */
  function Continue(done: seq<Action>, cycles: nat, rest: RunOutcome): RunOutcome {
    RunOutcome(done + rest.actions, rest.metaTs, rest.stopped, cycles + rest.cycles)
  }

  lemma ContinueStep(done: seq<Action>, cycles: nat, a: seq<Action>, rest: RunOutcome)
    ensures Continue(done, cycles, Prepend(a, rest)) == Continue(done + a, cycles + 1, rest)
  {
    assert done + (a + rest.actions) == done + a + rest.actions;
  }

  /** One cycle of the collection specification, from a clear event. */
  lemma CollectionStep(metaTs: Option<int>, env: seq<CycleInput>, i: nat, metadataInterval: int, collectionInterval: nat)
    requires i < |env|
    ensures CollectionSpec(metaTs, false, env[i..], metadataInterval, collectionInterval) ==
      Prepend(CycleActions(metaTs, env[i], metadataInterval, collectionInterval),
              CollectionSpec(NextMetaTs(metaTs, env[i], metadataInterval), env[i].stopRequested, env[i + 1..],
                             metadataInterval, collectionInterval))
  {
    assert env[i..][0] == env[i] && env[i..][1..] == env[i + 1..];
  }

  // ---------------------------------------------------------------------------
  // One cycle

  /**
   * An exception abandons the rest of its cycle: a failed metadata submission
   * skips the checks and the push, failed checks skip the push, and any
   * failure is logged once. Every cycle ends in the sleep, and sleeps once.
   */
  lemma CycleFaultIsolation(metaTs: Option<int>, c: CycleInput, metadataInterval: int, collectionInterval: nat)
    ensures var acts := CycleActions(metaTs, c, metadataInterval, collectionInterval);
      var metadataRaised := Due(metaTs, c.clock, metadataInterval) && c.metadataFails;
      && ((exists a :: a in acts && a.RunChecks?) <==> !metadataRaised)
      && ((exists a :: a in acts && a.Push?) <==> !metadataRaised && !c.checksFail)
      && (LogError in acts <==> metadataRaised || (!metadataRaised && (c.checksFail || c.pushFails)))
      && acts[|acts| - 1] == Sleep(collectionInterval)
      && (forall k :: 0 <= k < |acts| - 1 ==> !acts[k].Sleep?)
  {
    CycleSkips(metaTs, c, metadataInterval, collectionInterval);
    CycleEndsInSleep(metaTs, c, metadataInterval, collectionInterval);
  }

  /** Which calls a cycle makes after a raising one, and when it logs. */
  lemma CycleSkips(metaTs: Option<int>, c: CycleInput, metadataInterval: int, collectionInterval: nat)
    ensures var acts := CycleActions(metaTs, c, metadataInterval, collectionInterval);
      var metadataRaised := Due(metaTs, c.clock, metadataInterval) && c.metadataFails;
      && ((exists a :: a in acts && a.RunChecks?) <==> !metadataRaised)
      && ((exists a :: a in acts && a.Push?) <==> !metadataRaised && !c.checksFail)
      && (LogError in acts <==> metadataRaised || (!metadataRaised && (c.checksFail || c.pushFails)))
  {
    var acts := CycleActions(metaTs, c, metadataInterval, collectionInterval);
    var due := Due(metaTs, c.clock, metadataInterval);
    var metadata := if due then [Metadata(c.clock, metaTs.None?, !c.metadataFails)] else [];
    if due && c.metadataFails {
      assert acts == metadata + [LogError, Sleep(collectionInterval)];
    } else if c.checksFail {
      assert acts == metadata + [RunChecks(false), LogError, Sleep(collectionInterval)];
      assert acts[|metadata|] == RunChecks(false);
    } else {
      var tail := if c.pushFails then [LogError, Sleep(collectionInterval)] else [Sleep(collectionInterval)];
      assert acts == metadata + [RunChecks(true), Push(!c.pushFails)] + tail;
      assert acts[|metadata|] == RunChecks(true);
      assert acts[|metadata| + 1] == Push(!c.pushFails);
    }
  }

  /** A cycle sleeps once, as its last call. */
  lemma CycleEndsInSleep(metaTs: Option<int>, c: CycleInput, metadataInterval: int, collectionInterval: nat)
    ensures var acts := CycleActions(metaTs, c, metadataInterval, collectionInterval);
      && acts[|acts| - 1] == Sleep(collectionInterval)
      && (forall k :: 0 <= k < |acts| - 1 ==> !acts[k].Sleep?)
  {
    var acts := CycleActions(metaTs, c, metadataInterval, collectionInterval);
    var due := Due(metaTs, c.clock, metadataInterval);
    var metadata := if due then [Metadata(c.clock, metaTs.None?, !c.metadataFails)] else [];
    var work :=
      if due && c.metadataFails then []
      else if c.checksFail then [RunChecks(false)]
      else [RunChecks(true), Push(!c.pushFails)];
    var raised := (due && c.metadataFails) || c.checksFail || c.pushFails;
    var body := metadata + work + (if raised then [LogError] else []);
    assert acts == body + [Sleep(collectionInterval)];
    forall k | 0 <= k < |acts| - 1 ensures !acts[k].Sleep? {
      assert acts[k] == body[k];
    }
  }

  /** A failed submission is retried on the next cycle, as long as the clock does not run backwards. */
  lemma RetryAfterFailure(metaTs: Option<int>, c: CycleInput, next: CycleInput, metadataInterval: int)
    requires Due(metaTs, c.clock, metadataInterval) && c.metadataFails
    requires next.clock >= c.clock
    ensures Due(NextMetaTs(metaTs, c, metadataInterval), next.clock, metadataInterval)
  {
  }

  // ---------------------------------------------------------------------------
  // A run

  function CountSleeps(acts: seq<Action>): nat {
    if acts == [] then 0 else (if acts[0].Sleep? then 1 else 0) + CountSleeps(acts[1..])
  }

  lemma {:induction false} CountSleepsAppend(a: seq<Action>, b: seq<Action>)
    ensures CountSleeps(a + b) == CountSleeps(a) + CountSleeps(b)
    decreases |a|
  {
    if a != [] {
      assert (a + b)[1..] == a[1..] + b;
      CountSleepsAppend(a[1..], b);
    } else {
      assert a + b == b;
    }
  }

  lemma {:induction false} CountSleepsOfCycle(metaTs: Option<int>, c: CycleInput, metadataInterval: int, collectionInterval: nat)
    ensures CountSleeps(CycleActions(metaTs, c, metadataInterval, collectionInterval)) == 1
  {
    var acts := CycleActions(metaTs, c, metadataInterval, collectionInterval);
    var body := acts[..|acts| - 1];
    assert acts == body + [Sleep(collectionInterval)];
    CycleFaultIsolation(metaTs, c, metadataInterval, collectionInterval);
    NoSleeps(body);
    CountSleepsAppend(body, [Sleep(collectionInterval)]);
  }

  lemma {:induction false} NoSleeps(acts: seq<Action>)
    requires forall k :: 0 <= k < |acts| ==> !acts[k].Sleep?
    ensures CountSleeps(acts) == 0
  {
    if acts != [] {
      NoSleeps(acts[1..]);
    }
  }

  /**
   * Exceptions never end the loop: until stop() is called, every input is a
   * cycle, and each cycle sleeps exactly once.
   */
  lemma {:induction false} CollectionCycles(metaTs: Option<int>, stopped: bool, env: seq<CycleInput>,
                                            metadataInterval: int, collectionInterval: nat)
    ensures var run := CollectionSpec(metaTs, stopped, env, metadataInterval, collectionInterval);
      && run.cycles <= |env|
      && CountSleeps(run.actions) == run.cycles
      && (!stopped && (forall k :: 0 <= k < |env| ==> !env[k].stopRequested) ==> run.cycles == |env| && !run.stopped)
    decreases |env|
  {
    if !stopped && env != [] {
      var next := NextMetaTs(metaTs, env[0], metadataInterval);
      CollectionCycles(next, env[0].stopRequested, env[1..], metadataInterval, collectionInterval);
      var rest := CollectionSpec(next, env[0].stopRequested, env[1..], metadataInterval, collectionInterval);
      CountSleepsOfCycle(metaTs, env[0], metadataInterval, collectionInterval);
      CountSleepsAppend(CycleActions(metaTs, env[0], metadataInterval, collectionInterval), rest.actions);
      if forall k :: 0 <= k < |env| ==> !env[k].stopRequested {
        assert forall k :: 0 <= k < |env[1..]| ==> !env[1..][k].stopRequested by {
          forall k | 0 <= k < |env[1..]| ensures !env[1..][k].stopRequested {
            assert env[1..][k] == env[k + 1];
          }
        }
      }
    }
  }

  /**
   * The event is tested only before a cycle: a set event runs no cycle, and a
   * stop() during cycle k lets that cycle finish and no other start.
   */
  lemma {:induction false} StopEndsCollection(metaTs: Option<int>, stopped: bool, env: seq<CycleInput>, k: nat,
                                              metadataInterval: int, collectionInterval: nat)
    ensures stopped ==> CollectionSpec(metaTs, stopped, env, metadataInterval, collectionInterval) == RunOutcome([], metaTs, true, 0)
    ensures k < |env| && env[k].stopRequested ==>
      var run := CollectionSpec(metaTs, stopped, env, metadataInterval, collectionInterval);
      run.cycles <= k + 1 && run.stopped
    decreases |env|
  {
    if !stopped && env != [] && 0 < k < |env| {
      StopEndsCollection(NextMetaTs(metaTs, env[0], metadataInterval), env[0].stopRequested, env[1..], k - 1,
                         metadataInterval, collectionInterval);
      assert env[1..][k - 1] == env[k];
    }
  }

  /** How many submissions that returned carried the start event. */
  function StartSubmissions(acts: seq<Action>): nat {
    if acts == [] then 0
    else (if acts[0].Metadata? && acts[0].startEvent && acts[0].ok then 1 else 0) + StartSubmissions(acts[1..])
  }

  lemma {:induction false} StartSubmissionsAppend(a: seq<Action>, b: seq<Action>)
    ensures StartSubmissions(a + b) == StartSubmissions(a) + StartSubmissions(b)
    decreases |a|
  {
    if a != [] {
      assert (a + b)[1..] == a[1..] + b;
      StartSubmissionsAppend(a[1..], b);
    } else {
      assert a + b == b;
    }
  }

  lemma StartSubmissionsOfCycle(metaTs: Option<int>, c: CycleInput, metadataInterval: int, collectionInterval: nat)
    ensures StartSubmissions(CycleActions(metaTs, c, metadataInterval, collectionInterval)) ==
      if metaTs.None? && !c.metadataFails then 1 else 0
  {
    var acts := CycleActions(metaTs, c, metadataInterval, collectionInterval);
    NoStartAfter(acts[1..]);
    assert acts == [acts[0]] + acts[1..];
  }

  lemma {:induction false} NoStartAfter(acts: seq<Action>)
    requires forall k :: 0 <= k < |acts| ==> !acts[k].Metadata?
    ensures StartSubmissions(acts) == 0
  {
    if acts != [] {
      NoStartAfter(acts[1..]);
    }
  }

  /**
   * The start event is sent with a submission that returns at most once in a
   * run, and never once `_meta_ts` has been set.
   */
  lemma {:induction false} StartEventOnce(metaTs: Option<int>, stopped: bool, env: seq<CycleInput>,
                                          metadataInterval: int, collectionInterval: nat)
    ensures StartSubmissions(CollectionSpec(metaTs, stopped, env, metadataInterval, collectionInterval).actions) <=
      if metaTs.None? then 1 else 0
    decreases |env|
  {
    if !stopped && env != [] {
      var next := NextMetaTs(metaTs, env[0], metadataInterval);
      StartEventOnce(next, env[0].stopRequested, env[1..], metadataInterval, collectionInterval);
      var rest := CollectionSpec(next, env[0].stopRequested, env[1..], metadataInterval, collectionInterval);
      StartSubmissionsOfCycle(metaTs, env[0], metadataInterval, collectionInterval);
      StartSubmissionsAppend(CycleActions(metaTs, env[0], metadataInterval, collectionInterval), rest.actions);
    }
  }

  /** The clock readings of the metadata submissions that returned, in order. */
  function SubmitTimes(acts: seq<Action>): seq<int> {
    if acts == [] then []
    else (if acts[0].Metadata? && acts[0].ok then [acts[0].clock] else []) + SubmitTimes(acts[1..])
  }

  lemma {:induction false} SubmitTimesAppend(a: seq<Action>, b: seq<Action>)
    ensures SubmitTimes(a + b) == SubmitTimes(a) + SubmitTimes(b)
    decreases |a|
  {
    if a != [] {
      assert (a + b)[1..] == a[1..] + b;
      SubmitTimesAppend(a[1..], b);
    } else {
      assert a + b == b;
    }
  }

  lemma {:induction false} NoSubmitTimes(acts: seq<Action>)
    requires forall k :: 0 <= k < |acts| ==> !acts[k].Metadata?
    ensures SubmitTimes(acts) == []
  {
    if acts != [] {
      NoSubmitTimes(acts[1..]);
    }
  }

  lemma SubmitTimesOfCycle(metaTs: Option<int>, c: CycleInput, metadataInterval: int, collectionInterval: nat)
    ensures SubmitTimes(CycleActions(metaTs, c, metadataInterval, collectionInterval)) ==
      if Due(metaTs, c.clock, metadataInterval) && !c.metadataFails then [c.clock] else []
  {
    var acts := CycleActions(metaTs, c, metadataInterval, collectionInterval);
    NoSubmitTimes(acts[1..]);
    assert acts == [acts[0]] + acts[1..];
  }

  /** Each submission time is at least `interval` after the one before it (or after `last`, for the first). */
  ghost predicate Spaced(last: Option<int>, times: seq<int>, interval: int)
    decreases |times|
  {
    times == [] ||
    ((last.None? || times[0] - last.value >= interval) && Spaced(Some(times[0]), times[1..], interval))
  }

  /**
   * Metadata cadence: successful submissions in a run are at least
   * host_metadata_interval apart, the first one counted from `_meta_ts` on entry.
   */
  lemma {:induction false} SubmissionsSpaced(metaTs: Option<int>, stopped: bool, env: seq<CycleInput>,
                                             metadataInterval: int, collectionInterval: nat)
    ensures Spaced(metaTs, SubmitTimes(CollectionSpec(metaTs, stopped, env, metadataInterval, collectionInterval).actions),
                   metadataInterval)
    decreases |env|
  {
    if !stopped && env != [] {
      var next := NextMetaTs(metaTs, env[0], metadataInterval);
      SubmissionsSpaced(next, env[0].stopRequested, env[1..], metadataInterval, collectionInterval);
      var rest := CollectionSpec(next, env[0].stopRequested, env[1..], metadataInterval, collectionInterval);
      SubmitTimesOfCycle(metaTs, env[0], metadataInterval, collectionInterval);
      SubmitTimesAppend(CycleActions(metaTs, env[0], metadataInterval, collectionInterval), rest.actions);
      var times := SubmitTimes(CollectionSpec(metaTs, stopped, env, metadataInterval, collectionInterval).actions);
      if Due(metaTs, env[0].clock, metadataInterval) && !env[0].metadataFails {
        assert times == [env[0].clock] + SubmitTimes(rest.actions);
        assert times[0] == env[0].clock && times[1..] == SubmitTimes(rest.actions);
        assert next == Some(env[0].clock);
      } else {
        assert times == SubmitTimes(rest.actions);
        assert next == metaTs;
      }
    }
  }
}
