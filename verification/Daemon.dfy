/** The daemon (internal/daemon/daemon.go): the check cycle, its cooldown memory and what it publishes. */
module Daemon {
  import opened Lists
  import opened Sysctl
  import opened Config
  import opened Collector
  import Convert
  import opened Engine
  import opened Host
  import opened Executor
  import opened RunLog

  /** One delivery of a ticker: the answers the platform will give and the schedule of the collectors.
      A load poll first reads the load average by itself. */
  datatype Tick =
    | PeriodicTick(inputs: Inputs, order: seq<Task>)
    | LoadTick(loadavg: Result<seq<Byte>>, inputs: Inputs, order: seq<Task>)

  /** The checks a tick starts: the trigger and the snapshot each will publish. */
  function ChecksOf(cfg: Config): Tick -> seq<(string, Snapshot)> {
    (t: Tick) =>
      match t
      case PeriodicTick(inputs, _) => [("periodic", SnapshotOf(inputs))]
      case LoadTick(loadavg, inputs, _) =>
        (match GetLoadAverage(loadavg)
         case Err(_) => []
         case Ok(load) => if load.load1 >= cfg.loadThreshold then [("load-triggered", SnapshotOf(inputs))] else [])
  }

  ghost predicate Remembers(lastTrigger: map<string, int>, log: seq<Entry>) {
    lastTrigger == LastTriggers(log)
  }

  function Publication(): Check -> (string, Snapshot) {
    (c: Check) => (c.trigger, c.snapshot)
  }

  class Daemon {
    const config: Config
    const engine: Engine
    const metricsEnabled: bool
    const host: Host

    var checkHeld: bool
    var lastTrigger: map<string, int>
    var latestSnapshot: Option<Snapshot>
    var latestDecisions: seq<Decision>
    var metrics: Counters

    ghost var log: seq<Entry>
    ghost var checks: seq<Check>

    /** Holds at every point of a check: the fields are what the log says, and the log and the host's trace
        are those of a run. */
    ghost predicate Consistent()
      reads this, host
    {
      && engine.policies == config.policies && engine.Compiled()
      && IsRun(config, host.world, log, host.clock) && Remembers(lastTrigger, log)
      && (metricsEnabled ==> Counted(metrics, log))
      && Accounted(host.trace, log)
    }

    /** Holds between checks. */
    ghost predicate Valid()
      reads this, host
    {
      && Consistent() && Processed(config, checks, log)
      && (if checks == [] then latestSnapshot == None && latestDecisions == [] else
            latestSnapshot == Some(Last(checks).snapshot) && latestDecisions == Last(checks).decisions)
    }

    constructor (config: Config, metricsEnabled: bool, world: World, clock: int)
      ensures Valid() && fresh(host) && !checkHeld && log == [] && checks == []
      ensures this.config == config && host.world == world && host.trace == []
    {
      this.config, this.metricsEnabled := config, metricsEnabled;
      var e := NewEngine(config.policies);
      engine := e;
      host := new Host(world, clock);
      checkHeld, lastTrigger, latestSnapshot, latestDecisions := false, map[], None, [];
      metrics := Counters(map[], map[], map[]);
      log, checks := [], [];
    }

    /** The clock is read only for a policy that has a recorded trigger. */
    method IsOnCooldown(name: string) returns (cooling: bool)
      modifies host
      ensures host.trace == old(host.trace) && host.clock >= old(host.clock)
      ensures cooling == Cooling(config, lastTrigger, name, host.clock)
    {
      if name !in lastTrigger {
        return false;
      }
      var now := host.Now();
      return now - lastTrigger[name] < config.cooldown;
    }

    method RecordTrigger(name: string)
      modifies this`lastTrigger, host
      ensures host.trace == old(host.trace) && host.clock >= old(host.clock)
      ensures lastTrigger == old(lastTrigger)[name := host.clock]
    {
      var now := host.Now();
      lastTrigger := lastTrigger[name := now];
    }

    method RecordActions(name: string, actions: seq<string>)
      modifies this`metrics
      ensures metrics == old(metrics).(actions := BumpActions(old(metrics).actions, name, actions))
    {
      for i := 0 to |actions|
        invariant metrics == old(metrics).(actions := BumpActions(old(metrics).actions, name, actions[..i]))
      {
        assert Init(actions[..i + 1]) == actions[..i];
        metrics := metrics.(actions := Bump(metrics.actions, (name, actions[i])));
      }
      assert actions[..|actions|] == actions;
    }

    /** The diagnostic capture before the actions. Its failure is only reported. */
    method CaptureDiagnostics(decision: Decision) returns (ghost captured: seq<Event>)
      modifies host
      ensures CaptureOf(config, decision, captured)
      ensures host.trace == old(host.trace) + captured
      ensures Recorded(host.world, captured, old(host.ticks), old(host.clock), host.ticks, host.clock)
    {
      captured := [];
      if config.diagnosticsPath != "" && |decision.pids| > 0 {
        var _, step := RunCommand(host, "capture", decision.pids);
        captured := step;
      }
    }

    /** The body of the decision loop. `entry` tells what happened; the metrics are counted along the way. */
    method Decide(decision: Decision, snapshot: Snapshot) returns (ghost entry: Entry)
      modifies this`lastTrigger, this`metrics, host
      ensures entry.decision == decision && Legal(config, host.world, old(lastTrigger), entry)
      ensures old(host.clock) <= entry.at <= entry.until <= host.clock
      ensures lastTrigger == if entry.outcome.Executed?
                             then old(lastTrigger)[decision.policyName := entry.until] else old(lastTrigger)
      ensures metricsEnabled ==> metrics == Count(old(metrics), entry)
      ensures host.trace == old(host.trace) + entry.AllEvents()
    {
      hide Fired, Happened;
      var name := decision.policyName;
      if metricsEnabled {
        metrics := metrics.(evaluations := Bump(metrics.evaluations, name));
      }
      if !decision.triggered {
        entry := Entry(decision, host.clock, host.clock, Untriggered, [], []);
        NothingHappened(host.world, entry);
        return;
      }
      var cooling := IsOnCooldown(name);
      if cooling {
        entry := Entry(decision, host.clock, host.clock, OnCooldown, [], []);
        NothingHappened(host.world, entry);
        return;
      }
      if metricsEnabled {
        metrics := metrics.(triggers := Bump(metrics.triggers, name));
      }
      ghost var t, at := host.ticks, host.clock;
      ghost var captured := CaptureDiagnostics(decision);
      if config.dryRun {
        entry := Entry(decision, at, host.clock, DryRunSkipped, captured, []);
        SkippedEntry(config, host.world, t, host.ticks, entry);
        return;
      }
      entry := Act(decision, snapshot, t, at, captured);
    }

    /** Outside dry-run: runs the actions, and when none failed counts them and remembers the trigger. */
    method Act(decision: Decision, snapshot: Snapshot, ghost t: nat, ghost at: int, ghost captured: seq<Event>)
      returns (ghost entry: Entry)
      requires !config.dryRun && CaptureOf(config, decision, captured)
      requires Recorded(host.world, captured, t, at, host.ticks, host.clock)
      modifies this`lastTrigger, this`metrics, host
      ensures entry.decision == decision && entry.at == at && entry.captured == captured
      ensures entry.Acts() && Fired(config, entry) && Happened(host.world, entry)
      ensures old(host.clock) <= entry.until <= host.clock && at <= entry.until
      ensures lastTrigger == if entry.outcome.Executed?
                             then old(lastTrigger)[decision.policyName := entry.until] else old(lastTrigger)
      ensures metrics == if metricsEnabled && entry.outcome.Executed?
                         then Acted(old(metrics), decision) else old(metrics)
      ensures host.trace == old(host.trace) + entry.events
    {
      hide RanAll, Recorded, Happened;
      ghost var t1, c1 := host.ticks, host.clock;
      var errs;
      ghost var es;
      errs, es := Execute(host, config, decision, snapshot);
      ghost var t2, c2 := host.ticks, host.clock;
      ExecutionSpan(host.world, captured, es, t, at, t1, c1, t2, c2);
      if errs != [] {
        entry := Entry(decision, at, host.clock, Failed(errs), captured, es);
        ExecutionHappened(host.world, t, t1, c1, t2, c2, entry);
        return;
      }
      if metricsEnabled {
        RecordActions(decision.policyName, decision.actions);
      }
      RecordTrigger(decision.policyName);
      entry := Entry(decision, at, host.clock, Executed, captured, es);
      ExecutionHappened(host.world, t, t1, c1, t2, c2, entry);
    }

    /** One decision of a check, logged. */
    method ProcessDecision(decision: Decision, snapshot: Snapshot)
      requires Consistent()
      modifies this`lastTrigger, this`metrics, this`log, host
      ensures Consistent() && |log| > 0 && log == old(log) + [Last(log)] && Last(log).decision == decision
      ensures host.trace == old(host.trace) + Last(log).AllEvents()
      ensures old(host.clock) <= host.clock
    {
      hide IsRun, LastTriggers, Accounted, Legal, Counted, Count;
      ghost var before, c, counters, trace, memory := log, host.clock, metrics, host.trace, lastTrigger;
      ghost var entry := Decide(decision, snapshot);
      RunAppend(config, host.world, before, c, entry, host.clock);
      AccountedAppend(config, host.world, memory, trace, before, entry);
      if metricsEnabled {
        CountedAppend(counters, before, entry);
      }
      log := before + [entry];
      assert Last(log) == entry;
    }

    method ProcessDecisions(decisions: seq<Decision>, snapshot: Snapshot)
      requires Consistent()
      modifies this`lastTrigger, this`metrics, this`log, host
      ensures Consistent()
      ensures old(log) <= log && Map(DecisionOf(), log) == Map(DecisionOf(), old(log)) + decisions
      ensures old(host.trace) <= host.trace && old(host.clock) <= host.clock
    {
      hide IsRun, Remembers, Accounted, Counted;
      ghost var done := [];
      for i := 0 to |decisions|
        invariant Consistent() && done == decisions[..i]
        invariant old(log) <= log && Map(DecisionOf(), log) == Map(DecisionOf(), old(log)) + done
        invariant old(host.trace) <= host.trace && old(host.clock) <= host.clock
      {
        ghost var before := log;
        ProcessDecision(decisions[i], snapshot);
        MapAppend(DecisionOf(), before, Last(log));
        ConcatAssociative(Map(DecisionOf(), old(log)), done, [decisions[i]]);
        done := done + [decisions[i]];
      }
      assert done == decisions;
    }

    /** The write-locked section that makes a check visible to readers. */
    method Publish(trigger: string, snapshot: Snapshot, decisions: seq<Decision>) returns (ghost check: Check)
      requires Consistent()
      modifies this`latestSnapshot, this`latestDecisions, this`checks
      ensures Consistent() && check == Check(trigger, snapshot, decisions)
      ensures latestSnapshot == Some(snapshot) && latestDecisions == decisions && checks == old(checks) + [check]
    {
      latestSnapshot := Some(snapshot);
      latestDecisions := decisions;
      check := Check(trigger, snapshot, decisions);
      checks := checks + [check];
    }

    /** A full evaluation cycle; nothing happens when another check holds the lock. */
    method RunCheck(trigger: string, inputs: Inputs, order: seq<Task>)
      requires Valid() && Schedule(order)
      modifies this, host
      ensures Valid() && checkHeld == old(checkHeld)
      ensures checkHeld ==> unchanged(this) && unchanged(host)
      ensures !checkHeld ==> checks == old(checks) + [Check(trigger, SnapshotOf(inputs), latestDecisions)]
      ensures !checkHeld ==> |log| == |old(log)| + |latestDecisions|
      ensures old(log) <= log && old(host.trace) <= host.trace && old(host.clock) <= host.clock
    {
      hide IsRun, Remembers, Accounted, Counted, SnapshotOf, Processed;
      hide Convert.IsCompilation, PossibleEvaluation, Indexed, Schedule, FlatMap, AllErrors, Map;
      hide GetLoadAverage, GetMemoryStats, ErrorIn, Resolved, GroupByName, IndexByPID;
      if checkHeld {
        return;
      }
      checkHeld := true;
      var start := host.Now();
      RunLater(config, host.world, log, old(host.clock), host.clock);
      var snapshot, errs := Collect(inputs, order);
      var decisions := Evaluate(engine, snapshot);
      ghost var check := Publish(trigger, snapshot, decisions);
      ProcessDecisions(decisions, snapshot);
      CollectedIsIndexed(inputs);
      ProcessedAppend(config, old(checks), old(log), check, log);
      checkHeld := false;
    }

    /** Polls the load average and starts a check when it has reached the threshold. */
    method CheckLoadTrigger(loadavg: Result<seq<Byte>>, inputs: Inputs, order: seq<Task>)
      requires Valid() && Schedule(order) && !checkHeld
      modifies this, host
      ensures Valid() && !checkHeld
      ensures Map(Publication(), checks) ==
        Map(Publication(), old(checks)) + ChecksOf(config)(LoadTick(loadavg, inputs, order))
      ensures if GetLoadAverage(loadavg).Ok? && GetLoadAverage(loadavg).value.load1 >= config.loadThreshold
              then checks == old(checks) + [Check("load-triggered", SnapshotOf(inputs), latestDecisions)]
              else unchanged(this) && unchanged(host)
      ensures old(log) <= log && old(host.trace) <= host.trace && old(host.clock) <= host.clock
    {
      hide IsRun, Remembers, Accounted, Counted, SnapshotOf, Processed, GetLoadAverage;
      match GetLoadAverage(loadavg) {
        case Err(_) =>
        case Ok(load) =>
          if load.load1 >= config.loadThreshold {
            RunCheck("load-triggered", inputs, order);
            MapAppend(Publication(), old(checks), Last(checks));
          }
      }
    }

    /** One delivery of a ticker. */
    method OnTick(tick: Tick)
      requires Valid() && Schedule(tick.order) && !checkHeld
      modifies this, host
      ensures Valid() && !checkHeld
      ensures Map(Publication(), checks) == Map(Publication(), old(checks)) + ChecksOf(config)(tick)
      ensures old(log) <= log && old(host.trace) <= host.trace && old(host.clock) <= host.clock
    {
      hide IsRun, Remembers, Accounted, Counted, SnapshotOf, Processed, GetLoadAverage;
      match tick {
        case PeriodicTick(inputs, order) =>
          RunCheck("periodic", inputs, order);
          MapAppend(Publication(), old(checks), Last(checks));
        case LoadTick(loadavg, inputs, order) =>
          CheckLoadTrigger(loadavg, inputs, order);
      }
    }

    /** The loop over the deliveries of the tickers. */
    method Serve(ticks: seq<Tick>)
      requires Valid() && !checkHeld
      requires forall i :: 0 <= i < |ticks| ==> Schedule(ticks[i].order)
      modifies this, host
      ensures Valid() && !checkHeld
      ensures Map(Publication(), checks) == Map(Publication(), old(checks)) + FlatMap(ChecksOf(config), ticks)
      ensures old(log) <= log && old(host.trace) <= host.trace && old(host.clock) <= host.clock
    {
      hide IsRun, Remembers, Accounted, Counted, SnapshotOf, Processed, GetLoadAverage, FlatMap, ChecksOf, Map;
      NoTicks(ChecksOf(config));
      ghost var done := [];
      for i := 0 to |ticks|
        invariant Valid() && !checkHeld && done == ticks[..i]
        invariant Map(Publication(), checks) == Map(Publication(), old(checks)) + FlatMap(ChecksOf(config), done)
        invariant old(log) <= log && old(host.trace) <= host.trace && old(host.clock) <= host.clock
      {
        FlatMapAppend(ChecksOf(config), done, ticks[i]);
        ConcatAssociative(Map(Publication(), old(checks)), FlatMap(ChecksOf(config), done), ChecksOf(config)(ticks[i]));
        OnTick(ticks[i]);
        done := done + [ticks[i]];
      }
      assert done == ticks;
    }

    /** The daemon from startup to cancellation, on the ticks that are delivered until then:
        it publishes a startup check, then one check per periodic tick and one per load poll at or above the threshold.
        `started` lists the ticks that started a check: the checks after the first are theirs, in order. */
    method Run(inputs: Inputs, order: seq<Task>, ticks: seq<Tick>) returns (ghost started: seq<nat>)
      requires Valid() && Schedule(order) && !checkHeld
      requires forall i :: 0 <= i < |ticks| ==> Schedule(ticks[i].order)
      modifies this, host
      ensures Valid() && !checkHeld
      ensures Map(Publication(), checks) ==
        Map(Publication(), old(checks)) + [("startup", SnapshotOf(inputs))] + FlatMap(ChecksOf(config), ticks)
      ensures |checks| == |old(checks)| + 1 + |started|
      ensures checks[|old(checks)|].trigger == "startup" && checks[|old(checks)|].snapshot == SnapshotOf(inputs)
      ensures forall k :: 0 <= k < |started| ==>
        && started[k] < |ticks| && (k > 0 ==> started[k - 1] < started[k])
        && checks[|old(checks)| + 1 + k].snapshot == SnapshotOf(ticks[started[k]].inputs)
        && checks[|old(checks)| + 1 + k].trigger == if ticks[started[k]].PeriodicTick? then "periodic" else "load-triggered"
      ensures forall i :: 0 <= i < |ticks| ==> (i in started <==>
        || ticks[i].PeriodicTick?
        || (GetLoadAverage(ticks[i].loadavg).Ok?
            && GetLoadAverage(ticks[i].loadavg).value.load1 >= config.loadThreshold))
      ensures old(log) <= log && old(host.trace) <= host.trace && old(host.clock) <= host.clock
    {
      hide IsRun, Remembers, Accounted, Counted, SnapshotOf, Processed, GetLoadAverage, FlatMap, ChecksOf, Map;
      hide Started, PossibleEvaluation, Indexed, Convert.IsCompilation, Schedule;
      RunCheck("startup", inputs, order);
      MapAppend(Publication(), old(checks), Last(checks));
      Serve(ticks);
      started := StartedTicks(config, ticks);
      PublishedInTurn(config, old(checks), checks, SnapshotOf(inputs), ticks, started);
    }

    /** Signals the given PIDs in order: SIGKILL when forced, SIGTERM otherwise. Allowed between checks
        and between the decisions of one: it needs only the invariant that holds there, and changes only the host.
        Every PID is reported once, as terminated when the signal was delivered or the process was already gone. */
    method Terminate(pids: seq<int>, force: bool) returns (terminated: seq<int>, failed: seq<int>, ghost es: seq<Event>)
      requires Consistent()
      modifies host
      ensures Consistent() && (old(Valid()) ==> Valid())
      ensures host.trace == old(host.trace) + es && old(host.clock) <= host.clock
      ensures Requested(pids, if force then Kill else Term, es) && Reported(pids, es, terminated, failed)
      ensures |es| == |pids| && forall k :: 0 <= k < |pids| ==>
        && es[k].Attempt? && es[k].sender == ByRequest && es[k].pid == pids[k]
        && es[k].signal == if force then Kill else Term
      ensures forall pid :: pid in terminated <==>
        exists k :: 0 <= k < |pids| && pids[k] == pid && (es[k].reply == Delivered || es[k].reply == Gone)
      ensures forall pid :: pid in failed <==>
        exists k :: 0 <= k < |pids| && pids[k] == pid && (es[k].reply == NotFound || es[k].reply == Refused)
    {
      hide IsRun, Remembers, Accounted, Counted, Processed, Requested, Reported;
      terminated, failed, es := [], [], [];
      ghost var asked := [];
      NothingRequested(if force then Kill else Term);
      for i := 0 to |pids|
        invariant host.trace == old(host.trace) + es && old(host.clock) <= host.clock && asked == pids[..i]
        invariant Requested(asked, if force then Kill else Term, es) && Reported(asked, es, terminated, failed)
      {
        var err;
        if force {
          err := KillProcess(host, pids[i]);
        } else {
          err := TermProcess(host, pids[i]);
        }
        ghost var e := Last(host.trace);
        ConcatAssociative(old(host.trace), es, [e]);
        OneMoreRequest(asked, if force then Kill else Term, es, terminated, failed, pids[i], e);
        es, asked := es + [e], asked + [pids[i]];
        if err.Some? {
          failed := failed + [pids[i]];
        } else {
          terminated := terminated + [pids[i]];
        }
      }
      assert asked == pids;
      RunLater(config, host.world, log, old(host.clock), host.clock);
      ReportedByAnswer(pids, if force then Kill else Term, es, terminated, failed);
      RequestsNotAccounted(old(host.trace), log, pids, if force then Kill else Term, es);
    }
  }

  /** One attempt per PID, in order. */
  ghost predicate Requested(pids: seq<int>, signal: Signal, es: seq<Event>) {
    |es| == |pids| && forall k :: 0 <= k < |pids| ==> IsAttempt(es[k], ByRequest, pids[k], signal)
  }

  /** The report on these attempts: each PID is on exactly one side, according to the answer, both sides in order. */
  ghost predicate Reported(pids: seq<int>, es: seq<Event>, terminated: seq<int>, failed: seq<int>) {
    && terminated == Map(EventPid(), Filter(Succeeded(), es))
    && failed == Map(EventPid(), Filter(Unsuccessful(), es))
    && Interleaves(terminated, failed, pids)
  }

  function EventPid(): Event -> int {
    (e: Event) => if e.Attempt? then e.pid else 0
  }

  function Succeeded(): Event -> bool {
    (e: Event) => e.Attempt? && (e.reply == Delivered || e.reply == Gone)
  }

  function Unsuccessful(): Event -> bool {
    (e: Event) => e.Attempt? && (e.reply == NotFound || e.reply == Refused)
  }

  // ---------------------------------------------------------------- every reachable daemon

  /** In any state a daemon can reach by its constructor, runs, checks and manual terminations, a signal it sent for a
      policy was not sent in dry-run, belongs to one entry `m` of its log, and goes back to the check `i` this entry
      belongs to: that check had found a process with this PID, the policy's process name and an allowed parent, with
      the policy's threshold and load conditions reached, while the policy is enabled and lists the terminate action. */
  lemma PolicySignalsJustified(d: Daemon, v: Event) returns (m: nat, i: nat)
    requires d.Valid() && v in d.host.trace && v.Attempt? && v.sender.ByPolicy?
    ensures !d.config.dryRun && v.sender.name in d.config.policies
    ensures m < |d.log| && v in d.log[m].events && d.log[m].Name() == v.sender.name
    ensures InCheck(d.checks, m, i)
    ensures var policy := d.config.policies[v.sender.name];
      && policy.IsEnabled() && "terminate" in policy.actions
      && Justifies(policy, d.checks[i].snapshot, v.pid)
  {
    hide IsRun, Processed, Justifies, Legal;
    FilterMembers(FromPolicy(), d.host.trace, v);
    m, i := SignalsReachBackToSnapshot(d.config, d.host.world, d.checks, d.log, d.host.clock, v);
    var _ := SignalsRespectCooldown(d.config, d.host.world, d.log, d.host.clock, v);
  }

  /** In any such state every SIGKILL of a policy follows its SIGTERM to the same PID by at least the grace period,
      within one execution: the one whose events the SIGKILL is among. */
  lemma PolicyKillsJustified(d: Daemon)
    requires d.Valid()
    ensures KillsJustified(d.config.gracePeriod, Filter(FromPolicy(), d.host.trace))
    ensures forall m :: 0 <= m < |d.log| ==> KillsJustified(d.config.gracePeriod, d.log[m].events)
    ensures forall v :: v in d.host.trace && v.Attempt? && v.sender.ByPolicy? ==>
      exists m :: 0 <= m < |d.log| && v in d.log[m].events
  {
    hide KillsJustified, IsRun, Processed;
    RunKillsJustified(d.config, d.host.world, d.log, d.host.clock);
    forall m | 0 <= m < |d.log|
      ensures KillsJustified(d.config.gracePeriod, d.log[m].events)
    {
      ExecutionKillsJustified(d.config, d.host.world, d.log, d.host.clock, m);
    }
    forall v | v in d.host.trace && v.Attempt? && v.sender.ByPolicy?
      ensures exists m :: 0 <= m < |d.log| && v in d.log[m].events
    {
      FilterMembers(FromPolicy(), d.host.trace, v);
      var m := SignalHasEntry(d.config, d.host.world, d.log, d.host.clock, v);
    }
  }

  /** In any such state every wait for a policy has lasted exactly the grace period and what the environment added. */
  lemma GraceWaitsExact(d: Daemon, v: Event)
    requires d.Valid() && v in d.host.trace && v.Wait?
    ensures v.until ==
      v.from + d.host.world.delay(v.tick) + if v.cancelled then 0 else Max0(d.config.gracePeriod)
  {
    hide IsRun, Processed, Counted;
    FilterMembers(FromPolicy(), d.host.trace, v);
    var _ := WaitsAreGrace(d.config, d.host.world, d.log, d.host.clock, v);
  }

  /** In any such state with a validated configuration, no execution has met an unknown action,
      and whatever triggered has had as many targets as its positive threshold. */
  lemma ValidatedDaemon(d: Daemon, m: nat)
    requires d.Valid() && ValidConfig(d.config) && m < |d.log|
    ensures d.log[m].outcome.Failed? ==> forall f :: f in d.log[m].outcome.errs ==>
      !f.1.UnknownAction? && f.0 in d.log[m].decision.actions && f.0 in KNOWN_ACTIONS
    ensures d.log[m].decision.triggered ==>
      && d.log[m].Name() in d.config.policies
      && |d.log[m].decision.pids| >= d.config.policies[d.log[m].Name()].maxCount >= 1
  {
    ValidatedRun(d.config, d.host.world, d.checks, d.log, d.host.clock, m);
  }

  /** In any such state outside dry-run, where no command succeeds, a policy with a notify action is not remembered:
      every trigger of it has notified and failed, whatever the cooldown. */
  lemma FailuresNotLimited(d: Daemon, name: string)
    requires d.Valid() && !d.config.dryRun && forall t :: !d.host.world.succeeds(t)
    requires name in d.config.policies && "notify" in d.config.policies[name].actions
    ensures name !in d.lastTrigger
    ensures forall m :: 0 <= m < |d.log| && d.log[m].Name() == name && d.log[m].decision.triggered ==>
      d.log[m].outcome.Failed? && Notified(d.log[m])
  {
    hide IsRun, Processed;
    forall m | 0 <= m < |d.log| && d.log[m].Name() == name
      ensures "notify" in d.log[m].decision.actions
    {
      EntriesCarryPolicyActions(d.config, d.checks, d.log, m);
    }
    forall m, v | 0 <= m < |d.log| && d.log[m].Name() == name && v in d.log[m].events && IsCommand(v, "notify", [])
      ensures !v.ok
    {
      RunPrefix(d.config, d.host.world, d.log, d.host.clock, m);
      assert v in d.log[m].AllEvents();
    }
    FailuresEscapeCooldown(d.config, d.host.world, d.log, d.host.clock, name);
  }

  /** In any such state in dry-run, no policy has signalled, waited or run an action, and no cooldown is remembered:
      all that was done for a policy are diagnostic captures, and these only when a path for them is configured. */
  lemma DryRunIsHarmless(d: Daemon, v: Event)
    requires d.Valid() && d.config.dryRun
    ensures d.lastTrigger == map[]
    ensures v in d.host.trace ==> (v.Attempt? && v.sender.ByRequest?) || (IsCapture(v) && d.config.diagnosticsPath != "")
  {
    hide IsRun, Processed, Counted;
    DryRunRemembersNothing(d.config, d.host.world, d.log, d.host.clock);
    if v in d.host.trace && FromPolicy()(v) {
      FilterMembers(FromPolicy(), d.host.trace, v);
      DryRunCaptures(d.config, d.host.world, d.log, d.host.clock, v);
    }
  }

  /** In any such state with metrics, the counters of every policy balance. */
  lemma MetricsBalance(d: Daemon, name: string, action: string)
    requires d.Valid() && d.metricsEnabled && name in d.config.policies
    ensures var executed := |Filter(Kinded(name, KindExecuted), d.log)|;
      && Get(d.metrics.evaluations, name) ==
           |Filter(Kinded(name, KindUntriggered), d.log)| + |Filter(Kinded(name, KindOnCooldown), d.log)|
           + Get(d.metrics.triggers, name)
      && Get(d.metrics.triggers, name) ==
           |Filter(Kinded(name, KindDryRun), d.log)| + |Filter(Kinded(name, KindFailed), d.log)| + executed
      && |Recordings(d.log, name)| == executed
      && (d.config.dryRun ==> executed == 0 && |Filter(Kinded(name, KindFailed), d.log)| == 0)
      && (!d.config.dryRun ==> |Filter(Kinded(name, KindDryRun), d.log)| == 0)
      && Get(d.metrics.actions, (name, action)) == executed * Multiplicity(d.config.policies[name].actions, action)
  {
    hide Processed, IsRun, Counted;
    forall i | 0 <= i < |d.log| && d.log[i].Name() == name
      ensures d.log[i].decision.actions == d.config.policies[name].actions
    {
      EntriesCarryPolicyActions(d.config, d.checks, d.log, i);
    }
    Accounting(d.metrics, d.log, name, d.config.policies[name].actions, action);
    KindsByMode(d.config, d.host.world, d.log, d.host.clock, name);
  }

  /** In any such state with metrics, each counter of a policy is a number of log entries: of all its decisions,
      of those that got past the cooldown, and for an action, of its error-free executions
      times the action's occurrences. */
  lemma MetricsExact(d: Daemon, name: string, action: string)
    requires d.Valid() && d.metricsEnabled && name in d.config.policies
    ensures Get(d.metrics.evaluations, name) == |set i | 0 <= i < |d.log| && d.log[i].decision.policyName == name|
    ensures Get(d.metrics.triggers, name) ==
      |set i | 0 <= i < |d.log| && d.log[i].decision.policyName == name
               && d.log[i].decision.triggered && !d.log[i].outcome.OnCooldown?|
    ensures Get(d.metrics.actions, (name, action)) ==
      |set i | 0 <= i < |d.log| && d.log[i].decision.policyName == name && d.log[i].outcome.Executed?|
      * multiset(d.config.policies[name].actions)[action]
  {
    hide Processed, IsRun, Multiplicity, Filter, Accounted, Remembers;
    MetricsBalance(d, name, action);
    MultiplicityCounts(d.config.policies[name].actions, action);
    forall i | 0 <= i < |d.log|
      ensures d.log[i].Fires() <==> d.log[i].decision.triggered && !d.log[i].outcome.OnCooldown?
    {
      OutcomeExactly(d.config, d.host.world, d.log, d.host.clock, i);
    }
    CountsOfPolicy(d.log, name);
  }

  /** Counting the entries of a policy by position. */
  lemma CountsOfPolicy(log: seq<Entry>, name: string)
    requires forall i :: 0 <= i < |log| ==>
      (log[i].Fires() <==> log[i].decision.triggered && !log[i].outcome.OnCooldown?)
    ensures |Filter(Of(name), log)| == |set i | 0 <= i < |log| && log[i].decision.policyName == name|
    ensures |Filter(Firing(name), log)| ==
      |set i | 0 <= i < |log| && log[i].decision.policyName == name
               && log[i].decision.triggered && !log[i].outcome.OnCooldown?|
    ensures |Filter(Kinded(name, KindExecuted), log)| ==
      |set i | 0 <= i < |log| && log[i].decision.policyName == name && log[i].outcome.Executed?|
  {
    hide Filter, Positions;
    PositionsCounted(Of(name), log);
    PositionsCounted(Firing(name), log);
    PositionsCounted(Kinded(name, KindExecuted), log);
    assert Positions(Of(name), log) == set i | 0 <= i < |log| && log[i].decision.policyName == name;
    assert Positions(Firing(name), log) ==
      set i | 0 <= i < |log| && log[i].decision.policyName == name
              && log[i].decision.triggered && !log[i].outcome.OnCooldown?;
    assert Positions(Kinded(name, KindExecuted), log) ==
      set i | 0 <= i < |log| && log[i].decision.policyName == name && log[i].outcome.Executed?;
  }

  /** The positions of the entries a filter keeps. */
  function Positions(keep: Entry -> bool, log: seq<Entry>): set<int> {
    if log == [] then {} else Positions(keep, Init(log)) + if keep(Last(log)) then {|log| - 1} else {}
  }

  lemma {:induction false} PositionsCounted(keep: Entry -> bool, log: seq<Entry>)
    ensures forall i :: i in Positions(keep, log) <==> 0 <= i < |log| && keep(log[i])
    ensures |Filter(keep, log)| == |Positions(keep, log)|
  {
    if log != [] {
      PositionsCounted(keep, Init(log));
    }
  }

  lemma {:induction false} MultiplicityCounts(actions: seq<string>, action: string)
    ensures Multiplicity(actions, action) == multiset(actions)[action]
  {
    if actions != [] {
      MultiplicityCounts(Init(actions), action);
      MultisetSplit(actions);
    }
  }

  // ---------------------------------------------------------------- proof steps

  lemma NothingRequested(signal: Signal)
    ensures Requested([], signal, []) && Reported([], [], [], [])
  {
  }

  /** The two sides of a report, by the answers. */
  lemma ReportedByAnswer(pids: seq<int>, signal: Signal, es: seq<Event>, terminated: seq<int>, failed: seq<int>)
    requires Requested(pids, signal, es) && Reported(pids, es, terminated, failed)
    ensures |es| == |pids| && forall k :: 0 <= k < |pids| ==>
      es[k].Attempt? && es[k].sender == ByRequest && es[k].pid == pids[k] && es[k].signal == signal
    ensures forall pid :: pid in terminated <==>
      exists k :: 0 <= k < |pids| && pids[k] == pid && (es[k].reply == Delivered || es[k].reply == Gone)
    ensures forall pid :: pid in failed <==>
      exists k :: 0 <= k < |pids| && pids[k] == pid && (es[k].reply == NotFound || es[k].reply == Refused)
  {
    hide Interleaves, Filter;
    FilterElements(Succeeded(), es);
    FilterElements(Unsuccessful(), es);
    PidsOf(Filter(Succeeded(), es));
    PidsOf(Filter(Unsuccessful(), es));
    assert forall e :: e in es <==> exists k :: 0 <= k < |pids| && es[k] == e;
  }

  lemma PidsOf(es: seq<Event>)
    requires forall e :: e in es ==> e.Attempt?
    ensures forall pid :: pid in Map(EventPid(), es) <==> exists e :: e in es && e.pid == pid
  {
    assert forall k :: 0 <= k < |es| ==> es[k] in es && Map(EventPid(), es)[k] == es[k].pid;
  }

  lemma OneMoreRequest(pids: seq<int>, signal: Signal, es: seq<Event>, terminated: seq<int>, failed: seq<int>,
                       pid: int, e: Event)
    requires Requested(pids, signal, es) && Reported(pids, es, terminated, failed) && IsAttempt(e, ByRequest, pid, signal)
    ensures Requested(pids + [pid], signal, es + [e])
    ensures if e.reply in {Delivered, Gone} then Reported(pids + [pid], es + [e], terminated + [pid], failed)
            else Reported(pids + [pid], es + [e], terminated, failed + [pid])
  {
    hide Filter, Interleaves;
    FilterAppend(Succeeded(), es, e);
    FilterAppend(Unsuccessful(), es, e);
    MapAppend(EventPid(), Filter(Succeeded(), es), e);
    MapAppend(EventPid(), Filter(Unsuccessful(), es), e);
    InterleavesAppend(terminated, failed, pids, pid);
  }

  /** The ticks that start a check, and the checks they start. */
  ghost predicate Started(cfg: Config, ticks: seq<Tick>, published: seq<(string, Snapshot)>, started: seq<nat>) {
    && |published| == |started|
    && (forall k :: 0 <= k < |started| ==>
          && started[k] < |ticks| && (k > 0 ==> started[k - 1] < started[k])
          && published[k].1 == SnapshotOf(ticks[started[k]].inputs)
          && published[k].0 == if ticks[started[k]].PeriodicTick? then "periodic" else "load-triggered")
    && (forall i :: 0 <= i < |ticks| ==> (i in started <==> Starts(cfg, ticks[i])))
  }

  /** Whether a tick starts a check. */
  predicate Starts(cfg: Config, t: Tick) {
    t.PeriodicTick? || (GetLoadAverage(t.loadavg).Ok? && GetLoadAverage(t.loadavg).value.load1 >= cfg.loadThreshold)
  }

  lemma TickStarts(cfg: Config, t: Tick)
    ensures ChecksOf(cfg)(t) == if !Starts(cfg, t) then [] else
      [(if t.PeriodicTick? then "periodic" else "load-triggered", SnapshotOf(t.inputs))]
  {
    hide SnapshotOf, GetLoadAverage;
  }

  lemma IdleTick(cfg: Config, ticks: seq<Tick>, published: seq<(string, Snapshot)>, started: seq<nat>, t: Tick)
    requires Started(cfg, ticks, published, started) && !Starts(cfg, t)
    ensures Started(cfg, ticks + [t], published, started)
  {
    hide SnapshotOf, Starts;
    assert |ticks| !in started;
    assert forall i :: 0 <= i < |ticks| ==> (ticks + [t])[i] == ticks[i];
  }

  lemma StartingTick(cfg: Config, ticks: seq<Tick>, published: seq<(string, Snapshot)>, started: seq<nat>, t: Tick)
    requires Started(cfg, ticks, published, started) && Starts(cfg, t)
    ensures Started(cfg, ticks + [t],
                    published + [(if t.PeriodicTick? then "periodic" else "load-triggered", SnapshotOf(t.inputs))],
                    started + [|ticks|])
  {
    hide SnapshotOf, Starts;
    assert forall i :: 0 <= i < |ticks| ==> (ticks + [t])[i] == ticks[i];
    var started' := started + [|ticks|];
    assert forall i :: i in started' <==> i in started || i == |ticks|;
  }

  lemma {:induction false} StartedTicks(cfg: Config, ticks: seq<Tick>) returns (started: seq<nat>)
    ensures Started(cfg, ticks, FlatMap(ChecksOf(cfg), ticks), started)
  {
    hide Started, Starts, FlatMap, ChecksOf;
    if ticks == [] {
      started := [];
      NoTicks(ChecksOf(cfg));
      NothingStarted(cfg);
    } else {
      var front, last := Init(ticks), Last(ticks);
      started := StartedTicks(cfg, front);
      TickStarts(cfg, last);
      FlatMapAppend(ChecksOf(cfg), front, last);
      assert front + [last] == ticks;
      if Starts(cfg, last) {
        StartingTick(cfg, front, FlatMap(ChecksOf(cfg), front), started, last);
        started := started + [|front|];
      } else {
        IdleTick(cfg, front, FlatMap(ChecksOf(cfg), front), started, last);
        assert FlatMap(ChecksOf(cfg), front) + [] == FlatMap(ChecksOf(cfg), front);
      }
    }
  }

  lemma NothingStarted(cfg: Config)
    ensures Started(cfg, [], [], [])
  {
  }

  /** The published list, field by field. */
  lemma PublishedInTurn(cfg: Config, before: seq<Check>, checks: seq<Check>, first: Snapshot,
                        ticks: seq<Tick>, started: seq<nat>)
    requires Map(Publication(), checks) ==
      Map(Publication(), before) + [("startup", first)] + FlatMap(ChecksOf(cfg), ticks)
    requires Started(cfg, ticks, FlatMap(ChecksOf(cfg), ticks), started)
    ensures |checks| == |before| + 1 + |started|
    ensures checks[|before|].trigger == "startup" && checks[|before|].snapshot == first
    ensures forall i :: 0 <= i < |ticks| ==> (i in started <==>
      || ticks[i].PeriodicTick?
      || (GetLoadAverage(ticks[i].loadavg).Ok? && GetLoadAverage(ticks[i].loadavg).value.load1 >= cfg.loadThreshold))
    ensures forall k :: 0 <= k < |started| ==>
      && started[k] < |ticks| && (k > 0 ==> started[k - 1] < started[k])
      && checks[|before| + 1 + k].snapshot == SnapshotOf(ticks[started[k]].inputs)
      && checks[|before| + 1 + k].trigger == if ticks[started[k]].PeriodicTick? then "periodic" else "load-triggered"
  {
    hide SnapshotOf, GetLoadAverage, FlatMap, ChecksOf, Map;
    PublishedFields(before, checks, first, FlatMap(ChecksOf(cfg), ticks));
  }

  lemma PublishedFields(before: seq<Check>, checks: seq<Check>, first: Snapshot, rest: seq<(string, Snapshot)>)
    requires Map(Publication(), checks) == Map(Publication(), before) + [("startup", first)] + rest
    ensures |checks| == |before| + 1 + |rest|
    ensures checks[|before|].trigger == "startup" && checks[|before|].snapshot == first
    ensures forall k :: 0 <= k < |rest| ==>
      checks[|before| + 1 + k].trigger == rest[k].0 && checks[|before| + 1 + k].snapshot == rest[k].1
  {
    var published := Map(Publication(), checks);
    assert |published| == |checks|;
    assert published[|before|] == Publication()(checks[|before|]);
    forall k | 0 <= k < |rest|
      ensures checks[|before| + 1 + k].trigger == rest[k].0 && checks[|before| + 1 + k].snapshot == rest[k].1
    {
      assert published[|before| + 1 + k] == rest[k] == Publication()(checks[|before| + 1 + k]);
    }
  }

  lemma NoTicks(f: Tick -> seq<(string, Snapshot)>)
    ensures FlatMap(f, []) == []
  {
  }

  lemma MapAppend<T, U>(f: T -> U, s: seq<T>, x: T)
    ensures Map(f, s + [x]) == Map(f, s) + [f(x)]
  {
  }

  lemma InterleavesAppend(a: seq<int>, b: seq<int>, c: seq<int>, x: int)
    requires Interleaves(a, b, c)
    ensures Interleaves(a + [x], b, c + [x]) && Interleaves(a, b + [x], c + [x])
  {
    assert Init(a + [x]) == a && Init(b + [x]) == b && Init(c + [x]) == c;
  }

  lemma NothingHappened(world: World, e: Entry)
    requires e.captured == e.events == [] && e.at == e.until
    ensures Happened(world, e)
  {
  }

  /** What was recorded between the cooldown check and the end of an entry is what happened during it. */
  lemma ExecutionHappened(world: World, t0: nat, t1: nat, c1: int, t2: nat, c2: int, e: Entry)
    requires Recorded(world, e.captured, t0, e.at, t1, c1) && Recorded(world, e.events, t1, c1, t2, c2) && c2 <= e.until
    ensures Happened(world, e)
  {
    RecordedConcat(world, e.captured, e.events, t0, e.at, t1, c1, t2, c2);
    RecordedOrdered(world, e.AllEvents(), t0, e.at, t2, c2);
    RecordedSpan(world, e.AllEvents(), t0, e.at, t2, c2);
  }

  lemma ExecutionSpan(world: World, captured: seq<Event>, es: seq<Event>,
                      t0: nat, at: int, t1: nat, c1: int, t2: nat, c2: int)
    requires Recorded(world, captured, t0, at, t1, c1) && Recorded(world, es, t1, c1, t2, c2)
    ensures at <= c1 <= c2
  {
    RecordedSpan(world, captured, t0, at, t1, c1);
    RecordedSpan(world, es, t1, c1, t2, c2);
  }

  lemma SkippedEntry(cfg: Config, world: World, t0: nat, t1: nat, e: Entry)
    requires cfg.dryRun && e.outcome.DryRunSkipped? && e.events == [] && CaptureOf(cfg, e.decision, e.captured)
    requires Recorded(world, e.captured, t0, e.at, t1, e.until)
    ensures Fired(cfg, e) && Happened(world, e) && e.at <= e.until
  {
    ExecutionHappened(world, t0, t1, e.until, t1, e.until, e);
  }

  lemma ProcessedAppend(cfg: Config, checks: seq<Check>, log: seq<Entry>, check: Check, log': seq<Entry>)
    requires Processed(cfg, checks, log) && Published(cfg, check)
    requires Map(DecisionOf(), log') == Map(DecisionOf(), log) + check.decisions
    ensures Processed(cfg, checks + [check], log')
    ensures |log'| == |log| + |check.decisions|
  {
    FlatMapAppend(DecisionsOf(), checks, check);
    assert |Map(DecisionOf(), log')| == |log'| && |Map(DecisionOf(), log)| == |log|;
  }

  /** Signals on request are no entry's doing. */
  lemma RequestsNotAccounted(trace: seq<Event>, log: seq<Entry>, pids: seq<int>, signal: Signal, es: seq<Event>)
    requires Accounted(trace, log) && Requested(pids, signal, es)
    ensures Accounted(trace + es, log)
  {
    FilterConcat(FromPolicy(), trace, es);
    NoneFromPolicy(es);
  }

  lemma {:induction false} NoneFromPolicy(es: seq<Event>)
    requires forall k :: 0 <= k < |es| ==> es[k].Attempt? && es[k].sender == ByRequest
    ensures Filter(FromPolicy(), es) == []
  {
    if es != [] {
      NoneFromPolicy(Init(es));
    }
  }
}
