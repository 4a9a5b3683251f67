/** Runs of the daemon as logs: one entry for every policy decision a check processes (internal/daemon/daemon.go).
    `IsRun` is the transition relation, entry by entry; the lemmas below hold of every run. */
module RunLog {
  import opened Lists
  import opened Config
  import opened Collector
  import opened Convert
  import opened Engine
  import opened Host
  import opened Executor

  datatype Outcome =
    | Untriggered
    | OnCooldown
    | DryRunSkipped
    | Failed(errs: seq<(string, ActionError)>)
    | Executed

  /** One processed decision: looked up against the cooldown at `at`, done at `until`.
      An error-free execution is done when its trigger is recorded. `captured` is the diagnostic capture
      that precedes the actions, `events` what the actions did. */
  datatype Entry = Entry(
    decision: Decision, at: int, until: int, outcome: Outcome, captured: seq<Event>, events: seq<Event>)
  {
    /** The decision got past the cooldown. */
    predicate Fires() {
      outcome.DryRunSkipped? || Acts()
    }

    /** The actions of the decision were run. */
    predicate Acts() {
      outcome.Failed? || outcome.Executed?
    }

    function Name(): string {
      decision.policyName
    }

    function AllEvents(): seq<Event> {
      captured + events
    }
  }

  /** Diagnostics are captured before the actions of a decision that has targets, when a path is configured. */
  ghost predicate CaptureOf(cfg: Config, d: Decision, captured: seq<Event>) {
    if cfg.diagnosticsPath != "" && d.pids != []
    then |captured| == 1 && IsCommand(captured[0], "capture", d.pids)
    else captured == []
  }

  predicate IsCapture(v: Event) {
    v.Command? && v.action == "capture"
  }

  /** The cooldown memory after a log: only error-free executions are remembered. */
  function LastTriggers(log: seq<Entry>): map<string, int> {
    if log == [] then map[] else
      var before := LastTriggers(Init(log));
      if Last(log).outcome.Executed? then before[Last(log).Name() := Last(log).until] else before
  }

  predicate Cooling(cfg: Config, last: map<string, int>, name: string, at: int) {
    name in last && at - last[name] < cfg.cooldown
  }

  /** The events of an entry are in order, within its time, and answered as the world answers. */
  ghost predicate Happened(world: World, e: Entry) {
    && e.at <= e.until && Ordered(e.AllEvents())
    && forall v :: v in e.AllEvents() ==> Answered(world, v) && e.at <= Start(v) <= End(v) <= e.until
  }

  /** What a decision that got past the cooldown leads to: a capture, in dry-run too,
      and outside dry-run all its actions. */
  ghost predicate Fired(cfg: Config, e: Entry) {
    && CaptureOf(cfg, e.decision, e.captured)
    && match e.outcome
       case DryRunSkipped => cfg.dryRun && e.events == []
       case Failed(errs) => !cfg.dryRun && errs != [] && RanAll(cfg, e.decision, e.events, errs)
       case Executed => !cfg.dryRun && RanAll(cfg, e.decision, e.events, [])
       case _ => false
  }

  /** What one decision may lead to, given the cooldown memory. */
  ghost predicate Legal(cfg: Config, world: World, last: map<string, int>, e: Entry) {
    && Happened(world, e)
    && (e.decision.triggered <==> !e.outcome.Untriggered?)
    && (e.decision.triggered ==> (e.outcome.OnCooldown? <==> Cooling(cfg, last, e.Name(), e.at)))
    && if e.Fires() then Fired(cfg, e) else e.captured == e.events == []
  }

  /** `log` is a run up to the time `now`, on a clock that never goes back. */
  ghost predicate IsRun(cfg: Config, world: World, log: seq<Entry>, now: int) {
    if log == [] then true else
      var e := Last(log);
      e.until <= now && Legal(cfg, world, LastTriggers(Init(log)), e) && IsRun(cfg, world, Init(log), e.at)
  }

  lemma RunAppend(cfg: Config, world: World, log: seq<Entry>, now: int, e: Entry, later: int)
    requires IsRun(cfg, world, log, now) && now <= e.at && e.until <= later && Legal(cfg, world, LastTriggers(log), e)
    ensures IsRun(cfg, world, log + [e], later)
    ensures LastTriggers(log + [e]) ==
      if e.outcome.Executed? then LastTriggers(log)[e.Name() := e.until] else LastTriggers(log)
  {
    hide Legal;
    assert Init(log + [e]) == log;
    RunLater(cfg, world, log, now, e.at);
  }

  lemma RunLater(cfg: Config, world: World, log: seq<Entry>, now: int, later: int)
    requires IsRun(cfg, world, log, now) && now <= later
    ensures IsRun(cfg, world, log, later)
  {
  }

  lemma {:induction false} RunPrefix(cfg: Config, world: World, log: seq<Entry>, now: int, j: nat)
    requires IsRun(cfg, world, log, now) && j < |log|
    ensures IsRun(cfg, world, log[..j], log[j].at) && Legal(cfg, world, LastTriggers(log[..j]), log[j])
    ensures log[j].at <= log[j].until <= now
  {
    hide RanAll;
    if j == |log| - 1 {
      assert log[..j] == Init(log);
    } else {
      RunPrefix(cfg, world, Init(log), Last(log).at, j);
      assert Init(log)[..j] == log[..j];
    }
  }

  // ---------------------------------------------------------------- cooldown

  predicate Records(e: Entry, name: string) {
    e.outcome.Executed? && e.Name() == name
  }

  /** The memory holds the latest recorded trigger of each policy. */
  lemma {:induction false} MemoryIsLatest(cfg: Config, world: World, log: seq<Entry>, now: int, name: string, i: nat)
    requires IsRun(cfg, world, log, now) && i < |log| && Records(log[i], name)
    ensures name in LastTriggers(log) && log[i].until <= LastTriggers(log)[name]
  {
    var e := Last(log);
    if i < |log| - 1 {
      MemoryIsLatest(cfg, world, Init(log), e.at, name, i);
      RunPrefix(cfg, world, Init(log), e.at, i);
      RunPrefix(cfg, world, log, now, |log| - 1);
    }
  }

  lemma {:induction false} MemoryHasSource(log: seq<Entry>, name: string) returns (i: nat)
    requires name in LastTriggers(log)
    ensures i < |log| && Records(log[i], name) && log[i].until == LastTriggers(log)[name]
  {
    if Records(Last(log), name) {
      i := |log| - 1;
    } else {
      i := MemoryHasSource(Init(log), name);
    }
  }

  /** In every run a policy fires no sooner than the cooldown after each of its recorded triggers. */
  lemma CooldownRespected(cfg: Config, world: World, log: seq<Entry>, now: int, i: nat, j: nat)
    requires IsRun(cfg, world, log, now) && i < j < |log|
    requires Records(log[i], log[j].Name()) && log[j].Fires()
    ensures log[j].at - log[i].until >= cfg.cooldown
  {
    RunPrefix(cfg, world, log, now, j);
    MemoryIsLatest(cfg, world, log[..j], log[j].at, log[j].Name(), i);
  }

  /** A triggered decision is suppressed exactly when some earlier trigger of its policy was recorded
      less than the cooldown before. */
  lemma SuppressedExactly(cfg: Config, world: World, log: seq<Entry>, now: int, j: nat)
    requires IsRun(cfg, world, log, now) && j < |log| && log[j].decision.triggered
    ensures log[j].outcome.OnCooldown? <==>
      exists i :: 0 <= i < j && Records(log[i], log[j].Name()) && log[j].at - log[i].until < cfg.cooldown
  {
    RunPrefix(cfg, world, log, now, j);
    if log[j].outcome.OnCooldown? {
      var i := MemoryHasSource(log[..j], log[j].Name());
      assert log[..j][i] == log[i];
    } else {
      forall i | 0 <= i < j && Records(log[i], log[j].Name())
        ensures log[j].at - log[i].until >= cfg.cooldown
      {
        CooldownRespected(cfg, world, log, now, i, j);
      }
    }
  }

  /** What becomes of a decision, exactly. It is suppressed when a trigger of its policy was recorded less than the
      cooldown before; otherwise skipped in dry-run; otherwise its actions are run, and its trigger is recorded
      unless an action was unknown, a notification or a diagnosis failed, or a wait was cancelled. */
  lemma OutcomeExactly(cfg: Config, world: World, log: seq<Entry>, now: int, j: nat)
    requires IsRun(cfg, world, log, now) && j < |log|
    ensures var e, o := log[j], log[j].outcome;
      var suppressed := exists i :: 0 <= i < j && Records(log[i], e.Name()) && e.at - log[i].until < cfg.cooldown;
      var clean :=
        && (forall a :: a in e.decision.actions ==> a in KNOWN_ACTIONS)
        && forall v :: v in e.events ==>
             (v.Command? && v.action in {"notify", "diagnose"} ==> v.ok) && (v.Wait? ==> !v.cancelled);
      && (o.Untriggered? <==> !e.decision.triggered)
      && (o.OnCooldown? <==> e.decision.triggered && suppressed)
      && (o.DryRunSkipped? <==> e.decision.triggered && !suppressed && cfg.dryRun)
      && (o.Executed? <==> e.decision.triggered && !suppressed && !cfg.dryRun && clean)
      && (o.Failed? <==> e.decision.triggered && !suppressed && !cfg.dryRun && !clean)
  {
    hide RanAll, Happened, Cooling, LastTriggers, IsRun;
    var e := log[j];
    RunPrefix(cfg, world, log, now, j);
    if e.decision.triggered {
      SuppressedExactly(cfg, world, log, now, j);
    }
    if e.Acts() {
      ErrorFreeExactly(cfg, e.decision, e.events, if e.outcome.Failed? then e.outcome.errs else []);
    }
  }

  /** Diagnostics are captured, once and before any action, for exactly the decisions that get past the cooldown and have
      targets, when a path is configured. */
  lemma CapturedExactly(cfg: Config, world: World, log: seq<Entry>, now: int, j: nat)
    requires IsRun(cfg, world, log, now) && j < |log|
    ensures var e := log[j];
      if e.decision.triggered && !e.outcome.OnCooldown? && cfg.diagnosticsPath != "" && e.decision.pids != [] then
        && |e.AllEvents()| == 1 + |e.events| && e.AllEvents()[0].Command?
        && e.AllEvents()[0].action == "capture" && e.AllEvents()[0].pids == e.decision.pids
      else e.AllEvents() == e.events
  {
    hide RanAll, Happened, LastTriggers, IsRun;
    RunPrefix(cfg, world, log, now, j);
  }

  /** The times at which triggers of a policy were recorded. */
  function Recordings(log: seq<Entry>, name: string): seq<int> {
    if log == [] then [] else
    if Records(Last(log), name) then Recordings(Init(log), name) + [Last(log).until] else Recordings(Init(log), name)
  }

  ghost predicate Spaced(times: seq<int>, gap: int) {
    forall i, j :: 0 <= i < j < |times| ==> times[j] - times[i] >= gap
  }

  function Within(from: int, until: int): int -> bool {
    (t: int) => from <= t <= until
  }

  lemma {:induction false} RecordingSource(log: seq<Entry>, name: string, t: int) returns (i: nat)
    requires t in Recordings(log, name)
    ensures i < |log| && Records(log[i], name) && log[i].until == t
  {
    if Records(Last(log), name) && Last(log).until == t {
      i := |log| - 1;
    } else {
      i := RecordingSource(Init(log), name, t);
    }
  }

  lemma {:induction false} RecordingsSpaced(cfg: Config, world: World, log: seq<Entry>, now: int, name: string)
    requires IsRun(cfg, world, log, now)
    ensures Spaced(Recordings(log, name), cfg.cooldown)
  {
    if log != [] {
      RecordingsSpaced(cfg, world, Init(log), Last(log).at, name);
      if Records(Last(log), name) {
        var before := Recordings(Init(log), name);
        forall i | 0 <= i < |before|
          ensures Last(log).until - before[i] >= cfg.cooldown
        {
          var k := RecordingSource(Init(log), name, before[i]);
          CooldownRespected(cfg, world, log, now, k, |log| - 1);
        }
      }
    }
  }

  lemma {:induction false} FilterSpaced(keep: int -> bool, times: seq<int>, gap: int)
    requires Spaced(times, gap)
    ensures Spaced(Filter(keep, times), gap)
  {
    if times != [] {
      var front, last := Init(times), Last(times);
      FilterSpaced(keep, front, gap);
      if keep(last) {
        var kept := Filter(keep, front);
        forall i | 0 <= i < |kept|
          ensures last - kept[i] >= gap
        {
          FilterMembers(keep, front, kept[i]);
          assert kept[i] in front;
        }
      }
    }
  }

  lemma {:induction false} SpanOfSpaced(times: seq<int>, gap: int)
    requires Spaced(times, gap) && times != []
    ensures (|times| - 1) * gap <= Last(times) - times[0]
  {
    if |times| > 1 {
      var front := Init(times);
      SpanOfSpaced(front, gap);
      assert Last(times) - Last(front) >= gap;
      assert (|times| - 1) * gap == (|front| - 1) * gap + gap;
    }
  }

  /** Rate limit: a window of length W holds at most W / cooldown + 1 recorded triggers of a policy. */
  lemma TriggerRateBounded(cfg: Config, world: World, log: seq<Entry>, now: int, name: string, from: int, until: int)
    requires IsRun(cfg, world, log, now) && from <= until
    ensures var n := |Filter(Within(from, until), Recordings(log, name))|;
      n > 0 ==> (n - 1) * cfg.cooldown <= until - from
  {
    var times := Recordings(log, name);
    RecordingsSpaced(cfg, world, log, now, name);
    FilterSpaced(Within(from, until), times, cfg.cooldown);
    var inside := Filter(Within(from, until), times);
    if inside != [] {
      SpanOfSpaced(inside, cfg.cooldown);
      FilterMembers(Within(from, until), times, inside[0]);
      FilterMembers(Within(from, until), times, Last(inside));
    }
  }

  /** One of the actions was a notification. */
  ghost predicate Notified(e: Entry) {
    exists v :: v in e.events && IsCommand(v, "notify", [])
  }

  /** No notification of the policy got through. */
  ghost predicate NotificationsFail(log: seq<Entry>, name: string) {
    forall i, v :: 0 <= i < |log| && log[i].Name() == name && v in log[i].events && IsCommand(v, "notify", []) ==> !v.ok
  }

  lemma NotificationRan(cfg: Config, d: Decision, es: seq<Event>, errs: seq<(string, ActionError)>) returns (v: Event)
    requires RanAll(cfg, d, es, errs) && "notify" in d.actions
    ensures v in es && IsCommand(v, "notify", []) && (errs == [] ==> v.ok)
  {
    hide TwoPhase;
    var segments, results :|
      AllRan(cfg, d, segments, results, |d.actions|) && es == Flatten(segments) && errs == Failures(d.actions, results);
    NoFailures(d.actions, results);
    var k :| 0 <= k < |d.actions| && d.actions[k] == "notify";
    assert Ran(cfg, d, d.actions[k], segments[k], results[k]);
    v := segments[k][0];
    SegmentWithin(segments, k, v);
  }

  /** The cooldown limits error-free executions only. In every run outside dry-run, a policy whose notifications
      do not get through is never remembered: each of its triggers, however close, runs all actions again,
      notifies again and fails again. */
  lemma {:induction false} FailuresEscapeCooldown(cfg: Config, world: World, log: seq<Entry>, now: int, name: string)
    requires IsRun(cfg, world, log, now) && !cfg.dryRun
    requires forall i :: 0 <= i < |log| && log[i].Name() == name ==> "notify" in log[i].decision.actions
    requires NotificationsFail(log, name)
    ensures name !in LastTriggers(log)
    ensures forall i :: 0 <= i < |log| && log[i].Name() == name && log[i].decision.triggered ==>
      log[i].outcome.Failed? && Notified(log[i])
  {
    hide RanAll, Happened;
    if log != [] {
      var front, e := Init(log), Last(log);
      assert forall i :: 0 <= i < |front| ==> front[i] == log[i];
      FailuresEscapeCooldown(cfg, world, front, e.at, name);
      assert e == log[|log| - 1];
      if e.Name() == name && e.decision.triggered {
        var v := NotificationRan(cfg, e.decision, e.events, if e.outcome.Failed? then e.outcome.errs else []);
        assert v in log[|log| - 1].events;
      }
    }
  }

  /** In dry-run the cooldown memory stays empty and no actions are run. */
  lemma {:induction false} DryRunRemembersNothing(cfg: Config, world: World, log: seq<Entry>, now: int)
    requires IsRun(cfg, world, log, now) && cfg.dryRun
    ensures LastTriggers(log) == map[]
    ensures forall i :: 0 <= i < |log| ==> !log[i].Acts() && !log[i].outcome.OnCooldown? && log[i].events == []
  {
    if log != [] {
      DryRunRemembersNothing(cfg, world, Init(log), Last(log).at);
      forall i | 0 <= i < |log|
        ensures !log[i].Acts() && !log[i].outcome.OnCooldown? && log[i].events == []
      {
        if i < |log| - 1 { assert log[i] == Init(log)[i]; }
      }
    }
  }

  /** All that happens for a policy in dry-run are diagnostic captures. */
  lemma DryRunCaptures(cfg: Config, world: World, log: seq<Entry>, now: int, v: Event)
    requires IsRun(cfg, world, log, now) && cfg.dryRun && v in FlatMap(EventsOf(), log)
    ensures IsCapture(v) && cfg.diagnosticsPath != ""
  {
    hide IsRun, RanAll, Happened;
    DryRunRemembersNothing(cfg, world, log, now);
    var m := EventSource(log, v);
    RunPrefix(cfg, world, log, now, m);
    assert log[m].events == [] && v in log[m].captured;
  }

  // ---------------------------------------------------------------- accounting

  datatype Kind = KindUntriggered | KindOnCooldown | KindDryRun | KindFailed | KindExecuted

  function KindOf(o: Outcome): Kind {
    match o
    case Untriggered => KindUntriggered
    case OnCooldown => KindOnCooldown
    case DryRunSkipped => KindDryRun
    case Failed(_) => KindFailed
    case Executed => KindExecuted
  }

  function Of(name: string): Entry -> bool {
    (e: Entry) => e.Name() == name
  }

  function Firing(name: string): Entry -> bool {
    (e: Entry) => e.Name() == name && e.Fires()
  }

  function Kinded(name: string, kind: Kind): Entry -> bool {
    (e: Entry) => e.Name() == name && KindOf(e.outcome) == kind
  }

  function Multiplicity(actions: seq<string>, action: string): nat {
    if actions == [] then 0 else Multiplicity(Init(actions), action) + if Last(actions) == action then 1 else 0
  }

  /** How often an action was counted for a policy. */
  function ActionTotal(log: seq<Entry>, name: string, action: string): nat {
    if log == [] then 0 else
      ActionTotal(Init(log), name, action)
      + if Records(Last(log), name) then Multiplicity(Last(log).decision.actions, action) else 0
  }

  /** The policy metrics. */
  datatype Counters = Counters(
    evaluations: map<string, nat>, triggers: map<string, nat>, actions: map<(string, string), nat>)

  function Get<K>(m: map<K, nat>, k: K): nat {
    if k in m then m[k] else 0
  }

  function Bump<K>(m: map<K, nat>, k: K): map<K, nat> {
    m[k := Get(m, k) + 1]
  }

  ghost predicate Counted(c: Counters, log: seq<Entry>) {
    && (forall name :: Get(c.evaluations, name) == |Filter(Of(name), log)|)
    && (forall name :: Get(c.triggers, name) == |Filter(Firing(name), log)|)
    && (forall name, action :: Get(c.actions, (name, action)) == ActionTotal(log, name, action))
  }

  function BumpActions(m: map<(string, string), nat>, name: string, actions: seq<string>): map<(string, string), nat> {
    if actions == [] then m else Bump(BumpActions(m, name, Init(actions)), (name, Last(actions)))
  }

  function Acted(c: Counters, d: Decision): Counters {
    c.(actions := BumpActions(c.actions, d.policyName, d.actions))
  }

  /** The metrics after one more entry. */
  function Count(c: Counters, e: Entry): Counters {
    Counters(
      Bump(c.evaluations, e.Name()),
      if e.Fires() then Bump(c.triggers, e.Name()) else c.triggers,
      if e.outcome.Executed? then BumpActions(c.actions, e.Name(), e.decision.actions) else c.actions)
  }

  lemma {:induction false} BumpActionsCounts(
    m: map<(string, string), nat>, name: string, actions: seq<string>, n: string, a: string)
    ensures Get(BumpActions(m, name, actions), (n, a)) ==
      Get(m, (n, a)) + if n == name then Multiplicity(actions, a) else 0
  {
    if actions != [] {
      BumpActionsCounts(m, name, Init(actions), n, a);
    }
  }

  lemma CountedAppend(c: Counters, log: seq<Entry>, e: Entry)
    requires Counted(c, log)
    ensures Counted(Count(c, e), log + [e])
  {
    var c', log' := Count(c, e), log + [e];
    assert Init(log') == log;
    forall name
      ensures Get(c'.evaluations, name) == |Filter(Of(name), log')|
      ensures Get(c'.triggers, name) == |Filter(Firing(name), log')|
    {
      FilterAppend(Of(name), log, e);
      FilterAppend(Firing(name), log, e);
    }
    forall name, action
      ensures Get(c'.actions, (name, action)) == ActionTotal(log', name, action)
    {
      BumpActionsCounts(c.actions, e.Name(), e.decision.actions, name, action);
    }
  }

  /** Conservation over every run with metrics: every evaluation is untriggered, suppressed or a trigger;
      every trigger is skipped in dry-run, failed or executed; exactly the error-free executions are remembered;
      and an action is counted once per error-free execution and occurrence in the policy. */
  lemma {:induction false} Accounting(c: Counters, log: seq<Entry>, name: string, actions: seq<string>, action: string)
    requires Counted(c, log)
    requires forall i :: 0 <= i < |log| && log[i].Name() == name ==> log[i].decision.actions == actions
    ensures Get(c.evaluations, name) ==
      |Filter(Kinded(name, KindUntriggered), log)| + |Filter(Kinded(name, KindOnCooldown), log)| + Get(c.triggers, name)
    ensures Get(c.triggers, name) ==
      |Filter(Kinded(name, KindDryRun), log)| + |Filter(Kinded(name, KindFailed), log)|
      + |Filter(Kinded(name, KindExecuted), log)|
    ensures |Recordings(log, name)| == |Filter(Kinded(name, KindExecuted), log)|
    ensures Get(c.actions, (name, action)) == |Filter(Kinded(name, KindExecuted), log)| * Multiplicity(actions, action)
  {
    KindsSplit(log, name);
    TotalsMultiply(log, name, actions, action);
  }

  /** In dry-run nothing is executed, and outside it nothing is skipped. */
  lemma {:induction false} KindsByMode(cfg: Config, world: World, log: seq<Entry>, now: int, name: string)
    requires IsRun(cfg, world, log, now)
    ensures if cfg.dryRun then Filter(Kinded(name, KindExecuted), log) == [] && Filter(Kinded(name, KindFailed), log) == []
            else Filter(Kinded(name, KindDryRun), log) == []
  {
    hide RanAll, Happened;
    if log != [] {
      KindsByMode(cfg, world, Init(log), Last(log).at, name);
    }
  }

  lemma {:induction false} KindsSplit(log: seq<Entry>, name: string)
    ensures |Filter(Of(name), log)| ==
      |Filter(Kinded(name, KindUntriggered), log)| + |Filter(Kinded(name, KindOnCooldown), log)|
      + |Filter(Firing(name), log)|
    ensures |Filter(Firing(name), log)| ==
      |Filter(Kinded(name, KindDryRun), log)| + |Filter(Kinded(name, KindFailed), log)|
      + |Filter(Kinded(name, KindExecuted), log)|
    ensures |Recordings(log, name)| == |Filter(Kinded(name, KindExecuted), log)|
  {
    if log != [] {
      KindsSplit(Init(log), name);
    }
  }

  lemma {:induction false} TotalsMultiply(log: seq<Entry>, name: string, actions: seq<string>, action: string)
    requires forall i :: 0 <= i < |log| && log[i].Name() == name ==> log[i].decision.actions == actions
    ensures ActionTotal(log, name, action) == |Recordings(log, name)| * Multiplicity(actions, action)
  {
    hide Multiplicity;
    if log != [] {
      TotalsMultiply(Init(log), name, actions, action);
      if Records(Last(log), name) {
        assert log[|log| - 1].decision.actions == actions;
        OneMoreTimes(|Recordings(Init(log), name)|, Multiplicity(actions, action));
      }
    }
  }

  lemma OneMoreTimes(n: nat, k: nat)
    ensures (n + 1) * k == n * k + k
  {
  }

  // ---------------------------------------------------------------- signals

  /** An event that is not a signal sent on request. */
  function FromPolicy(): Event -> bool {
    (e: Event) => !(e.Attempt? && e.sender.ByRequest?)
  }

  function EventsOf(): Entry -> seq<Event> {
    (e: Entry) => e.AllEvents()
  }

  /** Apart from signals on request, the host's trace is what the entries of the log did, one after the other. */
  ghost predicate Accounted(trace: seq<Event>, log: seq<Entry>) {
    Filter(FromPolicy(), trace) == FlatMap(EventsOf(), log)
  }

  lemma AccountedAppend(cfg: Config, world: World, last: map<string, int>, trace: seq<Event>, log: seq<Entry>, e: Entry)
    requires Accounted(trace, log) && Legal(cfg, world, last, e)
    ensures Accounted(trace + e.AllEvents(), log + [e])
  {
    hide RanAll;
    FilterConcat(FromPolicy(), trace, e.AllEvents());
    FlatMapAppend(EventsOf(), log, e);
    if e.Acts() {
      RanAllTrace(cfg, e.decision, e.events, if e.outcome.Failed? then e.outcome.errs else []);
    }
    FilterKeepsAll(FromPolicy(), e.AllEvents());
  }

  lemma {:induction false} EventSource(log: seq<Entry>, v: Event) returns (m: nat)
    requires v in FlatMap(EventsOf(), log)
    ensures m < |log| && v in log[m].AllEvents()
  {
    if v in Last(log).AllEvents() {
      m := |log| - 1;
    } else {
      m := EventSource(Init(log), v);
    }
  }

  /** In every run each SIGKILL of a policy follows a SIGTERM to the same PID by at least the grace period,
      within the same execution of the policy. */
  lemma ExecutionKillsJustified(cfg: Config, world: World, log: seq<Entry>, now: int, m: nat)
    requires IsRun(cfg, world, log, now) && m < |log|
    ensures KillsJustified(cfg.gracePeriod, log[m].events) && KillsJustified(cfg.gracePeriod, log[m].AllEvents())
  {
    hide RanAll, KillsJustified;
    RunPrefix(cfg, world, log, now, m);
    var e := log[m];
    if e.Acts() {
      RanAllTrace(cfg, e.decision, e.events, if e.outcome.Failed? then e.outcome.errs else []);
    } else {
      NothingToJustify(cfg.gracePeriod, e.events);
    }
    NothingToJustify(cfg.gracePeriod, e.captured);
    KillsJustifiedConcat(cfg.gracePeriod, e.captured, e.events);
  }

  /** And so it does in the sequence of all that was done for policies. */
  lemma {:induction false} RunKillsJustified(cfg: Config, world: World, log: seq<Entry>, now: int)
    requires IsRun(cfg, world, log, now)
    ensures KillsJustified(cfg.gracePeriod, FlatMap(EventsOf(), log))
  {
    hide Legal, KillsJustified;
    if log == [] {
      NothingToJustify(cfg.gracePeriod, []);
    } else {
      RunKillsJustified(cfg, world, Init(log), Last(log).at);
      ExecutionKillsJustified(cfg, world, log, now, |log| - 1);
      KillsJustifiedConcat(cfg.gracePeriod, FlatMap(EventsOf(), Init(log)), Last(log).AllEvents());
    }
  }

  lemma NothingToJustify(grace: int, es: seq<Event>)
    requires forall v :: v in es ==> !v.Attempt?
    ensures KillsJustified(grace, es)
  {
  }

  /** A signal comes from an entry whose actions were run: its policy's terminate action, to one of its targets. */
  lemma SignalHasEntry(cfg: Config, world: World, log: seq<Entry>, now: int, v: Event) returns (m: nat)
    requires IsRun(cfg, world, log, now) && v in FlatMap(EventsOf(), log) && v.Attempt?
    ensures m < |log| && v in log[m].events && log[m].Acts() && log[m].at <= v.at <= log[m].until
    ensures v.sender == ByPolicy(log[m].Name()) && v.pid in log[m].decision.pids && "terminate" in log[m].decision.actions
  {
    hide RanAll, IsRun, LastTriggers, FlatMap, KillsJustified;
    m := EventSource(log, v);
    RunPrefix(cfg, world, log, now, m);
    var e := log[m];
    RanAllTrace(cfg, e.decision, e.events, if e.outcome.Failed? then e.outcome.errs else []);
    var k :| 0 <= k < |e.events| && e.events[k] == v;
  }

  /** In every run each wait is that of one termination, and lasts exactly the grace period
      and what the environment adds, or only the latter when cancelled. */
  lemma WaitsAreGrace(cfg: Config, world: World, log: seq<Entry>, now: int, v: Event) returns (m: nat)
    requires IsRun(cfg, world, log, now) && v in FlatMap(EventsOf(), log) && v.Wait?
    ensures m < |log| && v in log[m].events && log[m].Acts()
    ensures v.until == v.from + world.delay(v.tick) + if v.cancelled then 0 else Max0(cfg.gracePeriod)
  {
    hide RanAll, IsRun, LastTriggers, FlatMap;
    m := EventSource(log, v);
    RunPrefix(cfg, world, log, now, m);
    var e := log[m];
    ErrorFreeExactly(cfg, e.decision, e.events, if e.outcome.Failed? then e.outcome.errs else []);
  }

  /** In every run a decision whose actions are run, terminate among them, has SIGTERM attempted on each of its targets. */
  lemma ActedTargetsTermed(cfg: Config, world: World, log: seq<Entry>, now: int, m: nat, pid: int)
    requires IsRun(cfg, world, log, now) && m < |log| && log[m].Acts()
    requires "terminate" in log[m].decision.actions && pid in log[m].decision.pids
    ensures exists v :: v in log[m].events && IsAttempt(v, ByPolicy(log[m].Name()), pid, Term)
  {
    hide RanAll, IsRun, LastTriggers;
    RunPrefix(cfg, world, log, now, m);
    var e := log[m];
    TargetsTermed(cfg, e.decision, e.events, if e.outcome.Failed? then e.outcome.errs else [], pid);
  }

  /** The event comes at least the cooldown after every trigger its policy recorded in the entries before. */
  ghost predicate ClearOfCooldown(cfg: Config, before: seq<Entry>, name: string, at: int) {
    forall i :: 0 <= i < |before| && Records(before[i], name) ==> at - before[i].until >= cfg.cooldown
  }

  /** No policy signals within the cooldown after a trigger it recorded in an earlier entry,
      and in dry-run no policy signals at all. */
  lemma SignalsRespectCooldown(cfg: Config, world: World, log: seq<Entry>, now: int, v: Event) returns (m: nat)
    requires IsRun(cfg, world, log, now) && v in FlatMap(EventsOf(), log) && v.Attempt?
    ensures !cfg.dryRun
    ensures m < |log| && v in log[m].events && v.sender == ByPolicy(log[m].Name())
    ensures ClearOfCooldown(cfg, log[..m], log[m].Name(), v.at)
  {
    m := SignalHasEntry(cfg, world, log, now, v);
    RunPrefix(cfg, world, log, now, m);
    forall i | 0 <= i < m && Records(log[..m][i], log[m].Name())
      ensures v.at - log[..m][i].until >= cfg.cooldown
    {
      CooldownRespected(cfg, world, log, now, i, m);
    }
  }

  /** In every run, an error-free execution with a terminate action leaves no target unhandled. */
  lemma ExecutedTargetsHandled(cfg: Config, world: World, log: seq<Entry>, now: int, m: nat, pid: int, end: nat)
    requires IsRun(cfg, world, log, now) && m < |log| && log[m].outcome.Executed?
    requires "terminate" in log[m].decision.actions && pid in log[m].decision.pids
    requires forall v :: v in log[m].AllEvents() ==> v.tick < end
    requires Honest(world) && NotReused(world, pid)
    ensures Handled(world, ByPolicy(log[m].Name()), log[m].events, pid, end)
  {
    hide RanAll, Honest, NotReused;
    RunPrefix(cfg, world, log, now, m);
    TerminatedTargetsHandled(cfg, world, log[m].decision, log[m].events, pid, end);
  }

  // ---------------------------------------------------------------- checks

  /** One published check. */
  datatype Check = Check(trigger: string, snapshot: Snapshot, decisions: seq<Decision>)

  ghost predicate Published(cfg: Config, c: Check) {
    Indexed(c.snapshot) && PossibleEvaluation(cfg.policies, c.snapshot, c.decisions)
  }

  function DecisionsOf(): Check -> seq<Decision> {
    (c: Check) => c.decisions
  }

  function DecisionOf(): Entry -> Decision {
    (e: Entry) => e.decision
  }

  /** The log of a daemon that has processed these checks completely. */
  ghost predicate Processed(cfg: Config, checks: seq<Check>, log: seq<Entry>) {
    && (forall i :: 0 <= i < |checks| ==> Published(cfg, checks[i]))
    && Map(DecisionOf(), log) == FlatMap(DecisionsOf(), checks)
  }

  /** The decision at this position of the log is one of the decisions of this check. */
  ghost predicate InCheck(checks: seq<Check>, m: nat, i: nat) {
    && i < |checks|
    && |FlatMap(DecisionsOf(), checks[..i])| <= m < |FlatMap(DecisionsOf(), checks[..i + 1])|
  }

  /** The decisions processed are those of the checks, position by position. */
  lemma {:induction false} DecisionSource(checks: seq<Check>, m: nat) returns (i: nat)
    requires m < |FlatMap(DecisionsOf(), checks)|
    ensures InCheck(checks, m, i) && FlatMap(DecisionsOf(), checks)[m] in checks[i].decisions
  {
    var front := Init(checks);
    assert checks[..|checks|] == checks && checks[..|front|] == front;
    if m >= |FlatMap(DecisionsOf(), front)| {
      i := |front|;
    } else {
      i := DecisionSource(front, m);
      assert front[..i] == checks[..i] && front[..i + 1] == checks[..i + 1];
    }
  }

  /** A log position belongs to one check only. */
  lemma InCheckUnique(checks: seq<Check>, m: nat, i: nat, j: nat)
    requires InCheck(checks, m, i) && InCheck(checks, m, j)
    ensures i == j
  {
    if i < j {
      MoreDecisions(checks, i + 1, j);
    } else if j < i {
      MoreDecisions(checks, j + 1, i);
    }
  }

  lemma MoreDecisions(checks: seq<Check>, i: nat, j: nat)
    requires i <= j <= |checks|
    ensures |FlatMap(DecisionsOf(), checks[..i])| <= |FlatMap(DecisionsOf(), checks[..j])|
  {
    FlatMapConcat(DecisionsOf(), checks[..i], checks[i..j]);
    assert checks[..i] + checks[i..j] == checks[..j];
  }

  /** The snapshot holds a process with this PID, the policy's process name and an allowed parent,
      and the policy's threshold and load conditions were reached in it. */
  ghost predicate Justifies(policy: Policy, s: Snapshot, pid: int) {
    && (exists p :: p in s.processes && p.pid == pid && p.name == policy.process && ParentAllowed(policy, p.parentName))
    && |Filter(Matches(policy), s.processes)| >= policy.maxCount && LoadReached(policy, s.load)
  }

  /** End to end, from the process list to the signal: a signal of a policy belongs to an execution, and goes to a PID
      that the very check that led to this execution had found in its process list under the policy's process name
      and with an allowed parent, when the policy's threshold and both its load conditions were reached.
      The policy is enabled and lists the action. */
  lemma SignalsReachBackToSnapshot(cfg: Config, world: World, checks: seq<Check>, log: seq<Entry>, now: int, v: Event)
    returns (m: nat, i: nat)
    requires Processed(cfg, checks, log) && IsRun(cfg, world, log, now)
    requires v in FlatMap(EventsOf(), log) && v.Attempt?
    ensures m < |log| && v in log[m].events && log[m].Acts() && log[m].at <= v.at <= log[m].until
    ensures v.sender == ByPolicy(log[m].Name()) && log[m].Name() in cfg.policies
    ensures InCheck(checks, m, i)
    ensures var policy := cfg.policies[log[m].Name()];
      && policy.IsEnabled() && "terminate" in policy.actions
      && log[m].decision == Judge(log[m].Name(), policy, checks[i].snapshot)
      && Justifies(policy, checks[i].snapshot, v.pid)
  {
    m := SignalHasEntry(cfg, world, log, now, v);
    i := LoggedDecision(cfg, checks, log, m);
    TargetsMatch(log[m].Name(), cfg.policies[log[m].Name()], checks[i].snapshot, v.pid);
  }

  /** Every logged decision is the judgement of an enabled policy on the snapshot of the check it belongs to. */
  lemma LoggedDecision(cfg: Config, checks: seq<Check>, log: seq<Entry>, m: nat) returns (i: nat)
    requires Processed(cfg, checks, log) && m < |log|
    ensures InCheck(checks, m, i) && Published(cfg, checks[i]) && log[m].decision in checks[i].decisions
    ensures var name := log[m].Name();
      && name in cfg.policies && cfg.policies[name].IsEnabled()
      && log[m].decision == Judge(name, cfg.policies[name], checks[i].snapshot)
      && log[m].decision.actions == cfg.policies[name].actions
  {
    hide Judge, Published;
    assert Map(DecisionOf(), log)[m] == log[m].decision;
    i := DecisionSource(checks, m);
    PublishedDecision(cfg, checks[i], log[m].decision);
  }

  /** With a validated configuration, every run: no execution meets an unknown action,
      and everything that triggers has at least as many targets as its positive threshold. */
  lemma ValidatedRun(cfg: Config, world: World, checks: seq<Check>, log: seq<Entry>, now: int, m: nat)
    requires ValidConfig(cfg) && Processed(cfg, checks, log) && IsRun(cfg, world, log, now) && m < |log|
    ensures log[m].outcome.Failed? ==> forall f :: f in log[m].outcome.errs ==>
      !f.1.UnknownAction? && f.0 in log[m].decision.actions && f.0 in KNOWN_ACTIONS
    ensures log[m].decision.triggered ==>
      log[m].Name() in cfg.policies && |log[m].decision.pids| >= cfg.policies[log[m].Name()].maxCount >= 1
  {
    hide PossibleEvaluation, Indexed, RanAll, Happened, Judge;
    var e := log[m];
    RunPrefix(cfg, world, log, now, m);
    var i := LoggedDecision(cfg, checks, log, m);
    if e.decision.triggered {
      ValidatedTriggersHaveTargets(cfg, checks[i].snapshot, checks[i].decisions, e.decision);
      if e.outcome.Failed? {
        ValidatedExecution(cfg, checks[i].snapshot, checks[i].decisions, e.decision, e.events, e.outcome.errs);
      }
    }
  }

  lemma PublishedDecision(cfg: Config, c: Check, d: Decision)
    requires Published(cfg, c) && d in c.decisions
    ensures d.policyName in cfg.policies && cfg.policies[d.policyName].IsEnabled()
    ensures d == Judge(d.policyName, cfg.policies[d.policyName], c.snapshot)
    ensures d.actions == cfg.policies[d.policyName].actions
  {
    hide Judge, PossibleEvaluation, Indexed;
    OneDecisionPerEnabledPolicy(cfg.policies, c.snapshot, c.decisions);
  }

  /** All entries of a policy carry its configured actions: the premise of `Accounting`. */
  lemma EntriesCarryPolicyActions(cfg: Config, checks: seq<Check>, log: seq<Entry>, i: nat)
    requires Processed(cfg, checks, log) && i < |log|
    ensures log[i].Name() in cfg.policies && log[i].decision.actions == cfg.policies[log[i].Name()].actions
  {
    var _ := LoggedDecision(cfg, checks, log, i);
  }
}
