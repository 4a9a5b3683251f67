/** Policy evaluation (internal/policy/engine.go). */
module Engine {
  import opened Lists
  import opened Sysctl
  import opened Config
  import opened Collector
  import Cedar
  import opened Convert

  datatype Reason =
    | BelowThreshold(count: nat, threshold: int)
    | Load1Below(load: real, minimum: real)
    | Load5Below(load: real, minimum: real)
    | CedarDenied
    | Reached(process: string, count: nat, threshold: int)

  datatype Decision = Decision(
    policyName: string, triggered: bool, reason: Reason, actions: seq<string>, pids: seq<int>, processName: string)

  datatype Engine = Engine(policies: map<string, Policy>, policySet: seq<Cedar.Policy>)
  {
    ghost predicate Compiled() {
      IsCompilation(policies, policySet)
    }
  }

  method NewEngine(policies: map<string, Policy>) returns (e: Engine)
    ensures e.policies == policies && e.Compiled()
  {
    var policySet := ConvertToCedar(policies);
    e := Engine(policies, policySet);
  }

  // ---------------------------------------------------------------- one policy

  predicate ParentAllowed(policy: Policy, parent: string) {
    match policy.conditions
    case None => true
    case Some(c) => (c.parentProcess == "" || parent == c.parentProcess) && parent !in c.excludeParents
  }

  function Eligible(policy: Policy): ProcessInfo -> bool {
    (p: ProcessInfo) => ParentAllowed(policy, p.parentName)
  }

  function Matches(policy: Policy): ProcessInfo -> bool {
    (p: ProcessInfo) => p.name == policy.process && ParentAllowed(policy, p.parentName)
  }

  function PidOf(): ProcessInfo -> int {
    (p: ProcessInfo) => p.pid
  }

  /** The decision on the processes that passed the filters. */
  function DecideOn(name: string, policy: Policy, load: LoadAverage, selected: seq<ProcessInfo>): Decision {
    var no := (reason: Reason) => Decision(name, false, reason, policy.actions, [], policy.process);
    var min1 := if policy.conditions.Some? then policy.conditions.value.minLoad1 else 0.0;
    var min5 := if policy.conditions.Some? then policy.conditions.value.minLoad5 else 0.0;
    if |selected| < policy.maxCount then no(BelowThreshold(|selected|, policy.maxCount))
    else if min1 > 0.0 && load.load1 < min1 then no(Load1Below(load.load1, min1))
    else if min5 > 0.0 && load.load5 < min5 then no(Load5Below(load.load5, min5))
    else Decision(name, true, Reached(policy.process, |selected|, policy.maxCount),
                  policy.actions, Map(PidOf(), selected), policy.process)
  }

  /** Evaluation through the index by name, for any snapshot. */
  function Judge(name: string, policy: Policy, s: Snapshot): (d: Decision)
    ensures d.policyName == name && d.actions == policy.actions
  {
    DecideOn(name, policy, s.load, Filter(Eligible(policy), s.ProcessesByName(policy.process)))
  }

  /** The reference: a linear scan of the flat process list. */
  function Scan(name: string, policy: Policy, s: Snapshot): Decision {
    DecideOn(name, policy, s.load, Filter(Matches(policy), s.processes))
  }

  function ParentNamed(policy: Policy): ProcessInfo -> bool {
    (p: ProcessInfo) => policy.conditions.Some? && p.parentName == policy.conditions.value.parentProcess
  }

  /** The processes with the policy's name that pass its parent filters. */
  method SelectProcesses(policy: Policy, s: Snapshot) returns (processes: seq<ProcessInfo>)
    ensures processes == Filter(Eligible(policy), s.ProcessesByName(policy.process))
  {
    processes := s.ProcessesByName(policy.process);
    EligibleInTwoSteps(policy, processes);
    if policy.conditions.Some? {
      var c := policy.conditions.value;
      if c.parentProcess != "" {
        var filtered := [];
        for i := 0 to |processes|
          invariant filtered == Filter(ParentNamed(policy), processes[..i])
        {
          if processes[i].parentName == c.parentProcess {
            filtered := filtered + [processes[i]];
          }
          assert Init(processes[..i + 1]) == processes[..i];
        }
        assert processes[..|processes|] == processes;
        processes := filtered;
      }
      if |c.excludeParents| > 0 {
        processes := ExcludeByParents(processes, c.excludeParents);
      }
    }
  }

  method EvaluatePolicy(e: Engine, name: string, policy: Policy, s: Snapshot) returns (d: Decision)
    requires e.Compiled()
    ensures d == Judge(name, policy, s)
    ensures Indexed(s) ==> d == Scan(name, policy, s)
  {
    IndexRefinesScan(name, policy, s);
    d := Decision(name, false, CedarDenied, policy.actions, [], policy.process);
    var processes := SelectProcesses(policy, s);
    var count := |processes|;
    if count < policy.maxCount {
      d := d.(reason := BelowThreshold(count, policy.maxCount));
      return;
    }
    if policy.conditions.Some? {
      var c := policy.conditions.value;
      if c.minLoad1 > 0.0 && s.load.load1 < c.minLoad1 {
        d := d.(reason := Load1Below(s.load.load1, c.minLoad1));
        return;
      }
      if c.minLoad5 > 0.0 && s.load.load5 < c.minLoad5 {
        d := d.(reason := Load5Below(s.load.load5, c.minLoad5));
        return;
      }
    }
    var authorized := AuthorizeWithCedar(e, policy, s, count);
    if !authorized {
      d := d.(reason := CedarDenied);
      return;
    }
    d := d.(triggered := true, reason := Reached(policy.process, count, policy.maxCount));
    var pids := [];
    for i := 0 to |processes|
      invariant pids == Map(PidOf(), processes[..i])
    {
      pids := pids + [processes[i].pid];
    }
    d := d.(pids := pids);
    assert pids == Map(PidOf(), processes);
  }

  function AuthorizeWithCedar(e: Engine, policy: Policy, s: Snapshot, count: nat): (authorized: bool)
    requires e.Compiled()
    ensures authorized
  {
    var req := DaemonRequest(policy, s.load, s.cpuCount, count);
    TerminateAlwaysAllowed(e.policies, e.policySet, req);
    Cedar.Allows(e.policySet, req)
  }

  /** The two optional filters of the engine amount to one. */
  lemma EligibleInTwoSteps(policy: Policy, ps: seq<ProcessInfo>)
    ensures policy.conditions.None? ==> Filter(Eligible(policy), ps) == ps
    ensures policy.conditions.Some? ==>
      var c := policy.conditions.value;
      var named := if c.parentProcess != "" then Filter(ParentNamed(policy), ps) else ps;
      Filter(Eligible(policy), ps) ==
        if c.excludeParents != [] then Filter(ParentNotIn(c.excludeParents), named) else named
  {
    match policy.conditions
    case None => FilterKeepsAll(Eligible(policy), ps);
    case Some(c) =>
      if c.parentProcess != "" {
        if c.excludeParents != [] {
          FilterCompose(ParentNamed(policy), ParentNotIn(c.excludeParents), Eligible(policy), ps);
        } else {
          FilterCongruence(ParentNamed(policy), Eligible(policy), ps);
        }
      } else if c.excludeParents != [] {
        FilterCongruence(ParentNotIn(c.excludeParents), Eligible(policy), ps);
      } else {
        FilterKeepsAll(Eligible(policy), ps);
      }
  }

  /** On every collected snapshot evaluation through the index equals the linear scan. */
  lemma IndexRefinesScan(name: string, policy: Policy, s: Snapshot)
    ensures Indexed(s) ==> Judge(name, policy, s) == Scan(name, policy, s)
  {
    if Indexed(s) {
      GroupIsFilter(s.processes, policy.process);
      FilterCompose(NameIs(policy.process), Eligible(policy), Matches(policy), s.processes);
    }
  }

  predicate Load1Short(policy: Policy, load: LoadAverage) {
    policy.conditions.Some? && policy.conditions.value.minLoad1 > 0.0 && load.load1 < policy.conditions.value.minLoad1
  }

  predicate Load5Short(policy: Policy, load: LoadAverage) {
    policy.conditions.Some? && policy.conditions.value.minLoad5 > 0.0 && load.load5 < policy.conditions.value.minLoad5
  }

  /** What a decision means for the flat list: it triggers exactly when enough processes have the policy's name and an
      allowed parent and both loads are reached; its PIDs are those of exactly these processes, in order;
      otherwise its reason is the first guard that failed, with the values it compared. */
  lemma DecisionMeaning(name: string, policy: Policy, s: Snapshot)
    requires Indexed(s)
    ensures var d := Judge(name, policy, s);
      var selected := Filter(Matches(policy), s.processes);
      && (d.triggered <==> |selected| >= policy.maxCount && LoadReached(policy, s.load))
      && d.pids == (if d.triggered then Map(PidOf(), selected) else [])
      && (d.reason == BelowThreshold(|selected|, policy.maxCount) <==> |selected| < policy.maxCount)
      && (d.reason.Load1Below? <==> |selected| >= policy.maxCount && Load1Short(policy, s.load))
      && (d.reason.Load1Below? ==> d.reason == Load1Below(s.load.load1, policy.conditions.value.minLoad1))
      && (d.reason.Load5Below? <==>
            |selected| >= policy.maxCount && !Load1Short(policy, s.load) && Load5Short(policy, s.load))
      && (d.reason.Load5Below? ==> d.reason == Load5Below(s.load.load5, policy.conditions.value.minLoad5))
      && (d.reason == Reached(policy.process, |selected|, policy.maxCount) <==> d.triggered) && d.reason != CedarDenied
      && d.policyName == name && d.actions == policy.actions && d.processName == policy.process
  {
    IndexRefinesScan(name, policy, s);
  }

  /** Every PID of a triggered decision belongs to a process of the list with the policy's name and an allowed parent. */
  lemma TargetsMatch(name: string, policy: Policy, s: Snapshot, pid: int)
    requires Indexed(s) && pid in Judge(name, policy, s).pids
    ensures exists p :: p in s.processes && p.pid == pid && p.name == policy.process && ParentAllowed(policy, p.parentName)
    ensures |Filter(Matches(policy), s.processes)| >= policy.maxCount && LoadReached(policy, s.load)
  {
    DecisionMeaning(name, policy, s);
    var selected := Filter(Matches(policy), s.processes);
    var k :| 0 <= k < |selected| && Map(PidOf(), selected)[k] == pid;
    FilterMembers(Matches(policy), s.processes, selected[k]);
  }

  /** The targets, process by process: the PIDs of exactly those in the list with the policy's name, with the parent
      it requires if it does, and without a parent it excludes. They are as many as these processes. */
  lemma TargetsExactly(name: string, policy: Policy, s: Snapshot)
    requires Indexed(s) && Judge(name, policy, s).triggered
    ensures forall pid :: pid in Judge(name, policy, s).pids <==>
      exists p :: p in s.processes && p.pid == pid && p.name == policy.process
        && (policy.conditions.Some? && policy.conditions.value.parentProcess != "" ==>
              p.parentName == policy.conditions.value.parentProcess)
        && (policy.conditions.Some? ==> p.parentName !in policy.conditions.value.excludeParents)
    ensures |Judge(name, policy, s).pids| == |Filter(Matches(policy), s.processes)| >= policy.maxCount
  {
    hide Judge;
    DecisionMeaning(name, policy, s);
    var selected := Filter(Matches(policy), s.processes);
    FilterElements(Matches(policy), s.processes);
    forall p | p in selected
      ensures p.pid in Map(PidOf(), selected)
    {
      var k :| 0 <= k < |selected| && selected[k] == p;
      assert Map(PidOf(), selected)[k] == p.pid;
    }
    forall pid | pid in Map(PidOf(), selected)
      ensures exists p :: p in selected && p.pid == pid
    {
      var k :| 0 <= k < |selected| && Map(PidOf(), selected)[k] == pid;
      assert selected[k] in selected;
    }
  }

  // ---------------------------------------------------------------- all policies

  function PriorityOf(policies: map<string, Policy>): string -> int {
    (name: string) => if name in policies then policies[name].priority else 0
  }

  /** An order in which the policies may be evaluated: each once, by nonincreasing priority, ties in any order. */
  ghost predicate EvaluationOrder(policies: map<string, Policy>, names: seq<string>) {
    && NoDuplicates(names)
    && (forall name :: name in names <==> name in policies)
    && NonIncreasing(Map(PriorityOf(policies), names))
  }

  /** The names collected from the map and sorted by priority. The sort is not stable and the map has no order,
      so any name of highest priority among those left may come next. */
  method NamesByPriority(policies: map<string, Policy>) returns (names: seq<string>)
    ensures EvaluationOrder(policies, names)
    ensures forall name :: name in names <==> name in policies
    ensures forall i, j :: 0 <= i < j < |names| ==>
      names[i] != names[j] && policies[names[i]].priority >= policies[names[j]].priority
  {
    names := [];
    var remaining := policies.Keys;
    while remaining != {}
      invariant remaining <= policies.Keys && NoDuplicates(names)
      invariant forall name :: name in names <==> name in policies && name !in remaining
      invariant forall i, j :: 0 <= i < j < |names| ==> policies[names[i]].priority >= policies[names[j]].priority
      invariant forall i, name :: 0 <= i < |names| && name in remaining ==>
        policies[names[i]].priority >= policies[name].priority
      decreases remaining
    {
      HighestExists(policies, remaining);
      var next :|
        next in remaining && forall name :: name in remaining ==> policies[name].priority <= policies[next].priority;
      names := names + [next];
      remaining := remaining - {next};
    }
  }

  lemma {:induction false} HighestExists(policies: map<string, Policy>, names: set<string>)
    requires names != {} && names <= policies.Keys
    ensures exists top :: top in names && forall name :: name in names ==> policies[name].priority <= policies[top].priority
  {
    var some :| some in names;
    if names != {some} {
      var others := names - {some};
      HighestExists(policies, others);
      var top :| top in others && forall name :: name in others ==> policies[name].priority <= policies[top].priority;
      assert forall name :: name in names ==> name == some || name in others;
      var best := if policies[some].priority > policies[top].priority then some else top;
      assert best in names && forall name :: name in names ==> policies[name].priority <= policies[best].priority;
    } else {
      assert forall name :: name in names ==> name == some;
    }
  }

  /** The decision on one policy, none when it is disabled. */
  function JudgeEnabled(policies: map<string, Policy>, s: Snapshot): string -> seq<Decision> {
    (name: string) => if name in policies && policies[name].IsEnabled() then [Judge(name, policies[name], s)] else []
  }

  ghost predicate PossibleEvaluation(policies: map<string, Policy>, s: Snapshot, ds: seq<Decision>) {
    exists names :: EvaluationOrder(policies, names) && ds == FlatMap(JudgeEnabled(policies, s), names)
  }

  method Evaluate(e: Engine, s: Snapshot) returns (decisions: seq<Decision>)
    requires e.Compiled()
    ensures PossibleEvaluation(e.policies, s, decisions)
    ensures forall name ::
      name in e.policies && (e.policies[name].enabled == None || e.policies[name].enabled == Some(true)) ==>
      exists i :: 0 <= i < |decisions| && decisions[i].policyName == name
    ensures forall i :: 0 <= i < |decisions| ==>
      decisions[i].policyName in e.policies && e.policies[decisions[i].policyName].enabled != Some(false)
    ensures forall i, j :: 0 <= i < j < |decisions| ==> decisions[i].policyName != decisions[j].policyName
    ensures forall i, j :: 0 <= i < j < |decisions| ==>
      e.policies[decisions[i].policyName].priority >= e.policies[decisions[j].policyName].priority
  {
    decisions := [];
    var names := NamesByPriority(e.policies);
    for i := 0 to |names|
      invariant decisions == FlatMap(JudgeEnabled(e.policies, s), names[..i])
    {
      assert Init(names[..i + 1]) == names[..i];
      var policy := e.policies[names[i]];
      if !policy.IsEnabled() {
        continue;
      }
      var decision := EvaluatePolicy(e, names[i], policy, s);
      decisions := decisions + [decision];
    }
    assert names[..|names|] == names;
    OneForEachSwitchedOn(e.policies, s, decisions);
  }

  function NameOf(): Decision -> string {
    (d: Decision) => d.policyName
  }

  function DecisionPriority(policies: map<string, Policy>): Decision -> int {
    (d: Decision) => PriorityOf(policies)(d.policyName)
  }

  lemma {:induction false} DecisionsOfNames(policies: map<string, Policy>, s: Snapshot, names: seq<string>, d: Decision)
    ensures d in FlatMap(JudgeEnabled(policies, s), names) <==>
      d.policyName in names && d.policyName in policies && policies[d.policyName].IsEnabled()
      && d == Judge(d.policyName, policies[d.policyName], s)
  {
    hide Judge;
    if names != [] {
      var front, last := Init(names), Last(names);
      DecisionsOfNames(policies, s, front, d);
      InitLast(names);
      assert d.policyName in names <==> d.policyName in front || d.policyName == last;
      assert d in FlatMap(JudgeEnabled(policies, s), names) <==>
        d in FlatMap(JudgeEnabled(policies, s), front) || d in JudgeEnabled(policies, s)(last);
    }
  }

  lemma {:induction false} DecisionsFollowNames(policies: map<string, Policy>, s: Snapshot, names: seq<string>)
    requires NoDuplicates(names) && NonIncreasing(Map(PriorityOf(policies), names))
    ensures var ds := FlatMap(JudgeEnabled(policies, s), names);
      NoDuplicates(Map(NameOf(), ds)) && NonIncreasing(Map(DecisionPriority(policies), ds))
  {
    hide Judge;
    if names != [] {
      var front, last := Init(names), Last(names);
      var before := FlatMap(JudgeEnabled(policies, s), front);
      assert Map(PriorityOf(policies), front) == Init(Map(PriorityOf(policies), names));
      DecisionsFollowNames(policies, s, front);
      var added := JudgeEnabled(policies, s)(last);
      assert FlatMap(JudgeEnabled(policies, s), names) == before + added;
      if added == [] {
        assert before + added == before;
      } else {
        assert added == [added[0]];
        forall i | 0 <= i < |before|
          ensures before[i].policyName != last
          ensures PriorityOf(policies)(before[i].policyName) >= PriorityOf(policies)(last)
        {
          DecisionsOfNames(policies, s, front, before[i]);
          EarlierNames(policies, names, before[i].policyName);
        }
        AppendDecision(policies, before, added[0]);
      }
    }
  }

  lemma EarlierNames(policies: map<string, Policy>, names: seq<string>, name: string)
    requires names != [] && NoDuplicates(names) && NonIncreasing(Map(PriorityOf(policies), names))
    requires name in Init(names)
    ensures name != Last(names) && PriorityOf(policies)(name) >= PriorityOf(policies)(Last(names))
  {
    var k :| 0 <= k < |names| - 1 && names[k] == name;
    var ranks := Map(PriorityOf(policies), names);
    assert ranks[k] >= ranks[|names| - 1];
  }

  lemma AppendDecision(policies: map<string, Policy>, before: seq<Decision>, d: Decision)
    requires NoDuplicates(Map(NameOf(), before)) && NonIncreasing(Map(DecisionPriority(policies), before))
    requires forall i :: 0 <= i < |before| ==>
      before[i].policyName != d.policyName
      && PriorityOf(policies)(before[i].policyName) >= PriorityOf(policies)(d.policyName)
    ensures NoDuplicates(Map(NameOf(), before + [d])) && NonIncreasing(Map(DecisionPriority(policies), before + [d]))
  {
    assert Map(NameOf(), before + [d]) == Map(NameOf(), before) + [d.policyName];
    assert Map(DecisionPriority(policies), before + [d])
        == Map(DecisionPriority(policies), before) + [PriorityOf(policies)(d.policyName)];
  }

  /** Every evaluation has exactly one decision per enabled policy, the one its judgement gives,
      and lists them by nonincreasing priority. */
  lemma OneDecisionPerEnabledPolicy(policies: map<string, Policy>, s: Snapshot, ds: seq<Decision>)
    requires PossibleEvaluation(policies, s, ds)
    ensures NoDuplicates(Map(NameOf(), ds))
    ensures NonIncreasing(Map(DecisionPriority(policies), ds))
    ensures forall d :: d in ds <==>
      d.policyName in policies && policies[d.policyName].IsEnabled() && d == Judge(d.policyName, policies[d.policyName], s)
  {
    var names :| EvaluationOrder(policies, names) && ds == FlatMap(JudgeEnabled(policies, s), names);
    DecisionsFollowNames(policies, s, names);
    forall d { DecisionsOfNames(policies, s, names, d); }
  }

  /** Spelled out: exactly one decision for every policy that is not switched off, the setting being optional,
      none for the others, and none before one of higher priority. */
  lemma OneForEachSwitchedOn(policies: map<string, Policy>, s: Snapshot, ds: seq<Decision>)
    requires PossibleEvaluation(policies, s, ds)
    ensures forall name :: name in policies && (policies[name].enabled == None || policies[name].enabled == Some(true)) ==>
      exists i :: 0 <= i < |ds| && ds[i].policyName == name
    ensures forall i :: 0 <= i < |ds| ==>
      ds[i].policyName in policies && policies[ds[i].policyName].enabled != Some(false)
    ensures forall i, j :: 0 <= i < j < |ds| ==> ds[i].policyName != ds[j].policyName
    ensures forall i, j :: 0 <= i < j < |ds| ==>
      policies[ds[i].policyName].priority >= policies[ds[j].policyName].priority
  {
    hide PossibleEvaluation, Judge;
    OneDecisionPerEnabledPolicy(policies, s, ds);
    forall name | name in policies && policies[name].enabled != Some(false)
      ensures exists i :: 0 <= i < |ds| && ds[i].policyName == name
    {
      assert Judge(name, policies[name], s) in ds;
    }
    assert forall i :: 0 <= i < |ds| ==> ds[i] in ds && Map(NameOf(), ds)[i] == ds[i].policyName;
    forall i, j | 0 <= i < j < |ds|
      ensures policies[ds[i].policyName].priority >= policies[ds[j].policyName].priority
    {
      var ranks := Map(DecisionPriority(policies), ds);
      assert ranks[i] >= ranks[j];
      assert ds[i] in ds && ds[j] in ds;
      RankIsPriority(policies, ds[i]);
      RankIsPriority(policies, ds[j]);
    }
  }

  lemma RankIsPriority(policies: map<string, Policy>, d: Decision)
    requires d.policyName in policies
    ensures DecisionPriority(policies)(d) == policies[d.policyName].priority
  {
    assert PriorityOf(policies)(d.policyName) == policies[d.policyName].priority;
  }

  function Singleton<T, U>(f: T -> U): T -> seq<U> {
    (x: T) => [f(x)]
  }

  lemma {:induction false} MapIsFlatMap<T, U>(f: T -> U, s: seq<T>)
    ensures Map(f, s) == FlatMap(Singleton(f), s)
  {
    if s != [] {
      MapIsFlatMap(f, Init(s));
      assert Map(f, s) == Map(f, Init(s)) + [f(Last(s))];
    }
  }

  /** Two evaluations of one snapshot differ only in the order of equal priorities:
      they hold the same decisions and the same sequence of priorities. */
  lemma EvaluationsAgree(policies: map<string, Policy>, s: Snapshot, a: seq<Decision>, b: seq<Decision>)
    requires PossibleEvaluation(policies, s, a) && PossibleEvaluation(policies, s, b)
    ensures multiset(a) == multiset(b)
    ensures Map(DecisionPriority(policies), a) == Map(DecisionPriority(policies), b)
  {
    var m :| EvaluationOrder(policies, m) && a == FlatMap(JudgeEnabled(policies, s), m);
    var n :| EvaluationOrder(policies, n) && b == FlatMap(JudgeEnabled(policies, s), n);
    SameElements(m, n);
    FlatMapPermutation(JudgeEnabled(policies, s), m, n);
    DecisionsFollowNames(policies, s, m);
    DecisionsFollowNames(policies, s, n);
    var priority := DecisionPriority(policies);
    MapIsFlatMap(priority, a);
    MapIsFlatMap(priority, b);
    FlatMapPermutation(Singleton(priority), a, b);
    NonIncreasingUnique(Map(priority, a), Map(priority, b));
  }

  // ---------------------------------------------------------------- thresholds

  /** With a validated configuration every triggered decision has at least as many targets as its positive threshold,
      and only known actions. */
  lemma ValidatedTriggersHaveTargets(cfg: Config, s: Snapshot, ds: seq<Decision>, d: Decision)
    requires ValidConfig(cfg) && Indexed(s) && PossibleEvaluation(cfg.policies, s, ds)
    requires d in ds && d.triggered
    ensures d.policyName in cfg.policies && |d.pids| >= cfg.policies[d.policyName].maxCount >= 1
    ensures forall a :: a in d.actions ==> a in KNOWN_ACTIONS
  {
    OneDecisionPerEnabledPolicy(cfg.policies, s, ds);
    DecisionMeaning(d.policyName, cfg.policies[d.policyName], s);
  }

  /** Validation is what excludes empty targets: a decision triggers without PIDs
      exactly when nothing matches, the threshold is not positive and the loads are reached. */
  lemma TriggersWithoutTargets(name: string, policy: Policy, s: Snapshot)
    requires Indexed(s)
    ensures Judge(name, policy, s).triggered && Judge(name, policy, s).pids == [] <==>
      policy.maxCount <= 0 && Filter(Matches(policy), s.processes) == [] && LoadReached(policy, s.load)
  {
    DecisionMeaning(name, policy, s);
  }

  /** More processes with the same parent names and no lower loads never turn a trigger off,
      and the old targets remain among the new ones, in order. */
  lemma TriggerMonotone(name: string, policy: Policy, s: Snapshot, t: Snapshot)
    requires Indexed(s) && Indexed(t) && Subsequence(s.processes, t.processes)
    requires s.load.load1 <= t.load.load1 && s.load.load5 <= t.load.load5
    requires Judge(name, policy, s).triggered
    ensures Judge(name, policy, t).triggered
    ensures Subsequence(Judge(name, policy, s).pids, Judge(name, policy, t).pids)
  {
    DecisionMeaning(name, policy, s);
    DecisionMeaning(name, policy, t);
    FilterMonotone(Matches(policy), s.processes, t.processes);
    SubsequenceLength(Filter(Matches(policy), s.processes), Filter(Matches(policy), t.processes));
    MapSubsequence(PidOf(), Filter(Matches(policy), s.processes), Filter(Matches(policy), t.processes));
  }

  function PidIn(pids: set<int>): ProcessInfo -> bool {
    (p: ProcessInfo) => p.pid in pids
  }

  function ResolveWith(index: map<int, ProcessInfo>): ProcessInfo -> ProcessInfo {
    (p: ProcessInfo) => ResolveParent(p, index)
  }

  lemma {:induction false} IndexOfKept(kept: set<int>, ps: seq<ProcessInfo>, pid: int)
    requires pid in kept
    ensures pid in IndexByPID(ps) <==> pid in IndexByPID(Filter(PidIn(kept), ps))
    ensures pid in IndexByPID(ps) ==> IndexByPID(ps)[pid] == IndexByPID(Filter(PidIn(kept), ps))[pid]
  {
    if ps != [] {
      IndexOfKept(kept, Init(ps), pid);
      var before := Filter(PidIn(kept), Init(ps));
      assert Init(before + [Last(ps)]) == before;
    }
  }

  lemma {:induction false} FilterOfMap(f: ProcessInfo -> ProcessInfo, kept: set<int>, ps: seq<ProcessInfo>)
    requires forall p: ProcessInfo :: f(p).pid == p.pid
    ensures Filter(PidIn(kept), Map(f, ps)) == Map(f, Filter(PidIn(kept), ps))
  {
    if ps != [] {
      FilterOfMap(f, kept, Init(ps));
      assert Init(Map(f, ps)) == Map(f, Init(ps));
      assert Map(f, ps) != [] && Last(Map(f, ps)) == f(Last(ps));
    }
  }

  lemma {:induction false} FilterSubsequence(keep: ProcessInfo -> bool, ps: seq<ProcessInfo>)
    ensures Subsequence(Filter(keep, ps), ps)
  {
    if ps != [] {
      FilterSubsequence(keep, Init(ps));
      if keep(Last(ps)) {
        assert Init(Filter(keep, ps)) == Filter(keep, Init(ps));
      }
    }
  }

  lemma SameParent(kept: set<int>, ps: seq<ProcessInfo>, p: ProcessInfo)
    requires forall q :: q in ps && q.pid == p.ppid ==> q.pid in kept
    ensures ResolveParent(p, IndexByPID(ps)) == ResolveParent(p, IndexByPID(Filter(PidIn(kept), ps)))
  {
    var before := Filter(PidIn(kept), ps);
    if p.ppid in kept {
      IndexOfKept(kept, ps, p.ppid);
    } else {
      LastProcessWins(ps, p.ppid);
      LastProcessWins(before, p.ppid);
      forall i | 0 <= i < |before|
        ensures before[i].pid != p.ppid
      {
        FilterMembers(PidIn(kept), ps, before[i]);
      }
    }
  }

  /** Processes added to a raw list under PIDs that no old process has as its parent leave every old process,
      resolved parent name included, where it was: the premise of `TriggerMonotone` on raw lists. */
  lemma NewcomersKeepParents(kept: set<int>, more: seq<ProcessInfo>)
    requires forall p, q :: p in more && p.pid in kept && q in more && q.pid == p.ppid ==> q.pid in kept
    ensures Subsequence(Resolved(Filter(PidIn(kept), more)), Resolved(more))
  {
    var before := Filter(PidIn(kept), more);
    var f := ResolveWith(IndexByPID(more));
    forall i | 0 <= i < |before|
      ensures ResolveParent(before[i], IndexByPID(before)) == f(before[i])
    {
      FilterMembers(PidIn(kept), more, before[i]);
      SameParent(kept, more, before[i]);
    }
    assert Resolved(more) == Map(f, more);
    assert Resolved(before) == Map(f, before);
    FilterOfMap(f, kept, more);
    FilterSubsequence(PidIn(kept), Map(f, more));
  }

  // ---------------------------------------------------------------- newcomers

  /** `t` was collected from the processes of `s` and from newcomers, under PIDs not in `kept`, anywhere in the list. */
  ghost predicate Joined(kept: set<int>, more: RawList, s: Snapshot, t: Snapshot) {
    s.processes == Resolved(Filter(PidIn(kept), more)) && t.processes == Resolved(more)
  }

  /** Two collected snapshots, the later one with newcomers and at loads no lower. */
  ghost predicate Grown(s: Snapshot, t: Snapshot) {
    && Indexed(s) && Indexed(t)
    && s.load.load1 <= t.load.load1 && s.load.load5 <= t.load.load5
    && exists kept, more :: Joined(kept, more, s, t)
  }

  /** A process whose parent is unknown and that passes the parent filters would pass them under any parent. */
  predicate Steady(policy: Policy) {
    match policy.conditions
    case None => true
    case Some(c) => c.parentProcess != "" || c.excludeParents == [] || "" in c.excludeParents
  }

  ghost predicate KeepsTriggers(name: string, policy: Policy) {
    forall s, t :: Grown(s, t) && Judge(name, policy, s).triggered ==> Judge(name, policy, t).triggered
  }

  ghost predicate KeepsTargets(name: string, policy: Policy) {
    forall s, t :: Grown(s, t) ==> Subsequence(Judge(name, policy, s).pids, Judge(name, policy, t).pids)
  }

  /** Newcomers can turn a trigger of a policy off exactly when it excludes some parents, not the unknown one,
      requires none, and has a positive threshold. */
  lemma TriggersKeptExactly(name: string, policy: Policy)
    ensures KeepsTriggers(name, policy) <==> Steady(policy) || policy.maxCount <= 0
  {
    hide Grown;
    if Steady(policy) || policy.maxCount <= 0 {
      forall s, t | Grown(s, t) && Judge(name, policy, s).triggered
        ensures Judge(name, policy, t).triggered
      {
        if Steady(policy) {
          SteadyKeepsTargets(name, policy, s, t);
        } else {
          LoadsStayReached(name, policy, s, t);
        }
      }
    } else {
      var s, t := UnsteadyLosesTargets(name, policy);
    }
  }

  /** Newcomers can take targets away from a policy exactly when it is not steady. */
  lemma TargetsKeptExactly(name: string, policy: Policy)
    ensures KeepsTargets(name, policy) <==> Steady(policy)
  {
    hide Grown;
    if Steady(policy) {
      forall s, t | Grown(s, t)
        ensures Subsequence(Judge(name, policy, s).pids, Judge(name, policy, t).pids)
      {
        SteadyKeepsTargets(name, policy, s, t);
      }
    } else {
      var s, t := UnsteadyLosesTargets(name, policy);
    }
  }

  lemma LoadsStayReached(name: string, policy: Policy, s: Snapshot, t: Snapshot)
    requires Grown(s, t) && Judge(name, policy, s).triggered && policy.maxCount <= 0
    ensures Judge(name, policy, t).triggered
  {
    DecisionMeaning(name, policy, s);
    DecisionMeaning(name, policy, t);
  }

  function MatchesUnder(policy: Policy, index: map<int, ProcessInfo>): ProcessInfo -> bool {
    (p: ProcessInfo) => Matches(policy)(ResolveParent(p, index))
  }

  function KeptAndMatches(policy: Policy, index: map<int, ProcessInfo>, kept: set<int>): ProcessInfo -> bool {
    (p: ProcessInfo) => p.pid in kept && Matches(policy)(ResolveParent(p, index))
  }

  /** The PIDs selected from a resolved list can be selected before it is resolved. */
  lemma {:induction false} SelectedBeforeResolving(policy: Policy, index: map<int, ProcessInfo>, ps: seq<ProcessInfo>)
    ensures Map(PidOf(), Filter(Matches(policy), Map(ResolveWith(index), ps)))
         == Map(PidOf(), Filter(MatchesUnder(policy, index), ps))
  {
    if ps != [] {
      var f := ResolveWith(index);
      SelectedBeforeResolving(policy, index, Init(ps));
      assert Map(f, ps) == Map(f, Init(ps)) + [f(Last(ps))];
      FilterAppend(Matches(policy), Map(f, Init(ps)), f(Last(ps)));
      var front := Filter(Matches(policy), Map(f, Init(ps)));
      assert Map(PidOf(), front + [f(Last(ps))]) == Map(PidOf(), front) + [Last(ps).pid];
    }
  }

  lemma {:induction false} FilterWider(narrow: ProcessInfo -> bool, wide: ProcessInfo -> bool, ps: seq<ProcessInfo>)
    requires forall p :: p in ps && narrow(p) ==> wide(p)
    ensures Subsequence(Filter(narrow, ps), Filter(wide, ps))
  {
    if ps != [] {
      FilterWider(narrow, wide, Init(ps));
      var before := Filter(wide, Init(ps));
      assert wide(Last(ps)) ==> Init(before + [Last(ps)]) == before;
      if narrow(Last(ps)) {
        assert Init(Filter(narrow, Init(ps)) + [Last(ps)]) == Filter(narrow, Init(ps));
      }
    }
  }

  lemma SteadyAllows(policy: Policy, parent: string)
    requires Steady(policy) && ParentAllowed(policy, "")
    ensures ParentAllowed(policy, parent)
  {
  }

  /** A process of a steady policy still matches when newcomers have made more parents known. */
  lemma SteadyStillMatches(policy: Policy, kept: set<int>, more: RawList, p: ProcessInfo)
    requires Steady(policy) && p in more
    requires KeptAndMatches(policy, IndexByPID(Filter(PidIn(kept), more)), kept)(p)
    ensures MatchesUnder(policy, IndexByPID(more))(p)
  {
    var before := Filter(PidIn(kept), more);
    assert Matches(policy)(ResolveParent(p, IndexByPID(before)));
    if p.ppid in kept {
      IndexOfKept(kept, more, p.ppid);
      assert ResolveParent(p, IndexByPID(before)) == ResolveParent(p, IndexByPID(more));
    } else {
      LastProcessWins(before, p.ppid);
      forall i | 0 <= i < |before|
        ensures before[i].pid != p.ppid
      {
        FilterMembers(PidIn(kept), more, before[i]);
      }
      assert ResolveParent(p, IndexByPID(before)) == p && p.parentName == "";
      SteadyAllows(policy, ResolveParent(p, IndexByPID(more)).parentName);
      assert Matches(policy)(ResolveParent(p, IndexByPID(more)));
    }
  }

  lemma SteadyMatches(policy: Policy, kept: set<int>, more: RawList)
    requires Steady(policy)
    ensures Subsequence(Map(PidOf(), Filter(Matches(policy), Resolved(Filter(PidIn(kept), more)))),
                        Map(PidOf(), Filter(Matches(policy), Resolved(more))))
  {
    hide IndexByPID, Filter, Matches, Subsequence, Steady;
    var before := Filter(PidIn(kept), more);
    var index, grown := IndexByPID(before), IndexByPID(more);
    assert Resolved(before) == Map(ResolveWith(index), before);
    assert Resolved(more) == Map(ResolveWith(grown), more);
    SelectedBeforeResolving(policy, index, before);
    SelectedBeforeResolving(policy, grown, more);
    FilterCompose(PidIn(kept), MatchesUnder(policy, index), KeptAndMatches(policy, index, kept), more);
    forall p | p in more && KeptAndMatches(policy, index, kept)(p)
      ensures MatchesUnder(policy, grown)(p)
    {
      SteadyStillMatches(policy, kept, more, p);
    }
    FilterWider(KeptAndMatches(policy, index, kept), MatchesUnder(policy, grown), more);
    MapSubsequence(PidOf(), Filter(KeptAndMatches(policy, index, kept), more), Filter(MatchesUnder(policy, grown), more));
  }

  lemma SteadyKeepsTargets(name: string, policy: Policy, s: Snapshot, t: Snapshot)
    requires Steady(policy) && Grown(s, t)
    ensures Judge(name, policy, s).triggered ==> Judge(name, policy, t).triggered
    ensures Subsequence(Judge(name, policy, s).pids, Judge(name, policy, t).pids)
  {
    hide Resolved, Steady, Indexed, Judge;
    var kept, more :| Joined(kept, more, s, t);
    SteadyMatches(policy, kept, more);
    DecisionMeaning(name, policy, s);
    DecisionMeaning(name, policy, t);
    var before, after := Filter(Matches(policy), s.processes), Filter(Matches(policy), t.processes);
    SubsequenceLength(Map(PidOf(), before), Map(PidOf(), after));
  }

  /** Children of a process that is not listed, and that process: its own parent, under an excluded name. */
  function Children(process: string, n: nat): (ps: RawList)
    ensures |ps| == n
    ensures forall k :: 0 <= k < n ==> ps[k] == ProcessInfo(k + 2, 1, process, "", "", 0)
  {
    seq(n, k => ProcessInfo(k + 2, 1, process, "", "", 0))
  }

  function Adopter(name: string): ProcessInfo {
    ProcessInfo(1, 1, name, "", "", 0)
  }

  function CollectedAt(load: LoadAverage, raw: RawList): Snapshot {
    Snapshot(load, 0, NO_MEMORY, Resolved(raw), GroupByName(Resolved(raw)), IndexByPID(raw))
  }

  lemma CollectedAtIndexed(load: LoadAverage, raw: RawList)
    ensures Indexed(CollectedAt(load, raw))
  {
    assert CollectedAt(load, raw).processes == Resolved(raw) && CollectedAt(load, raw).byPID == IndexByPID(raw);
  }

  /** Without their parent all children match; once it is listed nothing does. */
  lemma AdoptionUnmatches(policy: Policy, adopter: string, n: nat)
    requires policy.conditions.Some? && policy.conditions.value.parentProcess == ""
    requires adopter in policy.conditions.value.excludeParents && "" !in policy.conditions.value.excludeParents
    ensures Filter(Matches(policy), Resolved(Children(policy.process, n))) == Children(policy.process, n)
    ensures Filter(Matches(policy), Resolved(Children(policy.process, n) + [Adopter(adopter)])) == []
  {
    var children, parent := Children(policy.process, n), Adopter(adopter);
    LastProcessWins(children, 1);
    assert Resolved(children) == children;
    FilterKeepsAll(Matches(policy), children);
    assert Init(children + [parent]) == children;
    assert IndexByPID(children + [parent])[1] == parent;
    NoneKept(Matches(policy), Resolved(children + [parent]));
  }

  lemma AdoptionGrows(process: string, adopter: string, n: nat, load: LoadAverage) returns (s: Snapshot, t: Snapshot)
    ensures Grown(s, t) && s.load == t.load == load
    ensures s.processes == Resolved(Children(process, n))
    ensures t.processes == Resolved(Children(process, n) + [Adopter(adopter)])
  {
    hide Resolved, IndexByPID, GroupByName, Indexed, Filter;
    var children: RawList, all: RawList := Children(process, n), Children(process, n) + [Adopter(adopter)];
    var kept := set p | p in children :: p.pid;
    FilterAppend(PidIn(kept), children, Adopter(adopter));
    FilterKeepsAll(PidIn(kept), children);
    assert all == children + [Adopter(adopter)] && Filter(PidIn(kept), all) == children;
    s, t := CollectedAt(load, children), CollectedAt(load, all);
    CollectedAtIndexed(load, children);
    CollectedAtIndexed(load, all);
    assert Joined(kept, all, s, t);
  }

  /** A policy that is not steady loses all its targets, and its trigger unless the threshold is not positive,
      when the excluded parent of as many processes as the threshold asks for becomes known. */
  lemma UnsteadyLosesTargets(name: string, policy: Policy) returns (s: Snapshot, t: Snapshot)
    requires !Steady(policy)
    ensures Grown(s, t) && Judge(name, policy, s).triggered && Judge(name, policy, s).pids != []
    ensures Judge(name, policy, t).pids == [] && (Judge(name, policy, t).triggered <==> policy.maxCount <= 0)
  {
    hide Resolved, Judge, Matches;
    var c := policy.conditions.value;
    var n := if policy.maxCount > 1 then policy.maxCount else 1;
    s, t := AdoptionGrows(policy.process, c.excludeParents[0], n, LoadAverage(c.minLoad1, c.minLoad5, 0.0));
    AdoptionUnmatches(policy, c.excludeParents[0], n);
    DecisionMeaning(name, policy, s);
    DecisionMeaning(name, policy, t);
  }

  /** Monotonicity from the raw lists on: collecting the old processes and newcomers at loads no lower keeps every
      trigger and every target, of a steady policy always, and of any policy when no old process
      has a newcomer as its parent. */
  lemma NewcomersNeverUntrigger(name: string, policy: Policy, kept: set<int>, more: RawList,
                                before: Inputs, after: Inputs)
    requires before.processes == Ok(Filter(PidIn(kept), more)) && after.processes == Ok(more)
    requires Steady(policy) || forall p, q :: p in more && p.pid in kept && q in more && q.pid == p.ppid ==> q.pid in kept
    requires SnapshotOf(before).load.load1 <= SnapshotOf(after).load.load1
    requires SnapshotOf(before).load.load5 <= SnapshotOf(after).load.load5
    requires Judge(name, policy, SnapshotOf(before)).triggered
    ensures Judge(name, policy, SnapshotOf(after)).triggered
    ensures Subsequence(Judge(name, policy, SnapshotOf(before)).pids, Judge(name, policy, SnapshotOf(after)).pids)
  {
    hide Judge, GetLoadAverage, GetMemoryStats, Resolved, GroupByName, IndexByPID;
    CollectedIsIndexed(before);
    CollectedIsIndexed(after);
    if Steady(policy) {
      assert Joined(kept, more, SnapshotOf(before), SnapshotOf(after));
      SteadyKeepsTargets(name, policy, SnapshotOf(before), SnapshotOf(after));
    } else {
      NewcomersKeepParents(kept, more);
      TriggerMonotone(name, policy, SnapshotOf(before), SnapshotOf(after));
    }
  }
}
