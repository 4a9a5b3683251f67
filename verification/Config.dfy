/** Configuration and its validation (internal/config/config.go). Durations are nanoseconds. */
module Config {
  import opened Lists

  const SECOND := 1_000_000_000

  const KNOWN_ACTIONS := {"log", "notify", "terminate", "diagnose", "sample", "spindump"}

  datatype Conditions = Conditions(minLoad1: real, minLoad5: real, parentProcess: string, excludeParents: seq<string>)

  datatype Policy = Policy(
    process: string, maxCount: int, conditions: Option<Conditions>,
    actions: seq<string>, priority: int, enabled: Option<bool>)
  {
    /** A policy without the setting is enabled. */
    predicate IsEnabled() {
      enabled.None? || enabled.value
    }
  }

  datatype Config = Config(
    periodicInterval: int, loadPollInterval: int, loadThreshold: real, diagnosticsPath: string,
    dryRun: bool, gracePeriod: int, cooldown: int, policies: map<string, Policy>)

  datatype PolicyProblem = ProcessRequired | MaxCountNotPositive | NoActions | UnknownAction(action: string)

  datatype ConfigProblem =
    | PeriodicIntervalTooShort
    | LoadPollIntervalTooShort
    | LoadThresholdNotPositive
    | GracePeriodNegative
    | InPolicy(name: string, problem: PolicyProblem)

  predicate ValidPolicy(p: Policy) {
    p.process != "" && p.maxCount > 0 && p.actions != [] && forall a :: a in p.actions ==> a in KNOWN_ACTIONS
  }

  /** What a reported problem says about the policy; at most one problem is reported per policy. */
  predicate IsProblemOf(p: Policy, problem: PolicyProblem) {
    match problem
    case ProcessRequired => p.process == ""
    case MaxCountNotPositive => p.process != "" && p.maxCount <= 0
    case NoActions => p.process != "" && p.maxCount > 0 && p.actions == []
    case UnknownAction(a) =>
      && p.process != "" && p.maxCount > 0
      && exists k :: 0 <= k < |p.actions| && p.actions[k] == a && a !in KNOWN_ACTIONS
                  && forall j :: 0 <= j < k ==> p.actions[j] in KNOWN_ACTIONS
  }

  predicate ValidConfig(cfg: Config) {
    && cfg.periodicInterval >= SECOND
    && cfg.loadPollInterval >= SECOND
    && cfg.loadThreshold > 0.0
    && cfg.gracePeriod >= 0
    && forall name :: name in cfg.policies ==> ValidPolicy(cfg.policies[name])
  }

  method ValidatePolicy(p: Policy) returns (r: Option<PolicyProblem>)
    ensures r.None? <==> ValidPolicy(p)
    ensures r.None? <==>
      && p.process != "" && p.maxCount > 0 && |p.actions| > 0
      && forall k :: 0 <= k < |p.actions| ==>
           p.actions[k] in {"log", "notify", "terminate", "diagnose", "sample", "spindump"}
    ensures r.Some? ==> IsProblemOf(p, r.value)
  {
    if p.process == "" {
      return Some(ProcessRequired);
    }
    if p.maxCount <= 0 {
      return Some(MaxCountNotPositive);
    }
    if |p.actions| == 0 {
      return Some(NoActions);
    }
    for k := 0 to |p.actions|
      invariant forall j :: 0 <= j < k ==> p.actions[j] in KNOWN_ACTIONS
    {
      if p.actions[k] !in KNOWN_ACTIONS {
        return Some(UnknownAction(p.actions[k]));
      }
    }
    return None;
  }

  /** The policies are visited in an arbitrary order, so which policy's problem is reported is open;
      whether one is reported is not. */
  method Validate(cfg: Config) returns (r: Option<ConfigProblem>)
    ensures r.None? <==> ValidConfig(cfg)
    ensures r.None? <==>
      && cfg.periodicInterval >= 1_000_000_000 && cfg.loadPollInterval >= 1_000_000_000
      && cfg.loadThreshold > 0.0 && cfg.gracePeriod >= 0
      && forall name :: name in cfg.policies ==> ValidPolicy(cfg.policies[name])
    ensures cfg.periodicInterval < 1_000_000_000 <==> r == Some(PeriodicIntervalTooShort)
    ensures r == Some(LoadPollIntervalTooShort) <==>
      cfg.periodicInterval >= 1_000_000_000 && cfg.loadPollInterval < 1_000_000_000
    ensures r == Some(LoadThresholdNotPositive) <==>
      cfg.periodicInterval >= 1_000_000_000 && cfg.loadPollInterval >= 1_000_000_000 && cfg.loadThreshold <= 0.0
    ensures r == Some(GracePeriodNegative) <==>
      && cfg.periodicInterval >= 1_000_000_000 && cfg.loadPollInterval >= 1_000_000_000
      && cfg.loadThreshold > 0.0 && cfg.gracePeriod < 0
    ensures r.Some? && r.value.InPolicy? ==>
      r.value.name in cfg.policies && IsProblemOf(cfg.policies[r.value.name], r.value.problem)
  {
    if cfg.periodicInterval < SECOND {
      return Some(PeriodicIntervalTooShort);
    }
    if cfg.loadPollInterval < SECOND {
      return Some(LoadPollIntervalTooShort);
    }
    if cfg.loadThreshold <= 0.0 {
      return Some(LoadThresholdNotPositive);
    }
    if cfg.gracePeriod < 0 {
      return Some(GracePeriodNegative);
    }
    var remaining := cfg.policies.Keys;
    while remaining != {}
      invariant remaining <= cfg.policies.Keys
      invariant forall name :: name in cfg.policies && name !in remaining ==> ValidPolicy(cfg.policies[name])
      decreases remaining
    {
      var name :| name in remaining;
      var problem := ValidatePolicy(cfg.policies[name]);
      if problem.Some? {
        return Some(InPolicy(name, problem.value));
      }
      remaining := remaining - {name};
    }
    return None;
  }

  /** A policy has at most one reportable problem, and has one exactly when it is not valid. */
  lemma ProblemUnique(p: Policy, a: PolicyProblem, b: PolicyProblem)
    requires IsProblemOf(p, a) && IsProblemOf(p, b)
    ensures a == b && !ValidPolicy(p)
  {
    if a.UnknownAction? && b.UnknownAction? {
      var i :| 0 <= i < |p.actions| && p.actions[i] == a.action && a.action !in KNOWN_ACTIONS
            && forall j :: 0 <= j < i ==> p.actions[j] in KNOWN_ACTIONS;
      var k :| 0 <= k < |p.actions| && p.actions[k] == b.action && b.action !in KNOWN_ACTIONS
            && forall j :: 0 <= j < k ==> p.actions[j] in KNOWN_ACTIONS;
      assert i == k;
    }
  }
}
