/** Compilation of configured policies to Cedar (internal/policy/convert.go)
    and the request the engine puts to it (internal/policy/engine.go). */
module Convert {
  import opened Lists
  import opened Sysctl
  import opened Config
  import Cedar

  const DAEMON := Cedar.Entity("WorkloadGuard", "daemon")
  const TERMINATE := Cedar.Entity("Action", "terminate")

  const DEFAULT_PERMIT :=
    Cedar.Policy("default-permit", Cedar.Permit, Cedar.Is(DAEMON), Cedar.Is(TERMINATE), Cedar.Any, None)

  function Truncate(x: real): int {
    if x >= 0.0 then x.Floor else -((-x).Floor)
  }

  /** The conversion int64(x): truncation toward zero, saturating outside the range. */
  function Int64Of(x: real): int {
    if x >= TWO_63 as real then TWO_63 - 1 else if x < -(TWO_63 as real) then -TWO_63 else Truncate(x)
  }

  /** Between zero and the number, and less than one away from it. */
  lemma TruncatesTowardZero(x: real)
    ensures x >= 0.0 ==> 0.0 <= Truncate(x) as real <= x < Truncate(x) as real + 1.0
    ensures x <= 0.0 ==> Truncate(x) as real - 1.0 < x <= Truncate(x) as real <= 0.0
  {
    var below := (-x).Floor;
    assert x < 0.0 ==> below as real <= -x < below as real + 1.0;
  }

  function Attribute(name: string, minimum: int): Cedar.Expr {
    Cedar.AtLeast(Cedar.ContextAttribute(name), Cedar.Constant(Cedar.LongValue(minimum)))
  }

  function ProcessNameIs(process: string): Cedar.Expr {
    Cedar.Equal(Cedar.ContextAttribute("process_name"), Cedar.Constant(Cedar.StringValue(process)))
  }

  /** The clauses of the generated policy, in order. */
  function Clauses(policy: Policy): (es: seq<Cedar.Expr>)
    ensures es != []
  {
    [ProcessNameIs(policy.process), Attribute("process_count", policy.maxCount)]
    + (if policy.conditions.Some? && policy.conditions.value.minLoad1 > 0.0
       then [Attribute("load1", Int64Of(policy.conditions.value.minLoad1 * 100.0))] else [])
    + (if policy.conditions.Some? && policy.conditions.value.minLoad5 > 0.0
       then [Attribute("load5", Int64Of(policy.conditions.value.minLoad5 * 100.0))] else [])
  }

  function GenerateCedarPolicy(name: string, policy: Policy): Cedar.Policy {
    Cedar.Policy(name, Cedar.Permit, Cedar.Is(DAEMON), Cedar.Is(TERMINATE),
                 Cedar.Is(Cedar.Entity("Process", policy.process)), Some(Cedar.Conjunction(Clauses(policy))))
  }

  ghost predicate IsGenerated(policies: map<string, Policy>, p: Cedar.Policy) {
    exists name :: name in policies && policies[name].IsEnabled() && p == GenerateCedarPolicy(name, policies[name])
  }

  /** The compiled set: one permit per enabled policy, in some order, and then the default permit. */
  ghost predicate IsCompilation(policies: map<string, Policy>, ps: seq<Cedar.Policy>) {
    && ps != [] && Last(ps) == DEFAULT_PERMIT
    && forall p :: p in Init(ps) <==> IsGenerated(policies, p)
  }

  method ConvertToCedar(policies: map<string, Policy>) returns (ps: seq<Cedar.Policy>)
    ensures IsCompilation(policies, ps)
    ensures |ps| == |set name | name in policies && policies[name].IsEnabled()| + 1
    ensures forall name :: name in policies && (policies[name].enabled == None || policies[name].enabled == Some(true)) ==>
      exists k :: 0 <= k < |ps| - 1 && ps[k].id == name
    ensures forall k :: 0 <= k < |ps| - 1 ==>
      && ps[k].effect == Cedar.Permit
      && ps[k].id in policies && policies[ps[k].id].enabled != Some(false)
    ensures forall j, k :: 0 <= j < k < |ps| - 1 ==> ps[j].id != ps[k].id
  {
    hide GenerateCedarPolicy;
    ps := [];
    var remaining := policies.Keys;
    ghost var compiled: seq<string> := [];
    while remaining != {}
      invariant remaining <= policies.Keys && NoDuplicates(compiled)
      invariant forall name :: name in compiled <==> name in policies && name !in remaining && policies[name].IsEnabled()
      invariant |ps| == |compiled|
      invariant forall k :: 0 <= k < |ps| ==> ps[k] == GenerateCedarPolicy(compiled[k], policies[compiled[k]])
      decreases remaining
    {
      var name :| name in remaining;
      remaining := remaining - {name};
      if policies[name].IsEnabled() {
        ps := ps + [GenerateCedarPolicy(name, policies[name])];
        compiled := compiled + [name];
      }
    }
    assert forall name :: name in compiled <==> name in policies && policies[name].IsEnabled();
    PermitsByName(policies, compiled, ps);
    ps := ps + [DEFAULT_PERMIT];
    assert Init(ps) == ps[..|ps| - 1];
  }

  /** One generated permit for each of these names, each name once. */
  lemma PermitsByName(policies: map<string, Policy>, names: seq<string>, ps: seq<Cedar.Policy>)
    requires NoDuplicates(names) && |ps| == |names|
    requires forall name :: name in names <==> name in policies && policies[name].IsEnabled()
    requires forall k :: 0 <= k < |ps| ==> ps[k] == GenerateCedarPolicy(names[k], policies[names[k]])
    ensures forall p :: p in ps <==> IsGenerated(policies, p)
    ensures |ps| == |set name | name in policies && policies[name].IsEnabled()|
    ensures forall k :: 0 <= k < |ps| ==> ps[k].id == names[k] && ps[k].effect == Cedar.Permit
    ensures forall name :: name in policies && policies[name].enabled != Some(false) ==>
      exists k :: 0 <= k < |ps| && ps[k].id == name
    ensures forall j, k :: 0 <= j < k < |ps| ==> ps[j].id != ps[k].id
  {
    hide Clauses, Cedar.Conjunction;
    SizeOfSet(names);
    assert (set name | name in names) == set name | name in policies && policies[name].IsEnabled();
    forall name | name in policies && policies[name].enabled != Some(false)
      ensures exists k :: 0 <= k < |ps| && ps[k].id == name
    {
      assert name in names;
    }
    forall p
      ensures p in ps <==> IsGenerated(policies, p)
    {
      if IsGenerated(policies, p) {
        var name :| name in policies && policies[name].IsEnabled() && p == GenerateCedarPolicy(name, policies[name]);
        assert name in names;
      }
    }
  }

  // ---------------------------------------------------------------- the engine's request

  function Context(process: string, count: int, maxCount: int, load: LoadAverage, cpuCount: int)
    : map<string, Cedar.Value>
  {
    map["process_name" := Cedar.StringValue(process),
        "process_count" := Cedar.LongValue(count),
        "max_count" := Cedar.LongValue(maxCount),
        "load1" := Cedar.LongValue(Int64Of(load.load1 * 100.0)),
        "load5" := Cedar.LongValue(Int64Of(load.load5 * 100.0)),
        "load15" := Cedar.LongValue(Int64Of(load.load15 * 100.0)),
        "cpu_count" := Cedar.LongValue(cpuCount)]
  }

  function DaemonRequest(policy: Policy, load: LoadAverage, cpuCount: int, count: int): Cedar.Request {
    Cedar.Request(DAEMON, TERMINATE, Cedar.Entity("Process", policy.process),
                  Context(policy.process, count, policy.maxCount, load, cpuCount))
  }

  /** The load guards as the engine itself checks them. */
  predicate LoadReached(policy: Policy, load: LoadAverage) {
    match policy.conditions
    case None => true
    case Some(c) => (c.minLoad1 > 0.0 ==> load.load1 >= c.minLoad1) && (c.minLoad5 > 0.0 ==> load.load5 >= c.minLoad5)
  }

  /** The load guards as the generated Cedar policy checks them. */
  predicate ScaledLoadReached(policy: Policy, load: LoadAverage) {
    match policy.conditions
    case None => true
    case Some(c) =>
      && (c.minLoad1 > 0.0 ==> Int64Of(load.load1 * 100.0) >= Int64Of(c.minLoad1 * 100.0))
      && (c.minLoad5 > 0.0 ==> Int64Of(load.load5 * 100.0) >= Int64Of(c.minLoad5 * 100.0))
  }

  /** The default permit makes the set allow every terminate request of the daemon, whatever its context:
      the engine's last guard never rejects. */
  lemma TerminateAlwaysAllowed(policies: map<string, Policy>, ps: seq<Cedar.Policy>, req: Cedar.Request)
    requires IsCompilation(policies, ps)
    requires req.principal == Cedar.Entity("WorkloadGuard", "daemon") && req.action == Cedar.Entity("Action", "terminate")
    ensures Cedar.Allows(ps, req)
  {
    assert ps == Init(ps) + [DEFAULT_PERMIT];
    assert DEFAULT_PERMIT in ps && Cedar.Satisfied(DEFAULT_PERMIT, req);
  }

  lemma AttributeHolds(name: string, minimum: int, context: map<string, Cedar.Value>)
    requires name in context && context[name].LongValue?
    ensures Cedar.Holds(Attribute(name, minimum), context) <==> context[name].number >= minimum
  {
    assert Cedar.Eval(Cedar.ContextAttribute(name), context) == Some(context[name]);
    assert Cedar.Eval(Cedar.Constant(Cedar.LongValue(minimum)), context) == Some(Cedar.LongValue(minimum));
  }

  lemma ProcessNameHolds(process: string, context: map<string, Cedar.Value>)
    requires "process_name" in context
    ensures Cedar.Holds(ProcessNameIs(process), context) <==> context["process_name"] == Cedar.StringValue(process)
  {
    var name := Cedar.Constant(Cedar.StringValue(process));
    assert Cedar.Eval(Cedar.ContextAttribute("process_name"), context) == Some(context["process_name"]);
    assert Cedar.Eval(name, context) == Some(name.value);
  }

  predicate WellTyped(context: map<string, Cedar.Value>) {
    && "process_name" in context && context["process_name"].StringValue?
    && "process_count" in context && context["process_count"].LongValue?
    && "load1" in context && context["load1"].LongValue?
    && "load5" in context && context["load5"].LongValue?
  }

  lemma ClausesMeaning(policy: Policy, context: map<string, Cedar.Value>)
    requires WellTyped(context)
    ensures (forall i :: 0 <= i < |Clauses(policy)| ==> Cedar.Holds(Clauses(policy)[i], context)) <==>
      && context["process_name"].text == policy.process
      && context["process_count"].number >= policy.maxCount
      && (policy.conditions.Some? && policy.conditions.value.minLoad1 > 0.0 ==>
            context["load1"].number >= Int64Of(policy.conditions.value.minLoad1 * 100.0))
      && (policy.conditions.Some? && policy.conditions.value.minLoad5 > 0.0 ==>
            context["load5"].number >= Int64Of(policy.conditions.value.minLoad5 * 100.0))
  {
    var es := Clauses(policy);
    ProcessNameHolds(policy.process, context);
    AttributeHolds("process_count", policy.maxCount, context);
    assert es[0] == ProcessNameIs(policy.process) && es[1] == Attribute("process_count", policy.maxCount);
    if policy.conditions.Some? {
      var m1, m5 := Int64Of(policy.conditions.value.minLoad1 * 100.0), Int64Of(policy.conditions.value.minLoad5 * 100.0);
      AttributeHolds("load1", m1, context);
      AttributeHolds("load5", m5, context);
      assert policy.conditions.value.minLoad1 > 0.0 ==> es[2] == Attribute("load1", m1);
      assert policy.conditions.value.minLoad5 > 0.0 ==> es[|es| - 1] == Attribute("load5", m5);
    }
  }

  lemma ContextFields(policy: Policy, load: LoadAverage, cpuCount: int, count: int)
    ensures var context := DaemonRequest(policy, load, cpuCount, count).context;
      && WellTyped(context)
      && context["process_name"].text == policy.process && context["process_count"].number == count
      && context["load1"].number == Int64Of(load.load1 * 100.0) && context["load5"].number == Int64Of(load.load5 * 100.0)
  {
  }

  /** Meaning of a generated policy: it matches a request of the daemon exactly when the process is the policy's,
      the count reaches its threshold and the scaled loads reach its scaled minima. */
  lemma GeneratedPolicyMeaning(name: string, policy: Policy, asked: Policy, load: LoadAverage, cpuCount: int, count: int)
    ensures Cedar.Satisfied(GenerateCedarPolicy(name, policy), DaemonRequest(asked, load, cpuCount, count)) <==>
      asked.process == policy.process && count >= policy.maxCount && ScaledLoadReached(policy, load)
  {
    var req := DaemonRequest(asked, load, cpuCount, count);
    ContextFields(asked, load, cpuCount, count);
    Cedar.ConjunctionHolds(Clauses(policy), req.context);
    ClausesMeaning(policy, req.context);
  }

  lemma Int64OfMonotone(x: real, y: real)
    requires x <= y
    ensures Int64Of(x) <= Int64Of(y)
  {
  }

  /** Without the default permit the compiled set would still allow whatever the engine's own guards let through. */
  lemma GuardsImplyPermit(policies: map<string, Policy>, ps: seq<Cedar.Policy>, name: string,
                          load: LoadAverage, cpuCount: int, count: int)
    requires IsCompilation(policies, ps) && name in policies && policies[name].IsEnabled()
    requires count >= policies[name].maxCount && LoadReached(policies[name], load)
    ensures Cedar.Allows(Init(ps), DaemonRequest(policies[name], load, cpuCount, count))
  {
    var policy := policies[name];
    var own := GenerateCedarPolicy(name, policy);
    assert IsGenerated(policies, own);
    if policy.conditions.Some? {
      var c := policy.conditions.value;
      if c.minLoad1 > 0.0 { Int64OfMonotone(c.minLoad1 * 100.0, load.load1 * 100.0); }
      if c.minLoad5 > 0.0 { Int64OfMonotone(c.minLoad5 * 100.0, load.load5 * 100.0); }
    }
    GeneratedPolicyMeaning(name, policy, policy, load, cpuCount, count);
    assert own in Init(ps) && Cedar.Satisfied(own, DaemonRequest(policy, load, cpuCount, count));
  }

  /** Without the default permit the compiled set would allow a request exactly when some enabled policy for the same
      process has its threshold and scaled minima reached: nothing else permits, and nothing forbids. */
  lemma AllowedByPoliciesExactly(policies: map<string, Policy>, ps: seq<Cedar.Policy>, asked: Policy,
                                 load: LoadAverage, cpuCount: int, count: int)
    requires IsCompilation(policies, ps)
    ensures Cedar.Allows(Init(ps), DaemonRequest(asked, load, cpuCount, count)) <==>
      exists name :: name in policies && policies[name].enabled != Some(false)
        && policies[name].process == asked.process && count >= policies[name].maxCount
        && ScaledLoadReached(policies[name], load)
  {
    var req := DaemonRequest(asked, load, cpuCount, count);
    forall name | name in policies
      ensures Cedar.Satisfied(GenerateCedarPolicy(name, policies[name]), req) <==>
        asked.process == policies[name].process && count >= policies[name].maxCount
        && ScaledLoadReached(policies[name], load)
      ensures policies[name].IsEnabled() ==> GenerateCedarPolicy(name, policies[name]) in Init(ps)
    {
      GeneratedPolicyMeaning(name, policies[name], asked, load, cpuCount, count);
      assert policies[name].IsEnabled() ==> IsGenerated(policies, GenerateCedarPolicy(name, policies[name]));
    }
    forall p | p in Init(ps)
      ensures p.effect == Cedar.Permit && IsGenerated(policies, p)
    {
    }
  }

  lemma ScaledGap(load: real, minimum: real)
    requires load >= 0.0 && minimum > 0.0 && FitsInt64(minimum * 100.0)
    requires Int64Of(load * 100.0) >= Int64Of(minimum * 100.0)
    ensures load > minimum - 0.01
  {
    assert Int64Of(minimum * 100.0) as real > minimum * 100.0 - 1.0;
    assert load * 100.0 >= Int64Of(load * 100.0) as real;
  }

  /** Conversely a matching generated policy puts every guarded load above its minimum less a hundredth. */
  lemma PermitBoundsLoads(name: string, policy: Policy, load: LoadAverage, cpuCount: int, count: int)
    requires policy.conditions.Some? && load.load1 >= 0.0 && load.load5 >= 0.0
    requires FitsInt64(policy.conditions.value.minLoad1 * 100.0) && FitsInt64(policy.conditions.value.minLoad5 * 100.0)
    requires Cedar.Satisfied(GenerateCedarPolicy(name, policy), DaemonRequest(policy, load, cpuCount, count))
    ensures count >= policy.maxCount
    ensures policy.conditions.value.minLoad1 > 0.0 ==> load.load1 > policy.conditions.value.minLoad1 - 0.01
    ensures policy.conditions.value.minLoad5 > 0.0 ==> load.load5 > policy.conditions.value.minLoad5 - 0.01
  {
    GeneratedPolicyMeaning(name, policy, policy, load, cpuCount, count);
    var c := policy.conditions.value;
    if c.minLoad1 > 0.0 { ScaledGap(load.load1, c.minLoad1); }
    if c.minLoad5 > 0.0 { ScaledGap(load.load5, c.minLoad5); }
  }

  /** A minimum the conversion to hundredths keeps, or one that is not checked at all. */
  predicate Exact(minimum: real) {
    minimum > 0.0 ==> Int64Of(minimum * 100.0) as real == minimum * 100.0
  }

  predicate ExactMinima(policy: Policy) {
    policy.conditions.Some? ==> Exact(policy.conditions.value.minLoad1) && Exact(policy.conditions.value.minLoad5)
  }

  /** The generated policy matches exactly what the engine's own guards let through. */
  ghost predicate PermitIsGuards(name: string, policy: Policy) {
    forall load: LoadAverage, cpuCount: int, count: nat ::
      Cedar.Satisfied(GenerateCedarPolicy(name, policy), DaemonRequest(policy, load, cpuCount, count)) <==>
      count >= policy.maxCount && LoadReached(policy, load)
  }

  /** An exact minimum is reached exactly when its hundredths are. */
  lemma ExactMinimum(load: real, minimum: real)
    requires minimum > 0.0 && Exact(minimum)
    ensures Int64Of(load * 100.0) >= Int64Of(minimum * 100.0) <==> load >= minimum
  {
    if load >= minimum {
      Int64OfMonotone(minimum * 100.0, load * 100.0);
    } else if load >= 0.0 {
      assert Int64Of(load * 100.0) as real <= load * 100.0;
    } else {
      assert Int64Of(load * 100.0) <= 0;
    }
  }

  /** Below an inexact minimum lies a load with the same hundredths. */
  lemma InexactMinimum(minimum: real) returns (load: real)
    requires !Exact(minimum)
    ensures 0.0 <= load < minimum && Int64Of(load * 100.0) == Int64Of(minimum * 100.0)
  {
    var n := Int64Of(minimum * 100.0);
    assert 0 <= n < TWO_63 && n as real < minimum * 100.0;
    load := n as real / 100.0;
    assert load * 100.0 == n as real;
    assert (n as real).Floor == n;
  }

  /** The compiled policy and the guards agree on all loads and counts exactly when the conversion to hundredths
      keeps every load minimum of the policy. */
  lemma PermitIsGuardsExactly(name: string, policy: Policy)
    ensures PermitIsGuards(name, policy) <==> ExactMinima(policy)
  {
    if ExactMinima(policy) {
      forall load: LoadAverage, cpuCount: int, count: nat
        ensures Cedar.Satisfied(GenerateCedarPolicy(name, policy), DaemonRequest(policy, load, cpuCount, count)) <==>
          count >= policy.maxCount && LoadReached(policy, load)
      {
        GuardsEqualPermit(name, policy, load, cpuCount, count);
      }
    } else {
      var load := PermitCanBeWeaker(name, policy);
      var count: nat := if policy.maxCount > 0 then policy.maxCount else 0;
      assert Cedar.Satisfied(GenerateCedarPolicy(name, policy), DaemonRequest(policy, load, 0, count));
    }
  }

  /** With exact minima the generated policy and the engine's guards agree on every load and count. */
  lemma GuardsEqualPermit(name: string, policy: Policy, load: LoadAverage, cpuCount: int, count: int)
    requires ExactMinima(policy)
    ensures Cedar.Satisfied(GenerateCedarPolicy(name, policy), DaemonRequest(policy, load, cpuCount, count)) <==>
      count >= policy.maxCount && LoadReached(policy, load)
  {
    GeneratedPolicyMeaning(name, policy, policy, load, cpuCount, count);
    if policy.conditions.Some? {
      var c := policy.conditions.value;
      if c.minLoad1 > 0.0 { ExactMinimum(load.load1, c.minLoad1); }
      if c.minLoad5 > 0.0 { ExactMinimum(load.load5, c.minLoad5); }
    }
  }

  /** With any inexact minimum there are loads that the generated policy permits, at every count that reaches
      the threshold, and that the guards reject. */
  lemma PermitCanBeWeaker(name: string, policy: Policy) returns (load: LoadAverage)
    requires !ExactMinima(policy)
    ensures load.load1 >= 0.0 && load.load5 >= 0.0 && !LoadReached(policy, load)
    ensures forall cpuCount, count :: count >= policy.maxCount ==>
      Cedar.Satisfied(GenerateCedarPolicy(name, policy), DaemonRequest(policy, load, cpuCount, count))
  {
    var c := policy.conditions.value;
    var load1, load5 := Max(c.minLoad1, 0.0), Max(c.minLoad5, 0.0);
    if !Exact(c.minLoad1) {
      load1 := InexactMinimum(c.minLoad1);
    } else {
      load5 := InexactMinimum(c.minLoad5);
    }
    load := LoadAverage(load1, load5, 0.0);
    forall cpuCount, count | count >= policy.maxCount
      ensures Cedar.Satisfied(GenerateCedarPolicy(name, policy), DaemonRequest(policy, load, cpuCount, count))
    {
      GeneratedPolicyMeaning(name, policy, policy, load, cpuCount, count);
    }
  }

  function Max(x: real, y: real): real {
    if x >= y then x else y
  }

  /** Loads decoded from any kernel answer reach Cedar as plain truncations: the conversion never saturates. */
  lemma DecodedLoadsAreTruncated(data: seq<Byte>)
    requires |data| >= 20
    ensures GetLoadAverage(Ok(data)).Ok?
    ensures var load := GetLoadAverage(Ok(data)).value;
      && Int64Of(load.load1 * 100.0) == Truncate(load.load1 * 100.0)
      && Int64Of(load.load5 * 100.0) == Truncate(load.load5 * 100.0)
      && Int64Of(load.load15 * 100.0) == Truncate(load.load15 * 100.0)
    ensures forall policy: Policy, cpuCount, count ::
      var load, context := GetLoadAverage(Ok(data)).value,
                           DaemonRequest(policy, GetLoadAverage(Ok(data)).value, cpuCount, count).context;
      && context["load1"] == Cedar.LongValue(Truncate(load.load1 * 100.0))
      && context["load5"] == Cedar.LongValue(Truncate(load.load5 * 100.0))
      && context["load15"] == Cedar.LongValue(Truncate(load.load15 * 100.0))
      && context["process_count"] == Cedar.LongValue(count) && context["max_count"] == Cedar.LongValue(policy.maxCount)
      && context["cpu_count"] == Cedar.LongValue(cpuCount)
      && context["process_name"] == Cedar.StringValue(policy.process)
  {
    DecodedLoadsFitInt64(data);
  }
}
