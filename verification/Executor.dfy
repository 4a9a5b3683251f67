/** Execution of policy actions (internal/policy/executor.go). */
module Executor {
  import opened Lists
  import opened Config
  import opened Collector
  import opened Engine
  import ParentTally
  import opened Host

  // ---------------------------------------------------------------- two-phase termination

  /** One SIGTERM attempt per PID, in order. */
  ghost predicate TermPhase(sender: Sender, pids: seq<int>, es: seq<Event>) {
    if pids == [] then es == [] else
      es != [] && IsAttempt(Last(es), sender, Last(pids), Term) && TermPhase(sender, Init(pids), Init(es))
  }

  lemma {:induction false} TermPhaseAt(sender: Sender, pids: seq<int>, es: seq<Event>, k: nat)
    requires TermPhase(sender, pids, es) && k < |pids|
    ensures |es| == |pids| && IsAttempt(es[k], sender, pids[k], Term)
  {
    if k < |pids| - 1 {
      TermPhaseAt(sender, Init(pids), Init(es), k);
    } else if k > 0 {
      TermPhaseAt(sender, Init(pids), Init(es), 0);
    }
  }

  /** One probe per PID, in order; a SIGKILL attempt directly after each probe that got through, and nothing else. */
  ghost predicate KillPhase(sender: Sender, pids: seq<int>, es: seq<Event>) {
    if pids == [] then es == [] else
      var n := |es|;
      || (n >= 1 && IsAttempt(es[n - 1], sender, Last(pids), Probe) && es[n - 1].reply != Delivered
          && KillPhase(sender, Init(pids), es[..n - 1]))
      || (n >= 2 && IsAttempt(es[n - 2], sender, Last(pids), Probe) && es[n - 2].reply == Delivered
          && IsAttempt(es[n - 1], sender, Last(pids), Kill) && KillPhase(sender, Init(pids), es[..n - 2]))
  }

  /** The events of one termination: the SIGTERM phase, a wait, and unless it was cancelled the SIGKILL phase. */
  ghost predicate TwoPhase(sender: Sender, grace: int, pids: seq<int>, es: seq<Event>, cancelled: bool) {
    if pids == [] then es == [] && !cancelled else
      var n := |pids|;
      && |es| > n && Ordered(es)
      && TermPhase(sender, pids, es[..n])
      && es[n].Wait? && es[n].duration == grace && es[n].cancelled == cancelled
      && (!cancelled ==> es[n].from + grace <= es[n].until)
      && (if cancelled then |es| == n + 1 else KillPhase(sender, pids, es[n + 1..]))
  }

  method SendTerms(host: Host, sender: Sender, pids: seq<int>) returns (terminated: nat, ghost es: seq<Event>)
    modifies host
    ensures host.trace == old(host.trace) + es && |es| == |pids| && TermPhase(sender, pids, es)
    ensures Recorded(host.world, es, old(host.ticks), old(host.clock), host.ticks, host.clock)
    ensures terminated == |Filter(DeliveredAs(Term), es)|
  {
    terminated, es := 0, [];
    for i := 0 to |pids|
      invariant host.trace == old(host.trace) + es && |es| == i && TermPhase(sender, pids[..i], es)
      invariant Recorded(host.world, es, old(host.ticks), old(host.clock), host.ticks, host.clock)
      invariant terminated == |Filter(DeliveredAs(Term), es)|
    {
      ghost var t, c := host.ticks, host.clock;
      var reply := host.Send(sender, pids[i], Term);
      ghost var e := Last(host.trace);
      FilterAppend(DeliveredAs(Term), es, e);
      RecordedAppend(host.world, es, e, old(host.ticks), old(host.clock), t, c, host.ticks, host.clock);
      assert Init(pids[..i + 1]) == pids[..i] && Init(es + [e]) == es;
      es := es + [e];
      if reply != Delivered {
        continue;
      }
      terminated := terminated + 1;
    }
    assert pids[..|pids|] == pids;
  }

  /** One target of the second phase: probed, and killed when the probe gets through. */
  method KillSurvivor(host: Host, sender: Sender, pid: int) returns (killed: bool, ghost es: seq<Event>)
    modifies host
    ensures host.trace == old(host.trace) + es
    ensures ProbeAndKill(sender, pid, es, killed)
    ensures Recorded(host.world, es, old(host.ticks), old(host.clock), host.ticks, host.clock)
  {
    var probe := host.Send(sender, pid, Probe);
    ghost var e := Last(host.trace);
    ghost var t, c := host.ticks, host.clock;
    RecordedAppend(host.world, [], e, old(host.ticks), old(host.clock), old(host.ticks), old(host.clock), t, c);
    assert [] + [e] == [e];
    killed, es := false, [e];
    if probe != Delivered {
      return;
    }
    var reply := host.Send(sender, pid, Kill);
    ghost var f := Last(host.trace);
    RecordedAppend(host.world, [e], f, old(host.ticks), old(host.clock), t, c, host.ticks, host.clock);
    es := [e] + [f];
    killed := reply == Delivered;
  }

  method KillSurvivors(host: Host, sender: Sender, pids: seq<int>) returns (survivors: nat, ghost es: seq<Event>)
    modifies host
    ensures host.trace == old(host.trace) + es && KillPhase(sender, pids, es)
    ensures Recorded(host.world, es, old(host.ticks), old(host.clock), host.ticks, host.clock)
    ensures survivors == |Filter(DeliveredAs(Kill), es)|
  {
    hide *;
    survivors, es := 0, [];
    ghost var visited := [];
    NothingYet(host.world, sender, host.ticks, host.clock);
    for i := 0 to |pids|
      invariant host.trace == old(host.trace) + es && visited == pids[..i] && KillPhase(sender, visited, es)
      invariant Recorded(host.world, es, old(host.ticks), old(host.clock), host.ticks, host.clock)
      invariant survivors == |Filter(DeliveredAs(Kill), es)|
    {
      ghost var t, c := host.ticks, host.clock;
      var killed, step := KillSurvivor(host, sender, pids[i]);
      ConcatAssociative(old(host.trace), es, step);
      RecordedConcat(host.world, es, step, old(host.ticks), old(host.clock), t, c, host.ticks, host.clock);
      KillPhaseAppend(sender, visited, es, pids[i], step, killed);
      KillCountAppend(sender, es, pids[i], step, killed);
      es, visited := es + step, visited + [pids[i]];
      if !killed {
        continue;
      }
      survivors := survivors + 1;
    }
    assert visited == pids;
  }

  lemma NothingYet(world: World, sender: Sender, t: nat, c: int)
    ensures KillPhase(sender, [], []) && TermPhase(sender, [], []) && Recorded(world, [], t, c, t, c)
    ensures forall keep: Event -> bool :: Filter(keep, []) == []
  {
  }

  ghost predicate ProbeAndKill(sender: Sender, pid: int, step: seq<Event>, killed: bool) {
    && 1 <= |step| <= 2 && IsAttempt(step[0], sender, pid, Probe) && (|step| == 2 <==> step[0].reply == Delivered)
    && (|step| == 2 ==> IsAttempt(step[1], sender, pid, Kill))
    && (killed <==> |step| == 2 && step[1].reply == Delivered)
  }

  lemma KillPhaseAppend(sender: Sender, pids: seq<int>, es: seq<Event>, pid: int, step: seq<Event>, killed: bool)
    requires KillPhase(sender, pids, es) && ProbeAndKill(sender, pid, step, killed)
    ensures KillPhase(sender, pids + [pid], es + step)
  {
    assert Init(pids + [pid]) == pids;
    assert (es + step)[..|es|] == es;
    assert (es + step)[|es|] == step[0];
    assert |step| == 2 ==> (es + step)[|es| + 1] == step[1];
  }

  lemma KillCountAppend(sender: Sender, es: seq<Event>, pid: int, step: seq<Event>, killed: bool)
    requires ProbeAndKill(sender, pid, step, killed)
    ensures |Filter(DeliveredAs(Kill), es + step)| == |Filter(DeliveredAs(Kill), es)| + if killed then 1 else 0
  {
    FilterConcat(DeliveredAs(Kill), es, step);
    if |step| == 1 {
      assert step == [] + [step[0]];
      FilterAppend(DeliveredAs(Kill), [], step[0]);
    } else {
      assert step == [step[0]] + [step[1]] && [step[0]] == [] + [step[0]];
      FilterAppend(DeliveredAs(Kill), [], step[0]);
      FilterAppend(DeliveredAs(Kill), [step[0]], step[1]);
    }
  }

  /** Sends SIGTERM, waits for exactly the grace period, and sends SIGKILL to what is still there.
      The two counters are the numbers of signals that were delivered. */
  method ExecuteTerminate(host: Host, grace: int, name: string, pids: seq<int>)
    returns (cancelled: bool, terminated: nat, survivors: nat, ghost es: seq<Event>)
    modifies host
    ensures host.trace == old(host.trace) + es && TwoPhase(ByPolicy(name), grace, pids, es, cancelled)
    ensures Recorded(host.world, es, old(host.ticks), old(host.clock), host.ticks, host.clock)
    ensures terminated == |Filter(DeliveredAs(Term), es)| && survivors == |Filter(DeliveredAs(Kill), es)|
    ensures pids == [] ==> es == [] && !cancelled
    ensures pids != [] ==> |es| > |pids| && es[|pids|].Wait? && cancelled == host.world.cancelled(es[|pids|].tick)
    ensures pids != [] ==>
      es[|pids|].until == es[|pids|].from + host.world.delay(es[|pids|].tick) + if cancelled then 0 else Max0(grace)
  {
    cancelled, terminated, survivors, es := false, 0, 0, [];
    if |pids| == 0 {
      return;
    }
    ghost var terms, kills;
    terminated, terms := SendTerms(host, ByPolicy(name), pids);
    ghost var t1, c1 := host.ticks, host.clock;
    cancelled := host.Sleep(grace);
    ghost var wait := Last(host.trace);
    assert host.trace == old(host.trace) + (terms + [wait]) by { ConcatAssociative(old(host.trace), terms, [wait]); }
    ghost var t2, c2 := host.ticks, host.clock;
    RecordedAppend(host.world, terms, wait, old(host.ticks), old(host.clock), t1, c1, t2, c2);
    es := terms + [wait];
    if cancelled {
      assert es == terms + [wait] + [];
      Phases(host.world, ByPolicy(name), grace, pids, terms, wait, [], true, old(host.ticks), old(host.clock), t2, c2);
      return;
    }
    survivors, kills := KillSurvivors(host, ByPolicy(name), pids);
    assert host.trace == old(host.trace) + (es + kills) by { ConcatAssociative(old(host.trace), es, kills); }
    RecordedConcat(host.world, es, kills, old(host.ticks), old(host.clock), t2, c2, host.ticks, host.clock);
    es := es + kills;
    Phases(host.world, ByPolicy(name), grace, pids, terms, wait, kills, false,
           old(host.ticks), old(host.clock), host.ticks, host.clock);
  }

  lemma Phases(world: World, sender: Sender, grace: int, pids: seq<int>,
               terms: seq<Event>, wait: Event, kills: seq<Event>, cancelled: bool, t0: nat, c0: int, t1: nat, c1: int)
    requires pids != [] && |terms| == |pids| && TermPhase(sender, pids, terms)
    requires wait.Wait? && wait.duration == grace && wait.cancelled == cancelled
    requires !cancelled ==> wait.from + grace <= wait.until
    requires if cancelled then kills == [] else KillPhase(sender, pids, kills)
    requires Recorded(world, terms + [wait] + kills, t0, c0, t1, c1)
    ensures TwoPhase(sender, grace, pids, terms + [wait] + kills, cancelled)
    ensures (terms + [wait] + kills)[|pids|] == wait && Answered(world, wait)
    ensures |Filter(DeliveredAs(Term), terms + [wait] + kills)| == |Filter(DeliveredAs(Term), terms)|
    ensures |Filter(DeliveredAs(Kill), terms + [wait] + kills)| == |Filter(DeliveredAs(Kill), kills)|
  {
    var es := terms + [wait] + kills;
    RecordedOrdered(world, es, t0, c0, t1, c1);
    assert es[..|pids|] == terms && es[|pids|] == wait && es[|pids| + 1..] == kills;
    NoSuchSignal(Kill, sender, pids, terms);
    if !cancelled {
      NoTerms(sender, pids, kills);
    }
    FilterAppend(DeliveredAs(Term), terms, wait);
    FilterAppend(DeliveredAs(Kill), terms, wait);
    FilterConcat(DeliveredAs(Term), terms + [wait], kills);
    FilterConcat(DeliveredAs(Kill), terms + [wait], kills);
  }

  lemma {:induction false} NoSuchSignal(signal: Signal, sender: Sender, pids: seq<int>, es: seq<Event>)
    requires signal != Term && TermPhase(sender, pids, es)
    ensures Filter(DeliveredAs(signal), es) == []
  {
    if es != [] {
      NoSuchSignal(signal, sender, Init(pids), Init(es));
    }
  }

  lemma {:induction false} NoTerms(sender: Sender, pids: seq<int>, es: seq<Event>)
    requires KillPhase(sender, pids, es)
    ensures Filter(DeliveredAs(Term), es) == []
    decreases |pids|
  {
    if pids != [] {
      var n := |es|;
      if es[n - 1].signal == Kill {
        NoTerms(sender, Init(pids), es[..n - 2]);
        assert es == es[..n - 2] + [es[n - 2]] + [es[n - 1]];
        FilterAppend(DeliveredAs(Term), es[..n - 2], es[n - 2]);
        FilterAppend(DeliveredAs(Term), es[..n - 2] + [es[n - 2]], es[n - 1]);
      } else {
        NoTerms(sender, Init(pids), es[..n - 1]);
        assert es == es[..n - 1] + [es[n - 1]];
        FilterAppend(DeliveredAs(Term), es[..n - 1], es[n - 1]);
      }
    }
  }

  /** In the second phase only targets are touched, never with SIGTERM,
      and a SIGKILL directly follows a probe of the same PID that got through. */
  lemma {:induction false} KillPhaseEvents(sender: Sender, pids: seq<int>, es: seq<Event>, k: nat)
    requires KillPhase(sender, pids, es) && k < |es|
    ensures es[k].Attempt? && es[k].sender == sender && es[k].pid in pids && es[k].signal != Term
    ensures es[k].signal == Kill ==>
      k > 0 && IsAttempt(es[k - 1], sender, es[k].pid, Probe) && es[k - 1].reply == Delivered
    decreases |pids|
  {
    var n := |es|;
    var m := if es[n - 1].signal == Kill then n - 2 else n - 1;
    if k < m {
      KillPhaseEvents(sender, Init(pids), es[..m], k);
    }
  }

  /** Every target is probed, and gets a SIGKILL attempt unless the probe failed. */
  lemma {:induction false} KillPhaseCovers(sender: Sender, pids: seq<int>, es: seq<Event>, pid: int) returns (k: nat)
    requires KillPhase(sender, pids, es) && pid in pids
    ensures k < |es| && IsAttempt(es[k], sender, pid, Probe)
    ensures es[k].reply == Delivered ==> k + 1 < |es| && IsAttempt(es[k + 1], sender, pid, Kill)
    decreases |pids|
  {
    var n := |es|;
    var m := if es[n - 1].signal == Kill then n - 2 else n - 1;
    if pid == Last(pids) {
      k := m;
    } else {
      assert pids == Init(pids) + [Last(pids)];
      k := KillPhaseCovers(sender, Init(pids), es[..m], pid);
    }
  }

  /** Only targets of the decision are signalled. */
  lemma OnlyTargetsSignalled(sender: Sender, grace: int, pids: seq<int>, es: seq<Event>, cancelled: bool, k: nat)
    requires TwoPhase(sender, grace, pids, es, cancelled) && k < |es| && es[k].Attempt?
    ensures es[k].sender == sender && es[k].pid in pids
  {
    var n := |pids|;
    if k < n {
      TermPhaseAt(sender, pids, es[..n], k);
      assert es[..n][k] == es[k];
    } else {
      KillPhaseEvents(sender, pids, es[n + 1..], k - n - 1);
      assert es[n + 1..][k - n - 1] == es[k];
    }
  }

  /** Whether or not the wait is cancelled, every target has been sent SIGTERM first, in order and once per position;
      a cancelled termination does nothing else. */
  lemma EveryTargetTermed(sender: Sender, grace: int, pids: seq<int>, es: seq<Event>, cancelled: bool)
    requires TwoPhase(sender, grace, pids, es, cancelled)
    ensures |es| >= |pids| && forall k :: 0 <= k < |pids| ==> IsAttempt(es[k], sender, pids[k], Term)
    ensures cancelled ==> |es| == |pids| + 1
    ensures forall k :: |pids| < k < |es| ==> es[k].Attempt? && es[k].signal != Term
  {
    var n := |pids|;
    forall k | 0 <= k < n
      ensures IsAttempt(es[k], sender, pids[k], Term)
    {
      TermPhaseAt(sender, pids, es[..n], k);
    }
    forall k | n < k < |es|
      ensures es[k].Attempt? && es[k].signal != Term
    {
      KillPhaseEvents(sender, pids, es[n + 1..], k - n - 1);
    }
  }

  /** The only wait of a termination is for the grace period. */
  lemma OnlyWait(sender: Sender, grace: int, pids: seq<int>, es: seq<Event>, cancelled: bool)
    requires TwoPhase(sender, grace, pids, es, cancelled)
    ensures forall v :: v in es && v.Wait? ==> v.duration == grace && v.cancelled == cancelled
    ensures forall v :: v in es ==> !v.Command?
    ensures cancelled ==> exists v :: v in es && v.Wait? && v.cancelled
  {
    hide Ordered, TermPhase, KillPhase;
    EveryTargetTermed(sender, grace, pids, es, cancelled);
    if cancelled {
      assert es[|pids|] in es;
    }
  }

  lemma SecondPhaseOnly(sender: Sender, grace: int, pids: seq<int>, es: seq<Event>, cancelled: bool, k: nat)
    requires TwoPhase(sender, grace, pids, es, cancelled) && k < |es| && es[k].Attempt? && es[k].signal == Kill
    ensures k > |pids|
  {
    if k < |pids| {
      TermPhaseAt(sender, pids, es[..|pids|], k);
    }
  }

  /** A SIGKILL is attempted only after an uncancelled wait, on a PID that was found alive just before
      and that a SIGTERM was attempted on at least the grace period earlier. */
  lemma KillsFollowTerms(sender: Sender, grace: int, pids: seq<int>, es: seq<Event>, cancelled: bool, k: nat)
    requires TwoPhase(sender, grace, pids, es, cancelled) && k < |es| && es[k].Attempt? && es[k].signal == Kill
    ensures !cancelled
    ensures k > 0 && IsAttempt(es[k - 1], sender, es[k].pid, Probe) && es[k - 1].reply == Delivered
    ensures exists i :: 0 <= i < k && IsAttempt(es[i], sender, es[k].pid, Term) && es[i].at + grace <= es[k].at
  {
    var n := |pids|;
    assert k > n by { SecondPhaseOnly(sender, grace, pids, es, cancelled, k); }
    KillPhaseEvents(sender, pids, es[n + 1..], k - n - 1);
    assert es[n + 1..][k - n - 1] == es[k] && es[n + 1..][k - n - 2] == es[k - 1];
    var i :| 0 <= i < n && pids[i] == es[k].pid;
    TermPhaseAt(sender, pids, es[..n], i);
    assert es[..n][i] == es[i];
    assert End(es[i]) <= Start(es[n]) && End(es[n]) <= Start(es[k]);
  }

  /** The environment reports a process as gone exactly when it is not alive. */
  ghost predicate Honest(world: World) {
    forall tick, pid, signal :: world.reply(tick, pid, signal) in {Gone, NotFound} <==> !world.alive(tick, pid)
  }

  /** A PID that is not alive stays so. */
  ghost predicate NotReused(world: World, pid: int) {
    forall t, u :: t <= u && !world.alive(t, pid) ==> !world.alive(u, pid)
  }

  /** The process is dead by then, has been sent SIGKILL, or a probe or SIGKILL to it was refused. */
  ghost predicate Handled(world: World, sender: Sender, es: seq<Event>, pid: int, end: nat) {
    || !world.alive(end, pid)
    || (exists e :: e in es && IsAttempt(e, sender, pid, Kill) && e.reply == Delivered)
    || (exists e :: e in es && e.Attempt? && e.pid == pid && e.signal != Term && e.reply == Refused)
  }

  /** When the wait completes in an honest environment that does not reuse the PID, no target has escaped:
      with nothing refused, every one of them is dead at return or has been sent SIGKILL. */
  lemma EveryTargetHandled(world: World, sender: Sender, grace: int, pids: seq<int>, es: seq<Event>, pid: int, end: nat)
    requires TwoPhase(sender, grace, pids, es, false) && pid in pids
    requires forall e :: e in es ==> Answered(world, e) && e.tick < end
    requires Honest(world) && NotReused(world, pid)
    ensures Handled(world, sender, es, pid, end)
  {
    var n := |pids|;
    var k := KillPhaseCovers(sender, pids, es[n + 1..], pid);
    var probe := es[n + 1 + k];
    assert probe == es[n + 1..][k] && probe in es;
    if probe.reply == Delivered {
      var kill := es[n + 2 + k];
      assert kill == es[n + 1..][k + 1] && kill in es;
      assert kill.reply == world.reply(kill.tick, pid, Kill);
    } else {
      assert probe.reply == world.reply(probe.tick, pid, Probe);
    }
  }

  /** In the second phase a probe that got through is directly followed by a SIGKILL attempt. */
  lemma {:induction false} ProbeThenKill(sender: Sender, pids: seq<int>, es: seq<Event>, k: nat)
    requires KillPhase(sender, pids, es) && k < |es|
    requires es[k].Attempt? && es[k].signal == Probe && es[k].reply == Delivered
    ensures k + 1 < |es| && IsAttempt(es[k + 1], sender, es[k].pid, Kill)
    decreases |pids|
  {
    var n := |es|;
    var m := if es[n - 1].signal == Kill then n - 2 else n - 1;
    if k < m {
      ProbeThenKill(sender, Init(pids), es[..m], k);
    }
  }

  /** The second phase does not ask what became of the first: when the wait completes, every target is probed,
      and each of its probes is followed by a SIGKILL attempt exactly when it got through,
      whatever the SIGTERM to it had answered. */
  lemma KilledExactlyWhenProbed(sender: Sender, grace: int, pids: seq<int>, es: seq<Event>, pid: int)
    requires TwoPhase(sender, grace, pids, es, false) && pid in pids
    ensures exists k :: |pids| < k < |es| && IsAttempt(es[k], sender, pid, Probe)
    ensures forall k :: |pids| < k < |es| && IsAttempt(es[k], sender, pid, Probe) ==>
      (es[k].reply == Delivered <==> k + 1 < |es| && IsAttempt(es[k + 1], sender, pid, Kill))
    ensures forall k :: 0 <= k < |es| && IsAttempt(es[k], sender, pid, Kill) ==>
      k - 1 > |pids| && IsAttempt(es[k - 1], sender, pid, Probe) && es[k - 1].reply == Delivered
  {
    hide Ordered;
    var n := |pids|;
    var second := es[n + 1..];
    var j := KillPhaseCovers(sender, pids, second, pid);
    assert es[n + 1 + j] == second[j];
    forall k | n < k < |es| && IsAttempt(es[k], sender, pid, Probe) && es[k].reply == Delivered
      ensures k + 1 < |es| && IsAttempt(es[k + 1], sender, pid, Kill)
    {
      ProbeThenKill(sender, pids, second, k - n - 1);
      assert es[k + 1] == second[k - n];
    }
    forall k | 0 <= k < |es| && IsAttempt(es[k], sender, pid, Kill)
      ensures k - 1 > n && IsAttempt(es[k - 1], sender, pid, Probe) && es[k - 1].reply == Delivered
    {
      SecondPhaseOnly(sender, grace, pids, es, false, k);
      KillPhaseEvents(sender, pids, second, k - n - 1);
      assert es[k] == second[k - n - 1] && es[k - 1] == second[k - n - 2];
    }
  }

  /** In particular a process that refuses every SIGTERM and answers every probe is always sent SIGKILL. */
  lemma RefusedTermStillKilled(world: World, sender: Sender, grace: int, pids: seq<int>, es: seq<Event>, pid: int)
    requires TwoPhase(sender, grace, pids, es, false) && pid in pids
    requires forall e :: e in es ==> Answered(world, e)
    requires forall t :: world.reply(t, pid, Term) == Refused && world.reply(t, pid, Probe) == Delivered
    ensures exists k :: 0 <= k < |es| && IsAttempt(es[k], sender, pid, Kill)
    ensures forall k :: 0 <= k < |es| && IsAttempt(es[k], sender, pid, Term) ==> es[k].reply == Refused
  {
    KilledExactlyWhenProbed(sender, grace, pids, es, pid);
    var k :| |pids| < k < |es| && IsAttempt(es[k], sender, pid, Probe);
    assert Answered(world, es[k]);
    assert IsAttempt(es[k + 1], sender, pid, Kill);
    forall k | 0 <= k < |es| && IsAttempt(es[k], sender, pid, Term)
      ensures es[k].reply == Refused
    {
      assert Answered(world, es[k]) && es[k].reply == world.reply(es[k].tick, pid, Term);
    }
  }

  // ---------------------------------------------------------------- all actions

  datatype ActionError = NotifyFailed | Cancelled | DirectoryFailed | UnknownAction(action: string)

  const MAX_SAMPLES := 3

  predicate IsCommand(e: Event, action: string, pids: seq<int>) {
    e.Command? && e.action == action && e.pids == pids
  }

  function FirstFew(pids: seq<int>, limit: nat): seq<int> {
    if |pids| <= limit then pids else pids[..limit]
  }

  /** One command for each PID, in order. */
  ghost predicate CommandsOn(action: string, pids: seq<int>, es: seq<Event>) {
    |es| == |pids| && forall k :: 0 <= k < |es| ==> IsCommand(es[k], action, [pids[k]])
  }

  /** What running one action does to the host, and when it fails. */
  ghost predicate Ran(cfg: Config, d: Decision, action: string, es: seq<Event>, r: Option<ActionError>) {
    if action == "notify" then
      |es| == 1 && IsCommand(es[0], "notify", []) && r == if es[0].ok then None else Some(NotifyFailed)
    else if action == "terminate" then
      TwoPhase(ByPolicy(d.policyName), cfg.gracePeriod, d.pids, es, r.Some?) && (r.Some? ==> r.value == Cancelled)
    else if action == "diagnose" && cfg.diagnosticsPath != "" then
      |es| == 1 && IsCommand(es[0], "diagnose", []) && r == if es[0].ok then None else Some(DirectoryFailed)
    else if action == "sample" then CommandsOn("sample", FirstFew(d.pids, MAX_SAMPLES), es) && r == None
    else if action == "spindump" then CommandsOn("spindump", FirstFew(d.pids, 1), es) && r == None
    else if action in KNOWN_ACTIONS then es == [] && r == None
    else es == [] && r == Some(ActionError.UnknownAction(action))
  }

  function Flatten(segments: seq<seq<Event>>): seq<Event> {
    if segments == [] then [] else Flatten(Init(segments)) + Last(segments)
  }

  function Failures(actions: seq<string>, results: seq<Option<ActionError>>): seq<(string, ActionError)>
    requires |results| == |actions|
  {
    if actions == [] then [] else
      Failures(Init(actions), Init(results)) + if Last(results).Some? then [(Last(actions), Last(results).value)] else []
  }

  ghost predicate AllRan(cfg: Config, d: Decision, segments: seq<seq<Event>>, results: seq<Option<ActionError>>, n: nat) {
    && n <= |d.actions| && |segments| == |results| == n
    && forall k :: 0 <= k < n ==> Ran(cfg, d, d.actions[k], segments[k], results[k])
  }

  /** All actions of the decision ran, in order; `es` is what they did and `errs` are the errors of those that failed. */
  ghost predicate RanAll(cfg: Config, d: Decision, es: seq<Event>, errs: seq<(string, ActionError)>) {
    exists segments, results ::
      AllRan(cfg, d, segments, results, |d.actions|) && es == Flatten(segments) && errs == Failures(d.actions, results)
  }

  /** One external command, and the event it leaves. */
  method RunCommand(host: Host, action: string, pids: seq<int>) returns (ok: bool, ghost es: seq<Event>)
    modifies host
    ensures host.trace == old(host.trace) + es
    ensures |es| == 1 && IsCommand(es[0], action, pids) && es[0].ok == ok
    ensures Recorded(host.world, es, old(host.ticks), old(host.clock), host.ticks, host.clock)
  {
    ok := host.Run(action, pids);
    es := [Last(host.trace)];
  }

  /** Samples the first few targets. Failing samples are not errors. */
  method ExecuteSample(host: Host, pids: seq<int>) returns (ghost es: seq<Event>)
    modifies host
    ensures host.trace == old(host.trace) + es && CommandsOn("sample", FirstFew(pids, MAX_SAMPLES), es)
    ensures |es| == (if |pids| < 3 then |pids| else 3)
    ensures forall k :: 0 <= k < |es| ==> es[k].Command? && es[k].action == "sample" && es[k].pids == [pids[k]]
    ensures Recorded(host.world, es, old(host.ticks), old(host.clock), host.ticks, host.clock)
  {
    hide Recorded, CommandsOn;
    es := [];
    ghost var sampled := [];
    NothingCommanded("sample", host.world, host.ticks, host.clock);
    var maxSamples := if |pids| < MAX_SAMPLES then |pids| else MAX_SAMPLES;
    for i := 0 to maxSamples
      invariant host.trace == old(host.trace) + es && sampled == pids[..i] && CommandsOn("sample", sampled, es)
      invariant Recorded(host.world, es, old(host.ticks), old(host.clock), host.ticks, host.clock)
    {
      ghost var t, c := host.ticks, host.clock;
      var _ := host.Run("sample", [pids[i]]);
      ghost var e := Last(host.trace);
      ConcatAssociative(old(host.trace), es, [e]);
      RecordedAppend(host.world, es, e, old(host.ticks), old(host.clock), t, c, host.ticks, host.clock);
      OneMoreCommand("sample", sampled, es, pids[i], e);
      es, sampled := es + [e], sampled + [pids[i]];
    }
    assert sampled == FirstFew(pids, MAX_SAMPLES);
    assert |es| == |sampled| && forall k :: 0 <= k < |es| ==> IsCommand(es[k], "sample", [sampled[k]]) by {
      CommandsAt("sample", sampled, es);
    }
  }

  lemma NothingCommanded(action: string, world: World, t: nat, c: int)
    ensures CommandsOn(action, [], []) && Recorded(world, [], t, c, t, c)
  {
  }

  lemma CommandsAt(action: string, pids: seq<int>, es: seq<Event>)
    requires CommandsOn(action, pids, es)
    ensures |es| == |pids| && forall k :: 0 <= k < |es| ==> IsCommand(es[k], action, [pids[k]])
  {
  }

  lemma OneMoreCommand(action: string, pids: seq<int>, es: seq<Event>, pid: int, e: Event)
    requires CommandsOn(action, pids, es) && IsCommand(e, action, [pid])
    ensures CommandsOn(action, pids + [pid], es + [e])
  {
  }

  /** Takes a spindump of the first target, if there is one. Its failure is not an error. */
  method ExecuteSpindump(host: Host, pids: seq<int>) returns (ghost es: seq<Event>)
    modifies host
    ensures host.trace == old(host.trace) + es && CommandsOn("spindump", FirstFew(pids, 1), es)
    ensures if pids == [] then es == [] else
              |es| == 1 && es[0].Command? && es[0].action == "spindump" && es[0].pids == [pids[0]]
    ensures Recorded(host.world, es, old(host.ticks), old(host.clock), host.ticks, host.clock)
  {
    es := [];
    if |pids| == 0 {
      return;
    }
    var _, step := RunCommand(host, "spindump", [pids[0]]);
    es := step;
  }

  method RunAction(host: Host, cfg: Config, d: Decision, s: Snapshot, action: string)
    returns (r: Option<ActionError>, ghost es: seq<Event>)
    modifies host
    ensures host.trace == old(host.trace) + es && Ran(cfg, d, action, es, r)
    ensures r == Some(ActionError.UnknownAction(action)) <==> action !in KNOWN_ACTIONS
    ensures Recorded(host.world, es, old(host.ticks), old(host.clock), host.ticks, host.clock)
  {
    hide Recorded, TwoPhase, CommandsOn;
    r, es := None, [];
    NothingCommanded(action, host.world, host.ticks, host.clock);
    match action {
      case "log" =>
        var _ := ParentTally.ParentCounts(s, d.pids);
      case "notify" =>
        var ok;
        ok, es := RunCommand(host, "notify", []);
        r := if ok then None else Some(NotifyFailed);
      case "terminate" =>
        var cancelled, terminated, survivors;
        cancelled, terminated, survivors, es := ExecuteTerminate(host, cfg.gracePeriod, d.policyName, d.pids);
        r := if cancelled then Some(Cancelled) else None;
      case "diagnose" =>
        if cfg.diagnosticsPath != "" {
          var ok;
          ok, es := RunCommand(host, "diagnose", []);
          r := if ok then None else Some(DirectoryFailed);
        }
      case "sample" =>
        es := ExecuteSample(host, d.pids);
      case "spindump" =>
        es := ExecuteSpindump(host, d.pids);
      case _ =>
        r := Some(ActionError.UnknownAction(action));
    }
  }

  /** Runs every action of a decision, also after a failure; the errors are those of the failed actions, in order. */
  method Execute(host: Host, cfg: Config, d: Decision, s: Snapshot)
    returns (errs: seq<(string, ActionError)>, ghost es: seq<Event>)
    modifies host
    ensures host.trace == old(host.trace) + es && RanAll(cfg, d, es, errs)
    ensures Recorded(host.world, es, old(host.ticks), old(host.clock), host.ticks, host.clock)
  {
    hide *;
    errs, es := [], [];
    ghost var segments: seq<seq<Event>>, results: seq<Option<ActionError>> := [], [];
    ghost var tried := [];
    NothingRan(cfg, d, host.world, host.ticks, host.clock);
    for i := 0 to |d.actions|
      invariant host.trace == old(host.trace) + es && es == Flatten(segments)
      invariant tried == d.actions[..i] && |results| == i
      invariant AllRan(cfg, d, segments, results, i) && errs == Failures(tried, results)
      invariant Recorded(host.world, es, old(host.ticks), old(host.clock), host.ticks, host.clock)
    {
      ghost var t, c := host.ticks, host.clock;
      var r, step := RunAction(host, cfg, d, s, d.actions[i]);
      ConcatAssociative(old(host.trace), es, step);
      RecordedConcat(host.world, es, step, old(host.ticks), old(host.clock), t, c, host.ticks, host.clock);
      OneMoreRan(cfg, d, segments, results, i, step, r);
      OneMoreFailure(tried, results, d.actions[i], r);
      es, segments, results, tried := es + step, segments + [step], results + [r], tried + [d.actions[i]];
      if r.Some? {
        errs := errs + [(d.actions[i], r.value)];
      }
    }
    assert tried == d.actions;
    EverythingRan(cfg, d, segments, results);
  }

  lemma NothingRan(cfg: Config, d: Decision, world: World, t: nat, c: int)
    ensures AllRan(cfg, d, [], [], 0) && Flatten([]) == [] && Failures([], []) == []
    ensures Recorded(world, [], t, c, t, c)
  {
  }

  lemma EverythingRan(cfg: Config, d: Decision, segments: seq<seq<Event>>, results: seq<Option<ActionError>>)
    requires AllRan(cfg, d, segments, results, |d.actions|)
    ensures |results| == |d.actions| && RanAll(cfg, d, Flatten(segments), Failures(d.actions, results))
  {
  }

  lemma OneMoreRan(cfg: Config, d: Decision, segments: seq<seq<Event>>, results: seq<Option<ActionError>>, i: nat,
                   step: seq<Event>, r: Option<ActionError>)
    requires AllRan(cfg, d, segments, results, i) && i < |d.actions| && Ran(cfg, d, d.actions[i], step, r)
    ensures AllRan(cfg, d, segments + [step], results + [r], i + 1)
    ensures Flatten(segments + [step]) == Flatten(segments) + step
  {
    assert Init(segments + [step]) == segments;
  }

  lemma OneMoreFailure(actions: seq<string>, results: seq<Option<ActionError>>, action: string, r: Option<ActionError>)
    requires |results| == |actions|
    ensures Failures(actions + [action], results + [r]) ==
      Failures(actions, results) + if r.Some? then [(action, r.value)] else []
  {
    assert Init(actions + [action]) == actions && Init(results + [r]) == results;
  }

  /** Execution is error-free exactly when no action failed. */
  lemma {:induction false} NoFailures(actions: seq<string>, results: seq<Option<ActionError>>)
    requires |results| == |actions|
    ensures Failures(actions, results) == [] <==> forall k :: 0 <= k < |results| ==> results[k].None?
  {
    if actions != [] {
      NoFailures(Init(actions), Init(results));
      assert results == Init(results) + [Last(results)];
    }
  }

  // ---------------------------------------------------------------- consequences for the trace

  /** Every SIGKILL attempt of a policy has an earlier SIGTERM attempt of the same policy on the same PID,
      at least the grace period before it. */
  ghost predicate KillsJustified(grace: int, es: seq<Event>) {
    forall k :: 0 <= k < |es| && es[k].Attempt? && es[k].signal == Kill && es[k].sender.ByPolicy? ==>
      exists i :: 0 <= i < k && IsAttempt(es[i], es[k].sender, es[k].pid, Term) && es[i].at + grace <= es[k].at
  }

  lemma KillsJustifiedConcat(grace: int, a: seq<Event>, b: seq<Event>)
    requires KillsJustified(grace, a) && KillsJustified(grace, b)
    ensures KillsJustified(grace, a + b)
  {
    var es := a + b;
    forall k | 0 <= k < |a| && es[k].Attempt? && es[k].signal == Kill && es[k].sender.ByPolicy?
      ensures exists i :: 0 <= i < k && IsAttempt(es[i], es[k].sender, es[k].pid, Term) && es[i].at + grace <= es[k].at
    {
      assert es[k] == a[k];
      var i :| 0 <= i < k && IsAttempt(a[i], a[k].sender, a[k].pid, Term) && a[i].at + grace <= a[k].at;
      assert es[i] == a[i];
    }
    forall k | |a| <= k < |es| && es[k].Attempt? && es[k].signal == Kill && es[k].sender.ByPolicy?
      ensures exists i :: 0 <= i < k && IsAttempt(es[i], es[k].sender, es[k].pid, Term) && es[i].at + grace <= es[k].at
    {
      var kill := b[k - |a|];
      var i :| 0 <= i < k - |a| && IsAttempt(b[i], kill.sender, kill.pid, Term) && b[i].at + grace <= kill.at;
      assert es[i + |a|] == b[i];
    }
  }

  /** Signals are sent only by a terminate action, under the policy's name, to its targets. */
  ghost predicate SignalsOf(d: Decision, es: seq<Event>) {
    forall k :: 0 <= k < |es| && es[k].Attempt? ==>
      es[k].sender == ByPolicy(d.policyName) && es[k].pid in d.pids && "terminate" in d.actions
  }

  lemma {:induction false} ExecutionTrace(
    cfg: Config, d: Decision, segments: seq<seq<Event>>, results: seq<Option<ActionError>>, n: nat)
    requires AllRan(cfg, d, segments, results, n)
    ensures SignalsOf(d, Flatten(segments)) && KillsJustified(cfg.gracePeriod, Flatten(segments))
    decreases n
  {
    if n > 0 {
      ExecutionTrace(cfg, d, Init(segments), Init(results), n - 1);
      var es, r := Last(segments), Last(results);
      if d.actions[n - 1] == "terminate" {
        forall k | 0 <= k < |es| && es[k].Attempt?
          ensures es[k].sender == ByPolicy(d.policyName) && es[k].pid in d.pids
        {
          OnlyTargetsSignalled(ByPolicy(d.policyName), cfg.gracePeriod, d.pids, es, r.Some?, k);
        }
        forall k | 0 <= k < |es| && es[k].Attempt? && es[k].signal == Kill
          ensures exists i ::
            0 <= i < k && IsAttempt(es[i], es[k].sender, es[k].pid, Term) && es[i].at + cfg.gracePeriod <= es[k].at
        {
          OnlyTargetsSignalled(ByPolicy(d.policyName), cfg.gracePeriod, d.pids, es, r.Some?, k);
          KillsFollowTerms(ByPolicy(d.policyName), cfg.gracePeriod, d.pids, es, r.Some?, k);
        }
      }
      KillsJustifiedConcat(cfg.gracePeriod, Flatten(Init(segments)), es);
    }
  }

  lemma RanAllTrace(cfg: Config, d: Decision, es: seq<Event>, errs: seq<(string, ActionError)>)
    requires RanAll(cfg, d, es, errs)
    ensures SignalsOf(d, es) && KillsJustified(cfg.gracePeriod, es)
  {
    var segments, results :|
      AllRan(cfg, d, segments, results, |d.actions|) && es == Flatten(segments) && errs == Failures(d.actions, results);
    ExecutionTrace(cfg, d, segments, results, |d.actions|);
  }

  lemma {:induction false} FailuresOf(
    actions: seq<string>, results: seq<Option<ActionError>>, f: (string, ActionError)) returns (k: nat)
    requires |results| == |actions| && f in Failures(actions, results)
    ensures k < |actions| && actions[k] == f.0 && results[k] == Some(f.1)
  {
    if Last(results) == Some(f.1) && Last(actions) == f.0 {
      k := |actions| - 1;
    } else {
      k := FailuresOf(Init(actions), Init(results), f);
    }
  }

  /** With a validated configuration the actions of a triggered decision are all known,
      so no execution of it reports an unknown action, and a terminate action always has targets. */
  lemma ValidatedExecution(cfg: Config, s: Snapshot, ds: seq<Decision>, d: Decision, es: seq<Event>,
                           errs: seq<(string, ActionError)>)
    requires ValidConfig(cfg) && Indexed(s) && PossibleEvaluation(cfg.policies, s, ds) && d in ds && d.triggered
    requires RanAll(cfg, d, es, errs)
    ensures forall f :: f in errs ==> !f.1.UnknownAction? && f.0 in d.actions && f.0 in KNOWN_ACTIONS
    ensures d.pids != []
  {
    hide PossibleEvaluation, Indexed, TwoPhase;
    ValidatedTriggersHaveTargets(cfg, s, ds, d);
    var segments, results :|
      AllRan(cfg, d, segments, results, |d.actions|) && es == Flatten(segments) && errs == Failures(d.actions, results);
    forall f | f in errs
      ensures !f.1.UnknownAction? && f.0 in d.actions && f.0 in KNOWN_ACTIONS
    {
      var k := FailuresOf(d.actions, results, f);
      assert Ran(cfg, d, d.actions[k], segments[k], results[k]);
    }
  }

  lemma {:induction false} SegmentWithin(segments: seq<seq<Event>>, k: nat, e: Event)
    requires k < |segments| && e in segments[k]
    ensures e in Flatten(segments)
  {
    if k < |segments| - 1 {
      SegmentWithin(Init(segments), k, e);
    }
  }

  lemma {:induction false} SegmentSource(segments: seq<seq<Event>>, e: Event) returns (k: nat)
    requires e in Flatten(segments)
    ensures k < |segments| && e in segments[k]
  {
    if e in Last(segments) {
      k := |segments| - 1;
    } else {
      k := SegmentSource(Init(segments), e);
    }
  }

  /** The event is no reason for an error: it is no failed notification or diagnosis and no cancelled wait. */
  predicate Untroubled(v: Event) {
    && (v.Command? && v.action in {"notify", "diagnose"} ==> v.ok)
    && (v.Wait? ==> !v.cancelled)
  }

  lemma RanWithoutError(cfg: Config, d: Decision, action: string, es: seq<Event>, r: Option<ActionError>)
    requires Ran(cfg, d, action, es, r)
    ensures r.None? <==> action in KNOWN_ACTIONS && forall v :: v in es ==> Untroubled(v)
    ensures forall v :: v in es && v.Wait? ==> v.duration == cfg.gracePeriod
  {
    hide TwoPhase;
    if action == "terminate" {
      OnlyWait(ByPolicy(d.policyName), cfg.gracePeriod, d.pids, es, r.Some?);
    } else if es != [] {
      assert es[0] in es;
    }
  }

  /** An execution is error-free exactly when all its actions are known, no notification and no creation of a diagnosis
      directory failed, and no wait was cancelled: samples and spindumps may fail. All its waits are grace periods. */
  lemma ErrorFreeExactly(cfg: Config, d: Decision, es: seq<Event>, errs: seq<(string, ActionError)>)
    requires RanAll(cfg, d, es, errs)
    ensures errs == [] <==> (forall a :: a in d.actions ==> a in KNOWN_ACTIONS) && forall v :: v in es ==> Untroubled(v)
    ensures forall v :: v in es && v.Wait? ==> v.duration == cfg.gracePeriod
  {
    hide Ran, Flatten, Failures, Untroubled;
    var segments: seq<seq<Event>>, results: seq<Option<ActionError>> :|
      AllRan(cfg, d, segments, results, |d.actions|) && es == Flatten(segments) && errs == Failures(d.actions, results);
    NoFailures(d.actions, results);
    forall k | 0 <= k < |d.actions|
      ensures results[k].None? <==> d.actions[k] in KNOWN_ACTIONS && forall v :: v in segments[k] ==> Untroubled(v)
      ensures forall v :: v in segments[k] && v.Wait? ==> v.duration == cfg.gracePeriod
      ensures forall v :: v in segments[k] ==> v in es
    {
      RanWithoutError(cfg, d, d.actions[k], segments[k], results[k]);
      forall v | v in segments[k] ensures v in es { SegmentWithin(segments, k, v); }
    }
    forall v | v in es
      ensures exists k :: 0 <= k < |segments| && v in segments[k]
    {
      var k := SegmentSource(segments, v);
    }
  }

  /** Every execution with a terminate action attempts a SIGTERM on each of its targets. */
  lemma TargetsTermed(cfg: Config, d: Decision, es: seq<Event>, errs: seq<(string, ActionError)>, pid: int)
    requires RanAll(cfg, d, es, errs) && "terminate" in d.actions && pid in d.pids
    ensures exists v :: v in es && IsAttempt(v, ByPolicy(d.policyName), pid, Term)
  {
    hide TwoPhase;
    var segments: seq<seq<Event>>, results: seq<Option<ActionError>> :|
      AllRan(cfg, d, segments, results, |d.actions|) && es == Flatten(segments) && errs == Failures(d.actions, results);
    var k :| 0 <= k < |d.actions| && d.actions[k] == "terminate";
    assert Ran(cfg, d, d.actions[k], segments[k], results[k]);
    EveryTargetTermed(ByPolicy(d.policyName), cfg.gracePeriod, d.pids, segments[k], results[k].Some?);
    var j :| 0 <= j < |d.pids| && d.pids[j] == pid;
    SegmentWithin(segments, k, segments[k][j]);
  }

  /** After an error-free execution with a terminate action, in an honest environment that does not reuse the PID,
      every target is dead, has been sent SIGKILL, or a signal to it was refused in the second phase. */
  lemma TerminatedTargetsHandled(cfg: Config, world: World, d: Decision, es: seq<Event>, pid: int, end: nat)
    requires RanAll(cfg, d, es, []) && "terminate" in d.actions && pid in d.pids
    requires forall e :: e in es ==> Answered(world, e) && e.tick < end
    requires Honest(world) && NotReused(world, pid)
    ensures Handled(world, ByPolicy(d.policyName), es, pid, end)
  {
    hide TwoPhase;
    var segments, results :|
      AllRan(cfg, d, segments, results, |d.actions|) && es == Flatten(segments) && [] == Failures(d.actions, results);
    NoFailures(d.actions, results);
    var k :| 0 <= k < |d.actions| && d.actions[k] == "terminate";
    assert Ran(cfg, d, d.actions[k], segments[k], results[k]);
    forall e | e in segments[k]
      ensures e in es
    {
      SegmentWithin(segments, k, e);
    }
    EveryTargetHandled(world, ByPolicy(d.policyName), cfg.gracePeriod, d.pids, segments[k], pid, end);
  }

  // ---------------------------------------------------------------- signals on request

  datatype SendError = ProcessNotFound | SignalRefused

  method TermProcess(host: Host, pid: int) returns (err: Option<SendError>)
    modifies host
    ensures var reply := host.world.reply(old(host.ticks), pid, Term);
      host.trace == old(host.trace) + [Attempt(old(host.ticks), host.clock, ByRequest, pid, Term, reply)]
    ensures host.ticks == old(host.ticks) + 1 && host.clock >= old(host.clock)
    ensures err.None? <==> Last(host.trace).reply in {Delivered, Gone}
    ensures err == Some(ProcessNotFound) <==> Last(host.trace).reply == NotFound
  {
    var reply := host.Send(ByRequest, pid, Term);
    if reply == NotFound {
      return Some(ProcessNotFound);
    }
    if reply != Delivered {
      if reply == Gone {
        return None;
      }
      return Some(SignalRefused);
    }
    return None;
  }

  method KillProcess(host: Host, pid: int) returns (err: Option<SendError>)
    modifies host
    ensures var reply := host.world.reply(old(host.ticks), pid, Kill);
      host.trace == old(host.trace) + [Attempt(old(host.ticks), host.clock, ByRequest, pid, Kill, reply)]
    ensures host.ticks == old(host.ticks) + 1 && host.clock >= old(host.clock)
    ensures err.None? <==> Last(host.trace).reply in {Delivered, Gone}
    ensures err == Some(ProcessNotFound) <==> Last(host.trace).reply == NotFound
  {
    var reply := host.Send(ByRequest, pid, Kill);
    if reply == NotFound {
      return Some(ProcessNotFound);
    }
    if reply != Delivered {
      if reply == Gone {
        return None;
      }
      return Some(SignalRefused);
    }
    return None;
  }
}
