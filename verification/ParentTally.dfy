/** The tally of parents, which the log action (internal/policy/executor.go) and the process tree
    of a diagnostic capture (internal/diagnostics/diagnostics.go) both make. */
module ParentTally {
  import opened Lists
  import opened Collector

  /** The process under `pid` and its parent are both in the index, and the parent has this name. */
  predicate HasParent(s: Snapshot, pid: int, name: string) {
    pid in s.byPID && s.byPID[pid].ppid in s.byPID && s.byPID[s.byPID[pid].ppid].name == name
  }

  function ChildOf(s: Snapshot, name: string): int -> bool {
    (pid: int) => HasParent(s, pid, name)
  }

  /** Counts, for each name, the given processes whose parent has it. */
  method ParentCounts(s: Snapshot, pids: seq<int>) returns (counts: map<string, nat>)
    ensures forall name :: name in counts <==> Filter(ChildOf(s, name), pids) != []
    ensures forall name :: name in counts ==> counts[name] == |Filter(ChildOf(s, name), pids)|
    ensures forall name :: name in counts <==>
      exists pid :: pid in pids && pid in s.byPID && s.byPID[pid].ppid in s.byPID && s.byPID[s.byPID[pid].ppid].name == name
  {
    counts := map[];
    for i := 0 to |pids|
      invariant forall name :: name in counts <==> Filter(ChildOf(s, name), pids[..i]) != []
      invariant forall name :: name in counts ==> counts[name] == |Filter(ChildOf(s, name), pids[..i])|
    {
      forall name
        ensures Filter(ChildOf(s, name), pids[..i + 1]) ==
          Filter(ChildOf(s, name), pids[..i]) + if HasParent(s, pids[i], name) then [pids[i]] else []
      {
        assert pids[..i + 1] == pids[..i] + [pids[i]];
        FilterAppend(ChildOf(s, name), pids[..i], pids[i]);
      }
      var proc := s.ProcessByPID(pids[i]);
      if proc.None? {
        continue;
      }
      var parent := s.ProcessByPID(proc.value.ppid);
      if parent.Some? {
        var name := parent.value.name;
        counts := counts[name := (if name in counts then counts[name] else 0) + 1];
      }
    }
    assert pids[..|pids|] == pids;
    forall name
      ensures Filter(ChildOf(s, name), pids) != [] <==> exists pid :: pid in pids && HasParent(s, pid, name)
    {
      FilterElements(ChildOf(s, name), pids);
      if Filter(ChildOf(s, name), pids) != [] {
        assert Last(Filter(ChildOf(s, name), pids)) in Filter(ChildOf(s, name), pids);
      }
    }
  }
}
