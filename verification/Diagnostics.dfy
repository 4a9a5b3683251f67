/** The process-tree part of a diagnostic capture (internal/diagnostics/diagnostics.go). */
module Diagnostics {
  import opened Lists
  import opened Collector

  /** `chain` is the ancestry of `pid` in the index, oldest ancestor first; `keys` are the PIDs it was looked up under.
      It ends at `pid`, each element is the parent of the next, no PID is visited twice, and it is maximal:
      its head is an orphan root, its own parent, has an unknown parent, or has a parent already in the chain. */
  ghost predicate IsParentChain(byPID: map<int, ProcessInfo>, pid: int, keys: seq<int>, chain: seq<ProcessInfo>) {
    && |keys| == |chain|
    && NoDuplicates(keys)
    && (forall i :: 0 <= i < |keys| ==> keys[i] in byPID && chain[i] == byPID[keys[i]])
    && (chain == [] <==> pid !in byPID)
    && (chain != [] ==> Last(keys) == pid)
    && (forall i :: 1 <= i < |chain| ==>
          keys[i - 1] == chain[i].ppid && chain[i].ppid != 0 && chain[i].ppid != chain[i].pid)
    && (chain != [] ==> Stops(byPID, keys, chain[0]))
  }

  predicate Stops(byPID: map<int, ProcessInfo>, keys: seq<int>, head: ProcessInfo) {
    head.ppid == 0 || head.ppid == head.pid || head.ppid !in byPID || head.ppid in keys
  }

  /** The chain so far: linked, without repetition, and about to go on with `next`, the parent of its head. */
  ghost predicate Growing(byPID: map<int, ProcessInfo>, pid: int, keys: seq<int>, chain: seq<ProcessInfo>, next: int) {
    && |keys| == |chain|
    && NoDuplicates(keys)
    && (forall i :: 0 <= i < |keys| ==> keys[i] in byPID && chain[i] == byPID[keys[i]])
    && (forall i :: 1 <= i < |chain| ==>
          keys[i - 1] == chain[i].ppid && chain[i].ppid != 0 && chain[i].ppid != chain[i].pid)
    && if chain == [] then next == pid else
         Last(keys) == pid && next == chain[0].ppid && next != 0 && next != chain[0].pid
  }

  /** One more ancestor: the chain is complete when it is a root or its own parent, and may grow on otherwise. */
  lemma OneMoreAncestor(byPID: map<int, ProcessInfo>, pid: int, keys: seq<int>, chain: seq<ProcessInfo>, next: int)
    requires Growing(byPID, pid, keys, chain, next) && next !in keys && next in byPID
    ensures var p := byPID[next];
      if p.ppid == 0 || p.ppid == p.pid then IsParentChain(byPID, pid, [next] + keys, [p] + chain)
      else Growing(byPID, pid, [next] + keys, [p] + chain, p.ppid)
  {
    var keys', chain' := [next] + keys, [byPID[next]] + chain;
    assert Last(keys') == if keys == [] then next else Last(keys);
    assert forall i :: 1 <= i < |chain'| ==> chain'[i] == chain[i - 1] && keys'[i] == keys[i - 1];
  }

  /** The chain is complete when its next ancestor is unknown or already in it. */
  lemma NoMoreAncestors(byPID: map<int, ProcessInfo>, pid: int, keys: seq<int>, chain: seq<ProcessInfo>, next: int)
    requires Growing(byPID, pid, keys, chain, next) && (next in keys || next !in byPID)
    ensures IsParentChain(byPID, pid, keys, chain)
  {
  }

  /** Terminates on every index, cyclic ones included: each round sees a PID of the index for the first time. */
  method BuildParentChain(pid: int, s: Snapshot) returns (chain: seq<ProcessInfo>, ghost keys: seq<int>)
    ensures IsParentChain(s.byPID, pid, keys, chain)
    ensures |chain| <= |s.byPID|
  {
    hide Growing, IsParentChain;
    chain, keys := [], [];
    var seen: set<int> := {};
    var current := pid;
    NothingGrown(s.byPID, pid);
    while current !in seen
      invariant Growing(s.byPID, pid, keys, chain, current)
      invariant seen == set k | k in keys
      decreases s.byPID.Keys - seen
    {
      seen := seen + {current};
      var proc := s.ProcessByPID(current);
      if proc.None? {
        NoMoreAncestors(s.byPID, pid, keys, chain, current);
        break;
      }
      OneMoreAncestor(s.byPID, pid, keys, chain, current);
      chain := [proc.value] + chain;
      keys := [current] + keys;
      if proc.value.ppid == 0 || proc.value.ppid == proc.value.pid {
        break;
      }
      current := proc.value.ppid;
    }
    if !IsParentChain(s.byPID, pid, keys, chain) {
      NoMoreAncestors(s.byPID, pid, keys, chain, current);
    }
    ChainFits(s.byPID, pid, keys, chain);
  }

  lemma ChainFits(byPID: map<int, ProcessInfo>, pid: int, keys: seq<int>, chain: seq<ProcessInfo>)
    requires IsParentChain(byPID, pid, keys, chain)
    ensures |chain| <= |byPID|
  {
    ShortChain(keys, byPID.Keys);
    assert |byPID.Keys| == |byPID|;
  }

  lemma NothingGrown(byPID: map<int, ProcessInfo>, pid: int)
    ensures Growing(byPID, pid, [], [], pid)
  {
  }

  lemma {:induction false} ShortChain(keys: seq<int>, within: set<int>)
    requires NoDuplicates(keys) && forall i :: 0 <= i < |keys| ==> keys[i] in within
    ensures |keys| <= |within|
  {
    if keys != [] {
      ShortChain(Init(keys), within - {Last(keys)});
    }
  }

  /** The chain is determined by the index: any two chains of one PID are the same. */
  lemma ParentChainUnique(byPID: map<int, ProcessInfo>, pid: int,
                          k1: seq<int>, c1: seq<ProcessInfo>, k2: seq<int>, c2: seq<ProcessInfo>)
    requires IsParentChain(byPID, pid, k1, c1) && IsParentChain(byPID, pid, k2, c2)
    ensures k1 == k2 && c1 == c2
  {
    NotShorter(byPID, pid, k1, c1, k2, c2);
    NotShorter(byPID, pid, k2, c2, k1, c1);
    forall i | 0 <= i < |k1|
      ensures k1[i] == k2[i]
    {
      SameTails(byPID, pid, k1, c1, k2, c2, |k1| - i);
    }
  }

  /** Counted from the end, two chains of one PID agree as far as both reach. */
  lemma {:induction false} SameTails(byPID: map<int, ProcessInfo>, pid: int,
                                     k1: seq<int>, c1: seq<ProcessInfo>, k2: seq<int>, c2: seq<ProcessInfo>, n: nat)
    requires IsParentChain(byPID, pid, k1, c1) && IsParentChain(byPID, pid, k2, c2)
    requires 1 <= n <= |k1| && n <= |k2|
    ensures k1[|k1| - n] == k2[|k2| - n]
  {
    hide Stops, NoDuplicates;
    if n > 1 {
      SameTails(byPID, pid, k1, c1, k2, c2, n - 1);
      assert c1[|k1| - n + 1] == c2[|k2| - n + 1];
    }
  }

  /** No proper tail of a chain is maximal. */
  lemma TailGoesOn(byPID: map<int, ProcessInfo>, pid: int, keys: seq<int>, chain: seq<ProcessInfo>, j: nat)
    requires IsParentChain(byPID, pid, keys, chain) && 1 <= j < |chain|
    ensures !Stops(byPID, keys[j..], chain[j])
  {
    forall m | 0 <= m < |keys[j..]|
      ensures keys[j..][m] != chain[j].ppid
    {
      assert keys[j..][m] == keys[j + m] && keys[j - 1] == chain[j].ppid;
    }
  }

  lemma NotShorter(byPID: map<int, ProcessInfo>, pid: int,
                   k1: seq<int>, c1: seq<ProcessInfo>, k2: seq<int>, c2: seq<ProcessInfo>)
    requires IsParentChain(byPID, pid, k1, c1) && IsParentChain(byPID, pid, k2, c2)
    ensures |k1| >= |k2|
  {
    if 0 < |k1| < |k2| {
      var j := |k2| - |k1|;
      forall i | 0 <= i < |k1|
        ensures k1[i] == k2[j..][i]
      {
        SameTails(byPID, pid, k1, c1, k2, c2, |k1| - i);
      }
      assert k1 == k2[j..] && c1[0] == c2[j];
      TailGoesOn(byPID, pid, k2, c2, j);
    }
  }

  /** For an index whose keys are the PIDs of its entries, as `Collect` builds it,
      the chain has distinct PIDs, ends at the requested process and links by parent PID. */
  lemma CollectedChain(s: Snapshot, pid: int, keys: seq<int>, chain: seq<ProcessInfo>)
    requires Indexed(s) && IsParentChain(s.byPID, pid, keys, chain) && chain != []
    ensures forall i :: 0 <= i < |chain| ==> keys[i] == chain[i].pid
    ensures Last(chain).pid == pid
    ensures forall i :: 1 <= i < |chain| ==> chain[i - 1].pid == chain[i].ppid
    ensures forall i, j :: 0 <= i < j < |chain| ==> chain[i].pid != chain[j].pid
  {
    var raw: RawList :| s.processes == Resolved(raw) && s.byPID == IndexByPID(raw);
    forall i | 0 <= i < |chain|
      ensures keys[i] == chain[i].pid
    {
      LastProcessWins(raw, keys[i]);
    }
  }
}
