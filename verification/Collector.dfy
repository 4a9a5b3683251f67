/** System snapshots and their indices (internal/collector/collector.go). */
module Collector {
  import opened Lists
  import opened Sysctl

  datatype ProcessInfo = ProcessInfo(
    pid: int, ppid: int, name: string, parentName: string, path: string, residentMemory: nat)

  datatype Snapshot = Snapshot(
    load: LoadAverage, cpuCount: int, memory: MemoryStats,
    processes: seq<ProcessInfo>, byName: map<string, seq<ProcessInfo>>, byPID: map<int, ProcessInfo>)
  {
    function ProcessesByName(name: string): seq<ProcessInfo> {
      if name in byName then byName[name] else []
    }

    function ProcessByPID(pid: int): Option<ProcessInfo> {
      if pid in byPID then Some(byPID[pid]) else None
    }
  }

  /** A process list as it is read from the system: no parent name is known yet. */
  type RawList = ps: seq<ProcessInfo> | forall p :: p in ps ==> p.parentName == ""

  const NO_LOAD := LoadAverage(0.0, 0.0, 0.0)
  const NO_MEMORY := MemoryStats(0, 0, 0, 0)

  function NameIs(name: string): ProcessInfo -> bool {
    (p: ProcessInfo) => p.name == name
  }

  function ParentIs(parent: string): ProcessInfo -> bool {
    (p: ProcessInfo) => p.parentName == parent
  }

  function ParentIn(parents: seq<string>): ProcessInfo -> bool {
    (p: ProcessInfo) => p.parentName in parents
  }

  function ParentNotIn(parents: seq<string>): ProcessInfo -> bool {
    (p: ProcessInfo) => p.parentName !in parents
  }

  // ---------------------------------------------------------------- indices

  /** The index by PID: a later entry replaces an earlier one with the same PID. */
  function IndexByPID(ps: seq<ProcessInfo>): map<int, ProcessInfo> {
    if ps == [] then map[] else IndexByPID(Init(ps))[Last(ps).pid := Last(ps)]
  }

  function AppendTo(groups: map<string, seq<ProcessInfo>>, p: ProcessInfo): map<string, seq<ProcessInfo>> {
    groups[p.name := (if p.name in groups then groups[p.name] else []) + [p]]
  }

  function GroupByName(ps: seq<ProcessInfo>): map<string, seq<ProcessInfo>> {
    if ps == [] then map[] else AppendTo(GroupByName(Init(ps)), Last(ps))
  }

  function ResolveParent(p: ProcessInfo, index: map<int, ProcessInfo>): ProcessInfo {
    if p.ppid in index then p.(parentName := index[p.ppid].name) else p
  }

  /** The process list with every parent name looked up by PID. */
  function Resolved(ps: seq<ProcessInfo>): seq<ProcessInfo> {
    seq(|ps|, i requires 0 <= i < |ps| => ResolveParent(ps[i], IndexByPID(ps)))
  }

  /** The invariant of every collected snapshot: both indices describe the flat list,
      the index by PID in the state before parent names were resolved. */
  ghost predicate Indexed(s: Snapshot) {
    && s.byName == GroupByName(s.processes)
    && exists raw: RawList :: s.processes == Resolved(raw) && s.byPID == IndexByPID(raw)
  }

  lemma EmptyIndices()
    ensures Resolved([]) == [] && GroupByName([]) == map[] && IndexByPID([]) == map[]
  {
  }

  lemma IndexAppend(ps: seq<ProcessInfo>, i: nat)
    requires i < |ps|
    ensures GroupByName(ps[..i + 1]) == AppendTo(GroupByName(ps[..i]), ps[i])
    ensures IndexByPID(ps[..i + 1]) == IndexByPID(ps[..i])[ps[i].pid := ps[i]]
  {
    assert Init(ps[..i + 1]) == ps[..i];
  }

  // ---------------------------------------------------------------- collection

  datatype Task = Load | CPUCount | Memory | Processes

  /** The answers of the platform for one collection. */
  datatype Inputs = Inputs(
    loadavg: Result<seq<Byte>>,
    ncpu: Result<nat>,
    memsize: Result<nat>, pageSize: Result<nat>, freeCount: Result<seq<Byte>>,
    processes: Result<RawList>)

  /** The order in which the four collectors obtain the mutex: each of them once. */
  ghost predicate Schedule(order: seq<Task>) {
    NoDuplicates(order) && forall t: Task :: t in order
  }

  function ErrorList<T>(r: Result<T>): seq<string> {
    if r.Err? then [r.error] else []
  }

  function ErrorsOf(inputs: Inputs): Task -> seq<string> {
    (t: Task) =>
      match t
      case Load => ErrorList(GetLoadAverage(inputs.loadavg))
      case CPUCount => ErrorList(inputs.ncpu)
      case Memory => ErrorList(GetMemoryStats(inputs.memsize, inputs.pageSize, inputs.freeCount))
      case Processes => ErrorList(inputs.processes)
  }

  const ALL_TASKS := [Load, CPUCount, Memory, Processes]

  function AllErrors(inputs: Inputs): seq<string> {
    FlatMap(ErrorsOf(inputs), ALL_TASKS)
  }

  /** What is collected, whatever the schedule: a failed collector leaves its fields at zero. */
  function SnapshotOf(inputs: Inputs): Snapshot {
    var raw: RawList := match inputs.processes case Ok(ps) => ps case Err(_) => [];
    Snapshot(
      match GetLoadAverage(inputs.loadavg) case Ok(l) => l case Err(_) => NO_LOAD,
      match inputs.ncpu case Ok(n) => n case Err(_) => 0,
      match GetMemoryStats(inputs.memsize, inputs.pageSize, inputs.freeCount) case Ok(m) => m case Err(_) => NO_MEMORY,
      Resolved(raw), GroupByName(Resolved(raw)), IndexByPID(raw))
  }

  /** The snapshot under construction and the error list, shared by the four collectors under one mutex.
      Each method is one critical section. */
  class Collection {
    var load: LoadAverage
    var cpuCount: int
    var memory: MemoryStats
    var processes: seq<ProcessInfo>
    var byName: map<string, seq<ProcessInfo>>
    var byPID: map<int, ProcessInfo>
    var errs: seq<string>

    constructor ()
      ensures load == NO_LOAD && cpuCount == 0 && memory == NO_MEMORY && errs == []
      ensures processes == [] && byName == map[] && byPID == map[]
    {
      load, cpuCount, memory, errs := NO_LOAD, 0, NO_MEMORY, [];
      processes, byName, byPID := [], map[], map[];
    }

    method CommitLoad(r: Result<LoadAverage>)
      modifies `load, `errs
      ensures load == if r.Ok? then r.value else old(load)
      ensures errs == if r.Ok? then old(errs) else old(errs) + [r.error]
    {
      match r
      case Err(e) => errs := errs + [e];
      case Ok(l) => load := l;
    }

    method CommitCPUCount(r: Result<nat>)
      modifies `cpuCount, `errs
      ensures cpuCount == if r.Ok? then r.value else old(cpuCount)
      ensures errs == if r.Ok? then old(errs) else old(errs) + [r.error]
    {
      match r
      case Err(e) => errs := errs + [e];
      case Ok(n) => cpuCount := n;
    }

    method CommitMemory(r: Result<MemoryStats>)
      modifies `memory, `errs
      ensures memory == if r.Ok? then r.value else old(memory)
      ensures errs == if r.Ok? then old(errs) else old(errs) + [r.error]
    {
      match r
      case Err(e) => errs := errs + [e];
      case Ok(m) => memory := m;
    }

    /** Indexes a list by name and by PID. */
    method BuildIndices(ps: seq<ProcessInfo>)
      requires byPID == map[] && byName == map[]
      modifies `byName, `byPID
      ensures byName == GroupByName(ps) && byPID == IndexByPID(ps)
    {
      EmptyIndices();
      hide GroupByName, IndexByPID;
      for i := 0 to |ps|
        invariant byName == GroupByName(ps[..i]) && byPID == IndexByPID(ps[..i])
      {
        IndexAppend(ps, i);
        byName := AppendTo(byName, ps[i]);
        byPID := byPID[ps[i].pid := ps[i]];
      }
      assert ps[..|ps|] == ps;
    }

    /** Looks up the parent names in place. */
    method ResolveParents()
      requires byPID == IndexByPID(processes)
      modifies `processes
      ensures processes == Resolved(old(processes))
    {
      hide IndexByPID;
      var raw := processes;
      var list := new ProcessInfo[|raw|](i requires 0 <= i < |raw| => raw[i]);
      for i := 0 to list.Length
        invariant forall j :: 0 <= j < i ==> list[j] == ResolveParent(raw[j], byPID)
        invariant forall j :: i <= j < list.Length ==> list[j] == raw[j]
      {
        if list[i].ppid in byPID {
          list[i] := list[i].(parentName := byPID[list[i].ppid].name);
        }
      }
      processes := list[..];
      assert processes == Resolved(raw);
    }

    /** Rebuilds the index by name only. */
    method RebuildByName()
      modifies `byName
      ensures byName == GroupByName(processes)
    {
      EmptyIndices();
      hide GroupByName, IndexByPID;
      byName := map[];
      for i := 0 to |processes|
        invariant byName == GroupByName(processes[..i])
      {
        IndexAppend(processes, i);
        byName := AppendTo(byName, processes[i]);
      }
      assert processes[..|processes|] == processes;
    }

    /** Installs the process list: builds both indices, resolves the parent names in place,
        then rebuilds the index by name, which leaves the index by PID without parent names. */
    method CommitProcesses(r: Result<RawList>)
      requires byPID == map[] && byName == map[]
      modifies `processes, `byName, `byPID, `errs
      ensures r.Err? ==> errs == old(errs) + [r.error] && processes == old(processes) && byName == map[] && byPID == map[]
      ensures r.Ok? ==> errs == old(errs) && processes == Resolved(r.value)
      ensures r.Ok? ==> byName == GroupByName(Resolved(r.value)) && byPID == IndexByPID(r.value)
    {
      hide Resolved, GroupByName, IndexByPID;
      match r
      case Err(e) => errs := errs + [e];
      case Ok(raw) =>
        processes := raw;
        BuildIndices(raw);
        ResolveParents();
        RebuildByName();
    }
  }

  function ErrorIn<T>(r: Result<T>): multiset<string> {
    if r.Err? then multiset{r.error} else multiset{}
  }

  /** One collection. The result does not depend on the schedule, and neither does the multiset of errors:
      each figure is the one decoded for it, and zero or empty when its collector failed. */
  method Collect(inputs: Inputs, order: seq<Task>) returns (s: Snapshot, errs: seq<string>)
    requires Schedule(order)
    ensures s == SnapshotOf(inputs)
    ensures var load := GetLoadAverage(inputs.loadavg);
      s.load == if load.Ok? then load.value else LoadAverage(0.0, 0.0, 0.0)
    ensures s.cpuCount == if inputs.ncpu.Ok? then inputs.ncpu.value else 0
    ensures var memory := GetMemoryStats(inputs.memsize, inputs.pageSize, inputs.freeCount);
      s.memory == if memory.Ok? then memory.value else MemoryStats(0, 0, 0, 0)
    ensures inputs.processes.Ok? ==>
      && s.processes == Resolved(inputs.processes.value)
      && s.byName == GroupByName(s.processes) && s.byPID == IndexByPID(inputs.processes.value)
    ensures inputs.processes.Err? ==> s.processes == [] && s.byName == map[] && s.byPID == map[]
    ensures multiset(errs) == multiset(AllErrors(inputs))
    ensures multiset(errs) ==
      ErrorIn(GetLoadAverage(inputs.loadavg)) + ErrorIn(inputs.ncpu)
      + ErrorIn(GetMemoryStats(inputs.memsize, inputs.pageSize, inputs.freeCount)) + ErrorIn(inputs.processes)
  {
    CollectedFigures(inputs);
    CollectedErrors(inputs);
    hide SnapshotOf, FlatMap, AllErrors, GetLoadAverage, GetMemoryStats;
    var c := new Collection();
    ghost var done := [];
    NothingCommitted(c, inputs);
    for k := 0 to |order|
      invariant fresh(c) && done == order[..k] && Sofar(c, inputs, done)
    {
      assert order[k] !in done;
      CommitTask(c, inputs, order[k], done);
      done := done + [order[k]];
    }
    assert done == order;
    AllCommitted(c, inputs, done);
    s := Snapshot(c.load, c.cpuCount, c.memory, c.processes, c.byName, c.byPID);
    errs := c.errs;
  }

  /** What is collected, figure by figure. */
  lemma CollectedFigures(inputs: Inputs)
    ensures var load := GetLoadAverage(inputs.loadavg);
      SnapshotOf(inputs).load == if load.Ok? then load.value else LoadAverage(0.0, 0.0, 0.0)
    ensures SnapshotOf(inputs).cpuCount == if inputs.ncpu.Ok? then inputs.ncpu.value else 0
    ensures var memory := GetMemoryStats(inputs.memsize, inputs.pageSize, inputs.freeCount);
      SnapshotOf(inputs).memory == if memory.Ok? then memory.value else MemoryStats(0, 0, 0, 0)
    ensures var s := SnapshotOf(inputs);
      if inputs.processes.Ok? then
        && s.processes == Resolved(inputs.processes.value)
        && s.byName == GroupByName(s.processes) && s.byPID == IndexByPID(inputs.processes.value)
      else s.processes == [] && s.byName == map[] && s.byPID == map[]
  {
    EmptyIndices();
    hide GetLoadAverage, GetMemoryStats, GroupByName, IndexByPID, Resolved;
  }

  lemma CollectedErrors(inputs: Inputs)
    ensures multiset(AllErrors(inputs)) ==
      ErrorIn(GetLoadAverage(inputs.loadavg)) + ErrorIn(inputs.ncpu)
      + ErrorIn(GetMemoryStats(inputs.memsize, inputs.pageSize, inputs.freeCount)) + ErrorIn(inputs.processes)
  {
    hide GetLoadAverage, GetMemoryStats, ErrorsOf, ErrorIn, FlatMap;
    ErrorsOfTasks(inputs);
    FlatMapOfFour(ErrorsOf(inputs), Load, CPUCount, Memory, Processes);
  }

  lemma ErrorsOfTasks(inputs: Inputs)
    ensures var f := ErrorsOf(inputs);
      && multiset(f(Load)) == ErrorIn(GetLoadAverage(inputs.loadavg))
      && multiset(f(CPUCount)) == ErrorIn(inputs.ncpu)
      && multiset(f(Memory)) == ErrorIn(GetMemoryStats(inputs.memsize, inputs.pageSize, inputs.freeCount))
      && multiset(f(Processes)) == ErrorIn(inputs.processes)
  {
    hide GetLoadAverage, GetMemoryStats, ErrorList, ErrorIn;
    OneError(GetLoadAverage(inputs.loadavg));
    OneError(inputs.ncpu);
    OneError(GetMemoryStats(inputs.memsize, inputs.pageSize, inputs.freeCount));
    OneError(inputs.processes);
  }

  lemma OneError<T>(r: Result<T>)
    ensures multiset(ErrorList(r)) == ErrorIn(r)
  {
  }

  lemma FlatMapOfFour(f: Task -> seq<string>, a: Task, b: Task, c: Task, d: Task)
    ensures FlatMap(f, [a, b, c, d]) == (f(a) + f(b)) + (f(c) + f(d))
  {
    hide FlatMap;
    assert [a, b] + [c, d] == [a, b, c, d];
    FlatMapConcat(f, [a, b], [c, d]);
    FlatMapOfTwo(f, a, b);
    FlatMapOfTwo(f, c, d);
  }

  lemma FlatMapOfTwo(f: Task -> seq<string>, a: Task, b: Task)
    ensures FlatMap(f, [a, b]) == f(a) + f(b)
  {
    assert [] + [a] == [a] && [a] + [b] == [a, b];
    FlatMapAppend(f, [], a);
    FlatMapAppend(f, [a], b);
    assert [] + f(a) == f(a);
  }

  lemma NothingCommitted(c: Collection, inputs: Inputs)
    requires c.load == NO_LOAD && c.cpuCount == 0 && c.memory == NO_MEMORY && c.errs == []
    requires c.processes == [] && c.byName == map[] && c.byPID == map[]
    ensures Sofar(c, inputs, [])
  {
  }

  /** The critical section of one collector. */
  method CommitTask(c: Collection, inputs: Inputs, task: Task, ghost done: seq<Task>)
    requires task !in done && Sofar(c, inputs, done)
    modifies c
    ensures Sofar(c, inputs, done + [task])
  {
    EmptyIndices();
    hide GetLoadAverage, GetMemoryStats, Resolved, GroupByName, IndexByPID, FlatMap;
    FlatMapAppend(ErrorsOf(inputs), done, task);
    match task {
      case Load => c.CommitLoad(GetLoadAverage(inputs.loadavg));
      case CPUCount => c.CommitCPUCount(inputs.ncpu);
      case Memory => c.CommitMemory(GetMemoryStats(inputs.memsize, inputs.pageSize, inputs.freeCount));
      case Processes => c.CommitProcesses(inputs.processes);
    }
  }

  /** The state after the collectors in `done` have committed. */
  ghost predicate Sofar(c: Collection, inputs: Inputs, done: seq<Task>)
    reads c
  {
    var final := SnapshotOf(inputs);
    && c.load == (if Load in done then final.load else NO_LOAD)
    && c.cpuCount == (if CPUCount in done then final.cpuCount else 0)
    && c.memory == (if Memory in done then final.memory else NO_MEMORY)
    && c.processes == (if Processes in done then final.processes else [])
    && c.byName == (if Processes in done then final.byName else map[])
    && c.byPID == (if Processes in done then final.byPID else map[])
    && c.errs == FlatMap(ErrorsOf(inputs), done)
  }

  lemma AllCommitted(c: Collection, inputs: Inputs, order: seq<Task>)
    requires Schedule(order) && Sofar(c, inputs, order)
    ensures SnapshotOf(inputs) == Snapshot(c.load, c.cpuCount, c.memory, c.processes, c.byName, c.byPID)
    ensures multiset(c.errs) == multiset(AllErrors(inputs))
  {
    hide GetLoadAverage, GetMemoryStats, Resolved, GroupByName, IndexByPID, FlatMap;
    ErrorsInAnyOrder(inputs, order);
  }

  lemma ErrorsInAnyOrder(inputs: Inputs, order: seq<Task>)
    requires Schedule(order)
    ensures multiset(FlatMap(ErrorsOf(inputs), order)) == multiset(AllErrors(inputs))
  {
    hide FlatMap;
    forall t: Task
      ensures t in ALL_TASKS
    {
      match t
      case Load => assert ALL_TASKS[0] == t;
      case CPUCount => assert ALL_TASKS[1] == t;
      case Memory => assert ALL_TASKS[2] == t;
      case Processes => assert ALL_TASKS[3] == t;
    }
    SameElements(order, ALL_TASKS);
    FlatMapPermutation(ErrorsOf(inputs), order, ALL_TASKS);
  }

  // ---------------------------------------------------------------- queries

  method ProcessesByParent(s: Snapshot, parent: string) returns (result: seq<ProcessInfo>)
    ensures result == Filter(ParentIs(parent), s.processes)
    ensures forall p :: p in result <==> p in s.processes && p.parentName == parent
  {
    result := [];
    for i := 0 to |s.processes|
      invariant result == Filter(ParentIs(parent), s.processes[..i])
    {
      if s.processes[i].parentName == parent {
        result := result + [s.processes[i]];
      }
      assert Init(s.processes[..i + 1]) == s.processes[..i];
    }
    assert s.processes[..|s.processes|] == s.processes;
    FilterElements(ParentIs(parent), s.processes);
  }

  method ProcessesByNameAndParent(s: Snapshot, name: string, parent: string) returns (result: seq<ProcessInfo>)
    ensures result == Filter(ParentIs(parent), s.ProcessesByName(name))
    ensures Indexed(s) ==> result == Filter(NameIs(name), Filter(ParentIs(parent), s.processes))
    ensures Indexed(s) ==> forall p :: p in result <==> p in s.processes && p.name == name && p.parentName == parent
  {
    var named := s.ProcessesByName(name);
    result := [];
    for i := 0 to |named|
      invariant result == Filter(ParentIs(parent), named[..i])
    {
      if named[i].parentName == parent {
        result := result + [named[i]];
      }
      assert Init(named[..i + 1]) == named[..i];
    }
    assert named[..|named|] == named;
    if Indexed(s) {
      NamedWithParent(s, name, parent);
    }
  }

  lemma NamedWithParent(s: Snapshot, name: string, parent: string)
    requires Indexed(s)
    ensures Filter(ParentIs(parent), s.ProcessesByName(name)) ==
      Filter(NameIs(name), Filter(ParentIs(parent), s.processes))
    ensures forall p :: p in Filter(ParentIs(parent), s.ProcessesByName(name)) <==>
      p in s.processes && p.name == name && p.parentName == parent
  {
    hide Filter;
    GroupIsFilter(s.processes, name);
    FiltersCommute(name, parent, s.processes);
    FilterElements(ParentIs(parent), s.processes);
    FilterElements(NameIs(name), Filter(ParentIs(parent), s.processes));
  }

  method FilterByParents(ps: seq<ProcessInfo>, parents: seq<string>) returns (result: seq<ProcessInfo>)
    ensures result == Filter(ParentIn(parents), ps)
    ensures forall p :: p in result <==> p in ps && p.parentName in parents
  {
    FilterElements(ParentIn(parents), ps);
    var parentSet := SetOf(parents);
    result := [];
    for i := 0 to |ps|
      invariant result == Filter(ParentIn(parents), ps[..i])
    {
      if ps[i].parentName in parentSet {
        result := result + [ps[i]];
      }
      assert Init(ps[..i + 1]) == ps[..i];
    }
    assert ps[..|ps|] == ps;
  }

  method ExcludeByParents(ps: seq<ProcessInfo>, excluded: seq<string>) returns (result: seq<ProcessInfo>)
    ensures result == Filter(ParentNotIn(excluded), ps)
    ensures forall p :: p in result <==> p in ps && p.parentName !in excluded
  {
    FilterElements(ParentNotIn(excluded), ps);
    var excludeSet := SetOf(excluded);
    result := [];
    for i := 0 to |ps|
      invariant result == Filter(ParentNotIn(excluded), ps[..i])
    {
      if ps[i].parentName !in excludeSet {
        result := result + [ps[i]];
      }
      assert Init(ps[..i + 1]) == ps[..i];
    }
    assert ps[..|ps|] == ps;
  }

  method SetOf(names: seq<string>) returns (result: set<string>)
    ensures forall name :: name in result <==> name in names
  {
    result := {};
    for i := 0 to |names|
      invariant forall name :: name in result <==> name in names[..i]
    {
      result := result + {names[i]};
      assert names[..i + 1] == names[..i] + [names[i]];
    }
    assert names[..|names|] == names;
  }

  // ---------------------------------------------------------------- agreement of the indices

  /** Every group is the in-order subsequence of the flat list with that name. */
  lemma {:induction false} GroupIsFilter(ps: seq<ProcessInfo>, name: string)
    ensures (if name in GroupByName(ps) then GroupByName(ps)[name] else []) == Filter(NameIs(name), ps)
    ensures name in GroupByName(ps) <==> Filter(NameIs(name), ps) != []
    ensures forall p :: p in Filter(NameIs(name), ps) <==> p in ps && p.name == name
  {
    FilterElements(NameIs(name), ps);
    if ps != [] {
      GroupIsFilter(Init(ps), name);
    }
  }

  lemma FiltersCommute(name: string, parent: string, ps: seq<ProcessInfo>)
    ensures Filter(ParentIs(parent), Filter(NameIs(name), ps)) == Filter(NameIs(name), Filter(ParentIs(parent), ps))
  {
    var both := (p: ProcessInfo) => p.name == name && p.parentName == parent;
    FilterCompose(NameIs(name), ParentIs(parent), both, ps);
    FilterCompose(ParentIs(parent), NameIs(name), both, ps);
  }

  /** The index by PID holds exactly the PIDs of the list, and for each the last process with it. */
  lemma {:induction false} LastProcessWins(ps: seq<ProcessInfo>, pid: int)
    ensures pid in IndexByPID(ps) <==> exists i :: 0 <= i < |ps| && ps[i].pid == pid
    ensures pid in IndexByPID(ps) ==>
      exists i :: 0 <= i < |ps| && ps[i].pid == pid && IndexByPID(ps)[pid] == ps[i]
               && forall j :: i < j < |ps| ==> ps[j].pid != pid
  {
    if ps != [] {
      LastProcessWins(Init(ps), pid);
      var n := |ps| - 1;
      if ps[n].pid == pid {
        assert IndexByPID(ps)[pid] == ps[n];
      } else if pid in IndexByPID(Init(ps)) {
        var i :| 0 <= i < n && Init(ps)[i].pid == pid && IndexByPID(Init(ps))[pid] == Init(ps)[i]
              && forall j :: i < j < n ==> Init(ps)[j].pid != pid;
        assert ps[i].pid == pid && forall j :: i < j < |ps| ==> ps[j].pid != pid;
      }
    }
  }

  /** The invariant holds for every collection, also when the process list could not be read. */
  lemma CollectedIsIndexed(inputs: Inputs)
    ensures Indexed(SnapshotOf(inputs))
  {
    var raw: RawList := match inputs.processes case Ok(ps) => ps case Err(_) => [];
    var s := SnapshotOf(inputs);
    assert s.processes == Resolved(raw) && s.byPID == IndexByPID(raw);
  }

  /** After resolution a parent name is the name of the process the index by PID holds for the parent,
      and empty when it holds none; nothing else of the process changes.
      The index itself keeps the processes as they were read, without parent names. */
  lemma ParentNamesResolved(raw: RawList, i: nat)
    requires i < |raw|
    ensures var p := Resolved(raw)[i];
      && p.(parentName := "") == raw[i]
      && p.parentName == (if p.ppid in IndexByPID(raw) then IndexByPID(raw)[p.ppid].name else "")
      && p.pid in IndexByPID(raw)
      && IndexByPID(raw)[p.pid] in raw && IndexByPID(raw)[p.pid].parentName == ""
  {
    assert raw[i].pid == Resolved(raw)[i].pid;
    LastProcessWins(raw, raw[i].pid);
  }

  function TotalSize(names: seq<string>, groups: map<string, seq<ProcessInfo>>): nat {
    if names == [] then 0 else
      TotalSize(Init(names), groups) + if Last(names) in groups then |groups[Last(names)]| else 0
  }

  function NameIn(names: seq<string>): ProcessInfo -> bool {
    (p: ProcessInfo) => p.name in names
  }

  lemma {:induction false} GroupsAddUp(ps: seq<ProcessInfo>, names: seq<string>)
    requires NoDuplicates(names)
    ensures TotalSize(names, GroupByName(ps)) == |Filter(NameIn(names), ps)|
  {
    if names == [] {
      NoneKept(NameIn(names), ps);
    } else {
      var front := Init(names);
      GroupsAddUp(ps, front);
      GroupIsFilter(ps, Last(names));
      assert names == front + [Last(names)];
      FilterSplit(NameIn(names), NameIn(front), NameIs(Last(names)), ps);
    }
  }

  lemma {:induction false} NoneKept(keep: ProcessInfo -> bool, ps: seq<ProcessInfo>)
    requires forall i :: 0 <= i < |ps| ==> !keep(ps[i])
    ensures Filter(keep, ps) == []
  {
    if ps != [] {
      NoneKept(keep, Init(ps));
    }
  }

  /** No process is lost or duplicated by grouping: in whatever order the groups are visited,
      their sizes add up to the length of the list. */
  lemma GroupSizesConserved(ps: seq<ProcessInfo>, names: seq<string>)
    requires NoDuplicates(names)
    requires forall name :: name in names <==> name in GroupByName(ps)
    ensures TotalSize(names, GroupByName(ps)) == |ps|
  {
    GroupsAddUp(ps, names);
    forall i | 0 <= i < |ps|
      ensures NameIn(names)(ps[i])
    {
      GroupIsFilter(ps, ps[i].name);
      FilterMembers(NameIs(ps[i].name), ps, ps[i]);
    }
    FilterKeepsAll(NameIn(names), ps);
  }
}
