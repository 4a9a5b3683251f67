/** Request handlers of the JSON API that act on the daemon or regroup its data (internal/api/handlers.go). */
module Api {
  import opened Lists
  import opened Collector
  import opened Host
  import opened Executor
  import opened RunLog
  import opened Daemon

  datatype Response =
    | BadRequest(message: string)
    | Unavailable(message: string)
    | Report(terminated: seq<int>, failed: seq<int>, message: string)

  function Known(s: Snapshot): int -> bool {
    (pid: int) => pid in s.byPID
  }

  /** POST /api/terminate. Unknown PIDs are dropped silently; the request is refused only when none is left.
      Otherwise every known PID is reported exactly once, in the order and as often as requested;
      in dry-run all of them are reported failed and nothing is signalled. */
  method HandleTerminate(d: Daemon, pids: seq<int>, force: bool) returns (r: Response, ghost es: seq<Event>)
    requires d.Consistent()
    modifies d.host
    ensures d.Consistent() && (old(d.Valid()) ==> d.Valid())
    ensures d.host.trace == old(d.host.trace) + es
    ensures r.BadRequest? <==> pids == [] || (d.latestSnapshot.Some? && Filter(Known(d.latestSnapshot.value), pids) == [])
    ensures r.Unavailable? <==> pids != [] && d.latestSnapshot.None?
    ensures r.BadRequest? <==>
      || pids == []
      || (d.latestSnapshot.Some? && forall pid :: pid in pids ==> pid !in d.latestSnapshot.value.byPID)
    ensures r.BadRequest? ==>
      r.message == if pids == [] then "no PIDs specified" else "no valid PIDs in current snapshot"
    ensures forall v :: v in es ==>
      && v.Attempt? && v.sender == ByRequest && v.signal == (if force then Kill else Term)
      && v.pid in pids && d.latestSnapshot.Some? && v.pid in d.latestSnapshot.value.byPID
    ensures r.Report? ==> forall pid ::
      multiset(r.terminated)[pid] + multiset(r.failed)[pid]
      == if pid in d.latestSnapshot.value.byPID then multiset(pids)[pid] else 0
    ensures r.Report? && !d.config.dryRun ==>
      && (forall pid :: pid in r.terminated <==>
            exists v :: v in es && v.pid == pid && (v.reply == Delivered || v.reply == Gone))
      && (forall pid :: pid in r.failed <==>
            exists v :: v in es && v.pid == pid && (v.reply == NotFound || v.reply == Refused))
    ensures !r.Report? ==> es == []
    ensures r.Report? ==>
      var valid := Filter(Known(d.latestSnapshot.value), pids);
      && Interleaves(r.terminated, r.failed, valid)
      && (d.config.dryRun ==> r.terminated == [] && r.failed == valid && es == [])
      && (!d.config.dryRun ==>
            Requested(valid, if force then Kill else Term, es) && Reported(valid, es, r.terminated, r.failed))
  {
    hide Requested, Reported, Filter, Interleaves, IsRun, Accounted, Counted, Remembers, Processed;
    es := [];
    if |pids| == 0 {
      return BadRequest("no PIDs specified"), [];
    }
    if d.latestSnapshot.None? {
      return Unavailable("no snapshot available"), [];
    }
    var snapshot := d.latestSnapshot.value;
    var validPIDs := ValidPIDs(snapshot, pids);
    KnownPIDs(snapshot, pids);
    if |validPIDs| == 0 {
      return BadRequest("no valid PIDs in current snapshot"), [];
    }
    if d.config.dryRun {
      AllOnOneSide(validPIDs);
      InterleavingConserves([], validPIDs, validPIDs);
      return Report([], validPIDs, "dry-run mode: no processes terminated"), [];
    }
    var terminated, failed;
    terminated, failed, es := d.Terminate(validPIDs, force);
    ReportShuffles(validPIDs, es, terminated, failed);
    InterleavingConserves(terminated, failed, validPIDs);
    SignalsOnRequest(validPIDs, if force then Kill else Term, es, terminated, failed);
    r := Report(terminated, failed, "processes terminated");
  }

  /** What filtering by the index leaves of a request. */
  lemma KnownPIDs(s: Snapshot, pids: seq<int>)
    ensures var valid := Filter(Known(s), pids);
      && (forall pid :: pid in valid <==> pid in pids && pid in s.byPID)
      && (forall pid :: multiset(valid)[pid] == if pid in s.byPID then multiset(pids)[pid] else 0)
      && (valid == [] <==> forall pid :: pid in pids ==> pid !in s.byPID)
  {
    hide Filter;
    var valid := Filter(Known(s), pids);
    FilterElements(Known(s), pids);
    assert forall pid :: Known(s)(pid) <==> pid in s.byPID;
    forall pid
      ensures multiset(valid)[pid] == if pid in s.byPID then multiset(pids)[pid] else 0
    {
      FilterCounts(Known(s), pids, pid);
    }
    NoElements(valid);
  }

  lemma NoElements(s: seq<int>)
    ensures s == [] <==> forall x :: x !in s
  {
    if s != [] {
      var x := s[0];
      assert x in s;
    }
  }

  lemma SignalsOnRequest(pids: seq<int>, signal: Signal, es: seq<Event>, terminated: seq<int>, failed: seq<int>)
    requires Requested(pids, signal, es) && Reported(pids, es, terminated, failed)
    ensures forall v :: v in es ==> v.Attempt? && v.sender == ByRequest && v.signal == signal && v.pid in pids
    ensures forall pid :: pid in terminated <==>
      exists v :: v in es && v.pid == pid && (v.reply == Delivered || v.reply == Gone)
    ensures forall pid :: pid in failed <==>
      exists v :: v in es && v.pid == pid && (v.reply == NotFound || v.reply == Refused)
  {
    hide Reported, Requested;
    ReportedByAnswer(pids, signal, es, terminated, failed);
    assert forall v :: v in es <==> exists k :: 0 <= k < |pids| && es[k] == v;
  }

  method ValidPIDs(s: Snapshot, pids: seq<int>) returns (validPIDs: seq<int>)
    ensures validPIDs == Filter(Known(s), pids)
  {
    validPIDs := [];
    for i := 0 to |pids|
      invariant validPIDs == Filter(Known(s), pids[..i])
    {
      if pids[i] in s.byPID {
        validPIDs := validPIDs + [pids[i]];
      }
      assert Init(pids[..i + 1]) == pids[..i];
    }
    assert pids[..|pids|] == pids;
  }

  lemma ReportShuffles(pids: seq<int>, es: seq<Event>, terminated: seq<int>, failed: seq<int>)
    requires Reported(pids, es, terminated, failed)
    ensures Interleaves(terminated, failed, pids)
  {
  }

  lemma {:induction false} AllOnOneSide(s: seq<int>)
    ensures Interleaves([], s, s)
  {
    if s != [] {
      AllOnOneSide(Init(s));
    }
  }

  /** A shuffle loses and invents nothing. */
  lemma {:induction false} InterleavingConserves(a: seq<int>, b: seq<int>, c: seq<int>)
    requires Interleaves(a, b, c)
    ensures multiset(a) + multiset(b) == multiset(c)
    decreases |c|
  {
    if c != [] {
      MultisetSplit(c);
      if a != [] && Last(a) == Last(c) && Interleaves(Init(a), b, Init(c)) {
        InterleavingConserves(Init(a), b, Init(c));
        MultisetSplit(a);
      } else {
        InterleavingConserves(a, Init(b), Init(c));
        MultisetSplit(b);
      }
    }
  }

  datatype ApiProcess = ApiProcess(pid: int, ppid: int, name: string, parentName: string, path: string)

  datatype ProcessesResponse = ProcessesResponse(name: string, count: nat, processes: seq<ApiProcess>)

  function ToApi(): ProcessInfo -> ApiProcess {
    (p: ProcessInfo) => ApiProcess(p.pid, p.ppid, p.name, p.parentName, p.path)
  }

  /** The handler's own grouping of the flat list. */
  method GroupForApi(ps: seq<ProcessInfo>) returns (byName: map<string, seq<ApiProcess>>)
    ensures byName == ApiGroups(GroupByName(ps))
  {
    EmptyIndices();
    hide GroupByName, AppendTo;
    byName := map[];
    for i := 0 to |ps|
      invariant byName == ApiGroups(GroupByName(ps[..i]))
    {
      var p := ps[i];
      var info := ApiProcess(p.pid, p.ppid, p.name, p.parentName, p.path);
      IndexAppend(ps, i);
      ApiGroupsAppend(GroupByName(ps[..i]), p);
      byName := byName[p.name := (if p.name in byName then byName[p.name] else []) + [info]];
    }
    assert ps[..|ps|] == ps;
  }

  /** GET /api/processes: the handler groups the flat list itself, and arrives at the collector's index by name:
      one response per name, in any order; none before the first snapshot. */
  method HandleProcesses(latest: Option<Snapshot>) returns (result: seq<ProcessesResponse>)
    ensures latest.None? ==> result == []
    ensures latest.Some? ==> Responses(GroupByName(latest.value.processes), result)
    ensures latest.Some? && Indexed(latest.value) ==> Responses(latest.value.byName, result)
    ensures latest.Some? && Indexed(latest.value) ==>
      && (forall name :: name in latest.value.byName <==> exists r :: r in result && r.name == name)
      && forall r :: r in result ==>
           var group := latest.value.ProcessesByName(r.name);
           && r.count == |r.processes| == |group|
           && forall k :: 0 <= k < |group| ==>
                && r.processes[k].pid == group[k].pid && r.processes[k].ppid == group[k].ppid
                && r.processes[k].name == group[k].name && r.processes[k].parentName == group[k].parentName
                && r.processes[k].path == group[k].path
  {
    hide GroupByName, Resolved, IndexByPID;
    if latest.None? {
      return [];
    }
    ghost var groups := GroupByName(latest.value.processes);
    assert ApiGroups(groups).Keys == groups.Keys;
    assert |ApiGroups(groups)| == |ApiGroups(groups).Keys| && |groups| == |groups.Keys|;
    var byName := GroupForApi(latest.value.processes);
    result := ToResponses(byName);
    if Indexed(latest.value) {
      ResponseFields(latest.value, result);
    }
  }

  /** The responses, field by field. */
  lemma ResponseFields(s: Snapshot, result: seq<ProcessesResponse>)
    requires Responses(s.byName, result)
    ensures forall name :: name in s.byName <==> exists r :: r in result && r.name == name
    ensures forall r :: r in result ==>
      var group := s.ProcessesByName(r.name);
      && r.count == |r.processes| == |group|
      && forall k :: 0 <= k < |group| ==>
           && r.processes[k].pid == group[k].pid && r.processes[k].ppid == group[k].ppid
           && r.processes[k].name == group[k].name && r.processes[k].parentName == group[k].parentName
           && r.processes[k].path == group[k].path
  {
    forall name | name in s.byName
      ensures exists r :: r in result && r.name == name
    {
      assert ResponseFor(name, Map(ToApi(), s.byName[name])) in result;
    }
  }

  /** One response for each group, with its processes in order and their number. */
  ghost predicate Responses(groups: map<string, seq<ProcessInfo>>, result: seq<ProcessesResponse>) {
    && |result| == |groups|
    && forall r :: r in result <==> r.name in groups && r == ResponseFor(r.name, Map(ToApi(), groups[r.name]))
  }

  method ToResponses(byName: map<string, seq<ApiProcess>>) returns (result: seq<ProcessesResponse>)
    ensures forall r :: r in result <==> r.name in byName && r == ResponseFor(r.name, byName[r.name])
    ensures |result| == |byName|
  {
    result := [];
    var remaining := byName.Keys;
    ghost var done: set<string> := {};
    while remaining != {}
      invariant remaining !! done && remaining + done == byName.Keys && |result| == |done|
      invariant forall r :: r in result <==> r.name in done && r == ResponseFor(r.name, byName[r.name])
      decreases remaining
    {
      var name :| name in remaining;
      result := result + [ProcessesResponse(name, |byName[name]|, byName[name])];
      remaining, done := remaining - {name}, done + {name};
    }
    assert done == byName.Keys && |byName| == |byName.Keys|;
  }

  function ResponseFor(name: string, processes: seq<ApiProcess>): ProcessesResponse {
    ProcessesResponse(name, |processes|, processes)
  }

  function ApiGroups(groups: map<string, seq<ProcessInfo>>): map<string, seq<ApiProcess>> {
    map name | name in groups :: Map(ToApi(), groups[name])
  }

  lemma ApiGroupsAppend(groups: map<string, seq<ProcessInfo>>, p: ProcessInfo)
    ensures var api := ApiGroups(groups);
      ApiGroups(AppendTo(groups, p)) == api[p.name := (if p.name in api then api[p.name] else []) + [ToApi()(p)]]
  {
    var group := if p.name in groups then groups[p.name] else [];
    assert Map(ToApi(), group + [p]) == Map(ToApi(), group) + [ToApi()(p)];
  }
}
