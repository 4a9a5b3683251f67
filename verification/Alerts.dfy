/** The bounded alert log of the API server (internal/api/server.go). */
module Alerts {
  import opened Lists

  const CAPACITY := 100

  datatype Alert = Alert(id: string, policyName: string, severity: string, message: string, pids: seq<int>)

  datatype Request = Add(alert: Alert) | Clear(policyName: string)

  function NotOf(policyName: string): Alert -> bool {
    (a: Alert) => a.policyName != policyName
  }

  /** The list the server keeps after the requests. */
  function Stored(requests: seq<Request>): seq<Alert> {
    if requests == [] then [] else
      var before := Stored(Init(requests));
      match Last(requests)
      case Add(a) => (if |before| >= CAPACITY then before[1..] else before) + [a]
      case Clear(p) => Filter(NotOf(p), before)
  }

  /** The same list if nothing were ever evicted. */
  function Unbounded(requests: seq<Request>): seq<Alert> {
    if requests == [] then [] else
      var before := Unbounded(Init(requests));
      match Last(requests)
      case Add(a) => before + [a]
      case Clear(p) => Filter(NotOf(p), before)
  }

  /** The alerts that were evicted and that no later request has cleared. */
  function Evicted(requests: seq<Request>): seq<Alert> {
    if requests == [] then [] else
      var before := Evicted(Init(requests));
      match Last(requests)
      case Add(a) => if |Stored(Init(requests))| >= CAPACITY then before + [Stored(Init(requests))[0]] else before
      case Clear(p) => Filter(NotOf(p), before)
  }

  class Log {
    var alerts: seq<Alert>
    ghost var requests: seq<Request>

    ghost predicate Valid()
      reads this
    {
      alerts == Stored(requests)
    }

    constructor ()
      ensures Valid() && requests == []
    {
      alerts := [];
      requests := [];
    }

    method AddAlert(alert: Alert)
      requires Valid()
      modifies this
      ensures Valid() && requests == old(requests) + [Add(alert)]
      ensures alerts == (if |old(alerts)| < 100 then old(alerts) else old(alerts)[1..]) + [alert]
    {
      if |alerts| >= CAPACITY {
        alerts := alerts[1..];
      }
      alerts := alerts + [alert];
      requests := requests + [Add(alert)];
      assert Init(requests) == old(requests);
    }

    method ClearAlerts(policyName: string)
      requires Valid()
      modifies this
      ensures Valid() && requests == old(requests) + [Clear(policyName)]
      ensures alerts == Filter(NotOf(policyName), old(alerts))
      ensures forall a :: a in alerts <==> a in old(alerts) && a.policyName != policyName
    {
      FilterElements(NotOf(policyName), alerts);
      var filtered := [];
      for i := 0 to |alerts|
        invariant alerts == old(alerts) && requests == old(requests)
        invariant filtered == Filter(NotOf(policyName), alerts[..i])
      {
        if alerts[i].policyName != policyName {
          filtered := filtered + [alerts[i]];
        }
        FilterAppend(NotOf(policyName), alerts[..i], alerts[i]);
        assert alerts[..i + 1] == alerts[..i] + [alerts[i]];
      }
      assert alerts[..|alerts|] == alerts;
      alerts := filtered;
      requests := requests + [Clear(policyName)];
      assert Init(requests) == old(requests);
    }
  }

  lemma {:induction false} FilterNoLonger(keep: Alert -> bool, s: seq<Alert>)
    ensures |Filter(keep, s)| <= |s|
  {
    if s != [] {
      FilterNoLonger(keep, Init(s));
    }
  }

  lemma {:induction false} StoredBounded(requests: seq<Request>)
    ensures |Stored(requests)| <= CAPACITY
  {
    if requests != [] {
      StoredBounded(Init(requests));
      if Last(requests).Clear? {
        FilterNoLonger(NotOf(Last(requests).policyName), Stored(Init(requests)));
      }
    }
  }

  /** After any sequence of requests the unbounded list is the surviving evictions followed by the stored list:
      the server keeps a suffix of it, at most 100 long, and the whole of it
      exactly when every evicted alert has been cleared since. */
  lemma {:induction false} StoredIsSuffix(requests: seq<Request>)
    ensures Unbounded(requests) == Evicted(requests) + Stored(requests)
    ensures |Stored(requests)| <= CAPACITY
    ensures Stored(requests) == Unbounded(requests) <==> Evicted(requests) == []
  {
    StoredBounded(requests);
    if requests != [] {
      var before := Init(requests);
      StoredIsSuffix(before);
      match Last(requests) {
        case Add(a) =>
          if |Stored(before)| >= CAPACITY {
            assert Stored(before) == [Stored(before)[0]] + Stored(before)[1..];
          }
        case Clear(p) =>
          FilterConcat(NotOf(p), Evicted(before), Stored(before));
      }
    }
  }

  /** As long as the unbounded list has never outgrown the capacity, nothing is lost. */
  lemma {:induction false} NothingLostBelowCapacity(requests: seq<Request>)
    requires forall k :: 0 <= k <= |requests| ==> |Unbounded(requests[..k])| <= CAPACITY
    ensures Stored(requests) == Unbounded(requests)
  {
    if requests != [] {
      var before := Init(requests);
      forall k | 0 <= k <= |before|
        ensures |Unbounded(before[..k])| <= CAPACITY
      {
        assert before[..k] == requests[..k];
      }
      NothingLostBelowCapacity(before);
      assert requests[..|requests|] == requests;
    }
  }
}
