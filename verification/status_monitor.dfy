/**
 * ProxyStatusMonitor (server/back-end/services/proxy-status-monitor.js):
 * every 30 seconds the services stored as running are probed, and one whose
 * process has gone is marked as failed. The interval timer is a handle
 * passed in; the probe is `kill -0` as the process manager models it.
 */
module StatusMonitor {
  import opened Common
  import ProxyServices
  import ProcessManager

  const CHECK_INTERVAL := 30000

  /** The probe says the process of a service stored as running is gone. */
  predicate Dead(s: ProxyServices.ProxyService, probe: int -> Option<int>)
  {
    s.status == ProxyServices.Running && Truthy(s.processId) &&
    !ProcessManager.IsProcessRunning(s.processId, probe)
  }

  /** One row after a check: a dead running service becomes error with processId -1, any other row is kept. */
  function CheckedRow(s: ProxyServices.ProxyService, probe: int -> Option<int>, now: int): ProxyServices.ProxyService
  {
    if Dead(s, probe) then ProxyServices.Patched(s, ProxyServices.StatusPatch(ProxyServices.Error, -1), now) else s
  }

  /** The table after a whole check. */
  function Checked(rows: seq<ProxyServices.ProxyService>, probe: int -> Option<int>, now: int)
    : (r: seq<ProxyServices.ProxyService>)
    ensures |r| == |rows| && forall k :: 0 <= k < |rows| ==> r[k] == CheckedRow(rows[k], probe, now)
  {
    seq(|rows|, k requires 0 <= k < |rows| => CheckedRow(rows[k], probe, now))
  }

  /** The table part way through the loop: the rows already visited are checked, the rest untouched. */
  function CheckedSoFar(rows: seq<ProxyServices.ProxyService>, visited: seq<ProxyServices.ProxyService>,
                        probe: int -> Option<int>, now: int): (r: seq<ProxyServices.ProxyService>)
    ensures |r| == |rows|
    ensures forall k :: 0 <= k < |rows| ==>
      r[k] == (if rows[k] in visited then CheckedRow(rows[k], probe, now) else rows[k])
  {
    seq(|rows|, k requires 0 <= k < |rows| => if rows[k] in visited then CheckedRow(rows[k], probe, now) else rows[k])
  }

  class Monitor {
    /** The interval handle while the monitor runs. */
    var intervalId: Option<int>

    constructor()
      ensures intervalId == None
    {
      intervalId := None;
    }

    /** start: schedules the check when not already running; a second start changes nothing. */
    method Start(handle: int) returns (scheduled: bool)
      modifies this
      ensures scheduled <==> old(intervalId).None?
      ensures intervalId == (if old(intervalId).Some? then old(intervalId) else Some(handle))
    {
      if intervalId.Some? {
        return false;
      }
      intervalId := Some(handle);
      scheduled := true;
    }

    /** stop: clears the handle; returns whether there was a timer to clear. */
    method Stop() returns (cleared: bool)
      modifies this
      ensures cleared <==> old(intervalId).Some?
      ensures intervalId == None
    {
      cleared := intervalId.Some?;
      if intervalId.Some? {
        intervalId := None;
      }
    }
  }

  /**
   * checkAllServices: every service found with status running and a truthy pid is probed, and the
   * ones whose process is gone are updated to error with processId -1.
   */
  method CheckAllServices(t: ProxyServices.ProxyServiceTable, probe: int -> Option<int>, now: int)
    requires t.Valid()
    modifies t
    ensures t.Valid()
    ensures t.rows == Checked(old(t.rows), probe, now)
  {
    ghost var initial := t.rows;
    var services := t.FindAll(Some(ProxyServices.Running), None, None);
    ProxyServices.FindAllHasEveryRow(t, Some(ProxyServices.Running));
    assert Within(services, initial);
    VisitAll(t, services, probe, now, initial);
    AllVisited(initial, services, probe, now);
  }

  /** The for loop of checkAllServices over the services found running. */
  method VisitAll(t: ProxyServices.ProxyServiceTable, services: seq<ProxyServices.ProxyService>, probe: int -> Option<int>,
                  now: int, ghost initial: seq<ProxyServices.ProxyService>)
    requires t.Valid() && t.rows == initial && Within(services, initial)
    modifies t
    ensures t.Valid()
    ensures t.rows == CheckedSoFar(initial, services, probe, now)
  {
    NoneVisited(initial, probe, now);
    for i := 0 to |services|
      invariant t.Valid()
      invariant t.rows == CheckedSoFar(initial, services[..i], probe, now)
    {
      Visit(t, services[i], probe, now, initial, services[..i]);
      assert services[..i + 1] == services[..i] + [services[i]];
    }
    assert services[..|services|] == services;
  }

  /** One turn of the loop: probe the service and, when its process is gone, mark it as failed. */
  method Visit(t: ProxyServices.ProxyServiceTable, service: ProxyServices.ProxyService, probe: int -> Option<int>,
               now: int, ghost initial: seq<ProxyServices.ProxyService>, ghost visited: seq<ProxyServices.ProxyService>)
    requires t.Valid() && ProxyServices.IdsDistinct(initial) && service in initial
    requires t.rows == CheckedSoFar(initial, visited, probe, now)
    modifies t
    ensures t.Valid()
    ensures t.rows == CheckedSoFar(initial, visited + [service], probe, now)
  {
    if Truthy(service.processId) {
      var isRunning := ProcessManager.IsProcessRunning(service.processId, probe);
      if !isRunning && service.status == ProxyServices.Running {
        CheckStep(initial, visited, service, probe, now);
        var _ := t.Update(service.id, ProxyServices.StatusPatch(ProxyServices.Error, -1), now);
        return;
      }
    }
    SkipStep(initial, visited, service, probe, now);
  }

  lemma NoneVisited(rows: seq<ProxyServices.ProxyService>, probe: int -> Option<int>, now: int)
    ensures CheckedSoFar(rows, [], probe, now) == rows
  {
  }

  /** Updating a dead service visits its row: its check result replaces it, whether or not it was visited before. */
  lemma CheckStep(rows: seq<ProxyServices.ProxyService>, visited: seq<ProxyServices.ProxyService>,
                  s: ProxyServices.ProxyService, probe: int -> Option<int>, now: int)
    requires ProxyServices.IdsDistinct(rows) && s in rows && Dead(s, probe)
    ensures ProxyServices.Applied(CheckedSoFar(rows, visited, probe, now), s.id,
              ProxyServices.StatusPatch(ProxyServices.Error, -1), now)
            == CheckedSoFar(rows, visited + [s], probe, now)
  {
    var before := CheckedSoFar(rows, visited, probe, now);
    var patch := ProxyServices.StatusPatch(ProxyServices.Error, -1);
    forall k | 0 <= k < |rows|
      ensures ProxyServices.Applied(before, s.id, patch, now)[k] == CheckedSoFar(rows, visited + [s], probe, now)[k]
    {
      if rows[k].id == s.id {
        assert rows[k] == s;
      }
    }
  }

  /** A service left alone is its own check result, so visiting it changes nothing. */
  lemma SkipStep(rows: seq<ProxyServices.ProxyService>, visited: seq<ProxyServices.ProxyService>,
                 s: ProxyServices.ProxyService, probe: int -> Option<int>, now: int)
    requires !Dead(s, probe)
    ensures CheckedSoFar(rows, visited, probe, now) == CheckedSoFar(rows, visited + [s], probe, now)
  {
  }

  /** Once every running row has been visited, the table is the full check result. */
  lemma AllVisited(rows: seq<ProxyServices.ProxyService>, visited: seq<ProxyServices.ProxyService>,
                   probe: int -> Option<int>, now: int)
    requires forall k :: 0 <= k < |rows| && rows[k].status == ProxyServices.Running ==> rows[k] in visited
    ensures CheckedSoFar(rows, visited, probe, now) == Checked(rows, probe, now)
  {
  }

  // ---------------------------------------------------------------------
  // Properties
  // ---------------------------------------------------------------------

  /** The monitor only ever moves running services to error: it never writes running, and other rows stay. */
  lemma NeverWritesRunning(rows: seq<ProxyServices.ProxyService>, probe: int -> Option<int>, now: int)
    ensures forall k :: 0 <= k < |rows| ==>
      var r := Checked(rows, probe, now)[k];
      (r == rows[k] || (rows[k].status == ProxyServices.Running && r.status == ProxyServices.Error &&
                        r.processId == Some(-1) && r.id == rows[k].id && r.proxyPort == rows[k].proxyPort))
    ensures forall k :: 0 <= k < |rows| && rows[k].status != ProxyServices.Running ==> Checked(rows, probe, now)[k] == rows[k]
  {
  }

  /** A live process, or a service not stored as running, is left exactly as it was. */
  lemma AliveUnchanged(s: ProxyServices.ProxyService, probe: int -> Option<int>, now: int)
    requires ProcessManager.IsProcessRunning(s.processId, probe) || s.status != ProxyServices.Running || !Truthy(s.processId)
    ensures CheckedRow(s, probe, now) == s
  {
  }

  /** The -1 sentinel is truthy, so a running row holding it is still probed (as `kill -0 -1`). */
  lemma SentinelIsProbed(s: ProxyServices.ProxyService, probe: int -> Option<int>, now: int)
    requires s.status == ProxyServices.Running && s.processId == Some(-1) && probe(-1) != Some(0)
    ensures CheckedRow(s, probe, now).status == ProxyServices.Error
  {
  }

  /** A second check right after the first finds nothing more to do. */
  lemma {:induction false} CheckIdempotent(rows: seq<ProxyServices.ProxyService>, probe: int -> Option<int>, now: int)
    ensures Checked(Checked(rows, probe, now), probe, now) == Checked(rows, probe, now)
  {
    var once := Checked(rows, probe, now);
    forall k | 0 <= k < |rows| ensures CheckedRow(once[k], probe, now) == once[k] {
      assert once[k] == CheckedRow(rows[k], probe, now);
    }
  }
}
