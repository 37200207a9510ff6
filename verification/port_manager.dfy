/**
 * PortManager (server/back-end/services/port-manager.js): the proxy port
 * range, resolved once when the module loads, and the allocation of the
 * lowest port in it that no stored service holds and that can be bound.
 */
module PortManager {
  import opened Common
  import ProxyServices

  datatype PortRange = PortRange(start: int, end: int)

  /** The three ports of the development range, remapped in production. */
  predicate DevPort(p: int)
  {
    p == 21081 || p == 21082 || p == 21083
  }

  const NO_PORT := "No available proxy port in range"

  /**
   * The range the module settles on at load time, from NODE_ENV and the already parsed PROXY_PORT_START
   * and PROXY_PORT_END (None when the variable is unset or empty).
   */
  function ResolveRange(nodeEnv: Option<string>, startEnv: Option<int>, endEnv: Option<int>): (r: PortRange)
    ensures nodeEnv != Some("production") && startEnv.Some? ==> r.start == startEnv.value
    ensures nodeEnv != Some("production") && endEnv.Some? ==> r.end == endEnv.value
    ensures startEnv.None? ==> r.start == (if nodeEnv == Some("development") then 21081 else 11081)
    ensures endEnv.None? ==> r.end == (if nodeEnv == Some("development") then 21083 else 11083)
    ensures nodeEnv == Some("production") && startEnv.Some? ==>
      r.start == (if DevPort(startEnv.value) then 11081 else startEnv.value)
    ensures nodeEnv == Some("production") && endEnv.Some? ==>
      r.end == (if DevPort(endEnv.value) then 11083 else endEnv.value)
  {
    var dev := nodeEnv == Some("development");
    var start := if startEnv.Some? then startEnv.value else if dev then 21081 else 11081;
    var end := if endEnv.Some? then endEnv.value else if dev then 21083 else 11083;
    if nodeEnv == Some("production") then
      PortRange(if DevPort(start) then 11081 else start, if DevPort(end) then 11083 else end)
    else PortRange(start, end)
  }

  /** The ports held by stored services, whatever their status. */
  function UsedPorts(services: seq<ProxyServices.ProxyService>): set<int>
  {
    set s | s in services :: s.proxyPort
  }

  /** The ports of the unfiltered listing are the ports of the stored rows. */
  lemma ListedPorts(services: ProxyServices.ProxyServiceTable)
    ensures UsedPorts(services.FindAll(None, None, None)) == UsedPorts(services.rows)
  {
    ProxyServices.FindAllHasEveryRow(services, None);
  }

  /** A port allocatePort may hand out: in range, held by no stored service, and bindable. */
  predicate Free(p: int, used: set<int>, bindable: int -> bool)
  {
    p !in used && bindable(p)
  }

  /**
   * The port manager with the range it resolved at load; the bind probe isPortAvailable is the
   * parameter `bindable` of the operations that use it.
   */
  class PortManager {
    var start: int
    var end: int

    /** The module's load-time statements: defaults for unset bounds, then the production remapping. */
    constructor (nodeEnv: Option<string>, startEnv: Option<int>, endEnv: Option<int>)
      ensures PortRange(start, end) == ResolveRange(nodeEnv, startEnv, endEnv)
    {
      var first := if startEnv.Some? then startEnv.value else if nodeEnv == Some("development") then 21081 else 11081;
      var last := if endEnv.Some? then endEnv.value else if nodeEnv == Some("development") then 21083 else 11083;
      if nodeEnv == Some("production") {
        if DevPort(first) {
          first := 11081;
        }
        if DevPort(last) {
          last := 11083;
        }
      }
      start, end := first, last;
    }

    /** isPortInUse: the negation of the bind probe. */
    function IsPortInUse(bindable: int -> bool, port: int): (r: bool)
      ensures r <==> !bindable(port)
    {
      !bindable(port)
    }

    /** isPortInRange: inclusive at both ends. */
    predicate IsPortInRange(port: int)
      reads this
    {
      start <= port <= end
    }

    /** getPortRange */
    function GetPortRange(): (r: PortRange)
      reads this
      ensures forall p :: IsPortInRange(p) <==> r.start <= p <= r.end
    {
      PortRange(start, end)
    }

    /**
     * allocatePort: the lowest port of the range that no stored service holds and that the probe can
     * bind, or the 'No available proxy port in range' error. Nothing is written or reserved.
     */
    method AllocatePort(services: ProxyServices.ProxyServiceTable, bindable: int -> bool) returns (r: Result<int>)
      ensures r.Ok? ==> IsPortInRange(r.value) && Free(r.value, UsedPorts(services.rows), bindable)
      ensures r.Ok? ==> forall q :: start <= q < r.value ==> !Free(q, UsedPorts(services.rows), bindable)
      ensures r.Err? ==> r.message == NO_PORT
      ensures r.Err? ==> forall q :: start <= q <= end ==> !Free(q, UsedPorts(services.rows), bindable)
      ensures r.Ok? ==> !IsPortInUse(bindable, r.value)
      ensures r.Err? ==> forall q :: start <= q <= end && q !in UsedPorts(services.rows) ==> IsPortInUse(bindable, q)
    {
      var all := services.FindAll(None, None, None);
      var usedPorts := UsedPorts(all);
      ListedPorts(services);
      var port := start;
      while port <= end
        invariant start <= port <= (if end < start then start else end + 1)
        invariant forall q :: start <= q < port ==> !Free(q, usedPorts, bindable)
      {
        if port !in usedPorts {
          var isAvailable := bindable(port);
          if isAvailable {
            return Ok(port);
          }
        }
        port := port + 1;
      }
      assert forall q :: start <= q <= end && q !in usedPorts ==> IsPortInUse(bindable, q) by {
        forall q | start <= q <= end && q !in usedPorts
          ensures IsPortInUse(bindable, q)
        {
          assert !Free(q, usedPorts, bindable);
        }
      }
      return Err(NO_PORT);
    }
  }

  // ---------------------------------------------------------------------
  // Properties
  // ---------------------------------------------------------------------

  /** In production the range never keeps a development port at either end. */
  lemma ProductionAvoidsDevPorts(startEnv: Option<int>, endEnv: Option<int>)
    ensures !DevPort(ResolveRange(Some("production"), startEnv, endEnv).start)
    ensures !DevPort(ResolveRange(Some("production"), startEnv, endEnv).end)
  {
  }

  /** Outside development, an unset range is 11081-11083; in development it is 21081-21083. */
  lemma DefaultRanges(nodeEnv: Option<string>)
    ensures ResolveRange(nodeEnv, None, None) ==
      if nodeEnv == Some("development") then PortRange(21081, 21083) else PortRange(11081, 11083)
  {
  }
}
