/**
 * The service address helpers (server/back-end/utils/get-service-host.js):
 * the host clients reach this server under, taken from the proxy headers
 * or the first external IPv4 interface, and the full service URL.
 */
module ServiceHost {
  import opened Common

  /** The parts of an HTTP request these helpers read; None is an absent header or field. */
  datatype Request = Request(
    forwardedHost: Option<string>,
    hostHeader: Option<string>,
    forwardedProto: Option<string>,
    protocol: Option<string>,
    forwardedPort: Option<string>,
    localPort: Option<int>)

  /** One address of os.networkInterfaces(). */
  datatype Iface = Iface(family: string, internal: bool, address: string)

  /** os.networkInterfaces(): interface names with their addresses, in key order. */
  type Interfaces = seq<(string, seq<Iface>)>

  /** A port as the URL code sees it: a header string or a socket number. */
  datatype Port = PortText(text: string) | PortNumber(n: int)

  /** A JS string is truthy when it is present and non-empty. */
  predicate Given(s: Option<string>)
  {
    s.Some? && |s.value| > 0
  }

  /** `a || b` on two optional strings. */
  function OrElse(a: Option<string>, b: Option<string>): Option<string>
  {
    if Given(a) then a else b
  }

  predicate External(i: Iface)
  {
    i.family == "IPv4" && !i.internal
  }

  /** The inner loop of getLocalIP over one interface's addresses. */
  function FirstExternal(addrs: seq<Iface>): Option<string>
    decreases |addrs|
  {
    if |addrs| == 0 then None
    else if External(addrs[0]) then Some(addrs[0].address)
    else FirstExternal(addrs[1..])
  }

  /** getLocalIP: the outer loop over interface names, returning on the first hit. */
  function GetLocalIP(interfaces: Interfaces): string
    decreases |interfaces|
  {
    if |interfaces| == 0 then "127.0.0.1"
    else match FirstExternal(interfaces[0].1)
      case Some(a) => a
      case None => GetLocalIP(interfaces[1..])
  }

  /** All addresses of all interfaces, in visiting order. */
  function AllAddresses(interfaces: Interfaces): seq<Iface>
    decreases |interfaces|
  {
    if |interfaces| == 0 then [] else interfaces[0].1 + AllAddresses(interfaces[1..])
  }

  /** getServiceHost: X-Forwarded-Host, else Host, cut at the first ':'; with neither, the local IP. */
  function GetServiceHost(req: Request, interfaces: Interfaces): string
  {
    var forwarded := OrElse(req.forwardedHost, req.hostHeader);
    if Given(forwarded) then Split(forwarded.value, ':')[0] else GetLocalIP(interfaces)
  }

  /** `req.get('X-Forwarded-Proto') || req.protocol || 'http'` */
  function ProtocolOf(req: Request): string
  {
    var p := OrElse(req.forwardedProto, req.protocol);
    if Given(p) then p.value else "http"
  }

  /** `req.get('X-Forwarded-Port') || req.socket.localPort || (https ? 443 : 80)` */
  function PortOf(req: Request, protocol: string): Port
  {
    if Given(req.forwardedPort) then PortText(req.forwardedPort.value)
    else if Truthy(req.localPort) then PortNumber(req.localPort.value)
    else PortNumber(if protocol == "https" then 443 else 80)
  }

  function PortString(p: Port): string
  {
    match p
      case PortText(t) => t
      case PortNumber(n) => IntToString(n)
  }

  /** The strict comparisons `port === 80` / `port === 443`: a header string never equals a number. */
  predicate DefaultPort(protocol: string, p: Port)
  {
    (protocol == "http" && p == PortNumber(80)) || (protocol == "https" && p == PortNumber(443))
  }

  /** getServiceURL */
  function GetServiceURL(req: Request, interfaces: Interfaces): string
  {
    var protocol := ProtocolOf(req);
    var host := GetServiceHost(req, interfaces);
    if ':' in host then protocol + "://" + host
    else
      var port := PortOf(req, protocol);
      if DefaultPort(protocol, port) then protocol + "://" + host
      else protocol + "://" + host + ":" + PortString(port)
  }

  // ---------------------------------------------------------------------
  // Properties
  // ---------------------------------------------------------------------

  lemma {:induction false} FirstExternalFinds(addrs: seq<Iface>)
    ensures FirstExternal(addrs) ==
      match FindIndex(addrs, External)
        case None => None
        case Some(i) => Some(addrs[i].address)
    decreases |addrs|
  {
    if |addrs| > 0 {
      FirstExternalFinds(addrs[1..]);
      assert addrs == [addrs[0]] + addrs[1..];
      FindIndexAppend([addrs[0]], addrs[1..], External);
    }
  }

  /** getLocalIP returns the first external IPv4 address over all interfaces in order, else 127.0.0.1. */
  lemma {:induction false} LocalIPIsFirstExternal(interfaces: Interfaces)
    ensures GetLocalIP(interfaces) ==
      match FindIndex(AllAddresses(interfaces), External)
        case None => "127.0.0.1"
        case Some(i) => AllAddresses(interfaces)[i].address
    decreases |interfaces|
  {
    if |interfaces| > 0 {
      LocalIPIsFirstExternal(interfaces[1..]);
      FirstExternalFinds(interfaces[0].1);
      FindIndexAppend(interfaces[0].1, AllAddresses(interfaces[1..]), External);
    }
  }

  /**
   * A header host wins over the interfaces, X-Forwarded-Host wins over Host, and the result is the
   * part of the header before its first ':', so it never contains ':'.
   */
  lemma HeaderHost(req: Request, interfaces: Interfaces)
    requires Given(req.forwardedHost) || Given(req.hostHeader)
    ensures var h := if Given(req.forwardedHost) then req.forwardedHost.value else req.hostHeader.value;
      StartsWith(h, GetServiceHost(req, interfaces)) &&
      ':' !in GetServiceHost(req, interfaces) &&
      (':' !in h ==> GetServiceHost(req, interfaces) == h)
  {
    var h := if Given(req.forwardedHost) then req.forwardedHost.value else req.hostHeader.value;
    SplitJoin(h, ':');
    var parts := Split(h, ':');
    assert ':' !in parts[0];
    SplitFirst(h, ':');
  }

  /** The first piece of a split is a prefix of the text, and the whole text when the separator is absent. */
  lemma {:induction false} SplitFirst(s: string, c: char)
    ensures StartsWith(s, Split(s, c)[0])
    ensures c !in s ==> Split(s, c)[0] == s
    decreases |s|
  {
    if |s| > 0 && s[0] != c {
      SplitFirst(s[1..], c);
      assert s == [s[0]] + s[1..];
    }
  }

  /**
   * With the host taken from a header, the `host.includes(':')` branch of getServiceURL is never
   * taken: the URL omits the port exactly for http with the number 80 and https with the number 443.
   */
  lemma ServiceURLFromHeader(req: Request, interfaces: Interfaces)
    requires Given(req.forwardedHost) || Given(req.hostHeader)
    ensures var protocol := ProtocolOf(req);
      var host := GetServiceHost(req, interfaces);
      var port := PortOf(req, protocol);
      GetServiceURL(req, interfaces) ==
        if DefaultPort(protocol, port) then protocol + "://" + host
        else protocol + "://" + host + ":" + PortString(port)
  {
    HeaderHost(req, interfaces);
  }

  /** The port a proxy sends as the header text "80" is a string, so it stays in the URL. */
  lemma HeaderPortTextKept(req: Request, interfaces: Interfaces, h: string)
    requires req.forwardedHost == Some(h) && |h| > 0 && ':' !in h
    requires req.forwardedProto == Some("http") && req.forwardedPort == Some("80")
    ensures GetServiceURL(req, interfaces) == "http://" + h + ":80"
  {
    HeaderHost(req, interfaces);
    assert PortOf(req, "http") == PortText("80");
  }
}
