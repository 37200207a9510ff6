/**
 * The system configuration endpoints
 * (server/back-end/controllers/systemConfigController.js): values travel
 * as strings in the table and as booleans or strings in JSON, and the PAC
 * host and port fall back to the address the request came in on.
 */
module SystemConfigController {
  import opened Common
  import SystemConfigs
  import ServiceHost

  /** A value in a JSON reply: 'true'/'false' become booleans, anything else stays text. */
  datatype ConfigValue = BoolValue(b: bool) | TextValue(s: string)

  /** `value` in a request body: absent, a boolean, or anything else given by its String() form. */
  datatype BodyValue = Undefined | BodyBool(b: bool) | BodyOther(asString: string)

  datatype Item = Item(key: string, value: ConfigValue, description: Option<string>)

  datatype Address = Address(host: string, port: string, protocol: string, serviceURL: string, pacURL: string)

  const PAC_HOST_KEY := "pac_service_host"
  const PAC_PORT_KEY := "pac_service_port"
  /** The shipped default of pac_service_host, treated as "not configured". */
  const PLACEHOLDER_HOST := "192.168.1.4"

  /** `v === 'true' ? true : v === 'false' ? false : v` */
  function Decode(v: string): (r: ConfigValue)
    ensures r.BoolValue? <==> v in {"true", "false"}
    ensures r.BoolValue? ==> (r.b <==> v == "true")
    ensures r.TextValue? ==> r.s == v
  {
    if v == "true" then BoolValue(true) else if v == "false" then BoolValue(false) else TextValue(v)
  }

  /** `typeof value === 'boolean' ? (value ? 'true' : 'false') : String(value)` */
  function Encode(v: BodyValue): string
    requires !v.Undefined?
  {
    match v
      case BodyBool(b) => if b then "true" else "false"
      case BodyOther(s) => s
  }

  /** JavaScript falsiness of a decoded value. */
  predicate Falsy(v: ConfigValue)
  {
    v == BoolValue(false) || v == TextValue("")
  }

  function ItemOf(c: SystemConfigs.SystemConfig): Item
  {
    Item(c.key, Decode(c.value), c.description)
  }

  /** The request port as list and getServiceAddress compute it, as text. */
  function RequestPort(req: ServiceHost.Request): string
  {
    ServiceHost.PortString(ServiceHost.PortOf(req, ServiceHost.ProtocolOf(req)))
  }

  /** One entry of list, with the PAC host and port fallbacks applied. */
  function ListItem(c: SystemConfigs.SystemConfig, req: ServiceHost.Request, interfaces: ServiceHost.Interfaces): Item
  {
    var value := Decode(c.value);
    var value := if c.key == PAC_HOST_KEY && (Falsy(value) || value == TextValue(PLACEHOLDER_HOST))
      then TextValue(ServiceHost.GetServiceHost(req, interfaces)) else value;
    var value := if c.key == PAC_PORT_KEY && Falsy(value) then TextValue(RequestPort(req)) else value;
    Item(c.key, value, c.description)
  }

  /** list: every row in key order, each decoded, the unset PAC host and port replaced by the request's. */
  function List(t: SystemConfigs.SystemConfigTable, req: ServiceHost.Request, interfaces: ServiceHost.Interfaces)
    : (r: seq<Item>)
    reads t
    ensures |r| == |t.FindAll()|
    ensures forall k :: 0 <= k < |r| ==> r[k].key == t.FindAll()[k].key && r[k].description == t.FindAll()[k].description
    ensures forall k :: 0 <= k < |r| && r[k].key != PAC_HOST_KEY && r[k].key != PAC_PORT_KEY ==>
      r[k].value == Decode(t.FindAll()[k].value)
    ensures forall k :: 0 <= k < |r| && r[k].key == PAC_HOST_KEY ==>
      r[k].value == (if Falsy(Decode(t.FindAll()[k].value)) || t.FindAll()[k].value == PLACEHOLDER_HOST
                     then TextValue(ServiceHost.GetServiceHost(req, interfaces)) else Decode(t.FindAll()[k].value))
    ensures forall k :: 0 <= k < |r| && r[k].key == PAC_PORT_KEY ==>
      r[k].value == (if Falsy(Decode(t.FindAll()[k].value)) then TextValue(RequestPort(req)) else Decode(t.FindAll()[k].value))
  {
    var configs := t.FindAll();
    seq(|configs|, k requires 0 <= k < |configs| => ListItem(configs[k], req, interfaces))
  }

  /** getByKey: the decoded row, or 404 CONFIG_NOT_FOUND. */
  function GetByKey(t: SystemConfigs.SystemConfigTable, key: string): (r: Reply<Item>)
    reads t
    ensures r.Failure? <==> t.FindByKey(key).None?
    ensures r.Failure? ==> r == Failure(404, "CONFIG_NOT_FOUND")
    ensures r.Success? ==> r.data.key == key && r.data.value == Decode(t.FindByKey(key).value.value)
  {
    match t.FindByKey(key)
      case None => Failure(404, "CONFIG_NOT_FOUND")
      case Some(c) => Success(ItemOf(c))
  }

  /**
   * update: an absent value is refused with 400 and nothing written; otherwise the encoded value is
   * written, and a missing key fails with 500 (the handler dereferences the missing row) after the no-op write.
   */
  method Update(t: SystemConfigs.SystemConfigTable, key: string, value: BodyValue, now: int) returns (reply: Reply<Item>)
    requires t.Valid()
    modifies t
    ensures t.Valid()
    ensures value.Undefined? ==> reply == Failure(400, "VALIDATION_ERROR") && t.rows == old(t.rows)
    ensures !value.Undefined? && old(t.FindByKey(key)).None? ==> reply == Failure(500, "INTERNAL_ERROR") && t.rows == old(t.rows)
    ensures !value.Undefined? && old(t.FindByKey(key)).Some? ==>
      t.FindByKey(key).Some? && t.FindByKey(key).value.value == Encode(value) &&
      reply == Success(Item(key, Decode(Encode(value)), old(t.FindByKey(key)).value.description))
    ensures !value.Undefined? ==>
      |t.rows| == |old(t.rows)| &&
      forall k :: 0 <= k < |t.rows| ==>
        t.rows[k] == if old(t.rows)[k].key == key then old(t.rows)[k].(value := Encode(value), updatedAt := now) else old(t.rows)[k]
  {
    if value.Undefined? {
      return Failure(400, "VALIDATION_ERROR");
    }
    var stringValue := Encode(value);
    var config := t.Update(key, stringValue, now);
    if config.None? {
      return Failure(500, "INTERNAL_ERROR");
    }
    reply := Success(ItemOf(config.value));
  }

  /** getServiceAddress: the request's host, protocol and port, the service URL and the PAC URL under it. */
  function GetServiceAddress(req: ServiceHost.Request, interfaces: ServiceHost.Interfaces): (a: Address)
    ensures a.pacURL == a.serviceURL + "/proxy.pac"
    ensures a.host == ServiceHost.GetServiceHost(req, interfaces) && a.protocol == ServiceHost.ProtocolOf(req)
    ensures a.port == ServiceHost.PortString(ServiceHost.PortOf(req, a.protocol))
    ensures a.serviceURL == if ServiceHost.DefaultPort(a.protocol, ServiceHost.PortOf(req, a.protocol))
                            then a.protocol + "://" + a.host
                            else a.protocol + "://" + a.host + ":" + a.port
  {
    var host := ServiceHost.GetServiceHost(req, interfaces);
    var protocol := ServiceHost.ProtocolOf(req);
    var port := ServiceHost.PortOf(req, protocol);
    var serviceURL := if ServiceHost.DefaultPort(protocol, port) then protocol + "://" + host
                      else protocol + "://" + host + ":" + ServiceHost.PortString(port);
    Address(host, ServiceHost.PortString(port), protocol, serviceURL, serviceURL + "/proxy.pac")
  }

  // ---------------------------------------------------------------------
  // Properties
  // ---------------------------------------------------------------------

  /** A boolean written through update reads back as the same boolean. */
  lemma BoolRoundTrip(b: bool)
    ensures Decode(Encode(BodyBool(b))) == BoolValue(b)
  {
  }

  /** Any other value reads back as its String() form, unless that form is 'true' or 'false'. */
  lemma TextRoundTrip(s: string)
    ensures Decode(Encode(BodyOther(s))) == (if s == "true" then BoolValue(true) else if s == "false" then BoolValue(false) else TextValue(s))
  {
  }

  /** With a host header, the address endpoint builds the same URL as getServiceURL. */
  lemma AddressAgreesWithServiceURL(req: ServiceHost.Request, interfaces: ServiceHost.Interfaces)
    requires ServiceHost.Given(req.forwardedHost) || ServiceHost.Given(req.hostHeader)
    ensures GetServiceAddress(req, interfaces).serviceURL == ServiceHost.GetServiceURL(req, interfaces)
  {
    ServiceHost.ServiceURLFromHeader(req, interfaces);
  }
}
