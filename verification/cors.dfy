/**
 * The server's CORS origin decision and its session-cookie `secure` flag
 * (server/back-end/server.js). The environment is a record of optional
 * variables; whether the URL constructor accepts an origin is a parameter.
 */
module Cors {
  import opened Common

  datatype Env = Env(
    nodeEnv: Option<string>,
    corsOrigin: Option<string>,
    proxyHost: Option<string>,
    proxyPort: Option<string>,
    sessionSecure: Option<string>,
    proxyProtocol: Option<string>)

  datatype Decision = Allow | Reject(message: string)

  /** A set, non-empty variable. */
  predicate Set(v: Option<string>)
  {
    v.Some? && |v.value| > 0
  }

  predicate IsEnv(env: Env, name: string)
  {
    env.nodeEnv == Some(name)
  }

  function Trimmed(parts: seq<string>): (r: seq<string>)
    ensures |r| == |parts| && forall k :: 0 <= k < |parts| ==> r[k] == Trim(parts[k])
  {
    seq(|parts|, k requires 0 <= k < |parts| => Trim(parts[k]))
  }

  predicate NonEmpty(s: string)
  {
    |s| > 0
  }

  /** CORS_ORIGIN split on ',', each entry trimmed, empty entries dropped. */
  function CorsOrigins(env: Env): seq<string>
  {
    if Set(env.corsOrigin) then Filter(Trimmed(Split(env.corsOrigin.value, ',')), NonEmpty) else []
  }

  /** Every configured origin is non-empty, carries no surrounding white space and holds no comma. */
  lemma CorsOriginsClean(env: Env)
    ensures forall k :: 0 <= k < |CorsOrigins(env)| ==>
      |CorsOrigins(env)[k]| > 0 && IsTrimmed(CorsOrigins(env)[k]) && ',' !in CorsOrigins(env)[k]
  {
    if Set(env.corsOrigin) {
      var parts := Split(env.corsOrigin.value, ',');
      SplitJoin(env.corsOrigin.value, ',');
      var trimmed := Trimmed(parts);
      forall k | 0 <= k < |trimmed| ensures IsTrimmed(trimmed[k]) && ',' !in trimmed[k] {
        TrimIsTrimmed(parts[k]);
        TrimInside(parts[k]);
      }
    }
  }

  /** Trimming keeps only characters of the original. */
  lemma TrimInside(s: string)
    ensures forall c :: c in Trim(s) ==> c in s
  {
    var a := TrimStart(s);
    var b := TrimEnd(a);
    forall c | c in b ensures c in s {
      var i :| 0 <= i < |b| && b[i] == c;
      assert a[i] == c;
      assert s[|s| - |a| + i] == c;
    }
  }

  /** The local front-end origins allowed in development. */
  function DevOrigins(env: Env): seq<string>
  {
    if IsEnv(env, "development") then
      ["http://localhost:5173", "http://127.0.0.1:5173", "http://localhost:3000", "http://127.0.0.1:3000"]
    else []
  }

  /** One or more decimal digits. */
  predicate Digits(s: string)
  {
    |s| > 0 && forall k :: 0 <= k < |s| ==> IsDigit(s[k])
  }

  /** The whole string matches /^\d+\.\d+\.\d+\.\d+$/. */
  predicate DottedQuad(h: string)
  {
    var parts := Split(h, '.');
    |parts| == 4 && Digits(parts[0]) && Digits(parts[1]) && Digits(parts[2]) && Digits(parts[3])
  }

  function ProxyPort(env: Env): string
  {
    if Set(env.proxyPort) then env.proxyPort.value else "8090"
  }

  /** The production origins: the public host and port, and localhost when the host is an IPv4 address or unset. */
  function DynamicOrigins(env: Env): (r: seq<string>)
    ensures !IsEnv(env, "production") ==> r == []
    ensures IsEnv(env, "production") && !Set(env.proxyHost) ==> r == ["http://localhost:" + ProxyPort(env)]
    ensures IsEnv(env, "production") && Set(env.proxyHost) ==>
      |r| == (if DottedQuad(env.proxyHost.value) then 2 else 1) &&
      r[0] == "http://" + env.proxyHost.value + ":" + ProxyPort(env) &&
      (|r| == 2 ==> r[1] == "http://localhost:" + ProxyPort(env))
  {
    if !IsEnv(env, "production") then []
    else if Set(env.proxyHost) then
      ["http://" + env.proxyHost.value + ":" + ProxyPort(env)] +
      (if DottedQuad(env.proxyHost.value) then ["http://localhost:" + ProxyPort(env)] else [])
    else ["http://localhost:" + ProxyPort(env)]
  }

  function AllowedOrigins(env: Env): seq<string>
  {
    CorsOrigins(env) + DevOrigins(env) + DynamicOrigins(env)
  }

  /**
   * The origin callback: no origin is always allowed, a listed one too; past the list, production
   * allows any origin the URL constructor accepts, development allows everything, and any other
   * environment refuses.
   */
  method OriginDecision(env: Env, origin: Option<string>, parses: string -> bool) returns (d: Decision)
    ensures !Set(origin) ==> d == Allow
    ensures d == Allow <==>
      !Set(origin) || origin.value in AllowedOrigins(env) ||
      (IsEnv(env, "production") && parses(origin.value)) || IsEnv(env, "development")
    ensures d.Reject? ==> d.message == (if IsEnv(env, "production") then "Invalid origin" else "Not allowed by CORS")
  {
    if !Set(origin) {
      return Allow;
    }
    var corsOrigins := CorsOrigins(env);
    var devOrigins := DevOrigins(env);
    var dynamicOrigins: seq<string> := [];
    if IsEnv(env, "production") {
      var proxyPort := ProxyPort(env);
      if Set(env.proxyHost) {
        dynamicOrigins := dynamicOrigins + ["http://" + env.proxyHost.value + ":" + proxyPort];
        if DottedQuad(env.proxyHost.value) {
          dynamicOrigins := dynamicOrigins + ["http://localhost:" + proxyPort];
        }
      } else {
        dynamicOrigins := dynamicOrigins + ["http://localhost:" + proxyPort];
      }
    }
    var allowedOrigins := corsOrigins + devOrigins + dynamicOrigins;
    assert allowedOrigins == AllowedOrigins(env);
    if |allowedOrigins| > 0 && origin.value in allowedOrigins {
      return Allow;
    }
    if IsEnv(env, "production") {
      if parses(origin.value) {
        return Allow;
      }
      return Reject("Invalid origin");
    }
    if IsEnv(env, "development") {
      return Allow;
    }
    d := Reject("Not allowed by CORS");
  }

  /** The session cookie is secure as SESSION_SECURE says when it is defined, else when the protocol is https. */
  function IsSecure(env: Env): (r: bool)
    ensures env.sessionSecure.Some? ==> (r <==> env.sessionSecure.value == "true")
    ensures env.sessionSecure.None? ==> (r <==> env.proxyProtocol == Some("https"))
  {
    if env.sessionSecure.Some? then env.sessionSecure.value == "true" else env.proxyProtocol == Some("https")
  }
}
