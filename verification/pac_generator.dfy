/**
 * PACGenerator (server/back-end/services/pac-generator.js): joins the
 * enabled host configurations with their proxy services, maps each host to
 * the SOCKS5 proxy of the first qualifying configuration that lists it,
 * groups the hosts by proxy into rules, renders the FindProxyForURL script,
 * and keeps the last config and script in three module-level cache slots.
 */
module PacGenerator {
  import opened Common
  import opened JsonText
  import ProxyServices
  import HostConfigs

  /** Entries younger than this many milliseconds are served from the cache. */
  const CACHE_TTL := 5000

  datatype Rule = Rule(domains: seq<string>, proxy: string)

  datatype PacConfig = PacConfig(proxyRules: seq<Rule>, direct: bool)

  // ---------------------------------------------------------------------
  // The domain map: host -> proxy, in insertion order (a JS Map)
  // ---------------------------------------------------------------------

  type DomainMap = seq<(string, string)>

  /** Map.get: the value stored under the first (and, in a Map, only) entry for `h`. */
  function Lookup(dm: DomainMap, h: string): (r: Option<string>)
    ensures r.None? <==> forall k :: 0 <= k < |dm| ==> dm[k].0 != h
    ensures r.Some? ==> exists k :: 0 <= k < |dm| && dm[k] == (h, r.value)
    decreases |dm|
  {
    if |dm| == 0 then None
    else
      var init := dm[..|dm| - 1];
      match Lookup(init, h)
        case Some(p) => Some(p)
        case None => if dm[|dm| - 1].0 == h then Some(dm[|dm| - 1].1) else None
  }

  predicate HasKey(dm: DomainMap, h: string)
  {
    Lookup(dm, h).Some?
  }

  predicate KeysDistinct(dm: DomainMap)
  {
    forall i, j :: 0 <= i < j < |dm| ==> dm[i].0 != dm[j].0
  }

  /** `if (!domainMap.has(host)) domainMap.set(host, proxy)` */
  function AddHost(dm: DomainMap, host: string, proxy: string): DomainMap
  {
    if HasKey(dm, host) then dm else dm + [(host, proxy)]
  }

  function AddHosts(dm: DomainMap, hosts: seq<string>, proxy: string): DomainMap
    decreases |hosts|
  {
    if |hosts| == 0 then dm
    else AddHost(AddHosts(dm, hosts[..|hosts| - 1], proxy), hosts[|hosts| - 1], proxy)
  }

  /** A configuration contributes its hosts when it is enabled and its service is running. */
  predicate Qualifies(v: HostConfigs.HostConfigView)
  {
    v.enabled && v.proxyServiceStatus == Some(ProxyServices.Running)
  }

  /** The template literal `SOCKS5 ${proxyHost}:${config.proxyServicePort}`. */
  function ProxyOf(proxyHost: string, v: HostConfigs.HostConfigView): string
  {
    "SOCKS5 " + proxyHost + ":" + (if v.proxyServicePort.Some? then IntToString(v.proxyServicePort.value) else "null")
  }

  /** The domain map after visiting `views` in order. */
  function DomainMapOf(views: seq<HostConfigs.HostConfigView>, proxyHost: string): DomainMap
    decreases |views|
  {
    if |views| == 0 then []
    else
      var d := DomainMapOf(views[..|views| - 1], proxyHost);
      var v := views[|views| - 1];
      if Qualifies(v) then AddHosts(d, v.hosts, ProxyOf(proxyHost, v)) else d
  }

  function ListsHost(h: string): HostConfigs.HostConfigView -> bool
  {
    (v: HostConfigs.HostConfigView) => Qualifies(v) && h in v.hosts
  }

  /** The proxy the first qualifying configuration listing `h` stands for. */
  function FirstOwnerProxy(views: seq<HostConfigs.HostConfigView>, proxyHost: string, h: string): Option<string>
  {
    match FindIndex(views, ListsHost(h))
      case None => None
      case Some(k) => Some(ProxyOf(proxyHost, views[k]))
  }

  // ---------------------------------------------------------------------
  // Groups: proxy -> domains, in insertion order (a JS Map)
  // ---------------------------------------------------------------------

  type Groups = seq<(string, seq<string>)>

  function ProxyIs(proxy: string): ((string, seq<string>)) -> bool
  {
    (g: (string, seq<string>)) => g.0 == proxy
  }

  predicate ProxiesDistinct(gs: Groups)
  {
    forall i, j :: 0 <= i < j < |gs| ==> gs[i].0 != gs[j].0
  }

  /** Appends `host` to the group of `proxy`, opening the group when it is new. */
  function AddToGroup(gs: Groups, host: string, proxy: string): Groups
  {
    match FindIndex(gs, ProxyIs(proxy))
      case None => gs + [(proxy, [host])]
      case Some(i) => gs[i := (proxy, gs[i].1 + [host])]
  }

  function GroupsOf(dm: DomainMap): Groups
    decreases |dm|
  {
    if |dm| == 0 then []
    else AddToGroup(GroupsOf(dm[..|dm| - 1]), dm[|dm| - 1].0, dm[|dm| - 1].1)
  }

  function RulesOf(gs: Groups): (rules: seq<Rule>)
    ensures |rules| == |gs|
    ensures forall k :: 0 <= k < |gs| ==> rules[k] == Rule(gs[k].1, gs[k].0)
  {
    seq(|gs|, k requires 0 <= k < |gs| => Rule(gs[k].1, gs[k].0))
  }

  /** The rules built from the joined configurations: the domain map grouped by proxy. */
  function RulesFor(views: seq<HostConfigs.HostConfigView>, proxyHost: string): seq<Rule>
  {
    RulesOf(GroupsOf(DomainMapOf(views, proxyHost)))
  }

  /** The config generatePACConfig computes from the running services and the joined enabled configurations. */
  function ConfigFor(proxyHost: string, running: seq<ProxyServices.ProxyService>, views: seq<HostConfigs.HostConfigView>): PacConfig
  {
    if |running| == 0 then PacConfig([], true)
    else
      var rules := RulesFor(views, proxyHost);
      PacConfig(rules, |rules| == 0)
  }

  // ---------------------------------------------------------------------
  // The loops of generatePACConfig
  // ---------------------------------------------------------------------

  /** The forEach over the configurations filling domainMap. */
  method BuildDomainMap(views: seq<HostConfigs.HostConfigView>, proxyHost: string) returns (dm: DomainMap)
    ensures dm == DomainMapOf(views, proxyHost)
  {
    dm := [];
    var i := 0;
    while i < |views|
      invariant 0 <= i <= |views|
      invariant dm == DomainMapOf(views[..i], proxyHost)
    {
      var config := views[i];
      assert views[..i + 1][..i] == views[..i];
      assert views[..i + 1][i] == config;
      if config.enabled && config.proxyServiceStatus == Some(ProxyServices.Running) {
        dm := AddConfigHosts(dm, config.hosts, ProxyOf(proxyHost, config));
      }
      i := i + 1;
    }
    assert views[..i] == views;
  }

  /** The inner forEach over one configuration's hosts. */
  method AddConfigHosts(dm0: DomainMap, hosts: seq<string>, proxy: string) returns (dm: DomainMap)
    ensures dm == AddHosts(dm0, hosts, proxy)
  {
    dm := dm0;
    var j := 0;
    while j < |hosts|
      invariant 0 <= j <= |hosts|
      invariant dm == AddHosts(dm0, hosts[..j], proxy)
    {
      var host := hosts[j];
      assert hosts[..j + 1][..j] == hosts[..j];
      if !HasKey(dm, host) {
        dm := dm + [(host, proxy)];
      }
      j := j + 1;
    }
    assert hosts[..j] == hosts;
  }

  /** The forEach over domainMap filling proxyGroups. */
  method GroupByProxy(dm: DomainMap) returns (groups: Groups)
    ensures groups == GroupsOf(dm)
  {
    groups := [];
    var i := 0;
    while i < |dm|
      invariant 0 <= i <= |dm|
      invariant groups == GroupsOf(dm[..i])
    {
      var (host, proxy) := dm[i];
      assert dm[..i + 1][..i] == dm[..i];
      ghost var before := groups;
      var found := FindIndex(groups, ProxyIs(proxy));
      if found.None? {
        groups := groups + [(proxy, [])];
        assert ProxyIs(proxy)(groups[|before|]);
      }
      var g := FindIndex(groups, ProxyIs(proxy));
      assert g.Some?;
      if found.None? {
        assert g.value == |before|;
        ghost var next := groups[g.value := (proxy, groups[g.value].1 + [host])];
        assert groups[|before|].1 + [host] == [host];
        assert next == before + [(proxy, [host])] by {
          forall k | 0 <= k < |next| ensures next[k] == (before + [(proxy, [host])])[k] {
          }
        }
      }
      groups := groups[g.value := (proxy, groups[g.value].1 + [host])];
      assert groups == AddToGroup(before, host, proxy);
      i := i + 1;
    }
    assert dm[..i] == dm;
  }

  /** The three loops of generatePACConfig, one after the other. */
  method BuildRulesFor(views: seq<HostConfigs.HostConfigView>, proxyHost: string) returns (rules: seq<Rule>)
    ensures rules == RulesFor(views, proxyHost)
  {
    var domainMap := BuildDomainMap(views, proxyHost);
    var proxyGroups := GroupByProxy(domainMap);
    rules := BuildRules(proxyGroups);
  }

  /** The forEach over proxyGroups pushing one rule per group. */
  method BuildRules(groups: Groups) returns (rules: seq<Rule>)
    ensures rules == RulesOf(groups)
  {
    rules := [];
    var i := 0;
    while i < |groups|
      invariant 0 <= i <= |groups|
      invariant rules == RulesOf(groups[..i])
    {
      rules := rules + [Rule(groups[i].1, groups[i].0)];
      i := i + 1;
    }
    assert groups[..i] == groups;
  }

  // ---------------------------------------------------------------------
  // The rendered script
  // ---------------------------------------------------------------------

  function Spaces(n: nat): string
  {
    seq(n, _ => ' ')
  }

  /** JSON.stringify(xs, null, 2) of a list of strings nested at `depth` levels. */
  function PrettyStrings(xs: seq<string>, depth: nat): string
  {
    if |xs| == 0 then "[]"
    else
      "[\n" + Join(seq(|xs|, k requires 0 <= k < |xs| => Spaces(2 * depth + 2) + Quote(xs[k])), ",\n") +
      "\n" + Spaces(2 * depth) + "]"
  }

  /** JSON.stringify of one rule object at the top level of the rules array. */
  function PrettyRule(r: Rule): string
  {
    "  {\n    \"domains\": " + PrettyStrings(r.domains, 2) + ",\n    \"proxy\": " + Quote(r.proxy) + "\n  }"
  }

  /** JSON.stringify(rules, null, 2). */
  function PrettyRules(rules: seq<Rule>): string
  {
    if |rules| == 0 then "[]"
    else "[\n" + Join(seq(|rules|, k requires 0 <= k < |rules| => PrettyRule(rules[k])), ",\n") + "\n]"
  }

  /** The template of generatePACFile around the embedded rules, piece by piece. */
  const ScriptHead: string :=
    "function FindProxyForURL" + "(url, host) {\n" +
    "  // PAC配置文件自动生成\n" +
    "  var proxyRules = "
  const ScriptLoopOuter: string :=
    ";\n\n  for (var i = 0; " + "i < proxyRules.length;" + " i++) {\n" +
    "    var rule = proxyRules[i];\n"
  const ScriptLoopFor: string :=
    "    for (var j = 0; " + "j < rule.domains.length;" + " j++) {\n"
  const ScriptLoopIf: string :=
    "      if (host === " + "rule.domains[j] || " + "host.endsWith('.' + " + "rule.domains[j])) {\n"
  const ScriptLoopInner: string := ScriptLoopFor + ScriptLoopIf
  const ScriptLoopClose: string :=
    "        return rule.proxy;\n" +
    "      }\n    }\n  }\n\n"
  const ScriptLoop: string := ScriptLoopOuter + ScriptLoopInner + ScriptLoopClose
  const ScriptDirect: string := "  return \"DIRECT\";\n}"

  /** The text generatePACFile produces for a list of rules. */
  function PacScript(rules: seq<Rule>): string
  {
    ScriptHead + PrettyRules(rules) + ScriptLoop + ScriptDirect
  }

  /** The JS test `host === d || host.endsWith('.' + d)`. */
  predicate DomainMatches(host: string, d: string)
  {
    host == d || EndsWith(host, "." + d)
  }

  predicate RuleMatches(r: Rule, host: string)
  {
    exists j :: 0 <= j < |r.domains| && DomainMatches(host, r.domains[j])
  }

  function RuleMatchesHost(host: string): Rule -> bool
  {
    (r: Rule) => RuleMatches(r, host)
  }

  /** What the rendered FindProxyForURL returns for `host`: its two nested loops over the embedded rules. */
  function FindProxyForURL(rules: seq<Rule>, host: string): string
    decreases |rules|
  {
    if |rules| == 0 then "DIRECT"
    else if RuleMatches(rules[0], host) then rules[0].proxy
    else FindProxyForURL(rules[1..], host)
  }

  /** findAll({status: 'running'}) */
  function RunningServices(services: ProxyServices.ProxyServiceTable): seq<ProxyServices.ProxyService>
    reads services
  {
    services.FindAll(Some(ProxyServices.Running), None, None)
  }

  /** The config computed from the current tables, bypassing the cache. */
  function Generated(proxyHost: string, services: ProxyServices.ProxyServiceTable, configs: HostConfigs.HostConfigTable): PacConfig
    requires configs.Valid()
    reads services, configs
  {
    ConfigFor(proxyHost, RunningServices(services), configs.FindAllWithProxyService(services, None, Some(true)))
  }

  /**
   * What generatePACConfig does past the cache check: the query for running services, the early
   * answer when there is none, otherwise the query for enabled configurations and the two loops.
   */
  method ComputeConfig(proxyHost: string, services: ProxyServices.ProxyServiceTable, configs: HostConfigs.HostConfigTable)
    returns (config: PacConfig, anyRunning: bool)
    requires configs.Valid()
    ensures anyRunning <==> |RunningServices(services)| > 0
    ensures config == Generated(proxyHost, services, configs)
  {
    var runningServices := services.FindAll(Some(ProxyServices.Running), None, None);
    if |runningServices| == 0 {
      return PacConfig([], true), false;
    }
    var hostConfigs := configs.FindAllWithProxyService(services, None, Some(true));
    var proxyRules := BuildRulesFor(hostConfigs, proxyHost);
    config := PacConfig(proxyRules, |proxyRules| == 0);
    anyRunning := true;
  }

  // ---------------------------------------------------------------------
  // The cache slots and the two entry points
  // ---------------------------------------------------------------------

  class PacGenerator {
    var configCache: Option<PacConfig>
    var fileCache: Option<string>
    var cacheTimestamp: Option<int>

    constructor ()
      ensures configCache == None && fileCache == None && cacheTimestamp == None
    {
      configCache := None;
      fileCache := None;
      cacheTimestamp := None;
    }

    /** clearCache: all three slots back to null. */
    method ClearCache()
      modifies this
      ensures configCache == None && fileCache == None && cacheTimestamp == None
    {
      configCache := None;
      fileCache := None;
      cacheTimestamp := None;
    }

    predicate ConfigFresh(useCache: bool, now: int)
      reads this
    {
      useCache && configCache.Some? && Truthy(cacheTimestamp) && now - cacheTimestamp.value < CACHE_TTL
    }

    predicate FileFresh(useCache: bool, now: int)
      reads this
    {
      useCache && fileCache.Some? && |fileCache.value| > 0 && Truthy(cacheTimestamp) && now - cacheTimestamp.value < CACHE_TTL
    }

    /** The config generatePACConfig answers with in the current state. */
    function ConfigServed(proxyHost: string, useCache: bool, now: int,
                          services: ProxyServices.ProxyServiceTable, configs: HostConfigs.HostConfigTable): PacConfig
      requires configs.Valid()
      reads this, services, configs
    {
      if ConfigFresh(useCache, now) then configCache.value else Generated(proxyHost, services, configs)
    }

    /**
     * generatePACConfig at time `now`: a fresh cached config is returned as is; otherwise the
     * config is computed, and written to the cache (with the timestamp) only when useCache
     * holds and some service is running.
     */
    method GeneratePACConfig(proxyHost: string, useCache: bool, now: int,
                             services: ProxyServices.ProxyServiceTable, configs: HostConfigs.HostConfigTable)
      returns (config: PacConfig)
      requires configs.Valid()
      modifies this
      ensures old(ConfigFresh(useCache, now)) ==> config == old(configCache).value
      ensures !old(ConfigFresh(useCache, now)) ==> config == old(Generated(proxyHost, services, configs))
      ensures fileCache == old(fileCache)
      ensures if !old(ConfigFresh(useCache, now)) && useCache && |old(RunningServices(services))| > 0
              then configCache == Some(config) && cacheTimestamp == Some(now)
              else configCache == old(configCache) && cacheTimestamp == old(cacheTimestamp)
    {
      if useCache && configCache.Some? && Truthy(cacheTimestamp) {
        if now - cacheTimestamp.value < CACHE_TTL {
          return configCache.value;
        }
      }
      var computed, anyRunning := ComputeConfig(proxyHost, services, configs);
      config := computed;
      if !anyRunning {
        return;
      }
      if useCache {
        configCache := Some(config);
        cacheTimestamp := Some(now);
      }
    }

    /**
     * generatePACFile at time `now`: a fresh non-empty cached script is returned as is;
     * otherwise the script is rendered from generatePACConfig's result and, with useCache,
     * stored together with a new timestamp.
     */
    method GeneratePACFile(proxyHost: string, useCache: bool, now: int,
                           services: ProxyServices.ProxyServiceTable, configs: HostConfigs.HostConfigTable)
      returns (content: string)
      requires configs.Valid()
      modifies this
      ensures old(FileFresh(useCache, now)) ==>
        content == old(fileCache).value &&
        configCache == old(configCache) && fileCache == old(fileCache) && cacheTimestamp == old(cacheTimestamp)
      ensures !old(FileFresh(useCache, now)) ==>
        content == PacScript(old(ConfigServed(proxyHost, useCache, now, services, configs)).proxyRules)
      ensures !old(FileFresh(useCache, now)) && useCache ==> fileCache == Some(content) && cacheTimestamp == Some(now)
      ensures !old(FileFresh(useCache, now)) && useCache ==>
        configCache == if !old(ConfigFresh(useCache, now)) && |old(RunningServices(services))| > 0
                       then Some(old(Generated(proxyHost, services, configs)))
                       else old(configCache)
      ensures !old(FileFresh(useCache, now)) && !useCache ==>
        configCache == old(configCache) && fileCache == old(fileCache) && cacheTimestamp == old(cacheTimestamp)
    {
      if useCache && fileCache.Some? && |fileCache.value| > 0 && Truthy(cacheTimestamp) {
        if now - cacheTimestamp.value < CACHE_TTL {
          return fileCache.value;
        }
      }
      ghost var served := ConfigServed(proxyHost, useCache, now, services, configs);
      var config := GeneratePACConfig(proxyHost, useCache, now, services, configs);
      assert config == served;
      content := PacScript(config.proxyRules);
      if useCache {
        fileCache := Some(content);
        cacheTimestamp := Some(now);
      }
    }
  }

  // ---------------------------------------------------------------------
  // Properties of the domain map
  // ---------------------------------------------------------------------

  lemma LookupAddHost(d: DomainMap, x: string, p: string, h: string)
    ensures Lookup(AddHost(d, x, p), h) ==
      if Lookup(d, h).Some? then Lookup(d, h) else if h == x then Some(p) else None
  {
    if !HasKey(d, x) {
      assert (d + [(x, p)])[..|d|] == d;
    }
  }

  lemma {:induction false} LookupAddHosts(d: DomainMap, hosts: seq<string>, p: string, h: string)
    ensures Lookup(AddHosts(d, hosts, p), h) ==
      if Lookup(d, h).Some? then Lookup(d, h) else if h in hosts then Some(p) else None
    decreases |hosts|
  {
    if |hosts| > 0 {
      var init := hosts[..|hosts| - 1];
      LookupAddHosts(d, init, p, h);
      LookupAddHost(AddHosts(d, init, p), hosts[|hosts| - 1], p, h);
      assert hosts == init + [hosts[|hosts| - 1]];
    }
  }

  /**
   * The domain map holds host `h` exactly when some enabled configuration of a running service lists
   * it, and then its proxy is the one of the FIRST such configuration: later ones never override it.
   */
  lemma {:induction false} DomainMapMeaning(views: seq<HostConfigs.HostConfigView>, proxyHost: string, h: string)
    ensures Lookup(DomainMapOf(views, proxyHost), h) == FirstOwnerProxy(views, proxyHost, h)
    decreases |views|
  {
    if |views| > 0 {
      var init := views[..|views| - 1];
      var last := views[|views| - 1];
      assert views == init + [last];
      DomainMapMeaning(init, proxyHost, h);
      FindIndexAppend(init, [last], ListsHost(h));
      if Qualifies(last) {
        LookupAddHosts(DomainMapOf(init, proxyHost), last.hosts, ProxyOf(proxyHost, last), h);
      }
    }
  }

  lemma AddHostKeepsDistinct(d: DomainMap, x: string, p: string)
    requires KeysDistinct(d)
    ensures KeysDistinct(AddHost(d, x, p))
  {
  }

  lemma {:induction false} AddHostsKeepsDistinct(d: DomainMap, hosts: seq<string>, p: string)
    requires KeysDistinct(d)
    ensures KeysDistinct(AddHosts(d, hosts, p))
    decreases |hosts|
  {
    if |hosts| > 0 {
      AddHostsKeepsDistinct(d, hosts[..|hosts| - 1], p);
      AddHostKeepsDistinct(AddHosts(d, hosts[..|hosts| - 1], p), hosts[|hosts| - 1], p);
    }
  }

  /** Each host is mapped at most once. */
  lemma {:induction false} DomainMapKeysDistinct(views: seq<HostConfigs.HostConfigView>, proxyHost: string)
    ensures KeysDistinct(DomainMapOf(views, proxyHost))
    decreases |views|
  {
    if |views| > 0 {
      var init := views[..|views| - 1];
      DomainMapKeysDistinct(init, proxyHost);
      var last := views[|views| - 1];
      if Qualifies(last) {
        AddHostsKeepsDistinct(DomainMapOf(init, proxyHost), last.hosts, ProxyOf(proxyHost, last));
      }
    }
  }

  // ---------------------------------------------------------------------
  // Properties of the grouping
  // ---------------------------------------------------------------------

  ghost predicate GroupsMatch(dm: DomainMap, gs: Groups)
  {
    forall i, d :: 0 <= i < |gs| ==> (d in gs[i].1 <==> Lookup(dm, d) == Some(gs[i].0))
  }

  /** Every proxy the map uses has a group. */
  predicate Covered(dm: DomainMap, gs: Groups)
  {
    forall k :: 0 <= k < |dm| ==> exists i :: 0 <= i < |gs| && gs[i].0 == dm[k].1
  }

  predicate GroupsNonEmpty(gs: Groups)
  {
    forall i :: 0 <= i < |gs| ==> |gs[i].1| > 0
  }

  lemma GroupStep(dm: DomainMap, gs: Groups, h: string, p: string)
    requires KeysDistinct(dm + [(h, p)])
    requires ProxiesDistinct(gs) && GroupsMatch(dm, gs) && Covered(dm, gs) && GroupsNonEmpty(gs)
    ensures ProxiesDistinct(AddToGroup(gs, h, p))
    ensures GroupsMatch(dm + [(h, p)], AddToGroup(gs, h, p))
    ensures Covered(dm + [(h, p)], AddToGroup(gs, h, p))
    ensures GroupsNonEmpty(AddToGroup(gs, h, p))
  {
    LookupAppend(dm, h, p);
    forall i | 0 <= i < |gs| ensures h !in gs[i].1 {
    }
    var found := FindIndex(gs, ProxyIs(p));
    if found.None? {
      GroupStepNew(dm, gs, h, p);
    } else {
      GroupStepOld(dm, gs, h, p, found.value);
    }
  }

  /** A new last entry answers for its own key, and every other key reads as before. */
  lemma LookupAppend(dm: DomainMap, h: string, p: string)
    requires KeysDistinct(dm + [(h, p)])
    ensures Lookup(dm, h).None?
    ensures forall d :: Lookup(dm + [(h, p)], d) == if d == h then Some(p) else Lookup(dm, d)
  {
    var dm' := dm + [(h, p)];
    assert dm'[..|dm|] == dm;
    forall k | 0 <= k < |dm| ensures dm[k].0 != h {
      assert dm'[k] == dm[k] && dm'[|dm|] == (h, p);
    }
  }

  /** The step of GroupStep for a proxy without a group: a group holding just the host is appended. */
  lemma GroupStepNew(dm: DomainMap, gs: Groups, h: string, p: string)
    requires FindIndex(gs, ProxyIs(p)).None?
    requires ProxiesDistinct(gs) && GroupsMatch(dm, gs) && Covered(dm, gs) && GroupsNonEmpty(gs)
    requires forall d :: Lookup(dm + [(h, p)], d) == if d == h then Some(p) else Lookup(dm, d)
    requires forall i :: 0 <= i < |gs| ==> h !in gs[i].1
    ensures ProxiesDistinct(AddToGroup(gs, h, p))
    ensures GroupsMatch(dm + [(h, p)], AddToGroup(gs, h, p))
    ensures Covered(dm + [(h, p)], AddToGroup(gs, h, p))
    ensures GroupsNonEmpty(AddToGroup(gs, h, p))
  {
    var dm' := dm + [(h, p)];
    var gs' := AddToGroup(gs, h, p);
    assert gs' == gs + [(p, [h])];
    forall i, d | 0 <= i < |gs'| ensures d in gs'[i].1 <==> Lookup(dm', d) == Some(gs'[i].0) {
      if i < |gs| {
        assert gs'[i] == gs[i];
        assert ProxyIs(p)(gs[i]) == false;
      }
    }
    forall k | 0 <= k < |dm'| ensures exists i :: 0 <= i < |gs'| && gs'[i].0 == dm'[k].1 {
      if k < |dm| {
        var i :| 0 <= i < |gs| && gs[i].0 == dm[k].1;
        assert gs'[i] == gs[i];
      } else {
        assert gs'[|gs|].0 == p;
      }
    }
  }

  /** The step of GroupStep for a proxy with a group at `i0`: the host is appended to that group. */
  lemma GroupStepOld(dm: DomainMap, gs: Groups, h: string, p: string, i0: nat)
    requires FindIndex(gs, ProxyIs(p)) == Some(i0)
    requires ProxiesDistinct(gs) && GroupsMatch(dm, gs) && Covered(dm, gs) && GroupsNonEmpty(gs)
    requires forall d :: Lookup(dm + [(h, p)], d) == if d == h then Some(p) else Lookup(dm, d)
    requires forall i :: 0 <= i < |gs| ==> h !in gs[i].1
    ensures ProxiesDistinct(AddToGroup(gs, h, p))
    ensures GroupsMatch(dm + [(h, p)], AddToGroup(gs, h, p))
    ensures Covered(dm + [(h, p)], AddToGroup(gs, h, p))
    ensures GroupsNonEmpty(AddToGroup(gs, h, p))
  {
    var gs' := AddToGroup(gs, h, p);
    assert gs' == gs[i0 := (p, gs[i0].1 + [h])];
    GroupStepOldMatch(dm, gs, h, p, i0, gs');
    var dm' := dm + [(h, p)];
    forall k | 0 <= k < |dm'| ensures exists i :: 0 <= i < |gs'| && gs'[i].0 == dm'[k].1 {
      if k < |dm| {
        var i :| 0 <= i < |gs| && gs[i].0 == dm[k].1;
        assert gs'[i].0 == gs[i].0;
      } else {
        assert gs'[i0].0 == p;
      }
    }
  }

  lemma GroupStepOldMatch(dm: DomainMap, gs: Groups, h: string, p: string, i0: nat, gs': Groups)
    requires i0 < |gs| && gs[i0].0 == p && gs' == gs[i0 := (p, gs[i0].1 + [h])]
    requires ProxiesDistinct(gs) && GroupsMatch(dm, gs)
    requires forall d :: Lookup(dm + [(h, p)], d) == if d == h then Some(p) else Lookup(dm, d)
    requires forall i :: 0 <= i < |gs| ==> h !in gs[i].1
    ensures GroupsMatch(dm + [(h, p)], gs')
  {
    var dm' := dm + [(h, p)];
    forall i, d | 0 <= i < |gs'| ensures d in gs'[i].1 <==> Lookup(dm', d) == Some(gs'[i].0) {
      if i != i0 {
        assert gs'[i] == gs[i];
      }
    }
  }

  /**
   * Grouping a map with distinct keys gives pairwise distinct, non-empty groups, one for every
   * proxy the map uses, and a host sits in a group exactly when the map sends it to that group's proxy.
   */
  lemma {:induction false} GroupsShape(dm: DomainMap)
    requires KeysDistinct(dm)
    ensures ProxiesDistinct(GroupsOf(dm))
    ensures GroupsMatch(dm, GroupsOf(dm))
    ensures Covered(dm, GroupsOf(dm))
    ensures GroupsNonEmpty(GroupsOf(dm))
    ensures |GroupsOf(dm)| == 0 <==> |dm| == 0
    decreases |dm|
  {
    if |dm| > 0 {
      var init := dm[..|dm| - 1];
      assert dm == init + [dm[|dm| - 1]];
      GroupsShape(init);
      GroupStep(init, GroupsOf(init), dm[|dm| - 1].0, dm[|dm| - 1].1);
    }
  }

  // ---------------------------------------------------------------------
  // Properties of the generated config
  // ---------------------------------------------------------------------

  predicate InRules(rules: seq<Rule>, d: string)
  {
    exists i, j :: 0 <= i < |rules| && 0 <= j < |rules[i].domains| && rules[i].domains[j] == d
  }

  predicate Offered(views: seq<HostConfigs.HostConfigView>, d: string)
  {
    exists k :: 0 <= k < |views| && Qualifies(views[k]) && d in views[k].hosts
  }

  /**
   * A host appears in the rules exactly when some service runs and an enabled configuration of a
   * running service lists it; the rule holding it carries the proxy of the first such configuration.
   */
  lemma ConfigDomains(proxyHost: string, running: seq<ProxyServices.ProxyService>,
                      views: seq<HostConfigs.HostConfigView>, d: string)
    ensures InRules(ConfigFor(proxyHost, running, views).proxyRules, d) <==> |running| > 0 && Offered(views, d)
    ensures forall i :: 0 <= i < |ConfigFor(proxyHost, running, views).proxyRules| &&
                        d in ConfigFor(proxyHost, running, views).proxyRules[i].domains ==>
      Some(ConfigFor(proxyHost, running, views).proxyRules[i].proxy) == FirstOwnerProxy(views, proxyHost, d)
  {
    if |running| > 0 {
      RulesSound(views, proxyHost, d);
      RulesComplete(views, proxyHost, d);
      RulesProxy(views, proxyHost, d);
    }
  }

  /** A host in some rule is listed by an enabled configuration of a running service, and its rule's proxy is that of the first one. */
  lemma RulesProxy(views: seq<HostConfigs.HostConfigView>, proxyHost: string, d: string)
    ensures forall i :: 0 <= i < |RulesFor(views, proxyHost)| && d in RulesFor(views, proxyHost)[i].domains ==>
      Some(RulesFor(views, proxyHost)[i].proxy) == FirstOwnerProxy(views, proxyHost, d)
  {
    var dm := DomainMapOf(views, proxyHost);
    DomainMapKeysDistinct(views, proxyHost);
    GroupsShape(dm);
    DomainMapMeaning(views, proxyHost, d);
  }

  lemma RulesSound(views: seq<HostConfigs.HostConfigView>, proxyHost: string, d: string)
    ensures InRules(RulesFor(views, proxyHost), d) ==> Offered(views, d)
  {
    var rules := RulesFor(views, proxyHost);
    if InRules(rules, d) {
      var dm := DomainMapOf(views, proxyHost);
      DomainMapKeysDistinct(views, proxyHost);
      GroupsShape(dm);
      DomainMapMeaning(views, proxyHost, d);
      var gs := GroupsOf(dm);
      var i, j :| 0 <= i < |rules| && 0 <= j < |rules[i].domains| && rules[i].domains[j] == d;
      assert d in gs[i].1;
      var f := FindIndex(views, ListsHost(d));
      assert f.Some? && ListsHost(d)(views[f.value]);
    }
  }

  lemma RulesComplete(views: seq<HostConfigs.HostConfigView>, proxyHost: string, d: string)
    ensures Offered(views, d) ==> InRules(RulesFor(views, proxyHost), d)
  {
    if Offered(views, d) {
      var dm := DomainMapOf(views, proxyHost);
      DomainMapKeysDistinct(views, proxyHost);
      GroupsShape(dm);
      DomainMapMeaning(views, proxyHost, d);
      var gs := GroupsOf(dm);
      var rules := RulesOf(gs);
      var k :| 0 <= k < |views| && Qualifies(views[k]) && d in views[k].hosts;
      assert ListsHost(d)(views[k]);
      var p := Lookup(dm, d).value;
      var m :| 0 <= m < |dm| && dm[m] == (d, p);
      var i :| 0 <= i < |gs| && gs[i].0 == p;
      assert d in gs[i].1;
      var j :| 0 <= j < |gs[i].1| && gs[i].1[j] == d;
      assert rules[i].domains[j] == d;
    }
  }

  /** `proxy` is `SOCKS5 <proxyHost>:<port>` of some enabled configuration of a running service. */
  predicate ProxyOfSomeConfig(views: seq<HostConfigs.HostConfigView>, proxyHost: string, proxy: string)
  {
    exists k :: 0 <= k < |views| && Qualifies(views[k]) && proxy == ProxyOf(proxyHost, views[k])
  }

  /**
   * Rule proxies are pairwise distinct, and each is `SOCKS5 <proxyHost>:<port>` of an enabled
   * configuration of a running service.
   */
  lemma ConfigProxies(proxyHost: string, running: seq<ProxyServices.ProxyService>, views: seq<HostConfigs.HostConfigView>)
    ensures forall i, j :: 0 <= i < j < |ConfigFor(proxyHost, running, views).proxyRules| ==>
      ConfigFor(proxyHost, running, views).proxyRules[i].proxy != ConfigFor(proxyHost, running, views).proxyRules[j].proxy
    ensures forall i :: 0 <= i < |ConfigFor(proxyHost, running, views).proxyRules| ==>
      ProxyOfSomeConfig(views, proxyHost, ConfigFor(proxyHost, running, views).proxyRules[i].proxy)
  {
    if |running| > 0 {
      var dm := DomainMapOf(views, proxyHost);
      DomainMapKeysDistinct(views, proxyHost);
      GroupsShape(dm);
      var gs := GroupsOf(dm);
      var rules := RulesOf(gs);
      assert ConfigFor(proxyHost, running, views).proxyRules == rules;
      forall i | 0 <= i < |rules| ensures ProxyOfSomeConfig(views, proxyHost, rules[i].proxy) {
        var d := gs[i].1[0];
        assert d in gs[i].1;
        DomainMapMeaning(views, proxyHost, d);
        var f := FindIndex(views, ListsHost(d));
        assert f.Some?;
        assert ListsHost(d)(views[f.value]);
        assert rules[i].proxy == gs[i].0 == ProxyOf(proxyHost, views[f.value]);
      }
    }
  }

  /** `direct` is set exactly when there are no rules: no running service, or no qualifying host at all. */
  lemma ConfigDirect(proxyHost: string, running: seq<ProxyServices.ProxyService>, views: seq<HostConfigs.HostConfigView>)
    ensures ConfigFor(proxyHost, running, views).direct <==> |ConfigFor(proxyHost, running, views).proxyRules| == 0
    ensures ConfigFor(proxyHost, running, views).direct <==>
      |running| == 0 || forall k :: 0 <= k < |views| && Qualifies(views[k]) ==> |views[k].hosts| == 0
  {
    var c := ConfigFor(proxyHost, running, views);
    if |running| > 0 {
      var dm := DomainMapOf(views, proxyHost);
      DomainMapKeysDistinct(views, proxyHost);
      GroupsShape(dm);
      if c.direct {
        forall k | 0 <= k < |views| && Qualifies(views[k]) ensures |views[k].hosts| == 0 {
          if |views[k].hosts| > 0 {
            var d := views[k].hosts[0];
            assert ListsHost(d)(views[k]);
            DomainMapMeaning(views, proxyHost, d);
          }
        }
      } else {
        var d := dm[0].0;
        DomainMapMeaning(views, proxyHost, d);
        var f := FindIndex(views, ListsHost(d));
        assert f.Some? && ListsHost(d)(views[f.value]);
      }
    }
  }

  // ---------------------------------------------------------------------
  // Properties of the script
  // ---------------------------------------------------------------------

  /** The script returns the proxy of the first rule, in list order, with a matching domain, else DIRECT. */
  lemma {:induction false} ScriptFirstMatch(rules: seq<Rule>, host: string)
    ensures FindProxyForURL(rules, host) ==
      match FindIndex(rules, RuleMatchesHost(host))
        case None => "DIRECT"
        case Some(i) => rules[i].proxy
    decreases |rules|
  {
    if |rules| > 0 {
      ScriptFirstMatch(rules[1..], host);
      assert rules == [rules[0]] + rules[1..];
      FindIndexAppend([rules[0]], rules[1..], RuleMatchesHost(host));
    }
  }

  /** A domain covers itself and its sub-domains, not names that merely end in the same letters. */
  lemma SuffixMatching()
    ensures DomainMatches("sub.example.com", "example.com")
    ensures !DomainMatches("badexample.com", "example.com")
  {
    assert "sub.example.com"[|"sub.example.com"| - |".example.com"|..] == ".example.com";
    assert "badexample.com"[|"badexample.com"| - |".example.com"|..] == "example.com"[..0] + "mple.com"[..0] + "badexample.com"[2..];
  }

  /** Every host an enabled configuration of a running service lists is sent to some SOCKS5 proxy. */
  lemma OfferedHostsAreProxied(proxyHost: string, running: seq<ProxyServices.ProxyService>,
                               views: seq<HostConfigs.HostConfigView>, d: string)
    requires |running| > 0 && Offered(views, d)
    ensures StartsWith(FindProxyForURL(ConfigFor(proxyHost, running, views).proxyRules, d), "SOCKS5 ")
  {
    var rules := ConfigFor(proxyHost, running, views).proxyRules;
    ConfigDomains(proxyHost, running, views, d);
    ConfigProxies(proxyHost, running, views);
    ScriptFirstMatch(rules, d);
    var i, j :| 0 <= i < |rules| && 0 <= j < |rules[i].domains| && rules[i].domains[j] == d;
    assert RuleMatchesHost(d)(rules[i]);
    var f := FindIndex(rules, RuleMatchesHost(d));
    var k :| 0 <= k < |views| && Qualifies(views[k]) && rules[f.value].proxy == ProxyOf(proxyHost, views[k]);
  }
}
