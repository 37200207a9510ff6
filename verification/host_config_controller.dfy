/**
 * The host configuration endpoints (server/back-end/controllers/hostConfigController.js):
 * create, list, update, delete, enable and disable a host list, and the
 * conflict check. Every write is gated by the checks in a fixed order and
 * followed by clearing the PAC cache.
 */
module HostConfigController {
  import opened Common
  import ProxyServices
  import HostConfigs
  import ConflictChecker
  import PacGenerator

  /** `proxyServiceId` of a request body: falsy, a value parseInt reads as a number, or one it reads as NaN. */
  datatype IdField = NoId | ParsedId(n: int) | NotANumber

  /** The conflicts of `hosts` against every stored config except `exclude`. */
  function ConflictsFor(configs: HostConfigs.HostConfigTable, hosts: seq<string>, exclude: Option<int>)
    : seq<ConflictChecker.Conflict>
    requires configs.Valid()
    reads configs
  {
    ConflictChecker.Conflicts(ConflictChecker.Candidates(configs, exclude), hosts)
  }

  predicate CacheCleared(pac: PacGenerator.PacGenerator)
    reads pac
  {
    pac.configCache == None && pac.fileCache == None && pac.cacheTimestamp == None
  }

  /**
   * create: 400 VALIDATION_ERROR for a missing name, id or host array; 400 INVALID_PROXY_SERVICE_ID
   * when the id is not a number; 404 when no service has it; 409 HOST_CONFLICT when a non-empty host
   * list clashes with a stored one. Only then is the config written and the PAC cache cleared.
   */
  method Create(configs: HostConfigs.HostConfigTable, services: ProxyServices.ProxyServiceTable,
                pac: PacGenerator.PacGenerator, name: string, proxyServiceId: IdField, hosts: Option<seq<string>>, now: int)
    returns (reply: Reply<HostConfigs.HostConfig>)
    requires configs.Valid()
    modifies configs, pac
    ensures configs.Valid()
    ensures reply.Failure? ==>
      unchanged(configs, pac) && old(CreateRejection(configs, services, name, proxyServiceId, hosts)) == Some(reply)
    ensures reply.Success? ==>
      old(CreateRejection(configs, services, name, proxyServiceId, hosts)).None? &&
      |configs.rows| == |old(configs.rows)| + 1 && configs.rows[..|old(configs.rows)|] == old(configs.rows) &&
      reply.data.name == name && reply.data.proxyServiceId == proxyServiceId.n && reply.data.hosts == hosts.value &&
      reply.data.enabled && CacheCleared(pac)
  {
    var rejection := CheckCreate(configs, services, name, proxyServiceId, hosts);
    if rejection.Some? {
      return rejection.value;
    }
    var config := configs.Create(HostConfigs.NewHostConfig(name, proxyServiceId.n, hosts.value, None), now);
    pac.ClearCache();
    reply := Success(config);
  }

  /** The answer create gives before writing anything: the first failing check in the handler's order, if any. */
  function CreateRejection(configs: HostConfigs.HostConfigTable, services: ProxyServices.ProxyServiceTable,
                           name: string, proxyServiceId: IdField, hosts: Option<seq<string>>)
    : (r: Option<Reply<HostConfigs.HostConfig>>)
    requires configs.Valid()
    reads configs, services
    ensures |name| == 0 || proxyServiceId.NoId? || hosts.None? ==> r == Some(Failure(400, "VALIDATION_ERROR"))
    ensures r == Some(Failure(400, "INVALID_PROXY_SERVICE_ID")) <==>
      |name| > 0 && hosts.Some? && proxyServiceId.NotANumber?
    ensures r == Some(Failure(404, "PROXY_SERVICE_NOT_FOUND")) <==>
      |name| > 0 && hosts.Some? && proxyServiceId.ParsedId? && services.FindById(proxyServiceId.n).None?
    ensures r == Some(Failure(409, "HOST_CONFLICT")) <==>
      |name| > 0 && hosts.Some? && proxyServiceId.ParsedId? && services.FindById(proxyServiceId.n).Some? &&
      |hosts.value| > 0 && |ConflictsFor(configs, hosts.value, None)| > 0
    ensures r.None? <==>
      |name| > 0 && hosts.Some? && proxyServiceId.ParsedId? && services.FindById(proxyServiceId.n).Some? &&
      (|hosts.value| == 0 || |ConflictsFor(configs, hosts.value, None)| == 0)
  {
    if |name| == 0 || proxyServiceId.NoId? || hosts.None? then Some(Failure(400, "VALIDATION_ERROR"))
    else if proxyServiceId.NotANumber? then Some(Failure(400, "INVALID_PROXY_SERVICE_ID"))
    else if services.FindById(proxyServiceId.n).None? then Some(Failure(404, "PROXY_SERVICE_NOT_FOUND"))
    else if |hosts.value| > 0 && |ConflictsFor(configs, hosts.value, None)| > 0 then Some(Failure(409, "HOST_CONFLICT"))
    else None
  }

  /** The checks of create, run against the stores. */
  method CheckCreate(configs: HostConfigs.HostConfigTable, services: ProxyServices.ProxyServiceTable,
                     name: string, proxyServiceId: IdField, hosts: Option<seq<string>>)
    returns (rejection: Option<Reply<HostConfigs.HostConfig>>)
    requires configs.Valid()
    ensures rejection == CreateRejection(configs, services, name, proxyServiceId, hosts)
    ensures rejection.Some? ==> rejection.value.Failure?
  {
    if |name| == 0 || proxyServiceId.NoId? || hosts.None? {
      return Some(Failure(400, "VALIDATION_ERROR"));
    }
    if proxyServiceId.NotANumber? {
      return Some(Failure(400, "INVALID_PROXY_SERVICE_ID"));
    }
    var proxyService := services.FindById(proxyServiceId.n);
    if proxyService.None? {
      return Some(Failure(404, "PROXY_SERVICE_NOT_FOUND"));
    }
    if |hosts.value| > 0 {
      var conflictResult := ConflictChecker.CheckConflictWithDetails(configs, hosts.value, None);
      if conflictResult.hasConflict {
        return Some(Failure(409, "HOST_CONFLICT"));
      }
    }
    rejection := None;
  }

  /** list: the configs joined with their services; `total` is the number of items returned. */
  function List(configs: HostConfigs.HostConfigTable, services: ProxyServices.ProxyServiceTable, proxyServiceId: Option<int>)
    : (r: (seq<HostConfigs.HostConfigView>, nat))
    requires configs.Valid()
    reads configs, services
    ensures r.1 == |r.0| && r.0 == configs.FindAllWithProxyService(services, proxyServiceId, None)
    ensures forall k :: 0 <= k < |r.0| && Truthy(proxyServiceId) ==> r.0[k].proxyServiceId == proxyServiceId.value
  {
    var items := configs.FindAllWithProxyService(services, proxyServiceId, None);
    (items, |items|)
  }

  /**
   * update: 404 CONFIG_NOT_FOUND; 409 when a non-empty host array clashes with another config (its own
   * hosts excluded); 404 PROXY_SERVICE_NOT_FOUND for a truthy id no service has. Then the given fields
   * are written and the PAC cache cleared.
   */
  method Update(configs: HostConfigs.HostConfigTable, services: ProxyServices.ProxyServiceTable, pac: PacGenerator.PacGenerator,
                id: int, name: Option<string>, proxyServiceId: Option<int>, hosts: Option<seq<string>>, now: int)
    returns (reply: Reply<Option<HostConfigs.HostConfig>>)
    requires configs.Valid()
    modifies configs, pac
    ensures configs.Valid()
    ensures reply.Failure? ==>
      unchanged(configs, pac) && old(UpdateRejection(configs, services, id, proxyServiceId, hosts)) == Some(reply)
    ensures reply.Success? ==>
      old(UpdateRejection(configs, services, id, proxyServiceId, hosts)).None? &&
      CacheCleared(pac) && reply.data == configs.FindById(id) &&
      |configs.rows| == |old(configs.rows)| &&
      forall k :: 0 <= k < |configs.rows| ==>
        configs.rows[k] == (if old(configs.rows)[k].id == id && HostConfigs.HasFields(HostConfigs.HostConfigPatch(name, proxyServiceId, hosts, None))
                            then HostConfigs.Patched(old(configs.rows)[k], HostConfigs.HostConfigPatch(name, proxyServiceId, hosts, None), now)
                            else old(configs.rows)[k])
  {
    var rejection := CheckUpdate(configs, services, id, proxyServiceId, hosts);
    if rejection.Some? {
      return rejection.value;
    }
    var config := configs.Update(id, HostConfigs.HostConfigPatch(name, proxyServiceId, hosts, None), now);
    pac.ClearCache();
    reply := Success(config);
  }

  /**
   * The answer update gives without writing anything: the first failing check in the handler's order, if any,
   * and last the UPDATE itself failing with 500 INTERNAL_ERROR when it would set an owner no service has. Only a
   * falsy id (0) gets that far, since a truthy unknown one is refused with 404 first: the model writes the
   * provided proxyServiceId, and the foreign key on proxy_service_id (enabled by PRAGMA foreign_keys) refuses it.
   */
  function UpdateRejection(configs: HostConfigs.HostConfigTable, services: ProxyServices.ProxyServiceTable,
                           id: int, proxyServiceId: Option<int>, hosts: Option<seq<string>>)
    : (r: Option<Reply<Option<HostConfigs.HostConfig>>>)
    requires configs.Valid()
    reads configs, services
    ensures configs.FindById(id).None? ==> r == Some(Failure(404, "CONFIG_NOT_FOUND"))
    ensures configs.FindById(id).Some? ==>
      (r == Some(Failure(409, "HOST_CONFLICT")) <==>
       hosts.Some? && |hosts.value| > 0 && |ConflictsFor(configs, hosts.value, Some(id))| > 0)
    ensures r == Some(Failure(404, "PROXY_SERVICE_NOT_FOUND")) ==>
      Truthy(proxyServiceId) && services.FindById(proxyServiceId.value).None?
    ensures r == Some(Failure(500, "INTERNAL_ERROR")) <==>
      configs.FindById(id).Some? &&
      (hosts.Some? && |hosts.value| > 0 ==> |ConflictsFor(configs, hosts.value, Some(id))| == 0) &&
      proxyServiceId.Some? && !Truthy(proxyServiceId) && services.FindById(proxyServiceId.value).None?
    ensures r.None? <==>
      configs.FindById(id).Some? &&
      (hosts.Some? && |hosts.value| > 0 ==> |ConflictsFor(configs, hosts.value, Some(id))| == 0) &&
      (proxyServiceId.Some? ==> services.FindById(proxyServiceId.value).Some?)
  {
    if configs.FindById(id).None? then Some(Failure(404, "CONFIG_NOT_FOUND"))
    else if hosts.Some? && |hosts.value| > 0 && |ConflictsFor(configs, hosts.value, Some(id))| > 0 then
      Some(Failure(409, "HOST_CONFLICT"))
    else if Truthy(proxyServiceId) && services.FindById(proxyServiceId.value).None? then
      Some(Failure(404, "PROXY_SERVICE_NOT_FOUND"))
    else if proxyServiceId.Some? && services.FindById(proxyServiceId.value).None? then
      Some(Failure(500, "INTERNAL_ERROR"))
    else None
  }

  /**
   * The checks of update, run against the stores: lookup, conflict check excluding the config itself, service
   * lookup, and the foreign key the UPDATE meets for an owner no service has.
   */
  method CheckUpdate(configs: HostConfigs.HostConfigTable, services: ProxyServices.ProxyServiceTable,
                     id: int, proxyServiceId: Option<int>, hosts: Option<seq<string>>)
    returns (rejection: Option<Reply<Option<HostConfigs.HostConfig>>>)
    requires configs.Valid()
    ensures rejection == UpdateRejection(configs, services, id, proxyServiceId, hosts)
    ensures rejection.Some? ==> rejection.value.Failure?
  {
    var existingConfig := configs.FindById(id);
    if existingConfig.None? {
      return Some(Failure(404, "CONFIG_NOT_FOUND"));
    }
    if hosts.Some? && |hosts.value| > 0 {
      var conflictResult := ConflictChecker.CheckConflictWithDetails(configs, hosts.value, Some(id));
      if conflictResult.hasConflict {
        return Some(Failure(409, "HOST_CONFLICT"));
      }
    }
    if Truthy(proxyServiceId) {
      var proxyService := services.FindById(proxyServiceId.value);
      if proxyService.None? {
        return Some(Failure(404, "PROXY_SERVICE_NOT_FOUND"));
      }
    }
    if proxyServiceId.Some? {
      var owner := services.FindById(proxyServiceId.value);
      if owner.None? {
        return Some(Failure(500, "INTERNAL_ERROR"));
      }
    }
    rejection := None;
  }

  /** deleteConfig: 404 CONFIG_NOT_FOUND, else the row is removed and the PAC cache cleared. */
  method DeleteConfig(configs: HostConfigs.HostConfigTable, pac: PacGenerator.PacGenerator, id: int)
    returns (reply: Reply<()>)
    requires configs.Valid()
    modifies configs, pac
    ensures configs.Valid()
    ensures old(configs.FindById(id)).None? ==>
      reply == Failure(404, "CONFIG_NOT_FOUND") && unchanged(configs, pac)
    ensures old(configs.FindById(id)).Some? ==>
      reply == Success(()) && CacheCleared(pac) &&
      configs.rows == Filter(old(configs.rows), (c: HostConfigs.HostConfigRow) => c.id != id) &&
      |configs.rows| < |old(configs.rows)|
  {
    var config := configs.FindById(id);
    if config.None? {
      return Failure(404, "CONFIG_NOT_FOUND");
    }
    configs.Delete(id);
    FilterDropsOne(old(configs.rows), id);
    pac.ClearCache();
    reply := Success(());
  }

  /** Removing the rows with an id some row holds shortens the table. */
  lemma {:induction false} FilterDropsOne(rows: seq<HostConfigs.HostConfigRow>, id: int)
    requires exists k :: 0 <= k < |rows| && rows[k].id == id
    ensures |Filter(rows, (c: HostConfigs.HostConfigRow) => c.id != id)| < |rows|
    decreases |rows|
  {
    if rows[0].id != id {
      var k :| 0 <= k < |rows| && rows[k].id == id;
      assert rows[1..][k - 1].id == id;
      FilterDropsOne(rows[1..], id);
    }
  }

  /**
   * checkConflict: 400 for a missing or non-array host list, no conflict for an empty one, otherwise the
   * detailed result against every config except a truthy `excludeConfigId`.
   */
  method CheckConflict(configs: HostConfigs.HostConfigTable, hosts: Option<seq<string>>, excludeConfigId: Option<int>)
    returns (reply: Reply<ConflictChecker.DetailedResult>)
    requires configs.Valid()
    ensures hosts.None? ==> reply == Failure(400, "VALIDATION_ERROR")
    ensures hosts.Some? && |hosts.value| == 0 ==> reply == Success(ConflictChecker.DetailedResult(false, []))
    ensures hosts.Some? && |hosts.value| > 0 ==>
      reply.Success? &&
      (reply.data.hasConflict <==> |ConflictsFor(configs, hosts.value, excludeConfigId)| > 0) &&
      |reply.data.conflicts| == |ConflictsFor(configs, hosts.value, excludeConfigId)|
    ensures hosts.Some? && |hosts.value| > 0 ==>
      reply == Success(ConflictChecker.WithDetails(
        ConflictChecker.ConflictResult(|ConflictsFor(configs, hosts.value, excludeConfigId)| > 0,
                                       ConflictsFor(configs, hosts.value, excludeConfigId)), configs))
  {
    if hosts.None? {
      return Failure(400, "VALIDATION_ERROR");
    }
    if |hosts.value| == 0 {
      return Success(ConflictChecker.DetailedResult(false, []));
    }
    var exclude := if Truthy(excludeConfigId) then excludeConfigId else None;
    SameExclusion(configs, excludeConfigId);
    var conflictResult := ConflictChecker.CheckConflictWithDetails(configs, hosts.value, exclude);
    reply := Success(conflictResult);
  }

  /** `excludeConfigId || null` excludes the same configs as the id itself. */
  lemma SameExclusion(configs: HostConfigs.HostConfigTable, excludeConfigId: Option<int>)
    requires configs.Valid()
    ensures ConflictChecker.Candidates(configs, if Truthy(excludeConfigId) then excludeConfigId else None)
         == ConflictChecker.Candidates(configs, excludeConfigId)
  {
    var e := if Truthy(excludeConfigId) then excludeConfigId else None;
    assert forall c :: HostConfigs.Kept(c, e) == HostConfigs.Kept(c, excludeConfigId);
    FilterSamePredicate(configs.rows, (c: HostConfigs.HostConfigRow) => HostConfigs.Kept(c, e),
                        (c: HostConfigs.HostConfigRow) => HostConfigs.Kept(c, excludeConfigId));
  }

  lemma {:induction false} FilterSamePredicate<T>(s: seq<T>, p: T -> bool, q: T -> bool)
    requires forall x :: p(x) == q(x)
    ensures Filter(s, p) == Filter(s, q)
    decreases |s|
  {
    if |s| > 0 {
      FilterSamePredicate(s[1..], p, q);
    }
  }

  /**
   * enable / disable: write only the enabled flag, with no existence check, and clear the PAC cache.
   * The answer carries the row, or None when the id is unknown.
   */
  method SetEnabled(configs: HostConfigs.HostConfigTable, pac: PacGenerator.PacGenerator, id: int, enabled: bool, now: int)
    returns (reply: Reply<Option<HostConfigs.HostConfig>>)
    requires configs.Valid()
    modifies configs, pac
    ensures configs.Valid() && CacheCleared(pac)
    ensures reply == Success(configs.FindById(id))
    ensures |configs.rows| == |old(configs.rows)|
    ensures forall k :: 0 <= k < |configs.rows| ==>
      configs.rows[k] == (if old(configs.rows)[k].id == id
                          then HostConfigs.Patched(old(configs.rows)[k], HostConfigs.HostConfigPatch(None, None, None, Some(enabled)), now)
                          else old(configs.rows)[k])
  {
    var config := configs.Update(id, HostConfigs.HostConfigPatch(None, None, None, Some(enabled)), now);
    pac.ClearCache();
    reply := Success(config);
  }

  /** enable and disable change the enabled column alone: name, owner and hosts stay. */
  lemma EnabledOnly(r: HostConfigs.HostConfigRow, enabled: bool, now: int)
    ensures var p := HostConfigs.Patched(r, HostConfigs.HostConfigPatch(None, None, None, Some(enabled)), now);
      p.id == r.id && p.name == r.name && p.proxyServiceId == r.proxyServiceId && p.hostsJson == r.hostsJson &&
      p.enabled == (if enabled then 1 else 0)
  {
  }
}
