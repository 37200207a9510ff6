/**
 * The proxy service endpoints (server/back-end/controllers/proxyServiceController.js):
 * create, update, delete, start and stop a tunnel, and the framing of the
 * progress log lines streamed to the browser. The store, the PAC cache,
 * the key files and the process manager are the modelled ones; the bind
 * probe, the key push and the process outcomes are inputs.
 */
module ProxyServiceController {
  import opened Common
  import JsonText
  import ProxyServices
  import HostConfigs
  import PacGenerator
  import ProcessManager
  import SshService

  // ---------------------------------------------------------------------
  // sendLog
  // ---------------------------------------------------------------------

  /** One server-sent event: `data: ` and the JSON object {level, message}, then a blank line. */
  function LogFrame(level: string, message: string): (f: string)
    ensures |f| >= 8 && f[..6] == "data: " && f[|f| - 2..] == "\n\n"
  {
    "data: " + "{\"level\":" + JsonText.Quote(level) + ",\"message\":" + JsonText.Quote(message) + "}" + "\n\n"
  }

  // ---------------------------------------------------------------------
  // create
  // ---------------------------------------------------------------------

  /** The body of a create request; `hosts` is None when it is absent or not an array. */
  datatype CreateBody = CreateBody(
    name: string,
    jumpHost: string,
    jumpPort: Option<int>,
    jumpUsername: string,
    proxyPort: Option<int>,
    sshKeyPath: string,
    hosts: Option<seq<string>>)

  /** `!name || !jumpHost || !jumpUsername || !proxyPort || !sshKeyPath` */
  predicate MissingField(b: CreateBody)
  {
    |b.name| == 0 || |b.jumpHost| == 0 || |b.jumpUsername| == 0 || !Truthy(b.proxyPort) || |b.sshKeyPath| == 0
  }

  /** The name of the host config created along with a service. */
  function DefaultConfigName(name: string): string
  {
    name + " - 默认配置"
  }

  /**
   * create: refuses missing fields and a port the bind probe finds taken, writing nothing (the stored
   * ports are not consulted). Otherwise stores the service as stopped with jumpPort defaulting to 22,
   * and, for a non-empty host list only, a default host config and a PAC cache clear.
   */
  method Create(services: ProxyServices.ProxyServiceTable, configs: HostConfigs.HostConfigTable,
                pac: PacGenerator.PacGenerator, body: CreateBody, bindable: int -> bool, now: int)
    returns (reply: Reply<ProxyServices.ProxyService>)
    requires services.Valid() && configs.Valid()
    modifies services, configs, pac
    ensures services.Valid() && configs.Valid()
    ensures MissingField(body) ==> reply == Failure(400, "VALIDATION_ERROR")
    ensures !MissingField(body) && !bindable(body.proxyPort.value) ==> reply == Failure(400, "PORT_IN_USE")
    ensures reply.Failure? ==>
      services.rows == old(services.rows) && configs.rows == old(configs.rows) &&
      pac.configCache == old(pac.configCache) && pac.fileCache == old(pac.fileCache) &&
      pac.cacheTimestamp == old(pac.cacheTimestamp)
    ensures reply.Success? <==> !MissingField(body) && bindable(body.proxyPort.value)
    ensures reply.Success? ==>
      var s := reply.data;
      services.rows == old(services.rows) + [s] &&
      s.name == body.name && s.jumpHost == body.jumpHost && s.jumpUsername == body.jumpUsername &&
      s.proxyPort == body.proxyPort.value && s.sshKeyPath == body.sshKeyPath &&
      s.status == ProxyServices.Stopped &&
      s.jumpPort == (if Truthy(body.jumpPort) then body.jumpPort.value else 22)
    ensures reply.Success? && body.hosts.Some? && |body.hosts.value| > 0 ==>
      |configs.rows| == |old(configs.rows)| + 1 && configs.rows[..|old(configs.rows)|] == old(configs.rows) &&
      configs.rows[|configs.rows| - 1].name == DefaultConfigName(body.name) &&
      HostConfigs.Hosts(configs.rows[|configs.rows| - 1]) == body.hosts.value &&
      configs.rows[|configs.rows| - 1].enabled == 1 &&
      configs.rows[|configs.rows| - 1].proxyServiceId == reply.data.id &&
      pac.configCache == None && pac.fileCache == None && pac.cacheTimestamp == None
    ensures reply.Success? && !(body.hosts.Some? && |body.hosts.value| > 0) ==>
      configs.rows == old(configs.rows) && pac.configCache == old(pac.configCache) &&
      pac.fileCache == old(pac.fileCache) && pac.cacheTimestamp == old(pac.cacheTimestamp)
  {
    if |body.name| == 0 || |body.jumpHost| == 0 || |body.jumpUsername| == 0 || !Truthy(body.proxyPort) || |body.sshKeyPath| == 0 {
      return Failure(400, "VALIDATION_ERROR");
    }
    if !bindable(body.proxyPort.value) {
      return Failure(400, "PORT_IN_USE");
    }
    var jumpPort := if Truthy(body.jumpPort) then body.jumpPort.value else 22;
    var service := services.Create(ProxyServices.NewService(body.name, body.jumpHost, Some(jumpPort), body.jumpUsername,
                                                            body.proxyPort.value, body.sshKeyPath, Some(ProxyServices.Stopped)), now);
    if body.hosts.Some? && |body.hosts.value| > 0 {
      var c := configs.Create(HostConfigs.NewHostConfig(DefaultConfigName(body.name), service.id, body.hosts.value, None), now);
      pac.ClearCache();
    }
    reply := Success(service);
  }

  // ---------------------------------------------------------------------
  // update
  // ---------------------------------------------------------------------

  /** The body of an update request; None for an undefined field. */
  datatype UpdateBody = UpdateBody(
    name: Option<string>,
    jumpHost: Option<string>,
    jumpPort: Option<int>,
    jumpUsername: Option<string>,
    jumpPassword: string)

  /** The fields the handler passes on: the name and the three jump fields, when given. */
  function UpdatePatch(b: UpdateBody): ProxyServices.ServicePatch
  {
    ProxyServices.ServicePatch(b.name, b.jumpHost, b.jumpPort, b.jumpUsername, None, None, None, None)
  }

  /** A jump field is given, so the key must be pushed again and a running tunnel restarted. */
  predicate JumpChanged(b: UpdateBody)
  {
    b.jumpHost.Some? || b.jumpPort.Some? || b.jumpUsername.Some?
  }

  /** What the process manager reports for a restart: the lsof and probe outputs of stop and the start inputs. */
  datatype RestartInputs = RestartInputs(
    firstLsof: ProcessManager.ExecOutcome,
    secondLsof: ProcessManager.ExecOutcome,
    pidProbe: ProcessManager.ExecOutcome,
    dirname: string,
    accessible: string -> bool,
    mode: Option<nat>,
    chmodOk: bool,
    spawn: ProcessManager.SpawnOutcome)

  /**
   * update: 404 for an unknown id. When a jump field changes and a password is given, the key is pushed
   * again (its failure ends the request with 500 before any write). The given fields are written; a
   * service that was running and had a jump field changed is stopped and started again. None stands
   * for a request left without an answer (the start promise never settles).
   */
  method Update(services: ProxyServices.ProxyServiceTable, id: int, body: UpdateBody, push: Result<()>,
                restart: RestartInputs, now: int)
    returns (reply: Option<Reply<ProxyServices.ProxyService>>, pushed: bool, restarted: bool)
    requires services.Valid()
    modifies services
    ensures services.Valid()
    ensures old(services.FindById(id)).None? ==>
      reply == Some(Failure(404, "SERVICE_NOT_FOUND")) && services.rows == old(services.rows) && !pushed && !restarted
    ensures old(services.FindById(id)).Some? ==> (pushed <==> JumpChanged(body) && |body.jumpPassword| > 0)
    ensures pushed && push.Err? ==>
      reply == Some(Failure(500, "INTERNAL_ERROR")) && services.rows == old(services.rows) && !restarted
    ensures old(services.FindById(id)).Some? && !(pushed && push.Err?) ==>
      (restarted <==> old(services.FindById(id)).value.status == ProxyServices.Running && JumpChanged(body))
    ensures old(services.FindById(id)).Some? && !(pushed && push.Err?) && !restarted ==>
      services.rows == ProxyServices.Applied(old(services.rows), id, UpdatePatch(body), now) &&
      reply == Some(Success(services.FindById(id).value))
    ensures old(services.FindById(id)).Some? && restarted ==>
      var u := ProxyServices.Patched(old(services.FindById(id)).value, UpdatePatch(body), now);
      var o := ProcessManager.StartOutcome(u, restart.dirname, restart.accessible, restart.spawn);
      var w := ProcessManager.StartWrite(u, restart.dirname, restart.accessible, restart.spawn);
      var stopped := ProxyServices.Applied(ProxyServices.Applied(old(services.rows), id, UpdatePatch(body), now),
                                           id, ProxyServices.StatusPatch(ProxyServices.Stopped, -1), now);
      services.rows == (if w.Some? then ProxyServices.Applied(stopped, id, w.value, now) else stopped) &&
      reply == (if o.Started? then Some(Success(u)) else if o.Rejected? then Some(Failure(500, "INTERNAL_ERROR")) else None)
  {
    restarted := false;
    pushed := false;
    var existingService := services.FindById(id);
    if existingService.None? {
      return Some(Failure(404, "SERVICE_NOT_FOUND")), pushed, restarted;
    }
    var needRepushKey := body.jumpHost.Some? || body.jumpPort.Some? || body.jumpUsername.Some?;
    if needRepushKey && |body.jumpPassword| > 0 {
      pushed := true;
      if push.Err? {
        return Some(Failure(500, "INTERNAL_ERROR")), pushed, restarted;
      }
    }
    var service := services.Update(id, UpdatePatch(body), now);
    if existingService.value.status == ProxyServices.Running && needRepushKey {
      restarted := true;
      ProxyServices.AppliedRow(old(services.rows), id, UpdatePatch(body), now, existingService.value, service.value);
      reply := RestartService(services, service.value, restart, now);
      return;
    }
    reply := Some(Success(service.value));
  }

  /**
   * The restart in update: the service is stopped, then started again from its updated row; the reply
   * follows how the start settles, and None stands for a start that never settles.
   */
  method RestartService(services: ProxyServices.ProxyServiceTable, u: ProxyServices.ProxyService,
                        restart: RestartInputs, now: int)
    returns (reply: Option<Reply<ProxyServices.ProxyService>>)
    requires services.Valid() && services.FindById(u.id).Some?
    modifies services
    ensures services.Valid()
    ensures var o := ProcessManager.StartOutcome(u, restart.dirname, restart.accessible, restart.spawn);
      var w := ProcessManager.StartWrite(u, restart.dirname, restart.accessible, restart.spawn);
      var stopped := ProxyServices.Applied(old(services.rows), u.id, ProxyServices.StatusPatch(ProxyServices.Stopped, -1), now);
      services.rows == (if w.Some? then ProxyServices.Applied(stopped, u.id, w.value, now) else stopped) &&
      reply == (if o.Started? then Some(Success(u)) else if o.Rejected? then Some(Failure(500, "INTERNAL_ERROR")) else None)
  {
    var _ := ProcessManager.StopService(services, u.id, restart.firstLsof, restart.secondLsof, restart.pidProbe, now);
    var started, _ := ProcessManager.StartProcess(services, u, restart.dirname, restart.accessible,
                                                 restart.mode, restart.chmodOk, restart.spawn, now);
    match started {
      case Started(_, _) => reply := Some(Success(u));
      case Rejected(_) => reply := Some(Failure(500, "INTERNAL_ERROR"));
      case Unsettled => reply := None;
    }
  }

  // ---------------------------------------------------------------------
  // delete
  // ---------------------------------------------------------------------

  /** `ssh_key_path.split('/').pop()` */
  function KeyName(sshKeyPath: string): string
  {
    var parts := Split(sshKeyPath, '/');
    parts[|parts| - 1]
  }

  /**
   * deleteService: 404 for an unknown id. The process is signalled only when the service is running with
   * a pid; a failure to delete the key files is ignored; the row is removed and the PAC cache cleared.
   */
  method DeleteService(services: ProxyServices.ProxyServiceTable, configs: HostConfigs.HostConfigTable,
                       keys: SshService.KeyStore, pac: PacGenerator.PacGenerator,
                       id: int, term: ProcessManager.TermOutcome, probeCode: Option<int>, failing: set<string>)
    returns (reply: Reply<()>, signals: seq<string>)
    requires services.Valid() && configs.Valid()
    modifies services, configs, keys, pac
    ensures services.Valid() && configs.Valid()
    ensures old(services.FindById(id)).None? ==>
      reply == Failure(404, "SERVICE_NOT_FOUND") && services.rows == old(services.rows) && signals == [] &&
      configs.rows == old(configs.rows) && keys.files == old(keys.files) && pac.configCache == old(pac.configCache)
    ensures old(services.FindById(id)).Some? ==>
      var s := old(services.FindById(id)).value;
      reply == Success(()) &&
      services.rows == Filter(old(services.rows), (x: ProxyServices.ProxyService) => x.id != id) &&
      configs.rows == Filter(old(configs.rows), HostConfigs.Survives(id)) &&
      (|signals| > 0 <==> s.status == ProxyServices.Running && Truthy(s.processId)) &&
      pac.configCache == None && pac.fileCache == None && pac.cacheTimestamp == None
    ensures old(services.FindById(id)).Some? ==>
      var name := KeyName(old(services.FindById(id)).value.sshKeyPath);
      keys.files.Keys <= old(keys.files).Keys &&
      old(keys.files).Keys - keys.files.Keys <= {keys.PrivatePath(name), keys.PublicPath(name)} &&
      ((keys.PrivatePath(name) in old(keys.files) ==> keys.PrivatePath(name) !in failing) &&
       (keys.PublicPath(name) in old(keys.files) ==> keys.PublicPath(name) !in failing) ==>
       keys.files == old(keys.files) - {keys.PrivatePath(name), keys.PublicPath(name)})
  {
    signals := [];
    var service := services.FindById(id);
    if service.None? {
      return Failure(404, "SERVICE_NOT_FOUND"), signals;
    }
    if service.value.status == ProxyServices.Running && Truthy(service.value.processId) {
      signals := ProcessManager.StopProcess(service.value.processId, term, probeCode);
    }
    var keyName := KeyName(service.value.sshKeyPath);
    var _ := keys.DeleteKeyPair(keyName, failing);
    services.Delete(id);
    configs.DeleteOfService(id);
    pac.ClearCache();
    reply := Success(());
  }

  // ---------------------------------------------------------------------
  // start
  // ---------------------------------------------------------------------

  /** Why a start failed, picked from the error message in this order. */
  datatype FailureReason = KeyFileMissing | KeyPermissions | ServerUnreachable | AuthRejected | PortTaken | UnknownReason

  function Reason(message: string): (r: FailureReason)
    ensures Contains(message, "SSH密钥文件不存在") <==> r == KeyFileMissing
  {
    if Contains(message, "SSH密钥文件不存在") then KeyFileMissing
    else if Contains(message, "Permission denied") || Contains(message, "permissions") then KeyPermissions
    else if Contains(message, "Connection refused") || Contains(message, "ETIMEDOUT") then ServerUnreachable
    else if Contains(message, "Authentication failed") || Contains(message, "publickey") then AuthRejected
    else if Contains(message, "端口") && Contains(message, "已被占用") then PortTaken
    else UnknownReason
  }

  /** The answer of start. */
  datatype StartReply =
    | StartNotFound
    | AlreadyRunning(id: nat)
    | StartOk(id: nat, processId: int, command: string)
    | StartFailed(message: string, reason: FailureReason)

  /** One message per empty field start checks, in the order key path, proxy port, jump host, jump user. */
  function FieldErrors(s: ProxyServices.ProxyService): (errors: seq<string>)
    ensures |errors| == 0 <==> |s.sshKeyPath| > 0 && s.proxyPort != 0 && |s.jumpHost| > 0 && |s.jumpUsername| > 0
    ensures |errors| == (if |s.sshKeyPath| == 0 then 1 else 0) + (if s.proxyPort == 0 then 1 else 0) +
                        (if |s.jumpHost| == 0 then 1 else 0) + (if |s.jumpUsername| == 0 then 1 else 0)
  {
    (if |s.sshKeyPath| == 0 then ["SSH密钥路径为空 (ssh_key_path: " + s.sshKeyPath + ")"] else []) +
    (if s.proxyPort == 0 then ["代理端口为空 (proxy_port: " + IntToString(s.proxyPort) + ")"] else []) +
    (if |s.jumpHost| == 0 then ["跳板主机为空 (jump_host: " + s.jumpHost + ")"] else []) +
    (if |s.jumpUsername| == 0 then ["跳板用户名为空 (jump_username: " + s.jumpUsername + ")"] else [])
  }

  /** The message start fails with when some field is empty. */
  function ValidationMessage(errors: seq<string>): string
  {
    "参数验证失败: " + Join(errors, "; ")
  }

  /** The fields start checks before spawning, collected one push at a time. */
  method ValidationErrors(s: ProxyServices.ProxyService) returns (errors: seq<string>)
    ensures errors == FieldErrors(s)
    ensures |errors| == 0 <==> |s.sshKeyPath| > 0 && s.proxyPort != 0 && |s.jumpHost| > 0 && |s.jumpUsername| > 0
    ensures |errors| <= 4
  {
    errors := [];
    if |s.sshKeyPath| == 0 {
      errors := errors + ["SSH密钥路径为空 (ssh_key_path: " + s.sshKeyPath + ")"];
    }
    if s.proxyPort == 0 {
      errors := errors + ["代理端口为空 (proxy_port: " + IntToString(s.proxyPort) + ")"];
    }
    if |s.jumpHost| == 0 {
      errors := errors + ["跳板主机为空 (jump_host: " + s.jumpHost + ")"];
    }
    if |s.jumpUsername| == 0 {
      errors := errors + ["跳板用户名为空 (jump_username: " + s.jumpUsername + ")"];
    }
  }

  /** The inputs of start: the liveness probe and kill results for a stale pid, and the start inputs. */
  datatype StartInputs = StartInputs(
    probe: int -> Option<int>,
    term: ProcessManager.TermOutcome,
    probeCode: Option<int>,
    dirname: string,
    accessible: string -> bool,
    mode: Option<nat>,
    chmodOk: bool,
    spawn: ProcessManager.SpawnOutcome)

  /**
   * start: 404 for an unknown id; a running service answers at once with no write. A stale positive pid
   * still alive is signalled first. Then the fields are checked and the process started: success
   * leaves the row running with the new pid; any failure leaves it error/-1 and answers START_FAILED
   * with the reason picked from the message. None: the start promise never settles.
   */
  method Start(services: ProxyServices.ProxyServiceTable, id: int, inputs: StartInputs, now: int)
    returns (reply: Option<StartReply>)
    requires services.Valid()
    modifies services
    ensures services.Valid()
    ensures old(services.FindById(id)).None? ==> reply == Some(StartNotFound) && services.rows == old(services.rows)
    ensures old(services.FindById(id)).Some? && old(services.FindById(id)).value.status == ProxyServices.Running ==>
      reply == Some(AlreadyRunning(old(services.FindById(id)).value.id)) && services.rows == old(services.rows)
    ensures reply.Some? && reply.value.StartOk? ==>
      services.rows == ProxyServices.Applied(old(services.rows), id,
                         ProxyServices.StatusPatch(ProxyServices.Running, reply.value.processId), now)
    ensures reply.Some? && reply.value.StartFailed? ==>
      reply.value.reason == Reason(reply.value.message) &&
      services.rows == ProxyServices.Applied(old(services.rows), id, ProxyServices.StatusPatch(ProxyServices.Error, -1), now)
    ensures reply.None? ==> services.rows == old(services.rows)
    ensures old(services.FindById(id)).Some? && old(services.FindById(id)).value.status != ProxyServices.Running ==>
      var s := old(services.FindById(id)).value;
      var errors := FieldErrors(s);
      var o := ProcessManager.StartOutcome(s, inputs.dirname, inputs.accessible, inputs.spawn);
      reply == if |errors| > 0 then Some(StartFailed(ValidationMessage(errors), Reason(ValidationMessage(errors))))
               else if o.Started? then Some(StartOk(s.id, o.processId, o.command))
               else if o.Rejected? then Some(StartFailed(o.message, Reason(o.message)))
               else None
  {
    var service := services.FindById(id);
    if service.None? {
      return Some(StartNotFound);
    }
    var s := service.value;
    if s.status == ProxyServices.Running {
      return Some(AlreadyRunning(s.id));
    }
    if s.processId.Some? && s.processId.value > 0 {
      var isRunning := ProcessManager.IsProcessRunning(s.processId, inputs.probe);
      if isRunning {
        var _ := ProcessManager.StopProcess(s.processId, inputs.term, inputs.probeCode);
      }
    }
    var validationErrors := ValidationErrors(s);
    var message: string;
    if |validationErrors| > 0 {
      message := ValidationMessage(validationErrors);
    } else {
      var started, _ := ProcessManager.StartProcess(services, s, inputs.dirname, inputs.accessible, inputs.mode,
                                                   inputs.chmodOk, inputs.spawn, now);
      match started {
        case Unsettled =>
          return None;
        case Started(processId, command) =>
          AppliedTwice(old(services.rows), id, ProxyServices.StatusPatch(ProxyServices.Running, processId), now);
          var _ := services.Update(s.id, ProxyServices.StatusPatch(ProxyServices.Running, processId), now);
          return Some(StartOk(s.id, processId, command));
        case Rejected(m) =>
          message := m;
      }
    }
    AppliedTwice(old(services.rows), id, ProxyServices.StatusPatch(ProxyServices.Error, -1), now);
    var _ := services.Update(id, ProxyServices.StatusPatch(ProxyServices.Error, -1), now);
    reply := Some(StartFailed(message, Reason(message)));
  }

  // ---------------------------------------------------------------------
  // stop
  // ---------------------------------------------------------------------

  datatype StopReply = StopNotFound | AlreadyStopped(id: nat) | Stopped(id: nat, complete: bool)

  /**
   * stop: 404 for an unknown id; a stopped service answers at once with no side effect. Otherwise
   * stopService runs under a 10 s race; whether it finishes or the timer wins, the row ends stopped
   * with processId -1 and the answer is a success.
   */
  method Stop(services: ProxyServices.ProxyServiceTable, id: int, firstLsof: ProcessManager.ExecOutcome,
              secondLsof: ProcessManager.ExecOutcome, pidProbe: ProcessManager.ExecOutcome, timedOut: bool, now: int)
    returns (reply: StopReply)
    requires services.Valid()
    modifies services
    ensures services.Valid()
    ensures old(services.FindById(id)).None? ==> reply == StopNotFound && services.rows == old(services.rows)
    ensures old(services.FindById(id)).Some? && old(services.FindById(id)).value.status == ProxyServices.Stopped ==>
      reply == AlreadyStopped(old(services.FindById(id)).value.id) && services.rows == old(services.rows)
    ensures old(services.FindById(id)).Some? && old(services.FindById(id)).value.status != ProxyServices.Stopped ==>
      reply == Stopped(old(services.FindById(id)).value.id, !timedOut) &&
      services.rows == ProxyServices.Applied(old(services.rows), id, ProxyServices.StatusPatch(ProxyServices.Stopped, -1), now)
  {
    var service := services.FindById(id);
    if service.None? {
      return StopNotFound;
    }
    if service.value.status == ProxyServices.Stopped {
      return AlreadyStopped(service.value.id);
    }
    var _ := ProcessManager.StopService(services, id, firstLsof, secondLsof, pidProbe, now);
    if timedOut {
      AppliedTwice(old(services.rows), id, ProxyServices.StatusPatch(ProxyServices.Stopped, -1), now);
      var _ := services.Update(id, ProxyServices.StatusPatch(ProxyServices.Stopped, -1), now);
    }
    reply := Stopped(service.value.id, !timedOut);
  }

  // ---------------------------------------------------------------------
  // Properties
  // ---------------------------------------------------------------------

  /** Writing the same patch twice is writing it once, so the handlers' repeated status writes agree. */
  lemma AppliedTwice(rows: seq<ProxyServices.ProxyService>, id: int, patch: ProxyServices.ServicePatch, now: int)
    ensures ProxyServices.Applied(ProxyServices.Applied(rows, id, patch, now), id, patch, now)
            == ProxyServices.Applied(rows, id, patch, now)
  {
  }

  /** A start refused for a missing key file is reported with the missing-key reason. */
  lemma MissingKeyReason(path: string)
    ensures Reason(ProcessManager.KEY_MISSING + path) == KeyFileMissing
    ensures Reason(ProcessManager.MISSING_PREFIX + path) == KeyFileMissing
  {
    var m := ProcessManager.KEY_MISSING + path;
    assert m[..|"SSH密钥文件不存在"|] == "SSH密钥文件不存在";
    ContainsAt(m, "SSH密钥文件不存在", 0);
    var m2 := ProcessManager.MISSING_PREFIX + path;
    assert m2[..|"SSH密钥文件不存在"|] == "SSH密钥文件不存在";
    ContainsAt(m2, "SSH密钥文件不存在", 0);
  }
}
