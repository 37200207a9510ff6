/**
 * ProxyProcessManager (server/back-end/services/proxy-process-manager.js):
 * starting an autossh SOCKS5 tunnel for a proxy service, stopping it, and
 * probing whether a process is alive. The file system, the spawned
 * processes, the kill and lsof commands and the timers are parameters:
 * each call receives what they report.
 */
module ProcessManager {
  import opened Common
  import ProxyServices

  // ---------------------------------------------------------------------
  // Step 1: resolving the key path
  // ---------------------------------------------------------------------

  const KEYS_DIR := "/data/ssh-keys"

  /** path.isAbsolute on POSIX. */
  predicate IsAbsolute(p: string)
  {
    |p| > 0 && p[0] == '/'
  }

  /** path.basename: the text after the last '/'. */
  function Basename(p: string): string
  {
    var parts := Split(p, '/');
    parts[|parts| - 1]
  }

  /**
   * The four places a relative key path is looked for, in order: the container's key directory, the
   * project root, the back-end directory, and data/ssh-keys under the project root. `dirname` is the
   * directory of the module; path.resolve is modelled as joining with '/', without normalising "..".
   */
  function KeyCandidates(sshKeyPath: string, dirname: string): (c: seq<string>)
    ensures |c| == 4 && forall k :: 0 <= k < 4 ==> |c[k]| > 0
  {
    [KEYS_DIR + "/" + Basename(sshKeyPath),
     dirname + "/../../" + sshKeyPath,
     dirname + "/../" + sshKeyPath,
     dirname + "/../../data/ssh-keys/" + Basename(sshKeyPath)]
  }

  /** The path startProcess settles on, given which files fs.access can reach. */
  function KeyPath(sshKeyPath: string, dirname: string, accessible: string -> bool): string
  {
    if IsAbsolute(sshKeyPath) then sshKeyPath
    else
      var c := KeyCandidates(sshKeyPath, dirname);
      match FindIndex(c, accessible)
        case Some(i) => c[i]
        case None => c[0]
  }

  /**
   * The resolution loop: an absolute path is kept; a relative one becomes the first accessible
   * candidate, or the first candidate when none is.
   */
  method ResolveKeyPath(sshKeyPath: string, dirname: string, accessible: string -> bool) returns (path: string)
    ensures path == KeyPath(sshKeyPath, dirname, accessible)
    ensures IsAbsolute(sshKeyPath) ==> path == sshKeyPath
    ensures !IsAbsolute(sshKeyPath) ==>
      var c := KeyCandidates(sshKeyPath, dirname);
      (exists i :: 0 <= i < 4 && path == c[i] && accessible(c[i]) && forall j :: 0 <= j < i ==> !accessible(c[j])) ||
      (path == c[0] && forall j :: 0 <= j < 4 ==> !accessible(c[j]))
  {
    if IsAbsolute(sshKeyPath) {
      return sshKeyPath;
    }
    var possiblePaths := KeyCandidates(sshKeyPath, dirname);
    var found: Option<nat> := None;
    var i := 0;
    while i < |possiblePaths| && found.None?
      invariant 0 <= i <= |possiblePaths|
      invariant found.None? ==> forall j :: 0 <= j < i ==> !accessible(possiblePaths[j])
      invariant found.Some? ==>
        (found.value < |possiblePaths| && accessible(possiblePaths[found.value]) &&
         forall j :: 0 <= j < found.value ==> !accessible(possiblePaths[j]))
    {
      if accessible(possiblePaths[i]) {
        found := Some(i);
      }
      i := i + 1;
    }
    FindIndexUnique(possiblePaths, accessible, found);
    path := if found.Some? then possiblePaths[found.value] else possiblePaths[0];
  }

  // ---------------------------------------------------------------------
  // Steps 2 and 3: the key file must exist; its mode is tightened
  // ---------------------------------------------------------------------

  const KEY_MISSING := "SSH密钥文件不存在或不可访问: "

  /** What the permission step did: stat failed, the mode was fine, chmod 600 worked, or chmod failed. */
  datatype PermissionStep = StatFailed | ModeAccepted | Chmodded | ChmodFailed

  /** `mode & 0o777` for a non-negative mode. */
  function PermissionBits(mode: nat): nat
  {
    mode % 512
  }

  /** The modes ssh accepts for a private key: 0o600 and 0o400. */
  predicate StrictMode(bits: nat)
  {
    bits == 384 || bits == 256
  }

  /** The permission step: chmod 600 is attempted exactly when stat works and the mode is not strict. */
  function CheckPermissions(mode: Option<nat>, chmodOk: bool): (r: PermissionStep)
    ensures r == StatFailed <==> mode.None?
    ensures r == ModeAccepted <==> mode.Some? && StrictMode(PermissionBits(mode.value))
    ensures r == Chmodded <==> mode.Some? && !StrictMode(PermissionBits(mode.value)) && chmodOk
  {
    if mode.None? then StatFailed
    else if StrictMode(PermissionBits(mode.value)) then ModeAccepted
    else if chmodOk then Chmodded
    else ChmodFailed
  }

  /** The permission bits of the key file after the step (None when stat failed). */
  function BitsAfter(mode: Option<nat>, step: PermissionStep): Option<nat>
  {
    if mode.None? then None
    else if step == Chmodded then Some(384)
    else Some(PermissionBits(mode.value))
  }

  // ---------------------------------------------------------------------
  // Step 4: the autossh arguments and the command line shown to users
  // ---------------------------------------------------------------------

  /** The argument vector of autossh, ending `user@host -p port`. */
  function Args(keyPath: string, proxyPort: int, jumpUsername: string, jumpHost: string, jumpPort: int): (a: seq<string>)
    ensures |a| == 18
  {
    ["-M", "0", "-N",
     "-o", "ServerAliveInterval=60",
     "-o", "ServerAliveCountMax=3",
     "-o", "StrictHostKeyChecking=no",
     "-o", "ExitOnForwardFailure=no",
     "-i", keyPath,
     "-D", "0.0.0.0:" + IntToString(proxyPort),
     jumpUsername + "@" + jumpHost,
     "-p", IntToString(jumpPort)]
  }

  predicate NeedsQuotes(arg: string)
  {
    ' ' in arg || '=' in arg || '@' in arg
  }

  /** An argument as it appears in the command line: wrapped in double quotes iff it holds ' ', '=' or '@'. */
  function QuoteArg(arg: string): string
  {
    if NeedsQuotes(arg) then "\"" + arg + "\"" else arg
  }

  function QuoteArgs(args: seq<string>): (q: seq<string>)
    ensures |q| == |args| && forall k :: 0 <= k < |args| ==> q[k] == QuoteArg(args[k])
  {
    seq(|args|, k requires 0 <= k < |args| => QuoteArg(args[k]))
  }

  /** The loop over the arguments pushing each, quoted where needed, after "autossh"; then the join on ' '. */
  method BuildCommand(args: seq<string>) returns (command: string)
    ensures command == Join(["autossh"] + QuoteArgs(args), " ")
  {
    var commandParts := ["autossh"];
    for i := 0 to |args|
      invariant commandParts == ["autossh"] + QuoteArgs(args[..i])
    {
      var arg := args[i];
      if ' ' in arg || '=' in arg || '@' in arg {
        commandParts := commandParts + ["\"" + arg + "\""];
      } else {
        commandParts := commandParts + [arg];
      }
      assert QuoteArgs(args[..i + 1]) == QuoteArgs(args[..i]) + [QuoteArg(arg)];
    }
    assert args[..|args|] == args;
    command := Join(commandParts, " ");
  }

  /** Removing one pair of surrounding double quotes. */
  function Unquote(s: string): string
  {
    if |s| >= 2 && s[0] == '"' && s[|s| - 1] == '"' then s[1..|s| - 1] else s
  }

  // ---------------------------------------------------------------------
  // How the spawned process behaves, and the exit message
  // ---------------------------------------------------------------------

  /**
   * What happens after spawn within the 2 s grace period: the 'error' event (ENOENT or another
   * failure), an 'exit' event with its code (None for a signal) and collected stderr, or the process
   * still running at the check, with its pid (None when undefined) and whether `kill(0)` succeeded.
   */
  datatype SpawnOutcome =
    | SpawnFailed(enoent: bool, message: string)
    | ExitedEarly(code: Option<int>, stderr: string)
    | StillRunning(pid: Option<int>, signalOk: bool)

  /** How the promise of startProcess settles; Unsettled when the process exited with 0 or a signal. */
  datatype StartResult = Started(processId: int, command: string) | Rejected(message: string) | Unsettled

  const AUTOSSH_MISSING := "autossh 命令未找到，请确保已安装 autossh。在Docker容器中，autossh应该已经安装。"
  const SPAWN_FAILED := "启动autossh进程失败: "
  const EXITED_IMMEDIATELY := "autossh 进程启动后立即退出"
  const NO_PID := "无法获取进程ID，autossh 启动失败"

  /** The kinds of failure the exit handler recognises in stderr. */
  datatype ExitReason = KeyPermission | KeyMissing | Unreachable | AuthFailed | Unrecognised

  /** The ordered substring tests on the lower-cased stderr: the first matching group wins. */
  function Classify(stderr: string): (r: ExitReason)
    ensures r == KeyPermission <==>
      Contains(Lower(stderr), "permission denied") || Contains(Lower(stderr), "permissions")
    ensures r == AuthFailed ==>
      Contains(Lower(stderr), "authentication failed") || Contains(Lower(stderr), "publickey")
  {
    var lower := Lower(stderr);
    if Contains(lower, "permission denied") || Contains(lower, "permissions") then KeyPermission
    else if Contains(lower, "no such file") || Contains(lower, "cannot find") then KeyMissing
    else if Contains(lower, "connection refused") || Contains(lower, "could not resolve") then Unreachable
    else if Contains(lower, "authentication failed") || Contains(lower, "publickey") then AuthFailed
    else Unrecognised
  }

  const PERMISSION_PREFIX := "SSH密钥权限错误: "
  const MISSING_PREFIX := "SSH密钥文件不存在: "
  const UNREACHABLE_PREFIX := "无法连接到跳板服务器 "
  const AUTH_PREFIX := "SSH认证失败，请检查SSH密钥是否正确: "
  const EXIT_CODE_PREFIX := "autossh 进程异常退出，退出码: "

  /**
   * The rejection message of a non-zero exit: the classified stderr, else the bare trimmed stderr,
   * else the exit code (an empty message is replaced).
   */
  function ExitMessage(stderr: string, jumpHost: string, jumpPort: int, code: int): (m: string)
    ensures |m| > 0
    ensures |stderr| == 0 ==> m == EXIT_CODE_PREFIX + IntToString(code)
    ensures Classify(stderr) == Unrecognised ==>
      m == (if |Trim(stderr)| == 0 then EXIT_CODE_PREFIX + IntToString(code) else Trim(stderr))
    ensures |stderr| > 0 && Classify(stderr) == KeyPermission ==> m == PERMISSION_PREFIX + Trim(stderr)
    ensures |stderr| > 0 && Classify(stderr) == KeyMissing ==> m == MISSING_PREFIX + Trim(stderr)
    ensures |stderr| > 0 && Classify(stderr) == AuthFailed ==> m == AUTH_PREFIX + Trim(stderr)
  {
    if |stderr| == 0 then EXIT_CODE_PREFIX + IntToString(code)
    else
      var detail := Trim(stderr);
      match Classify(stderr)
        case KeyPermission => PERMISSION_PREFIX + detail
        case KeyMissing => MISSING_PREFIX + detail
        case Unreachable => UNREACHABLE_PREFIX + jumpHost + ":" + IntToString(jumpPort) + ": " + detail
        case AuthFailed => AUTH_PREFIX + detail
        case Unrecognised => if |detail| == 0 then EXIT_CODE_PREFIX + IntToString(code) else detail
  }

  /** `code !== 0 && code !== null` */
  predicate FailedExit(code: Option<int>)
  {
    code.Some? && code.value != 0
  }

  /** How startProcess settles for a service, given the key files that exist and what the spawned process does. */
  function StartOutcome(s: ProxyServices.ProxyService, dirname: string, accessible: string -> bool, spawn: SpawnOutcome)
    : (r: StartResult)
    ensures r.Started? <==>
      accessible(KeyPath(s.sshKeyPath, dirname, accessible)) && spawn.StillRunning? && Truthy(spawn.pid) && spawn.signalOk
    ensures r.Started? ==> r.processId != 0
    ensures r.Unsettled? <==> accessible(KeyPath(s.sshKeyPath, dirname, accessible)) && spawn.ExitedEarly? && !FailedExit(spawn.code)
    ensures r.Rejected? ==> |r.message| > 0
  {
    var path := KeyPath(s.sshKeyPath, dirname, accessible);
    if !accessible(path) then Rejected(KEY_MISSING + path)
    else match spawn
      case SpawnFailed(enoent, message) => Rejected(if enoent then AUTOSSH_MISSING else SPAWN_FAILED + message)
      case ExitedEarly(code, stderr) =>
        if FailedExit(code) then Rejected(ExitMessage(stderr, s.jumpHost, s.jumpPort, code.value)) else Unsettled
      case StillRunning(pid, signalOk) =>
        if !Truthy(pid) then Rejected(NO_PID)
        else if !signalOk then Rejected(EXITED_IMMEDIATELY)
        else Started(pid.value, Join(["autossh"] + QuoteArgs(Args(path, s.proxyPort, s.jumpUsername, s.jumpHost, s.jumpPort)), " "))
  }

  /** The status startProcess writes: running with the pid on success, error/-1 on a failing exit, else none. */
  function StartWrite(s: ProxyServices.ProxyService, dirname: string, accessible: string -> bool, spawn: SpawnOutcome)
    : (w: Option<ProxyServices.ServicePatch>)
    ensures StartOutcome(s, dirname, accessible, spawn).Started? ==>
      w == Some(ProxyServices.StatusPatch(ProxyServices.Running, StartOutcome(s, dirname, accessible, spawn).processId))
    ensures w.Some? && !StartOutcome(s, dirname, accessible, spawn).Started? ==>
      StartOutcome(s, dirname, accessible, spawn).Rejected? && w == Some(ProxyServices.StatusPatch(ProxyServices.Error, -1))
  {
    if !accessible(KeyPath(s.sshKeyPath, dirname, accessible)) then None
    else match spawn
      case StillRunning(pid, signalOk) =>
        if Truthy(pid) && signalOk then Some(ProxyServices.StatusPatch(ProxyServices.Running, pid.value)) else None
      case ExitedEarly(code, _) =>
        if FailedExit(code) then Some(ProxyServices.StatusPatch(ProxyServices.Error, -1)) else None
      case SpawnFailed(_, _) => None
  }

  /**
   * startProcess. A missing key file rejects before anything is spawned. Otherwise the permission step
   * runs (its failures are not fatal), the command is built and the process spawned: a failing exit
   * writes error/-1 and rejects with the classified message; a process alive after the grace period
   * writes running and its pid and resolves; a missing pid or a failed signal rejects.
   */
  method StartProcess(t: ProxyServices.ProxyServiceTable, s: ProxyServices.ProxyService, dirname: string,
                      accessible: string -> bool, mode: Option<nat>, chmodOk: bool, spawn: SpawnOutcome, now: int)
    returns (r: StartResult, step: PermissionStep)
    requires t.Valid()
    modifies t
    ensures t.Valid()
    ensures var path := KeyPath(s.sshKeyPath, dirname, accessible);
      !accessible(path) ==> r == Rejected(KEY_MISSING + path) && t.rows == old(t.rows)
    ensures accessible(KeyPath(s.sshKeyPath, dirname, accessible)) ==> step == CheckPermissions(mode, chmodOk)
    ensures r.Started? <==>
      accessible(KeyPath(s.sshKeyPath, dirname, accessible)) &&
      spawn.StillRunning? && Truthy(spawn.pid) && spawn.signalOk
    ensures r.Started? ==>
      r.processId == spawn.pid.value &&
      r.command == Join(["autossh"] + QuoteArgs(Args(KeyPath(s.sshKeyPath, dirname, accessible), s.proxyPort,
                                                     s.jumpUsername, s.jumpHost, s.jumpPort)), " ") &&
      t.rows == ProxyServices.Applied(old(t.rows), s.id, ProxyServices.StatusPatch(ProxyServices.Running, r.processId), now)
    ensures accessible(KeyPath(s.sshKeyPath, dirname, accessible)) && spawn.ExitedEarly? && FailedExit(spawn.code) ==>
      r == Rejected(ExitMessage(spawn.stderr, s.jumpHost, s.jumpPort, spawn.code.value)) &&
      t.rows == ProxyServices.Applied(old(t.rows), s.id, ProxyServices.StatusPatch(ProxyServices.Error, -1), now)
    ensures r.Unsettled? <==>
      accessible(KeyPath(s.sshKeyPath, dirname, accessible)) && spawn.ExitedEarly? && !FailedExit(spawn.code)
    ensures !r.Started? && !(spawn.ExitedEarly? && FailedExit(spawn.code)) ==> t.rows == old(t.rows)
    ensures r == StartOutcome(s, dirname, accessible, spawn)
    ensures var w := StartWrite(s, dirname, accessible, spawn);
      t.rows == if w.Some? then ProxyServices.Applied(old(t.rows), s.id, w.value, now) else old(t.rows)
  {
    var absoluteSshKeyPath := ResolveKeyPath(s.sshKeyPath, dirname, accessible);
    if !accessible(absoluteSshKeyPath) {
      return Rejected(KEY_MISSING + absoluteSshKeyPath), StatFailed;
    }
    step := CheckPermissions(mode, chmodOk);
    var autosshArgs := Args(absoluteSshKeyPath, s.proxyPort, s.jumpUsername, s.jumpHost, s.jumpPort);
    var autosshCommand := BuildCommand(autosshArgs);
    match spawn {
      case SpawnFailed(enoent, message) =>
        r := Rejected(if enoent then AUTOSSH_MISSING else SPAWN_FAILED + message);
      case ExitedEarly(code, stderr) =>
        if code.Some? && code.value != 0 {
          var _ := t.Update(s.id, ProxyServices.StatusPatch(ProxyServices.Error, -1), now);
          r := Rejected(ExitMessage(stderr, s.jumpHost, s.jumpPort, code.value));
        } else {
          r := Unsettled;
        }
      case StillRunning(pid, signalOk) =>
        if Truthy(pid) {
          if signalOk {
            var _ := t.Update(s.id, ProxyServices.StatusPatch(ProxyServices.Running, pid.value), now);
            r := Started(pid.value, autosshCommand);
          } else {
            r := Rejected(EXITED_IMMEDIATELY);
          }
        } else {
          r := Rejected(NO_PID);
        }
    }
  }

  // ---------------------------------------------------------------------
  // Stopping and probing a process
  // ---------------------------------------------------------------------

  /** What spawn('kill', ['-TERM', pid]) reports: 'close', an ENOENT or "No such process" error, or another error. */
  datatype TermOutcome = TermClosed | TermNoProcess | TermFailed

  /**
   * stopProcess: the kill signals sent, in order. A falsy pid sends nothing; otherwise SIGTERM, then
   * after a second a `kill -0` probe (whose exit code is `probeCode`, None on an 'error' event) and
   * SIGKILL when the probe says the process is alive; a failing SIGTERM goes straight to SIGKILL.
   * The promise always resolves.
   */
  method StopProcess(processId: Option<int>, term: TermOutcome, probeCode: Option<int>) returns (signals: seq<string>)
    ensures !Truthy(processId) ==> signals == []
    ensures Truthy(processId) ==> |signals| > 0 && signals[0] == "-TERM"
    ensures "-9" in signals <==> Truthy(processId) && (term == TermFailed || (term == TermClosed && probeCode == Some(0)))
    ensures "-0" in signals <==> Truthy(processId) && term == TermClosed
  {
    if !Truthy(processId) {
      return [];
    }
    signals := ["-TERM"];
    match term {
      case TermClosed =>
        signals := signals + ["-0"];
        if probeCode == Some(0) {
          signals := signals + ["-9"];
        }
      case TermNoProcess =>
      case TermFailed =>
        signals := signals + ["-9"];
    }
  }

  /** isProcessRunning: false for a falsy pid, else whether `kill -0 pid` exits with 0. */
  function IsProcessRunning(processId: Option<int>, probe: int -> Option<int>): (r: bool)
    ensures r <==> Truthy(processId) && probe(processId.value) == Some(0)
  {
    if !Truthy(processId) then false else probe(processId.value) == Some(0)
  }

  /** What one exec step of stopService yields: its output, an error, or a timeout. */
  datatype ExecOutcome = Output(stdout: string) | Failed | TimedOut

  /** The withTimeout wrapper: errors and timeouts become empty output. */
  function StepStdout(o: ExecOutcome): (out: string)
    ensures !o.Output? ==> out == ""
  {
    if o.Output? then o.stdout else ""
  }

  predicate NonEmpty(p: string)
  {
    |p| > 0
  }

  /** `stdout.trim().split('\n').filter(Boolean)`: the pids lsof printed. */
  function LsofPids(stdout: string): (pids: seq<string>)
    ensures forall k :: 0 <= k < |pids| ==> |pids[k]| > 0 && '\n' !in pids[k]
  {
    SplitJoin(Trim(stdout), '\n');
    Filter(Split(Trim(stdout), '\n'), NonEmpty)
  }

  /** `kill -0 pid 2>&1 || echo "not running"` printed something other than the fallback text. */
  predicate ReportsAlive(stdout: string)
  {
    |stdout| > 0 && !Contains(stdout, "not running")
  }

  /** The processes stopService signalled: SIGTERM to the port's pids, SIGKILL to those left, and the stored pid. */
  datatype StopTrace = StopTrace(terminated: seq<string>, forced: seq<string>, pidKilled: bool)

  /** The trace of stopService for a stored service, from the outputs of its three exec steps. */
  function StopTraceFor(s: ProxyServices.ProxyService, firstLsof: ExecOutcome, secondLsof: ExecOutcome,
                        pidProbe: ExecOutcome): (tr: StopTrace)
    ensures s.proxyPort == 0 ==> tr == StopTrace([], [], Truthy(s.processId))
    ensures s.proxyPort != 0 ==> tr.terminated == LsofPids(StepStdout(firstLsof))
    ensures |tr.terminated| == 0 ==> tr.forced == []
  {
    if s.proxyPort == 0 then StopTrace([], [], Truthy(s.processId))
    else
      var pids := LsofPids(StepStdout(firstLsof));
      var remaining := if |pids| == 0 then [] else LsofPids(StepStdout(secondLsof));
      var check := StepStdout(pidProbe);
      StopTrace(pids, remaining, Truthy(s.processId) && ReportsAlive(check))
  }

  /**
   * stopService: a missing service returns with no write; otherwise the kill steps run, whatever they
   * report, and the row always ends as stopped with processId -1.
   */
  method StopService(t: ProxyServices.ProxyServiceTable, serviceId: int, firstLsof: ExecOutcome,
                     secondLsof: ExecOutcome, pidProbe: ExecOutcome, now: int) returns (trace: Option<StopTrace>)
    requires t.Valid()
    modifies t
    ensures t.Valid()
    ensures old(t.FindById(serviceId)).None? ==> trace.None? && t.rows == old(t.rows)
    ensures old(t.FindById(serviceId)).Some? ==>
      trace == Some(StopTraceFor(old(t.FindById(serviceId)).value, firstLsof, secondLsof, pidProbe)) &&
      t.rows == ProxyServices.Applied(old(t.rows), serviceId, ProxyServices.StatusPatch(ProxyServices.Stopped, -1), now)
  {
    var service := t.FindById(serviceId);
    if service.None? {
      return None;
    }
    var steps := KillSteps(service.value, firstLsof, secondLsof, pidProbe);
    var _ := t.Update(serviceId, ProxyServices.StatusPatch(ProxyServices.Stopped, -1), now);
    trace := Some(steps);
  }

  /** The kill steps of stopService, in order: by port through lsof, or by the stored pid when there is no port. */
  method KillSteps(s: ProxyServices.ProxyService, firstLsof: ExecOutcome, secondLsof: ExecOutcome,
                   pidProbe: ExecOutcome) returns (trace: StopTrace)
    ensures trace == StopTraceFor(s, firstLsof, secondLsof, pidProbe)
  {
    var processId := s.processId;
    var terminated: seq<string> := [];
    var forced: seq<string> := [];
    var pidKilled := false;
    if s.proxyPort == 0 {
      pidKilled := Truthy(processId);
    } else {
      var pids := LsofPids(StepStdout(firstLsof));
      terminated := pids;
      if |pids| > 0 {
        forced := LsofPids(StepStdout(secondLsof));
      }
      if Truthy(processId) {
        var checkResult := StepStdout(pidProbe);
        if ReportsAlive(checkResult) {
          pidKilled := true;
        }
      }
    }
    trace := StopTrace(terminated, forced, pidKilled);
  }

  // ---------------------------------------------------------------------
  // Properties
  // ---------------------------------------------------------------------

  /** After the permission step the key is owner-only, unless stat or chmod failed. */
  lemma PermissionStepTightens(mode: nat, chmodOk: bool)
    requires chmodOk
    ensures var step := CheckPermissions(Some(mode), chmodOk);
      BitsAfter(Some(mode), step).Some? && StrictMode(BitsAfter(Some(mode), step).value)
    ensures StrictMode(PermissionBits(mode)) ==> BitsAfter(Some(mode), CheckPermissions(Some(mode), chmodOk)) == Some(PermissionBits(mode))
  {
  }

  /** Quoting is undone by unquoting for any argument that is not itself wrapped in double quotes. */
  lemma UnquoteQuoteArg(arg: string)
    requires !(|arg| >= 2 && arg[0] == '"' && arg[|arg| - 1] == '"')
    ensures Unquote(QuoteArg(arg)) == arg
    ensures QuoteArg(arg) != arg <==> NeedsQuotes(arg)
  {
    if NeedsQuotes(arg) {
      var q := "\"" + arg + "\"";
      assert q[1..|q| - 1] == arg;
    }
  }

  /** In the command line the option values and `user@host` are quoted, the flags and the bind address are not. */
  lemma CommandQuoting(keyPath: string, proxyPort: int, jumpUsername: string, jumpHost: string, jumpPort: int)
    ensures var a := Args(keyPath, proxyPort, jumpUsername, jumpHost, jumpPort);
      NeedsQuotes(a[4]) && NeedsQuotes(a[6]) && NeedsQuotes(a[8]) && NeedsQuotes(a[10]) && NeedsQuotes(a[15]) &&
      !NeedsQuotes(a[0]) && !NeedsQuotes(a[3]) && !NeedsQuotes(a[11]) && !NeedsQuotes(a[13]) &&
      !NeedsQuotes(a[14]) && !NeedsQuotes(a[17])
  {
    var a := Args(keyPath, proxyPort, jumpUsername, jumpHost, jumpPort);
    assert a[4][19] == '=';
    assert a[6][19] == '=';
    assert a[8][21] == '=';
    assert a[10][20] == '=';
    assert a[15][|jumpUsername|] == '@';
    var port := IntToString(proxyPort);
    assert a[14] == "0.0.0.0:" + port;
    forall k | 0 <= k < |a[14]| ensures a[14][k] != ' ' && a[14][k] != '=' && a[14][k] != '@' {
      if k >= 8 {
        assert a[14][k] == port[k - 8];
      }
    }
  }

  /** stderr 'Permission denied (publickey)' is a key permission error, not an authentication failure. */
  lemma PublickeyDenialIsPermission(stderr: string)
    requires Contains(Lower(stderr), "permission denied") && Contains(Lower(stderr), "publickey")
    ensures Classify(stderr) == KeyPermission
  {
  }

  /** Timeouts and errors of lsof yield no pids. */
  lemma LsofNothing()
    ensures LsofPids(StepStdout(TimedOut)) == [] && LsofPids(StepStdout(Failed)) == []
  {
    assert Trim("") == "";
    assert Split("", '\n') == [""];
  }

  /** lsof -t output, one pid per line with a final newline, is read back pid for pid. */
  lemma LsofRoundTrip(pids: seq<string>)
    requires |pids| > 0
    requires forall k :: 0 <= k < |pids| ==> |pids[k]| > 0 && forall j :: 0 <= j < |pids[k]| ==> IsDigit(pids[k][j])
    ensures LsofPids(Join(pids, "\n") + "\n") == pids
  {
    var body := Join(pids, "\n");
    JoinEnds(pids, "\n");
    assert !IsSpace(body[0]) && !IsSpace(body[|body| - 1]);
    assert TrimStart(body + "\n") == body + "\n";
    assert TrimEnd(body + "\n") == TrimEnd(body);
    TrimmedFixed(body);
    assert Trim(body + "\n") == body;
    forall k, j | 0 <= k < |pids| && 0 <= j < |pids[k]| ensures pids[k][j] != '\n' {
      assert IsDigit(pids[k][j]);
    }
    JoinSplit(pids, '\n');
    FilterAll(pids, NonEmpty);
  }

  /** The first and last characters of a join are those of the first and last pieces. */
  lemma {:induction false} JoinEnds(parts: seq<string>, sep: string)
    requires |parts| > 0 && forall k :: 0 <= k < |parts| ==> |parts[k]| > 0
    ensures var j := Join(parts, sep);
      |j| > 0 && j[0] == parts[0][0] && j[|j| - 1] == parts[|parts| - 1][|parts[|parts| - 1]| - 1]
    decreases |parts|
  {
    if |parts| > 1 {
      JoinEnds(parts[1..], sep);
    }
  }

  /** With the port branch taken, a live stored pid is never signalled: `kill -0` prints nothing on success. */
  lemma LiveProbeSkipsPidKill(s: ProxyServices.ProxyService, firstLsof: ExecOutcome, secondLsof: ExecOutcome)
    requires s.proxyPort != 0
    ensures !StopTraceFor(s, firstLsof, secondLsof, Output("")).pidKilled
  {
  }
}
