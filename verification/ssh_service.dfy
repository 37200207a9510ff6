/**
 * SSHService (server/back-end/services/ssh-service.js): the local key pair
 * files of each proxy service, and pushing a public key into the
 * authorized_keys file of a jump server. The local key directory and the
 * remote host's files are maps from path to content; ssh-keygen, unlink
 * failures and the remote command results are inputs.
 */
module SshService {
  import opened Common

  /** The paths and the trimmed public key generateKeyPair reports. */
  datatype KeyPair = KeyPair(privateKeyPath: string, publicKeyPath: string, publicKey: string)

  /** What ssh-keygen writes: the private key and the public key text. */
  datatype KeyGenOutput = KeyGenOutput(privateKey: string, publicKey: string)

  /** path.join(dir, name), modelled as joining with '/'. */
  function JoinPath(dir: string, name: string): string
  {
    dir + "/" + name
  }

  function AlreadyExists(keyName: string): string
  {
    "SSH key " + keyName + " already exists"
  }

  /** The key directory: its files and their contents. */
  class KeyStore {
    const keysDir: string
    var files: map<string, string>

    constructor(keysDir: string, files: map<string, string>)
      ensures this.keysDir == keysDir && this.files == files
    {
      this.keysDir := keysDir;
      this.files := files;
    }

    function PrivatePath(keyName: string): (p: string)
    {
      JoinPath(keysDir, keyName)
    }

    /** The public key sits beside the private key, with ".pub" appended. */
    function PublicPath(keyName: string): (p: string)
      ensures p == PrivatePath(keyName) + ".pub"
      ensures p == JoinPath(keysDir, keyName + ".pub")
    {
      JoinPath(keysDir, keyName + ".pub")
    }

    /**
     * generateKeyPair: refuses when the private key file exists, without running ssh-keygen; otherwise
     * writes both files and reports their paths and the trimmed public key. A failing ssh-keygen
     * rejects with its message and writes nothing.
     */
    method GenerateKeyPair(keyName: string, keygen: Result<KeyGenOutput>) returns (r: Result<KeyPair>)
      modifies this
      ensures PrivatePath(keyName) in old(files) ==> r == Err(AlreadyExists(keyName)) && files == old(files)
      ensures PrivatePath(keyName) !in old(files) && keygen.Err? ==> r == Err(keygen.message) && files == old(files)
      ensures PrivatePath(keyName) !in old(files) && keygen.Ok? ==>
        r == Ok(KeyPair(PrivatePath(keyName), PublicPath(keyName), Trim(keygen.value.publicKey))) &&
        files == old(files)[PrivatePath(keyName) := keygen.value.privateKey][PublicPath(keyName) := keygen.value.publicKey]
    {
      var privateKeyPath := JoinPath(keysDir, keyName);
      var publicKeyPath := privateKeyPath + ".pub";
      if privateKeyPath in files {
        return Err(AlreadyExists(keyName));
      }
      if keygen.Err? {
        return Err(keygen.message);
      }
      files := files[privateKeyPath := keygen.value.privateKey][publicKeyPath := keygen.value.publicKey];
      r := Ok(KeyPair(privateKeyPath, publicKeyPath, Trim(keygen.value.publicKey)));
    }

    /**
     * deleteKeyPair: unlinks the private then the public key. A missing file is not an error; any other
     * unlink failure (a path in `failing`) propagates and stops the remaining steps.
     */
    method DeleteKeyPair(keyName: string, failing: set<string>) returns (r: Result<()>)
      modifies this
      ensures r.Ok? <==>
        (PrivatePath(keyName) in old(files) ==> PrivatePath(keyName) !in failing) &&
        (PublicPath(keyName) in old(files) ==> PublicPath(keyName) !in failing)
      ensures r.Ok? ==> files == old(files) - {PrivatePath(keyName), PublicPath(keyName)}
      ensures r.Err? ==> files.Keys <= old(files).Keys
      ensures r.Err? && PrivatePath(keyName) in old(files) && PrivatePath(keyName) in failing ==> files == old(files)
      ensures r.Err? && !(PrivatePath(keyName) in old(files) && PrivatePath(keyName) in failing) ==>
        files == old(files) - {PrivatePath(keyName)}
    {
      var privateKeyPath := JoinPath(keysDir, keyName);
      var publicKeyPath := privateKeyPath + ".pub";
      if privateKeyPath in files {
        if privateKeyPath in failing {
          return Err("unlink " + privateKeyPath);
        }
        files := files - {privateKeyPath};
      }
      if publicKeyPath in files {
        if publicKeyPath in failing {
          return Err("unlink " + publicKeyPath);
        }
        files := files - {publicKeyPath};
      }
      r := Ok(());
    }

    /** Deleting a key pair twice: once the first call succeeds, the second finds nothing, succeeds and changes nothing. */
    method DeleteTwice(keyName: string, failing: set<string>) returns (first: Result<()>, second: Result<()>)
      modifies this
      ensures first.Ok? ==> second.Ok? && files == old(files) - {PrivatePath(keyName), PublicPath(keyName)}
    {
      first := DeleteKeyPair(keyName, failing);
      ghost var between := files;
      second := DeleteKeyPair(keyName, failing);
      if first.Ok? {
        assert files == between;
      }
    }

    /** getPublicKey: the trimmed content of the public key file; a missing file rejects. */
    function GetPublicKey(keyName: string): (r: Result<string>)
      reads this
      ensures r.Ok? <==> PublicPath(keyName) in files
      ensures r.Ok? ==> r.value == Trim(files[PublicPath(keyName)]) && IsTrimmed(r.value)
    {
      var publicKeyPath := JoinPath(keysDir, keyName + ".pub");
      if publicKeyPath in files then
        TrimIsTrimmed(files[publicKeyPath]);
        Ok(Trim(files[publicKeyPath]))
      else Err("ENOENT: " + publicKeyPath)
    }
  }

  // ---------------------------------------------------------------------
  // pushPublicKey
  // ---------------------------------------------------------------------

  /** The home directory: the output of `echo $HOME`, or '~' on a non-zero exit or empty output. */
  function HomeDir(code: int, stdout: string): (h: string)
    ensures |h| > 0
    ensures code == 0 && |stdout| > 0 ==> h == stdout
  {
    if code != 0 || |stdout| == 0 then "~" else stdout
  }

  function SshDir(home: string): string
  {
    home + "/.ssh"
  }

  function AuthorizedKeysPath(home: string): string
  {
    SshDir(home) + "/authorized_keys"
  }

  /** The new authorized_keys text: the old text, a newline when it was non-empty, the trimmed key, a newline. */
  function Appended(existing: string, publicKey: string): string
  {
    existing + (if |existing| > 0 then "\n" else "") + Trim(publicKey) + "\n"
  }

  /** What the chmod 600 command did: closed with an exit code, failed to start, or hit the 10 s timer. */
  datatype ChmodOutcome = ChmodClosed(code: int) | ChmodExecFailed(message: string) | ChmodTimedOut

  /** What `touch <path> && chmod 600 <path>` did: closed with an exit code, or failed to start. */
  datatype TouchOutcome = TouchClosed(code: int) | TouchExecFailed(message: string)

  /**
   * The results of the remote steps: a failure while connecting, running `echo $HOME`, running mkdir
   * or opening SFTP (the message), the home command's exit code and trimmed output, whether the
   * first write works, and the touch fallback and second write taken when it does not.
   */
  datatype RemoteSteps = RemoteSteps(
    setupError: Option<string>,
    homeCode: int,
    homeOut: string,
    writeOk: bool,
    touch: TouchOutcome,
    secondWriteOk: bool,
    chmod: ChmodOutcome)

  const CHMOD_TIMEOUT := "chmod命令执行超时"
  const TOUCH_FAILED := "无法创建authorized_keys文件"

  /** The jump server's files. */
  class RemoteHost {
    var files: map<string, string>

    constructor(files: map<string, string>)
      ensures this.files == files
    {
      this.files := files;
    }

    /**
     * pushPublicKey: a key already contained in authorized_keys (an unreadable file counts as empty)
     * is left alone; otherwise the appended text is written, with the touch-and-retry fallback. A
     * non-zero chmod exit still resolves; a chmod timeout rejects although the file was written.
     */
    method PushPublicKey(port: Option<int>, publicKey: string, steps: RemoteSteps)
      returns (r: Result<()>, usedPort: int, path: string)
      modifies this
      ensures usedPort == (if port.Some? then port.value else 22)
      ensures steps.setupError.Some? ==> r == Err(steps.setupError.value) && files == old(files)
      ensures steps.setupError.None? ==> path == AuthorizedKeysPath(HomeDir(steps.homeCode, steps.homeOut))
      ensures steps.setupError.None? ==>
        var existing := if path in old(files) then old(files)[path] else "";
        if Contains(existing, Trim(publicKey)) then r.Ok? && files == old(files)
        else if steps.writeOk then
          files == old(files)[path := Appended(existing, publicKey)] &&
          r == (match steps.chmod
                  case ChmodClosed(_) => Ok(())
                  case ChmodExecFailed(m) => Err(m)
                  case ChmodTimedOut => Err(CHMOD_TIMEOUT))
        else if steps.touch.TouchExecFailed? then r == Err(steps.touch.message) && files == old(files)
        else if steps.touch.code != 0 then r == Err(TOUCH_FAILED) && files == old(files)
        else (r.Ok? <==> steps.secondWriteOk) &&
             files == old(files)[path := if steps.secondWriteOk then Appended(existing, publicKey) else existing]
    {
      usedPort := if port.Some? then port.value else 22;
      path := "";
      if steps.setupError.Some? {
        return Err(steps.setupError.value), usedPort, path;
      }
      var homeDir := HomeDir(steps.homeCode, steps.homeOut);
      path := AuthorizedKeysPath(homeDir);
      var existing := "";
      if path in files {
        existing := files[path];
      }
      if Contains(existing, Trim(publicKey)) {
        return Ok(()), usedPort, path;
      }
      var authorizedKeys := Appended(existing, publicKey);
      if steps.writeOk {
        files := files[path := authorizedKeys];
        match steps.chmod {
          case ChmodClosed(_) => r := Ok(());
          case ChmodExecFailed(m) => r := Err(m);
          case ChmodTimedOut => r := Err(CHMOD_TIMEOUT);
        }
      } else {
        match steps.touch {
          case TouchExecFailed(m) =>
            r := Err(m);
          case TouchClosed(code) =>
            if code != 0 {
              r := Err(TOUCH_FAILED);
            } else {
              // touch leaves an existing file as it is and creates a missing one empty
              files := files[path := existing];
              if steps.secondWriteOk {
                files := files[path := authorizedKeys];
                r := Ok(());
              } else {
                r := Err("write " + path);
              }
            }
        }
      }
    }
  }

  // ---------------------------------------------------------------------
  // Properties
  // ---------------------------------------------------------------------

  /** The appended text keeps the old text as a prefix and contains the trimmed key. */
  lemma AppendedKeepsAndAdds(existing: string, publicKey: string)
    ensures existing <= Appended(existing, publicKey)
    ensures Contains(Appended(existing, publicKey), Trim(publicKey))
  {
    var sep := if |existing| > 0 then "\n" else "";
    var a := Appended(existing, publicKey);
    var i := |existing| + |sep|;
    assert a == existing + sep + Trim(publicKey) + "\n";
    assert a[i..i + |Trim(publicKey)|] == Trim(publicKey);
    ContainsAt(a, Trim(publicKey), i);
  }

  /** The text a push writes to authorized_keys, or None when the key is already there. */
  function PushWrite(existing: string, publicKey: string): Option<string>
  {
    if Contains(existing, Trim(publicKey)) then None else Some(Appended(existing, publicKey))
  }

  /** Pushing a key a second time finds it already present, so nothing more is written. */
  lemma SecondPushIsNoOp(existing: string, publicKey: string)
    ensures var after := match PushWrite(existing, publicKey) case None => existing case Some(t) => t;
      PushWrite(after, publicKey) == None && existing <= after
  {
    AppendedKeepsAndAdds(existing, publicKey);
  }
}
