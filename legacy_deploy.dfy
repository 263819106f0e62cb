/**
 * The older deployment helper (src/Forrest79/PhpDeploy/Deploy.php, no strict
 * types): the same object as the current one, with its own message for a failed
 * connection, scp() returning fwrite()'s result, built-ins that coerce instead of
 * throwing, and no copy, move or shell helpers.
 */
module LegacyDeploy {
  import opened Wrappers
  import opened PhpStrings
  import opened DeployModel

  class Deploy {
    const oracle: Oracle
    var environment: map<string, Value>
    var sshConnections: map<string, int>
    var cwd: string
    var log: seq<Event>

    constructor (oracle: Oracle, environment: map<string, Value>, cwd: string)
      ensures this.oracle == oracle && this.environment == environment && this.cwd == cwd
      ensures sshConnections == map[] && log == []
    {
      this.oracle := oracle;
      this.environment := environment;
      this.cwd := cwd;
      sshConnections := map[];
      log := [];
    }

    /**
     * __construct(): refuses an environment that is not set in the configuration,
     * otherwise merges the additional configuration over it, with no session open.
     */
    static method Create(oracle: Oracle, config: map<string, Value>, name: string,
                         additionalConfig: map<string, Value>, cwd: string) returns (r: Result<Deploy, DeployError>)
      ensures var selected := SelectEnvironment(config, name, additionalConfig);
              (r.Failure? <==> selected.Failure?)
              && (r.Failure? ==> r.error == selected.error)
              && (r.Success? ==> fresh(r.value) && r.value.oracle == oracle && r.value.environment == selected.value
                                 && r.value.sshConnections == map[] && r.value.cwd == cwd && r.value.log == [])
    {
      if !IsSet(config, name) {
        return Failure(Runtime(UnknownEnvironmentMessage(name)));
      }
      if !config[name].Arr? {
        return Failure(TypeError("array_replace_recursive"));
      }
      var d := new Deploy(oracle, ReplaceRecursive(config[name], Arr(additionalConfig)).entries, cwd);
      return Success(d);
    }

    method Delete(path: string)
      modifies this`log
      ensures log == old(log) + [Event.Delete(path)]
    {
      log := log + [Event.Delete(path)];
    }

    /** makeDir(): creates a directory, a relative path being resolved in the working directory. */
    method MakeDir(path: string)
      modifies this`log
      ensures log == old(log) + [Event.MakeDir(cwd, path)]
    {
      log := log + [Event.MakeDir(cwd, path)];
    }

    /** exec(): runs in the working directory; TRUE for exit code 0, stdout filled per ExecOutcome. */
    method Exec(command: string, stdout: Stdout) returns (success: bool, stdoutAfter: Stdout)
      modifies this`log
      ensures (success, stdoutAfter) == ExecOutcome(oracle.exitCode(cwd, command), oracle.output(cwd, command), stdout)
      ensures log == old(log) + [Event.Exec(cwd, command)]
    {
      log := log + [Event.Exec(cwd, command)];
      var output := oracle.output(cwd, command);
      stdoutAfter := stdout;
      if output != [] && stdout.Requested? && stdout.value != Bool(false) {
        stdoutAfter := Requested(Str(Join("\n", output)));
      }
      success := oracle.exitCode(cwd, command) == 0;
    }

    /** gzip(): packs a directory with tar and throws with the tool's output when it fails. */
    method Gzip(sourcePath: string, sourceDirectory: string, targetFile: string) returns (err: Option<DeployError>)
      modifies this`log
      ensures var command := GzipCommand(sourcePath, sourceDirectory, targetFile);
              log == old(log) + [Event.Exec(cwd, command)]
              && (err.Some? <==> oracle.exitCode(cwd, command) != 0)
              && (err.Some? ==> err.value == Runtime(GzipFailedMessage(targetFile, oracle.output(cwd, command))))
    {
      var command := GzipCommand(sourcePath, sourceDirectory, targetFile);
      log := log + [Event.Exec(cwd, command)];
      err := None;
      if oracle.exitCode(cwd, command) != 0 {
        err := Some(Runtime(GzipFailedMessage(targetFile, oracle.output(cwd, command))));
      }
    }

    /** sshConnect(): the session for user@host:port, connected and stored only on a miss. */
    method SshConnect(host: Option<string>, port: int) returns (r: Result<int, DeployError>)
      modifies this`sshConnections, this`log
      ensures var c := DeployModel.SshConnect(Legacy, oracle, environment, old(sshConnections), host, port);
              r == c.result && sshConnections == c.cache && log == old(log) + c.events
    {
      var server := host;
      if server.None? {
        server := Some(Text(Lookup(SshSettings(environment), "server")));
      }
      var h := server.value;
      var credentials := SshSettings(environment);
      var key := SessionKey(Text(Lookup(credentials, "username")), h, port);
      if key !in sshConnections {
        log := log + [Connect(h, port)];
        var connection := oracle.connect(h, port);
        if connection.None? {
          return Failure(Runtime(ConnectFailedMessage(Legacy, h, port)));
        }
        if !Lookup(credentials, "public_key").Null? {
          var authentication := PublicKeyCredentials(credentials);
          log := log + [Authenticate(connection.value, authentication)];
          if !oracle.accepts(connection.value, authentication) {
            return Failure(Runtime(AuthenticationFailedMessage));
          }
        } else {
          return Failure(Runtime(UnsupportedAuthenticationMessage));
        }
        sshConnections := sshConnections[key := connection.value];
      }
      return Success(sshConnections[key]);
    }

    /** sshExec(): the output of a command run on a session. */
    method SshExec(session: int, command: string) returns (output: string)
      modifies this`log
      ensures output == oracle.remote(session, command)
      ensures log == old(log) + [RemoteExec(session, command)]
    {
      log := log + [RemoteExec(session, command)];
      output := oracle.remote(session, command);
    }

    /** ssh(): the verdict and the marker-free output of a remote command. */
    method Ssh(command: string, validate: Option<string>, host: Option<string>, port: int)
      returns (r: Result<(bool, string), DeployError>)
      modifies this`sshConnections, this`log
      ensures var run := SshRun(Legacy, oracle, environment, old(sshConnections), command, validate, host, port);
              r == run.result && sshConnections == run.cache && log == old(log) + run.events
    {
      var session := SshConnect(host, port);
      if session.Failure? {
        return Failure(session.error);
      }
      var output := SshExec(session.value, command + ";echo \"[return_code:$?]\"");
      var code := ReturnCode(output);
      output := StripMarkers(output);
      if code != Some("0") {
        return Success((false, output));
      }
      if Validates(validate) {
        return Success((Contains(output, validate.value), output));
      }
      return Success((true, output));
    }

    /** scp(): uploads a local file into a remote directory; the number of bytes written, or FALSE. */
    method Scp(localFile: string, remoteDirectory: string, host: Option<string>, port: int)
      returns (r: Result<Option<nat>, DeployError>)
      modifies this`sshConnections, this`log
      ensures var run := ScpRun(Legacy, oracle, environment, old(sshConnections), localFile, remoteDirectory, host, port);
              r == run.result && sshConnections == run.cache && log == old(log) + run.events
    {
      ghost var run := ScpRun(Legacy, oracle, environment, sshConnections, localFile, remoteDirectory, host, port);
      ghost var c := DeployModel.SshConnect(Legacy, oracle, environment, sshConnections, host, port);
      var session := SshConnect(host, port);
      if session.Failure? {
        assert run == Outcome(Failure(session.error), c.cache, c.events);
        return Failure(session.error);
      }
      ghost var u := UploadRun(Legacy, oracle, session.value, localFile, remoteDirectory);
      assert run == Outcome(u.0, c.cache, c.events + u.1);
      r := Upload(session.value, localFile, remoteDirectory);
      assert old(log) + c.events + u.1 == old(log) + (c.events + u.1);
    }

    /**
     * The rest of scp() on an open session: the trimmed directory, the remote
     * path, the SFTP stream and the write.
     */
    method Upload(session: int, localFile: string, remoteDirectory: string) returns (written: Result<Option<nat>, DeployError>)
      modifies this`log
      ensures var u := UploadRun(Legacy, oracle, session, localFile, remoteDirectory);
              written == u.0 && log == old(log) + u.1
    {
      var directory := RTrim(remoteDirectory, {'/'});
      var _ := SshExec(session, "mkdir -p " + directory);
      var absolute;
      if IsAbsolute(directory) {
        absolute := directory;
      } else {
        var pwd := SshExec(session, "pwd");
        absolute := Trim(pwd, Whitespace) + "/" + directory;
      }
      var remoteFile := absolute + "/" + Basename(localFile);
      assert remoteFile == RemoteFileAsWritten(remoteDirectory, oracle.remote(session, "pwd"), localFile);
      var url := SftpUrl(oracle.sftp(session), remoteFile);
      written := Success(None);
      if oracle.opens(url) {
        var contents := oracle.contents(localFile);
        var data := contents.GetOr("");
        written := Success(oracle.written(url, data));
        log := log + [Event.Upload(url, data)];
      }
    }

    /**
     * gitCheckout(): exports a branch into a directory from the repository's root and
     * comes back; when realpath() fails, chdir() fails with it and the command runs where it is.
     */
    method GitCheckout(gitRootDirectory: string, checkoutDirectory: string, branch: string, uniqueId: string)
      returns (r: Result<bool, DeployError>)
      modifies this`cwd, this`log
      ensures cwd == old(cwd)
      ensures var run := CheckoutRun(Legacy, oracle, old(cwd), gitRootDirectory, checkoutDirectory, branch, uniqueId);
              r == run.0 && log == old(log) + run.1
    {
      var zipFile := checkoutDirectory + "/" + uniqueId + "-git.zip";
      var currentDirectory := cwd;
      var root := oracle.realpath(gitRootDirectory);
      if root.Some? {
        cwd := root.value;
      }
      MakeDir(checkoutDirectory);
      var success, _ := Exec(CheckoutCommand(zipFile, branch, checkoutDirectory), NotRequested);
      cwd := currentDirectory;
      return Success(success);
    }

    /** httpRequest(): whether the response (FALSE read as "") contains the validation text, or the transfer succeeded. */
    method HttpRequest(url: string, validate: Option<string>) returns (r: Result<bool, DeployError>)
      ensures r == HttpOutcome(Legacy, oracle.curl(url).0, oracle.curl(url).1, validate)
    {
      var (returned, errorNo) := oracle.curl(url);
      if validate.Some? {
        return Success(Contains(returned.GetOr(""), validate.value));
      }
      return Success(errorNo == 0);
    }
  }
}
