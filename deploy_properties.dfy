/**
 * What the deployment helper promises across calls, over DeployModel: the session
 * cache is hit on the second call, a missing public key is refused, ssh() reads
 * the exit code the marker carries, scp() asks for the working directory only for
 * a target that is relative once trimmed, the checkout archive sits in the checkout directory, the two
 * variants' checkouts differ only when realpath() fails, and the additional
 * configuration reaches the environment.
 */
module DeployProperties {
  import opened Wrappers
  import opened PhpStrings
  import opened DeployModel

  /** After a successful connect, the same call finds the session in the cache and connects to nothing. */
  lemma ConnectAgainHits(variant: Variant, o: Oracle, environment: map<string, Value>, cache: map<string, int>,
                         host: Option<string>, port: int)
    requires SshConnect(variant, o, environment, cache, host, port).result.Success?
    ensures var r := SshConnect(variant, o, environment, cache, host, port);
            SshConnect(variant, o, environment, r.cache, host, port) == Outcome(r.result, r.cache, [])
  {
  }

  /** On a miss without a public key the connection is made, then refused, and nothing is stored. */
  lemma ConnectNeedsPublicKey(variant: Variant, o: Oracle, environment: map<string, Value>, cache: map<string, int>,
                              host: Option<string>, port: int)
    requires ConnectKey(environment, host, port) !in cache
    requires o.connect(ConnectHost(environment, host), port).Some?
    requires Lookup(SshSettings(environment), "public_key").Null?
    ensures SshConnect(variant, o, environment, cache, host, port)
         == Outcome(Failure(Runtime(UnsupportedAuthenticationMessage)), cache, [Connect(ConnectHost(environment, host), port)])
  {
  }

  /**
   * Sessions for different users, hosts or ports never share a cache entry, as
   * long as the user names hold no '@' (hosts may hold any character, ':' of an
   * IPv6 literal included, because the printed port holds none).
   */
  lemma {:induction false} SessionKeyInjective(u1: string, h1: string, p1: int, u2: string, h2: string, p2: int)
    requires '@' !in u1 && '@' !in u2
    requires SessionKey(u1, h1, p1) == SessionKey(u2, h2, p2)
    ensures u1 == u2 && h1 == h2 && p1 == p2
  {
    var s1, s2 := IntToString(p1), IntToString(p2);
    assert u1 + "@" + h1 + ":" + s1 == u1 + "@" + (h1 + ":" + s1);
    assert u2 + "@" + h2 + ":" + s2 == u2 + "@" + (h2 + ":" + s2);
    AtSplit(u1, h1 + ":" + s1, u2, h2 + ":" + s2);
    PortHasNoColon(p1);
    PortHasNoColon(p2);
    ColonSplit(h1, s1, h2, s2);
    IntToStringInjective(p1, p2);
  }

  /** Text joined at an '@' that neither left part holds splits back at its first '@'. */
  lemma AtSplit(u1: string, r1: string, u2: string, r2: string)
    requires '@' !in u1 && '@' !in u2
    requires u1 + "@" + r1 == u2 + "@" + r2
    ensures u1 == u2 && r1 == r2
  {
    var k := u1 + "@" + r1;
    assert k[|u1|] == '@' && k[|u2|] == '@';
    assert u1 == k[..|u1|] && u2 == k[..|u2|];
    assert r1 == k[|u1| + 1..] && r2 == k[|u2| + 1..];
  }

  /** Text joined at a ':' that neither right part holds splits back at its last ':'. */
  lemma ColonSplit(h1: string, t1: string, h2: string, t2: string)
    requires ':' !in t1 && ':' !in t2
    requires h1 + ":" + t1 == h2 + ":" + t2
    ensures h1 == h2 && t1 == t2
  {
    var k := h1 + ":" + t1;
    assert k[|h1|] == ':' && k[|h2|] == ':';
    assert h1 == k[..|h1|] && h2 == k[..|h2|];
    assert t1 == k[|h1| + 1..] && t2 == k[|h2| + 1..];
  }

  /** A printed port holds no ':'. */
  lemma PortHasNoColon(p: int)
    ensures ':' !in IntToString(p)
  {
    IntToStringChars(p);
  }

  /** With '@' in the names the key is ambiguous: these two sessions share one entry. */
  lemma SessionKeyAmbiguousWithAt()
    ensures SessionKey("a@b", "c", 22) == SessionKey("a", "b@c", 22)
  {
  }

  /**
   * ssh() on a session whose command printed `body` and the echoed marker:
   * the verdict is exactly "code is 0, and the marker-free output contains the
   * validation text when there is one", and the output handed back is body and tail.
   */
  lemma {:induction false} SshReadsMarker(variant: Variant, o: Oracle, environment: map<string, Value>,
                                          cache: map<string, int>, command: string, validate: Option<string>,
                                          host: Option<string>, port: int, body: string, code: string, tail: string)
    requires SshConnect(variant, o, environment, cache, host, port).result.Success?
    requires var session := SshConnect(variant, o, environment, cache, host, port).result.value;
             o.remote(session, WithReturnCode(command)) == body + MarkerOpen + code + "]" + tail
    requires '[' !in body && '[' !in tail && ']' !in code && '\n' !in code
    ensures var run := SshRun(variant, o, environment, cache, command, validate, host, port);
            run.result.Success?
            && (run.result.value.0 <==> code == "0" && (Validates(validate) ==> Contains(body + tail, validate.value)))
            && run.result.value.1 == body + tail
  {
    ReturnCodeRoundTrip(body, code, tail);
  }

  /**
   * The upload creates the trimmed directory first, and asks for the working
   * directory exactly when the trimmed directory does not start with '/': so "/"
   * itself, trimmed to "", asks for it.
   */
  lemma UploadSteps(variant: Variant, o: Oracle, session: int, localFile: string, remoteDirectory: string)
    ensures var u := UploadRun(variant, o, session, localFile, remoteDirectory);
            var dir := RemoteDirectory(remoteDirectory);
            var asked := if IsAbsolute(dir) then 1 else 2;
            asked <= |u.1| <= asked + 1 && u.1[0] == RemoteExec(session, "mkdir -p " + dir)
            && (RemoteExec(session, "pwd") in u.1[..asked] <==> !IsAbsolute(dir))
    ensures RemoteExec(session, "pwd") in UploadRun(variant, o, session, localFile, "/").1
  {
    var u := UploadRun(variant, o, session, localFile, remoteDirectory);
    var dir := RemoteDirectory(remoteDirectory);
    if IsAbsolute(dir) {
      assert u.1[..1] == [RemoteExec(session, "mkdir -p " + dir)];
    } else {
      assert u.1[..2] == [RemoteExec(session, "mkdir -p " + dir), RemoteExec(session, "pwd")];
      assert u.1[..2][1] == RemoteExec(session, "pwd");
    }
    assert RemoteDirectory("/") == "";
    assert UploadRun(variant, o, session, localFile, "/").1[1] == RemoteExec(session, "pwd");
  }

  /**
   * The write that follows: nothing when the stream does not open; otherwise the
   * local contents go to the SFTP URL of the remote file as written and the result
   * is fwrite()'s; an unreadable local file is a TypeError first in the current
   * variant and an empty write in the older one.
   */
  lemma UploadWrites(variant: Variant, o: Oracle, session: int, localFile: string, remoteDirectory: string)
    ensures var u := UploadRun(variant, o, session, localFile, remoteDirectory);
            var asked := if IsAbsolute(RemoteDirectory(remoteDirectory)) then 1 else 2;
            var url := SftpUrl(o.sftp(session), RemoteFileAsWritten(remoteDirectory, o.remote(session, "pwd"), localFile));
            var contents := o.contents(localFile);
            |u.1| >= asked
            && (!o.opens(url) ==> u.0 == Success(None) && |u.1| == asked)
            && (o.opens(url) && contents.Some? ==>
                  u.0 == Success(o.written(url, contents.value)) && u.1[asked..] == [Upload(url, contents.value)])
            && (o.opens(url) && contents.None? && variant == Current ==>
                  u.0 == Failure(TypeError("fwrite")) && |u.1| == asked)
            && (o.opens(url) && contents.None? && variant == Legacy ==>
                  u.0 == Success(o.written(url, "")) && u.1[asked..] == [Upload(url, "")])
  {
  }

  /** The archive is created directly inside the checkout directory, named after the unique id. */
  lemma ZipInsideCheckout(checkoutDirectory: string, uniqueId: string)
    requires checkoutDirectory != "" && checkoutDirectory[|checkoutDirectory| - 1] != '/'
    requires '/' !in uniqueId
    ensures Dirname(ZipFile(checkoutDirectory, uniqueId)) == checkoutDirectory
    ensures Basename(ZipFile(checkoutDirectory, uniqueId)) == uniqueId + "-git.zip"
  {
    var name := uniqueId + "-git.zip";
    assert '/' !in name by {
      assert forall i :: 0 <= i < |uniqueId| ==> name[i] == uniqueId[i];
      assert forall i :: |uniqueId| <= i < |name| ==> name[i] == "-git.zip"[i - |uniqueId|];
    }
    assert ZipFile(checkoutDirectory, uniqueId) == checkoutDirectory + "/" + name;
    DirnameBasenameOfJoin(checkoutDirectory, name);
  }

  /**
   * The two variants check out identically when realpath() succeeds; when it fails
   * the current one throws before any effect and the older one runs in place.
   */
  lemma CheckoutVariants(o: Oracle, cwd: string, gitRootDirectory: string, checkoutDirectory: string,
                         branch: string, uniqueId: string)
    ensures o.realpath(gitRootDirectory).Some? ==>
              CheckoutRun(Current, o, cwd, gitRootDirectory, checkoutDirectory, branch, uniqueId)
              == CheckoutRun(Legacy, o, cwd, gitRootDirectory, checkoutDirectory, branch, uniqueId)
    ensures o.realpath(gitRootDirectory).None? ==>
              CheckoutRun(Current, o, cwd, gitRootDirectory, checkoutDirectory, branch, uniqueId)
                == (Failure(TypeError("chdir")), [])
              && CheckoutRun(Legacy, o, cwd, gitRootDirectory, checkoutDirectory, branch, uniqueId).1
                == [MakeDir(cwd, checkoutDirectory),
                    Exec(cwd, CheckoutCommand(ZipFile(checkoutDirectory, uniqueId), branch, checkoutDirectory))]
  {
  }

  /** Without additional configuration the environment is the configured one. */
  lemma SelectWithoutAdditional(config: map<string, Value>, name: string)
    requires IsSet(config, name) && config[name].Arr?
    ensures SelectEnvironment(config, name, map[]) == Success(config[name].entries)
  {
    ReplaceWithEmpty(config[name].entries);
  }

  /** A scalar of the additional configuration overrides the configured value. */
  lemma AdditionalScalarWins(config: map<string, Value>, name: string, additional: map<string, Value>, k: string)
    requires IsSet(config, name) && config[name].Arr?
    requires k in additional && !additional[k].Arr?
    ensures SelectEnvironment(config, name, additional).Success?
    ensures SelectEnvironment(config, name, additional).value[k] == additional[k]
  {
    ReplaceRecursiveEntries(config[name].entries, additional, k);
  }
}
