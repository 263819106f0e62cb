/**
 * The string, configuration and result rules of the deployment helper that do
 * not depend on a live connection: the environment merge, exec's return and
 * stdout rule, the return-code marker of ssh(), the session key, scp's remote
 * path, httpRequest's result and the shell probe. Both Deploy classes use them.
 */
module DeployModel {
  import opened Wrappers
  import opened PhpStrings

  // ---------------------------------------------------------------- configuration values

  /** A PHP configuration value; arrays are string-keyed. */
  datatype Value = Null | Bool(b: bool) | Int(i: int) | Str(s: string) | Arr(entries: map<string, Value>)

  /**
   * array_replace_recursive: every key of the replacement overrides the base;
   * where both sides hold arrays the merge recurses; keys only in the base stay.
   */
  function ReplaceRecursive(base: Value, repl: Value): (r: Value)
    ensures base.Arr? && repl.Arr? ==> r.Arr? && r.entries.Keys == base.entries.Keys + repl.entries.Keys
    decreases repl
  {
    if base.Arr? && repl.Arr? then
      Arr(map k | k in base.entries.Keys + repl.entries.Keys ::
        if k !in repl.entries then base.entries[k]
        else if k in base.entries then ReplaceRecursive(base.entries[k], repl.entries[k])
        else repl.entries[k])
    else repl
  }

  /** What the merge keeps, overrides and recurses into, key by key. */
  lemma ReplaceRecursiveEntries(base: map<string, Value>, repl: map<string, Value>, k: string)
    ensures var r := ReplaceRecursive(Arr(base), Arr(repl)).entries;
            (k in base && k !in repl ==> r[k] == base[k])
            && (k in repl && (k !in base || !base[k].Arr? || !repl[k].Arr?) ==> r[k] == repl[k])
            && (k in repl && k in base && base[k].Arr? && repl[k].Arr?
                ==> r[k] == ReplaceRecursive(base[k], repl[k]))
  {
  }

  /** Merging nothing over a configuration leaves it as it is. */
  lemma ReplaceWithEmpty(base: map<string, Value>)
    ensures ReplaceRecursive(Arr(base), Arr(map[])) == Arr(base)
  {
  }

  /** Merging a value over itself gives it back. */
  lemma {:induction false} ReplaceRecursiveSelf(v: Value)
    ensures ReplaceRecursive(v, v) == v
    decreases v
  {
    if v.Arr? {
      var r := ReplaceRecursive(v, v);
      forall k | k in v.entries.Keys
        ensures r.entries[k] == v.entries[k]
      {
        ReplaceRecursiveSelf(v.entries[k]);
      }
      assert r.entries == v.entries;
    }
  }

  /** Applying the same overrides twice is the same as applying them once. */
  lemma {:induction false} ReplaceRecursiveIdempotent(base: Value, repl: Value)
    ensures ReplaceRecursive(ReplaceRecursive(base, repl), repl) == ReplaceRecursive(base, repl)
    decreases repl
  {
    var once := ReplaceRecursive(base, repl);
    if base.Arr? && repl.Arr? {
      var twice := ReplaceRecursive(once, repl);
      forall k | k in once.entries.Keys
        ensures twice.entries[k] == once.entries[k]
      {
        if k in repl.entries && k in base.entries {
          ReplaceRecursiveIdempotent(base.entries[k], repl.entries[k]);
        } else if k in repl.entries {
          ReplaceRecursiveSelf(repl.entries[k]);
        }
      }
      assert twice.entries == once.entries;
    } else {
      ReplaceRecursiveSelf(repl);
    }
  }

  /** $this->config[$env] when isset: present and not NULL. */
  predicate IsSet(config: map<string, Value>, key: string) {
    key in config && !config[key].Null?
  }

  /** The two variants of the class differ in a message, in strict typing and in scp()'s result. */
  datatype Variant = Current | Legacy

  /** A RuntimeException with its message, or a TypeError raised by a built-in under strict types. */
  datatype DeployError = Runtime(message: string) | TypeError(builtin: string)

  /** The constructor's exception text for an environment without configuration. */
  function UnknownEnvironmentMessage(name: string): string {
    "Environment '" + name + "' not exists in configuration."
  }

  /**
   * __construct(): the environment must be set in the configuration; its value
   * (an array, or array_replace_recursive refuses it) is merged with the additional configuration.
   */
  function SelectEnvironment(config: map<string, Value>, name: string, additional: map<string, Value>)
    : (r: Result<map<string, Value>, DeployError>)
    ensures r.Failure? <==> !IsSet(config, name) || !config[name].Arr?
    ensures !IsSet(config, name) ==> r == Failure(Runtime(UnknownEnvironmentMessage(name)))
    ensures r.Success? ==> r.value.Keys == config[name].entries.Keys + additional.Keys
  {
    if !IsSet(config, name) then Failure(Runtime(UnknownEnvironmentMessage(name)))
    else if !config[name].Arr? then Failure(TypeError("array_replace_recursive"))
    else Success(ReplaceRecursive(config[name], Arr(additional)).entries)
  }

  /** $array['key'], NULL when the key is missing or the value is not an array. */
  function Lookup(v: Value, key: string): Value {
    if v.Arr? && key in v.entries then v.entries[key] else Null
  }

  /** PHP truthiness of a configuration value. */
  predicate Truthy(v: Value) {
    match v
    case Null => false
    case Bool(b) => b
    case Int(i) => i != 0
    case Str(s) => s != "" && s != "0"
    case Arr(e) => e != map[]
  }

  // ---------------------------------------------------------------- exec

  /** The caller's $stdout: not passed (the default FALSE) or a variable with its current value. */
  datatype Stdout = NotRequested | Requested(value: Value)

  /** `$stdout !== FALSE`: a variable was passed and it does not hold FALSE itself. */
  predicate Fillable(stdout: Stdout) {
    stdout.Requested? && stdout.value != Bool(false)
  }

  /**
   * exec(): TRUE exactly for exit code 0; the output lines, joined with "\n",
   * replace the caller's variable only when there is output and the variable is
   * not FALSE (a variable holding FALSE is left as it is, like no variable at all).
   */
  function ExecOutcome(exitCode: int, output: seq<string>, stdout: Stdout): (r: (bool, Stdout))
    ensures r.0 <==> exitCode == 0
    ensures output != [] && Fillable(stdout) ==> r.1 == Requested(Str(Join("\n", output)))
    ensures output == [] || !Fillable(stdout) ==> r.1 == stdout
  {
    (exitCode == 0, if output != [] && Fillable(stdout) then Requested(Str(Join("\n", output))) else stdout)
  }

  // ---------------------------------------------------------------- ssh return code

  const MarkerOpen := "[return_code:"

  /** What ssh() appends to a command so the remote exit status comes back in the output. */
  function WithReturnCode(command: string): string {
    command + ";echo \"[return_code:$?]\""
  }

  /** The first index at or after `j` holding ']' or a newline (the lazy `.*?` cannot pass a newline). */
  function StopFrom(t: string, j: nat): (r: Option<nat>)
    ensures r.Some? ==> j <= r.value < |t| && t[r.value] in {']', '\n'}
                        && forall m :: j <= m < r.value ==> t[m] !in {']', '\n'}
    ensures r.None? ==> forall m :: j <= m < |t| ==> t[m] !in {']', '\n'}
    decreases |t| - j
  {
    if j >= |t| then None
    else if t[j] in {']', '\n'} then Some(j)
    else StopFrom(t, j + 1)
  }

  /** /\[return_code:(.*?)\]/ anchored at the start of `t`: the index of the closing bracket. */
  function MarkerAt(t: string): Option<nat> {
    if !StartsWith(t, MarkerOpen) then None
    else match StopFrom(t, |MarkerOpen|)
      case Some(k) => if t[k] == ']' then Some(k) else None
      case None => None
  }

  /** preg_match: the captured code of the leftmost marker, if any. */
  function ReturnCode(s: string): Option<string>
    decreases |s|
  {
    if s == [] then None
    else match MarkerAt(s)
      case Some(k) => Some(s[|MarkerOpen|..k])
      case None => ReturnCode(s[1..])
  }

  /** preg_replace with '': every marker removed, scanning left to right. */
  function StripMarkers(s: string): string
    decreases |s|
  {
    if s == [] then []
    else match MarkerAt(s)
      case Some(k) => StripMarkers(s[k + 1..])
      case None => [s[0]] + StripMarkers(s[1..])
  }

  /** `if ($validate)`: NULL, "" and "0" skip validation. */
  predicate Validates(validate: Option<string>) {
    validate.Some? && validate.value != "" && validate.value != "0"
  }

  /**
   * ssh()'s verdict on the remote output and the output handed back: the code
   * captured must be exactly "0" (a missing marker reads as NULL and fails), and
   * with a validation string the stripped output must contain it.
   */
  function SshOutcome(output: string, validate: Option<string>): (r: (bool, string))
    ensures r.1 == StripMarkers(output)
    ensures r.0 <==> ReturnCode(output) == Some("0") && (Validates(validate) ==> Contains(StripMarkers(output), validate.value))
  {
    var stripped := StripMarkers(output);
    if ReturnCode(output) != Some("0") then (false, stripped)
    else if Validates(validate) then (Contains(stripped, validate.value), stripped)
    else (true, stripped)
  }

  /** Text that does not start with '[' holds no marker at its first index. */
  lemma NoMarkerAtHead(s: string)
    requires s != [] && s[0] != '['
    ensures ReturnCode(s) == ReturnCode(s[1..]) && StripMarkers(s) == [s[0]] + StripMarkers(s[1..])
  {
    if |s| >= |MarkerOpen| {
      assert s[..|MarkerOpen|][0] == s[0];
    }
  }

  lemma DropFirst(s: string)
    requires s != []
    ensures '[' in s[1..] ==> '[' in s
  {
    if '[' in s[1..] {
      var i :| 0 <= i < |s[1..]| && s[1..][i] == '[';
      assert s[i + 1] == '[';
    }
  }

  /** Text without '[' has no marker anywhere, and is left alone by the replacement. */
  lemma {:induction false} NoBracketNoMarker(s: string)
    requires '[' !in s
    ensures ReturnCode(s) == None && StripMarkers(s) == s
    decreases |s|
  {
    if s != [] {
      NoMarkerAtHead(s);
      DropFirst(s);
      NoBracketNoMarker(s[1..]);
      assert s == [s[0]] + s[1..];
    }
  }

  /** The echoed marker itself: found at the start, its code captured, the bracket closing it. */
  lemma MarkerOfCode(code: string, tail: string)
    requires ']' !in code && '\n' !in code
    ensures var t := MarkerOpen + code + "]" + tail;
            MarkerAt(t) == Some(|MarkerOpen| + |code|) && t[|MarkerOpen|..|MarkerOpen| + |code|] == code
            && t[|MarkerOpen| + |code| + 1..] == tail
  {
    var t := MarkerOpen + code + "]" + tail;
    assert t[..|MarkerOpen|] == MarkerOpen;
    var k := |MarkerOpen| + |code|;
    assert forall m :: |MarkerOpen| <= m < k ==> t[m] == code[m - |MarkerOpen|];
    assert t[k] == ']';
    assert t[|MarkerOpen|..k] == code;
    assert t[k + 1..] == tail;
  }

  /** Text without '[' in front of the output does not change the code found. */
  lemma {:induction false} PlainPrefixCode(body: string, rest: string)
    requires '[' !in body
    ensures ReturnCode(body + rest) == ReturnCode(rest)
    decreases |body|
  {
    if body != [] {
      var s := body + rest;
      assert s[0] == body[0];
      assert s[1..] == body[1..] + rest;
      NoMarkerAtHead(s);
      DropFirst(body);
      PlainPrefixCode(body[1..], rest);
    } else {
      assert body + rest == rest;
    }
  }

  /** Text without '[' in front of the output survives the stripping unchanged. */
  lemma {:induction false} PlainPrefixStrip(body: string, rest: string)
    requires '[' !in body
    ensures StripMarkers(body + rest) == body + StripMarkers(rest)
    decreases |body|
  {
    if body != [] {
      var s := body + rest;
      assert s[0] == body[0];
      assert s[1..] == body[1..] + rest;
      NoMarkerAtHead(s);
      DropFirst(body);
      PlainPrefixStrip(body[1..], rest);
      var t := StripMarkers(rest);
      assert [body[0]] + (body[1..] + t) == body + t;
    } else {
      assert body + rest == rest;
    }
  }

  /**
   * The round trip ssh() relies on: remote output without '[' followed by the
   * echoed marker gives back the exit code as captured text, and the marker is
   * removed while the text around it survives.
   */
  lemma ReturnCodeRoundTrip(body: string, code: string, tail: string)
    requires '[' !in body && '[' !in tail && ']' !in code && '\n' !in code
    ensures ReturnCode(body + MarkerOpen + code + "]" + tail) == Some(code)
    ensures StripMarkers(body + MarkerOpen + code + "]" + tail) == body + tail
  {
    var rest := MarkerOpen + code + "]" + tail;
    assert body + MarkerOpen + code + "]" + tail == body + rest;
    MarkerReadBack(code, tail);
    PlainPrefixCode(body, rest);
    PlainPrefixStrip(body, rest);
  }

  /** The echoed marker at the start of the output: its code is read back and it is stripped, leaving the tail. */
  lemma MarkerReadBack(code: string, tail: string)
    requires ']' !in code && '\n' !in code && '[' !in tail
    ensures ReturnCode(MarkerOpen + code + "]" + tail) == Some(code)
    ensures StripMarkers(MarkerOpen + code + "]" + tail) == tail
  {
    MarkerOfCode(code, tail);
    NoBracketNoMarker(tail);
  }

  // ---------------------------------------------------------------- sessions

  /** sprintf('%s@%s:%d', username, host, port): the key of the connection cache. */
  function SessionKey(username: string, host: string, port: int): string {
    username + "@" + host + ":" + IntToString(port)
  }

  // ---------------------------------------------------------------- scp

  /** A remote directory counts as absolute when its first character is '/'. */
  predicate IsAbsolute(dir: string) {
    |dir| > 0 && dir[0] == '/'
  }

  /** scp()'s trimmed directory, as sent to `mkdir -p`. */
  function RemoteDirectory(remoteDirectory: string): string {
    RTrim(remoteDirectory, {'/'})
  }

  /**
   * scp()'s remote file as written: trim the directory, call it absolute only
   * if it still starts with '/', otherwise put the remote working directory in front.
   */
  function RemoteFileAsWritten(remoteDirectory: string, pwdOutput: string, localFile: string): string {
    var dir := RemoteDirectory(remoteDirectory);
    var absolute := if IsAbsolute(dir) then dir else Trim(pwdOutput, Whitespace) + "/" + dir;
    absolute + "/" + Basename(localFile)
  }

  /**
   * The root directory is trimmed to "" before the absolute test, so the file
   * lands below the remote working directory, after a doubled '/'.
   */
  lemma RootDirectoryAsWritten(pwdOutput: string, localFile: string)
    ensures RemoteFileAsWritten("/", pwdOutput, localFile) == Trim(pwdOutput, Whitespace) + "//" + Basename(localFile)
  {
    assert RTrim("/", {'/'}) == "";
  }

  /** scp()'s remote file with the absolute test made before trimming, so "/" stays the root. */
  function RemoteFile(remoteDirectory: string, pwdOutput: string, localFile: string): string {
    var dir := RemoteDirectory(remoteDirectory);
    var absolute := if IsAbsolute(remoteDirectory) then dir else Trim(pwdOutput, Whitespace) + "/" + dir;
    absolute + "/" + Basename(localFile)
  }

  /**
   * An absolute directory never consults the remote working directory and yields
   * directory, one '/', file name; a relative one is placed below the working directory.
   */
  lemma RemoteFilePlacement(remoteDirectory: string, pwdOutput: string, pwdOutput2: string, localFile: string)
    ensures IsAbsolute(remoteDirectory) ==>
              RemoteFile(remoteDirectory, pwdOutput, localFile) == RemoteFile(remoteDirectory, pwdOutput2, localFile)
              == RTrim(remoteDirectory, {'/'}) + "/" + Basename(localFile)
    ensures !IsAbsolute(remoteDirectory) ==>
              RemoteFile(remoteDirectory, pwdOutput, localFile)
              == Trim(pwdOutput, Whitespace) + "/" + RTrim(remoteDirectory, {'/'}) + "/" + Basename(localFile)
    ensures RemoteFile("/", pwdOutput, localFile) == "/" + Basename(localFile)
  {
    assert RTrim("/", {'/'}) == "";
  }

  /** The two agree on every directory that does not trim down to nothing. */
  lemma RemoteFileAgreesAsWritten(remoteDirectory: string, pwdOutput: string, localFile: string)
    requires RemoteDirectory(remoteDirectory) != ""
    ensures RemoteFile(remoteDirectory, pwdOutput, localFile) == RemoteFileAsWritten(remoteDirectory, pwdOutput, localFile)
  {
    var dir := RemoteDirectory(remoteDirectory);
    RTrimShape(remoteDirectory, {'/'});
    assert dir[0] == remoteDirectory[0];
  }

  /** The SFTP stream URL of a remote file. */
  function SftpUrl(sftp: int, remoteFile: string): string {
    "ssh2.sftp://" + IntToString(sftp) + "/" + remoteFile
  }

  // ---------------------------------------------------------------- gitCheckout

  /** The archive, unzip and clean-up command of gitCheckout() for a given zip path. */
  function CheckoutCommand(zipFile: string, branch: string, checkoutDirectory: string): string {
    "git archive -o " + zipFile + " " + branch + " && unzip " + zipFile + " -d " + checkoutDirectory + " && rm " + zipFile
  }

  /** The zip file sits in the checkout directory, named by a unique id. */
  function ZipFile(checkoutDirectory: string, uniqueId: string): string {
    checkoutDirectory + "/" + uniqueId + "-git.zip"
  }

  // ---------------------------------------------------------------- httpRequest

  /**
   * httpRequest()'s result: with a validation string, whether the body (curl_exec's
   * return) contains it; without one, whether curl reported no error. A failed
   * transfer returns FALSE: strpos() refuses it under strict types, while the
   * older variant reads it as the empty string.
   */
  function HttpOutcome(variant: Variant, body: Option<string>, errorNo: int, validate: Option<string>)
    : (r: Result<bool, DeployError>)
    ensures validate.None? ==> r == Success(errorNo == 0)
    ensures validate.Some? && body.Some? ==> r == Success(Contains(body.value, validate.value))
    ensures validate.Some? && body.None? ==>
              r == (if variant == Current then Failure(TypeError("strpos")) else Success(Contains("", validate.value)))
  {
    match validate
    case None => Success(errorNo == 0)
    case Some(v) =>
      match body
      case Some(b) => Success(Contains(b, v))
      case None => if variant == Current then Failure(TypeError("strpos")) else Success(Contains("", v))
  }

  // ---------------------------------------------------------------- getShell

  const Shells: seq<string> := ["bash", "zsh", "ksh", "csh"]

  /** The probe getShell() runs for one shell. */
  function ShellProbe(shell: string): string {
    "/usr/bin/env " + shell + " -c 'echo OK' 2> /dev/null"
  }

  /**
   * A shell answers when its probe printed something that, right-trimmed, is
   * exactly "OK". A probe that prints nothing (None: shell_exec() returns NULL,
   * as for a shell that is not installed, whose error goes to /dev/null) does not.
   */
  predicate Answers(shellExec: string -> Option<string>, shell: string) {
    var output := shellExec(ShellProbe(shell));
    output.Some? && RTrim(output.value, Whitespace) == "OK"
  }

  /** A probe that printed nothing: rtrim() is then handed NULL. */
  predicate Silent(shellExec: string -> Option<string>, shell: string) {
    shellExec(ShellProbe(shell)).None?
  }

  /**
   * getShell()'s search over the shells in order: the first one that answers;
   * under strict types rtrim() refuses the NULL of a silent probe, which ends
   * the search with a TypeError; FALSE (None) when every probe printed something else.
   */
  function FirstAnswering(shellExec: string -> Option<string>, shells: seq<string>): (r: Result<Option<string>, DeployError>)
    ensures r.Success? && r.value.Some? ==> r.value.value in shells && Answers(shellExec, r.value.value)
    ensures r.Success? && r.value.None? ==>
              forall i :: 0 <= i < |shells| ==> !Silent(shellExec, shells[i]) && !Answers(shellExec, shells[i])
    ensures r.Failure? ==> r.error == TypeError("rtrim") && exists i :: 0 <= i < |shells| && Silent(shellExec, shells[i])
  {
    if shells == [] then Success(None)
    else if Silent(shellExec, shells[0]) then Failure(TypeError("rtrim"))
    else if Answers(shellExec, shells[0]) then Success(Some(shells[0]))
    else
      var r := FirstAnswering(shellExec, shells[1..]);
      assert r.Failure? ==> exists i :: 0 <= i < |shells[1..]| && Silent(shellExec, shells[1..][i]);
      r
  }

  /**
   * Every shell before the one chosen was probed, printed something and did not
   * answer (the list holds no shell twice).
   */
  lemma {:induction false} FirstAnsweringIsFirst(shellExec: string -> Option<string>, shells: seq<string>, i: nat)
    requires FirstAnswering(shellExec, shells).Success? && FirstAnswering(shellExec, shells).value.Some?
    requires i < |shells| && shells[i] == FirstAnswering(shellExec, shells).value.value
    requires forall j, k :: 0 <= j < k < |shells| ==> shells[j] != shells[k]
    ensures forall j :: 0 <= j < i ==> !Silent(shellExec, shells[j]) && !Answers(shellExec, shells[j])
    decreases |shells|
  {
    if !Answers(shellExec, shells[0]) && i > 0 {
      assert forall j :: 0 <= j < |shells| - 1 ==> shells[1..][j] == shells[j + 1];
      FirstAnsweringIsFirst(shellExec, shells[1..], i - 1);
    }
  }

  /**
   * The other direction: when every shell before index i printed something other
   * than OK, the search ends at shell i if it answers (that shell) or is silent (the TypeError).
   */
  lemma {:induction false} FirstAnsweringStopsAt(shellExec: string -> Option<string>, shells: seq<string>, i: nat)
    requires i < |shells|
    requires forall j :: 0 <= j < i ==> !Silent(shellExec, shells[j]) && !Answers(shellExec, shells[j])
    ensures Silent(shellExec, shells[i]) ==> FirstAnswering(shellExec, shells) == Failure(TypeError("rtrim"))
    ensures Answers(shellExec, shells[i]) ==> FirstAnswering(shellExec, shells) == Success(Some(shells[i]))
    decreases i
  {
    if i > 0 {
      assert forall j :: 0 <= j < i - 1 ==> shells[1..][j] == shells[j + 1];
      FirstAnsweringStopsAt(shellExec, shells[1..], i - 1);
    }
  }

  // ---------------------------------------------------------------- effects

  /** The credentials ssh2_auth_pubkey_file() is called with. */
  datatype Credentials = Credentials(username: string, publicKey: string, privateKey: string, passphrase: Option<string>)

  /**
   * What the class does to the world, in order. MakeDir and Exec carry the
   * working directory a relative path or command is resolved in.
   */
  datatype Event =
    | Copy(source: string, destination: string)
    | Move(source: string, destination: string)
    | Delete(path: string)
    | MakeDir(directory: string, path: string)
    | Exec(directory: string, command: string)
    | Connect(host: string, port: int)
    | Authenticate(session: int, credentials: Credentials)
    | RemoteExec(session: int, command: string)
    | Upload(url: string, contents: string)

  /**
   * The answers of the outside world: exit code and output lines of a command run
   * in a directory, realpath(), ssh2_connect() (a session id or FALSE), whether
   * the key is accepted, a remote command's output, ssh2_sftp(), whether fopen()
   * opens a URL, a local file's contents (None when file_get_contents() returns
   * FALSE), fwrite()'s result and curl's body and error number.
   */
  datatype Oracle = Oracle(
    exitCode: (string, string) -> int,
    output: (string, string) -> seq<string>,
    realpath: string -> Option<string>,
    connect: (string, int) -> Option<int>,
    accepts: (int, Credentials) -> bool,
    remote: (int, string) -> string,
    sftp: int -> int,
    opens: string -> bool,
    contents: string -> Option<string>,
    written: (string, string) -> Option<nat>,
    curl: string -> (Option<string>, int))

  /** A result with the connection cache after the call and the effects performed. */
  datatype Outcome<+T> = Outcome(result: Result<T, DeployError>, cache: map<string, int>, events: seq<Event>)

  /** How sprintf('%s') and '.' print a configuration value. */
  function Text(v: Value): string {
    match v
    case Null => ""
    case Bool(b) => if b then "1" else ""
    case Int(i) => IntToString(i)
    case Str(s) => s
    case Arr(_) => "Array"
  }

  /** $this->environment['ssh']. */
  function SshSettings(environment: map<string, Value>): Value {
    if "ssh" in environment then environment["ssh"] else Null
  }

  /** The host connected to: the one passed, or the configured ssh server. */
  function ConnectHost(environment: map<string, Value>, host: Option<string>): string {
    match host
    case Some(h) => h
    case None => Text(Lookup(SshSettings(environment), "server"))
  }

  /** The cache key of the session for these arguments. */
  function ConnectKey(environment: map<string, Value>, host: Option<string>, port: int): string {
    SessionKey(Text(Lookup(SshSettings(environment), "username")), ConnectHost(environment, host), port)
  }

  function ConnectFailedMessage(variant: Variant, host: string, port: int): string {
    (if variant == Current then "SSH can't connect to host \"" else "SSH can't connet to host \"")
    + host + "\":" + IntToString(port) + "."
  }

  const AuthenticationFailedMessage := "SSH can't authenticate with public key."
  const UnsupportedAuthenticationMessage := "Unsupported authentication type for SSH."

  /** The credentials taken from the ssh settings; an empty passphrase is passed as NULL. */
  function PublicKeyCredentials(ssh: Value): Credentials {
    var passphrase := Lookup(ssh, "passphrase");
    Credentials(Text(Lookup(ssh, "username")), Text(Lookup(ssh, "public_key")), Text(Lookup(ssh, "private_key")),
                if Truthy(passphrase) then Some(Text(passphrase)) else None)
  }

  /**
   * sshConnect(): a cached session is returned untouched; on a miss the host is
   * connected, then authenticated with a public key, and only a session that
   * passed both is stored. Existing entries are never replaced and a failure
   * leaves the cache as it was.
   */
  function SshConnect(variant: Variant, o: Oracle, environment: map<string, Value>, cache: map<string, int>,
                      host: Option<string>, port: int): Outcome<int>
  {
    var h := ConnectHost(environment, host);
    var ssh := SshSettings(environment);
    var key := ConnectKey(environment, host, port);
    if key in cache then Outcome(Success(cache[key]), cache, [])
    else match o.connect(h, port)
      case None => Outcome(Failure(Runtime(ConnectFailedMessage(variant, h, port))), cache, [Connect(h, port)])
      case Some(session) =>
        if Lookup(ssh, "public_key").Null? then
          Outcome(Failure(Runtime(UnsupportedAuthenticationMessage)), cache, [Connect(h, port)])
        else
          var credentials := PublicKeyCredentials(ssh);
          if !o.accepts(session, credentials) then
            Outcome(Failure(Runtime(AuthenticationFailedMessage)), cache, [Connect(h, port), Authenticate(session, credentials)])
          else
            Outcome(Success(session), cache[key := session], [Connect(h, port), Authenticate(session, credentials)])
  }

  /**
   * The cache discipline of sshConnect(): a hit returns the stored session and does
   * nothing; a miss starts by connecting; a failure leaves the cache as it was; a
   * success stores the new session under its key and nowhere else.
   */
  lemma SshConnectCache(variant: Variant, o: Oracle, environment: map<string, Value>, cache: map<string, int>,
                        host: Option<string>, port: int)
    ensures var key := ConnectKey(environment, host, port);
            var r := SshConnect(variant, o, environment, cache, host, port);
            (key in cache ==> r == Outcome(Success(cache[key]), cache, []))
            && (key !in cache ==> |r.events| > 0 && r.events[0] == Connect(ConnectHost(environment, host), port))
            && (r.result.Failure? ==> r.cache == cache)
            && (r.result.Success? ==> r.cache == cache[key := r.result.value])
            && (key !in cache && r.result.Success? ==> o.connect(ConnectHost(environment, host), port) == Some(r.result.value))
  {
  }

  /** ssh(): connect, run the command with the marker appended, judge the output. */
  function SshRun(variant: Variant, o: Oracle, environment: map<string, Value>, cache: map<string, int>,
                  command: string, validate: Option<string>, host: Option<string>, port: int): Outcome<(bool, string)> {
    var c := SshConnect(variant, o, environment, cache, host, port);
    match c.result
    case Failure(e) => Outcome(Failure(e), c.cache, c.events)
    case Success(session) =>
      var remoteCommand := WithReturnCode(command);
      Outcome(Success(SshOutcome(o.remote(session, remoteCommand), validate)), c.cache,
              c.events + [RemoteExec(session, remoteCommand)])
  }

  /**
   * The part of scp() after connecting: create the trimmed remote directory, ask
   * for the working directory unless the trimmed directory starts with '/', then
   * open the SFTP URL of the remote file as written and write the local contents.
   * The result is fwrite()'s: the byte count, or FALSE (None) when the stream does
   * not open or the write fails. A local file that cannot be read gives FALSE,
   * which fwrite() refuses under strict types and writes as "" in the older variant.
   */
  function UploadRun(variant: Variant, o: Oracle, session: int, localFile: string, remoteDirectory: string)
    : (Result<Option<nat>, DeployError>, seq<Event>)
  {
    var prepare := [RemoteExec(session, "mkdir -p " + RemoteDirectory(remoteDirectory))]
                   + (if IsAbsolute(RemoteDirectory(remoteDirectory)) then [] else [RemoteExec(session, "pwd")]);
    var url := SftpUrl(o.sftp(session), RemoteFileAsWritten(remoteDirectory, o.remote(session, "pwd"), localFile));
    if !o.opens(url) then (Success(None), prepare)
    else match o.contents(localFile)
      case None =>
        if variant == Current then (Failure(TypeError("fwrite")), prepare)
        else (Success(o.written(url, "")), prepare + [Upload(url, "")])
      case Some(contents) => (Success(o.written(url, contents)), prepare + [Upload(url, contents)])
  }

  /** scp(): connect, then upload. */
  function ScpRun(variant: Variant, o: Oracle, environment: map<string, Value>, cache: map<string, int>,
                  localFile: string, remoteDirectory: string, host: Option<string>, port: int): Outcome<Option<nat>> {
    var c := SshConnect(variant, o, environment, cache, host, port);
    match c.result
    case Failure(e) => Outcome(Failure(e), c.cache, c.events)
    case Success(session) =>
      var u := UploadRun(variant, o, session, localFile, remoteDirectory);
      Outcome(u.0, c.cache, c.events + u.1)
  }

  /**
   * gitCheckout(): change to the real path of the repository, create the checkout
   * directory and run the archive command there. Under strict types a failed
   * realpath() makes chdir() throw before anything happens; the older variant's
   * chdir() then fails quietly and the command runs in the current directory.
   */
  function CheckoutRun(variant: Variant, o: Oracle, cwd: string, gitRootDirectory: string,
                       checkoutDirectory: string, branch: string, uniqueId: string): (r: (Result<bool, DeployError>, seq<Event>))
    ensures r.0.Failure? <==> variant == Current && o.realpath(gitRootDirectory).None?
    ensures r.0.Failure? ==> r.1 == []
    ensures var directory := o.realpath(gitRootDirectory).GetOr(cwd);
            var command := CheckoutCommand(ZipFile(checkoutDirectory, uniqueId), branch, checkoutDirectory);
            r.0.Success? ==> r.1 == [MakeDir(directory, checkoutDirectory), Exec(directory, command)]
                             && (r.0.value <==> o.exitCode(directory, command) == 0)
  {
    var command := CheckoutCommand(ZipFile(checkoutDirectory, uniqueId), branch, checkoutDirectory);
    match o.realpath(gitRootDirectory)
    case None =>
      if variant == Current then (Failure(TypeError("chdir")), [])
      else (Success(ExecOutcome(o.exitCode(cwd, command), o.output(cwd, command), NotRequested).0),
            [MakeDir(cwd, checkoutDirectory), Exec(cwd, command)])
    case Some(directory) =>
      (Success(ExecOutcome(o.exitCode(directory, command), o.output(directory, command), NotRequested).0),
       [MakeDir(directory, checkoutDirectory), Exec(directory, command)])
  }

  /** The tar command of gzip(). */
  function GzipCommand(sourcePath: string, sourceDirectory: string, targetFile: string): string {
    "tar -C " + sourcePath + " --force-local -zcvf " + targetFile + " " + sourceDirectory
  }

  function GzipFailedMessage(targetFile: string, output: seq<string>): string {
    "Can't create tar.gz archive '" + targetFile + "': " + Join("\n", output)
  }
}
