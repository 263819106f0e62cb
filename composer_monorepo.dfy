/**
 * The composer synchroniser of a monorepo (src/ComposerMonorepo.php): for each
 * application it compares the application's `require` map with the global one in
 * both directions, refuses to go on when the application requires something the
 * global file does not, and then runs five shell commands that update the global
 * vendor directory, copy it into the application, update and purge the local one
 * and restore the autoloader. exit(1) and an uncaught TypeError are modelled as
 * the ways a run stops, the terminal output as report events.
 */
module ComposerMonorepo {
  import opened Wrappers
  import opened PhpStrings

  /** A composer `require` section: package name to version constraint. */
  type Requires = map<string, string>

  /** array_diff_assoc($a, $b): the entries of `a` that `b` lacks or holds with another version. */
  function DiffAssoc(a: Requires, b: Requires): Requires {
    map k | k in a && (k !in b || b[k] != a[k]) :: a[k]
  }

  /** A package is in the diff exactly when `b` lacks it or pins another version, and keeps `a`'s version. */
  lemma DiffAssocMembers(a: Requires, b: Requires, k: string)
    ensures k in DiffAssoc(a, b) <==> k in a && (k !in b || b[k] != a[k])
    ensures k in DiffAssoc(a, b) ==> DiffAssoc(a, b)[k] == a[k]
  {
  }

  /** The two directions of the diff are both empty exactly when the two maps agree entry for entry. */
  lemma DiffsEmptyIffEqual(a: Requires, b: Requires)
    ensures DiffAssoc(a, b) == map[] && DiffAssoc(b, a) == map[] <==> a == b
  {
    if DiffAssoc(a, b) == map[] && DiffAssoc(b, a) == map[] {
      forall k | k in a ensures k in b && b[k] == a[k] {
        assert k !in DiffAssoc(a, b);
      }
      forall k | k in b ensures k in a {
        assert k !in DiffAssoc(b, a);
      }
      assert a.Keys == b.Keys;
    }
  }

  /** The global file may require more than the application: that shows only in the informational diff. */
  lemma ExtraGlobalIsInformational(local: Requires, global: Requires, package: string, version: string)
    requires package !in global && DiffAssoc(local, global) == map[]
    ensures DiffAssoc(local, global[package := version]) == map[]
    ensures package in DiffAssoc(global[package := version], local)
  {
    var g := global[package := version];
    forall k | k in local ensures k in g && g[k] == local[k] {
      assert k !in DiffAssoc(local, global);
    }
    DiffAssocMembers(local, global, package);
  }

  /** The update command of a directory: the extra parameters are appended only when given. */
  function UpdateCommand(gitUpdateParameters: Option<string>, directory: string): string {
    "composer --working-dir=" + directory + " update"
    + (match gitUpdateParameters case None => "" case Some(p) => " " + p)
  }

  /** Parameters, when given, follow the plain update command after one space. */
  lemma UpdateCommandParameters(parameters: string, directory: string)
    ensures UpdateCommand(Some(parameters), directory) == UpdateCommand(None, directory) + " " + parameters
    ensures UpdateCommand(None, directory) == "composer --working-dir=" + directory + " update"
  {
  }

  /** The five commands of one application, in the order they run. */
  function Commands(gitUpdateParameters: Option<string>, globalDirectory: string, appDirectory: string,
                    appName: string): (r: seq<string>)
    ensures |r| == 5
  {
    [ UpdateCommand(gitUpdateParameters, globalDirectory),
      "cp -n -r " + globalDirectory + "/vendor/* " + appDirectory + "/vendor",
      UpdateCommand(gitUpdateParameters, appDirectory),
      "cd " + appDirectory + "/vendor && rm -R -- */",
      "cd " + globalDirectory + " && git checkout -- apps/" + appName + "/vendor/autoload.php" ]
  }

  /** What the synchroniser does, in order: print a diff, or run a command. */
  datatype Event =
    | Report(file: string, kind: string, packages: Requires, fatal: bool)
    | Exec(command: string)

  /**
   * What json_decode($text, TRUE) yields, as far as the synchroniser reads it:
   * no array at all (invalid JSON decodes to NULL), an array without an array
   * under `require`, or an array with its `require` section.
   */
  datatype Decoded = NotArray | NoRequire | Requiring(packages: Requires) {
    /** `$json['require']` when it is an array. */
    function Section(): Option<Requires> {
      if Requiring? then Some(packages) else None
    }
  }

  /**
   * The outside world: file_get_contents() (None for FALSE), what json_decode()
   * yields for a file's text, realpath(), and the exit code of a command.
   */
  datatype Oracle = Oracle(
    read: string -> Option<string>,
    decode: string -> Decoded,
    realpath: string -> Option<string>,
    exitCode: string -> int)

  /** How the process stops early: exit(1), or an uncaught TypeError raised at `at`. */
  datatype Stop = Exit | TypeError(at: string)

  /** Events performed and how the process stopped, if it did. */
  datatype Run = Run(events: seq<Event>, stop: Option<Stop>) {
    const exited: bool := stop.Some?
  }

  /** Run the commands in order, stopping with exit(1) at the first non-zero exit code. */
  function RunCommands(o: Oracle, commands: seq<string>): (r: Run)
    ensures r.stop == None || r.stop == Some(Exit)
  {
    if commands == [] then Run([], None)
    else if o.exitCode(commands[0]) != 0 then Run([Exec(commands[0])], Some(Exit))
    else
      var rest := RunCommands(o, commands[1..]);
      Run([Exec(commands[0])] + rest.events, rest.stop)
  }

  /** The events of a run are the commands' executions, in order, never more than the commands. */
  lemma {:induction false} RunCommandsExecs(o: Oracle, commands: seq<string>)
    ensures var r := RunCommands(o, commands);
            |r.events| <= |commands| && forall i :: 0 <= i < |r.events| ==> r.events[i] == Exec(commands[i])
  {
    if commands != [] && o.exitCode(commands[0]) == 0 {
      RunCommandsExecs(o, commands[1..]);
    }
  }

  /** Running from the k-th command: that command, then the rest only when it succeeded. */
  lemma RunCommandsFrom(o: Oracle, commands: seq<string>, k: nat)
    requires k < |commands|
    ensures var rest := RunCommands(o, commands[k + 1..]);
            RunCommands(o, commands[k..])
            == if o.exitCode(commands[k]) != 0 then Run([Exec(commands[k])], Some(Exit))
               else Run([Exec(commands[k])] + rest.events, rest.stop)
  {
    assert commands[k..][1..] == commands[k + 1..];
  }

  /** Every command runs, and nothing exits, exactly when every command succeeds. */
  lemma {:induction false} RunCommandsAllSucceed(o: Oracle, commands: seq<string>)
    ensures !RunCommands(o, commands).exited <==> forall i :: 0 <= i < |commands| ==> o.exitCode(commands[i]) == 0
    ensures !RunCommands(o, commands).exited ==> |RunCommands(o, commands).events| == |commands|
  {
    if commands != [] && o.exitCode(commands[0]) == 0 {
      RunCommandsAllSucceed(o, commands[1..]);
      assert forall i :: 1 <= i < |commands| ==> commands[i] == commands[1..][i - 1];
    }
  }

  /** A failing command is the last one run: the process exits right after it. */
  lemma {:induction false} RunCommandsStopAtFailure(o: Oracle, commands: seq<string>, k: nat)
    requires k < |commands| && o.exitCode(commands[k]) != 0
    requires forall i :: 0 <= i < k ==> o.exitCode(commands[i]) == 0
    ensures RunCommands(o, commands).exited && |RunCommands(o, commands).events| == k + 1
  {
    if k > 0 {
      assert forall i :: 0 <= i < k - 1 ==> commands[1..][i] == commands[i + 1];
      RunCommandsStopAtFailure(o, commands[1..], k - 1);
    }
  }

  /** composerDiff(): a non-empty diff is reported, and exits when it is the fatal one. */
  function DiffRun(file: string, kind: string, packages: Requires, fatal: bool): (r: Run)
    ensures r.stop == if fatal && packages != map[] then Some(Exit) else None
    ensures packages == map[] ==> r.events == []
  {
    if packages == map[] then Run([], None)
    else Run([Report(file, kind, packages, fatal)], if fatal then Some(Exit) else None)
  }

  /**
   * synchronizeApp(): exit when the application's composer.json cannot be read or
   * its directory does not resolve; array_diff_assoc() refuses a `require` section
   * that is not an array (a missing key or undecodable JSON reads as NULL) with a
   * TypeError; otherwise report the informational diff, then the fatal one, and
   * only when that one is empty run the five commands.
   */
  function SynchronizeRun(o: Oracle, globalFile: string, globalRequires: Option<Requires>,
                          gitUpdateParameters: Option<string>, appName: string, localFile: string): Run {
    match o.read(localFile)
    case None => Run([], Some(Exit))
    case Some(data) =>
      match o.realpath(Dirname(localFile))
      case None => Run([], Some(Exit))
      case Some(appDirectory) =>
        var local := o.decode(data).Section();
        if globalRequires.None? || local.None? then Run([], Some(TypeError("array_diff_assoc")))
        else CompareRun(o, globalFile, globalRequires.value, gitUpdateParameters, appName, localFile, appDirectory,
                        local.value)
  }

  /** The two diffs of synchronizeApp(): the informational one first, then the fatal one. */
  function DiffsRun(localFile: string, globalRequires: Requires, local: Requires): (r: Run)
    ensures r.stop == if DiffAssoc(local, globalRequires) != map[] then Some(Exit) else None
  {
    var info := DiffRun(localFile, "Local", DiffAssoc(globalRequires, local), false);
    var check := DiffRun(localFile, "Global", DiffAssoc(local, globalRequires), true);
    Run(info.events + check.events, check.stop)
  }

  /** The diffs, then the commands when the fatal diff is empty; only exit(1) can stop it. */
  function CompareRun(o: Oracle, globalFile: string, globalRequires: Requires, gitUpdateParameters: Option<string>,
                      appName: string, localFile: string, appDirectory: string, local: Requires): (r: Run)
    ensures r.stop == None || r.stop == Some(Exit)
  {
    var diffs := DiffsRun(localFile, globalRequires, local);
    if diffs.exited then diffs
    else
      var globalDirectory := o.realpath(Dirname(globalFile)).GetOr("");
      var commands := RunCommands(o, Commands(gitUpdateParameters, globalDirectory, appDirectory, appName));
      Run(diffs.events + commands.events, commands.stop)
  }

  /** updateSynchronize(): the applications in order, until one stops the process. */
  function UpdateRun(o: Oracle, globalFile: string, globalRequires: Option<Requires>, gitUpdateParameters: Option<string>,
                     apps: seq<(string, string)>): Run
    decreases |apps|
  {
    if apps == [] then Run([], None)
    else
      var before := UpdateRun(o, globalFile, globalRequires, gitUpdateParameters, apps[..|apps| - 1]);
      if before.exited then before
      else
        var last := SynchronizeRun(o, globalFile, globalRequires, gitUpdateParameters, apps[|apps| - 1].0, apps[|apps| - 1].1);
        Run(before.events + last.events, last.stop)
  }

  lemma UpdateStep(o: Oracle, globalFile: string, globalRequires: Option<Requires>, gitUpdateParameters: Option<string>,
                   apps: seq<(string, string)>, i: nat)
    requires i < |apps|
    ensures var before := UpdateRun(o, globalFile, globalRequires, gitUpdateParameters, apps[..i]);
            var step := SynchronizeRun(o, globalFile, globalRequires, gitUpdateParameters, apps[i].0, apps[i].1);
            UpdateRun(o, globalFile, globalRequires, gitUpdateParameters, apps[..i + 1])
            == if before.exited then before else Run(before.events + step.events, step.stop)
  {
    assert apps[..i + 1][..i] == apps[..i];
  }

  /** Once an application exits, the applications after it are never processed. */
  lemma {:induction false} UpdateExitSticks(o: Oracle, globalFile: string, globalRequires: Option<Requires>,
                                            gitUpdateParameters: Option<string>, apps: seq<(string, string)>, i: nat)
    requires i <= |apps| && UpdateRun(o, globalFile, globalRequires, gitUpdateParameters, apps[..i]).exited
    ensures UpdateRun(o, globalFile, globalRequires, gitUpdateParameters, apps)
         == UpdateRun(o, globalFile, globalRequires, gitUpdateParameters, apps[..i])
    decreases |apps| - i
  {
    if i < |apps| {
      UpdateStep(o, globalFile, globalRequires, gitUpdateParameters, apps, i);
      UpdateExitSticks(o, globalFile, globalRequires, gitUpdateParameters, apps, i + 1);
    } else {
      assert apps[..i] == apps;
    }
  }

  /**
   * A fatal diff stops the application before any command runs; otherwise the
   * informational diff changes nothing about the commands that run.
   */
  lemma FatalDiffRunsNothing(o: Oracle, globalFile: string, globalRequires: Requires,
                             gitUpdateParameters: Option<string>, appName: string, localFile: string)
    requires o.read(localFile).Some? && o.realpath(Dirname(localFile)).Some?
    requires o.decode(o.read(localFile).value).Requiring?
    ensures var local := o.decode(o.read(localFile).value).packages;
            var r := SynchronizeRun(o, globalFile, Some(globalRequires), gitUpdateParameters, appName, localFile);
            var commands := RunCommands(o, Commands(gitUpdateParameters, o.realpath(Dirname(globalFile)).GetOr(""),
                                                    o.realpath(Dirname(localFile)).value, appName));
            (DiffAssoc(local, globalRequires) != map[] ==>
               r.stop == Some(Exit) && forall i :: 0 <= i < |r.events| ==> r.events[i].Report?)
            && (DiffAssoc(local, globalRequires) == map[] ==>
                  r.stop == commands.stop && r.events[|r.events| - |commands.events|..] == commands.events)
  {
    var local := o.decode(o.read(localFile).value).packages;
    var info := DiffRun(localFile, "Local", DiffAssoc(globalRequires, local), false);
    var r := SynchronizeRun(o, globalFile, Some(globalRequires), gitUpdateParameters, appName, localFile);
    if DiffAssoc(local, globalRequires) == map[] {
      assert r.events == info.events + RunCommands(o, Commands(gitUpdateParameters, o.realpath(Dirname(globalFile)).GetOr(""),
                                                                o.realpath(Dirname(localFile)).value, appName)).events;
    }
  }

  /**
   * How an application stops before its diffs: exit(1) for an unreadable file or
   * an unresolvable directory, then a TypeError, with no difference reported and nothing run, when
   * either `require` section is not an array; with both present the diffs decide.
   */
  lemma SynchronizeStops(o: Oracle, globalFile: string, globalRequires: Option<Requires>,
                         gitUpdateParameters: Option<string>, appName: string, localFile: string)
    ensures var r := SynchronizeRun(o, globalFile, globalRequires, gitUpdateParameters, appName, localFile);
            (o.read(localFile).None? || o.realpath(Dirname(localFile)).None? ==> r == Run([], Some(Exit)))
            && (o.read(localFile).Some? && o.realpath(Dirname(localFile)).Some? ==>
                  (r == Run([], Some(TypeError("array_diff_assoc")))
                   <==> globalRequires.None? || !o.decode(o.read(localFile).value).Requiring?))
  {
    if o.read(localFile).Some? && o.realpath(Dirname(localFile)).Some? && globalRequires.Some?
       && o.decode(o.read(localFile).value).Requiring? {
      var local := o.decode(o.read(localFile).value).packages;
      var r := CompareRun(o, globalFile, globalRequires.value, gitUpdateParameters, appName, localFile,
                          o.realpath(Dirname(localFile)).value, local);
      assert r.stop != Some(TypeError("array_diff_assoc"));
    }
  }

  /** The synchroniser; `log` records what it prints and runs. */
  class Synchronizer {
    const oracle: Oracle
    const globalComposerJsonFile: string
    const gitUpdateParameters: Option<string>
    /** `$this->globalComposerJson['require']`, None when it is not an array. */
    const globalRequires: Option<Requires>
    var log: seq<Event>

    constructor (oracle: Oracle, globalComposerJsonFile: string, gitUpdateParameters: Option<string>,
                 globalRequires: Option<Requires>)
      ensures this.oracle == oracle && this.globalComposerJsonFile == globalComposerJsonFile
      ensures this.gitUpdateParameters == gitUpdateParameters && this.globalRequires == globalRequires
      ensures log == []
    {
      this.oracle := oracle;
      this.globalComposerJsonFile := globalComposerJsonFile;
      this.gitUpdateParameters := gitUpdateParameters;
      this.globalRequires := globalRequires;
      log := [];
    }

    /**
     * __construct(): exits when the global composer.json cannot be read; the typed
     * `array` property refuses text that does not decode to an array with a TypeError.
     */
    static method Create(oracle: Oracle, globalComposerJsonFile: string, gitUpdateParameters: Option<string>)
      returns (r: Result<Synchronizer, Stop>)
      ensures oracle.read(globalComposerJsonFile).None? ==> r == Failure(Exit)
      ensures oracle.read(globalComposerJsonFile).Some? && oracle.decode(oracle.read(globalComposerJsonFile).value).NotArray?
              ==> r == Failure(TypeError("globalComposerJson"))
      ensures r.Success? <==> oracle.read(globalComposerJsonFile).Some?
                              && !oracle.decode(oracle.read(globalComposerJsonFile).value).NotArray?
      ensures r.Success? ==> fresh(r.value) && r.value.oracle == oracle
                             && r.value.globalComposerJsonFile == globalComposerJsonFile
                             && r.value.gitUpdateParameters == gitUpdateParameters
                             && r.value.globalRequires == oracle.decode(oracle.read(globalComposerJsonFile).value).Section()
                             && r.value.log == []
    {
      var data := oracle.read(globalComposerJsonFile);
      if data.None? {
        return Failure(Exit);
      }
      var json := oracle.decode(data.value);
      if json.NotArray? {
        return Failure(TypeError("globalComposerJson"));
      }
      var s := new Synchronizer(oracle, globalComposerJsonFile, gitUpdateParameters, json.Section());
      return Success(s);
    }

    /** updateSynchronize(): every application in order; stops at the first that stops the process. */
    method UpdateSynchronize(apps: seq<(string, string)>) returns (stop: Option<Stop>)
      modifies this`log
      ensures var u := UpdateRun(oracle, globalComposerJsonFile, globalRequires, gitUpdateParameters, apps);
              stop == u.stop && log == old(log) + u.events
    {
      var i := 0;
      stop := None;
      ghost var run := UpdateRun(oracle, globalComposerJsonFile, globalRequires, gitUpdateParameters, apps[..0]);
      while i < |apps| && stop.None?
        invariant 0 <= i <= |apps|
        invariant run == UpdateRun(oracle, globalComposerJsonFile, globalRequires, gitUpdateParameters, apps[..i])
        invariant stop == run.stop && log == old(log) + run.events
      {
        stop, run := SynchronizeNext(apps, i, old(log));
        i := i + 1;
      }
      if stop.Some? {
        UpdateExitSticks(oracle, globalComposerJsonFile, globalRequires, gitUpdateParameters, apps, i);
      } else {
        assert apps[..i] == apps;
      }
    }

    /**
     * One turn of updateSynchronize(): the next application, extending the run of
     * those before it, which the log already holds after `base`.
     */
    method SynchronizeNext(apps: seq<(string, string)>, i: nat, ghost base: seq<Event>)
      returns (stop: Option<Stop>, ghost after: Run)
      requires i < |apps|
      requires !UpdateRun(oracle, globalComposerJsonFile, globalRequires, gitUpdateParameters, apps[..i]).exited
      requires log == base + UpdateRun(oracle, globalComposerJsonFile, globalRequires, gitUpdateParameters, apps[..i]).events
      modifies this`log
      ensures after == UpdateRun(oracle, globalComposerJsonFile, globalRequires, gitUpdateParameters, apps[..i + 1])
      ensures stop == after.stop && log == base + after.events
    {
      ghost var before := UpdateRun(oracle, globalComposerJsonFile, globalRequires, gitUpdateParameters, apps[..i]);
      UpdateStep(oracle, globalComposerJsonFile, globalRequires, gitUpdateParameters, apps, i);
      stop := SynchronizeApp(apps[i].0, apps[i].1);
      after := UpdateRun(oracle, globalComposerJsonFile, globalRequires, gitUpdateParameters, apps[..i + 1]);
      assert base + before.events + (after.events[|before.events|..]) == base + after.events;
    }

    /** synchronizeApp(): the checks, the diffs and the five commands of one application. */
    method SynchronizeApp(appName: string, localComposerFile: string) returns (stop: Option<Stop>)
      modifies this`log
      ensures var s := SynchronizeRun(oracle, globalComposerJsonFile, globalRequires, gitUpdateParameters, appName, localComposerFile);
              stop == s.stop && log == old(log) + s.events
    {
      var localComposerData := oracle.read(localComposerFile);
      if localComposerData.None? {
        return Some(Exit);
      }
      var appDirectory := oracle.realpath(Dirname(localComposerFile));
      if appDirectory.None? {
        return Some(Exit);
      }
      var local := oracle.decode(localComposerData.value).Section();
      if globalRequires.None? || local.None? {
        return Some(TypeError("array_diff_assoc"));
      }
      var exited := Compare(appName, localComposerFile, appDirectory.value, globalRequires.value, local.value);
      stop := if exited then Some(Exit) else None;
    }

    /** The diffs of one application and, when the application requires nothing the global file lacks, its commands. */
    method Compare(appName: string, localComposerFile: string, appDirectory: string, global: Requires, local: Requires)
      returns (exited: bool)
      modifies this`log
      ensures var c := CompareRun(oracle, globalComposerJsonFile, global, gitUpdateParameters, appName,
                                  localComposerFile, appDirectory, local);
              exited == c.exited && log == old(log) + c.events
    {
      exited := ReportDiffs(localComposerFile, global, local);
      if exited {
        return;
      }
      var globalDirectory := oracle.realpath(Dirname(globalComposerJsonFile)).GetOr("");
      exited := UpdateVendors(Commands(gitUpdateParameters, globalDirectory, appDirectory, appName));
    }

    /** The informational diff, then the fatal one. */
    method ReportDiffs(localComposerFile: string, global: Requires, local: Requires) returns (exited: bool)
      modifies this`log
      ensures var d := DiffsRun(localComposerFile, global, local);
              exited == d.exited && log == old(log) + d.events
    {
      var _ := ComposerDiff(localComposerFile, "Local", DiffAssoc(global, local), false);
      exited := ComposerDiff(localComposerFile, "Global", DiffAssoc(local, global), true);
    }

    /** The five commands, each aborting the process when it fails. */
    method UpdateVendors(commands: seq<string>) returns (exited: bool)
      requires |commands| == 5
      modifies this`log
      ensures exited == RunCommands(oracle, commands).exited && log == old(log) + RunCommands(oracle, commands).events
    {
      assert commands[0..] == commands;
      RunCommandsFrom(oracle, commands, 0);
      exited := Exec(commands[0]);
      if exited {
        return;
      }
      RunCommandsFrom(oracle, commands, 1);
      exited := Exec(commands[1]);
      if exited {
        return;
      }
      RunCommandsFrom(oracle, commands, 2);
      exited := Exec(commands[2]);
      if exited {
        return;
      }
      RunCommandsFrom(oracle, commands, 3);
      exited := Exec(commands[3]);
      if exited {
        return;
      }
      RunCommandsFrom(oracle, commands, 4);
      exited := Exec(commands[4]);
      assert commands[5..] == [];
    }

    /** composerDiff(): report a non-empty diff; exit when it is fatal. */
    method ComposerDiff(localComposerFile: string, kind: string, packages: Requires, fatal: bool) returns (exited: bool)
      modifies this`log
      ensures var d := DiffRun(localComposerFile, kind, packages, fatal);
              exited == d.exited && log == old(log) + d.events
    {
      exited := false;
      if packages != map[] {
        log := log + [Report(localComposerFile, kind, packages, fatal)];
        exited := fatal;
      }
    }

    /** exec(): run a command; a non-zero exit code ends the process. */
    method Exec(command: string) returns (exited: bool)
      modifies this`log
      ensures exited <==> oracle.exitCode(command) != 0
      ensures log == old(log) + [Event.Exec(command)]
    {
      log := log + [Event.Exec(command)];
      exited := oracle.exitCode(command) != 0;
    }
  }
}
