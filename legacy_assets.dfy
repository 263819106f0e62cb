/**
 * The older asset builder as an object: setup() fills its fields and raises the
 * set-up flag, the builds walk the manifest performing effects on a host whose
 * log and Neon file store they extend. Each method is proved against the
 * specification functions of LegacyAssetsModel.
 */
module LegacyAssets {
  import opened Wrappers
  import opened PhpStrings
  import opened LegacyAssetsModel

  /** The filesystem and process runner the builder acts on, with every effect logged. */
  class Host {
    const oracle: Oracle
    var log: seq<Action>
    var files: Files

    constructor(oracle: Oracle, files: Files)
      ensures this.oracle == oracle && this.files == files && log == []
    {
      this.oracle := oracle;
      this.files := files;
      log := [];
    }

    method Perform(a: Action)
      modifies this`log
      ensures log == old(log) + [a]
    {
      log := log + [a];
    }

    /** exec(): the exit code and output lines the oracle gives for the command. */
    method Run(command: string) returns (exitCode: int, output: seq<string>)
      modifies this`log
      ensures exitCode == oracle.exitCode(command) && output == oracle.output(command)
      ensures log == old(log) + [Exec(command)]
    {
      log := log + [Exec(command)];
      exitCode := oracle.exitCode(command);
      output := oracle.output(command);
    }

    /** readNeon(): NULL for a missing file, otherwise the decoder's value at parameters.assets.hash. */
    method ReadNeon(configFile: string) returns (hash: Option<string>)
      modifies this`log
      ensures hash == StoredHash(oracle, files, configFile)
      ensures log == old(log) + [Action.ReadNeon(configFile)]
    {
      log := log + [Action.ReadNeon(configFile)];
      if configFile in files {
        hash := oracle.neonHash(files[configFile]);
      } else {
        hash := None;
      }
    }

    /** file_put_contents() of the Neon text. */
    method WriteNeon(configFile: string, contents: string)
      modifies this`log, this`files
      ensures files == old(files)[configFile := contents]
      ensures log == old(log) + [Action.WriteNeon(configFile, contents)]
    {
      files := files[configFile := contents];
      log := log + [Action.WriteNeon(configFile, contents)];
    }
  }

  class Assets {
    const config: Manifest
    var isSetUp: bool
    var sourceDirectory: string
    var destinationDirectory: string
    var configFile: string

    function Settings(): LegacyAssetsModel.Settings
      reads this
    {
      LegacyAssetsModel.Settings(isSetUp, configFile, sourceDirectory, destinationDirectory)
    }

    /** __construct(): only the manifest; the directories stay unset until setup(). */
    constructor(config: Manifest)
      ensures this.config == config && !isSetUp
      ensures sourceDirectory == "" && destinationDirectory == "" && configFile == ""
    {
      this.config := config;
      isSetUp := false;
      sourceDirectory := "";
      destinationDirectory := "";
      configFile := "";
    }

    /** setup(): store the Neon file, strip trailing slashes and backslashes from both directories. */
    method Setup(configFile: string, sourceDirectory: string, destinationDirectory: string)
      modifies this
      ensures isSetUp && this.configFile == configFile
      ensures this.sourceDirectory == RTrim(sourceDirectory, Slashes)
      ensures this.destinationDirectory == RTrim(destinationDirectory, Slashes)
    {
      this.configFile := configFile;
      this.sourceDirectory := RTrim(sourceDirectory, Slashes);
      this.destinationDirectory := RTrim(destinationDirectory, Slashes);
      isSetUp := true;
    }

    /** exec() with the return value check: a non-zero exit is a RuntimeException. */
    method Exec(host: Host, command: string, language: string) returns (err: Option<Error>)
      modifies host`log
      ensures host.log == old(host.log) + ExecRun(host.oracle, command, language).actions
      ensures err == ExecRun(host.oracle, command, language).error
    {
      var exitCode, output := host.Run(command);
      if exitCode != 0 {
        return Some(Runtime(CompileMessage(language, command, output)));
      }
      err := None;
    }

    method CompilesLess(host: Host, sourceFile: string, destinationFile: string, createMap: bool)
      returns (err: Option<Error>)
      modifies host`log
      ensures host.log == old(host.log) + LessRun(Settings(), host.oracle, sourceFile, destinationFile, createMap).actions
      ensures err == LessRun(Settings(), host.oracle, sourceFile, destinationFile, createMap).error
    {
      var source := sourceDirectory + "/" + sourceFile;
      var destination := destinationDirectory + "/" + destinationFile;
      host.Perform(CreateDir(Dirname(destination)));
      var mapCommand := "";
      if createMap {
        mapCommand := "--source-map=" + MapStem(destination) + ".map ";
      }
      var command := "lessc --clean-css " + mapCommand + source + " " + destination + " 2>&1";
      assert command == LessCommand(Settings(), sourceFile, destinationFile, createMap);
      err := Exec(host, command, "less");
    }

    /** array_walk() over the sources: each one is replaced in place by its path below the source directory. */
    method PrefixAll(sourceFiles: seq<string>) returns (prefixed: seq<string>)
      ensures |prefixed| == |sourceFiles|
      ensures forall i :: 0 <= i < |sourceFiles| ==> prefixed[i] == sourceDirectory + "/" + sourceFiles[i]
    {
      prefixed := sourceFiles;
      var i := 0;
      while i < |prefixed|
        invariant 0 <= i <= |prefixed| == |sourceFiles|
        invariant forall j :: 0 <= j < i ==> prefixed[j] == sourceDirectory + "/" + sourceFiles[j]
        invariant forall j :: i <= j < |prefixed| ==> prefixed[j] == sourceFiles[j]
      {
        prefixed := prefixed[i := sourceDirectory + "/" + prefixed[i]];
        i := i + 1;
      }
    }

    method CompilesJs(host: Host, sourceFiles: seq<string>, destinationFile: string, createMap: bool)
      returns (err: Option<Error>)
      modifies host`log
      ensures host.log == old(host.log) + JsRun(Settings(), host.oracle, sourceFiles, destinationFile, createMap).actions
      ensures err == JsRun(Settings(), host.oracle, sourceFiles, destinationFile, createMap).error
    {
      var destination := destinationDirectory + "/" + destinationFile;
      host.Perform(CreateDir(Dirname(destination)));
      var prefixed := PrefixAll(sourceFiles);
      PrefixSourcesIsPrefixAll(Settings(), sourceFiles, prefixed);
      var mapCommand := "";
      if createMap {
        mapCommand := "--source-map ";
      }
      var command := "uglifyjs " + Join(" ", prefixed) + " -o " + destination + " --compress " + mapCommand + "2>&1";
      assert command == JsCommand(Settings(), sourceFiles, destinationFile, createMap);
      err := Exec(host, command, "js");
    }

    /** One manifest entry: environment filter, type check, the type switch. */
    method BuildEntry(host: Host, environment: string, path: string, spec: Spec) returns (err: Option<Error>)
      modifies host`log
      ensures host.log == old(host.log) + EntryRun(Settings(), host.oracle, environment, path, spec).actions
      ensures err == EntryRun(Settings(), host.oracle, environment, path, spec).error
    {
      if spec.Record? && spec.env.Some? && spec.env.value != environment {
        return None;
      }
      if spec.Record? && spec.kind.None? {
        return Some(InvalidArgument(NoTypeMessageAsWritten(path)));
      }
      var isDebug := environment == Debug;
      var kind := if spec.Record? then spec.kind.value else spec.name;
      if kind == CopyType {
        host.Perform(Copy(sourceDirectory + "/" + path, destinationDirectory + "/" + path));
        err := None;
      } else if kind == LessType {
        if spec.Name? || spec.file.None? {
          return Some(InvalidArgument(NoFileMessage(path)));
        }
        err := CompilesLess(host, spec.file.value, path, isDebug);
      } else if kind == JsType {
        if spec.Name? || spec.files.None? {
          return Some(InvalidArgument(NoFilesMessage(path)));
        }
        err := CompilesJs(host, AsList(spec.files.value), path, isDebug);
      } else {
        err := None;
      }
    }

    /** buildAssets(): delete the destination if present, then the entries in order until one throws. */
    method BuildAssets(host: Host, environment: string) returns (err: Option<Error>)
      modifies host`log
      ensures host.log == old(host.log) + BuildAssetsRun(Settings(), host.oracle, environment, config).actions
      ensures err == BuildAssetsRun(Settings(), host.oracle, environment, config).error
    {
      if destinationDirectory in host.oracle.present {
        host.Perform(Delete(destinationDirectory));
      }
      ghost var log1 := host.log;
      err := BuildEntries(host, environment);
      assert host.log == log1 + Walk(Settings(), host.oracle, environment, config).actions;
    }

    method BuildEntries(host: Host, environment: string) returns (err: Option<Error>)
      modifies host`log
      ensures host.log == old(host.log) + Walk(Settings(), host.oracle, environment, config).actions
      ensures err == Walk(Settings(), host.oracle, environment, config).error
    {
      ghost var st := Settings();
      ghost var log0 := host.log;
      var i := 0;
      while i < |config|
        invariant 0 <= i <= |config|
        invariant host.log == log0 + Walk(st, host.oracle, environment, config[..i]).actions
        invariant Walk(st, host.oracle, environment, config[..i]).error.None?
      {
        ghost var before := Walk(st, host.oracle, environment, config[..i]).actions;
        ghost var step;
        err, step := BuildNext(host, environment, i);
        assert log0 + before + step == log0 + (before + step);
        i := i + 1;
        if err.Some? {
          WalkErrorSticks(st, host.oracle, environment, config, i);
          return;
        }
      }
      assert config[..i] == config;
      err := None;
    }

    /** One pass of that loop: entry `i`, after entries that all succeeded. */
    method BuildNext(host: Host, environment: string, i: nat) returns (err: Option<Error>, ghost step: seq<Action>)
      requires i < |config| && Walk(Settings(), host.oracle, environment, config[..i]).error.None?
      modifies host`log
      ensures var before := Walk(Settings(), host.oracle, environment, config[..i]);
              var after := Walk(Settings(), host.oracle, environment, config[..i + 1]);
              err == after.error && after.actions == before.actions + step && host.log == old(host.log) + step
    {
      WalkStep(Settings(), host.oracle, environment, config, i);
      step := EntryRun(Settings(), host.oracle, environment, config[i].0, config[i].1).actions;
      err := BuildEntry(host, environment, config[i].0, config[i].1);
    }

    /** buildDebug's $files: pathname => mtime of every scanned item that is not a directory. */
    method CollectMtimes(host: Host) returns (files: seq<(string, int)>)
      ensures files == ScanMtimes(host.oracle.tree)
    {
      var tree := host.oracle.tree;
      files := [];
      var i := 0;
      while i < |tree|
        invariant 0 <= i <= |tree|
        invariant files == ScanMtimes(tree[..i])
      {
        assert tree[..i + 1][..i] == tree[..i];
        if !tree[i].isDir {
          files := files + [(tree[i].pathname, tree[i].mtime)];
        }
        i := i + 1;
      }
      assert tree[..i] == tree;
    }

    /** buildProduction's $contents: the scanned files' contents concatenated. */
    method CollectContents(host: Host) returns (contents: string)
      ensures contents == ScanContents(host.oracle.tree)
    {
      var tree := host.oracle.tree;
      contents := "";
      var i := 0;
      while i < |tree|
        invariant 0 <= i <= |tree|
        invariant contents == ScanContents(tree[..i])
      {
        assert tree[..i + 1][..i] == tree[..i];
        if !tree[i].isDir {
          contents := contents + tree[i].contents;
        }
        i := i + 1;
      }
      assert tree[..i] == tree;
    }

    /** buildDebug(): rebuild and write the Neon file only when the fingerprint differs from the stored one. */
    method BuildDebug(host: Host) returns (err: Option<Error>)
      modifies host`log, host`files
      ensures var b := DebugRun(host.oracle, config, Settings(), old(host.files));
              host.log == old(host.log) + b.actions && host.files == b.files && err == b.error
    {
      if !isSetUp {
        return Some(Runtime(SetupFirstMessage));
      }
      var oldHash := host.ReadNeon(configFile);
      if sourceDirectory !in host.oracle.present {
        return Some(Runtime(SourceMissingMessage));
      }
      ghost var log1 := host.log;
      err := RebuildDebug(host, oldHash);
      assert host.log == log1 + (host.log[|log1|..]);
    }

    /** buildDebug after the old hash is read: fingerprint, compare, rebuild and write on change. */
    method RebuildDebug(host: Host, oldHash: Option<string>) returns (err: Option<Error>)
      requires oldHash == StoredHash(host.oracle, host.files, configFile)
      modifies host`log, host`files
      ensures var b := DebugRebuild(host.oracle, config, Settings(), old(host.files));
              host.log == old(host.log) + b.actions && host.files == b.files && err == b.error
    {
      var files := CollectMtimes(host);
      var newHash := host.oracle.md5(host.oracle.serializeFiles(files));
      err := None;
      if oldHash != Some(newHash) {
        err := BuildAssets(host, Debug);
        if err.Some? {
          return;
        }
        host.WriteNeon(configFile, NeonText(newHash));
      }
    }

    /** buildProduction(): always rebuild, then write the md5 of the sources' contents. */
    method BuildProduction(host: Host) returns (err: Option<Error>)
      modifies host`log, host`files
      ensures var b := ProductionRun(host.oracle, config, Settings(), old(host.files));
              host.log == old(host.log) + b.actions && host.files == b.files && err == b.error
    {
      if !isSetUp {
        return Some(Runtime(SetupFirstMessage));
      }
      if sourceDirectory !in host.oracle.present {
        return Some(Runtime(SourceMissingMessage));
      }
      err := BuildAssets(host, Production);
      if err.Some? {
        return;
      }
      var contents := CollectContents(host);
      host.WriteNeon(configFile, NeonText(host.oracle.md5(contents)));
    }
  }
}
