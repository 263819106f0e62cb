/**
 * The Assets object of src/Assets.php. Its methods perform, on a Host, the
 * actions the pure model in AssetsModel lists, and are proved to perform
 * exactly those, so the properties of AssetsProperties hold of them.
 */
module Assets {
  import opened Wrappers
  import opened PhpStrings
  import opened AssetsModel

  /**
   * The world a build runs against: the action log, the store behind the
   * readHash/writeHash closures, the build lock, and the oracle answering
   * everything else.
   */
  class Host {
    const oracle: Oracle
    var log: seq<Action>
    var hashes: map<string, string>
    var locked: bool

    constructor(oracle: Oracle, hashes: map<string, string>)
      ensures this.oracle == oracle && this.hashes == hashes && log == [] && !locked
    {
      this.oracle := oracle;
      this.hashes := hashes;
      log := [];
      locked := false;
    }

    /** fopen(lockFile, 'c+') and flock(LOCK_EX). */
    method AcquireLock(lockFile: string) returns (err: Option<AssetsError>)
      modifies this`log, this`locked
      ensures !oracle.canOpen ==> err == Some(LockOpenFailed(lockFile))
      ensures oracle.canOpen && !oracle.canFlock ==> err == Some(LockAcquireFailed(lockFile))
      ensures LockHeld(oracle) ==> err.None? && locked && log == old(log) + [Action.Lock(lockFile)]
      ensures !LockHeld(oracle) ==> locked == old(locked) && log == old(log)
    {
      if !oracle.canOpen {
        return Some(LockOpenFailed(lockFile));
      } else if !oracle.canFlock {
        return Some(LockAcquireFailed(lockFile));
      }
      locked := true;
      log := log + [Action.Lock(lockFile)];
      err := None;
    }

    /** flock(LOCK_UN) and fclose. */
    method ReleaseLock()
      modifies this`log, this`locked
      ensures !locked && log == old(log) + [Unlock]
    {
      locked := false;
      log := log + [Unlock];
    }

    /** The readHash closure. */
    method ReadHash(configFile: string) returns (h: Option<string>)
      modifies this`log
      ensures h == StoredHash(hashes, configFile) && log == old(log) + [Action.ReadHash(configFile)]
    {
      log := log + [Action.ReadHash(configFile)];
      h := if configFile in hashes then Some(hashes[configFile]) else None;
    }

    /** The writeHash closure. */
    method WriteHash(configFile: string, hash: string)
      modifies this`log, this`hashes
      ensures hashes == old(hashes)[configFile := hash] && log == old(log) + [Action.WriteHash(configFile, hash)]
    {
      hashes := hashes[configFile := hash];
      log := log + [Action.WriteHash(configFile, hash)];
    }

    /** A filesystem change: delete, copy, createDir or file_put_contents. */
    method Perform(a: Action)
      modifies this`log
      ensures log == old(log) + [a]
    {
      log := log + [a];
    }

    /** exec($command, $output, $returnVal). */
    method Run(command: string) returns (exitCode: int, output: seq<string>)
      modifies this`log
      ensures exitCode == oracle.exitCode(command) && output == oracle.output(command)
      ensures log == old(log) + [Exec(command)]
    {
      log := log + [Exec(command)];
      exitCode, output := oracle.exitCode(command), oracle.output(command);
    }
  }

  class Assets {
    const config: Manifest
    var sourceDirectory: string
    var destinationDirectory: string
    var systemBinPath: string
    var localSourceDirectory: Option<string>
    var configFile: string
    var lockFile: string

    /** The fields the manifest walk reads. */
    function Settings(): Settings
      reads this
    {
      AssetsModel.Settings(sourceDirectory, destinationDirectory, systemBinPath, localSourceDirectory)
    }

    /**
     * Strips trailing slashes and backslashes from the source directory; a
     * systemBinPath setting (trimmed of ':') wins over localSourceDirectory;
     * the lock file lives in the temp directory.
     */
    constructor(tempDirectory: string, sourceDirectory: string, config: Manifest, localConfig: map<string, string>)
      ensures this.sourceDirectory == RTrim(sourceDirectory, Slashes) && this.config == config
      ensures "systemBinPath" in localConfig ==>
                systemBinPath == Trim(localConfig["systemBinPath"], {':'}) && localSourceDirectory.None?
      ensures "systemBinPath" !in localConfig ==> systemBinPath == DefaultSystemBinPath
      ensures "systemBinPath" !in localConfig && "localSourceDirectory" in localConfig ==>
                localSourceDirectory == Some(RTrim(localConfig["localSourceDirectory"], Slashes))
      ensures "systemBinPath" !in localConfig && "localSourceDirectory" !in localConfig ==> localSourceDirectory.None?
      ensures lockFile == tempDirectory + "/" + "assets.lock"
      ensures destinationDirectory == "" && configFile == ""
    {
      this.sourceDirectory := RTrim(sourceDirectory, Slashes);
      this.config := config;
      systemBinPath := DefaultSystemBinPath;
      localSourceDirectory := None;
      if "systemBinPath" in localConfig {
        systemBinPath := Trim(localConfig["systemBinPath"], {':'});
      } else if "localSourceDirectory" in localConfig {
        localSourceDirectory := Some(RTrim(localConfig["localSourceDirectory"], Slashes));
      }
      lockFile := tempDirectory + "/" + "assets.lock";
      destinationDirectory := "";
      configFile := "";
    }

    /** lock(): take the lock, then resolve the lock file's real path. */
    method Lock(host: Host) returns (r: Result<string, AssetsError>)
      modifies host`log, host`locked
      ensures r == LockStep(host.oracle, lockFile)
      ensures LockHeld(host.oracle) ==> host.locked && host.log == old(host.log) + [Action.Lock(lockFile)]
      ensures !LockHeld(host.oracle) ==> host.locked == old(host.locked) && host.log == old(host.log)
    {
      var err := host.AcquireLock(lockFile);
      if err.Some? {
        return Failure(err.value);
      }
      var path := host.oracle.realpath(lockFile);
      if path.None? {
        return Failure(LockMissing);
      }
      r := Success(path.value);
    }

    /** setup(): the source directory must exist; then the config file and the destination are stored. */
    method Setup(host: Host, configFile: string, destination: string) returns (err: Option<AssetsError>)
      modifies this`configFile, this`destinationDirectory
      ensures err == if sourceDirectory in host.oracle.present then None else Some(SourceMissing)
      ensures err.None? ==> this.configFile == configFile && destinationDirectory == RTrim(destination, Slashes)
      ensures err.Some? ==> this.configFile == old(this.configFile) && destinationDirectory == old(destinationDirectory)
    {
      if sourceDirectory !in host.oracle.present {
        return Some(SourceMissing);
      }
      this.configFile := configFile;
      destinationDirectory := RTrim(destination, Slashes);
      err := None;
    }

    /** exec(): run in the source directory; a non-zero exit is an error with the command and its output. */
    method Exec(host: Host, command: string, kind: string) returns (err: Option<AssetsError>)
      modifies host`log
      ensures host.log == old(host.log) + ExecRun(Settings(), host.oracle, command, kind).actions
      ensures err == ExecRun(Settings(), host.oracle, command, kind).error
    {
      var full := "(cd " + sourceDirectory + " && " + command + " 2>&1)";
      var exitCode, output := host.Run(full);
      if exitCode != 0 {
        return Some(CompileFailed(kind, full, Join("\n", output)));
      }
      err := None;
    }

    /** prepareDestinationPath(): create the destination's directory and return the destination. */
    method PrepareDestinationPath(host: Host, relativePath: string) returns (path: string)
      modifies host`log
      ensures path == DestinationPath(Settings(), relativePath)
      ensures host.log == old(host.log) + PrepareRun(Settings(), relativePath).actions
    {
      path := destinationDirectory + "/" + relativePath;
      host.Perform(CreateDir(Dirname(path)));
    }

    method CompilesLess(host: Host, sourceFile: string, destinationFile: string, createMap: bool)
      returns (err: Option<AssetsError>)
      modifies host`log
      ensures host.log == old(host.log) + LessRun(Settings(), host.oracle, sourceFile, destinationFile, createMap).actions
      ensures err == LessRun(Settings(), host.oracle, sourceFile, destinationFile, createMap).error
    {
      var destination := PrepareDestinationPath(host, destinationFile);
      err := Exec(host, LessCommand(Settings(), sourceFile, destination, createMap), "css-less");
    }

    method CompilesSass(host: Host, sourceFile: string, destinationDirectory: string, createMap: bool)
      returns (err: Option<AssetsError>)
      modifies host`log
      ensures host.log == old(host.log) + SassRun(Settings(), host.oracle, sourceFile, destinationDirectory, createMap).actions
      ensures err == SassRun(Settings(), host.oracle, sourceFile, destinationDirectory, createMap).error
    {
      var destination := PrepareDestinationPath(host, destinationDirectory);
      err := Exec(host, SassCommand(Settings(), sourceFile, destination, createMap), "css-sass");
    }

    method CompilesRollup(host: Host, sourceFile: string, destinationFile: string, createMap: bool)
      returns (err: Option<AssetsError>)
      modifies host`log
      ensures host.log == old(host.log) + RollupRun(Settings(), host.oracle, sourceFile, destinationFile, createMap).actions
      ensures err == RollupRun(Settings(), host.oracle, sourceFile, destinationFile, createMap).error
    {
      var destination := PrepareDestinationPath(host, destinationFile);
      err := Exec(host, RollupCommand(Settings(), sourceFile, destination, createMap), "js-rollup");
    }

    /** compilesJs's $mapSources: each source path paired with the file:/// URI the map should show. */
    method CollectMapSources(host: Host, sourceFiles: seq<string>) returns (mapSources: seq<(string, string)>)
      ensures mapSources == MapSources(Settings(), host.oracle, sourceFiles)
    {
      mapSources := [];
      var i := 0;
      while i < |sourceFiles|
        invariant 0 <= i <= |sourceFiles|
        invariant mapSources == MapSources(Settings(), host.oracle, sourceFiles[..i])
      {
        var sourcePath := sourceDirectory + "/" + sourceFiles[i];
        var uri := "file:///" + match localSourceDirectory
          case Some(local) => local + "/" + sourceFiles[i]
          case None => host.oracle.realpath(sourcePath).GetOr("");
        assert sourceFiles[..i + 1][..i] == sourceFiles[..i];
        mapSources := mapSources + [(sourcePath, uri)];
        i := i + 1;
      }
      assert sourceFiles[..i] == sourceFiles;
    }

    /** compilesJs(): uglifyjs over all sources, then (with a map) rewrite the map's source paths. */
    method CompilesJs(host: Host, sourceFiles: seq<string>, destinationFile: string, createMap: bool)
      returns (err: Option<AssetsError>)
      modifies host`log
      ensures host.log == old(host.log) + JsRun(Settings(), host.oracle, sourceFiles, destinationFile, createMap).actions
      ensures err == JsRun(Settings(), host.oracle, sourceFiles, destinationFile, createMap).error
    {
      var destination := PrepareDestinationPath(host, destinationFile);
      var mapSources: seq<(string, string)> := [];
      if createMap {
        mapSources := CollectMapSources(host, sourceFiles);
      }
      err := Exec(host, JsCommand(Settings(), sourceFiles, destination, createMap), "js-uglifyjs");
      if err.Some? || !createMap {
        return;
      }
      var mapFile := destination + ".map";
      var mapContents := host.oracle.readFile(mapFile);
      if mapContents.None? {
        return Some(MapMissing(mapFile));
      }
      host.Perform(WriteFile(mapFile, StrTr(mapContents.value, mapSources)));
    }

    /** The sass entry's loop: each listed file into the same destination, stopping at the first failure. */
    method CompilesSassFiles(host: Host, files: seq<string>, path: string, createMap: bool) returns (err: Option<AssetsError>)
      modifies host`log
      ensures host.log == old(host.log) + SassFilesRun(Settings(), host.oracle, files, path, createMap).actions
      ensures err == SassFilesRun(Settings(), host.oracle, files, path, createMap).error
    {
      ghost var st := Settings();
      ghost var log0 := host.log;
      var i := 0;
      while i < |files|
        invariant 0 <= i <= |files|
        invariant host.log == log0 + SassFilesRun(st, host.oracle, files[..i], path, createMap).actions
        invariant SassFilesRun(st, host.oracle, files[..i], path, createMap).error.None?
      {
        assert files[..i + 1][..i] == files[..i];
        ghost var before := SassFilesRun(st, host.oracle, files[..i], path, createMap);
        ghost var step := SassRun(st, host.oracle, files[i], path, createMap);
        assert SassFilesRun(st, host.oracle, files[..i + 1], path, createMap) == Then(before, step);
        err := CompilesSass(host, files[i], path, createMap);
        assert host.log == log0 + before.actions + step.actions;
        assert log0 + before.actions + step.actions == log0 + (before.actions + step.actions);
        i := i + 1;
        if err.Some? {
          SassFilesErrorSticks(st, host.oracle, files, i, path, createMap);
          return;
        }
      }
      assert files[..i] == files;
      err := None;
    }

    /** One manifest entry: copy marker, environment filter, type check, required fields, dispatch. */
    method BuildEntry(host: Host, environment: string, path: string, spec: Spec) returns (err: Option<AssetsError>)
      modifies host`log
      ensures host.log == old(host.log) + EntryRun(Settings(), host.oracle, environment, path, spec).actions
      ensures err == EntryRun(Settings(), host.oracle, environment, path, spec).error
    {
      if spec.Marker? {
        if spec.name == CopyType {
          host.Perform(Copy(sourceDirectory + "/" + path, destinationDirectory + "/" + path));
          return None;
        }
        return Some(NoType(path));
      }
      if spec.env.Some? && spec.env.value != environment {
        return None;
      }
      if spec.kind.None? {
        return Some(NoType(path));
      }
      var isDebug := environment == Debug;
      var kind := spec.kind.value;
      if kind == LessType {
        if spec.file.None? {
          return Some(NoFile(path));
        }
        err := CompilesLess(host, spec.file.value, path, isDebug);
      } else if kind == SassType {
        if spec.file.None? && spec.files.None? {
          return Some(NoFileOrFiles(path));
        }
        err := CompilesSassFiles(host, if spec.files.Some? then spec.files.value else [spec.file.value], path, isDebug);
      } else if kind == UglifyJsType {
        if spec.files.None? {
          return Some(NoFiles(path));
        }
        err := CompilesJs(host, spec.files.value, path, isDebug);
      } else if kind == RollupType {
        if spec.file.None? {
          return Some(NoFile(path));
        }
        err := CompilesRollup(host, spec.file.value, path, isDebug);
      } else {
        err := None;
      }
    }

    /** buildAssets(): delete the destination if present, then every entry in order until one fails. */
    method BuildAssets(host: Host, environment: string) returns (err: Option<AssetsError>)
      modifies host`log
      ensures host.log == old(host.log) + BuildAssetsRun(Settings(), host.oracle, environment, config).actions
      ensures err == BuildAssetsRun(Settings(), host.oracle, environment, config).error
    {
      if destinationDirectory in host.oracle.present {
        host.Perform(Delete(destinationDirectory));
      }
      ghost var log1 := host.log;
      err := BuildEntries(host, environment);
      assert host.log == log1 + Walk(Settings(), host.oracle, environment, config).actions;
    }

    /** buildAssets' loop over the manifest entries, stopping at the first failure. */
    method BuildEntries(host: Host, environment: string) returns (err: Option<AssetsError>)
      modifies host`log
      ensures host.log == old(host.log) + Walk(Settings(), host.oracle, environment, config).actions
      ensures err == Walk(Settings(), host.oracle, environment, config).error
    {
      ghost var st := Settings();
      ghost var log0 := host.log;
      var i := 0;
      while i < |config|
        invariant 0 <= i <= |config|
        invariant host.log == log0 + Walk(st, host.oracle, environment, config[..i]).actions
        invariant Walk(st, host.oracle, environment, config[..i]).error.None?
      {
        ghost var before := Walk(st, host.oracle, environment, config[..i]).actions;
        ghost var step;
        err, step := BuildNext(host, environment, i);
        assert log0 + before + step == log0 + (before + step);
        i := i + 1;
        if err.Some? {
          WalkErrorSticks(st, host.oracle, environment, config, i);
          return;
        }
      }
      assert config[..i] == config;
      err := None;
    }

    /** One pass of that loop: entry `i`, after entries that all succeeded. */
    method BuildNext(host: Host, environment: string, i: nat) returns (err: Option<AssetsError>, ghost step: seq<Action>)
      requires i < |config| && Walk(Settings(), host.oracle, environment, config[..i]).error.None?
      modifies host`log
      ensures var before := Walk(Settings(), host.oracle, environment, config[..i]);
              var after := Walk(Settings(), host.oracle, environment, config[..i + 1]);
              err == after.error && after.actions == before.actions + step && host.log == old(host.log) + step
    {
      WalkStep(Settings(), host.oracle, environment, config, i);
      step := EntryRun(Settings(), host.oracle, environment, config[i].0, config[i].1).actions;
      err := BuildEntry(host, environment, config[i].0, config[i].1);
    }

    /** buildDebug's scan: pathname => mtime of every file that is not a directory and not the lock file. */
    method CollectMtimes(host: Host, lockPath: string) returns (files: seq<(string, int)>)
      ensures files == ScanMtimes(host.oracle, lockPath, host.oracle.tree)
    {
      var tree := host.oracle.tree;
      files := [];
      var i := 0;
      while i < |tree|
        invariant 0 <= i <= |tree|
        invariant files == ScanMtimes(host.oracle, lockPath, tree[..i])
      {
        assert tree[..i + 1][..i] == tree[..i];
        var item := tree[i];
        if !item.isDir && host.oracle.realpath(item.pathname) != Some(lockPath) {
          files := files + [(item.pathname, item.mtime)];
        }
        i := i + 1;
      }
      assert tree[..i] == tree;
    }

    /** buildProduction's scan: the contents of the same files, concatenated. */
    method CollectContents(host: Host, lockPath: string) returns (contents: string)
      ensures contents == ScanContents(host.oracle, lockPath, host.oracle.tree)
    {
      var tree := host.oracle.tree;
      contents := "";
      var i := 0;
      while i < |tree|
        invariant 0 <= i <= |tree|
        invariant contents == ScanContents(host.oracle, lockPath, tree[..i])
      {
        assert tree[..i + 1][..i] == tree[..i];
        var item := tree[i];
        if !item.isDir && host.oracle.realpath(item.pathname) != Some(lockPath) {
          contents := contents + item.contents;
        }
        i := i + 1;
      }
      assert tree[..i] == tree;
    }

    /** buildDebug(): rebuild and record the new fingerprint only when it differs from the stored one. */
    method BuildDebug(host: Host, configFile: string, destination: string) returns (err: Option<AssetsError>)
      modifies this`configFile, this`destinationDirectory, host`log, host`hashes, host`locked
      ensures var b := DebugRun(host.oracle, config, old(Settings()), lockFile, configFile, destination, old(host.hashes));
              host.log == old(host.log) + b.actions && host.hashes == b.hashes && err == b.error
              && host.locked == (if LockHeld(host.oracle) then b.locked else old(host.locked))
      ensures LockStep(host.oracle, lockFile).Success? && sourceDirectory in host.oracle.present ==>
                this.configFile == configFile && destinationDirectory == RTrim(destination, Slashes)
    {
      var lockPath := Lock(host);
      if lockPath.Failure? {
        return Some(lockPath.error);
      }
      ghost var log1 := host.log;
      err := Setup(host, configFile, destination);
      if err.Some? {
        return;
      }
      err := RebuildDebug(host, lockPath.value);
      assert host.log == log1 + (host.log[|log1|..]);
    }

    /** buildDebug's body after lock() and setup(). */
    method RebuildDebug(host: Host, lockPath: string) returns (err: Option<AssetsError>)
      modifies host`log, host`hashes, host`locked
      ensures var b := DebugRebuild(host.oracle, config, Settings(), lockPath, configFile, old(host.hashes));
              host.log == old(host.log) + b.actions && host.hashes == b.hashes && err == b.error
              && host.locked == (b.locked && old(host.locked))
    {
      err := None;
      var oldHash := host.ReadHash(configFile);
      var files := CollectMtimes(host, lockPath);
      var o := host.oracle;
      var newHash := o.md5(o.serializeConfig(config) + localSourceDirectory.GetOr("") + o.serializeFiles(files));
      assert newHash == DebugHash(o, config, Settings(), lockPath);
      if oldHash != Some(newHash) {
        err := RebuildAndRecord(host, newHash);
      } else {
        host.ReleaseLock();
      }
    }

    /** buildDebug's rebuild on a changed fingerprint: build, then store the new hash and unlock. */
    method RebuildAndRecord(host: Host, newHash: string) returns (err: Option<AssetsError>)
      modifies host`log, host`hashes, host`locked
      ensures var b := BuildAssetsRun(Settings(), host.oracle, Debug, config);
              err == b.error
              && (b.error.Some? ==> host.log == old(host.log) + b.actions && host.hashes == old(host.hashes)
                                    && host.locked == old(host.locked))
              && (b.error.None? ==> host.log == old(host.log) + b.actions + [Action.WriteHash(configFile, newHash), Unlock]
                                    && host.hashes == old(host.hashes)[configFile := newHash] && !host.locked)
    {
      err := BuildAssets(host, Debug);
      if err.Some? {
        return;
      }
      host.WriteHash(configFile, newHash);
      host.ReleaseLock();
    }

    /** buildProduction(): always rebuild, then record the md5 of the source files' contents. */
    method BuildProduction(host: Host, configFile: string, destination: string) returns (err: Option<AssetsError>)
      modifies this`configFile, this`destinationDirectory, host`log, host`hashes, host`locked
      ensures var b := ProductionRun(host.oracle, config, old(Settings()), lockFile, configFile, destination, old(host.hashes));
              host.log == old(host.log) + b.actions && host.hashes == b.hashes && err == b.error
              && host.locked == (if LockHeld(host.oracle) then b.locked else old(host.locked))
      ensures LockStep(host.oracle, lockFile).Success? && sourceDirectory in host.oracle.present ==>
                this.configFile == configFile && destinationDirectory == RTrim(destination, Slashes)
    {
      var lockPath := Lock(host);
      if lockPath.Failure? {
        return Some(lockPath.error);
      }
      err := Setup(host, configFile, destination);
      if err.Some? {
        return;
      }
      err := RebuildProduction(host, lockPath.value);
    }

    /** buildProduction's body after lock() and setup(). */
    method RebuildProduction(host: Host, lockPath: string) returns (err: Option<AssetsError>)
      modifies host`log, host`hashes, host`locked
      ensures var b := ProductionRebuild(host.oracle, config, Settings(), lockPath, configFile, old(host.hashes));
              host.log == old(host.log) + b.actions && host.hashes == b.hashes && err == b.error
              && host.locked == (b.locked && old(host.locked))
    {
      err := BuildAssets(host, Production);
      if err.Some? {
        return;
      }
      var contents := CollectContents(host, lockPath);
      host.WriteHash(configFile, host.oracle.md5(contents));
      host.ReleaseLock();
    }
  }
}
