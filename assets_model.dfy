/**
 * The asset build of src/Assets.php as pure functions: the manifest, the
 * commands each adapter runs, the manifest walk, the fingerprint scan and the
 * two build entry points, each producing the ordered list of observable
 * actions (lock, hash-store reads and writes, deletes, copies, directory
 * creation, process runs, map rewrites) and the error that ends it, if any.
 * Class Assets (assets.dfy) performs these actions and is proved to match.
 */
module AssetsModel {
  import opened Wrappers
  import opened PhpStrings

  const Debug := "debug"
  const Production := "production"

  const CopyType := "copy"
  const LessType := "less"
  const SassType := "sass"
  const UglifyJsType := "uglifyjs"
  const RollupType := "rollup"

  const DefaultSystemBinPath := "/usr/bin:/bin"

  /** The characters rtrim strips from directory names. */
  const Slashes: set<char> := {'\\', '/'}

  /** A manifest value: a bare string (only "copy" is meaningful) or a record. */
  datatype Spec =
    | Marker(name: string)
    | Record(kind: Option<string>, file: Option<string>, files: Option<seq<string>>, env: Option<string>)

  /** The manifest: destination path relative to the output root, and its spec, in order. */
  type Manifest = seq<(string, Spec)>

  /** One entry of the recursive scan of the source directory. */
  datatype Item = Item(pathname: string, isDir: bool, mtime: int, contents: string)

  /** What the build does to the outside world, in the order it does it. */
  datatype Action =
    | Lock(lockFile: string)
    | Unlock
    | ReadHash(configFile: string)
    | WriteHash(configFile: string, hash: string)
    | Delete(path: string)
    | Copy(source: string, destination: string)
    | CreateDir(path: string)
    | Exec(command: string)
    | WriteFile(path: string, contents: string)

  datatype AssetsError =
    | LockOpenFailed(lockFile: string)
    | LockAcquireFailed(lockFile: string)
    | LockMissing
    | SourceMissing
    | NoType(path: string)
    | NoFile(path: string)
    | NoFileOrFiles(path: string)
    | NoFiles(path: string)
    | CompileFailed(kind: string, command: string, output: string)
    | MapMissing(mapFile: string)

  /**
   * Everything the build learns from outside: which paths exist, whether the
   * lock file opens and locks, realpath, the scan of the source tree, the exit
   * code and output of every command, the contents of generated map files,
   * and md5/serialize, which the model does not interpret.
   */
  datatype Oracle = Oracle(
    present: set<string>,
    canOpen: bool,
    canFlock: bool,
    realpath: string -> Option<string>,
    tree: seq<Item>,
    exitCode: string -> int,
    output: string -> seq<string>,
    readFile: string -> Option<string>,
    md5: string -> string,
    serializeConfig: Manifest -> string,
    serializeFiles: seq<(string, int)> -> string)

  /** The fields of an Assets object that the walk reads. */
  datatype Settings = Settings(source: string, destination: string, binPath: string, localSource: Option<string>)

  /** A finished step: the actions it performed and the error that stopped it, if any. */
  datatype Run = Run(actions: seq<Action>, error: Option<AssetsError>)

  /** Run `second` after `first` unless `first` failed. */
  function Then(first: Run, second: Run): (r: Run)
    ensures first.error.Some? ==> r == first
    ensures first.error.None? ==> r.actions == first.actions + second.actions && r.error == second.error
  {
    if first.error.Some? then first else Run(first.actions + second.actions, second.error)
  }

  lemma ThenAssociative(a: Run, b: Run, c: Run)
    ensures Then(Then(a, b), c) == Then(a, Then(b, c))
  {
    if a.error.None? && b.error.None? {
      assert (a.actions + b.actions) + c.actions == a.actions + (b.actions + c.actions);
    }
  }

  // ---------------------------------------------------------------- commands

  /** npxCommand: run a package binary through npx with a constrained PATH. */
  function NpxCommand(st: Settings, cmd: string): string {
    "PATH=" + st.binPath + " npx " + cmd
  }

  /** exec's wrapping: run in the source directory with stderr folded into stdout. */
  function ShellCommand(st: Settings, cmd: string): string {
    "(cd " + st.source + " && " + cmd + " 2>&1)"
  }

  /** The wrapped command can be taken apart again: the prefix names the source directory,
      the middle is the command itself and the suffix folds stderr into stdout. */
  lemma ShellCommandParts(st: Settings, cmd: string)
    ensures var r := ShellCommand(st, cmd);
            |r| == |st.source| + |cmd| + 14 && StartsWith(r, "(cd " + st.source + " && ")
            && r[|st.source| + 8..|r| - 6] == cmd && r[|r| - 6..] == " 2>&1)"
  {
    var r := ShellCommand(st, cmd);
    assert r[..|st.source| + 8] == "(cd " + st.source + " && ";
  }

  /** prepareDestinationPath's result. */
  function DestinationPath(st: Settings, relative: string): string {
    st.destination + "/" + relative
  }

  function LessMapOption(st: Settings, sourceFile: string, createMap: bool): string {
    if createMap then
      var mapSource := match st.localSource
        case Some(local) => local + "/" + sourceFile
        case None => sourceFile;
      "--source-map --source-map-rootpath=file:///" + Dirname(mapSource) + " "
    else ""
  }

  function LessCommand(st: Settings, sourceFile: string, destination: string, createMap: bool): string {
    NpxCommand(st, "node-sass") + " --clean-css=\"--keepSpecialComments=0\" "
      + LessMapOption(st, sourceFile, createMap) + sourceFile + " " + destination
  }

  function SassCommand(st: Settings, sourceFile: string, destination: string, createMap: bool): string {
    NpxCommand(st, "node-sass") + " " + sourceFile + " --quiet --output-style=compressed --output=\""
      + destination + "\"" + (if createMap then " --source-map true --source-map-contents true" else "")
  }

  function JsCommand(st: Settings, sourceFiles: seq<string>, destination: string, createMap: bool): string {
    NpxCommand(st, "uglifyjs") + " " + Join(" ", sourceFiles) + " -o " + destination + " --compress "
      + (if createMap then "--source-map url=" + Basename(destination) + ".map " else "")
  }

  function RollupCommand(st: Settings, sourceFile: string, destination: string, createMap: bool): string {
    "INPUT_FILE=" + sourceFile + " OUTPUT_FILE=" + destination + " SOURCE_MAP=" + (if createMap then "1" else "0")
      + " " + NpxCommand(st, "rollup") + " -c"
  }

  // ---------------------------------------------------------------- adapters

  /** exec: run the wrapped command; a non-zero exit is a compile error with command and output. */
  function ExecRun(st: Settings, o: Oracle, cmd: string, kind: string): Run {
    var full := ShellCommand(st, cmd);
    Run([Exec(full)], if o.exitCode(full) != 0 then Some(CompileFailed(kind, full, Join("\n", o.output(full)))) else None)
  }

  /** prepareDestinationPath's effect: the directory of the destination is created. */
  function PrepareRun(st: Settings, relative: string): Run {
    Run([CreateDir(Dirname(DestinationPath(st, relative)))], None)
  }

  function LessRun(st: Settings, o: Oracle, sourceFile: string, path: string, createMap: bool): Run {
    Then(PrepareRun(st, path), ExecRun(st, o, LessCommand(st, sourceFile, DestinationPath(st, path), createMap), "css-less"))
  }

  function SassRun(st: Settings, o: Oracle, sourceFile: string, path: string, createMap: bool): Run {
    Then(PrepareRun(st, path), ExecRun(st, o, SassCommand(st, sourceFile, DestinationPath(st, path), createMap), "css-sass"))
  }

  /** The sass adapter once per listed file, in order, into the same destination. */
  function SassFilesRun(st: Settings, o: Oracle, sourceFiles: seq<string>, path: string, createMap: bool): Run
    decreases |sourceFiles|
  {
    if |sourceFiles| == 0 then Run([], None)
    else Then(SassFilesRun(st, o, sourceFiles[..|sourceFiles| - 1], path, createMap),
              SassRun(st, o, sourceFiles[|sourceFiles| - 1], path, createMap))
  }

  function RollupRun(st: Settings, o: Oracle, sourceFile: string, path: string, createMap: bool): Run {
    Then(PrepareRun(st, path), ExecRun(st, o, RollupCommand(st, sourceFile, DestinationPath(st, path), createMap), "js-rollup"))
  }

  /** The source-map entry of one JS source: its build-host path and the file:/// URI it becomes. */
  function MapSource(st: Settings, o: Oracle, sourceFile: string): (string, string) {
    var sourcePath := st.source + "/" + sourceFile;
    (sourcePath, "file:///" + match st.localSource
      case Some(local) => local + "/" + sourceFile
      case None => o.realpath(sourcePath).GetOr(""))
  }

  /** The strtr replacement table of compilesJs, in the order of the sources. */
  function MapSources(st: Settings, o: Oracle, sourceFiles: seq<string>): (r: seq<(string, string)>)
    ensures |r| == |sourceFiles|
    ensures forall i :: 0 <= i < |r| ==> r[i] == MapSource(st, o, sourceFiles[i])
    decreases |sourceFiles|
  {
    if |sourceFiles| == 0 then []
    else MapSources(st, o, sourceFiles[..|sourceFiles| - 1]) + [MapSource(st, o, sourceFiles[|sourceFiles| - 1])]
  }

  /** The map file rewrite after a successful uglifyjs run with a map. */
  function MapRewriteRun(st: Settings, o: Oracle, sourceFiles: seq<string>, destination: string): Run {
    var mapFile := destination + ".map";
    match o.readFile(mapFile)
    case None => Run([], Some(MapMissing(mapFile)))
    case Some(contents) => Run([WriteFile(mapFile, StrTr(contents, MapSources(st, o, sourceFiles)))], None)
  }

  function JsRun(st: Settings, o: Oracle, sourceFiles: seq<string>, path: string, createMap: bool): Run {
    var destination := DestinationPath(st, path);
    Then(Then(PrepareRun(st, path), ExecRun(st, o, JsCommand(st, sourceFiles, destination, createMap), "js-uglifyjs")),
         if createMap then MapRewriteRun(st, o, sourceFiles, destination) else Run([], None))
  }

  // ---------------------------------------------------------------- manifest walk

  /** One manifest entry: copy marker, environment filter, type check, required fields, dispatch. */
  function EntryRun(st: Settings, o: Oracle, environment: string, path: string, spec: Spec): Run {
    match spec
    case Marker(name) =>
      if name == CopyType then Run([Copy(st.source + "/" + path, st.destination + "/" + path)], None)
      else Run([], Some(NoType(path)))
    case Record(kind, file, files, env) =>
      if env.Some? && env.value != environment then Run([], None)
      else if kind.None? then Run([], Some(NoType(path)))
      else
        var createMap := environment == Debug;
        if kind.value == LessType then
          if file.None? then Run([], Some(NoFile(path))) else LessRun(st, o, file.value, path, createMap)
        else if kind.value == SassType then
          if file.None? && files.None? then Run([], Some(NoFileOrFiles(path)))
          else SassFilesRun(st, o, if files.Some? then files.value else [file.value], path, createMap)
        else if kind.value == UglifyJsType then
          if files.None? then Run([], Some(NoFiles(path))) else JsRun(st, o, files.value, path, createMap)
        else if kind.value == RollupType then
          if file.None? then Run([], Some(NoFile(path))) else RollupRun(st, o, file.value, path, createMap)
        else Run([], None)
  }

  /** The manifest entries in order, stopping at the first error. */
  function Walk(st: Settings, o: Oracle, environment: string, m: Manifest): Run
    decreases |m|
  {
    if |m| == 0 then Run([], None)
    else Then(Walk(st, o, environment, m[..|m| - 1]), EntryRun(st, o, environment, m[|m| - 1].0, m[|m| - 1].1))
  }

  /** Once the sass compiles of a prefix of the files fail, the later files change nothing. */
  lemma {:induction false} SassFilesErrorSticks(st: Settings, o: Oracle, files: seq<string>, i: nat, path: string, createMap: bool)
    requires i <= |files| && SassFilesRun(st, o, files[..i], path, createMap).error.Some?
    ensures SassFilesRun(st, o, files, path, createMap) == SassFilesRun(st, o, files[..i], path, createMap)
    decreases |files| - i
  {
    if i < |files| {
      assert files[..i + 1][..i] == files[..i];
      SassFilesErrorSticks(st, o, files, i + 1, path, createMap);
    } else {
      assert files[..i] == files;
    }
  }

  /** Once a prefix of the manifest fails, the later entries change nothing. */
  lemma {:induction false} WalkErrorSticks(st: Settings, o: Oracle, environment: string, m: Manifest, i: nat)
    requires i <= |m| && Walk(st, o, environment, m[..i]).error.Some?
    ensures Walk(st, o, environment, m) == Walk(st, o, environment, m[..i])
    decreases |m| - i
  {
    if i < |m| {
      assert m[..i + 1][..i] == m[..i];
      WalkErrorSticks(st, o, environment, m, i + 1);
    } else {
      assert m[..i] == m;
    }
  }

  /** One more entry of the manifest extends the walk of the prefix by that entry's run. */
  lemma WalkStep(st: Settings, o: Oracle, environment: string, m: Manifest, i: nat)
    requires i < |m|
    ensures Walk(st, o, environment, m[..i + 1])
            == Then(Walk(st, o, environment, m[..i]), EntryRun(st, o, environment, m[i].0, m[i].1))
  {
    assert m[..i + 1][..i] == m[..i];
  }

  /** buildAssets: delete the destination if it exists, then walk the manifest. */
  function BuildAssetsRun(st: Settings, o: Oracle, environment: string, m: Manifest): Run {
    Then(Run(if st.destination in o.present then [Delete(st.destination)] else [], None), Walk(st, o, environment, m))
  }

  // ---------------------------------------------------------------- change detection

  /** A scanned item counts unless it is a directory or resolves to the lock file. */
  predicate Scanned(o: Oracle, lockPath: string, item: Item) {
    !item.isDir && o.realpath(item.pathname) != Some(lockPath)
  }

  /** buildDebug's $files: pathname => mtime of every counted item, in scan order. */
  function ScanMtimes(o: Oracle, lockPath: string, tree: seq<Item>): seq<(string, int)>
    decreases |tree|
  {
    if |tree| == 0 then []
    else
      var last := tree[|tree| - 1];
      ScanMtimes(o, lockPath, tree[..|tree| - 1]) + (if Scanned(o, lockPath, last) then [(last.pathname, last.mtime)] else [])
  }

  /** buildProduction's $contents: the counted files' contents concatenated in scan order. */
  function ScanContents(o: Oracle, lockPath: string, tree: seq<Item>): string
    decreases |tree|
  {
    if |tree| == 0 then ""
    else
      var last := tree[|tree| - 1];
      ScanContents(o, lockPath, tree[..|tree| - 1]) + (if Scanned(o, lockPath, last) then last.contents else "")
  }

  /** The debug fingerprint: md5 of the serialized manifest, the local source directory and the mtimes. */
  function DebugHash(o: Oracle, m: Manifest, st: Settings, lockPath: string): string {
    o.md5(o.serializeConfig(m) + st.localSource.GetOr("") + o.serializeFiles(ScanMtimes(o, lockPath, o.tree)))
  }

  // ---------------------------------------------------------------- entry points

  /** The end of a build call: its actions, its error, the hash store and whether the lock is still held. */
  datatype Build = Build(actions: seq<Action>, error: Option<AssetsError>, hashes: map<string, string>, locked: bool)

  function StoredHash(hashes: map<string, string>, configFile: string): Option<string> {
    if configFile in hashes then Some(hashes[configFile]) else None
  }

  /** lock(): open and flock the lock file, then resolve it; the path is what the scan excludes. */
  function LockStep(o: Oracle, lockFile: string): Result<string, AssetsError> {
    if !o.canOpen then Failure(LockOpenFailed(lockFile))
    else if !o.canFlock then Failure(LockAcquireFailed(lockFile))
    else match o.realpath(lockFile)
      case None => Failure(LockMissing)
      case Some(path) => Success(path)
  }

  /** Whether lock() got as far as holding the lock. */
  predicate LockHeld(o: Oracle) {
    o.canOpen && o.canFlock
  }

  /**
   * buildDebug: lock, check the source directory, read the stored hash,
   * fingerprint the tree, rebuild and write the new hash only if it changed,
   * unlock. An error leaves the lock held (there is no finally).
   */
  function DebugRun(o: Oracle, m: Manifest, st0: Settings, lockFile: string, configFile: string,
                    destination: string, hashes: map<string, string>): Build
  {
    var locking := if LockHeld(o) then [Lock(lockFile)] else [];
    match LockStep(o, lockFile)
    case Failure(e) => Build(locking, Some(e), hashes, LockHeld(o))
    case Success(lockPath) =>
      if st0.source !in o.present then Build(locking, Some(SourceMissing), hashes, true)
      else
        var b := DebugRebuild(o, m, st0.(destination := RTrim(destination, Slashes)), lockPath, configFile, hashes);
        b.(actions := locking + b.actions)
  }

  /** buildDebug once locked and set up: compare the fingerprint with the stored one and rebuild on change. */
  function DebugRebuild(o: Oracle, m: Manifest, st: Settings, lockPath: string, configFile: string,
                        hashes: map<string, string>): Build
  {
    var newHash := DebugHash(o, m, st, lockPath);
    if StoredHash(hashes, configFile) == Some(newHash) then Build([ReadHash(configFile), Unlock], None, hashes, false)
    else
      var b := BuildAssetsRun(st, o, Debug, m);
      if b.error.Some? then Build([ReadHash(configFile)] + b.actions, b.error, hashes, true)
      else Build([ReadHash(configFile)] + b.actions + [WriteHash(configFile, newHash), Unlock], None,
                 hashes[configFile := newHash], false)
  }

  /** buildProduction: lock, check the source directory, always rebuild, then record a hash of the contents. */
  function ProductionRun(o: Oracle, m: Manifest, st0: Settings, lockFile: string, configFile: string,
                         destination: string, hashes: map<string, string>): Build
  {
    var locking := if LockHeld(o) then [Lock(lockFile)] else [];
    match LockStep(o, lockFile)
    case Failure(e) => Build(locking, Some(e), hashes, LockHeld(o))
    case Success(lockPath) =>
      if st0.source !in o.present then Build(locking, Some(SourceMissing), hashes, true)
      else
        var b := ProductionRebuild(o, m, st0.(destination := RTrim(destination, Slashes)), lockPath, configFile, hashes);
        b.(actions := locking + b.actions)
  }

  /** buildProduction once locked and set up: rebuild, then record the md5 of the counted files' contents. */
  function ProductionRebuild(o: Oracle, m: Manifest, st: Settings, lockPath: string, configFile: string,
                             hashes: map<string, string>): Build
  {
    var b := BuildAssetsRun(st, o, Production, m);
    if b.error.Some? then Build(b.actions, b.error, hashes, true)
    else
      var hash := o.md5(ScanContents(o, lockPath, o.tree));
      Build(b.actions + [WriteHash(configFile, hash), Unlock], None, hashes[configFile := hash], false)
  }
}
