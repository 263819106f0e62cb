/**
 * The older asset builder (namespace Forrest79\PhpDeploy): no lock, a `setup()`
 * call that must precede the builds, a Neon file holding the fingerprint, and
 * three entry types (copy, less through lessc, js through uglifyjs). Commands run
 * without a working-directory change and errors are exceptions with a message.
 */
module LegacyAssetsModel {
  import opened Wrappers
  import opened PhpStrings
  import AssetsModel

  const Debug := "debug"
  const Production := "production"
  const CopyType := "copy"
  const LessType := "less"
  const JsType := "js"

  /** rtrim's character list in setup(). */
  const Slashes: set<char> := {'\\', '/'}

  /** The `files` value of a record: a list, or a single string that `(array)` turns into a one-element list. */
  datatype FilesValue = List(items: seq<string>) | Single(item: string)

  /** A manifest value: a bare string (its own type), or a record with optional keys. */
  datatype Spec = Name(name: string) | Record(kind: Option<string>, file: Option<string>, files: Option<FilesValue>, env: Option<string>)

  type Manifest = seq<(string, Spec)>

  /** One observable effect, in the order the builder performs it. */
  datatype Action =
    | Delete(path: string)
    | Copy(source: string, destination: string)
    | CreateDir(path: string)
    | Exec(command: string)
    | ReadNeon(configFile: string)
    | WriteNeon(configFile: string, contents: string)

  /** The two exception classes the builder throws, with their messages. */
  datatype Error = Runtime(message: string) | InvalidArgument(message: string)

  /**
   * The parts of the environment the model does not compute: which paths exist,
   * the recursive directory scan, process results, md5, serialize and the Neon
   * decoder (the hash at parameters.assets.hash of a file's text, if set).
   */
  datatype Oracle = Oracle(present: set<string>, tree: seq<AssetsModel.Item>,
                           exitCode: string -> int, output: string -> seq<string>,
                           md5: string -> string, serializeFiles: seq<(string, int)> -> string,
                           neonHash: string -> Option<string>)

  /** The fields setup() assigns, and whether it has run. */
  datatype Settings = Settings(isSetUp: bool, configFile: string, source: string, destination: string)

  datatype Run = Run(actions: seq<Action>, error: Option<Error>)

  /** Run `second` after `first` unless `first` threw. */
  function Then(first: Run, second: Run): (r: Run)
    ensures first.error.Some? ==> r == first
    ensures first.error.None? ==> r.actions == first.actions + second.actions && r.error == second.error
  {
    if first.error.Some? then first else Run(first.actions + second.actions, second.error)
  }

  // ---------------------------------------------------------------- messages

  const SetupFirstMessage := "Run setup() first."
  const SourceMissingMessage := "Assets source directory doen't exists."

  /** An unset array key reads as NULL, which concatenates as the empty string. */
  const UnsetKeyText := ""

  /** The no-type message as written: it reads the missing `type` key, so the path is never named. */
  function NoTypeMessageAsWritten(path: string): string {
    "Path '" + UnsetKeyText + "' has no type defined."
  }

  /** The no-type message naming the entry's path, as the newer builder words it. */
  function NoTypeMessage(path: string): string {
    "Path '" + path + "' has no type defined."
  }

  function NoFileMessage(path: string): string {
    "No file defined for '" + path + "'."
  }

  function NoFilesMessage(path: string): string {
    "No files defined for '" + path + "'."
  }

  function CompileMessage(language: string, command: string, output: seq<string>): string {
    "Error while compiling " + language + " (" + command + "): " + Join("\n", output)
  }

  /** As written, two entries without a type at different paths throw the same message. */
  lemma NoTypeMessageAsWrittenHidesPath(p: string, q: string)
    ensures NoTypeMessageAsWritten(p) == NoTypeMessageAsWritten(q) == "Path '' has no type defined."
  {
  }

  /** The corrected message names the path: it can be read back, so different paths give different messages. */
  lemma NoTypeMessageNamesPath(p: string, q: string)
    ensures NoTypeMessage(p)[6..|NoTypeMessage(p)| - 22] == p
    ensures NoTypeMessage(p) == NoTypeMessage(q) ==> p == q
  {
    var m := NoTypeMessage(p);
    assert m == "Path '" + p + "' has no type defined.";
    assert m[6..|m| - 22] == p;
    var n := NoTypeMessage(q);
    assert n[6..|n| - 22] == q;
  }

  // ---------------------------------------------------------------- Neon store

  /** writeNeon's text. */
  function NeonText(hash: string): string {
    "parameters:\n\tassets:\n\t\thash: " + hash + "\n"
  }

  /** The written text has the fixed layout and the hash can be cut back out of it. */
  lemma NeonTextLayout(hash: string)
    ensures var t := NeonText(hash);
            |t| == |hash| + 30 && t[..29] == "parameters:\n\tassets:\n\t\thash: "
            && t[29..|t| - 1] == hash && t[|t| - 1] == '\n'
  {
    var t := NeonText(hash);
    assert t[..29] == "parameters:\n\tassets:\n\t\thash: ";
    assert t[29..|t| - 1] == hash;
  }

  /** The Neon file store: a configuration file's text, if the file exists. */
  type Files = map<string, string>

  /** readNeon(): NULL when the file is absent, otherwise whatever the decoder finds at the key. */
  function StoredHash(o: Oracle, files: Files, configFile: string): Option<string> {
    if configFile in files then o.neonHash(files[configFile]) else None
  }

  // ---------------------------------------------------------------- commands

  /** The less map path: the destination up to its last '.', or nothing when it has no '.'. */
  function MapStem(destination: string): string {
    match LastIndexOf(destination, '.')
    case None => ""
    case Some(i) => destination[..i]
  }

  function LessCommand(st: Settings, sourceFile: string, destinationFile: string, createMap: bool): string {
    var source := st.source + "/" + sourceFile;
    var destination := st.destination + "/" + destinationFile;
    "lessc --clean-css " + (if createMap then "--source-map=" + MapStem(destination) + ".map " else "")
      + source + " " + destination + " 2>&1"
  }

  /** array_walk's effect: every source prefixed with the source directory. */
  function PrefixSources(st: Settings, sourceFiles: seq<string>): (r: seq<string>)
    ensures |r| == |sourceFiles|
    decreases |sourceFiles|
  {
    if |sourceFiles| == 0 then []
    else PrefixSources(st, sourceFiles[..|sourceFiles| - 1]) + [st.source + "/" + sourceFiles[|sourceFiles| - 1]]
  }

  /** Each prefixed source is the original one below the source directory. */
  lemma {:induction false} PrefixSourcesAt(st: Settings, sourceFiles: seq<string>, i: nat)
    requires i < |sourceFiles|
    ensures PrefixSources(st, sourceFiles)[i] == st.source + "/" + sourceFiles[i]
    decreases |sourceFiles|
  {
    if i < |sourceFiles| - 1 {
      assert sourceFiles[..|sourceFiles| - 1][i] == sourceFiles[i];
      PrefixSourcesAt(st, sourceFiles[..|sourceFiles| - 1], i);
    }
  }

  /** A list prefixed element by element is exactly PrefixSources of the originals. */
  lemma PrefixSourcesIsPrefixAll(st: Settings, sourceFiles: seq<string>, prefixed: seq<string>)
    requires |prefixed| == |sourceFiles|
    requires forall i :: 0 <= i < |sourceFiles| ==> prefixed[i] == st.source + "/" + sourceFiles[i]
    ensures prefixed == PrefixSources(st, sourceFiles)
  {
    forall i | 0 <= i < |sourceFiles|
      ensures prefixed[i] == PrefixSources(st, sourceFiles)[i]
    {
      PrefixSourcesAt(st, sourceFiles, i);
    }
  }

  function JsCommand(st: Settings, sourceFiles: seq<string>, destinationFile: string, createMap: bool): string {
    "uglifyjs " + Join(" ", PrefixSources(st, sourceFiles)) + " -o " + st.destination + "/" + destinationFile
      + " --compress " + (if createMap then "--source-map " else "") + "2>&1"
  }

  // ---------------------------------------------------------------- adapters

  /** exec() of a command: a non-zero exit throws a RuntimeException naming the language, command and output. */
  function ExecRun(o: Oracle, command: string, language: string): Run {
    Run([Exec(command)],
        if o.exitCode(command) != 0 then Some(Runtime(CompileMessage(language, command, o.output(command)))) else None)
  }

  function LessRun(st: Settings, o: Oracle, sourceFile: string, path: string, createMap: bool): Run {
    Then(Run([CreateDir(Dirname(st.destination + "/" + path))], None),
         ExecRun(o, LessCommand(st, sourceFile, path, createMap), "less"))
  }

  function JsRun(st: Settings, o: Oracle, sourceFiles: seq<string>, path: string, createMap: bool): Run {
    Then(Run([CreateDir(Dirname(st.destination + "/" + path))], None),
         ExecRun(o, JsCommand(st, sourceFiles, path, createMap), "js"))
  }

  /** `(array) $data['files']`. */
  function AsList(files: FilesValue): seq<string> {
    match files
    case List(items) => items
    case Single(item) => [item]
  }

  // ---------------------------------------------------------------- manifest walk

  /** The type switch of one entry; a bare string has no `file` or `files` key. */
  function EntryRun(st: Settings, o: Oracle, environment: string, path: string, spec: Spec): Run {
    var isDebug := environment == Debug;
    if spec.Record? && spec.env.Some? && spec.env.value != environment then Run([], None)
    else if spec.Record? && spec.kind.None? then Run([], Some(InvalidArgument(NoTypeMessageAsWritten(path))))
    else
      var kind := if spec.Record? then spec.kind.value else spec.name;
      if kind == CopyType then Run([Copy(st.source + "/" + path, st.destination + "/" + path)], None)
      else if kind == LessType then
        if spec.Name? || spec.file.None? then Run([], Some(InvalidArgument(NoFileMessage(path))))
        else LessRun(st, o, spec.file.value, path, isDebug)
      else if kind == JsType then
        if spec.Name? || spec.files.None? then Run([], Some(InvalidArgument(NoFilesMessage(path))))
        else JsRun(st, o, AsList(spec.files.value), path, isDebug)
      else Run([], None)
  }

  function Walk(st: Settings, o: Oracle, environment: string, m: Manifest): Run
    decreases |m|
  {
    if |m| == 0 then Run([], None)
    else Then(Walk(st, o, environment, m[..|m| - 1]), EntryRun(st, o, environment, m[|m| - 1].0, m[|m| - 1].1))
  }

  lemma WalkStep(st: Settings, o: Oracle, environment: string, m: Manifest, i: nat)
    requires i < |m|
    ensures Walk(st, o, environment, m[..i + 1])
            == Then(Walk(st, o, environment, m[..i]), EntryRun(st, o, environment, m[i].0, m[i].1))
  {
    assert m[..i + 1][..i] == m[..i];
  }

  /** Once a prefix of the manifest throws, the later entries change nothing. */
  lemma {:induction false} WalkErrorSticks(st: Settings, o: Oracle, environment: string, m: Manifest, i: nat)
    requires i <= |m| && Walk(st, o, environment, m[..i]).error.Some?
    ensures Walk(st, o, environment, m) == Walk(st, o, environment, m[..i])
    decreases |m| - i
  {
    if i < |m| {
      assert m[..i + 1][..i] == m[..i];
      WalkErrorSticks(st, o, environment, m, i + 1);
    } else {
      assert m[..i] == m;
    }
  }

  function BuildAssetsRun(st: Settings, o: Oracle, environment: string, m: Manifest): Run {
    Then(Run(if st.destination in o.present then [Delete(st.destination)] else [], None), Walk(st, o, environment, m))
  }

  // ---------------------------------------------------------------- change detection

  /** buildDebug's $files: pathname => mtime of every item that is not a directory. */
  function ScanMtimes(tree: seq<AssetsModel.Item>): seq<(string, int)>
    decreases |tree|
  {
    if |tree| == 0 then []
    else
      var last := tree[|tree| - 1];
      ScanMtimes(tree[..|tree| - 1]) + (if !last.isDir then [(last.pathname, last.mtime)] else [])
  }

  /** buildProduction's $contents. */
  function ScanContents(tree: seq<AssetsModel.Item>): string
    decreases |tree|
  {
    if |tree| == 0 then ""
    else
      var last := tree[|tree| - 1];
      ScanContents(tree[..|tree| - 1]) + (if !last.isDir then last.contents else "")
  }

  function DebugHash(o: Oracle): string {
    o.md5(o.serializeFiles(ScanMtimes(o.tree)))
  }

  // ---------------------------------------------------------------- entry points

  /** The end of a build call: its actions, its exception and the Neon file store. */
  datatype Build = Build(actions: seq<Action>, error: Option<Error>, files: Files)

  /** buildDebug(): setup check, read the stored hash, source check, fingerprint, rebuild and write on change. */
  function DebugRun(o: Oracle, m: Manifest, st: Settings, files: Files): Build {
    if !st.isSetUp then Build([], Some(Runtime(SetupFirstMessage)), files)
    else if st.source !in o.present then Build([ReadNeon(st.configFile)], Some(Runtime(SourceMissingMessage)), files)
    else
      var b := DebugRebuild(o, m, st, files);
      b.(actions := [ReadNeon(st.configFile)] + b.actions)
  }

  /** buildDebug after the old hash is read and the source directory found. */
  function DebugRebuild(o: Oracle, m: Manifest, st: Settings, files: Files): Build {
    var newHash := DebugHash(o);
    if StoredHash(o, files, st.configFile) == Some(newHash) then Build([], None, files)
    else
      var b := BuildAssetsRun(st, o, Debug, m);
      if b.error.Some? then Build(b.actions, b.error, files)
      else Build(b.actions + [WriteNeon(st.configFile, NeonText(newHash))], None,
                 files[st.configFile := NeonText(newHash)])
  }

  /** buildProduction(): setup check, source check, rebuild, write the md5 of the contents. */
  function ProductionRun(o: Oracle, m: Manifest, st: Settings, files: Files): Build {
    if !st.isSetUp then Build([], Some(Runtime(SetupFirstMessage)), files)
    else if st.source !in o.present then Build([], Some(Runtime(SourceMissingMessage)), files)
    else ProductionRebuild(o, m, st, files)
  }

  function ProductionRebuild(o: Oracle, m: Manifest, st: Settings, files: Files): Build {
    var b := BuildAssetsRun(st, o, Production, m);
    if b.error.Some? then Build(b.actions, b.error, files)
    else
      var text := NeonText(o.md5(ScanContents(o.tree)));
      Build(b.actions + [WriteNeon(st.configFile, text)], None, files[st.configFile := text])
  }
}
