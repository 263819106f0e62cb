/**
 * What src/Assets.php promises about its build, stated over the pure model:
 * when the hash store is read and written, that an unchanged tree is a no-op,
 * that errors stop the walk and leave the stored hash alone, how entries are
 * filtered and dispatched, and the exact commands the adapters run.
 */
module AssetsProperties {
  import opened Wrappers
  import opened PhpStrings
  import opened AssetsModel

  /** The actions a manifest walk may perform: none of them touches the lock or the hash store. */
  predicate BuildStep(a: Action) {
    a.Delete? || a.Copy? || a.CreateDir? || a.Exec? || a.WriteFile?
  }

  predicate AllBuildSteps(actions: seq<Action>) {
    forall i :: 0 <= i < |actions| ==> BuildStep(actions[i])
  }

  predicate WritesHash(actions: seq<Action>) {
    exists i :: 0 <= i < |actions| && actions[i].WriteHash?
  }

  lemma BuildStepsConcat(a: seq<Action>, b: seq<Action>)
    requires AllBuildSteps(a) && AllBuildSteps(b)
    ensures AllBuildSteps(a + b)
  {
    assert forall i :: |a| <= i < |a + b| ==> (a + b)[i] == b[i - |a|];
  }

  lemma ThenBuildSteps(r1: Run, r2: Run)
    requires AllBuildSteps(r1.actions) && AllBuildSteps(r2.actions)
    ensures AllBuildSteps(Then(r1, r2).actions)
  {
    if r1.error.None? { BuildStepsConcat(r1.actions, r2.actions); }
  }

  lemma {:induction false} SassFilesBuildSteps(st: Settings, o: Oracle, files: seq<string>, path: string, createMap: bool)
    ensures AllBuildSteps(SassFilesRun(st, o, files, path, createMap).actions)
    decreases |files|
  {
    if |files| > 0 {
      SassFilesBuildSteps(st, o, files[..|files| - 1], path, createMap);
      var f := files[|files| - 1];
      PrepareExecBuildSteps(st, o, path, SassCommand(st, f, DestinationPath(st, path), createMap), "css-sass");
      ThenBuildSteps(SassFilesRun(st, o, files[..|files| - 1], path, createMap), SassRun(st, o, f, path, createMap));
    }
  }

  lemma PrepareExecBuildSteps(st: Settings, o: Oracle, path: string, cmd: string, kind: string)
    ensures AllBuildSteps(Then(PrepareRun(st, path), ExecRun(st, o, cmd, kind)).actions)
  {
    ThenBuildSteps(PrepareRun(st, path), ExecRun(st, o, cmd, kind));
  }

  lemma JsBuildSteps(st: Settings, o: Oracle, files: seq<string>, path: string, createMap: bool)
    ensures AllBuildSteps(JsRun(st, o, files, path, createMap).actions)
  {
    var d := DestinationPath(st, path);
    var first := Then(PrepareRun(st, path), ExecRun(st, o, JsCommand(st, files, d, createMap), "js-uglifyjs"));
    PrepareExecBuildSteps(st, o, path, JsCommand(st, files, d, createMap), "js-uglifyjs");
    var second := if createMap then MapRewriteRun(st, o, files, d) else Run([], None);
    assert AllBuildSteps(second.actions);
    ThenBuildSteps(first, second);
  }

  lemma EntryBuildSteps(st: Settings, o: Oracle, environment: string, path: string, spec: Spec)
    ensures AllBuildSteps(EntryRun(st, o, environment, path, spec).actions)
  {
    var createMap := environment == Debug;
    if spec.Record? && (spec.env.None? || spec.env.value == environment) && spec.kind.Some? {
      var k := spec.kind.value;
      if k == LessType && spec.file.Some? {
        PrepareExecBuildSteps(st, o, path, LessCommand(st, spec.file.value, DestinationPath(st, path), createMap), "css-less");
      } else if k == SassType && (spec.file.Some? || spec.files.Some?) {
        SassFilesBuildSteps(st, o, if spec.files.Some? then spec.files.value else [spec.file.value], path, createMap);
      } else if k == UglifyJsType && spec.files.Some? {
        JsBuildSteps(st, o, spec.files.value, path, createMap);
      } else if k == RollupType && spec.file.Some? {
        PrepareExecBuildSteps(st, o, path, RollupCommand(st, spec.file.value, DestinationPath(st, path), createMap), "js-rollup");
      }
    }
  }

  /** A manifest walk never takes or releases the lock and never reads or writes the hash store. */
  lemma {:induction false} WalkOnlyBuildSteps(st: Settings, o: Oracle, environment: string, m: Manifest)
    ensures AllBuildSteps(Walk(st, o, environment, m).actions)
    decreases |m|
  {
    if |m| > 0 {
      WalkOnlyBuildSteps(st, o, environment, m[..|m| - 1]);
      EntryBuildSteps(st, o, environment, m[|m| - 1].0, m[|m| - 1].1);
      ThenBuildSteps(Walk(st, o, environment, m[..|m| - 1]), EntryRun(st, o, environment, m[|m| - 1].0, m[|m| - 1].1));
    }
  }

  lemma BuildAssetsOnlyBuildSteps(st: Settings, o: Oracle, environment: string, m: Manifest)
    ensures AllBuildSteps(BuildAssetsRun(st, o, environment, m).actions)
  {
    WalkOnlyBuildSteps(st, o, environment, m);
    ThenBuildSteps(Run(if st.destination in o.present then [Delete(st.destination)] else [], None), Walk(st, o, environment, m));
  }

  // ---------------------------------------------------------------- buildDebug

  /** The settings buildDebug and buildProduction walk with, once setup has stored the destination. */
  function SetUp(st0: Settings, destination: string): Settings {
    st0.(destination := RTrim(destination, Slashes))
  }

  /** When the stored hash equals the fresh fingerprint, buildDebug only locks, reads the hash and unlocks. */
  lemma DebugSkipsWhenUnchanged(o: Oracle, m: Manifest, st0: Settings, lockFile: string, configFile: string,
                                destination: string, hashes: map<string, string>)
    requires LockStep(o, lockFile).Success? && st0.source in o.present
    requires StoredHash(hashes, configFile) == Some(DebugHash(o, m, st0, LockStep(o, lockFile).value))
    ensures DebugRun(o, m, st0, lockFile, configFile, destination, hashes)
      == Build([Lock(lockFile), ReadHash(configFile), Unlock], None, hashes, false)
  {
  }

  /**
   * buildDebug writes a hash exactly when the stored one differs from the fresh
   * fingerprint and the rebuild finished; it is then the fresh fingerprint.
   */
  lemma DebugWritesHashIffRebuilt(o: Oracle, m: Manifest, st0: Settings, lockFile: string, configFile: string,
                                  destination: string, hashes: map<string, string>)
    requires LockStep(o, lockFile).Success? && st0.source in o.present
    ensures var b := DebugRun(o, m, st0, lockFile, configFile, destination, hashes);
            var newHash := DebugHash(o, m, st0, LockStep(o, lockFile).value);
            var rebuilt := StoredHash(hashes, configFile) != Some(newHash)
                           && BuildAssetsRun(SetUp(st0, destination), o, Debug, m).error.None?;
            (WritesHash(b.actions) <==> rebuilt)
            && b.hashes == (if rebuilt then hashes[configFile := newHash] else hashes)
  {
    var b := DebugRun(o, m, st0, lockFile, configFile, destination, hashes);
    var w := BuildAssetsRun(SetUp(st0, destination), o, Debug, m);
    var newHash := DebugHash(o, m, st0, LockStep(o, lockFile).value);
    var before := [Lock(lockFile), ReadHash(configFile)];
    if StoredHash(hashes, configFile) == Some(newHash) {
      assert b.actions == before + [Unlock];
      assert !WritesHash(b.actions);
    } else if w.error.Some? {
      assert b.actions == before + w.actions;
      NoHashWriteAfter(before, w.actions, SetUp(st0, destination), o, Debug, m);
    } else {
      assert b.actions == before + w.actions + [WriteHash(configFile, newHash), Unlock];
      assert b.actions[|before| + |w.actions|].WriteHash?;
    }
  }

  /** A prefix without hash writes followed by a rebuild writes no hash. */
  lemma NoHashWriteAfter(before: seq<Action>, rebuild: seq<Action>, st: Settings, o: Oracle, environment: string, m: Manifest)
    requires rebuild == BuildAssetsRun(st, o, environment, m).actions
    requires forall i :: 0 <= i < |before| ==> !before[i].WriteHash?
    ensures !WritesHash(before + rebuild)
  {
    BuildAssetsOnlyBuildSteps(st, o, environment, m);
    assert forall i :: |before| <= i < |before + rebuild| ==> (before + rebuild)[i] == rebuild[i - |before|];
  }

  /** A failing rebuild leaves the stored hash as it was and the lock held; nothing is unlocked. */
  lemma DebugFailureKeepsHash(o: Oracle, m: Manifest, st0: Settings, lockFile: string, configFile: string,
                              destination: string, hashes: map<string, string>)
    requires LockStep(o, lockFile).Success? && st0.source in o.present
    requires StoredHash(hashes, configFile) != Some(DebugHash(o, m, st0, LockStep(o, lockFile).value))
    requires BuildAssetsRun(SetUp(st0, destination), o, Debug, m).error.Some?
    ensures var b := DebugRun(o, m, st0, lockFile, configFile, destination, hashes);
            b.error == BuildAssetsRun(SetUp(st0, destination), o, Debug, m).error
            && b.hashes == hashes && b.locked && !WritesHash(b.actions) && Unlock !in b.actions
  {
    var w := BuildAssetsRun(SetUp(st0, destination), o, Debug, m);
    var before := [Lock(lockFile), ReadHash(configFile)];
    var b := DebugRun(o, m, st0, lockFile, configFile, destination, hashes);
    assert b.actions == before + w.actions;
    NoHashWriteAfter(before, w.actions, SetUp(st0, destination), o, Debug, m);
    BuildAssetsOnlyBuildSteps(SetUp(st0, destination), o, Debug, m);
    assert forall i :: 2 <= i < |b.actions| ==> b.actions[i] == w.actions[i - 2];
  }

  /** Calling buildDebug again on an unchanged tree after a successful call does nothing but lock, read and unlock. */
  lemma DebugIdempotent(o: Oracle, m: Manifest, st0: Settings, lockFile: string, configFile: string,
                        destination: string, hashes: map<string, string>)
    requires DebugRun(o, m, st0, lockFile, configFile, destination, hashes).error.None?
    ensures var first := DebugRun(o, m, st0, lockFile, configFile, destination, hashes);
            DebugRun(o, m, st0, lockFile, configFile, destination, first.hashes)
              == Build([Lock(lockFile), ReadHash(configFile), Unlock], None, first.hashes, false)
  {
    var first := DebugRun(o, m, st0, lockFile, configFile, destination, hashes);
    assert LockStep(o, lockFile).Success? && st0.source in o.present;
    assert StoredHash(first.hashes, configFile) == Some(DebugHash(o, m, st0, LockStep(o, lockFile).value));
    DebugSkipsWhenUnchanged(o, m, st0, lockFile, configFile, destination, first.hashes);
  }

  /** Errors before the walk: a lock that cannot be taken, or a missing source directory, stop the build. */
  lemma DebugEarlyErrors(o: Oracle, m: Manifest, st0: Settings, lockFile: string, configFile: string,
                         destination: string, hashes: map<string, string>)
    ensures var b := DebugRun(o, m, st0, lockFile, configFile, destination, hashes);
            (!o.canOpen ==> b == Build([], Some(LockOpenFailed(lockFile)), hashes, false))
            && (o.canOpen && !o.canFlock ==> b == Build([], Some(LockAcquireFailed(lockFile)), hashes, false))
            && (LockStep(o, lockFile).Success? && st0.source !in o.present
                ==> b == Build([Lock(lockFile)], Some(SourceMissing), hashes, true))
  {
  }

  // ---------------------------------------------------------------- buildProduction

  /**
   * buildProduction rebuilds whatever the store holds: right after the lock come
   * the rebuild's actions; on success the content hash is recorded and the lock released.
   */
  lemma ProductionAlwaysRebuilds(o: Oracle, m: Manifest, st0: Settings, lockFile: string, configFile: string,
                                 destination: string, hashes: map<string, string>)
    requires LockStep(o, lockFile).Success? && st0.source in o.present
    ensures var b := ProductionRun(o, m, st0, lockFile, configFile, destination, hashes);
            var w := BuildAssetsRun(SetUp(st0, destination), o, Production, m);
            |b.actions| >= 1 + |w.actions| && b.actions[0] == Lock(lockFile)
            && b.actions[1..1 + |w.actions|] == w.actions
            && b.error == w.error
            && (w.error.None? ==> b.hashes == hashes[configFile := o.md5(ScanContents(o, LockStep(o, lockFile).value, o.tree))] && !b.locked)
            && (w.error.Some? ==> b.hashes == hashes && b.locked)
  {
  }

  /** The stored hash has no influence on what buildProduction does. */
  lemma ProductionIgnoresStoredHash(o: Oracle, m: Manifest, st0: Settings, lockFile: string, configFile: string,
                                    destination: string, h1: map<string, string>, h2: map<string, string>)
    ensures ProductionRun(o, m, st0, lockFile, configFile, destination, h1).actions
            == ProductionRun(o, m, st0, lockFile, configFile, destination, h2).actions
    ensures ProductionRun(o, m, st0, lockFile, configFile, destination, h1).error
            == ProductionRun(o, m, st0, lockFile, configFile, destination, h2).error
  {
  }

  // ---------------------------------------------------------------- fingerprint scan

  /** The mtime table holds exactly the non-directory items that do not resolve to the lock file. */
  lemma {:induction false} ScanMtimesMembers(o: Oracle, lockPath: string, tree: seq<Item>)
    ensures forall p :: p in ScanMtimes(o, lockPath, tree) <==>
      exists j :: 0 <= j < |tree| && Scanned(o, lockPath, tree[j]) && p == (tree[j].pathname, tree[j].mtime)
    decreases |tree|
  {
    if |tree| > 0 {
      var init := tree[..|tree| - 1];
      ScanMtimesMembers(o, lockPath, init);
      assert forall j :: 0 <= j < |init| ==> init[j] == tree[j];
    }
  }

  /** Directories and the lock file can be added to the tree without changing the mtime table. */
  lemma {:induction false} ScanMtimesIgnoresUncounted(o: Oracle, lockPath: string, tree: seq<Item>, extra: Item)
    requires !Scanned(o, lockPath, extra)
    ensures ScanMtimes(o, lockPath, tree + [extra]) == ScanMtimes(o, lockPath, tree)
    ensures ScanContents(o, lockPath, tree + [extra]) == ScanContents(o, lockPath, tree)
  {
    assert (tree + [extra])[..|tree|] == tree;
  }

  // ---------------------------------------------------------------- manifest walk

  lemma {:induction false} WalkAppend(st: Settings, o: Oracle, environment: string, m1: Manifest, m2: Manifest)
    ensures Walk(st, o, environment, m1 + m2) == Then(Walk(st, o, environment, m1), Walk(st, o, environment, m2))
    decreases |m2|
  {
    if |m2| == 0 {
      assert m1 + m2 == m1;
    } else {
      var m := m1 + m2;
      assert m[..|m| - 1] == m1 + m2[..|m2| - 1];
      assert m[|m| - 1] == m2[|m2| - 1];
      WalkAppend(st, o, environment, m1, m2[..|m2| - 1]);
      var last := EntryRun(st, o, environment, m2[|m2| - 1].0, m2[|m2| - 1].1);
      ThenAssociative(Walk(st, o, environment, m1), Walk(st, o, environment, m2[..|m2| - 1]), last);
    }
  }

  /** When every entry succeeds, so does the walk. */
  lemma {:induction false} WalkSucceeds(st: Settings, o: Oracle, environment: string, m: Manifest)
    requires forall j :: 0 <= j < |m| ==> EntryRun(st, o, environment, m[j].0, m[j].1).error.None?
    ensures Walk(st, o, environment, m).error.None?
    decreases |m|
  {
    if |m| > 0 {
      WalkSucceeds(st, o, environment, m[..|m| - 1]);
    }
  }

  /**
   * The first failing entry ends the walk with its error: the actions are those
   * of the entries before it and its own, and no later entry runs.
   */
  lemma WalkStopsAtFirstError(st: Settings, o: Oracle, environment: string, m: Manifest, i: nat)
    requires i < |m|
    requires forall j :: 0 <= j < i ==> EntryRun(st, o, environment, m[j].0, m[j].1).error.None?
    requires EntryRun(st, o, environment, m[i].0, m[i].1).error.Some?
    ensures Walk(st, o, environment, m)
      == Run(Walk(st, o, environment, m[..i]).actions + EntryRun(st, o, environment, m[i].0, m[i].1).actions,
             EntryRun(st, o, environment, m[i].0, m[i].1).error)
  {
    WalkSucceeds(st, o, environment, m[..i]);
    assert m == m[..i + 1] + m[i + 1..];
    assert m[..i + 1][..i] == m[..i];
    WalkAppend(st, o, environment, m[..i + 1], m[i + 1..]);
  }

  // ---------------------------------------------------------------- entries

  /** A bare "copy" entry copies source/path to destination/path, whatever the environment. */
  lemma CopyMarkerCopies(st: Settings, o: Oracle, environment: string, path: string)
    ensures EntryRun(st, o, environment, path, Marker(CopyType))
            == Run([Copy(st.source + "/" + path, st.destination + "/" + path)], None)
  {
  }

  /** Filtering and type checks: another environment skips, a missing type fails naming the path,
      an unknown type (an array entry of type "copy" included) does nothing. */
  lemma RecordFilterAndType(st: Settings, o: Oracle, environment: string, path: string, spec: Spec)
    requires spec.Record?
    ensures spec.env.Some? && spec.env.value != environment
            ==> EntryRun(st, o, environment, path, spec) == Run([], None)
    ensures (spec.env.None? || spec.env.value == environment) && spec.kind.None?
            ==> EntryRun(st, o, environment, path, spec) == Run([], Some(NoType(path)))
    ensures (spec.env.None? || spec.env.value == environment) && spec.kind.Some?
            && spec.kind.value !in {LessType, SassType, UglifyJsType, RollupType}
            ==> EntryRun(st, o, environment, path, spec) == Run([], None)
  {
  }

  /** Each type's required fields: missing ones fail, naming the path, before anything runs. */
  lemma RequiredFields(st: Settings, o: Oracle, environment: string, path: string, spec: Spec)
    requires spec.Record? && (spec.env.None? || spec.env.value == environment) && spec.kind.Some?
    ensures (spec.kind.value == LessType || spec.kind.value == RollupType) && spec.file.None?
            ==> EntryRun(st, o, environment, path, spec) == Run([], Some(NoFile(path)))
    ensures spec.kind.value == SassType && spec.file.None? && spec.files.None?
            ==> EntryRun(st, o, environment, path, spec) == Run([], Some(NoFileOrFiles(path)))
    ensures spec.kind.value == UglifyJsType && spec.files.None?
            ==> EntryRun(st, o, environment, path, spec) == Run([], Some(NoFiles(path)))
  {
  }

  /** The sass compile of one file: the directory is prepared, then node-sass runs. */
  function SassSteps(st: Settings, sourceFile: string, path: string, createMap: bool): seq<Action> {
    [CreateDir(Dirname(DestinationPath(st, path))),
     Exec(ShellCommand(st, SassCommand(st, sourceFile, DestinationPath(st, path), createMap)))]
  }

  /** The steps of each file's compile, one file after the other. */
  function SassAllSteps(st: Settings, files: seq<string>, path: string, createMap: bool): seq<Action>
    decreases |files|
  {
    if |files| == 0 then []
    else SassAllSteps(st, files[..|files| - 1], path, createMap) + SassSteps(st, files[|files| - 1], path, createMap)
  }

  predicate SassCompiles(st: Settings, o: Oracle, sourceFile: string, path: string, createMap: bool) {
    o.exitCode(ShellCommand(st, SassCommand(st, sourceFile, DestinationPath(st, path), createMap))) == 0
  }

  lemma SassRunSucceeds(st: Settings, o: Oracle, sourceFile: string, path: string, createMap: bool)
    requires SassCompiles(st, o, sourceFile, path, createMap)
    ensures SassRun(st, o, sourceFile, path, createMap) == Run(SassSteps(st, sourceFile, path, createMap), None)
  {
  }

  /**
   * When every compile exits with 0, each listed file is compiled, in order,
   * into the same destination.
   */
  lemma {:induction false} SassCompilesEachFile(st: Settings, o: Oracle, files: seq<string>, path: string, createMap: bool)
    requires forall i :: 0 <= i < |files| ==> SassCompiles(st, o, files[i], path, createMap)
    ensures SassFilesRun(st, o, files, path, createMap) == Run(SassAllSteps(st, files, path, createMap), None)
    decreases |files|
  {
    if |files| > 0 {
      var init := files[..|files| - 1];
      assert forall i :: 0 <= i < |init| ==> init[i] == files[i];
      SassCompilesEachFile(st, o, init, path, createMap);
      SassRunSucceeds(st, o, files[|files| - 1], path, createMap);
    }
  }

  lemma SassFilesPrecedence(st: Settings, o: Oracle, environment: string, path: string, spec: Spec)
    requires spec.Record? && (spec.env.None? || spec.env.value == environment)
    requires spec.kind == Some(SassType) && spec.files.Some?
    ensures EntryRun(st, o, environment, path, spec) == SassFilesRun(st, o, spec.files.value, path, environment == Debug)
  {
  }

  /** A rollup entry prepares its destination directory and runs rollup with the map flag of its environment. */
  lemma RollupEntryCommand(st: Settings, o: Oracle, environment: string, path: string, spec: Spec)
    requires spec.Record? && (spec.env.None? || spec.env.value == environment)
    requires spec.kind == Some(RollupType) && spec.file.Some?
    ensures var d := DestinationPath(st, path);
            EntryRun(st, o, environment, path, spec).actions
            == [CreateDir(Dirname(d)), Exec(ShellCommand(st, RollupCommand(st, spec.file.value, d, environment == Debug)))]
  {
  }

  /** The rollup command carries SOURCE_MAP=1 exactly when a map is requested, SOURCE_MAP=0 otherwise. */
  lemma RollupSourceMapFlag(st: Settings, sourceFile: string, destination: string, createMap: bool)
    ensures var c := RollupCommand(st, sourceFile, destination, createMap);
            var k := |sourceFile| + |destination| + 36;
            k < |c| && c[k - 12..k] == " SOURCE_MAP=" && c[k] == (if createMap then '1' else '0')
  {
    var head := "INPUT_FILE=" + sourceFile + " OUTPUT_FILE=" + destination;
    var flag := if createMap then "1" else "0";
    var c := RollupCommand(st, sourceFile, destination, createMap);
    assert c == head + " SOURCE_MAP=" + flag + (" " + NpxCommand(st, "rollup") + " -c");
    assert |head| == |sourceFile| + |destination| + 24;
  }

  /** A less entry prepares its destination directory and runs the compiler; only debug adds map options. */
  lemma LessEntryCommand(st: Settings, o: Oracle, environment: string, path: string, spec: Spec)
    requires spec.Record? && (spec.env.None? || spec.env.value == environment)
    requires spec.kind == Some(LessType) && spec.file.Some?
    ensures var d := DestinationPath(st, path);
            EntryRun(st, o, environment, path, spec).actions
            == [CreateDir(Dirname(d)), Exec(ShellCommand(st, LessCommand(st, spec.file.value, d, environment == Debug)))]
    ensures environment != Debug ==> LessMapOption(st, spec.file.value, environment == Debug) == ""
    ensures environment == Debug ==> StartsWith(LessMapOption(st, spec.file.value, true), "--source-map --source-map-rootpath=file:///")
  {
  }

  /**
   * The uglifyjs adapter: in debug, after a successful run the map file beside
   * the output is rewritten with strtr, or its absence is an error; in production
   * nothing follows the run.
   */
  lemma JsEntryMap(st: Settings, o: Oracle, environment: string, path: string, files: seq<string>)
    requires o.exitCode(ShellCommand(st, JsCommand(st, files, DestinationPath(st, path), environment == Debug))) == 0
    ensures var r := JsRun(st, o, files, path, environment == Debug);
            var d := DestinationPath(st, path);
            var run := [CreateDir(Dirname(d)), Exec(ShellCommand(st, JsCommand(st, files, d, environment == Debug)))];
            var mapFile := d + ".map";
            (environment != Debug ==> r == Run(run, None))
            && (environment == Debug && o.readFile(mapFile).None? ==> r == Run(run, Some(MapMissing(mapFile))))
            && (environment == Debug && o.readFile(mapFile).Some? ==>
                  r == Run(run + [WriteFile(mapFile, StrTr(o.readFile(mapFile).value, MapSources(st, o, files)))], None))
  {
  }

  /**
   * Source-map rewriting: in the map text, the build-host path of any of the JS
   * sources becomes file:/// followed by its path below the local source
   * directory when one is configured, and by its realpath() otherwise (FALSE
   * printing as nothing). This holds wherever the path occurs, provided no source
   * path starts earlier in the text and no longer source path matches at the same
   * place; the text before it is kept and the rewrite goes on after it.
   */
  lemma MapRewritesSourcePath(st: Settings, o: Oracle, files: seq<string>, k: nat, pre: string, post: string)
    requires k < |files|
    requires var text := pre + (st.source + "/" + files[k]) + post;
             forall j, i :: 0 <= j < |files| && 0 <= i < |pre| ==> !StartsWith(text[i..], st.source + "/" + files[j])
    requires forall j :: 0 <= j < |files| && StartsWith(st.source + "/" + files[k] + post, st.source + "/" + files[j])
                         ==> |files[j]| <= |files[k]|
    ensures var table := MapSources(st, o, files);
            var text := pre + (st.source + "/" + files[k]) + post;
            (st.localSource.Some? ==>
               StrTr(text, table) == pre + ("file:///" + (st.localSource.value + "/" + files[k])) + StrTr(post, table))
            && (st.localSource.None? ==>
               StrTr(text, table) == pre + ("file:///" + o.realpath(st.source + "/" + files[k]).GetOr("")) + StrTr(post, table))
  {
    var table := MapSources(st, o, files);
    var key := st.source + "/" + files[k];
    MapSourcesKeys(st, o, files);
    assert key != "" by { assert key[|st.source|] == '/'; }
    forall j, i | 0 <= j < |table| && 0 <= i < |pre| && table[j].0 != ""
      ensures !StartsWith((pre + key + post)[i..], table[j].0)
    {
      assert table[j].0 == st.source + "/" + files[j];
    }
    forall j | 0 <= j < |table| && table[j].0 != "" && StartsWith(key + post, table[j].0)
      ensures |table[j].0| <= |key|
    {
      assert table[j].0 == st.source + "/" + files[j];
    }
    StrTrRewriteAt(pre, key, post, table, k);
    assert table[k] == MapSource(st, o, files[k]);
  }

  /** A map whose text is just the path of a build's only source becomes that source's local file URL. */
  lemma MapRewritesOnlySource(st: Settings, o: Oracle, sourceFile: string)
    requires st.localSource.Some?
    ensures StrTr(st.source + "/" + sourceFile, MapSources(st, o, [sourceFile]))
            == "file:///" + (st.localSource.value + "/" + sourceFile)
  {
    var table := MapSources(st, o, [sourceFile]);
    var text := st.source + "/" + sourceFile;
    MapRewritesSourcePath(st, o, [sourceFile], 0, "", "");
    assert "" + text + "" == text;
    assert StrTr("", table) == "";
  }

  /** The keys of the source-map table are the sources' build-host paths, and equal keys carry equal values. */
  lemma MapSourcesKeys(st: Settings, o: Oracle, files: seq<string>)
    ensures var table := MapSources(st, o, files);
            |table| == |files|
            && (forall j :: 0 <= j < |files| ==> table[j].0 == st.source + "/" + files[j])
            && (forall j, k :: 0 <= j < |files| && 0 <= k < |files| && table[j].0 == table[k].0 ==> table[j].1 == table[k].1)
  {
    var table := MapSources(st, o, files);
    forall j, k | 0 <= j < |files| && 0 <= k < |files| && table[j].0 == table[k].0
      ensures table[j].1 == table[k].1
    {
      SourcePathInjective(st.source, files[j], files[k]);
    }
  }

  /** Two sources share a build-host path only when they are the same source. */
  lemma SourcePathInjective(source: string, f: string, g: string)
    requires source + "/" + f == source + "/" + g
    ensures f == g
  {
    var n := |source| + 1;
    assert f == (source + "/" + f)[n..];
    assert g == (source + "/" + g)[n..];
  }

  /** The worked example: /build/src/app.js with local root /home/dev/project
      (an absolute local root gives four slashes after "file:"). */
  lemma MapRewriteExample(o: Oracle, destination: string, binPath: string)
    ensures StrTr("/build/src/app.js", MapSources(Settings("/build/src", destination, binPath, Some("/home/dev/project")), o, ["app.js"]))
            == "file:////home/dev/project/app.js"
  {
    var st := Settings("/build/src", destination, binPath, Some("/home/dev/project"));
    MapRewritesOnlySource(st, o, "app.js");
    assert st.source + "/" + "app.js" == "/build/src/app.js";
    assert "file:///" + (st.localSource.value + "/" + "app.js") == "file:////home/dev/project/app.js";
  }
}
