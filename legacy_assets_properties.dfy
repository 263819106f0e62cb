/**
 * What the older builder promises, stated over LegacyAssetsModel: builds refuse
 * to run before setup(), the old hash is read before the source check, the Neon
 * file is written exactly when the fingerprint changed and the rebuild finished,
 * how entries are filtered and dispatched, and the exact commands.
 */
module LegacyAssetsProperties {
  import opened Wrappers
  import opened PhpStrings
  import opened LegacyAssetsModel
  import AssetsModel

  /** The actions a manifest walk may perform: none of them reads or writes the Neon file. */
  predicate BuildStep(a: Action) {
    a.Delete? || a.Copy? || a.CreateDir? || a.Exec?
  }

  predicate AllBuildSteps(actions: seq<Action>) {
    forall i :: 0 <= i < |actions| ==> BuildStep(actions[i])
  }

  predicate WritesNeon(actions: seq<Action>) {
    exists i :: 0 <= i < |actions| && actions[i].WriteNeon?
  }

  lemma ThenBuildSteps(r1: Run, r2: Run)
    requires AllBuildSteps(r1.actions) && AllBuildSteps(r2.actions)
    ensures AllBuildSteps(Then(r1, r2).actions)
  {
    if r1.error.None? {
      var a := r1.actions;
      var b := r2.actions;
      assert forall i :: |a| <= i < |a + b| ==> (a + b)[i] == b[i - |a|];
    }
  }

  lemma EntryBuildSteps(st: Settings, o: Oracle, environment: string, path: string, spec: Spec)
    ensures AllBuildSteps(EntryRun(st, o, environment, path, spec).actions)
  {
    var createMap := environment == Debug;
    var d := Run([CreateDir(Dirname(st.destination + "/" + path))], None);
    if spec.Record? && spec.kind.Some? && spec.file.Some? {
      ThenBuildSteps(d, ExecRun(o, LessCommand(st, spec.file.value, path, createMap), "less"));
    }
    if spec.Record? && spec.kind.Some? && spec.files.Some? {
      ThenBuildSteps(d, ExecRun(o, JsCommand(st, AsList(spec.files.value), path, createMap), "js"));
    }
  }

  /** A manifest walk never touches the Neon file. */
  lemma {:induction false} WalkOnlyBuildSteps(st: Settings, o: Oracle, environment: string, m: Manifest)
    ensures AllBuildSteps(Walk(st, o, environment, m).actions)
    decreases |m|
  {
    if |m| > 0 {
      WalkOnlyBuildSteps(st, o, environment, m[..|m| - 1]);
      EntryBuildSteps(st, o, environment, m[|m| - 1].0, m[|m| - 1].1);
      ThenBuildSteps(Walk(st, o, environment, m[..|m| - 1]), EntryRun(st, o, environment, m[|m| - 1].0, m[|m| - 1].1));
    }
  }

  lemma BuildAssetsOnlyBuildSteps(st: Settings, o: Oracle, environment: string, m: Manifest)
    ensures AllBuildSteps(BuildAssetsRun(st, o, environment, m).actions)
  {
    WalkOnlyBuildSteps(st, o, environment, m);
    ThenBuildSteps(Run(if st.destination in o.present then [Delete(st.destination)] else [], None), Walk(st, o, environment, m));
  }

  // ---------------------------------------------------------------- setup and early errors

  /** Before setup() both builds throw "Run setup() first." and do nothing else. */
  lemma BuildsRequireSetup(o: Oracle, m: Manifest, st: Settings, files: Files)
    requires !st.isSetUp
    ensures DebugRun(o, m, st, files) == Build([], Some(Runtime("Run setup() first.")), files)
    ensures ProductionRun(o, m, st, files) == Build([], Some(Runtime("Run setup() first.")), files)
  {
  }

  /** buildDebug reads the Neon file before it finds the source directory missing; production reads nothing. */
  lemma SourceMissingAfterRead(o: Oracle, m: Manifest, st: Settings, files: Files)
    requires st.isSetUp && st.source !in o.present
    ensures DebugRun(o, m, st, files)
      == Build([ReadNeon(st.configFile)], Some(Runtime("Assets source directory doen't exists.")), files)
    ensures ProductionRun(o, m, st, files) == Build([], Some(Runtime("Assets source directory doen't exists.")), files)
  {
  }

  // ---------------------------------------------------------------- buildDebug

  /** An unchanged fingerprint: buildDebug reads the Neon file and does nothing else. */
  lemma DebugSkipsWhenUnchanged(o: Oracle, m: Manifest, st: Settings, files: Files)
    requires st.isSetUp && st.source in o.present
    requires StoredHash(o, files, st.configFile) == Some(DebugHash(o))
    ensures DebugRun(o, m, st, files) == Build([ReadNeon(st.configFile)], None, files)
  {
  }

  /**
   * buildDebug writes the Neon file exactly when the stored hash differs from the
   * fingerprint and the rebuild finished, and then with the fingerprint's text.
   */
  lemma DebugWritesNeonIffRebuilt(o: Oracle, m: Manifest, st: Settings, files: Files)
    requires st.isSetUp && st.source in o.present
    ensures var b := DebugRun(o, m, st, files);
            var rebuilt := StoredHash(o, files, st.configFile) != Some(DebugHash(o))
                           && BuildAssetsRun(st, o, Debug, m).error.None?;
            (WritesNeon(b.actions) <==> rebuilt)
            && b.files == (if rebuilt then files[st.configFile := NeonText(DebugHash(o))] else files)
  {
    var b := DebugRun(o, m, st, files);
    var w := BuildAssetsRun(st, o, Debug, m);
    var before := [ReadNeon(st.configFile)];
    if StoredHash(o, files, st.configFile) == Some(DebugHash(o)) {
      assert b.actions == before;
    } else if w.error.Some? {
      assert b.actions == before + w.actions;
      BuildAssetsOnlyBuildSteps(st, o, Debug, m);
      assert forall i :: 1 <= i < |b.actions| ==> b.actions[i] == w.actions[i - 1];
    } else {
      assert b.actions == before + w.actions + [WriteNeon(st.configFile, NeonText(DebugHash(o)))];
      assert b.actions[1 + |w.actions|].WriteNeon?;
    }
  }

  /** A throwing rebuild leaves the Neon file as it was. */
  lemma DebugFailureKeepsNeon(o: Oracle, m: Manifest, st: Settings, files: Files)
    requires DebugRun(o, m, st, files).error.Some?
    ensures DebugRun(o, m, st, files).files == files
  {
  }

  // ---------------------------------------------------------------- buildProduction

  /** buildProduction always rebuilds and, when that finishes, writes the md5 of the contents. */
  lemma ProductionAlwaysRebuilds(o: Oracle, m: Manifest, st: Settings, files: Files)
    requires st.isSetUp && st.source in o.present
    ensures var b := ProductionRun(o, m, st, files);
            var w := BuildAssetsRun(st, o, Production, m);
            b.actions[..|w.actions|] == w.actions && b.error == w.error
            && (w.error.None? ==> b.files == files[st.configFile := NeonText(o.md5(ScanContents(o.tree)))]
                                  && b.actions == w.actions + [WriteNeon(st.configFile, NeonText(o.md5(ScanContents(o.tree))))])
            && (w.error.Some? ==> b.files == files)
  {
    var b := ProductionRun(o, m, st, files);
    var w := BuildAssetsRun(st, o, Production, m);
    if w.error.None? {
      assert b.actions[..|w.actions|] == w.actions;
    } else {
      assert b.actions == w.actions;
    }
  }

  // ---------------------------------------------------------------- scan

  /** The mtime list holds exactly the scanned items that are not directories. */
  lemma {:induction false} ScanMtimesMembers(tree: seq<AssetsModel.Item>, p: string, t: int)
    ensures (p, t) in ScanMtimes(tree)
            <==> exists i :: 0 <= i < |tree| && !tree[i].isDir && tree[i].pathname == p && tree[i].mtime == t
    decreases |tree|
  {
    if |tree| > 0 {
      var init := tree[..|tree| - 1];
      ScanMtimesMembers(init, p, t);
      assert forall i :: 0 <= i < |init| ==> init[i] == tree[i];
      if (p, t) in ScanMtimes(init) {
        var i :| 0 <= i < |init| && !init[i].isDir && init[i].pathname == p && init[i].mtime == t;
        assert tree[i] == init[i];
      }
    }
  }

  // ---------------------------------------------------------------- manifest walk

  /** A record whose env names another environment is skipped. */
  lemma OtherEnvironmentSkipped(st: Settings, o: Oracle, environment: string, path: string, spec: Spec)
    requires spec.Record? && spec.env.Some? && spec.env.value != environment
    ensures EntryRun(st, o, environment, path, spec) == Run([], None)
  {
  }

  /**
   * A record without a type throws an InvalidArgumentException before anything
   * runs, with the message as written: `Path '' has no type defined.` whatever the path.
   */
  lemma MissingTypeThrows(st: Settings, o: Oracle, environment: string, path: string, spec: Spec)
    requires spec.Record? && spec.kind.None? && (spec.env.None? || spec.env.value == environment)
    ensures EntryRun(st, o, environment, path, spec) == Run([], Some(InvalidArgument(NoTypeMessageAsWritten(path))))
    ensures EntryRun(st, o, environment, path, spec).error == Some(InvalidArgument("Path '' has no type defined."))
  {
    NoTypeMessageAsWrittenHidesPath(path, path);
  }

  /**
   * A bare string is its own type: "copy" copies, "less" and "js" throw for the
   * missing file key, anything else is ignored. A record of type copy copies as well.
   */
  lemma StringEntryIsItsType(st: Settings, o: Oracle, environment: string, path: string, name: string)
    ensures var r := EntryRun(st, o, environment, path, Name(name));
            (name == CopyType ==> r == Run([Copy(st.source + "/" + path, st.destination + "/" + path)], None))
            && (name == LessType ==> r == Run([], Some(InvalidArgument(NoFileMessage(path)))))
            && (name == JsType ==> r == Run([], Some(InvalidArgument(NoFilesMessage(path)))))
            && (name !in {CopyType, LessType, JsType} ==> r == Run([], None))
            && EntryRun(st, o, environment, path, Record(Some(CopyType), None, None, None))
               == Run([Copy(st.source + "/" + path, st.destination + "/" + path)], None)
  {
  }

  /** A single `files` string is compiled as a one-source list. */
  lemma SingleFileCast(st: Settings, o: Oracle, environment: string, path: string, file: Option<string>,
                       source: string, env: Option<string>)
    ensures EntryRun(st, o, environment, path, Record(Some(JsType), file, Some(Single(source)), env))
         == EntryRun(st, o, environment, path, Record(Some(JsType), file, Some(List([source])), env))
  {
  }

  /** The walk runs every entry in order when none throws, and stops at the first that does. */
  lemma {:induction false} WalkStopsAtFirstError(st: Settings, o: Oracle, environment: string, m: Manifest, k: nat)
    requires k < |m| && Walk(st, o, environment, m[..k]).error.None?
    requires EntryRun(st, o, environment, m[k].0, m[k].1).error.Some?
    ensures Walk(st, o, environment, m).error == EntryRun(st, o, environment, m[k].0, m[k].1).error
    ensures Walk(st, o, environment, m).actions
            == Walk(st, o, environment, m[..k]).actions + EntryRun(st, o, environment, m[k].0, m[k].1).actions
  {
    WalkStep(st, o, environment, m, k);
    WalkErrorSticks(st, o, environment, m, k + 1);
  }

  // ---------------------------------------------------------------- commands

  /** The less map path ends the destination at its last '.', and is empty when there is none. */
  lemma MapStemCutsAtLastDot(destination: string)
    ensures '.' !in destination ==> MapStem(destination) == ""
    ensures '.' in destination ==>
              var k := |MapStem(destination)|;
              MapStem(destination) == destination[..k] && destination[k] == '.'
              && forall j :: k < j < |destination| ==> destination[j] != '.'
  {
    LastIndexOfSpec(destination, '.');
  }
}
