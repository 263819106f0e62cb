# deploy-php in Dafny

This project models the deterministic core of the `forrest79/deploy-php` helpers. There are three pieces.

- **The asset builder** comes in two variants. `Forrest79\DeployPhp\Assets` is the current one and `Forrest79\PhpDeploy\Assets` is the older one. Each walks a manifest that maps destination paths to specs: the marker `copy`, or a record with `type`, `file`, `files` and `env`. It skips entries meant for another environment and checks each type's required fields. It then runs the compiler for each entry: node-sass for less and sass, uglifyjs, or rollup in the current variant; lessc or uglifyjs in the older one. Around the walk sits the rebuild decision:
  - the current variant takes a lock and checks the source directory;
  - the older variant requires `setup()` to have run first;
  - `buildDebug` fingerprints the source tree and rebuilds only when the stored hash differs;
  - `buildProduction` always rebuilds and records an md5 of the file contents.

  The current JS adapter also rewrites the paths in the uglifyjs source map (a `strtr`) to `file:///` URIs.
- **The deployment base class** also comes in two variants, `Forrest79\DeployPhp\Deploy` and `Forrest79\PhpDeploy\Deploy`. It covers:
  - choosing the environment and merging the additional configuration with `array_replace_recursive`;
  - the return value and stdout of `exec()`;
  - the `[return_code:$?]` marker of `ssh()` and its validation text;
  - the SSH session cache keyed `user@host:port`;
  - the remote path arithmetic of `scp()`;
  - the `git archive` checkout;
  - the result rule of `httpRequest()`;
  - the choice of shell in `getShell()`.
- **ComposerMonorepo** compares each application's `require` section with the global one using `array_diff_assoc`. The local→global difference is fatal and the global→local one is only reported. It then runs five composer/shell commands and exits on the first that fails.

## How it is modelled

- **Specifications and state.** Each piece has a pure module of specification functions that return the run as an action or event log plus an error or exit: `AssetsModel`, `LegacyAssetsModel`, `DeployModel`, and the functions of `ComposerMonorepo`. Beside each sits a class (`Assets.Assets`, `LegacyAssets.Assets`, `Deploy.Deploy`, `LegacyDeploy.Deploy`, `ComposerMonorepo.Synchronizer`) with the source's fields. Its methods update those fields in place and are proved equal to the specification functions. The properties are lemmas in `AssetsProperties`, `LegacyAssetsProperties` and `DeployProperties`, and beside the definitions.
- **The outside world.** The following are fields of an `Oracle` value that the model consults but does not compute:
  - the filesystem (which paths exist, the recursive directory scan with mtimes and contents, `realpath`);
  - process results (exit code and output per command);
  - `md5`, `serialize` and the Neon decoder;
  - the ssh2 connect, auth, exec and SFTP answers;
  - curl's body and error number.

  Effects (copy, delete, createDir, exec, hash reads and writes, connect, upload, …) are appended to a log, so their order is stated exactly.
- **PHP's string builtins** are written out in `PhpStrings`: `rtrim` and `trim` with a character list, `strpos`, `implode`, `basename` and `dirname` on Linux paths, `strrpos`, `%d`, and `strtr` with an array (longest key first). `DIRECTORY_SEPARATOR` is `/`.
- **Exceptions** are error values. `exit(1)` is an `exited` flag that stops everything after it.
- **The current variant under `strict_types`.** A call that PHP 8 rejects with a `TypeError` is modelled as `TypeError(builtin)`. This covers `strpos(FALSE, …)` after a failed curl, `chdir(FALSE)`, `rtrim(NULL, …)` on a shell probe that prints nothing, `fwrite(…, FALSE)` on an unreadable local file in `scp()`, `array_replace_recursive` of a non-array environment, and ComposerMonorepo's `array_diff_assoc` of a missing `require` section. The older variant converts loosely instead (`strpos("", …)`, staying in place when `chdir` gets `FALSE`).

## Model

| member | source | states |
|---|---|---|
| `PhpStrings.RTrimShape` | src/Assets.php:64 | `rtrim` keeps a prefix of its input that does not end in a trimmed character, and removes only trimmed characters |
| `PhpStrings.LTrimShape` | src/Assets.php:71 | the left half of `trim`: it keeps a suffix that does not start with a trimmed character, and drops only trimmed characters |
| `PhpStrings.RTrimIdempotent` | src/Assets.php:138 | trimming an already trimmed directory changes nothing |
| `PhpStrings.RTrimPadding` | src/Deploy.php:122 | trailing separators added to a trimmed directory are exactly what `rtrim` removes |
| `PhpStrings.ContainsIff` | src/Deploy.php:109 | `strpos(...) !== FALSE` holds exactly when the needle occurs at some index of the haystack |
| `PhpStrings.ContainsInfix` | src/Deploy.php:152 | a body that has the validation text inside it always validates |
| `PhpStrings.Join` | src/Assets.php:263 | `implode` of one element is that element |
| `PhpStrings.JoinSnoc` | src/Assets.php:314 | `implode` of one more part adds the separator and the part at the end |
| `PhpStrings.LastIndexOf` | src/Forrest79/PhpDeploy/Assets.php:159 | `strrpos` returns an index inside the string |
| `PhpStrings.LastIndexOfSpec` | src/Forrest79/PhpDeploy/Assets.php:159 | `strrpos` finds the last occurrence: the character is there, none follows it, and FALSE means it does not occur |
| `PhpStrings.BasenameHasNoSlash` | src/Deploy.php:127 | `basename` never contains `/` |
| `PhpStrings.DirnameNonEmpty` | src/Assets.php:295 | `dirname` of a non-empty path is never empty |
| `PhpStrings.DirnameBasenameOfJoin` | src/Deploy.php:62 | `dirname` and `basename` of `dir/name` give back `dir` and `name` |
| `PhpStrings.NatToStringDigits` | src/Assets.php:282 | `%d` of a natural number is a non-empty run of decimal digits |
| `PhpStrings.NatToStringInjective` | src/Deploy.php:184 | different natural numbers print differently with `%d` |
| `PhpStrings.IntToStringChars` | src/Deploy.php:184 | an integer prints as `-` signs and decimal digits only, so never with `:` or `@` |
| `PhpStrings.IntToStringInjective` | src/Deploy.php:184 | different integers, negative ones included, print differently |
| `PhpStrings.LongestMatch` | src/Assets.php:274 | `strtr` picks the longest non-empty key at the current position, or reports that none matches |
| `PhpStrings.StrTrNoKey` | src/Assets.php:274 | `strtr` leaves a text in which no key occurs unchanged |
| `PhpStrings.StrTrAtKey` | src/Assets.php:274 | at an occurrence of the only matching key, `strtr` emits its replacement and continues after the key |
| `PhpStrings.StrTrPlainPrefix` | src/Assets.php:274 | `strtr` copies a stretch of text at none of whose positions a key starts, and resumes right after it |
| `PhpStrings.StrTrAtLongest` | src/Assets.php:274 | at a position where a key matches and no longer key does, `strtr` emits that key's replacement and continues after the key |
| `PhpStrings.StrTrRewriteAt` | src/Assets.php:274 | for text, then a longest-matching key, then more text, with no key starting in the first text: the first text is kept, the key is replaced, and the rest is rewritten on its own |
| `AssetsModel.ShellCommandParts` | src/Assets.php:307-309 | the wrapped command is `(cd <source> && ` + the command + ` 2>&1)` and can be taken apart again |
| `AssetsModel.MapSources` | src/Assets.php:244-253 | the replacement table has one pair per JS source, keyed by `source/file`, in source order |
| `AssetsProperties.MapSourcesKeys` | src/Assets.php:247-252 | every key of the table is `source/file` of its JS source, and two sources with the same key get the same replacement |
| `AssetsModel.SassFilesErrorSticks` | src/Assets.php:178-181 | after a failing sass compile the remaining files of the entry run nothing |
| `AssetsModel.WalkErrorSticks` | src/Assets.php:150-198 | once an entry throws, later entries do nothing |
| `AssetsModel.WalkStep` | src/Assets.php:150-198 | the walk of one more entry is the walk of the prefix followed by that entry's run |
| `AssetsModel.ThenAssociative` | src/Assets.php:142-199 | sequencing of steps that may throw is associative |
| `Assets.Host.AcquireLock` | src/Assets.php:319-327 | `fopen` failure and `flock` failure give their errors; otherwise the lock is held and logged |
| `Assets.Host.ReleaseLock` | src/Assets.php:338-342 | unlock releases the lock and is logged |
| `Assets.Host.ReadHash` | src/Assets.php:86 | the read-hash callback returns the stored hash of the config file, if any |
| `Assets.Host.WriteHash` | src/Assets.php:101 | the write-hash callback stores exactly that hash for that config file |
| `Assets.Host.Run` | src/Assets.php:311 | `exec` reports the command's exit code and output |
| `Assets.Assets.constructor` | src/Assets.php:55-77 | the source directory has trailing `\` and `/` removed; `systemBinPath` is `:`-trimmed when given, and only then is `localSourceDirectory` ignored; the lock file is `temp/assets.lock` |
| `Assets.Assets.Lock` | src/Assets.php:319-335 | `lock()` returns the lock's realpath, or the error of the step that failed |
| `Assets.Assets.Setup` | src/Assets.php:131-139 | a missing source directory throws before anything is assigned; otherwise the config file and the trimmed destination are stored |
| `Assets.Assets.Exec` | src/Assets.php:307-316 | the wrapped command runs once; a non-zero exit throws with the type, the command and the output |
| `Assets.Assets.PrepareDestinationPath` | src/Assets.php:291-298 | returns `destination/relative` after creating its directory |
| `Assets.Assets.CompilesLess` | src/Assets.php:202-217 | the node-sass command for less, with map options only when a map is requested |
| `Assets.Assets.CompilesSass` | src/Assets.php:220-234 | the node-sass command for sass, with map options only when a map is requested |
| `Assets.Assets.CompilesRollup` | src/Assets.php:279-288 | the rollup command with `INPUT_FILE`, `OUTPUT_FILE` and `SOURCE_MAP` |
| `Assets.Assets.CollectMapSources` | src/Assets.php:244-253 | the loop builds exactly the replacement table `MapSources` |
| `Assets.Assets.CompilesJs` | src/Assets.php:240-276 | uglifyjs runs and, with a map, the map file is rewritten through `strtr` or its absence throws |
| `Assets.Assets.CompilesSassFiles` | src/Assets.php:178-181 | each listed sass file is compiled in turn, stopping at the first failure |
| `Assets.Assets.BuildEntry` | src/Assets.php:151-196 | one manifest entry: copy marker, environment filter, type check, required fields, dispatch |
| `Assets.Assets.BuildAssets` | src/Assets.php:142-199 | the destination is deleted when it exists, then the manifest is walked |
| `Assets.Assets.BuildEntries` | src/Assets.php:150-198 | the loop over the manifest performs exactly the walk, in manifest order, stopping at the first throw |
| `Assets.Assets.BuildNext` | src/Assets.php:150-198 | one pass of the manifest loop extends the walk by exactly the actions of the next entry and reports its throw |
| `Assets.Assets.CollectMtimes` | src/Assets.php:88-95 | the loop collects pathname and mtime of every counted item, in scan order |
| `Assets.Assets.CollectContents` | src/Assets.php:116-123 | the loop concatenates the contents of the counted files in scan order |
| `Assets.Assets.BuildDebug` | src/Assets.php:80-105 | `buildDebug` performs exactly `DebugRun`'s actions, hash store and lock state |
| `Assets.Assets.RebuildDebug` | src/Assets.php:86-104 | the part after `lock()` and `setup()`: read, fingerprint, compare, rebuild, record, unlock |
| `Assets.Assets.RebuildAndRecord` | src/Assets.php:100-104 | the hash is written and the lock released only when the rebuild finished; a throw changes neither |
| `Assets.Assets.BuildProduction` | src/Assets.php:108-128 | `buildProduction` performs exactly `ProductionRun`'s actions, hash store and lock state |
| `Assets.Assets.RebuildProduction` | src/Assets.php:114-127 | always rebuild, then record the md5 of the contents and unlock |
| `AssetsProperties.WalkOnlyBuildSteps` | src/Assets.php:150-198 | a manifest walk never locks, unlocks, reads or writes the hash store |
| `AssetsProperties.BuildAssetsOnlyBuildSteps` | src/Assets.php:142-199 | neither does `buildAssets` as a whole |
| `AssetsProperties.DebugSkipsWhenUnchanged` | src/Assets.php:99-102 | an unchanged fingerprint means lock, read the hash, unlock and nothing else: no delete, copy, exec or write |
| `AssetsProperties.DebugWritesHashIffRebuilt` | src/Assets.php:99-102 | a hash is written exactly when the stored one differs and the rebuild finished, and it is the fresh fingerprint |
| `AssetsProperties.NoHashWriteAfter` | src/Assets.php:100-101 | a failing rebuild after a prefix without writes writes no hash |
| `AssetsProperties.DebugFailureKeepsHash` | src/Assets.php:100-101 | a throwing entry leaves the stored hash untouched and the lock held |
| `AssetsProperties.DebugIdempotent` | src/Assets.php:86-102 | a second `buildDebug` on an unchanged tree after a successful one rebuilds nothing |
| `AssetsProperties.DebugEarlyErrors` | src/Assets.php:82-84 | a lock that cannot be taken or a missing source directory stops the build before the hash is read |
| `AssetsProperties.ProductionAlwaysRebuilds` | src/Assets.php:110-125 | right after the lock come the rebuild's actions; on success the md5 of the contents is recorded and the lock released |
| `AssetsProperties.ProductionIgnoresStoredHash` | src/Assets.php:108-128 | what is stored beforehand has no influence on what `buildProduction` does |
| `AssetsProperties.ScanMtimesMembers` | src/Assets.php:89-95 | the mtime table holds exactly the non-directory items that do not resolve to the lock file |
| `AssetsProperties.ScanMtimesIgnoresUncounted` | src/Assets.php:91-93 | adding a directory or the lock file to the tree leaves the fingerprint input unchanged |
| `AssetsProperties.WalkAppend` | src/Assets.php:150-198 | the walk of two manifests joined is the first walk followed by the second, unless the first throws |
| `AssetsProperties.WalkSucceeds` | src/Assets.php:150-198 | when every entry succeeds, so does the walk |
| `AssetsProperties.WalkStopsAtFirstError` | src/Assets.php:150-198 | the first throwing entry ends the walk with its error, after the earlier entries' actions and its own |
| `AssetsProperties.CopyMarkerCopies` | src/Assets.php:151-154 | a bare `copy` entry copies `source/path` to `destination/path` in every environment |
| `AssetsProperties.RecordFilterAndType` | src/Assets.php:158-164 | another `env` skips; a missing `type` throws naming the path; an unknown type, `copy` included, does nothing |
| `AssetsProperties.RequiredFields` | src/Assets.php:166-197 | less and rollup without `file`, uglifyjs without `files`, sass without both throw naming the path, before anything runs |
| `AssetsProperties.SassRunSucceeds` | src/Assets.php:220-234 | a sass compile that exits with 0 prepares the directory and runs node-sass, without error |
| `AssetsProperties.SassCompilesEachFile` | src/Assets.php:178-181 | when every compile succeeds, each listed file is compiled in order into the same destination |
| `AssetsProperties.SassFilesPrecedence` | src/Assets.php:178 | with both keys present, `files` wins over `file` |
| `AssetsProperties.RollupEntryCommand` | src/Assets.php:191-196 | a rollup entry prepares its directory and runs rollup with the map flag of its environment |
| `AssetsProperties.RollupSourceMapFlag` | src/Assets.php:282-285 | the rollup command says `SOURCE_MAP=1` exactly when a map is requested, otherwise `SOURCE_MAP=0` |
| `AssetsProperties.LessEntryCommand` | src/Assets.php:167-172 | a less entry prepares its directory and runs node-sass; only debug adds `--source-map-rootpath=file:///` |
| `AssetsProperties.JsEntryMap` | src/Assets.php:184-189 | debug runs uglifyjs with `--source-map url=<name>.map` and then rewrites the map; production runs it without a map and nothing follows |
| `AssetsProperties.MapRewritesSourcePath` | src/Assets.php:246-252 | for any JS source of any entry, wherever its `source/file` path occurs in the map text with no source path starting earlier and no longer source path matching there: the text before it is kept; the path becomes `file:///` + the local source directory + `/` + file when one is configured, and `file:///` + its `realpath` (nothing for FALSE) otherwise; the rest of the text is rewritten after it |
| `AssetsProperties.MapRewritesOnlySource` | src/Assets.php:246-274 | a map holding only the path of the entry's single source becomes that source's `file:///` URL below the local source directory |
| `AssetsProperties.MapRewriteExample` | src/Assets.php:249 | the worked example: an absolute local root gives four slashes after `file:` |
| `LegacyAssetsModel.NoTypeMessageAsWrittenHidesPath` | src/Forrest79/PhpDeploy/Assets.php:117 | as written, every entry without a type throws the same message, `Path '' has no type defined.` |
| `LegacyAssetsModel.NoTypeMessageNamesPath` | src/Forrest79/PhpDeploy/Assets.php:117 | the corrected message names the path, which can be read back from it |
| `LegacyAssetsModel.NeonTextLayout` | src/Forrest79/PhpDeploy/Assets.php:210-213 | `writeNeon` writes exactly `parameters:\n\tassets:\n\t\thash: H\n`, from which H can be cut back out |
| `LegacyAssetsModel.PrefixSources` | src/Forrest79/PhpDeploy/Assets.php:179-181 | prefixing the JS sources keeps their number |
| `LegacyAssetsModel.PrefixSourcesAt` | src/Forrest79/PhpDeploy/Assets.php:179-181 | each JS source becomes `source/file` |
| `LegacyAssetsModel.PrefixSourcesIsPrefixAll` | src/Forrest79/PhpDeploy/Assets.php:179-181 | any list prefixed element by element equals `PrefixSources` |
| `LegacyAssetsModel.WalkStep` | src/Forrest79/PhpDeploy/Assets.php:111-141 | the walk of one more entry is the walk of the prefix followed by that entry's run |
| `LegacyAssetsModel.WalkErrorSticks` | src/Forrest79/PhpDeploy/Assets.php:111-141 | once an entry throws, later entries do nothing |
| `LegacyAssets.Host.ReadNeon` | src/Forrest79/PhpDeploy/Assets.php:195-207 | `readNeon` is NULL when the file is absent or the key unset, otherwise the decoded hash |
| `LegacyAssets.Host.WriteNeon` | src/Forrest79/PhpDeploy/Assets.php:210-213 | `writeNeon` replaces the config file's text and nothing else |
| `LegacyAssets.Host.Run` | src/Forrest79/PhpDeploy/Assets.php:161 | `exec` reports the command's exit code and output |
| `LegacyAssets.Assets.constructor` | src/Forrest79/PhpDeploy/Assets.php:34-37 | the manifest is stored and the builder is not yet set up |
| `LegacyAssets.Assets.Setup` | src/Forrest79/PhpDeploy/Assets.php:40-49 | stores the config file and both directories with trailing `\` and `/` removed, and marks the builder set up |
| `LegacyAssets.Assets.Exec` | src/Forrest79/PhpDeploy/Assets.php:161-164 | a non-zero exit throws a RuntimeException with the language, the command and the output |
| `LegacyAssets.Assets.CompilesLess` | src/Forrest79/PhpDeploy/Assets.php:150-165 | both paths are prefixed with their roots, the directory is created, and lessc runs with a map only in debug |
| `LegacyAssets.Assets.PrefixAll` | src/Forrest79/PhpDeploy/Assets.php:179-181 | the `array_walk` loop prefixes every source with `source/`, keeping the order |
| `LegacyAssets.Assets.CompilesJs` | src/Forrest79/PhpDeploy/Assets.php:173-191 | uglifyjs over the prefixed sources, with `--source-map` only in debug |
| `LegacyAssets.Assets.BuildEntry` | src/Forrest79/PhpDeploy/Assets.php:112-140 | one manifest entry: environment filter, type check with the message as written (`Path '' has no type defined.`), type of a bare string, dispatch |
| `LegacyAssets.Assets.BuildAssets` | src/Forrest79/PhpDeploy/Assets.php:103-142 | the destination is deleted when it exists, then the manifest is walked |
| `LegacyAssets.Assets.BuildEntries` | src/Forrest79/PhpDeploy/Assets.php:111-141 | the loop over the manifest performs exactly the walk, stopping at the first throw |
| `LegacyAssets.Assets.BuildNext` | src/Forrest79/PhpDeploy/Assets.php:111-141 | one pass of the manifest loop extends the walk by exactly the actions of the next entry and reports its throw |
| `LegacyAssets.Assets.CollectMtimes` | src/Forrest79/PhpDeploy/Assets.php:64-69 | the loop collects pathname and mtime of every non-directory item |
| `LegacyAssets.Assets.CollectContents` | src/Forrest79/PhpDeploy/Assets.php:92-97 | the loop concatenates the contents of every non-directory item |
| `LegacyAssets.Assets.BuildDebug` | src/Forrest79/PhpDeploy/Assets.php:52-77 | `buildDebug` performs exactly `DebugRun`'s actions and file store |
| `LegacyAssets.Assets.RebuildDebug` | src/Forrest79/PhpDeploy/Assets.php:64-76 | after the read and the source check: fingerprint, compare, rebuild, write |
| `LegacyAssets.Assets.BuildProduction` | src/Forrest79/PhpDeploy/Assets.php:80-100 | `buildProduction` performs exactly `ProductionRun`'s actions and file store |
| `LegacyAssetsProperties.WalkOnlyBuildSteps` | src/Forrest79/PhpDeploy/Assets.php:111-141 | a manifest walk never reads or writes the Neon file |
| `LegacyAssetsProperties.BuildAssetsOnlyBuildSteps` | src/Forrest79/PhpDeploy/Assets.php:103-142 | neither does `buildAssets` as a whole |
| `LegacyAssetsProperties.BuildsRequireSetup` | src/Forrest79/PhpDeploy/Assets.php:54-56 | before `setup()` both builds throw `Run setup() first.` and do nothing else |
| `LegacyAssetsProperties.SourceMissingAfterRead` | src/Forrest79/PhpDeploy/Assets.php:58-62 | `buildDebug` reads the Neon file before it throws for a missing source directory; production reads nothing |
| `LegacyAssetsProperties.DebugSkipsWhenUnchanged` | src/Forrest79/PhpDeploy/Assets.php:73-76 | an unchanged fingerprint means read the Neon file and nothing else |
| `LegacyAssetsProperties.DebugWritesNeonIffRebuilt` | src/Forrest79/PhpDeploy/Assets.php:71-76 | the Neon file is written exactly when the hash changed and the rebuild finished, with the fingerprint's text |
| `LegacyAssetsProperties.DebugFailureKeepsNeon` | src/Forrest79/PhpDeploy/Assets.php:74-75 | a throwing build leaves the Neon file as it was |
| `LegacyAssetsProperties.ProductionAlwaysRebuilds` | src/Forrest79/PhpDeploy/Assets.php:90-99 | production rebuilds first and, when that finishes, writes the md5 of the contents |
| `LegacyAssetsProperties.ScanMtimesMembers` | src/Forrest79/PhpDeploy/Assets.php:64-69 | the mtime list holds exactly the non-directory items; there is no lock exclusion |
| `LegacyAssetsProperties.OtherEnvironmentSkipped` | src/Forrest79/PhpDeploy/Assets.php:112-114 | a record whose `env` names another environment is skipped |
| `LegacyAssetsProperties.MissingTypeThrows` | src/Forrest79/PhpDeploy/Assets.php:116-118 | a record without a type throws an InvalidArgumentException before anything runs, and its message is `Path '' has no type defined.` whatever the path |
| `LegacyAssetsProperties.StringEntryIsItsType` | src/Forrest79/PhpDeploy/Assets.php:120-140 | a bare string is its own type: `copy` copies, `less` and `js` throw for the missing key, anything else is ignored |
| `LegacyAssetsProperties.SingleFileCast` | src/Forrest79/PhpDeploy/Assets.php:138 | a single `files` string is compiled as a one-element list |
| `LegacyAssetsProperties.WalkStopsAtFirstError` | src/Forrest79/PhpDeploy/Assets.php:111-141 | the first throwing entry ends the walk with its error, after the earlier entries' actions and its own |
| `LegacyAssetsProperties.MapStemCutsAtLastDot` | src/Forrest79/PhpDeploy/Assets.php:159 | the less map path is the destination up to its last `.`, or empty when it has none |
| `DeployModel.ReplaceRecursive` | src/Deploy.php:25 | merging two arrays gives the union of their keys |
| `DeployModel.ReplaceRecursiveEntries` | src/Deploy.php:25 | a key only in the base keeps its value; a scalar in the replacement wins; two arrays merge recursively |
| `DeployModel.ReplaceWithEmpty` | src/Deploy.php:25 | merging nothing over an environment changes nothing |
| `DeployModel.ReplaceRecursiveSelf` | src/Deploy.php:25 | merging a value over itself gives it back |
| `DeployModel.ReplaceRecursiveIdempotent` | src/Deploy.php:25 | merging the same additional configuration twice is the same as once |
| `DeployModel.SelectEnvironment` | src/Deploy.php:21-26 | an environment that is not set throws naming it; a set non-array is a TypeError; otherwise the keys are those of the environment plus the additional ones |
| `DeployModel.ExecOutcome` | src/Deploy.php:77-84 | TRUE exactly when the exit code is 0; stdout is replaced by the joined output exactly when there is output and the caller passed a non-FALSE value |
| `DeployModel.StopFrom` | src/Deploy.php:100 | the lazy `.*?` of the marker regex stops at the first `]` or line end |
| `DeployModel.SshOutcome` | src/Deploy.php:100-116 | `ssh()` fails unless the code is `0`; with a validation text it succeeds exactly when the stripped output contains it |
| `DeployModel.NoBracketNoMarker` | src/Deploy.php:100-101 | output without `[` has no return code and is left as it is |
| `DeployModel.MarkerOfCode` | src/Deploy.php:98-101 | the echoed marker of a code is read back as that code and stripped completely |
| `DeployModel.PlainPrefixCode` | src/Deploy.php:100 | text without `[` before the marker does not change the code read |
| `DeployModel.PlainPrefixStrip` | src/Deploy.php:101 | text without `[` before the marker survives the stripping |
| `DeployModel.ReturnCodeRoundTrip` | src/Deploy.php:98-101 | for output `body[return_code:C]tail` the code read is C and the stripped output is body + tail |
| `DeployModel.MarkerReadBack` | src/Deploy.php:100-101 | output starting with the echoed marker `[return_code:C]` reads back C, and stripping leaves the tail |
| `DeployModel.RootDirectoryAsWritten` | src/Deploy.php:122-127 | as written, target `/` is trimmed to `` and placed below the working directory after `//` |
| `DeployModel.RemoteFilePlacement` | src/Deploy.php:122-127 | the corrected placement: an absolute directory ignores the working directory; a relative one goes below it; `/` gives `/` + the file name |
| `DeployModel.RemoteFileAgreesAsWritten` | src/Deploy.php:122-127 | the corrected path is the path as written for every directory that does not trim to nothing |
| `DeployModel.HttpOutcome` | src/Deploy.php:141-156 | with a validation text the body must contain it, and a failed transfer is a TypeError in the current variant; without one the result is `errno == 0` |
| `DeployModel.FirstAnswering` | src/Deploy.php:270-276 | a chosen shell is one of the candidates and printed `OK`; none chosen means every candidate printed something other than `OK`; a candidate whose probe printed nothing (NULL) makes `rtrim` a TypeError under strict types |
| `DeployModel.FirstAnsweringIsFirst` | src/Deploy.php:270-276 | every candidate before the chosen one printed something, and not `OK` |
| `DeployModel.FirstAnsweringStopsAt` | src/Deploy.php:270-276 | after candidates that all printed something other than `OK`, the next one decides: silent gives the TypeError, `OK` makes it the chosen shell |
| `DeployModel.SshConnectCache` | src/Deploy.php:176-204 | a hit returns the cached session and connects to nothing; a miss connects first; a failure leaves the cache unchanged; success stores exactly the new session under `user@host:port` |
| `DeployModel.CheckoutRun` | src/Deploy.php:60-74 | fails only in the current variant and only when `realpath` fails, before any effect; otherwise it makes the directory, logged with the working directory a relative path resolves against, then runs the archive command in the repository root; it succeeds exactly when that command exits with 0 |
| `DeployProperties.ConnectAgainHits` | src/Deploy.php:186-203 | after a successful connect the same call is a hit: same session, same cache, no events |
| `DeployProperties.ConnectNeedsPublicKey` | src/Deploy.php:187-198 | without a public key the call connects, is refused as an unsupported authentication, and stores nothing |
| `DeployProperties.SessionKeyInjective` | src/Deploy.php:184 | when neither user name holds `@`, equal cache keys mean equal users, hosts and ports, whatever the hosts hold (`:` of an IPv6 literal included) |
| `DeployProperties.SessionKeyAmbiguousWithAt` | src/Deploy.php:184 | with `@` in the names the key is ambiguous: user `a@b` on host `c` and user `a` on host `b@c` share the key `a@b@c:22` |
| `DeployProperties.SshReadsMarker` | src/Deploy.php:96-117 | end to end: the verdict is "code 0 and, if asked, validated" and the output handed back is body + tail |
| `DeployProperties.UploadSteps` | src/Deploy.php:122-137 | the upload creates the trimmed directory first and asks for `pwd` exactly when the trimmed directory does not start with `/`; for `/` itself, trimmed to the empty string, it asks |
| `DeployProperties.UploadWrites` | src/Deploy.php:129-137 | the write goes to the SFTP URL of the remote file as written: no stream means FALSE and no write; readable contents are written and `fwrite`'s count returned; an unreadable local file is a TypeError in the current variant and an empty write in the older one |
| `DeployProperties.ZipInsideCheckout` | src/Deploy.php:62 | the archive lies directly in the checkout directory and is named `<id>-git.zip` |
| `DeployProperties.CheckoutVariants` | src/Forrest79/PhpDeploy/Deploy.php:50-64 | both variants check out identically when `realpath` succeeds; otherwise the current one throws and the older one runs in place |
| `DeployProperties.SelectWithoutAdditional` | src/Deploy.php:25 | without additional configuration the environment is the configured one |
| `DeployProperties.AdditionalScalarWins` | src/Deploy.php:25 | a scalar of the additional configuration overrides the configured value |
| `Deploy.Deploy.Create` | src/Deploy.php:19-28 | the constructor refuses an unknown environment and otherwise stores the merged one with no session open |
| `Deploy.Deploy.Copy` | src/Deploy.php:36-39 | logs the copy |
| `Deploy.Deploy.Move` | src/Deploy.php:42-45 | logs the rename |
| `Deploy.Deploy.Delete` | src/Deploy.php:48-51 | logs the delete |
| `Deploy.Deploy.MakeDir` | src/Deploy.php:54-57 | logs the directory creation with the working directory a relative path resolves against |
| `Deploy.Deploy.Exec` | src/Deploy.php:77-84 | runs in the working directory and returns `ExecOutcome`: a requested stdout other than FALSE is replaced by the output, FALSE stays FALSE |
| `Deploy.Deploy.Gzip` | src/Deploy.php:87-93 | runs the tar command and throws with the target and the output exactly when it fails |
| `Deploy.Deploy.SshConnect` | src/Deploy.php:176-204 | updates the session cache exactly as `SshConnect` in the model |
| `Deploy.Deploy.SshExec` | src/Deploy.php:212-218 | returns the remote output of the command |
| `Deploy.Deploy.Ssh` | src/Deploy.php:96-117 | performs exactly `SshRun`: connect, run with the marker, read the code, strip, validate |
| `Deploy.Deploy.Scp` | src/Deploy.php:120-138 | performs exactly `ScpRun`, with the remote file as written; TRUE exactly when a non-zero number of bytes was written; the TypeError of `fwrite(FALSE)` for an unreadable local file is passed on |
| `Deploy.Deploy.Upload` | src/Deploy.php:125-137 | mkdir, `pwd` unless the trimmed directory starts with `/`, then the SFTP write to `RemoteFileAsWritten`; an unreadable local file is a TypeError |
| `Deploy.Deploy.Transfer` | src/Deploy.php:120-138 | connect, then upload: `fwrite`'s byte count, FALSE or the TypeError of an unreadable file, with exactly the sessions and effects of `ScpRun` |
| `Deploy.Deploy.GitCheckout` | src/Deploy.php:60-74 | performs exactly `CheckoutRun` and leaves the working directory as it found it |
| `Deploy.Deploy.HttpRequest` | src/Deploy.php:141-156 | returns `HttpOutcome` for the current variant |
| `Deploy.Deploy.GetShell` | src/Deploy.php:264-280 | returns `FirstAnswering` over the candidates when `/usr/bin/env` exists, and none otherwise: the loop stops at the first candidate that answers `OK` or whose silent probe makes `rtrim` throw |
| `LegacyDeploy.Deploy.Create` | src/Forrest79/PhpDeploy/Deploy.php:20-29 | refuses an unknown environment and otherwise stores the merged one |
| `LegacyDeploy.Deploy.Delete` | src/Forrest79/PhpDeploy/Deploy.php:37-40 | logs the delete |
| `LegacyDeploy.Deploy.MakeDir` | src/Forrest79/PhpDeploy/Deploy.php:43-46 | logs the directory creation with the working directory a relative path resolves against |
| `LegacyDeploy.Deploy.Exec` | src/Forrest79/PhpDeploy/Deploy.php:68-75 | runs in the working directory and returns `ExecOutcome`: a requested stdout other than FALSE is replaced by the output, FALSE stays FALSE |
| `LegacyDeploy.Deploy.Gzip` | src/Forrest79/PhpDeploy/Deploy.php:78-84 | runs the tar command and throws exactly when it fails |
| `LegacyDeploy.Deploy.SshConnect` | src/Forrest79/PhpDeploy/Deploy.php:163-191 | updates the session cache exactly as `SshConnect` for the older variant (message `Can't connet`) |
| `LegacyDeploy.Deploy.SshExec` | src/Forrest79/PhpDeploy/Deploy.php:194-200 | returns the remote output of the command |
| `LegacyDeploy.Deploy.Ssh` | src/Forrest79/PhpDeploy/Deploy.php:88-109 | performs exactly `SshRun` for the older variant |
| `LegacyDeploy.Deploy.Scp` | src/Forrest79/PhpDeploy/Deploy.php:112-130 | performs exactly `ScpRun` for the older variant, with the remote file as written, and returns `fwrite`'s result itself, not a bool |
| `LegacyDeploy.Deploy.Upload` | src/Forrest79/PhpDeploy/Deploy.php:117-129 | mkdir, `pwd` unless the trimmed directory starts with `/`, then the SFTP write to `RemoteFileAsWritten`; an unreadable local file writes the empty string |
| `LegacyDeploy.Deploy.GitCheckout` | src/Forrest79/PhpDeploy/Deploy.php:50-64 | performs exactly `CheckoutRun` for the older variant and leaves the working directory as it found it |
| `LegacyDeploy.Deploy.HttpRequest` | src/Forrest79/PhpDeploy/Deploy.php:133-148 | returns `HttpOutcome` for the older variant |
| `ComposerMonorepo.DiffAssocMembers` | src/ComposerMonorepo.php:67-68 | a package is in the difference exactly when the other side lacks it or pins another version, and it keeps its own version |
| `ComposerMonorepo.DiffsEmptyIffEqual` | src/ComposerMonorepo.php:67-68 | both differences are empty exactly when the two `require` maps are equal |
| `ComposerMonorepo.ExtraGlobalIsInformational` | src/ComposerMonorepo.php:67-68 | a package only the global file requires shows up in the informational difference and never in the fatal one |
| `ComposerMonorepo.UpdateCommandParameters` | src/ComposerMonorepo.php:70 | the update parameters, when given, follow the plain update command after one space |
| `ComposerMonorepo.Commands` | src/ComposerMonorepo.php:74-87 | there are exactly five commands |
| `ComposerMonorepo.RunCommandsExecs` | src/ComposerMonorepo.php:118-125 | the commands run are a prefix of the list, in order |
| `ComposerMonorepo.RunCommandsFrom` | src/ComposerMonorepo.php:118-125 | a failing command stops the sequence; a succeeding one goes on to the next |
| `ComposerMonorepo.RunCommandsAllSucceed` | src/ComposerMonorepo.php:118-125 | the sequence finishes exactly when every command exits with 0, and then all of them ran |
| `ComposerMonorepo.RunCommandsStopAtFailure` | src/ComposerMonorepo.php:118-125 | the first failing command is the last one run |
| `ComposerMonorepo.DiffRun` | src/ComposerMonorepo.php:94-115 | `composerDiff` exits exactly for a fatal, non-empty difference; an empty one reports nothing |
| `ComposerMonorepo.DiffsRun` | src/ComposerMonorepo.php:67-68 | the two reports exit exactly when the local file requires something the global one lacks or pins differently |
| `ComposerMonorepo.UpdateStep` | src/ComposerMonorepo.php:40-45 | one more application extends the run of the earlier ones by its own, unless they already exited |
| `ComposerMonorepo.UpdateExitSticks` | src/ComposerMonorepo.php:40-45 | after an exit, later applications are not processed |
| `ComposerMonorepo.FatalDiffRunsNothing` | src/ComposerMonorepo.php:67-87 | for a local file with a `require` section: a fatal difference exits before any command runs; without one the commands' run ends the application's run |
| `ComposerMonorepo.SynchronizeStops` | src/ComposerMonorepo.php:50-68 | an unreadable local file or an unresolvable directory exits with nothing done; otherwise the application stops at `array_diff_assoc` with a TypeError, having reported no difference and run nothing, exactly when either `require` section is missing |
| `ComposerMonorepo.Synchronizer.Create` | src/ComposerMonorepo.php:20-34 | an unreadable global file exits; a text that does not decode to an array is a TypeError; otherwise its `require` section, or its absence, is stored |
| `ComposerMonorepo.Synchronizer.UpdateSynchronize` | src/ComposerMonorepo.php:40-45 | the loop over the applications performs exactly `UpdateRun` |
| `ComposerMonorepo.Synchronizer.SynchronizeNext` | src/ComposerMonorepo.php:42-44 | one iteration of the loop extends the run by one application |
| `ComposerMonorepo.Synchronizer.SynchronizeApp` | src/ComposerMonorepo.php:48-88 | an unreadable local file or an unresolvable directory exits; a `require` section missing on either side is a TypeError; otherwise compare and update |
| `ComposerMonorepo.Synchronizer.Compare` | src/ComposerMonorepo.php:62-87 | both reports, then the five commands unless the fatal one exited |
| `ComposerMonorepo.Synchronizer.ReportDiffs` | src/ComposerMonorepo.php:67-68 | the informational report, then the fatal one |
| `ComposerMonorepo.Synchronizer.UpdateVendors` | src/ComposerMonorepo.php:74-87 | the five commands run in order, stopping at the first failure |
| `ComposerMonorepo.Synchronizer.ComposerDiff` | src/ComposerMonorepo.php:94-115 | performs exactly `DiffRun` |
| `ComposerMonorepo.Synchronizer.Exec` | src/ComposerMonorepo.php:118-125 | runs the command and exits exactly when it fails |

## Left out

- Real I/O. This covers filesystem effects, processes, the ssh2 and SFTP layer, curl, `realpath`, `file_get_contents` and `file_exists`. They are answers of the `Oracle` or entries of the action log. Nothing is read from or written to a real system.
- The filesystem helpers never fail in the model. These are Nette's `FileSystem::copy`, `rename`, `delete` and `createDir`, called at src/Assets.php:145, 152, 295, src/Forrest79/PhpDeploy/Assets.php:106, 124, 155, 177, src/Deploy.php:38, 44, 50, 56 and src/Forrest79/PhpDeploy/Deploy.php:39, 45. Each is only an entry of the action log, and the `Nette\IOException` it throws on failure is not modelled. A manifest `copy` entry whose source file is missing is one such failure. This affects the following members:
  - `AssetsModel.EntryRun`, `PrepareRun` and `BuildAssetsRun`, `LegacyAssetsModel.EntryRun` and `BuildAssetsRun`, and the walk lemmas built on them. The model does not capture a build that stops at that exception. In the current builder that build also leaves the lock held.
  - `Deploy.Deploy.Copy`, `Move`, `Delete` and `MakeDir`, and `LegacyDeploy.Deploy.Delete` and `MakeDir`. They model the successful call only.
  - `Deploy.Deploy.GitCheckout` and `LegacyDeploy.Deploy.GitCheckout`. Their `ensures cwd == old(cwd)` holds only because `makeDir` cannot throw. A failing `createDir` escapes before the `chdir` back, and the process would stay in the git root directory.
- The current builder's `readHash` and `writeHash` are closures that its caller passes to the constructor (src/Assets.php:55-68). The source promises nothing about them. `Assets.Host.ReadHash` and `WriteHash` assume that the two callbacks behave as one consistent store: `readHash` returns what `writeHash` last stored for the same config file. `AssetsProperties.DebugIdempotent` relies on that assumption, and so does the reading that a second unchanged run skips the build. Callbacks that lose or alter the hash would rebuild every time.
- `md5`, `serialize` and the Neon decoder are uninterpreted functions. No round trip through Neon is claimed.
- The order of `RecursiveDirectoryIterator` is an input sequence.
- PHP arrays are ordered, but the model's maps are not. The model therefore does not state the key order that `array_replace_recursive` or `array_diff_assoc` produce, nor the order of the printed differences. The manifest is a sequence, so its order is kept.
- `flock` and mutual exclusion between processes are not modelled. The lock is a flag.
- An error in `buildDebug` or `buildProduction` leaves the lock held, because the source has no `finally`. The model keeps that behaviour.
- Terminal I/O is not modelled: `log()`, `echo`, ANSI colours, `getResponse()`, `getHiddenResponse()` (with `hiddeninput.exe` on Windows), `stty` and `hasSttyAvailable()`. The answer of `/usr/bin/env <shell>` in `getShell()` is a parameter.
- `error()` is represented by the `Runtime` error values of the operations that call it.
- The `setup()` hook of the deployment class is an empty protected method for subclasses. The model does not call it.
- `exit(1)` is a flag, not a process exit.
- `uniqid()` is a parameter of `GitCheckout`, because it is randomness.
- `sprintf` in ComposerMonorepo formats one `%s` argument, and the model concatenates instead. A `%` inside `gitUpdateParameters` would be read by `sprintf` as a format directive; the model does not treat it that way.
- `ssh2_exec` and stream failures, and the `stream_set_blocking` timing, are not modelled. A remote command yields its full output.
- Credentials are converted to text the way the older variant converts them loosely. For a non-string credential the current variant's strict-mode `TypeError` is not modelled.
- `chdir()` to a realpath that is not a directory is not modelled. Only the `FALSE` that `realpath` returns for a missing path is.
- The oracle is deterministic. The same command in the same directory always gives the same answer.
- The older builder's string handling of a non-string, non-array entry is not modelled. Manifest values are strings or records.
- ComposerMonorepo: a `composer.json` that is not valid JSON, or whose `require` is missing or not an array, stops the application with one `TypeError` that the model places at `array_diff_assoc`. For a text that decodes to a JSON string, PHP raises its `TypeError` one step earlier, at the `['require']` offset read. The outcome is the same: a TypeError, with no difference reported and nothing run.
- ComposerMonorepo: `require` values are version strings. `array_diff_assoc` compares other values by their string form, and the model does not represent them.
- The current builder's `assert(is_array($data))` is taken as disabled. A bare string other than `copy` then reaches the missing-type check and throws there.

## Findings

| source | as written | input that shows it | evidently intended | confidence | as-written member | corrected member |
|---|---|---|---|---|---|---|
| src/Forrest79/PhpDeploy/Assets.php:117 | the no-type message concatenates `$data['type']`, the very key that was just found unset | any record without `type`, at path `a.js`: the message is `Path '' has no type defined.` | name the entry's path, as the current builder does (src/Assets.php:163); the older builder is modelled as written, and the corrected message is proved on its own | high, not executed | `LegacyAssetsModel.NoTypeMessageAsWrittenHidesPath` | `LegacyAssetsModel.NoTypeMessageNamesPath` |
| src/Deploy.php:122-127 and src/Forrest79/PhpDeploy/Deploy.php:114-119 | the target directory is right-trimmed of `/` before the absolute test, so `/` becomes the empty string and counts as relative; `scp()` in both variants is modelled as written, and the corrected placement is proved on its own | `scp('x.txt', '/')` with remote working directory `/home/u`: it writes to `/home/u//x.txt` | `/` is the root, so the file is `/x.txt` | medium, not executed | `DeployModel.RootDirectoryAsWritten` | `DeployModel.RemoteFilePlacement` |
