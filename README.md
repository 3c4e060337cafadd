# myppy in Dafny

myppy builds a relocatable Python environment below one root directory,
recipe by recipe. This project models its installation ledger and the
code around the ledger. Each part is proved against a specification of
its own.

- **`MyppyEnv`** (`env_base.dfy`, with the value-level definitions in `env_model.dfy`):
  - the two sqlite tables, `installed_files` and `installed_recipes`, held in memory;
  - the nested `with env:` blocks, as a lock counter with a snapshot to roll back to;
  - `is_installed` and `is_explicitly_installed`;
  - `install`, with its conflicts, dependencies and explicit marker;
  - `uninstall`, `record_files`, `find_new_files` and `clean`.

  The disk is a tree of entries. Fetching, building and installing a recipe are step functions the environment is given.
- **The platform environments** (`env_linux.dfy`, `env_macosx.dfy`):
  - the `record_files` overrides: which files get which checks;
  - the glibc and libstdc++ symbol-version checks;
  - the `..` count of `_adjust_rpath`;
  - the architecture and SDK checks;
  - the `@executable_path` rewrite of install names.

  The output of `objdump`, `file`, `lipo` and `otool` is given as input strings.
- **The recipes** (`recipe_base.dfy`, `recipe_linux.dfy`, `recipe_macosx.dfy`):
  - the merge of dependency lists done by the recipe metaclass;
  - the command lines and environments of configure, make, cmake and tar;
  - the build directory lookup;
  - the n-way (one build per architecture) directories and commands;
  - `_patch_file`;
  - the line filters the recipes pass to `_patch_file`, as functions over lines.
- **`relpath`** (`util.dfy`), the loop that strips leading separators.

The helper modules cover the Python string and path operations the code uses:
- `text.dfy`: `strip`, `split`, `replace`, `startswith`, `in`;
- `posix_path.dfy`: `os.path.join`, `dirname`, `basename`;
- `lines.dfy`: element-wise maps and filters over lines;
- `wrappers.dfy`: `Option`, `Result` and `Outcome`.

Exceptions raised by the source become `Result`/`Outcome` failures with a
reason. The `assert` statements of the source are among them.

`util.prune_dir` is `EnvModel.PruneDir`: an existing directory is removed when it is empty and kept otherwise, as the ignored `ENOTEMPTY` error leaves it.

The `is_initialised` loop asks `is_installed` for each dependency. An installed environment dependency is always explicitly installed (`EnvModel.EnvDepExplicit`), so `Initialised` is stated both ways (`InitialisedExplicit`).

## Model

| member | source | states |
|---|---|---|
| Util.Relative | myppy/util.py:106-109 | the result never starts with `/`; a path not starting with `/` is returned unchanged |
| Util.RelativeDropsSlashes | myppy/util.py:107-108 | the result is a suffix of the input and what was cut off is separators only |
| Util.RelativeFixed | myppy/util.py:106-109 | a path is its own `relpath` exactly when it does not start with `/`, the test asserted before rows are stored |
| Util.RelPath | myppy/util.py:106-109 | the loop computes `Relative`, and applying `relpath` again changes nothing |
| EnvModel.PathsOf | myppy/envs/base.py:225-227 | the paths selected for a recipe are exactly the paths of its rows; there are none exactly when it is not installed |
| EnvModel.Without | myppy/envs/base.py:228-229 | the delete keeps exactly the rows of the other recipes |
| EnvModel.WithoutExact | myppy/envs/base.py:223-229 | deleting one recipe's rows empties its path list and leaves every other recipe's list as it was, in order |
| EnvModel.InstalledWithout | myppy/envs/base.py:166-168 | after the delete a recipe is installed iff it was installed before and is not the deleted one |
| EnvModel.BoundedTrans | myppy/envs/base.py:187-214 | an install made of steps that each add only members of a scope and remove only their conflicts does the same as a whole |
| EnvModel.BoundedGrows | myppy/envs/base.py:206-214 | appending rows of a member of the scope adds only that member and removes nothing |
| EnvModel.BoundedAbsent | myppy/envs/base.py:191-214 | in a conflict-free scope, a bounded step never installs a conflict of a scope member that was not installed before |
| EnvModel.ConflictsBounded | myppy/envs/base.py:191-197 | uninstalling only the listed conflicts of a member of the scope is a bounded step |
| EnvModel.BoundedKept | myppy/envs/base.py:191-203 | when no member of the scope conflicts with another, a bounded step keeps every installed member installed |
| EnvModel.NoConflictsScope | myppy/recipes/base.py:25 | when no recipe declares a conflict, the recipe, the environment's dependencies and every name the registry mentions make a conflict-free scope closed under dependencies |
| EnvModel.EnvDepsKept | myppy/envs/base.py:109-113 | after the next environment dependency is installed, it and every earlier one are explicitly installed |
| EnvModel.ReachRoot | myppy/envs/base.py:173-176 | every starting name (environment dependency or marked recipe) is in the closure |
| EnvModel.ReachStep | myppy/envs/base.py:177-182 | a dependency of a reached recipe is reached |
| EnvModel.ClosedHoldsReachable | myppy/envs/base.py:177-183 | a set holding the roots and closed under dependencies holds every reachable name |
| EnvModel.ReachMonotone | myppy/envs/base.py:173-183 | more starting names reach at least as much |
| EnvModel.ExplicitGrows | myppy/envs/base.py:170-183 | adding rows or markers never makes an explicitly installed recipe stop being one |
| EnvModel.UninstallKeepsExplicit | myppy/envs/base.py:219-229 | uninstalling a recipe that is not explicitly installed changes no other recipe's standing, in both directions |
| EnvModel.MarkedExplicit | myppy/envs/base.py:174-175 | a marked installed recipe is explicitly installed |
| EnvModel.EnvDepExplicit | myppy/envs/base.py:173 | an installed dependency of the environment is explicitly installed |
| EnvModel.InsertDesc | myppy/envs/base.py:225-226 | inserting into a descending list keeps it descending and adds exactly that element |
| EnvModel.SortDesc | myppy/envs/base.py:225-226 | `ORDER BY filepath DESC` gives a descending permutation of the paths |
| EnvModel.SortDescElems | myppy/envs/base.py:225-227 | sorting keeps exactly the same paths |
| EnvModel.ContentsBeforeDirectory | myppy/envs/base.py:225-249 | in descending order a path below a directory entry comes before that entry, so a directory is emptied before it is pruned |
| EnvModel.LookupRemoved | myppy/envs/base.py:243 | after an unlink nothing is found at the removed place |
| EnvModel.LookupAfterRemove | myppy/envs/base.py:240-249 | removing never makes an entry appear, nor changes a file into a directory |
| EnvModel.ExistsAfterRemove | myppy/envs/base.py:240-249 | nothing exists after a removal that did not exist before |
| EnvModel.FoundReportable | myppy/envs/base.py:292-324 | every path the walk reports is below the root, relative once the root is cut off, not temporary and not recorded |
| EnvModel.FoundInReportable | myppy/envs/base.py:309-324 | the same for the paths found in one listing |
| EnvModel.JoinBelowRoot | myppy/envs/base.py:311 | a name joined to a walked directory lies below the root, with no trailing separator and a relative remainder |
| EnvModel.EmptyDirReportable | myppy/envs/base.py:305-307 | an empty directory is reported with a trailing separator, and that path is reportable |
| EnvModel.BelowAfterSlash | myppy/envs/base.py:270 | a path at or below a directory once a separator is appended was already at or below it |
| EnvModel.LedgerIsTemp | myppy/envs/base.py:272-275 | the database and its journal are temporary files |
| EnvModel.LedgerFileIsTemp | myppy/envs/base.py:44 | a file named like the ledger one directory below the root is temporary |
| EnvModel.BuildIsTemp | myppy/envs/base.py:269-271 | everything inside the build directory is temporary |
| EnvModel.CacheIsTemp | myppy/envs/base.py:269-271 | everything inside the download cache is temporary |
| EnvModel.RemoveRecorded | myppy/envs/base.py:234-249 | removing one recorded path fails only with an OS error or a path that is not relative |
| EnvModel.RemoveRecordedShrinks | myppy/envs/base.py:234-249 | removing one path only ever removes things |
| EnvModel.RemoveRecordedRemoves | myppy/envs/base.py:241-243 | a recorded plain file is gone once its removal succeeds |
| EnvModel.RemoveAll | myppy/envs/base.py:234-249 | the removal loop stops at the first OS error with the tree as it then is |
| EnvModel.RemoveAllShrinks | myppy/envs/base.py:234-249 | the removal loop never makes anything appear |
| EnvModel.RemoveAllRemoves | myppy/envs/base.py:234-249 | when the loop runs to the end, none of the recorded plain files is left |
| EnvModel.RemoveTree | myppy/envs/base.py:117-120 | after `rmtree` of the build or cache directory nothing is left at that name |
| EnvModel.SweepShrinks | myppy/envs/base.py:125-127 | the last loop of `clean` only removes |
| EnvModel.SweepLeavesNoFile | myppy/envs/base.py:125-127 | after that loop no file is left at any reported path |
| EnvModel.RowsFor | myppy/envs/base.py:330-334 | one row per file, in order, for the recipe, with the root and its separator cut off |
| EnvModel.MarkedGrows | myppy/envs/base.py:333-334 | appending rows keeps every marked recipe installed |
| EnvModel.MarkedWithout | myppy/envs/base.py:223-229 | deleting a recipe's rows with its marker keeps every other marked recipe installed |
| EnvModel.InstalledRecipes | myppy/envs/base.py:121-122 | `SELECT DISTINCT recipe` lists exactly the installed recipes, each once |
| EnvBase.ChainPasses | myppy/envs/linux.py:30-41 | the per-file loop of a `record_files` override passes exactly when every file's step passes |
| EnvBase.ChainFailure | myppy/envs/linux.py:30-41 | a failure is that of the first failing file; every command run was run by some file's step |
| EnvBase.ChainStops | myppy/envs/macosx.py:58-66 | once a file has failed, the files after it change nothing |
| EnvBase.ChainKeeps | myppy/envs/macosx.py:58-66 | a run that passes ran every file's commands |
| EnvBase.FirstRefusal | myppy/envs/macosx.py:71-72 | nothing is refused iff every element passes; a refusal is that of the first failing element |
| EnvBase.FirstRefusalNone | myppy/envs/macosx.py:76-79 | nothing is refused exactly when every element passes the test |
| EnvBase.AddEnvPath | myppy/envs/base.py:79-88 | the variable is set and every other variable keeps its value |
| EnvBase.AddEnvPathEntries | myppy/envs/base.py:79-88 | the variable's `:`-separated entries are the new one, then the old ones when it was set and non-empty |
| EnvBase.VisitEntry | myppy/envs/base.py:310-324 | one entry: a subdirectory is queued, a new file is reported, a temporary path is skipped, as the walk's specification `FoundAt` says |
| EnvBase.VisitListing | myppy/envs/base.py:309-324 | the inner loop adds exactly what `FoundIn` says the listing contributes, and the queue grows by at most the listing |
| EnvBase.SetToSeq | myppy/envs/base.py:176 | `list(deps)` holds exactly the set's elements |
| EnvBase.AddUnseen | myppy/envs/base.py:179-182 | each dependency not yet seen is added to the set and queued once |
| EnvBase.ClosureEnd | myppy/envs/base.py:177-183 | when the queue is empty the set is exactly the reachable names, all of which have recipes |
| EnvBase.DependencyClosure | myppy/envs/base.py:173-182 | the worklist terminates with the closure of the roots, or the first name without a recipe |
| EnvBase.FirstAbsolute | myppy/envs/base.py:230-231 | the `relpath` assertion fails iff some recorded path starts with `/`, and names one such path |
| EnvBase.RemovePaths | myppy/envs/base.py:234-249 | the removal loop computes `RemoveAll` |
| EnvBase.SweepFiles | myppy/envs/base.py:125-127 | the last loop of `clean` computes `Sweep` |
| EnvBase.RelativeRows | myppy/envs/base.py:330-334 | the rows inserted are `RowsFor` when every cut path is relative; otherwise it stops at a path starting with `/`; every inserted row is the recipe's and relative |
| EnvBase.MyppyEnv.constructor | myppy/envs/base.py:46-62 | an environment over an existing database keeps its stored tables (empty for a new database), with lock depth 0 and the given root, registry and tree |
| EnvBase.MyppyEnv.Enter | myppy/envs/base.py:64-67 | the depth goes up by one; only the outermost block takes a snapshot to roll back to |
| EnvBase.MyppyEnv.Exit | myppy/envs/base.py:69-77 | the depth goes down by one; only when it reaches 0 after a failure are the tables rolled back to the snapshot |
| EnvBase.MyppyEnv.IsInstalled | myppy/envs/base.py:166-168 | true iff some row names the recipe |
| EnvBase.MyppyEnv.InitialisedExplicit | myppy/envs/base.py:160-164 | initialised iff every environment dependency is explicitly installed |
| EnvBase.MyppyEnv.InitialisedKept | myppy/envs/base.py:160-164 | keeping every explicitly installed recipe keeps the environment initialised |
| EnvBase.MyppyEnv.IsInitialised | myppy/envs/base.py:160-164 | the loop answers whether every environment dependency is installed |
| EnvBase.MyppyEnv.IsExplicitlyInstalled | myppy/envs/base.py:170-183 | false when not installed; otherwise true iff reachable from the environment's dependencies and the marked recipes; fails iff a reached name has no recipe |
| EnvBase.MyppyEnv.FindNewFiles | myppy/envs/base.py:292-324 | the breadth-first walk reports exactly the paths of the specification `Found` |
| EnvBase.MyppyEnv.RecordFiles | myppy/envs/base.py:326-336 | an empty list, a failing override or an absolute cut path fails; a pass appends exactly `RowsFor`; only relative rows of this recipe are ever added |
| EnvBase.MyppyEnv.Uninstall | myppy/envs/base.py:219-249 | the marker and exactly this recipe's rows go (rolled back on failure at depth 0); an absolute path fails before any file is touched; files are removed in descending order; nothing appears; on success every recorded plain file is gone |
| EnvBase.MyppyEnv.BuildAndRecord | myppy/envs/base.py:206-214 | the tree is the build step's; a pass appends rows for exactly the new files the walk finds, all relative and of this recipe |
| EnvBase.MyppyEnv.ResolveConflict | myppy/envs/base.py:191-197 | an explicitly installed conflict is refused before any change; otherwise it is uninstalled, keeping every explicit recipe; the tables lose exactly the conflict's rows or none, and a pass removes exactly those rows, leaving the conflict not installed |
| EnvBase.MyppyEnv.InstallConflicts | myppy/envs/base.py:191-197 | a pass means no conflict was explicitly installed; a refusal names an explicitly installed conflict; nothing is installed and only listed conflicts are uninstalled; a pass leaves none of the listed conflicts installed |
| EnvBase.MyppyEnv.InstallDeps | myppy/envs/base.py:198-203 | within a scope closed under dependencies that holds every name and that `init` cannot leave, only members are installed and only their conflicts uninstalled; if no member conflicts with another, on a pass every dependency other than the recipe itself is installed; an initialised environment stays so; rows only grow when no recipe declares conflicts |
| EnvBase.MyppyEnv.Init | myppy/envs/base.py:110-113 | a pass leaves the environment initialised, with every explicit recipe kept; within a scope closed under dependencies that holds the environment's dependencies only members are installed and only their conflicts uninstalled |
| EnvBase.MyppyEnv.InstallNew | myppy/envs/base.py:187-214 | an unknown recipe or exhausted recursion fails with nothing changed; within a scope holding the recipe, closed under dependencies and that `init` cannot leave, only members are installed and only their conflicts uninstalled; if no member conflicts with another, a pass records the recipe after all its dependencies' rows and leaves none of its conflicts installed |
| EnvBase.MyppyEnv.InstallRest | myppy/envs/base.py:191-214 | conflicts, then dependencies, then fetch and build; bounded by the scope as for `InstallNew`; in a conflict-free scope the recipe's rows come after its dependencies' rows, and a pass leaves none of its conflicts installed |
| EnvBase.MyppyEnv.InstallAfterConflicts | myppy/envs/base.py:198-214 | both dependency loops, then fetch and build; in a conflict-free scope every dependency has a row before the recipe's own rows |
| EnvBase.MyppyEnv.InstallNeeds | myppy/envs/base.py:198-203 | in a conflict-free scope every runtime and build dependency is installed after both loops: a build dependency's conflicts never uninstall a runtime one |
| EnvBase.MyppyEnv.FetchAndRecord | myppy/envs/base.py:204-214 | a failed fetch changes nothing; otherwise only rows of the recipe are appended, and a pass leaves it installed |
| EnvBase.MyppyEnv.Install | myppy/envs/base.py:185-217 | installing an installed recipe changes no rows, tree or commands; the marker is added only when asked and not already explicit; afterwards it is installed and, if asked, explicit; no explicit recipe is lost and an initialised environment stays so; within a scope holding the recipe, closed under dependencies and that `init` cannot leave, only members are installed and only their conflicts uninstalled; if no member conflicts with another, its dependencies are recorded first, and a pass on a recipe not installed before leaves none of its conflicts installed |
| EnvBase.MyppyEnv.PruneUnmarked | myppy/envs/base.py:121-124 | afterwards every installed recipe is explicitly installed, and explicit standing is unchanged |
| EnvBase.MyppyEnv.Clean | myppy/envs/base.py:115-127 | afterwards exactly the previously explicit recipes are installed, the build and cache directories are gone, and nothing new appeared |
| EnvLinux.DependenciesOrder | myppy/envs/linux.py:15-16 | `apbuild`, `patchelf`, then the base dependencies unchanged |
| EnvLinux.CompilerVars | myppy/envs/linux.py:20-23 | the four variables are added to the inherited ones |
| EnvLinux.EnvVarsWrappers | myppy/envs/linux.py:18-25 | the compiler wrappers and static libgcc are set; every other inherited variable is kept |
| EnvLinux.EnvVarsPaths | myppy/envs/linux.py:24-25 | the prefix's `bin` leads `PATH`; the prefix's pkg-config directory leads `PKG_CONFIG_PATH`, followed by the inherited entries |
| EnvLinux.ParseInts | myppy/envs/linux.py:49-50 | `map(int, …)` succeeds iff every part is an integer, giving their values in order; else it names the first bad part |
| EnvLinux.GlibcThreshold | myppy/envs/linux.py:51 | `not ver >= [2,4]` holds exactly for versions before 2.4, by Python's list order |
| EnvLinux.GlibcxxThreshold | myppy/envs/linux.py:58 | `not ver > [3,4]` holds exactly for 3.4 and the versions before it |
| EnvLinux.AfterTag | myppy/envs/linux.py:49 | `split("_",1)[1]` of a tagged field is the text after the tag |
| EnvLinux.CheckGlibcSymbolsMeaning | myppy/envs/linux.py:44-61 | a library passes iff every field of every line of the `objdump -T` output is accepted |
| EnvLinux.CheckLineMeaning | myppy/envs/linux.py:47-61 | a line passes iff each of its fields is accepted |
| EnvLinux.CheckSymbols | myppy/envs/linux.py:44-61 | the nested loops stop at the first refused field, as `CheckGlibcSymbols` says |
| EnvLinux.GlibcField | myppy/envs/linux.py:48-54 | a `GLIBC_` field is refused from 2.4 on or when a part is not an integer |
| EnvLinux.GlibcxxField | myppy/envs/linux.py:55-61 | a `GLIBCXX_` field is refused after 3.4 or when a part is not an integer |
| EnvLinux.Glibc234Accepted | myppy/envs/linux.py:48-54 | `GLIBC_2.3.4` is accepted |
| EnvLinux.Glibc24Refused | myppy/envs/linux.py:48-54 | `GLIBC_2.4` is refused |
| EnvLinux.Glibcxx34Accepted | myppy/envs/linux.py:55-61 | `GLIBCXX_3.4` is accepted |
| EnvLinux.Glibcxx341Refused | myppy/envs/linux.py:55-61 | `GLIBCXX_3.4.1` is refused |
| EnvLinux.GlibcPrivateRefused | myppy/envs/linux.py:48-50 | `GLIBC_PRIVATE` makes `int` raise |
| EnvLinux.UpFixed | myppy/envs/linux.py:69-71 | once `dirname` leaves a path unchanged, further steps stay there |
| EnvLinux.UpCountMeaning | myppy/envs/linux.py:67-71 | the count is the fewest `dirname` steps reaching the prefix; there is none exactly when no number of steps reaches it |
| EnvLinux.UpCountBelow | myppy/envs/linux.py:67-71 | a directory k names below the prefix is k steps from it |
| EnvLinux.Backrefs | myppy/envs/linux.py:70 | one `..` per step |
| EnvLinux.AdjustRpathBelow | myppy/envs/linux.py:63-74 | a file at `prefix/n1/…/nk` gets rpath `${ORIGIN}:${ORIGIN}/` + k-1 back-references + `/lib` |
| EnvLinux.AdjustRpath | myppy/envs/linux.py:63-74 | the loop computes `AdjustRpathRun`: nothing without `patchelf`, else the count and the one `patchelf` command |
| EnvLinux.AdjustRpathSets | myppy/envs/linux.py:74 | every command sets the rpath of that file |
| EnvLinux.FileHookCases | myppy/envs/linux.py:29-41 | shared libraries of unflagged recipes are symbol-checked and a refusal stops; checked libraries and ELF executables get an rpath; the rest are untouched |
| EnvLinux.FileHookCommands | myppy/envs/linux.py:29-41 | the only command run for a file sets that file's rpath, and only for a file the classification picks |
| EnvLinux.PostProcessCommands | myppy/envs/linux.py:29-42 | every command sets the rpath of a recorded file that is picked; the override passes iff every file passes |
| EnvLinux.RecordOne | myppy/envs/linux.py:31-41 | one pass of the loop is `FileHook` |
| EnvLinux.RecordHooks | myppy/envs/linux.py:29-41 | the loop is the per-file chain `PostProcess` |
| EnvLinux.NewEnv | myppy/envs/linux.py:13-25 | the base environment over the stored tables, with the Linux dependencies and override |
| EnvMacosx.BundleLedgerIsTemp | myppy/envs/macosx.py:14 | the bundle's database is never taken for an installed file |
| EnvMacosx.FrameworkInsideBundle | myppy/envs/macosx.py:18-24 | the prefix lies inside the bundle and the interpreter library inside the prefix |
| EnvMacosx.EnvVarsCompilers | myppy/envs/macosx.py:26-30 | the compilers and deployment target are set; every other inherited variable but `PATH` is kept |
| EnvMacosx.EnvVarsPath | myppy/envs/macosx.py:18-20 | the framework's `bin` leads `PATH`, then the inherited entries |
| EnvMacosx.ArchCheckMeaning | myppy/envs/macosx.py:69-72 | a library passes iff the `lipo` output names both target architectures; a refusal carries that output |
| EnvMacosx.CheckArchs | myppy/envs/macosx.py:69-72 | the loop computes `ArchCheck` |
| EnvMacosx.Links | myppy/envs/macosx.py:75 | splitting stripped output always gives at least one line |
| EnvMacosx.SdkCheckMeaning | myppy/envs/macosx.py:74-79 | a library passes iff every line naming `libSystem.B.dylib` names version 88.3.11; a refusal quotes the first bad line |
| EnvMacosx.CheckSdk | myppy/envs/macosx.py:74-79 | the loop computes `SdkCheck` |
| EnvMacosx.LoaderPath | myppy/envs/macosx.py:89-92 | the new path is `@executable_path/../`, one more `../` outside `Contents/`, then the path below the root |
| EnvMacosx.AsWrittenRewritesSibling | myppy/envs/macosx.py:87-88 | as written, a dependency in a sibling directory whose name extends the root's is rewritten though it lies outside the root |
| EnvMacosx.NewPathInside | myppy/envs/macosx.py:87-92 | corrected: a dependency is rewritten iff it is the root, a separator and the rest; the new path ends with the rest |
| EnvMacosx.NewPathAgrees | myppy/envs/macosx.py:87-92 | the corrected and as-written tests agree on every dependency inside the root |
| EnvMacosx.LinkCommandsMeaning | myppy/envs/macosx.py:84-93 | a line calls for exactly the rewrite of the dependency it names when that lies inside the root |
| EnvMacosx.LinkerCommandsMeaning | myppy/envs/macosx.py:81-93 | the commands are exactly the rewrites the lines call for |
| EnvMacosx.AdjustLink | myppy/envs/macosx.py:84-93 | one pass of the loop computes `LinkCommands` |
| EnvMacosx.AdjustLinkerPaths | myppy/envs/macosx.py:81-93 | the loop computes `LinkerCommands` |
| EnvMacosx.FileHookCases | myppy/envs/macosx.py:58-66 | a file fails iff it is an archive or dynamic library missing an architecture, or a dynamic library with the wrong SDK; only passing dynamic libraries get commands |
| EnvMacosx.FileHookCommands | myppy/envs/macosx.py:58-66 | every command for a file rewrites a dependency inside the root in that dynamic library |
| EnvMacosx.RewriteChangesInside | myppy/envs/macosx.py:86-93 | every rewrite is `install_name_tool -change` of a dependency inside the root |
| EnvMacosx.PostProcessCommands | myppy/envs/macosx.py:54-67 | every command rewrites a dependency in a recorded dynamic library; the override passes iff every file passes |
| EnvMacosx.RecordOne | myppy/envs/macosx.py:59-66 | one pass of the loop is `FileHook` |
| EnvMacosx.RecordHooks | myppy/envs/macosx.py:54-66 | the loop is the per-file chain `PostProcess` |
| EnvMacosx.NewEnv | myppy/envs/macosx.py:12-30 | the base environment over the stored tables, with the base dependencies and the OS X override |
| RecipeBase.AddMissingSpec | myppy/recipes/base.py:38-41 | appending missing entries keeps the list as a prefix, adds every new entry, adds nothing else and nothing twice |
| RecipeBase.MergedSpec | myppy/recipes/base.py:34-42 | the class's own list first and unchanged, every entry of every recipe base, nothing else, no entry taken twice |
| RecipeBase.MergeDepAttr | myppy/recipes/base.py:34-42 | the loop computes `Merged` and so has the properties of `MergedSpec` |
| RecipeBase.FirstEntry | myppy/recipes/base.py:118 | defined iff the listing is non-empty; the result is the first entry inside the directory |
| RecipeBase.GetBuilddir | myppy/recipes/base.py:169-176 | the first entry of the archive directory, or an error for an empty one |
| RecipeBase.TarFlag | myppy/recipes/base.py:111-116 | `-xjf` iff `.bz2`; `-xzf` iff `.gz` or `.tgz` and not `.bz2`; `-xf` otherwise |
| RecipeBase.UnpackTarball | myppy/recipes/base.py:107-118 | `tar`, the flag, then `src -C workdir`; the result is the first entry of the work directory |
| RecipeBase.ConfigureArgvLayout | myppy/recipes/base.py:129-139 | the script's words, one `--prefix=` option, the arguments in order, then the variables, none when `None` |
| RecipeBase.GenericConfigure | myppy/recipes/base.py:121-142 | the defaults are taken from the recipe's fields when arguments are `None`, and the command runs in the configure directory |
| RecipeBase.MakeArgvLayout | myppy/recipes/base.py:150-158 | `make`, the variables, `-f makefile` if given, `-C dir`, then the target if given |
| RecipeBase.MakeArgvCompilers | myppy/recipes/linux.py:73-75 | compiler settings are leading variables, present exactly when variables are |
| RecipeBase.GenericMake | myppy/recipes/base.py:144-159 | the command with `MAKE_VARS`/`MAKE_RELPATH` defaults, in the build directory |
| RecipeBase.GenericCMake | myppy/recipes/base.py:214-229 | `cmake`, the fixed options, the arguments, `..`, run from `MYPPY-BUILD` |
| RecipeBase.BindAll | myppy/recipes/linux.py:48-51 | one `NAME=value` argument per setting, in order |
| RecipeBase.BindingOf | myppy/recipes/linux.py:48-51 | a `NAME=value` argument reads back as its name and value |
| RecipeBase.BindAllBindings | myppy/recipes/linux.py:48-51 | each argument of a list of bindings reads back as its setting |
| RecipeBase.WithDefaults | myppy/recipes/linux.py:55-60 | `copy` then `setdefault`: the keys are the caller's plus the defaults', and the caller's values win |
| RecipeBase.SetDefaults | myppy/recipes/linux.py:55-60 | the `setdefault` calls compute `WithDefaults` |
| RecipeBase.WithDefaultsFirst | myppy/recipes/linux.py:55-60 | a key the caller did not set gets the first default given for it |
| RecipeBase.WithDefaultsDistinct | myppy/recipes/linux.py:55-60 | with distinct keys every unset key gets its default |
| RecipeBase.PatchTarget | myppy/recipes/base.py:180-181 | an absolute path is kept; a relative one resolves against the prefix |
| RecipeBase.PatchTargetBelow | myppy/recipes/base.py:180-181 | a relative name lands directly inside the prefix |
| RecipeBase.ReadLines | myppy/recipes/base.py:186 | a file's lines are non-empty and each but the last ends in a newline |
| RecipeBase.ConcatReadLines | myppy/recipes/base.py:186-187 | writing back the lines read gives the contents back |
| RecipeBase.PatchFile | myppy/recipes/base.py:178-191 | the target's contents become the filter's output, its mode kept, no other file changed; a missing file or failing filter fails |
| RecipeBase.PatchFileIdentity | myppy/recipes/base.py:178-191 | the identity filter leaves every file as it was |
| RecipeBase.OptimizeLine | myppy/recipes/base.py:264-266 | the line with every `-O2`, then every `-O3`, replaced by `-Os`; no `-O2` or `-O3` is left, the length is kept, and a line without them is unchanged |
| RecipeBase.OptimizeForSize | myppy/recipes/base.py:264-266 | one line out per line in |
| RecipeBase.AdditLine | myppy/recipes/base.py:271-276 | a `#modnm` line loses its `#`; any other line is unchanged |
| RecipeBase.Addit | myppy/recipes/base.py:270-276 | one line out per line in |
| RecipeBase.DontCopyDylib | myppy/recipes/base.py:402-405 | keeps exactly the lines that do not copy the shared library |
| RecipeBase.MakeConfigureExecutable | myppy/recipes/base.py:440-444 | the perl shebang replaces the first line and the rest are kept; an empty file gets the shebang alone |
| RecipeBase.MakeConfigureExecutableTwice | myppy/recipes/base.py:440-444 | running the filter twice is the same as once |
| RecipeBase.ZipfileRewritePrefix | myppy/recipes/base.py:286-370 | lines before the first marker pass unchanged |
| RecipeBase.ZipfileRewriteBadEocd | myppy/recipes/base.py:291-303 | the signature comment and the four lines after it give way to the `find_endof_central_dir` check |
| RecipeBase.ZipfileRewriteDecl | myppy/recipes/base.py:288-290 | the `read_directory` declaration is followed by the new prototype |
| RecipeBase.ZipfileRewriteZlib | myppy/recipes/base.py:304-369 | the search function's definition goes before the zlib comment |
| RecipeBase.ZipLineKindMarkers | myppy/recipes/base.py:288-304 | a line is a marker iff its stripped text is one of the three the filter tests |
| RecipeBase.DontBuildExtraModulesAsWritten | myppy/recipes/base.py:641-649 | as written: keeps exactly the lines that mention none of `EXTRA_MODS` |
| RecipeBase.DontBuildExtraModules | myppy/recipes/base.py:641-649 | corrected: keeps exactly the lines that mention none of the six modules, `QtNetwork` spelled right |
| RecipeBase.QtNetworkKept | myppy/recipes/base.py:642-643 | as written a `QtNetwork` line survives; the corrected filter drops it |
| RecipeLinux.ConfigureVarsBindings | myppy/recipes/linux.py:46-61 | `CONFIGURE_VARS` binds the wrappers, then exactly the flag defaults `_generic_configure` falls back to, same names and order |
| RecipeLinux.ConfigureEnvDefaults | myppy/recipes/linux.py:53-60 | the fallback names each flag once, so an unset flag gets the recipe's value |
| RecipeLinux.GenericConfigure | myppy/recipes/linux.py:53-61 | the defaults go into a copy of the caller's environment only when both `vars` and `CONFIGURE_VARS` are `None`; otherwise the environment is passed unchanged |
| RecipeLinux.GenericMake | myppy/recipes/linux.py:63-81 | `CC=apgcc CXX=apg++` before the variables; `LD_LIBRARY_PATH` defaulted in a copied environment |
| RecipeLinux.MakeEnvDefault | myppy/recipes/linux.py:65-66 | the caller's keys keep their values and `LD_LIBRARY_PATH` is set when the caller did not set it |
| RecipeLinux.BraceKindStrip | myppy/recipes/linux.py:118-120 | a line opens or closes a body iff it strips to `{` or `}` |
| RecipeLinux.CloseFrom | myppy/recipes/linux.py:120-121 | the first closing line at or after a position, or the end |
| RecipeLinux.CloseFromSkips | myppy/recipes/linux.py:120-121 | lines that close nothing are skipped over |
| RecipeLinux.StubPassesPlainLines | myppy/recipes/linux.py:124-125 | lines before the first device header pass through |
| RecipeLinux.StubKeepsPlainFile | myppy/recipes/linux.py:113-125 | a file without device headers is unchanged |
| RecipeLinux.StubReplacesBody | myppy/recipes/linux.py:115-123 | a device function's body between `{` and the first `}` becomes `return 0;` |
| RecipeLinux.StubRejectsMissingBrace | myppy/recipes/linux.py:117-118 | a header whose next line is not `{` fails the assertion |
| RecipeLinux.StubTruncatesOpenBody | myppy/recipes/linux.py:120-121 | a body that never closes ends the output after its `{` line |
| RecipeLinux.RemoveHaveEpoll | myppy/recipes/linux.py:184-187 | keeps exactly the lines without `HAVE_EPOLL` |
| RecipeLinux.RemoveHaveEpollLinewise | myppy/recipes/linux.py:184-187 | the filter works line by line in order, and a file without `HAVE_EPOLL` is unchanged |
| RecipeLinux.GnuSourceRewrite | myppy/recipes/linux.py:201-204 | a `CFLAG=` line keeps its start, ends in ` -D_GNU_SOURCE\n` and has no `-O3` left; it is the stripped line with `-O3` replaced by `-Os`, then the flag, since the appended flag holds no `-O3` |
| RecipeLinux.GnuSourceTail | myppy/recipes/linux.py:202-203 | the appended flag neither holds `-O3` nor completes one |
| RecipeLinux.EnsureGnuSourceLine | myppy/recipes/linux.py:199-206 | other lines unchanged; a `CFLAG=` line becomes its stripped text with `-O3` replaced by `-Os`, followed by ` -D_GNU_SOURCE\n`, as above |
| RecipeLinux.EnsureGnuSource | myppy/recipes/linux.py:199-206 | one line out per line in |
| RecipeLinux.UndisableDeprecatedLine | myppy/recipes/linux.py:252-259 | a line holding only the flag goes; every other line is kept once with each occurrence of the flag deleted, shortened by at least the flag when it held one; a line without it is unchanged |
| RecipeLinux.UndisableDeprecatedLines | myppy/recipes/linux.py:252-259 | exactly the flag-only lines are dropped, and a file without the flag is unchanged |
| RecipeLinux.DontUseNewerFuncsLine | myppy/recipes/linux.py:287-296 | the first of `pipe2`, `dup3`, `accept4` the line mentions has every occurrence replaced by its `disabled_` form, and that form is in the result; a line with none is unchanged |
| Text.ReplaceAllAbsent | myppy/recipes/linux.py:291-296 | `str.replace` leaves a string without the pattern unchanged |
| RecipeLinux.DontUseNewerFuncs | myppy/recipes/linux.py:287-296 | one line out per line in |
| RecipeLinux.DontUsePthreadCleanupLine | myppy/recipes/linux.py:301-308 | a push line goes, a pop line becomes the `finish` call, and other lines are kept |
| RecipeLinux.DontUsePthreadCleanupLines | myppy/recipes/linux.py:301-308 | exactly the push lines are dropped, and a file using neither call is unchanged |
| RecipeLinux.FirstInclude | myppy/recipes/linux.py:372-375 | the index of the first `#include` line, or none |
| RecipeLinux.IncludeTypeinfo | myppy/recipes/linux.py:371-379 | `#include <typeinfo>` goes right before the first `#include`; without one the file is unchanged |
| RecipeMacosx.ArchOptions | myppy/recipes/macosx.py:50 | one `-arch` option per target architecture |
| RecipeMacosx.ArchWords | myppy/recipes/macosx.py:50 | two words per architecture |
| RecipeMacosx.ArchWordsAt | myppy/recipes/macosx.py:50 | the i-th pair is `-arch` and the i-th architecture |
| RecipeMacosx.ArchOptionsWords | myppy/recipes/macosx.py:50 | the options joined are the words joined |
| RecipeMacosx.CFlagsWords | myppy/recipes/macosx.py:48-51 | `CFLAGS` splits into an `-arch` pair per architecture in order, then the include directory, minimum OS version and SDK |
| RecipeMacosx.UniversalConfigureVars | myppy/recipes/macosx.py:28-65 | the universal `CONFIGURE_VARS` binds `CC`, `CXX`, `LDFLAGS`, then `CFLAGS` with an `-arch` pair per target architecture and `CXXFLAGS` equal to it |
| RecipeMacosx.ConfigureVarsNamed | myppy/recipes/macosx.py:58-64 | `CONFIGURE_VARS` binds `CC`, `CXX`, `LDFLAGS`, `CFLAGS`, `CXXFLAGS` in that order, each to the toolchain's setting |
| RecipeMacosx.NWayCompilerWords | myppy/recipes/macosx.py:145-151 | the n-way compiler names exactly the architecture being built |
| RecipeMacosx.ConfigureVarsBindings | myppy/recipes/macosx.py:58-64 | each configure variable reads back as the setting it stands for; five distinct names |
| RecipeMacosx.GenericConfigure | myppy/recipes/macosx.py:74-82 | the compiler settings are defaulted in a copy only when both `vars` and `CONFIGURE_VARS` are `None` |
| RecipeMacosx.MakeCommand | myppy/recipes/macosx.py:84-115 | `CC=…` and `CXX=…` before the variables; `DYLD_FALLBACK_LIBRARY_PATH` defaulted in a copied environment |
| RecipeMacosx.GenericMake | myppy/recipes/macosx.py:84-98 | the make command with no makefile and no target |
| RecipeMacosx.GenericMakeInstall | myppy/recipes/macosx.py:101-115 | the same command ending in `install` |
| RecipeMacosx.MakeInstallExtendsMake | myppy/recipes/macosx.py:108-112 | `make install` is the plain make command with `install` appended |
| RecipeMacosx.GetBuilddir | myppy/recipes/macosx.py:118-134 | the first entry that is neither a target architecture nor `fat`; `no build dir` iff there is none |
| RecipeMacosx.ArchDirSibling | myppy/recipes/macosx.py:173-181 | the local architecture uses the work directory; any other architecture gets a sibling named after it |
| RecipeMacosx.ArchDirsApart | myppy/recipes/macosx.py:173-181 | architecture directories are distinct from each other, from the work directory and from `fat` |
| RecipeMacosx.SiblingsApart | myppy/recipes/macosx.py:177 | different names give different paths in one directory |
| RecipeMacosx.NWayArchDirs | myppy/recipes/macosx.py:172-181 | one (architecture, directory) pair per target architecture, in order |
| RecipeMacosx.NWayConfigure | myppy/recipes/macosx.py:168-193 | one configure run per architecture, in its directory, with its compilers and the recipe's own attributes for that architecture |
| RecipeMacosx.NWayConfigureArch | myppy/recipes/macosx.py:183-192 | one pass of the loop is `NWayConfigureRun`: the generic configure of the recipe's attributes for the architecture, in its directory |
| RecipeMacosx.NWayConfigureDir | myppy/recipes/macosx.py:191-192 | for an absolute work directory each run happens in its architecture's directory |
| RecipeMacosx.ConfigureEnv | myppy/recipes/macosx.py:74-81 | with variables the environment is the caller's; with none each compiler setting is defaulted |
| RecipeMacosx.NWayConfigureGivenVars | myppy/recipes/macosx.py:183-192 | a recipe with its own `CONFIGURE_VARS` gets them at the end of each architecture's command and the caller's environment; a recipe that sets none has the five mac variables of that architecture |
| RecipeMacosx.NWayConfigureEnvDefaults | myppy/recipes/macosx.py:74-81 | a recipe whose `CONFIGURE_VARS` is `None`, as `lib_zlib`'s is, gets no variables on the command line; the caller's settings are kept and each unset compiler setting gets the architecture's value |
| RecipeMacosx.OtherArchs | myppy/recipes/macosx.py:198-200 | exactly the target architectures other than the local one |
| RecipeMacosx.NWayMake | myppy/recipes/macosx.py:195-208 | a make per other architecture in its directory with its compilers and the recipe's own `MAKE_VARS`, then the usual make for the local one |
| RecipeMacosx.NWayMakeArch | myppy/recipes/macosx.py:201-206 | one pass of the loop is `NWayMakeRun`: the generic make of the recipe's attributes for the architecture |
| RecipeMacosx.NWayMakeDir | myppy/recipes/macosx.py:205-206 | for an absolute work directory the doubled join still names the architecture's directory |
| RecipeMacosx.NWayMakeVars | myppy/recipes/macosx.py:201-206 | each other architecture's make has the compilers, then the recipe's `MAKE_VARS` in order, then `-C` and the directory; a recipe that sets none has the mac `CFLAGS` |
| RecipeMacosx.LipoInputs | myppy/recipes/macosx.py:226-233 | three inputs per architecture |
| RecipeMacosx.LipoInputsAt | myppy/recipes/macosx.py:226-233 | the i-th triple is `-arch`, the architecture and its copy of the file |
| RecipeMacosx.LipoArgvLayout | myppy/recipes/macosx.py:225-235 | `lipo -create`, every architecture with its copy, then `-output` below `fat` |
| PosixPath.AfterLast | myppy/recipes/macosx.py:218 | where the text after the last `.` starts: nothing after it is a `.`, and the character before it is one unless it is 0 |
| RecipeMacosx.ExtOf | myppy/recipes/macosx.py:218 | the extension of `stem.ext` is `ext` |
| RecipeMacosx.MergesFileCases | myppy/recipes/macosx.py:218-221 | a file is merged iff its extension is `dylib`, `so`, `o` or `a`, or `file` calls it Mach-O |
| RecipeMacosx.GenericCMake | myppy/recipes/macosx.py:248-266 | the cmake command runs in the build directory, with the flags defaulted in a copy of the caller's environment |
| RecipeMacosx.CMakeArchitectures | myppy/recipes/macosx.py:256 | `CMAKE_OSX_ARCHITECTURES` splits on `;` back into the target architectures |
| RecipeMacosx.DedupArchsLine | myppy/recipes/macosx.py:299-306 | an `archs.sort()` line gets the indentation and the de-duplicating statement before it; other lines are kept |
| RecipeMacosx.HandleDuplicateArchNamesCount | myppy/recipes/macosx.py:299-306 | two chunks are added per sort line, and a file without sort lines is unchanged |
| RecipeMacosx.AppsDirLine | myppy/recipes/macosx.py:309-314 | a `PYTHONAPPSDIR=` line names the prefix; other lines are kept |
| RecipeMacosx.SetPythonAppsDirSpec | myppy/recipes/macosx.py:309-314 | one line per line; the rewrite as above; running it again changes nothing |
| RecipeMacosx.FrameworksLine | myppy/recipes/macosx.py:447-457 | a system `add_directory(` line becomes `pass` at its indentation; the framework loop gets a `break` 4 deeper |
| RecipeMacosx.DontUseSystemFrameworksKeeps | myppy/recipes/macosx.py:447-457 | a `setup.py` with neither kind of line is unchanged |

## Left out

- Subprocesses (`do`, `bt`) are not run. `make`, `configure`, `tar`, `cmake`, `lipo`, `patchelf` and `install_name_tool` become the argument lists they would receive, recorded as commands. The output of `objdump`, `file`, `lipo` and `otool` is given as input strings.
- `otool -L` runs twice on a file. Its output is modelled as one deterministic function of the path, so both calls see the same text.
- The commands that only query (`bt` runs such as `find`, `/usr/bin/arch`) are not listed among the commands run. `LOCAL_ARCH` is a parameter.
- Fetching, MD5 checking and the download cache are left out; `Recipe.fetch` is a step that passes or fails. `Recipe.build` and `Recipe.install` together are one step that changes the tree.
- The sqlite engine and cross-process `BEGIN IMMEDIATE` locking are left out. The tables are in memory and the transaction is a depth counter with a snapshot of the tables.
- A rollback does not bring back files already removed from disk, as in the source.
- `load_recipe` and the class synthesis of `_load_recipe_subclass` are replaced by a map from name to recipe dependencies and conflicts.
- Python's recursion limit on `install` is a `fuel` parameter. Running out is a `RecursionLimit` failure; the source has no such bound besides the interpreter's own.
- The environment rooted at `/` is left out: `file[len(rootdir)+1:]` would drop a character there. The root is absolute without a trailing separator.
- `os.listdir` order is arbitrary. The tree keeps its entries in a fixed order, which is taken as the listing order.
- `find_new_files` deletes undecodable names and tolerates vanished directories; neither is modelled. Symlink tests via `realpath` and `isrealdir` are left out: a directory entry is a real directory.
- `clean` is a generator: its sqlite cursor and the walk interleave with the deletions. It is modelled as a snapshot of the installed recipes, then the uninstalls, then the walk, then the unlinks.
- `_old_files_cache` is not modelled separately: `_is_oldfile` is modelled as the membership test on the recorded rows. The two differ after a rollback. `record_files` adds paths to the cache, and an outermost rollback drops their rows but not the cache entries. Those paths then still count as old. The model treats them as new files, as a fresh process would.
- `shutil.copytree`/`rmtree` inside the n-way build, `make clean` in `_nway_configure`, and the file copying and `copystat` of `_nway_merge` are left out. `_nway_merge`'s `lipo` command and extension test are modelled.
- Tool existence tests (`PREFIX/bin/patchelf`) are a `Lookup` on the tree.
- Printing and logging are left out, including the `print` in `_check_glibc_symbols`.
- Python run with `-O` strips `assert`; asserts are modelled as always checked.
- The OS X `init` symlinks and `load_recipe` override are left out.
- `python26`'s `_patch` line filters are modelled (`HandleDuplicateArchNames`, `SetPythonAppsDir`). Its other members are left out, because the class subclasses a class that does not exist. Also left out are `add_double_link_libs`, which uses an undefined `src`, and `lib_mysql`, which calls a missing `_generic_makeinstall`.
- wxWidgets, Qt, ICU, macholib and py2app recipe details are left out, beyond the line filters modelled above.
- Linux `_generic_pyinstall` and `CMakeRecipe._generic_cmake` defaults are left out. So are the `dont_use_tr1`, `fix_pch_detection` and `add_support_for_pyw_files` filters, and the `lib_tiff` and `lib_shiboken` flag tweaks. They repeat patterns modelled above.
- The OS X `_generic_make` has no `target` or `makefile` parameter, so the base `Recipe.install` path that passes `target` would not run on OS X. The model follows the code: `RecipeMacosx.GenericMake` takes neither.
- EnvBase.MyppyEnv.Install: the dependency-order promise holds only within a conflict-free scope. A later dependency's `CONFLICTS_WITH` can uninstall an earlier dependency, for example `lib_qt4` and `lib_qt4_small` (myppy/recipes/base.py:589-601). The source then records the recipe without it. Outside such a scope the model promises only that installs stay inside the dependency closure and removals are conflicts of its members.
- EnvBase.MyppyEnv.FindNewFiles: states the set of reported paths, not that each path is reported once.
- EnvBase.MyppyEnv.constructor: the stored tables are taken to be ones this program wrote, so every marked recipe has a row.
- EnvMacosx.LinkCommandsMeaning: uses the corrected root test of `_adjust_linker_paths`, `startswith(rootdir + "/")` (see Findings). The code as written is `EnvMacosx.NewPathAsWritten`.
- EnvMacosx.LinkerCommandsMeaning: uses the corrected root test of `_adjust_linker_paths`, `startswith(rootdir + "/")` (see Findings). The code as written is `EnvMacosx.NewPathAsWritten`.
- EnvMacosx.AdjustLink: uses the corrected root test of `_adjust_linker_paths`, `startswith(rootdir + "/")` (see Findings). The code as written is `EnvMacosx.NewPathAsWritten`.
- EnvMacosx.AdjustLinkerPaths: uses the corrected root test of `_adjust_linker_paths`, `startswith(rootdir + "/")` (see Findings). The code as written is `EnvMacosx.NewPathAsWritten`.
- EnvMacosx.FileHookCommands: uses the corrected root test of `_adjust_linker_paths`, `startswith(rootdir + "/")` (see Findings). The code as written is `EnvMacosx.NewPathAsWritten`.
- EnvMacosx.RewriteChangesInside: uses the corrected root test of `_adjust_linker_paths`, `startswith(rootdir + "/")` (see Findings). The code as written is `EnvMacosx.NewPathAsWritten`.
- EnvMacosx.PostProcessCommands: uses the corrected root test of `_adjust_linker_paths`, `startswith(rootdir + "/")` (see Findings). The code as written is `EnvMacosx.NewPathAsWritten`.
- EnvMacosx.RecordOne: uses the corrected root test of `_adjust_linker_paths`, `startswith(rootdir + "/")` (see Findings). The code as written is `EnvMacosx.NewPathAsWritten`.
- EnvMacosx.RecordHooks: uses the corrected root test of `_adjust_linker_paths`, `startswith(rootdir + "/")` (see Findings). The code as written is `EnvMacosx.NewPathAsWritten`.
- EnvLinux.AdjustRpath: for a file outside `PREFIX`, such as `ROOT/lib/libx.so` with `PREFIX` `ROOT/local`, the source's `dirname` walk (myppy/envs/linux.py:69-71) never ends, because `dirname` of `/` is `/`. The model does not loop: it returns the failure `ENDLESS_WALK` with no command, and `EnvLinux.UpCountMeaning` states when no number of steps reaches the prefix.
- EnvLinux.AdjustRpathRun: models that same endless walk as the `ENDLESS_WALK` failure.
- EnvBase.MyppyEnv.Uninstall: the source also removes each file from `_old_files_cache` once the cache is built (myppy/envs/base.py:231-232, built lazily at 279-282). After an uninstall that is rolled back, the rows come back but the cache entries do not, so a second uninstall of that recipe raises `KeyError` in the source. The model has no cache (see above), so its second uninstall proceeds.
- RecipeBase.DontBuildExtraModules is the corrected filter (see Findings). The code as written is `RecipeBase.DontBuildExtraModulesAsWritten`.

## Findings

| source | as written | input that shows it | evidently intended | confidence | as-written member | corrected member |
|---|---|---|---|---|---|---|
| myppy/envs/macosx.py:87-88 | `deppath.startswith(self.rootdir)`, then `deppath[len(self.rootdir)+1:]` | rootdir `/a/env`, dependency `/a/env2/lib/libz.dylib`: it is rewritten to `@executable_path/../..//lib/libz.dylib`, though it lies outside the bundle, and the `2` is dropped | rewrite only dependencies inside the root, `startswith(rootdir + "/")` | not executed; the test lacks the separator that the slice assumes | EnvMacosx.AsWrittenRewritesSibling | EnvMacosx.NewPathInside |
| myppy/recipes/base.py:642-643 | `EXTRA_MODS` lists `"QtNetwok"` | a line `QtNetwork` is kept by `dont_build_extra_modules` | the network module's lines are dropped like the other five | not executed; the name is misspelt | RecipeBase.QtNetworkKept | RecipeBase.DontBuildExtraModules |
