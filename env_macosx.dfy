/** The OS X environment of `myppy/envs/macosx.py`: an application bundle
  * whose Python framework lives under `Contents/Frameworks`, built with the
  * 10.4 SDK for both `i386` and `ppc`, and whose recorded libraries are
  * checked for both architectures and the right SDK and made to load their
  * dependencies relative to the bundle's executable. */
module EnvMacosx {
  import opened Wrappers
  import opened Text
  import opened PosixPath
  import opened EnvModel
  import opened EnvBase

  /** Where this platform keeps the ledger database, relative to the root. */
  const BUNDLE_DB_NAME: string := Join("Contents", "myppy.db")

  /** The bundle's ledger is never taken for an installed file either. */
  lemma BundleLedgerIsTemp(rootdir: string)
    ensures IsTempfile(rootdir, Join(rootdir, BUNDLE_DB_NAME))
  {
    LedgerFileIsTemp(rootdir, "Contents", "myppy.db");
  }

  /** The architectures every library must be built for. */
  const TARGET_ARCHS: seq<string> := ["i386", "ppc"]

  /** The path of the Python framework below the bundle root. */
  const FRAMEWORK: seq<Name> := ["Contents", "Frameworks", "Python.framework", "Versions", "2.7"]

  /** `PREFIX`: the framework's version directory inside the bundle. */
  function FrameworkPrefix(rootdir: string): string {
    JoinAll(rootdir, FRAMEWORK)
  }

  /** Where the interpreter's shared library lies below the prefix. */
  const LIBPYTHON: seq<Name> := ["lib", "libpython2.7.dylib"]

  /** `PYTHON_LIBRARY`: the interpreter's shared library in the framework. */
  function PythonLibrary(rootdir: string): string {
    JoinAll(FrameworkPrefix(rootdir), LIBPYTHON)
  }

  /** The prefix and the interpreter library lie strictly inside the bundle,
    * and the library inside the prefix. */
  lemma FrameworkInsideBundle(rootdir: string)
    requires rootdir != "" && !EndsWith(rootdir, "/")
    ensures StartsWith(FrameworkPrefix(rootdir), rootdir + "/")
    ensures StartsWith(PythonLibrary(rootdir), FrameworkPrefix(rootdir) + "/")
    ensures StartsWith(PythonLibrary(rootdir), rootdir + "/")
    ensures Basename(PythonLibrary(rootdir)) == LIBPYTHON[1]
  {
    JoinAllExtends(rootdir, FRAMEWORK);
    var p := FrameworkPrefix(rootdir);
    JoinAllExtends(p, LIBPYTHON);
    var l := PythonLibrary(rootdir);
    assert l[..|rootdir| + 1] == (p + "/")[..|rootdir| + 1] == p[..|rootdir| + 1];
    BasenameJoin(JoinAll(p, LIBPYTHON[..1]), LIBPYTHON[1]);
  }

  const APPLE_CC: string := "/usr/bin/gcc-4.0"
  const APPLE_CXX: string := "/usr/bin/g++-4.0"
  const DEPLOYMENT_TARGET: string := "10.4"

  /** `self.env` after `__init__`: the base environment for the framework
    * prefix, with Apple's 4.0 compilers and the 10.4 deployment target. */
  function EnvVars(rootdir: string, inherited: map<string, string>): map<string, string> {
    BaseEnvVars(FrameworkPrefix(rootdir), inherited)
      ["CC" := APPLE_CC]["CXX" := APPLE_CXX]["MACOSX_DEPLOYMENT_TARGET" := DEPLOYMENT_TARGET]
  }

  /** The compiler settings are fixed and every other inherited variable
    * but `PATH` is kept. */
  lemma EnvVarsCompilers(rootdir: string, inherited: map<string, string>)
    ensures var env := EnvVars(rootdir, inherited);
      && env["CC"] == APPLE_CC && env["CXX"] == APPLE_CXX && env["MACOSX_DEPLOYMENT_TARGET"] == DEPLOYMENT_TARGET
      && env.Keys == inherited.Keys + {"PATH", "CC", "CXX", "MACOSX_DEPLOYMENT_TARGET"}
      && forall k :: k in inherited && k !in {"PATH", "CC", "CXX", "MACOSX_DEPLOYMENT_TARGET"} ==> env[k] == inherited[k]
  {
  }

  /** The framework's `bin` comes first on `PATH`, before the inherited
    * entries. */
  lemma EnvVarsPath(rootdir: string, inherited: map<string, string>)
    requires ':' !in rootdir
    ensures SplitOn(EnvVars(rootdir, inherited)["PATH"], ':')
         == [Join(FrameworkPrefix(rootdir), "bin")]
            + (if "PATH" in inherited && inherited["PATH"] != "" then SplitOn(inherited["PATH"], ':') else [])
  {
    var bin := Join(FrameworkPrefix(rootdir), "bin");
    assert ':' !in bin by {
      JoinAllNoChar(rootdir, FRAMEWORK + ["bin"], ':');
      assert (FRAMEWORK + ["bin"])[..5] == FRAMEWORK;
    }
    AddEnvPathEntries(inherited, "PATH", bin);
  }

  /** Joining names that lack a character to a root that lacks it gives a
    * path that lacks it. */
  lemma {:induction false} JoinAllNoChar(a: string, names: seq<Name>, c: char)
    requires c != '/' && c !in a && forall i :: 0 <= i < |names| ==> c !in names[i]
    ensures c !in JoinAll(a, names)
    decreases |names|
  {
    if |names| > 0 {
      JoinAllNoChar(a, names[..|names| - 1], c);
    }
  }

  // ---------------------------------------------------------------------
  // The architecture check

  /** The test of one architecture against `lipo -info` output: the
    * refusal carries that output. */
  function ArchTest(archs: string): string -> Option<string> {
    arch => if Contains(archs, arch) then None else Some(archs)
  }

  /** `_check_lib_has_all_archs`, given the output of `lipo -info`. */
  function ArchCheck(lipo: string): Option<string> {
    FirstRefusal(TARGET_ARCHS, ArchTest(Strip(lipo)))
  }

  /** A library passes exactly when `lipo` names both target architectures,
    * and the message of a refusal is what `lipo` said. */
  lemma ArchCheckMeaning(lipo: string)
    ensures ArchCheck(lipo).None? <==> Contains(Strip(lipo), "i386") && Contains(Strip(lipo), "ppc")
    ensures ArchCheck(lipo).Some? ==> ArchCheck(lipo).value == Strip(lipo)
  {
  }

  /** `_check_lib_has_all_archs` as the loop it is. */
  method CheckArchs(lipo: string) returns (failure: Option<string>)
    ensures failure == ArchCheck(lipo)
  {
    var archs := Strip(lipo);
    ghost var test := ArchTest(archs);
    failure := None;
    for i := 0 to |TARGET_ARCHS|
      invariant failure == FirstRefusal(TARGET_ARCHS[..i], test)
    {
      FirstRefusalSnoc(TARGET_ARCHS, test, i);
      if failure.None? && !Contains(archs, TARGET_ARCHS[i]) {
        failure := Some(archs);
      }
    }
    assert TARGET_ARCHS[..|TARGET_ARCHS|] == TARGET_ARCHS;
  }

  // ---------------------------------------------------------------------
  // The SDK check

  const LIBSYSTEM: string := "libSystem.B.dylib"
  const SDK_VERSION: string := "current version 88.3.11"

  /** The lines of `otool -L` output, once stripped. */
  function Links(otool: string): (links: seq<string>)
    ensures |links| > 0
  {
    SplitOn(Strip(otool), '\n')
  }

  /** A line that links the system library must name the 10.4 SDK's
    * version of it. */
  predicate RightSdk(link: string) {
    Contains(link, LIBSYSTEM) ==> Contains(link, SDK_VERSION)
  }

  function SdkTest(fpath: string): string -> Option<string> {
    link => if Contains(link, LIBSYSTEM) && !Contains(link, SDK_VERSION) then Some(fpath + ": wrong SDK\n" + link) else None
  }

  /** `_check_lib_uses_correct_sdk`, given the output of `otool -L`. */
  function SdkCheck(fpath: string, otool: string): Option<string> {
    FirstRefusal(Links(otool), SdkTest(fpath))
  }

  /** A library passes exactly when every line of `otool -L` that names the
    * system library names the right version; a refusal names the library
    * and quotes the first offending line. */
  lemma SdkCheckMeaning(fpath: string, otool: string)
    ensures SdkCheck(fpath, otool).None? <==> forall i :: 0 <= i < |Links(otool)| ==> RightSdk(Links(otool)[i])
    ensures SdkCheck(fpath, otool).Some? ==>
              exists i :: 0 <= i < |Links(otool)| && !RightSdk(Links(otool)[i])
                          && SdkCheck(fpath, otool).value == fpath + ": wrong SDK\n" + Links(otool)[i]
                          && forall j :: 0 <= j < i ==> RightSdk(Links(otool)[j])
  {
    FirstRefusalNone(Links(otool), SdkTest(fpath), RightSdk);
  }

  /** `_check_lib_uses_correct_sdk` as the loop it is. */
  method CheckSdk(fpath: string, otool: string) returns (failure: Option<string>)
    ensures failure == SdkCheck(fpath, otool)
  {
    var links := Links(otool);
    ghost var test := SdkTest(fpath);
    failure := None;
    for i := 0 to |links|
      invariant failure == FirstRefusal(links[..i], test)
    {
      FirstRefusalSnoc(links, test, i);
      if failure.None? && Contains(links[i], LIBSYSTEM) && !Contains(links[i], SDK_VERSION) {
        failure := Some(fpath + ": wrong SDK\n" + links[i]);
      }
    }
    assert links[..|links|] == links;
  }

  // ---------------------------------------------------------------------
  // The linker paths

  const COMPAT: string := "compatibility version"

  /** Where a dependency at `relpath` below the root is loaded from once
    * rewritten: relative to the bundle's executable. */
  function LoaderPath(relpath: string): (r: string)
    ensures EndsWith(r, relpath) && StartsWith(r, "@executable_path/../")
  {
    var up := if StartsWith(relpath, "Contents/") then "@executable_path/../" else "@executable_path/../../";
    assert (up + relpath)[..20] == up[..20];
    up + relpath
  }

  /** The test of `_adjust_linker_paths` as written: a dependency whose path
    * merely starts with the root's characters is rewritten, the character
    * after them dropped as if it were a separator. */
  function NewPathAsWritten(rootdir: string, dep: string): Option<string> {
    if StartsWith(dep, rootdir) then Some(LoaderPath(Rel(rootdir, dep))) else None
  }

  /** A dependency in a sibling directory whose name extends the root's is
    * rewritten as written, though it lies outside the root: its rewritten
    * path does not end with what follows the root. */
  lemma AsWrittenRewritesSibling(rootdir: string, sib: string, rest: string)
    requires |sib| > 0 && sib[0] != '/'
    ensures var dep := rootdir + sib + rest;
      && NewPathAsWritten(rootdir, dep) == Some(LoaderPath(sib[1..] + rest))
      && !StartsWith(dep, rootdir + "/")
  {
    var dep := rootdir + sib + rest;
    assert dep[..|rootdir|] == rootdir;
    assert dep[|rootdir|] == sib[0];
    assert Rel(rootdir, dep) == sib[1..] + rest;
  }

  /** `_adjust_linker_paths`'s test as intended: only a dependency inside the
    * root is rewritten. */
  function NewPath(rootdir: string, dep: string): Option<string> {
    if StartsWith(dep, rootdir + "/") then Some(LoaderPath(Rel(rootdir, dep))) else None
  }

  /** A dependency is rewritten exactly when it is the root, a separator
    * and the part kept, and the new path ends with that part. */
  lemma NewPathInside(rootdir: string, dep: string)
    ensures NewPath(rootdir, dep).Some? <==> dep == rootdir + "/" + Rel(rootdir, dep)
    ensures NewPath(rootdir, dep).Some? ==> EndsWith(NewPath(rootdir, dep).value, Rel(rootdir, dep))
  {
    if dep == rootdir + "/" + Rel(rootdir, dep) {
      assert dep[..|rootdir| + 1] == rootdir + "/";
    }
  }

  /** The two tests agree on every dependency inside the root. */
  lemma NewPathAgrees(rootdir: string, dep: string)
    requires StartsWith(dep, rootdir + "/")
    ensures NewPathAsWritten(rootdir, dep) == NewPath(rootdir, dep)
  {
    assert dep[..|rootdir|] == (rootdir + "/")[..|rootdir|];
  }

  /** `install_name_tool -change <dep> <new> <fpath>` */
  function ChangeCommand(dep: string, newpath: string, fpath: string): seq<string> {
    ["install_name_tool", "-change", dep, newpath, fpath]
  }

  /** The dependency an `otool -L` line names: its first word. */
  function LinkedPath(link: string): string
    requires Contains(link, COMPAT)
  {
    WordsOfContaining(link, COMPAT);
    Words(link)[0]
  }

  /** The command one line of `otool -L` output calls for, if any. */
  function LinkCommands(rootdir: string, fpath: string, link: string): seq<seq<string>> {
    if !Contains(link, COMPAT) then []
    else
      var dep := LinkedPath(link);
      match NewPath(rootdir, dep)
      case None => []
      case Some(np) => [ChangeCommand(dep, np, fpath)]
  }

  /** `c` rewrites, in the library `fpath`, the dependency inside the root
    * that the line `link` names, to the loader path of its place below
    * the root. */
  predicate Rewrites(rootdir: string, fpath: string, link: string, c: seq<string>) {
    Contains(link, COMPAT)
    && var dep := LinkedPath(link);
       && dep == rootdir + "/" + Rel(rootdir, dep)
       && c == ChangeCommand(dep, LoaderPath(Rel(rootdir, dep)), fpath)
  }

  /** A line calls for exactly the rewrite of the dependency it names, when
    * that lies inside the root, and for nothing else. */
  lemma LinkCommandsMeaning(rootdir: string, fpath: string, link: string)
    ensures forall c :: c in LinkCommands(rootdir, fpath, link) <==> Rewrites(rootdir, fpath, link, c)
  {
    if Contains(link, COMPAT) {
      NewPathInside(rootdir, LinkedPath(link));
    }
  }

  function LinkStep(rootdir: string, fpath: string): string -> HookRun {
    link => HookRun(LinkCommands(rootdir, fpath, link), None)
  }

  /** `_adjust_linker_paths`, given the output of `otool -L`: the commands
    * of the lines, in order. */
  function LinkerCommands(rootdir: string, fpath: string, otool: string): seq<seq<string>> {
    Chain(Links(otool), LinkStep(rootdir, fpath)).commands
  }

  /** The commands run are exactly the rewrites the lines call for. */
  lemma LinkerCommandsMeaning(rootdir: string, fpath: string, otool: string)
    ensures forall c :: c in LinkerCommands(rootdir, fpath, otool) <==>
              exists i :: 0 <= i < |Links(otool)| && Rewrites(rootdir, fpath, Links(otool)[i], c)
  {
    var links := Links(otool);
    var step := LinkStep(rootdir, fpath);
    ChainFailure(links, step);
    ChainPasses(links, step);
    ChainKeeps(links, step);
    forall i | 0 <= i < |links| {
      LinkCommandsMeaning(rootdir, fpath, links[i]);
    }
  }

  /** One pass of the loop of `_adjust_linker_paths`. */
  method AdjustLink(rootdir: string, fpath: string, link: string) returns (cmds: seq<seq<string>>)
    ensures cmds == LinkCommands(rootdir, fpath, link)
  {
    cmds := [];
    if Contains(link, COMPAT) {
      var dep := LinkedPath(link);
      if StartsWith(dep, rootdir + "/") {
        var relpath := Rel(rootdir, dep);
        cmds := [ChangeCommand(dep, LoaderPath(relpath), fpath)];
      }
    }
  }

  /** `_adjust_linker_paths` as the loop it is. */
  method AdjustLinkerPaths(rootdir: string, fpath: string, otool: string) returns (cmds: seq<seq<string>>)
    ensures cmds == LinkerCommands(rootdir, fpath, otool)
  {
    var links := Links(otool);
    ghost var step := LinkStep(rootdir, fpath);
    cmds := [];
    for i := 0 to |links|
      invariant Chain(links[..i], step) == HookRun(cmds, None)
    {
      ChainSnoc(links, step, i);
      var more := AdjustLink(rootdir, fpath, links[i]);
      cmds := cmds + more;
    }
    assert links[..|links|] == links;
  }

  // ---------------------------------------------------------------------
  // record_files

  /** What the checks learn from outside: the output of `lipo -info` and of
    * `otool -L` on a path. */
  datatype Tools = Tools(lipo: string -> string, otool: string -> string)

  predicate IsArchive(fnm: string) {
    EndsWith(fnm, ".a")
  }

  predicate IsDylib(fnm: string) {
    EndsWith(fnm, ".dylib") || EndsWith(fnm, ".so")
  }

  /** The body of the loop of `record_files` for one recorded file: a static
    * archive has its architectures checked; a dynamic library has its
    * architectures and SDK checked and its linker paths adjusted; anything
    * else is left alone. */
  function FileHook(rootdir: string, tools: Tools, file: string): HookRun {
    var fpath := Join(rootdir, file);
    var fnm := Basename(fpath);
    if IsArchive(fnm) then HookRun([], ArchCheck(tools.lipo(fpath)))
    else if IsDylib(fnm) then
      match ArchCheck(tools.lipo(fpath))
      case Some(m) => HookRun([], Some(m))
      case None =>
        match SdkCheck(fpath, tools.otool(fpath))
        case Some(m) => HookRun([], Some(m))
        case None => HookRun(LinkerCommands(rootdir, fpath, tools.otool(fpath)), None)
    else HookRun([], None)
  }

  /** A file fails exactly when it is a library that lacks an architecture,
    * or a dynamic library that links the wrong SDK; only a dynamic library
    * that passes both checks has commands run on it. */
  lemma FileHookCases(rootdir: string, tools: Tools, file: string)
    ensures var fpath := Join(rootdir, file);
      var fnm := Basename(fpath);
      var run := FileHook(rootdir, tools, file);
      && (run.failure.Some? <==>
            (IsArchive(fnm) || IsDylib(fnm))
            && (ArchCheck(tools.lipo(fpath)).Some? || (!IsArchive(fnm) && SdkCheck(fpath, tools.otool(fpath)).Some?)))
      && run.commands == (if !IsArchive(fnm) && IsDylib(fnm) && ArchCheck(tools.lipo(fpath)).None?
                             && SdkCheck(fpath, tools.otool(fpath)).None?
                          then LinkerCommands(rootdir, fpath, tools.otool(fpath)) else [])
  {
  }

  function FileStep(rootdir: string, tools: Tools): string -> HookRun {
    file => FileHook(rootdir, tools, file)
  }

  /** The `record_files` override, handed to the base environment as its
    * post-processing hook: the base ledger then records the same files. */
  function PostProcess(rootdir: string, tools: Tools): (string, seq<string>, seq<Entry>) -> HookRun {
    (recipe, files, disk) => Chain(files, FileStep(rootdir, tools))
  }

  /** A command run on a file rewrites a dependency inside the root, in
    * that file, which is a dynamic library. */
  lemma FileHookCommands(rootdir: string, tools: Tools, file: string)
    ensures forall c :: c in FileHook(rootdir, tools, file).commands ==>
              IsDylib(Basename(Join(rootdir, file))) && ChangesInside(rootdir, Join(rootdir, file), c)
  {
    var fpath := Join(rootdir, file);
    var otool := tools.otool(fpath);
    FileHookCases(rootdir, tools, file);
    LinkerCommandsMeaning(rootdir, fpath, otool);
    forall c | c in FileHook(rootdir, tools, file).commands
      ensures ChangesInside(rootdir, fpath, c)
    {
      assert c in LinkerCommands(rootdir, fpath, otool);
      var i :| 0 <= i < |Links(otool)| && Rewrites(rootdir, fpath, Links(otool)[i], c);
      RewriteChangesInside(rootdir, fpath, Links(otool)[i], c);
    }
  }

  lemma RewriteChangesInside(rootdir: string, fpath: string, link: string, c: seq<string>)
    requires Rewrites(rootdir, fpath, link, c)
    ensures ChangesInside(rootdir, fpath, c)
  {
    var dep := LinkedPath(link);
    var rel := Rel(rootdir, dep);
    assert c == ChangeCommand(dep, LoaderPath(rel), fpath);
    assert StartsWith(dep, rootdir + "/") by {
      assert dep == rootdir + "/" + rel;
      assert (rootdir + "/" + rel)[..|rootdir| + 1] == rootdir + "/";
    }
  }

  /** `c` is `install_name_tool -change` on the file `fpath`, for a
    * dependency inside the root. */
  predicate ChangesInside(rootdir: string, fpath: string, c: seq<string>) {
    |c| == 5 && c == ChangeCommand(c[2], c[3], fpath) && StartsWith(c[2], rootdir + "/")
  }

  /** Every command the override runs rewrites a dependency inside the root,
    * in a recorded dynamic library; and it passes exactly when every file
    * passes. */
  lemma PostProcessCommands(rootdir: string, tools: Tools, recipe: string, files: seq<string>, disk: seq<Entry>)
    ensures forall c :: c in PostProcess(rootdir, tools)(recipe, files, disk).commands ==>
              exists i :: 0 <= i < |files| && IsDylib(Basename(Join(rootdir, files[i])))
                          && ChangesInside(rootdir, Join(rootdir, files[i]), c)
    ensures PostProcess(rootdir, tools)(recipe, files, disk).failure.None?
        <==> forall i :: 0 <= i < |files| ==> FileHook(rootdir, tools, files[i]).failure.None?
  {
    var step := FileStep(rootdir, tools);
    ChainFailure(files, step);
    ChainPasses(files, step);
    forall i | 0 <= i < |files| {
      FileHookCommands(rootdir, tools, files[i]);
    }
  }

  /** One pass of the loop of `record_files`. */
  method RecordOne(rootdir: string, tools: Tools, file: string) returns (run: HookRun)
    ensures run == FileHook(rootdir, tools, file)
  {
    run := HookRun([], None);
    var fpath := Join(rootdir, file);
    var fnm := Basename(fpath);
    if IsArchive(fnm) {
      var bad := CheckArchs(tools.lipo(fpath));
      run := HookRun([], bad);
    } else if IsDylib(fnm) {
      var bad := CheckArchs(tools.lipo(fpath));
      if bad.Some? {
        run := HookRun([], bad);
      } else {
        bad := CheckSdk(fpath, tools.otool(fpath));
        if bad.Some? {
          run := HookRun([], bad);
        } else {
          var cmds := AdjustLinkerPaths(rootdir, fpath, tools.otool(fpath));
          run := HookRun(cmds, None);
        }
      }
    }
  }

  /** `record_files` up to the call of the base class: the checks and
    * fix-ups, file by file, until one fails. */
  method RecordHooks(rootdir: string, tools: Tools, recipe: string, files: seq<string>, disk: seq<Entry>)
    returns (run: HookRun)
    ensures run == PostProcess(rootdir, tools)(recipe, files, disk)
  {
    ghost var step := FileStep(rootdir, tools);
    run := HookRun([], None);
    var i := 0;
    while i < |files| && run.failure.None?
      invariant 0 <= i <= |files|
      invariant run == Chain(files[..i], step)
    {
      var r := RecordOne(rootdir, tools, files[i]);
      ChainExtend(files, step, i, run, r);
      run := HookRun(run.commands + r.commands, r.failure);
      i := i + 1;
    }
    ChainDone(files, step, i, run);
  }

  /** An OS X environment over an existing bundle and its stored tables: the
    * base environment with the base dependencies and this platform's
    * `record_files` override. */
  method NewEnv(rootdir: string, registry: Registry, fetchStep: string -> bool,
                buildStep: (string, seq<Entry>) -> (seq<Entry>, bool), tools: Tools, disk: seq<Entry>,
                storedRows: seq<Row>, storedMarked: set<string>)
    returns (env: MyppyEnv)
    requires IsAbs(rootdir) && !EndsWith(rootdir, "/")
    requires MarkedInstalled(storedRows, storedMarked)
    ensures fresh(env) && env.Valid()
    ensures env.rootdir == rootdir && env.registry == registry && env.dependencies == BASE_DEPENDENCIES
    ensures env.postProcess == PostProcess(rootdir, tools)
    ensures env.rows == storedRows && env.marked == storedMarked && env.lockDepth == 0 && env.disk == disk && env.commands == []
  {
    env := new MyppyEnv(rootdir, registry, BASE_DEPENDENCIES, fetchStep, buildStep, PostProcess(rootdir, tools), disk,
                          storedRows, storedMarked);
  }
}
