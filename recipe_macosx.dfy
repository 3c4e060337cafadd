/** The Mac OS X flavour of the recipes: builds target the 10.4 universal
  * SDK with gcc 4.0, either with one `-arch` flag per target architecture
  * or, for n-way recipes, once per architecture in sibling directories
  * whose results `lipo` merges. */
module RecipeMacosx {
  import opened Wrappers
  import opened Text
  import opened PosixPath
  import opened Lines
  import opened RecipeBase

  // ---------------------------------------------------------------------
  // Compiler settings
  // ---------------------------------------------------------------------

  const ISYSROOT: string := "/Developer/SDKs/MacOSX10.4u.sdk"
  const GCC: string := "/usr/bin/gcc-4.0"
  const GXX: string := "/usr/bin/g++-4.0"
  const VERSION_MIN: string := "-mmacosx-version-min=10.4"

  function LdFlags(prefix: string): string {
    "-L" + Join(prefix, "lib") + " -lstdc++"
  }

  function IncFlags(prefix: string): string {
    "-I" + Join(prefix, "include")
  }

  /** `"-arch " + arch` for each target architecture. */
  function ArchOptions(archs: seq<string>): (r: seq<string>)
    ensures |r| == |archs|
    decreases |archs|
  {
    if |archs| == 0 then [] else ["-arch " + archs[0]] + ArchOptions(archs[1..])
  }

  /** The words after the architectures in `CFLAGS`. */
  function CFlagsTail(prefix: string): seq<string> {
    [IncFlags(prefix), VERSION_MIN, "-isysroot", ISYSROOT]
  }

  /** `Recipe.CFLAGS` (and `CXXFLAGS`, which is the same string): the
    * space-joined architecture options, the include option, the version
    * option and the SDK option, one space apart. */
  function CFlags(archs: seq<string>, prefix: string): string {
    JoinWith(" ", [JoinWith(" ", ArchOptions(archs))] + CFlagsTail(prefix))
  }

  /** The words the compiler is given for the target architectures:
    * `-arch` and the name, for each one. */
  function ArchWords(archs: seq<string>): (r: seq<string>)
    ensures |r| == 2 * |archs|
    decreases |archs|
  {
    if |archs| == 0 then [] else ["-arch", archs[0]] + ArchWords(archs[1..])
  }

  /** The `i`th architecture's pair of words. */
  lemma {:induction false} ArchWordsAt(archs: seq<string>, i: nat)
    requires i < |archs|
    ensures ArchWords(archs)[2 * i] == "-arch" && ArchWords(archs)[2 * i + 1] == archs[i]
    decreases i
  {
    if i > 0 {
      ArchWordsAt(archs[1..], i - 1);
    }
  }

  /** No architecture word holds a space when no name does. */
  lemma {:induction false} ArchWordsNoSpace(archs: seq<string>)
    requires forall i :: 0 <= i < |archs| ==> ' ' !in archs[i]
    ensures forall k :: 0 <= k < |ArchWords(archs)| ==> ' ' !in ArchWords(archs)[k]
    decreases |archs|
  {
    if |archs| > 0 {
      ArchWordsNoSpace(archs[1..]);
      var w := ArchWords(archs);
      assert w == ["-arch", archs[0]] + ArchWords(archs[1..]);
      assert ' ' !in "-arch";
      forall k | 0 <= k < |w| ensures ' ' !in w[k] {
        if k >= 2 { assert w[k] == ArchWords(archs[1..])[k - 2]; }
      }
    }
  }

  /** The architecture options, joined, are the architecture words joined. */
  lemma {:induction false} ArchOptionsWords(archs: seq<string>)
    requires |archs| > 0
    ensures JoinWith(" ", ArchOptions(archs)) == JoinWith(" ", ArchWords(archs))
    decreases |archs|
  {
    var a := archs[0];
    var head := ["-arch", a];
    assert JoinWith(" ", head) == "-arch " + a by {
      JoinWithCons(" ", "-arch", [a]);
      assert "-arch " + a == "-arch" + " " + a;
    }
    if |archs| > 1 {
      ArchOptionsWords(archs[1..]);
      JoinWithAppend(" ", head, ArchWords(archs[1..]));
      JoinWithCons(" ", "-arch " + a, ArchOptions(archs[1..]));
    }
  }

  /** Joins of space-free words hold no space. */
  lemma {:induction false} JoinNoSpace(a: string, b: string)
    requires ' ' !in a && ' ' !in b
    ensures ' ' !in Join(a, b)
  {
    assert ' ' !in "/";
  }

  lemma CFlagsTailNoSpace(prefix: string)
    requires ' ' !in prefix
    ensures forall k :: 0 <= k < 4 ==> ' ' !in CFlagsTail(prefix)[k]
  {
    JoinNoSpace(prefix, "include");
    assert ' ' !in "-I";
    assert ' ' !in VERSION_MIN && ' ' !in "-isysroot" && ' ' !in ISYSROOT;
  }

  /** The flags the compiler is given for the target architectures: a
    * separate `-arch` pair for each one, in order, then the include
    * directory, the minimum OS version and the SDK, when neither the
    * architectures nor the prefix hold a space. */
  lemma CFlagsWords(archs: seq<string>, prefix: string)
    requires |archs| > 0 && forall i :: 0 <= i < |archs| ==> ' ' !in archs[i]
    requires ' ' !in prefix
    ensures SplitOn(CFlags(archs, prefix), ' ') == ArchWords(archs) + CFlagsTail(prefix)
  {
    var aw := ArchWords(archs);
    var tail := CFlagsTail(prefix);
    var words := aw + tail;
    ArchOptionsWords(archs);
    JoinWithAppend(" ", aw, tail);
    JoinWithCons(" ", JoinWith(" ", ArchOptions(archs)), tail);
    assert CFlags(archs, prefix) == JoinWith(" ", words);
    ArchWordsNoSpace(archs);
    CFlagsTailNoSpace(prefix);
    PartsFreeConcat(aw, tail, ' ');
    SplitJoin(words, ' ');
  }

  /** `NWayRecipe.CC` and `CXX` while building for `arch`: the compiler
    * driver, the version option, the one architecture and the SDK option,
    * one space apart. */
  function NWayCompiler(driver: string, arch: string): string {
    JoinWith(" ", [driver, VERSION_MIN, "-arch", arch, "-isysroot", ISYSROOT])
  }

  /** The n-way compiler command names exactly one architecture, the one
    * being built. */
  lemma NWayCompilerWords(driver: string, arch: string)
    requires ' ' !in driver && ' ' !in arch
    ensures SplitOn(NWayCompiler(driver, arch), ' ') == [driver, VERSION_MIN, "-arch", arch, "-isysroot", ISYSROOT]
  {
    var words := [driver, VERSION_MIN, "-arch", arch, "-isysroot", ISYSROOT];
    assert ' ' !in VERSION_MIN && ' ' !in "-arch" && ' ' !in "-isysroot" && ' ' !in ISYSROOT;
    assert forall k :: 0 <= k < |words| ==> ' ' !in words[k];
    SplitJoin(words, ' ');
  }

  /** The compiler attributes a recipe class defines. */
  datatype Toolchain = Toolchain(cc: string, cxx: string, ldflags: string, cflags: string, cxxflags: string)

  /** `Recipe`: one universal build with every target architecture. */
  function UniversalToolchain(archs: seq<string>, prefix: string): Toolchain {
    Toolchain(GCC, GXX, LdFlags(prefix), CFlags(archs, prefix), CFlags(archs, prefix))
  }

  /** The configure variables of a universal build: the plain compiler
    * drivers, and `CFLAGS` and `CXXFLAGS` that name every target
    * architecture, each after its own `-arch`, followed by the include,
    * version and SDK options. */
  lemma UniversalConfigureVars(archs: seq<string>, prefix: string)
    requires |archs| > 0 && forall i :: 0 <= i < |archs| ==> ' ' !in archs[i]
    requires ' ' !in prefix
    ensures var vs := ConfigureVars(UniversalToolchain(archs, prefix));
      |vs| == 5 && Binding(vs[0]) == ("CC", GCC) && Binding(vs[1]) == ("CXX", GXX)
      && Binding(vs[2]) == ("LDFLAGS", LdFlags(prefix))
      && Binding(vs[3]).0 == "CFLAGS" && Binding(vs[4]).0 == "CXXFLAGS"
      && SplitOn(Binding(vs[3]).1, ' ') == ArchWords(archs) + CFlagsTail(prefix)
      && Binding(vs[4]).1 == Binding(vs[3]).1
  {
    ConfigureVarsNamed(UniversalToolchain(archs, prefix));
    CFlagsWords(archs, prefix);
  }

  /** The five configure variables one by one. */
  lemma ConfigureVarsNamed(t: Toolchain)
    ensures var vs := ConfigureVars(t);
      |vs| == 5 && Binding(vs[0]) == ("CC", t.cc) && Binding(vs[1]) == ("CXX", t.cxx)
      && Binding(vs[2]) == ("LDFLAGS", t.ldflags) && Binding(vs[3]) == ("CFLAGS", t.cflags)
      && Binding(vs[4]) == ("CXXFLAGS", t.cxxflags)
  {
    ConfigureVarsBindings(t);
    var vs, ds := ConfigureVars(t), ConfigureDefaults(t);
    assert Binding(vs[0]) == ds[0] && Binding(vs[1]) == ds[1] && Binding(vs[2]) == ds[2];
    assert Binding(vs[3]) == ds[3] && Binding(vs[4]) == ds[4];
  }

  /** `NWayRecipe` while `TARGET_ARCH` is `arch`: the architecture moves
    * into the compiler command and the flags keep only the includes. */
  function NWayToolchain(arch: string, prefix: string): Toolchain {
    Toolchain(NWayCompiler(GCC, arch), NWayCompiler(GXX, arch), LdFlags(prefix), IncFlags(prefix), IncFlags(prefix))
  }

  /** The settings `CONFIGURE_VARS` binds and `_generic_configure` would
    * fall back to. */
  function ConfigureDefaults(t: Toolchain): seq<(string, string)> {
    [("CC", t.cc), ("CXX", t.cxx), ("LDFLAGS", t.ldflags), ("CFLAGS", t.cflags), ("CXXFLAGS", t.cxxflags)]
  }

  /** `Recipe.CONFIGURE_VARS` */
  function ConfigureVars(t: Toolchain): seq<string> {
    BindAll(ConfigureDefaults(t))
  }

  /** `Recipe.MAKE_VARS` */
  function MakeVars(t: Toolchain): seq<string> {
    [Bind("CFLAGS", t.cflags)]
  }

  /** The compiler settings `_generic_make` puts before the variables. */
  function Compilers(t: Toolchain): seq<string> {
    [Bind("CC", t.cc), Bind("CXX", t.cxx)]
  }

  /** `DYLD_FALLBACK_LIBRARY_PATH` */
  function DyldFallbackPath(prefix: string): string {
    Join(prefix, "lib")
  }

  /** The attributes a Mac recipe sets on top of the base ones. */
  function MacFields(f: RecipeFields, t: Toolchain): RecipeFields {
    f.(configureVars := Some(ConfigureVars(t)), makeVars := Some(MakeVars(t)))
  }

  /** Each configure variable reads back as the setting it stands for, and
    * the settings name five different variables. */
  lemma ConfigureVarsBindings(t: Toolchain)
    ensures |ConfigureVars(t)| == |ConfigureDefaults(t)| == 5
    ensures forall i :: 0 <= i < 5 ==> Binding(ConfigureVars(t)[i]) == ConfigureDefaults(t)[i]
    ensures DistinctKeys(ConfigureDefaults(t))
  {
    ConfigureNamesPlain(t);
    BindAllBindings(ConfigureDefaults(t));
  }

  lemma ConfigureNamesPlain(t: Toolchain)
    ensures forall i :: 0 <= i < |ConfigureDefaults(t)| ==> '=' !in ConfigureDefaults(t)[i].0
    ensures DistinctKeys(ConfigureDefaults(t))
  {
    var ds := ConfigureDefaults(t);
    assert |ds[0].0| == 2 && |ds[1].0| == 3 && |ds[2].0| == 7 && |ds[3].0| == 6 && |ds[4].0| == 8;
  }

  // ---------------------------------------------------------------------
  // configure and make
  // ---------------------------------------------------------------------

  /** The environment `_generic_configure` runs `configure` in: the
    * caller's, with the compiler settings added as defaults only when there
    * are no configure variables. */
  function ConfigureEnv(env: Env, vars: Option<seq<string>>, t: Toolchain): (r: Env)
    ensures vars.Some? ==> r == env
    ensures vars.None? ==> r == WithDefaults(env, ConfigureDefaults(t))
  {
    if vars.None? then WithDefaults(env, ConfigureDefaults(t)) else env
  }

  /** `Recipe._generic_configure`: the base configure step, run in an
    * environment that gets the compiler settings as defaults only when
    * neither the caller nor the recipe passes configure variables. */
  method GenericConfigure(f: RecipeFields, t: Toolchain, builddir: string, script: Option<Script>,
                          vars: Option<seq<string>>, args: Option<seq<string>>, env: Env)
    returns (cmd: seq<string>, cwd: string, runEnv: Env)
    ensures cmd == ConfigureArgv(OrElse(script, f.configureScript), f.installPrefix,
                                 OrElse(args, f.configureArgs), if vars.Some? then vars else f.configureVars)
    ensures cwd == Join(builddir, f.configureDir)
    ensures vars.None? && f.configureVars.None? ==> runEnv == WithDefaults(env, ConfigureDefaults(t))
    ensures vars.Some? || f.configureVars.Some? ==> runEnv == env
  {
    runEnv := env;
    if vars.None? && f.configureVars.None? {
      var defaults := ConfigureDefaults(t);
      runEnv := SetDefaults(env, defaults);
    }
    cmd, cwd := RecipeBase.GenericConfigure(f, builddir, script, vars, args);
  }

  /** The make command of `_generic_make` and `_generic_makeinstall`. */
  method MakeCommand(f: RecipeFields, t: Toolchain, workdir: string, vars: Option<seq<string>>,
                     relpath: Option<string>, target: Option<string>, env: Env)
    returns (cmd: seq<string>, runEnv: Env)
    ensures cmd == MakeArgv(Compilers(t), if vars.Some? then vars else f.makeVars, None,
                            Join(workdir, OrElse(relpath, f.makeRelpath)), target)
    ensures runEnv == WithDefaults(env, [("DYLD_FALLBACK_LIBRARY_PATH", DyldFallbackPath(f.prefix))])
  {
    var vs := if vars.Some? then vars else f.makeVars;
    var rel := if relpath.Some? then relpath.value else f.makeRelpath;
    cmd := ["make"];
    if vs.Some? {
      cmd := cmd + Compilers(t);
      cmd := cmd + vs.value;
    }
    MakeArgvFrom(Compilers(t), vs, None, Join(workdir, rel), target, cmd);
    cmd := cmd + ["-C", Join(workdir, rel)];
    if target.Some? {
      cmd := cmd + [target.value];
    }
    runEnv := env;
    if "DYLD_FALLBACK_LIBRARY_PATH" !in runEnv {
      runEnv := runEnv["DYLD_FALLBACK_LIBRARY_PATH" := DyldFallbackPath(f.prefix)];
    }
  }

  /** `Recipe._generic_make`: no makefile and no target. */
  method GenericMake(f: RecipeFields, t: Toolchain, workdir: string, vars: Option<seq<string>>,
                     relpath: Option<string>, env: Env)
    returns (cmd: seq<string>, runEnv: Env)
    ensures cmd == MakeArgv(Compilers(t), if vars.Some? then vars else f.makeVars, None,
                            Join(workdir, OrElse(relpath, f.makeRelpath)), None)
    ensures runEnv == WithDefaults(env, [("DYLD_FALLBACK_LIBRARY_PATH", DyldFallbackPath(f.prefix))])
  {
    cmd, runEnv := MakeCommand(f, t, workdir, vars, relpath, None, env);
  }

  /** `Recipe._generic_makeinstall`: the same command, ending in `install`. */
  method GenericMakeInstall(f: RecipeFields, t: Toolchain, workdir: string, vars: Option<seq<string>>,
                            relpath: Option<string>, env: Env)
    returns (cmd: seq<string>, runEnv: Env)
    ensures cmd == MakeArgv(Compilers(t), if vars.Some? then vars else f.makeVars, None,
                            Join(workdir, OrElse(relpath, f.makeRelpath)), Some("install"))
    ensures runEnv == WithDefaults(env, [("DYLD_FALLBACK_LIBRARY_PATH", DyldFallbackPath(f.prefix))])
  {
    cmd, runEnv := MakeCommand(f, t, workdir, vars, relpath, Some("install"), env);
  }

  /** `make install` is the plain make command with `install` appended. */
  lemma MakeInstallExtendsMake(compilers: seq<string>, vars: Option<seq<string>>, dir: string)
    ensures MakeArgv(compilers, vars, None, dir, Some("install")) == MakeArgv(compilers, vars, None, dir, None) + ["install"]
  {
  }

  // ---------------------------------------------------------------------
  // The build directory
  // ---------------------------------------------------------------------

  /** `Recipe._get_builddir`: the first entry of the archive's directory
    * that is neither a target architecture nor `fat`; the other entries are
    * the per-architecture copies of an n-way build. With none left it
    * fails with `no build dir`. */
  method GetBuilddir(builddir: string, sourceUrl: string, listing: seq<Name>, archs: seq<string>)
    returns (r: Result<string, string>)
    ensures r.Success? ==>
              exists k :: 0 <= k < |listing| && r.value == Join(ArchiveDir(builddir, sourceUrl), listing[k])
                          && listing[k] !in archs && listing[k] != "fat"
                          && (forall j :: 0 <= j < k ==> listing[j] in archs || listing[j] == "fat")
    ensures r.Success? ==> Basename(r.value) !in archs && Basename(r.value) != "fat"
    ensures r.Failure? ==> (r.error == "no build dir"
      && forall j :: 0 <= j < |listing| ==> listing[j] in archs || listing[j] == "fat")
  {
    var workdir := ArchiveDir(builddir, sourceUrl);
    var i := 0;
    while i < |listing|
      invariant 0 <= i <= |listing|
      invariant forall j :: 0 <= j < i ==> listing[j] in archs || listing[j] == "fat"
    {
      var nm := listing[i];
      if nm !in archs && nm != "fat" {
        BasenameJoin(workdir, nm);
        return Success(Join(workdir, nm));
      }
      i := i + 1;
    }
    return Failure("no build dir");
  }

  // ---------------------------------------------------------------------
  // n-way builds
  // ---------------------------------------------------------------------

  /** Where `NWayRecipe` builds `arch`: the machine's own architecture in
    * the work directory itself, any other in a sibling named after it. */
  function ArchDir(workdir: string, local: string, arch: string): string {
    if arch == local then workdir else Join(Dirname(workdir), arch)
  }

  /** Where `_nway_merge` puts the merged files: a sibling named `fat`. */
  function FatDir(workdir: string): string {
    Join(Dirname(workdir), "fat")
  }

  /** Every architecture other than the machine's own gets a directory of
    * its own next to the work directory, named after it, and so apart from
    * the work directory, from each other and from the `fat` directory. */
  lemma ArchDirSibling(parent: string, n: Name, local: string, arch: Name)
    requires parent != "" && !EndsWith(parent, "/")
    ensures arch == local ==> ArchDir(Join(parent, n), local, arch) == Join(parent, n)
    ensures arch != local ==> (Dirname(ArchDir(Join(parent, n), local, arch)) == parent
                               && Basename(ArchDir(Join(parent, n), local, arch)) == arch)
  {
    DirnameJoin(parent, n);
    if arch != local {
      DirnameJoin(parent, arch);
      BasenameJoin(parent, arch);
    }
  }

  lemma ArchDirsApart(parent: string, n: Name, local: string, a: Name, b: Name)
    requires parent != "" && !EndsWith(parent, "/")
    requires a != local && b != local
    ensures a != b ==> ArchDir(Join(parent, n), local, a) != ArchDir(Join(parent, n), local, b)
    ensures a != n ==> ArchDir(Join(parent, n), local, a) != Join(parent, n)
    ensures a != "fat" ==> ArchDir(Join(parent, n), local, a) != FatDir(Join(parent, n))
  {
    DirnameJoin(parent, n);
    SiblingsApart(parent, a, b);
    SiblingsApart(parent, a, n);
    SiblingsApart(parent, a, "fat");
  }

  /** Different names give different paths in one directory. */
  lemma SiblingsApart(parent: string, x: Name, y: Name)
    ensures x != y ==> Join(parent, x) != Join(parent, y)
  {
    BasenameJoin(parent, x);
    BasenameJoin(parent, y);
  }

  /** The architecture directories `_nway_configure` collects, in the order
    * of the target architectures (copying the sources there is not part of
    * this model). */
  method NWayArchDirs(workdir: string, local: string, archs: seq<string>) returns (dirs: seq<(string, string)>)
    ensures |dirs| == |archs|
    ensures forall i :: 0 <= i < |archs| ==> dirs[i] == (archs[i], ArchDir(workdir, local, archs[i]))
  {
    dirs := [];
    for i := 0 to |archs|
      invariant |dirs| == i
      invariant forall j :: 0 <= j < i ==> dirs[j] == (archs[j], ArchDir(workdir, local, archs[j]))
    {
      var arch := archs[i];
      if arch == local {
        dirs := dirs + [(arch, workdir)];
      } else {
        var archdir := Join(Dirname(workdir), arch);
        dirs := dirs + [(arch, archdir)];
      }
    }
  }

  /** A recipe's attributes as they resolve while `TARGET_ARCH` is the
    * given architecture. A Mac n-way recipe is declared as
    * `class lib_x(base.lib_x, NWayRecipe)`, so whatever the base recipe
    * sets itself (`CONFIGURE_VARS = None`, its own `MAKE_VARS`) comes
    * before the `NWayRecipe` properties. */
  type ArchFields = string -> RecipeFields

  /** The attributes of an n-way recipe that sets no variables of its own:
    * the `Recipe` properties, evaluated with the architecture's
    * compilers. */
  function NWayFields(f: RecipeFields, prefix: string): ArchFields {
    arch => MacFields(f, NWayToolchain(arch, prefix))
  }

  /** `NWayRecipe._nway_configure`: one configure run per architecture, in
    * that architecture's directory and with that architecture's compilers.
    * Each step is the command, the directory and the environment. */
  method NWayConfigure(fieldsFor: ArchFields, prefix: string, workdir: string, local: string, archs: seq<string>,
                       script: Option<Script>, vars: Option<seq<string>>, args: Option<seq<string>>, env: Env)
    returns (steps: seq<(seq<string>, string, Env)>)
    ensures steps == MapAll(archs, NWayConfigureStep(fieldsFor, prefix, workdir, local, script, vars, args, env))
  {
    var dirs := NWayArchDirs(workdir, local, archs);
    ghost var run := NWayConfigureStep(fieldsFor, prefix, workdir, local, script, vars, args, env);
    steps := [];
    for i := 0 to |archs|
      invariant steps == MapAll(archs[..i], run)
    {
      MapAllSnoc(archs, run, i);
      var (arch, archdir) := dirs[i];
      var step := NWayConfigureArch(fieldsFor, prefix, workdir, local, arch, archdir, script, vars, args, env);
      steps := steps + [step];
    }
    assert archs[..|archs|] == archs;
  }

  function NWayConfigureStep(fieldsFor: ArchFields, prefix: string, workdir: string, local: string,
                             script: Option<Script>, vars: Option<seq<string>>, args: Option<seq<string>>, env: Env)
    : string -> (seq<string>, string, Env)
  {
    arch => NWayConfigureRun(fieldsFor, prefix, workdir, local, arch, script, vars, args, env)
  }

  /** One pass of the loop of `_nway_configure`: the generic configure with
    * the recipe's attributes and the compilers of the architecture, in the
    * architecture's directory. */
  method NWayConfigureArch(fieldsFor: ArchFields, prefix: string, workdir: string, local: string, arch: string,
                           archdir: string, script: Option<Script>, vars: Option<seq<string>>,
                           args: Option<seq<string>>, env: Env)
    returns (step: (seq<string>, string, Env))
    requires archdir == ArchDir(workdir, local, arch)
    ensures step == NWayConfigureRun(fieldsFor, prefix, workdir, local, arch, script, vars, args, env)
  {
    var t := NWayToolchain(arch, prefix);
    var g := fieldsFor(arch).(configureDir := archdir);
    var cmd, cwd, runEnv := GenericConfigure(g, t, workdir, script, vars, args, env);
    step := (cmd, cwd, runEnv);
  }

  /** The configure run of one architecture: the generic configure command
    * with the caller's variables, or else the recipe's; run in the
    * architecture's directory; in the caller's environment, which gets the
    * architecture's compilers and flags as defaults when there are no
    * variables at all. */
  function NWayConfigureRun(fieldsFor: ArchFields, prefix: string, workdir: string, local: string, arch: string,
                            script: Option<Script>, vars: Option<seq<string>>, args: Option<seq<string>>, env: Env)
    : (seq<string>, string, Env)
  {
    var g := fieldsFor(arch);
    var vs := if vars.Some? then vars else g.configureVars;
    (ConfigureArgv(OrElse(script, g.configureScript), g.installPrefix, OrElse(args, g.configureArgs), vs),
     Join(workdir, ArchDir(workdir, local, arch)),
     ConfigureEnv(env, vs, NWayToolchain(arch, prefix)))
  }

  /** A recipe with configure variables of its own puts them at the end of
    * each architecture's command and leaves the environment alone; one that
    * sets none of its own has the mac `Recipe`'s, the five variables naming
    * that architecture's compilers and flags. */
  lemma NWayConfigureGivenVars(fieldsFor: ArchFields, prefix: string, workdir: string, local: string, arch: string,
                               script: Option<Script>, args: Option<seq<string>>, env: Env)
    requires fieldsFor(arch).configureVars.Some?
    ensures var step := NWayConfigureRun(fieldsFor, prefix, workdir, local, arch, script, None, args, env);
      var vs := fieldsFor(arch).configureVars.value;
      |step.0| >= |vs| && step.0[|step.0| - |vs|..] == vs && step.2 == env
    ensures forall f :: fieldsFor == NWayFields(f, prefix) ==>
      fieldsFor(arch).configureVars.value == ConfigureVars(NWayToolchain(arch, prefix))
  {
    var g := fieldsFor(arch);
    ConfigureArgvLayout(OrElse(script, g.configureScript), g.installPrefix, OrElse(args, g.configureArgs), g.configureVars);
  }

  /** A recipe whose `CONFIGURE_VARS` is `None`, as `lib_zlib`'s is,
    * configures each architecture with no variables on the command line;
    * its compilers and flags reach `configure` through the environment
    * instead, wherever the caller has not set them. */
  lemma NWayConfigureEnvDefaults(fieldsFor: ArchFields, prefix: string, workdir: string, local: string, arch: string,
                                 script: Option<Script>, args: Option<seq<string>>, env: Env)
    requires fieldsFor(arch).configureVars.None?
    ensures var step := NWayConfigureRun(fieldsFor, prefix, workdir, local, arch, script, None, args, env);
      var g := fieldsFor(arch);
      var ds := ConfigureDefaults(NWayToolchain(arch, prefix));
      |step.0| == |ScriptArgv(OrElse(script, g.configureScript))| + 1 + |OrElse(args, g.configureArgs)|
      && (forall k :: k in env ==> k in step.2 && step.2[k] == env[k])
      && (forall i :: 0 <= i < 5 && ds[i].0 !in env ==> ds[i].0 in step.2 && step.2[ds[i].0] == ds[i].1)
  {
    var g := fieldsFor(arch);
    var t := NWayToolchain(arch, prefix);
    ConfigureArgvLayout(OrElse(script, g.configureScript), g.installPrefix, OrElse(args, g.configureArgs), None);
    ConfigureVarsBindings(t);
    WithDefaultsDistinct(env, ConfigureDefaults(t));
  }

  /** For an absolute work directory each configure run happens in its
    * architecture's directory itself. */
  lemma NWayConfigureDir(workdir: string, local: string, arch: string)
    requires IsAbs(workdir)
    ensures Join(workdir, ArchDir(workdir, local, arch)) == ArchDir(workdir, local, arch)
  {
    DirnameAbs(workdir);
    var d := Dirname(workdir);
    assert d[0] == '/';
  }

  /** The architectures `_nway_make` builds before the machine's own. */
  function OtherArchs(archs: seq<string>, local: string): (r: seq<string>)
    ensures forall a :: a in r <==> a in archs && a != local
    decreases |archs|
  {
    if |archs| == 0 then []
    else
      assert forall a :: a in archs <==> a == archs[0] || a in archs[1..];
      (if archs[0] == local then [] else [archs[0]]) + OtherArchs(archs[1..], local)
  }

  /** `NWayRecipe._nway_make`: a make in each other architecture's
    * directory, each with that architecture's compilers and the recipe's
    * variables, then the usual make for the machine's own architecture. */
  method NWayMake(fieldsFor: ArchFields, prefix: string, workdir: string, local: string, archs: seq<string>,
                  vars: Option<seq<string>>, env: Env)
    returns (cmds: seq<seq<string>>)
    ensures cmds == MapAll(OtherArchs(archs, local), NWayMakeStep(fieldsFor, prefix, workdir, local, vars))
                    + [MakeArgv(Compilers(NWayToolchain(local, prefix)),
                                if vars.Some? then vars else fieldsFor(local).makeVars, None,
                                Join(workdir, fieldsFor(local).makeRelpath), None)]
  {
    ghost var run := NWayMakeStep(fieldsFor, prefix, workdir, local, vars);
    cmds := [];
    for i := 0 to |archs|
      invariant cmds == MapAll(OtherArchs(archs[..i], local), run)
    {
      OtherArchsSnoc(archs[..i], archs[i], local);
      assert archs[..i + 1] == archs[..i] + [archs[i]];
      var arch := archs[i];
      if arch != local {
        var cmd := NWayMakeArch(fieldsFor, prefix, workdir, local, arch, vars, env);
        MapAllPush(OtherArchs(archs[..i], local), run, arch);
        cmds := cmds + [cmd];
      } else {
        assert OtherArchs(archs[..i] + [arch], local) == OtherArchs(archs[..i], local) + [];
      }
    }
    assert archs[..|archs|] == archs;
    var cmd, _ := GenericMake(fieldsFor(local), NWayToolchain(local, prefix), workdir, vars, None, env);
    cmds := cmds + [cmd];
  }

  function NWayMakeStep(fieldsFor: ArchFields, prefix: string, workdir: string, local: string, vars: Option<seq<string>>)
    : string -> seq<string>
  {
    arch => NWayMakeRun(fieldsFor, prefix, workdir, local, arch, vars)
  }

  /** The make of one other architecture: that architecture's compilers and
    * the caller's variables, or else the recipe's; run in the directory the
    * doubled join names. */
  function NWayMakeRun(fieldsFor: ArchFields, prefix: string, workdir: string, local: string, arch: string,
                       vars: Option<seq<string>>)
    : seq<string>
  {
    MakeArgv(Compilers(NWayToolchain(arch, prefix)),
             if vars.Some? then vars else fieldsFor(arch).makeVars, None,
             Join(workdir, Join(workdir, ArchDir(workdir, local, arch))), None)
  }

  /** One pass of the loop of `_nway_make`, for an architecture other than
    * the machine's own. */
  method NWayMakeArch(fieldsFor: ArchFields, prefix: string, workdir: string, local: string, arch: string,
                      vars: Option<seq<string>>, env: Env)
    returns (cmd: seq<string>)
    requires arch != local
    ensures cmd == NWayMakeRun(fieldsFor, prefix, workdir, local, arch, vars)
  {
    var archdir := Join(Dirname(workdir), arch);
    var runEnv;
    cmd, runEnv := GenericMake(fieldsFor(arch), NWayToolchain(arch, prefix), workdir, vars,
                               Some(Join(workdir, archdir)), env);
  }

  /** Each other architecture's make names that architecture's compilers
    * first and then the recipe's own make variables (`lib_bz2`'s
    * `PREFIX=...`), or, for a recipe that sets none, the `CFLAGS` of the
    * n-way build. */
  lemma NWayMakeVars(fieldsFor: ArchFields, prefix: string, workdir: string, local: string, arch: string)
    requires fieldsFor(arch).makeVars.Some?
    ensures var cmd := NWayMakeRun(fieldsFor, prefix, workdir, local, arch, None);
      var vs := fieldsFor(arch).makeVars.value;
      cmd[0] == "make" && cmd[1..3] == Compilers(NWayToolchain(arch, prefix)) && cmd[3..3 + |vs|] == vs
      && cmd[3 + |vs|] == "-C" && |cmd| == 5 + |vs|
    ensures forall f :: fieldsFor == NWayFields(f, prefix) ==>
      fieldsFor(arch).makeVars.value == [Bind("CFLAGS", IncFlags(prefix))]
  {
    var t := NWayToolchain(arch, prefix);
    var dir := Join(workdir, Join(workdir, ArchDir(workdir, local, arch)));
    MakeArgvLayout(Compilers(t), fieldsFor(arch).makeVars, None, dir, None);
  }

  lemma {:induction false} OtherArchsSnoc(archs: seq<string>, a: string, local: string)
    ensures OtherArchs(archs + [a], local) == OtherArchs(archs, local) + (if a == local then [] else [a])
    decreases |archs|
  {
    if |archs| == 0 {
      assert archs + [a] == [a];
    } else {
      assert (archs + [a])[1..] == archs[1..] + [a];
      OtherArchsSnoc(archs[1..], a, local);
    }
  }

  /** For an absolute work directory the doubled join in `_nway_make` is
    * harmless: each other architecture's make runs in its own directory. */
  lemma NWayMakeDir(workdir: string, local: string, arch: string)
    requires IsAbs(workdir) && arch != local
    ensures Join(workdir, Join(workdir, ArchDir(workdir, local, arch))) == ArchDir(workdir, local, arch)
  {
    NWayConfigureDir(workdir, local, arch);
  }

  /** The `lipo` inputs of one merged file: for each architecture its name
    * and the file's copy in that architecture's directory. */
  function LipoInputs(workdir: string, local: string, archs: seq<string>, rel: string): (r: seq<string>)
    ensures |r| == 3 * |archs|
    decreases |archs|
  {
    if |archs| == 0 then []
    else ["-arch", archs[0], ArchDir(workdir, local, archs[0]) + rel] + LipoInputs(workdir, local, archs[1..], rel)
  }

  /** The `i`th architecture's three inputs. */
  lemma {:induction false} LipoInputsAt(workdir: string, local: string, archs: seq<string>, rel: string, i: nat)
    requires i < |archs|
    ensures var r := LipoInputs(workdir, local, archs, rel);
      r[3 * i] == "-arch" && r[3 * i + 1] == archs[i] && r[3 * i + 2] == ArchDir(workdir, local, archs[i]) + rel
    decreases i
  {
    var head := ["-arch", archs[0], ArchDir(workdir, local, archs[0]) + rel];
    var rest := LipoInputs(workdir, local, archs[1..], rel);
    assert LipoInputs(workdir, local, archs, rel) == head + rest;
    if i > 0 {
      LipoInputsAt(workdir, local, archs[1..], rel, i - 1);
      assert 3 * i == 3 * (i - 1) + 3;
      assert archs[1..][i - 1] == archs[i];
    }
  }

  /** The `lipo` command `_nway_merge` runs for the file at `rel` below
    * the work directory. */
  function LipoArgv(workdir: string, local: string, archs: seq<string>, rel: string): seq<string> {
    ["lipo", "-create"] + LipoInputs(workdir, local, archs, rel) + ["-output", FatDir(workdir) + rel]
  }

  /** The merge names every target architecture with its own copy of the
    * file and writes the result below the `fat` directory. */
  lemma LipoArgvLayout(workdir: string, local: string, archs: seq<string>, rel: string)
    ensures var cmd := LipoArgv(workdir, local, archs, rel);
      |cmd| == 4 + 3 * |archs|
      && cmd[..2] == ["lipo", "-create"]
      && (forall i :: 0 <= i < |archs| ==>
            cmd[2 + 3 * i] == "-arch" && cmd[3 + 3 * i] == archs[i]
            && cmd[4 + 3 * i] == ArchDir(workdir, local, archs[i]) + rel)
      && cmd[|cmd| - 2..] == ["-output", FatDir(workdir) + rel]
  {
    var cmd := LipoArgv(workdir, local, archs, rel);
    var ins := LipoInputs(workdir, local, archs, rel);
    assert forall k :: 0 <= k < |ins| ==> cmd[2 + k] == ins[k];
    forall i | 0 <= i < |archs|
      ensures cmd[2 + 3 * i] == "-arch" && cmd[3 + 3 * i] == archs[i]
           && cmd[4 + 3 * i] == ArchDir(workdir, local, archs[i]) + rel
    {
      LipoInputsAt(workdir, local, archs, rel, i);
    }
  }

  /** `nm.rsplit(".", 1)[-1]`: the text after the last dot, or the whole
    * name when it has none. */
  function Ext(nm: string): string {
    nm[AfterLast(nm, '.')..]
  }

  /** The extension of `stem.ext` is `ext`, whatever dots the stem holds. */
  lemma ExtOf(stem: string, ext: string)
    requires '.' !in ext
    ensures Ext(stem + "." + ext) == ext
  {
    var nm := stem + "." + ext;
    assert nm[|stem| + 1..] == ext;
    AfterLastAt(nm, '.', |stem| + 1);
  }

  /** Whether `_nway_merge` merges a built file: a library or object by its
    * extension, or anything `file` reports as Mach-O. */
  predicate MergesFile(nm: string, fileOutput: string) {
    Ext(nm) in ["dylib", "so", "o", "a"] || Contains(fileOutput, "Mach-O")
  }

  /** A file named `stem.ext` is merged exactly when `ext` is one of the
    * library and object extensions or `file` reports it as Mach-O; which
    * dots the stem holds makes no difference. */
  lemma MergesFileCases(stem: string, ext: string, fileOutput: string)
    requires '.' !in ext
    ensures MergesFile(stem + "." + ext, fileOutput)
        <==> ext == "dylib" || ext == "so" || ext == "o" || ext == "a" || Contains(fileOutput, "Mach-O")
  {
    ExtOf(stem, ext);
  }

  // ---------------------------------------------------------------------
  // cmake
  // ---------------------------------------------------------------------

  /** The `cmake` command of the Mac `CMakeRecipe._generic_cmake`. */
  function CMakeArgv(prefix: string, archs: seq<string>, args: seq<string>): seq<string> {
    ["cmake", "-DCMAKE_INSTALL_PREFIX=" + prefix, "-DCMAKE_VERBOSE_MAKEFILE=ON",
     "-DCMAKE_OSX_SYSROOT=" + ISYSROOT, "-DCMAKE_OSX_ARCHITECTURES=" + JoinWith(";", archs)] + args
  }

  /** The flags the cmake step falls back to in the environment. */
  function CMakeDefaults(archs: seq<string>, prefix: string): seq<(string, string)> {
    [("LDFLAGS", LdFlags(prefix)), ("CFLAGS", CFlags(archs, prefix)), ("CXXFLAGS", CFlags(archs, prefix))]
  }

  /** `CMakeRecipe._generic_cmake`: the command, run in the build directory
    * with the flags defaulted in a copy of the caller's environment. */
  method GenericCMake(prefix: string, archs: seq<string>, workdir: string, args: seq<string>, env: Env)
    returns (cmd: seq<string>, cwd: string, runEnv: Env)
    ensures cmd == CMakeArgv(prefix, archs, args)
    ensures cwd == workdir
    ensures runEnv == WithDefaults(env, CMakeDefaults(archs, prefix))
  {
    cmd := ["cmake", "-DCMAKE_INSTALL_PREFIX=" + prefix, "-DCMAKE_VERBOSE_MAKEFILE=ON",
            "-DCMAKE_OSX_SYSROOT=" + ISYSROOT, "-DCMAKE_OSX_ARCHITECTURES=" + JoinWith(";", archs)];
    ghost var head := cmd;
    for i := 0 to |args|
      invariant cmd == head + args[..i]
    {
      assert args[..i + 1] == args[..i] + [args[i]];
      cmd := cmd + [args[i]];
    }
    assert args[..|args|] == args;
    runEnv := SetDefaults(env, CMakeDefaults(archs, prefix));
    cwd := workdir;
  }

  /** cmake reads back the target architectures from their option, when no
    * name holds `;` or `=`. */
  lemma CMakeArchitectures(prefix: string, archs: seq<string>, args: seq<string>)
    requires |archs| > 0
    requires forall i :: 0 <= i < |archs| ==> ';' !in archs[i] && '=' !in archs[i]
    ensures var cmd := CMakeArgv(prefix, archs, args);
      Binding(cmd[4]).0 == "-DCMAKE_OSX_ARCHITECTURES"
      && SplitOn(Binding(cmd[4]).1, ';') == archs
  {
    var v := JoinWith(";", archs);
    assert ';' !in "=" && ';' !in "-DCMAKE_OSX_ARCHITECTURES" && '=' !in "-DCMAKE_OSX_ARCHITECTURES";
    assert "-DCMAKE_OSX_ARCHITECTURES=" + v == Bind("-DCMAKE_OSX_ARCHITECTURES", v);
    BindingOf("-DCMAKE_OSX_ARCHITECTURES", v);
    SplitJoin(archs, ';');
  }

  // ---------------------------------------------------------------------
  // python26: handle_duplicate_arch_names, set_python_apps_dir
  // ---------------------------------------------------------------------

  const ARCHS_SORT: string := "archs.sort()"
  const DEDUP_ARCHS: string := "archs = list(set(archs))\n"

  /** One line of `handle_duplicate_arch_names`: a line that strips to
    * `archs.sort()` gets the de-duplicating statement before it, indented
    * as far as the sort. */
  function DedupArchsLine(ln: string): (r: seq<string>)
    ensures Strip(ln) == ARCHS_SORT ==> r == [Spaces(Indent(ln)), DEDUP_ARCHS, ln]
    ensures Strip(ln) != ARCHS_SORT ==> r == [ln]
  {
    if Strip(ln) == ARCHS_SORT then
      assert StartsWith(Strip(ln), "archs") by { assert ARCHS_SORT[..5] == "archs"; }
      FindAtIndent(ln, "archs");
      [Spaces(Find(ln, "archs").value), DEDUP_ARCHS, ln]
    else [ln]
  }

  predicate SortsArchs(ln: string) {
    Strip(ln) == ARCHS_SORT
  }

  /** `python26`'s `handle_duplicate_arch_names` over the distutils
    * `sysconfig.py` and `util.py`. */
  function HandleDuplicateArchNames(lines: seq<string>): seq<string> {
    FlatMap(lines, DedupArchsLine)
  }

  /** The rewrite adds two chunks (the indentation and the statement) per
    * sort line, and leaves a file without sort lines as it was. */
  lemma HandleDuplicateArchNamesCount(lines: seq<string>)
    ensures |HandleDuplicateArchNames(lines)| == |lines| + 2 * |KeepLines(lines, SortsArchs)|
    ensures (forall i :: 0 <= i < |lines| ==> !SortsArchs(lines[i])) ==> HandleDuplicateArchNames(lines) == lines
  {
    FlatMapGrows(lines, DedupArchsLine, SortsArchs, 2);
    if forall i :: 0 <= i < |lines| ==> !SortsArchs(lines[i]) {
      FlatMapIdentity(lines, DedupArchsLine);
    }
  }

  const APPS_DIR_KEY: string := "PYTHONAPPSDIR="

  /** One line of `set_python_apps_dir`. */
  function AppsDirLine(prefix: string, ln: string): (r: string)
    ensures StartsWith(ln, APPS_DIR_KEY) ==> r == APPS_DIR_KEY + prefix + "\n"
    ensures !StartsWith(ln, APPS_DIR_KEY) ==> r == ln
    ensures StartsWith(r, APPS_DIR_KEY) == StartsWith(ln, APPS_DIR_KEY)
  {
    if StartsWith(ln, APPS_DIR_KEY) then
      var r := APPS_DIR_KEY + prefix + "\n";
      assert r[..|APPS_DIR_KEY|] == APPS_DIR_KEY;
      r
    else ln
  }

  /** `python26`'s `set_python_apps_dir` over the Mac makefiles: the apps
    * directory becomes the environment's prefix. */
  function SetPythonAppsDir(prefix: string, lines: seq<string>): (r: seq<string>) {
    MapAll(lines, ln => AppsDirLine(prefix, ln))
  }

  /** Every `PYTHONAPPSDIR=` line names the prefix and every other line is
    * kept; running the rewrite again changes nothing. */
  lemma SetPythonAppsDirSpec(prefix: string, lines: seq<string>)
    ensures var r := SetPythonAppsDir(prefix, lines);
      |r| == |lines|
      && (forall i :: 0 <= i < |lines| && StartsWith(lines[i], APPS_DIR_KEY) ==> r[i] == APPS_DIR_KEY + prefix + "\n")
      && (forall i :: 0 <= i < |lines| && !StartsWith(lines[i], APPS_DIR_KEY) ==> r[i] == lines[i])
      && SetPythonAppsDir(prefix, r) == r
  {
    var r := SetPythonAppsDir(prefix, lines);
    var rr := SetPythonAppsDir(prefix, r);
    forall i | 0 <= i < |r| ensures rr[i] == r[i] {
      assert r[i] == AppsDirLine(prefix, lines[i]);
    }
  }

  // ---------------------------------------------------------------------
  // py_PIL: dont_use_system_frameworks
  // ---------------------------------------------------------------------

  const ADD_DIRECTORY: string := "add_directory("
  const FRAMEWORK_LOOP: string := "for root in framework_roots:"

  predicate AddsDirectory(ln: string) {
    StartsWith(Strip(ln), ADD_DIRECTORY)
  }

  predicate NamesSystemDir(ln: string) {
    Contains(ln, "/include") || Contains(ln, "/lib")
  }

  /** One line of `dont_use_system_frameworks`: an `add_directory(` call
    * naming an include or library directory becomes `pass` at the same
    * indentation, and the framework loop gets a `break` one level deeper
    * after it. */
  function FrameworksLine(ln: string): (r: seq<string>)
    ensures AddsDirectory(ln) && NamesSystemDir(ln) ==> r == [Spaces(Indent(ln)) + "pass\n"]
    ensures AddsDirectory(ln) && !NamesSystemDir(ln) ==> r == [ln]
    ensures Strip(ln) == FRAMEWORK_LOOP ==> r == [ln, Spaces(Indent(ln) + 4) + "break\n"]
    ensures !AddsDirectory(ln) && Strip(ln) != FRAMEWORK_LOOP ==> r == [ln]
  {
    if AddsDirectory(ln) then
      if NamesSystemDir(ln) then
        assert StartsWith(Strip(ln), "a") by { assert Strip(ln)[0] == 'a'; }
        FindAtIndent(ln, "a");
        [Spaces(Find(ln, "a").value) + "pass\n"]
      else [ln]
    else if Strip(ln) == FRAMEWORK_LOOP then
      assert StartsWith(Strip(ln), "f") by { assert Strip(ln)[0] == 'f'; }
      FindAtIndent(ln, "f");
      [ln, Spaces(Find(ln, "f").value + 4) + "break\n"]
    else [ln]
  }

  /** `py_PIL`'s `dont_use_system_frameworks` over `setup.py`. */
  function DontUseSystemFrameworks(lines: seq<string>): seq<string> {
    FlatMap(lines, FrameworksLine)
  }

  /** A `setup.py` with neither system `add_directory(` calls nor the
    * framework loop is left as it was. */
  lemma DontUseSystemFrameworksKeeps(lines: seq<string>)
    requires forall i :: 0 <= i < |lines| ==>
      !(AddsDirectory(lines[i]) && NamesSystemDir(lines[i])) && Strip(lines[i]) != FRAMEWORK_LOOP
    ensures DontUseSystemFrameworks(lines) == lines
  {
    FlatMapIdentity(lines, FrameworksLine);
  }
}
