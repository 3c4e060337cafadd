/** The computing parts of the recipe classes in `myppy/recipes/base.py`:
  * the metaclass's merge of dependency lists, the command lines and
  * environments of the generic build steps, where a patched file is looked
  * up and how it is rewritten, and the line filters of the base recipes.
  * Running the commands is not modelled: a step yields the argument list it
  * would run. */
module RecipeBase {
  import opened Wrappers
  import opened Text
  import opened PosixPath
  import opened Lines

  // ---------------------------------------------------------------------
  // Dependency lists (`_RecipeMetaclass._merge_dep_attr`)
  // ---------------------------------------------------------------------

  /** A base class of a recipe class being defined: another recipe class,
    * carrying its own (already merged) list, or any other class. */
  datatype BaseClass = RecipeClass(list: seq<string>) | OtherClass

  /** `deps` followed by the entries of `more` it does not already hold, in
    * the order they first appear. */
  function AddMissing(deps: seq<string>, more: seq<string>): seq<string>
    decreases |more|
  {
    if |more| == 0 then deps
    else
      var d := AddMissing(deps, more[..|more| - 1]);
      var x := more[|more| - 1];
      if x in d then d else d + [x]
  }

  /** The merged list: the class's own list, then what each recipe base adds,
    * base by base. */
  function Merged(own: seq<string>, bases: seq<BaseClass>): seq<string>
    decreases |bases|
  {
    if |bases| == 0 then own
    else
      var d := Merged(own, bases[..|bases| - 1]);
      match bases[|bases| - 1]
      case RecipeClass(list) => AddMissing(d, list)
      case OtherClass => d
  }

  /** From position `n` on, no entry repeats an earlier one. */
  predicate FreshFrom(xs: seq<string>, n: nat) {
    forall i :: n <= i < |xs| ==> xs[i] !in xs[..i]
  }

  /** Some recipe base lists `x`. */
  predicate FromBase(bases: seq<BaseClass>, x: string) {
    exists b :: 0 <= b < |bases| && bases[b].RecipeClass? && x in bases[b].list
  }

  lemma {:induction false} AddMissingSpec(deps: seq<string>, more: seq<string>, n: nat)
    requires n <= |deps| && FreshFrom(deps, n)
    ensures var r := AddMissing(deps, more);
      deps <= r && FreshFrom(r, n)
      && (forall x :: x in more ==> x in r)
      && (forall x :: x in r ==> x in deps || x in more)
    decreases |more|
  {
    if |more| > 0 {
      var init := more[..|more| - 1];
      var x := more[|more| - 1];
      AddMissingSpec(deps, init, n);
      var d := AddMissing(deps, init);
      assert more == init + [x];
      if x !in d {
        var r := d + [x];
        assert r[..|d|] == d;
        forall i | n <= i < |r|
          ensures r[i] !in r[..i]
        {
          if i < |d| {
            assert r[..i] == d[..i];
          }
        }
      }
    }
  }

  /** The merge keeps the class's own list first and unchanged, takes in
    * every entry of every recipe base, adds nothing else, and adds no entry
    * twice. */
  lemma {:induction false} MergedSpec(own: seq<string>, bases: seq<BaseClass>)
    ensures var r := Merged(own, bases);
      own <= r && FreshFrom(r, |own|)
      && (forall b, x :: 0 <= b < |bases| && bases[b].RecipeClass? && x in bases[b].list ==> x in r)
      && (forall x :: x in r ==> x in own || FromBase(bases, x))
    decreases |bases|
  {
    if |bases| > 0 {
      var init := bases[..|bases| - 1];
      MergedSpec(own, init);
      var d := Merged(own, init);
      var last := bases[|bases| - 1];
      forall b | 0 <= b < |init|
        ensures init[b] == bases[b]
      {
      }
      if last.RecipeClass? {
        AddMissingSpec(d, last.list, |own|);
        var r := AddMissing(d, last.list);
        forall b, x | 0 <= b < |bases| && bases[b].RecipeClass? && x in bases[b].list
          ensures x in r
        {
          if b < |init| {
            assert init[b] == bases[b];
            assert x in d;
            var k :| 0 <= k < |d| && d[k] == x;
            assert r[k] == x;
          }
        }
        forall x | x in r
          ensures x in own || FromBase(bases, x)
        {
          if x in d && !(x in own) {
            var b :| 0 <= b < |init| && init[b].RecipeClass? && x in init[b].list;
            assert bases[b] == init[b];
          } else if x !in d {
            assert bases[|bases| - 1] == last;
          }
        }
      } else {
        forall x | x in d && !(x in own)
          ensures FromBase(bases, x)
        {
          var b :| 0 <= b < |init| && init[b].RecipeClass? && x in init[b].list;
          assert bases[b] == init[b];
        }
      }
    }
  }

  /** `_merge_dep_attr`: start from the class's own list and append, base by
    * base, each entry of a recipe base not already present. */
  method MergeDepAttr(own: seq<string>, bases: seq<BaseClass>) returns (deps: seq<string>)
    ensures deps == Merged(own, bases)
    ensures own <= deps && FreshFrom(deps, |own|)
    ensures forall b, x :: 0 <= b < |bases| && bases[b].RecipeClass? && x in bases[b].list ==> x in deps
    ensures forall x :: x in deps ==> x in own || FromBase(bases, x)
  {
    deps := own;
    for b := 0 to |bases|
      invariant deps == Merged(own, bases[..b])
    {
      assert bases[..b + 1][..b] == bases[..b];
      if bases[b].RecipeClass? {
        var list := bases[b].list;
        ghost var before := deps;
        for k := 0 to |list|
          invariant deps == AddMissing(before, list[..k])
        {
          assert list[..k + 1][..k] == list[..k];
          if list[k] !in deps {
            deps := deps + [list[k]];
          }
        }
        assert list[..|list|] == list;
      }
    }
    assert bases[..|bases|] == bases;
    MergedSpec(own, bases);
  }

  // ---------------------------------------------------------------------
  // Build directories and unpacking
  // ---------------------------------------------------------------------

  /** `os.path.join(workdir, os.listdir(workdir)[0])`: the first entry of a
    * directory; `None` stands for the IndexError an empty one raises. */
  function FirstEntry(workdir: string, listing: seq<Name>): (r: Option<string>)
    ensures r.Some? <==> |listing| > 0
    ensures r.Some? ==> Basename(r.value) == listing[0]
    ensures r.Some? && workdir != "" && !EndsWith(workdir, "/") ==> Dirname(r.value) == workdir
  {
    if |listing| == 0 then None
    else if workdir != "" && !EndsWith(workdir, "/") then
      BasenameJoin(workdir, listing[0]);
      DirnameJoin(workdir, listing[0]);
      Some(Join(workdir, listing[0]))
    else
      BasenameJoin(workdir, listing[0]);
      Some(Join(workdir, listing[0]))
  }

  /** The directory a source archive is unpacked into: the build directory
    * joined with the archive's file name. */
  function ArchiveDir(builddir: string, sourceUrl: string): string {
    Join(builddir, Basename(sourceUrl))
  }

  /** `Recipe._get_builddir`: the first entry of the archive's directory. */
  function GetBuilddir(builddir: string, sourceUrl: string, listing: seq<Name>): (r: Option<string>)
    ensures r.Some? <==> |listing| > 0
    ensures r.Some? ==> Basename(r.value) == listing[0]
  {
    FirstEntry(ArchiveDir(builddir, sourceUrl), listing)
  }

  /** The decompression flag `tar` is given, chosen by the archive's suffix. */
  function TarFlag(src: string): (flag: string)
    ensures flag == "-xjf" <==> EndsWith(src, ".bz2")
    ensures flag == "-xzf" <==> !EndsWith(src, ".bz2") && (EndsWith(src, ".gz") || EndsWith(src, ".tgz"))
    ensures flag == "-xf" <==> !EndsWith(src, ".bz2") && !EndsWith(src, ".gz") && !EndsWith(src, ".tgz")
  {
    if EndsWith(src, ".bz2") then "-xjf"
    else if EndsWith(src, ".gz") || EndsWith(src, ".tgz") then "-xzf"
    else "-xf"
  }

  /** `_unpack_tarball`: the `tar` command run, and the directory returned,
    * given what the work directory lists once unpacked. */
  function UnpackTarball(src: string, workdir: string, listing: seq<Name>): (r: (seq<string>, Option<string>))
    ensures |r.0| == 5 && r.0[0] == "tar" && r.0[1] == TarFlag(src) && r.0[2..] == [src, "-C", workdir]
    ensures r.1 == FirstEntry(workdir, listing)
  {
    (["tar", TarFlag(src)] + [src, "-C", workdir], FirstEntry(workdir, listing))
  }

  // ---------------------------------------------------------------------
  // configure, make and cmake
  // ---------------------------------------------------------------------

  /** `CONFIGURE_SCRIPT`: a single path, or an argument list. */
  datatype Script = Path(path: string) | Argv(parts: seq<string>)

  /** The class attributes of a recipe the generic build steps read. */
  datatype RecipeFields = RecipeFields(
    prefix: string,
    installPrefix: string,
    configureDir: string,
    configureScript: Script,
    configureArgs: seq<string>,
    configureVars: Option<seq<string>>,
    makeVars: Option<seq<string>>,
    makeRelpath: string)

  /** The attributes `Recipe` itself sets, for an environment prefix. */
  function DefaultFields(prefix: string): RecipeFields {
    RecipeFields(prefix, prefix, ".", Path("./configure"), [], Some([]), Some([]), ".")
  }

  /** An argument left at `None` takes the recipe's attribute instead. */
  function OrElse<T>(given: Option<T>, default: T): T {
    if given.Some? then given.value else default
  }

  function ScriptArgv(s: Script): seq<string> {
    match s
    case Path(p) => [p]
    case Argv(ps) => ps
  }

  function ListOrEmpty(xs: Option<seq<string>>): seq<string> {
    if xs.Some? then xs.value else []
  }

  /** The `./configure` command: the script, the install prefix, the
    * arguments, then the variables. */
  function ConfigureArgv(script: Script, installPrefix: string, args: seq<string>, vars: Option<seq<string>>): seq<string> {
    ScriptArgv(script) + ["--prefix=" + installPrefix] + args + ListOrEmpty(vars)
  }

  /** Where each part of the configure command sits: the script's words,
    * then exactly one prefix option, then the arguments in order, then the
    * variables in order (none when they are `None`). */
  lemma ConfigureArgvLayout(script: Script, installPrefix: string, args: seq<string>, vars: Option<seq<string>>)
    ensures var cmd := ConfigureArgv(script, installPrefix, args, vars);
      var n := |ScriptArgv(script)|;
      |cmd| == n + 1 + |args| + |ListOrEmpty(vars)|
      && cmd[..n] == ScriptArgv(script)
      && cmd[n] == "--prefix=" + installPrefix
      && cmd[n + 1..n + 1 + |args|] == args
      && cmd[n + 1 + |args|..] == ListOrEmpty(vars)
      && (vars.None? ==> |cmd| == n + 1 + |args|)
  {
    var cmd := ConfigureArgv(script, installPrefix, args, vars);
    var n := |ScriptArgv(script)|;
    assert cmd[n + 1..n + 1 + |args|] == args;
  }

  /** `Recipe._generic_configure`: the command and the directory it runs in,
    * for arguments that may be left at `None`. */
  method GenericConfigure(f: RecipeFields, builddir: string, script: Option<Script>,
                          vars: Option<seq<string>>, args: Option<seq<string>>)
    returns (cmd: seq<string>, cwd: string)
    ensures cmd == ConfigureArgv(OrElse(script, f.configureScript), f.installPrefix,
                                 OrElse(args, f.configureArgs), if vars.Some? then vars else f.configureVars)
    ensures cwd == Join(builddir, f.configureDir)
  {
    var s := if script.Some? then script.value else f.configureScript;
    var vs := if vars.Some? then vars else f.configureVars;
    var argv := if args.Some? then args.value else f.configureArgs;
    cmd := ScriptArgv(s);
    cmd := cmd + ["--prefix=" + f.installPrefix];
    ghost var head := cmd;
    for i := 0 to |argv|
      invariant cmd == head + argv[..i]
    {
      assert argv[..i + 1] == argv[..i] + [argv[i]];
      cmd := cmd + [argv[i]];
    }
    assert argv[..|argv|] == argv;
    if vs.Some? {
      var v := vs.value;
      ghost var mid := cmd;
      for i := 0 to |v|
        invariant cmd == mid + v[..i]
      {
        assert v[..i + 1] == v[..i] + [v[i]];
        cmd := cmd + [v[i]];
      }
      assert v[..|v|] == v;
    }
    cwd := Join(builddir, f.configureDir);
  }

  /** A `make` command line: `make`, then the compiler settings and
    * variables (only when there are variables), the makefile, the directory
    * and the target. */
  function MakeArgv(compilers: seq<string>, vars: Option<seq<string>>, makefile: Option<string>,
                    dir: string, target: Option<string>): seq<string>
  {
    ["make"]
    + (if vars.Some? then compilers + vars.value else [])
    + (if makefile.Some? then ["-f", makefile.value] else [])
    + ["-C", dir]
    + (if target.Some? then [target.value] else [])
  }

  /** A make command assembled piece by piece, as `_generic_make` extends
    * its list, is the one `MakeArgv` describes. */
  lemma MakeArgvFrom(compilers: seq<string>, vars: Option<seq<string>>, makefile: Option<string>,
                     dir: string, target: Option<string>, head: seq<string>)
    requires vars.Some? && makefile.Some? ==> head == ["make"] + compilers + vars.value + ["-f", makefile.value]
    requires vars.Some? && makefile.None? ==> head == ["make"] + compilers + vars.value
    requires vars.None? && makefile.Some? ==> head == ["make"] + ["-f", makefile.value]
    requires vars.None? && makefile.None? ==> head == ["make"]
    ensures MakeArgv(compilers, vars, makefile, dir, target)
         == head + ["-C", dir] + (if target.Some? then [target.value] else [])
  {
    var mf := if makefile.Some? then ["-f", makefile.value] else [];
    if vars.Some? {
      assert ["make"] + compilers + vars.value == ["make"] + (compilers + vars.value);
      assert head == ["make"] + (compilers + vars.value) + mf;
    } else {
      assert ["make"] + [] == ["make"];
      assert head == ["make"] + [] + mf;
    }
  }

  /** The make command starts with `make`, has the directory right after the
    * variables and makefile, and ends with the target when one is given;
    * compiler settings appear exactly when variables do. */
  lemma MakeArgvLayout(compilers: seq<string>, vars: Option<seq<string>>, makefile: Option<string>,
                       dir: string, target: Option<string>)
    ensures var cmd := MakeArgv(compilers, vars, makefile, dir, target);
      var v := if vars.Some? then |compilers| + |vars.value| else 0;
      var m := if makefile.Some? then 2 else 0;
      cmd[0] == "make"
      && cmd[1 + v + m..3 + v + m] == ["-C", dir]
      && (vars.Some? ==> cmd[1..1 + |compilers|] == compilers && cmd[1 + |compilers|..1 + v] == vars.value)
      && (makefile.Some? ==> cmd[1 + v..3 + v] == ["-f", makefile.value])
      && (target.Some? ==> |cmd| == 4 + v + m && cmd[|cmd| - 1] == target.value)
      && (target.None? ==> |cmd| == 3 + v + m)
  {
    var cmd := MakeArgv(compilers, vars, makefile, dir, target);
    var v := if vars.Some? then |compilers| + |vars.value| else 0;
    var m := if makefile.Some? then 2 else 0;
    if vars.Some? {
      assert cmd[1..1 + |compilers|] == compilers;
      assert cmd[1 + |compilers|..1 + v] == vars.value;
    }
    assert cmd[1 + v + m..3 + v + m] == ["-C", dir];
  }

  /** Compiler settings are nothing but leading variables: a make command
    * with them is the plain one whose variables start with them, and with
    * no variables they are left out. */
  lemma MakeArgvCompilers(compilers: seq<string>, vars: Option<seq<string>>, makefile: Option<string>,
                          dir: string, target: Option<string>)
    ensures vars.Some? ==>
              MakeArgv(compilers, vars, makefile, dir, target)
              == MakeArgv([], Some(compilers + vars.value), makefile, dir, target)
    ensures vars.None? ==>
              MakeArgv(compilers, vars, makefile, dir, target) == MakeArgv([], vars, makefile, dir, target)
  {
    if vars.Some? {
      assert [] + (compilers + vars.value) == compilers + vars.value;
    }
  }

  /** `Recipe._generic_make`: the `make` command run in the build directory
    * `workdir`, for arguments that may be left at `None`. */
  method GenericMake(f: RecipeFields, workdir: string, vars: Option<seq<string>>, relpath: Option<string>,
                     target: Option<string>, makefile: Option<string>)
    returns (cmd: seq<string>)
    ensures cmd == MakeArgv([], if vars.Some? then vars else f.makeVars, makefile,
                            Join(workdir, OrElse(relpath, f.makeRelpath)), target)
  {
    var vs := if vars.Some? then vars else f.makeVars;
    var rel := if relpath.Some? then relpath.value else f.makeRelpath;
    cmd := ["make"];
    if vs.Some? {
      cmd := cmd + vs.value;
    }
    if makefile.Some? {
      cmd := cmd + ["-f", makefile.value];
    }
    if vs.Some? {
      assert ["make"] + [] == ["make"];
    }
    MakeArgvFrom([], vs, makefile, Join(workdir, rel), target, cmd);
    cmd := cmd + ["-C", Join(workdir, rel)];
    if target.Some? {
      cmd := cmd + [target.value];
    }
  }

  /** The fixed options `CMakeRecipe._generic_cmake` passes before the
    * recipe's own arguments. */
  function CMakeOptions(f: RecipeFields): seq<string> {
    ["-DCMAKE_INSTALL_PREFIX=" + f.installPrefix,
     "-DCMAKE_MODULE_PATH=" + Join(Join(f.prefix, "share"), "cmake"),
     "-DCMAKE_VERBOSE_MAKEFILE=ON",
     "-DBUILD_TESTS=False",
     "-DCMAKE_BUILD_TYPE=MinSizeRel"]
  }

  /** `CMakeRecipe._generic_cmake`: an out-of-source build, run from the
    * `MYPPY-BUILD` directory below the build directory against `..`. */
  method GenericCMake(f: RecipeFields, builddir: string, args: seq<string>) returns (cmd: seq<string>, cwd: string)
    ensures cmd == ["cmake"] + CMakeOptions(f) + args + [".."]
    ensures cwd == Join(builddir, "MYPPY-BUILD")
  {
    cmd := ["cmake"] + CMakeOptions(f);
    ghost var head := cmd;
    for i := 0 to |args|
      invariant cmd == head + args[..i]
    {
      assert args[..i + 1] == args[..i] + [args[i]];
      cmd := cmd + [args[i]];
    }
    assert args[..|args|] == args;
    cmd := cmd + [".."];
    cwd := Join(builddir, "MYPPY-BUILD");
  }

  // ---------------------------------------------------------------------
  // NAME=value arguments
  // ---------------------------------------------------------------------

  /** A `NAME=value` argument. */
  function Bind(k: string, v: string): string {
    k + "=" + v
  }

  function BindAll(ds: seq<(string, string)>): (r: seq<string>)
    ensures |r| == |ds| && forall i :: 0 <= i < |ds| ==> r[i] == Bind(ds[i].0, ds[i].1)
  {
    seq(|ds|, i requires 0 <= i < |ds| => Bind(ds[i].0, ds[i].1))
  }

  /** How `configure` and `make` read a `NAME=value` argument: the name is
    * what comes before the first `=`. */
  function Binding(v: string): (string, string) {
    if '=' in v then (v[..IndexOf(v, '=')], v[IndexOf(v, '=') + 1..]) else (v, "")
  }

  lemma BindingOf(k: string, v: string)
    requires '=' !in k
    ensures Binding(Bind(k, v)) == (k, v)
  {
    var s := k + "=" + v;
    assert s[|k|] == '=';
    assert s[..|k|] == k;
    IndexOfAt(s, '=', |k|);
    assert s[|k| + 1..] == v;
  }

  /** Each argument of a list of bindings reads back as the name and value
    * it was made from, when no name holds `=`. */
  lemma BindAllBindings(ds: seq<(string, string)>)
    requires forall i :: 0 <= i < |ds| ==> '=' !in ds[i].0
    ensures forall i :: 0 <= i < |ds| ==> Binding(BindAll(ds)[i]) == ds[i]
  {
    forall i | 0 <= i < |ds| ensures Binding(BindAll(ds)[i]) == ds[i] {
      BindingOf(ds[i].0, ds[i].1);
    }
  }

  // ---------------------------------------------------------------------
  // Environments passed to the build commands
  // ---------------------------------------------------------------------

  type Env = map<string, string>

  /** The keys a list of defaults names. */
  function DefaultKeys(defaults: seq<(string, string)>): set<string> {
    set i | 0 <= i < |defaults| :: defaults[i].0
  }

  /** `env = env.copy(); env.setdefault(k, v)` for each default in turn: a
    * key the caller set keeps the caller's value. */
  function WithDefaults(env: Env, defaults: seq<(string, string)>): (r: Env)
    ensures r.Keys == env.Keys + DefaultKeys(defaults)
    ensures forall k :: k in env ==> r[k] == env[k]
    decreases |defaults|
  {
    if |defaults| == 0 then env
    else
      var init := defaults[..|defaults| - 1];
      var e := WithDefaults(env, init);
      var kv := defaults[|defaults| - 1];
      assert DefaultKeys(defaults) == DefaultKeys(init) + {kv.0} by {
        assert forall i :: 0 <= i < |init| ==> init[i] == defaults[i];
      }
      if kv.0 in e then e else e[kv.0 := kv.1]
  }

  /** The `setdefault` calls themselves, on a copy of the caller's map. */
  method SetDefaults(env: Env, defaults: seq<(string, string)>) returns (r: Env)
    ensures r == WithDefaults(env, defaults)
  {
    r := env;
    for i := 0 to |defaults|
      invariant r == WithDefaults(env, defaults[..i])
    {
      assert defaults[..i + 1][..i] == defaults[..i];
      var (k, v) := defaults[i];
      if k !in r {
        r := r[k := v];
      }
    }
    assert defaults[..|defaults|] == defaults;
  }

  /** A key the caller did not set gets the first default given for it. */
  lemma {:induction false} WithDefaultsFirst(env: Env, defaults: seq<(string, string)>, i: nat)
    requires i < |defaults| && defaults[i].0 !in env
    requires forall j :: 0 <= j < i ==> defaults[j].0 != defaults[i].0
    ensures WithDefaults(env, defaults)[defaults[i].0] == defaults[i].1
    decreases |defaults|
  {
    var init := defaults[..|defaults| - 1];
    var e := WithDefaults(env, init);
    if i < |defaults| - 1 {
      assert init[i] == defaults[i];
      WithDefaultsFirst(env, init, i);
      assert defaults[i].0 in e;
    }
  }

  /** No key is given two defaults. */
  predicate DistinctKeys(defaults: seq<(string, string)>) {
    forall i, j :: 0 <= i < j < |defaults| ==> defaults[i].0 != defaults[j].0
  }

  /** With each key given once, every key the caller did not set gets its
    * default. */
  lemma WithDefaultsDistinct(env: Env, defaults: seq<(string, string)>)
    requires DistinctKeys(defaults)
    ensures forall i :: 0 <= i < |defaults| && defaults[i].0 !in env ==>
      WithDefaults(env, defaults)[defaults[i].0] == defaults[i].1
  {
    forall i | 0 <= i < |defaults| && defaults[i].0 !in env
      ensures WithDefaults(env, defaults)[defaults[i].0] == defaults[i].1
    {
      WithDefaultsFirst(env, defaults, i);
    }
  }

  // ---------------------------------------------------------------------
  // Patching files
  // ---------------------------------------------------------------------

  /** The path `_patch_file` rewrites: an absolute path as given, any other
    * path below the environment's prefix. */
  function PatchTarget(prefix: string, fpath: string): (p: string)
    ensures IsAbs(fpath) ==> p == fpath
    ensures !IsAbs(fpath) && IsAbs(prefix) ==> IsAbs(p)
  {
    if IsAbs(fpath) then fpath else Join(prefix, fpath)
  }

  /** A relative name is looked up directly inside the prefix. */
  lemma PatchTargetBelow(prefix: string, n: Name)
    requires prefix != "" && !EndsWith(prefix, "/")
    ensures Dirname(PatchTarget(prefix, n)) == prefix && Basename(PatchTarget(prefix, n)) == n
  {
    assert !IsAbs(n) by { assert n[0] in n; }
    DirnameJoin(prefix, n);
    BasenameJoin(prefix, n);
  }

  /** A text file: its contents and its permission bits. */
  datatype TextFile = TextFile(content: string, mode: int)

  /** Iterating over an open text file: the lines, each with its newline,
    * the last one without one when the file does not end in a newline. */
  function ReadLines(c: string): (ls: seq<string>)
    ensures forall i :: 0 <= i < |ls| ==> |ls[i]| > 0
    ensures forall i :: 0 <= i < |ls| - 1 ==> EndsWith(ls[i], "\n")
    decreases |c|
  {
    if |c| == 0 then []
    else if '\n' in c then
      var i := IndexOf(c, '\n');
      [c[..i + 1]] + ReadLines(c[i + 1..])
    else [c]
  }

  /** Writing chunks one after the other. */
  function Concat(chunks: seq<string>): string
    decreases |chunks|
  {
    if |chunks| == 0 then "" else chunks[0] + Concat(chunks[1..])
  }

  /** Writing back the lines read from a file gives its contents back. */
  lemma {:induction false} ConcatReadLines(c: string)
    ensures Concat(ReadLines(c)) == c
    decreases |c|
  {
    if |c| > 0 && '\n' in c {
      var i := IndexOf(c, '\n');
      ConcatReadLines(c[i + 1..]);
      assert c == c[..i + 1] + c[i + 1..];
    } else if |c| > 0 {
      assert Concat([c]) == c + Concat([]);
    }
  }

  /** Why `_patch_file` fails: the file is missing, or the filter raised. */
  datatype PatchError = Missing(path: string) | FilterFailed(path: string, reason: string)

  /** `Recipe._patch_file`: run the filter over the file's lines and write
    * what it yields back in place of the file, with the file's mode kept.
    * A missing file, or a filter that raises, leaves every file as it was. */
  function PatchFile(files: map<string, TextFile>, prefix: string, fpath: string,
                     filter: seq<string> -> Result<seq<string>, string>): (r: Result<map<string, TextFile>, PatchError>)
    ensures var t := PatchTarget(prefix, fpath);
      r.Success? ==> (t in files && r.value.Keys == files.Keys
                      && r.value[t].mode == files[t].mode
                      && (forall k :: k in files && k != t ==> r.value[k] == files[k]))
    ensures var t := PatchTarget(prefix, fpath);
      t in files && filter(ReadLines(files[t].content)).Success? ==>
        (r.Success? && r.value[t].content == Concat(filter(ReadLines(files[t].content)).value))
    ensures r.Failure? ==> r.error == Missing(PatchTarget(prefix, fpath)) || r.error.FilterFailed?
  {
    var t := PatchTarget(prefix, fpath);
    if t !in files then Failure(Missing(t))
    else
      var out := filter(ReadLines(files[t].content));
      if out.Failure? then Failure(FilterFailed(t, out.error))
      else Success(files[t := TextFile(Concat(out.value), files[t].mode)])
  }

  /** A filter that passes every line through leaves the file as it was. */
  lemma PatchFileIdentity(files: map<string, TextFile>, prefix: string, fpath: string)
    requires PatchTarget(prefix, fpath) in files
    ensures PatchFile(files, prefix, fpath, ls => Success(ls)) == Success(files)
  {
    var t := PatchTarget(prefix, fpath);
    ConcatReadLines(files[t].content);
    assert files[t := TextFile(files[t].content, files[t].mode)] == files;
  }

  // ---------------------------------------------------------------------
  // Line filters
  // ---------------------------------------------------------------------

  /** One line of `optimize_for_size`: `-O2`, then `-O3`, replaced by `-Os`. */
  function OptimizeLine(ln: string): (r: string)
    ensures |r| == |ln|
    ensures !Contains(r, "-O2") && !Contains(r, "-O3")
    ensures !Contains(ln, "-O2") && !Contains(ln, "-O3") ==> r == ln
    ensures r == ReplaceAll(ReplaceAll(ln, "-O2", "-Os"), "-O3", "-Os")
  {
    var t := ReplaceAll(ln, "-O2", "-Os");
    ReplaceAllLength(ln, "-O2", "-Os");
    ReplaceAllClears(ln, "-O2", "-Os", "-O2");
    var r := ReplaceAll(t, "-O3", "-Os");
    ReplaceAllLength(t, "-O3", "-Os");
    ReplaceAllClears(t, "-O3", "-Os", "-O3");
    ReplaceAllClears(t, "-O3", "-Os", "-O2");
    if !Contains(ln, "-O2") && !Contains(ln, "-O3") then
      ReplaceAllAbsent(ln, "-O2", "-Os");
      ReplaceAllAbsent(t, "-O3", "-Os");
      r
    else r
  }

  /** `optimize_for_size` (python27, lib_bz2 and the Qt recipes): one line
    * out for each line in. */
  function OptimizeForSize(lines: seq<string>): (r: seq<string>)
    ensures |r| == |lines|
    ensures forall i :: 0 <= i < |lines| ==> r[i] == OptimizeLine(lines[i])
  {
    MapAll(lines, OptimizeLine)
  }

  /** One line of `addit`: a line commented out as `#modnm…` is uncommented. */
  function AdditLine(modnm: string, ln: string): (r: string)
    ensures StartsWith(ln, "#" + modnm) ==> "#" + r == ln && StartsWith(r, modnm)
    ensures !StartsWith(ln, "#" + modnm) ==> r == ln
  {
    if StartsWith(ln, "#" + modnm) then
      assert ln == "#" + ln[1..];
      ln[1..]
    else ln
  }

  /** `python27._add_builtin_module(modnm)`'s filter over `Setup.dist`. */
  function Addit(modnm: string, lines: seq<string>): (r: seq<string>)
    ensures |r| == |lines|
    ensures forall i :: 0 <= i < |lines| ==> r[i] == AdditLine(modnm, lines[i])
  {
    MapAll(lines, ln => AdditLine(modnm, ln))
  }

  /** `lib_zlib`'s `dont_copy_dylib`: the Makefile without the lines that
    * copy the shared library. */
  function DontCopyDylib(lines: seq<string>): (r: seq<string>)
    ensures forall x :: x in r <==> x in lines && !CopiesDylib(x)
  {
    KeepLines(lines, ln => !CopiesDylib(ln))
  }

  /** A Makefile line that copies the shared library. */
  predicate CopiesDylib(ln: string) {
    StartsWith(Strip(ln), "cp $(SHAREDLIBV)")
  }

  const PERL_SHEBANG: string := "#!/usr/bin/env perl\n"

  /** `lib_openssl`'s `make_Configure_executable`: the first line becomes a
    * perl `#!` line. The shebang is yielded before the first line is read,
    * so an empty file gets just the shebang. */
  function MakeConfigureExecutable(lines: seq<string>): (r: seq<string>)
    ensures |r| > 0 && r[0] == PERL_SHEBANG
    ensures |lines| > 0 ==> |r| == |lines| && r[1..] == lines[1..]
  {
    [PERL_SHEBANG] + (if |lines| == 0 then [] else lines[1..])
  }

  /** Running `make_Configure_executable` twice is the same as once. */
  lemma MakeConfigureExecutableTwice(lines: seq<string>)
    ensures MakeConfigureExecutable(MakeConfigureExecutable(lines)) == MakeConfigureExecutable(lines)
  {
    var once := MakeConfigureExecutable(lines);
    assert once[1..] == (if |lines| == 0 then [] else lines[1..]);
  }

  const READ_DIRECTORY_DECL: string := "static PyObject *read_directory(char *archive);"
  const EOCD_DECL: string := "static int find_endof_central_dir(FILE* fp,char *eocd,long *header_pos);"
  const BAD_EOCD_COMMENT: string := "/* Bad: End of Central Dir signature */"
  const ZLIB_COMMENT: string := "/* Return the zlib.decompress function object, or NULL if zlib couldn't"

  /** What `allow_zipfile_comments` makes of a line, by its stripped text. */
  datatype ZipLine = ReadDirectoryDecl | BadEocdComment | ZlibComment | Plain

  function ZipLineKind(ln: string): ZipLine {
    var s := Strip(ln);
    if s == READ_DIRECTORY_DECL then ReadDirectoryDecl
    else if s == BAD_EOCD_COMMENT then BadEocdComment
    else if s == ZLIB_COMMENT then ZlibComment
    else Plain
  }

  /** The rewrite `python27`'s `allow_zipfile_comments` makes of
    * `zipimport.c`, for any way `kind` of telling its marker lines apart;
    * the recipe's own is `ZipLineKind`. The spliced-in C code is the
    * parameters `check` (the signature search that replaces the comment and
    * the four lines after it) and `helper` (the search function put before
    * the zlib comment). Reading past the end while skipping the four lines
    * ends the output there. */
  function ZipfileRewrite(lines: seq<string>, kind: string -> ZipLine, check: string, helper: string): seq<string>
    decreases |lines|
  {
    if |lines| == 0 then []
    else
      var ln := lines[0];
      match kind(ln)
      case ReadDirectoryDecl => [ln, EOCD_DECL] + ZipfileRewrite(lines[1..], kind, check, helper)
      case BadEocdComment =>
        if |lines| < 5 then [] else [check] + ZipfileRewrite(lines[5..], kind, check, helper)
      case ZlibComment => [helper, ln] + ZipfileRewrite(lines[1..], kind, check, helper)
      case Plain => [ln] + ZipfileRewrite(lines[1..], kind, check, helper)
  }

  /** `allow_zipfile_comments` itself. */
  function AllowZipfileComments(lines: seq<string>, check: string, helper: string): seq<string> {
    ZipfileRewrite(lines, ZipLineKind, check, helper)
  }

  /** Lines before the first marker pass through unchanged; in particular a
    * file without markers is left as it was. */
  lemma {:induction false} ZipfileRewritePrefix(a: seq<string>, b: seq<string>, kind: string -> ZipLine, check: string, helper: string)
    requires forall i :: 0 <= i < |a| ==> kind(a[i]) == Plain
    ensures ZipfileRewrite(a + b, kind, check, helper) == a + ZipfileRewrite(b, kind, check, helper)
    decreases |a|
  {
    if |a| > 0 {
      var ab := a + b;
      assert ab[0] == a[0] && ab[1..] == a[1..] + b;
      ZipfileRewritePrefix(a[1..], b, kind, check, helper);
    } else {
      assert a + b == b;
    }
  }

  /** The signature check comment and the four lines after it give way to
    * the `check` block. */
  lemma ZipfileRewriteBadEocd(a: seq<string>, ln: string, b: seq<string>, kind: string -> ZipLine, check: string, helper: string)
    requires forall i :: 0 <= i < |a| ==> kind(a[i]) == Plain
    requires kind(ln) == BadEocdComment && |b| >= 4
    ensures ZipfileRewrite(a + [ln] + b, kind, check, helper) == a + [check] + ZipfileRewrite(b[4..], kind, check, helper)
  {
    var rest := [ln] + b;
    ZipfileRewritePrefix(a, rest, kind, check, helper);
    assert a + [ln] + b == a + rest;
    assert rest[0] == ln && rest[5..] == b[4..];
  }

  /** The `read_directory` declaration gets the prototype of the new search
    * function after it. */
  lemma ZipfileRewriteDecl(a: seq<string>, ln: string, b: seq<string>, kind: string -> ZipLine, check: string, helper: string)
    requires forall i :: 0 <= i < |a| ==> kind(a[i]) == Plain
    requires kind(ln) == ReadDirectoryDecl
    ensures ZipfileRewrite(a + [ln] + b, kind, check, helper) == a + [ln, EOCD_DECL] + ZipfileRewrite(b, kind, check, helper)
  {
    var rest := [ln] + b;
    ZipfileRewritePrefix(a, rest, kind, check, helper);
    assert a + [ln] + b == a + rest;
    assert rest[0] == ln && rest[1..] == b;
  }

  /** The zlib comment gets the search function's definition before it. */
  lemma ZipfileRewriteZlib(a: seq<string>, ln: string, b: seq<string>, kind: string -> ZipLine, check: string, helper: string)
    requires forall i :: 0 <= i < |a| ==> kind(a[i]) == Plain
    requires kind(ln) == ZlibComment
    ensures ZipfileRewrite(a + [ln] + b, kind, check, helper) == a + [helper, ln] + ZipfileRewrite(b, kind, check, helper)
  {
    var rest := [ln] + b;
    ZipfileRewritePrefix(a, rest, kind, check, helper);
    assert a + [ln] + b == a + rest;
    assert rest[0] == ln && rest[1..] == b;
  }

  /** A line is a marker exactly when its stripped text is one of the three
    * the recipe looks for, whatever whitespace surrounds it. */
  lemma ZipLineKindMarkers(ln: string)
    ensures ZipLineKind(ln) == ReadDirectoryDecl <==> Strip(ln) == READ_DIRECTORY_DECL
    ensures ZipLineKind(ln) == BadEocdComment <==> Strip(ln) == BAD_EOCD_COMMENT
    ensures ZipLineKind(ln) == ZlibComment <==> Strip(ln) == ZLIB_COMMENT
  {
  }

  /** The modules `py_pyside`'s `dont_build_extra_modules` keeps out of the
    * build, as the source spells them. */
  const EXTRA_MODS: seq<string> := ["QtSvg", "QtXml", "QtTest", "QtSql", "QtNetwok", "QtScript"]

  /** The same list with `QtNetwork` spelled as the module is named. */
  const EXTRA_MODULES: seq<string> := ["QtSvg", "QtXml", "QtTest", "QtSql", "QtNetwork", "QtScript"]

  predicate MentionsNone(ln: string, mods: seq<string>) {
    forall i :: 0 <= i < |mods| ==> !Contains(ln, mods[i])
  }

  /** `dont_build_extra_modules` as written: drops the lines that mention
    * one of `EXTRA_MODS`. */
  function DontBuildExtraModulesAsWritten(lines: seq<string>): (r: seq<string>)
    ensures forall x :: x in r <==> x in lines && MentionsNone(x, EXTRA_MODS)
  {
    KeepLines(lines, ln => MentionsNone(ln, EXTRA_MODS))
  }

  /** `dont_build_extra_modules` with the module name spelled correctly. */
  function DontBuildExtraModules(lines: seq<string>): (r: seq<string>)
    ensures forall x :: x in r <==> x in lines && MentionsNone(x, EXTRA_MODULES)
  {
    KeepLines(lines, ln => MentionsNone(ln, EXTRA_MODULES))
  }

  /** As written, the filter keeps a line that adds the QtNetwork module,
    * which the corrected filter drops. */
  lemma QtNetworkKept()
    ensures DontBuildExtraModulesAsWritten(["QtNetwork"]) == ["QtNetwork"]
    ensures DontBuildExtraModules(["QtNetwork"]) == []
  {
    var ln := "QtNetwork";
    forall i | 0 <= i < |EXTRA_MODS| ensures !Contains(ln, EXTRA_MODS[i]) {
      if i == 0 {
        NotContainsChar(ln, EXTRA_MODS[i], 'S');
      } else if i == 1 {
        NotContainsChar(ln, EXTRA_MODS[i], 'X');
      } else if i == 2 {
        NotContainsChar(ln, EXTRA_MODS[i], 'T');
      } else if i == 3 {
        NotContainsChar(ln, EXTRA_MODS[i], 'S');
      } else if i == 4 {
        var p := EXTRA_MODS[i];
        forall j | 0 <= j && j + |p| <= |ln| ensures !StartsWith(ln[j..], p) {
          assert ln[j..][0] != p[0] || ln[j..][7] != p[7];
        }
      } else {
        NotContainsChar(ln, EXTRA_MODS[i], 'S');
      }
    }
    KeepLinesAll([ln], l => MentionsNone(l, EXTRA_MODS));
    ContainsAt(ln, "QtNetwork", 0);
    assert EXTRA_MODULES[4] == "QtNetwork";
    assert DontBuildExtraModules([ln]) == [];
  }
}
