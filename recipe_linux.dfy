/** The Linux flavour of the recipes: builds go through the `apgcc`
  * wrapper compilers with flags that keep the binaries portable to older
  * glibc, and a handful of line filters rewrite sources that would pull in
  * newer symbols. */
module RecipeLinux {
  import opened Wrappers
  import opened Text
  import opened PosixPath
  import opened Lines
  import opened RecipeBase

  // ---------------------------------------------------------------------
  // Compiler flags
  // ---------------------------------------------------------------------

  function LdFlags(prefix: string): string {
    "-static-libgcc -L" + Join(prefix, "lib")
  }

  function CFlags(prefix: string): string {
    "-Os -D_GNU_SOURCE -DNDEBUG -I" + Join(prefix, "include") + " -static-libgcc"
  }

  function CxxFlags(prefix: string): string {
    "-Os -D_GNU_SOURCE -DNDEBUG -I" + Join(prefix, "include") + " -static-libgcc"
  }

  function LdLibraryPath(prefix: string): string {
    Join(prefix, "lib")
  }

  function PkgConfigPath(prefix: string): string {
    Join(prefix, "lib/pkgconfig")
  }

  /** The settings `_generic_configure` falls back to in the environment. */
  function ConfigureDefaults(prefix: string): seq<(string, string)> {
    [("LDFLAGS", LdFlags(prefix)), ("CFLAGS", CFlags(prefix)), ("CXXFLAGS", CxxFlags(prefix)),
     ("LD_LIBRARY_PATH", LdLibraryPath(prefix)), ("PKG_CONFIG_PATH", PkgConfigPath(prefix))]
  }

  /** The wrapper compilers, as `_generic_make` and `CONFIGURE_VARS` pass
    * them. */
  const APGCC_COMPILERS: seq<string> := [Bind("CC", "apgcc"), Bind("CXX", "apg++")]

  /** `Recipe.CONFIGURE_VARS`: the wrapper compilers, then every flag bound
    * to its value. */
  function ConfigureVars(prefix: string): seq<string> {
    APGCC_COMPILERS + BindAll(ConfigureDefaults(prefix))
  }

  /** `CONFIGURE_VARS` binds the wrapper compilers first and then exactly
    * the flag values `_generic_configure` would otherwise fall back to in
    * the environment, under the same names and in the same order. */
  lemma ConfigureVarsBindings(prefix: string)
    ensures |ConfigureVars(prefix)| == |ConfigureDefaults(prefix)| + 2
    ensures Binding(ConfigureVars(prefix)[0]) == ("CC", "apgcc")
    ensures Binding(ConfigureVars(prefix)[1]) == ("CXX", "apg++")
    ensures forall i :: 0 <= i < |ConfigureDefaults(prefix)| ==> Binding(ConfigureVars(prefix)[i + 2]) == ConfigureDefaults(prefix)[i]
  {
    BindingOf("CC", "apgcc");
    BindingOf("CXX", "apg++");
    ConfigureNamesPlain(prefix);
    BindAllBindings(ConfigureDefaults(prefix));
  }

  lemma ConfigureNamesPlain(prefix: string)
    ensures forall i :: 0 <= i < |ConfigureDefaults(prefix)| ==> '=' !in ConfigureDefaults(prefix)[i].0
  {
  }

  // ---------------------------------------------------------------------
  // configure and make
  // ---------------------------------------------------------------------

  /** `Recipe._generic_configure`: the base configure step, run in an
    * environment that gets the flag defaults only when neither the caller
    * nor the recipe passes configure variables. The caller's map is a value
    * and is never changed. */
  method GenericConfigure(f: RecipeFields, builddir: string, script: Option<Script>,
                          vars: Option<seq<string>>, args: Option<seq<string>>, env: Env)
    returns (cmd: seq<string>, cwd: string, runEnv: Env)
    ensures cmd == ConfigureArgv(OrElse(script, f.configureScript), f.installPrefix,
                                 OrElse(args, f.configureArgs), if vars.Some? then vars else f.configureVars)
    ensures cwd == Join(builddir, f.configureDir)
    ensures vars.None? && f.configureVars.None? ==> runEnv == WithDefaults(env, ConfigureDefaults(f.prefix))
    ensures vars.Some? || f.configureVars.Some? ==> runEnv == env
  {
    runEnv := env;
    if vars.None? && f.configureVars.None? {
      var defaults := ConfigureDefaults(f.prefix);
      runEnv := SetDefaults(env, defaults);
    }
    cmd, cwd := RecipeBase.GenericConfigure(f, builddir, script, vars, args);
  }

  /** The fallback environment of `_generic_configure` names each flag
    * once, so a flag the caller left out gets the recipe's value (and the
    * caller's keys keep theirs, by `WithDefaults`). */
  lemma ConfigureEnvDefaults(env: Env, prefix: string)
    ensures DistinctKeys(ConfigureDefaults(prefix))
    ensures forall i :: 0 <= i < |ConfigureDefaults(prefix)| && ConfigureDefaults(prefix)[i].0 !in env ==>
      WithDefaults(env, ConfigureDefaults(prefix))[ConfigureDefaults(prefix)[i].0] == ConfigureDefaults(prefix)[i].1
  {
    var ds := ConfigureDefaults(prefix);
    assert |ds[0].0| == 7 && |ds[1].0| == 6 && |ds[2].0| == 8 && |ds[3].0| == 15 && |ds[4].0| == 15;
    assert ds[3].0[0] != ds[4].0[0];
    WithDefaultsDistinct(env, ds);
  }

  /** `Recipe._generic_make`: the make command with the wrapper compilers
    * before the variables, run with `LD_LIBRARY_PATH` defaulted in a copy
    * of the caller's environment. */
  method GenericMake(f: RecipeFields, workdir: string, vars: Option<seq<string>>, relpath: Option<string>,
                     target: Option<string>, makefile: Option<string>, env: Env)
    returns (cmd: seq<string>, runEnv: Env)
    ensures cmd == MakeArgv(APGCC_COMPILERS, if vars.Some? then vars else f.makeVars, makefile,
                            Join(workdir, OrElse(relpath, f.makeRelpath)), target)
    ensures runEnv == WithDefaults(env, [("LD_LIBRARY_PATH", LdLibraryPath(f.prefix))])
  {
    runEnv := env;
    if "LD_LIBRARY_PATH" !in runEnv {
      runEnv := runEnv["LD_LIBRARY_PATH" := LdLibraryPath(f.prefix)];
    }
    var vs := if vars.Some? then vars else f.makeVars;
    var rel := if relpath.Some? then relpath.value else f.makeRelpath;
    cmd := ["make"];
    if vs.Some? {
      cmd := cmd + APGCC_COMPILERS;
      cmd := cmd + vs.value;
    }
    if makefile.Some? {
      cmd := cmd + ["-f", makefile.value];
    }
    MakeArgvFrom(APGCC_COMPILERS, vs, makefile, Join(workdir, rel), target, cmd);
    cmd := cmd + ["-C", Join(workdir, rel)];
    if target.Some? {
      cmd := cmd + [target.value];
    }
  }

  /** The `LD_LIBRARY_PATH` default of `_generic_make`. */
  lemma MakeEnvDefault(env: Env, prefix: string)
    ensures var r := WithDefaults(env, [("LD_LIBRARY_PATH", LdLibraryPath(prefix))]);
      r.Keys == env.Keys + {"LD_LIBRARY_PATH"}
      && (forall k :: k in env ==> r[k] == env[k])
      && ("LD_LIBRARY_PATH" !in env ==> r["LD_LIBRARY_PATH"] == LdLibraryPath(prefix))
  {
    var ds := [("LD_LIBRARY_PATH", LdLibraryPath(prefix))];
    assert DefaultKeys(ds) == {"LD_LIBRARY_PATH"} by { assert ds[0].0 == "LD_LIBRARY_PATH"; }
    WithDefaultsDistinct(env, ds);
  }

  // ---------------------------------------------------------------------
  // cmake: stub_out_device_functions
  // ---------------------------------------------------------------------

  const RETURN_ZERO: string := "    return 0;"
  const ASSERTION_ERROR: string := "AssertionError"

  predicate DeviceHeader(ln: string) {
    StartsWith(ln, "archive_entry_dev") || StartsWith(ln, "archive_entry_rdev")
  }

  /** What a line inside a device function means to the filter, by its
    * stripped text. */
  datatype BraceLine = OpenBrace | CloseBrace | NoBrace

  function BraceKind(ln: string): BraceLine {
    var s := Strip(ln);
    if s == "{" then OpenBrace else if s == "}" then CloseBrace else NoBrace
  }

  /** A line opens or closes a body exactly when it is a brace, whatever
    * whitespace surrounds it. */
  lemma BraceKindStrip(ln: string)
    ensures BraceKind(ln) == OpenBrace <==> Strip(ln) == "{"
    ensures BraceKind(ln) == CloseBrace <==> Strip(ln) == "}"
  {
  }

  /** The first line at or after `j` that closes a body, or the end. */
  function CloseFrom(lines: seq<string>, brace: string -> BraceLine, j: nat): (k: nat)
    requires j <= |lines|
    ensures j <= k <= |lines|
    ensures k < |lines| ==> brace(lines[k]) == CloseBrace
    ensures forall i :: j <= i < k ==> brace(lines[i]) != CloseBrace
    decreases |lines| - j
  {
    if j == |lines| || brace(lines[j]) == CloseBrace then j else CloseFrom(lines, brace, j + 1)
  }

  /** Lines that close nothing are skipped over. */
  lemma {:induction false} CloseFromSkips(lines: seq<string>, brace: string -> BraceLine, j: nat, m: nat)
    requires j <= m <= |lines|
    requires forall i :: j <= i < m ==> brace(lines[i]) != CloseBrace
    ensures CloseFrom(lines, brace, j) == CloseFrom(lines, brace, m)
    decreases m - j
  {
    if j < m {
      CloseFromSkips(lines, brace, j + 1, m);
    }
  }

  /** Output already yielded, in front of what the rest of a filter gives. */
  function Prepend(xs: seq<string>, r: Result<seq<string>, string>): Result<seq<string>, string> {
    if r.Success? then Success(xs + r.value) else r
  }

  /** The rewrite `cmake`'s `stub_out_device_functions` makes of
    * `archive_entry.c`, for any way `brace` of recognising brace lines; the
    * recipe's own is `BraceKind`. The body of each
    * `archive_entry_dev`/`archive_entry_rdev` function becomes `return 0;`.
    * A header not followed by a `{` line fails the assertion; running out of
    * lines while reading ahead ends the output there. */
  function StubOutBodies(lines: seq<string>, brace: string -> BraceLine): Result<seq<string>, string>
    decreases |lines|
  {
    if |lines| == 0 then Success([])
    else if !DeviceHeader(lines[0]) then Prepend([lines[0]], StubOutBodies(lines[1..], brace))
    else if |lines| == 1 then Success([lines[0]])
    else if brace(lines[1]) != OpenBrace then Failure(ASSERTION_ERROR)
    else
      var k := CloseFrom(lines, brace, 2);
      if k == |lines| then Success(lines[..2])
      else Prepend([lines[0], lines[1], RETURN_ZERO, lines[k]], StubOutBodies(lines[k + 1..], brace))
  }

  /** `stub_out_device_functions` itself. */
  function StubOutDeviceFunctions(lines: seq<string>): Result<seq<string>, string> {
    StubOutBodies(lines, BraceKind)
  }

  lemma PrependPrepend(xs: seq<string>, ys: seq<string>, r: Result<seq<string>, string>)
    ensures Prepend(xs, Prepend(ys, r)) == Prepend(xs + ys, r)
  {
    if r.Success? {
      assert xs + (ys + r.value) == (xs + ys) + r.value;
    }
  }

  /** Lines before the first device function header pass through. */
  lemma {:induction false} StubPassesPlainLines(a: seq<string>, b: seq<string>, brace: string -> BraceLine)
    requires forall i :: 0 <= i < |a| ==> !DeviceHeader(a[i])
    ensures StubOutBodies(a + b, brace) == Prepend(a, StubOutBodies(b, brace))
    decreases |a|
  {
    if |a| == 0 {
      assert a + b == b;
      assert Prepend([], StubOutBodies(b, brace)) == StubOutBodies(b, brace) by {
        var r := StubOutBodies(b, brace);
        if r.Success? { assert [] + r.value == r.value; }
      }
    } else {
      var ab := a + b;
      assert ab[0] == a[0] && ab[1..] == a[1..] + b;
      StubPassesPlainLines(a[1..], b, brace);
      PrependPrepend([a[0]], a[1..], StubOutBodies(b, brace));
      assert [a[0]] + a[1..] == a;
    }
  }

  /** A file without device function headers is left as it was. */
  lemma StubKeepsPlainFile(lines: seq<string>, brace: string -> BraceLine)
    requires forall i :: 0 <= i < |lines| ==> !DeviceHeader(lines[i])
    ensures StubOutBodies(lines, brace) == Success(lines)
  {
    StubPassesPlainLines(lines, [], brace);
    assert lines + [] == lines;
  }

  /** A device function's body, between its `{` line and the first `}`
    * line, gives way to `return 0;`; the rest of the file is filtered in
    * turn. */
  lemma StubReplacesBody(a: seq<string>, h: string, o: string, body: seq<string>, c: string, rest: seq<string>,
                         brace: string -> BraceLine)
    requires forall i :: 0 <= i < |a| ==> !DeviceHeader(a[i])
    requires DeviceHeader(h) && brace(o) == OpenBrace && brace(c) == CloseBrace
    requires forall i :: 0 <= i < |body| ==> brace(body[i]) != CloseBrace
    ensures StubOutBodies(a + [h, o] + body + [c] + rest, brace)
         == Prepend(a + [h, o, RETURN_ZERO, c], StubOutBodies(rest, brace))
  {
    var fn := [h, o] + body + [c] + rest;
    assert a + [h, o] + body + [c] + rest == a + fn;
    StubPassesPlainLines(a, fn, brace);
    assert fn[0] == h && fn[1] == o;
    var k := 2 + |body|;
    assert fn[k] == c && fn[k + 1..] == rest;
    forall i | 2 <= i < k ensures brace(fn[i]) != CloseBrace {
      assert fn[i] == body[i - 2];
    }
    CloseFromSkips(fn, brace, 2, k);
    PrependPrepend(a, [h, o, RETURN_ZERO, c], StubOutBodies(rest, brace));
  }

  /** A header whose next line is not `{` fails the filter. */
  lemma StubRejectsMissingBrace(a: seq<string>, h: string, o: string, rest: seq<string>, brace: string -> BraceLine)
    requires forall i :: 0 <= i < |a| ==> !DeviceHeader(a[i])
    requires DeviceHeader(h) && brace(o) != OpenBrace
    ensures StubOutBodies(a + [h, o] + rest, brace) == Failure(ASSERTION_ERROR)
  {
    var fn := [h, o] + rest;
    ConcatAssoc(a, [h, o], rest);
    StubPassesPlainLines(a, fn, brace);
    assert fn[0] == h && fn[1] == o;
  }

  /** A body that never closes ends the output after its `{` line. */
  lemma StubTruncatesOpenBody(a: seq<string>, h: string, o: string, body: seq<string>, brace: string -> BraceLine)
    requires forall i :: 0 <= i < |a| ==> !DeviceHeader(a[i])
    requires DeviceHeader(h) && brace(o) == OpenBrace
    requires forall i :: 0 <= i < |body| ==> brace(body[i]) != CloseBrace
    ensures StubOutBodies(a + [h, o] + body, brace) == Success(a + [h, o])
  {
    ConcatAssoc(a, [h, o], body);
    StubPassesPlainLines(a, [h, o] + body, brace);
    StubOpenBody(h, o, body, brace);
  }

  lemma StubOpenBody(h: string, o: string, body: seq<string>, brace: string -> BraceLine)
    requires DeviceHeader(h) && brace(o) == OpenBrace
    requires forall i :: 0 <= i < |body| ==> brace(body[i]) != CloseBrace
    ensures StubOutBodies([h, o] + body, brace) == Success([h, o])
  {
    var fn := [h, o] + body;
    forall i | 2 <= i < |fn| ensures brace(fn[i]) != CloseBrace {
      assert fn[i] == body[i - 2];
    }
    CloseFromSkips(fn, brace, 2, |fn|);
    assert fn[..2] == [h, o];
  }

  // ---------------------------------------------------------------------
  // python27: remove_have_epoll
  // ---------------------------------------------------------------------

  /** `python27`'s `remove_have_epoll` over `pyconfig.h`. */
  function RemoveHaveEpoll(lines: seq<string>): (r: seq<string>)
    ensures |r| <= |lines|
    ensures forall x :: x in r <==> x in lines && !Contains(x, "HAVE_EPOLL")
  {
    KeepLines(lines, ln => !Contains(ln, "HAVE_EPOLL"))
  }

  /** The filter works line by line, keeping the order of the file, and
    * leaves a file without `HAVE_EPOLL` as it was. */
  lemma RemoveHaveEpollLinewise(a: seq<string>, b: seq<string>)
    ensures RemoveHaveEpoll(a + b) == RemoveHaveEpoll(a) + RemoveHaveEpoll(b)
    ensures (forall i :: 0 <= i < |a| ==> !Contains(a[i], "HAVE_EPOLL")) ==> RemoveHaveEpoll(a) == a
  {
    var keep := (ln: string) => !Contains(ln, "HAVE_EPOLL");
    KeepLinesAppend(a, b, keep);
    if forall i :: 0 <= i < |a| ==> !Contains(a[i], "HAVE_EPOLL") {
      KeepLinesAll(a, keep);
    }
  }

  // ---------------------------------------------------------------------
  // lib_openssl: ensure_gnu_source
  // ---------------------------------------------------------------------

  const GNU_SOURCE_FLAG: string := " -D_GNU_SOURCE\n"

  /** The rewrite of a `CFLAG=` line after stripping: the flag goes at the
    * end, and `-O3` becomes `-Os` everywhere else. */
  lemma GnuSourceRewrite(s: string)
    requires StartsWith(s, "CFLAG=")
    ensures var r := ReplaceAll(s + GNU_SOURCE_FLAG, "-O3", "-Os");
      StartsWith(r, "CFLAG=") && EndsWith(r, GNU_SOURCE_FLAG) && !Contains(r, "-O3")
      && |r| == |s| + |GNU_SOURCE_FLAG| && r == ReplaceAll(s, "-O3", "-Os") + GNU_SOURCE_FLAG
  {
    var r := ReplaceAll(s + GNU_SOURCE_FLAG, "-O3", "-Os");
    ReplaceAllLength(s + GNU_SOURCE_FLAG, "-O3", "-Os");
    ReplaceAllClears(s + GNU_SOURCE_FLAG, "-O3", "-Os", "-O3");
    GnuSourceTail(s);
    var u := ReplaceAll(s, "-O3", "-Os");
    assert r == u + GNU_SOURCE_FLAG;
    assert s == "CFLAG=" + s[6..];
    ReplaceAllPrefix("CFLAG=", s[6..], "-O3", "-Os");
    assert r[..6] == u[..6];
  }

  /** The appended flag neither holds `-O3` nor completes one. */
  lemma GnuSourceTail(s: string)
    ensures ReplaceAll(s + GNU_SOURCE_FLAG, "-O3", "-Os") == ReplaceAll(s, "-O3", "-Os") + GNU_SOURCE_FLAG
  {
    ReplaceAllTail(s, GNU_SOURCE_FLAG, "-O3", "-Os", '3');
  }

  /** One line of `lib_openssl`'s `ensure_gnu_source` over the `Makefile`:
    * the `CFLAG=` line is stripped, gets `-D_GNU_SOURCE` appended and its
    * `-O3` turned into `-Os`. */
  function EnsureGnuSourceLine(ln: string): (r: string)
    ensures !StartsWith(ln, "CFLAG=") ==> r == ln
    ensures StartsWith(ln, "CFLAG=") ==>
      StartsWith(r, "CFLAG=") && EndsWith(r, GNU_SOURCE_FLAG) && !Contains(r, "-O3")
      && |r| == |Strip(ln)| + |GNU_SOURCE_FLAG|
    ensures StartsWith(ln, "CFLAG=") ==> r == ReplaceAll(Strip(ln), "-O3", "-Os") + GNU_SOURCE_FLAG
  {
    if StartsWith(ln, "CFLAG=") then
      StripKeepsHead(ln, "CFLAG=");
      GnuSourceRewrite(Strip(ln));
      ReplaceAll(Strip(ln) + GNU_SOURCE_FLAG, "-O3", "-Os")
    else ln
  }

  /** `ensure_gnu_source`: one line out per line in. */
  function EnsureGnuSource(lines: seq<string>): (r: seq<string>)
    ensures |r| == |lines|
    ensures forall i :: 0 <= i < |lines| ==> r[i] == EnsureGnuSourceLine(lines[i])
  {
    MapAll(lines, EnsureGnuSourceLine)
  }

  // ---------------------------------------------------------------------
  // lib_gtk: undisable_deprecated
  // ---------------------------------------------------------------------

  const DISABLE_DEPRECATED: string := "-DG_DISABLE_DEPRECATED"

  predicate OnlyDisablesDeprecated(ln: string) {
    Strip(ln) == DISABLE_DEPRECATED
  }

  /** One line of `lib_gtk`'s `undisable_deprecated`: a line holding only
    * the flag goes, every other line loses each occurrence of it. */
  function UndisableDeprecatedLine(ln: string): (r: seq<string>)
    ensures OnlyDisablesDeprecated(ln) ==> r == []
    ensures !OnlyDisablesDeprecated(ln) ==> |r| == 1 && |r[0]| <= |ln|
    ensures !Contains(ln, DISABLE_DEPRECATED) ==> r == [ln]
    ensures !OnlyDisablesDeprecated(ln) && Contains(ln, DISABLE_DEPRECATED) ==>
      |r[0]| + |DISABLE_DEPRECATED| <= |ln|
    ensures !OnlyDisablesDeprecated(ln) ==> r == [ReplaceAll(ln, DISABLE_DEPRECATED, "")]
  {
    ContainsStrip(ln);
    ReplaceAllDeletes(ln, DISABLE_DEPRECATED);
    if OnlyDisablesDeprecated(ln) then []
    else if Contains(ln, DISABLE_DEPRECATED) then [ReplaceAll(ln, DISABLE_DEPRECATED, "")]
    else
      ReplaceAllAbsent(ln, DISABLE_DEPRECATED, "");
      [ln]
  }

  /** `undisable_deprecated` over a makefile. */
  function UndisableDeprecated(lines: seq<string>): seq<string> {
    FlatMap(lines, UndisableDeprecatedLine)
  }

  /** The filter drops exactly the lines that hold only the flag, and gives
    * back a file that never mentions it unchanged. */
  lemma UndisableDeprecatedLines(lines: seq<string>)
    ensures |UndisableDeprecated(lines)| + |KeepLines(lines, OnlyDisablesDeprecated)| == |lines|
    ensures (forall i :: 0 <= i < |lines| ==> !Contains(lines[i], DISABLE_DEPRECATED)) ==>
      UndisableDeprecated(lines) == lines
  {
    forall x: string ensures |UndisableDeprecatedLine(x)| == if OnlyDisablesDeprecated(x) then 0 else 1 {
    }
    FlatMapCount(lines, UndisableDeprecatedLine, OnlyDisablesDeprecated);
    if forall i :: 0 <= i < |lines| ==> !Contains(lines[i], DISABLE_DEPRECATED) {
      FlatMapIdentity(lines, UndisableDeprecatedLine);
    }
  }

  // ---------------------------------------------------------------------
  // _lib_qt4_base: dont_use_newer_funcs and dont_use_pthread_cleanup
  // ---------------------------------------------------------------------

  /** One line of `dont_use_newer_funcs`: the first of `pipe2`, `dup3` and
    * `accept4` the line mentions, in that order of priority, has every one
    * of its occurrences renamed to the `disabled_` form by `str.replace`;
    * the other two names are not looked at. */
  function DontUseNewerFuncsLine(ln: string): (r: string)
    ensures Contains(ln, "pipe2") ==>
      r == ReplaceAll(ln, "pipe2", "disabled_pipe2") && Contains(r, "disabled_pipe2")
    ensures !Contains(ln, "pipe2") && Contains(ln, "dup3") ==>
      r == ReplaceAll(ln, "dup3", "disabled_dup3") && Contains(r, "disabled_dup3")
    ensures !Contains(ln, "pipe2") && !Contains(ln, "dup3") && Contains(ln, "accept4") ==>
      r == ReplaceAll(ln, "accept4", "disabled_accept4") && Contains(r, "disabled_accept4")
    ensures !Contains(ln, "pipe2") && !Contains(ln, "dup3") && !Contains(ln, "accept4") ==> r == ln
  {
    if Contains(ln, "pipe2") then
      ReplaceAllIntroduces(ln, "pipe2", "disabled_pipe2");
      ReplaceAll(ln, "pipe2", "disabled_pipe2")
    else if Contains(ln, "dup3") then
      ReplaceAllIntroduces(ln, "dup3", "disabled_dup3");
      ReplaceAll(ln, "dup3", "disabled_dup3")
    else if Contains(ln, "accept4") then
      ReplaceAllIntroduces(ln, "accept4", "disabled_accept4");
      ReplaceAll(ln, "accept4", "disabled_accept4")
    else ln
  }

  /** `dont_use_newer_funcs`: one line out per line in. */
  function DontUseNewerFuncs(lines: seq<string>): (r: seq<string>)
    ensures |r| == |lines|
    ensures forall i :: 0 <= i < |lines| ==> r[i] == DontUseNewerFuncsLine(lines[i])
  {
    MapAll(lines, DontUseNewerFuncsLine)
  }

  const CLEANUP_PUSH: string := "pthread_cleanup_push"
  const CLEANUP_POP: string := "pthread_cleanup_pop"
  const FINISH_CALL: string := "    QThreadPrivate::finish(arg);\n"

  predicate PushesCleanup(ln: string) {
    StartsWith(Strip(ln), CLEANUP_PUSH)
  }

  predicate PopsCleanup(ln: string) {
    StartsWith(Strip(ln), CLEANUP_POP)
  }

  /** One line of `dont_use_pthread_cleanup` over `qthread_unix.cpp`. */
  function DontUsePthreadCleanupLine(ln: string): (r: seq<string>)
    ensures PushesCleanup(ln) <==> r == []
    ensures !PushesCleanup(ln) && PopsCleanup(ln) ==> r == [FINISH_CALL]
    ensures !PushesCleanup(ln) && !PopsCleanup(ln) ==> r == [ln]
  {
    if PushesCleanup(ln) then []
    else if PopsCleanup(ln) then [FINISH_CALL]
    else [ln]
  }

  /** `dont_use_pthread_cleanup`. */
  function DontUsePthreadCleanup(lines: seq<string>): seq<string> {
    FlatMap(lines, DontUsePthreadCleanupLine)
  }

  /** The push lines go, each pop line is traded for exactly one call to
    * `finish`, and a file using neither comes back unchanged. */
  lemma DontUsePthreadCleanupLines(lines: seq<string>)
    ensures |DontUsePthreadCleanup(lines)| + |KeepLines(lines, PushesCleanup)| == |lines|
    ensures (forall i :: 0 <= i < |lines| ==> !PushesCleanup(lines[i]) && !PopsCleanup(lines[i])) ==>
      DontUsePthreadCleanup(lines) == lines
  {
    forall x: string ensures |DontUsePthreadCleanupLine(x)| == if PushesCleanup(x) then 0 else 1 {
    }
    FlatMapCount(lines, DontUsePthreadCleanupLine, PushesCleanup);
    if forall i :: 0 <= i < |lines| ==> !PushesCleanup(lines[i]) && !PopsCleanup(lines[i]) {
      FlatMapIdentity(lines, DontUsePthreadCleanupLine);
    }
  }

  // ---------------------------------------------------------------------
  // lib_sparsehash: include_typeinfo
  // ---------------------------------------------------------------------

  const INCLUDE_TYPEINFO: string := "#include <typeinfo>\n"

  predicate IsInclude(ln: string) {
    StartsWith(ln, "#include")
  }

  /** The index of the first `#include` line, if any. */
  function FirstInclude(lines: seq<string>): (k: Option<nat>)
    ensures k.Some? ==> k.value < |lines| && IsInclude(lines[k.value])
                        && forall i :: 0 <= i < k.value ==> !IsInclude(lines[i])
    ensures k.None? ==> forall i :: 0 <= i < |lines| ==> !IsInclude(lines[i])
    decreases |lines|
  {
    if |lines| == 0 then None
    else if IsInclude(lines[0]) then Some(0)
    else
      var k := FirstInclude(lines[1..]);
      if k.Some? then Some(k.value + 1) else None
  }

  /** `lib_sparsehash`'s `include_typeinfo` over `hashtable_test.cc`:
    * `#include <typeinfo>` goes right before the first `#include` line;
    * a file without one (or an empty file) passes through unchanged. */
  function IncludeTypeinfo(lines: seq<string>): (r: seq<string>)
    ensures FirstInclude(lines).None? ==> r == lines
    ensures FirstInclude(lines).Some? ==>
      var k := FirstInclude(lines).value;
      r == lines[..k] + [INCLUDE_TYPEINFO] + lines[k..]
    decreases |lines|
  {
    if |lines| == 0 then []
    else if IsInclude(lines[0]) then [INCLUDE_TYPEINFO] + lines
    else
      var rest := IncludeTypeinfo(lines[1..]);
      assert lines == [lines[0]] + lines[1..];
      [lines[0]] + rest
  }
}
