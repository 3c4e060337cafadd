/** The Linux environment of `myppy/envs/linux.py`: the base environment
  * plus the autopackage compiler wrappers, a check that no shared library
  * needs a glibc or libstdc++ newer than the oldest supported one, and an
  * rpath on every library and executable that finds `PREFIX/lib` relative to
  * the file itself. The outputs of `objdump -T`, `file` and `realpath` are
  * inputs of the model. */
module EnvLinux {
  import opened Wrappers
  import opened Text
  import opened PosixPath
  import opened EnvModel
  import opened EnvBase

  // ---------------------------------------------------------------------
  // The environment

  /** `DEPENDENCIES`: the compiler wrappers and `patchelf`, then what every
    * environment needs. */
  const DEPENDENCIES: seq<string> := ["apbuild", "patchelf"] + BASE_DEPENDENCIES

  /** The platform tools come first and the base list follows unchanged. */
  lemma DependenciesOrder()
    ensures |DEPENDENCIES| == 2 + |BASE_DEPENDENCIES|
    ensures DEPENDENCIES[..2] == ["apbuild", "patchelf"] && DEPENDENCIES[2..] == BASE_DEPENDENCIES
    ensures forall d :: d in BASE_DEPENDENCIES ==> d in DEPENDENCIES
  {
  }

  /** The four variables `__init__` sets outright. */
  function CompilerVars(env: map<string, string>): (r: map<string, string>)
    ensures r.Keys == env.Keys + {"APBUILD_STATIC_LIBGCC", "AUTOPACKAGE_FRONTEND", "CC", "CXX"}
  {
    env["APBUILD_STATIC_LIBGCC" := "1"]["AUTOPACKAGE_FRONTEND" := "apkg-ttyfe"]["CC" := "apgcc"]["CXX" := "apg++"]
  }

  /** `self.env` after `__init__`. */
  function EnvVars(rootdir: string, inherited: map<string, string>): map<string, string> {
    var prefix := Prefix(rootdir);
    AddEnvPath(CompilerVars(BaseEnvVars(prefix, inherited)), "PKG_CONFIG_PATH", Join(prefix, "lib/pkgconfig"))
  }

  /** Builds use the autopackage compiler wrappers and link libgcc
    * statically; every other inherited variable except the two search
    * paths is kept. */
  lemma EnvVarsWrappers(rootdir: string, inherited: map<string, string>)
    ensures var e := EnvVars(rootdir, inherited);
      && e["CC"] == "apgcc" && e["CXX"] == "apg++"
      && e["APBUILD_STATIC_LIBGCC"] == "1" && e["AUTOPACKAGE_FRONTEND"] == "apkg-ttyfe"
    ensures forall k :: k in inherited && k !in {"PATH", "PKG_CONFIG_PATH", "CC", "CXX", "APBUILD_STATIC_LIBGCC", "AUTOPACKAGE_FRONTEND"}
              ==> EnvVars(rootdir, inherited)[k] == inherited[k]
  {
  }

  /** The prefix's programs and pkg-config files are found before any
    * inherited ones. */
  lemma EnvVarsPaths(rootdir: string, inherited: map<string, string>)
    requires ':' !in rootdir
    ensures var e := EnvVars(rootdir, inherited);
      && SplitOn(e["PATH"], ':')[0] == Join(Prefix(rootdir), "bin")
      && SplitOn(e["PKG_CONFIG_PATH"], ':')
         == [Join(Prefix(rootdir), "lib/pkgconfig")]
            + (if "PKG_CONFIG_PATH" in inherited && inherited["PKG_CONFIG_PATH"] != ""
               then SplitOn(inherited["PKG_CONFIG_PATH"], ':') else [])
  {
    var prefix := Prefix(rootdir);
    var base := BaseEnvVars(prefix, inherited);
    AddEnvPathEntries(inherited, "PATH", Join(prefix, "bin"));
    var env := CompilerVars(base);
    assert env["PATH"] == base["PATH"];
    assert "PKG_CONFIG_PATH" in env <==> "PKG_CONFIG_PATH" in inherited;
    assert "PKG_CONFIG_PATH" in inherited ==> env["PKG_CONFIG_PATH"] == inherited["PKG_CONFIG_PATH"];
    AddEnvPathEntries(env, "PKG_CONFIG_PATH", Join(prefix, "lib/pkgconfig"));
  }

  // ---------------------------------------------------------------------
  // Symbol versions

  predicate IsDigit(c: char) {
    '0' <= c <= '9'
  }

  predicate IsDigits(s: string) {
    |s| > 0 && forall k :: 0 <= k < |s| ==> IsDigit(s[k])
  }

  /** The value of a run of decimal digits. */
  function DigitsValue(s: string): nat
    requires forall k :: 0 <= k < |s| ==> IsDigit(s[k])
    decreases |s|
  {
    if |s| == 0 then 0
    else
      assert IsDigit(s[|s| - 1]);
      10 * DigitsValue(s[..|s| - 1]) + (s[|s| - 1] as int - '0' as int)
  }

  /** `int(s)` for a string without whitespace: an optional sign, then
    * decimal digits; anything else raises `ValueError`. */
  function ParseInt(s: string): Option<int> {
    if |s| > 0 && (s[0] == '+' || s[0] == '-') && IsDigits(s[1..]) then
      var n: int := DigitsValue(s[1..]);
      Some(if s[0] == '-' then -n else n)
    else if IsDigits(s) then Some(DigitsValue(s))
    else None
  }

  /** `map(int, parts)`: the values in order, or the first part that is
    * not an integer. */
  function ParseInts(parts: seq<string>): (r: Result<seq<int>, string>)
    ensures r.Success? <==> forall i :: 0 <= i < |parts| ==> ParseInt(parts[i]).Some?
    ensures r.Success? ==> |r.value| == |parts|
                           && forall i :: 0 <= i < |parts| ==> Some(r.value[i]) == ParseInt(parts[i])
    ensures r.Failure? ==> exists i :: 0 <= i < |parts| && parts[i] == r.error && ParseInt(parts[i]).None?
                                      && forall j :: 0 <= j < i ==> ParseInt(parts[j]).Some?
    decreases |parts|
  {
    if |parts| == 0 then Success([])
    else match ParseInt(parts[0])
      case None => Failure(parts[0])
      case Some(n) =>
        var rest := ParseInts(parts[1..]);
        assert forall i :: 1 <= i < |parts| ==> parts[1..][i - 1] == parts[i];
        if rest.Failure? then rest else Success([n] + rest.value)
  }

  /** Python's `<` on lists of integers: lexicographic, and a proper prefix
    * comes first. */
  predicate ListLess(a: seq<int>, b: seq<int>)
    decreases |a|
  {
    if |a| == 0 then |b| > 0
    else if |b| == 0 then false
    else if a[0] != b[0] then a[0] < b[0]
    else ListLess(a[1..], b[1..])
  }

  /** The glibc versions that may be linked against: those before 2.4,
    * which is what `not (ver >= [2,4])` accepts. */
  lemma GlibcThreshold(v: seq<int>)
    ensures ListLess(v, [2, 4]) <==> |v| == 0 || v[0] < 2 || (v[0] == 2 && (|v| == 1 || v[1] < 4))
  {
    if |v| > 0 && v[0] == 2 {
      assert [2, 4][1..] == [4];
      assert ListLess(v, [2, 4]) == ListLess(v[1..], [4]);
      if |v| > 1 {
        assert v[1..][0] == v[1];
        if v[1] == 4 {
          assert [4][1..] == [];
          assert v[1..][1..] == v[2..];
          assert ListLess(v[1..], [4]) == ListLess(v[2..], []);
        }
      }
    }
  }

  /** The libstdc++ versions that may be linked against: 3.4 and anything
    * before it, which is what `not (ver > [3,4])` accepts. */
  lemma GlibcxxThreshold(v: seq<int>)
    ensures !ListLess([3, 4], v)
        <==> |v| == 0 || v[0] < 3 || (v[0] == 3 && (|v| == 1 || v[1] < 4 || (v[1] == 4 && |v| == 2)))
  {
    if |v| > 0 && v[0] == 3 {
      assert [3, 4][1..] == [4];
      if |v| > 1 {
        assert v[1..][0] == v[1];
        assert ListLess([3, 4], v) == ListLess([4], v[1..]);
        if v[1] == 4 {
          assert [4][1..] == [];
          assert v[1..][1..] == v[2..];
          assert ListLess([4], v[1..]) == ListLess([], v[2..]);
        }
      }
    }
  }

  const GLIBC_TAG: string := "GLIBC_"
  const GLIBCXX_TAG: string := "GLIBCXX_"

  /** `field.split("_", 1)[1]` */
  function AfterUnderscore(field: string): string
    requires '_' in field
  {
    field[IndexOf(field, '_') + 1..]
  }

  /** The text after a tag whose only `_` ends it is what follows the tag. */
  lemma AfterTag(tag: string, v: string)
    requires |tag| > 0 && tag[|tag| - 1] == '_' && '_' !in tag[..|tag| - 1]
    ensures '_' in tag + v && AfterUnderscore(tag + v) == v
  {
    var f := tag + v;
    assert f[..|tag| - 1] == tag[..|tag| - 1];
    IndexOfAt(f, '_', |tag| - 1);
    assert f[|tag|..] == v;
  }

  /** Why a shared library is refused, with the offending line of output. */
  datatype SymbolError =
    | NewGlibc(path: string, line: string)
    | NewGlibcxx(path: string, line: string)
    | NotAnInt(text: string)

  /** The message the refusal carries. */
  function Message(e: SymbolError): string {
    match e
    case NewGlibc(p, ln) => "new glibc symbols in " + p + "\n" + Strip(ln)
    case NewGlibcxx(p, ln) => "new glibcxx symbols in " + p + "\n" + Strip(ln)
    case NotAnInt(t) => "invalid literal for int() with base 10: '" + t + "'"
  }

  /** One whitespace-separated field of a line of `objdump -T` output. */
  function CheckField(fpath: string, ln: string, field: string): Option<SymbolError> {
    if StartsWith(field, GLIBC_TAG) then
      assert field[5] == '_';
      match ParseInts(SplitOn(AfterUnderscore(field), '.'))
      case Failure(t) => Some(NotAnInt(t))
      case Success(v) => if !ListLess(v, [2, 4]) then Some(NewGlibc(fpath, ln)) else None
    else if StartsWith(field, GLIBCXX_TAG) then
      assert field[7] == '_';
      match ParseInts(SplitOn(AfterUnderscore(field), '.'))
      case Failure(t) => Some(NotAnInt(t))
      case Success(v) => if ListLess([3, 4], v) then Some(NewGlibcxx(fpath, ln)) else None
    else None
  }

  /** `_check_glibc_symbols`: the first field of the `objdump -T` output,
    * line by line, that names a glibc of 2.4 or later, a libstdc++ after
    * 3.4, or a version that is not a list of integers. */
  function CheckGlibcSymbols(fpath: string, objdump: string): Option<SymbolError> {
    FirstRefusal(SplitOn(objdump, '\n'), LineCheck(fpath))
  }

  function LineCheck(fpath: string): string -> Option<SymbolError> {
    ln => CheckLine(fpath, ln)
  }

  function FieldCheck(fpath: string, ln: string): string -> Option<SymbolError> {
    field => CheckField(fpath, ln, field)
  }

  /** A library passes exactly when every field of every line of its
    * `objdump -T` output is accepted. */
  lemma CheckGlibcSymbolsMeaning(fpath: string, objdump: string)
    ensures CheckGlibcSymbols(fpath, objdump).None?
        <==> forall i :: 0 <= i < |SplitOn(objdump, '\n')| ==> LinePasses(fpath, SplitOn(objdump, '\n')[i])
  {
    var f := LineCheck(fpath);
    forall x ensures f(x).None? <==> LinePasses(fpath, x) {
      CheckLineMeaning(fpath, x);
    }
    FirstRefusalNone(SplitOn(objdump, '\n'), f, x => LinePasses(fpath, x));
  }

  /** Every field of the line is accepted. */
  predicate LinePasses(fpath: string, ln: string) {
    forall j :: 0 <= j < |Words(ln)| ==> CheckField(fpath, ln, Words(ln)[j]).None?
  }

  /** The first field of one line of `objdump -T` output that is refused. */
  function CheckLine(fpath: string, ln: string): Option<SymbolError> {
    FirstRefusal(Words(ln), FieldCheck(fpath, ln))
  }

  lemma CheckLineMeaning(fpath: string, ln: string)
    ensures CheckLine(fpath, ln).None? <==> LinePasses(fpath, ln)
  {
    var ws := Words(ln);
    var f := FieldCheck(fpath, ln);
    assert forall j :: 0 <= j < |ws| ==> f(ws[j]) == CheckField(fpath, ln, ws[j]);
  }

  /** `_check_glibc_symbols` as the two nested loops it is: over the lines
    * of `objdump -T` output, and over the fields of each line, stopping at
    * the first refused field. */
  method CheckSymbols(fpath: string, objdump: string) returns (bad: Option<SymbolError>)
    ensures bad == CheckGlibcSymbols(fpath, objdump)
  {
    var lines := SplitOn(objdump, '\n');
    bad := None;
    var i := 0;
    while i < |lines| && bad.None?
      invariant 0 <= i <= |lines|
      invariant bad == FirstRefusal(lines[..i], LineCheck(fpath))
    {
      FirstRefusalSnoc(lines, LineCheck(fpath), i);
      var ln := lines[i];
      var fields := Words(ln);
      var j := 0;
      while j < |fields| && bad.None?
        invariant 0 <= j <= |fields|
        invariant bad == FirstRefusal(fields[..j], FieldCheck(fpath, ln))
      {
        FirstRefusalSnoc(fields, FieldCheck(fpath, ln), j);
        bad := CheckField(fpath, ln, fields[j]);
        j := j + 1;
      }
      if j < |fields| {
        FirstRefusalStops(fields, FieldCheck(fpath, ln), j);
      } else {
        assert fields[..j] == fields;
      }
      i := i + 1;
    }
    if i < |lines| {
      FirstRefusalStops(lines, LineCheck(fpath), i);
    } else {
      assert lines[..i] == lines;
    }
  }

  /** A field tagged `GLIBC_` is judged by the version after the tag
    * alone: refused from 2.4 on, or when a part is not an integer. */
  lemma GlibcField(fpath: string, ln: string, v: string)
    ensures CheckField(fpath, ln, GLIBC_TAG + v)
         == match ParseInts(SplitOn(v, '.'))
            case Failure(t) => Some(NotAnInt(t))
            case Success(w) => if !ListLess(w, [2, 4]) then Some(NewGlibc(fpath, ln)) else None
  {
    AfterTag(GLIBC_TAG, v);
    assert (GLIBC_TAG + v)[..|GLIBC_TAG|] == GLIBC_TAG;
  }

  /** A field tagged `GLIBCXX_` is judged by the version after the tag
    * alone: refused after 3.4, or when a part is not an integer. */
  lemma GlibcxxField(fpath: string, ln: string, v: string)
    ensures CheckField(fpath, ln, GLIBCXX_TAG + v)
         == match ParseInts(SplitOn(v, '.'))
            case Failure(t) => Some(NotAnInt(t))
            case Success(w) => if ListLess([3, 4], w) then Some(NewGlibcxx(fpath, ln)) else None
  {
    var f := GLIBCXX_TAG + v;
    AfterTag(GLIBCXX_TAG, v);
    assert f[..|GLIBCXX_TAG|] == GLIBCXX_TAG;
    assert f[5] == 'X' != GLIBC_TAG[5];
  }

  /** A glibc 2.3.4 symbol is accepted. */
  lemma Glibc234Accepted(fpath: string, ln: string)
    ensures CheckField(fpath, ln, GLIBC_TAG + "2.3.4") == None
  {
    GlibcField(fpath, ln, "2.3.4");
    assert "2.3.4" == ['2', '.'] + "3.4";
    VersionDigits2('3', '4');
    VersionCons('2', "3.4");
    GlibcThreshold([2, 3, 4]);
  }

  /** A glibc 2.4 symbol is refused. */
  lemma Glibc24Refused(fpath: string, ln: string)
    ensures CheckField(fpath, ln, GLIBC_TAG + "2.4") == Some(NewGlibc(fpath, ln))
  {
    GlibcField(fpath, ln, "2.4");
    VersionDigits2('2', '4');
    GlibcThreshold([2, 4]);
  }

  /** A libstdc++ 3.4 symbol is accepted. */
  lemma Glibcxx34Accepted(fpath: string, ln: string)
    ensures CheckField(fpath, ln, GLIBCXX_TAG + "3.4") == None
  {
    GlibcxxField(fpath, ln, "3.4");
    VersionDigits2('3', '4');
    GlibcxxThreshold([3, 4]);
  }

  /** A libstdc++ 3.4.1 symbol is refused. */
  lemma Glibcxx341Refused(fpath: string, ln: string)
    ensures CheckField(fpath, ln, GLIBCXX_TAG + "3.4.1") == Some(NewGlibcxx(fpath, ln))
  {
    GlibcxxField(fpath, ln, "3.4.1");
    assert "3.4.1" == ['3', '.'] + "4.1";
    VersionDigits2('4', '1');
    VersionCons('3', "4.1");
    GlibcxxThreshold([3, 4, 1]);
  }

  /** `GLIBC_PRIVATE` is not a version: `int` refuses it. */
  lemma GlibcPrivateRefused(fpath: string, ln: string)
    ensures CheckField(fpath, ln, GLIBC_TAG + "PRIVATE") == Some(NotAnInt("PRIVATE"))
  {
    GlibcField(fpath, ln, "PRIVATE");
    NotANumber("PRIVATE");
  }

  /** A word that is not a number is refused as it is. */
  lemma NotANumber(t: string)
    requires '.' !in t && |t| > 0 && t[0] != '+' && t[0] != '-' && !IsDigit(t[0])
    ensures ParseInts(SplitOn(t, '.')) == Failure(t)
  {
    assert SplitOn(t, '.') == [t];
    assert ParseInt(t) == None;
  }

  /** A single digit is a one-part version. */
  lemma DigitVersion(a: char)
    requires IsDigit(a)
    ensures ParseInts(SplitOn([a], '.')) == Success([a as int - '0' as int])
  {
    assert '.' !in [a];
    assert SplitOn([a], '.') == [[a]];
    DigitValue(a);
    assert ParseInts([]) == Success([]);
    ParseIntsCons([a], []);
    assert [[a]] + [] == [[a]];
    assert [a as int - '0' as int] + [] == [a as int - '0' as int];
  }

  /** A digit and a dot in front of a version add that digit as its first
    * part. */
  lemma VersionCons(a: char, r: string)
    requires IsDigit(a)
    ensures ParseInts(SplitOn([a, '.'] + r, '.'))
         == if ParseInts(SplitOn(r, '.')).Failure? then ParseInts(SplitOn(r, '.'))
            else Success([a as int - '0' as int] + ParseInts(SplitOn(r, '.')).value)
  {
    var s := [a, '.'] + r;
    IndexOfAt(s, '.', 1);
    assert s[..1] == [a] && s[2..] == r;
    assert SplitOn(s, '.') == [[a]] + SplitOn(r, '.');
    DigitValue(a);
    ParseIntsCons([a], SplitOn(r, '.'));
  }

  lemma VersionDigits2(a: char, b: char)
    requires IsDigit(a) && IsDigit(b)
    ensures ParseInts(SplitOn([a, '.', b], '.')) == Success([a as int - '0' as int, b as int - '0' as int])
  {
    assert [a, '.', b] == [a, '.'] + [b];
    VersionCons(a, [b]);
    DigitVersion(b);
    var va, vb := a as int - '0' as int, b as int - '0' as int;
    assert [va] + [vb] == [va, vb];
  }

  lemma ParseIntsCons(p: string, rest: seq<string>)
    requires ParseInt(p).Some?
    ensures ParseInts([p] + rest)
         == if ParseInts(rest).Failure? then ParseInts(rest) else Success([ParseInt(p).value] + ParseInts(rest).value)
  {
    assert ([p] + rest)[0] == p && ([p] + rest)[1..] == rest;
  }

  lemma DigitValue(a: char)
    requires IsDigit(a)
    ensures ParseInt([a]) == Some(a as int - '0' as int)
  {
    var s := [a];
    assert s[0] == a && s[..0] == [];
    assert IsDigits(s);
    assert DigitsValue(s) == 10 * DigitsValue(s[..0]) + (a as int - '0' as int);
  }

  // ---------------------------------------------------------------------
  // The rpath

  /** `dirname` taken `n` times. */
  function Up(d: string, n: nat): string
    decreases n
  {
    if n == 0 then d else Up(Dirname(d), n - 1)
  }

  /** `dirname` either shortens a path or leaves it as it is. */
  lemma DirnameShrinks(p: string)
    ensures Dirname(p) == p || |Dirname(p)| < |p|
  {
    var t := AfterLast(p, '/');
    var head := p[..t];
    if head != "" && !AllSlashes(head) && t == |p| {
      assert p[|p| - 1] == '/';
      assert head == p;
    }
  }

  /** A path `dirname` leaves as it is stays put however often it is taken. */
  lemma {:induction false} UpFixed(d: string, n: nat)
    requires Dirname(d) == d
    ensures Up(d, n) == d
    decreases n
  {
    if n > 0 {
      UpFixed(d, n - 1);
    }
  }

  function Plus(o: Option<nat>, k: nat): Option<nat> {
    match o
    case None => None
    case Some(n) => Some(n + k)
  }

  /** How many `dirname` steps lead from `d` to `prefix`, the fewest such;
    * none when no number of them does, and the loop of `_adjust_rpath`
    * would then never end. */
  function UpCount(d: string, prefix: string): Option<nat>
    decreases |d|
  {
    if d == prefix then Some(0)
    else if Dirname(d) == d then None
    else
      DirnameShrinks(d);
      Plus(UpCount(Dirname(d), prefix), 1)
  }

  /** The count is the fewest steps that reach the prefix, and there is none
    * exactly when no number of steps reaches it. */
  lemma {:induction false} UpCountMeaning(d: string, prefix: string)
    ensures UpCount(d, prefix).Some? ==>
              Up(d, UpCount(d, prefix).value) == prefix
              && forall j :: 0 <= j < UpCount(d, prefix).value ==> Up(d, j) != prefix
    ensures UpCount(d, prefix).None? ==> forall j :: Up(d, j) != prefix
    decreases |d|
  {
    if d == prefix {
    } else if Dirname(d) == d {
      forall j ensures Up(d, j) != prefix { UpFixed(d, j); }
    } else {
      DirnameShrinks(d);
      var p := Dirname(d);
      UpCountMeaning(p, prefix);
      assert UpCount(d, prefix) == Plus(UpCount(p, prefix), 1);
      forall j: nat | 0 < j ensures Up(d, j) == Up(p, j - 1) {}
      assert Up(d, 0) == d;
    }
  }

  /** One step of the walk when the directory is not yet the prefix. */
  lemma UpCountStep(d: string, prefix: string, k: nat)
    requires d != prefix
    ensures Dirname(d) == d ==> Plus(UpCount(d, prefix), k) == None
    ensures Dirname(d) != d ==> Plus(UpCount(d, prefix), k) == Plus(UpCount(Dirname(d), prefix), k + 1)
  {
    if Dirname(d) != d {
      var o := UpCount(Dirname(d), prefix);
      assert UpCount(d, prefix) == Plus(o, 1);
      assert Plus(Plus(o, 1), k) == Plus(o, k + 1);
    }
  }

  /** The directory of a file installed below the prefix is as many steps
    * from the prefix as there are names between them. */
  lemma {:induction false} UpCountBelow(prefix: string, names: seq<Name>)
    requires prefix != "" && !EndsWith(prefix, "/")
    ensures UpCount(JoinAll(prefix, names), prefix) == Some(|names|)
    decreases |names|
  {
    JoinAllExtends(prefix, names);
    if |names| > 0 {
      var p := JoinAll(prefix, names);
      var init := names[..|names| - 1];
      DirnameJoinAll(prefix, names);
      JoinAllExtends(prefix, init);
      assert p == Join(JoinAll(prefix, init), names[|names| - 1]);
      assert |JoinAll(prefix, init)| < |p|;
      UpCountBelow(prefix, init);
    }
  }

  /** `".."` once per step. */
  function Backrefs(n: nat): (r: seq<string>)
    ensures |r| == n && forall i :: 0 <= i < n ==> r[i] == ".."
  {
    seq(n, _ => "..")
  }

  /** The rpath set on a file `n` directories below the prefix: the file's
    * own directory, then the prefix's `lib` reached by going up `n` times. */
  function Rpath(n: nat): string {
    "${ORIGIN}:${ORIGIN}/" + JoinWith("/", Backrefs(n)) + "/lib"
  }

  /** The failure standing for the endless loop of `_adjust_rpath` on a file
    * whose directory never reaches the prefix. */
  const ENDLESS_WALK: string := "dirname never reaches PREFIX"

  /** What `_adjust_rpath` does to one file. */
  function AdjustRpathRun(prefix: string, hasPatchelf: bool, fpath: string): HookRun {
    if !hasPatchelf then HookRun([], None)
    else match UpCount(Dirname(fpath), prefix)
      case None => HookRun([], Some(ENDLESS_WALK))
      case Some(n) => HookRun([["patchelf", "--set-rpath", Rpath(n), fpath]], None)
  }

  /** A file installed at `prefix/n1/…/nk` gets `k - 1` back-references. */
  lemma AdjustRpathBelow(prefix: string, names: seq<Name>)
    requires prefix != "" && !EndsWith(prefix, "/") && |names| > 0
    ensures AdjustRpathRun(prefix, true, JoinAll(prefix, names))
         == HookRun([["patchelf", "--set-rpath", Rpath(|names| - 1), JoinAll(prefix, names)]], None)
  {
    DirnameJoinAll(prefix, names);
    UpCountBelow(prefix, names[..|names| - 1]);
    UpCountMeaning(JoinAll(prefix, names[..|names| - 1]), prefix);
  }

  /** `_adjust_rpath`: with `patchelf` installed, walk up from the file's
    * directory to the prefix counting the steps, and set the rpath. */
  method AdjustRpath(prefix: string, hasPatchelf: bool, fpath: string) returns (run: HookRun)
    ensures run == AdjustRpathRun(prefix, hasPatchelf, fpath)
  {
    if !hasPatchelf {
      return HookRun([], None);
    }
    var backrefs: seq<string> := [];
    var froot := Dirname(fpath);
    while froot != prefix
      invariant UpCount(Dirname(fpath), prefix) == Plus(UpCount(froot, prefix), |backrefs|)
      invariant backrefs == Backrefs(|backrefs|)
      decreases |froot|
    {
      UpCountStep(froot, prefix, |backrefs|);
      var up := Dirname(froot);
      if up == froot {
        return HookRun([], Some(ENDLESS_WALK));
      }
      DirnameShrinks(froot);
      BackrefsSnoc(|backrefs|);
      backrefs := backrefs + [".."];
      froot := up;
    }
    assert UpCount(Dirname(fpath), prefix) == Some(|backrefs|);
    var rpath := JoinWith("/", backrefs) + "/lib";
    rpath := "${ORIGIN}:${ORIGIN}/" + rpath;
    RpathSpelled(|backrefs|);
    run := HookRun([["patchelf", "--set-rpath", rpath, fpath]], None);
  }

  lemma BackrefsSnoc(n: nat)
    ensures Backrefs(n) + [".."] == Backrefs(n + 1)
  {
  }

  lemma RpathSpelled(n: nat)
    ensures "${ORIGIN}:${ORIGIN}/" + (JoinWith("/", Backrefs(n)) + "/lib") == Rpath(n)
  {
  }

  // ---------------------------------------------------------------------
  // record_files

  /** Recipes whose files are left as built. */
  const APGCC_PROBLEMS: seq<string> := ["apbuild_base", "apbuild", "lib_apiextractor"]

  /** What the checks learn from outside: whether a path is its own
    * `realpath` (no symbolic link on the way), the output of
    * `objdump -T` on it, and the output of `file` on it. */
  datatype Tools = Tools(resolved: string -> bool, objdump: string -> string, fileType: string -> string)

  predicate IsSharedLib(fnm: string) {
    EndsWith(fnm, ".so") || Contains(fnm, ".so.")
  }

  predicate IsElfExecutable(info: string) {
    Contains(info, "executable") && Contains(info, "ELF")
  }

  /** The files whose symbol versions are checked. */
  predicate ChecksSymbols(tools: Tools, recipe: string, fpath: string) {
    tools.resolved(fpath) && recipe !in APGCC_PROBLEMS && IsSharedLib(Basename(fpath))
  }

  /** The files whose rpath is set, once their symbols pass. */
  predicate GetsRpath(tools: Tools, recipe: string, fpath: string) {
    tools.resolved(fpath) && recipe !in APGCC_PROBLEMS
    && (IsSharedLib(Basename(fpath))
        || ('.' !in Basename(fpath) && IsElfExecutable(tools.fileType(fpath))))
  }

  /** The body of the loop of `record_files` for one recorded file. */
  function FileHook(rootdir: string, tools: Tools, hasPatchelf: bool, recipe: string, file: string): HookRun {
    var fpath := Join(rootdir, file);
    var fnm := Basename(fpath);
    if !tools.resolved(fpath) || recipe in APGCC_PROBLEMS then HookRun([], None)
    else if IsSharedLib(fnm) then
      match CheckGlibcSymbols(fpath, tools.objdump(fpath))
      case Some(e) => HookRun([], Some(Message(e)))
      case None => AdjustRpathRun(Prefix(rootdir), hasPatchelf, fpath)
    else if '.' !in fnm && IsElfExecutable(tools.fileType(fpath)) then
      AdjustRpathRun(Prefix(rootdir), hasPatchelf, fpath)
    else HookRun([], None)
  }

  /** Which files are checked and which get an rpath: a shared library
    * whose symbols are too new is refused, every other file the two
    * tests pick gets its rpath adjusted, and the rest are left alone. */
  lemma FileHookCases(rootdir: string, tools: Tools, hasPatchelf: bool, recipe: string, file: string)
    ensures var fpath := Join(rootdir, file);
      var run := FileHook(rootdir, tools, hasPatchelf, recipe, file);
      && (ChecksSymbols(tools, recipe, fpath) && CheckGlibcSymbols(fpath, tools.objdump(fpath)).Some? ==>
            run == HookRun([], Some(Message(CheckGlibcSymbols(fpath, tools.objdump(fpath)).value))))
      && (ChecksSymbols(tools, recipe, fpath) ==> GetsRpath(tools, recipe, fpath))
      && (!ChecksSymbols(tools, recipe, fpath) || CheckGlibcSymbols(fpath, tools.objdump(fpath)).None? ==>
            run == if GetsRpath(tools, recipe, fpath) then AdjustRpathRun(Prefix(rootdir), hasPatchelf, fpath)
                   else HookRun([], None))
  {
  }

  /** `os.path.exists(PREFIX/bin/patchelf)`: the tree holds `local/bin/patchelf`. */
  predicate HasPatchelf(disk: seq<Entry>) {
    Lookup(disk, ["local", "bin", "patchelf"]).Some?
  }

  function FileStep(rootdir: string, tools: Tools, hasPatchelf: bool, recipe: string): string -> HookRun {
    file => FileHook(rootdir, tools, hasPatchelf, recipe, file)
  }

  /** The `record_files` override, handed to the base environment as its
    * post-processing hook: the base ledger then records the same files. */
  function PostProcess(rootdir: string, tools: Tools): (string, seq<string>, seq<Entry>) -> HookRun {
    (recipe, files, disk) => Chain(files, FileStep(rootdir, tools, HasPatchelf(disk), recipe))
  }

  /** A command `patchelf --set-rpath <rpath> <fpath>`. */
  predicate SetsRpathOf(c: seq<string>, fpath: string) {
    |c| == 4 && c[0] == "patchelf" && c[1] == "--set-rpath" && c[3] == fpath
  }

  /** The only command run for one file sets that file's rpath, and only
    * for a file the classification picks. */
  lemma FileHookCommands(rootdir: string, tools: Tools, hasPatchelf: bool, recipe: string, file: string)
    ensures forall c :: c in FileHook(rootdir, tools, hasPatchelf, recipe, file).commands ==>
              GetsRpath(tools, recipe, Join(rootdir, file)) && SetsRpathOf(c, Join(rootdir, file))
  {
    AdjustRpathSets(Prefix(rootdir), hasPatchelf, Join(rootdir, file));
  }

  lemma AdjustRpathSets(prefix: string, hasPatchelf: bool, fpath: string)
    ensures forall c :: c in AdjustRpathRun(prefix, hasPatchelf, fpath).commands ==> SetsRpathOf(c, fpath)
  {
  }

  /** The only commands the override runs set the rpath of a recorded file
    * the classification picks, and it passes exactly when every file
    * passes. */
  lemma PostProcessCommands(rootdir: string, tools: Tools, recipe: string, files: seq<string>, disk: seq<Entry>)
    ensures forall c :: c in PostProcess(rootdir, tools)(recipe, files, disk).commands ==>
              exists i :: 0 <= i < |files| && GetsRpath(tools, recipe, Join(rootdir, files[i]))
                          && SetsRpathOf(c, Join(rootdir, files[i]))
    ensures PostProcess(rootdir, tools)(recipe, files, disk).failure.None?
        <==> forall i :: 0 <= i < |files| ==> FileHook(rootdir, tools, HasPatchelf(disk), recipe, files[i]).failure.None?
  {
    var step := FileStep(rootdir, tools, HasPatchelf(disk), recipe);
    ChainFailure(files, step);
    ChainPasses(files, step);
    forall c | c in Chain(files, step).commands
      ensures exists i :: 0 <= i < |files| && GetsRpath(tools, recipe, Join(rootdir, files[i]))
                          && SetsRpathOf(c, Join(rootdir, files[i]))
    {
      var i :| 0 <= i < |files| && c in step(files[i]).commands;
      FileHookCommands(rootdir, tools, HasPatchelf(disk), recipe, files[i]);
    }
  }

  /** One pass of the loop of `record_files`. */
  method RecordOne(rootdir: string, tools: Tools, hasPatchelf: bool, recipe: string, file: string)
    returns (run: HookRun)
    ensures run == FileHook(rootdir, tools, hasPatchelf, recipe, file)
  {
    run := HookRun([], None);
    var fpath := Join(rootdir, file);
    var fnm := Basename(fpath);
    if tools.resolved(fpath) && recipe !in APGCC_PROBLEMS {
      if IsSharedLib(fnm) {
        var bad := CheckSymbols(fpath, tools.objdump(fpath));
        if bad.Some? {
          run := HookRun([], Some(Message(bad.value)));
        } else {
          run := AdjustRpath(Prefix(rootdir), hasPatchelf, fpath);
        }
      } else if '.' !in fnm {
        var info := tools.fileType(fpath);
        if IsElfExecutable(info) {
          run := AdjustRpath(Prefix(rootdir), hasPatchelf, fpath);
        }
      }
    }
  }

  /** `record_files` up to the call of the base class: the checks and
    * fix-ups, file by file, until one fails. */
  method RecordHooks(rootdir: string, tools: Tools, recipe: string, files: seq<string>, disk: seq<Entry>)
    returns (run: HookRun)
    ensures run == PostProcess(rootdir, tools)(recipe, files, disk)
  {
    var hasPatchelf := HasPatchelf(disk);
    ghost var step := FileStep(rootdir, tools, hasPatchelf, recipe);
    run := HookRun([], None);
    var i := 0;
    while i < |files| && run.failure.None?
      invariant 0 <= i <= |files|
      invariant run == Chain(files[..i], step)
    {
      var r := RecordOne(rootdir, tools, hasPatchelf, recipe, files[i]);
      ChainExtend(files, step, i, run, r);
      run := HookRun(run.commands + r.commands, r.failure);
      i := i + 1;
    }
    ChainDone(files, step, i, run);
  }

  /** A Linux environment over an existing tree and its stored tables: the
    * base environment with this platform's dependencies and `record_files`
    * override. */
  method NewEnv(rootdir: string, registry: Registry, fetchStep: string -> bool,
                buildStep: (string, seq<Entry>) -> (seq<Entry>, bool), tools: Tools, disk: seq<Entry>,
                storedRows: seq<Row>, storedMarked: set<string>)
    returns (env: MyppyEnv)
    requires IsAbs(rootdir) && !EndsWith(rootdir, "/")
    requires MarkedInstalled(storedRows, storedMarked)
    ensures fresh(env) && env.Valid()
    ensures env.rootdir == rootdir && env.registry == registry && env.dependencies == DEPENDENCIES
    ensures env.postProcess == PostProcess(rootdir, tools)
    ensures env.rows == storedRows && env.marked == storedMarked && env.lockDepth == 0 && env.disk == disk && env.commands == []
  {
    env := new MyppyEnv(rootdir, registry, DEPENDENCIES, fetchStep, buildStep, PostProcess(rootdir, tools), disk,
                          storedRows, storedMarked);
  }
}
