/** Values behind the environment ledger of `myppy/envs/base.py`: the recipe
  * registry, the two ledger tables, the dependency closure that decides
  * which recipes count as explicitly installed, the directory tree under the
  * environment root, and the set of files a walk of that tree reports as
  * new. */
module EnvModel {
  import opened Wrappers
  import opened Text
  import opened PosixPath
  import Util

  /** The three dependency lists of a recipe class. */
  datatype Recipe = Recipe(dependencies: seq<string>, buildDependencies: seq<string>, conflictsWith: seq<string>)

  /** Recipe classes by name (what `load_recipe` can find). */
  type Registry = map<string, Recipe>

  /** A row of the `installed_files` table. */
  datatype Row = Row(recipe: string, filepath: string)

  /** Why an environment operation stopped. */
  datatype Error =
    | UnknownRecipe(name: string)
    | Conflict(recipe: string, installed: string)
    | NoFilesInstalled(recipe: string)
    | NotRelative(path: string)
    | StepFailed(recipe: string)
    | PostProcessFailed(recipe: string, reason: string)
    | OsError(path: string)
    | RecursionLimit

  // ---------------------------------------------------------------------
  // The installed_files table

  predicate Installed(rows: seq<Row>, r: string) {
    exists i :: 0 <= i < |rows| && rows[i].recipe == r
  }

  /** The file paths recorded for `r`, in table order. */
  function PathsOf(rows: seq<Row>, r: string): (ps: seq<string>)
    ensures forall p :: p in ps <==> Row(r, p) in rows
    ensures |ps| == 0 <==> !Installed(rows, r)
  {
    if |rows| == 0 then []
    else
      var rest := PathsOf(rows[1..], r);
      assert forall i :: 1 <= i < |rows| ==> rows[i] == rows[1..][i - 1];
      if rows[0].recipe == r then [rows[0].filepath] + rest else rest
  }

  /** The table after `DELETE FROM installed_files WHERE recipe=?`. */
  function Without(rows: seq<Row>, r: string): (rest: seq<Row>)
    ensures forall row :: row in rest <==> row in rows && row.recipe != r
  {
    if |rows| == 0 then []
    else if rows[0].recipe == r then Without(rows[1..], r)
    else [rows[0]] + Without(rows[1..], r)
  }

  /** Deleting one recipe's rows removes all of them and leaves every other
    * recipe's rows exactly as they were, in the same order. */
  lemma {:induction false} WithoutExact(rows: seq<Row>, r: string, x: string)
    ensures PathsOf(Without(rows, r), x) == if x == r then [] else PathsOf(rows, x)
    decreases |rows|
  {
    if |rows| > 0 {
      WithoutExact(rows[1..], r, x);
    }
  }

  /** Every file path recorded for any recipe. */
  function Recorded(rows: seq<Row>): set<string> {
    set i | 0 <= i < |rows| :: rows[i].filepath
  }

  /** Every marked recipe has at least one recorded file. */
  predicate MarkedInstalled(rows: seq<Row>, marked: set<string>) {
    forall m :: m in marked ==> Installed(rows, m)
  }

  // ---------------------------------------------------------------------
  // Dependency closure

  /** A chain of recipes, each a runtime dependency of the one before. */
  ghost predicate DepPath(reg: Registry, p: seq<string>) {
    |p| > 0 && forall i :: 0 <= i < |p| - 1 ==> p[i] in reg && p[i + 1] in reg[p[i]].dependencies
  }

  /** `r` is reached from `roots` by following runtime dependencies. */
  ghost predicate Reachable(reg: Registry, roots: set<string>, r: string) {
    exists p :: DepPath(reg, p) && p[0] in roots && p[|p| - 1] == r
  }

  /** Some name reached from `roots` has no recipe class. */
  ghost predicate Unloadable(reg: Registry, roots: set<string>) {
    exists n :: Reachable(reg, roots, n) && n !in reg
  }

  /** The environment's own dependencies plus the marked recipes. */
  function Roots(envDeps: seq<string>, marked: set<string>): set<string> {
    (set d | d in envDeps) + marked
  }

  /** A recipe is explicitly installed when it is installed and reached from
    * the environment's dependencies or a marked recipe. */
  ghost predicate Explicit(reg: Registry, envDeps: seq<string>, rows: seq<Row>, marked: set<string>, r: string) {
    Installed(rows, r) && Reachable(reg, Roots(envDeps, marked), r)
  }

  lemma ReachRoot(reg: Registry, roots: set<string>, r: string)
    requires r in roots
    ensures Reachable(reg, roots, r)
  {
    assert DepPath(reg, [r]);
  }

  lemma ReachStep(reg: Registry, roots: set<string>, n: string, d: string)
    requires Reachable(reg, roots, n) && n in reg && d in reg[n].dependencies
    ensures Reachable(reg, roots, d)
  {
    var p :| DepPath(reg, p) && p[0] in roots && p[|p| - 1] == n;
    var q := p + [d];
    assert DepPath(reg, q);
  }

  /** A set holding the roots and closed under the dependencies of its
    * members holds everything reachable. */
  lemma ClosedHoldsReachable(reg: Registry, roots: set<string>, s: set<string>, r: string)
    requires roots <= s
    requires forall n :: n in s ==> n in reg && forall d :: d in reg[n].dependencies ==> d in s
    requires Reachable(reg, roots, r)
    ensures r in s
  {
    var p :| DepPath(reg, p) && p[0] in roots && p[|p| - 1] == r;
    var i := 0;
    while i < |p| - 1
      invariant 0 <= i < |p| && p[i] in s
    {
      i := i + 1;
    }
  }

  lemma ReachMonotone(reg: Registry, roots: set<string>, more: set<string>, r: string)
    requires roots <= more && Reachable(reg, roots, r)
    ensures Reachable(reg, more, r)
  {
  }

  /** Recording more files or marking more recipes never makes an explicitly
    * installed recipe stop being one. */
  lemma ExplicitGrows(reg: Registry, envDeps: seq<string>, rows: seq<Row>, marked: set<string>,
                      rows': seq<Row>, marked': set<string>, x: string)
    requires rows <= rows' && marked <= marked'
    requires Explicit(reg, envDeps, rows, marked, x)
    ensures Explicit(reg, envDeps, rows', marked', x)
  {
    var i :| 0 <= i < |rows| && rows[i].recipe == x;
    assert rows'[i] == rows[i];
    ReachMonotone(reg, Roots(envDeps, marked), Roots(envDeps, marked'), x);
  }

  /** Uninstalling a recipe that is not explicitly installed changes no
    * other recipe's standing. */
  lemma UninstallKeepsExplicit(reg: Registry, envDeps: seq<string>, rows: seq<Row>, marked: set<string>, c: string, x: string)
    requires MarkedInstalled(rows, marked)
    requires !Explicit(reg, envDeps, rows, marked, c)
    ensures Explicit(reg, envDeps, Without(rows, c), marked - {c}, x) <==> Explicit(reg, envDeps, rows, marked, x)
  {
    var rows' := Without(rows, c);
    if c in marked {
      ReachRoot(reg, Roots(envDeps, marked), c);
    }
    assert marked - {c} == marked;
    if x != c {
      WithoutExact(rows, c, x);
      assert Installed(rows', x) <==> Installed(rows, x) by {
        assert Installed(rows', x) <==> |PathsOf(rows', x)| > 0;
      }
    } else {
      WithoutExact(rows, c, c);
    }
  }

  /** Every recipe explicitly installed in the first state still is in the
    * second. */
  ghost predicate ExplicitKept(reg: Registry, envDeps: seq<string>, rows: seq<Row>, marked: set<string>,
                               rows': seq<Row>, marked': set<string>) {
    forall x :: Explicit(reg, envDeps, rows, marked, x) ==> Explicit(reg, envDeps, rows', marked', x)
  }

  lemma ExplicitKeptTrans(reg: Registry, envDeps: seq<string>, rows: seq<Row>, marked: set<string>,
                          rows': seq<Row>, marked': set<string>, rows'': seq<Row>, marked'': set<string>)
    requires ExplicitKept(reg, envDeps, rows, marked, rows', marked')
    requires ExplicitKept(reg, envDeps, rows', marked', rows'', marked'')
    ensures ExplicitKept(reg, envDeps, rows, marked, rows'', marked'')
  {
  }

  lemma ExplicitKeptAt(reg: Registry, envDeps: seq<string>, rows: seq<Row>, marked: set<string>,
                       rows': seq<Row>, marked': set<string>, x: string)
    requires ExplicitKept(reg, envDeps, rows, marked, rows', marked')
    requires !Explicit(reg, envDeps, rows', marked', x)
    ensures !Explicit(reg, envDeps, rows, marked, x)
  {
  }

  lemma ExplicitKeptGrows(reg: Registry, envDeps: seq<string>, rows: seq<Row>, marked: set<string>,
                          rows': seq<Row>, marked': set<string>)
    requires rows <= rows' && marked <= marked'
    ensures ExplicitKept(reg, envDeps, rows, marked, rows', marked')
  {
    forall x | Explicit(reg, envDeps, rows, marked, x)
      ensures Explicit(reg, envDeps, rows', marked', x)
    {
      ExplicitGrows(reg, envDeps, rows, marked, rows', marked', x);
    }
  }

  lemma ExplicitKeptWithout(reg: Registry, envDeps: seq<string>, rows: seq<Row>, marked: set<string>, c: string)
    requires MarkedInstalled(rows, marked)
    requires !Explicit(reg, envDeps, rows, marked, c)
    ensures ExplicitKept(reg, envDeps, rows, marked, Without(rows, c), marked - {c})
  {
    forall x | Explicit(reg, envDeps, rows, marked, x)
      ensures Explicit(reg, envDeps, Without(rows, c), marked - {c}, x)
    {
      UninstallKeepsExplicit(reg, envDeps, rows, marked, c, x);
    }
  }

  /** A marked recipe is explicitly installed. */
  lemma MarkedExplicit(reg: Registry, envDeps: seq<string>, rows: seq<Row>, marked: set<string>, c: string)
    requires MarkedInstalled(rows, marked)
    ensures c in marked ==> Explicit(reg, envDeps, rows, marked, c)
  {
    if c in marked {
      ReachRoot(reg, Roots(envDeps, marked), c);
    }
  }

  /** An installed dependency of the environment is explicitly installed. */
  lemma EnvDepExplicit(reg: Registry, envDeps: seq<string>, rows: seq<Row>, marked: set<string>, d: string)
    requires d in envDeps && Installed(rows, d)
    ensures Explicit(reg, envDeps, rows, marked, d)
  {
    ReachRoot(reg, Roots(envDeps, marked), d);
  }

  /** Installing the next environment dependency keeps the earlier ones
    * explicitly installed and makes it one too. */
  lemma EnvDepsKept(reg: Registry, envDeps: seq<string>, rows0: seq<Row>, marked0: set<string>,
                    rows: seq<Row>, marked: set<string>, i: int)
    requires ExplicitKept(reg, envDeps, rows0, marked0, rows, marked)
    requires 0 <= i < |envDeps| && Installed(rows, envDeps[i])
    requires forall j :: 0 <= j < i ==> Explicit(reg, envDeps, rows0, marked0, envDeps[j])
    ensures forall j :: 0 <= j < i + 1 ==> Explicit(reg, envDeps, rows, marked, envDeps[j])
  {
    EnvDepExplicit(reg, envDeps, rows, marked, envDeps[i]);
  }

  // ---------------------------------------------------------------------
  // Order of the rows `uninstall` walks (`ORDER BY filepath DESC`)

  /** Code-point order on strings, as both sqlite and Python compare them. */
  predicate LexLeq(a: string, b: string)
    decreases |a|
  {
    |a| == 0 || (|b| > 0 && (a[0] < b[0] || (a[0] == b[0] && LexLeq(a[1..], b[1..]))))
  }

  lemma {:induction false} LexTotal(a: string, b: string)
    ensures LexLeq(a, b) || LexLeq(b, a)
    decreases |a|
  {
    if |a| > 0 && |b| > 0 && a[0] == b[0] {
      LexTotal(a[1..], b[1..]);
    }
  }

  lemma {:induction false} LexTrans(a: string, b: string, c: string)
    requires LexLeq(a, b) && LexLeq(b, c)
    ensures LexLeq(a, c)
    decreases |a|
  {
    if |a| > 0 && a[0] == b[0] && b[0] == c[0] {
      LexTrans(a[1..], b[1..], c[1..]);
    }
  }

  lemma {:induction false} LexAntisym(a: string, b: string)
    requires LexLeq(a, b) && LexLeq(b, a)
    ensures a == b
    decreases |a|
  {
    if |a| > 0 {
      LexAntisym(a[1..], b[1..]);
      assert a == [a[0]] + a[1..];
      assert b == [b[0]] + b[1..];
    }
  }

  lemma {:induction false} LexPrefix(a: string, b: string)
    requires a <= b
    ensures LexLeq(a, b)
    decreases |a|
  {
    if |a| > 0 {
      LexPrefix(a[1..], b[1..]);
    }
  }

  predicate SortedDesc(xs: seq<string>) {
    forall i, j :: 0 <= i < j < |xs| ==> LexLeq(xs[j], xs[i])
  }

  function InsertDesc(x: string, xs: seq<string>): (ys: seq<string>)
    requires SortedDesc(xs)
    ensures SortedDesc(ys) && multiset(ys) == multiset(xs) + multiset{x}
  {
    if |xs| == 0 then [x]
    else if LexLeq(xs[0], x) then
      forall j | 0 <= j < |xs|
        ensures LexLeq(xs[j], x)
      {
        if j > 0 { LexTrans(xs[j], xs[0], x); }
      }
      [x] + xs
    else
      LexTotal(xs[0], x);
      var rest := InsertDesc(x, xs[1..]);
      assert xs == [xs[0]] + xs[1..];
      forall j | 0 <= j < |rest|
        ensures LexLeq(rest[j], xs[0])
      {
        assert rest[j] in multiset(rest);
        assert rest[j] == x || rest[j] in multiset(xs[1..]);
      }
      [xs[0]] + rest
  }

  /** The rows' paths in descending order. */
  function SortDesc(xs: seq<string>): (ys: seq<string>)
    ensures SortedDesc(ys) && multiset(ys) == multiset(xs)
  {
    if |xs| == 0 then []
    else
      assert xs == xs[..|xs| - 1] + [xs[|xs| - 1]];
      InsertDesc(xs[|xs| - 1], SortDesc(xs[..|xs| - 1]))
  }

  /** Sorting keeps exactly the same paths. */
  lemma SortDescElems(xs: seq<string>)
    ensures forall x :: x in SortDesc(xs) <==> x in xs
  {
    var ys := SortDesc(xs);
    forall x ensures x in ys <==> x in xs {
      assert x in ys <==> x in multiset(ys);
      assert x in xs <==> x in multiset(xs);
    }
  }

  /** In descending order every path inside a directory comes before that
    * directory's own entry, so a directory is emptied before it is pruned. */
  lemma ContentsBeforeDirectory(ys: seq<string>, i: int, j: int)
    requires SortedDesc(ys) && 0 <= i < |ys| && 0 <= j < |ys|
    requires ys[i] < ys[j]
    ensures j < i
  {
    if i < j {
      LexPrefix(ys[i], ys[j]);
      LexAntisym(ys[i], ys[j]);
    }
  }

  // ---------------------------------------------------------------------
  // The directory tree under the environment root

  /** A directory entry; the environment root is a sequence of them, in the
    * order `os.listdir` returns them. */
  datatype Entry = File(name: Name) | Dir(name: Name, entries: seq<Entry>)

  /** The non-empty components of a relative path. */
  function Components(rel: string): seq<Name> {
    NonEmpty(SplitOn(rel, '/'))
  }

  function NonEmpty(parts: seq<string>): seq<Name>
    requires forall i :: 0 <= i < |parts| ==> '/' !in parts[i]
  {
    if |parts| == 0 then []
    else if parts[0] == "" then NonEmpty(parts[1..])
    else
      var n: Name := parts[0];
      [n] + NonEmpty(parts[1..])
  }

  /** The entry reached by following `cs` from `es`. */
  function Lookup(es: seq<Entry>, cs: seq<Name>): Option<Entry>
    requires |cs| > 0
    decreases es
  {
    if |es| == 0 then None
    else if es[0].name == cs[0] then
      if |cs| == 1 then Some(es[0])
      else if es[0].Dir? then Lookup(es[0].entries, cs[1..])
      else None
    else Lookup(es[1..], cs)
  }

  /** `os.path.exists(join(rootdir, rel))` for a relative `rel`; a trailing
    * separator only matches a directory. */
  predicate Exists(disk: seq<Entry>, rel: string) {
    var cs := Components(rel);
    |cs| == 0 || (Lookup(disk, cs).Some? && (EndsWith(rel, "/") ==> Lookup(disk, cs).value.Dir?))
  }

  /** The tree without the entries named by `cs`. */
  function RemoveAt(es: seq<Entry>, cs: seq<Name>): seq<Entry>
    requires |cs| > 0
    decreases es
  {
    if |es| == 0 then []
    else
      var e := es[0];
      var rest := RemoveAt(es[1..], cs);
      if e.name != cs[0] then [e] + rest
      else if |cs| == 1 then rest
      else if e.Dir? then [Dir(e.name, RemoveAt(e.entries, cs[1..]))] + rest
      else [e] + rest
  }

  /** After removal nothing is found at the removed place. */
  lemma {:induction false} LookupRemoved(es: seq<Entry>, cs: seq<Name>)
    requires |cs| > 0
    ensures Lookup(RemoveAt(es, cs), cs).None?
    decreases es
  {
    if |es| > 0 {
      var e := es[0];
      LookupRemoved(es[1..], cs);
      if e.name == cs[0] && |cs| > 1 && e.Dir? {
        LookupRemoved(e.entries, cs[1..]);
      }
    }
  }

  /** Removal never makes anything appear, nor turns a file into a
    * directory or back. */
  lemma {:induction false} LookupAfterRemove(es: seq<Entry>, cs: seq<Name>, ds: seq<Name>)
    requires |cs| > 0 && |ds| > 0
    requires Lookup(RemoveAt(es, cs), ds).Some?
    ensures Lookup(es, ds).Some?
    ensures Lookup(es, ds).value.Dir? == Lookup(RemoveAt(es, cs), ds).value.Dir?
    decreases es
  {
    var e := es[0];
    if e.name != cs[0] {
      if e.name != ds[0] {
        LookupAfterRemove(es[1..], cs, ds);
      }
    } else if |cs| == 1 {
      if ds[0] == cs[0] {
        LookupRemovedName(es[1..], cs, ds);
      } else {
        LookupAfterRemove(es[1..], cs, ds);
      }
    } else if e.Dir? {
      if e.name == ds[0] {
        if |ds| > 1 {
          LookupAfterRemove(e.entries, cs[1..], ds[1..]);
        }
      } else {
        LookupAfterRemove(es[1..], cs, ds);
      }
    } else {
      if e.name != ds[0] {
        LookupAfterRemove(es[1..], cs, ds);
      }
    }
  }

  /** Removing a top-level name hides every path through that name. */
  lemma {:induction false} LookupRemovedName(es: seq<Entry>, cs: seq<Name>, ds: seq<Name>)
    requires |cs| == 1 && |ds| > 0 && ds[0] == cs[0]
    ensures Lookup(RemoveAt(es, cs), ds).None?
    decreases es
  {
    if |es| > 0 {
      LookupRemovedName(es[1..], cs, ds);
    }
  }

  /** `os.unlink`: only a file can be unlinked. */
  function Unlink(disk: seq<Entry>, cs: seq<Name>): Option<seq<Entry>> {
    if |cs| == 0 then None
    else match Lookup(disk, cs)
      case Some(File(_)) => Some(RemoveAt(disk, cs))
      case _ => None
  }

  /** `os.listdir` of the directory at `cs` (the root when `cs` is empty). */
  function ListDir(disk: seq<Entry>, cs: seq<Name>): Option<seq<Entry>> {
    if |cs| == 0 then Some(disk)
    else match Lookup(disk, cs)
      case Some(Dir(_, es)) => Some(es)
      case _ => None
  }

  /** `prune_dir`: an empty directory is removed, anything else stays. */
  function PruneDir(disk: seq<Entry>, cs: seq<Name>): seq<Entry> {
    if |cs| > 0 && Lookup(disk, cs) == Some(Dir(cs[|cs| - 1], [])) then RemoveAt(disk, cs) else disk
  }

  /** Nothing exists after a removal that did not exist before. */
  lemma ExistsAfterRemove(disk: seq<Entry>, cs: seq<Name>, rel: string)
    requires |cs| > 0 && Exists(RemoveAt(disk, cs), rel)
    ensures Exists(disk, rel)
  {
    var ds := Components(rel);
    if |ds| > 0 {
      LookupAfterRemove(disk, cs, ds);
    }
  }

  // ---------------------------------------------------------------------
  // Paths relative to the environment root

  function BuildDir(rootdir: string): string {
    Join(rootdir, "build")
  }

  function CacheDir(rootdir: string): string {
    Join(rootdir, "cache")
  }

  /** `path[len(rootdir)+1:]` */
  function Rel(rootdir: string, path: string): string {
    Drop(path, |rootdir| + 1)
  }

  /** `_is_tempfile`: the build and cache directories, anything under them,
    * and the ledger database with its journal. */
  predicate IsTempfile(rootdir: string, path: string) {
    path == BuildDir(rootdir) || StartsWith(path, BuildDir(rootdir) + "/")
    || path == CacheDir(rootdir) || StartsWith(path, CacheDir(rootdir) + "/")
    || Basename(path) == "myppy.db" || Basename(path) == "myppy.db-journal"
  }

  /** `_is_oldfile`: the path, relative to the root, is already recorded. */
  predicate IsOld(rootdir: string, recorded: set<string>, path: string) {
    Rel(rootdir, path) in recorded
  }

  /** What the walk of `find_new_files` reports below `dirpath`, whose
    * listing is `es`: an empty directory is reported with a trailing
    * separator, temporary paths are skipped, directories are descended into,
    * and files not yet recorded are reported. */
  function Found(rootdir: string, recorded: set<string>, dirpath: string, es: seq<Entry>): set<string>
    decreases es, 1
  {
    if |es| == 0 then
      (if IsOld(rootdir, recorded, dirpath + "/") then {} else {dirpath + "/"})
    else FoundIn(rootdir, recorded, dirpath, es)
  }

  function FoundIn(rootdir: string, recorded: set<string>, dirpath: string, es: seq<Entry>): set<string>
    decreases es, 0
  {
    if |es| == 0 then {}
    else FoundAt(rootdir, recorded, dirpath, es[0]) + FoundIn(rootdir, recorded, dirpath, es[1..])
  }

  function FoundAt(rootdir: string, recorded: set<string>, dirpath: string, e: Entry): set<string>
    decreases e, 2
  {
    var p := Join(dirpath, e.name);
    if IsTempfile(rootdir, p) then {}
    else if e.Dir? then Found(rootdir, recorded, p, e.entries)
    else if IsOld(rootdir, recorded, p) then {}
    else {p}
  }

  /** A directory the walk may visit: the root itself, or a path below it
    * that is not temporary and does not end in a separator. */
  predicate Walkable(rootdir: string, dirpath: string) {
    dirpath == rootdir
    || (StartsWith(dirpath, rootdir + "/") && |dirpath| > |rootdir| + 1 && dirpath[|rootdir| + 1] != '/'
        && !EndsWith(dirpath, "/") && !IsTempfile(rootdir, dirpath))
  }

  /** A reported path: below the root, relative once the root is cut off,
    * neither temporary nor already recorded. */
  predicate Reportable(rootdir: string, recorded: set<string>, p: string) {
    StartsWith(p, rootdir + "/") && !StartsWith(Rel(rootdir, p), "/")
    && !IsTempfile(rootdir, p) && !IsOld(rootdir, recorded, p)
  }

  /** Every path the walk reports is reportable. */
  lemma {:induction false} FoundReportable(rootdir: string, recorded: set<string>, dirpath: string, es: seq<Entry>, p: string)
    requires IsAbs(rootdir) && !EndsWith(rootdir, "/")
    requires Walkable(rootdir, dirpath)
    requires p in Found(rootdir, recorded, dirpath, es)
    ensures Reportable(rootdir, recorded, p)
    decreases es, 1
  {
    if |es| == 0 {
      EmptyDirReportable(rootdir, recorded, dirpath);
    } else {
      FoundInReportable(rootdir, recorded, dirpath, es, p);
    }
  }

  lemma {:induction false} FoundInReportable(rootdir: string, recorded: set<string>, dirpath: string, es: seq<Entry>, p: string)
    requires IsAbs(rootdir) && !EndsWith(rootdir, "/")
    requires Walkable(rootdir, dirpath)
    requires p in FoundIn(rootdir, recorded, dirpath, es)
    ensures Reportable(rootdir, recorded, p)
    decreases es, 0
  {
    if p in FoundAt(rootdir, recorded, dirpath, es[0]) {
      var e := es[0];
      var q := Join(dirpath, e.name);
      JoinBelowRoot(rootdir, dirpath, e.name);
      if e.Dir? {
        FoundReportable(rootdir, recorded, q, e.entries, p);
      }
    } else {
      FoundInReportable(rootdir, recorded, dirpath, es[1..], p);
    }
  }

  lemma JoinBelowRoot(rootdir: string, dirpath: string, n: Name)
    requires IsAbs(rootdir) && !EndsWith(rootdir, "/")
    requires Walkable(rootdir, dirpath)
    ensures var q := Join(dirpath, n);
      StartsWith(q, rootdir + "/") && |q| > |rootdir| + 1 && q[|rootdir| + 1] != '/' && !EndsWith(q, "/")
      && !StartsWith(Rel(rootdir, q), "/")
  {
    assert !IsAbs(n) by { assert n[0] in n; }
    assert n[|n| - 1] in n;
    assert dirpath != "" by { assert rootdir[0] == '/'; }
    var q := Join(dirpath, n);
    assert q == dirpath + "/" + n;
    if dirpath == rootdir {
      assert q[|rootdir| + 1] == n[0];
    } else {
      assert q[|rootdir| + 1] == dirpath[|rootdir| + 1];
    }
    assert Rel(rootdir, q)[0] == q[|rootdir| + 1];
  }

  lemma EmptyDirReportable(rootdir: string, recorded: set<string>, dirpath: string)
    requires IsAbs(rootdir) && !EndsWith(rootdir, "/")
    requires Walkable(rootdir, dirpath)
    requires !IsOld(rootdir, recorded, dirpath + "/")
    ensures Reportable(rootdir, recorded, dirpath + "/")
  {
    var p := dirpath + "/";
    AfterLastAt(p, '/', |p|);
    assert Basename(p) == "";
    var b := BuildDir(rootdir);
    var c := CacheDir(rootdir);
    assert b == rootdir + "/build" && c == rootdir + "/cache";
    if dirpath == rootdir {
      assert p != b && p != c;
      assert !StartsWith(p, b + "/") && !StartsWith(p, c + "/");
    } else {
      if p == b || StartsWith(p, b + "/") {
        BelowAfterSlash(dirpath, b);
      }
      if p == c || StartsWith(p, c + "/") {
        BelowAfterSlash(dirpath, c);
      }
      assert Rel(rootdir, p)[0] == dirpath[|rootdir| + 1];
    }
  }

  /** A path that lands at or below `x` once a separator is appended was
    * `x` or below it already. */
  lemma BelowAfterSlash(d: string, x: string)
    requires |x| > 0 && x[|x| - 1] != '/'
    requires d + "/" == x || StartsWith(d + "/", x + "/")
    ensures d == x || StartsWith(d, x + "/")
  {
    if d + "/" != x {
      if |d| == |x| {
        assert d == (d + "/")[..|x|];
      } else {
        assert d[..|x| + 1] == (d + "/")[..|x| + 1];
      }
    }
  }

  /** Where the ledger database lives, relative to the root. */
  const DB_NAME: string := Join("local", "myppy.db")

  /** The journal sqlite keeps beside it. */
  const DB_JOURNAL: string := Join("local", "myppy.db-journal")

  /** The ledger database and its journal are never taken for installed
    * files. */
  lemma LedgerIsTemp(rootdir: string)
    ensures IsTempfile(rootdir, Join(rootdir, DB_NAME))
    ensures IsTempfile(rootdir, Join(rootdir, DB_JOURNAL))
  {
    LedgerFileIsTemp(rootdir, "local", "myppy.db");
    LedgerFileIsTemp(rootdir, "local", "myppy.db-journal");
  }

  /** A file with the ledger's name, or its journal's, one directory below
    * the root. */
  lemma LedgerFileIsTemp(rootdir: string, dir: Name, n: Name)
    requires n == "myppy.db" || n == "myppy.db-journal"
    ensures IsTempfile(rootdir, Join(rootdir, Join(dir, n)))
  {
    BasenameBelow(rootdir, dir, n);
  }

  lemma BasenameBelow(rootdir: string, dir: Name, n: Name)
    ensures Basename(Join(rootdir, Join(dir, n))) == n
  {
    assert !IsAbs(n) by { assert n[0] in n; }
    assert !EndsWith(dir, "/") by { assert dir[|dir| - 1] in dir; }
    var rel := Join(dir, n);
    assert rel == dir + "/" + n;
    assert !IsAbs(rel) by { assert rel[0] == dir[0]; assert dir[0] in dir; }
    var p := Join(rootdir, rel);
    var k := |p| - |n|;
    assert p[k..] == n;
    assert p[k - 1] == '/';
    AfterLastAt(p, '/', k);
  }

  /** Nor is anything inside the build directory ... */
  lemma BuildIsTemp(rootdir: string, names: seq<Name>)
    requires |names| > 0
    ensures IsTempfile(rootdir, JoinAll(BuildDir(rootdir), names))
  {
    JoinNameNoTrailing(rootdir, "build");
    JoinAllExtends(BuildDir(rootdir), names);
  }

  /** ... or inside the download cache. */
  lemma CacheIsTemp(rootdir: string, names: seq<Name>)
    requires |names| > 0
    ensures IsTempfile(rootdir, JoinAll(CacheDir(rootdir), names))
  {
    JoinNameNoTrailing(rootdir, "cache");
    JoinAllExtends(CacheDir(rootdir), names);
  }

  lemma JoinNameNoTrailing(a: string, n: Name)
    ensures Join(a, n) != "" && !EndsWith(Join(a, n), "/")
  {
    var p := Join(a, n);
    assert p[|p| - |n|..] == n;
    assert p[|p| - 1] == n[|n| - 1];
    assert n[|n| - 1] in n;
  }

  // ---------------------------------------------------------------------
  // Uninstalling one recorded path

  /** One recorded path of `uninstall`: a missing path is skipped, a
    * directory entry (trailing separator) is pruned, anything else is
    * unlinked and its directory pruned when that is left empty and is not
    * itself recorded. */
  function RemoveRecorded(rootdir: string, recorded: set<string>, disk: seq<Entry>, file: string): (r: Result<seq<Entry>, Error>)
    ensures r.Failure? ==> r.error.OsError? || r.error.NotRelative?
  {
    var filepath := Join(rootdir, file);
    if !Exists(disk, file) then Success(disk)
    else if EndsWith(filepath, "/") then Success(PruneDir(disk, Components(file)))
    else match Unlink(disk, Components(file))
      case None => Failure(OsError(filepath))
      case Some(d1) =>
        var dirpath := Dirname(filepath) + "/";
        var rel := Rel(rootdir, dirpath);
        match ListDir(d1, Components(rel))
          case None => Failure(OsError(dirpath))
          case Some(left) =>
            if |left| > 0 then Success(d1)
            else if Util.Relative(rel) != rel then Failure(NotRelative(rel))
            else if rel in recorded then Success(d1)
            else Success(PruneDir(d1, Components(rel)))
  }

  lemma ExistsAfterPrune(disk: seq<Entry>, cs: seq<Name>, rel: string)
    requires Exists(PruneDir(disk, cs), rel)
    ensures Exists(disk, rel)
  {
    if |cs| > 0 && Lookup(disk, cs) == Some(Dir(cs[|cs| - 1], [])) {
      ExistsAfterRemove(disk, cs, rel);
    }
  }

  /** Uninstalling a path only ever removes things. */
  lemma RemoveRecordedShrinks(rootdir: string, recorded: set<string>, disk: seq<Entry>, file: string, rel: string)
    requires RemoveRecorded(rootdir, recorded, disk, file).Success?
    requires Exists(RemoveRecorded(rootdir, recorded, disk, file).value, rel)
    ensures Exists(disk, rel)
  {
    var filepath := Join(rootdir, file);
    var cs := Components(file);
    if Exists(disk, file) {
      if EndsWith(filepath, "/") {
        ExistsAfterPrune(disk, cs, rel);
      } else {
        var d1 := Unlink(disk, cs).value;
        var dcs := Components(Rel(rootdir, Dirname(filepath) + "/"));
        if Exists(d1, rel) {
          ExistsAfterRemove(disk, cs, rel);
        } else {
          ExistsAfterPrune(d1, dcs, rel);
          ExistsAfterRemove(disk, cs, rel);
        }
      }
    }
  }

  /** A recorded file (no trailing separator) is gone once uninstalled. */
  lemma RemoveRecordedRemoves(rootdir: string, recorded: set<string>, disk: seq<Entry>, file: string)
    requires rootdir != "" && !EndsWith(rootdir, "/")
    requires file != "" && !EndsWith(file, "/") && !IsAbs(file)
    requires RemoveRecorded(rootdir, recorded, disk, file).Success?
    ensures !Exists(RemoveRecorded(rootdir, recorded, disk, file).value, file)
  {
    var filepath := Join(rootdir, file);
    assert filepath == rootdir + "/" + file;
    assert !EndsWith(filepath, "/");
    var cs := Components(file);
    if Exists(disk, file) {
      var d1 := Unlink(disk, cs).value;
      LookupRemoved(disk, cs);
      assert !Exists(d1, file);
      var dcs := Components(Rel(rootdir, Dirname(filepath) + "/"));
      if Exists(PruneDir(d1, dcs), file) {
        ExistsAfterPrune(d1, dcs, file);
      }
    }
  }

  /** The removal loop of `uninstall`: each path in turn, stopping at the
    * first error with the tree as it then is. */
  function RemoveAll(rootdir: string, recorded: set<string>, disk: seq<Entry>, files: seq<string>): (r: (seq<Entry>, Option<Error>))
    ensures r.1.Some? ==> r.1.value.OsError? || r.1.value.NotRelative?
    decreases |files|
  {
    if |files| == 0 then (disk, None)
    else match RemoveRecorded(rootdir, recorded, disk, files[0])
      case Failure(e) => (disk, Some(e))
      case Success(d) => RemoveAll(rootdir, recorded, d, files[1..])
  }

  /** The removal loop never makes anything appear. */
  lemma {:induction false} RemoveAllShrinks(rootdir: string, recorded: set<string>, disk: seq<Entry>, files: seq<string>, rel: string)
    requires Exists(RemoveAll(rootdir, recorded, disk, files).0, rel)
    ensures Exists(disk, rel)
    decreases |files|
  {
    if |files| > 0 {
      var r := RemoveRecorded(rootdir, recorded, disk, files[0]);
      if r.Success? {
        RemoveAllShrinks(rootdir, recorded, r.value, files[1..], rel);
        RemoveRecordedShrinks(rootdir, recorded, disk, files[0], rel);
      }
    }
  }

  /** When the removal loop runs to the end, none of the recorded plain
    * files is left. */
  lemma {:induction false} RemoveAllRemoves(rootdir: string, recorded: set<string>, disk: seq<Entry>, files: seq<string>, f: string)
    requires rootdir != "" && !EndsWith(rootdir, "/")
    requires RemoveAll(rootdir, recorded, disk, files).1.None?
    requires f in files && f != "" && !EndsWith(f, "/") && !IsAbs(f)
    ensures !Exists(RemoveAll(rootdir, recorded, disk, files).0, f)
    decreases |files|
  {
    var r := RemoveRecorded(rootdir, recorded, disk, files[0]);
    var rest := RemoveAll(rootdir, recorded, r.value, files[1..]).0;
    if f == files[0] {
      RemoveRecordedRemoves(rootdir, recorded, disk, f);
      if Exists(rest, f) {
        RemoveAllShrinks(rootdir, recorded, r.value, files[1..], f);
      }
    } else {
      RemoveAllRemoves(rootdir, recorded, r.value, files[1..], f);
    }
  }

  /** One removal step, seen from the loop. */
  lemma RemoveAllStep(rootdir: string, recorded: set<string>, disk: seq<Entry>, files: seq<string>, k: nat)
    requires k < |files|
    ensures RemoveAll(rootdir, recorded, disk, files[k..])
         == match RemoveRecorded(rootdir, recorded, disk, files[k])
              case Failure(e) => (disk, Some(e))
              case Success(d) => RemoveAll(rootdir, recorded, d, files[k + 1..])
  {
    assert files[k..][1..] == files[k + 1..];
  }

  // ---------------------------------------------------------------------
  // What clean removes

  /** No plain file sits at `cs`: nothing is there, or a directory is. */
  predicate NoFileAt(disk: seq<Entry>, cs: seq<Name>) {
    |cs| == 0 || Lookup(disk, cs).None? || Lookup(disk, cs).value.Dir?
  }

  /** Removing entries never puts a file anywhere. */
  lemma NoFileAtAfterRemove(disk: seq<Entry>, cs: seq<Name>, ds: seq<Name>)
    requires |cs| > 0 && NoFileAt(disk, ds)
    ensures NoFileAt(RemoveAt(disk, cs), ds)
  {
    if |ds| > 0 && Lookup(RemoveAt(disk, cs), ds).Some? {
      LookupAfterRemove(disk, cs, ds);
    }
  }

  /** `shutil.rmtree` of a top-level directory, when something exists there:
    * a directory goes with everything below it; anything else is an error. */
  function RemoveTree(rootdir: string, disk: seq<Entry>, n: Name): (r: Result<seq<Entry>, Error>)
    ensures r.Success? ==> Lookup(r.value, [n]).None?
  {
    match Lookup(disk, [n])
      case None => Success(disk)
      case Some(Dir(_, _)) => LookupRemoved(disk, [n]); Success(RemoveAt(disk, [n]))
      case Some(File(_)) => Failure(OsError(Join(rootdir, n)))
  }

  /** The last loop of `clean`: each reported path that is a file is
    * unlinked; directories stay. */
  function Sweep(rootdir: string, disk: seq<Entry>, found: seq<string>): seq<Entry>
    decreases |found|
  {
    if |found| == 0 then disk
    else
      var d := Unlink(disk, Components(Rel(rootdir, found[0])));
      Sweep(rootdir, if d.Some? then d.value else disk, found[1..])
  }

  lemma SweepStep(rootdir: string, disk: seq<Entry>, found: seq<string>, k: nat)
    requires k < |found|
    ensures Sweep(rootdir, disk, found[k..])
         == var d := Unlink(disk, Components(Rel(rootdir, found[k])));
            Sweep(rootdir, if d.Some? then d.value else disk, found[k + 1..])
  {
    assert found[k..][1..] == found[k + 1..];
  }

  /** The sweep only removes. */
  lemma {:induction false} SweepShrinks(rootdir: string, disk: seq<Entry>, found: seq<string>, rel: string)
    requires Exists(Sweep(rootdir, disk, found), rel)
    ensures Exists(disk, rel)
    decreases |found|
  {
    if |found| > 0 {
      var cs := Components(Rel(rootdir, found[0]));
      var d := Unlink(disk, cs);
      SweepShrinks(rootdir, if d.Some? then d.value else disk, found[1..], rel);
      if d.Some? {
        ExistsAfterRemove(disk, cs, rel);
      }
    }
  }

  /** Once swept, no file is left at any of the reported paths. */
  lemma {:induction false} SweepLeavesNoFile(rootdir: string, disk: seq<Entry>, found: seq<string>, f: string)
    requires f in found
    ensures NoFileAt(Sweep(rootdir, disk, found), Components(Rel(rootdir, f)))
    decreases |found|
  {
    var cs := Components(Rel(rootdir, found[0]));
    var d := Unlink(disk, cs);
    var next := if d.Some? then d.value else disk;
    if f in found[1..] {
      SweepLeavesNoFile(rootdir, next, found[1..], f);
    } else {
      assert f == found[0];
      if d.Some? {
        LookupRemoved(disk, cs);
      }
      assert NoFileAt(next, cs);
      SweepKeepsNoFile(rootdir, next, found[1..], cs);
    }
  }

  lemma {:induction false} SweepKeepsNoFile(rootdir: string, disk: seq<Entry>, found: seq<string>, ds: seq<Name>)
    requires NoFileAt(disk, ds)
    ensures NoFileAt(Sweep(rootdir, disk, found), ds)
    decreases |found|
  {
    if |found| > 0 {
      var cs := Components(Rel(rootdir, found[0]));
      var d := Unlink(disk, cs);
      if d.Some? {
        NoFileAtAfterRemove(disk, cs, ds);
      }
      SweepKeepsNoFile(rootdir, if d.Some? then d.value else disk, found[1..], ds);
    }
  }

  /** Explicit standing is the same in both states. */
  ghost predicate ExplicitSame(reg: Registry, envDeps: seq<string>, rows: seq<Row>, marked: set<string>,
                               rows': seq<Row>, marked': set<string>) {
    forall x :: Explicit(reg, envDeps, rows, marked, x) <==> Explicit(reg, envDeps, rows', marked', x)
  }

  lemma ExplicitSameWithout(reg: Registry, envDeps: seq<string>, rows: seq<Row>, marked: set<string>, c: string)
    requires MarkedInstalled(rows, marked)
    requires !Explicit(reg, envDeps, rows, marked, c)
    ensures ExplicitSame(reg, envDeps, rows, marked, Without(rows, c), marked - {c})
  {
    forall x
      ensures Explicit(reg, envDeps, rows, marked, x) <==> Explicit(reg, envDeps, Without(rows, c), marked - {c}, x)
    {
      UninstallKeepsExplicit(reg, envDeps, rows, marked, c, x);
    }
  }

  lemma ExplicitSameTrans(reg: Registry, envDeps: seq<string>, rows: seq<Row>, marked: set<string>,
                          rows': seq<Row>, marked': set<string>, rows'': seq<Row>, marked'': set<string>)
    requires ExplicitSame(reg, envDeps, rows, marked, rows', marked')
    requires ExplicitSame(reg, envDeps, rows', marked', rows'', marked'')
    ensures ExplicitSame(reg, envDeps, rows, marked, rows'', marked'')
  {
  }

  /** A single name is its own list of components. */
  lemma ComponentsName(n: Name)
    ensures Components(n) == [n]
  {
    var parts := SplitOn(n, '/');
    assert parts == [n];
    assert parts[1..] == [];
    assert NonEmpty(parts[1..]) == [];
  }

  /** Deleting a recipe's rows uninstalls it and nothing else. */
  lemma InstalledWithout(rows: seq<Row>, c: string, x: string)
    ensures Installed(Without(rows, c), x) <==> Installed(rows, x) && x != c
  {
    WithoutExact(rows, c, x);
  }

  // ---------------------------------------------------------------------
  // Rows written by record_files

  /** One row per file, with the root and its separator cut off. */
  function RowsFor(rootdir: string, recipe: string, files: seq<string>): (rs: seq<Row>)
    ensures |rs| == |files|
    ensures forall i :: 0 <= i < |files| ==> rs[i] == Row(recipe, Rel(rootdir, files[i]))
  {
    if |files| == 0 then [] else RowsFor(rootdir, recipe, files[..|files| - 1]) + [Row(recipe, Rel(rootdir, files[|files| - 1]))]
  }

  /** No recipe declares a conflict. */
  predicate NoConflicts(reg: Registry) {
    forall n :: n in reg ==> |reg[n].conflictsWith| == 0
  }

  /** From row `k` on every row is `name`'s, and each of `deps` other than
    * `name` itself has a row before `k`. */
  predicate RecordedAfter(rows: seq<Row>, k: int, name: string, deps: seq<string>) {
    0 <= k < |rows| && (forall i :: k <= i < |rows| ==> rows[i].recipe == name)
    && forall d :: d in deps && d != name ==> Installed(rows[..k], d)
  }

  lemma InstalledGrows(rows: seq<Row>, rows': seq<Row>, x: string)
    requires rows <= rows' && Installed(rows, x)
    ensures Installed(rows', x)
  {
    var i :| 0 <= i < |rows| && rows[i].recipe == x;
    assert rows'[i] == rows[i];
  }

  // ---------------------------------------------------------------------
  // What an install may touch

  /** `scope` holds the dependencies and build dependencies of each of its
    * registered members. */
  predicate DepClosed(reg: Registry, scope: set<string>) {
    forall n, d :: n in scope && n in reg && d in reg[n].dependencies + reg[n].buildDependencies ==> d in scope
  }

  /** No member of `scope` lists another member in its `CONFLICTS_WITH`. */
  predicate ConflictFree(reg: Registry, scope: set<string>) {
    forall n, c :: n in scope && n in reg && c in reg[n].conflictsWith ==> c !in scope
  }

  /** Some member of `scope` lists `x` in its `CONFLICTS_WITH`. */
  ghost predicate ConflictOf(reg: Registry, scope: set<string>, x: string) {
    exists n :: n in scope && n in reg && x in reg[n].conflictsWith
  }

  /** Going from `rows` to `rows'` installs only members of `scope` and
    * uninstalls only recipes a member of `scope` conflicts with. */
  ghost predicate Bounded(reg: Registry, scope: set<string>, rows: seq<Row>, rows': seq<Row>) {
    (forall x :: Installed(rows', x) && !Installed(rows, x) ==> x in scope)
    && (forall x :: Installed(rows, x) && !Installed(rows', x) ==> ConflictOf(reg, scope, x))
  }

  /** Two bounded steps make a bounded step. */
  lemma BoundedTrans(reg: Registry, scope: set<string>, r1: seq<Row>, r2: seq<Row>, r3: seq<Row>)
    requires Bounded(reg, scope, r1, r2) && Bounded(reg, scope, r2, r3)
    ensures Bounded(reg, scope, r1, r3)
  {
    forall x | Installed(r3, x) && !Installed(r1, x)
      ensures x in scope
    {
      if !Installed(r2, x) {
        assert Installed(r3, x) && !Installed(r2, x);
      }
    }
    forall x | Installed(r1, x) && !Installed(r3, x)
      ensures ConflictOf(reg, scope, x)
    {
      if Installed(r2, x) {
        assert Installed(r2, x) && !Installed(r3, x);
      }
    }
  }

  /** Appending rows of a member of `scope` is a bounded step. */
  lemma BoundedGrows(reg: Registry, scope: set<string>, rows: seq<Row>, rows': seq<Row>, name: string)
    requires rows <= rows' && name in scope
    requires forall i :: |rows| <= i < |rows'| ==> rows'[i].recipe == name
    ensures Bounded(reg, scope, rows, rows')
  {
    forall x | Installed(rows, x)
      ensures Installed(rows', x)
    {
      InstalledGrows(rows, rows', x);
    }
    forall x | Installed(rows', x) && !Installed(rows, x)
      ensures x == name
    {
      var i :| 0 <= i < |rows'| && rows'[i].recipe == x;
    }
  }

  /** Uninstalling only conflicts of a member of `scope` is a bounded
    * step. */
  lemma ConflictsBounded(reg: Registry, scope: set<string>, name: string, rows: seq<Row>, rows': seq<Row>)
    requires name in scope && name in reg
    requires forall x :: Installed(rows', x) ==> Installed(rows, x)
    requires forall x :: Installed(rows, x) && !Installed(rows', x) ==> x in reg[name].conflictsWith
    ensures Bounded(reg, scope, rows, rows')
  {
  }

  /** Within a conflict-free scope, a bounded step keeps every member that
    * was installed. */
  lemma BoundedKept(reg: Registry, scope: set<string>, rows: seq<Row>, rows': seq<Row>, x: string)
    requires Bounded(reg, scope, rows, rows') && ConflictFree(reg, scope)
    requires x in scope && Installed(rows, x)
    ensures Installed(rows', x)
  {
  }

  /** Within a conflict-free scope, a bounded step does not install a
    * conflict of a member that was not installed before. */
  lemma BoundedAbsent(reg: Registry, scope: set<string>, rows: seq<Row>, rows': seq<Row>, name: string, c: string)
    requires Bounded(reg, scope, rows, rows') && ConflictFree(reg, scope)
    requires name in scope && name in reg && c in reg[name].conflictsWith && !Installed(rows, c)
    ensures !Installed(rows', c)
  {
    assert c !in scope;
  }

  /** With no conflicts declared at all, every recipe the registry mentions
    * (with the environment's dependencies and `name`) makes one
    * conflict-free scope closed under dependencies. */
  lemma NoConflictsScope(reg: Registry, envDeps: seq<string>, name: string) returns (scope: set<string>)
    requires NoConflicts(reg)
    ensures DepClosed(reg, scope) && ConflictFree(reg, scope)
    ensures name in scope && forall e :: e in envDeps ==> e in scope
  {
    var mentioned := set n, d | n in reg && d in reg[n].dependencies + reg[n].buildDependencies :: d;
    scope := {name} + (set e | e in envDeps) + mentioned;
  }

  /** Appending rows keeps every marked recipe installed. */
  lemma MarkedGrows(rows: seq<Row>, rows': seq<Row>, marked: set<string>)
    requires rows <= rows' && MarkedInstalled(rows, marked)
    ensures MarkedInstalled(rows', marked)
  {
    forall m | m in marked
      ensures Installed(rows', m)
    {
      InstalledGrows(rows, rows', m);
    }
  }

  /** Deleting a recipe's rows together with its marker keeps every other
    * marked recipe installed. */
  lemma MarkedWithout(rows: seq<Row>, marked: set<string>, r: string)
    requires MarkedInstalled(rows, marked)
    ensures MarkedInstalled(Without(rows, r), marked - {r})
  {
    var rest := Without(rows, r);
    forall m | m in marked - {r}
      ensures Installed(rest, m)
    {
      var i :| 0 <= i < |rows| && rows[i].recipe == m;
      assert rows[i] in rest;
      var j :| 0 <= j < |rest| && rest[j] == rows[i];
    }
  }

  /** `SELECT DISTINCT recipe FROM installed_files`: each installed recipe
    * once, in the order of its first row. */
  function InstalledRecipes(rows: seq<Row>): (names: seq<string>)
    ensures forall x :: x in names <==> Installed(rows, x)
    ensures forall i, j :: 0 <= i < j < |names| ==> names[i] != names[j]
    decreases |rows|
  {
    if |rows| == 0 then []
    else
      var init := rows[..|rows| - 1];
      var last := rows[|rows| - 1];
      var names := InstalledRecipes(init);
      assert forall x :: Installed(init, x) ==> Installed(rows, x) by {
        forall x | Installed(init, x) ensures Installed(rows, x) { InstalledGrows(init, rows, x); }
      }
      assert forall x :: Installed(rows, x) ==> Installed(init, x) || x == last.recipe;
      if last.recipe in names then names else names + [last.recipe]
  }

  // ---------------------------------------------------------------------
  // Sizes that bound the walk

  function TreeSize(es: seq<Entry>): nat
    decreases es
  {
    if |es| == 0 then 0
    else (if es[0].Dir? then 1 + TreeSize(es[0].entries) else 1) + TreeSize(es[1..])
  }
}
