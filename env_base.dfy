/** The environment of `myppy/envs/base.py`: a root directory, the ledger of
  * installed files and explicitly installed recipes kept in its database,
  * the re-entrant transaction around ledger updates, and the orchestration
  * of `install`, `uninstall` and `clean` on top of them. */
module EnvBase {
  import opened Wrappers
  import opened Text
  import opened PosixPath
  import Util
  import opened EnvModel

  /** `MyppyEnv.DEPENDENCIES`: what every environment is initialised with. */
  const BASE_DEPENDENCIES: seq<string> := ["python27", "py_pip", "py_myppy"]

  /** What a platform's `record_files` override did before handing the files
    * to the ledger: the commands it ran and, if a check failed, why. */
  datatype HookRun = HookRun(commands: seq<seq<string>>, failure: Option<string>)

  /** A platform's `record_files` override: `step` runs on each file in
    * turn, and the first failed check ends the run. */
  function Chain(files: seq<string>, step: string -> HookRun): HookRun
    decreases |files|
  {
    if |files| == 0 then HookRun([], None)
    else
      var before := Chain(files[..|files| - 1], step);
      if before.failure.Some? then before
      else
        var last := step(files[|files| - 1]);
        HookRun(before.commands + last.commands, last.failure)
  }

  /** The run passes exactly when every file's step passes. */
  lemma {:induction false} ChainPasses(files: seq<string>, step: string -> HookRun)
    ensures Chain(files, step).failure.None? <==> forall i :: 0 <= i < |files| ==> step(files[i]).failure.None?
    decreases |files|
  {
    if |files| > 0 {
      var init := files[..|files| - 1];
      ChainPasses(init, step);
      assert forall i :: 0 <= i < |init| ==> init[i] == files[i];
    }
  }

  /** A failure is the failure of some file whose predecessors all passed;
    * every command run was run by the step of some file. */
  lemma {:induction false} ChainFailure(files: seq<string>, step: string -> HookRun)
    ensures Chain(files, step).failure.Some? ==>
              exists i :: 0 <= i < |files| && step(files[i]).failure == Chain(files, step).failure
                          && forall j :: 0 <= j < i ==> step(files[j]).failure.None?
    ensures forall c :: c in Chain(files, step).commands ==>
              exists i :: 0 <= i < |files| && c in step(files[i]).commands
    decreases |files|
  {
    if |files| > 0 {
      var init := files[..|files| - 1];
      ChainFailure(init, step);
      ChainPasses(init, step);
      assert forall i :: 0 <= i < |init| ==> init[i] == files[i];
    }
  }

  /** Once a file has failed, the files after it change nothing. */
  lemma {:induction false} ChainStops(files: seq<string>, step: string -> HookRun, k: nat)
    requires k <= |files| && Chain(files[..k], step).failure.Some?
    ensures Chain(files, step) == Chain(files[..k], step)
    decreases |files|
  {
    if k < |files| {
      assert files[..|files| - 1][..k] == files[..k];
      ChainStops(files[..|files| - 1], step, k);
    } else {
      assert files[..k] == files;
    }
  }

  /** The run on one more file, when none has failed so far. */
  lemma ChainSnoc(files: seq<string>, step: string -> HookRun, k: nat)
    requires k < |files|
    ensures Chain(files[..k + 1], step)
         == (var before := Chain(files[..k], step);
             if before.failure.Some? then before
             else HookRun(before.commands + step(files[k]).commands, step(files[k]).failure))
  {
    assert files[..k + 1][..k] == files[..k];
  }

  /** A loop that has run the steps of the first `k` files, none failing,
    * has run the first `k + 1` once it adds the next file's step. */
  lemma ChainExtend(files: seq<string>, step: string -> HookRun, k: nat, run: HookRun, r: HookRun)
    requires k < |files| && run == Chain(files[..k], step) && run.failure.None? && r == step(files[k])
    ensures HookRun(run.commands + r.commands, r.failure) == Chain(files[..k + 1], step)
  {
    ChainSnoc(files, step, k);
  }

  /** A loop that stops at the first failure, or after the last file, has
    * the run of the whole list. */
  lemma ChainDone(files: seq<string>, step: string -> HookRun, k: nat, run: HookRun)
    requires k <= |files| && run == Chain(files[..k], step) && (k == |files| || run.failure.Some?)
    ensures run == Chain(files, step)
  {
    if k < |files| {
      ChainStops(files, step, k);
    } else {
      assert files[..k] == files;
    }
  }

  /** A run that passes ran every file's commands. */
  lemma {:induction false} ChainKeeps(files: seq<string>, step: string -> HookRun)
    requires Chain(files, step).failure.None?
    ensures forall i, c :: 0 <= i < |files| && c in step(files[i]).commands ==> c in Chain(files, step).commands
    decreases |files|
  {
    if |files| > 0 {
      var init := files[..|files| - 1];
      ChainKeeps(init, step);
      assert forall i :: 0 <= i < |init| ==> init[i] == files[i];
    }
  }

  /** The first element `f` refuses, if any. */
  function FirstRefusal<T, E>(xs: seq<T>, f: T -> Option<E>): (r: Option<E>)
    ensures r.None? <==> forall i :: 0 <= i < |xs| ==> f(xs[i]).None?
    ensures r.Some? ==> exists i :: 0 <= i < |xs| && f(xs[i]) == r && forall j :: 0 <= j < i ==> f(xs[j]).None?
    decreases |xs|
  {
    if |xs| == 0 then None
    else if f(xs[0]).Some? then f(xs[0])
    else
      assert forall i :: 1 <= i < |xs| ==> xs[1..][i - 1] == xs[i];
      FirstRefusal(xs[1..], f)
  }

  /** Nothing is refused exactly when every element passes a test that
    * accepts what `f` does not refuse. */
  lemma FirstRefusalNone<T, E>(xs: seq<T>, f: T -> Option<E>, ok: T -> bool)
    requires forall x :: f(x).None? <==> ok(x)
    ensures FirstRefusal(xs, f).None? <==> forall i :: 0 <= i < |xs| ==> ok(xs[i])
  {
  }

  /** The first refusal among one more element. */
  lemma {:induction false} FirstRefusalSnoc<T, E>(xs: seq<T>, f: T -> Option<E>, k: nat)
    requires k < |xs|
    ensures FirstRefusal(xs[..k + 1], f)
         == (if FirstRefusal(xs[..k], f).Some? then FirstRefusal(xs[..k], f) else f(xs[k]))
    decreases k
  {
    if k == 0 {
      assert xs[..1][1..] == [];
    } else if f(xs[0]).None? {
      assert xs[..k + 1][1..] == xs[1..][..k];
      assert xs[..k][1..] == xs[1..][..k - 1];
      FirstRefusalSnoc(xs[1..], f, k - 1);
    }
  }

  /** Once an element has been refused, the ones after it change nothing. */
  lemma {:induction false} FirstRefusalStops<T, E>(xs: seq<T>, f: T -> Option<E>, k: nat)
    requires k <= |xs| && FirstRefusal(xs[..k], f).Some?
    ensures FirstRefusal(xs, f) == FirstRefusal(xs[..k], f)
    decreases k
  {
    assert k > 0 && xs[..k][0] == xs[0];
    if f(xs[0]).None? {
      assert xs[..k][1..] == xs[1..][..k - 1];
      assert FirstRefusal(xs[..k], f) == FirstRefusal(xs[1..][..k - 1], f);
      FirstRefusalStops(xs[1..], f, k - 1);
    }
  }

  /** `PREFIX`: where a Unix environment installs its software. */
  function Prefix(rootdir: string): string {
    Join(rootdir, "local")
  }

  /** `_add_env_path`: the new entry goes in front of the variable's
    * `:`-separated list, or becomes its only entry when it is unset or
    * empty. */
  function AddEnvPath(env: map<string, string>, key: string, path: string): (r: map<string, string>)
    ensures key in r && r.Keys == env.Keys + {key}
    ensures forall k :: k in env && k != key ==> r[k] == env[k]
  {
    if key in env && env[key] != "" then env[key := path + ":" + env[key]] else env[key := path]
  }

  /** The variable's entries after `_add_env_path`: the new one first, then
    * the ones it had. */
  lemma AddEnvPathEntries(env: map<string, string>, key: string, path: string)
    requires ':' !in path
    ensures SplitOn(AddEnvPath(env, key, path)[key], ':')
         == [path] + (if key in env && env[key] != "" then SplitOn(env[key], ':') else [])
  {
    if key in env && env[key] != "" {
      var v := env[key];
      var s := path + ":" + v;
      IndexOfAt(s, ':', |path|);
      assert s[..|path|] == path && s[|path| + 1..] == v;
    }
  }

  /** `self.env` after the base `__init__`: the inherited environment with
    * the prefix's `bin` directory put first on `PATH`. */
  function BaseEnvVars(prefix: string, inherited: map<string, string>): map<string, string> {
    AddEnvPath(inherited, "PATH", Join(prefix, "bin"))
  }

  /** A directory still to be listed by the walk, with its listing. */
  type Pending = (string, seq<Entry>)

  /** What the directories still queued will report. */
  function Unvisited(rootdir: string, recorded: set<string>, queue: seq<Pending>): set<string>
    decreases |queue|
  {
    if |queue| == 0 then {}
    else
      var q := queue[|queue| - 1];
      Unvisited(rootdir, recorded, queue[..|queue| - 1]) + Found(rootdir, recorded, q.0, q.1)
  }

  lemma {:induction false} UnvisitedFront(rootdir: string, recorded: set<string>, queue: seq<Pending>)
    requires |queue| > 0
    ensures Unvisited(rootdir, recorded, queue)
         == Found(rootdir, recorded, queue[0].0, queue[0].1) + Unvisited(rootdir, recorded, queue[1..])
    decreases |queue|
  {
    if |queue| > 1 {
      UnvisitedFront(rootdir, recorded, queue[..|queue| - 1]);
      assert queue[..|queue| - 1][1..] == queue[1..][..|queue| - 2];
    } else {
      assert queue[1..] == [];
    }
  }

  /** The entries of `es[i..]`, one after another. */
  lemma FoundInFront(rootdir: string, recorded: set<string>, dirpath: string, es: seq<Entry>, i: nat)
    requires i < |es|
    ensures FoundIn(rootdir, recorded, dirpath, es[i..])
         == FoundAt(rootdir, recorded, dirpath, es[i]) + FoundIn(rootdir, recorded, dirpath, es[i + 1..])
  {
    assert es[i..][1..] == es[i + 1..];
  }

  /** The inner loop of `find_new_files` over one directory listing: a
    * subdirectory is queued, a new file is reported, temporary paths are
    * skipped. */
  method VisitListing(rootdir: string, recorded: set<string>, dirpath: string, es: seq<Entry>,
                      queue: seq<Pending>, found: seq<string>) returns (queue': seq<Pending>, found': seq<string>)
    ensures Elems(found') + Unvisited(rootdir, recorded, queue')
         == Elems(found) + Unvisited(rootdir, recorded, queue) + FoundIn(rootdir, recorded, dirpath, es)
    ensures QueueSize(queue') <= QueueSize(queue) + TreeSize(es)
  {
    queue', found' := queue, found;
    var i := 0;
    assert es[i..] == es;
    while i < |es|
      invariant 0 <= i <= |es|
      invariant Elems(found') + Unvisited(rootdir, recorded, queue') + FoundIn(rootdir, recorded, dirpath, es[i..])
             == Elems(found) + Unvisited(rootdir, recorded, queue) + FoundIn(rootdir, recorded, dirpath, es)
      invariant QueueSize(queue') + TreeSize(es[i..]) <= QueueSize(queue) + TreeSize(es)
    {
      FoundInFront(rootdir, recorded, dirpath, es, i);
      assert es[i..][0] == es[i] && es[i..][1..] == es[i + 1..];
      queue', found' := VisitEntry(rootdir, recorded, dirpath, es[i], queue', found');
      i := i + 1;
    }
  }

  /** One entry of a listing: a subdirectory is queued, a new file is
    * reported, a temporary path is skipped. */
  method VisitEntry(rootdir: string, recorded: set<string>, dirpath: string, e: Entry,
                    queue: seq<Pending>, found: seq<string>) returns (queue': seq<Pending>, found': seq<string>)
    ensures Elems(found') + Unvisited(rootdir, recorded, queue')
         == Elems(found) + Unvisited(rootdir, recorded, queue) + FoundAt(rootdir, recorded, dirpath, e)
    ensures QueueSize(queue') <= QueueSize(queue) + (if e.Dir? then 1 + TreeSize(e.entries) else 0)
  {
    queue', found' := queue, found;
    var fpath := Join(dirpath, e.name);
    if !IsTempfile(rootdir, fpath) {
      if e.Dir? {
        var q := queue + [(fpath, e.entries)];
        assert q[..|q| - 1] == queue;
        queue' := q;
      } else if !IsOld(rootdir, recorded, fpath) {
        assert Elems(found + [fpath]) == Elems(found) + {fpath};
        found' := found + [fpath];
      }
    }
  }

  /** Directories and entries still to be visited. */
  function QueueSize(queue: seq<Pending>): nat
    decreases |queue|
  {
    if |queue| == 0 then 0
    else QueueSize(queue[..|queue| - 1]) + 1 + TreeSize(queue[|queue| - 1].1)
  }

  lemma {:induction false} QueueSizeFront(queue: seq<Pending>)
    requires |queue| > 0
    ensures QueueSize(queue) == 1 + TreeSize(queue[0].1) + QueueSize(queue[1..])
    decreases |queue|
  {
    if |queue| > 1 {
      QueueSizeFront(queue[..|queue| - 1]);
      assert queue[..|queue| - 1][1..] == queue[1..][..|queue| - 2];
    } else {
      assert queue[1..] == [];
    }
  }

  function Elems(xs: seq<string>): set<string> {
    set x | x in xs
  }

  /** `list(s)`, in some order. */
  method SetToSeq(s: set<string>) returns (xs: seq<string>)
    ensures forall x :: x in xs <==> x in s
  {
    xs := [];
    var rest := s;
    while rest != {}
      invariant forall x :: x in s <==> x in xs || x in rest
      decreases |rest|
    {
      var x :| x in rest;
      xs := xs + [x];
      rest := rest - {x};
    }
  }

  /** The inner loop of `is_explicitly_installed`: every dependency not yet
    * seen is added to the seen set and queued once. */
  method AddUnseen(deps: set<string>, todo: seq<string>, ds: seq<string>) returns (deps': set<string>, todo': seq<string>)
    ensures deps' == deps + Elems(ds)
    ensures forall m :: m in todo' <==> m in todo || (m in ds && m !in deps)
    ensures |todo'| == |todo| + |deps' - deps|
  {
    deps', todo' := deps, todo;
    var j := 0;
    while j < |ds|
      invariant 0 <= j <= |ds|
      invariant deps' == deps + Elems(ds[..j])
      invariant forall m :: m in todo' <==> m in todo || (m in ds[..j] && m !in deps)
      invariant |todo'| == |todo| + |deps' - deps|
    {
      var d := ds[j];
      TakeOneMore(ds, j);
      if d !in deps' {
        assert (deps' + {d}) - deps == (deps' - deps) + {d};
        deps' := deps' + {d};
        todo' := todo' + [d];
      }
      j := j + 1;
    }
    TakeAll(ds);
  }

  /** Growing a subset of `u` by `k` elements leaves `k` fewer outside it. */
  lemma ShrinkBy(u: set<string>, s: set<string>, s': set<string>)
    requires s <= s' <= u
    ensures |u - s'| == |u - s| - |s' - s|
  {
    assert u - s == (u - s') + (s' - s);
    assert (u - s') * (s' - s) == {};
  }

  lemma PopFront(s: seq<string>)
    requires |s| > 0
    ensures forall x :: x in s <==> x == s[0] || x in s[1..]
  {
    assert s == [s[0]] + s[1..];
  }

  lemma TakeOneMore(s: seq<string>, j: nat)
    requires j < |s|
    ensures forall x :: x in s[..j + 1] <==> x in s[..j] || x == s[j]
  {
    assert s[..j + 1] == s[..j] + [s[j]];
  }

  lemma TakeAll(s: seq<string>)
    ensures s[..|s|] == s
  {
  }

  predicate AllIn(xs: seq<string>, s: set<string>) {
    forall x :: x in xs ==> x in s
  }

  lemma AllInGrows(xs: seq<string>, s: set<string>, s': set<string>)
    requires AllIn(xs, s) && s <= s'
    ensures AllIn(xs, s')
  {
  }

  lemma AllInElems(xs: seq<string>, s: set<string>, s': set<string>)
    requires s' == s + Elems(xs)
    ensures AllIn(xs, s')
  {
  }

  /** Every name some recipe depends on at run time. */
  function DependedOn(reg: Registry): set<string> {
    set n, d | n in reg && d in reg[n].dependencies :: d
  }

  /** What the worklist loop of `is_explicitly_installed` keeps: every
    * collected name is reachable; a collected name is either expanded
    * (`done`, its dependencies all collected) or still queued. */
  ghost predicate ClosureInv(reg: Registry, roots: set<string>, universe: set<string>,
                             deps: set<string>, done: set<string>, todo: seq<string>) {
    && roots <= deps <= universe && done <= deps
    && (forall m :: m in todo ==> m in deps)
    && (forall m :: m in deps ==> m in done || m in todo)
    && (forall m :: m in deps ==> Reachable(reg, roots, m))
    && (forall m :: m in done ==> m in reg && AllIn(reg[m].dependencies, deps))
  }

  lemma ClosureStart(reg: Registry, roots: set<string>, todo: seq<string>)
    requires forall m :: m in todo <==> m in roots
    ensures ClosureInv(reg, roots, roots + DependedOn(reg), roots, {}, todo)
  {
    forall m | m in roots
      ensures Reachable(reg, roots, m)
    {
      ReachRoot(reg, roots, m);
    }
  }

  /** Expanding the name at the front of the queue keeps the invariant. */
  lemma ClosureStep(reg: Registry, roots: set<string>, deps: set<string>, done: set<string>,
                    todo: seq<string>, deps': set<string>, todo': seq<string>)
    requires ClosureInv(reg, roots, roots + DependedOn(reg), deps, done, todo)
    requires |todo| > 0 && todo[0] in reg
    requires deps' == deps + Elems(reg[todo[0]].dependencies)
    requires forall m :: m in todo' <==> m in todo[1..] || (m in reg[todo[0]].dependencies && m !in deps)
    ensures deps <= deps' <= roots + DependedOn(reg)
    ensures ClosureInv(reg, roots, roots + DependedOn(reg), deps', done + {todo[0]}, todo')
  {
    var n := todo[0];
    assert n in deps by { assert n in todo; }
    assert done + {n} <= deps <= deps';
    ClosureQueued(todo, deps, done, deps', todo', reg[n].dependencies);
    ClosureReached(reg, roots, deps, n, deps');
    ClosureExpanded(reg, deps, done, n, deps');
  }

  lemma ClosureQueued(todo: seq<string>, deps: set<string>, done: set<string>,
                      deps': set<string>, todo': seq<string>, ds: seq<string>)
    requires |todo| > 0
    requires forall m :: m in todo ==> m in deps
    requires forall m :: m in deps ==> m in done || m in todo
    requires deps' == deps + Elems(ds)
    requires forall m :: m in todo' <==> m in todo[1..] || (m in ds && m !in deps)
    ensures forall m :: m in todo' ==> m in deps'
    ensures forall m :: m in deps' ==> m in done + {todo[0]} || m in todo'
  {
    PopFront(todo);
  }

  lemma ClosureReached(reg: Registry, roots: set<string>, deps: set<string>, n: string, deps': set<string>)
    requires n in deps && n in reg && deps <= roots + DependedOn(reg)
    requires forall m :: m in deps ==> Reachable(reg, roots, m)
    requires deps' == deps + Elems(reg[n].dependencies)
    ensures deps <= deps' <= roots + DependedOn(reg)
    ensures forall m :: m in deps' ==> Reachable(reg, roots, m)
  {
    forall d | d in deps' - deps
      ensures Reachable(reg, roots, d) && d in DependedOn(reg)
    {
      ReachStep(reg, roots, n, d);
      assert d in reg[n].dependencies;
    }
  }

  lemma ClosureExpanded(reg: Registry, deps: set<string>, done: set<string>, n: string, deps': set<string>)
    requires n in reg
    requires forall m :: m in done ==> m in reg && AllIn(reg[m].dependencies, deps)
    requires deps' == deps + Elems(reg[n].dependencies)
    ensures forall m :: m in done + {n} ==> m in reg && AllIn(reg[m].dependencies, deps')
  {
    AllInElems(reg[n].dependencies, deps, deps');
    forall m | m in done
      ensures AllIn(reg[m].dependencies, deps')
    {
      AllInGrows(reg[m].dependencies, deps, deps');
    }
  }

  /** Once the queue is empty the collected names are exactly the reachable
    * ones, and all of them have recipes. */
  lemma ClosureEnd(reg: Registry, roots: set<string>, universe: set<string>, deps: set<string>, done: set<string>)
    requires ClosureInv(reg, roots, universe, deps, done, [])
    ensures forall x :: x in deps <==> Reachable(reg, roots, x)
    ensures !Unloadable(reg, roots)
  {
    forall x | Reachable(reg, roots, x)
      ensures x in deps
    {
      ClosedHoldsReachable(reg, roots, deps, x);
    }
  }

  /** The worklist loop of `is_explicitly_installed`: the closure of
    * `roots` under runtime dependencies, or a reached name that has no
    * recipe. */
  method DependencyClosure(reg: Registry, roots: set<string>) returns (deps: set<string>, missing: Option<string>)
    ensures missing.None? ==> forall x :: x in deps <==> Reachable(reg, roots, x)
    ensures missing.None? <==> !Unloadable(reg, roots)
  {
    deps := roots;
    var todo := SetToSeq(deps);
    ClosureStart(reg, roots, todo);
    ghost var universe := roots + DependedOn(reg);
    ghost var done: set<string> := {};
    while |todo| > 0
      invariant ClosureInv(reg, roots, universe, deps, done, todo)
      decreases |universe - deps| + |todo|
    {
      var n := todo[0];
      if n !in reg {
        assert Reachable(reg, roots, n);
        return deps, Some(n);
      }
      var deps', todo' := AddUnseen(deps, todo[1..], reg[n].dependencies);
      ClosureStep(reg, roots, deps, done, todo, deps', todo');
      ShrinkBy(universe, deps, deps');
      deps, todo := deps', todo';
      done := done + {n};
    }
    ClosureEnd(reg, roots, universe, deps, done);
    missing := None;
  }

  /** The `assert util.relpath(file) == file` loop of `uninstall`: the
    * first path that is not relative, if any. */
  method FirstAbsolute(files: seq<string>) returns (bad: Option<string>)
    ensures bad.None? <==> forall f :: f in files ==> !StartsWith(f, "/")
    ensures bad.Some? ==> bad.value in files && StartsWith(bad.value, "/")
  {
    for i := 0 to |files|
      invariant forall j :: 0 <= j < i ==> !StartsWith(files[j], "/")
    {
      var r := Util.RelPath(files[i]);
      Util.RelativeFixed(files[i]);
      if r != files[i] {
        return Some(files[i]);
      }
    }
    return None;
  }

  /** The removal loop of `uninstall`, one recorded path at a time. */
  method RemovePaths(rootdir: string, recorded: set<string>, disk: seq<Entry>, files: seq<string>)
    returns (d: seq<Entry>, err: Option<Error>)
    ensures (d, err) == RemoveAll(rootdir, recorded, disk, files)
  {
    d := disk;
    err := None;
    var k := 0;
    assert files[k..] == files;
    while k < |files|
      invariant 0 <= k <= |files|
      invariant RemoveAll(rootdir, recorded, d, files[k..]) == RemoveAll(rootdir, recorded, disk, files)
    {
      RemoveAllStep(rootdir, recorded, d, files, k);
      var r := RemoveRecorded(rootdir, recorded, d, files[k]);
      if r.Failure? {
        return d, Some(r.error);
      }
      d := r.value;
      k := k + 1;
    }
  }

  lemma DropOne(s: seq<string>, i: nat)
    requires i < |s|
    ensures forall x :: x in s[i..] <==> x == s[i] || x in s[i + 1..]
  {
    assert s[i..] == [s[i]] + s[i + 1..];
  }

  /** The last loop of `clean`, over the paths the walk reported. */
  method SweepFiles(rootdir: string, disk: seq<Entry>, found: seq<string>) returns (d: seq<Entry>)
    ensures d == Sweep(rootdir, disk, found)
  {
    d := disk;
    assert found[0..] == found;
    for k := 0 to |found|
      invariant Sweep(rootdir, d, found[k..]) == Sweep(rootdir, disk, found)
    {
      SweepStep(rootdir, d, found, k);
      var u := Unlink(d, Components(Rel(rootdir, found[k])));
      if u.Some? {
        d := u.value;
      }
    }
    assert found[|found|..] == [];
  }

  /** The rows `record_files` inserts one by one: one per file, its path
    * cut to what follows the root; at the first path that is still
    * absolute the insertion stops, and the rows before it stay. */
  method RelativeRows(rootdir: string, recipe: string, files: seq<string>)
    returns (added: seq<Row>, refused: Option<string>)
    ensures refused.None? <==> forall j :: 0 <= j < |files| ==> !StartsWith(Rel(rootdir, files[j]), "/")
    ensures refused.None? ==> added == RowsFor(rootdir, recipe, files)
    ensures refused.Some? ==> StartsWith(refused.value, "/")
    ensures forall j :: 0 <= j < |added| ==> added[j].recipe == recipe && !StartsWith(added[j].filepath, "/")
  {
    added := [];
    refused := None;
    var i := 0;
    while i < |files| && refused.None?
      invariant 0 <= i <= |files|
      invariant added == RowsFor(rootdir, recipe, files[..i])
      invariant forall j :: 0 <= j < i ==> !StartsWith(Rel(rootdir, files[j]), "/")
      invariant refused.Some? ==> i < |files| && StartsWith(Rel(rootdir, files[i]), "/") && refused.value == Rel(rootdir, files[i])
      decreases |files| - i, if refused.None? then 1 else 0
    {
      var file := Rel(rootdir, files[i]);
      var rel := Util.RelPath(file);
      Util.RelativeFixed(file);
      if rel != file {
        refused := Some(file);
      } else {
        assert files[..i + 1][..i] == files[..i];
        added := added + [Row(recipe, file)];
        i := i + 1;
      }
    }
    if refused.None? {
      assert files[..i] == files;
    }
  }

  class MyppyEnv {
    /** The absolute root directory, without a trailing separator. */
    const rootdir: string
    /** The recipe classes `load_recipe` can find. */
    const registry: Registry
    /** The class attribute `DEPENDENCIES`. */
    const dependencies: seq<string>
    /** `Recipe.fetch`: whether the download succeeded. */
    const fetchStep: string -> bool
    /** `Recipe.build` followed by `Recipe.install`: the tree afterwards, and
      * whether both succeeded. */
    const buildStep: (string, seq<Entry>) -> (seq<Entry>, bool)
    /** The platform's checks and fix-ups on newly installed files. */
    const postProcess: (string, seq<string>, seq<Entry>) -> HookRun

    /** The `installed_files` table. */
    var rows: seq<Row>
    /** The `installed_recipes` table. */
    var marked: set<string>
    /** `_has_db_lock`: how many `with env:` blocks are open. */
    var lockDepth: nat
    /** The tables as they were when the outermost block began. */
    var savedRows: seq<Row>
    var savedMarked: set<string>
    /** The tree below the root directory. */
    var disk: seq<Entry>
    /** The external commands run so far. */
    var commands: seq<seq<string>>

    predicate Valid()
      reads this
    {
      IsAbs(rootdir) && !EndsWith(rootdir, "/")
      && MarkedInstalled(rows, marked) && MarkedInstalled(savedRows, savedMarked)
    }

    /** `__init__`: an environment over an existing tree, opening the
      * database that is already there (`CREATE TABLE IF NOT EXISTS` keeps
      * its tables; a new database starts with both empty). The stored
      * tables are ones this program wrote, so every marked recipe has a
      * row. */
    constructor(rootdir: string, registry: Registry, dependencies: seq<string>,
                fetchStep: string -> bool, buildStep: (string, seq<Entry>) -> (seq<Entry>, bool),
                postProcess: (string, seq<string>, seq<Entry>) -> HookRun, disk: seq<Entry>,
                storedRows: seq<Row>, storedMarked: set<string>)
      requires IsAbs(rootdir) && !EndsWith(rootdir, "/")
      requires MarkedInstalled(storedRows, storedMarked)
      ensures Valid()
      ensures this.rootdir == rootdir && this.registry == registry && this.dependencies == dependencies
      ensures this.fetchStep == fetchStep && this.buildStep == buildStep && this.postProcess == postProcess
      ensures rows == storedRows && marked == storedMarked
      ensures lockDepth == 0 && this.disk == disk && commands == []
    {
      this.rootdir := rootdir;
      this.registry := registry;
      this.dependencies := dependencies;
      this.fetchStep := fetchStep;
      this.buildStep := buildStep;
      this.postProcess := postProcess;
      rows := storedRows;
      marked := storedMarked;
      lockDepth := 0;
      savedRows := storedRows;
      savedMarked := storedMarked;
      this.disk := disk;
      commands := [];
    }

    // -------------------------------------------------------------------
    // The re-entrant transaction

    /** `__enter__`: only the outermost block begins a transaction. */
    method Enter()
      requires Valid()
      modifies this
      ensures Valid()
      ensures lockDepth == old(lockDepth) + 1
      ensures rows == old(rows) && marked == old(marked) && disk == old(disk) && commands == old(commands)
      ensures old(lockDepth) == 0 ==> savedRows == rows && savedMarked == marked
      ensures old(lockDepth) != 0 ==> savedRows == old(savedRows) && savedMarked == old(savedMarked)
    {
      if lockDepth == 0 {
        savedRows := rows;
        savedMarked := marked;
      }
      lockDepth := lockDepth + 1;
    }

    /** `__exit__`: only the outermost block ends the transaction; it commits,
      * or rolls the tables back when the block raised. */
    method Exit(failed: bool)
      requires Valid() && lockDepth > 0
      modifies this
      ensures Valid()
      ensures lockDepth == old(lockDepth) - 1
      ensures disk == old(disk) && commands == old(commands)
      ensures savedRows == old(savedRows) && savedMarked == old(savedMarked)
      ensures if failed && lockDepth == 0 then rows == old(savedRows) && marked == old(savedMarked)
              else rows == old(rows) && marked == old(marked)
    {
      lockDepth := lockDepth - 1;
      if failed && lockDepth == 0 {
        rows := savedRows;
        marked := savedMarked;
      }
    }

    // -------------------------------------------------------------------
    // Queries

    /** `is_installed`: some file row names the recipe. */
    function IsInstalled(recipe: string): (b: bool)
      reads this
      ensures b <==> exists i :: 0 <= i < |rows| && rows[i].recipe == recipe
    {
      |PathsOf(rows, recipe)| > 0
    }

    /** Every dependency of the environment is installed. */
    predicate Initialised()
      reads this
    {
      forall d :: d in dependencies ==> IsInstalled(d)
    }

    /** An install with this `initialising` flag cannot leave `scope` by
      * running `init`: it is initialising, the environment is initialised
      * already, or `scope` holds the environment's dependencies. */
    predicate Covers(scope: set<string>, initialising: bool)
      reads this
    {
      initialising || Initialised() || forall e :: e in dependencies ==> e in scope
    }

    /** Reached from the environment's dependencies or a marked recipe. */
    ghost predicate IsExplicit(x: string)
      reads this
    {
      Explicit(registry, dependencies, rows, marked, x)
    }

    /** An environment is initialised exactly when each of its dependencies
      * is explicitly installed. */
    lemma InitialisedExplicit()
      ensures Initialised() <==> forall d :: d in dependencies ==> IsExplicit(d)
    {
      forall d | d in dependencies && IsInstalled(d)
        ensures IsExplicit(d)
      {
        ReachRoot(registry, Roots(dependencies, marked), d);
      }
    }

    /** Keeping every explicitly installed recipe keeps the environment
      * initialised. */
    lemma InitialisedKept(rows0: seq<Row>, marked0: set<string>)
      requires ExplicitKept(registry, dependencies, rows0, marked0, rows, marked)
      requires forall d :: d in dependencies ==> Installed(rows0, d)
      ensures Initialised()
    {
      forall d | d in dependencies
        ensures IsInstalled(d)
      {
        EnvDepExplicit(registry, dependencies, rows0, marked0, d);
      }
    }

    /** `is_initialised` */
    method IsInitialised() returns (b: bool)
      ensures b <==> Initialised()
    {
      var i := 0;
      while i < |dependencies|
        invariant 0 <= i <= |dependencies|
        invariant forall k :: 0 <= k < i ==> IsInstalled(dependencies[k])
      {
        if !IsInstalled(dependencies[i]) {
          return false;
        }
        i := i + 1;
      }
      return true;
    }

    /** `is_explicitly_installed`: installed, and reached from the
      * environment's dependencies or a marked recipe; loading a name without
      * a recipe class fails. */
    method IsExplicitlyInstalled(recipe: string) returns (r: Result<bool, Error>)
      ensures !IsInstalled(recipe) ==> r == Success(false)
      ensures r.Success? ==> (r.value <==> IsExplicit(recipe))
      ensures r.Failure? <==> IsInstalled(recipe) && Unloadable(registry, Roots(dependencies, marked))
      ensures r.Failure? ==> r.error.UnknownRecipe?
    {
      if !IsInstalled(recipe) {
        return Success(false);
      }
      var roots := Roots(dependencies, marked);
      var deps, missing := DependencyClosure(registry, roots);
      if missing.Some? {
        return Failure(UnknownRecipe(missing.value));
      }
      return Success(recipe in deps);
    }

    // -------------------------------------------------------------------
    // The walk for new files

    /** `find_new_files`: a breadth-first walk from the root that reports
      * every path the specification `Found` reports. */
    method FindNewFiles() returns (found: seq<string>)
      ensures forall p :: p in found <==> p in Found(rootdir, Recorded(rows), rootdir, disk)
    {
      var recorded := Recorded(rows);
      ghost var target := Found(rootdir, recorded, rootdir, disk);
      var queue: seq<Pending> := [(rootdir, disk)];
      found := [];
      while |queue| > 0
        invariant Elems(found) + Unvisited(rootdir, recorded, queue) == target
        decreases QueueSize(queue)
      {
        UnvisitedFront(rootdir, recorded, queue);
        QueueSizeFront(queue);
        var dirpath := queue[0].0;
        var es := queue[0].1;
        queue := queue[1..];
        if |es| == 0 {
          if !IsOld(rootdir, recorded, dirpath + "/") {
            found := found + [dirpath + "/"];
          }
        } else {
          queue, found := VisitListing(rootdir, recorded, dirpath, es, queue, found);
        }
      }
    }

    // -------------------------------------------------------------------
    // Recording

    /** `record_files`, with the platform's override run first: one row per
      * file, its path cut to what follows the root and its separator, which
      * must be relative; an empty list is refused. */
    method RecordFiles(recipe: string, files: seq<string>) returns (o: Outcome<Error>)
      requires Valid()
      modifies this
      ensures Valid() && lockDepth == old(lockDepth) && marked == old(marked) && disk == old(disk)
      ensures savedRows == old(savedRows) && savedMarked == old(savedMarked)
      ensures commands == old(commands) + postProcess(recipe, files, disk).commands
      ensures old(rows) <= rows
      ensures forall i :: |old(rows)| <= i < |rows| ==>
                rows[i].recipe == recipe && !StartsWith(rows[i].filepath, "/")
      ensures o.Pass? <==> postProcess(recipe, files, disk).failure.None? && |files| > 0
                           && forall i :: 0 <= i < |files| ==> !StartsWith(Rel(rootdir, files[i]), "/")
      ensures o.Pass? ==> rows == old(rows) + RowsFor(rootdir, recipe, files)
    {
      var run := postProcess(recipe, files, disk);
      commands := commands + run.commands;
      if run.failure.Some? {
        return Fail(PostProcessFailed(recipe, run.failure.value));
      }
      if |files| == 0 {
        return Fail(NoFilesInstalled(recipe));
      }
      var added, refused := RelativeRows(rootdir, recipe, files);
      MarkedGrows(rows, rows + added, marked);
      rows := rows + added;
      if refused.Some? {
        return Fail(NotRelative(refused.value));
      }
      o := Pass;
    }

    // -------------------------------------------------------------------
    // Uninstalling

    /** `uninstall`, inside one `with env:` block: the marker and the rows go
      * first, then every recorded path must be relative, then the paths are
      * removed in descending order so that a directory's contents go before
      * the directory. A failure rolls the tables back when this block is the
      * outermost one; the files already removed stay removed. */
    method Uninstall(name: string) returns (o: Outcome<Error>)
      requires Valid()
      modifies this
      ensures Valid() && lockDepth == old(lockDepth) && commands == old(commands)
      ensures old(lockDepth) > 0 ==> savedRows == old(savedRows) && savedMarked == old(savedMarked)
      ensures o.Pass? || old(lockDepth) > 0 ==> rows == Without(old(rows), name) && marked == old(marked) - {name}
      ensures o.Fail? && old(lockDepth) == 0 ==> rows == old(rows) && marked == old(marked)
      ensures forall rel :: Exists(disk, rel) ==> old(Exists(disk, rel))
      ensures (exists f :: f in PathsOf(old(rows), name) && StartsWith(f, "/"))
              ==> o.Fail? && o.error.NotRelative? && disk == old(disk)
      ensures (forall f :: f in PathsOf(old(rows), name) ==> !StartsWith(f, "/"))
              ==> (disk, if o.Pass? then None else Some(o.error))
                  == RemoveAll(rootdir, Recorded(Without(old(rows), name)), old(disk), SortDesc(PathsOf(old(rows), name)))
      ensures o.Pass? ==> forall f :: f in PathsOf(old(rows), name) && f != "" && !EndsWith(f, "/") ==> !Exists(disk, f)
      ensures o.Fail? ==> o.error.OsError? || o.error.NotRelative?
    {
      Enter();
      var files := SortDesc(PathsOf(rows, name));
      SortDescElems(PathsOf(rows, name));
      MarkedWithout(rows, marked, name);
      marked := marked - {name};
      rows := Without(rows, name);
      var bad := FirstAbsolute(files);
      if bad.Some? {
        Exit(true);
        return Fail(NotRelative(bad.value));
      }
      var recorded := Recorded(rows);
      var d, err := RemovePaths(rootdir, recorded, disk, files);
      disk := d;
      forall rel | Exists(disk, rel)
        ensures old(Exists(disk, rel))
      {
        RemoveAllShrinks(rootdir, recorded, old(disk), files, rel);
      }
      if err.None? {
        forall f | f in files && f != "" && !EndsWith(f, "/")
          ensures !Exists(disk, f)
        {
          RemoveAllRemoves(rootdir, recorded, old(disk), files, f);
        }
      }
      Exit(err.Some?);
      o := if err.None? then Pass else Fail(err.value);
    }

    // -------------------------------------------------------------------
    // Installing

    /** The `with self:` block of `install`: build and install the recipe,
      * then record what appeared on disk. A failure rolls the tables back
      * when this block is the outermost one. */
    method BuildAndRecord(name: string) returns (o: Outcome<Error>)
      requires Valid()
      modifies this
      ensures Valid() && lockDepth == old(lockDepth) && marked == old(marked)
      ensures old(lockDepth) > 0 ==> savedRows == old(savedRows) && savedMarked == old(savedMarked)
      ensures disk == buildStep(name, old(disk)).0
      ensures old(rows) <= rows
      ensures forall i :: |old(rows)| <= i < |rows| ==> rows[i].recipe == name && !StartsWith(rows[i].filepath, "/")
      ensures o.Fail? && old(lockDepth) == 0 ==> rows == old(rows)
      ensures !buildStep(name, old(disk)).1 ==> o == Fail(StepFailed(name)) && rows == old(rows) && commands == old(commands)
      ensures o.Pass? ==> |rows| > |old(rows)| && exists files ::
                (forall f :: f in files <==> f in Found(rootdir, Recorded(old(rows)), rootdir, disk))
                && rows == old(rows) + RowsFor(rootdir, name, files)
                && commands == old(commands) + postProcess(name, files, disk).commands
    {
      Enter();
      var built := buildStep(name, disk);
      disk := built.0;
      if !built.1 {
        Exit(true);
        return Fail(StepFailed(name));
      }
      var files := FindNewFiles();
      o := RecordFiles(name, files);
      Exit(o.Fail?);
    }

    /** One conflict of `install`: refused when it is explicitly installed,
      * uninstalled otherwise. */
    method ResolveConflict(name: string, c: string) returns (o: Outcome<Error>)
      requires Valid()
      modifies this
      ensures Valid() && lockDepth == old(lockDepth) && marked == old(marked) && commands == old(commands)
      ensures ExplicitKept(registry, dependencies, old(rows), old(marked), rows, marked)
      ensures o.Pass? ==> !old(IsExplicit(c))
      ensures old(IsExplicit(c)) ==> o.Fail? && rows == old(rows) && disk == old(disk)
      ensures o.Fail? && o.error.Conflict? ==> o.error == Conflict(name, c) && IsExplicit(c)
      ensures rows == old(rows) || rows == Without(old(rows), c)
      ensures o.Pass? ==> rows == Without(old(rows), c) && !Installed(rows, c)
    {
      var r := IsExplicitlyInstalled(c);
      if r.Failure? {
        return Fail(r.error);
      }
      if r.value {
        return Fail(Conflict(name, c));
      }
      MarkedExplicit(registry, dependencies, rows, marked, c);
      assert marked - {c} == marked;
      ExplicitKeptWithout(registry, dependencies, rows, marked, c);
      InstalledWithout(rows, c, c);
      o := Uninstall(c);
    }

    /** The `CONFLICTS_WITH` loop of `install`: refuse when a conflicting
      * recipe is explicitly installed, otherwise uninstall it. */
    method InstallConflicts(name: string, conflicts: seq<string>) returns (o: Outcome<Error>)
      requires Valid()
      modifies this
      ensures Valid() && lockDepth == old(lockDepth) && marked == old(marked) && commands == old(commands)
      ensures ExplicitKept(registry, dependencies, old(rows), old(marked), rows, marked)
      ensures |conflicts| == 0 ==> o.Pass? && rows == old(rows) && disk == old(disk)
      ensures o.Pass? ==> forall c :: c in conflicts ==> !old(IsExplicit(c))
      ensures o.Fail? && o.error.Conflict? ==>
                o.error.recipe == name && o.error.installed in conflicts && IsExplicit(o.error.installed)
      ensures forall x :: Installed(rows, x) ==> Installed(old(rows), x)
      ensures forall x :: Installed(old(rows), x) && !Installed(rows, x) ==> x in conflicts
      ensures o.Pass? ==> forall c :: c in conflicts ==> !Installed(rows, c)
    {
      for i := 0 to |conflicts|
        invariant Valid() && lockDepth == old(lockDepth) && marked == old(marked) && commands == old(commands)
        invariant ExplicitKept(registry, dependencies, old(rows), old(marked), rows, marked)
        invariant forall j :: 0 <= j < i ==> !old(IsExplicit(conflicts[j]))
        invariant i == 0 ==> rows == old(rows) && disk == old(disk)
        invariant forall x :: Installed(rows, x) ==> Installed(old(rows), x)
        invariant forall x :: Installed(old(rows), x) && !Installed(rows, x) ==> x in conflicts[..i]
        invariant forall j :: 0 <= j < i ==> !Installed(rows, conflicts[j])
      {
        ghost var rows0, marked0 := rows, marked;
        o := ResolveConflict(name, conflicts[i]);
        ExplicitKeptTrans(registry, dependencies, old(rows), old(marked), rows0, marked0, rows, marked);
        forall x
          ensures Installed(rows, x) ==> Installed(rows0, x)
          ensures Installed(rows0, x) && !Installed(rows, x) ==> x == conflicts[i]
        {
          InstalledWithout(rows0, conflicts[i], x);
        }
        if o.Fail? {
          return;
        }
        forall j | 0 <= j < i + 1
          ensures !Installed(rows, conflicts[j])
        {
          if j < i {
            assert !Installed(rows0, conflicts[j]);
          }
        }
        ExplicitKeptAt(registry, dependencies, old(rows), old(marked), rows0, marked0, conflicts[i]);
      }
      o := Pass;
    }

    /** The `DEPENDENCIES` and `BUILD_DEPENDENCIES` loops of `install`: each
      * name other than the recipe's own, installed in turn, not
      * explicitly. Within a `scope` closed under dependencies that holds
      * every name and that `init` cannot leave, the loop installs only
      * members of `scope` and uninstalls only what they conflict with; when
      * no member conflicts with another, every name is installed at the
      * end, since a later one's conflicts cannot uninstall an earlier one. */
    method InstallDeps(name: string, deps: seq<string>, initialising: bool, fuel: nat, ghost scope: set<string>)
      returns (o: Outcome<Error>)
      requires Valid()
      modifies this
      ensures Valid() && lockDepth == old(lockDepth) && marked == old(marked)
      ensures ExplicitKept(registry, dependencies, old(rows), old(marked), rows, marked)
      ensures old(Initialised()) ==> Initialised()
      ensures NoConflicts(registry) ==> old(rows) <= rows
      ensures DepClosed(registry, scope) && (forall d :: d in deps ==> d in scope) && old(Covers(scope, initialising)) ==>
                Bounded(registry, scope, old(rows), rows)
      ensures o.Pass? && DepClosed(registry, scope) && ConflictFree(registry, scope)
              && (forall d :: d in deps ==> d in scope) && old(Covers(scope, initialising)) ==>
                forall d :: d in deps && d != name ==> IsInstalled(d)
      decreases fuel, 4
    {
      ghost var inScope := DepClosed(registry, scope) && (forall d :: d in deps ==> d in scope)
                           && old(Covers(scope, initialising));
      for i := 0 to |deps|
        invariant Valid() && lockDepth == old(lockDepth) && marked == old(marked)
        invariant ExplicitKept(registry, dependencies, old(rows), old(marked), rows, marked)
        invariant old(Initialised()) ==> Initialised()
        invariant NoConflicts(registry) ==> old(rows) <= rows
        invariant inScope ==> Bounded(registry, scope, old(rows), rows) && Covers(scope, initialising)
        invariant inScope && ConflictFree(registry, scope) ==>
                    forall j :: 0 <= j < i && deps[j] != name ==> Installed(rows, deps[j])
      {
        if deps[i] != name {
          ghost var rows0, marked0 := rows, marked;
          o := Install(deps[i], initialising, false, fuel, scope);
          ExplicitKeptTrans(registry, dependencies, old(rows), old(marked), rows0, marked0, rows, marked);
          if inScope {
            BoundedTrans(registry, scope, old(rows), rows0, rows);
          }
          if o.Fail? {
            return;
          }
          if inScope && ConflictFree(registry, scope) {
            forall j | 0 <= j < i && deps[j] != name
              ensures Installed(rows, deps[j])
            {
              BoundedKept(registry, scope, rows0, rows, deps[j]);
            }
          }
        }
      }
      o := Pass;
    }

    /** `init`: install each of the environment's dependencies, not
      * explicitly, while initialising. */
    method Init(fuel: nat, ghost scope: set<string>) returns (o: Outcome<Error>)
      requires Valid()
      modifies this
      ensures Valid() && lockDepth == old(lockDepth) && marked == old(marked)
      ensures ExplicitKept(registry, dependencies, old(rows), old(marked), rows, marked)
      ensures NoConflicts(registry) ==> old(rows) <= rows
      ensures DepClosed(registry, scope) && (forall e :: e in dependencies ==> e in scope) ==>
                Bounded(registry, scope, old(rows), rows)
      ensures o.Pass? ==> Initialised()
      decreases fuel, 4
    {
      ghost var inScope := DepClosed(registry, scope) && forall e :: e in dependencies ==> e in scope;
      for i := 0 to |dependencies|
        invariant Valid() && lockDepth == old(lockDepth) && marked == old(marked)
        invariant ExplicitKept(registry, dependencies, old(rows), old(marked), rows, marked)
        invariant NoConflicts(registry) ==> old(rows) <= rows
        invariant inScope ==> Bounded(registry, scope, old(rows), rows)
        invariant forall j :: 0 <= j < i ==> IsExplicit(dependencies[j])
      {
        ghost var rows0, marked0 := rows, marked;
        o := Install(dependencies[i], true, false, fuel, scope);
        ExplicitKeptTrans(registry, dependencies, old(rows), old(marked), rows0, marked0, rows, marked);
        if inScope {
          BoundedTrans(registry, scope, old(rows), rows0, rows);
        }
        if o.Fail? {
          return;
        }
        EnvDepsKept(registry, dependencies, rows0, marked0, rows, marked, i);
      }
      InitialisedExplicit();
      o := Pass;
    }

    /** The body of `install` for a recipe that is not installed yet. */
    method InstallNew(name: string, initialising: bool, fuel: nat, ghost scope: set<string>) returns (o: Outcome<Error>)
      requires Valid() && !IsInstalled(name)
      modifies this
      ensures Valid() && lockDepth == old(lockDepth) && marked == old(marked)
      ensures ExplicitKept(registry, dependencies, old(rows), old(marked), rows, marked)
      ensures fuel == 0 ==> o == Fail(RecursionLimit) && rows == old(rows) && disk == old(disk)
      ensures fuel > 0 && name !in registry ==> o == Fail(UnknownRecipe(name)) && rows == old(rows) && disk == old(disk)
      ensures o.Pass? ==> IsInstalled(name) && name in registry && fetchStep(name)
      ensures o.Pass? ==> forall c :: c in registry[name].conflictsWith ==> !old(IsExplicit(c))
      ensures o.Pass? && !initialising ==> Initialised()
      ensures old(Initialised()) ==> Initialised()
      ensures NoConflicts(registry) ==> old(rows) <= rows
      ensures name in scope && DepClosed(registry, scope) && old(Covers(scope, initialising)) ==>
                Bounded(registry, scope, old(rows), rows)
      ensures o.Pass? && name in scope && DepClosed(registry, scope) && ConflictFree(registry, scope)
              && old(Covers(scope, initialising)) ==>
                exists k :: RecordedAfter(rows, k, name, registry[name].dependencies + registry[name].buildDependencies)
      ensures o.Pass? && name in scope && DepClosed(registry, scope) && ConflictFree(registry, scope)
              && old(Covers(scope, initialising)) ==>
                forall c :: c in registry[name].conflictsWith ==> !IsInstalled(c)
      decreases fuel, 2
    {
      if fuel == 0 {
        return Fail(RecursionLimit);
      }
      if name !in registry {
        return Fail(UnknownRecipe(name));
      }
      var r := registry[name];
      if !initialising {
        var ok := IsInitialised();
        if !ok {
          o := Init(fuel - 1, scope);
          if o.Fail? {
            return;
          }
        }
      }
      ghost var rowsI, markedI := rows, marked;
      o := InstallRest(name, initialising, fuel - 1, scope);
      ExplicitKeptTrans(registry, dependencies, old(rows), old(marked), rowsI, markedI, rows, marked);
      if name in scope && DepClosed(registry, scope) && old(Covers(scope, initialising)) {
        BoundedTrans(registry, scope, old(rows), rowsI, rows);
      }
    }

    /** `install` from the conflicts on: conflicts, runtime dependencies,
      * build dependencies, fetch, then the build-and-record block. */
    method InstallRest(name: string, initialising: bool, fuel: nat, ghost scope: set<string>) returns (o: Outcome<Error>)
      requires Valid() && name in registry
      modifies this
      ensures Valid() && lockDepth == old(lockDepth) && marked == old(marked)
      ensures ExplicitKept(registry, dependencies, old(rows), old(marked), rows, marked)
      ensures old(Initialised()) ==> Initialised()
      ensures o.Pass? ==> IsInstalled(name) && fetchStep(name)
      ensures o.Pass? ==> forall c :: c in registry[name].conflictsWith ==> !old(IsExplicit(c))
      ensures NoConflicts(registry) ==> old(rows) <= rows
      ensures name in scope && DepClosed(registry, scope) && old(Covers(scope, initialising)) ==>
                Bounded(registry, scope, old(rows), rows)
      ensures o.Pass? && name in scope && DepClosed(registry, scope) && ConflictFree(registry, scope)
              && old(Covers(scope, initialising)) ==>
                exists k :: RecordedAfter(rows, k, name, registry[name].dependencies + registry[name].buildDependencies)
      ensures o.Pass? && name in scope && DepClosed(registry, scope) && ConflictFree(registry, scope)
              && old(Covers(scope, initialising)) ==>
                forall c :: c in registry[name].conflictsWith ==> !IsInstalled(c)
      decreases fuel, 7
    {
      var r := registry[name];
      ghost var inScope := name in scope && DepClosed(registry, scope) && old(Covers(scope, initialising));
      o := InstallConflicts(name, r.conflictsWith);
      if old(Initialised()) {
        InitialisedKept(old(rows), old(marked));
      }
      if inScope {
        ConflictsBounded(registry, scope, name, old(rows), rows);
      }
      if o.Pass? {
        ghost var rows1, marked1 := rows, marked;
        o := InstallAfterConflicts(name, initialising, fuel, scope);
        ExplicitKeptTrans(registry, dependencies, old(rows), old(marked), rows1, marked1, rows, marked);
        if inScope {
          BoundedTrans(registry, scope, old(rows), rows1, rows);
          if o.Pass? && ConflictFree(registry, scope) {
            forall c | c in r.conflictsWith
              ensures !Installed(rows, c)
            {
              BoundedAbsent(registry, scope, rows1, rows, name, c);
            }
          }
        }
      }
    }

    /** `install` after the conflicts: both dependency loops, then fetch and
      * the build-and-record block. Within a conflict-free scope every
      * dependency has a row before the recipe's own rows. */
    method InstallAfterConflicts(name: string, initialising: bool, fuel: nat, ghost scope: set<string>)
      returns (o: Outcome<Error>)
      requires Valid() && name in registry
      modifies this
      ensures Valid() && lockDepth == old(lockDepth) && marked == old(marked)
      ensures ExplicitKept(registry, dependencies, old(rows), old(marked), rows, marked)
      ensures old(Initialised()) ==> Initialised()
      ensures o.Pass? ==> IsInstalled(name) && fetchStep(name)
      ensures NoConflicts(registry) ==> old(rows) <= rows
      ensures name in scope && DepClosed(registry, scope) && old(Covers(scope, initialising)) ==>
                Bounded(registry, scope, old(rows), rows)
      ensures o.Pass? && name in scope && DepClosed(registry, scope) && ConflictFree(registry, scope)
              && old(Covers(scope, initialising)) ==>
                exists k :: RecordedAfter(rows, k, name, registry[name].dependencies + registry[name].buildDependencies)
      decreases fuel, 6
    {
      var r := registry[name];
      ghost var inScope := name in scope && DepClosed(registry, scope) && old(Covers(scope, initialising));
      o := InstallNeeds(name, initialising, fuel, scope);
      if o.Fail? {
        return;
      }
      ghost var rows3, marked3 := rows, marked;
      o := FetchAndRecord(name);
      ExplicitKeptTrans(registry, dependencies, old(rows), old(marked), rows3, marked3, rows, marked);
      if old(Initialised()) {
        InitialisedKept(old(rows), old(marked));
      }
      if inScope {
        BoundedGrows(registry, scope, rows3, rows, name);
        BoundedTrans(registry, scope, old(rows), rows3, rows);
      }
      if o.Pass? && inScope && ConflictFree(registry, scope) {
        assert rows[..|rows3|] == rows3;
        assert RecordedAfter(rows, |rows3|, name, r.dependencies + r.buildDependencies);
      }
    }

    /** The end of `install`: fetch, then the build-and-record block, which
      * only appends rows of the recipe. */
    method FetchAndRecord(name: string) returns (o: Outcome<Error>)
      requires Valid()
      modifies this
      ensures Valid() && lockDepth == old(lockDepth) && marked == old(marked)
      ensures ExplicitKept(registry, dependencies, old(rows), old(marked), rows, marked)
      ensures old(rows) <= rows && forall i :: |old(rows)| <= i < |rows| ==> rows[i].recipe == name
      ensures !fetchStep(name) ==> o == Fail(StepFailed(name)) && rows == old(rows) && disk == old(disk)
      ensures o.Pass? ==> fetchStep(name) && |rows| > |old(rows)| && IsInstalled(name)
    {
      if !fetchStep(name) {
        return Fail(StepFailed(name));
      }
      o := BuildAndRecord(name);
      ExplicitKeptGrows(registry, dependencies, old(rows), old(marked), rows, marked);
      if o.Pass? {
        assert rows[|old(rows)|].recipe == name;
      }
    }

    /** Both dependency loops of `install`, runtime then build. Within a
      * conflict-free scope every dependency is installed at the end: the
      * build dependencies' conflicts cannot uninstall a runtime one. */
    method InstallNeeds(name: string, initialising: bool, fuel: nat, ghost scope: set<string>) returns (o: Outcome<Error>)
      requires Valid() && name in registry
      modifies this
      ensures Valid() && lockDepth == old(lockDepth) && marked == old(marked)
      ensures ExplicitKept(registry, dependencies, old(rows), old(marked), rows, marked)
      ensures old(Initialised()) ==> Initialised()
      ensures NoConflicts(registry) ==> old(rows) <= rows
      ensures name in scope && DepClosed(registry, scope) && old(Covers(scope, initialising)) ==>
                Bounded(registry, scope, old(rows), rows)
      ensures o.Pass? && name in scope && DepClosed(registry, scope) && ConflictFree(registry, scope)
              && old(Covers(scope, initialising)) ==>
                forall d :: d in registry[name].dependencies + registry[name].buildDependencies && d != name ==> IsInstalled(d)
      decreases fuel, 5
    {
      var r := registry[name];
      ghost var inScope := name in scope && DepClosed(registry, scope) && old(Covers(scope, initialising));
      ghost var rows1 := rows;
      o := InstallDeps(name, r.dependencies, initialising, fuel, scope);
      ExplicitKeptTrans(registry, dependencies, rows1, marked, rows1, marked, rows, marked);
      if o.Pass? {
        ghost var rows2 := rows;
        o := InstallDeps(name, r.buildDependencies, initialising, fuel, scope);
        ExplicitKeptTrans(registry, dependencies, rows1, marked, rows2, marked, rows, marked);
        if inScope {
          BoundedTrans(registry, scope, rows1, rows2, rows);
        }
        if o.Pass? && inScope && ConflictFree(registry, scope) {
          forall d | d in r.dependencies + r.buildDependencies && d != name
            ensures Installed(rows, d)
          {
            if d in r.dependencies {
              BoundedKept(registry, scope, rows2, rows, d);
            }
          }
        }
      }
    }

    /** `install`: a recipe not yet installed is built and recorded after
      * its conflicts and dependencies; then, when asked for, it is marked
      * explicitly installed unless it already counts as such. For any
      * `scope` that holds the recipe, is closed under dependencies and that
      * `init` cannot leave, the install adds only members of `scope` and
      * uninstalls only recipes a member conflicts with; when in addition no
      * member conflicts with another, every dependency is still installed
      * when the recipe's rows are recorded. */
    method Install(name: string, initialising: bool, explicit: bool, fuel: nat, ghost scope: set<string>)
      returns (o: Outcome<Error>)
      requires Valid()
      modifies this
      ensures Valid() && lockDepth == old(lockDepth)
      ensures ExplicitKept(registry, dependencies, old(rows), old(marked), rows, marked)
      ensures marked == old(marked) || (explicit && marked == old(marked) + {name})
      ensures old(IsInstalled(name)) ==> rows == old(rows) && disk == old(disk) && commands == old(commands)
      ensures old(IsInstalled(name)) && old(IsExplicit(name)) ==> marked == old(marked)
      ensures o.Pass? ==> IsInstalled(name)
      ensures o.Pass? && explicit ==> IsExplicit(name)
      ensures o.Pass? && !old(IsInstalled(name)) ==>
                name in registry && forall c :: c in registry[name].conflictsWith ==> !old(IsExplicit(c))
      ensures o.Pass? && !old(IsInstalled(name)) && !initialising ==> Initialised()
      ensures old(Initialised()) ==> Initialised()
      ensures NoConflicts(registry) ==> old(rows) <= rows
      ensures name in scope && DepClosed(registry, scope) && old(Covers(scope, initialising)) ==>
                Bounded(registry, scope, old(rows), rows)
      ensures o.Pass? && !old(IsInstalled(name)) && name in scope && DepClosed(registry, scope)
              && ConflictFree(registry, scope) && old(Covers(scope, initialising)) ==>
                exists k :: RecordedAfter(rows, k, name, registry[name].dependencies + registry[name].buildDependencies)
      ensures o.Pass? && !old(IsInstalled(name)) && name in scope && DepClosed(registry, scope)
              && ConflictFree(registry, scope) && old(Covers(scope, initialising)) ==>
                forall c :: c in registry[name].conflictsWith ==> !IsInstalled(c)
      decreases fuel, 3
    {
      if !IsInstalled(name) {
        o := InstallNew(name, initialising, fuel, scope);
        if o.Fail? {
          return;
        }
      }
      ghost var rows1, marked1 := rows, marked;
      if explicit {
        var e := IsExplicitlyInstalled(name);
        if e.Failure? {
          return Fail(e.error);
        }
        if !e.value {
          marked := marked + {name};
          MarkedExplicit(registry, dependencies, rows, marked, name);
          ExplicitKeptGrows(registry, dependencies, rows1, marked1, rows, marked);
          ExplicitKeptTrans(registry, dependencies, old(rows), old(marked), rows1, marked1, rows, marked);
        }
      }
      o := Pass;
    }

    // -------------------------------------------------------------------
    // Cleaning

    /** The middle loop of `clean`: every installed recipe that is not
      * explicitly installed is uninstalled. */
    method PruneUnmarked() returns (o: Outcome<Error>)
      requires Valid()
      modifies this
      ensures Valid() && lockDepth == old(lockDepth) && marked == old(marked) && commands == old(commands)
      ensures ExplicitSame(registry, dependencies, old(rows), old(marked), rows, marked)
      ensures forall rel :: Exists(disk, rel) ==> old(Exists(disk, rel))
      ensures o.Pass? ==> forall x :: IsInstalled(x) ==> IsExplicit(x)
    {
      var names := InstalledRecipes(rows);
      assert names[0..] == names;
      for i := 0 to |names|
        invariant Valid() && lockDepth == old(lockDepth) && marked == old(marked) && commands == old(commands)
        invariant ExplicitSame(registry, dependencies, old(rows), old(marked), rows, marked)
        invariant forall rel :: Exists(disk, rel) ==> old(Exists(disk, rel))
        invariant forall x :: Installed(rows, x) ==> Explicit(registry, dependencies, rows, marked, x) || x in names[i..]
      {
        var c := names[i];
        DropOne(names, i);
        var e := IsExplicitlyInstalled(c);
        if e.Failure? {
          return Fail(e.error);
        }
        if !e.value {
          ghost var rows0, marked0 := rows, marked;
          assert forall x :: Installed(rows0, x) ==> Explicit(registry, dependencies, rows0, marked0, x) || x in names[i..];
          MarkedExplicit(registry, dependencies, rows, marked, c);
          assert marked - {c} == marked;
          ExplicitSameWithout(registry, dependencies, rows, marked, c);
          o := Uninstall(c);
          ExplicitSameTrans(registry, dependencies, old(rows), old(marked), rows0, marked0, rows, marked);
          if o.Fail? {
            return;
          }
          forall x | Installed(rows, x)
            ensures Explicit(registry, dependencies, rows, marked, x) || x in names[i + 1..]
          {
            InstalledWithout(rows0, c, x);
          }
        }
      }
      o := Pass;
    }

    /** `clean`: remove the build and cache directories, uninstall every
      * recipe that is not explicitly installed, then unlink every file on
      * disk that no recipe recorded. */
    method Clean() returns (o: Outcome<Error>)
      requires Valid()
      modifies this
      ensures Valid() && lockDepth == old(lockDepth) && marked == old(marked) && commands == old(commands)
      ensures ExplicitSame(registry, dependencies, old(rows), old(marked), rows, marked)
      ensures forall rel :: Exists(disk, rel) ==> old(Exists(disk, rel))
      ensures o.Pass? ==> forall x :: IsInstalled(x) <==> old(IsExplicit(x))
      ensures o.Pass? ==> !Exists(disk, "build") && !Exists(disk, "cache")
    {
      ComponentsName("build");
      ComponentsName("cache");
      var r := RemoveTree(rootdir, disk, "build");
      if r.Failure? {
        return Fail(r.error);
      }
      ghost var disk0 := disk;
      disk := r.value;
      forall rel | Exists(disk, rel)
        ensures Exists(disk0, rel)
      {
        if disk != disk0 {
          ExistsAfterRemove(disk0, ["build"], rel);
        }
      }
      r := RemoveTree(rootdir, disk, "cache");
      if r.Failure? {
        return Fail(r.error);
      }
      ghost var disk1 := disk;
      disk := r.value;
      forall rel | Exists(disk, rel)
        ensures Exists(disk1, rel)
      {
        if disk != disk1 {
          ExistsAfterRemove(disk1, ["cache"], rel);
        }
      }
      assert !Exists(disk, "build") && !Exists(disk, "cache");
      o := PruneUnmarked();
      if o.Fail? {
        return;
      }
      var found := FindNewFiles();
      ghost var disk2 := disk;
      disk := SweepFiles(rootdir, disk, found);
      forall rel | Exists(disk, rel)
        ensures Exists(disk2, rel)
      {
        SweepShrinks(rootdir, disk2, found, rel);
      }
    }
  }
}
