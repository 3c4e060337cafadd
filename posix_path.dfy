/** The POSIX path functions of Python's `os.path` that the tool uses:
  * `join`, `dirname`, `basename` and `isabs`, on `/`-separated strings. */
module PosixPath {
  import opened Text

  /** One directory entry name: non-empty and free of separators. */
  type Name = s: string | |s| > 0 && '/' !in s witness "a"

  /** `os.path.isabs(p)` */
  predicate IsAbs(p: string) {
    StartsWith(p, "/")
  }

  /** `os.path.join(a, b)`: an absolute `b` replaces `a`; otherwise a separator
    * is put between them unless `a` is empty or already ends with one. */
  function Join(a: string, b: string): string {
    if IsAbs(b) then b
    else if a == "" || EndsWith(a, "/") then a + b
    else a + "/" + b
  }

  /** `os.path.join(a, n1, n2, ...)` for entry names. */
  function JoinAll(a: string, names: seq<Name>): string
    decreases |names|
  {
    if |names| == 0 then a else Join(JoinAll(a, names[..|names| - 1]), names[|names| - 1])
  }

  /** `s.rfind(c) + 1`: where the text after the last `c` starts, or 0
    * when `s` holds no `c`. */
  function AfterLast(s: string, c: char): (i: nat)
    ensures i <= |s|
    ensures c !in s[i..]
    ensures i > 0 ==> s[i - 1] == c
    decreases |s|
  {
    if |s| == 0 || s[|s| - 1] == c then |s| else AfterLast(s[..|s| - 1], c)
  }

  /** The text after the last `c` starts right after that `c`. */
  lemma {:induction false} AfterLastAt(s: string, c: char, k: nat)
    requires k <= |s| && c !in s[k..]
    requires k == 0 || s[k - 1] == c
    ensures AfterLast(s, c) == k
    decreases |s|
  {
    if k < |s| {
      assert s[|s| - 1] in s[k..];
      assert s[..|s| - 1][k..] == s[k..|s| - 1];
      AfterLastAt(s[..|s| - 1], c, k);
    }
  }

  predicate AllSlashes(s: string) {
    forall k :: 0 <= k < |s| ==> s[k] == '/'
  }

  function RStripSlashes(s: string): (r: string)
    ensures StartsWith(s, r)
    ensures r == "" || r[|r| - 1] != '/'
    decreases |s|
  {
    if |s| > 0 && s[|s| - 1] == '/' then RStripSlashes(s[..|s| - 1]) else s
  }

  /** `os.path.basename(p)`: everything after the last separator. */
  function Basename(p: string): string {
    p[AfterLast(p, '/')..]
  }

  /** `os.path.dirname(p)`: everything up to the last separator, with
    * trailing separators removed unless nothing else is left. */
  function Dirname(p: string): string {
    var head := p[..AfterLast(p, '/')];
    if head != "" && !AllSlashes(head) then RStripSlashes(head) else head
  }

  /** The last component of a joined name is that name. */
  lemma BasenameJoin(a: string, n: Name)
    ensures Basename(Join(a, n)) == n
  {
    assert !IsAbs(n) by { assert n[0] in n; }
    var p := Join(a, n);
    var k := |p| - |n|;
    assert p[k..] == n;
    AfterLastAt(p, '/', k);
  }

  /** Removing the last component of a joined name gives the directory back,
    * when that directory is non-empty and has no trailing separator. */
  lemma DirnameJoin(a: string, n: Name)
    requires a != "" && !EndsWith(a, "/")
    ensures Dirname(Join(a, n)) == a
  {
    var p := Join(a, n);
    assert p == a + "/" + n;
    BasenameJoin(a, n);
    var t := AfterLast(p, '/');
    assert p[t..] == n;
    assert t == |a| + 1;
    var head := p[..t];
    assert head == a + "/";
    assert !AllSlashes(head) by { assert head[|a| - 1] != '/'; }
    assert RStripSlashes(head) == a;
  }

  /** A path joined from a non-empty directory without trailing separator
    * and some names is that directory, a separator, then the names. */
  lemma {:induction false} JoinAllExtends(a: string, names: seq<Name>)
    requires a != "" && !EndsWith(a, "/")
    ensures |names| > 0 ==> StartsWith(JoinAll(a, names), a + "/") && !EndsWith(JoinAll(a, names), "/")
    ensures |names| == 0 ==> JoinAll(a, names) == a
    decreases |names|
  {
    if |names| > 0 {
      var init := names[..|names| - 1];
      var n := names[|names| - 1];
      JoinAllExtends(a, init);
      var d := JoinAll(a, init);
      assert JoinAll(a, names) == Join(d, n);
      assert Join(d, n) == d + "/" + n;
      assert n[|n| - 1] in n;
    }
  }

  /** Taking `dirname` of a joined path drops its last name. */
  lemma DirnameJoinAll(a: string, names: seq<Name>)
    requires a != "" && !EndsWith(a, "/") && |names| > 0
    ensures Dirname(JoinAll(a, names)) == JoinAll(a, names[..|names| - 1])
  {
    var init := names[..|names| - 1];
    JoinAllExtends(a, init);
    DirnameJoin(JoinAll(a, init), names[|names| - 1]);
  }

  /** What `RStripSlashes` removes is separators only. */
  lemma {:induction false} RStripSlashesRest(s: string)
    ensures AllSlashes(s[|RStripSlashes(s)|..])
    decreases |s|
  {
    if |s| > 0 && s[|s| - 1] == '/' {
      var t := s[..|s| - 1];
      RStripSlashesRest(t);
      var r := RStripSlashes(t);
      assert s[|r|..] == t[|r|..] + "/";
    }
  }

  /** The directory of an absolute path is absolute. */
  lemma DirnameAbs(p: string)
    requires IsAbs(p)
    ensures IsAbs(Dirname(p))
  {
    var t := AfterLast(p, '/');
    assert p[0..][0] == '/';
    var head := p[..t];
    assert head[0] == '/';
    if !AllSlashes(head) {
      RStripSlashesRest(head);
      var r := RStripSlashes(head);
      assert head[0..] == head;
      assert r[0] == head[0];
    }
  }
}
