/** Helpers shared by the environments: `relpath`, which turns a path into
  * one relative to the filesystem root by dropping its leading separators. */
module Util {
  import opened Text
  import PosixPath

  /** The path with all of its leading separators removed. */
  function Relative(path: string): (r: string)
    ensures !StartsWith(r, "/")
    ensures !StartsWith(path, "/") ==> r == path
    decreases |path|
  {
    if StartsWith(path, "/") then Relative(path[1..]) else path
  }

  /** What `Relative` removes is a run of separators at the front, and
    * nothing else. */
  lemma {:induction false} RelativeDropsSlashes(path: string)
    ensures var r := Relative(path);
      |r| <= |path| && path[|path| - |r|..] == r && PosixPath.AllSlashes(path[..|path| - |r|])
    decreases |path|
  {
    if StartsWith(path, "/") {
      RelativeDropsSlashes(path[1..]);
      var r := Relative(path[1..]);
      assert path[1..][|path| - 1 - |r|..] == path[|path| - |r|..];
      var h := path[..|path| - |r|];
      var t := path[1..][..|path| - 1 - |r|];
      assert PosixPath.AllSlashes(t);
      assert h[0] == path[0] == '/' by { assert "/" <= path; }
      forall k | 1 <= k < |h| ensures h[k] == '/' {
        assert h[k] == t[k - 1];
      }
    }
  }

  /** A path is its own `relpath` exactly when it does not start with a
    * separator. */
  lemma RelativeFixed(path: string)
    ensures Relative(path) == path <==> !StartsWith(path, "/")
  {
  }

  /** `relpath`: strip separators off the front until none is left. */
  method RelPath(path: string) returns (r: string)
    ensures r == Relative(path)
    ensures Relative(r) == r
  {
    r := path;
    while StartsWith(r, "/")
      invariant Relative(r) == Relative(path)
      decreases |r|
    {
      r := r[1..];
    }
  }
}
