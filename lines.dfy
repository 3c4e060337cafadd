/** The three shapes the recipes' line filters take. Each filter reads the
  * lines of a file and yields the chunks written back to it, in order:
  * one chunk per line, the lines that pass a test, or any number of chunks
  * per line. A chunk without a trailing newline runs on into the next one
  * in the rewritten file. */
module Lines {

  /** `[f(x) for x in xs]`, and `for ln in lines: yield f(ln)` */
  function MapAll<A, B>(xs: seq<A>, f: A -> B): (r: seq<B>)
    ensures |r| == |xs|
    ensures forall i :: 0 <= i < |xs| ==> r[i] == f(xs[i])
  {
    seq(|xs|, i requires 0 <= i < |xs| => f(xs[i]))
  }

  /** Mapping one more element appends its image. */
  lemma MapAllSnoc<A, B>(xs: seq<A>, f: A -> B, k: nat)
    requires k < |xs|
    ensures MapAll(xs[..k + 1], f) == MapAll(xs[..k], f) + [f(xs[k])]
  {
  }

  /** Mapping a list with one more element at its end appends its image. */
  lemma MapAllPush<A, B>(xs: seq<A>, f: A -> B, x: A)
    ensures MapAll(xs + [x], f) == MapAll(xs, f) + [f(x)]
  {
  }

  lemma ConcatAssoc<T>(a: seq<T>, b: seq<T>, c: seq<T>)
    ensures a + b + c == a + (b + c)
  {
  }

  /** `for ln in lines: if keep(ln): yield ln` */
  function KeepLines(lines: seq<string>, keep: string -> bool): (r: seq<string>)
    ensures |r| <= |lines|
    ensures forall x :: x in r <==> x in lines && keep(x)
    decreases |lines|
  {
    if |lines| == 0 then []
    else
      var rest := KeepLines(lines[1..], keep);
      assert forall x :: x in lines <==> x == lines[0] || x in lines[1..];
      (if keep(lines[0]) then [lines[0]] else []) + rest
  }

  /** Filtering a concatenation filters each part. */
  lemma {:induction false} KeepLinesAppend(a: seq<string>, b: seq<string>, keep: string -> bool)
    ensures KeepLines(a + b, keep) == KeepLines(a, keep) + KeepLines(b, keep)
    decreases |a|
  {
    if |a| > 0 {
      assert (a + b)[1..] == a[1..] + b;
      KeepLinesAppend(a[1..], b, keep);
    } else {
      assert a + b == b;
    }
  }

  /** A filter whose test every line passes gives the file back unchanged. */
  lemma {:induction false} KeepLinesAll(lines: seq<string>, keep: string -> bool)
    requires forall i :: 0 <= i < |lines| ==> keep(lines[i])
    ensures KeepLines(lines, keep) == lines
    decreases |lines|
  {
    if |lines| > 0 {
      KeepLinesAll(lines[1..], keep);
    }
  }

  /** `for ln in lines: yield from f(ln)` */
  function FlatMap(lines: seq<string>, f: string -> seq<string>): seq<string>
    decreases |lines|
  {
    if |lines| == 0 then [] else f(lines[0]) + FlatMap(lines[1..], f)
  }

  /** Rewriting a concatenation rewrites each part. */
  lemma {:induction false} FlatMapAppend(a: seq<string>, b: seq<string>, f: string -> seq<string>)
    ensures FlatMap(a + b, f) == FlatMap(a, f) + FlatMap(b, f)
    decreases |a|
  {
    if |a| > 0 {
      assert (a + b)[1..] == a[1..] + b;
      FlatMapAppend(a[1..], b, f);
    } else {
      assert a + b == b;
    }
  }

  /** A rewrite that passes every line of the file through unchanged gives
    * the file back. */
  lemma {:induction false} FlatMapIdentity(lines: seq<string>, f: string -> seq<string>)
    requires forall i :: 0 <= i < |lines| ==> f(lines[i]) == [lines[i]]
    ensures FlatMap(lines, f) == lines
    decreases |lines|
  {
    if |lines| > 0 {
      FlatMapIdentity(lines[1..], f);
    }
  }

  /** A rewrite that drops the lines `drop` picks and turns every other line
    * into exactly one chunk yields one chunk per line it does not drop. */
  lemma {:induction false} FlatMapCount(lines: seq<string>, f: string -> seq<string>, drop: string -> bool)
    requires forall x :: |f(x)| == if drop(x) then 0 else 1
    ensures |FlatMap(lines, f)| + |KeepLines(lines, drop)| == |lines|
    decreases |lines|
  {
    if |lines| > 0 {
      FlatMapCount(lines[1..], f, drop);
    }
  }

  /** A rewrite that turns each line into itself plus `k` more chunks when
    * `pick` holds of it, and into one chunk otherwise, grows the file by `k`
    * chunks per picked line. */
  lemma {:induction false} FlatMapGrows(lines: seq<string>, f: string -> seq<string>, pick: string -> bool, k: nat)
    requires forall x :: |f(x)| == if pick(x) then 1 + k else 1
    ensures |FlatMap(lines, f)| == |lines| + k * |KeepLines(lines, pick)|
    decreases |lines|
  {
    if |lines| > 0 {
      FlatMapGrows(lines[1..], f, pick, k);
      var rest := KeepLines(lines[1..], pick);
      var m := |rest|;
      assert |FlatMap(lines, f)| == |f(lines[0])| + |FlatMap(lines[1..], f)|;
      if pick(lines[0]) {
        assert KeepLines(lines, pick) == [lines[0]] + rest;
        assert k * (m + 1) == k * m + k;
      } else {
        assert KeepLines(lines, pick) == [] + rest;
      }
    }
  }
}
