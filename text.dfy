/** The handful of Python string operations the tool relies on (`startswith`,
  * `endswith`, `in`, `find`, `replace`, `strip`, `split`, `join`), on strings
  * as sequences of characters. */
module Text {
  import opened Wrappers

  /** `s.startswith(p)` */
  predicate StartsWith(s: string, p: string) {
    p <= s
  }

  /** `s.endswith(p)` */
  predicate EndsWith(s: string, p: string) {
    |p| <= |s| && s[|s| - |p|..] == p
  }

  /** `s[i:]` for a non-negative `i`: empty once `i` passes the end. */
  function Drop(s: string, i: nat): string {
    if i <= |s| then s[i..] else ""
  }

  /** `s.find(p)`: the index of the first occurrence of `p` in `s`, if any. */
  function Find(s: string, p: string): (r: Option<nat>)
    ensures r.Some? ==> r.value + |p| <= |s| && StartsWith(s[r.value..], p)
    ensures r.Some? ==> forall j :: 0 <= j < r.value ==> !StartsWith(s[j..], p)
    ensures r.None? ==> forall j :: 0 <= j <= |s| ==> !StartsWith(s[j..], p)
    decreases |s|
  {
    if StartsWith(s, p) then Some(0)
    else if |s| == 0 then None
    else
      var rest := Find(s[1..], p);
      assert forall j :: 1 <= j <= |s| ==> s[1..][j - 1..] == s[j..];
      if rest.Some? then Some(rest.value + 1) else None
  }

  /** `p in s` */
  predicate Contains(s: string, p: string) {
    Find(s, p).Some?
  }

  lemma ContainsAt(s: string, p: string, i: nat)
    requires i + |p| <= |s| && s[i..i + |p|] == p
    ensures Contains(s, p)
  {
    assert StartsWith(s[i..], p);
  }

  /** A pattern holding a character the string lacks does not occur in it. */
  lemma NotContainsChar(s: string, p: string, c: char)
    requires c in p && c !in s
    ensures !Contains(s, p)
  {
    var k :| 0 <= k < |p| && p[k] == c;
    forall j | 0 <= j && j + |p| <= |s| ensures !StartsWith(s[j..], p) {
      assert s[j..][k] == s[j + k];
    }
  }

  lemma ContainsInPrefix(s: string, t: string, p: string)
    requires Contains(s, p)
    ensures Contains(s + t, p)
  {
    var i := Find(s, p).value;
    assert (s + t)[i..i + |p|] == s[i..][..|p|];
    ContainsAt(s + t, p, i);
  }

  /** `s.replace(pat, rep)`: every non-overlapping occurrence of `pat`, taken
    * from left to right, is replaced by `rep`. */
  function ReplaceAll(s: string, pat: string, rep: string): string
    requires |pat| > 0
    decreases |s|
  {
    if |s| == 0 then ""
    else if StartsWith(s, pat) then rep + ReplaceAll(s[|pat|..], pat, rep)
    else [s[0]] + ReplaceAll(s[1..], pat, rep)
  }

  /** A string without the pattern comes back from `replace` unchanged. */
  lemma {:induction false} ReplaceAllAbsent(s: string, pat: string, rep: string)
    requires |pat| > 0 && !Contains(s, pat)
    ensures ReplaceAll(s, pat, rep) == s
    decreases |s|
  {
    if |s| > 0 {
      assert s[0..] == s;
      assert forall j :: 0 <= j <= |s| - 1 ==> s[1..][j..] == s[j + 1..];
      ReplaceAllAbsent(s[1..], pat, rep);
    }
  }

  /** Replacing a pattern by one of the same length keeps the length. */
  lemma {:induction false} ReplaceAllLength(s: string, pat: string, rep: string)
    requires |pat| > 0 && |rep| == |pat|
    ensures |ReplaceAll(s, pat, rep)| == |s|
    decreases |s|
  {
    if |s| > 0 {
      if StartsWith(s, pat) {
        ReplaceAllLength(s[|pat|..], pat, rep);
      } else {
        ReplaceAllLength(s[1..], pat, rep);
      }
    }
  }

  /** An occurrence of `p` in a string that follows `t`. */
  lemma ContainsInSuffix(t: string, s: string, p: string)
    requires Contains(s, p)
    ensures Contains(t + s, p)
  {
    var i := Find(s, p).value;
    assert (t + s)[|t| + i..|t| + i + |p|] == s[i..][..|p|];
    ContainsAt(t + s, p, |t| + i);
  }

  /** A pattern longer than the head that starts the joined string goes on
    * into the tail with its own rest. */
  lemma StartsWithAcross(s: string, t: string, pat: string)
    requires |s| < |pat| <= |s| + |t|
    ensures StartsWith(s + t, pat) ==> StartsWith(t, pat[|s|..])
  {
    var st := s + t;
    if StartsWith(st, pat) {
      assert st[|s|..|pat|] == t[..|pat| - |s|];
    }
  }

  /** `replace` on a string followed by a tail that neither holds the
    * pattern nor starts with the rest of it works on the head alone. */
  lemma {:induction false} ReplaceAllConcat(s: string, t: string, pat: string, rep: string)
    requires |pat| > 0 && !Contains(t, pat)
    requires forall k :: 0 < k < |pat| ==> !StartsWith(t, pat[k..])
    ensures ReplaceAll(s + t, pat, rep) == ReplaceAll(s, pat, rep) + t
    decreases |s|
  {
    var st := s + t;
    if |s| == 0 {
      assert st == t;
      ReplaceAllAbsent(t, pat, rep);
    } else {
      if |s| < |pat| <= |st| {
        StartsWithAcross(s, t, pat);
      }
      if StartsWith(st, pat) {
        assert st[..|pat|] == s[..|pat|] && st[|pat|..] == s[|pat|..] + t;
        ReplaceAllConcat(s[|pat|..], t, pat, rep);
      } else {
        assert |s| >= |pat| ==> st[..|pat|] == s[..|pat|];
        assert st[1..] == s[1..] + t;
        ReplaceAllConcat(s[1..], t, pat, rep);
      }
    }
  }

  /** `replace` on a string followed by a tail that starts with a character
    * the pattern lacks and lacks a character the pattern has works on the
    * head alone. */
  lemma ReplaceAllTail(s: string, t: string, pat: string, rep: string, c: char)
    requires |pat| > 0 && |t| > 0 && t[0] !in pat && c in pat && c !in t
    ensures ReplaceAll(s + t, pat, rep) == ReplaceAll(s, pat, rep) + t
  {
    NotContainsChar(t, pat, c);
    forall k | 0 < k < |pat| ensures !StartsWith(t, pat[k..]) {
      assert pat[k..][0] == pat[k] && pat[k] in pat;
    }
    ReplaceAllConcat(s, t, pat, rep);
  }

  /** `replace` after a head that lacks the pattern's first character
    * works on the rest alone. */
  lemma {:induction false} ReplaceAllPrefix(p: string, s: string, pat: string, rep: string)
    requires |pat| > 0 && pat[0] !in p
    ensures ReplaceAll(p + s, pat, rep) == p + ReplaceAll(s, pat, rep)
    decreases |p|
  {
    if |p| == 0 {
      assert p + s == s;
    } else {
      var ps := p + s;
      assert ps[0] == p[0] && ps[1..] == p[1..] + s;
      ReplaceAllPrefix(p[1..], s, pat, rep);
    }
  }

  /** Deleting a pattern never lengthens a string, and deletes at least one
    * whole occurrence from a string that holds it. */
  lemma {:induction false} ReplaceAllDeletes(s: string, pat: string)
    requires |pat| > 0
    ensures |ReplaceAll(s, pat, "")| <= |s|
    ensures Contains(s, pat) ==> |ReplaceAll(s, pat, "")| + |pat| <= |s|
    decreases |s|
  {
    if |s| > 0 {
      if StartsWith(s, pat) {
        ReplaceAllDeletes(s[|pat|..], pat);
        assert ReplaceAll(s, pat, "") == "" + ReplaceAll(s[|pat|..], pat, "");
      } else {
        ReplaceAllDeletes(s[1..], pat);
        assert ReplaceAll(s, pat, "") == [s[0]] + ReplaceAll(s[1..], pat, "");
        if Contains(s, pat) {
          assert Contains(s[1..], pat) by {
            var v := Find(s, pat).value;
            assert v > 0 by { assert s[0..] == s; }
            assert s[1..][v - 1..v - 1 + |pat|] == s[v..][..|pat|];
            ContainsAt(s[1..], pat, v - 1);
          }
        }
      }
    }
  }

  /** After `replace`, a string that held the pattern holds the replacement. */
  lemma {:induction false} ReplaceAllIntroduces(s: string, pat: string, rep: string)
    requires |pat| > 0 && Contains(s, pat)
    ensures Contains(ReplaceAll(s, pat, rep), rep)
    decreases |s|
  {
    if StartsWith(s, pat) {
      ContainsAt(rep, rep, 0);
      ContainsInPrefix(rep, ReplaceAll(s[|pat|..], pat, rep), rep);
    } else {
      var v := Find(s, pat).value;
      assert v > 0 by { assert s[0..] == s; }
      assert s[1..][v - 1..v - 1 + |pat|] == s[v..][..|pat|];
      ContainsAt(s[1..], pat, v - 1);
      ReplaceAllIntroduces(s[1..], pat, rep);
      ContainsInSuffix([s[0]], ReplaceAll(s[1..], pat, rep), rep);
    }
  }

  /** Replacing a three-character pattern by one that agrees with it on its
    * first two characters keeps the length and those leading characters. */
  lemma {:induction false} ReplaceAllHead(s: string, pat: string, rep: string)
    requires |pat| == 3 && |rep| == 3 && rep[..2] == pat[..2]
    ensures |ReplaceAll(s, pat, rep)| == |s|
    ensures |s| >= 1 ==> ReplaceAll(s, pat, rep)[0] == s[0]
    ensures |s| >= 2 ==> ReplaceAll(s, pat, rep)[1] == s[1]
    decreases |s|
  {
    ReplaceAllLength(s, pat, rep);
    if |s| > 0 && !StartsWith(s, pat) {
      ReplaceAllHead(s[1..], pat, rep);
    }
  }

  /** With `a b c` replaced by `a b d`, any `a b e` left in the result stood
    * at the same place in the input, and is not the pattern itself. */
  lemma {:induction false} ReplaceAllOccurs(s: string, pat: string, rep: string, q: string, i: nat)
    requires |pat| == 3 && |rep| == 3 && |q| == 3
    requires rep[..2] == pat[..2] && q[..2] == pat[..2]
    requires pat[0] != pat[1] && rep[2] != pat[0] && q[2] != rep[2]
    requires i + 3 <= |ReplaceAll(s, pat, rep)| && ReplaceAll(s, pat, rep)[i..i + 3] == q
    ensures i + 3 <= |s| && s[i..i + 3] == q && q != pat
    decreases |s|, 1
  {
    ReplaceAllHead(s, pat, rep);
    if StartsWith(s, pat) {
      OccursAfterMatch(s, pat, rep, q, i);
    } else {
      OccursAfterCopy(s, pat, rep, q, i);
    }
  }

  /** `ReplaceAllOccurs` where the input starts with the pattern. */
  lemma {:induction false} OccursAfterMatch(s: string, pat: string, rep: string, q: string, i: nat)
    requires |pat| == 3 && |rep| == 3 && |q| == 3
    requires rep[..2] == pat[..2] && q[..2] == pat[..2]
    requires pat[0] != pat[1] && rep[2] != pat[0] && q[2] != rep[2]
    requires StartsWith(s, pat) && |ReplaceAll(s, pat, rep)| == |s|
    requires i + 3 <= |s| && ReplaceAll(s, pat, rep)[i..i + 3] == q
    ensures s[i..i + 3] == q && q != pat
    decreases |s|, 0
  {
    var u := ReplaceAll(s[3..], pat, rep);
    var t := rep + u;
    assert ReplaceAll(s, pat, rep) == t;
    assert t[0] == pat[0] && t[1] == pat[1] && t[2] == rep[2];
    if i >= 3 {
      assert u[i - 3..i] == q;
      ReplaceAllOccurs(s[3..], pat, rep, q, i - 3);
      assert s[3..][i - 3..i] == s[i..i + 3];
    }
  }

  /** `ReplaceAllOccurs` where the input does not start with the pattern. */
  lemma {:induction false} OccursAfterCopy(s: string, pat: string, rep: string, q: string, i: nat)
    requires |pat| == 3 && |rep| == 3 && |q| == 3
    requires rep[..2] == pat[..2] && q[..2] == pat[..2]
    requires pat[0] != pat[1] && rep[2] != pat[0] && q[2] != rep[2]
    requires |s| > 0 && !StartsWith(s, pat) && |ReplaceAll(s, pat, rep)| == |s|
    requires i + 3 <= |s| && ReplaceAll(s, pat, rep)[i..i + 3] == q
    ensures s[i..i + 3] == q && q != pat
    decreases |s|, 0
  {
    var u := ReplaceAll(s[1..], pat, rep);
    var t := [s[0]] + u;
    assert ReplaceAll(s, pat, rep) == t;
    ReplaceAllHead(s[1..], pat, rep);
    if i == 0 {
      assert t[1] == u[0] == s[1];
      assert t[2] == u[1] == s[2];
      assert s[..3] == q;
      assert s[..|pat|] != pat;
    } else {
      assert u[i - 1..i + 2] == q;
      ReplaceAllOccurs(s[1..], pat, rep, q, i - 1);
      assert s[1..][i - 1..i + 2] == s[i..i + 3];
    }
  }

  /** Replacing `a b c` by `a b d` leaves no `a b c` behind, and creates no
    * `a b e` the input did not already hold. */
  lemma ReplaceAllClears(s: string, pat: string, rep: string, q: string)
    requires |pat| == 3 && |rep| == 3 && |q| == 3
    requires rep[..2] == pat[..2] && q[..2] == pat[..2]
    requires pat[0] != pat[1] && rep[2] != pat[0] && q[2] != rep[2]
    ensures Contains(ReplaceAll(s, pat, rep), q) ==> q != pat && Contains(s, q)
  {
    var t := ReplaceAll(s, pat, rep);
    if Contains(t, q) {
      var i := Find(t, q).value;
      assert t[i..i + 3] == t[i..][..3];
      ReplaceAllOccurs(s, pat, rep, q, i);
      ContainsAt(s, q, i);
    }
  }

  /** The whitespace `str.strip()` and `str.split()` remove. */
  predicate IsSpace(c: char) {
    c == ' ' || '\t' <= c <= '\r'
  }

  predicate NoSpace(s: string) {
    forall k :: 0 <= k < |s| ==> !IsSpace(s[k])
  }

  /** How far `s` is indented: the length of its leading whitespace. */
  function Indent(s: string): (k: nat)
    ensures k <= |s| && (k == |s| || !IsSpace(s[k]))
    ensures forall j :: 0 <= j < k ==> IsSpace(s[j])
    decreases |s|
  {
    if |s| > 0 && IsSpace(s[0]) then 1 + Indent(s[1..]) else 0
  }

  /** The length of `s` without its trailing whitespace. */
  function TrimmedLength(s: string): (k: nat)
    ensures k <= |s| && (k == 0 || !IsSpace(s[k - 1]))
    ensures forall j :: k <= j < |s| ==> IsSpace(s[j])
    decreases |s|
  {
    if |s| > 0 && IsSpace(s[|s| - 1]) then TrimmedLength(s[..|s| - 1]) else |s|
  }

  /** `s.lstrip()` */
  function LStrip(s: string): string {
    s[Indent(s)..]
  }

  /** `s.rstrip()` */
  function RStrip(s: string): string {
    s[..TrimmedLength(s)]
  }

  /** `s.strip()` */
  function Strip(s: string): string {
    LStrip(RStrip(s))
  }

  /** Stripping a line that starts with a word whose ends are not
    * whitespace leaves that word at its start. */
  lemma StripKeepsHead(s: string, h: string)
    requires |h| > 0 && StartsWith(s, h) && !IsSpace(h[0]) && !IsSpace(h[|h| - 1])
    ensures StartsWith(Strip(s), h)
  {
    var r := RStrip(s);
    assert s[|h| - 1] == h[|h| - 1];
    assert |r| >= |h|;
    assert r[..|h|] == s[..|h|];
    assert r[0] == h[0];
    assert Indent(r) == 0;
  }

  /** A line holds what stripping it leaves. */
  lemma ContainsStrip(s: string)
    ensures Contains(s, Strip(s))
  {
    var t := TrimmedLength(s);
    var r := RStrip(s);
    var i := Indent(r);
    assert Strip(s) == s[i..t];
    ContainsAt(s, Strip(s), i);
  }

  /** `" " * n` */
  function Spaces(n: nat): (r: string)
    ensures |r| == n && forall k :: 0 <= k < n ==> r[k] == ' '
  {
    seq(n, _ => ' ')
  }

  /** A line whose first `k` characters are whitespace and whose next one
    * is not is indented by `k`. */
  lemma IndentAt(s: string, k: nat)
    requires k < |s| && !IsSpace(s[k])
    requires forall j :: 0 <= j < k ==> IsSpace(s[j])
    ensures Indent(s) == k
  {
  }

  /** The first match of a pattern that starts with a non-space character,
    * in a line that holds it right after `k` whitespace characters, is at
    * `k`. */
  lemma FindAfterSpaces(s: string, p: string, k: nat)
    requires |p| > 0 && !IsSpace(p[0]) && k + |p| <= |s| && s[k..k + |p|] == p
    requires forall j :: 0 <= j < k ==> IsSpace(s[j])
    ensures Find(s, p) == Some(k)
  {
    ContainsAt(s, p, k);
    var v := Find(s, p).value;
    assert StartsWith(s[k..], p) by { assert s[k..][..|p|] == s[k..k + |p|]; }
  }

  /** `s.index(p)` for a `p` that the stripped line starts with: the match is
    * found right after the indentation. */
  lemma FindAtIndent(s: string, p: string)
    requires |p| > 0 && StartsWith(Strip(s), p)
    ensures Find(s, p) == Some(Indent(s))
  {
    var t := TrimmedLength(s);
    var r := RStrip(s);
    var k := Indent(r);
    assert Strip(s) == s[k..t];
    assert s[k] == p[0];
    assert s[k..k + |p|] == p;
    assert forall j :: 0 <= j < k ==> IsSpace(s[j]) by {
      forall j | 0 <= j < k ensures IsSpace(s[j]) { assert s[j] == r[j]; }
    }
    FindAfterSpaces(s, p, k);
    IndentAt(s, k);
  }

  /** The leading run of non-space characters of `s`. */
  function Word(s: string): (w: string)
    ensures StartsWith(s, w) && NoSpace(w)
    ensures |w| == |s| || IsSpace(s[|w|])
    decreases |s|
  {
    if |s| == 0 || IsSpace(s[0]) then "" else [s[0]] + Word(s[1..])
  }

  /** `s.split()`: the maximal runs of non-space characters, in order. */
  function Words(s: string): (ws: seq<string>)
    ensures forall x :: x in ws ==> |x| > 0 && NoSpace(x)
    decreases |s|
  {
    var t := LStrip(s);
    if |t| == 0 then []
    else
      var w := Word(t);
      assert |w| > 0 by { assert !IsSpace(t[0]); }
      var rest := Words(t[|w|..]);
      [w] + rest
  }

  /** A line holding a pattern that starts with a non-space character has
    * at least one word. */
  lemma WordsOfContaining(s: string, p: string)
    requires |p| > 0 && !IsSpace(p[0]) && Contains(s, p)
    ensures |Words(s)| > 0
  {
    var i := Find(s, p).value;
    assert s[i] == p[0];
    assert Indent(s) <= i;
  }

  /** The index of the first `c` in `s`. */
  function IndexOf(s: string, c: char): (i: nat)
    requires c in s
    ensures i < |s| && s[i] == c && c !in s[..i]
  {
    if s[0] == c then 0
    else
      assert c in s[1..] by { assert s == [s[0]] + s[1..]; }
      var k := IndexOf(s[1..], c);
      assert s[..k + 1] == [s[0]] + s[1..][..k];
      k + 1
  }

  /** The first `c` is the one with no `c` before it. */
  lemma {:induction false} IndexOfAt(s: string, c: char, j: nat)
    requires j < |s| && s[j] == c && c !in s[..j]
    ensures IndexOf(s, c) == j
    decreases j
  {
    if j > 0 {
      assert s[..j][0] == s[0];
      assert s[1..][j - 1] == c && s[1..][..j - 1] == s[1..j];
      assert forall x :: x in s[1..j] ==> x in s[..j];
      IndexOfAt(s[1..], c, j - 1);
    }
  }

  /** `s.split(c)` for a one-character separator. */
  function SplitOn(s: string, c: char): (parts: seq<string>)
    ensures |parts| > 0
    ensures forall i :: 0 <= i < |parts| ==> c !in parts[i]
    decreases |s|
  {
    if c !in s then [s]
    else
      var i := IndexOf(s, c);
      [s[..i]] + SplitOn(s[i + 1..], c)
  }

  /** `sep.join(parts)` */
  function JoinWith(sep: string, parts: seq<string>): string {
    if |parts| == 0 then ""
    else if |parts| == 1 then parts[0]
    else parts[0] + sep + JoinWith(sep, parts[1..])
  }

  /** Two lists of parts without `c` make one. */
  lemma PartsFreeConcat(a: seq<string>, b: seq<string>, c: char)
    requires forall i :: 0 <= i < |a| ==> c !in a[i]
    requires forall i :: 0 <= i < |b| ==> c !in b[i]
    ensures forall i :: 0 <= i < |a + b| ==> c !in (a + b)[i]
  {
    forall i | 0 <= i < |a + b| ensures c !in (a + b)[i] {
      if i >= |a| { assert (a + b)[i] == b[i - |a|]; }
    }
  }

  /** Splitting a joined list on the separator gives the list back, when no
    * part holds the separator. */
  lemma {:induction false} SplitJoin(parts: seq<string>, c: char)
    requires |parts| > 0
    requires forall i :: 0 <= i < |parts| ==> c !in parts[i]
    ensures SplitOn(JoinWith([c], parts), c) == parts
    decreases |parts|
  {
    if |parts| > 1 {
      var s := JoinWith([c], parts);
      var p0 := parts[0];
      assert s == p0 + [c] + JoinWith([c], parts[1..]);
      assert s[|p0|] == c;
      assert s[..|p0|] == p0;
      var i := IndexOf(s, c);
      assert i == |p0|;
      assert s[i + 1..] == JoinWith([c], parts[1..]);
      SplitJoin(parts[1..], c);
    } else {
      assert parts == [parts[0]];
    }
  }

  /** Joining the parts of a split with the separator gives the string back. */
  lemma {:induction false} JoinSplit(s: string, c: char)
    ensures JoinWith([c], SplitOn(s, c)) == s
    decreases |s|
  {
    if c in s {
      var i := IndexOf(s, c);
      var rest := SplitOn(s[i + 1..], c);
      JoinSplit(s[i + 1..], c);
      assert SplitOn(s, c) == [s[..i]] + rest;
      assert s == s[..i] + [c] + s[i + 1..];
    }
  }

  /** Joining two non-empty lists puts one separator between their joins. */
  lemma {:induction false} JoinWithAppend(sep: string, a: seq<string>, b: seq<string>)
    requires |a| > 0 && |b| > 0
    ensures JoinWith(sep, a + b) == JoinWith(sep, a) + sep + JoinWith(sep, b)
    decreases |a|
  {
    var ab := a + b;
    assert ab[0] == a[0];
    if |a| > 1 {
      assert ab[1..] == a[1..] + b;
      JoinWithAppend(sep, a[1..], b);
    } else {
      assert ab[1..] == b;
    }
  }

  /** Joining a list with a head puts one separator after the head. */
  lemma JoinWithCons(sep: string, x: string, rest: seq<string>)
    requires |rest| > 0
    ensures JoinWith(sep, [x] + rest) == x + sep + JoinWith(sep, rest)
  {
    assert ([x] + rest)[1..] == rest;
  }
}
