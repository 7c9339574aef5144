/** Occurrences of one sequence inside another.

    Readers are described by functions of the whole input and a position; what stands at a position is said by At, and
    these lemmas take such statements apart. */
module Sequences {

  /** `p` occurs in `s` at position `i`. */
  ghost predicate At<T>(s: seq<T>, i: nat, p: seq<T>) {
    i + |p| <= |s| && s[i..i + |p|] == p
  }

  lemma AtSplit<T>(s: seq<T>, i: nat, a: seq<T>, b: seq<T>)
    ensures At(s, i, a + b) <==> At(s, i, a) && At(s, i + |a|, b)
  {
    var n := i + |a|;
    if n + |b| <= |s| {
      assert s[i..n + |b|] == s[i..n] + s[n..n + |b|];
      if s[i..n + |b|] == a + b {
        assert s[i..n] == s[i..n + |b|][..|a|];
        assert s[n..n + |b|] == s[i..n + |b|][|a|..];
      }
    }
  }

  lemma AtIndex<T>(s: seq<T>, i: nat, p: seq<T>, k: nat)
    requires At(s, i, p) && k < |p|
    ensures i + |p| <= |s| && s[i + k] == p[k]
  {
    assert s[i..i + |p|][k] == s[i + k];
  }

  lemma AtSlice<T>(s: seq<T>, i: nat, p: seq<T>)
    requires At(s, i, p)
    ensures i + |p| <= |s| && s[i..i + |p|] == p
  {
  }

  lemma AtBound<T>(s: seq<T>, i: nat, p: seq<T>)
    requires At(s, i, p)
    ensures i + |p| <= |s|
  {
  }

  lemma AtPrefix<T>(s: seq<T>, k: nat, i: nat, p: seq<T>)
    requires At(s, i, p) && i + |p| <= k <= |s|
    ensures At(s[..k], i, p)
  {
    assert s[..k][i..i + |p|] == s[i..i + |p|];
  }

  lemma AtWhole<T>(s: seq<T>)
    ensures At(s, 0, s)
  {
    assert s[0..|s|] == s;
  }

  lemma AtMiddle<T>(a: seq<T>, b: seq<T>, c: seq<T>)
    ensures At(a + b + c, |a|, b)
  {
    assert (a + b + c)[|a|..|a| + |b|] == b;
  }
}
