/** Order-preserving selection on sequences, used to state "keeps the relative order". */
module Sequences {

  /** `xs` can be obtained from `ys` by deleting elements, without reordering the rest. */
  predicate Subsequence<T(==)>(xs: seq<T>, ys: seq<T>)
    decreases |ys|
  {
    if xs == [] then true
    else if ys == [] then false
    else (xs[|xs| - 1] == ys[|ys| - 1] && Subsequence(xs[..|xs| - 1], ys[..|ys| - 1]))
         || Subsequence(xs, ys[..|ys| - 1])
  }

  /** A subsequence only holds elements of the sequence it was taken from. */
  lemma {:induction false} SubsequenceMembers<T>(xs: seq<T>, ys: seq<T>)
    requires Subsequence(xs, ys)
    ensures forall x :: x in xs ==> x in ys
    ensures |xs| <= |ys|
    decreases |ys|
  {
    if xs == [] {
    } else if xs[|xs| - 1] == ys[|ys| - 1] && Subsequence(xs[..|xs| - 1], ys[..|ys| - 1]) {
      SubsequenceMembers(xs[..|xs| - 1], ys[..|ys| - 1]);
      assert xs == xs[..|xs| - 1] + [xs[|xs| - 1]];
      assert ys == ys[..|ys| - 1] + [ys[|ys| - 1]];
    } else {
      SubsequenceMembers(xs, ys[..|ys| - 1]);
      assert ys == ys[..|ys| - 1] + [ys[|ys| - 1]];
    }
  }

  /** No element occurs twice. */
  predicate Distinct<T(==)>(xs: seq<T>) {
    forall i, j :: 0 <= i < j < |xs| ==> xs[i] != xs[j]
  }

  /** A subsequence of a sequence is also a subsequence of it with one more element in front. */
  lemma {:induction false} SubsequencePrepend<T>(xs: seq<T>, ys: seq<T>, y: T)
    requires Subsequence(xs, ys)
    ensures Subsequence(xs, [y] + ys)
    decreases |ys|
  {
    var zs := [y] + ys;
    if xs != [] {
      if ys == [] {
      } else {
        assert zs[..|zs| - 1] == [y] + ys[..|ys| - 1];
        assert zs[|zs| - 1] == ys[|ys| - 1];
        if xs[|xs| - 1] == ys[|ys| - 1] && Subsequence(xs[..|xs| - 1], ys[..|ys| - 1]) {
          SubsequencePrepend(xs[..|xs| - 1], ys[..|ys| - 1], y);
        } else {
          SubsequencePrepend(xs, ys[..|ys| - 1], y);
        }
      }
    }
  }

  /** Putting the same element in front of both keeps a subsequence a subsequence. */
  lemma {:induction false} ConsSubsequence<T>(xs: seq<T>, ys: seq<T>, y: T)
    requires Subsequence(xs, ys)
    ensures Subsequence([y] + xs, [y] + ys)
    decreases |ys|
  {
    var xs', ys' := [y] + xs, [y] + ys;
    if xs == [] {
      if ys != [] {
        assert ys'[..|ys'| - 1] == [y] + ys[..|ys| - 1];
        ConsSubsequence(xs, ys[..|ys| - 1], y);
      }
    } else {
      assert ys != [];
      assert xs'[..|xs'| - 1] == [y] + xs[..|xs| - 1];
      assert ys'[..|ys'| - 1] == [y] + ys[..|ys| - 1];
      if xs[|xs| - 1] == ys[|ys| - 1] && Subsequence(xs[..|xs| - 1], ys[..|ys| - 1]) {
        ConsSubsequence(xs[..|xs| - 1], ys[..|ys| - 1], y);
      } else {
        ConsSubsequence(xs, ys[..|ys| - 1], y);
      }
    }
  }

  /** Taking a subsequence of a subsequence gives a subsequence. */
  lemma {:induction false} SubsequenceTransitive<T>(xs: seq<T>, ys: seq<T>, zs: seq<T>)
    requires Subsequence(xs, ys) && Subsequence(ys, zs)
    ensures Subsequence(xs, zs)
    decreases |zs|
  {
    if xs == [] {
    } else if ys == [] {
    } else if ys[|ys| - 1] == zs[|zs| - 1] && Subsequence(ys[..|ys| - 1], zs[..|zs| - 1]) {
      if xs[|xs| - 1] == ys[|ys| - 1] && Subsequence(xs[..|xs| - 1], ys[..|ys| - 1]) {
        SubsequenceTransitive(xs[..|xs| - 1], ys[..|ys| - 1], zs[..|zs| - 1]);
      } else {
        SubsequenceTransitive(xs, ys[..|ys| - 1], zs[..|zs| - 1]);
      }
    } else {
      SubsequenceTransitive(xs, ys, zs[..|zs| - 1]);
    }
  }
}
