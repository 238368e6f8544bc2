/**
 * `Array.prototype.filter` over sequences, and the order-preserving
 * subsequence relation it establishes.
 */
module Seqs {

  /** `xs.filter(keep)`: the elements satisfying `keep`, in their original order. */
  function Filter<X>(xs: seq<X>, keep: X -> bool): (r: seq<X>)
    ensures |r| <= |xs|
    ensures forall i :: 0 <= i < |r| ==> r[i] in xs && keep(r[i])
    ensures forall i :: 0 <= i < |xs| && keep(xs[i]) ==> xs[i] in r
  {
    if xs == [] then []
    else (if keep(xs[0]) then [xs[0]] else []) + Filter(xs[1..], keep)
  }

  /**
   * `idx` picks, in strictly increasing positions of `b`, the elements of `a`
   * one by one.
   */
  ghost predicate Embedding<X>(idx: seq<nat>, a: seq<X>, b: seq<X>)
  {
    && |idx| == |a|
    && (forall i :: 0 <= i < |idx| ==> idx[i] < |b| && a[i] == b[idx[i]])
    && (forall i, j :: 0 <= i < j < |idx| ==> idx[i] < idx[j])
  }

  /** `a` is obtained from `b` by dropping elements, without reordering the rest. */
  ghost predicate IsSubsequence<X>(a: seq<X>, b: seq<X>)
  {
    exists idx :: Embedding(idx, a, b)
  }

  /** Each position moved one place to the right. */
  function Shift(idx: seq<nat>): (r: seq<nat>)
    ensures |r| == |idx|
    ensures forall i :: 0 <= i < |idx| ==> r[i] == idx[i] + 1
  {
    seq(|idx|, i requires 0 <= i < |idx| => idx[i] + 1)
  }

  /** An embedding into the tail of `b` is one into `b`, and extends by `b[0]` at position 0. */
  lemma EmbeddingCons<X>(idx: seq<nat>, a: seq<X>, b: seq<X>)
    requires b != [] && Embedding(idx, a, b[1..])
    ensures Embedding(Shift(idx), a, b)
    ensures Embedding([0] + Shift(idx), [b[0]] + a, b)
  {
  }

  /** The positions at which `Filter` keeps elements witness that order is preserved. */
  lemma {:induction false} FilterIsSubsequence<X>(xs: seq<X>, keep: X -> bool)
    ensures IsSubsequence(Filter(xs, keep), xs)
  {
    if xs == [] {
      assert Embedding([], Filter(xs, keep), xs);
    } else {
      FilterIsSubsequence(xs[1..], keep);
      var rest := Filter(xs[1..], keep);
      var idx :| Embedding(idx, rest, xs[1..]);
      EmbeddingCons(idx, rest, xs);
      if keep(xs[0]) {
        assert Filter(xs, keep) == [xs[0]] + rest;
      } else {
        assert Filter(xs, keep) == rest;
      }
    }
  }

  /** When every element is kept, the filter returns its input. */
  lemma {:induction false} FilterAllKept<X>(xs: seq<X>, keep: X -> bool)
    requires forall i :: 0 <= i < |xs| ==> keep(xs[i])
    ensures Filter(xs, keep) == xs
  {
    if xs != [] {
      FilterAllKept(xs[1..], keep);
      assert [xs[0]] + xs[1..] == xs;
    }
  }

  /** Two predicates that agree on the elements give the same result. */
  lemma {:induction false} FilterAgreeing<X>(xs: seq<X>, k1: X -> bool, k2: X -> bool)
    requires forall i :: 0 <= i < |xs| ==> k1(xs[i]) == k2(xs[i])
    ensures Filter(xs, k1) == Filter(xs, k2)
  {
    if xs != [] {
      FilterAgreeing(xs[1..], k1, k2);
    }
  }
}
