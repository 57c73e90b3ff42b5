/** Order-preserving sub-sequences, used to state that a filtering loop keeps
    the relative order of what it keeps. */
module Seqs {

  /** `idx` picks, in strictly increasing positions of `b`, the elements of `a`. */
  ghost predicate OrderedEmbedding<T>(a: seq<T>, b: seq<T>, idx: seq<nat>)
  {
    && |idx| == |a|
    && (forall k :: 0 <= k < |idx| ==> idx[k] < |b| && b[idx[k]] == a[k])
    && (forall k, l :: 0 <= k < l < |idx| ==> idx[k] < idx[l])
  }

  /** `a` is `b` with some elements left out and the rest kept in order. */
  ghost predicate IsSubsequence<T>(a: seq<T>, b: seq<T>)
  {
    exists idx: seq<nat> :: OrderedEmbedding(a, b, idx)
  }

  /** Extending `b` keeps every embedding into it; extending both by the same
      element extends the embedding. */
  lemma SubsequenceSnoc<T>(a: seq<T>, b: seq<T>, x: T, keep: bool, a': seq<T>, b': seq<T>)
    requires IsSubsequence(a, b)
    requires a' == (if keep then a + [x] else a) && b' == b + [x]
    ensures IsSubsequence(a', b')
  {
    var idx: seq<nat> :| OrderedEmbedding(a, b, idx);
    if keep {
      var idx' := idx + [|b|];
      assert OrderedEmbedding(a', b', idx');
    } else {
      assert OrderedEmbedding(a', b', idx);
    }
  }

  lemma EmptySubsequence<T>(b: seq<T>)
    ensures IsSubsequence([], b)
  {
    assert OrderedEmbedding([], b, []);
  }
}
