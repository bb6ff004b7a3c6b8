/** Rearrangements of sequences, and their agreement with multiset equality. */
module Permutations {
  import opened Sequences

  /** `p` lists every index below `n` exactly once. */
  ghost predicate IsPermutation(p: seq<int>, n: nat) {
    && |p| == n
    && (forall i :: 0 <= i < n ==> 0 <= p[i] < n)
    && (forall i, j :: 0 <= i < j < n ==> p[i] != p[j])
  }

  /** `ys` is `xs` in the order given by `p`. */
  ghost predicate Rearranges<T(!new)>(p: seq<int>, xs: seq<T>, ys: seq<T>) {
    && IsPermutation(p, |xs|)
    && |ys| == |xs|
    && forall i :: 0 <= i < |ys| ==> ys[i] == xs[p[i]]
  }

  lemma RemovedMultiset<T>(xs: seq<T>, k: nat)
    requires k < |xs|
    ensures multiset(xs) == multiset(Removed(xs, k)) + multiset{xs[k]}
  {
    assert xs == xs[..k] + [xs[k]] + xs[k + 1..];
  }

  /** Leaving out the last entry of a rearrangement leaves out the entry of `xs` it came from. */
  lemma DropLast<T(!new)>(p: seq<int>, xs: seq<T>, ys: seq<T>) returns (q: seq<int>)
    requires Rearranges(p, xs, ys) && ys != []
    ensures Rearranges(q, Removed(xs, p[|ys| - 1]), ys[..|ys| - 1])
  {
    var last := |ys| - 1;
    var k := p[last];
    q := seq(last, i requires 0 <= i < last => if p[i] < k then p[i] else p[i] - 1);
    assert IsPermutation(q, last);
    assert forall i :: 0 <= i < last ==> ys[i] == xs[p[i]] == Removed(xs, k)[q[i]];
  }

  lemma {:induction false} RearrangedIsSameMultiset<T(!new)>(p: seq<int>, xs: seq<T>, ys: seq<T>)
    requires Rearranges(p, xs, ys)
    ensures multiset(xs) == multiset(ys)
    decreases |ys|
  {
    if ys != [] {
      var last := |ys| - 1;
      var q := DropLast(p, xs, ys);
      RearrangedIsSameMultiset(q, Removed(xs, p[last]), ys[..last]);
      RemovedMultiset(xs, p[last]);
      assert ys == ys[..last] + [ys[last]];
    }
  }

  /** A rearrangement of all but entry `k` extends to one that puts entry `k` last. */
  lemma PutLast<T(!new)>(p: seq<int>, xs: seq<T>, k: nat, ys: seq<T>) returns (q: seq<int>)
    requires k < |xs| && Rearranges(p, Removed(xs, k), ys)
    ensures Rearranges(q, xs, ys + [xs[k]])
  {
    q := seq(|p|, i requires 0 <= i < |p| => if p[i] < k then p[i] else p[i] + 1) + [k];
    assert forall i :: 0 <= i < |ys| ==> Removed(xs, k)[p[i]] == xs[q[i]];
  }

  lemma {:induction false} SameMultisetIsRearranged<T(!new)>(xs: seq<T>, ys: seq<T>) returns (p: seq<int>)
    requires multiset(xs) == multiset(ys)
    ensures Rearranges(p, xs, ys)
    decreases |ys|
  {
    assert |multiset(xs)| == |multiset(ys)|;
    if ys == [] {
      p := [];
    } else {
      var last := |ys| - 1;
      assert ys == ys[..last] + [ys[last]];
      assert ys[last] in multiset(xs);
      var k :| 0 <= k < |xs| && xs[k] == ys[last];
      RemovedMultiset(xs, k);
      assert multiset(Removed(xs, k)) == multiset(ys) - multiset{ys[last]} == multiset(ys[..last]);
      p := SameMultisetIsRearranged(Removed(xs, k), ys[..last]);
      p := PutLast(p, xs, k, ys[..last]);
    }
  }
}
