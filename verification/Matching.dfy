/** First-fit pairing of two sequences: entries of `ds` are taken in order, each crossing off an equal entry of `cs`. */
module Matching {

  /** The entries of `cs` not yet crossed off. */
  ghost function Left<T>(matched: seq<bool>, cs: seq<T>): multiset<T>
    requires |matched| == |cs|
  {
    if cs == [] then multiset{}
    else
      var n := |cs| - 1;
      Left(matched[..n], cs[..n]) + if matched[n] then multiset{} else multiset{cs[n]}
  }

  ghost function Prefix<T>(ds: seq<T>, j: nat): multiset<T>
    requires j <= |ds|
  {
    if j == 0 then multiset{} else Prefix(ds, j - 1) + multiset{ds[j - 1]}
  }

  /** The first `j` entries of `ds` are paired off with the crossed-off entries of `cs`. */
  ghost predicate Paired<T>(matched: seq<bool>, cs: seq<T>, ds: seq<T>, j: nat)
    requires |matched| == |cs| && j <= |ds|
  {
    Left(matched, cs) + Prefix(ds, j) == multiset(cs)
  }

  lemma {:induction false} PrefixIsTaken<T>(ds: seq<T>, j: nat)
    requires j <= |ds|
    ensures Prefix(ds, j) == multiset(ds[..j])
  {
    if j > 0 {
      PrefixIsTaken(ds, j - 1);
      assert ds[..j] == ds[..j - 1] + [ds[j - 1]];
    }
  }

  lemma {:induction false} LeftAtStart<T>(matched: seq<bool>, cs: seq<T>)
    requires |matched| == |cs| && forall i :: 0 <= i < |cs| ==> !matched[i]
    ensures Left(matched, cs) == multiset(cs)
  {
    if cs != [] {
      LeftAtStart(matched[..|cs| - 1], cs[..|cs| - 1]);
      assert cs == cs[..|cs| - 1] + [cs[|cs| - 1]];
    }
  }

  lemma {:induction false} LeftAfterTake<T>(matched: seq<bool>, cs: seq<T>, i: nat)
    requires |matched| == |cs| && i < |cs| && !matched[i]
    ensures Left(matched, cs) == Left(matched[i := true], cs) + multiset{cs[i]}
  {
    var n := |cs| - 1;
    if i == n {
      assert matched[i := true][..n] == matched[..n];
    } else {
      LeftAfterTake(matched[..n], cs[..n], i);
      assert matched[i := true][..n] == matched[..n][i := true];
    }
  }

  lemma {:induction false} NotLeft<T>(matched: seq<bool>, cs: seq<T>, c: T)
    requires |matched| == |cs| && forall i :: 0 <= i < |cs| && !matched[i] ==> cs[i] != c
    ensures c !in Left(matched, cs)
  {
    if cs != [] {
      NotLeft(matched[..|cs| - 1], cs[..|cs| - 1], c);
    }
  }

  lemma PairedAtStart<T>(matched: seq<bool>, cs: seq<T>, ds: seq<T>)
    requires |matched| == |cs| && forall i :: 0 <= i < |cs| ==> !matched[i]
    ensures Paired(matched, cs, ds, 0)
  {
    LeftAtStart(matched, cs);
  }

  lemma PairedAfterTake<T>(matched: seq<bool>, cs: seq<T>, ds: seq<T>, j: nat, i: nat)
    requires |matched| == |cs| && j < |ds| && Paired(matched, cs, ds, j)
    requires i < |cs| && !matched[i] && cs[i] == ds[j]
    ensures Paired(matched[i := true], cs, ds, j + 1)
  {
    LeftAfterTake(matched, cs, i);
  }

  /** When the next entry finds no partner, no pairing of all entries exists. */
  lemma PairedIsStuck<T>(matched: seq<bool>, cs: seq<T>, ds: seq<T>, j: nat)
    requires |matched| == |cs| && j < |ds| && Paired(matched, cs, ds, j)
    requires forall i :: 0 <= i < |cs| && !matched[i] ==> cs[i] != ds[j]
    ensures multiset(cs) != multiset(ds)
  {
    NotLeft(matched, cs, ds[j]);
    PrefixIsTaken(ds, j);
    assert ds == ds[..j] + ([ds[j]] + ds[j + 1..]);
    assert multiset(ds) == multiset(ds[..j]) + (multiset{ds[j]} + multiset(ds[j + 1..]));
    assert multiset(cs)[ds[j]] == multiset(ds[..j])[ds[j]];
  }

  lemma PairedAtEnd<T>(matched: seq<bool>, cs: seq<T>, ds: seq<T>)
    requires |matched| == |cs| == |ds| && Paired(matched, cs, ds, |ds|)
    ensures multiset(cs) == multiset(ds)
  {
    PrefixIsTaken(ds, |ds|);
    assert ds[..|ds|] == ds;
    assert |Left(matched, cs)| + |multiset(ds)| == |multiset(cs)|;
  }
}
