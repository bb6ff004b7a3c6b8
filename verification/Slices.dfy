/** Appending part of a slice onto another part of the same backing array, as the repositories splice stub lists. */
module Slices {

  /** `append(s[:i+1], s[i:]...)`: within the capacity the tail moves one place up in the same array. */
  method Widen<T>(a: array<T>, n: nat, i: nat) returns (b: array<T>)
    requires i < n <= a.Length
    modifies a
    ensures n + 1 <= b.Length && b[..n + 1] == old(a[..i + 1]) + old(a[i..n])
    ensures b == a || fresh(b)
  {
    if n == a.Length {
      b := new T[n + 1](k requires 0 <= k <= n reads a => if k <= i then a[k] else a[k - 1]);
      return;
    }
    b := a;
    var k := n;
    while k > i + 1
      invariant i < k <= n
      invariant forall j :: 0 <= j <= k && j < n ==> a[j] == old(a[j])
      invariant forall j :: k < j <= n ==> a[j] == old(a[j - 1])
    {
      a[k] := a[k - 1];
      k := k - 1;
    }
    a[k] := a[k - 1];
  }

  /** `append(s[:i], s[i+1:]...)`: the tail moves one place down; the array keeps a stale last element. */
  method Narrow<T>(a: array<T>, n: nat, i: nat)
    requires i < n <= a.Length
    modifies a
    ensures a[..n - 1] == old(a[..i]) + old(a[i + 1..n])
  {
    for k := i to n - 1
      invariant forall j :: 0 <= j < i ==> a[j] == old(a[j])
      invariant forall j :: i <= j < k ==> a[j] == old(a[j + 1])
      invariant forall j :: k <= j < n ==> a[j] == old(a[j])
    {
      a[k] := a[k + 1];
    }
  }

  /** A slice of some capacity. */
  method Slice<T>(s: seq<T>, filler: T) returns (a: array<T>)
    ensures fresh(a) && |s| <= a.Length && a[..|s|] == s
  {
    var spare :| spare >= 0;
    a := new T[|s| + spare](k => if 0 <= k < |s| then s[k] else filler);
  }

  /** Insertion by widening at `i` and then overwriting place `i`: what was there is kept one place on. */
  method Insert<T>(s: seq<T>, i: nat, x: T) returns (r: seq<T>)
    requires i < |s|
    ensures r == s[..i] + [x] + s[i..]
  {
    var a := Slice(s, x);
    assert a[..i + 1] == s[..i + 1] && a[i..|s|] == s[i..];
    var b := Widen(a, |s|, i);
    b[i] := x;
    r := b[..|s| + 1];
  }

  method Delete<T>(s: seq<T>, i: nat) returns (r: seq<T>)
    requires i < |s|
    ensures r == s[..i] + s[i + 1..]
  {
    var a := Slice(s, s[i]);
    assert a[..i] == s[..i] && a[i + 1..|s|] == s[i + 1..];
    Narrow(a, |s|, i);
    r := a[..|s| - 1];
  }
}
