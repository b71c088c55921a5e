/** Index permutations as numpy's fancy indexing uses them: argsort results,
    their reversal (`[::-1]`), gathering `a[p]`, and the inverse permutation
    that `inv[p] = arange(n)` builds. */
module Permutation {

  /** p lists every index in [0, n) exactly once. */
  predicate IsPermutation(p: seq<int>, n: nat)
  {
    && |p| == n
    && (forall k :: 0 <= k < n ==> 0 <= p[k] < n)
    && (forall j, k :: 0 <= j < k < n ==> p[j] != p[k])
    && (forall i :: 0 <= i < n ==> i in p)
  }

  /** p is an argsort of a: a permutation that lists a in ascending order. */
  predicate IsArgsort(a: seq<real>, p: seq<int>)
  {
    && IsPermutation(p, |a|)
    && forall k :: 0 <= k < |a| - 1 ==> a[p[k]] <= a[p[k + 1]]
  }

  /** p lists a in descending order. */
  predicate IsDescendingOrder(a: seq<real>, p: seq<int>)
  {
    && IsPermutation(p, |a|)
    && forall j, k :: 0 <= j < k < |a| ==> a[p[j]] >= a[p[k]]
  }

  /** s[::-1] */
  function Reverse(s: seq<int>): (r: seq<int>)
    ensures |r| == |s| && forall k :: 0 <= k < |s| ==> r[k] == s[|s| - 1 - k]
  {
    seq(|s|, k requires 0 <= k < |s| => s[|s| - 1 - k])
  }

  /** a[p] */
  function Gather(a: seq<real>, p: seq<int>): (r: seq<real>)
    requires forall k :: 0 <= k < |p| ==> 0 <= p[k] < |a|
    ensures |r| == |p| && forall k :: 0 <= k < |p| ==> r[k] == a[p[k]]
  {
    seq(|p|, k requires 0 <= k < |p| => a[p[k]])
  }

  /** The first position of i in p, or |p| when i does not occur. */
  function IndexOf(p: seq<int>, i: int): (k: nat)
    ensures k <= |p|
    ensures k < |p| ==> p[k] == i
    ensures k < |p| <==> i in p
    ensures forall q :: 0 <= q < k ==> p[q] != i
  {
    if p == [] then 0
    else if p[0] == i then 0
    else 1 + IndexOf(p[1..], i)
  }

  /** inv with inv[p[k]] == k for every k: numpy's `inv[p] = arange(n)`. */
  function Inverse(p: seq<int>): (inv: seq<int>)
    ensures |inv| == |p|
    ensures forall i :: 0 <= i < |p| ==> 0 <= inv[i] && (inv[i] < |p| <==> i in p)
  {
    seq(|p|, i requires 0 <= i < |p| => IndexOf(p, i))
  }

  /** The reversal of an ascending argsort lists the values in descending
      order. */
  lemma ReversedArgsortDescends(a: seq<real>, p: seq<int>)
    requires IsArgsort(a, p)
    ensures IsDescendingOrder(a, Reverse(p))
  {
    var n := |a|;
    var r := Reverse(p);
    forall i | 0 <= i < n ensures i in r {
      assert i in p;
      var k :| 0 <= k < n && p[k] == i;
      assert r[n - 1 - k] == i;
    }
    forall j, k | 0 <= j < k < n ensures a[r[j]] >= a[r[k]] {
      AscendingBetween(a, p, n - 1 - k, n - 1 - j);
    }
  }

  lemma AscendingBetween(a: seq<real>, p: seq<int>, j: nat, k: nat)
    requires IsArgsort(a, p) && j <= k < |a|
    ensures a[p[j]] <= a[p[k]]
    decreases k - j
  {
    if j < k { AscendingBetween(a, p, j + 1, k); }
  }

  /** The inverse of a permutation is a permutation that undoes it from both
      sides. */
  lemma InverseOfPermutation(p: seq<int>, n: nat)
    requires IsPermutation(p, n)
    ensures IsPermutation(Inverse(p), n)
    ensures forall k :: 0 <= k < n ==> Inverse(p)[p[k]] == k
    ensures forall i :: 0 <= i < n ==> p[Inverse(p)[i]] == i
  {
    var inv := Inverse(p);
    forall i | 0 <= i < n ensures 0 <= inv[i] < n && p[inv[i]] == i {
      assert i in p;
      var k :| 0 <= k < n && p[k] == i;
      assert IndexOf(p, i) <= k;
    }
    forall k | 0 <= k < n ensures inv[p[k]] == k {
      var q := inv[p[k]];
      assert p[q] == p[k];
    }
    forall i | 0 <= i < n ensures i in inv {
      assert inv[p[i]] == i;
    }
  }

  /** Gathering by a permutation and then by its inverse gives back the
      original sequence: sort, then unsort. */
  lemma GatherRoundTrip(a: seq<real>, p: seq<int>)
    requires IsPermutation(p, |a|)
    ensures Gather(Gather(a, p), Inverse(p)) == a
  {
    InverseOfPermutation(p, |a|);
    var b := Gather(Gather(a, p), Inverse(p));
    forall i | 0 <= i < |a| ensures b[i] == a[i] {
      assert b[i] == a[p[Inverse(p)[i]]];
    }
  }

  /** Under a descending order, a strictly larger value comes first. */
  lemma DescendingPositions(a: seq<real>, p: seq<int>, i: nat, j: nat)
    requires IsDescendingOrder(a, p) && i < |a| && j < |a| && a[i] > a[j]
    ensures Inverse(p)[i] < Inverse(p)[j]
  {
    InverseOfPermutation(p, |a|);
    var ki, kj := Inverse(p)[i], Inverse(p)[j];
    assert p[ki] == i && p[kj] == j;
    DescendingAt(a, p, kj, ki);
  }

  lemma DescendingAt(a: seq<real>, p: seq<int>, j: nat, k: nat)
    requires IsDescendingOrder(a, p) && j < |a| && k < |a|
    ensures j <= k ==> a[p[j]] >= a[p[k]]
  {
  }
}
