/**
 * shuffleArray: the Fisher-Yates shuffle, in place, with the random index of
 * each iteration drawn from a supplied sequence of Math.random() values.
 */
module Shuffle {
  import opened Random

  /** The destructuring swap `[arr[i], arr[j]] = [arr[j], arr[i]]`. */
  function Swap<T>(s: seq<T>, i: nat, j: nat): (r: seq<T>)
    requires i < |s| && j < |s|
    ensures |r| == |s| && r[i] == s[j] && r[j] == s[i]
    ensures forall k :: 0 <= k < |s| && k != i && k != j ==> r[k] == s[k]
  {
    s[i := s[j]][j := s[i]]
  }

  lemma SwapPermutes<T>(s: seq<T>, i: nat, j: nat)
    requires i < |s| && j < |s|
    ensures multiset(Swap(s, i, j)) == multiset(s)
  {
  }

  /**
   * The iterations i, i - 1, ..., 1 of the shuffle loop; iteration k swaps
   * position k with Math.floor(Math.random() * (k + 1)), drawn from us[k - 1].
   */
  function ShuffleDown<T>(s: seq<T>, us: seq<Unit>, i: nat): (r: seq<T>)
    requires i < |s| && i <= |us|
    ensures |r| == |s|
    decreases i
  {
    if i == 0 then s
    else ShuffleDown(Swap(s, i, RandomIndex(i + 1, us[i - 1])), us, i - 1)
  }

  /** The whole shuffle of s. */
  function Shuffled<T>(s: seq<T>, us: seq<Unit>): (r: seq<T>)
    requires |s| <= |us| + 1
    ensures |r| == |s|
  {
    if |s| == 0 then s else ShuffleDown(s, us, |s| - 1)
  }

  lemma {:induction false} ShuffleDownPermutes<T>(s: seq<T>, us: seq<Unit>, i: nat)
    requires i < |s| && i <= |us|
    ensures multiset(ShuffleDown(s, us, i)) == multiset(s)
    decreases i
  {
    if i > 0 {
      var j := RandomIndex(i + 1, us[i - 1]);
      SwapPermutes(s, i, j);
      ShuffleDownPermutes(Swap(s, i, j), us, i - 1);
    }
  }

  /** The shuffle is a permutation: every element is kept, as often as it occurs. */
  lemma ShuffledPermutes<T>(s: seq<T>, us: seq<Unit>)
    requires |s| <= |us| + 1
    ensures multiset(Shuffled(s, us)) == multiset(s)
  {
    if |s| > 0 {
      ShuffleDownPermutes(s, us, |s| - 1);
    }
  }

  method ShuffleArray<T>(a: array<T>, us: seq<Unit>)
    requires a.Length <= |us| + 1
    modifies a
    ensures a[..] == Shuffled(old(a[..]), us)
    ensures multiset(a[..]) == multiset(old(a[..]))
  {
    ShuffledPermutes(a[..], us);
    if a.Length == 0 {
      return;
    }
    var i := a.Length - 1;
    assert Shuffled(a[..], us) == ShuffleDown(a[..], us, i);
    while i > 0
      invariant 0 <= i < a.Length
      invariant ShuffleDown(a[..], us, i) == Shuffled(old(a[..]), us)
      decreases i
    {
      var j := RandomIndex(i + 1, us[i - 1]);
      ghost var before := a[..];
      var t := a[i];
      a[i] := a[j];
      a[j] := t;
      ghost var swapped := Swap(before, i, j);
      assert forall k :: 0 <= k < a.Length ==> a[k] == swapped[k];
      assert a[..] == swapped;
      i := i - 1;
    }
  }

  /** The positions 0 .. n - 1 in order, as Array.from(cells) lists the grid cells. */
  function Indices(n: nat): (s: seq<nat>)
    ensures |s| == n && forall k :: 0 <= k < n ==> s[k] == k
  {
    seq(n, k => k)
  }

  /** A shuffled list of the n positions names only positions, and every one of them. */
  lemma ShuffledIndices(n: nat, us: seq<Unit>)
    requires n <= |us| + 1
    ensures |Shuffled<nat>(Indices(n), us)| == n
    ensures forall k :: 0 <= k < n ==> Shuffled<nat>(Indices(n), us)[k] < n
    ensures forall c :: 0 <= c < n ==> c in Shuffled<nat>(Indices(n), us)
  {
    var ix := Indices(n);
    var o := Shuffled<nat>(ix, us);
    ShuffledPermutes<nat>(ix, us);
    SameElements(o, ix);
    if n > 0 {
      assert o == ShuffleDown<nat>(ix, us, n - 1);
      ShuffleDownBelow(ix, us, n - 1, n);
    }
    forall c | 0 <= c < n
      ensures c in o
    {
      assert ix[c] == c;
    }
  }

  lemma {:induction false} ShuffleDownBelow(s: seq<nat>, us: seq<Unit>, i: nat, n: nat)
    requires i < |s| && i <= |us|
    requires forall k :: 0 <= k < |s| ==> s[k] < n
    ensures forall k :: 0 <= k < |s| ==> ShuffleDown<nat>(s, us, i)[k] < n
    decreases i
  {
    if i > 0 {
      var swapped := Swap<nat>(s, i, RandomIndex(i + 1, us[i - 1]));
      assert forall k :: 0 <= k < |swapped| ==> swapped[k] < n;
      ShuffleDownBelow(swapped, us, i - 1, n);
    }
  }

  lemma SameElements<T>(o: seq<T>, s: seq<T>)
    requires multiset(o) == multiset(s)
    ensures forall x :: x in o <==> x in s
  {
    forall x
      ensures x in o <==> x in s
    {
      assert x in o <==> x in multiset(o);
      assert x in s <==> x in multiset(s);
    }
  }
}
