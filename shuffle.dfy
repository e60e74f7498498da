/**
 * The in-place Fisher-Yates shuffle of `App.shuffle`. The random source is
 * replaced by the draws it would produce: draw k is the index `j` picked at the
 * k-th step, the step that handles position `i = n - 1 - k`, so `0 <= j <= i`.
 */
module Shuffling {

  /** One draw per swap step, each inside the range `Math.floor(Math.random() * (i + 1))` can produce. */
  predicate ValidDraws(n: nat, js: seq<nat>) {
    && |js| == (if n <= 1 then 0 else n - 1)
    && forall k :: 0 <= k < |js| ==> js[k] <= n - 1 - k
  }

  /** `s` with the elements at `i` and `j` exchanged. */
  function Swap<T>(s: seq<T>, i: nat, j: nat): (r: seq<T>)
    requires i < |s| && j < |s|
    ensures |r| == |s|
  {
    s[i := s[j]][j := s[i]]
  }

  /** A swap exchanges the two positions, leaves every other one alone, and keeps the multiset of elements. */
  lemma SwapProperties<T>(s: seq<T>, i: nat, j: nat)
    requires i < |s| && j < |s|
    ensures Swap(s, i, j)[i] == s[j] && Swap(s, i, j)[j] == s[i]
    ensures forall p :: 0 <= p < |s| && p != i && p != j ==> Swap(s, i, j)[p] == s[p]
    ensures multiset(Swap(s, i, j)) == multiset(s)
  {
  }

  /** The steps of the loop from position `i` down to position 1; the step at `i` uses draw `|s| - 1 - i`. */
  function ShuffleFrom<T>(s: seq<T>, i: int, js: seq<nat>): (r: seq<T>)
    requires -1 <= i < |s| && ValidDraws(|s|, js)
    ensures |r| == |s|
    decreases i
  {
    if i <= 0 then s
    else ShuffleFrom(Swap(s, i, js[|s| - 1 - i]), i - 1, js)
  }

  /** What `shuffle` leaves in an array that held `s` when the random source yields `js`. */
  function Shuffled<T>(s: seq<T>, js: seq<nat>): (r: seq<T>)
    requires ValidDraws(|s|, js)
    ensures |r| == |s|
  {
    ShuffleFrom(s, |s| - 1, js)
  }

  /** The steps only exchange elements: the result is a permutation of the input. */
  lemma {:induction false} ShuffleFromPermutes<T>(s: seq<T>, i: int, js: seq<nat>)
    requires -1 <= i < |s| && ValidDraws(|s|, js)
    ensures multiset(ShuffleFrom(s, i, js)) == multiset(s)
    decreases i
  {
    if i > 0 {
      SwapProperties(s, i, js[|s| - 1 - i]);
      ShuffleFromPermutes(Swap(s, i, js[|s| - 1 - i]), i - 1, js);
    }
  }

  /** Positions above `i` are never touched by the remaining steps. */
  lemma {:induction false} ShuffleFromKeepsTail<T>(s: seq<T>, i: int, js: seq<nat>, p: nat)
    requires -1 <= i < |s| && ValidDraws(|s|, js)
    requires i < p < |s|
    ensures ShuffleFrom(s, i, js)[p] == s[p]
    decreases i
  {
    if i > 0 {
      SwapProperties(s, i, js[|s| - 1 - i]);
      ShuffleFromKeepsTail(Swap(s, i, js[|s| - 1 - i]), i - 1, js, p);
    }
  }

  /** `Shuffled` is a permutation of its input. */
  lemma ShuffledPermutes<T>(s: seq<T>, js: seq<nat>)
    requires ValidDraws(|s|, js)
    ensures multiset(Shuffled(s, js)) == multiset(s)
  {
    ShuffleFromPermutes(s, |s| - 1, js);
  }

  /**
   * The Fisher-Yates property of each step: the element drawn at the step for
   * position `n - 1 - k` stays there, so the last position holds `s[js[0]]`.
   */
  lemma ShuffledLast<T>(s: seq<T>, js: seq<nat>)
    requires ValidDraws(|s|, js)
    requires |s| >= 2
    ensures Shuffled(s, js)[|s| - 1] == s[js[0]]
  {
    var n := |s|;
    var t := Swap(s, n - 1, js[0]);
    SwapProperties(s, n - 1, js[0]);
    if n > 2 {
      ShuffleFromKeepsTail(t, n - 2, js, n - 1);
    }
  }

  /** `shuffle(arr)`: for i from the last index down to 1, exchange `arr[i]` and `arr[j]`. */
  method Shuffle<T>(a: array<T>, js: seq<nat>)
    requires ValidDraws(a.Length, js)
    modifies a
    ensures a[..] == Shuffled(old(a[..]), js)
    ensures multiset(a[..]) == multiset(old(a[..]))
  {
    ghost var target := Shuffled(a[..], js);
    ShuffledPermutes(a[..], js);
    var i := a.Length - 1;
    while i > 0
      invariant -1 <= i < a.Length
      invariant ShuffleFrom(a[..], i, js) == target
      decreases i
    {
      ghost var before := a[..];
      var j := js[a.Length - 1 - i];
      a[i], a[j] := a[j], a[i];
      assert a[..] == Swap(before, i, j);
      i := i - 1;
    }
  }
}
