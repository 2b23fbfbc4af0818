/**
 * shuffleArray (script.js): the Fisher-Yates shuffle. `Math.random` is replaced by a
 * sequence of draws: the step at position i swaps with `draws[i] % (i + 1)`, which
 * ranges over every index in 0..i, exactly the range of `Math.floor(Math.random() * (i + 1))`.
 */
module Shuffle {

  /** The partner index for the step at position i; a missing draw means "no swap". */
  function Draw(draws: seq<nat>, i: nat): (j: nat)
    ensures j <= i
  {
    if i < |draws| then draws[i] % (i + 1) else i
  }

  /** `[array[i], array[j]] = [array[j], array[i]]` on a sequence. */
  function Swap<T>(a: seq<T>, i: nat, j: nat): (r: seq<T>)
    requires i < |a| && j < |a|
    ensures |r| == |a| && r[i] == a[j] && r[j] == a[i]
    ensures forall k :: 0 <= k < |a| && k != i && k != j ==> r[k] == a[k]
  {
    a[i := a[j]][j := a[i]]
  }

  /** The loop body run for positions i, i-1, ..., 1. */
  function ShuffleDown<T>(a: seq<T>, draws: seq<nat>, i: nat): (r: seq<T>)
    requires i < |a|
    ensures |r| == |a|
    decreases i
  {
    if i == 0 then a else ShuffleDown(Swap(a, i, Draw(draws, i)), draws, i - 1)
  }

  /** The whole shuffle: the loop starts at `array.length - 1` and stops before 0. */
  function Shuffled<T>(a: seq<T>, draws: seq<nat>): (r: seq<T>)
    ensures |r| == |a|
  {
    if |a| == 0 then a else ShuffleDown(a, draws, |a| - 1)
  }

  /** shuffleArray, written as the source's descending loop. */
  method ShuffleArray<T>(a: seq<T>, draws: seq<nat>) returns (r: seq<T>)
    ensures |r| == |a| && multiset(r) == multiset(a)
    ensures r == Shuffled(a, draws)
  {
    r := a;
    if |a| == 0 {
      return;
    }
    var i := |a| - 1;
    while i > 0
      invariant 0 <= i < |r| == |a|
      invariant ShuffleDown(r, draws, i) == Shuffled(a, draws)
    {
      r := Swap(r, i, Draw(draws, i));
      i := i - 1;
    }
    ShuffledPermutes(a, draws);
  }

  /** A swap exchanges two elements and so keeps the multiset. */
  lemma SwapPermutes<T>(a: seq<T>, i: nat, j: nat)
    requires i < |a| && j < |a|
    ensures multiset(Swap(a, i, j)) == multiset(a)
  {
  }

  /** The shuffle loop is a sequence of swaps: a permutation of its input. */
  lemma {:induction false} ShuffleDownPermutes<T>(a: seq<T>, draws: seq<nat>, i: nat)
    requires i < |a|
    ensures multiset(ShuffleDown(a, draws, i)) == multiset(a)
    decreases i
  {
    if i > 0 {
      var b := Swap(a, i, Draw(draws, i));
      SwapPermutes(a, i, Draw(draws, i));
      ShuffleDownPermutes(b, draws, i - 1);
    }
  }

  lemma ShuffledPermutes<T>(a: seq<T>, draws: seq<nat>)
    ensures multiset(Shuffled(a, draws)) == multiset(a)
  {
    if |a| > 0 {
      ShuffleDownPermutes(a, draws, |a| - 1);
    }
  }

  /**
   * When every draw picks its own position (as happens when a draw is missing),
   * no element moves.
   */
  lemma {:induction false} ShuffleDownIdentity<T>(a: seq<T>, draws: seq<nat>, i: nat)
    requires i < |a|
    requires forall k :: 0 < k <= i ==> Draw(draws, k) == k
    ensures ShuffleDown(a, draws, i) == a
    decreases i
  {
    if i > 0 {
      assert Swap(a, i, i) == a;
      ShuffleDownIdentity(a, draws, i - 1);
    }
  }

  /** Without draws the shuffle returns its input unchanged. */
  lemma ShuffleWithoutDraws<T>(a: seq<T>)
    ensures Shuffled(a, []) == a
  {
    if |a| > 0 {
      ShuffleDownIdentity(a, [], |a| - 1);
    }
  }

  /** Any element of the result came from the input, and conversely. */
  lemma ShuffledSameElements<T>(a: seq<T>, draws: seq<nat>, x: T)
    ensures x in Shuffled(a, draws) <==> x in a
  {
    var r := Shuffled(a, draws);
    ShuffledPermutes(a, draws);
    assert x in r <==> x in multiset(r);
    assert x in a <==> x in multiset(a);
  }
}
