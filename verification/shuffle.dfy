/**
 * `random.shuffle(items)`, the Fisher-Yates shuffle of Python's standard
 * library: for `i` from `len(items) - 1` down to 1 it draws
 * `j = randbelow(i + 1)` and swaps `items[i]` and `items[j]`. The random
 * draws are a parameter: `draws[i]` is the index drawn at the step for `i`.
 */
module Shuffle {

  /** The draws a random source can produce: the draw for position `i` lies in `[0, i]`. */
  predicate ValidDraws(draws: seq<nat>) {
    forall i :: 0 <= i < |draws| ==> draws[i] <= i
  }

  function Swap<T>(s: seq<T>, i: nat, j: nat): (r: seq<T>)
    requires i < |s| && j < |s|
    ensures |r| == |s| && multiset(r) == multiset(s)
  {
    s[i := s[j]][j := s[i]]
  }

  /**
   * The steps of the shuffle for positions `i`, `i - 1`, ..., 1, applied to
   * `s`. Each step swaps two elements, so the result is a permutation of `s`.
   */
  function ShuffleDown<T>(s: seq<T>, draws: seq<nat>, i: int): (r: seq<T>)
    requires i < |s| && |draws| == |s| && ValidDraws(draws)
    ensures |r| == |s| && multiset(r) == multiset(s)
    decreases i
  {
    if i <= 0 then s else ShuffleDown(Swap(s, i, draws[i]), draws, i - 1)
  }

  /**
   * The list `random.shuffle` leaves when its random source yields `draws`:
   * a permutation of `s`, and `s` itself when every draw picks its own
   * position.
   */
  function Shuffled<T>(s: seq<T>, draws: seq<nat>): (r: seq<T>)
    requires |draws| == |s| && ValidDraws(draws)
    ensures |r| == |s| && multiset(r) == multiset(s)
    ensures IdentityDraws(draws) ==> r == s
  {
    ShuffleDownFixedDraws(s, draws, |s| - 1);
    ShuffleDown(s, draws, |s| - 1)
  }

  /** Draws that pick, at each step, the position itself. */
  predicate IdentityDraws(draws: seq<nat>) {
    forall k :: 0 <= k < |draws| ==> draws[k] == k
  }

  /** Draws that pick each position itself leave every element where it was. */
  lemma {:induction false} ShuffleDownFixedDraws<T>(s: seq<T>, draws: seq<nat>, i: int)
    requires i < |s| && |draws| == |s| && ValidDraws(draws)
    ensures IdentityDraws(draws) ==> ShuffleDown(s, draws, i) == s
    decreases i
  {
    if i > 0 && IdentityDraws(draws) {
      assert draws[i] == i;
      assert Swap(s, i, i) == s;
      ShuffleDownFixedDraws(s, draws, i - 1);
    }
  }
}
