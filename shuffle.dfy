/**
 * The Fisher–Yates shuffle used for the flower list
 * (lib/random-choose-hana-name.ts) and for the provider order (lib/ai.ts).
 * Each source copies its input, then walks `i` from the last index down to
 * 1 and swaps position `i` with `j = Math.floor(Math.random() * (i + 1))`.
 *
 * `Math.random()` is an input here. `DrawIndex` shows that a draw in
 * [0, 1) yields an index in [0, i]; the shuffle itself takes those indices
 * as a sequence, draw number k belonging to the step at position
 * `|s| - 1 - k`.
 */
module Shuffle {
  /** `Math.random() * n`. */
  function Scaled(r: real, n: nat): real {
    r * n as real
  }

  /** A draw in [0, 1) scaled by n > 0 stays in [0, n). */
  lemma ScaledDrawBelow(r: real, n: nat)
    requires 0.0 <= r < 1.0 && n > 0
    ensures 0.0 <= Scaled(r, n) < n as real
  {
    assert r * n as real < 1.0 * n as real;
  }

  /** `Math.floor(r * (i + 1))`, which lies in [0, i]. */
  function DrawIndex(r: real, i: nat): (j: nat)
    requires 0.0 <= r < 1.0
    ensures j <= i
  {
    ScaledDrawBelow(r, i + 1);
    Scaled(r, i + 1).Floor
  }

  /** Indices a shuffle of `n` elements can draw: step `n - 1 - k` gets one in [0, n - 1 - k]. */
  predicate Draws(n: nat, js: seq<nat>) {
    n - 1 <= |js| && forall k :: 0 <= k < n - 1 ==> js[k] <= n - 1 - k
  }

  /**
   * The indices drawn by the loop over `n` elements from the values
   * `Math.random()` returned, in call order; they always satisfy `Draws`.
   */
  function IndicesFromRandoms(n: nat, randoms: seq<real>): (js: seq<nat>)
    requires n - 1 <= |randoms|
    requires forall k :: 0 <= k < |randoms| ==> 0.0 <= randoms[k] < 1.0
    ensures Draws(n, js)
  {
    if n <= 1 then []
    else seq(n - 1, k requires 0 <= k < n - 1 => DrawIndex(randoms[k], n - 1 - k))
  }

  /** `[s[i], s[j]] = [s[j], s[i]]`. */
  function Swap<T>(s: seq<T>, i: nat, j: nat): (r: seq<T>)
    requires i < |s| && j < |s|
    ensures |r| == |s|
  {
    s[i := s[j]][j := s[i]]
  }

  /** A swap keeps the elements and their multiplicities. */
  lemma SwapPermutes<T>(s: seq<T>, i: nat, j: nat)
    requires i < |s| && j < |s|
    ensures multiset(Swap(s, i, j)) == multiset(s)
  {
  }

  /**
   * The list just before the step at position `i`, after the steps at
   * positions `|s| - 1` down to `i + 1`. The step at position `k` uses draw
   * number `|s| - 1 - k`.
   */
  function Before<T>(s: seq<T>, js: seq<nat>, i: nat): (t: seq<T>)
    requires i < |s| && Draws(|s|, js)
    ensures |t| == |s|
    ensures multiset(t) == multiset(s)
    decreases |s| - i
  {
    if i == |s| - 1 then s
    else
      var t := Before(s, js, i + 1);
      SwapPermutes(t, i + 1, js[|s| - 2 - i]);
      Swap(t, i + 1, js[|s| - 2 - i])
  }

  /** The whole shuffle: the list once the step at position 1 is done; whatever the draws, a permutation of its input. */
  function FisherYates<T>(s: seq<T>, js: seq<nat>): (r: seq<T>)
    requires Draws(|s|, js)
    ensures |r| == |s|
    ensures multiset(r) == multiset(s)
  {
    if |s| == 0 then s else Before(s, js, 0)
  }

  /** The step at position `i` swaps `i` with its draw. */
  lemma BeforeStep<T>(s: seq<T>, js: seq<nat>, i: nat)
    requires 0 < i < |s| && Draws(|s|, js)
    ensures Before(s, js, i - 1) == Swap(Before(s, js, i), i, js[|s| - 1 - i])
  {
  }

  /**
   * `shuffleArray`: the input is copied into a fresh array, which is
   * shuffled in place; the input itself is a value and stays as it was.
   */
  method ShuffleArray<T>(items: seq<T>, js: seq<nat>) returns (shuffled: seq<T>)
    requires Draws(|items|, js)
    ensures shuffled == FisherYates(items, js)
  {
    var a := new T[|items|](k requires 0 <= k < |items| => items[k]);
    assert a[..] == items;
    var i := |items| - 1;
    while i > 0
      invariant -1 <= i < |items| && a.Length == |items|
      invariant i == -1 <==> |items| == 0
      invariant i >= 0 ==> a[..] == Before(items, js, i)
    {
      var j := js[|items| - 1 - i];
      ghost var before := a[..];
      a[i], a[j] := a[j], a[i];
      assert a[..] == Swap(before, i, j);
      BeforeStep(items, js, i);
      i := i - 1;
    }
    shuffled := a[..];
  }
}
