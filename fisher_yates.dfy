/** `shuffleArray` (src/app/page.tsx:8-15): a Fisher-Yates shuffle of a copy
    of its argument.

    `Math.random()` is replaced by an injected stream of draws: `rng(t)` is
    the t-th draw and `Draw` takes it modulo `i + 1`, an index in 0..i.
    Every sequence of indices with `j <= i` comes from some stream, so every
    run of the source is a run of the model; the counter `t` says how many
    draws have been used so far. */
module FisherYates {
  import opened JsBuiltins

  /** The index `Math.floor(Math.random() * (i + 1))` of the t-th draw. */
  function Draw(rng: nat -> nat, t: nat, i: nat): (j: nat)
    ensures j <= i
  {
    rng(t) % (i + 1)
  }

  /** How many draws a shuffle of `n` elements uses: one per `i` in n-1 down to 1. */
  function DrawsFor(n: nat): nat {
    if n >= 2 then n - 1 else 0
  }

  function Swap(s: seq<int>, i: nat, j: nat): seq<int>
    requires i < |s| && j < |s|
  {
    s[i := s[j]][j := s[i]]
  }

  /** The shuffle loop from index `i` downwards, draws starting at `t`. */
  function ShuffleFrom(s: seq<int>, i: int, rng: nat -> nat, t: nat): seq<int>
    requires i < |s|
    decreases i
  {
    if i <= 0 then s
    else ShuffleFrom(Swap(s, i, Draw(rng, t, i)), i - 1, rng, t + 1)
  }

  /** What `shuffleArray(s)` returns when its draws start at `t`. */
  function Shuffled(s: seq<int>, rng: nat -> nat, t: nat): seq<int> {
    ShuffleFrom(s, |s| - 1, rng, t)
  }

  /** `[arr[i], arr[j]] = [arr[j], arr[i]]`. */
  method SwapElements(arr: array<int>, i: nat, j: nat)
    requires i < arr.Length && j < arr.Length
    modifies arr
    ensures arr[..] == Swap(old(arr[..]), i, j)
  {
    var tmp := arr[i];
    arr[i] := arr[j];
    arr[j] := tmp;
  }

  /** `const arr = [...array]`. */
  method CopyToArray(input: seq<int>) returns (arr: array<int>)
    ensures fresh(arr)
    ensures arr[..] == input
  {
    arr := new int[|input|](k requires 0 <= k < |input| => input[k]);
  }

  /** One pass of the loop unfolds one step of the shuffle. */
  lemma ShuffleStep(s: seq<int>, i: int, rng: nat -> nat, t: nat)
    requires 0 < i < |s|
    ensures ShuffleFrom(s, i, rng, t) == ShuffleFrom(Swap(s, i, Draw(rng, t, i)), i - 1, rng, t + 1)
  {
  }

  method ShuffleArray(input: seq<int>, rng: nat -> nat, t: nat) returns (r: seq<int>, next: nat)
    ensures r == Shuffled(input, rng, t)
    ensures next == t + DrawsFor(|input|)
  {
    var arr := CopyToArray(input);
    var i := arr.Length - 1;
    next := t;
    while i > 0
      invariant -1 <= i < arr.Length
      invariant arr.Length > 0 ==> i >= 0
      invariant next + i == t + arr.Length - 1
      invariant ShuffleFrom(arr[..], i, rng, next) == Shuffled(input, rng, t)
    {
      var j := Draw(rng, next, i);
      ShuffleStep(arr[..], i, rng, next);
      SwapElements(arr, i, j);
      next := next + 1;
      i := i - 1;
    }
    r := arr[..];
  }

  lemma SwapPermutes(s: seq<int>, i: nat, j: nat)
    requires i < |s| && j < |s|
    ensures multiset(Swap(s, i, j)) == multiset(s)
  {
    var u := s[i := s[j]];
    assert multiset(u) == multiset(s) - multiset{s[i]} + multiset{s[j]};
    assert multiset(u[j := s[i]]) == multiset(u) - multiset{u[j]} + multiset{s[i]};
  }

  lemma {:induction false} ShuffleFromPermutes(s: seq<int>, i: int, rng: nat -> nat, t: nat)
    requires i < |s|
    ensures multiset(ShuffleFrom(s, i, rng, t)) == multiset(s)
    ensures |ShuffleFrom(s, i, rng, t)| == |s|
    decreases i
  {
    if i > 0 {
      var j := Draw(rng, t, i);
      SwapPermutes(s, i, j);
      ShuffleFromPermutes(Swap(s, i, j), i - 1, rng, t + 1);
    }
  }

  /** The shuffled copy has the same length and the same elements, each as
      often as in the input. */
  lemma ShuffledPermutes(s: seq<int>, rng: nat -> nat, t: nat)
    ensures |Shuffled(s, rng, t)| == |s|
    ensures multiset(Shuffled(s, rng, t)) == multiset(s)
  {
    ShuffleFromPermutes(s, |s| - 1, rng, t);
  }
}
