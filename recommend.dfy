/** `recommendLottoNumbers` (src/app/page.tsx:54-70): compute the pool from
    the played sets and hand it to the strategy the `algorithm` string
    names. The strings are compared exactly: `'normal'`, `'groupShuffle'`
    and `'shuffe'` (spelled so in the source and in its radio buttons);
    any other string leaves the recommendation empty. */
module Recommend {
  import opened JsBuiltins
  import opened FisherYates
  import opened NumberPool
  import opened Strategies

  /** The sets the strategy named by `algorithm` proposes from `pool` for
      `count` sets, with the index after the last draw. The `'shuffe'`
      branch shuffles the pool once and then fills an empty list from the
      shuffled pool. */
  function Recommended(pool: seq<int>, algorithm: string, count: int, rng: nat -> nat, t: nat): (seq<seq<int>>, nat)
    requires algorithm == "groupShuffle" ==> |pool| > 0
  {
    if algorithm == "normal" then Ordered(pool, count, rng, t)
    else if algorithm == "groupShuffle" then GroupShuffle(pool, count, rng, t)
    else if algorithm == "shuffe" then FillFrom(Shuffled(pool, rng, t), [], count, rng, t + DrawsFor(|pool|))
    else ([], t)
  }

  /** The `if`/`else if` chain of `recommendLottoNumbers` on a given pool.
      With `'groupShuffle'` an empty pool makes the source loop forever, so
      the pool must not be empty then. */
  method Dispatch(pool: seq<int>, algorithm: string, count: int, rng: nat -> nat, t: nat)
    returns (sets: seq<seq<int>>, next: nat)
    requires algorithm == "groupShuffle" ==> |pool| > 0
    ensures (sets, next) == Recommended(pool, algorithm, count, rng, t)
  {
    if algorithm == "normal" {
      sets, next := RunNormal(pool, count, rng, t);
    } else if algorithm == "groupShuffle" {
      sets, next := RunGroupShuffle(pool, count, rng, t);
    } else if algorithm == "shuffe" {
      var shuffled, after := ShuffleArray(pool, rng, t);
      var list := new SetList();
      var filled, last := RunShuffle(shuffled, list, count, rng, after);
      sets, next := filled.sets, last;
    } else {
      sets, next := [], t;
    }
  }

  /** `recommendLottoNumbers(sets)`: returns the lucky numbers (the pool,
      `setLuckyNumbers`) and the recommended sets
      (`setRecommendedLottoNumbers`). */
  method RecommendLottoNumbers(played: seq<seq<int>>, algorithm: string, count: int, rng: nat -> nat, t: nat)
    returns (lucky: seq<int>, sets: seq<seq<int>>, next: nat)
    requires algorithm == "groupShuffle" ==> |Pool(played)| > 0
    ensures lucky == Pool(played)
    ensures (sets, next) == Recommended(lucky, algorithm, count, rng, t)
  {
    lucky := Pool(played);
    sets, next := Dispatch(lucky, algorithm, count, rng, t);
  }

  /** A count of zero or less gives no sets, whichever strategy runs; only
      `'shuffe'` still spends the draws of its initial shuffle. */
  lemma NoCountNoSets(pool: seq<int>, algorithm: string, count: int, rng: nat -> nat, t: nat)
    requires algorithm == "groupShuffle" ==> |pool| > 0
    requires count <= 0
    ensures Recommended(pool, algorithm, count, rng, t).0 == []
    ensures algorithm != "shuffe" ==> Recommended(pool, algorithm, count, rng, t).1 == t
  {
    if algorithm == "groupShuffle" {
      OrderedNoCount(Flattened(Groups(pool)), count, rng, t);
    } else if algorithm == "normal" {
      OrderedNoCount(pool, count, rng, t);
    }
  }

  /** A string other than the three names, such as the correctly spelled
      `"shuffle"`, gives no sets and uses no draw. */
  lemma UnknownAlgorithm(pool: seq<int>, algorithm: string, count: int, rng: nat -> nat, t: nat)
    requires algorithm != "normal" && algorithm != "groupShuffle" && algorithm != "shuffe"
    ensures Recommended(pool, algorithm, count, rng, t) == ([], t)
  {
  }

  /** A sample of a permutation of the pool is a sample of the pool itself:
      made of pool numbers, and, when the pool has no repeats, with distinct
      numbers at distinct positions. */
  lemma SampleOfPermutation(pool: seq<int>, sh: seq<int>, s: seq<int>)
    requires |sh| == |pool| && multiset(sh) == multiset(pool)
    requires IsRandomSet(sh, s) && (NoRepeats(sh) ==> NoRepeats(s))
    ensures IsRandomSet(pool, s) && forall x :: x in s ==> x in pool
    ensures NoRepeats(pool) ==> NoRepeats(s) && forall a, b :: 0 <= a < b < |s| ==> s[a] != s[b]
  {
    forall x | x in s ensures x in pool {
      assert x in multiset(s);
      assert x in multiset(sh);
    }
    if NoRepeats(pool) {
      assert NoRepeats(sh);
      NoRepeatsMeansDistinct(s);
    }
  }

  /** `'shuffe'` proposes exactly `max(count, 0)` sets, each ascending, of
      `min(6, |pool|)` pool numbers, and without repeats when the pool has
      none (as the pool of unplayed numbers never has): then no two positions
      of a set hold the same number. */
  lemma ShuffeSets(pool: seq<int>, count: int, rng: nat -> nat, t: nat)
    ensures var r := Recommended(pool, "shuffe", count, rng, t).0;
      |r| == (if count > 0 then count else 0) &&
      forall i :: 0 <= i < |r| ==>
        IsRandomSet(pool, r[i]) && (NoRepeats(pool) ==> NoRepeats(r[i])) &&
        (NoRepeats(pool) ==> forall a, b :: 0 <= a < b < |r[i]| ==> r[i][a] != r[i][b]) &&
        forall x :: x in r[i] ==> x in pool
  {
    ShuffledPermutes(pool, rng, t);
    var sh := Shuffled(pool, rng, t);
    FillFromAppends(sh, [], count, rng, t + DrawsFor(|pool|));
    var r := Recommended(pool, "shuffe", count, rng, t).0;
    forall i | 0 <= i < |r|
      ensures IsRandomSet(pool, r[i]) && (NoRepeats(pool) ==> NoRepeats(r[i]))
      ensures NoRepeats(pool) ==> forall a, b :: 0 <= a < b < |r[i]| ==> r[i][a] != r[i][b]
      ensures forall x :: x in r[i] ==> x in pool
    {
      SampleOfPermutation(pool, sh, r[i]);
    }
  }
}
