/** The three ways of proposing sets from the pool (src/app/page.tsx:72-156):
    `runShuffleAlgorithm` (random samples), `runNormalAlgorithm` ("Ordered":
    consecutive chunks of six, with a wrap-around set and random fill when the
    pool is short) and `runGroupShuffleAlgorithm` (a column-wise interleave of
    the chunks, then Ordered).

    Every strategy that may draw random numbers takes the draw stream `rng`
    and the index `t` of the next draw, and gives back the index after its
    last draw. */
module Strategies {
  import opened JsBuiltins
  import opened FisherYates

  /** A `number[][]` that the strategies push sets into. */
  class SetList {
    var sets: seq<seq<int>>

    constructor ()
      ensures sets == []
    {
      sets := [];
    }

    /** `newLottoSets.push(s)`. */
    method Push(s: seq<int>)
      modifies this
      ensures sets == old(sets) + [s]
    {
      sets := sets + [s];
    }
  }

  // ---------------------------------------------------------------------------
  // Chunks of six

  /** `pool.slice(6 * g, 6 * g + 6)`. */
  function Chunk(pool: seq<int>, g: nat): seq<int> {
    Slice(pool, 6 * g, 6 * g + 6)
  }

  /** The first `k` chunks, in pool order. */
  function Chunks(pool: seq<int>, k: nat): (r: seq<seq<int>>)
    ensures |r| == k
  {
    if k == 0 then [] else Chunks(pool, k - 1) + [Chunk(pool, k - 1)]
  }

  lemma {:induction false} ChunksAt(pool: seq<int>, k: nat, i: nat)
    requires i < k
    ensures Chunks(pool, k)[i] == Chunk(pool, i)
  {
    if i < k - 1 {
      ChunksAt(pool, k - 1, i);
    }
  }

  /** Full chunks tile the front of the pool: chunk `i` is `pool[6i..6i+6)` and
      the chunks concatenate to the first `6k` pool numbers. */
  lemma {:induction false} FullChunks(pool: seq<int>, k: nat)
    requires 6 * k <= |pool|
    ensures forall i :: 0 <= i < k ==> Chunks(pool, k)[i] == pool[6 * i..6 * i + 6]
    ensures Flatten(Chunks(pool, k)) == pool[..6 * k]
  {
    forall i | 0 <= i < k ensures Chunks(pool, k)[i] == pool[6 * i..6 * i + 6] {
      ChunksAt(pool, k, i);
    }
    if k > 0 {
      FullChunks(pool, k - 1);
      assert Chunks(pool, k)[..k - 1] == Chunks(pool, k - 1);
      assert pool[..6 * k] == pool[..6 * (k - 1)] + pool[6 * (k - 1)..6 * k];
    }
  }

  // ---------------------------------------------------------------------------
  // Shuffle strategy

  /** `shuffleArray(pool).slice(0, 6).sort((a, b) => a - b)` with draws from `t`. */
  function RandomSet(pool: seq<int>, rng: nat -> nat, t: nat): seq<int> {
    SortAscending(Slice(Shuffled(pool, rng, t), 0, 6))
  }

  /** `sample(t), sample(t + d), ...` appended to `sets` until there are
      `count`, with the draw index after the last one. */
  function Fill(sets: seq<seq<int>>, count: int, sample: nat -> seq<int>, d: nat, t: nat): (seq<seq<int>>, nat)
    decreases count - |sets|
  {
    if |sets| >= count then (sets, t)
    else Fill(sets + [sample(t)], count, sample, d, t + d)
  }

  /** One pass of the fill loop unfolds one step of `Fill`. */
  lemma FillStep(sets: seq<seq<int>>, count: int, sample: nat -> seq<int>, d: nat, t: nat)
    requires |sets| < count
    ensures Fill(sets, count, sample, d, t) == Fill(sets + [sample(t)], count, sample, d, t + d)
  {
  }

  /** The random set drawn from index `t` on, as a function of `t`. */
  function Sampler(pool: seq<int>, rng: nat -> nat): nat -> seq<int> {
    (u: nat) => RandomSet(pool, rng, u)
  }

  /** What the loop of `runShuffleAlgorithm` leaves in the list and the next
      draw index: random sets are appended until there are `count`, each
      using one shuffle's worth of draws. */
  function FillFrom(pool: seq<int>, sets: seq<seq<int>>, count: int, rng: nat -> nat, t: nat): (seq<seq<int>>, nat) {
    Fill(sets, count, Sampler(pool, rng), DrawsFor(|pool|), t)
  }

  /** One pass of the loop of `runShuffleAlgorithm`: shuffle the pool, take
      the first six, sort them. */
  method DrawRandomSet(pool: seq<int>, rng: nat -> nat, t: nat) returns (s: seq<int>, next: nat)
    ensures s == RandomSet(pool, rng, t)
    ensures next == t + DrawsFor(|pool|)
  {
    var shuffled;
    shuffled, next := ShuffleArray(pool, rng, t);
    s := SortAscending(Slice(shuffled, 0, 6));
  }

  lemma FillFromStep(pool: seq<int>, sets: seq<seq<int>>, count: int, rng: nat -> nat, t: nat)
    requires |sets| < count
    ensures FillFrom(pool, sets, count, rng, t) == FillFrom(pool, sets + [RandomSet(pool, rng, t)], count, rng, t + DrawsFor(|pool|))
  {
    FillStep(sets, count, Sampler(pool, rng), DrawsFor(|pool|), t);
  }

  /** `runShuffleAlgorithm(pool, list, count)`: pushes into the caller's list
      and returns that same list. */
  method RunShuffle(pool: seq<int>, list: SetList, count: int, rng: nat -> nat, t: nat) returns (r: SetList, next: nat)
    modifies list
    ensures r == list
    ensures (list.sets, next) == FillFrom(pool, old(list.sets), count, rng, t)
  {
    next := t;
    while |list.sets| < count
      invariant FillFrom(pool, list.sets, count, rng, next) == FillFrom(pool, old(list.sets), count, rng, t)
    {
      var randomSet, after := DrawRandomSet(pool, rng, next);
      FillFromStep(pool, list.sets, count, rng, next);
      list.Push(randomSet);
      next := after;
    }
    r := list;
  }

  /** What a random set is: ascending, `min(6, |pool|)` long, made of pool
      numbers. */
  predicate IsRandomSet(pool: seq<int>, s: seq<int>) {
    Ascending(s) &&
    |s| == (if |pool| < 6 then |pool| else 6) &&
    multiset(s) <= multiset(pool)
  }

  lemma RandomSetShape(pool: seq<int>, rng: nat -> nat, t: nat)
    ensures IsRandomSet(pool, RandomSet(pool, rng, t))
    ensures NoRepeats(pool) ==> NoRepeats(RandomSet(pool, rng, t))
  {
    var sh := Shuffled(pool, rng, t);
    ShuffledPermutes(pool, rng, t);
    var taken := Slice(sh, 0, 6);
    SortAscendingSorts(taken);
    assert taken == sh[..|taken|];
    PrefixMultiset(sh, |taken|);
    if NoRepeats(pool) {
      NoRepeatsSub(RandomSet(pool, rng, t), pool);
    }
  }

  /** Filling only appends: the sets already there stay as they were, the
      list ends with `max(|sets|, count)` sets, and every appended set is a
      sample. */
  lemma {:induction false} FillAppends(pool: seq<int>, sets: seq<seq<int>>, count: int, sample: nat -> seq<int>, d: nat, t: nat)
    requires forall u :: IsRandomSet(pool, sample(u)) && (NoRepeats(pool) ==> NoRepeats(sample(u)))
    ensures var r := Fill(sets, count, sample, d, t).0;
      |r| == (if |sets| < count then count else |sets|) &&
      r[..|sets|] == sets &&
      forall i :: |sets| <= i < |r| ==> IsRandomSet(pool, r[i]) && (NoRepeats(pool) ==> NoRepeats(r[i]))
    decreases count - |sets|
  {
    if |sets| < count {
      FillAppends(pool, sets + [sample(t)], count, sample, d, t + d);
      var r := Fill(sets, count, sample, d, t).0;
      assert r[..|sets| + 1][..|sets|] == r[..|sets|];
    }
  }

  /** Filling uses `d` draws per appended set. */
  lemma {:induction false} FillDraws(sets: seq<seq<int>>, count: int, sample: nat -> seq<int>, d: nat, t: nat)
    ensures Fill(sets, count, sample, d, t).1 == t + (if |sets| < count then count - |sets| else 0) * d
    decreases count - |sets|
  {
    if |sets| < count {
      FillDraws(sets + [sample(t)], count, sample, d, t + d);
    }
  }

  /** The shuffle fill only appends, and every set it appends is a random set
      of the pool. */
  lemma FillFromAppends(pool: seq<int>, sets: seq<seq<int>>, count: int, rng: nat -> nat, t: nat)
    ensures var r := FillFrom(pool, sets, count, rng, t).0;
      |r| == (if |sets| < count then count else |sets|) &&
      r[..|sets|] == sets &&
      forall i :: |sets| <= i < |r| ==> IsRandomSet(pool, r[i]) && (NoRepeats(pool) ==> NoRepeats(r[i]))
  {
    var sample := Sampler(pool, rng);
    forall u: nat ensures IsRandomSet(pool, sample(u)) && (NoRepeats(pool) ==> NoRepeats(sample(u))) {
      RandomSetShape(pool, rng, u);
    }
    FillAppends(pool, sets, count, sample, DrawsFor(|pool|), t);
  }

  /** The shuffle fill uses one shuffle's worth of draws per appended set. */
  lemma FillFromDraws(pool: seq<int>, sets: seq<seq<int>>, count: int, rng: nat -> nat, t: nat)
    ensures FillFrom(pool, sets, count, rng, t).1 == t + (if |sets| < count then count - |sets| else 0) * DrawsFor(|pool|)
  {
    FillDraws(sets, count, Sampler(pool, rng), DrawsFor(|pool|), t);
  }

  // ---------------------------------------------------------------------------
  // Ordered strategy

  /** The wrap-around set of a short pool: the tail after the full chunks,
      then as many numbers again from the front of the pool. */
  function Extra(pool: seq<int>): seq<int> {
    pool[6 * (|pool| / 6)..] + pool[..|pool| % 6]
  }

  /** What `runNormalAlgorithm(pool, 6 * count, count)` returns, with the
      next draw index. */
  function Ordered(pool: seq<int>, count: int, rng: nat -> nat, t: nat): (seq<seq<int>>, nat) {
    if |pool| >= 6 * count then (Chunks(pool, if count > 0 then count else 0), t)
    else FillFrom(pool, Chunks(pool, |pool| / 6) + [Extra(pool)], count, rng, t)
  }

  method RunNormal(pool: seq<int>, count: int, rng: nat -> nat, t: nat) returns (r: seq<seq<int>>, next: nat)
    ensures (r, next) == Ordered(pool, count, rng, t)
  {
    var list := new SetList();
    var requiredNumbers := count * 6;
    var availableLength := |pool|;
    next := t;
    if availableLength >= requiredNumbers {
      var i := 0;
      while i < count
        invariant 0 <= i && (i == 0 || i <= count)
        invariant list.sets == Chunks(pool, i)
      {
        var offset := i * 6;
        list.Push(Slice(pool, offset, offset + 6));
        i := i + 1;
      }
    } else {
      var setsToFill := availableLength / 6;
      var extraNumbers := availableLength % 6;
      var i := 0;
      while i < setsToFill
        invariant 0 <= i <= setsToFill
        invariant list.sets == Chunks(pool, i)
      {
        var offset := i * 6;
        list.Push(Slice(pool, offset, offset + 6));
        i := i + 1;
      }
      var extraArray := pool[setsToFill * 6..];
      var neededArray := pool[..extraNumbers];
      list.Push(extraArray + neededArray);
      var _, after := RunShuffle(pool, list, count, rng, t);
      next := after;
    }
    r := list.sets;
  }

  /** With enough pool numbers the result is `max(0, count)` consecutive
      chunks: set `i` is `pool[6i..6i+6)`, together the first `6 * count` pool
      numbers, and no draw is used. */
  lemma OrderedEnough(pool: seq<int>, count: int, rng: nat -> nat, t: nat)
    requires |pool| >= 6 * count
    ensures var k := if count > 0 then count else 0;
      var (r, next) := Ordered(pool, count, rng, t);
      |r| == k &&
      (forall i :: 0 <= i < k ==> r[i] == pool[6 * i..6 * i + 6]) &&
      Flatten(r) == pool[..6 * k] &&
      next == t
  {
    FullChunks(pool, if count > 0 then count else 0);
  }

  /** With too few pool numbers the result has exactly `count` sets: the full
      chunks, then the wrap-around set `pool[6q..] ++ pool[..L % 6)` of length
      `2 * (L % 6)` (which is the pool twice when it has fewer than six
      numbers), then random sets. */
  lemma OrderedShort(pool: seq<int>, count: int, rng: nat -> nat, t: nat)
    requires |pool| < 6 * count
    ensures var q := |pool| / 6;
      var r := Ordered(pool, count, rng, t).0;
      |r| == count && q < count &&
      (forall i :: 0 <= i < q ==> r[i] == pool[6 * i..6 * i + 6]) &&
      r[q] == pool[6 * q..] + pool[..|pool| % 6] &&
      |r[q]| == 2 * (|pool| % 6) &&
      (|pool| < 6 ==> r[q] == pool + pool) &&
      (forall i :: q < i < count ==> IsRandomSet(pool, r[i]) && (NoRepeats(pool) ==> NoRepeats(r[i])))
  {
    var q := |pool| / 6;
    var start := Chunks(pool, q) + [Extra(pool)];
    FullChunks(pool, q);
    FillFromAppends(pool, start, count, rng, t);
    var r := Ordered(pool, count, rng, t).0;
    forall i | 0 <= i <= q ensures r[i] == start[i] {
      assert r[..|start|][i] == start[i];
    }
  }

  /** A count of zero or less gives no sets. */
  lemma OrderedNoCount(pool: seq<int>, count: int, rng: nat -> nat, t: nat)
    requires count <= 0
    ensures Ordered(pool, count, rng, t) == ([], t)
  {
  }

  /** A seven-number pool asked for two sets: the first six numbers, then the
      leftover seventh followed by the reused first. */
  lemma OrderedSevenNumbers(pool: seq<int>, rng: nat -> nat, t: nat)
    requires |pool| == 7
    ensures Ordered(pool, 2, rng, t).0 == [pool[..6], [pool[6], pool[0]]]
  {
    OrderedShort(pool, 2, rng, t);
    var r := Ordered(pool, 2, rng, t).0;
    assert r[0] == pool[0..6];
    assert r[1] == pool[6..] + pool[..1];
    assert pool[6..] + pool[..1] == [pool[6], pool[0]];
  }

  // ---------------------------------------------------------------------------
  // Group shuffle strategy

  /** The groups `availableNumbers.slice(i, i + 6)` for i = 0, 6, 12, ... < L. */
  function Groups(pool: seq<int>): seq<seq<int>> {
    Chunks(pool, (|pool| + 5) / 6)
  }

  method MakeGroups(pool: seq<int>) returns (groups: seq<seq<int>>)
    ensures groups == Groups(pool)
  {
    groups := [];
    var i := 0;
    while i < |pool|
      invariant i % 6 == 0 && 0 <= i <= |pool| + 5
      invariant groups == Chunks(pool, i / 6)
    {
      groups := groups + [Slice(pool, i, i + 6)];
      i := i + 6;
    }
  }

  /** The groups cut the pool into pieces of one to six numbers that
      concatenate back to the pool; there is at least one when the pool is
      not empty. */
  lemma {:induction false} GroupsPartition(pool: seq<int>)
    ensures |pool| > 0 <==> |Groups(pool)| > 0
    ensures forall g :: 0 <= g < |Groups(pool)| ==> 1 <= |Groups(pool)[g]| <= 6
    ensures Flatten(Groups(pool)) == pool
  {
    var n := (|pool| + 5) / 6;
    forall g | 0 <= g < n ensures 1 <= |Groups(pool)[g]| <= 6 {
      ChunksAt(pool, n, g);
    }
    GroupsPrefix(pool, n);
    assert pool[..if 6 * n <= |pool| then 6 * n else |pool|] == pool;
  }

  lemma {:induction false} GroupsPrefix(pool: seq<int>, k: nat)
    requires k <= (|pool| + 5) / 6
    ensures Flatten(Chunks(pool, k)) == pool[..if 6 * k <= |pool| then 6 * k else |pool|]
  {
    if k > 0 {
      GroupsPrefix(pool, k - 1);
      assert Chunks(pool, k)[..k - 1] == Chunks(pool, k - 1);
      var hi := if 6 * k <= |pool| then 6 * k else |pool|;
      assert pool[..hi] == pool[..6 * (k - 1)] + pool[6 * (k - 1)..hi];
    }
  }

  /** Column `i` of the first `j` arrays: their `i`-th elements, skipping the
      arrays too short to have one (`if (arr[i] !== undefined)`). */
  function ColumnPart(arrays: seq<seq<int>>, i: nat, j: nat): seq<int>
    requires j <= |arrays|
  {
    if j == 0 then []
    else ColumnPart(arrays, i, j - 1) + Cell(arrays[j - 1], i)
  }

  /** `arr[i]` when it is defined, nothing otherwise. */
  function Cell(a: seq<int>, i: nat): seq<int> {
    if i < |a| then [a[i]] else []
  }

  function Column(arrays: seq<seq<int>>, i: nat): seq<int> {
    ColumnPart(arrays, i, |arrays|)
  }

  /** Columns 0 to m - 1, one after the other. */
  function Columns(arrays: seq<seq<int>>, m: nat): seq<int> {
    if m == 0 then [] else Columns(arrays, m - 1) + Column(arrays, m - 1)
  }

  /** `Math.min(...arrays.map((arr) => arr.length))` for a non-empty list. */
  function MinLength(arrays: seq<seq<int>>): (m: nat)
    requires |arrays| > 0
    ensures forall a :: 0 <= a < |arrays| ==> m <= |arrays[a]|
    ensures exists a :: 0 <= a < |arrays| && m == |arrays[a]|
  {
    if |arrays| == 1 then |arrays[0]|
    else
      var rest := MinLength(arrays[1..]);
      assert forall a :: 1 <= a < |arrays| ==> arrays[1..][a - 1] == arrays[a];
      if |arrays[0]| <= rest then |arrays[0]| else rest
  }

  /** What `generateFlattenedArray(arrays)` returns: columns 0 up to
      `max(minLength, 6)`, which for groups of at most six is every column. */
  function Flattened(arrays: seq<seq<int>>): seq<int>
    requires |arrays| > 0
  {
    var m := MinLength(arrays);
    Columns(arrays, if m >= 6 then m else 6)
  }

  /** The `arrays.forEach` that pushes column `i` onto `flat`. */
  method PushColumn(arrays: seq<seq<int>>, i: nat, flat: seq<int>) returns (r: seq<int>)
    ensures r == flat + Column(arrays, i)
  {
    r := flat;
    var a := 0;
    while a < |arrays|
      invariant 0 <= a <= |arrays|
      invariant r == flat + ColumnPart(arrays, i, a)
    {
      if i < |arrays[a]| {
        r := r + [arrays[a][i]];
      }
      a := a + 1;
    }
  }

  /** `generateFlattenedArray`; on an empty list the source loops forever
      (`Math.min()` is Infinity), so the list must not be empty. */
  method GenerateFlattenedArray(arrays: seq<seq<int>>) returns (flat: seq<int>)
    requires |arrays| > 0
    ensures flat == Flattened(arrays)
  {
    flat := [];
    var minLength := MinLength(arrays);
    var i := 0;
    while i < minLength
      invariant 0 <= i <= minLength
      invariant flat == Columns(arrays, i)
    {
      flat := PushColumn(arrays, i, flat);
      i := i + 1;
    }
    i := minLength;
    while i < 6
      invariant minLength <= i && (i <= 6 || i == minLength)
      invariant flat == Columns(arrays, i)
    {
      flat := PushColumn(arrays, i, flat);
      i := i + 1;
    }
  }

  // The interleave is a permutation: count what the first `m` columns hold.

  function Take(a: seq<int>, m: nat): seq<int> {
    a[..if m <= |a| then m else |a|]
  }

  /** The union of the first `m` elements of each of the first `j` arrays. */
  function Heads(arrays: seq<seq<int>>, j: nat, m: nat): multiset<int>
    requires j <= |arrays|
  {
    if j == 0 then multiset{} else Heads(arrays, j - 1, m) + multiset(Take(arrays[j - 1], m))
  }

  lemma {:induction false} ColumnPartHeads(arrays: seq<seq<int>>, i: nat, j: nat)
    requires j <= |arrays|
    ensures multiset(ColumnPart(arrays, i, j)) + Heads(arrays, j, i) == Heads(arrays, j, i + 1)
  {
    if j > 0 {
      var k := j - 1;
      ColumnPartHeads(arrays, i, k);
      ColumnPartHeadsStep(arrays, i, k);
    } else {
      assert Heads(arrays, j, i) == multiset{};
      assert Heads(arrays, j, i + 1) == multiset{};
    }
  }

  lemma ColumnPartHeadsStep(arrays: seq<seq<int>>, i: nat, k: nat)
    requires k < |arrays|
    requires multiset(ColumnPart(arrays, i, k)) + Heads(arrays, k, i) == Heads(arrays, k, i + 1)
    ensures multiset(ColumnPart(arrays, i, k + 1)) + Heads(arrays, k + 1, i) == Heads(arrays, k + 1, i + 1)
  {
    var a := arrays[k];
    TakeOneMore(a, i);
    HeadsUnfold(arrays, k, i);
    HeadsUnfold(arrays, k, i + 1);
    ColumnPartUnfold(arrays, i, k);
    UnionStep(multiset(ColumnPart(arrays, i, k + 1)), multiset(ColumnPart(arrays, i, k)), multiset(Cell(a, i)),
      Heads(arrays, k + 1, i), Heads(arrays, k, i), Heads(arrays, k + 1, i + 1), Heads(arrays, k, i + 1),
      multiset(Take(a, i)), multiset(Take(a, i + 1)));
  }

  lemma HeadsUnfold(arrays: seq<seq<int>>, k: nat, m: nat)
    requires k < |arrays|
    ensures Heads(arrays, k + 1, m) == Heads(arrays, k, m) + multiset(Take(arrays[k], m))
  {
  }

  lemma ColumnPartUnfold(arrays: seq<seq<int>>, i: nat, k: nat)
    requires k < |arrays|
    ensures multiset(ColumnPart(arrays, i, k + 1)) == multiset(ColumnPart(arrays, i, k)) + multiset(Cell(arrays[k], i))
  {
  }

  lemma TakeOneMore(a: seq<int>, i: nat)
    ensures multiset(Take(a, i + 1)) == multiset(Take(a, i)) + multiset(Cell(a, i))
  {
    assert Take(a, i + 1) == Take(a, i) + Cell(a, i);
  }

  lemma UnionStep(cp: multiset<int>, cp0: multiset<int>, c: multiset<int>, h: multiset<int>, h0: multiset<int>,
                  h1: multiset<int>, h01: multiset<int>, t: multiset<int>, t1: multiset<int>)
    requires cp == cp0 + c && h == h0 + t && h1 == h01 + t1 && t1 == t + c
    requires cp0 + h0 == h01
    ensures cp + h == h1
  {
  }

  lemma {:induction false} HeadsNone(arrays: seq<seq<int>>, j: nat)
    requires j <= |arrays|
    ensures Heads(arrays, j, 0) == multiset{}
  {
    if j > 0 {
      HeadsNone(arrays, j - 1);
    }
  }

  lemma {:induction false} ColumnsHeads(arrays: seq<seq<int>>, m: nat)
    ensures multiset(Columns(arrays, m)) == Heads(arrays, |arrays|, m)
  {
    if m == 0 {
      HeadsNone(arrays, |arrays|);
    } else {
      var k := m - 1;
      assert m == k + 1;
      ColumnsHeads(arrays, k);
      ColumnPartHeads(arrays, k, |arrays|);
      ColumnsUnfold(arrays, k);
      UnionSwap(multiset(Columns(arrays, k)), multiset(ColumnPart(arrays, k, |arrays|)),
        Heads(arrays, |arrays|, k), Heads(arrays, |arrays|, k + 1));
    }
  }

  lemma ColumnsUnfold(arrays: seq<seq<int>>, k: nat)
    ensures multiset(Columns(arrays, k + 1)) == multiset(Columns(arrays, k)) + multiset(ColumnPart(arrays, k, |arrays|))
  {
  }

  lemma UnionSwap(x: multiset<int>, y: multiset<int>, h0: multiset<int>, h1: multiset<int>)
    requires x == h0 && y + h0 == h1
    ensures x + y == h1
  {
  }

  lemma {:induction false} HeadsAll(arrays: seq<seq<int>>, j: nat, m: nat)
    requires j <= |arrays|
    requires forall a :: 0 <= a < j ==> |arrays[a]| <= m
    ensures Heads(arrays, j, m) == multiset(Flatten(arrays[..j]))
  {
    if j > 0 {
      HeadsAll(arrays, j - 1, m);
      assert arrays[..j][..j - 1] == arrays[..j - 1];
      assert Take(arrays[j - 1], m) == arrays[j - 1];
    } else {
      assert arrays[..j] == [];
    }
  }

  /** Enough columns take every element of every array. */
  lemma ColumnsPermute(arrays: seq<seq<int>>, width: nat)
    requires forall a :: 0 <= a < |arrays| ==> |arrays[a]| <= width
    ensures multiset(Columns(arrays, width)) == multiset(Flatten(arrays))
  {
    ColumnsHeads(arrays, width);
    assert arrays[..|arrays|] == arrays;
    HeadsAll(arrays, |arrays|, width);
  }

  /** Interleaving the groups of a non-empty pool uses every pool number
      exactly as often as the pool holds it. */
  lemma FlattenedPermutesPool(pool: seq<int>)
    requires |pool| > 0
    ensures multiset(Flattened(Groups(pool))) == multiset(pool)
  {
    var groups := Groups(pool);
    GroupsPartition(pool);
    var m := MinLength(groups);
    ColumnsPermute(groups, if m >= 6 then m else 6);
  }

  lemma {:induction false} ColumnsOfOne(a: seq<int>, m: nat)
    ensures Columns([a], m) == Take(a, m)
  {
    if m > 0 {
      ColumnsOfOne(a, m - 1);
      assert ColumnPart([a], m - 1, 0) == [];
      if m - 1 < |a| {
        assert Take(a, m) == Take(a, m - 1) + [a[m - 1]];
      }
    }
  }

  /** A pool of at most six numbers is one group, and the interleave leaves it
      as it is. */
  lemma FlattenedSmallPool(pool: seq<int>)
    requires 0 < |pool| <= 6
    ensures Flattened(Groups(pool)) == pool
  {
    assert Groups(pool) == [pool] by {
      assert (|pool| + 5) / 6 == 1;
      assert Chunks(pool, 1) == [Chunk(pool, 0)];
      assert Chunk(pool, 0) == pool;
    }
    ColumnsOfOne(pool, 6);
  }

  lemma {:induction false} ColumnPartOfHeads(arrays: seq<seq<int>>, j: nat)
    requires j <= |arrays|
    requires forall a :: 0 <= a < |arrays| ==> |arrays[a]| > 0
    ensures |ColumnPart(arrays, 0, j)| == j
    ensures forall a :: 0 <= a < j ==> ColumnPart(arrays, 0, j)[a] == arrays[a][0]
  {
    if j > 0 {
      ColumnPartOfHeads(arrays, j - 1);
    }
  }

  lemma {:induction false} ColumnsPrefix(arrays: seq<seq<int>>, k: nat, m: nat)
    requires k <= m
    ensures Columns(arrays, k) <= Columns(arrays, m)
    decreases m
  {
    if k < m {
      ColumnsPrefix(arrays, k, m - 1);
    }
  }

  /** Group `g` starts with pool number `6g`. */
  lemma GroupHead(pool: seq<int>, g: nat)
    requires g < |Groups(pool)|
    ensures 6 * g < |pool| && Groups(pool)[g] != [] && Groups(pool)[g][0] == pool[6 * g]
  {
    ChunksAt(pool, |Groups(pool)|, g);
  }

  /** With no empty array, any number of columns from one on starts with
      the first element of every array, in order. */
  lemma ColumnsStartWithHeads(arrays: seq<seq<int>>, width: nat)
    requires width >= 1
    requires forall a :: 0 <= a < |arrays| ==> |arrays[a]| > 0
    ensures |Columns(arrays, width)| >= |arrays|
    ensures forall a :: 0 <= a < |arrays| ==> Columns(arrays, width)[a] == arrays[a][0]
  {
    ColumnsPrefix(arrays, 1, width);
    assert Columns(arrays, 1) == ColumnPart(arrays, 0, |arrays|);
    ColumnPartOfHeads(arrays, |arrays|);
  }

  /** The interleave starts with column 0: the first number of every group,
      `pool[0], pool[6], pool[12], ...`. */
  lemma FlattenedStartsWithGroupHeads(pool: seq<int>)
    requires |pool| > 0
    ensures var n := |Groups(pool)|;
      |Flattened(Groups(pool))| >= n &&
      forall g :: 0 <= g < n ==> Flattened(Groups(pool))[g] == pool[6 * g]
  {
    var groups := Groups(pool);
    forall g | 0 <= g < |groups| ensures groups[g] != [] && groups[g][0] == pool[6 * g] {
      GroupHead(pool, g);
    }
    var m := MinLength(groups);
    ColumnsStartWithHeads(groups, if m >= 6 then m else 6);
  }

  /** What `runGroupShuffleAlgorithm(pool, 6 * count, count)` returns, with the
      next draw index. */
  function GroupShuffle(pool: seq<int>, count: int, rng: nat -> nat, t: nat): (seq<seq<int>>, nat)
    requires |pool| > 0
  {
    Ordered(Flattened(Groups(pool)), count, rng, t)
  }

  method RunGroupShuffle(pool: seq<int>, count: int, rng: nat -> nat, t: nat) returns (r: seq<seq<int>>, next: nat)
    requires |pool| > 0
    ensures (r, next) == GroupShuffle(pool, count, rng, t)
  {
    GroupsPartition(pool);
    var groups := MakeGroups(pool);
    var flattenedArray := GenerateFlattenedArray(groups);
    r, next := RunNormal(flattenedArray, count, rng, t);
  }

  /** When the pool holds exactly `6 * count` numbers, Ordered hands out the
      whole pool, in order. */
  lemma OrderedWholePool(pool: seq<int>, count: int, rng: nat -> nat, t: nat)
    requires |pool| == 6 * count
    ensures Flatten(Ordered(pool, count, rng, t).0) == pool
  {
    OrderedEnough(pool, count, rng, t);
    assert pool[..6 * count] == pool;
  }

  /** When the pool is a whole number of sets and `6 * count` is its size,
      the group shuffle uses every pool number exactly once. */
  lemma GroupShuffleUsesPoolOnce(pool: seq<int>, count: int, rng: nat -> nat, t: nat)
    requires |pool| > 0 && |pool| == 6 * count
    ensures multiset(Flatten(GroupShuffle(pool, count, rng, t).0)) == multiset(pool)
  {
    var flat := Flattened(Groups(pool));
    FlattenedPermutesPool(pool);
    assert |flat| == |pool| by {
      assert |multiset(flat)| == |multiset(pool)|;
    }
    OrderedWholePool(flat, count, rng, t);
  }
}
