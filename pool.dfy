/** The pool of unplayed numbers (`recommendLottoNumbers`,
    src/app/page.tsx:55-56): the numbers 1..45 that occur in no played set,
    ascending. */
module NumberPool {
  import opened JsBuiltins

  /** `Array.from({length: 45}, (_, i) => i + 1)`. */
  function Candidates(): seq<int> {
    seq(45, i => i + 1)
  }

  /** `ns.filter((n) => !excluded.includes(n))`. */
  function Unplayed(ns: seq<int>, excluded: seq<int>): (r: seq<int>)
    ensures forall x :: x in r <==> x in ns && x !in excluded
  {
    if ns == [] then []
    else
      assert forall x :: x in ns <==> x == ns[0] || x in ns[1..];
      (if ns[0] in excluded then [] else [ns[0]]) + Unplayed(ns[1..], excluded)
  }

  /** The pool: `sets.flat()` is excluded from 1..45, and the result is sorted. */
  function Pool(played: seq<seq<int>>): seq<int> {
    SortAscending(Unplayed(Candidates(), Flatten(played)))
  }

  predicate PlayedSomewhere(played: seq<seq<int>>, n: int) {
    exists i :: 0 <= i < |played| && n in played[i]
  }

  lemma CandidatesAscending()
    ensures StrictlyAscending(Candidates())
    ensures forall n :: n in Candidates() <==> 1 <= n <= 45
  {
    forall n | 1 <= n <= 45 ensures n in Candidates() {
      assert Candidates()[n - 1] == n;
    }
  }

  /** Filtering keeps a strictly ascending sequence strictly ascending. */
  lemma {:induction false} UnplayedAscending(ns: seq<int>, excluded: seq<int>)
    requires StrictlyAscending(ns)
    ensures StrictlyAscending(Unplayed(ns, excluded))
  {
    if ns != [] {
      UnplayedAscending(ns[1..], excluded);
      var rest := Unplayed(ns[1..], excluded);
      forall y | y in rest ensures ns[0] < y {
        var k :| 0 <= k < |ns[1..]| && ns[1..][k] == y;
        assert ns[k + 1] == y;
      }
      var r := Unplayed(ns, excluded);
      if ns[0] !in excluded {
        assert r == [ns[0]] + rest;
        forall i, j | 0 <= i < j < |r| ensures r[i] < r[j] {
          assert r[j] == rest[j - 1] && r[j] in rest;
          if i > 0 {
            assert r[i] == rest[i - 1];
          }
        }
      } else {
        assert r == rest;
      }
    }
  }

  /** The pool is strictly ascending and holds exactly the numbers 1..45 that
      no played set contains. */
  lemma PoolSpec(played: seq<seq<int>>)
    ensures StrictlyAscending(Pool(played))
    ensures forall n :: n in Pool(played) <==> 1 <= n <= 45 && !PlayedSomewhere(played, n)
  {
    CandidatesAscending();
    FlattenMembers(played);
    var u := Unplayed(Candidates(), Flatten(played));
    UnplayedAscending(Candidates(), Flatten(played));
    SortIsIdentityOnAscending(u);
  }

  /** Every pool number occurs once. */
  lemma PoolNoRepeats(played: seq<seq<int>>)
    ensures NoRepeats(Pool(played))
  {
    PoolSpec(played);
    StrictlyAscendingNoRepeats(Pool(played));
  }

  /** Filtering a repeat-free sequence removes exactly the excluded values it holds. */
  lemma {:induction false} UnplayedCount(ns: seq<int>, excluded: seq<int>)
    requires StrictlyAscending(ns)
    ensures |Unplayed(ns, excluded)| + |set x | x in ns && x in excluded| == |ns|
  {
    if ns == [] {
      assert (set x | x in ns && x in excluded) == {};
    } else {
      var tail := ns[1..];
      assert StrictlyAscending(tail);
      UnplayedCount(tail, excluded);
      var s := set x | x in ns && x in excluded;
      var t := set x | x in tail && x in excluded;
      assert ns[0] !in tail by {
        forall k | 0 <= k < |tail| ensures tail[k] != ns[0] {
          assert tail[k] == ns[k + 1];
        }
      }
      assert forall x :: x in ns <==> x == ns[0] || x in tail;
      if ns[0] in excluded {
        assert s == t + {ns[0]};
      } else {
        assert s == t;
      }
    }
  }

  /** The pool size and the number of distinct played values in 1..45 add up to 45. */
  lemma PoolSize(played: seq<seq<int>>)
    ensures |Pool(played)| + |set x | x in Flatten(played) && 1 <= x <= 45| == 45
  {
    CandidatesAscending();
    var u := Unplayed(Candidates(), Flatten(played));
    UnplayedAscending(Candidates(), Flatten(played));
    SortIsIdentityOnAscending(u);
    UnplayedCount(Candidates(), Flatten(played));
    assert (set x | x in Candidates() && x in Flatten(played)) == (set x | x in Flatten(played) && 1 <= x <= 45);
  }
}
