/** Sorting numbers, and the nearest-rank percentile. */
module Sorting {
  import opened Common

  function Inserted(times: seq<int>, x: int): seq<int> {
    if times == [] || x <= times[0] then [x] + times else [times[0]] + Inserted(times[1..], x)
  }

  function SortedInts(values: seq<int>): seq<int> {
    if values == [] then [] else Inserted(SortedInts(values[1..]), values[0])
  }

  predicate IsSorted(s: seq<int>) { forall i, j | 0 <= i < j < |s| :: s[i] <= s[j] }

  predicate AllAtLeast(s: seq<int>, lo: int) { forall i | 0 <= i < |s| :: lo <= s[i] }

  lemma {:induction false} InsertedAtLeast(s: seq<int>, x: int, lo: int)
    requires lo <= x && AllAtLeast(s, lo)
    ensures AllAtLeast(Inserted(s, x), lo)
  {
    if s != [] && x > s[0] {
      InsertedAtLeast(s[1..], x, lo);
    }
  }

  lemma {:induction false} InsertedIsSorted(s: seq<int>, x: int)
    requires IsSorted(s)
    ensures IsSorted(Inserted(s, x))
  {
    if s != [] && x > s[0] {
      InsertedIsSorted(s[1..], x);
      InsertedAtLeast(s[1..], x, s[0]);
    }
  }

  lemma {:induction false} InsertedHas(s: seq<int>, x: int)
    ensures multiset(Inserted(s, x)) == multiset(s) + multiset{x}
  {
    if s != [] && x > s[0] {
      InsertedHas(s[1..], x);
      assert s == [s[0]] + s[1..];
    }
  }

  lemma {:induction false} SortedIntsSorts(values: seq<int>)
    ensures IsSorted(SortedInts(values)) && multiset(SortedInts(values)) == multiset(values)
    ensures |SortedInts(values)| == |values|
  {
    if values != [] {
      SortedIntsSorts(values[1..]);
      InsertedIsSorted(SortedInts(values[1..]), values[0]);
      InsertedHas(SortedInts(values[1..]), values[0]);
      assert values == [values[0]] + values[1..];
      assert |multiset(SortedInts(values))| == |multiset(values)|;
    }
  }

  function CountAtMost(values: seq<int>, x: int): nat {
    if values == [] then 0 else (if values[0] <= x then 1 else 0) + CountAtMost(values[1..], x)
  }

  function Rank95(n: nat): nat { (19 * n + 19) / 20 }

  lemma Rank95Bounds(n: nat)
    requires n > 0
    ensures 1 <= Rank95(n) <= n && 19 * n <= 20 * Rank95(n) < 19 * n + 20
  {
  }

  /** The 95th percentile by nearest rank. */
  function NearestRank95(values: seq<int>): Option<int> {
    if values == [] then None
    else
      SortedIntsSorts(values);
      Rank95Bounds(|values|);
      Some(SortedInts(values)[Rank95(|values|) - 1])
  }

  lemma {:induction false} InsertedCount(s: seq<int>, v: int, x: int)
    ensures CountAtMost(Inserted(s, v), x) == CountAtMost(s, x) + if v <= x then 1 else 0
  {
    if s != [] && v > s[0] {
      InsertedCount(s[1..], v, x);
    }
  }

  lemma {:induction false} SortedCount(values: seq<int>, x: int)
    ensures CountAtMost(SortedInts(values), x) == CountAtMost(values, x)
  {
    if values != [] {
      SortedCount(values[1..], x);
      InsertedCount(SortedInts(values[1..]), values[0], x);
    }
  }

  lemma {:induction false} CountBounds(s: seq<int>, k: nat, x: int)
    requires IsSorted(s) && k < |s|
    ensures s[k] <= x ==> CountAtMost(s, x) >= k + 1
    ensures s[k] > x ==> CountAtMost(s, x) <= k
  {
    if k > 0 {
      CountBounds(s[1..], k - 1, x);
    } else if s[0] > x {
      CountNone(s, x);
    }
  }

  lemma {:induction false} CountNone(s: seq<int>, x: int)
    requires AllAtLeast(s, x + 1)
    ensures CountAtMost(s, x) == 0
  {
    if s != [] {
      CountNone(s[1..], x);
    }
  }

  /** The percentile is the least of the values that at least 95 percent of them do not exceed. */
  lemma NearestRankIsLeast(values: seq<int>)
    requires values != []
    ensures var r := NearestRank95(values).value;
            && r in values && 20 * CountAtMost(values, r) >= 19 * |values|
            && forall x | x < r :: 20 * CountAtMost(values, x) < 19 * |values|
  {
    SortedIntsSorts(values);
    Rank95Bounds(|values|);
    var s, k := SortedInts(values), Rank95(|values|) - 1;
    assert s[k] in multiset(s);
    SortedCount(values, s[k]);
    CountBounds(s, k, s[k]);
    forall x | x < s[k] ensures CountAtMost(values, x) <= k {
      SortedCount(values, x);
      CountBounds(s, k, x);
    }
  }
}
