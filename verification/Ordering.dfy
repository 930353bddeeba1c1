/** Finite sets of numbers in ascending order. */
module Ordering {

  function Elements(rows: seq<nat>): set<nat> {
    set x | x in rows
  }

  ghost predicate IsAscending(rows: seq<nat>) {
    forall i, j | 0 <= i < j < |rows| :: rows[i] < rows[j]
  }

  lemma {:induction false} ElementCount(rows: seq<nat>)
    requires IsAscending(rows)
    ensures |Elements(rows)| == |rows|
  {
    if rows == [] {
      assert Elements(rows) == {};
    } else {
      var most, last := rows[..|rows| - 1], rows[|rows| - 1];
      ElementCount(most);
      assert rows == most + [last];
      assert Elements(rows) == Elements(most) + {last};
      assert last !in most;
    }
  }

  lemma AppendAscending(rows: seq<nat>, x: nat)
    requires IsAscending(rows) && forall y | y in rows :: y < x
    ensures IsAscending(rows + [x])
  {
    assert forall i | 0 <= i < |rows| :: rows[i] in rows;
  }

  /** Every element before position `k` of ascending rows is below the one at `k`. */
  lemma BelowAt(rows: seq<nat>, k: nat)
    requires IsAscending(rows) && k < |rows|
    ensures forall x | x in rows[..k] :: x < rows[k]
    ensures rows[..k + 1] == rows[..k] + [rows[k]]
  {
    forall x | x in rows[..k] ensures x < rows[k] {
      var j :| 0 <= j < k && rows[..k][j] == x;
    }
  }

  lemma ElementsAppend(rows: seq<nat>, x: nat)
    ensures Elements(rows + [x]) == Elements(rows) + {x}
  {
  }

  lemma SameElements(rows: seq<nat>, s: set<nat>)
    requires forall x :: x in rows <==> x in s
    ensures Elements(rows) == s
  {
  }

  lemma SubsetSize(a: set<nat>, b: set<nat>)
    requires a <= b
    ensures |a| <= |b| && |b - a| == |b| - |a|
  {
    assert b == a + (b - a);
  }

  lemma {:induction false} LeastExists(s: set<nat>) returns (m: nat)
    requires s != {}
    ensures m in s && forall x | x in s :: m <= x
    decreases |s|
  {
    m :| m in s;
    var rest := s - {m};
    assert s == rest + {m};
    if rest != {} {
      var least := LeastExists(rest);
      m := if m <= least then m else least;
    }
  }

  function Least(s: set<nat>): (m: nat)
    requires s != {}
    ensures m in s && forall x | x in s :: m <= x
  {
    assert exists m :: m in s && forall x | x in s :: m <= x by {
      var m := LeastExists(s);
    }
    var m :| m in s && forall x | x in s :: m <= x;
    m
  }

  /** The elements in ascending order. */
  function Ascending(s: set<nat>): seq<nat>
    decreases |s|
  {
    if s == {} then [] else [Least(s)] + Ascending(s - {Least(s)})
  }

  lemma {:induction false} AscendingOrder(s: set<nat>)
    ensures var rows := Ascending(s);
            |rows| == |s| && IsAscending(rows) && forall x :: x in rows <==> x in s
    decreases |s|
  {
    if s != {} {
      var m := Least(s);
      var rest := s - {m};
      AscendingOrder(rest);
      assert Ascending(s) == [m] + Ascending(rest);
      assert |s| == |rest| + 1;
      forall j | 1 <= j < |s| ensures m < Ascending(s)[j] {
        assert Ascending(s)[j] == Ascending(rest)[j - 1];
        assert Ascending(rest)[j - 1] in Ascending(rest);
      }
    }
  }
}
