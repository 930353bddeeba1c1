/** Counting, selecting and adding up the rows of a sequence. */
module Counting {

  /** The places of the rows that have a property. */
  function Places<T>(s: seq<T>, p: T -> bool): set<nat> { set i: nat | i < |s| && p(s[i]) }

  lemma PlacesOneMore<T>(s: seq<T>, p: T -> bool)
    requires s != []
    ensures |Places(s, p)| == |Places(s[..|s| - 1], p)| + if p(s[|s| - 1]) then 1 else 0
  {
    assert Places(s, p) == Places(s[..|s| - 1], p) + if p(s[|s| - 1]) then {|s| - 1} else {};
  }

  /** The rows that have a property, in order. */
  function Only<T>(s: seq<T>, p: T -> bool): seq<T> {
    if s == [] then [] else Only(s[..|s| - 1], p) + if p(s[|s| - 1]) then [s[|s| - 1]] else []
  }

  lemma {:induction false} OnlyMeans<T(!new)>(s: seq<T>, p: T -> bool)
    ensures forall x :: x in Only(s, p) <==> x in s && p(x)
    ensures |Only(s, p)| == |Places(s, p)|
  {
    if s != [] {
      OnlyMeans(s[..|s| - 1], p);
      PlacesOneMore(s, p);
      assert s == s[..|s| - 1] + [s[|s| - 1]];
      hide Places;
    }
  }

  function Sum<T>(s: seq<T>, value: T -> real): real {
    if s == [] then 0.0 else Sum(s[..|s| - 1], value) + value(s[|s| - 1])
  }
}
