/** Sorting rows into groups by key, as the bucket builders do with their dictionaries. */
module Grouping {

  /** A channel and a bucket time; `source` tells the evidence sources of one bucket apart. */
  datatype Key = Key(channel: nat, at: int, source: nat)

  predicate KeyBefore(a: Key, b: Key) {
    || a.channel < b.channel
    || (a.channel == b.channel && a.at < b.at)
    || (a.channel == b.channel && a.at == b.at && a.source < b.source)
  }

  predicate Ascending(keys: seq<Key>) { forall i, j | 0 <= i < j < |keys| :: KeyBefore(keys[i], keys[j]) }

  function Group<T>(rows: seq<T>, key: T -> Key, k: Key): seq<T> {
    if rows == [] then []
    else Group(rows[..|rows| - 1], key, k) + if key(rows[|rows| - 1]) == k then [rows[|rows| - 1]] else []
  }

  /** The keys in order, each once. */
  function WithKey(keys: seq<Key>, k: Key): seq<Key> {
    if keys == [] || KeyBefore(k, keys[0]) then [k] + keys
    else if keys[0] == k then keys
    else [keys[0]] + WithKey(keys[1..], k)
  }

  function KeysOf<T>(rows: seq<T>, key: T -> Key): seq<Key> {
    if rows == [] then [] else WithKey(KeysOf(rows[..|rows| - 1], key), key(rows[|rows| - 1]))
  }

  lemma {:induction false} WithKeyHas(keys: seq<Key>, k: Key, x: Key)
    ensures x in WithKey(keys, k) <==> x in keys || x == k
  {
    if keys != [] && !KeyBefore(k, keys[0]) && keys[0] != k {
      WithKeyHas(keys[1..], k, x);
    }
  }

  lemma {:induction false} WithKeyAscends(keys: seq<Key>, k: Key)
    requires Ascending(keys)
    ensures Ascending(WithKey(keys, k))
  {
    if keys != [] && !KeyBefore(k, keys[0]) && keys[0] != k {
      WithKeyAscends(keys[1..], k);
      forall x | x in WithKey(keys[1..], k) ensures KeyBefore(keys[0], x) {
        WithKeyHas(keys[1..], k, x);
      }
    }
  }

  lemma {:induction false} KeysAreSorted<T>(rows: seq<T>, key: T -> Key)
    ensures Ascending(KeysOf(rows, key))
    ensures forall k | 0 <= k < |rows| :: key(rows[k]) in KeysOf(rows, key)
    ensures forall x | x in KeysOf(rows, key) :: Group(rows, key, x) != []
  {
    if rows != [] {
      var most, last := rows[..|rows| - 1], rows[|rows| - 1];
      KeysAreSorted(most, key);
      WithKeyAscends(KeysOf(most, key), key(last));
      forall k | 0 <= k < |rows| ensures key(rows[k]) in KeysOf(rows, key) {
        WithKeyHas(KeysOf(most, key), key(last), key(rows[k]));
      }
      forall x | x in KeysOf(rows, key) ensures Group(rows, key, x) != [] {
        WithKeyHas(KeysOf(most, key), key(last), x);
      }
    }
  }

  lemma {:induction false} GroupFrom<T>(rows: seq<T>, key: T -> Key, k: Key)
    ensures forall x | x in Group(rows, key, k) :: x in rows && key(x) == k
  {
    if rows != [] {
      GroupFrom(rows[..|rows| - 1], key, k);
    }
  }

  /** How much the rows weigh together. */
  function Total<T>(rows: seq<T>, weight: T -> nat): nat {
    if rows == [] then 0 else Total(rows[..|rows| - 1], weight) + weight(rows[|rows| - 1])
  }

  function GroupTotals<T>(keys: seq<Key>, rows: seq<T>, key: T -> Key, weight: T -> nat): nat {
    if keys == [] then 0 else Total(Group(rows, key, keys[0]), weight) + GroupTotals(keys[1..], rows, key, weight)
  }

  lemma TotalAppend<T>(rows: seq<T>, x: T, weight: T -> nat)
    ensures Total(rows + [x], weight) == Total(rows, weight) + weight(x)
  {
    assert (rows + [x])[..|rows|] == rows;
  }

  lemma GroupAppend<T>(rows: seq<T>, x: T, key: T -> Key, k: Key)
    ensures Group(rows + [x], key, k) == Group(rows, key, k) + if key(x) == k then [x] else []
  {
    assert (rows + [x])[..|rows|] == rows;
  }

  lemma {:induction false} TotalsAppend<T>(keys: seq<Key>, rows: seq<T>, x: T, key: T -> Key, weight: T -> nat)
    requires Ascending(keys)
    ensures GroupTotals(keys, rows + [x], key, weight)
            == GroupTotals(keys, rows, key, weight) + if key(x) in keys then weight(x) else 0
    decreases |keys|
  {
    if keys != [] {
      TotalsAppend(keys[1..], rows, x, key, weight);
      GroupAppend(rows, x, key, keys[0]);
      if key(x) == keys[0] {
        TotalAppend(Group(rows, key, keys[0]), x, weight);
        assert key(x) !in keys[1..];
      } else {
        assert Group(rows, key, keys[0]) + [] == Group(rows, key, keys[0]);
      }
    }
  }

  /** Nothing is lost and nothing counted twice: the groups weigh what the rows weigh. */
  lemma {:induction false} GroupsConserve<T>(keys: seq<Key>, rows: seq<T>, key: T -> Key, weight: T -> nat)
    requires Ascending(keys) && forall k | 0 <= k < |rows| :: key(rows[k]) in keys
    ensures GroupTotals(keys, rows, key, weight) == Total(rows, weight)
    decreases |rows|
  {
    if rows == [] {
      EmptyGroups(keys, key, weight);
    } else {
      var most, last := rows[..|rows| - 1], rows[|rows| - 1];
      assert rows == most + [last];
      GroupsConserve(keys, most, key, weight);
      TotalsAppend(keys, most, last, key, weight);
    }
  }

  lemma {:induction false} EmptyGroups<T>(keys: seq<Key>, key: T -> Key, weight: T -> nat)
    ensures GroupTotals(keys, [], key, weight) == 0
    decreases |keys|
  {
    if keys != [] {
      EmptyGroups(keys[1..], key, weight);
    }
  }
}
