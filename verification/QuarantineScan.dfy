/** The bounded keyset scan that collects every account the quarantine registry holds. */
module QuarantineScan {
  import opened Common
  import opened Ordering
  import opened QuarantineTables

  const PAGE: nat := 100
  const MAX_PAGES: nat := 100

  function Above(keys: set<Id>, cursor: Option<Id>): set<Id> {
    if cursor.None? then keys else set x | x in keys && x > cursor.value
  }

  /** One page: at most `limit` rows after the cursor, and a cursor only if more rows follow. */
  method ListAccountQuarantines(registry: QuarantineRegistry, limit: nat, cursor: Option<Id>)
    returns (items: seq<Id>, next: Option<Id>)
    requires 1 <= limit <= PAGE
    ensures var rows := Ascending(Above(registry.markers.Keys, cursor));
            && items == (if |rows| <= limit then rows else rows[..limit])
            && next == (if |rows| <= limit then None else Some(rows[limit - 1]))
  {
    var rows := Ascending(Above(registry.markers.Keys, cursor));
    items := if |rows| <= limit then rows else rows[..limit];
    next := if |rows| <= limit then None else Some(items[|items| - 1]);
  }

  /** In ascending rows, the first `limit` are exactly those up to the last of them. */
  lemma PrefixByValue(rows: seq<Id>, limit: nat, x: Id)
    requires IsAscending(rows) && 1 <= limit <= |rows| && x in rows
    ensures x in rows[..limit] <==> x <= rows[limit - 1]
  {
    var i :| 0 <= i < |rows| && rows[i] == x;
    if i < limit {
      assert rows[..limit][i] == x;
    }
  }

  /** What the scan has found so far: full pages up to the cursor. */
  ghost predicate Scanned(keys: set<Id>, ids: set<Id>, cursor: Option<Id>, pages: nat) {
    ids <= keys && |ids| == PAGE * pages && Above(keys, cursor) == keys - ids
  }

  /** Moving the cursor past a page leaves exactly the rows that are not in it. */
  lemma CursorMoves(keys: set<Id>, ids: set<Id>, cursor: Option<Id>, page: set<Id>, last: Id)
    requires ids <= keys && Above(keys, cursor) == keys - ids
    requires last in keys - ids
    requires forall x | x in keys - ids :: x in page <==> x <= last
    ensures Above(keys, Some(last)) == keys - (ids + page)
  {
    assert last in Above(keys, cursor);
    forall x | x in keys ensures x > last <==> x !in ids && x !in page {
      if x in ids { assert x !in Above(keys, cursor); } else { assert x in keys - ids; }
    }
  }

  lemma NextPage(keys: set<Id>, ids: set<Id>, cursor: Option<Id>, pages: nat, rows: seq<Id>)
    requires Scanned(keys, ids, cursor, pages) && rows == Ascending(Above(keys, cursor))
    ensures |keys| == PAGE * pages + |rows|
    ensures |rows| <= PAGE ==> ids + Elements(rows) == keys
    ensures |rows| > PAGE ==> Scanned(keys, ids + Elements(rows[..PAGE]), Some(rows[PAGE - 1]), pages + 1)
  {
    var left := keys - ids;
    AscendingOrder(left);
    SizeSplits(keys, ids);
    if |rows| > PAGE {
      FullPage(keys, ids, cursor, rows);
    } else {
      SameElements(rows, left);
      SizeSplits(keys, ids);
    }
  }

  lemma SizeSplits(keys: set<Id>, ids: set<Id>)
    requires ids <= keys
    ensures |keys| == |ids| + |keys - ids| && ids + (keys - ids) == keys
  {
    assert ids + (keys - ids) == keys;
  }

  lemma FullPage(keys: set<Id>, ids: set<Id>, cursor: Option<Id>, rows: seq<Id>)
    requires ids <= keys && Above(keys, cursor) == keys - ids
    requires IsAscending(rows) && |rows| > PAGE && forall x :: x in rows <==> x in keys - ids
    ensures var page := Elements(rows[..PAGE]);
            && ids + page <= keys && |ids + page| == |ids| + PAGE
            && Above(keys, Some(rows[PAGE - 1])) == keys - (ids + page)
  {
    var page := Elements(rows[..PAGE]);
    ElementCount(rows[..PAGE]);
    forall x | x in keys - ids ensures x in page <==> x <= rows[PAGE - 1] {
      PrefixByValue(rows, PAGE, x);
    }
    forall x | x in page ensures x in keys - ids {
      assert x in rows;
    }
    assert ids !! page;
    CursorMoves(keys, ids, cursor, page, rows[PAGE - 1]);
  }

  /** The scan fails exactly when the registry holds more markers than its pages can carry;
      otherwise it returns exactly the accounts with a marker or an intent. */
  method QuarantinedAccountIds(registry: QuarantineRegistry) returns (r: Result<set<Id>, Failure>)
    ensures r.Err? <==> |registry.markers| > PAGE * MAX_PAGES
    ensures r.Ok? ==> r.value == registry.markers.Keys + registry.intents.Keys
  {
    ghost var keys := registry.markers.Keys;
    var ids: set<Id> := {};
    var cursor: Option<Id> := None;
    var more := true;
    var page := 0;
    while page < MAX_PAGES && more
      invariant 0 <= page <= MAX_PAGES
      invariant more ==> Scanned(keys, ids, cursor, page) && |keys| > PAGE * page - (if page == 0 then 1 else 0)
      invariant !more ==> ids == keys && |keys| <= PAGE * MAX_PAGES
    {
      NextPage(keys, ids, cursor, page, Ascending(Above(keys, cursor)));
      var items, next := ListAccountQuarantines(registry, PAGE, cursor);
      ids := ids + Elements(items);
      if next.None? {
        more := false;
      } else {
        cursor := next;
      }
      page := page + 1;
    }
    if more {
      return Err(DataInvalid);
    }
    r := Ok(ids + registry.intents.Keys);
  }

  /** In a registry within its capacity, full included, the scan never fails. */
  method ScanWithinCapacity(registry: QuarantineRegistry) returns (ids: set<Id>)
    requires registry.Valid()
    ensures forall id :: id in ids <==> registry.Rows().Held(id)
  {
    var r := QuarantinedAccountIds(registry);
    ids := r.value;
  }
}
