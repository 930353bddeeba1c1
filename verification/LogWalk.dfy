/** Walking a newest-first log page by page while new rows are written. */
module LogWalk {
  import opened Common

  /** `payload` stands for the other fields of the row's fingerprint. */
  datatype Row = Row(id: nat, createdAt: int, payload: nat)

  /** A page as the server sends it: newest row first, the total number of rows it reports, its
      own number, the page size and the number of pages. */
  datatype Page = Page(items: seq<Row>, total: nat, number: nat, pageSize: nat, pages: nat)

  function PagesFor(total: nat, pageSize: nat): nat {
    if pageSize == 0 then 0 else if total == 0 then 1 else (total + pageSize - 1) / pageSize
  }

  /** What the page parser refuses; pages are numbered from one upstream. */
  predicate Malformed(page: Page, p: nat) {
    || page.number != p + 1 || page.pageSize < 1
    || page.pages != PagesFor(page.total, page.pageSize) || page.number > page.pages
    || |page.items| > page.pageSize || |page.items| > page.total
  }

  /** `full` is the page length below which a page counts as the last one.  The usage walk has
      an exclusive end; the probe walk has none. */
  datatype Query = Query(start: int, end: Option<int>, maxPages: nat, full: nat)

  predicate InWindow(q: Query, row: Row) {
    q.start <= row.createdAt && (q.end.Some? ==> row.createdAt < q.end.value)
  }

  datatype Scan = Scan(seen: map<nat, Row>, records: seq<Row>, previous: Option<int>)

  datatype WalkError = RowChanged | OrderChanged | BadPagination | TooManyPages

  datatype Outcome = Going(scan: Scan) | Returned(records: seq<Row>) | Raised(error: WalkError)

  const BEGIN := Scan(map[], [], None)

  function TakeRow(q: Query, s: Scan, row: Row): Outcome {
    if row.id in s.seen then
      if s.seen[row.id] == row then Going(s) else Raised(RowChanged)
    else if s.previous.Some? && row.createdAt > s.previous.value then Raised(OrderChanged)
    else if row.createdAt < q.start then Returned(s.records)
    else
      Going(Scan(s.seen[row.id := row],
                 if InWindow(q, row) then s.records + [row] else s.records,
                 Some(row.createdAt)))
  }

  function ScanItems(q: Query, s: Scan, items: seq<Row>): Outcome
    decreases |items|
  {
    if items == [] then Going(s)
    else
      var first := TakeRow(q, s, items[0]);
      if first.Going? then ScanItems(q, first.scan, items[1..]) else first
  }

  /** Pages are numbered from zero; `read(p)` is what the server answered for page `p`. */
  function WalkFrom(q: Query, read: nat -> Page, p: nat, s: Scan): Outcome
    decreases q.maxPages - p
  {
    if p >= q.maxPages then Raised(TooManyPages)
    else if Malformed(read(p), p) then Raised(BadPagination)
    else
      var scanned := ScanItems(q, s, read(p).items);
      if !scanned.Going? then scanned
      else if p + 1 >= read(p).pages || |read(p).items| < q.full then Returned(scanned.scan.records)
      else WalkFrom(q, read, p + 1, scanned.scan)
  }

  function Walk(q: Query, read: nat -> Page): (r: Outcome)
  {
    WalkFrom(q, read, 0, BEGIN)
  }

  /** The walk as the gateway runs it: two loops with an early return. */
  method FetchRecentLogs(q: Query, read: nat -> Page) returns (r: Result<seq<Row>, WalkError>)
    ensures Walk(q, read) == (if r.Ok? then Returned(r.value) else Raised(r.error))
  {
    var seen: map<nat, Row> := map[];
    var records: seq<Row> := [];
    var previous: Option<int> := None;
    var p := 0;
    while p < q.maxPages
      invariant 0 <= p <= q.maxPages
      invariant Walk(q, read) == WalkFrom(q, read, p, Scan(seen, records, previous))
    {
      var page := read(p);
      if Malformed(page, p) {
        return Err(BadPagination);
      }
      ghost var before := Scan(seen, records, previous);
      var i := 0;
      while i < |page.items|
        invariant 0 <= i <= |page.items|
        invariant ScanItems(q, before, page.items) == ScanItems(q, Scan(seen, records, previous), page.items[i..])
      {
        var row := page.items[i];
        assert page.items[i..][0] == row && page.items[i..][1..] == page.items[i + 1..];
        i := i + 1;
        if row.id in seen {
          if seen[row.id] != row {
            return Err(RowChanged);
          }
          continue;
        }
        seen := seen[row.id := row];
        if previous.Some? && row.createdAt > previous.value {
          return Err(OrderChanged);
        }
        previous := Some(row.createdAt);
        if row.createdAt < q.start {
          return Ok(records);
        }
        if q.end.Some? && row.createdAt >= q.end.value {
          continue;
        }
        records := records + [row];
      }
      if p + 1 >= page.pages || |page.items| < q.full {
        return Ok(records);
      }
      p := p + 1;
    }
    r := Err(TooManyPages);
  }

  // ----- A log that grows while it is walked -----

  /** The final log, oldest row first: times in order, and rows of one identity alike.  Several rows
      without an id of their own may share one identity. */
  ghost predicate IsLog(log: seq<Row>) {
    && (forall i, j | 0 <= i < |log| && 0 <= j < |log| && log[i].id == log[j].id :: log[i] == log[j])
    && (forall i, j | 0 <= i < j < |log| :: log[i].createdAt <= log[j].createdAt)
  }

  /** The `count` rows below position `top`, newest first. */
  function Slice(log: seq<Row>, top: nat, count: nat): seq<Row>
    requires count <= top <= |log|
  {
    if count == 0 then [] else [log[top - 1]] + Slice(log, top - 1, count - 1)
  }

  lemma ScanNothing(q: Query, s: Scan, log: seq<Row>, top: nat)
    requires top <= |log|
    ensures ScanItems(q, s, Slice(log, top, 0)) == Going(s)
  {
  }

  lemma ScanSplits(q: Query, s: Scan, log: seq<Row>, top: nat, count: nat)
    requires 0 < count <= top <= |log|
    ensures var o := TakeRow(q, s, log[top - 1]);
            ScanItems(q, s, Slice(log, top, count))
            == if o.Going? then ScanItems(q, o.scan, Slice(log, top - 1, count - 1)) else o
  {
    hide TakeRow;
    assert Slice(log, top, count)[1..] == Slice(log, top - 1, count - 1);
  }

  lemma {:induction false} SliceLength(log: seq<Row>, top: nat, count: nat)
    requires count <= top <= |log|
    ensures |Slice(log, top, count)| == count
  {
    if count > 0 {
      SliceLength(log, top - 1, count - 1);
    }
  }

  function Min(a: nat, b: nat): nat { if a < b then a else b }

  /** Rows on the pages before page `p`. */
  function Skip(p: nat, pageSize: nat): nat { if p == 0 then 0 else Skip(p - 1, pageSize) + pageSize }

  /** Rows left below the first `skip` of a log that holds `n` rows. */
  function TopAfter(n: nat, skip: nat): nat { if skip < n then n - skip else 0 }

  /** The server's answer for page `p` of a log that holds `n` rows.  Its page count may be
      inexact, but a page that is not the last one says so. */
  ghost predicate ServesPage(page: Page, log: seq<Row>, n: nat, p: nat, pageSize: nat) {
    var top := TopAfter(n, Skip(p, pageSize));
    && n <= |log|
    && page.items == Slice(log, top, Min(top, pageSize))
    && (top > pageSize ==> page.pages > p + 1)
  }

  ghost predicate Grows(sizes: nat -> nat) {
    forall p: nat, r: nat | p <= r :: sizes(p) <= sizes(r)
  }

  /** Page `p` shows the log as it was when page `p` was read; rows are only ever added. */
  ghost predicate Serves(read: nat -> Page, log: seq<Row>, sizes: nat -> nat, pageSize: nat) {
    && IsLog(log) && pageSize >= 1 && Grows(sizes)
    && (forall p: nat :: ServesPage(read(p), log, sizes(p), p, pageSize))
  }

  /** Every row of the first read from position `low` on has been seen. */
  ghost predicate Reached(log: seq<Row>, n0: nat, seen: map<nat, Row>, low: nat)
    requires n0 <= |log|
  {
    forall j | low <= j < n0 :: log[j].id in seen
  }

  /** What was seen are rows of the log, and those of the window are the records, each once. */
  ghost predicate Faithful(q: Query, log: seq<Row>, s: Scan) {
    && (forall id | id in s.seen ::
         s.seen[id] in log && s.seen[id].id == id && (InWindow(q, s.seen[id]) ==> s.seen[id] in s.records))
    && (forall r | r in s.records :: InWindow(q, r) && r.id in s.seen && s.seen[r.id] == r)
    && (forall i, j | 0 <= i < j < |s.records| :: s.records[i].id != s.records[j].id)
  }

  /** Every row of the window that the log held at the first read, each identity once; and only rows
      of the window. */
  ghost predicate Complete(q: Query, log: seq<Row>, n0: nat, records: seq<Row>)
    requires n0 <= |log|
  {
    && (forall j | 0 <= j < n0 && InWindow(q, log[j]) :: log[j] in records)
    && (forall i, j | 0 <= i < j < |records| :: records[i].id != records[j].id)
    && (forall r | r in records :: r in log && InWindow(q, r))
  }

  lemma IdsIdentify(log: seq<Row>, j: nat, row: Row)
    requires IsLog(log) && j < |log| && row in log && row.id == log[j].id
    ensures row == log[j]
  {
    var i :| 0 <= i < |log| && log[i] == row;
    assert log[i] == log[j];
  }

  lemma ReachedIsComplete(q: Query, log: seq<Row>, n0: nat, s: Scan, low: nat)
    requires IsLog(log) && n0 <= |log| && Faithful(q, log, s) && Reached(log, n0, s.seen, low)
    requires forall j | 0 <= j < low && j < n0 :: !InWindow(q, log[j])
    ensures Complete(q, log, n0, s.records)
  {
    forall j | 0 <= j < n0 && InWindow(q, log[j]) ensures log[j] in s.records {
      IdsIdentify(log, j, s.seen[log[j].id]);
    }
  }

  lemma TakeFaithful(q: Query, log: seq<Row>, s: Scan, row: Row)
    requires Faithful(q, log, s) && row in log
    ensures var o := TakeRow(q, s, row); o.Going? ==> Faithful(q, log, o.scan)
  {
  }

  lemma TakeReaches(q: Query, log: seq<Row>, n0: nat, s: Scan, low: nat, top: nat)
    requires n0 <= |log| && low <= top <= |log| && top > 0 && Reached(log, n0, s.seen, low)
    ensures var o := TakeRow(q, s, log[top - 1]); o.Going? ==> Reached(log, n0, o.scan.seen, Min(low, top - 1))
  {
  }

  lemma TakeCovers(q: Query, log: seq<Row>, n0: nat, s: Scan, low: nat, top: nat)
    requires n0 <= |log| && low <= top <= |log| && top > 0
    requires Faithful(q, log, s) && Reached(log, n0, s.seen, low)
    requires TakeRow(q, s, log[top - 1]).Going?
    ensures var after := TakeRow(q, s, log[top - 1]).scan;
            Faithful(q, log, after) && Reached(log, n0, after.seen, Min(low, top - 1))
  {
    TakeFaithful(q, log, s, log[top - 1]);
    TakeReaches(q, log, n0, s, low, top);
  }

  lemma TakeReturns(q: Query, log: seq<Row>, n0: nat, s: Scan, low: nat, top: nat)
    requires IsLog(log) && n0 <= |log| && low <= top <= |log| && top > 0
    requires Faithful(q, log, s) && Reached(log, n0, s.seen, low)
    requires TakeRow(q, s, log[top - 1]).Returned?
    ensures TakeRow(q, s, log[top - 1]).records == s.records && Complete(q, log, n0, s.records)
  {
    ReachedIsComplete(q, log, n0, s, low);
  }

  lemma {:induction false} ScanFaithful(q: Query, log: seq<Row>, s: Scan, top: nat, count: nat)
    requires count <= top <= |log| && Faithful(q, log, s)
    ensures var o := ScanItems(q, s, Slice(log, top, count)); o.Going? ==> Faithful(q, log, o.scan)
    decreases count
  {
    if count > 0 {
      hide Slice, ScanItems, TakeRow, Faithful;
      var o := TakeRow(q, s, log[top - 1]);
      ScanSplits(q, s, log, top, count);
      if o.Going? {
        TakeFaithful(q, log, s, log[top - 1]);
        ScanFaithful(q, log, o.scan, top - 1, count - 1);
      }
    }
  }

  lemma {:induction false} ScanReaches(q: Query, log: seq<Row>, n0: nat, s: Scan, low: nat, top: nat, count: nat)
    requires n0 <= |log| && count <= top <= |log| && low <= top && Reached(log, n0, s.seen, low)
    ensures var o := ScanItems(q, s, Slice(log, top, count));
            o.Going? ==> Reached(log, n0, o.scan.seen, Min(low, top - count))
    decreases count
  {
    if count > 0 {
      hide Slice, ScanItems, TakeRow;
      var o := TakeRow(q, s, log[top - 1]);
      ScanSplits(q, s, log, top, count);
      if o.Going? {
        TakeReaches(q, log, n0, s, low, top);
        ScanReaches(q, log, n0, o.scan, Min(low, top - 1), top - 1, count - 1);
      }
    }
  }

  lemma {:induction false} ScanReturns(q: Query, log: seq<Row>, n0: nat, s: Scan, low: nat, top: nat, count: nat)
    requires IsLog(log) && n0 <= |log| && count <= top <= |log| && low <= top
    requires Faithful(q, log, s) && Reached(log, n0, s.seen, low)
    requires ScanItems(q, s, Slice(log, top, count)).Returned?
    ensures Complete(q, log, n0, ScanItems(q, s, Slice(log, top, count)).records)
    decreases count
  {
    hide Faithful, Reached, Complete, IsLog, Slice, ScanItems, TakeRow;
    if count == 0 {
      ScanNothing(q, s, log, top);
    } else {
      ScanSplits(q, s, log, top, count);
      var o := TakeRow(q, s, log[top - 1]);
      if o.Going? {
        TakeCovers(q, log, n0, s, low, top);
        ScanReturns(q, log, n0, o.scan, Min(low, top - 1), top - 1, count - 1);
      } else {
        TakeReturns(q, log, n0, s, low, top);
      }
    }
  }

  /** The rows above this position have been shown before page `p` is read. */
  function Shown(sizes: nat -> nat, p: nat, pageSize: nat): nat {
    if p == 0 then sizes(0) else Min(sizes(0), TopAfter(sizes(p - 1), Skip(p, pageSize)))
  }

  lemma PageShows(read: nat -> Page, log: seq<Row>, sizes: nat -> nat, pageSize: nat, p: nat)
    requires Serves(read, log, sizes, pageSize)
    ensures var top := TopAfter(sizes(p), Skip(p, pageSize));
            && ServesPage(read(p), log, sizes(p), p, pageSize)
            && sizes(0) <= |log| && Shown(sizes, p, pageSize) <= top
            && Shown(sizes, p + 1, pageSize) == Min(sizes(0), top - Min(top, pageSize))
  {
    assert ServesPage(read(0), log, sizes(0), 0, pageSize);
    if p > 0 {
      assert sizes(p - 1) <= sizes(p);
    }
  }

  /** One page keeps the cover and moves it down; returning from it, or from the last page, is
      returning with everything. */
  lemma PageCovers(q: Query, read: nat -> Page, log: seq<Row>, sizes: nat -> nat, pageSize: nat, p: nat, s: Scan)
    requires Serves(read, log, sizes, pageSize) && sizes(0) <= |log|
    requires Faithful(q, log, s) && Reached(log, sizes(0), s.seen, Shown(sizes, p, pageSize))
    ensures var o := ScanItems(q, s, read(p).items);
            && (o.Going? ==> Faithful(q, log, o.scan))
            && (o.Going? ==> Reached(log, sizes(0), o.scan.seen, Shown(sizes, p + 1, pageSize)))
            && (o.Returned? ==> Complete(q, log, sizes(0), o.records))
  {
    var n0, low := sizes(0), Shown(sizes, p, pageSize);
    var top := TopAfter(sizes(p), Skip(p, pageSize));
    var count := Min(top, pageSize);
    PageShows(read, log, sizes, pageSize, p);
    ScanFaithful(q, log, s, top, count);
    ScanReaches(q, log, n0, s, low, top, count);
    if ScanItems(q, s, read(p).items).Returned? {
      ScanReturns(q, log, n0, s, low, top, count);
    }
  }

  lemma LastPage(q: Query, read: nat -> Page, log: seq<Row>, sizes: nat -> nat, pageSize: nat, p: nat)
    requires Serves(read, log, sizes, pageSize) && q.full <= pageSize
    requires p + 1 >= read(p).pages || |read(p).items| < q.full
    ensures Shown(sizes, p + 1, pageSize) == 0
  {
    PageShows(read, log, sizes, pageSize, p);
    var top := TopAfter(sizes(p), Skip(p, pageSize));
    SliceLength(log, top, Min(top, pageSize));
  }

  lemma {:induction false} WalkCovers(q: Query, read: nat -> Page, log: seq<Row>, sizes: nat -> nat, pageSize: nat,
          p: nat, s: Scan)
    requires Serves(read, log, sizes, pageSize) && q.full <= pageSize && sizes(0) <= |log|
    requires Faithful(q, log, s) && Reached(log, sizes(0), s.seen, Shown(sizes, p, pageSize))
    ensures var o := WalkFrom(q, read, p, s); o.Raised? || (o.Returned? && Complete(q, log, sizes(0), o.records))
    decreases q.maxPages - p
  {
    hide Malformed, Faithful, Reached, Complete, Shown;
    if p < q.maxPages && !Malformed(read(p), p) {
      PageCovers(q, read, log, sizes, pageSize, p, s);
      var o := ScanItems(q, s, read(p).items);
      if o.Going? {
        if p + 1 >= read(p).pages || |read(p).items| < q.full {
          LastPage(q, read, log, sizes, pageSize, p);
          ReachedIsComplete(q, log, sizes(0), o.scan, 0);
        } else {
          WalkCovers(q, read, log, sizes, pageSize, p + 1, o.scan);
        }
      }
    }
  }

  /** Walking a growing log either raises or returns every row of the window that existed at the
      first read, each identity once: rows that move to later pages are seen again, never skipped. */
  lemma WalkIsComplete(q: Query, read: nat -> Page, log: seq<Row>, sizes: nat -> nat, pageSize: nat)
    requires Serves(read, log, sizes, pageSize) && q.full <= pageSize
    ensures sizes(0) <= |log|
    ensures var o := Walk(q, read); o.Raised? || (o.Returned? && Complete(q, log, sizes(0), o.records))
  {
    PageShows(read, log, sizes, pageSize, 0);
    WalkCovers(q, read, log, sizes, pageSize, 0, BEGIN);
  }

  // ----- When the walk raises -----

  /** No row below position `low` is newer than the last one taken. */
  ghost predicate InOrder(log: seq<Row>, low: nat, previous: Option<int>)
    requires low <= |log|
  {
    previous.Some? ==> forall j | 0 <= j < low :: log[j].createdAt <= previous.value
  }

  lemma TakeIsCalm(q: Query, log: seq<Row>, n0: nat, s: Scan, low: nat, top: nat)
    requires IsLog(log) && low <= top <= n0 <= |log| && top > 0
    requires Faithful(q, log, s) && Reached(log, n0, s.seen, low) && InOrder(log, low, s.previous)
    ensures !TakeRow(q, s, log[top - 1]).Raised?
  {
    var row := log[top - 1];
    if row.id in s.seen {
      IdsIdentify(log, top - 1, s.seen[row.id]);
    }
  }

  lemma TakeInOrder(q: Query, log: seq<Row>, s: Scan, low: nat, top: nat)
    requires IsLog(log) && low <= top <= |log| && top > 0 && InOrder(log, low, s.previous)
    requires TakeRow(q, s, log[top - 1]).Going?
    ensures InOrder(log, Min(low, top - 1), TakeRow(q, s, log[top - 1]).scan.previous)
  {
  }

  lemma {:induction false} ScanInOrder(q: Query, log: seq<Row>, s: Scan, low: nat, top: nat, count: nat)
    requires IsLog(log) && count <= top && low <= top <= |log| && InOrder(log, low, s.previous)
    requires ScanItems(q, s, Slice(log, top, count)).Going?
    ensures InOrder(log, Min(low, top - count), ScanItems(q, s, Slice(log, top, count)).scan.previous)
    decreases count
  {
    if count > 0 {
      hide Slice, ScanItems, TakeRow;
      ScanSplits(q, s, log, top, count);
      TakeInOrder(q, log, s, low, top);
      ScanInOrder(q, log, TakeRow(q, s, log[top - 1]).scan, Min(low, top - 1), top - 1, count - 1);
    }
  }

  lemma {:induction false} ScanIsCalm(q: Query, log: seq<Row>, n0: nat, s: Scan, low: nat, top: nat, count: nat)
    requires IsLog(log) && count <= top && low <= top <= n0 <= |log|
    requires Faithful(q, log, s) && Reached(log, n0, s.seen, low) && InOrder(log, low, s.previous)
    ensures !ScanItems(q, s, Slice(log, top, count)).Raised?
    decreases count
  {
    if count > 0 {
      hide Slice, ScanItems, TakeRow;
      var o := TakeRow(q, s, log[top - 1]);
      ScanSplits(q, s, log, top, count);
      TakeIsCalm(q, log, n0, s, low, top);
      if o.Going? {
        TakeCovers(q, log, n0, s, low, top);
        TakeInOrder(q, log, s, low, top);
        ScanIsCalm(q, log, n0, o.scan, Min(low, top - 1), top - 1, count - 1);
      }
    }
  }

  /** When page `p` is read, fewer rows have been added than the pages before it hold. */
  ghost predicate GrowsSlowly(sizes: nat -> nat, pageSize: nat) {
    forall p: nat :: sizes(p) <= sizes(0) + Skip(p, pageSize)
  }

  /** The lowest position taken after page `p`, when `low` was the lowest before it. */
  function LowAfter(sizes: nat -> nat, pageSize: nat, p: nat, low: nat): nat {
    var top := TopAfter(sizes(p), Skip(p, pageSize));
    Min(low, top - Min(top, pageSize))
  }

  lemma PageIsCalm(q: Query, read: nat -> Page, log: seq<Row>, sizes: nat -> nat, pageSize: nat, p: nat, low: nat,
          s: Scan)
    requires Serves(read, log, sizes, pageSize) && GrowsSlowly(sizes, pageSize) && sizes(0) <= |log|
    requires low <= Shown(sizes, p, pageSize)
    requires Faithful(q, log, s) && Reached(log, sizes(0), s.seen, low) && InOrder(log, low, s.previous)
    ensures !ScanItems(q, s, read(p).items).Raised?
  {
    var top := TopAfter(sizes(p), Skip(p, pageSize));
    PageShows(read, log, sizes, pageSize, p);
    assert sizes(p) <= sizes(0) + Skip(p, pageSize);
    ScanIsCalm(q, log, sizes(0), s, low, top, Min(top, pageSize));
  }

  lemma PageGoesDown(q: Query, read: nat -> Page, log: seq<Row>, sizes: nat -> nat, pageSize: nat, p: nat, low: nat,
          s: Scan)
    requires Serves(read, log, sizes, pageSize) && sizes(0) <= |log| && low <= Shown(sizes, p, pageSize)
    requires Faithful(q, log, s) && Reached(log, sizes(0), s.seen, low) && InOrder(log, low, s.previous)
    requires ScanItems(q, s, read(p).items).Going?
    ensures var after, next := ScanItems(q, s, read(p).items).scan, LowAfter(sizes, pageSize, p, low);
            && next <= Shown(sizes, p + 1, pageSize)
            && Faithful(q, log, after)
            && Reached(log, sizes(0), after.seen, next) && InOrder(log, next, after.previous)
  {
    var top := TopAfter(sizes(p), Skip(p, pageSize));
    var count := Min(top, pageSize);
    PageShows(read, log, sizes, pageSize, p);
    ScanFaithful(q, log, s, top, count);
    ScanReaches(q, log, sizes(0), s, low, top, count);
    ScanInOrder(q, log, s, low, top, count);
  }

  lemma {:induction false} WalkIsCalm(q: Query, read: nat -> Page, log: seq<Row>, sizes: nat -> nat, pageSize: nat,
          p: nat, low: nat, s: Scan)
    requires Serves(read, log, sizes, pageSize) && GrowsSlowly(sizes, pageSize) && sizes(0) <= |log|
    requires low <= Shown(sizes, p, pageSize)
    requires Faithful(q, log, s) && Reached(log, sizes(0), s.seen, low) && InOrder(log, low, s.previous)
    ensures var o := WalkFrom(q, read, p, s); o.Raised? ==> o.error.BadPagination? || o.error.TooManyPages?
    decreases q.maxPages - p
  {
    hide Faithful, Reached, InOrder, Serves, GrowsSlowly, LowAfter, Shown;
    if p < q.maxPages && !Malformed(read(p), p) {
      PageIsCalm(q, read, log, sizes, pageSize, p, low, s);
      var o := ScanItems(q, s, read(p).items);
      if o.Going? {
        PageGoesDown(q, read, log, sizes, pageSize, p, low, s);
        WalkIsCalm(q, read, log, sizes, pageSize, p + 1, LowAfter(sizes, pageSize, p, low), o.scan);
      }
    }
  }

  /** On such a log the walk never reports a changed row, and reports a changed order only if
      more rows arrived during the walk than the pages already read hold. */
  lemma WalkRaisesOnlyOnBursts(q: Query, read: nat -> Page, log: seq<Row>, sizes: nat -> nat, pageSize: nat)
    requires Serves(read, log, sizes, pageSize) && GrowsSlowly(sizes, pageSize)
    ensures var o := Walk(q, read); o.Raised? ==> o.error.BadPagination? || o.error.TooManyPages?
  {
    PageShows(read, log, sizes, pageSize, 0);
    WalkIsCalm(q, read, log, sizes, pageSize, 0, sizes(0), BEGIN);
  }

  /** The server numbers its pages and counts its rows and pages as they are. */
  ghost predicate Honest(read: nat -> Page, sizes: nat -> nat, pageSize: nat) {
    forall p: nat :: CountsPage(read(p), sizes(p), p, pageSize)
  }

  predicate CountsPage(page: Page, n: nat, p: nat, pageSize: nat) {
    && page.number == p + 1 && page.pageSize == pageSize
    && page.total == n && page.pages == PagesFor(n, pageSize)
  }

  lemma DivisionRises(a: nat, b: nat, d: nat)
    requires a <= b && d > 0
    ensures a / d <= b / d
  {
    QuotientOrder(a / d, b / d, d, a % d, b % d);
  }

  lemma QuotientOrder(x: int, y: int, d: int, r: int, s: int)
    requires d > 0 && 0 <= r && s < d && x * d + r <= y * d + s
    ensures x <= y
  {
    if x > y {
      ProductStep(x, y, d);
    }
  }

  lemma ProductStep(x: int, y: int, d: int)
    requires d > 0 && x > y
    ensures x * d >= y * d + d
  {
    var more: nat := x - y - 1;
    ProductIsNatural(more, d);
    assert x * d == (y + 1 + more) * d == y * d + d + more * d;
  }

  lemma ProductIsNatural(x: nat, y: nat)
    ensures x * y >= 0
  {
  }

  lemma PagesRise(a: nat, b: nat, pageSize: nat)
    requires a <= b && pageSize >= 1
    ensures 1 <= PagesFor(a, pageSize) <= PagesFor(b, pageSize)
  {
    DivisionRises(pageSize, a + pageSize, pageSize);
    if a > 0 { DivisionRises(pageSize, a + pageSize - 1, pageSize); }
    if b > 0 {
      DivisionRises(pageSize, b + pageSize - 1, pageSize);
      if a > 0 { DivisionRises(a + pageSize - 1, b + pageSize - 1, pageSize); }
    }
  }

  lemma HonestPage(read: nat -> Page, log: seq<Row>, sizes: nat -> nat, pageSize: nat, p: nat)
    requires Serves(read, log, sizes, pageSize) && Honest(read, sizes, pageSize)
    requires p + 1 <= PagesFor(sizes(p), pageSize)
    ensures !Malformed(read(p), p)
  {
    assert ServesPage(read(p), log, sizes(p), p, pageSize) && CountsPage(read(p), sizes(p), p, pageSize);
    var top := TopAfter(sizes(p), Skip(p, pageSize));
    SliceLength(log, top, Min(top, pageSize));
  }

  /** Against such a server no page is refused. */
  lemma {:induction false} HonestWalk(q: Query, read: nat -> Page, log: seq<Row>, sizes: nat -> nat, pageSize: nat,
          p: nat, s: Scan)
    requires Serves(read, log, sizes, pageSize) && Honest(read, sizes, pageSize)
    requires p + 1 <= PagesFor(sizes(p), pageSize)
    ensures var o := WalkFrom(q, read, p, s); o.Raised? ==> !o.error.BadPagination?
    decreases q.maxPages - p
  {
    HonestPage(read, log, sizes, pageSize, p);
    assert CountsPage(read(p), sizes(p), p, pageSize);
    PagesRise(sizes(p), sizes(p + 1), pageSize);
    ScanNeverBlamesPages(q, s, read(p).items);
    hide Serves, Honest, Malformed, PagesFor, ScanItems;
    if p < q.maxPages && p + 1 < read(p).pages && ScanItems(q, s, read(p).items).Going? {
      HonestWalk(q, read, log, sizes, pageSize, p + 1, ScanItems(q, s, read(p).items).scan);
    }
  }

  lemma {:induction false} ScanNeverBlamesPages(q: Query, s: Scan, items: seq<Row>)
    ensures var o := ScanItems(q, s, items); o.Raised? ==> o.error.RowChanged? || o.error.OrderChanged?
    decreases |items|
  {
    if items != [] && TakeRow(q, s, items[0]).Going? {
      ScanNeverBlamesPages(q, TakeRow(q, s, items[0]).scan, items[1..]);
    }
  }

  /** Against an honest server, on a log that does not outgrow the walk, the walk returns unless it
      runs out of pages. */
  lemma HonestWalkReturns(q: Query, read: nat -> Page, log: seq<Row>, sizes: nat -> nat, pageSize: nat)
    requires Serves(read, log, sizes, pageSize) && Honest(read, sizes, pageSize) && GrowsSlowly(sizes, pageSize)
    ensures Walk(q, read).Returned? || Walk(q, read) == Raised(TooManyPages)
  {
    PagesRise(sizes(0), sizes(0), pageSize);
    HonestWalk(q, read, log, sizes, pageSize, 0, BEGIN);
    WalkRaisesOnlyOnBursts(q, read, log, sizes, pageSize);
    NeverGoing(q, read, 0, BEGIN);
  }

  lemma {:induction false} NeverGoing(q: Query, read: nat -> Page, p: nat, s: Scan)
    ensures !WalkFrom(q, read, p, s).Going?
    decreases q.maxPages - p
  {
    if p < q.maxPages {
      var o := ScanItems(q, s, read(p).items);
      if o.Going? { NeverGoing(q, read, p + 1, o.scan); }
    }
  }

  // ----- Rows that look alike -----

  function IdsOf(rows: seq<Row>): set<nat> { set r | r in rows :: r.id }

  function WindowIds(q: Query, log: seq<Row>): set<nat> { set r | r in log && InWindow(q, r) :: r.id }

  lemma {:induction false} DistinctIdsCount(rows: seq<Row>)
    requires forall i, j | 0 <= i < j < |rows| :: rows[i].id != rows[j].id
    ensures |IdsOf(rows)| == |rows|
  {
    if rows != [] {
      var most, last := rows[..|rows| - 1], rows[|rows| - 1];
      DistinctIdsCount(most);
      assert rows == most + [last];
      assert IdsOf(rows) == IdsOf(most) + {last.id};
      assert forall r | r in most :: r.id != last.id;
    }
  }

  /** What a complete walk over a settled log returns counts identities, not rows: rows without an
      id of their own that look alike count once. */
  lemma AlikeCountOnce(q: Query, log: seq<Row>, records: seq<Row>)
    requires IsLog(log) && Complete(q, log, |log|, records)
    ensures |records| == |WindowIds(q, log)|
  {
    DistinctIdsCount(records);
    forall r | r in log && InWindow(q, r) ensures r in records {
      var j :| 0 <= j < |log| && log[j] == r;
      assert log[j] in records;
    }
    assert IdsOf(records) == WindowIds(q, log);
  }

  // ----- A server page shorter than the length the walk calls full -----

  /** `n` rows written in the same instant, all in the window. */
  function Flat(q: Query, n: nat): (rows: seq<Row>)
    ensures |rows| == n
  {
    seq(n, (i: nat) => Row(i, q.start, 0))
  }

  function FlatPage(q: Query, n: nat, p: nat, pageSize: nat): Page {
    var top := TopAfter(n, Skip(p, pageSize));
    Page(Slice(Flat(q, n), top, Min(top, pageSize)), n, p + 1, pageSize, 2)
  }

  lemma TwoPages(pageSize: nat)
    requires pageSize >= 1
    ensures PagesFor(pageSize + 1, pageSize) == 2
  {
  }

  lemma FlatAt(q: Query, n: nat, i: nat)
    requires i < n
    ensures Flat(q, n)[i] == Row(i, q.start, 0)
  {
  }

  lemma FlatTake(q: Query, s: Scan, id: nat)
    requires q.end.Some? ==> q.start < q.end.value
    requires s.previous.Some? ==> s.previous.value == q.start
    requires id !in s.seen
    ensures TakeRow(q, s, Row(id, q.start, 0))
            == Going(Scan(s.seen[id := Row(id, q.start, 0)], s.records + [Row(id, q.start, 0)], Some(q.start)))
  {
  }

  lemma {:induction false} FlatScan(q: Query, n: nat, s: Scan, top: nat, count: nat)
    requires count <= top <= n && (q.end.Some? ==> q.start < q.end.value)
    requires s.previous.Some? ==> s.previous.value == q.start
    requires forall id | id in s.seen :: id >= top
    requires forall r | r in s.records :: r.id >= top
    ensures var o := ScanItems(q, s, Slice(Flat(q, n), top, count));
            o.Going? && (forall r | r in o.scan.records :: r.id >= top - count)
    decreases count
  {
    hide Slice, ScanItems, TakeRow, InWindow, Flat;
    if count == 0 {
      ScanNothing(q, s, Flat(q, n), top);
    } else {
      FlatAt(q, n, top - 1);
      var row := Row(top - 1, q.start, 0);
      ScanSplits(q, s, Flat(q, n), top, count);
      FlatTake(q, s, top - 1);
      FlatScan(q, n, Scan(s.seen[top - 1 := row], s.records + [row], Some(q.start)), top - 1, count - 1);
    }
  }

  /** With a full length above the server's page size the walk stops after one page and loses
      rows of the window, for every such page size: with `WalkIsComplete`, the walk is complete on
      all growing logs exactly when the server's page size reaches the full length. */
  lemma ShortPagesLoseRows(q: Query, pageSize: nat) returns (read: nat -> Page, log: seq<Row>, sizes: nat -> nat)
    requires 1 <= pageSize < q.full && q.maxPages >= 1 && (q.end.Some? ==> q.start < q.end.value)
    ensures Serves(read, log, sizes, pageSize) && sizes(0) <= |log|
    ensures var o := Walk(q, read); o.Returned? && !Complete(q, log, sizes(0), o.records)
  {
    var n := pageSize + 1;
    log := Flat(q, n);
    sizes := (p: nat) => n;
    read := (p: nat) => FlatPage(q, n, p, pageSize);
    assert Serves(read, log, sizes, pageSize);
    SliceLength(log, n, pageSize);
    TwoPages(pageSize);
    FlatScan(q, n, BEGIN, n, pageSize);
    assert InWindow(q, log[0]) && log[0].id == 0;
  }
}
