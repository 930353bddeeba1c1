/** Exactly how a walk over the log ends, in terms of the pages it may read. */
module LogWalkOutcome {
  import opened Common
  import opened LogWalk

  // ----- One scan over all rows -----

  lemma {:induction false} ScanBoth(q: Query, s: Scan, a: seq<Row>, b: seq<Row>)
    ensures var o := ScanItems(q, s, a);
            ScanItems(q, s, a + b) == if o.Going? then ScanItems(q, o.scan, b) else o
    decreases |a|
  {
    if a == [] {
      assert a + b == b;
    } else {
      assert (a + b)[1..] == a[1..] + b;
      if TakeRow(q, s, a[0]).Going? { ScanBoth(q, TakeRow(q, s, a[0]).scan, a[1..], b); }
    }
  }

  lemma ScanOneMore(q: Query, rows: seq<Row>, row: Row)
    ensures var o := ScanItems(q, BEGIN, rows);
            ScanItems(q, BEGIN, rows + [row]) == if o.Going? then TakeRow(q, o.scan, row) else o
  {
    ScanBoth(q, BEGIN, rows, [row]);
    if ScanItems(q, BEGIN, rows).Going? {
      var s := ScanItems(q, BEGIN, rows).scan;
      assert [row][1..] == [];
    }
  }

  /** No earlier row has the identity of row `j`. */
  predicate IsNew(rows: seq<Row>, j: nat)
    requires j < |rows|
  {
    forall i | 0 <= i < j :: rows[i].id != rows[j].id
  }

  predicate Alike(rows: seq<Row>) {
    forall i, j | 0 <= i < j < |rows| && rows[i].id == rows[j].id :: rows[i] == rows[j]
  }

  /** Rows that are new come in order, newest first. */
  predicate NewestFirst(rows: seq<Row>) {
    forall i: nat, j: nat | i < j < |rows| && IsNew(rows, j) :: rows[j].createdAt <= rows[i].createdAt
  }

  /** The new rows of the window, in the order of the pages. */
  function NewInWindow(q: Query, rows: seq<Row>): seq<Row> {
    if rows == [] then []
    else
      var last := |rows| - 1;
      var at := rows[last].createdAt;
      NewInWindow(q, rows[..last])
      + if IsNew(rows, last) && at >= q.start && (q.end.Some? ==> at < q.end.value) then [rows[last]] else []
  }

  predicate Reads(q: Query, rows: seq<Row>) {
    && Alike(rows) && NewestFirst(rows)
    && forall j | 0 <= j < |rows| :: rows[j].createdAt >= q.start
  }

  /** A scan that still goes on has seen exactly these rows, ... */
  ghost predicate HasSeen(rows: seq<Row>, seen: map<nat, Row>) {
    && (forall id :: id in seen <==> exists i :: 0 <= i < |rows| && rows[i].id == id)
    && (forall i | 0 <= i < |rows| :: seen[rows[i].id] == rows[i])
  }

  /** ... the oldest of them last, ... */
  ghost predicate LastTaken(rows: seq<Row>, previous: Option<int>) {
    && (rows == [] <==> previous.None?)
    && (forall i | 0 <= i < |rows| :: previous.value <= rows[i].createdAt)
    && (previous.Some? ==> exists i :: 0 <= i < |rows| && rows[i].createdAt == previous.value)
  }

  /** ... and holds the new ones of the window. */
  ghost predicate Holds(q: Query, rows: seq<Row>, s: Scan) {
    HasSeen(rows, s.seen) && LastTaken(rows, s.previous) && s.records == NewInWindow(q, rows)
  }

  lemma PrefixReads(q: Query, rows: seq<Row>, row: Row)
    ensures Reads(q, rows + [row]) <==>
              && Reads(q, rows) && row.createdAt >= q.start
              && (forall i | 0 <= i < |rows| && rows[i].id == row.id :: rows[i] == row)
              && (forall i | 0 <= i < |rows| && IsNew(rows + [row], |rows|) :: row.createdAt <= rows[i].createdAt)
  {
    var all := rows + [row];
    assert forall i | 0 <= i < |rows| :: all[i] == rows[i];
    assert forall j: nat | j < |rows| :: IsNew(all, j) <==> IsNew(rows, j);
    assert all[|rows|] == row;
  }

  /** The next row ends the scan: it is unlike an earlier row of its identity; or it is new, and newer
      than an earlier row; or it is new, in order, and older than the start. */
  predicate StopsWith(q: Query, rows: seq<Row>, row: Row, o: Outcome) {
    var known := exists i :: 0 <= i < |rows| && rows[i].id == row.id;
    var newer := exists i :: 0 <= i < |rows| && rows[i].createdAt < row.createdAt;
    match o
    case Going(_) => false
    case Returned(records) => !known && !newer && row.createdAt < q.start && records == NewInWindow(q, rows)
    case Raised(error) =>
      || (error.RowChanged? && exists i :: 0 <= i < |rows| && rows[i].id == row.id && rows[i] != row)
      || (error.OrderChanged? && !known && newer)
  }

  lemma NewMeans(rows: seq<Row>, row: Row)
    ensures IsNew(rows + [row], |rows|) <==> forall i | 0 <= i < |rows| :: rows[i].id != row.id
  {
    var all := rows + [row];
    assert forall i | 0 <= i < |rows| :: all[i] == rows[i];
  }

  lemma TakeDecides(q: Query, rows: seq<Row>, s: Scan, row: Row)
    requires Reads(q, rows) && Holds(q, rows, s)
    ensures TakeRow(q, s, row).Going? <==> Reads(q, rows + [row])
    ensures !TakeRow(q, s, row).Going? ==> StopsWith(q, rows, row, TakeRow(q, s, row))
  {
    PrefixReads(q, rows, row);
    NewMeans(rows, row);
    if row.id in s.seen {
      var i :| 0 <= i < |rows| && rows[i].id == row.id;
      assert s.seen[rows[i].id] == rows[i];
    }
  }

  lemma StopsOnce(q: Query, rows: seq<Row>, s: Scan, row: Row, o: Outcome)
    requires Holds(q, rows, s) && StopsWith(q, rows, row, o)
    ensures TakeRow(q, s, row) == o
  {
  }

  lemma SeesOneMore(rows: seq<Row>, seen: map<nat, Row>, row: Row)
    requires HasSeen(rows, seen) && (row.id in seen ==> seen[row.id] == row)
    ensures HasSeen(rows + [row], seen[row.id := row])
  {
    var all, next := rows + [row], seen[row.id := row];
    assert all[|rows|] == row && forall i | 0 <= i < |rows| :: all[i] == rows[i];
    forall id ensures id in next <==> exists i :: 0 <= i < |all| && all[i].id == id {
      if id in seen {
        var i :| 0 <= i < |rows| && rows[i].id == id;
        assert all[i].id == id;
      }
      if id == row.id { assert all[|rows|].id == id; }
    }
  }

  lemma LastOneMore(rows: seq<Row>, previous: Option<int>, row: Row, again: bool)
    requires LastTaken(rows, previous)
    requires again ==> row in rows
    requires !again && previous.Some? ==> row.createdAt <= previous.value
    ensures LastTaken(rows + [row], if again then previous else Some(row.createdAt))
  {
    var all := rows + [row];
    assert all[|rows|] == row && forall i | 0 <= i < |rows| :: all[i] == rows[i];
    if again {
      var k :| 0 <= k < |rows| && rows[k].createdAt == previous.value;
      assert all[k].createdAt == previous.value;
    } else {
      assert all[|rows|].createdAt == row.createdAt;
    }
  }

  lemma TakeHolds(q: Query, rows: seq<Row>, s: Scan, row: Row)
    requires Holds(q, rows, s) && TakeRow(q, s, row).Going?
    ensures Holds(q, rows + [row], TakeRow(q, s, row).scan)
  {
    NewMeans(rows, row);
    assert (rows + [row])[..|rows|] == rows;
    if row.id in s.seen {
      var i :| 0 <= i < |rows| && rows[i].id == row.id;
      assert s.seen[row.id := row] == s.seen && rows[i] == row;
      assert NewInWindow(q, rows) + [] == NewInWindow(q, rows);
    }
    SeesOneMore(rows, s.seen, row);
    LastOneMore(rows, s.previous, row, row.id in s.seen);
    hide HasSeen, LastTaken, IsNew;
  }

  /** The scan of the rows goes on exactly if they are alike where they share an identity, new ones
      come newest first, and none is older than the start; then it has in hand what it should. */
  lemma {:induction false} ScanGoesOn(q: Query, rows: seq<Row>)
    ensures var o := ScanItems(q, BEGIN, rows);
            && (o.Going? <==> Reads(q, rows))
            && (o.Going? ==> Holds(q, rows, o.scan))
  {
    if rows != [] {
      var most, last := rows[..|rows| - 1], rows[|rows| - 1];
      assert rows == most + [last];
      ScanGoesOn(q, most);
      ScanOneMore(q, most, last);
      PrefixReads(q, most, last);
      hide Reads, Holds;
      if ScanItems(q, BEGIN, most).Going? {
        TakeDecides(q, most, ScanItems(q, BEGIN, most).scan, last);
        if TakeRow(q, ScanItems(q, BEGIN, most).scan, last).Going? {
          TakeHolds(q, most, ScanItems(q, BEGIN, most).scan, last);
        }
      }
    }
  }

  /** Row `n` is the first that ends the scan. */
  ghost predicate StopsAt(q: Query, rows: seq<Row>, n: nat, o: Outcome) {
    n < |rows| && Reads(q, rows[..n]) && StopsWith(q, rows[..n], rows[n], o)
  }

  lemma PrefixDecides(q: Query, rows: seq<Row>, n: nat)
    requires n <= |rows| && !ScanItems(q, BEGIN, rows[..n]).Going?
    ensures ScanItems(q, BEGIN, rows) == ScanItems(q, BEGIN, rows[..n])
  {
    assert rows == rows[..n] + rows[n..];
    ScanBoth(q, BEGIN, rows[..n], rows[n..]);
  }

  lemma StopGives(q: Query, rows: seq<Row>, n: nat, o: Outcome)
    requires StopsAt(q, rows, n, o)
    ensures ScanItems(q, BEGIN, rows) == o
  {
    assert rows[..n + 1] == rows[..n] + [rows[n]];
    ScanGoesOn(q, rows[..n]);
    ScanOneMore(q, rows[..n], rows[n]);
    StopsOnce(q, rows[..n], ScanItems(q, BEGIN, rows[..n]).scan, rows[n], o);
    PrefixDecides(q, rows, n + 1);
  }

  /** A scan that does not go on ends at its first row that gives reason to. */
  lemma {:induction false} ScanStopsAt(q: Query, rows: seq<Row>) returns (n: nat)
    requires !ScanItems(q, BEGIN, rows).Going?
    ensures StopsAt(q, rows, n, ScanItems(q, BEGIN, rows))
  {
    var most, last := rows[..|rows| - 1], rows[|rows| - 1];
    assert rows == most + [last];
    ScanOneMore(q, most, last);
    if ScanItems(q, BEGIN, most).Going? {
      n := |most|;
      ScanGoesOn(q, most);
      TakeDecides(q, most, ScanItems(q, BEGIN, most).scan, last);
      assert rows[..n] == most && rows[n] == last;
    } else {
      n := ScanStopsAt(q, most);
      assert most[..n] == rows[..n] && most[n] == rows[n];
    }
  }

  // ----- The walk over the pages -----

  lemma NaturalProduct(x: nat, y: nat)
    ensures x * y >= 0
  {
  }

  lemma ProductGrows(a: nat, b: nat, size: nat)
    requires a <= b
    ensures a * size <= b * size
  {
    NaturalProduct(b - a, size);
    assert b * size == a * size + (b - a) * size;
  }

  lemma QuotientPositive(x: nat, size: nat)
    requires x >= size >= 1
    ensures x / size >= 1
  {
    assert x == x / size * size + x % size;
  }

  lemma CountIsUnique(total: nat, size: nat, a: nat, b: nat)
    requires a * size < total <= b * size
    ensures a < b
  {
    if a >= b {
      ProductGrows(b, a, size);
    }
  }

  /** The number of pages that hold so many rows; an empty log has one page. */
  predicate Holding(total: nat, size: nat, pages: nat) {
    pages >= 1 && total <= pages * size && (pages == 1 || (pages - 1) * size < total)
  }

  lemma PagesHold(total: nat, size: nat)
    requires size >= 1
    ensures Holding(total, size, PagesFor(total, size))
  {
    var n := PagesFor(total, size);
    if total > 0 {
      var x := total + size - 1;
      assert x == x / size * size + x % size;
      assert n * size == x - x % size;
      assert (n - 1) * size == n * size - size;
      QuotientPositive(x, size);
    }
  }

  lemma PagesForMeans(total: nat, size: nat, pages: nat)
    requires size >= 1
    ensures pages == PagesFor(total, size) <==> Holding(total, size, pages)
  {
    var n := PagesFor(total, size);
    PagesHold(total, size);
    if Holding(total, size, pages) && pages != n {
      if pages > n { CountIsUnique(total, size, pages - 1, n); } else { CountIsUnique(total, size, n - 1, pages); }
    }
  }

  /** The parser accepts a page exactly if it is the one asked for, counts its pages as its total and
      size demand, is one of them, and shows no more rows than the page and the total allow. */
  lemma AcceptedMeans(page: Page, p: nat)
    ensures !Malformed(page, p) <==>
              && page.number == p + 1 && page.pageSize >= 1
              && Holding(page.total, page.pageSize, page.pages)
              && page.number <= page.pages && |page.items| <= page.pageSize && |page.items| <= page.total
  {
    if page.pageSize >= 1 { PagesForMeans(page.total, page.pageSize, page.pages); }
  }

  /** The rows of the first `n` pages. */
  function Rows(read: nat -> Page, n: nat): seq<Row> {
    if n == 0 then [] else Rows(read, n - 1) + read(n - 1).items
  }

  /** The page is in order, full, and not the last one. */
  predicate AsksForMore(q: Query, page: Page, p: nat) {
    !Malformed(page, p) && p + 1 < page.pages && |page.items| >= q.full
  }

  /** The walk reads page `p`. */
  predicate ReadsPage(q: Query, read: nat -> Page, p: nat) {
    && p <= q.maxPages && Reads(q, Rows(read, p))
    && forall k: nat | k < p :: AsksForMore(q, read(k), k)
  }

  lemma ScanEmpty(q: Query)
    ensures ScanItems(q, BEGIN, []) == Going(BEGIN)
  {
  }

  lemma WalkContinues(q: Query, read: nat -> Page, p: nat, s: Scan)
    requires p < q.maxPages && AsksForMore(q, read(p), p) && ScanItems(q, s, read(p).items).Going?
    ensures WalkFrom(q, read, p, s) == WalkFrom(q, read, p + 1, ScanItems(q, s, read(p).items).scan)
  {
    hide ScanItems;
  }

  /** One page of the walk, when what was scanned before is known. */
  lemma WalkStep(q: Query, read: nat -> Page, p: nat, s: Scan)
    requires p <= q.maxPages
    ensures p == q.maxPages ==> WalkFrom(q, read, p, s) == Raised(TooManyPages)
    ensures p < q.maxPages && Malformed(read(p), p) ==> WalkFrom(q, read, p, s) == Raised(BadPagination)
    ensures var o := ScanItems(q, s, read(p).items);
            p < q.maxPages && !Malformed(read(p), p) ==>
              if o.Going? then !AsksForMore(q, read(p), p) ==> WalkFrom(q, read, p, s) == Returned(o.scan.records)
              else WalkFrom(q, read, p, s) == o
  {
    hide ScanItems;
  }

  lemma {:induction false} WalkReaches(q: Query, read: nat -> Page, p: nat)
    requires ReadsPage(q, read, p)
    ensures ScanItems(q, BEGIN, Rows(read, p)).Going?
    ensures Walk(q, read) == WalkFrom(q, read, p, ScanItems(q, BEGIN, Rows(read, p)).scan)
  {
    hide Reads, Holds, ScanItems;
    ScanGoesOn(q, Rows(read, p));
    if p == 0 {
      ScanEmpty(q);
    } else {
      var most := Rows(read, p - 1);
      assert AsksForMore(q, read(p - 1), p - 1);
      ScanBoth(q, BEGIN, most, read(p - 1).items);
      ScanGoesOn(q, most);
      WalkReaches(q, read, p - 1);
      WalkContinues(q, read, p - 1, ScanItems(q, BEGIN, most).scan);
    }
  }

  /** What the walk does once it reads page `p`: it gives up past the last page it may read; it
      refuses a malformed page; it ends with the scan, or with a last or short page. */
  lemma PageDecides(q: Query, read: nat -> Page, p: nat)
    requires ReadsPage(q, read, p)
    ensures p == q.maxPages ==> Walk(q, read) == Raised(TooManyPages)
    ensures p < q.maxPages && Malformed(read(p), p) ==> Walk(q, read) == Raised(BadPagination)
    ensures var rows := Rows(read, p + 1);
            p < q.maxPages && !Malformed(read(p), p) ==>
              if Reads(q, rows) then !AsksForMore(q, read(p), p) ==> Walk(q, read) == Returned(NewInWindow(q, rows))
              else Walk(q, read) == ScanItems(q, BEGIN, rows)
  {
    hide Reads, ScanItems, WalkFrom, AsksForMore, Malformed;
    WalkReaches(q, read, p);
    var s := ScanItems(q, BEGIN, Rows(read, p)).scan;
    ScanBoth(q, BEGIN, Rows(read, p), read(p).items);
    ScanGoesOn(q, Rows(read, p + 1));
    WalkStep(q, read, p, s);
  }

  /** Every walk ends at one page: the last it reads. */
  lemma {:induction false} WalkEndsAt(q: Query, read: nat -> Page, from: nat) returns (p: nat)
    requires ReadsPage(q, read, from)
    ensures ReadsPage(q, read, p)
    ensures p == q.maxPages || !AsksForMore(q, read(p), p) || !Reads(q, Rows(read, p + 1))
    decreases q.maxPages - from
  {
    if from < q.maxPages && AsksForMore(q, read(from), from) && Reads(q, Rows(read, from + 1)) {
      p := WalkEndsAt(q, read, from + 1);
    } else {
      p := from;
    }
  }

  /** The walk gives up for too many pages exactly if every page it may read is in order, full and not
      the last, and no row of them ends the scan. */
  lemma TooManyExactly(q: Query, read: nat -> Page)
    ensures Walk(q, read) == Raised(TooManyPages) <==> ReadsPage(q, read, q.maxPages)
  {
    if ReadsPage(q, read, q.maxPages) {
      PageDecides(q, read, q.maxPages);
    } else {
      assert ReadsPage(q, read, 0);
      var p := WalkEndsAt(q, read, 0);
      PageDecides(q, read, p);
      if p < q.maxPages && !Malformed(read(p), p) && !Reads(q, Rows(read, p + 1)) {
        ScanNeverBlamesPages(q, BEGIN, Rows(read, p + 1));
      }
    }
  }

  ghost predicate StopsInPage(q: Query, read: nat -> Page, p: nat, n: nat, o: Outcome) {
    StopsAt(q, Rows(read, p + 1), n, o)
  }

  /** The walk ends at page `p`: there is none left to read; the page is malformed; a row ends the scan;
      or the page is last or short, and the new rows of the window so far are returned. */
  ghost predicate EndsAt(q: Query, read: nat -> Page, p: nat, o: Outcome) {
    && ReadsPage(q, read, p)
    && if p == q.maxPages then o == Raised(TooManyPages)
       else if Malformed(read(p), p) then o == Raised(BadPagination)
       else
         || (exists n: nat :: StopsInPage(q, read, p, n, o))
         || (&& Reads(q, Rows(read, p + 1)) && !AsksForMore(q, read(p), p)
             && o == Returned(NewInWindow(q, Rows(read, p + 1))))
  }

  lemma EndGives(q: Query, read: nat -> Page, p: nat, o: Outcome)
    requires EndsAt(q, read, p, o)
    ensures Walk(q, read) == o
  {
    PageDecides(q, read, p);
    if p < q.maxPages && !Malformed(read(p), p) && exists n: nat :: StopsInPage(q, read, p, n, o) {
      var n: nat :| StopsInPage(q, read, p, n, o);
      StopGives(q, Rows(read, p + 1), n, o);
      ScanGoesOn(q, Rows(read, p + 1));
    }
  }

  /** What any walk gives, exactly: the end it comes to at the last page it reads. */
  lemma WalkGives(q: Query, read: nat -> Page, o: Outcome)
    ensures Walk(q, read) == o <==> exists p: nat :: EndsAt(q, read, p, o)
  {
    forall p: nat | EndsAt(q, read, p, o) ensures Walk(q, read) == o {
      EndGives(q, read, p, o);
    }
    var p := WalkEndsAt(q, read, 0);
    PageDecides(q, read, p);
    if p < q.maxPages && !Malformed(read(p), p) && !Reads(q, Rows(read, p + 1)) {
      ScanGoesOn(q, Rows(read, p + 1));
      var n := ScanStopsAt(q, Rows(read, p + 1));
      assert StopsInPage(q, read, p, n, Walk(q, read));
    }
    assert EndsAt(q, read, p, Walk(q, read));
  }

  /** Against an honest server, on a log that does not outgrow the walk, the walk returns whenever one
      of the pages it may read is the last one. */
  lemma LastPageReturns(q: Query, read: nat -> Page, log: seq<Row>, sizes: nat -> nat, pageSize: nat, p: nat)
    requires Serves(read, log, sizes, pageSize) && Honest(read, sizes, pageSize) && GrowsSlowly(sizes, pageSize)
    requires p < q.maxPages && p + 1 >= PagesFor(sizes(p), pageSize)
    ensures Walk(q, read).Returned?
  {
    HonestWalkReturns(q, read, log, sizes, pageSize);
    TooManyExactly(q, read);
    assert ReadsPage(q, read, q.maxPages) ==> AsksForMore(q, read(p), p);
    assert CountsPage(read(p), sizes(p), p, pageSize);
  }
}
