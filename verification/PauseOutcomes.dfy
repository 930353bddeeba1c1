/** What a batch of observations stores, in terms of the rows that are there. */
module PauseOutcomes {
  import opened Common
  import opened PauseProvenance

  /** A snapshot holds an account once. */
  predicate OncePerSnapshot(rows: seq<Row>) {
    forall i, j | 0 <= i < j < |rows| ::
      !(rows[i].snapshot == rows[j].snapshot && rows[i].observation.account == rows[j].observation.account)
  }

  /** The newest row of the account outside the snapshot; of two at one time, that of the later snapshot. */
  predicate IsNewestOther(rows: seq<Row>, account: nat, snapshot: nat, r: Row) {
    && r in rows && r.observation.account == account && r.snapshot != snapshot
    && forall x | x in rows && x.observation.account == account && x.snapshot != snapshot ::
         x.at < r.at || (x.at == r.at && x.snapshot <= r.snapshot)
  }

  lemma {:induction false} LatestMeans(rows: seq<Row>, account: nat, snapshot: nat)
    ensures var r := Latest(rows, account, snapshot);
            && (r.None? ==> forall x | x in rows :: x.observation.account != account || x.snapshot == snapshot)
            && (r.Some? ==> IsNewestOther(rows, account, snapshot, r.value))
  {
    if rows != [] {
      LatestMeans(rows[1..], account, snapshot);
      assert rows == [rows[0]] + rows[1..];
    }
  }

  lemma OneNewest(rows: seq<Row>, account: nat, snapshot: nat, r: Row, x: Row)
    requires OncePerSnapshot(rows) && IsNewestOther(rows, account, snapshot, r)
    requires IsNewestOther(rows, account, snapshot, x)
    ensures r == x
  {
    var i :| 0 <= i < |rows| && rows[i] == r;
    var j :| 0 <= j < |rows| && rows[j] == x;
    assert i == j;
  }

  /** The row explains a pause at this time: it is at most two days old, and in error or automatic. */
  predicate Explains(r: Row, at: int) {
    r.at <= at <= r.at + 172_800 && (r.observation.status == InError || r.observation.automatic)
  }

  /** An observation is stored as it is reported, except that an active account without scheduling is
      marked as paused automatically exactly if its newest other row explains the pause. */
  lemma MarkedExactly(rows: seq<Row>, o: Observation, snapshot: nat, at: int)
    requires OncePerSnapshot(rows)
    ensures var n := Normalize(rows, o, snapshot, at);
            && n == o.(automatic := n.automatic)
            && (n.automatic <==>
                  || o.automatic
                  || (&& o.status == Active && !o.schedulable
                      && exists r | r in rows :: IsNewestOther(rows, o.account, snapshot, r) && Explains(r, at)))
  {
    LatestMeans(rows, o.account, snapshot);
    var latest := Latest(rows, o.account, snapshot);
    forall r | r in rows && IsNewestOther(rows, o.account, snapshot, r) ensures latest == Some(r) {
      OneNewest(rows, o.account, snapshot, r, latest.value);
    }
    hide Latest, IsNewestOther, OncePerSnapshot;
  }

  // ----- A whole batch -----

  /** The snapshot holds the account already. */
  predicate Holds(rows: seq<Row>, snapshot: nat, account: nat) {
    exists r :: r in rows && r.snapshot == snapshot && r.observation.account == account
  }

  lemma {:induction false} FindMeans(rows: seq<Row>, snapshot: nat, account: nat)
    ensures Find(rows, snapshot, account).Some? <==> Holds(rows, snapshot, account)
    ensures var r := Find(rows, snapshot, account);
            r.Some? ==> r.value in rows && r.value.snapshot == snapshot && r.value.observation.account == account
  {
    if rows != [] {
      FindMeans(rows[1..], snapshot, account);
      assert rows == [rows[0]] + rows[1..];
    }
  }

  lemma {:induction false} LatestIgnores(rows: seq<Row>, row: Row, account: nat, snapshot: nat)
    requires row.observation.account != account
    ensures Latest(rows + [row], account, snapshot) == Latest(rows, account, snapshot)
    ensures Find(rows + [row], snapshot, account) == Find(rows, snapshot, account)
  {
    if rows == [] {
      assert [row][1..] == [];
    } else {
      assert (rows + [row])[1..] == rows[1..] + [row];
      LatestIgnores(rows[1..], row, account, snapshot);
    }
  }

  /** The row an observation is stored as. */
  function RowOf(rows: seq<Row>, o: Observation, snapshot: nat, at: int): Row {
    Row(snapshot, Normalize(rows, o, snapshot, at), at)
  }

  predicate Clashes(rows: seq<Row>, o: Observation, snapshot: nat, at: int) {
    exists r :: r in rows && r.snapshot == snapshot && r.observation.account == o.account
                && r != RowOf(rows, o, snapshot, at)
  }

  lemma OthersIgnored(rows: seq<Row>, row: Row, o: Observation, snapshot: nat, at: int)
    requires row.observation.account != o.account
    ensures RowOf(rows + [row], o, snapshot, at) == RowOf(rows, o, snapshot, at)
    ensures Holds(rows + [row], snapshot, o.account) <==> Holds(rows, snapshot, o.account)
    ensures Clashes(rows + [row], o, snapshot, at) <==> Clashes(rows, o, snapshot, at)
  {
    LatestIgnores(rows, row, o.account, snapshot);
    assert forall r :: r in rows + [row] <==> r in rows || r == row;
  }

  /** The rows of the accounts that the snapshot does not hold yet. */
  function NewRows(rows: seq<Row>, batch: seq<Observation>, snapshot: nat, at: int): seq<Row> {
    if batch == [] then []
    else
      (if Holds(rows, snapshot, batch[0].account) then [] else [RowOf(rows, batch[0], snapshot, at)])
      + NewRows(rows, batch[1..], snapshot, at)
  }

  lemma {:induction false} NewRowsIgnore(rows: seq<Row>, row: Row, batch: seq<Observation>, snapshot: nat, at: int)
    requires forall i | 0 <= i < |batch| :: batch[i].account != row.observation.account
    ensures NewRows(rows + [row], batch, snapshot, at) == NewRows(rows, batch, snapshot, at)
    ensures forall i | 0 <= i < |batch| ::
              Clashes(rows + [row], batch[i], snapshot, at) <==> Clashes(rows, batch[i], snapshot, at)
    decreases |batch|
  {
    if batch != [] {
      OthersIgnored(rows, row, batch[0], snapshot, at);
      NewRowsIgnore(rows, row, batch[1..], snapshot, at);
      hide Clashes, Holds, RowOf;
      assert forall i | 0 < i < |batch| :: batch[i] == batch[1..][i - 1];
    }
  }

  lemma OneStored(rows: seq<Row>, o: Observation, snapshot: nat, at: int)
    requires OncePerSnapshot(rows)
    ensures var r := IngestOne(rows, o, snapshot, at);
            && (r.Err? <==> Clashes(rows, o, snapshot, at)) && (r.Err? ==> r.error == ObservationConflict)
            && (r.Ok? ==> r.value == if Holds(rows, snapshot, o.account) then [] else [RowOf(rows, o, snapshot, at)])
  {
    FindMeans(rows, snapshot, o.account);
    if Find(rows, snapshot, o.account).Some? {
      var found := Find(rows, snapshot, o.account).value;
      forall r | r in rows && r.snapshot == snapshot && r.observation.account == o.account ensures r == found {
        var i :| 0 <= i < |rows| && rows[i] == r;
        var j :| 0 <= j < |rows| && rows[j] == found;
        assert i == j;
      }
    }
  }

  lemma OnceAppend(rows: seq<Row>, row: Row)
    requires OncePerSnapshot(rows) && !Holds(rows, row.snapshot, row.observation.account)
    ensures OncePerSnapshot(rows + [row])
  {
  }

  lemma FirstStored(rows: seq<Row>, batch: seq<Observation>, snapshot: nat, at: int)
    requires OncePerSnapshot(rows) && DistinctAccounts(batch) && batch != [] && !Clashes(rows, batch[0], snapshot, at)
    ensures var first := if Holds(rows, snapshot, batch[0].account) then [] else [RowOf(rows, batch[0], snapshot, at)];
            && IngestOne(rows, batch[0], snapshot, at) == Ok(first)
            && OncePerSnapshot(rows + first)
            && NewRows(rows, batch, snapshot, at) == first + NewRows(rows + first, batch[1..], snapshot, at)
            && (forall i | 0 < i < |batch| ::
                  Clashes(rows + first, batch[i], snapshot, at) <==> Clashes(rows, batch[i], snapshot, at))
  {
    OneStored(rows, batch[0], snapshot, at);
    assert rows + [] == rows;
    if !Holds(rows, snapshot, batch[0].account) {
      var row := RowOf(rows, batch[0], snapshot, at);
      OnceAppend(rows, row);
      NewRowsIgnore(rows, row, batch[1..], snapshot, at);
      assert forall i | 0 < i < |batch| :: batch[i] == batch[1..][i - 1];
    }
    hide Clashes, IngestOne, Holds, OncePerSnapshot;
  }

  lemma {:induction false} AllStored(rows: seq<Row>, batch: seq<Observation>, snapshot: nat, at: int)
    requires OncePerSnapshot(rows) && DistinctAccounts(batch)
    ensures var r := IngestAll(rows, batch, snapshot, at);
            && (r.Err? <==> exists i :: 0 <= i < |batch| && Clashes(rows, batch[i], snapshot, at))
            && (r.Err? ==> r.error == ObservationConflict)
            && (r.Ok? ==> r.value == NewRows(rows, batch, snapshot, at) && OncePerSnapshot(rows + r.value))
    decreases |batch|
  {
    if batch == [] {
      assert rows + [] == rows;
    } else {
      OneStored(rows, batch[0], snapshot, at);
      if !Clashes(rows, batch[0], snapshot, at) {
        var first := IngestOne(rows, batch[0], snapshot, at).value;
        FirstStored(rows, batch, snapshot, at);
        AllStored(rows + first, batch[1..], snapshot, at);
        var rest := NewRows(rows + first, batch[1..], snapshot, at);
        assert rows + first + rest == rows + (first + rest);
        assert forall i | 0 < i < |batch| :: batch[i] == batch[1..][i - 1];
      }
      hide Clashes, IngestOne, RowOf, Holds, OncePerSnapshot, NewRows;
    }
  }

  /** A batch is refused for its size, for an account that comes twice, or for one that the snapshot
      holds with other contents; otherwise it stores the rows of the accounts the snapshot does not
      hold, each as it would be stored alone. */
  lemma BatchExactly(rows: seq<Row>, batch: seq<Observation>, snapshot: nat, at: int)
    requires OncePerSnapshot(rows)
    ensures var r := Ingest(rows, batch, snapshot, at);
            var twice := exists i, j :: 0 <= i < j < |batch| && batch[i].account == batch[j].account;
            var clash := exists i :: 0 <= i < |batch| && Clashes(rows, batch[i], snapshot, at);
            && (r == Err(TooMany) <==> |batch| > 10_000)
            && (r == Err(DuplicateAccounts) <==> |batch| <= 10_000 && twice)
            && (r == Err(ObservationConflict) <==> |batch| <= 10_000 && !twice && clash)
            && (r.Ok? ==> r.value == NewRows(rows, batch, snapshot, at))
  {
    if DistinctAccounts(batch) { AllStored(rows, batch, snapshot, at); }
    hide Clashes, NewRows, IngestAll;
  }

  lemma {:induction false} OnceWithout(rows: seq<Row>, gone: set<Row>)
    requires OncePerSnapshot(rows)
    ensures OncePerSnapshot(Keep(rows, gone))
  {
    if rows != [] {
      OnceWithout(rows[1..], gone);
      KeepKeeps(rows[1..], gone);
      var rest := Keep(rows[1..], gone);
      forall k | 0 <= k < |rest|
        ensures !(rest[k].snapshot == rows[0].snapshot
                  && rest[k].observation.account == rows[0].observation.account)
      {
        assert rest[k] in rows[1..];
      }
    }
  }

  /** Over any history no snapshot holds an account twice. */
  lemma {:induction false} StoredOnce(history: seq<Happening>)
    ensures OncePerSnapshot(After(history).rows)
    decreases |history|
  {
    if history != [] {
      var before, e := After(history[..|history| - 1]), history[|history| - 1];
      StoredOnce(history[..|history| - 1]);
      match e
      case Observe(batch, snapshot, at) =>
        if DistinctAccounts(batch) { AllStored(before.rows, batch, snapshot, at); }
      case Delete(gone) =>
        OnceWithout(before.rows, gone);
    }
  }
}
