/** Why a pause counts as automatic: provenance inferred from earlier account observations. */
module PauseProvenance {
  import opened Common

  datatype Status = Active | InError | OtherStatus

  /** What the adapter reports; `rest` stands for the fields that play no part here. */
  datatype Observation = Observation(account: nat, status: Status, schedulable: bool, automatic: bool, rest: nat)

  datatype Row = Row(snapshot: nat, observation: Observation, at: int)

  datatype IngestError = TooMany | DuplicateAccounts | ObservationConflict

  const EVIDENCE_AGE := 172800
  const MAX_OBSERVATIONS := 10000

  function AccountOf(r: Row): nat { r.observation.account }

  /** A pause that carries no marker of its own. */
  predicate UnmarkedPause(o: Observation) { o.status.Active? && !o.schedulable && !o.automatic }

  predicate Newer(a: Row, b: Row) { a.at > b.at || (a.at == b.at && a.snapshot > b.snapshot) }

  predicate IsOther(r: Row, account: nat, snapshot: nat) { AccountOf(r) == account && r.snapshot != snapshot }

  /** The newest row of the account outside this snapshot. */
  function Latest(rows: seq<Row>, account: nat, snapshot: nat): Option<Row> {
    if rows == [] then None
    else
      var rest := Latest(rows[1..], account, snapshot);
      if IsOther(rows[0], account, snapshot) && (rest.None? || Newer(rows[0], rest.value)) then Some(rows[0]) else rest
  }

  predicate Supports(previous: Row, at: int) {
    0 <= at - previous.at <= EVIDENCE_AGE && (previous.observation.automatic || previous.observation.status.InError?)
  }

  function Normalize(rows: seq<Row>, o: Observation, snapshot: nat, at: int): Observation {
    var previous := Latest(rows, o.account, snapshot);
    if UnmarkedPause(o) && previous.Some? && Supports(previous.value, at) then o.(automatic := true) else o
  }

  function Find(rows: seq<Row>, snapshot: nat, account: nat): Option<Row> {
    if rows == [] then None
    else if rows[0].snapshot == snapshot && AccountOf(rows[0]) == account then Some(rows[0])
    else Find(rows[1..], snapshot, account)
  }

  /** One observation: what it adds, or a conflict with what the snapshot already holds. */
  function IngestOne(rows: seq<Row>, o: Observation, snapshot: nat, at: int): Result<seq<Row>, IngestError> {
    var row := Row(snapshot, Normalize(rows, o, snapshot, at), at);
    var existing := Find(rows, snapshot, o.account);
    if existing.None? then Ok([row])
    else if existing.value == row then Ok([])
    else Err(ObservationConflict)
  }

  /** The rows a whole batch adds, or the first error: then nothing is added. */
  function IngestAll(rows: seq<Row>, batch: seq<Observation>, snapshot: nat, at: int): Result<seq<Row>, IngestError>
    decreases |batch|
  {
    if batch == [] then Ok([])
    else
      var first := IngestOne(rows, batch[0], snapshot, at);
      if first.Err? then first
      else
        var rest := IngestAll(rows + first.value, batch[1..], snapshot, at);
        if rest.Err? then rest else Ok(first.value + rest.value)
  }

  predicate DistinctAccounts(batch: seq<Observation>) {
    forall i, j | 0 <= i < j < |batch| :: batch[i].account != batch[j].account
  }

  function Ingest(rows: seq<Row>, batch: seq<Observation>, snapshot: nat, at: int): Result<seq<Row>, IngestError> {
    if |batch| > MAX_OBSERVATIONS then Err(TooMany)
    else if !DistinctAccounts(batch) then Err(DuplicateAccounts)
    else IngestAll(rows, batch, snapshot, at)
  }

  lemma IngestOnly(rows: seq<Row>, o: Observation, snapshot: nat, at: int)
    ensures IngestAll(rows, [o], snapshot, at) == IngestOne(rows, o, snapshot, at)
  {
    var one := IngestOne(rows, o, snapshot, at);
    assert [o][1..] == [];
    if one.Ok? {
      assert IngestAll(rows + one.value, [o][1..], snapshot, at) == Ok([]);
      assert one.value + [] == one.value;
    }
  }

  lemma {:induction false} IngestSplits(rows: seq<Row>, batch: seq<Observation>, i: nat, snapshot: nat, at: int)
    requires i < |batch| && IngestAll(rows, batch[..i], snapshot, at).Ok?
    ensures var added := IngestAll(rows, batch[..i], snapshot, at).value;
            var one := IngestOne(rows + added, batch[i], snapshot, at);
            && (one.Ok? ==> IngestAll(rows, batch[..i + 1], snapshot, at) == Ok(added + one.value))
            && (one.Err? ==> IngestAll(rows, batch, snapshot, at) == one)
    decreases i
  {
    if i == 0 {
      assert rows + [] == rows;
      assert batch[..1] == [batch[0]];
      IngestOnly(rows, batch[0], snapshot, at);
      var one := IngestOne(rows, batch[0], snapshot, at);
      if one.Ok? {
        assert [] + one.value == one.value;
      }
    } else {
      var first := IngestOne(rows, batch[0], snapshot, at);
      assert batch[..i][1..] == batch[1..][..i - 1] && batch[..i + 1][1..] == batch[1..][..i];
      var rest := IngestAll(rows + first.value, batch[1..][..i - 1], snapshot, at);
      assert rows + first.value + rest.value == rows + (first.value + rest.value);
      IngestSplits(rows + first.value, batch[1..], i - 1, snapshot, at);
      assert batch[1..][i - 1] == batch[i];
      var one := IngestOne(rows + (first.value + rest.value), batch[i], snapshot, at);
      if one.Ok? {
        assert first.value + (rest.value + one.value) == first.value + rest.value + one.value;
      }
    }
  }

  class AccountObservations {
    var rows: seq<Row>

    constructor ()
      ensures rows == []
    {
      rows := [];
    }

    /** One transaction: a conflict undoes the whole batch. */
    method UpsertAccountObservations(batch: seq<Observation>, snapshot: nat, at: int)
      returns (r: Result<nat, IngestError>)
      modifies this
      ensures var added := Ingest(old(rows), batch, snapshot, at);
              if added.Ok? then r == Ok(|added.value|) && rows == old(rows) + added.value
              else r == Err(added.error) && rows == old(rows)
    {
      if |batch| > MAX_OBSERVATIONS {
        return Err(TooMany);
      }
      if !DistinctAccounts(batch) {
        return Err(DuplicateAccounts);
      }
      var added: seq<Row> := [];
      for i := 0 to |batch|
        invariant rows == old(rows)
        invariant IngestAll(old(rows), batch[..i], snapshot, at) == Ok(added)
      {
        IngestSplits(rows, batch, i, snapshot, at);
        var one := IngestOne(rows + added, batch[i], snapshot, at);
        if one.Err? {
          return Err(one.error);
        }
        added := added + one.value;
      }
      assert batch[..|batch|] == batch;
      rows := rows + added;
      r := Ok(|added|);
    }
  }

  // ----- Every history of batches and deletions -----

  /** `raw` is what was reported, `row` what was stored. */
  datatype Entry = Entry(raw: Observation, row: Row)

  /** `journal` remembers every row that was ever stored; `rows` is what the table still holds. */
  datatype Store = Store(rows: seq<Row>, journal: seq<Entry>)

  datatype Happening = Observe(batch: seq<Observation>, snapshot: nat, at: int) | Delete(gone: set<Row>)

  function Keep(rows: seq<Row>, gone: set<Row>): seq<Row> {
    if rows == [] then [] else (if rows[0] in gone then [] else [rows[0]]) + Keep(rows[1..], gone)
  }

  /** The journal entries of a batch, in the order in which the rows are stored. */
  function Journalled(rows: seq<Row>, batch: seq<Observation>, snapshot: nat, at: int): seq<Entry>
    decreases |batch|
  {
    if batch == [] then []
    else
      var first := IngestOne(rows, batch[0], snapshot, at);
      if first.Err? then []
      else (if first.value == [] then [] else [Entry(batch[0], first.value[0])])
           + Journalled(rows + first.value, batch[1..], snapshot, at)
  }

  function Next(s: Store, e: Happening): Store {
    match e
    case Observe(batch, snapshot, at) =>
      var added := Ingest(s.rows, batch, snapshot, at);
      if added.Err? then s
      else Store(s.rows + added.value, s.journal + Journalled(s.rows, batch, snapshot, at))
    case Delete(gone) => s.(rows := Keep(s.rows, gone))
  }

  function After(history: seq<Happening>): Store {
    if history == [] then Store([], []) else Next(After(history[..|history| - 1]), history[|history| - 1])
  }

  /** Entry `j` is an earlier observation of the same account, at most two days before entry `i`. */
  predicate Precedes(journal: seq<Entry>, j: nat, i: nat)
    requires j < |journal| && i < |journal|
  {
    var a, b := journal[j].row, journal[i].row;
    j < i && AccountOf(a) == AccountOf(b) && a.snapshot != b.snapshot && 0 <= b.at - a.at <= EVIDENCE_AGE
  }

  /** Evidence of its own: an error, or a marker the adapter reported. */
  predicate IsRoot(e: Entry) { e.raw.status.InError? || e.raw.automatic }

  /** From entry `path[0]` back to evidence of its own, each link an inferred automatic pause. */
  ghost predicate IsChain(journal: seq<Entry>, path: seq<nat>) {
    && |path| > 0 && (forall k | 0 <= k < |path| :: path[k] < |journal|)
    && (forall k | 0 <= k < |path| - 1 :: LinksBack(journal, path, k))
    && IsRoot(journal[path[|path| - 1]])
  }

  predicate LinksBack(journal: seq<Entry>, path: seq<nat>, k: nat)
    requires k + 1 < |path| && (forall k | 0 <= k < |path| :: path[k] < |journal|)
  {
    && Precedes(journal, path[k + 1], path[k])
    && UnmarkedPause(journal[path[k]].raw) && journal[path[k]].row.observation.automatic
  }

  /** The stored observation differs from the reported one at most by an inferred marker, and an
      inferred marker rests on an earlier entry that was in error or stored as automatic. */
  ghost predicate Justified(journal: seq<Entry>, i: nat)
    requires i < |journal|
  {
    var e := journal[i];
    && (e.row.observation == e.raw
        || (UnmarkedPause(e.raw) && e.row.observation == e.raw.(automatic := true)
            && exists j: nat :: j < |journal| && Precedes(journal, j, i) && Supports(journal[j].row, e.row.at)))
  }

  ghost predicate AllJustified(journal: seq<Entry>) {
    forall i: nat | i < |journal| :: Justified(journal, i)
  }

  ghost predicate InJournal(journal: seq<Entry>, row: Row) { exists i: nat :: i < |journal| && journal[i].row == row }

  ghost predicate RowsAreJournalled(rows: seq<Row>, journal: seq<Entry>) {
    forall r | r in rows :: InJournal(journal, r)
  }

  lemma {:induction false} LatestIsOther(rows: seq<Row>, account: nat, snapshot: nat)
    ensures var r := Latest(rows, account, snapshot);
            r.Some? ==> r.value in rows && IsOther(r.value, account, snapshot)
  {
    if rows != [] {
      LatestIsOther(rows[1..], account, snapshot);
    }
  }

  lemma JustifiedExtends(journal: seq<Entry>, e: Entry, i: nat)
    requires i < |journal| && Justified(journal, i)
    ensures Justified(journal + [e], i)
  {
    var more := journal + [e];
    assert more[i] == journal[i];
    if journal[i].row.observation != journal[i].raw {
      var j: nat :| j < |journal| && Precedes(journal, j, i) && Supports(journal[j].row, journal[i].row.at);
      assert more[j] == journal[j] && Precedes(more, j, i);
    }
  }

  lemma NewEntryJustified(rows: seq<Row>, journal: seq<Entry>, o: Observation, snapshot: nat, at: int)
    requires RowsAreJournalled(rows, journal)
    ensures Justified(journal + [Entry(o, Row(snapshot, Normalize(rows, o, snapshot, at), at))], |journal|)
  {
    var row := Row(snapshot, Normalize(rows, o, snapshot, at), at);
    var more := journal + [Entry(o, row)];
    var previous := Latest(rows, o.account, snapshot);
    LatestIsOther(rows, o.account, snapshot);
    if row.observation != o {
      var j: nat :| j < |journal| && journal[j].row == previous.value;
      assert more[j] == journal[j] && Precedes(more, j, |journal|) && Supports(more[j].row, at);
    }
  }

  lemma EntryKeeps(rows: seq<Row>, journal: seq<Entry>, o: Observation, snapshot: nat, at: int)
    requires RowsAreJournalled(rows, journal) && AllJustified(journal)
    ensures var row := Row(snapshot, Normalize(rows, o, snapshot, at), at);
            RowsAreJournalled(rows + [row], journal + [Entry(o, row)]) && AllJustified(journal + [Entry(o, row)])
  {
    var row := Row(snapshot, Normalize(rows, o, snapshot, at), at);
    var more := journal + [Entry(o, row)];
    forall r | r in rows + [row] ensures InJournal(more, r) {
      if r in rows {
        var i: nat :| i < |journal| && journal[i].row == r;
        assert more[i].row == r;
      } else {
        assert more[|journal|].row == r;
      }
    }
    NewEntryJustified(rows, journal, o, snapshot, at);
    forall i: nat | i < |journal| ensures Justified(more, i) {
      JustifiedExtends(journal, Entry(o, row), i);
    }
  }

  lemma {:induction false} BatchKeeps(rows: seq<Row>, journal: seq<Entry>, batch: seq<Observation>, snapshot: nat,
          at: int)
    requires RowsAreJournalled(rows, journal) && AllJustified(journal)
    requires IngestAll(rows, batch, snapshot, at).Ok?
    ensures RowsAreJournalled(rows + IngestAll(rows, batch, snapshot, at).value,
                              journal + Journalled(rows, batch, snapshot, at))
    ensures AllJustified(journal + Journalled(rows, batch, snapshot, at))
    decreases |batch|
  {
    if batch == [] {
      assert rows + [] == rows && journal + [] == journal;
    } else {
      var first := IngestOne(rows, batch[0], snapshot, at).value;
      var entry := if first == [] then [] else [Entry(batch[0], first[0])];
      if first == [] {
        assert rows + first == rows && journal + entry == journal;
      } else {
        EntryKeeps(rows, journal, batch[0], snapshot, at);
      }
      BatchKeeps(rows + first, journal + entry, batch[1..], snapshot, at);
      var rest := IngestAll(rows + first, batch[1..], snapshot, at).value;
      var more := Journalled(rows + first, batch[1..], snapshot, at);
      assert rows + (first + rest) == rows + first + rest;
      assert journal + (entry + more) == journal + entry + more;
    }
  }

  lemma {:induction false} KeepKeeps(rows: seq<Row>, gone: set<Row>)
    ensures forall r :: r in Keep(rows, gone) <==> r in rows && r !in gone
  {
    if rows != [] {
      KeepKeeps(rows[1..], gone);
    }
  }

  lemma {:induction false} HistoryKeeps(history: seq<Happening>)
    ensures RowsAreJournalled(After(history).rows, After(history).journal) && AllJustified(After(history).journal)
    decreases |history|
  {
    if history != [] {
      var before, e := After(history[..|history| - 1]), history[|history| - 1];
      HistoryKeeps(history[..|history| - 1]);
      match e
      case Observe(batch, snapshot, at) =>
        if Ingest(before.rows, batch, snapshot, at).Ok? {
          BatchKeeps(before.rows, before.journal, batch, snapshot, at);
        }
      case Delete(gone) =>
        KeepKeeps(before.rows, gone);
    }
  }

  lemma {:induction false} ChainBack(journal: seq<Entry>, i: nat) returns (path: seq<nat>)
    requires i < |journal| && AllJustified(journal)
    requires journal[i].row.observation.automatic || journal[i].row.observation.status.InError?
    ensures IsChain(journal, path) && path[0] == i
    decreases i
  {
    assert Justified(journal, i);
    if IsRoot(journal[i]) {
      path := [i];
    } else {
      var j: nat :| j < |journal| && Precedes(journal, j, i) && Supports(journal[j].row, journal[i].row.at);
      var tail := ChainBack(journal, j);
      path := [i] + tail;
      forall k | 0 <= k < |path| - 1 ensures LinksBack(journal, path, k) {
        if k > 0 {
          assert LinksBack(journal, tail, k - 1);
          assert path[k] == tail[k - 1] && path[k + 1] == tail[k];
        }
      }
    }
  }

  /** Over any history of batches and deletions, a row that is stored as an automatic pause is the
      end of a chain of earlier observations of its account, each at most two days before the next,
      that starts in an error or in an explicit marker. */
  lemma AutomaticIsBacked(history: seq<Happening>, row: Row) returns (path: seq<nat>)
    requires row in After(history).rows && row.observation.automatic
    ensures IsChain(After(history).journal, path) && After(history).journal[path[0]].row == row
  {
    HistoryKeeps(history);
    var journal := After(history).journal;
    var i: nat :| i < |journal| && journal[i].row == row;
    path := ChainBack(journal, i);
  }

  /** A pause without a marker, of an account that was never stored before, stays manual. */
  lemma FirstSeenStaysManual(history: seq<Happening>, i: nat)
    requires i < |After(history).journal|
    requires var journal := After(history).journal;
             && !journal[i].raw.automatic
             && forall j: nat | j < i :: AccountOf(journal[j].row) != AccountOf(journal[i].row)
    ensures !After(history).journal[i].row.observation.automatic
  {
    HistoryKeeps(history);
    assert Justified(After(history).journal, i);
  }

  // ----- What breaks a chain, and what re-reading a snapshot does -----

  lemma {:induction false} LatestIsNewest(rows: seq<Row>, account: nat, snapshot: nat, row: Row)
    requires row in rows && IsOther(row, account, snapshot)
    ensures Latest(rows, account, snapshot).Some? && !Newer(row, Latest(rows, account, snapshot).value)
  {
    if row in rows[1..] {
      LatestIsNewest(rows[1..], account, snapshot, row);
    }
  }

  /** A stored observation at or after the pause that is neither an error nor automatic makes the
      pause manual, whatever stood before it; so does any observation that is later than it. */
  lemma HealthyBreaksChain(rows: seq<Row>, o: Observation, snapshot: nat, at: int, row: Row)
    requires UnmarkedPause(o) && row in rows && IsOther(row, o.account, snapshot)
    requires forall r | r in rows && IsOther(r, o.account, snapshot) && r != row :: Newer(row, r)
    ensures Normalize(rows, o, snapshot, at).automatic <==> Supports(row, at)
    ensures row.at > at ==> Normalize(rows, o, snapshot, at) == o
  {
    LatestIsNewest(rows, o.account, snapshot, row);
    LatestIsOther(rows, o.account, snapshot);
  }

  /** Storing the same observation of the same snapshot again is a no-op or a conflict, and it is a
      conflict exactly when a marker that was inferred before is not inferred any more, or the other
      way round. */
  lemma ReingestConflicts(rows: seq<Row>, o: Observation, snapshot: nat, at: int, stored: Row)
    requires Find(rows, snapshot, o.account) == Some(stored)
    requires stored.at == at && stored.snapshot == snapshot && stored.observation.(automatic := o.automatic) == o
    ensures IngestOne(rows, o, snapshot, at) == Ok([]) || IngestOne(rows, o, snapshot, at) == Err(ObservationConflict)
    ensures IngestOne(rows, o, snapshot, at).Err? <==>
            stored.observation.automatic != (o.automatic
              || (UnmarkedPause(o) && Latest(rows, o.account, snapshot).Some?
                  && Supports(Latest(rows, o.account, snapshot).value, at)))
  {
  }

  /** Once a later observation of the account is stored, reading an older snapshot again raises a
      conflict exactly for the pauses whose marker had been inferred. */
  lemma LateReingestConflicts(rows: seq<Row>, o: Observation, snapshot: nat, at: int, stored: Row, later: Row)
    requires Find(rows, snapshot, o.account) == Some(stored)
    requires stored.at == at && stored.snapshot == snapshot && stored.observation.(automatic := o.automatic) == o
    requires later in rows && IsOther(later, o.account, snapshot) && later.at > at
    requires stored.observation.automatic != o.automatic ==> UnmarkedPause(o)
    ensures IngestOne(rows, o, snapshot, at).Err? <==> UnmarkedPause(o) && stored.observation.automatic
  {
    LatestIsNewest(rows, o.account, snapshot, later);
  }

  lemma ObserveOne(history: seq<Happening>, o: Observation, snapshot: nat, at: int)
    requires Find(After(history).rows, snapshot, o.account).None?
    ensures var rows := After(history).rows;
            After(history + [Observe([o], snapshot, at)]).rows
            == rows + [Row(snapshot, Normalize(rows, o, snapshot, at), at)]
  {
    var more := history + [Observe([o], snapshot, at)];
    assert more[..|more| - 1] == history;
    var rows := After(history).rows;
    var row := Row(snapshot, Normalize(rows, o, snapshot, at), at);
    IngestOnly(rows, o, snapshot, at);
    assert Ingest(rows, [o], snapshot, at) == Ok([row]);
  }

  /** Three ordinary calls: an error, then the pause it explains, then a newer observation.  The
      second call, made once more, raises. */
  lemma ReingestMayConflict() returns (history: seq<Happening>, again: Happening)
    ensures |history| == 3 && again == history[1] && again.Observe?
    ensures Ingest(After(history).rows, again.batch, again.snapshot, again.at) == Err(ObservationConflict)
  {
    var failing := Observation(7, InError, true, false, 0);
    var paused := Observation(7, Active, false, false, 0);
    var marked := paused.(automatic := true);
    ObserveOne([], failing, 1, 0);
    var first := Row(1, failing, 0);
    history := [] + [Observe([failing], 1, 0)];
    assert After(history).rows == [first];
    ObserveOne(history, paused, 2, 60);
    history := history + [Observe([paused], 2, 60)];
    var second := Row(2, marked, 60);
    assert [first][1..] == [];
    assert After(history).rows == [first, second];
    assert [first, second][1..] == [second] && [second][1..] == [];
    ObserveOne(history, failing, 3, 120);
    history := history + [Observe([failing], 3, 120)];
    var rows := [first, second, Row(3, failing, 120)];
    assert After(history).rows == rows;
    again := history[1];
    assert rows[1..][0] == second;
    LateReingestConflicts(rows, paused, 2, 60, second, Row(3, failing, 120));
  }
}
