/** Recovery runs with their durable ledger: resumable, stopping on doubt, and never twice. */
module AccountRecovery {
  import opened Common
  import opened AccountOperations
  import opened RecoverySelection

  /** One run per snapshot and cause; a channel-error run is known by its episode alone. */
  datatype RunKey = RunKey(snapshot: nat, cause: Trigger)

  function KeyOf(snapshot: nat, trigger: Trigger): RunKey {
    RunKey(snapshot, if trigger.ChannelError? then ChannelError(trigger.episode, 0) else trigger)
  }

  datatype Counts = Counts(selected: nat, tested: nat, enabled: nat, disabled: nat, indeterminate: nat, skipped: nat)

  datatype Status = Running | Succeeded | Failed | Interrupted

  datatype Run = Run(status: Status, counts: Counts)

  /** A ledger row; `started` and `cooldown` are those of the execution that wrote it. */
  datatype Row = Row(key: RunKey, account: nat, final: Final, tested: bool, occurred: int, started: int, cooldown: nat)

  datatype DB = DB(runs: map<RunKey, Run>, ledger: seq<Row>)

  /** How an execution ends: by itself, by an exception after some accounts were recorded, or
      cancelled there.  An exception is `marked` if the failure of the run could be stored; an
      error while storing it is suppressed. */
  datatype Ending = ByItself | Raises(recorded: nat, marked: bool) | IsCancelled(recorded: nat)

  datatype Request = Request(
    snapshot: nat, trigger: Trigger, accounts: seq<Account>, monitored: set<nat>, quarantined: set<nat>,
    processed: set<nat>, maxAccounts: nat, retryCooldown: nat, probeInterval: nat,
    mayRetry: nat -> bool, world: nat -> World, started: int, clock: nat -> int, ending: Ending)

  const NO_COUNTS := Counts(0, 0, 0, 0, 0, 0)

  function Cooldown(q: Request): nat { if q.trigger.HourlyCheck? then q.probeInterval else q.retryCooldown }

  function KeyRows(ledger: seq<Row>, key: RunKey): seq<Row> {
    if ledger == [] then []
    else (if ledger[0].key == key then [ledger[0]] else []) + KeyRows(ledger[1..], key)
  }

  function AccountsOf(rows: seq<Row>): set<nat> { set r | r in rows :: r.account }

  function RecentlyTested(ledger: seq<Row>, since: int): set<nat> {
    set r | r in ledger && r.tested && r.occurred >= since :: r.account
  }

  function Count(c: Counts, final: Final, tested: bool): Counts {
    var d := c.(tested := c.tested + if tested then 1 else 0);
    match final
    case Enabled => d.(enabled := d.enabled + 1)
    case Disabled => d.(disabled := d.disabled + 1)
    case Indeterminate => d.(indeterminate := d.indeterminate + 1)
    case Skipped => d.(skipped := d.skipped + 1)
  }

  function FinalCount(rows: seq<Row>, final: Final): nat {
    if rows == [] then 0 else FinalCount(rows[..|rows| - 1], final) + if rows[|rows| - 1].final == final then 1 else 0
  }

  function TestedCount(rows: seq<Row>): nat {
    if rows == [] then 0 else TestedCount(rows[..|rows| - 1]) + if rows[|rows| - 1].tested then 1 else 0
  }

  /** How many rows are tested, and how many have each result. */
  function Tally(selected: nat, rows: seq<Row>): Counts {
    Counts(selected, TestedCount(rows), FinalCount(rows, Enabled), FinalCount(rows, Disabled),
           FinalCount(rows, Indeterminate), FinalCount(rows, Skipped))
  }

  function Excluded(db: DB, q: Request): set<nat> {
    q.processed + AccountsOf(KeyRows(db.ledger, KeyOf(q.snapshot, q.trigger)))
    + if q.trigger.Manual? then {} else RecentlyTested(db.ledger, q.started - Cooldown(q))
  }

  function SelectionOf(db: DB, q: Request): Option<Selection> {
    Select(q.accounts, q.trigger, q.maxAccounts, q.monitored, q.quarantined, Excluded(db, q))
  }

  const PASSED_OVER := Handled(Skipped, false, true, 0, NoWrite)

  function Handle(q: Request, d: Decision, stopped: bool): Handled {
    if stopped then PASSED_OVER
    else ExecuteAccount(d.account, q.trigger, d.writeback, q.mayRetry(d.account.id), q.world(d.account.id))
  }

  /** The accounts in order; one that stops the run makes it pass over all that follow. */
  function Steps(q: Request, todo: seq<Decision>, stopped: bool): seq<Handled>
    decreases |todo|
  {
    if todo == [] then []
    else
      var h := Handle(q, todo[0], stopped);
      [h] + Steps(q, todo[1..], h.stop)
  }

  function RowOf(q: Request, d: Decision, h: Handled, k: nat): Row {
    Row(KeyOf(q.snapshot, q.trigger), d.account.id, h.final, h.tested, q.clock(k), q.started, Cooldown(q))
  }

  function RowsOf(q: Request, todo: seq<Decision>, steps: seq<Handled>): seq<Row>
    requires |steps| <= |todo|
  {
    seq(|steps|, (k: nat) requires k < |steps| => RowOf(q, todo[k], steps[k], k))
  }

  function Recorded(q: Request, n: nat): nat {
    match q.ending
    case ByItself => n
    case Raises(k, _) => if k < n then k else n
    case IsCancelled(k) => if k < n then k else n
  }

  /** `steps` are the accounts that were handled and recorded. */
  datatype Execution = Execution(db: DB, run: Run, todo: seq<Decision>, steps: seq<Handled>)

  function Finish(db: DB, key: RunKey, run: Run): DB { db.(runs := db.runs[key := run]) }

  /** The execution leaves its run finished; otherwise the run stays marked as running. */
  predicate Closes(q: Request) {
    q.ending.ByItself? || (q.ending.Raises? && q.ending.marked)
  }

  /** The run as the execution leaves it, if it is finished with this status and these counts. */
  function Closed(q: Request, status: Status, counts: Counts): Run {
    if Closes(q) then Run(status, counts) else Run(Running, NO_COUNTS)
  }

  /** Every exception fails the run. */
  function EndStatus(q: Request): Status {
    if q.ending.ByItself? then Succeeded else Failed
  }

  predicate IsOver(db: DB, key: RunKey) { key in db.runs && !db.runs[key].status.Running? }

  lemma {:induction false} StepsLength(q: Request, todo: seq<Decision>, stopped: bool)
    ensures |Steps(q, todo, stopped)| == |todo|
    decreases |todo|
  {
    if todo != [] {
      StepsLength(q, todo[1..], Handle(q, todo[0], stopped).stop);
    }
  }

  predicate IntervalIsSafe(q: Request) { 3600 <= q.probeInterval <= 86400 }

  /** The run of an execution that goes through the selected accounts. */
  function Performed(db: DB, q: Request, todo: seq<Decision>): Execution {
    var key := KeyOf(q.snapshot, q.trigger);
    var stored := KeyRows(db.ledger, key);
    StepsLength(q, todo, false);
    var steps := Steps(q, todo, false)[..Recorded(q, |todo|)];
    var rows := RowsOf(q, todo, steps);
    var counts := Tally(|todo| + |stored|, stored + rows);
    var run := Closed(q, EndStatus(q), counts);
    Execution(Finish(DB(db.runs, db.ledger + rows), key, run), run, todo, steps)
  }

  function Executed(db: DB, q: Request): Execution {
    var key := KeyOf(q.snapshot, q.trigger);
    if IsOver(db, key) then Execution(db, db.runs[key], [], [])
    else if !IntervalIsSafe(q) || SelectionOf(db, q).None? then
      var run := Closed(q, Failed, NO_COUNTS);
      Execution(Finish(db, key, run), run, [], [])
    else
      var selection := SelectionOf(db, q).value;
      if selection.blocked then
        var stored := KeyRows(db.ledger, key);
        var counts := Tally(|stored|, stored);
        var run := Closed(q, Failed, counts.(skipped := counts.skipped + |selection.decisions|));
        Execution(Finish(db, key, run), run, [], [])
      else Performed(db, q, Chosen(selection.decisions))
  }

  // ----- The same, as the executor does it -----

  lemma StepsOnward(q: Request, todo: seq<Decision>, i: nat, done: seq<Handled>, stopped: bool)
    requires i < |todo| && |done| == i
    requires Steps(q, todo, false) == done + Steps(q, todo[i..], stopped)
    ensures var h := Handle(q, todo[i], stopped);
            Steps(q, todo, false) == done + [h] + Steps(q, todo[i + 1..], h.stop)
  {
    var h := Handle(q, todo[i], stopped);
    assert todo[i..][0] == todo[i] && todo[i..][1..] == todo[i + 1..];
    assert Steps(q, todo[i..], stopped) == [h] + Steps(q, todo[i + 1..], h.stop);
  }

  lemma RowsOnward(q: Request, todo: seq<Decision>, done: seq<Handled>, h: Handled)
    requires |done| < |todo|
    ensures RowsOf(q, todo, done + [h]) == RowsOf(q, todo, done) + [RowOf(q, todo[|done|], h, |done|)]
  {
  }

  lemma TallyOne(selected: nat, rows: seq<Row>, r: Row)
    ensures Tally(selected, rows + [r]) == Count(Tally(selected, rows), r.final, r.tested)
  {
    assert (rows + [r])[..|rows|] == rows;
  }

  class RecoveryLedger {
    var runs: map<RunKey, Run>
    var ledger: seq<Row>

    ghost function Value(): DB
      reads this
    {
      DB(runs, ledger)
    }

    constructor ()
      ensures Value() == DB(map[], [])
    {
      runs, ledger := map[], [];
    }

    /** Handles the first `count` accounts of `todo` and records each. */
    method HandleAccounts(q: Request, todo: seq<Decision>, count: nat, selected: nat, ghost stored: seq<Row>,
            start: Counts)
      returns (counts: Counts, ghost steps: seq<Handled>)
      requires count <= |todo| && start == Tally(selected, stored)
      modifies this`ledger
      ensures |steps| == count <= |Steps(q, todo, false)| && steps == Steps(q, todo, false)[..count]
      ensures ledger == old(ledger) + RowsOf(q, todo, steps)
      ensures counts == Tally(selected, stored + RowsOf(q, todo, steps))
    {
      var stopped := false;
      counts, steps := start, [];
      assert stored + RowsOf(q, todo, []) == stored;
      for i := 0 to count
        invariant |steps| == i && Steps(q, todo, false) == steps + Steps(q, todo[i..], stopped)
        invariant ledger == old(ledger) + RowsOf(q, todo, steps)
        invariant counts == Tally(selected, stored + RowsOf(q, todo, steps))
      {
        var h := Handle(q, todo[i], stopped);
        var row := RowOf(q, todo[i], h, i);
        StepsOnward(q, todo, i, steps, stopped);
        RowsOnward(q, todo, steps, h);
        TallyOne(selected, stored + RowsOf(q, todo, steps), row);
        assert stored + (RowsOf(q, todo, steps) + [row]) == stored + RowsOf(q, todo, steps) + [row];
        ledger := ledger + [row];
        counts := Count(counts, h.final, h.tested);
        stopped := h.stop;
        steps := steps + [h];
      }
    }

    method Execute(q: Request) returns (run: Run, ghost x: Execution)
      modifies this
      ensures x == Executed(old(Value()), q) && run == x.run && Value() == x.db
    {
      x := Executed(Value(), q);
      var key := KeyOf(q.snapshot, q.trigger);
      if key in runs && !runs[key].status.Running? {
        return runs[key], x;
      }
      var selection := SelectionOf(DB(runs, ledger), q);
      if !IntervalIsSafe(q) || selection.None? {
        run := Closed(q, Failed, NO_COUNTS);
        runs := runs[key := run];
        return;
      }
      var stored := KeyRows(ledger, key);
      if selection.value.blocked {
        var counts := Tally(|stored|, stored);
        run := Closed(q, Failed, counts.(skipped := counts.skipped + |selection.value.decisions|));
        runs := runs[key := run];
        return;
      }
      var todo := Chosen(selection.value.decisions);
      var selected := |todo| + |stored|;
      var counts, steps := HandleAccounts(q, todo, Recorded(q, |todo|), selected, stored, Tally(selected, stored));
      run := Closed(q, EndStatus(q), counts);
      runs := runs[key := run];
    }

    /** The runs of one cycle, each leaving out what the runs before it in the cycle tested. */
    method RunCycle(requests: seq<Request>) returns (ghost executions: seq<Execution>, ghost asked: seq<Request>)
      modifies this
      ensures |executions| == |asked| == |requests|
      ensures forall i | 0 <= i < |requests| :: asked[i] == requests[i].(processed := asked[i].processed)
      ensures IsCycle(old(Value()), asked, executions)
      ensures Value() == AfterCycle(old(Value()), executions)
    {
      var processed: set<nat> := {};
      executions, asked := [], [];
      for i := 0 to |requests|
        invariant |executions| == |asked| == i
        invariant forall k | 0 <= k < i :: asked[k] == requests[k].(processed := asked[k].processed)
        invariant IsCycle(old(Value()), asked, executions)
        invariant Value() == AfterCycle(old(Value()), executions)
        invariant processed == ProcessedAfter(asked, executions)
      {
        var q := requests[i].(processed := processed);
        ghost var x;
        ghost var run;
        run, x := Execute(q);
        CycleGrows(old(Value()), asked, executions, q, x);
        processed := processed + TestedIn(KeyRows(ledger, KeyOf(q.snapshot, q.trigger)));
        executions, asked := executions + [x], asked + [q];
      }
    }
  }

  function TestedIn(rows: seq<Row>): set<nat> { set r | r in rows && r.tested :: r.account }

  ghost function AfterCycle(db: DB, executions: seq<Execution>): DB {
    if executions == [] then db else executions[|executions| - 1].db
  }

  /** The tested accounts in the records of the runs so far, whoever tested them. */
  ghost function ProcessedAfter(asked: seq<Request>, executions: seq<Execution>): set<nat>
    requires |asked| == |executions|
  {
    if asked == [] then {}
    else
      var n := |asked| - 1;
      ProcessedAfter(asked[..n], executions[..n])
      + TestedIn(KeyRows(executions[n].db.ledger, KeyOf(asked[n].snapshot, asked[n].trigger)))
  }

  ghost predicate IsTurn(db: DB, asked: seq<Request>, executions: seq<Execution>, k: nat)
    requires k < |asked| == |executions|
  {
    && executions[k] == Executed(AfterCycle(db, executions[..k]), asked[k])
    && asked[k].processed == ProcessedAfter(asked[..k], executions[..k])
  }

  ghost predicate IsCycle(db: DB, asked: seq<Request>, executions: seq<Execution>)
    requires |asked| == |executions|
  {
    forall k: nat | k < |asked| :: IsTurn(db, asked, executions, k)
  }

  lemma CycleGrows(db: DB, asked: seq<Request>, executions: seq<Execution>, q: Request, x: Execution)
    requires |asked| == |executions| && IsCycle(db, asked, executions)
    requires x == Executed(AfterCycle(db, executions), q) && q.processed == ProcessedAfter(asked, executions)
    ensures IsCycle(db, asked + [q], executions + [x])
    ensures AfterCycle(db, executions + [x]) == x.db
    ensures ProcessedAfter(asked + [q], executions + [x])
            == ProcessedAfter(asked, executions) + TestedIn(KeyRows(x.db.ledger, KeyOf(q.snapshot, q.trigger)))
  {
    var n := |asked|;
    assert (asked + [q])[..n] == asked && (executions + [x])[..n] == executions;
    forall k: nat | k < n + 1 ensures IsTurn(db, asked + [q], executions + [x], k) {
      if k < n {
        assert IsTurn(db, asked, executions, k);
        assert (asked + [q])[..k] == asked[..k] && (executions + [x])[..k] == executions[..k];
      }
    }
  }
}
