/** What holds of recovery runs over every history of executions, cancellations and restarts. */
module RecoveryHistory {
  import opened Common
  import opened AccountOperations
  import opened RecoverySelection
  import opened AccountRecovery

  // ----- One execution -----

  lemma {:induction false} StopHolds(q: Request, todo: seq<Decision>, stopped: bool, i: nat, j: nat)
    requires i < j < |Steps(q, todo, stopped)|
    requires stopped || Steps(q, todo, stopped)[i].stop
    ensures Steps(q, todo, stopped)[j] == PASSED_OVER
    decreases |todo|
  {
    var next := Handle(q, todo[0], stopped).stop;
    if i > 0 {
      StopHolds(q, todo[1..], next, i - 1, j - 1);
    } else if j > 1 {
      StopHolds(q, todo[1..], next, 0, j - 1);
    }
  }

  lemma {:induction false} StepIsHandled(q: Request, todo: seq<Decision>, stopped: bool, i: nat)
    requires i < |Steps(q, todo, stopped)|
    ensures |Steps(q, todo, stopped)| == |todo|
    ensures || Steps(q, todo, stopped)[i] == Handle(q, todo[i], false)
            || (&& Steps(q, todo, stopped)[i] == PASSED_OVER
                && (stopped || exists k: nat :: k < i && Steps(q, todo, stopped)[k].stop))
    decreases |todo|
  {
    StepsLength(q, todo, stopped);
    if i > 0 {
      var h := Handle(q, todo[0], stopped);
      StepIsHandled(q, todo[1..], h.stop, i - 1);
      if !stopped && Steps(q, todo, stopped)[i] != Handle(q, todo[i], false) {
        if h.stop {
          assert Steps(q, todo, stopped)[0].stop;
        } else {
          var k: nat :| k < i - 1 && Steps(q, todo[1..], h.stop)[k].stop;
          assert Steps(q, todo, stopped)[k + 1].stop;
        }
      }
    }
  }

  /** The execution went through its accounts: it was not a replay and was not refused. */
  predicate Went(db: DB, q: Request) {
    && !IsOver(db, KeyOf(q.snapshot, q.trigger)) && IntervalIsSafe(q)
    && SelectionOf(db, q).Some? && !SelectionOf(db, q).value.blocked
  }

  /** The accounts a run selects now, in order. */
  function ChosenNow(db: DB, q: Request): seq<Decision> {
    Chosen(ChooseAll(q.accounts, q.trigger, q.monitored, q.quarantined, Excluded(db, q)))
  }

  lemma ExecutionShape(db: DB, q: Request)
    ensures var x := Executed(db, q);
            && |x.steps| <= |x.todo| && |x.steps| <= |Steps(q, x.todo, false)|
            && x.steps == Steps(q, x.todo, false)[..|x.steps|]
            && x.db.ledger == db.ledger + RowsOf(q, x.todo, x.steps)
            && (x.todo != [] ==> Went(db, q) && x.todo == ChosenNow(db, q))
  {
    var x := Executed(db, q);
    StepsLength(q, x.todo, false);
    assert RowsOf(q, x.todo, []) == [];
    assert db.ledger + [] == db.ledger;
  }

  /** After a write that went out and was not confirmed, no later account of the execution is
      tested or written; each is recorded as skipped. */
  lemma NothingAfterDoubt(db: DB, q: Request, i: nat, j: nat)
    requires i < j < |Executed(db, q).steps| && |Executed(db, q).steps| <= |Executed(db, q).todo|
    requires WriteUnconfirmed(Executed(db, q).steps[i], q.world(Executed(db, q).todo[i].account.id))
    ensures Executed(db, q).steps[j] == PASSED_OVER
  {
    var x := Executed(db, q);
    ExecutionShape(db, q);
    var all := Steps(q, x.todo, false);
    assert all[i] == x.steps[i] && all[j] == x.steps[j];
    StepIsHandled(q, x.todo, false, i);
    var d := x.todo[i];
    StopMeansUnconfirmed(d.account, q.trigger, d.writeback, q.mayRetry(d.account.id), q.world(d.account.id));
    StopHolds(q, x.todo, false, i, j);
  }

  /** And only then, or after a read that raised: an account that is passed over has such a step
      before it. */
  lemma PassedOverForDoubt(db: DB, q: Request, j: nat)
    requires j < |Executed(db, q).steps| && |Executed(db, q).steps| <= |Executed(db, q).todo|
    requires Executed(db, q).steps[j].stop && Executed(db, q).steps[j].final.Skipped?
    ensures exists i: nat :: i < j && Executed(db, q).steps[i].stop && Executed(db, q).steps[i].final.Indeterminate?
    decreases j
  {
    var x := Executed(db, q);
    ExecutionShape(db, q);
    var all := Steps(q, x.todo, false);
    StepIsHandled(q, x.todo, false, j);
    var d := x.todo[j];
    StopMeansUnconfirmed(d.account, q.trigger, d.writeback, q.mayRetry(d.account.id), q.world(d.account.id));
    var k: nat :| k < j && all[k].stop;
    assert all[k] == x.steps[k];
    StepIsHandled(q, x.todo, false, k);
    var e := x.todo[k];
    StopMeansUnconfirmed(e.account, q.trigger, e.writeback, q.mayRetry(e.account.id), q.world(e.account.id));
    if !x.steps[k].final.Indeterminate? {
      PassedOverForDoubt(db, q, k);
    }
  }

  /** No execution tests or writes an account that the snapshot shows as paused by hand, expired or
      OAuth; and none writes an account it may not write back. */
  lemma OnlyEligibleAreTouched(db: DB, q: Request, k: nat)
    requires k < |Executed(db, q).steps| && |Executed(db, q).steps| <= |Executed(db, q).todo|
    ensures var x := Executed(db, q);
            var a := x.todo[k].account;
            && a in q.accounts && !a.oauth && !a.expired && !ManualPause(a)
            && a.groups * q.monitored != {} && a.id !in Excluded(db, q)
            && (x.steps[k].write != NoWrite ==> ScopeGroup(q.trigger).Some? || a.groups <= q.monitored)
  {
    var x := Executed(db, q);
    ExecutionShape(db, q);
    var d := x.todo[k];
    ChosenMayBeTested(q.accounts, q.trigger, q.monitored, q.quarantined, Excluded(db, q), d);
    StepIsHandled(q, x.todo, false, k);
    WriteFollowsTest(d.account, q.trigger, d.writeback, q.mayRetry(d.account.id), q.world(d.account.id));
  }

  // ----- Counts -----

  function Total(c: Counts): nat { c.enabled + c.disabled + c.indeterminate + c.skipped }

  lemma {:induction false} TallyTotals(selected: nat, rows: seq<Row>)
    ensures Total(Tally(selected, rows)) == |rows|
    decreases |rows|
  {
    if rows != [] {
      var most, last := rows[..|rows| - 1], rows[|rows| - 1];
      TallyTotals(selected, most);
      assert rows == most + [last];
      TallyOne(selected, most, last);
    }
  }

  lemma {:induction false} KeyRowsBoth(a: seq<Row>, b: seq<Row>, key: RunKey)
    ensures KeyRows(a + b, key) == KeyRows(a, key) + KeyRows(b, key)
    decreases |a|
  {
    if a == [] {
      assert a + b == b;
    } else {
      assert (a + b)[1..] == a[1..] + b;
      KeyRowsBoth(a[1..], b, key);
    }
  }

  lemma {:induction false} KeyRowsSame(rows: seq<Row>, own: RunKey, key: RunKey)
    requires forall r | r in rows :: r.key == own
    ensures KeyRows(rows, key) == if own == key then rows else []
    decreases |rows|
  {
    if rows != [] {
      KeyRowsSame(rows[1..], own, key);
      assert rows == [rows[0]] + rows[1..];
    }
  }

  lemma {:induction false} KeyRowsIn(ledger: seq<Row>, key: RunKey, r: Row)
    ensures r in KeyRows(ledger, key) <==> r in ledger && r.key == key
    decreases |ledger|
  {
    if ledger != [] {
      KeyRowsIn(ledger[1..], key, r);
    }
  }

  lemma RowsHaveKey(q: Request, todo: seq<Decision>, steps: seq<Handled>)
    requires |steps| <= |todo|
    ensures forall r | r in RowsOf(q, todo, steps) :: r.key == KeyOf(q.snapshot, q.trigger)
  {
  }

  lemma KeyRowsAfter(db: DB, q: Request, key: RunKey)
    ensures var x := Executed(db, q);
            && |x.steps| <= |x.todo|
            && KeyRows(x.db.ledger, key) == KeyRows(db.ledger, key)
                + if key == KeyOf(q.snapshot, q.trigger) then RowsOf(q, x.todo, x.steps) else []
  {
    var x := Executed(db, q);
    ExecutionShape(db, q);
    RowsHaveKey(q, x.todo, x.steps);
    KeyRowsBoth(db.ledger, RowsOf(q, x.todo, x.steps), key);
    KeyRowsSame(RowsOf(q, x.todo, x.steps), KeyOf(q.snapshot, q.trigger), key);
  }

  /** The counts are exactly those of the ledger rows of the run, and nothing selected is lost. */
  predicate CountsAreLedger(ledger: seq<Row>, key: RunKey, c: Counts) {
    var rows := KeyRows(ledger, key);
    c == Tally(|rows|, rows) && Total(c) == c.selected
  }

  lemma PerformsAll(db: DB, q: Request, todo: seq<Decision>) returns (rows: seq<Row>)
    requires q.ending.ByItself?
    ensures forall r | r in rows :: r.key == KeyOf(q.snapshot, q.trigger)
    ensures |rows| == |todo| && Performed(db, q, todo).db.ledger == db.ledger + rows
    ensures var stored := KeyRows(db.ledger, KeyOf(q.snapshot, q.trigger));
            Performed(db, q, todo).run.counts == Tally(|rows| + |stored|, stored + rows)
  {
    StepsLength(q, todo, false);
    rows := RowsOf(q, todo, Performed(db, q, todo).steps);
  }

  lemma PerformedConserves(db: DB, q: Request, todo: seq<Decision>, x: Execution)
    requires q.ending.ByItself? && x == Performed(db, q, todo)
    ensures CountsAreLedger(x.db.ledger, KeyOf(q.snapshot, q.trigger), x.run.counts)
  {
    var rows := PerformsAll(db, q, todo);
    var key := KeyOf(q.snapshot, q.trigger);
    KeyRowsBoth(db.ledger, rows, key);
    KeyRowsSame(rows, key, key);
    TallyTotals(|x.todo| + |KeyRows(db.ledger, key)|, KeyRows(db.ledger, key) + rows);
  }

  /** An execution that succeeds, also one that resumes a run from stored results, ends with
      enabled + disabled + indeterminate + skipped = selected, each the number of such rows. */
  lemma SuccessConserves(db: DB, q: Request)
    requires !IsOver(db, KeyOf(q.snapshot, q.trigger)) && Executed(db, q).run.status.Succeeded?
    ensures CountsAreLedger(Executed(db, q).db.ledger, KeyOf(q.snapshot, q.trigger), Executed(db, q).run.counts)
  {
    PerformedConserves(db, q, Chosen(SelectionOf(db, q).value.decisions), Executed(db, q));
  }

  lemma {:induction false} DeselectedLength(decisions: seq<Decision>)
    ensures |Deselected(decisions)| == |decisions|
  {
    if decisions != [] {
      DeselectedLength(decisions[1..]);
    }
  }

  lemma BlockedRun(db: DB, q: Request)
    requires !IsOver(db, KeyOf(q.snapshot, q.trigger)) && IntervalIsSafe(q)
    requires SelectionOf(db, q).Some? && SelectionOf(db, q).value.blocked
    ensures var stored := KeyRows(db.ledger, KeyOf(q.snapshot, q.trigger));
            var counts := Tally(|stored|, stored);
            var decisions := SelectionOf(db, q).value.decisions;
            && |decisions| > q.maxAccounts && Chosen(decisions) == [] && Executed(db, q).steps == []
            && Executed(db, q).run == Closed(q, Failed, counts.(skipped := counts.skipped + |decisions|))
  {
    hide Tally, ChooseAll, KeyRows;
    var decisions := ChooseAll(q.accounts, q.trigger, q.monitored, q.quarantined, Excluded(db, q));
    DeselectedLength(decisions);
    DeselectedChoosesNone(decisions);
  }

  /** A run that is refused because its group is too large chooses and touches no account.  It
      counts what it refused as skipped, and nothing as selected: the sum then exceeds the selected
      by the size of the group.  If even that could not be stored, the run stays open. */
  lemma BlockedRunCounts(db: DB, q: Request)
    requires !IsOver(db, KeyOf(q.snapshot, q.trigger)) && IntervalIsSafe(q)
    requires SelectionOf(db, q).Some? && SelectionOf(db, q).value.blocked
    ensures |SelectionOf(db, q).value.decisions| > q.maxAccounts
    ensures Chosen(SelectionOf(db, q).value.decisions) == [] && Executed(db, q).steps == []
    ensures var run := Executed(db, q).run;
            && (run.status.Failed? <==> Closes(q)) && (run.status.Running? <==> !Closes(q))
            && (Closes(q) ==> Total(run.counts) == run.counts.selected + |SelectionOf(db, q).value.decisions|)
  {
    var stored := KeyRows(db.ledger, KeyOf(q.snapshot, q.trigger));
    BlockedRun(db, q);
    TallyTotals(|stored|, stored);
    hide Executed, SelectionOf, Tally, KeyRows;
  }

  // ----- Every history -----

  /** An execution, or a restart, which marks runs that were left running as interrupted. */
  datatype Happening = Execution(request: Request) | Restart

  function Interrupt(runs: map<RunKey, Run>): map<RunKey, Run> {
    map key | key in runs :: if runs[key].status.Running? then runs[key].(status := Interrupted) else runs[key]
  }

  function Next(db: DB, e: Happening): DB {
    match e
    case Execution(q) => Executed(db, q).db
    case Restart => db.(runs := Interrupt(db.runs))
  }

  function After(history: seq<Happening>): DB {
    if history == [] then DB(map[], []) else Next(After(history[..|history| - 1]), history[|history| - 1])
  }

  lemma ExecutedSpares(db: DB, q: Request, key: RunKey)
    requires IsOver(db, key)
    ensures key in Executed(db, q).db.runs && Executed(db, q).db.runs[key] == db.runs[key]
    ensures key == KeyOf(q.snapshot, q.trigger) ==> Executed(db, q).steps == [] && Executed(db, q).todo == []
  {
    hide Tally, KeyRows, SelectionOf, Steps, RowsOf;
  }

  /** A finished run stays as it is: its status, its counts and its rows. */
  lemma FinishedIsFinal(db: DB, e: Happening, key: RunKey)
    requires IsOver(db, key)
    ensures IsOver(Next(db, e), key) && Next(db, e).runs[key] == db.runs[key]
    ensures KeyRows(Next(db, e).ledger, key) == KeyRows(db.ledger, key)
  {
    if e.Execution? {
      ExecutedSpares(db, e.request, key);
      KeyRowsAfter(db, e.request, key);
      assert RowsOf(e.request, [], []) == [];
      hide Executed;
    }
  }

  ghost predicate SuccessesConserve(db: DB) {
    forall key | key in db.runs && db.runs[key].status.Succeeded? ::
      CountsAreLedger(db.ledger, key, db.runs[key].counts)
  }

  lemma NextConserves(db: DB, e: Happening)
    requires SuccessesConserve(db)
    ensures SuccessesConserve(Next(db, e))
  {
    var after := Next(db, e);
    forall key | key in after.runs && after.runs[key].status.Succeeded?
      ensures CountsAreLedger(after.ledger, key, after.runs[key].counts)
    {
      if IsOver(db, key) {
        FinishedIsFinal(db, e, key);
      } else {
        SuccessConserves(db, e.request);
      }
    }
  }

  /** In every reachable state the counts of every succeeded run add up and agree with its rows. */
  lemma {:induction false} CountsAlwaysAgree(history: seq<Happening>)
    ensures SuccessesConserve(After(history))
    decreases |history|
  {
    if history != [] {
      CountsAlwaysAgree(history[..|history| - 1]);
      NextConserves(After(history[..|history| - 1]), history[|history| - 1]);
    }
  }

  /** Two recorded tests of one account: the later execution started more than its cooldown after
      the earlier test, unless an operator asked for it. */
  predicate Spaced(a: Row, b: Row) {
    a.account == b.account && a.tested && b.tested && !b.key.cause.Manual? ==> b.started > a.occurred + b.cooldown
  }

  ghost predicate AllSpaced(ledger: seq<Row>) {
    forall i, j | 0 <= i < j < |ledger| :: Spaced(ledger[i], ledger[j])
  }

  /** No run has two rows for one account, so recording a result never meets a conflicting one. */
  ghost predicate RecordedOnce(ledger: seq<Row>) {
    forall i, j | 0 <= i < j < |ledger| :: !(ledger[i].key == ledger[j].key && ledger[i].account == ledger[j].account)
  }

  lemma NewRow(db: DB, q: Request, k: nat)
    requires k < |Executed(db, q).steps| && |Executed(db, q).steps| <= |Executed(db, q).todo|
    ensures var r := RowsOf(q, Executed(db, q).todo, Executed(db, q).steps)[k];
            forall old' | old' in db.ledger :: Spaced(old', r) && !(old'.key == r.key && old'.account == r.account)
  {
    var x := Executed(db, q);
    OnlyEligibleAreTouched(db, q, k);
    var r := RowsOf(q, x.todo, x.steps)[k];
    var stored := KeyRows(db.ledger, KeyOf(q.snapshot, q.trigger));
    forall old' | old' in db.ledger ensures Spaced(old', r) && !(old'.key == r.key && old'.account == r.account) {
      KeyRowsIn(db.ledger, KeyOf(q.snapshot, q.trigger), old');
      assert old'.key == r.key ==> old'.account in AccountsOf(stored);
      assert old'.tested && old'.occurred >= q.started - Cooldown(q) ==>
          old'.account in RecentlyTested(db.ledger, q.started - Cooldown(q));
    }
  }

  lemma NewRowsDistinct(db: DB, q: Request, i: nat, j: nat)
    requires i < j < |Executed(db, q).steps| && |Executed(db, q).steps| <= |Executed(db, q).todo|
    ensures Executed(db, q).todo[i].account.id != Executed(db, q).todo[j].account.id
  {
    ExecutionShape(db, q);
    ChosenDistinct(q.accounts, q.trigger, q.monitored, q.quarantined, Excluded(db, q));
  }

  lemma LedgerSplits(db: DB, q: Request)
    ensures var x := Executed(db, q);
            && |x.steps| <= |x.todo| && x.db.ledger == db.ledger + RowsOf(q, x.todo, x.steps)
            && |RowsOf(q, x.todo, x.steps)| == |x.steps|
  {
    ExecutionShape(db, q);
  }

  predicate Fits(a: Row, b: Row) {
    Spaced(a, b) && !(a.key == b.key && a.account == b.account)
  }

  lemma NewPairFits(db: DB, q: Request, i: nat, j: nat)
    requires i < j < |Executed(db, q).steps| && |Executed(db, q).steps| <= |Executed(db, q).todo|
    ensures var rows := RowsOf(q, Executed(db, q).todo, Executed(db, q).steps); Fits(rows[i], rows[j])
  {
    hide Executed;
    NewRowsDistinct(db, q, i, j);
  }

  lemma OldAndNewFit(db: DB, q: Request, old': Row, k: nat)
    requires old' in db.ledger
    requires k < |Executed(db, q).steps| && |Executed(db, q).steps| <= |Executed(db, q).todo|
    ensures Fits(old', RowsOf(q, Executed(db, q).todo, Executed(db, q).steps)[k])
  {
    hide Executed;
    NewRow(db, q, k);
  }

  lemma PairSpaced(db: DB, q: Request, i: nat, j: nat)
    requires AllSpaced(db.ledger) && RecordedOnce(db.ledger) && i < j < |Executed(db, q).db.ledger|
    ensures Fits(Executed(db, q).db.ledger[i], Executed(db, q).db.ledger[j])
  {
    hide Executed, RowsOf;
    var x := Executed(db, q);
    LedgerSplits(db, q);
    var rows, n := RowsOf(q, x.todo, x.steps), |db.ledger|;
    var all := x.db.ledger;
    if j < n {
      assert all[i] == db.ledger[i] && all[j] == db.ledger[j];
    } else if i < n {
      hide Fits;
      assert all[i] in db.ledger && all[j] == rows[j - n];
      OldAndNewFit(db, q, all[i], j - n);
    } else {
      hide Fits;
      assert all[i] == rows[i - n] && all[j] == rows[j - n];
      NewPairFits(db, q, i - n, j - n);
    }
  }

  lemma ExecutionSpaces(db: DB, q: Request)
    requires AllSpaced(db.ledger) && RecordedOnce(db.ledger)
    ensures AllSpaced(Executed(db, q).db.ledger) && RecordedOnce(Executed(db, q).db.ledger)
  {
    var all := Executed(db, q).db.ledger;
    hide Executed;
    forall i: nat, j: nat | i < j < |all| ensures Fits(all[i], all[j])
    {
      PairSpaced(db, q, i, j);
    }
  }

  /** Over every history: tests of one account keep their distance, and no run records an account
      twice. */
  lemma {:induction false} LedgerIsSpaced(history: seq<Happening>)
    ensures AllSpaced(After(history).ledger) && RecordedOnce(After(history).ledger)
    decreases |history|
  {
    if history != [] {
      var before, e := After(history[..|history| - 1]), history[|history| - 1];
      LedgerIsSpaced(history[..|history| - 1]);
      if e.Execution? {
        ExecutionSpaces(before, e.request);
      }
    }
  }

  /** Every request of the history has these intervals. */
  ghost predicate IntervalsAre(history: seq<Happening>, hourly: nat, retry: nat) {
    forall e | e in history && e.Execution? :: e.request.probeInterval == hourly && e.request.retryCooldown == retry
  }

  ghost predicate CooldownsAre(ledger: seq<Row>, hourly: nat, retry: nat) {
    forall r | r in ledger :: r.cooldown == if r.key.cause.HourlyCheck? then hourly else retry
  }

  lemma ExecutionCooldowns(db: DB, q: Request)
    requires CooldownsAre(db.ledger, q.probeInterval, q.retryCooldown)
    ensures CooldownsAre(Executed(db, q).db.ledger, q.probeInterval, q.retryCooldown)
  {
    hide Executed;
    LedgerSplits(db, q);
    var x := Executed(db, q);
    forall r | r in RowsOf(q, x.todo, x.steps)
      ensures r.cooldown == if r.key.cause.HourlyCheck? then q.probeInterval else q.retryCooldown
    {
    }
  }

  lemma {:induction false} CooldownsStay(history: seq<Happening>, hourly: nat, retry: nat)
    requires IntervalsAre(history, hourly, retry)
    ensures CooldownsAre(After(history).ledger, hourly, retry)
    decreases |history|
  {
    if history != [] {
      var most, e := history[..|history| - 1], history[|history| - 1];
      CooldownsStay(most, hourly, retry);
      if e.Execution? {
        assert e in history;
        ExecutionCooldowns(After(most), e.request);
      }
    }
  }

  /** With fixed settings: an hourly check tests no account that was tested within the probe interval
      before it started, and any other automatic run none that was tested within the retry cooldown. */
  lemma TestsKeepInterval(history: seq<Happening>, hourly: nat, retry: nat, i: nat, j: nat)
    requires IntervalsAre(history, hourly, retry) && i < j < |After(history).ledger|
    ensures var a, b := After(history).ledger[i], After(history).ledger[j];
            a.account == b.account && a.tested && b.tested && !b.key.cause.Manual? ==>
              b.started > a.occurred + if b.key.cause.HourlyCheck? then hourly else retry
  {
    LedgerIsSpaced(history);
    CooldownsStay(history, hourly, retry);
    var b := After(history).ledger[j];
    assert b in After(history).ledger && Spaced(After(history).ledger[i], b);
  }

  // ----- One cycle -----

  lemma {:induction false} ProcessedContains(asked: seq<Request>, executions: seq<AccountRecovery.Execution>, i: nat)
    requires |asked| == |executions| && i < |asked|
    ensures TestedIn(KeyRows(executions[i].db.ledger, KeyOf(asked[i].snapshot, asked[i].trigger)))
         <= ProcessedAfter(asked, executions)
    decreases |asked|
  {
    var n := |asked| - 1;
    if i < n {
      ProcessedContains(asked[..n], executions[..n], i);
    }
  }

  lemma TestIsRecorded(db: DB, q: Request, k: nat)
    requires k < |Executed(db, q).steps| && |Executed(db, q).steps| <= |Executed(db, q).todo|
    requires Executed(db, q).steps[k].tested
    ensures Executed(db, q).todo[k].account.id
            in TestedIn(KeyRows(Executed(db, q).db.ledger, KeyOf(q.snapshot, q.trigger)))
  {
    var x := Executed(db, q);
    var key := KeyOf(q.snapshot, q.trigger);
    ExecutionShape(db, q);
    var r := RowsOf(q, x.todo, x.steps)[k];
    assert r in RowsOf(q, x.todo, x.steps);
    KeyRowsIn(x.db.ledger, key, r);
  }

  /** Inside one cycle an account that one run has tested is not even selected by a later one. */
  lemma CycleTestsOnce(db: DB, asked: seq<Request>, executions: seq<AccountRecovery.Execution>, i: nat, j: nat,
          k: nat, m: nat)
    requires |asked| == |executions| && IsCycle(db, asked, executions) && i < j < |asked|
    requires k < |executions[i].steps| && k < |executions[i].todo| && executions[i].steps[k].tested
    requires m < |executions[j].steps| && m < |executions[j].todo|
    ensures executions[i].todo[k].account.id != executions[j].todo[m].account.id
  {
    assert IsTurn(db, asked, executions, i) && IsTurn(db, asked, executions, j);
    var before, earlier := AfterCycle(db, executions[..j]), AfterCycle(db, executions[..i]);
    ExecutionShape(earlier, asked[i]);
    TestIsRecorded(earlier, asked[i], k);
    ProcessedContains(asked[..j], executions[..j], i);
    ExecutionShape(before, asked[j]);
    OnlyEligibleAreTouched(before, asked[j], m);
  }

  // ----- Resuming forgets the doubt -----

  function Follow(db: DB, later: seq<Happening>): DB
    decreases |later|
  {
    if later == [] then db else Follow(Next(db, later[0]), later[1..])
  }

  /** A restart, or an execution of the run that leaves it finished. */
  predicate ClosesRun(e: Happening, key: RunKey) {
    match e
    case Execution(q) => KeyOf(q.snapshot, q.trigger) == key && Closes(q)
    case Restart => true
  }

  lemma NextCloses(db: DB, e: Happening, key: RunKey)
    requires key in db.runs
    ensures key in Next(db, e).runs && (IsOver(Next(db, e), key) <==> IsOver(db, key) || ClosesRun(e, key))
  {
  }

  lemma {:induction false} FollowCloses(db: DB, later: seq<Happening>, key: RunKey)
    requires key in db.runs
    ensures IsOver(Follow(db, later), key) <==> IsOver(db, key) || exists e :: e in later && ClosesRun(e, key)
    decreases |later|
  {
    if later != [] {
      NextCloses(db, later[0], key);
      FollowCloses(Next(db, later[0]), later[1..], key);
      assert forall e :: e in later <==> e == later[0] || e in later[1..];
    }
  }

  /** A finished run touches no account.  An open one touches whatever it selects, and begins
      without any doubt, whatever its stored results say. */
  lemma OpenRunStartsAfresh(db: DB, q: Request)
    ensures var x := Executed(db, q);
            && (x.steps != [] <==> Went(db, q) && ChosenNow(db, q) != [] && Recorded(q, |ChosenNow(db, q)|) > 0)
            && (x.steps != [] ==> x.todo == ChosenNow(db, q) && x.steps[0] == Handle(q, x.todo[0], false))
  {
    ExecutionShape(db, q);
    StepsLength(q, ChosenNow(db, q), false);
  }

  /** An execution of a run, anything after it, and one more execution of the same run.  The last
      one finds the run finished exactly if the first closed it, or a restart or another execution
      did so since; then it touches nothing.  Otherwise it forgets every doubt of the first. */
  lemma DoubtEndsIfClosed(db: DB, q: Request, later: seq<Happening>, again: Request)
    requires !IsOver(db, KeyOf(q.snapshot, q.trigger))
    requires KeyOf(again.snapshot, again.trigger) == KeyOf(q.snapshot, q.trigger)
    ensures var key, now := KeyOf(q.snapshot, q.trigger), Follow(Executed(db, q).db, later);
            && (IsOver(now, key) <==> Closes(q) || exists e :: e in later && ClosesRun(e, key))
            && (IsOver(now, key) ==> Executed(now, again).steps == [])
            && (Executed(now, again).steps != [] ==>
                  |Executed(now, again).todo| > 0
                  && Executed(now, again).steps[0] == Handle(again, Executed(now, again).todo[0], false))
  {
    FollowCloses(Executed(db, q).db, later, KeyOf(q.snapshot, q.trigger));
    OpenRunStartsAfresh(Follow(Executed(db, q).db, later), again);
  }

  const DEMO_GROUP := 1

  function Failing(id: nat): Account { Account(id, false, false, Errored, true, false, false, {DEMO_GROUP}) }

  const SWITCHED_OFF := Read(LiveInactive, Some(false), false, false, false, false)

  const PASS := Verdict(true, true, false, false)

  /** Both accounts pass their test; the write that enables an account is lost. */
  const LOST_WRITE := World(SWITCHED_OFF, PASS, SWITCHED_OFF, PASS, SWITCHED_OFF, WriteRaised)

  function DemoRequest(started: int, ending: Ending): Request {
    Request(1, BadState, [Failing(1), Failing(2)], {DEMO_GROUP}, {}, {}, 1000, 900, 3600,
            (id: nat) => false, (id: nat) => LOST_WRITE, started, (k: nat) => started, ending)
  }

  function DemoChoice(id: nat): Decision { Decision(Failing(id), UpstreamError, true, true) }

  lemma DemoChooses(id: nat, excluded: set<nat>)
    ensures Choose(Failing(id), BadState, {DEMO_GROUP}, {}, excluded) == DemoChoice(id).(selected := id !in excluded)
  {
    assert DEMO_GROUP in {DEMO_GROUP} * {DEMO_GROUP};
  }

  lemma DemoSelects(excluded: set<nat>)
    ensures Chosen(ChooseAll([Failing(1), Failing(2)], BadState, {DEMO_GROUP}, {}, excluded))
            == (if 1 in excluded then [] else [DemoChoice(1)]) + (if 2 in excluded then [] else [DemoChoice(2)])
  {
    var one := Choose(Failing(1), BadState, {DEMO_GROUP}, {}, excluded);
    var two := Choose(Failing(2), BadState, {DEMO_GROUP}, {}, excluded);
    DemoChooses(1, excluded);
    DemoChooses(2, excluded);
    var accounts := [Failing(1), Failing(2)];
    assert accounts[1..] == [Failing(2)] && accounts[1..][1..] == [];
    assert ChooseAll([], BadState, {DEMO_GROUP}, {}, excluded) == [];
    assert ChooseAll(accounts[1..], BadState, {DEMO_GROUP}, {}, excluded) == [two];
    ChosenAfter(one, [two]);
    ChosenAfter(two, []);
    assert [two] + [] == [two];
  }

  lemma DemoHandles(q: Request, id: nat)
    requires q == DemoRequest(q.started, q.ending)
    ensures Handle(q, DemoChoice(id), false) == Handled(Indeterminate, true, true, 1, EnableWrite)
  {
  }

  lemma DemoPerforms(db: DB, q: Request)
    requires q == DemoRequest(q.started, q.ending) && !IsOver(db, KeyOf(1, BadState))
    ensures Executed(db, q) == Performed(db, q, ChosenNow(db, q))
  {
    assert DistinctIds(q.accounts);
  }

  lemma DemoRecords(db: DB, q: Request, todo: seq<Decision>)
    requires todo != [] && Recorded(q, |todo|) == 1
    ensures var x := Performed(db, q, todo);
            && x.steps == [Handle(q, todo[0], false)]
            && x.db.ledger == db.ledger + [RowOf(q, todo[0], x.steps[0], 0)]
            && x.db.runs == db.runs[KeyOf(q.snapshot, q.trigger) := x.run]
            && x.run.status == Closed(q, EndStatus(q), NO_COUNTS).status
  {
    StepsLength(q, todo, false);
    assert Steps(q, todo, false)[..1] == [Handle(q, todo[0], false)];
  }

  lemma DemoExcludes(row: Row, runs: map<RunKey, Run>, q: Request)
    requires q == DemoRequest(q.started, q.ending) && row.key == KeyOf(1, BadState)
    ensures Excluded(DB(runs, [row]), q) == {row.account}
  {
    KeyRowsSame([row], row.key, row.key);
    assert AccountsOf([row]) == {row.account};
    assert RecentlyTested([row], q.started - 900) <= {row.account};
  }

  lemma DemoTakesBoth(q: Request)
    requires q == DemoRequest(q.started, q.ending)
    ensures Executed(DB(map[], []), q) == Performed(DB(map[], []), q, [DemoChoice(1)] + [DemoChoice(2)])
  {
    assert Excluded(DB(map[], []), q) == {};
    DemoSelects({});
    DemoPerforms(DB(map[], []), q);
    hide *;
  }

  /** The first execution handles account 1, whose write is lost, and leaves the run open. */
  lemma DemoBegins(q: Request) returns (db: DB, row: Row)
    requires q == DemoRequest(0, q.ending) && (q.ending == IsCancelled(1) || q.ending == Raises(1, false))
    ensures var x := Executed(DB(map[], []), q);
            && x.steps == [Handle(q, DemoChoice(1), false)] && x.db == db
    ensures row.key == KeyOf(1, BadState) && row.account == 1
    ensures db.ledger == [row] && !IsOver(db, KeyOf(1, BadState))
  {
    var empty := DB(map[], []);
    DemoTakesBoth(q);
    hide Executed, ExecuteAccount;
    DemoRecords(empty, q, [DemoChoice(1)] + [DemoChoice(2)]);
    db := Executed(empty, q).db;
    row := RowOf(q, DemoChoice(1), Handle(q, DemoChoice(1), false), 0);
  }

  /** The next execution handles account 2. */
  lemma DemoResumes(db: DB, row: Row, q: Request)
    requires q == DemoRequest(60, ByItself) && row.key == KeyOf(1, BadState) && row.account == 1
    requires db.ledger == [row] && !IsOver(db, KeyOf(1, BadState))
    ensures Executed(db, q).steps == [Handle(q, DemoChoice(2), false)]
  {
    DemoExcludes(row, db.runs, q);
    DemoSelects({1});
    DemoPerforms(db, q);
    assert [] + [DemoChoice(2)] == [DemoChoice(2)];
    DemoRecords(db, q, [DemoChoice(2)]);
  }

  /** A run whose first account may have been enabled without an answer is cancelled, or breaks
      and cannot even store that, and is then resumed: the second account is tested and written
      although nobody knows about the first. */
  lemma ResumedRunGoesOn(ending: Ending) returns (q: Request, again: Request)
    requires ending == IsCancelled(1) || ending == Raises(1, false)
    ensures q.ending == ending
    ensures KeyOf(again.snapshot, again.trigger) == KeyOf(q.snapshot, q.trigger)
    ensures var x := Executed(DB(map[], []), q);
            && |x.steps| == 1 && x.steps[0].write == EnableWrite && WriteUnconfirmed(x.steps[0], LOST_WRITE)
            && |Executed(x.db, again).steps| == 1 && Executed(x.db, again).steps[0].write == EnableWrite
  {
    q, again := DemoRequest(0, ending), DemoRequest(60, ByItself);
    var db, row := DemoBegins(q);
    DemoHandles(q, 1);
    DemoResumes(db, row, again);
    DemoHandles(again, 2);
  }
}
