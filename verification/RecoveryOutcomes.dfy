/** Exactly which accounts one execution goes through, what it records, and how its run ends, in terms
    of the request and the stored rows. */
module RecoveryOutcomes {
  import opened Common
  import opened Counting
  import opened AccountOperations
  import opened RecoverySelection
  import opened AccountRecovery
  import opened RecoveryHistory

  /** Two requests belong to one run exactly if they are about one snapshot and one cause; for channel
      errors the episode is the cause, whatever the group. */
  lemma SameRun(a: nat, first: Trigger, b: nat, second: Trigger)
    ensures KeyOf(a, first) == KeyOf(b, second) <==>
              && a == b
              && (first == second
                  || (first.ChannelError? && second.ChannelError? && first.episode == second.episode))
  {
  }

  /** The account is left alone this time: this cycle has processed it, this run has a result for it,
      or it was tested within the interval of the trigger, which a manual run ignores. */
  ghost predicate Busy(db: DB, q: Request, id: nat) {
    || id in q.processed
    || (exists r :: r in db.ledger && r.account == id && r.key == KeyOf(q.snapshot, q.trigger))
    || (&& !q.trigger.Manual?
        && exists r :: && r in db.ledger && r.account == id && r.tested
                       && r.occurred >= q.started - (if q.trigger.HourlyCheck? then q.probeInterval
                                                     else q.retryCooldown))
  }

  lemma ExcludedMeans(db: DB, q: Request, id: nat)
    ensures id in Excluded(db, q) <==> Busy(db, q, id)
  {
    var key := KeyOf(q.snapshot, q.trigger);
    forall r ensures r in KeyRows(db.ledger, key) <==> r in db.ledger && r.key == key {
      KeyRowsIn(db.ledger, key, r);
    }
  }

  // ----- Whether the execution goes through its accounts -----

  /** A run about one group concerns the accounts of that group, any other run concerns all. */
  predicate Concerns(trigger: Trigger, a: Account) {
    && (trigger.ChannelError? ==> trigger.group in a.groups)
    && (trigger.Manual? && trigger.onlyGroup.Some? ==> trigger.onlyGroup.value in a.groups)
  }

  function Concerned(accounts: seq<Account>, trigger: Trigger): set<nat> {
    Places(accounts, (a: Account) => Concerns(trigger, a))
  }

  lemma {:induction false} ScopeIsCounted(accounts: seq<Account>, trigger: Trigger, monitored: set<nat>,
          quarantined: set<nat>, processed: set<nat>)
    ensures |ChooseAll(accounts, trigger, monitored, quarantined, processed)| == |Concerned(accounts, trigger)|
  {
    hide Choose;
    if accounts != [] {
      var most, last := accounts[..|accounts| - 1], accounts[|accounts| - 1];
      ScopeIsCounted(most, trigger, monitored, quarantined, processed);
      ChooseAllBoth(most, [last], trigger, monitored, quarantined, processed);
      PlacesOneMore(accounts, (a: Account) => Concerns(trigger, a));
      assert accounts == most + [last] && [last][1..] == [];
      hide Concerned, Places, InScope;
      assert InScope(trigger, last) <==> Concerns(trigger, last);
    }
  }

  lemma ChooseAllStep(accounts: seq<Account>, trigger: Trigger, monitored: set<nat>, quarantined: set<nat>,
          processed: set<nat>) returns (head: seq<Decision>)
    requires accounts != []
    ensures head == if InScope(trigger, accounts[0])
                    then [Choose(accounts[0], trigger, monitored, quarantined, processed)] else []
    ensures ChooseAll(accounts, trigger, monitored, quarantined, processed)
         == head + ChooseAll(accounts[1..], trigger, monitored, quarantined, processed)
  {
    hide Choose, InScope;
    head := if InScope(trigger, accounts[0]) then [Choose(accounts[0], trigger, monitored, quarantined, processed)]
            else [];
  }

  lemma {:induction false} ChooseAllBoth(a: seq<Account>, b: seq<Account>, trigger: Trigger, monitored: set<nat>,
          quarantined: set<nat>, processed: set<nat>)
    ensures ChooseAll(a + b, trigger, monitored, quarantined, processed)
         == ChooseAll(a, trigger, monitored, quarantined, processed)
            + ChooseAll(b, trigger, monitored, quarantined, processed)
    decreases |a|
  {
    if a == [] {
      assert a + b == b;
    } else {
      hide Choose, InScope, ChooseAll;
      var head := ChooseAllStep(a + b, trigger, monitored, quarantined, processed);
      var same := ChooseAllStep(a, trigger, monitored, quarantined, processed);
      assert (a + b)[1..] == a[1..] + b;
      ChooseAllBoth(a[1..], b, trigger, monitored, quarantined, processed);
    }
  }

  /** The run is new or was left running. */
  predicate IsOpen(db: DB, q: Request) {
    var key := KeyOf(q.snapshot, q.trigger);
    key in db.runs ==> db.runs[key].status == Running
  }

  /** The group is small enough, if the run is about one. */
  predicate FitsGroup(q: Request) {
    q.trigger.ChannelError? || (q.trigger.Manual? && q.trigger.onlyGroup.Some?) ==>
      |Concerned(q.accounts, q.trigger)| <= q.maxAccounts
  }

  /** An execution goes through its accounts exactly if the run is open, the interval is a safe one,
      no account comes twice and the group is small enough. */
  lemma GoesThrough(db: DB, q: Request)
    ensures Went(db, q) <==> IsOpen(db, q) && 3600 <= q.probeInterval <= 86_400 && DistinctIds(q.accounts)
                             && FitsGroup(q)
  {
    hide Choose, ChooseAll, Excluded, Concerned, Deselected;
    ScopeIsCounted(q.accounts, q.trigger, q.monitored, q.quarantined, Excluded(db, q));
  }

  ghost predicate Takes(db: DB, q: Request, a: Account) {
    exists d :: d in Executed(db, q).todo && d.account == a
  }

  /** And then it takes exactly the accounts of its scope that may be tested, are monitored and wanted,
      and are not left alone. */
  lemma TakesExactly(db: DB, q: Request, a: Account)
    ensures Takes(db, q, a) <==>
              && Went(db, q) && a in q.accounts && Concerns(q.trigger, a)
              && MayBeTested(a, q.quarantined) && a.groups * q.monitored != {} && !Busy(db, q, a.id)
              && Wanted(a, q.trigger, q.monitored, q.quarantined)
  {
    var x, excluded := Executed(db, q), Excluded(db, q);
    ExecutionShape(db, q);
    TodoIs(db, q);
    ExcludedMeans(db, q, a.id);
    assert InScope(q.trigger, a) <==> Concerns(q.trigger, a);
    hide Executed, Excluded, MayBeTested, Wanted, Busy, InScope, Concerns, Went;
    forall d | d in x.todo && d.account == a
      ensures a in q.accounts && InScope(q.trigger, a) && MayBeTested(a, q.quarantined) && a.id !in excluded
      ensures a.groups * q.monitored != {} && Wanted(a, q.trigger, q.monitored, q.quarantined)
    {
      ChosenMayBeTested(q.accounts, q.trigger, q.monitored, q.quarantined, excluded, d);
      ChosenIsWanted(q, excluded, d);
    }
    if && Went(db, q) && a in q.accounts && InScope(q.trigger, a) && MayBeTested(a, q.quarantined)
       && a.groups * q.monitored != {} && a.id !in excluded && Wanted(a, q.trigger, q.monitored, q.quarantined)
    {
      WantedIsChosen(q.accounts, q.trigger, q.monitored, q.quarantined, excluded, a);
      ChooseKeepsAccount(a, q.trigger, q.monitored, q.quarantined, excluded);
      assert Choose(a, q.trigger, q.monitored, q.quarantined, excluded) in x.todo;
    }
  }

  lemma TodoIs(db: DB, q: Request)
    ensures Executed(db, q).todo == if Went(db, q) then ChosenNow(db, q) else []
  {
    hide Choose, ChooseAll, Tally, KeyRows;
  }

  lemma ChosenIsWanted(q: Request, excluded: set<nat>, d: Decision)
    requires d in Chosen(ChooseAll(q.accounts, q.trigger, q.monitored, q.quarantined, excluded))
    ensures Wanted(d.account, q.trigger, q.monitored, q.quarantined)
  {
    ChosenFrom(ChooseAll(q.accounts, q.trigger, q.monitored, q.quarantined, excluded), d);
    ChooseAllFrom(q.accounts, q.trigger, q.monitored, q.quarantined, excluded, d);
    ChooseMeans(d.account, q.trigger, q.monitored, q.quarantined, excluded);
  }

  // ----- What it records -----

  /** The accounts are taken in the order of the snapshot. */
  lemma TakenInOrder(db: DB, q: Request, i: nat, j: nat)
    requires i < j < |Executed(db, q).todo|
    ensures exists a: nat, b: nat :: a < b < |q.accounts| && q.accounts[a] == Executed(db, q).todo[i].account
                                     && q.accounts[b] == Executed(db, q).todo[j].account
  {
    TodoIs(db, q);
    var a, b := ChosenPlaces(q.accounts, q.trigger, q.monitored, q.quarantined, Excluded(db, q), i, j);
    hide Executed;
  }

  lemma {:induction false} ChosenPlace(accounts: seq<Account>, trigger: Trigger, monitored: set<nat>,
          quarantined: set<nat>, processed: set<nat>, j: nat) returns (b: nat)
    requires j < |Chosen(ChooseAll(accounts, trigger, monitored, quarantined, processed))|
    ensures b < |accounts|
    ensures accounts[b] == Chosen(ChooseAll(accounts, trigger, monitored, quarantined, processed))[j].account
  {
    var chosen := Chosen(ChooseAll(accounts, trigger, monitored, quarantined, processed));
    ChosenMayBeTested(accounts, trigger, monitored, quarantined, processed, chosen[j]);
    b :| 0 <= b < |accounts| && accounts[b] == chosen[j].account;
  }

  /** The first account is taken first, or not at all. */
  lemma ChosenStep(accounts: seq<Account>, trigger: Trigger, monitored: set<nat>, quarantined: set<nat>,
          processed: set<nat>) returns (n: nat)
    requires Chosen(ChooseAll(accounts, trigger, monitored, quarantined, processed)) != []
    ensures accounts != []
    ensures var chosen := Chosen(ChooseAll(accounts, trigger, monitored, quarantined, processed));
            && n <= 1 && n <= |chosen| && (n == 1 ==> chosen[0].account == accounts[0])
            && chosen[n..] == Chosen(ChooseAll(accounts[1..], trigger, monitored, quarantined, processed))
  {
    var first := Choose(accounts[0], trigger, monitored, quarantined, processed);
    var rest := ChooseAll(accounts[1..], trigger, monitored, quarantined, processed);
    ChosenAfter(first, rest);
    ChooseKeepsAccount(accounts[0], trigger, monitored, quarantined, processed);
    assert [] + rest == rest;
    n := if InScope(trigger, accounts[0]) && first.selected then 1 else 0;
  }

  lemma {:induction false} ChosenPlaces(accounts: seq<Account>, trigger: Trigger, monitored: set<nat>,
          quarantined: set<nat>, processed: set<nat>, i: nat, j: nat) returns (a: nat, b: nat)
    requires i < j < |Chosen(ChooseAll(accounts, trigger, monitored, quarantined, processed))|
    ensures var chosen := Chosen(ChooseAll(accounts, trigger, monitored, quarantined, processed));
            a < b < |accounts| && accounts[a] == chosen[i].account && accounts[b] == chosen[j].account
  {
    hide ChooseAll, Chosen;
    var skipped := ChosenStep(accounts, trigger, monitored, quarantined, processed);
    var n := ChosenPlace(accounts[1..], trigger, monitored, quarantined, processed, j - skipped);
    if i < skipped {
      a, b := 0, n + 1;
    } else {
      a, b := ChosenPlaces(accounts[1..], trigger, monitored, quarantined, processed, i - skipped, j - skipped);
      a, b := a + 1, b + 1;
    }
  }

  predicate StoppedBefore(steps: seq<Handled>, k: nat)
    requires k <= |steps|
  {
    exists i :: 0 <= i < k && steps[i].stop
  }

  /** Each account it comes to is handled on its own, or skipped untouched once one has stopped the run;
      and the ledger gets its row, at its time.  It comes to all, if it ends by itself. */
  lemma RecordsExactly(db: DB, q: Request)
    ensures var x := Executed(db, q);
            && |x.steps| <= |x.todo|
            && |x.steps| == (if q.ending.ByItself? || q.ending.recorded >= |x.todo| then |x.todo|
                             else q.ending.recorded)
            && (forall k: nat | k < |x.steps| ::
                  var a, h := x.todo[k].account, x.steps[k];
                  h == if StoppedBefore(x.steps, k) then Handled(Skipped, false, true, 0, NoWrite)
                       else ExecuteAccount(a, q.trigger, x.todo[k].writeback, q.mayRetry(a.id), q.world(a.id)))
            && |x.db.ledger| == |db.ledger| + |x.steps| && x.db.ledger[..|db.ledger|] == db.ledger
            && (forall k: nat | k < |x.steps| ::
                  var r := x.db.ledger[|db.ledger| + k];
                  && r.key == KeyOf(q.snapshot, q.trigger) && r.account == x.todo[k].account.id
                  && r.final == x.steps[k].final && r.tested == x.steps[k].tested
                  && r.occurred == q.clock(k) && r.started == q.started
                  && r.cooldown == if q.trigger.HourlyCheck? then q.probeInterval else q.retryCooldown)
  {
    var x := Executed(db, q);
    ExecutionShape(db, q);
    StepsLength(q, x.todo, false);
    ComesTo(db, q);
    hide Executed;
    forall k: nat | k < |x.steps| ensures x.steps[k] == Stepped(q, x.todo, x.steps, k) {
      StepDecides(q, x.todo, false, k);
      var all := Steps(q, x.todo, false);
      assert all[k] == x.steps[k] && forall i: nat | i < k :: all[i] == x.steps[i];
    }
  }

  function Stepped(q: Request, todo: seq<Decision>, steps: seq<Handled>, k: nat): Handled
    requires k < |steps| <= |todo|
  {
    Handle(q, todo[k], StoppedBefore(steps, k))
  }

  lemma ComesTo(db: DB, q: Request)
    ensures var x := Executed(db, q);
            |x.steps| == (if q.ending.ByItself? || q.ending.recorded >= |x.todo| then |x.todo| else q.ending.recorded)
  {
    StepsLength(q, Executed(db, q).todo, false);
  }

  lemma {:induction false} StepDecides(q: Request, todo: seq<Decision>, stopped: bool, k: nat)
    requires k < |todo|
    ensures |Steps(q, todo, stopped)| == |todo|
    ensures Steps(q, todo, stopped)[k] == Handle(q, todo[k], stopped || StoppedBefore(Steps(q, todo, stopped), k))
    decreases |todo|
  {
    hide ExecuteAccount;
    StepsLength(q, todo, stopped);
    if k > 0 {
      var all, h := Steps(q, todo, stopped), Handle(q, todo[0], stopped);
      var rest := Steps(q, todo[1..], h.stop);
      StepDecides(q, todo[1..], h.stop, k - 1);
      assert all == [h] + rest && (stopped ==> h.stop);
      assert forall i | 0 <= i < k - 1 :: all[i + 1] == rest[i];
      if StoppedBefore(all, k) && !h.stop {
        var i :| 0 <= i < k && all[i].stop;
        assert rest[i - 1].stop;
      }
      if StoppedBefore(rest, k - 1) {
        var i :| 0 <= i < k - 1 && rest[i].stop;
        assert all[i + 1].stop;
      }
      if h.stop { assert all[0].stop; }
    }
  }

  // ----- How its run ends -----

  /** A finished run is given back as it is.  Otherwise the run stays running if its end could not be
      stored; it has succeeded if it went through its accounts to the end, and failed else. */
  lemma EndsExactly(db: DB, q: Request)
    ensures var key, x := KeyOf(q.snapshot, q.trigger), Executed(db, q);
            && key in x.db.runs && x.db.runs[key] == x.run
            && (forall other | other != key :: (other in x.db.runs <==> other in db.runs)
                                               && (other in db.runs ==> x.db.runs[other] == db.runs[other]))
            && if !IsOpen(db, q) then x.run == db.runs[key] && x.db == db
               else
                 && (!(3600 <= q.probeInterval <= 86_400 && DistinctIds(q.accounts)) ==>
                       x.run.counts == Counts(0, 0, 0, 0, 0, 0))
                 && x.run.status == if q.ending.IsCancelled? || (q.ending.Raises? && !q.ending.marked) then Running
                                    else if q.ending.ByItself? && Went(db, q) then Succeeded else Failed
  {
    hide Choose, ChooseAll, Tally, KeyRows, Steps, RowsOf;
  }

  // ----- Its counts -----

  function Ended(rows: seq<Row>, final: Final): set<nat> { Places(rows, (r: Row) => r.final == final) }

  predicate Tells(c: Counts, rows: seq<Row>) {
    && c.tested == |Places(rows, (r: Row) => r.tested)|
    && c.enabled == |Ended(rows, Enabled)| && c.disabled == |Ended(rows, Disabled)|
    && c.indeterminate == |Ended(rows, Indeterminate)| && c.skipped == |Ended(rows, Skipped)|
  }

  lemma {:induction false} EndsAreCounted(rows: seq<Row>, final: Final)
    ensures FinalCount(rows, final) == |Ended(rows, final)|
  {
    if rows != [] {
      EndsAreCounted(rows[..|rows| - 1], final);
      PlacesOneMore(rows, (r: Row) => r.final == final);
    }
  }

  lemma {:induction false} TestsAreCounted(rows: seq<Row>)
    ensures TestedCount(rows) == |Places(rows, (r: Row) => r.tested)|
  {
    if rows != [] {
      TestsAreCounted(rows[..|rows| - 1]);
      PlacesOneMore(rows, (r: Row) => r.tested);
    }
  }

  lemma TallyTells(selected: nat, rows: seq<Row>)
    ensures Tally(selected, rows).selected == selected && Tells(Tally(selected, rows), rows)
  {
    TestsAreCounted(rows);
    EndsAreCounted(rows, Enabled);
    EndsAreCounted(rows, Disabled);
    EndsAreCounted(rows, Indeterminate);
    EndsAreCounted(rows, Skipped);
    hide Ended, Places;
  }

  /** The counts of a run that went through its accounts and is finished, by success or failure: it
      selected those with earlier rows and those it took, and the other counts are those of all rows
      of the run. */
  lemma CountsExactly(db: DB, q: Request)
    requires Went(db, q) && (q.ending.ByItself? || (q.ending.Raises? && q.ending.marked))
    ensures var key, x := KeyOf(q.snapshot, q.trigger), Executed(db, q);
            && x.run.counts.selected == |x.todo| + |KeyRows(db.ledger, key)|
            && Tells(x.run.counts, KeyRows(x.db.ledger, key))
  {
    var key, x := KeyOf(q.snapshot, q.trigger), Executed(db, q);
    KeyRowsAfter(db, q, key);
    TallyTells(|x.todo| + |KeyRows(db.ledger, key)|, KeyRows(x.db.ledger, key));
    hide Tells, KeyRows, Tally, ChooseAll;
  }
}
