/** What the writer had read when it dropped a row. */
module QuarantineRemovals {
  import opened QuarantineTables
  import opened QuarantineProtocol
  import opened QuarantineRuns

  predicate SawLast(log: seq<Entry>, id: Id) {
    log != [] && log[|log| - 1].Saw? && log[|log| - 1].id == id
  }

  /** What the last entry of the log shows. */
  function LastSeen(log: seq<Entry>): Account
    requires log != [] && log[|log| - 1].Saw?
  {
    log[|log| - 1].account
  }

  /** Whoever is about to drop a row has just read the account, and this is what it saw. */
  ghost predicate Sighted(s: State) {
    var log := s.world.log;
    match s.control
    case Disabling(id, _, at) => at == DisableVerdict(Refused) ==> SawLast(log, id) && LastSeen(log).schedulable
    case IntentTask(id, at) =>
      at.ClearIntent? ==>
        && SawLast(log, id) && id in s.tables.intents
        && ClassifyIntent(s.tables.intents[id], LastSeen(log)).DropIntent?
    case Restoring(id, _, at) => at == RestoreVerdict(Success) ==> SawLast(log, id) && LastSeen(log).schedulable
    case RestoreTask(id, at) => at.Complete? ==> SawLast(log, id) && LastSeen(log).schedulable
    case _ => true
  }

  lemma ReadSights(s: State, readable: bool, limited: bool)
    requires Inv(s) && Sighted(s)
    ensures Sighted(ReadStep(s, readable, limited))
  {
    if ReadsNow(s.control) && readable && s.control.id in s.world.upstream {
      var w := ReadAccount(s.world, s.control.id);
      assert w.log[|w.log| - 1] == Saw(s.control.id, s.world.upstream[s.control.id]);
    }
  }

  lemma CommitSights(s: State, now: int)
    ensures Sighted(CommitStep(s, now)) || CommitStep(s, now) == s
  {
  }

  lemma WriteSights(s: State, applied: bool, acknowledged: bool)
    requires Sighted(s)
    ensures Sighted(WriteStep(s, applied, acknowledged))
  {
  }

  lemma OthersSight(s: State, e: Event)
    requires Sighted(s) && !e.Read? && !e.Commit? && !e.Write?
    ensures Sighted(Step(s, e))
  {
  }

  lemma {:induction false} StepSights(s: State, e: Event)
    requires Inv(s) && Sighted(s)
    ensures Sighted(Step(s, e))
  {
    hide Inv, Sighted, CommitStep, ReadStep, WriteStep;
    if e.Read? { ReadSights(s, e.readable, e.limited); }
    else if e.Commit? { CommitSights(s, e.at); }
    else if e.Write? { WriteSights(s, e.applied, e.acknowledged); }
    else { OthersSight(s, e); }
  }

  lemma {:induction false} RunSights(events: seq<Event>)
    ensures Sighted(Run(Init(), events))
    decreases |events|
  {
    if events == [] {
    } else {
      var before := events[..|events| - 1];
      RunSights(before);
      RunKeeps(before);
      StepSights(Run(Init(), before), events[|events| - 1]);
    }
  }

  /** The row goes while the dispatch switch is off: the account is in error, or it reads as it
      did before the intent, with the switch already off then. */
  predicate LeavesSwitchOff(intent: Intent, a: Account) {
    !a.schedulable && (a.status.Error? || (a == intent.previous && a.status.Active?))
  }

  lemma ClearedWhileUnschedulable(intent: Intent, a: Account)
    requires ValidIntent(intent)
    ensures ClassifyIntent(intent, a).DropIntent? && !a.schedulable <==> LeavesSwitchOff(intent, a)
  {
  }

  /** A commit that drops the row of account `id`, as the last read of it decides. */
  ghost predicate DropsAsSeen(s: State, id: Id) {
    var log := s.world.log;
    && SawLast(log, id)
    && (!LastSeen(log).schedulable <==>
        && s.control == IntentTask(id, ClearIntent) && id in s.tables.intents
        && LeavesSwitchOff(s.tables.intents[id], LastSeen(log)))
  }

  lemma DisableDrops(s: State, other: Id, flow: DisableFlow, verdict: Verdict, id: Id)
    requires s.tables.Held(id) && !CommitDisable(s, other, flow, verdict).tables.Held(id)
    ensures verdict.Refused? && other == id
  {
  }

  lemma RestoreDrops(s: State, other: Id, flow: RestoreFlow, at: RestoreAt, id: Id)
    requires s.tables.Held(id) && !CommitRestoring(s, other, flow, at).tables.Held(id)
    ensures at == RestoreVerdict(Success) && other == id
  {
  }

  lemma TaskDrops(s: State, other: Id, at: RestoreTaskAt, id: Id)
    requires s.tables.Held(id) && !CommitRestoreTask(s, other, at).tables.Held(id)
    ensures at.Complete? && other == id
  {
  }

  lemma ClearDrops(s: State, other: Id, at: IntentAt, id: Id)
    requires Inv(s) && Sighted(s) && s.control == IntentTask(other, at)
    requires s.tables.Held(id) && !CommitIntentTask(s, other, at).tables.Held(id)
    ensures DropsAsSeen(s, id)
  {
    assert ValidIntent(s.tables.intents[id]);
    ClearedWhileUnschedulable(s.tables.intents[id], LastSeen(s.world.log));
  }

  lemma ProbesDropNothing(s: State, other: Id, at: ProbeAt, now: int, id: Id)
    requires s.tables.Held(id)
    ensures CommitProbe(s, other, at, now).tables.Held(id)
  {
  }

  lemma CommitDrops(s: State, now: int, id: Id)
    requires Inv(s) && Sighted(s) && s.tables.Held(id) && !CommitStep(s, now).tables.Held(id)
    ensures DropsAsSeen(s, id)
  {
    hide Inv, CommitDisable, CommitRestoring, CommitRestoreTask, CommitIntentTask, CommitProbe;
    match s.control
    case Idle =>
    case Disabling(other, flow, at) => DisableDrops(s, other, flow, at.verdict, id);
    case IntentTask(other, at) => ClearDrops(s, other, at, id);
    case Restoring(other, flow, at) => RestoreDrops(s, other, flow, at, id);
    case RestoreTask(other, at) => TaskDrops(s, other, at, id);
    case ProbeTask(other, at) => ProbesDropNothing(s, other, at, now, id);
  }

  lemma DecidesNow(s: State, id: Id, intent: Intent, limited: bool, now: int)
    requires Inv(s) && s.control == IntentTask(id, ReadIntentState(intent)) && id in s.world.upstream
    ensures var after := CommitStep(ReadStep(s, true, limited), now);
            && after.world.upstream == s.world.upstream
            && (!after.tables.Held(id) && !after.world.upstream[id].schedulable
                <==> LeavesSwitchOff(intent, s.world.upstream[id]))
  {
    ClearedWhileUnschedulable(intent, s.world.upstream[id]);
  }

  /** In every run: a row that goes was read last with the switch off exactly if a
      reconciliation clears an intent after a read of an account in error, or of one that is
      back as it was before with the switch off. */
  lemma {:induction false} DroppedWithSwitchOff(events: seq<Event>, e: Event, id: Id)
    requires Run(Init(), events).tables.Held(id) && !Run(Init(), events + [e]).tables.Held(id)
    ensures DropsAsSeen(Run(Init(), events), id)
  {
    RunOne(events, e);
    RunKeeps(events);
    RunSights(events);
    hide Inv, Sighted, DropsAsSeen;
    if e.Commit? {
      CommitDrops(Run(Init(), events), e.at, id);
    } else {
      RowsSurvive(Run(Init(), events), e, id);
    }
  }

  /** And every such read leads there: from any reachable state that is about to read the account
      of an intent, the read and the next commit drop the row and leave the switch off exactly
      for those accounts. */
  lemma {:induction false} ReadDecides(events: seq<Event>, id: Id, intent: Intent, limited: bool, now: int)
    requires var s := Run(Init(), events);
             s.control == IntentTask(id, ReadIntentState(intent)) && id in s.world.upstream
    ensures var s, after := Run(Init(), events), Run(Init(), events + [Read(true, limited)] + [Commit(now)]);
            && after.world.upstream == s.world.upstream
            && (!after.tables.Held(id) && !after.world.upstream[id].schedulable
                <==> LeavesSwitchOff(intent, s.world.upstream[id]))
  {
    RunKeeps(events);
    RunOne(events, Read(true, limited));
    RunOne(events + [Read(true, limited)], Commit(now));
    DecidesNow(Run(Init(), events), id, intent, limited, now);
  }

  /** The run that took the account out of traffic is lost, the account goes into error, and the
      next run looks at the intent. */
  lemma IntentLookedAt() returns (s: State)
    ensures Reachable(s) && s.control == IntentTask(7, ReadIntentState(SLOW_INTENT))
    ensures s.tables == Tables(map[], map[7 := SLOW_INTENT], map[])
    ensures s.world.upstream == map[7 := Account(Error, false)]
  {
    s := TakenOut();
    s := Next(s, Crash);
    s := Next(s, Environment(7, Account(Error, false)));
    s := Next(s, BeginIntentReconcile(7, true));
  }

  /** The promise is about inactive accounts only.  Here this path turned scheduling off, the
      account then went into error, and the row is dropped with scheduling still off. */
  lemma SwitchLeftOff() returns (s: State)
    ensures Reachable(s)
    ensures !s.tables.Held(7) && s.world.upstream == map[7 := Account(Error, false)]
  {
    s := IntentLookedAt();
    s := Next(s, Read(true, false));
    s := Next(s, Commit(1));
  }
}
