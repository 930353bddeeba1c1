/** Reachable states, and the first steps of runs shown elsewhere: account 7 is taken out of
    traffic as slow and waits, marked, to be probed. */
module QuarantineRuns {
  import opened Common
  import opened QuarantineTables
  import opened QuarantineProtocol

  ghost predicate Reachable(s: State) {
    exists events :: s == Run(Init(), events)
  }

  lemma Next(s: State, e: Event) returns (next: State)
    requires Reachable(s)
    ensures next == Step(s, e) && Reachable(next)
  {
    var events :| s == Run(Init(), events);
    RunOne(events, e);
    next := Step(s, e);
    assert next == Run(Init(), events + [e]);
  }

  const SLOW_INTENT := Intent(SlowFirstToken, 30_000, 3, Account(Active, true), 0)

  lemma IntentStored() returns (s: State)
    ensures Reachable(s)
    ensures s.control == Disabling(7, FromCoordinator, PutInactive)
    ensures s.tables == Tables(map[], map[7 := SLOW_INTENT], map[])
    ensures s.world.upstream == map[7 := Account(Active, true)]
    ensures s.phase.Maintaining? && s.selected == map[] && s.history == map[]
  {
    s := Init();
    assert s == Run(Init(), []);
    s := Next(s, Environment(7, Account(Active, true)));
    s := Next(s, SelectMarkers({}));
    s := Next(s, BeginDisable(7, SLOW_INTENT));
  }

  /** Account 7 is taken out of traffic by both writes. */
  lemma TakenOut() returns (s: State)
    ensures Reachable(s)
    ensures s.control == Disabling(7, FromCoordinator, VerifyDisable)
    ensures s.tables == Tables(map[], map[7 := SLOW_INTENT], map[])
    ensures s.world.upstream == map[7 := Account(Inactive, false)]
    ensures s.phase.Maintaining? && s.selected == map[] && s.history == map[]
  {
    s := IntentStored();
    s := Next(s, Write(true, true));
    s := Next(s, Write(true, true));
  }

  /** Account 7 carries a marker and waits to be probed. */
  lemma Marked() returns (s: State)
    ensures Reachable(s)
    ensures s.control.Idle? && s.phase.Probing? && s.selected == map[]
    ensures s.tables == Tables(map[7 := NewMarker(SLOW_INTENT)], map[], map[])
    ensures s.world.upstream == map[7 := Account(Inactive, false)] && s.history == map[]
  {
    s := TakenOut();
    s := Next(s, Read(true, false));
    s := Next(s, Commit(1));
    s := Next(s, StartProbing);
  }

  /** Start a new run and choose account 7. */
  lemma ProbeAgain(before: State) returns (s: State)
    requires Reachable(before) && before.control.Idle? && 7 in before.tables.markers && before.phase.Reconciling?
    ensures Reachable(s) && s.control == ProbeTask(7, ReadMarkerState(before.tables.markers[7]))
    ensures s.tables == before.tables && s.world == before.world && s.history == before.history && s.phase.Probing?
  {
    s := Next(before, SelectMarkers({7}));
    s := Next(s, StartProbing);
    s := Next(s, BeginProbe(7, true));
  }

  /** Start a new run, choose account 7 and test it. */
  lemma TestAgain(before: State, firstEventMs: nat) returns (s: State)
    requires Reachable(before) && before.control.Idle? && 7 in before.tables.markers && before.phase.Reconciling?
    requires before.world.upstream == map[7 := Account(Inactive, false)] && firstEventMs <= MAX_LATENCY_MS
    ensures Reachable(s) && s.tables == before.tables && s.world.upstream == before.world.upstream
    ensures s.control == ProbeTask(7, AfterProbe(7, before.tables.markers[7], Passed, Some(firstEventMs)))
    ensures s.history == Note(before.history, 7, Observed(Some(firstEventMs))) && s.phase.Probing?
  {
    hide AfterProbe;
    s := ProbeAgain(before);
    s := Next(s, Read(true, false));
    s := Next(s, Tested(Passed, Some(firstEventMs)));
  }
}
