/** How the writer's tasks end: what the upstream and the tables hold after the requests of one
    disable, one restore, one probe or one reconciliation, from every reachable state. */
module QuarantineOutcomes {
  import opened Common
  import opened QuarantineTables
  import opened QuarantineProtocol

  lemma RunMore(s: State, events: seq<Event>, e: Event)
    ensures Run(s, events + [e]) == Step(Run(s, events), e)
  {
    assert (events + [e])[..|events|] == events;
  }

  lemma RunTwo(s: State, a: Event, b: Event)
    ensures Run(s, [a, b]) == Step(Step(s, a), b)
  {
    hide Step;
    RunMore(s, [], a);
    RunMore(s, [a], b);
    assert [] + [a] == [a] && [a] + [b] == [a, b];
  }

  lemma RunThree(s: State, a: Event, b: Event, c: Event)
    ensures Run(s, [a, b, c]) == Step(Step(Step(s, a), b), c)
  {
    hide Step;
    RunTwo(s, a, b);
    RunMore(s, [a, b], c);
    assert [a, b] + [c] == [a, b, c];
  }

  lemma RunFour(s: State, a: Event, b: Event, c: Event, d: Event)
    ensures Run(s, [a, b, c, d]) == Step(Step(Step(Step(s, a), b), c), d)
  {
    hide Step;
    RunThree(s, a, b, c);
    RunMore(s, [a, b, c], d);
    assert [a, b, c] + [d] == [a, b, c, d];
  }

  lemma RunFive(s: State, a: Event, b: Event, c: Event, d: Event, e: Event)
    ensures Run(s, [a, b, c, d, e]) == Step(Step(Step(Step(Step(s, a), b), c), d), e)
  {
    hide Step;
    RunFour(s, a, b, c, d);
    RunMore(s, [a, b, c, d], e);
    assert [a, b, c, d] + [e] == [a, b, c, d, e];
  }

  // ----- A restore -----

  predicate Serving(a: Account, limited: bool) { a == Account(Active, true) && !limited }

  predicate OutOfTraffic(a: Account) { (a.status.Inactive? || a.status.Disabled?) && !a.schedulable }

  /** The account as a restore's two writes leave it. */
  function SwitchedOn(a: Account, activated: bool, scheduled: bool): Account {
    Account(if activated then Active else a.status, scheduled || a.schedulable)
  }

  /** A restore of account `id` is over; it last read account `a`. */
  ghost predicate RestoreEnded(s: State, after: State, id: Id, flow: RestoreFlow, a: Account, limited: bool) {
    var t, u := s.tables, after.tables;
    && after == s.(tables := u, control := after.control, world := after.world)
    && after.world.upstream == s.world.upstream[id := a]
    && u.intents == t.intents
    && u.markers == (if Serving(a, limited) then t.markers - {id} else t.markers)
    && u.restores == (if Serving(a, limited) || (flow.FromProbe? && OutOfTraffic(a)) then t.restores - {id}
                      else t.restores)
    && after.control == (if Serving(a, limited) || flow.FromRestoreReconcile? then Idle
                         else ProbeTask(id, Record(Failed, flow.latencyMs)))
  }

  predicate AwaitsRestoreRead(c: Control, id: Id, flow: RestoreFlow) {
    c == Restoring(id, flow, VerifyRestore) || c == Restoring(id, flow, ReadbackRestore)
  }

  lemma RestoreIsRead(s: State, id: Id, flow: RestoreFlow, limited: bool)
    requires AwaitsRestoreRead(s.control, id, flow) && id in s.world.upstream
    ensures Step(s, Read(true, limited))
            == s.(control := Restoring(id, flow, RestoreVerdict(ClassifyRestore(s.world.upstream[id], limited))),
                  world := ReadAccount(s.world, id))
  {
  }

  lemma RestoreIsSettled(s: State, id: Id, flow: RestoreFlow, a: Account, limited: bool, now: int)
    requires s.control == Restoring(id, flow, RestoreVerdict(ClassifyRestore(a, limited)))
    requires id in s.tables.restores && id in s.tables.markers && id in s.world.upstream && s.world.upstream[id] == a
    ensures RestoreEnded(s, CommitRestoring(s, id, flow, s.control.restoreAt), id, flow, a, limited)
  {
    assert s.world.upstream == s.world.upstream[id := a];
  }

  lemma RestoreEnds(s: State, id: Id, flow: RestoreFlow, limited: bool, now: int)
    requires AwaitsRestoreRead(s.control, id, flow) && id in s.world.upstream
    requires id in s.tables.restores && id in s.tables.markers
    ensures RestoreEnded(s, Step(Step(s, Read(true, limited)), Commit(now)), id, flow, s.world.upstream[id], limited)
  {
    hide ClassifyRestore, AwaitsRestoreRead, CommitRestoring;
    var read := Step(s, Read(true, limited));
    RestoreIsRead(s, id, flow, limited);
    RestoreIsSettled(read, id, flow, s.world.upstream[id], limited, now);
    assert Step(read, Commit(now)) == CommitRestoring(read, id, flow, read.control.restoreAt);
  }

  lemma RestoreIsWritten(s: State, id: Id, flow: RestoreFlow, activated: bool, scheduled: bool, answered: bool,
          now: int)
    requires s.control == Restoring(id, flow, StartRestore) && id in s.world.upstream
    ensures var w := Step(Step(Step(s, Commit(now)), Write(activated, true)), Write(scheduled, answered));
            && w == s.(control := w.control, world := w.world) && AwaitsRestoreRead(w.control, id, flow)
            && w.world.upstream == s.world.upstream[id := SwitchedOn(s.world.upstream[id], activated, scheduled)]
  {
    var started := Step(s, Commit(now));
    assert started == s.(control := Restoring(id, flow, PutActive));
    var one := Step(started, Write(activated, true));
    assert one.control == Restoring(id, flow, PostSchedulable);
    assert one.world.upstream == s.world.upstream[id := SwitchedOn(s.world.upstream[id], activated, false)];
    assert one == s.(control := one.control, world := one.world);
  }

  lemma EndedSince(s: State, w: State, after: State, id: Id, flow: RestoreFlow, a: Account, limited: bool)
    requires w == s.(control := w.control, world := w.world) && w.world.upstream == s.world.upstream[id := a]
    requires RestoreEnded(w, after, id, flow, a, limited)
    ensures RestoreEnded(s, after, id, flow, a, limited)
  {
  }

  /** A restore, from every reachable state in which one starts: the intent, both writes, the read
      and its transaction.  Whatever each acknowledged write really did, the account is dropped from
      the tables exactly if it then serves; a restore of which nothing took effect gives its intent
      back; any other result keeps the rows, and a probe then stores a failed attempt. */
  lemma {:induction false} RestoreOutcome(events: seq<Event>, id: Id, flow: RestoreFlow, activated: bool,
          scheduled: bool, answered: bool, limited: bool, t1: int, t2: int)
    requires var s := Run(Init(), events);
             s.control == Restoring(id, flow, StartRestore) && id in s.world.upstream
    ensures var s := Run(Init(), events);
            var requests := [Commit(t1), Write(activated, true), Write(scheduled, answered), Read(true, limited),
                             Commit(t2)];
            RestoreEnded(s, Run(s, requests), id, flow, SwitchedOn(s.world.upstream[id], activated, scheduled), limited)
  {
    var s := Run(Init(), events);
    RunKeeps(events);
    RunFive(s, Commit(t1), Write(activated, true), Write(scheduled, answered), Read(true, limited), Commit(t2));
    RestoreRuns(s, id, flow, activated, scheduled, answered, limited, t1, t2);
  }

  lemma RestoreRuns(s: State, id: Id, flow: RestoreFlow, activated: bool, scheduled: bool, answered: bool,
          limited: bool, t1: int, t2: int)
    requires Inv(s) && s.control == Restoring(id, flow, StartRestore) && id in s.world.upstream
    ensures var w := Step(Step(Step(s, Commit(t1)), Write(activated, true)), Write(scheduled, answered));
            RestoreEnded(s, Step(Step(w, Read(true, limited)), Commit(t2)), id, flow,
                         SwitchedOn(s.world.upstream[id], activated, scheduled), limited)
  {
    hide Step, RestoreEnded, AwaitsRestoreRead, SwitchedOn;
    var w := Step(Step(Step(s, Commit(t1)), Write(activated, true)), Write(scheduled, answered));
    RestoreIsWritten(s, id, flow, activated, scheduled, answered, t1);
    RestoreEnds(w, id, flow, limited, t2);
    EndedSince(s, w, Step(Step(w, Read(true, limited)), Commit(t2)), id, flow,
               SwitchedOn(s.world.upstream[id], activated, scheduled), limited);
  }

  /** In particular, a restore whose two writes take effect and are read back puts the account into
      traffic and leaves no row of it. */
  lemma {:induction false} RestorePutsBack(events: seq<Event>, id: Id, flow: RestoreFlow, t1: int, t2: int)
    requires var s := Run(Init(), events);
             s.control == Restoring(id, flow, StartRestore) && id in s.world.upstream
    ensures var after := Run(Run(Init(), events),
                             [Commit(t1), Write(true, true), Write(true, true), Read(true, false), Commit(t2)]);
            && id in after.world.upstream && after.world.upstream[id] == Account(Active, true)
            && !after.tables.Held(id) && id !in after.tables.restores
  {
    RunKeeps(events);
    RestoreOutcome(events, id, flow, true, true, true, false, t1, t2);
  }

  /** When the first write gets no answer the second is not sent; the read decides all the same. */
  lemma {:induction false} UnansweredRestore(events: seq<Event>, id: Id, flow: RestoreFlow, activated: bool,
          limited: bool, t1: int, t2: int)
    requires var s := Run(Init(), events);
             s.control == Restoring(id, flow, StartRestore) && id in s.world.upstream
    ensures var s := Run(Init(), events);
            var requests := [Commit(t1), Write(activated, false), Read(true, limited), Commit(t2)];
            RestoreEnded(s, Run(s, requests), id, flow, SwitchedOn(s.world.upstream[id], activated, false), limited)
  {
    var s := Run(Init(), events);
    RunKeeps(events);
    RunFour(s, Commit(t1), Write(activated, false), Read(true, limited), Commit(t2));
    UnansweredRuns(s, id, flow, activated, limited, t1, t2);
  }

  lemma RestoreIsUnanswered(s: State, id: Id, flow: RestoreFlow, activated: bool, now: int)
    requires s.control == Restoring(id, flow, StartRestore) && id in s.world.upstream
    ensures var w := Step(Step(s, Commit(now)), Write(activated, false));
            && w == s.(control := w.control, world := w.world) && AwaitsRestoreRead(w.control, id, flow)
            && w.world.upstream == s.world.upstream[id := SwitchedOn(s.world.upstream[id], activated, false)]
  {
    var started := Step(s, Commit(now));
    assert started == s.(control := Restoring(id, flow, PutActive));
    assert s.world.upstream == s.world.upstream[id := s.world.upstream[id]];
  }

  lemma UnansweredRuns(s: State, id: Id, flow: RestoreFlow, activated: bool, limited: bool, t1: int, t2: int)
    requires Inv(s) && s.control == Restoring(id, flow, StartRestore) && id in s.world.upstream
    ensures var w := Step(Step(s, Commit(t1)), Write(activated, false));
            RestoreEnded(s, Step(Step(w, Read(true, limited)), Commit(t2)), id, flow,
                         SwitchedOn(s.world.upstream[id], activated, false), limited)
  {
    hide Step, RestoreEnded, AwaitsRestoreRead, SwitchedOn;
    var w := Step(Step(s, Commit(t1)), Write(activated, false));
    RestoreIsUnanswered(s, id, flow, activated, t1);
    RestoreEnds(w, id, flow, limited, t2);
    EndedSince(s, w, Step(Step(w, Read(true, limited)), Commit(t2)), id, flow,
               SwitchedOn(s.world.upstream[id], activated, false), limited);
  }

  /** A restore that cannot be read back keeps both rows. */
  lemma {:induction false} UnreadRestore(events: seq<Event>, id: Id, flow: RestoreFlow, limited: bool, now: int)
    requires AwaitsRestoreRead(Run(Init(), events).control, id, flow)
    ensures var s := Run(Init(), events);
            Run(s, [Read(false, limited), Read(false, limited), Commit(now)])
            == s.(control := if flow.FromProbe? then ProbeTask(id, Record(Failed, flow.latencyMs)) else Idle)
  {
    var s := Run(Init(), events);
    RunThree(s, Read(false, limited), Read(false, limited), Commit(now));
    UnreadSteps(s, id, flow, limited, now);
  }

  lemma UnreadSteps(s: State, id: Id, flow: RestoreFlow, limited: bool, now: int)
    requires AwaitsRestoreRead(s.control, id, flow)
    ensures Step(Step(Step(s, Read(false, limited)), Read(false, limited)), Commit(now))
            == s.(control := if flow.FromProbe? then ProbeTask(id, Record(Failed, flow.latencyMs)) else Idle)
  {
    var read := Step(Step(s, Read(false, limited)), Read(false, limited));
    assert read == s.(control := Restoring(id, flow, RestoreVerdict(Uncertain)));
  }

  /** A restore whose deadline is over before it starts writes nothing and gives its intent back. */
  lemma {:induction false} LateRestore(events: seq<Event>, id: Id, flow: RestoreFlow, now: int)
    requires Run(Init(), events).control == Restoring(id, flow, StartRestore)
    ensures var s := Run(Init(), events);
            var after := Run(s, [DeadlinePassed, Commit(now)]);
            && after == s.(control := after.control, tables := after.tables)
            && after.tables == (if flow.FromProbe? then s.tables.(restores := s.tables.restores - {id}) else s.tables)
            && after.control == (if flow.FromProbe? then ProbeTask(id, Record(Failed, flow.latencyMs)) else Idle)
  {
    RunTwo(Run(Init(), events), DeadlinePassed, Commit(now));
  }

  /** One whose deadline passes later is read back at once, and the read decides in the same way. */
  lemma {:induction false} CutOffRestore(events: seq<Event>, id: Id, flow: RestoreFlow, limited: bool, now: int)
    requires var s := Run(Init(), events);
             && s.control.Restoring? && s.control.id == id && s.control.restoreFlow == flow
             && !s.control.restoreAt.StartRestore? && !s.control.restoreAt.RestoreVerdict? && id in s.world.upstream
    ensures var s := Run(Init(), events);
            RestoreEnded(s, Run(s, [DeadlinePassed, Read(true, limited), Commit(now)]), id, flow, s.world.upstream[id],
                         limited)
  {
    var s := Run(Init(), events);
    RunKeeps(events);
    RunThree(s, DeadlinePassed, Read(true, limited), Commit(now));
    CutOffRuns(s, id, flow, limited, now);
  }

  lemma CutOffRuns(s: State, id: Id, flow: RestoreFlow, limited: bool, now: int)
    requires Inv(s) && s.control.Restoring? && s.control.id == id && s.control.restoreFlow == flow
    requires !s.control.restoreAt.StartRestore? && !s.control.restoreAt.RestoreVerdict? && id in s.world.upstream
    ensures RestoreEnded(s, Step(Step(Step(s, DeadlinePassed), Read(true, limited)), Commit(now)), id, flow,
                         s.world.upstream[id], limited)
  {
    var late := Step(s, DeadlinePassed);
    assert late == s.(control := Restoring(id, flow, ReadbackRestore));
    assert s.world.upstream == s.world.upstream[id := s.world.upstream[id]];
    hide Step, RestoreEnded;
    RestoreEnds(late, id, flow, limited, now);
    EndedSince(s, late, Step(Step(late, Read(true, limited)), Commit(now)), id, flow, s.world.upstream[id], limited);
  }

  // ----- A disable -----

  /** The account as a disable's two writes leave it. */
  function SwitchedOff(a: Account, deactivated: bool, unscheduled: bool): Account {
    Account(if deactivated then Inactive else a.status, a.schedulable && !unscheduled)
  }

  predicate InTraffic(a: Account) { a.schedulable && !a.status.Inactive? && !a.status.Disabled? }

  /** The marker of an account that was just disabled because of this intent. */
  predicate IsFresh(m: Marker, i: Intent) {
    && m.reason == i.reason && m.thresholdMs == i.thresholdMs && m.observedCount == i.observedCount
    && m.quarantinedAt == i.createdAt && m.streak == 0
    && m.lastProbeAt.None? && m.lastLatencyMs.None? && m.lastResult.Never?
  }

  /** A disable of account `id` is over; it last read account `a`. */
  ghost predicate DisableEnded(s: State, after: State, id: Id, flow: DisableFlow, a: Account) {
    var t, u := s.tables, after.tables;
    && after == s.(tables := u, phase := after.phase, control := Idle, world := after.world)
    && after.world.upstream == s.world.upstream[id := a]
    && u.restores == t.restores && id in t.intents
    && u.intents == (if OutOfTraffic(a) || (InTraffic(a) && flow.FromCoordinator?) then t.intents - {id}
                     else t.intents)
    && (if OutOfTraffic(a) then u.markers.Keys == t.markers.Keys + {id} && IsFresh(u.markers[id], t.intents[id])
        else u.markers == t.markers)
    && (forall other | other in t.markers :: other in u.markers && u.markers[other] == t.markers[other])
    && after.phase == (if OutOfTraffic(a) || InTraffic(a) || flow.FromReconcile? then s.phase else Probing)
  }

  predicate AwaitsDisableRead(c: Control, id: Id, flow: DisableFlow) {
    c == Disabling(id, flow, VerifyDisable) || c == Disabling(id, flow, ReadbackDisable)
  }

  /** A verifying read that does not show the account out of traffic is followed by a second one;
      otherwise the second event changes nothing. */
  lemma DisableIsRead(s: State, id: Id, flow: DisableFlow, limited: bool)
    requires AwaitsDisableRead(s.control, id, flow) && id in s.world.upstream
    ensures var read := Step(Step(s, Read(true, limited)), Read(true, limited));
            && read == s.(control := Disabling(id, flow, DisableVerdict(ClassifyDisable(s.world.upstream[id]))),
                          world := read.world)
            && read.world.upstream == s.world.upstream
  {
    var one := Step(s, Read(true, limited));
    assert one == s.(control := one.control, world := ReadAccount(s.world, id));
  }

  lemma DisableIsSettled(s: State, id: Id, flow: DisableFlow, a: Account)
    requires s.control == Disabling(id, flow, DisableVerdict(ClassifyDisable(a)))
    requires id in s.tables.intents && id !in s.tables.markers && id in s.world.upstream && s.world.upstream[id] == a
    requires flow.FromReconcile? ==> s.phase.Reconciling?
    ensures DisableEnded(s, CommitDisable(s, id, flow, s.control.disableAt.verdict), id, flow, a)
  {
    assert s.world.upstream == s.world.upstream[id := a];
  }

  lemma DisableEnds(s: State, id: Id, flow: DisableFlow, limited: bool, now: int)
    requires Inv(s) && AwaitsDisableRead(s.control, id, flow) && id in s.world.upstream
    ensures DisableEnded(s, Step(Step(Step(s, Read(true, limited)), Read(true, limited)), Commit(now)), id, flow,
                         s.world.upstream[id])
  {
    hide ClassifyDisable, CommitDisable;
    var read := Step(Step(s, Read(true, limited)), Read(true, limited));
    DisableIsRead(s, id, flow, limited);
    assert Step(read, Commit(now)) == CommitDisable(read, id, flow, read.control.disableAt.verdict);
    DisableIsSettled(read, id, flow, s.world.upstream[id]);
  }

  lemma DisableIsWritten(s: State, id: Id, flow: DisableFlow, deactivated: bool, unscheduled: bool, answered: bool)
    requires s.control == Disabling(id, flow, PutInactive) && id in s.world.upstream
    ensures var w := Step(Step(s, Write(deactivated, true)), Write(unscheduled, answered));
            && w == s.(control := w.control, world := w.world) && AwaitsDisableRead(w.control, id, flow)
            && w.world.upstream == s.world.upstream[id := SwitchedOff(s.world.upstream[id], deactivated, unscheduled)]
  {
    var one := Step(s, Write(deactivated, true));
    assert one.control == Disabling(id, flow, PostUnschedulable);
    assert one.world.upstream == s.world.upstream[id := SwitchedOff(s.world.upstream[id], deactivated, false)];
    assert one == s.(control := one.control, world := one.world);
  }

  lemma DisableIsUnanswered(s: State, id: Id, flow: DisableFlow, deactivated: bool)
    requires s.control == Disabling(id, flow, PutInactive) && id in s.world.upstream
    ensures var w := Step(s, Write(deactivated, false));
            && w == s.(control := w.control, world := w.world) && AwaitsDisableRead(w.control, id, flow)
            && w.world.upstream == s.world.upstream[id := SwitchedOff(s.world.upstream[id], deactivated, false)]
  {
    assert s.world.upstream == s.world.upstream[id := s.world.upstream[id]];
  }

  lemma DisabledSince(s: State, w: State, after: State, id: Id, flow: DisableFlow, a: Account)
    requires w == s.(control := w.control, world := w.world) && w.world.upstream == s.world.upstream[id := a]
    requires DisableEnded(w, after, id, flow, a)
    ensures DisableEnded(s, after, id, flow, a)
  {
  }

  /** A disable, from every reachable state in which its writes begin, whatever each acknowledged
      write really did.  An account that is then out of traffic by status and switch gets a marker
      with everything its intent says; one that still serves loses the intent, unless a
      reconciliation keeps it; anything else keeps the intent and ends the coordinator's loop. */
  lemma {:induction false} DisableOutcome(events: seq<Event>, id: Id, flow: DisableFlow, deactivated: bool,
          unscheduled: bool, answered: bool, limited: bool, now: int)
    requires var s := Run(Init(), events);
             s.control == Disabling(id, flow, PutInactive) && id in s.world.upstream
    ensures var s := Run(Init(), events);
            var requests := [Write(deactivated, true), Write(unscheduled, answered),
                             Read(true, limited), Read(true, limited), Commit(now)];
            DisableEnded(s, Run(s, requests), id, flow, SwitchedOff(s.world.upstream[id], deactivated, unscheduled))
  {
    var s := Run(Init(), events);
    RunKeeps(events);
    RunFive(s, Write(deactivated, true), Write(unscheduled, answered), Read(true, limited), Read(true, limited),
            Commit(now));
    DisableRuns(s, id, flow, deactivated, unscheduled, answered, limited, now);
  }

  lemma WrittenKeeps(s: State, first: Event, second: Event)
    requires Inv(s)
    ensures Inv(Step(s, first)) && Inv(Step(Step(s, first), second))
  {
    hide Inv, Step;
    StepKeeps(s, first);
    StepKeeps(Step(s, first), second);
  }

  lemma DisableRuns(s: State, id: Id, flow: DisableFlow, deactivated: bool, unscheduled: bool, answered: bool,
          limited: bool, now: int)
    requires Inv(s) && s.control == Disabling(id, flow, PutInactive) && id in s.world.upstream
    ensures var w := Step(Step(s, Write(deactivated, true)), Write(unscheduled, answered));
            DisableEnded(s, Step(Step(Step(w, Read(true, limited)), Read(true, limited)), Commit(now)), id, flow,
                         SwitchedOff(s.world.upstream[id], deactivated, unscheduled))
  {
    hide Step, Inv, DisableEnded, AwaitsDisableRead, SwitchedOff;
    var w := Step(Step(s, Write(deactivated, true)), Write(unscheduled, answered));
    WrittenKeeps(s, Write(deactivated, true), Write(unscheduled, answered));
    DisableIsWritten(s, id, flow, deactivated, unscheduled, answered);
    DisableEnds(w, id, flow, limited, now);
    DisabledSince(s, w, Step(Step(Step(w, Read(true, limited)), Read(true, limited)), Commit(now)), id, flow,
                  SwitchedOff(s.world.upstream[id], deactivated, unscheduled));
  }

  /** When the first write gets no answer the second is not sent; the read decides all the same. */
  lemma {:induction false} UnansweredDisable(events: seq<Event>, id: Id, flow: DisableFlow, deactivated: bool,
          limited: bool, now: int)
    requires var s := Run(Init(), events);
             s.control == Disabling(id, flow, PutInactive) && id in s.world.upstream
    ensures var s := Run(Init(), events);
            var requests := [Write(deactivated, false), Read(true, limited), Read(true, limited), Commit(now)];
            DisableEnded(s, Run(s, requests), id, flow, SwitchedOff(s.world.upstream[id], deactivated, false))
  {
    var s := Run(Init(), events);
    RunKeeps(events);
    RunFour(s, Write(deactivated, false), Read(true, limited), Read(true, limited), Commit(now));
    UnansweredDisableRuns(s, id, flow, deactivated, limited, now);
  }

  lemma UnansweredDisableRuns(s: State, id: Id, flow: DisableFlow, deactivated: bool, limited: bool, now: int)
    requires Inv(s) && s.control == Disabling(id, flow, PutInactive) && id in s.world.upstream
    ensures var w := Step(s, Write(deactivated, false));
            DisableEnded(s, Step(Step(Step(w, Read(true, limited)), Read(true, limited)), Commit(now)), id, flow,
                         SwitchedOff(s.world.upstream[id], deactivated, false))
  {
    hide Step, Inv, DisableEnded, AwaitsDisableRead, SwitchedOff;
    var w := Step(s, Write(deactivated, false));
    StepKeeps(s, Write(deactivated, false));
    DisableIsUnanswered(s, id, flow, deactivated);
    DisableEnds(w, id, flow, limited, now);
    DisabledSince(s, w, Step(Step(Step(w, Read(true, limited)), Read(true, limited)), Commit(now)), id, flow,
                  SwitchedOff(s.world.upstream[id], deactivated, false));
  }

  /** A disable that cannot be read back keeps the intent and ends the coordinator's loop. */
  lemma {:induction false} UnreadDisable(events: seq<Event>, id: Id, flow: DisableFlow, limited: bool, now: int)
    requires AwaitsDisableRead(Run(Init(), events).control, id, flow)
    ensures var s := Run(Init(), events);
            Run(s, [Read(false, limited), Read(false, limited), Commit(now)])
            == s.(control := Idle, phase := if flow.FromReconcile? then s.phase else Probing)
  {
    var s := Run(Init(), events);
    RunThree(s, Read(false, limited), Read(false, limited), Commit(now));
    UnreadDisableSteps(s, id, flow, limited, now);
  }

  lemma UnreadDisableSteps(s: State, id: Id, flow: DisableFlow, limited: bool, now: int)
    requires AwaitsDisableRead(s.control, id, flow)
    ensures Step(Step(Step(s, Read(false, limited)), Read(false, limited)), Commit(now))
            == s.(control := Idle, phase := if flow.FromReconcile? then s.phase else Probing)
  {
    var read := Step(Step(s, Read(false, limited)), Read(false, limited));
    assert read == s.(control := Disabling(id, flow, DisableVerdict(Uncertain)));
  }

  /** In particular, a disable whose two writes take effect and are read back leaves the account
      inactive and unscheduled, with a marker that says what its intent said. */
  lemma {:induction false} DisableTakesOut(events: seq<Event>, id: Id, flow: DisableFlow, now: int)
    requires var s := Run(Init(), events);
             s.control == Disabling(id, flow, PutInactive) && id in s.world.upstream
    ensures var s := Run(Init(), events);
            var requests := [Write(true, true), Write(true, true), Read(true, false), Read(true, false), Commit(now)];
            var after := Run(s, requests);
            && id in after.world.upstream && after.world.upstream[id] == Account(Inactive, false)
            && id in s.tables.intents && id !in after.tables.intents
            && id in after.tables.markers && IsFresh(after.tables.markers[id], s.tables.intents[id])
  {
    DisableOutcome(events, id, flow, true, true, true, false, now);
  }

  // ----- A reconciliation -----

  /** Reconciling an intent: an account that reads as before, or that is neither off nor merely
      unscheduled, loses its intent; one that is off is disabled again if its groups are the same;
      one that is merely unscheduled waits. */
  lemma {:induction false} IntentOutcome(events: seq<Event>, id: Id, intent: Intent, limited: bool, same: bool,
          now: int)
    requires var s := Run(Init(), events);
             s.control == IntentTask(id, ReadIntentState(intent)) && id in s.world.upstream
    ensures var s := Run(Init(), events);
            var a := s.world.upstream[id];
            var back := a == intent.previous || a.status == Error || a == Account(Active, true);
            var after := Run(s, [Read(true, limited), ConfirmMembership(same), Commit(now)]);
            && after == s.(tables := after.tables, control := after.control, world := after.world)
            && after.world.upstream == s.world.upstream
            && after.tables == s.tables.(intents := if back then s.tables.intents - {id} else s.tables.intents)
            && after.control == (if !back && a.status != Active && same then Disabling(id, FromReconcile, PutInactive)
                                 else Idle)
  {
    var s := Run(Init(), events);
    RunThree(s, Read(true, limited), ConfirmMembership(same), Commit(now));
    IntentSteps(s, id, intent, limited, same, now);
  }

  lemma IntentSteps(s: State, id: Id, intent: Intent, limited: bool, same: bool, now: int)
    requires s.control == IntentTask(id, ReadIntentState(intent)) && id in s.world.upstream
    ensures var a := s.world.upstream[id];
            var back := a == intent.previous || a.status == Error || a == Account(Active, true);
            var after := Step(Step(Step(s, Read(true, limited)), ConfirmMembership(same)), Commit(now));
            && after == s.(tables := after.tables, control := after.control, world := after.world)
            && after.world.upstream == s.world.upstream
            && after.tables == s.tables.(intents := if back then s.tables.intents - {id} else s.tables.intents)
            && after.control == (if !back && a.status != Active && same then Disabling(id, FromReconcile, PutInactive)
                                 else Idle)
  {
    var read := Step(s, Read(true, limited));
    assert read == s.(control := AfterRead(s.control, s.world.upstream[id], limited),
                      world := ReadAccount(s.world, id));
    var confirmed := Step(read, ConfirmMembership(same));
    assert confirmed == read.(control := confirmed.control);
  }

  /** Reconciling the restore intent of a marked account: an account that serves loses both rows, one
      that is out of traffic loses the restore intent, any other is tested again. */
  lemma {:induction false} RestoreReconciled(events: seq<Event>, id: Id, marker: Marker, limited: bool, now: int)
    requires var s := Run(Init(), events);
             s.control == RestoreTask(id, ReadRestoreState(marker)) && id in s.world.upstream
    ensures var s := Run(Init(), events);
            var a := s.world.upstream[id];
            var after := Run(s, [Read(true, limited), Commit(now)]);
            && after == s.(tables := after.tables, control := after.control, world := after.world)
            && after.world.upstream == s.world.upstream && after.tables.intents == s.tables.intents
            && after.tables.markers == (if Serving(a, false) then s.tables.markers - {id} else s.tables.markers)
            && after.tables.restores
               == (if Serving(a, false) || OutOfTraffic(a) then s.tables.restores - {id} else s.tables.restores)
            && after.control == (if Serving(a, false) || OutOfTraffic(a) then Idle else RestoreTask(id, Retest(marker)))
  {
    var s := Run(Init(), events);
    RunKeeps(events);
    RunTwo(s, Read(true, limited), Commit(now));
    ReconcileSteps(s, id, marker, limited, now);
  }

  lemma ReconcileSteps(s: State, id: Id, marker: Marker, limited: bool, now: int)
    requires s.control == RestoreTask(id, ReadRestoreState(marker)) && id in s.world.upstream
    requires id in s.tables.restores && id in s.tables.markers
    ensures var a := s.world.upstream[id];
            var after := Step(Step(s, Read(true, limited)), Commit(now));
            && after == s.(tables := after.tables, control := after.control, world := after.world)
            && after.world.upstream == s.world.upstream && after.tables.intents == s.tables.intents
            && after.tables.markers == (if Serving(a, false) then s.tables.markers - {id} else s.tables.markers)
            && after.tables.restores
               == (if Serving(a, false) || OutOfTraffic(a) then s.tables.restores - {id} else s.tables.restores)
            && after.control == (if Serving(a, false) || OutOfTraffic(a) then Idle else RestoreTask(id, Retest(marker)))
  {
    var read := Step(s, Read(true, limited));
    assert read == s.(control := AfterRead(s.control, s.world.upstream[id], limited),
                      world := ReadAccount(s.world, id));
  }

  /** The test of a reconciliation starts a restore exactly if it passed, within the threshold for a
      slow account; otherwise the intent waits. */
  lemma {:induction false} RetestDecides(events: seq<Event>, id: Id, marker: Marker, outcome: TestOutcome,
          ms: Option<nat>)
    requires Run(Init(), events).control == RestoreTask(id, Retest(marker)) && Bounded(ms)
    ensures var s := Run(Init(), events);
            var within := ms.Some? && ms.value <= marker.thresholdMs;
            var after := Step(s, Tested(outcome, ms));
            && after == s.(control := after.control, history := after.history)
            && after.control == (if outcome.Passed? && (marker.reason.SlowFirstToken? ==> within)
                                 then Restoring(id, FromRestoreReconcile, StartRestore) else Idle)
  {
  }

  // ----- A probe -----

  /** A probe tests an account exactly if it reads as out of traffic by status and switch. */
  lemma {:induction false} ProbeRead(events: seq<Event>, id: Id, marker: Marker, limited: bool)
    requires var s := Run(Init(), events);
             s.control == ProbeTask(id, ReadMarkerState(marker)) && id in s.world.upstream
    ensures var s := Run(Init(), events);
            Step(s, Read(true, limited)).control
            == ProbeTask(id, if OutOfTraffic(s.world.upstream[id]) then Test(marker) else Record(Invalid, None))
  {
  }

  /** What a test says of a slow account before its second pass, or of any account that failed. */
  function Judgement(outcome: TestOutcome, ms: Option<nat>, thresholdMs: nat): ProbeResult {
    match outcome
    case DefinitiveFailure => Failed
    case Inconclusive => Invalid
    case Passed => if ms.None? then Invalid else if ms.value <= thresholdMs then Passing else Slow
  }

  /** The row of account `id` holds this attempt, and nothing else changed in the tables. */
  ghost predicate Stored(t: Tables, u: Tables, id: Id, result: ProbeResult, ms: Option<nat>, now: int) {
    && id in t.markers && u.intents == t.intents && u.restores == t.restores && u.markers.Keys == t.markers.Keys
    && (forall other | other in t.markers && other != id :: u.markers[other] == t.markers[other])
    && (var m, n := t.markers[id], u.markers[id];
        && n == m.(lastProbeAt := n.lastProbeAt, lastLatencyMs := ms, lastResult := result,
                   streak := if result.Passing? then 1 else 0)
        && n.lastProbeAt.Some? && n.lastProbeAt.value >= now
        && (m.lastProbeAt.Some? ==> n.lastProbeAt.value > m.lastProbeAt.value))
  }

  /** The probe restores the account: it passed, and if it is slow, within the threshold for the
      second time in a row. */
  predicate RestoresNow(m: Marker, outcome: TestOutcome, ms: Option<nat>) {
    outcome.Passed? && (m.reason.SlowFirstToken? ==> ms.Some? && ms.value <= m.thresholdMs && m.streak == 1)
  }

  /** A test and the transaction after it, from every reachable state that waits for the test: either
      the restore starts with its intent stored, or the judgement is stored. */
  lemma {:induction false} ProbeOutcome(events: seq<Event>, id: Id, marker: Marker, outcome: TestOutcome,
          ms: Option<nat>, now: int)
    requires Run(Init(), events).control == ProbeTask(id, Test(marker)) && Bounded(ms)
    ensures var s := Run(Init(), events);
            var after := Run(s, [Tested(outcome, ms), Commit(now)]);
            && after == s.(tables := after.tables, control := after.control, history := after.history)
            && id in s.tables.markers && s.tables.markers[id] == marker
            && if RestoresNow(marker, outcome, ms) then
                 && after.control == Restoring(id, FromProbe(ms), StartRestore)
                 && after.tables.markers == s.tables.markers && after.tables.intents == s.tables.intents
                 && after.tables.restores.Keys == s.tables.restores.Keys + {id}
               else
                 && after.control.Idle?
                 && Stored(s.tables, after.tables, id, Judgement(outcome, ms, marker.thresholdMs), ms, now)
  {
    var s := Run(Init(), events);
    RunKeeps(events);
    RunTwo(s, Tested(outcome, ms), Commit(now));
    assert ValidMarker(s.tables.markers[id]);
    ProbeSteps(s, id, outcome, ms, now);
  }

  lemma TestIsJudged(s: State, id: Id, outcome: TestOutcome, ms: Option<nat>)
    requires id in s.tables.markers && ValidMarker(s.tables.markers[id]) && Bounded(ms)
    requires s.control == ProbeTask(id, Test(s.tables.markers[id]))
    ensures var m := s.tables.markers[id];
            var tested := Step(s, Tested(outcome, ms));
            && tested == s.(control := tested.control, history := tested.history)
            && tested.control == ProbeTask(id, if RestoresNow(m, outcome, ms) then Begin(ms)
                                               else Record(Judgement(outcome, ms, m.thresholdMs), ms))
            && (!RestoresNow(m, outcome, ms) && Judgement(outcome, ms, m.thresholdMs).Passing? ==>
                  m.reason.SlowFirstToken? && AtMost(ms, m.thresholdMs) && m.streak == 0)
  {
  }

  lemma AttemptIsStored(s: State, id: Id, result: ProbeResult, ms: Option<nat>, now: int)
    requires s.control == ProbeTask(id, Record(result, ms)) && ValidAttempt(result, ms) && id in s.tables.markers
    requires var m := s.tables.markers[id];
             result.Passing? ==> m.reason.SlowFirstToken? && AtMost(ms, m.thresholdMs) && m.streak == 0
    ensures var after := Step(s, Commit(now));
            && after == s.(tables := after.tables, control := Idle, history := after.history)
            && Stored(s.tables, after.tables, id, result, ms, now)
  {
  }

  lemma RestoreIsBegun(s: State, id: Id, ms: Option<nat>, now: int)
    requires s.control == ProbeTask(id, Begin(ms)) && id in s.tables.markers
    ensures var after := Step(s, Commit(now));
            && after == s.(tables := after.tables, control := Restoring(id, FromProbe(ms), StartRestore))
            && after.tables.markers == s.tables.markers && after.tables.intents == s.tables.intents
            && after.tables.restores.Keys == s.tables.restores.Keys + {id}
  {
  }

  lemma ProbeSteps(s: State, id: Id, outcome: TestOutcome, ms: Option<nat>, now: int)
    requires id in s.tables.markers && ValidMarker(s.tables.markers[id]) && Bounded(ms)
    requires s.control == ProbeTask(id, Test(s.tables.markers[id]))
    ensures var m := s.tables.markers[id];
            var after := Step(Step(s, Tested(outcome, ms)), Commit(now));
            && after == s.(tables := after.tables, control := after.control, history := after.history)
            && if RestoresNow(m, outcome, ms) then
                 && after.control == Restoring(id, FromProbe(ms), StartRestore)
                 && after.tables.markers == s.tables.markers && after.tables.intents == s.tables.intents
                 && after.tables.restores.Keys == s.tables.restores.Keys + {id}
               else
                 && after.control.Idle?
                 && Stored(s.tables, after.tables, id, Judgement(outcome, ms, m.thresholdMs), ms, now)
  {
    hide Step, Stored, RestoresNow;
    var m, tested := s.tables.markers[id], Step(s, Tested(outcome, ms));
    TestIsJudged(s, id, outcome, ms);
    if RestoresNow(m, outcome, ms) {
      RestoreIsBegun(tested, id, ms, now);
    } else {
      AttemptIsStored(tested, id, Judgement(outcome, ms, m.thresholdMs), ms, now);
    }
  }

  /** An error anywhere in a probe, before its attempt is stored, is stored as an invalid attempt. */
  lemma {:induction false} FaultOutcome(events: seq<Event>, now: int)
    requires var c := Run(Init(), events).control;
             (c.ProbeTask? && !c.probeAt.Record?) || (c.Restoring? && c.restoreFlow.FromProbe?)
    ensures var s := Run(Init(), events);
            var after := Run(s, [Fault, Commit(now)]);
            && after == s.(tables := after.tables, control := Idle, history := after.history)
            && Stored(s.tables, after.tables, s.control.id, Invalid, None, now)
  {
    var s := Run(Init(), events);
    RunKeeps(events);
    RunTwo(s, Fault, Commit(now));
    FaultSteps(s, now);
  }

  lemma FaultSteps(s: State, now: int)
    requires Inv(s)
    requires || (s.control.ProbeTask? && !s.control.probeAt.Record?)
             || (s.control.Restoring? && s.control.restoreFlow.FromProbe?)
    ensures var after := Step(Step(s, Fault), Commit(now));
            && after == s.(tables := after.tables, control := Idle, history := after.history)
            && Stored(s.tables, after.tables, s.control.id, Invalid, None, now)
  {
    var faulted := Step(s, Fault);
    assert faulted == s.(control := ProbeTask(s.control.id, Record(Invalid, None)));
    assert s.control.id in s.tables.markers;
    AttemptIsStored(faulted, s.control.id, Invalid, None, now);
    hide Inv, Step;
  }

  /** A crash forgets the writer's place and nothing else. */
  lemma CrashKeepsRows(events: seq<Event>)
    ensures var s := Run(Init(), events);
            Run(Init(), events + [Crash]) == s.(control := Idle, phase := Reconciling, selected := map[])
  {
    RunMore(Init(), events, Crash);
  }

  // ----- How tasks begin -----

  /** In every reachable state without a task, each kind of task begins with the row the tables hold. */
  lemma {:induction false} TasksBegin(events: seq<Event>, id: Id, inScope: bool)
    requires Run(Init(), events).control.Idle?
    ensures var s := Run(Init(), events);
            && (s.phase.Reconciling? && id in s.tables.intents ==>
                  Step(s, BeginIntentReconcile(id, inScope)).control
                  == if inScope then IntentTask(id, ReadIntentState(s.tables.intents[id])) else Idle)
            && (s.phase.Reconciling? && id in s.tables.restores ==>
                  && id in s.tables.markers
                  && Step(s, BeginRestoreReconcile(id, inScope)).control
                     == if inScope then RestoreTask(id, ReadRestoreState(s.tables.markers[id])) else Idle)
            && (s.phase.Probing? && id in s.selected ==>
                  && id in s.tables.markers
                  && Step(s, BeginProbe(id, inScope)).control
                     == ProbeTask(id, if inScope then ReadMarkerState(s.tables.markers[id]) else Record(Invalid, None)))
  {
    RunKeeps(events);
  }

  /** A candidate whose intent is accepted is disabled next; an intent that is there already stays. */
  lemma {:induction false} DisableBegins(events: seq<Event>, id: Id, intent: Intent)
    requires var s := Run(Init(), events); s.control.Idle? && s.phase.Maintaining?
    ensures var s := Run(Init(), events);
            var t, next := s.tables, Step(s, BeginDisable(id, intent));
            || next == Abort(s)
            || (&& next == s.(tables := next.tables, control := Disabling(id, FromCoordinator, PutInactive))
                && next.tables == t.(intents := t.intents[id := if id in t.intents then t.intents[id] else intent]))
  {
    DisableBeginStep(Run(Init(), events), id, intent);
  }

  lemma DisableBeginStep(s: State, id: Id, intent: Intent)
    requires s.control.Idle? && s.phase.Maintaining?
    ensures var t, next := s.tables, BeginDisableStep(s, id, intent);
            || next == Abort(s)
            || (&& next == s.(tables := next.tables, control := Disabling(id, FromCoordinator, PutInactive))
                && next.tables == t.(intents := t.intents[id := if id in t.intents then t.intents[id] else intent]))
  {
    if id in s.tables.intents {
      assert s.tables.intents == s.tables.intents[id := s.tables.intents[id]];
    }
  }

  // ----- Requests one by one -----

  /** After an answered write the next request follows; after an unanswered one the account is read
      back at once. */
  lemma WritesLead(s: State, applied: bool, answered: bool)
    requires s.control.Disabling? || s.control.Restoring?
    ensures var c, next := s.control, Step(s, Write(applied, answered)).control;
            && (c.Disabling? && c.disableAt == PutInactive ==>
                  next == c.(disableAt := if answered then PostUnschedulable else ReadbackDisable))
            && (c.Disabling? && c.disableAt == PostUnschedulable ==>
                  next == c.(disableAt := if answered then VerifyDisable else ReadbackDisable))
            && (c.Restoring? && c.restoreAt == PutActive ==>
                  next == c.(restoreAt := if answered then PostSchedulable else ReadbackRestore))
            && (c.Restoring? && c.restoreAt == PostSchedulable ==>
                  next == c.(restoreAt := if answered then VerifyRestore else ReadbackRestore))
  {
  }

  /** A verification that fails, or does not show the account out of traffic, is followed by one more
      read; a failing read back leaves doubt. */
  lemma ReadsLead(s: State, limited: bool)
    requires s.control.Disabling? || s.control.Restoring?
    ensures var c, failed := s.control, Step(s, Read(false, limited)).control;
            && (c.Disabling? && c.disableAt == VerifyDisable ==> failed == c.(disableAt := ReadbackDisable))
            && (c.Disabling? && c.disableAt == ReadbackDisable ==> failed == c.(disableAt := DisableVerdict(Uncertain)))
            && (c.Restoring? && c.restoreAt == VerifyRestore ==> failed == c.(restoreAt := ReadbackRestore))
            && (c.Restoring? && c.restoreAt == ReadbackRestore ==> failed == c.(restoreAt := RestoreVerdict(Uncertain)))
    ensures var c, read := s.control, Step(s, Read(true, limited)).control;
            c.Disabling? && c.disableAt == VerifyDisable && c.id in s.world.upstream ==>
              (read == c.(disableAt := ReadbackDisable) <==> !OutOfTraffic(s.world.upstream[c.id]))
  {
  }

  /** The writer is between two tasks, in this phase of its run. */
  predicate Between(s: State, phase: Phase) { s.control.Idle? && s.phase == phase }

  /** What the writer waits for; the rest happens at any time. */
  predicate Awaits(s: State, e: Event) {
    var c := s.control;
    match e
    case Write(_, _) =>
      || (c.Disabling? && (c.disableAt.PutInactive? || c.disableAt.PostUnschedulable?))
      || (c.Restoring? && (c.restoreAt.PutActive? || c.restoreAt.PostSchedulable?))
    case Read(_, _) =>
      || (c.Disabling? && (c.disableAt.VerifyDisable? || c.disableAt.ReadbackDisable?))
      || (c.Restoring? && (c.restoreAt.VerifyRestore? || c.restoreAt.ReadbackRestore?))
      || (c.IntentTask? && c.intentAt.ReadIntentState?) || (c.RestoreTask? && c.restoreTaskAt.ReadRestoreState?)
      || (c.ProbeTask? && c.probeAt.ReadMarkerState?)
    case Tested(_, ms) =>
      Bounded(ms) && ((c.RestoreTask? && c.restoreTaskAt.Retest?) || (c.ProbeTask? && c.probeAt.Test?))
    case ConfirmMembership(_) => c.IntentTask? && c.intentAt.ConfirmGroups?
    case Commit(_) =>
      || (c.Disabling? && c.disableAt.DisableVerdict?)
      || (c.Restoring? && (c.restoreAt.StartRestore? || c.restoreAt.RestoreVerdict?))
      || (c.IntentTask? && c.intentAt.ClearIntent?)
      || (c.RestoreTask? && (c.restoreTaskAt.Complete? || c.restoreTaskAt.Cancel?))
      || (c.ProbeTask? && (c.probeAt.Begin? || c.probeAt.Record?))
    case DeadlinePassed => c.Restoring? && !c.restoreAt.RestoreVerdict?
    case BeginIntentReconcile(id, inScope) => Between(s, Reconciling) && id in s.tables.intents && inScope
    case BeginRestoreReconcile(id, inScope) =>
      Between(s, Reconciling) && id in s.tables.restores && (id in s.tables.markers ==> inScope)
    case SelectMarkers(_) => Between(s, Reconciling)
    case BeginDisable(_, _) => Between(s, Maintaining)
    case StartProbing => Between(s, Maintaining)
    case BeginProbe(id, _) => Between(s, Probing) && id in s.selected
    case EndRun => Between(s, Probing)
    case _ => true
  }

  /** Nothing else moves it. */
  lemma UnawaitedIsIgnored(s: State, e: Event)
    requires !Awaits(s, e)
    ensures Step(s, e) == s
  {
  }

  /** A transaction that the writer relies on finds its row missing, or refuses the attempt. */
  predicate IsRefused(s: State, now: int) {
    var c := s.control;
    || (c.Disabling? && c.disableFlow.FromCoordinator? && c.disableAt == DisableVerdict(Success)
        && c.id !in s.tables.intents)
    || (c.Restoring? && c.restoreFlow.FromProbe? && c.restoreAt == RestoreVerdict(Success)
        && !(c.id in s.tables.restores && c.id in s.tables.markers))
    || (c.ProbeTask? && c.probeAt.Begin? && c.id !in s.tables.markers)
    || (c.ProbeTask? && c.probeAt.Record?
        && UpdateProbe(s.tables, c.id, now, c.probeAt.latencyMs, c.probeAt.result).Err?)
  }

  /** Every refusal is remembered, and nothing else is; so `TablesStaySound` speaks of them all. */
  lemma RefusalsAreMarked(s: State, now: int)
    ensures Step(s, Commit(now)).rejected <==> s.rejected || IsRefused(s, now)
    ensures IsRefused(s, now) ==> Step(s, Commit(now)).tables == s.tables
    ensures IsRefused(s, now) ==>
              var c := s.control;
              Step(s, Commit(now)).control == if c.Restoring? || (c.ProbeTask? && c.probeAt.Begin?)
                                              then ProbeTask(c.id, Record(Invalid, None)) else Idle
  {
  }

  // ----- A run reconciles first -----

  lemma ReconcilesOnly(s: State)
    requires Inv(s) && s.phase.Reconciling? && s.control.Disabling?
    ensures s.control.disableFlow.FromReconcile?
  {
  }

  lemma LeavesReconciling(s: State, e: Event)
    requires s.phase.Reconciling? && !Step(s, e).phase.Reconciling?
    requires s.control.Disabling? ==> s.control.disableFlow.FromReconcile?
    ensures e.SelectMarkers? && s.control.Idle?
  {
    hide UpsertIntent, ValidIntent, AfterRead, AfterFailedRead, AfterProbe, Note, SetAccount, MakeInactive, ReadAccount;
    hide Promote, RemoveIntent, CompleteRestore, CancelRestore, UpdateProbe, BeginRestore, AtMost;
  }

  /** No account is disabled or probed in a run before its reconciliation is over: whenever the writer has
      left that phase, it chose the markers to probe since the run began, and left no task open. */
  lemma {:induction false} ReconcilesFirst(events: seq<Event>) returns (k: nat)
    requires !Run(Init(), events).phase.Reconciling?
    ensures k < |events| && events[k].SelectMarkers?
    ensures Run(Init(), events[..k]).phase.Reconciling? && Run(Init(), events[..k]).control.Idle?
    ensures forall j | k < j <= |events| :: !Run(Init(), events[..j]).phase.Reconciling?
    decreases |events|
  {
    hide Step, Inv;
    var most := events[..|events| - 1];
    assert events[..|events|] == events && |events| > 0;
    if Run(Init(), most).phase.Reconciling? {
      k := |most|;
      RunKeeps(most);
      if Run(Init(), most).control.Disabling? { ReconcilesOnly(Run(Init(), most)); }
      LeavesReconciling(Run(Init(), most), events[k]);
    } else {
      k := ReconcilesFirst(most);
      assert forall j | 0 <= j <= |most| :: most[..j] == events[..j];
    }
  }
}
