/** What stands behind the restores of slow accounts, and two runs that show where the
    protocol's memory ends. */
module QuarantineRestores {
  import opened Common
  import opened QuarantineTables
  import opened QuarantineProtocol
  import opened QuarantineRuns

  /** Up to entry `n`: entry `k` is a test within the threshold, the next one its stored pass,
      and every later entry is a test whose result never reached the row. */
  ghost predicate PassedIn(h: seq<ProbeEntry>, k: nat, n: nat, thresholdMs: nat) {
    && k + 1 < n <= |h|
    && h[k].Observed? && AtMost(h[k].latencyMs, thresholdMs)
    && h[k + 1] == Recorded(Passing)
    && forall j :: k + 1 < j < n ==> h[j].Observed?
  }

  ghost predicate PassedAt(h: seq<ProbeEntry>, k: nat, thresholdMs: nat) {
    PassedIn(h, k, |h|, thresholdMs)
  }

  ghost predicate PassedBefore(h: seq<ProbeEntry>, thresholdMs: nat) {
    exists k: nat :: PassedAt(h, k, thresholdMs)
  }

  /** The writer waits for a test of a marked account. */
  predicate FinishesTest(c: Control) {
    (c.ProbeTask? && c.probeAt.Test?) || (c.RestoreTask? && c.restoreTaskAt.Retest?)
  }

  ghost predicate StreaksBacked(t: Tables, history: History) {
    forall id | id in t.markers && t.markers[id].streak == 1 ::
      PassedBefore(HistoryOf(history, id), t.markers[id].thresholdMs)
  }

  lemma PassedBeforeGrows(h: seq<ProbeEntry>, thresholdMs: nat, latencyMs: Option<nat>)
    requires PassedBefore(h, thresholdMs)
    ensures PassedBefore(h + [Observed(latencyMs)], thresholdMs)
  {
    var k: nat :| PassedAt(h, k, thresholdMs);
    assert PassedAt(h + [Observed(latencyMs)], k, thresholdMs);
  }

  /** Rows with a streak come from the state before, and nothing was noted. */
  ghost predicate StreaksOnlyLeave(s: State, next: State) {
    && next.history == s.history
    && forall id | id in next.tables.markers && next.tables.markers[id].streak == 1 ::
         id in s.tables.markers && s.tables.markers[id] == next.tables.markers[id]
  }

  lemma NotedBacks(t: Tables, history: History, id: Id, latencyMs: Option<nat>)
    requires StreaksBacked(t, history)
    ensures StreaksBacked(t, Note(history, id, Observed(latencyMs)))
  {
    if id in t.markers && t.markers[id].streak == 1 {
      PassedBeforeGrows(HistoryOf(history, id), t.markers[id].thresholdMs, latencyMs);
    }
  }

  lemma TestedBacks(s: State, outcome: TestOutcome, firstEventMs: Option<nat>)
    requires StreaksBacked(s.tables, s.history)
    ensures var next := TestedStep(s, outcome, firstEventMs); StreaksBacked(next.tables, next.history)
  {
    hide StreaksBacked;
    if FinishesTest(s.control) {
      NotedBacks(s.tables, s.history, s.control.id, if outcome.Passed? then firstEventMs else None);
    }
  }

  lemma RecordBacks(s: State, id: Id, result: ProbeResult, latencyMs: Option<nat>, now: int)
    requires Inv(s) && StreaksBacked(s.tables, s.history)
    requires s.control == ProbeTask(id, Record(result, latencyMs))
    ensures var next := CommitRecord(s, id, result, latencyMs, now); StreaksBacked(next.tables, next.history)
  {
    var next := CommitRecord(s, id, result, latencyMs, now);
    UpdateProbeKeeps(s.tables, id, now, latencyMs, result);
    var h := HistoryOf(s.history, id);
    if result.Passing? {
      assert PassedAt(h + [Recorded(result)], |h| - 1, s.tables.markers[id].thresholdMs);
    }
    forall other | other in next.tables.markers && next.tables.markers[other].streak == 1
      ensures PassedBefore(HistoryOf(next.history, other), next.tables.markers[other].thresholdMs)
    {
      if other == id { assert HistoryOf(next.history, id) == h + [Recorded(result)]; }
    }
  }

  lemma StreaksStay(s: State, next: State)
    requires StreaksBacked(s.tables, s.history) && StreaksOnlyLeave(s, next)
    ensures StreaksBacked(next.tables, next.history)
  {
  }

  lemma CommitDisableStreaks(s: State, id: Id, flow: DisableFlow, verdict: Verdict)
    requires WellFormed(s.tables) && id in s.tables.intents
    ensures StreaksOnlyLeave(s, CommitDisable(s, id, flow, verdict))
  {
  }

  lemma CommitRestoringStreaks(s: State, id: Id, flow: RestoreFlow, at: RestoreAt)
    ensures StreaksOnlyLeave(s, CommitRestoring(s, id, flow, at))
  {
  }

  lemma CommitRestoreTaskStreaks(s: State, id: Id, at: RestoreTaskAt)
    ensures StreaksOnlyLeave(s, CommitRestoreTask(s, id, at))
  {
  }

  lemma CommitProbeStreaks(s: State, id: Id, at: ProbeAt, now: int)
    requires !at.Record?
    ensures StreaksOnlyLeave(s, CommitProbe(s, id, at, now))
  {
  }

  lemma CommitStreaks(s: State, now: int)
    requires Inv(s) && !(s.control.ProbeTask? && s.control.probeAt.Record?)
    ensures StreaksOnlyLeave(s, CommitStep(s, now))
  {
    match s.control
    case Idle =>
    case Disabling(id, flow, at) => if at.DisableVerdict? { CommitDisableStreaks(s, id, flow, at.verdict); }
    case IntentTask(id, at) =>
    case Restoring(id, flow, at) => CommitRestoringStreaks(s, id, flow, at);
    case RestoreTask(id, at) => CommitRestoreTaskStreaks(s, id, at);
    case ProbeTask(id, at) => CommitProbeStreaks(s, id, at, now);
  }

  lemma CommitBacks(s: State, now: int)
    requires Inv(s) && StreaksBacked(s.tables, s.history)
    ensures StreaksBacked(CommitStep(s, now).tables, CommitStep(s, now).history)
  {
    if s.control.ProbeTask? && s.control.probeAt.Record? {
      RecordBacks(s, s.control.id, s.control.probeAt.result, s.control.probeAt.latencyMs, now);
    } else {
      CommitStreaks(s, now);
      StreaksStay(s, CommitStep(s, now));
    }
  }

  lemma HistoryStays(s: State, e: Event)
    requires !e.Commit? && !e.Tested?
    ensures Step(s, e).history == s.history
  {
  }

  lemma {:induction false} StepBacks(s: State, e: Event)
    requires Inv(s) && StreaksBacked(s.tables, s.history)
    ensures StreaksBacked(Step(s, e).tables, Step(s, e).history)
  {
    hide Inv, CommitStep, TestedStep;
    if e.Commit? {
      CommitBacks(s, e.at);
    } else if e.Tested? {
      TestedBacks(s, e.outcome, e.firstEventMs);
    } else {
      HistoryStays(s, e);
      MarkersStay(s, e);
      StreaksStay(s, Step(s, e));
    }
  }

  lemma {:induction false} RunBacks(events: seq<Event>)
    ensures StreaksBacked(Run(Init(), events).tables, Run(Init(), events).history)
    decreases |events|
  {
    if events == [] {
    } else {
      var before := events[..|events| - 1];
      RunBacks(before);
      RunKeeps(before);
      StepBacks(Run(Init(), before), events[|events| - 1]);
    }
  }

  // ----- What stands behind a restore intent -----

  /** Entry `n - 1` is a test within the threshold, and the last result stored before it was
      the pass of the test at entry `k`. */
  ghost predicate TwoPasses(h: seq<ProbeEntry>, k: nat, n: nat, thresholdMs: nat) {
    && PassedIn(h, k, n, thresholdMs) && k + 2 < n
    && h[n - 1].Observed? && AtMost(h[n - 1].latencyMs, thresholdMs)
  }

  ghost predicate PassedTwice(h: seq<ProbeEntry>, thresholdMs: nat) {
    exists k: nat, n: nat :: TwoPasses(h, k, n, thresholdMs)
  }

  ghost predicate RestoresBacked(t: Tables, history: History) {
    forall id | id in t.restores && id in t.markers && t.markers[id].reason.SlowFirstToken? ::
      PassedTwice(HistoryOf(history, id), t.markers[id].thresholdMs)
  }

  lemma PassedTwiceGrows(h: seq<ProbeEntry>, after: seq<ProbeEntry>, thresholdMs: nat)
    requires PassedTwice(h, thresholdMs) && h <= after
    ensures PassedTwice(after, thresholdMs)
  {
    var k: nat, n: nat :| TwoPasses(h, k, n, thresholdMs);
    assert TwoPasses(after, k, n, thresholdMs);
  }

  /** Restore intents come from the state before, on a marker of the same kind. */
  ghost predicate RestoresOnlyLeave(t: Tables, next: Tables) {
    forall id | id in next.restores && id in next.markers ::
      && id in t.restores && id in t.markers
      && t.markers[id].reason == next.markers[id].reason
      && t.markers[id].thresholdMs == next.markers[id].thresholdMs
  }

  ghost predicate HistoryGrows(history: History, next: History) {
    forall id :: HistoryOf(history, id) <= HistoryOf(next, id)
  }

  lemma RestoresStay(s: State, next: State)
    requires RestoresBacked(s.tables, s.history)
    requires RestoresOnlyLeave(s.tables, next.tables) && HistoryGrows(s.history, next.history)
    ensures RestoresBacked(next.tables, next.history)
  {
    forall id | id in next.tables.restores && id in next.tables.markers
             && next.tables.markers[id].reason.SlowFirstToken?
      ensures PassedTwice(HistoryOf(next.history, id), next.tables.markers[id].thresholdMs)
    {
      PassedTwiceGrows(HistoryOf(s.history, id), HistoryOf(next.history, id), next.tables.markers[id].thresholdMs);
    }
  }

  lemma HistoryNeverShrinks(s: State, e: Event)
    ensures HistoryGrows(s.history, Step(s, e).history)
  {
    if e.Commit? {
      if s.control.ProbeTask? && s.control.probeAt.Record? {
      } else {
        assert Step(s, e).history == s.history;
      }
    } else if !e.Tested? {
      HistoryStays(s, e);
    }
  }

  predicate BeginsRestore(s: State, e: Event) {
    s.control.ProbeTask? && s.control.probeAt.Begin? && e.Commit?
  }

  lemma CommitDisableRestores(s: State, id: Id, flow: DisableFlow, verdict: Verdict)
    requires WellFormed(s.tables)
    ensures RestoresOnlyLeave(s.tables, CommitDisable(s, id, flow, verdict).tables)
  {
  }

  lemma CommitRestoringRestores(s: State, id: Id, flow: RestoreFlow, at: RestoreAt)
    ensures RestoresOnlyLeave(s.tables, CommitRestoring(s, id, flow, at).tables)
  {
  }

  lemma CommitRecordRestores(s: State, id: Id, result: ProbeResult, latencyMs: Option<nat>, now: int)
    ensures RestoresOnlyLeave(s.tables, CommitRecord(s, id, result, latencyMs, now).tables)
  {
  }

  lemma CommitRestoreTaskRestores(s: State, id: Id, at: RestoreTaskAt)
    ensures RestoresOnlyLeave(s.tables, CommitRestoreTask(s, id, at).tables)
  {
  }

  lemma SameRestores(t: Tables, next: Tables)
    requires next.restores == t.restores && next.markers == t.markers
    ensures RestoresOnlyLeave(t, next)
  {
  }

  lemma CommitRestores(s: State, now: int)
    requires Inv(s) && !BeginsRestore(s, Commit(now))
    ensures RestoresOnlyLeave(s.tables, CommitStep(s, now).tables)
  {
    hide RestoresOnlyLeave, CommitDisable, CommitRestoring, CommitRestoreTask, CommitRecord;
    match s.control
    case Idle => SameRestores(s.tables, s.tables);
    case Disabling(id, flow, at) =>
      if at.DisableVerdict? { CommitDisableRestores(s, id, flow, at.verdict); }
      else { SameRestores(s.tables, s.tables); }
    case IntentTask(id, at) => SameRestores(s.tables, CommitIntentTask(s, id, at).tables);
    case Restoring(id, flow, at) => CommitRestoringRestores(s, id, flow, at);
    case RestoreTask(id, at) => CommitRestoreTaskRestores(s, id, at);
    case ProbeTask(id, at) =>
      if at.Record? { CommitRecordRestores(s, id, at.result, at.latencyMs, now); }
      else { SameRestores(s.tables, s.tables); }
  }

  /** The state in which a probe is about to restore a slow account. */
  ghost predicate BeginsSlowRestore(s: State, id: Id, latencyMs: Option<nat>) {
    && s.control == ProbeTask(id, Begin(latencyMs))
    && id in s.tables.markers && s.tables.markers[id].reason.SlowFirstToken?
  }

  lemma BackedBegin(s: State, id: Id, latencyMs: Option<nat>) returns (k: nat)
    requires Inv(s) && StreaksBacked(s.tables, s.history) && BeginsSlowRestore(s, id, latencyMs)
    ensures var h, threshold := HistoryOf(s.history, id), s.tables.markers[id].thresholdMs;
            TwoPasses(h, k, |h|, threshold) && h[|h| - 1] == Observed(latencyMs)
  {
    var h, m := HistoryOf(s.history, id), s.tables.markers[id];
    assert Backed(m, s.history, id, latencyMs, 1);
    assert PassedBefore(h, m.thresholdMs);
    k :| PassedAt(h, k, m.thresholdMs);
  }

  lemma BeginBacks(s: State, id: Id, latencyMs: Option<nat>, now: int)
    requires Inv(s) && StreaksBacked(s.tables, s.history) && RestoresBacked(s.tables, s.history)
    requires s.control == ProbeTask(id, Begin(latencyMs))
    ensures var next := CommitStep(s, now); RestoresBacked(next.tables, next.history)
  {
    if s.tables.markers[id].reason.SlowFirstToken? {
      var k := BackedBegin(s, id, latencyMs);
    }
  }

  lemma RestoreStepBacks(s: State, e: Event)
    requires Inv(s) && StreaksBacked(s.tables, s.history) && RestoresBacked(s.tables, s.history)
    ensures RestoresBacked(Step(s, e).tables, Step(s, e).history)
  {
    hide Inv, CommitStep, StreaksBacked, RestoresBacked, RestoresOnlyLeave, HistoryGrows;
    if BeginsRestore(s, e) {
      BeginBacks(s, s.control.id, s.control.probeAt.latencyMs, e.at);
    } else {
      if e.Commit? {
        CommitRestores(s, e.at);
      } else {
        MarkersStay(s, e);
        SameRestores(s.tables, Step(s, e).tables);
      }
      HistoryNeverShrinks(s, e);
      RestoresStay(s, Step(s, e));
    }
  }

  lemma {:induction false} RunBacksRestores(events: seq<Event>)
    ensures RestoresBacked(Run(Init(), events).tables, Run(Init(), events).history)
    decreases |events|
  {
    if events == [] {
    } else {
      var before := events[..|events| - 1];
      RunBacksRestores(before);
      RunBacks(before);
      RunKeeps(before);
      RestoreStepBacks(Run(Init(), before), events[|events| - 1]);
    }
  }

  ghost predicate StartsSlowRestore(s: State, next: State, id: Id, flow: RestoreFlow) {
    && !s.control.Restoring? && next.control == Restoring(id, flow, StartRestore)
    && id in next.tables.markers && next.tables.markers[id].reason.SlowFirstToken?
  }

  lemma CommitStarts(s: State, now: int, id: Id, flow: RestoreFlow)
    requires !s.control.Restoring? && CommitStep(s, now).control == Restoring(id, flow, StartRestore)
    ensures flow.FromProbe? && s.control == ProbeTask(id, Begin(flow.latencyMs))
    ensures CommitStep(s, now).history == s.history && CommitStep(s, now).tables.markers == s.tables.markers
  {
  }

  lemma OthersStartNone(s: State, e: Event)
    requires !s.control.Restoring? && !e.Commit? && !e.Tested?
    ensures !Step(s, e).control.Restoring?
  {
  }

  /** The conclusion of `SlowRestoreIsBacked`, about the state the restore starts in. */
  ghost predicate RestoreBacked(s: State, id: Id, flow: RestoreFlow, k: nat, n: nat)
    requires id in s.tables.markers
  {
    var h, threshold := HistoryOf(s.history, id), s.tables.markers[id].thresholdMs;
    && TwoPasses(h, k, n, threshold)
    && h[|h| - 1].Observed? && AtMost(h[|h| - 1].latencyMs, threshold)
    && (flow.FromProbe? ==> n == |h| && h[|h| - 1] == Observed(flow.latencyMs))
    && (flow.FromRestoreReconcile? ==> n < |h|)
  }

  lemma ReconcileBacked(s: State, outcome: TestOutcome, ms: Option<nat>, id: Id, flow: RestoreFlow)
    returns (k: nat, n: nat)
    requires Inv(s) && RestoresBacked(s.tables, s.history)
    requires StartsSlowRestore(s, TestedStep(s, outcome, ms), id, flow)
    ensures RestoreBacked(TestedStep(s, outcome, ms), id, flow, k, n)
  {
    var h, m := HistoryOf(s.history, id), s.tables.markers[id];
    assert PassedTwice(h, m.thresholdMs);
    k, n :| TwoPasses(h, k, n, m.thresholdMs);
    assert HistoryOf(TestedStep(s, outcome, ms).history, id) == h + [Observed(ms)];
  }

  lemma StartBacked(s: State, e: Event, id: Id, flow: RestoreFlow) returns (k: nat, n: nat)
    requires Inv(s) && StreaksBacked(s.tables, s.history) && RestoresBacked(s.tables, s.history)
    requires StartsSlowRestore(s, Step(s, e), id, flow)
    ensures RestoreBacked(Step(s, e), id, flow, k, n)
  {
    hide Inv, StreaksBacked, RestoresBacked, TwoPasses, TestedStep, CommitStep;
    if e.Commit? {
      CommitStarts(s, e.at, id, flow);
      k := BackedBegin(s, id, flow.latencyMs);
      n := |HistoryOf(s.history, id)|;
    } else if e.Tested? {
      k, n := ReconcileBacked(s, e.outcome, e.firstEventMs, id, flow);
    } else {
      OthersStartNone(s, e);
    }
  }

  /** Whoever begins to restore a slow account has just tested it within its threshold.  A
      probe does so right after a stored pass; the reconciliation of a restore intent does so
      because an earlier probe did. */
  lemma {:induction false} SlowRestoreIsBacked(events: seq<Event>, e: Event, id: Id, flow: RestoreFlow)
    returns (k: nat, n: nat)
    requires StartsSlowRestore(Run(Init(), events), Run(Init(), events + [e]), id, flow)
    ensures RestoreBacked(Run(Init(), events + [e]), id, flow, k, n)
  {
    RunOne(events, e);
    RunKeeps(events);
    RunBacks(events);
    RunBacksRestores(events);
    hide *;
    k, n := StartBacked(Run(Init(), events), e, id, flow);
  }

  // ----- Consecutive tests -----

  /** What became of the tests of one account since its last result was stored: one of them
      waits to be stored; one of them never will be. */
  datatype Since = Since(waits: bool, lost: bool)

  /** A crash, or an error while the result is stored, ends a probe without its result. */
  predicate EndsProbe(s: State, e: Event) {
    e.Crash? || (e.Fault? && s.control.ProbeTask? && s.control.probeAt.Record?)
  }

  predicate Tests(s: State, e: Event, id: Id) {
    e.Tested? && Bounded(e.firstEventMs) && FinishesTest(s.control) && s.control.id == id
  }

  predicate Stores(s: State, e: Event, id: Id) {
    e.Commit? && s.control.ProbeTask? && s.control.id == id && s.control.probeAt.Record?
  }

  /** A test made while a restore is reconciled is lost at once: nothing stores its result. */
  function Follow(since: Since, s: State, e: Event, id: Id): Since {
    if Stores(s, e, id) then Since(false, false)
    else if Tests(s, e, id) then (if s.control.ProbeTask? then since.(waits := true) else since.(lost := true))
    else if EndsProbe(s, e) then Since(false, since.lost || since.waits)
    else since
  }

  function SinceStored(events: seq<Event>, id: Id): Since
    decreases |events|
  {
    if events == [] then Since(false, false)
    else
      var before := events[..|events| - 1];
      Follow(SinceStored(before, id), Run(Init(), before), events[|events| - 1], id)
  }

  /** A probe of the account is past its test. */
  predicate PastTest(c: Control, id: Id) {
    || (c.ProbeTask? && c.id == id && (c.probeAt.Begin? || c.probeAt.Record?))
    || (c.Restoring? && c.id == id && c.restoreFlow.FromProbe?)
  }

  /** The last entries of the history tell the same. */
  ghost predicate Tells(h: seq<ProbeEntry>, since: Since) {
    && h != [] && (h[|h| - 1].Observed? <==> since.lost || since.waits)
    && (since.waits ==> |h| >= 2 && (h[|h| - 2].Observed? <==> since.lost))
  }

  predicate AtBegin(c: Control, id: Id) {
    c.ProbeTask? && c.id == id && c.probeAt.Begin?
  }

  ghost predicate HasStreak(t: Tables, id: Id) {
    id in t.markers && t.markers[id].streak == 1
  }

  ghost predicate Remembers(s: State, since: Since, id: Id) {
    HasStreak(s.tables, id) ==>
      && Tells(HistoryOf(s.history, id), since)
      && (since.waits ==> PastTest(s.control, id))
      && (AtBegin(s.control, id) ==> since.waits)
  }

  predicate StaysPast(c: Control, next: Control, id: Id) {
    && (PastTest(c, id) ==> PastTest(next, id))
    && (AtBegin(next, id) ==> AtBegin(c, id))
  }

  /** Nothing happened to the tests of the account. */
  ghost predicate Quiet(s: State, next: State, id: Id) {
    && HistoryOf(next.history, id) == HistoryOf(s.history, id)
    && (HasStreak(next.tables, id) ==>
        && HasStreak(s.tables, id)
        && StaysPast(s.control, next.control, id))
  }

  lemma QuietRemembers(s: State, next: State, since: Since, id: Id)
    requires Remembers(s, since, id) && Quiet(s, next, id)
    ensures Remembers(next, since, id)
  {
  }

  lemma TestedRemembers(s: State, e: Event, since: Since, id: Id)
    requires Remembers(s, since, id) && Tests(s, e, id)
    ensures Remembers(Step(s, e), Follow(since, s, e, id), id)
  {
    var latencyMs := if e.outcome.Passed? then e.firstEventMs else None;
    assert HistoryOf(Step(s, e).history, id) == HistoryOf(s.history, id) + [Observed(latencyMs)];
  }

  lemma RecordIsNoted(s: State, id: Id, result: ProbeResult, latencyMs: Option<nat>, now: int)
    requires Inv(s) && s.control == ProbeTask(id, Record(result, latencyMs))
    ensures var next := CommitRecord(s, id, result, latencyMs, now);
            next.history == Note(s.history, id, Recorded(result)) && next.control.Idle?
  {
    UpdateProbeKeeps(s.tables, id, now, latencyMs, result);
  }

  lemma StoredIsNoted(s: State, e: Event, id: Id)
    requires Inv(s) && Stores(s, e, id)
    ensures var at, next := s.control.probeAt, Step(s, e);
            && next.history == Note(s.history, id, Recorded(at.result)) && next.control.Idle?
  {
    var at := s.control.probeAt;
    RecordIsNoted(s, id, at.result, at.latencyMs, e.at);
    hide Inv, CommitRecord;
  }

  lemma StoredRemembers(s: State, e: Event, since: Since, id: Id)
    requires Inv(s) && Stores(s, e, id)
    ensures Remembers(Step(s, e), Follow(since, s, e, id), id)
  {
    StoredIsNoted(s, e, id);
    hide Inv, Step;
    assert HistoryOf(Step(s, e).history, id) == HistoryOf(s.history, id) + [Recorded(s.control.probeAt.result)];
  }

  lemma EndedRemembers(s: State, e: Event, since: Since, id: Id)
    requires Remembers(s, since, id) && EndsProbe(s, e)
    ensures Remembers(Step(s, e), Follow(since, s, e, id), id)
  {
  }

  lemma SameIsQuiet(s: State, next: State, id: Id)
    requires next.tables.markers == s.tables.markers && next.history == s.history
    requires StaysPast(s.control, next.control, id)
    ensures Quiet(s, next, id)
  {
  }

  lemma CommitDisableIsQuiet(s: State, id: Id, other: Id, flow: DisableFlow, verdict: Verdict)
    requires Inv(s) && s.control.Disabling? && s.control.id == other
    ensures Quiet(s, CommitDisable(s, other, flow, verdict), id)
  {
  }

  lemma CommitRestoringIsQuiet(s: State, id: Id, other: Id, flow: RestoreFlow, at: RestoreAt)
    requires s.control == Restoring(other, flow, at)
    ensures Quiet(s, CommitRestoring(s, other, flow, at), id)
  {
  }

  lemma CommitRestoreTaskIsQuiet(s: State, id: Id, other: Id, at: RestoreTaskAt)
    requires s.control == RestoreTask(other, at)
    ensures Quiet(s, CommitRestoreTask(s, other, at), id)
  {
  }

  lemma CommitProbeIsQuiet(s: State, id: Id, other: Id, at: ProbeAt, now: int)
    requires s.control == ProbeTask(other, at) && (at.Record? ==> other != id)
    ensures Quiet(s, CommitProbe(s, other, at, now), id)
  {
  }

  lemma CommitIsQuiet(s: State, now: int, id: Id)
    requires Inv(s) && !Stores(s, Commit(now), id)
    ensures Quiet(s, CommitStep(s, now), id)
  {
    hide Inv, Quiet, CommitDisable, CommitRestoring, CommitRestoreTask, CommitProbe;
    match s.control
    case Idle => SameIsQuiet(s, s, id);
    case Disabling(other, flow, at) =>
      if at.DisableVerdict? { CommitDisableIsQuiet(s, id, other, flow, at.verdict); } else { SameIsQuiet(s, s, id); }
    case IntentTask(other, at) => SameIsQuiet(s, CommitIntentTask(s, other, at), id);
    case Restoring(other, flow, at) => CommitRestoringIsQuiet(s, id, other, flow, at);
    case RestoreTask(other, at) => CommitRestoreTaskIsQuiet(s, id, other, at);
    case ProbeTask(other, at) => CommitProbeIsQuiet(s, id, other, at, now);
  }

  lemma TestIsQuiet(s: State, e: Event, id: Id)
    requires e.Tested? && !Tests(s, e, id)
    ensures Quiet(s, Step(s, e), id)
  {
  }

  lemma UpstreamStaysPast(s: State, e: Event, id: Id)
    requires e.Write? || e.Read? || e.DeadlinePassed? || (e.Fault? && !EndsProbe(s, e))
    ensures StaysPast(s.control, Step(s, e).control, id)
  {
    hide MakeInactive, SetAccount, ReadAccount, ClassifyDisable, ClassifyRestore, ClassifyIntent;
  }

  lemma PhasesStayPast(s: State, e: Event, id: Id)
    requires e.BeginDisable? || e.Environment? || ChangesPhase(e)
    ensures StaysPast(s.control, Step(s, e).control, id)
  {
  }

  lemma ReconcileStaysPast(s: State, e: Event, id: Id)
    requires e.BeginIntentReconcile? || e.ConfirmMembership? || e.BeginRestoreReconcile?
    ensures StaysPast(s.control, Step(s, e).control, id)
  {
  }

  lemma OthersAreQuiet(s: State, e: Event, id: Id)
    requires !e.Commit? && !e.Tested? && !EndsProbe(s, e)
    ensures Quiet(s, Step(s, e), id)
  {
    hide StaysPast, Step;
    if e.Write? || e.Read? || e.DeadlinePassed? || e.Fault? { UpstreamStaysPast(s, e, id); }
    else if e.BeginDisable? || e.Environment? || ChangesPhase(e) { PhasesStayPast(s, e, id); }
    else { ReconcileStaysPast(s, e, id); }
    HistoryStays(s, e);
    MarkersStay(s, e);
    SameIsQuiet(s, Step(s, e), id);
  }

  lemma {:induction false} StepRemembers(s: State, e: Event, since: Since, id: Id)
    requires Inv(s) && Remembers(s, since, id)
    ensures Remembers(Step(s, e), Follow(since, s, e, id), id)
  {
    hide Inv, Remembers, Quiet;
    if Stores(s, e, id) {
      StoredRemembers(s, e, since, id);
    } else if Tests(s, e, id) {
      TestedRemembers(s, e, since, id);
    } else if EndsProbe(s, e) {
      EndedRemembers(s, e, since, id);
    } else {
      if e.Commit? { CommitIsQuiet(s, e.at, id); }
      else if e.Tested? { TestIsQuiet(s, e, id); }
      else { OthersAreQuiet(s, e, id); }
      QuietRemembers(s, Step(s, e), since, id);
    }
  }

  lemma {:induction false} RunRemembers(events: seq<Event>, id: Id)
    ensures Remembers(Run(Init(), events), SinceStored(events, id), id)
    decreases |events|
  {
    if events == [] {
    } else {
      var before := events[..|events| - 1];
      RunRemembers(before, id);
      RunKeeps(before);
      StepRemembers(Run(Init(), before), events[|events| - 1], SinceStored(before, id), id);
    }
  }

  lemma ConsecutiveNow(s: State, since: Since, id: Id, latencyMs: Option<nat>)
    requires Inv(s) && StreaksBacked(s.tables, s.history) && BeginsSlowRestore(s, id, latencyMs)
    requires Remembers(s, since, id)
    ensures var h, threshold := HistoryOf(s.history, id), s.tables.markers[id].thresholdMs;
            |h| >= 3 && (PassedAt(h, |h| - 3, threshold) <==> !since.lost)
  {
    var k := BackedBegin(s, id, latencyMs);
    assert Backed(s.tables.markers[id], s.history, id, latencyMs, 1);
    hide Inv, StreaksBacked;
  }

  /** The two passes behind a probe that begins to restore a slow account are consecutive tests
      of it exactly when, since the first was stored, no other test was lost: no crash and no
      error fell between a test and the storing of its result, and no test was made while a
      restore was reconciled. */
  lemma {:induction false} ConsecutiveUnlessLost(events: seq<Event>, id: Id, latencyMs: Option<nat>)
    requires BeginsSlowRestore(Run(Init(), events), id, latencyMs)
    ensures var s := Run(Init(), events);
            var h, threshold := HistoryOf(s.history, id), s.tables.markers[id].thresholdMs;
            |h| >= 3 && (PassedAt(h, |h| - 3, threshold) <==> !SinceStored(events, id).lost)
  {
    RunKeeps(events);
    RunBacks(events);
    RunRemembers(events, id);
    hide *;
    ConsecutiveNow(Run(Init(), events), SinceStored(events, id), id, latencyMs);
  }

  // ----- Two runs in which the passes are not consecutive -----

  /** What the states below have in common: a slow marker between two runs, the account off. */
  ghost predicate Waiting(s: State) {
    && Reachable(s) && s.control.Idle? && s.phase.Reconciling?
    && s.world.upstream == map[7 := Account(Inactive, false)]
    && 7 in s.tables.markers
    && s.tables.markers[7].reason.SlowFirstToken? && s.tables.markers[7].thresholdMs == 30_000
  }

  lemma MarkedWaits() returns (s: State)
    ensures Waiting(s) && s.tables.markers[7].streak == 0
    ensures HistoryOf(s.history, 7) == []
  {
    s := Marked();
    s := Next(s, EndRun);
  }

  /** One run that tests the account within its threshold and stores the pass. */
  lemma PassAgain(before: State) returns (s: State)
    requires Waiting(before) && before.tables.markers[7].streak == 0
    ensures Waiting(s) && s.tables.markers[7].streak == 1 && s.tables.restores == before.tables.restores
    ensures HistoryOf(s.history, 7) == HistoryOf(before.history, 7) + [Observed(Some(100)), Recorded(Passing)]
  {
    s := TestAgain(before, 100);
    assert s.control == ProbeTask(7, Record(Passing, Some(100)));
    s := Next(s, Commit(10));
    s := Next(s, EndRun);
  }

  /** The second pass of a slow account. */
  lemma SecondPass(before: State) returns (s: State)
    requires Waiting(before) && before.tables.markers[7].streak == 1
    ensures Reachable(s) && BeginsSlowRestore(s, 7, Some(100)) && s.tables == before.tables
    ensures s.world.upstream == before.world.upstream && s.phase.Probing?
    ensures HistoryOf(s.history, 7) == HistoryOf(before.history, 7) + [Observed(Some(100))]
  {
    s := TestAgain(before, 100);
  }

  /** A slow test whose run is lost before the result is stored does not break the streak:
      the account is restored after a fast, a slow and a fast test. */
  lemma LostSlowTest() returns (s: State)
    ensures Reachable(s) && BeginsSlowRestore(s, 7, Some(100))
    ensures HistoryOf(s.history, 7)
         == [Observed(Some(100)), Recorded(Passing), Observed(Some(40_000)), Observed(Some(100))]
  {
    s := MarkedWaits();
    s := PassAgain(s);
    s := TestAgain(s, 40_000);
    s := Next(s, Crash);
    s := SecondPass(s);
  }

  lemma RestoreBegun(before: State) returns (s: State)
    requires Reachable(before) && BeginsSlowRestore(before, 7, Some(100)) && before.phase.Probing?
    ensures Reachable(s) && s.control == Restoring(7, FromProbe(Some(100)), StartRestore) && s.phase.Probing?
    ensures s.tables.markers == before.tables.markers && 7 in s.tables.restores
    ensures s.world == before.world && s.history == before.history
  {
    s := Next(before, Commit(11));
  }

  /** The first write of the restore gets no answer. */
  lemma RestoreUnanswered(before: State) returns (s: State)
    requires Reachable(before) && before.control == Restoring(7, FromProbe(Some(100)), StartRestore)
    ensures Reachable(s) && s == before.(control := Restoring(7, FromProbe(Some(100)), ReadbackRestore))
  {
    s := Next(before, Commit(12));
    s := Next(s, Write(false, false));
  }

  /** Its readback fails as well: the intent stays, and a failed attempt is stored. */
  lemma RestoreFails(before: State) returns (s: State)
    requires Reachable(before) && before.control == Restoring(7, FromProbe(Some(100)), ReadbackRestore)
    requires before.phase.Probing? && 7 in before.tables.markers && 7 in before.tables.restores
    ensures Reachable(s) && s.control.Idle? && s.phase.Reconciling? && s.world == before.world
    ensures s.tables == UpdateProbe(before.tables, 7, 14, Some(100), Failed).value
    ensures s.history == Note(before.history, 7, Recorded(Failed))
  {
    s := Next(before, Read(false, false));
    s := Next(s, Commit(13));
    s := Next(s, Commit(14));
    s := Next(s, EndRun);
  }

  lemma RestoreLeftOpen() returns (s: State)
    ensures Waiting(s) && s.tables.markers[7].streak == 0 && 7 in s.tables.restores
    ensures HistoryOf(s.history, 7)
         == [Observed(Some(100)), Recorded(Passing), Observed(Some(100)), Recorded(Failed)]
  {
    s := MarkedWaits();
    s := PassAgain(s);
    s := SecondPass(s);
    s := RestoreBegun(s);
    s := RestoreUnanswered(s);
    s := RestoreFails(s);
  }

  /** Somebody switches the account half on, and the restore intent is looked at. */
  lemma RestoreLookedAt(before: State) returns (s: State)
    requires Waiting(before) && 7 in before.tables.restores
    ensures Reachable(s) && s.control == RestoreTask(7, Retest(before.tables.markers[7])) && s.phase.Reconciling?
    ensures s.tables == before.tables && s.history == before.history
    ensures s.world.upstream == map[7 := Account(Active, false)]
  {
    s := Next(before, Environment(7, Account(Active, false)));
    s := Next(s, BeginRestoreReconcile(7, true));
    s := Next(s, Read(true, false));
  }

  /** Reconciling the restore intent tests the account.  The test is slow; nothing stores that. */
  lemma RetestedSlow(before: State) returns (s: State)
    requires Waiting(before) && 7 in before.tables.restores
    ensures Waiting(s) && s.tables == before.tables
    ensures HistoryOf(s.history, 7) == HistoryOf(before.history, 7) + [Observed(Some(40_000))]
  {
    s := RestoreLookedAt(before);
    s := Next(s, Tested(Passed, Some(40_000)));
    s := Next(s, Environment(7, Account(Inactive, false)));
  }

  /** Without any crash or error: a slow test during the reconciliation of an older restore
      intent does not break the streak either. */
  lemma SlowRetest() returns (s: State)
    ensures Reachable(s) && BeginsSlowRestore(s, 7, Some(100))
    ensures HistoryOf(s.history, 7)
         == [Observed(Some(100)), Recorded(Passing), Observed(Some(100)), Recorded(Failed),
             Observed(Some(100)), Recorded(Passing), Observed(Some(40_000)), Observed(Some(100))]
  {
    s := RestoreLeftOpen();
    s := PassAgain(s);
    s := RetestedSlow(s);
    s := SecondPass(s);
  }
}
