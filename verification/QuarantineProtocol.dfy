/** The crash-safe quarantine protocol, as a transition system.

    One writer (the holder of the account control lease) walks through the maintenance
    handler: reconcile intents, reconcile restores, choose the markers to probe, disable
    candidates, probe the chosen markers.  `Step` is one database transaction, one upstream
    request, or something that happens around the writer: a crash, an exception, or a change
    of an account by anybody else.  An upstream write may apply although its response is
    lost, may be acknowledged without applying, and a read may fail.

    `log`, `outstanding`, `ours` and `history` are observers.  They record what was written,
    read, tested and stored so that the theorems can talk about whole runs; no step depends
    on them. */
module QuarantineProtocol {
  import opened Common
  import opened QuarantineTables

  datatype Entry =
    | WroteInactive(id: Id)
    | Saw(id: Id, account: Account)

  /** What happened to the tests of one account, those of its probes and those of the
      reconciliation of its restore: each finished test, and each stored result. */
  datatype ProbeEntry = Observed(latencyMs: Option<nat>) | Recorded(result: ProbeResult)

  /** The upstream accounts, what this path wrote and read there, the accounts it made
      inactive and has not read as back, and those nobody has made live since. */
  datatype World = World(upstream: map<Id, Account>, log: seq<Entry>, outstanding: set<Id>, ours: set<Id>)

  datatype Verdict = Success | Refused | Uncertain

  datatype DisableFlow = FromCoordinator | FromReconcile

  datatype DisableAt =
    | PutInactive
    | PostUnschedulable
    | VerifyDisable
    | ReadbackDisable
    | DisableVerdict(verdict: Verdict)

  datatype IntentAt = ReadIntentState(intent: Intent) | ConfirmGroups | ClearIntent

  datatype RestoreFlow = FromProbe(latencyMs: Option<nat>) | FromRestoreReconcile

  datatype RestoreAt =
    | StartRestore
    | PutActive
    | PostSchedulable
    | VerifyRestore
    | ReadbackRestore
    | RestoreVerdict(verdict: Verdict)

  datatype RestoreTaskAt =
    | ReadRestoreState(marker: Marker)
    | Retest(marker: Marker)
    | Complete
    | Cancel

  datatype ProbeAt =
    | ReadMarkerState(marker: Marker)
    | Test(marker: Marker)
    | Begin(latencyMs: Option<nat>)
    | Record(result: ProbeResult, latencyMs: Option<nat>)

  datatype Control =
    | Idle
    | Disabling(id: Id, disableFlow: DisableFlow, disableAt: DisableAt)
    | IntentTask(id: Id, intentAt: IntentAt)
    | Restoring(id: Id, restoreFlow: RestoreFlow, restoreAt: RestoreAt)
    | RestoreTask(id: Id, restoreTaskAt: RestoreTaskAt)
    | ProbeTask(id: Id, probeAt: ProbeAt)

  datatype Phase = Reconciling | Maintaining | Probing

  type History = map<Id, seq<ProbeEntry>>

  datatype State = State(
    tables: Tables,
    world: World,
    control: Control,
    phase: Phase,
    selected: map<Id, Marker>,
    history: History,
    rejected: bool)

  function Init(): State {
    State(EMPTY, World(map[], [], {}, {}), Idle, Reconciling, map[], map[], false)
  }

  datatype TestOutcome = Passed | DefinitiveFailure | Inconclusive

  datatype Event =
    | Crash
    | Fault
    | Environment(account: Id, now: Account)
    | SelectMarkers(ids: set<Id>)
    | StartProbing
    | EndRun
    | BeginDisable(account: Id, intent: Intent)
    | BeginIntentReconcile(account: Id, inScope: bool)
    | ConfirmMembership(sameGroups: bool)
    | BeginRestoreReconcile(account: Id, inScope: bool)
    | BeginProbe(account: Id, inScope: bool)
    | Write(applied: bool, acknowledged: bool)
    | Read(readable: bool, limited: bool)
    | Tested(outcome: TestOutcome, firstEventMs: Option<nat>)
    | DeadlinePassed
    | Commit(at: int)

  // ----- Observers -----

  predicate ReadsBack(e: Entry, id: Id) {
    e.Saw? && e.id == id && !e.account.Off()
  }

  /** This path made the account inactive and has not since read it as back. */
  ghost predicate Outstanding(log: seq<Entry>, id: Id) {
    exists k :: 0 <= k < |log| && log[k] == WroteInactive(id)
      && forall j :: k < j < |log| ==> !ReadsBack(log[j], id)
  }

  /** The account was read as neither inactive nor disabled, and nothing this path wrote
      since then made it inactive. */
  ghost predicate SeenBack(log: seq<Entry>, id: Id) {
    exists k :: 0 <= k < |log| && ReadsBack(log[k], id)
      && forall j :: k < j < |log| ==> log[j] != WroteInactive(id)
  }

  function HistoryOf(history: History, id: Id): seq<ProbeEntry> {
    if id in history then history[id] else []
  }

  function Note(history: History, id: Id, e: ProbeEntry): History {
    history[id := HistoryOf(history, id) + [e]]
  }

  // ----- The upstream -----

  function SetAccount(w: World, id: Id, a: Account): World {
    w.(upstream := w.upstream[id := a], ours := if a.Off() then w.ours else w.ours - {id})
  }

  function MakeInactive(w: World, id: Id): World
    requires id in w.upstream
  {
    World(w.upstream[id := w.upstream[id].(status := Inactive)],
          w.log + [WroteInactive(id)],
          w.outstanding + {id},
          w.ours + {id})
  }

  function ReadAccount(w: World, id: Id): World
    requires id in w.upstream
  {
    w.(log := w.log + [Saw(id, w.upstream[id])],
       outstanding := if w.upstream[id].Off() then w.outstanding else w.outstanding - {id})
  }

  // ----- One step -----

  /** An exception or a crash ends the run; only the tables and the upstream survive. */
  function Abort(s: State): State {
    s.(control := Idle, phase := Reconciling, selected := map[])
  }

  function ClassifyDisable(a: Account): Verdict {
    if !a.schedulable && a.Off() then Success
    else if !a.schedulable || a.Off() then Uncertain
    else Refused
  }

  /** `limited`: a rate limit, overload or expiry still holds the account back. */
  function ClassifyRestore(a: Account, limited: bool): Verdict {
    if a == Account(Active, true) && !limited then Success
    else if a.Off() && !a.schedulable then Refused
    else Uncertain
  }

  datatype IntentVerdict = KeepIntent | DropIntent | DisableAgain

  function ClassifyIntent(intent: Intent, a: Account): IntentVerdict {
    if a == intent.previous then DropIntent
    else if a.Off() then DisableAgain
    else if a == Account(Active, false) then KeepIntent
    else DropIntent
  }

  function DisableWrite(s: State, id: Id, flow: DisableFlow, at: DisableAt, lands: bool, acknowledged: bool): State
    requires lands ==> id in s.world.upstream
  {
    if at.PutInactive? then
      s.(world := if lands then MakeInactive(s.world, id) else s.world,
         control := Disabling(id, flow, if acknowledged then PostUnschedulable else ReadbackDisable))
    else if at.PostUnschedulable? then
      s.(world := if lands then SetAccount(s.world, id, s.world.upstream[id].(schedulable := false)) else s.world,
         control := Disabling(id, flow, if acknowledged then VerifyDisable else ReadbackDisable))
    else s
  }

  function RestoreWrite(s: State, id: Id, flow: RestoreFlow, at: RestoreAt, lands: bool, acknowledged: bool): State
    requires lands ==> id in s.world.upstream
  {
    if at.PutActive? then
      s.(world := if lands then SetAccount(s.world, id, s.world.upstream[id].(status := Active)) else s.world,
         control := Restoring(id, flow, if acknowledged then PostSchedulable else ReadbackRestore))
    else if at.PostSchedulable? then
      s.(world := if lands then SetAccount(s.world, id, s.world.upstream[id].(schedulable := true)) else s.world,
         control := Restoring(id, flow, if acknowledged then VerifyRestore else ReadbackRestore))
    else s
  }

  function WriteStep(s: State, applied: bool, acknowledged: bool): State {
    if s.control.Idle? then s
    else
      var lands := applied && s.control.id in s.world.upstream;
      match s.control
      case Disabling(id, flow, at) => DisableWrite(s, id, flow, at, lands, acknowledged)
      case Restoring(id, flow, at) => RestoreWrite(s, id, flow, at, lands, acknowledged)
      case _ => s
  }

  predicate ReadsNow(c: Control) {
    match c
    case Idle => false
    case Disabling(_, _, at) => at.VerifyDisable? || at.ReadbackDisable?
    case IntentTask(_, at) => at.ReadIntentState?
    case Restoring(_, _, at) => at.VerifyRestore? || at.ReadbackRestore?
    case RestoreTask(_, at) => at.ReadRestoreState?
    case ProbeTask(_, at) => at.ReadMarkerState?
  }

  /** Where the writer goes after reading account `a`. */
  function AfterRead(c: Control, a: Account, limited: bool): Control
    requires ReadsNow(c)
  {
    match c
    case Disabling(id, flow, at) =>
      if at.VerifyDisable? && !ClassifyDisable(a).Success? then Disabling(id, flow, ReadbackDisable)
      else Disabling(id, flow, DisableVerdict(ClassifyDisable(a)))
    case IntentTask(id, at) =>
      (match ClassifyIntent(at.intent, a)
       case KeepIntent => Idle
       case DropIntent => IntentTask(id, ClearIntent)
       case DisableAgain => IntentTask(id, ConfirmGroups))
    case Restoring(id, flow, _) => Restoring(id, flow, RestoreVerdict(ClassifyRestore(a, limited)))
    case RestoreTask(id, at) =>
      if a == Account(Active, true) then RestoreTask(id, Complete)
      else if a.Off() && !a.schedulable then RestoreTask(id, Cancel)
      else RestoreTask(id, Retest(at.marker))
    case ProbeTask(id, at) =>
      if a.Off() && !a.schedulable then ProbeTask(id, Test(at.marker)) else ProbeTask(id, Record(Invalid, None))
  }

  /** Where the writer goes when a read fails. */
  function AfterFailedRead(c: Control): Control
    requires ReadsNow(c)
  {
    match c
    case Disabling(id, flow, at) =>
      Disabling(id, flow, if at.VerifyDisable? then ReadbackDisable else DisableVerdict(Uncertain))
    case Restoring(id, flow, at) =>
      Restoring(id, flow, if at.VerifyRestore? then ReadbackRestore else RestoreVerdict(Uncertain))
    case ProbeTask(id, _) => ProbeTask(id, Record(Invalid, None))
    case _ => Idle
  }

  function ReadStep(s: State, readable: bool, limited: bool): State {
    if !ReadsNow(s.control) then s
    else if !readable || s.control.id !in s.world.upstream then s.(control := AfterFailedRead(s.control))
    else
      s.(control := AfterRead(s.control, s.world.upstream[s.control.id], limited),
         world := ReadAccount(s.world, s.control.id))
  }

  /** What a finished test of a marked account leads to. */
  function AfterProbe(id: Id, marker: Marker, outcome: TestOutcome, firstEventMs: Option<nat>): ProbeAt {
    if !outcome.Passed? then Record(if outcome.DefinitiveFailure? then Failed else Invalid, firstEventMs)
    else if marker.reason.ChannelTestFailed? then Begin(firstEventMs)
    else if firstEventMs.None? then Record(Invalid, None)
    else if firstEventMs.value > marker.thresholdMs then Record(Slow, firstEventMs)
    else if marker.streak == 0 then Record(Passing, firstEventMs)
    else Begin(firstEventMs)
  }

  function TestedStep(s: State, outcome: TestOutcome, firstEventMs: Option<nat>): State {
    match s.control
    case RestoreTask(id, Retest(marker)) =>
      var within := marker.reason.ChannelTestFailed? || AtMost(firstEventMs, marker.thresholdMs);
      s.(control := if outcome.Passed? && within then Restoring(id, FromRestoreReconcile, StartRestore) else Idle,
         history := Note(s.history, id, Observed(if outcome.Passed? then firstEventMs else None)))
    case ProbeTask(id, Test(marker)) =>
      s.(control := ProbeTask(id, AfterProbe(id, marker, outcome, firstEventMs)),
         history := Note(s.history, id, Observed(if outcome.Passed? then firstEventMs else None)))
    case _ => s
  }

  function CommitDisable(s: State, id: Id, flow: DisableFlow, verdict: Verdict): State {
    if verdict.Success? then
      // The coordinator raises when its intent has gone; a reconciliation does not.
      if id !in s.tables.intents && flow.FromCoordinator? then Abort(s.(rejected := true))
      else s.(tables := Promote(s.tables, id), control := Idle)
    else if flow.FromReconcile? then s.(control := Idle)
    else if verdict.Refused? then s.(tables := RemoveIntent(s.tables, id), control := Idle)
    else s.(control := Idle, phase := Probing)   // an uncertain write ends the disable loop
  }

  function CommitRestore(s: State, id: Id, flow: RestoreFlow, verdict: Verdict): State {
    if flow.FromRestoreReconcile? then
      s.(tables := if verdict.Success? then CompleteRestore(s.tables, id) else s.tables, control := Idle)
    else if verdict.Success? then
      if id in s.tables.restores && id in s.tables.markers
      then s.(tables := CompleteRestore(s.tables, id), control := Idle)
      else s.(control := ProbeTask(id, Record(Invalid, None)), rejected := true)
    else
      s.(tables := if verdict.Refused? then CancelRestore(s.tables, id) else s.tables,
         control := ProbeTask(id, Record(Failed, flow.latencyMs)))
  }

  function CommitRestoreTask(s: State, id: Id, at: RestoreTaskAt): State {
    if at.Complete? then s.(tables := CompleteRestore(s.tables, id), control := Idle)
    else if at.Cancel? then s.(tables := CancelRestore(s.tables, id), control := Idle)
    else s
  }

  function CommitBegin(s: State, id: Id, latencyMs: Option<nat>, now: int): State {
    var r := BeginRestore(s.tables, id, now);
    if r.Ok? then s.(tables := r.value, control := Restoring(id, FromProbe(latencyMs), StartRestore))
    else s.(control := ProbeTask(id, Record(Invalid, None)), rejected := true)
  }

  function CommitRecord(s: State, id: Id, result: ProbeResult, latencyMs: Option<nat>, now: int): State {
    var r := UpdateProbe(s.tables, id, now, latencyMs, result);
    if r.Ok? then s.(tables := r.value, control := Idle, history := Note(s.history, id, Recorded(result)))
    else Abort(s.(rejected := true))
  }

  function CommitRestoring(s: State, id: Id, flow: RestoreFlow, at: RestoreAt): State {
    if at.StartRestore? then s.(control := Restoring(id, flow, PutActive))
    else if at.RestoreVerdict? then CommitRestore(s, id, flow, at.verdict)
    else s
  }

  function CommitProbe(s: State, id: Id, at: ProbeAt, now: int): State {
    if at.Begin? then CommitBegin(s, id, at.latencyMs, now)
    else if at.Record? then CommitRecord(s, id, at.result, at.latencyMs, now)
    else s
  }

  function CommitIntentTask(s: State, id: Id, at: IntentAt): State {
    if at.ClearIntent? then s.(tables := RemoveIntent(s.tables, id), control := Idle) else s
  }

  /** The writer's next database transaction. */
  function CommitStep(s: State, now: int): State {
    match s.control
    case Idle => s
    case Disabling(id, flow, at) => if at.DisableVerdict? then CommitDisable(s, id, flow, at.verdict) else s
    case IntentTask(id, at) => CommitIntentTask(s, id, at)
    case Restoring(id, flow, at) => CommitRestoring(s, id, flow, at)
    case RestoreTask(id, at) => CommitRestoreTask(s, id, at)
    case ProbeTask(id, at) => CommitProbe(s, id, at, now)
  }

  /** An exception inside one probe is caught and recorded as an invalid attempt; anywhere
      else it ends the run. */
  function FaultStep(s: State): State {
    if || (s.control.ProbeTask? && !s.control.probeAt.Record?)
       || (s.control.Restoring? && s.control.restoreFlow.FromProbe?)
    then s.(control := ProbeTask(s.control.id, Record(Invalid, None)))
    else Abort(s)
  }

  function DeadlineStep(s: State): State {
    if !s.control.Restoring? || s.control.restoreAt.RestoreVerdict? then s
    else
      s.(control := Restoring(s.control.id, s.control.restoreFlow,
                              if s.control.restoreAt.StartRestore? then RestoreVerdict(Refused) else ReadbackRestore))
  }

  function BeginDisableStep(s: State, id: Id, intent: Intent): State {
    if !s.control.Idle? || !s.phase.Maintaining? then s
    else if !ValidIntent(intent) then Abort(s)
    else
      var r := UpsertIntent(s.tables, id, intent);
      if r.Ok? then s.(tables := r.value, control := Disabling(id, FromCoordinator, PutInactive))
      else Abort(s)
  }

  function ReconcileStep(s: State, e: Event): State {
    match e
    case BeginIntentReconcile(id, inScope) =>
      if s.control.Idle? && s.phase.Reconciling? && id in s.tables.intents && inScope
      then s.(control := IntentTask(id, ReadIntentState(s.tables.intents[id]))) else s
    case ConfirmMembership(sameGroups) =>
      if !s.control.IntentTask? || !s.control.intentAt.ConfirmGroups? then s
      else if sameGroups then s.(control := Disabling(s.control.id, FromReconcile, PutInactive))
      else s.(control := Idle)
    case BeginRestoreReconcile(id, inScope) =>
      if !s.control.Idle? || !s.phase.Reconciling? || id !in s.tables.restores then s
      else if id !in s.tables.markers then s.(control := RestoreTask(id, Cancel))
      else if inScope then s.(control := RestoreTask(id, ReadRestoreState(s.tables.markers[id]))) else s
    case _ => s
  }

  predicate ChangesPhase(e: Event) {
    e.SelectMarkers? || e.StartProbing? || e.EndRun? || e.BeginProbe?
  }

  function PhaseStep(s: State, e: Event): State {
    match e
    case SelectMarkers(ids) =>
      if s.control.Idle? && s.phase.Reconciling?
      then s.(phase := Maintaining, selected := map id | id in ids && id in s.tables.markers :: s.tables.markers[id])
      else s
    case StartProbing => if s.control.Idle? && s.phase.Maintaining? then s.(phase := Probing) else s
    case EndRun =>
      if s.control.Idle? && s.phase.Probing? then s.(phase := Reconciling, selected := map[]) else s
    case BeginProbe(id, inScope) =>
      if !s.control.Idle? || !s.phase.Probing? || id !in s.selected then s
      else
        s.(selected := s.selected - {id},
           control := ProbeTask(id, if inScope then ReadMarkerState(s.selected[id]) else Record(Invalid, None)))
    case _ => s
  }

  function Step(s: State, e: Event): State {
    match e
    case Crash => Abort(s)
    case Fault => FaultStep(s)
    case Environment(id, a) => s.(world := SetAccount(s.world, id, a))
    case BeginDisable(id, intent) => BeginDisableStep(s, id, intent)
    case Write(applied, acknowledged) => WriteStep(s, applied, acknowledged)
    case Read(readable, limited) => ReadStep(s, readable, limited)
    case Tested(outcome, firstEventMs) =>
      // The request deadline bounds every measured first event.
      if firstEventMs.Some? && firstEventMs.value > MAX_LATENCY_MS then s
      else TestedStep(s, outcome, firstEventMs)
    case DeadlinePassed => DeadlineStep(s)
    case Commit(now) => CommitStep(s, now)
    case _ => if ChangesPhase(e) then PhaseStep(s, e) else ReconcileStep(s, e)
  }

  function Run(s: State, events: seq<Event>): State
    decreases |events|
  {
    if events == [] then s else Step(Run(s, events[..|events| - 1]), events[|events| - 1])
  }

  // ----- The invariant -----

  /** Everything this path took out of traffic, and has not seen back, is held by a row. */
  ghost predicate NothingLost(t: Tables, w: World) {
    && (forall id | id in w.outstanding :: t.Held(id))
    && (forall id | id in w.ours :: t.Held(id) && id in w.upstream && w.upstream[id].Off())
  }

  ghost predicate LastReadBack(w: World, id: Id) {
    && w.log != [] && ReadsBack(w.log[|w.log| - 1], id)
    && id !in w.outstanding && id !in w.ours
  }

  ghost predicate LastObserved(history: History, id: Id, latencyMs: Option<nat>) {
    var h := HistoryOf(history, id);
    h != [] && h[|h| - 1] == Observed(latencyMs)
  }

  /** The rows chosen for probing are still exactly what was read. */
  ghost predicate SelectedOk(t: Tables, phase: Phase, selected: map<Id, Marker>) {
    && (forall id | id in selected :: id in t.markers && t.markers[id] == selected[id])
    && (phase.Reconciling? ==> selected == map[])
  }

  predicate Bounded(latencyMs: Option<nat>) {
    latencyMs.Some? ==> latencyMs.value <= MAX_LATENCY_MS
  }

  ghost predicate DisableOk(t: Tables, w: World, phase: Phase, id: Id, flow: DisableFlow, at: DisableAt) {
    && id in t.intents
    && phase == (if flow.FromReconcile? then Reconciling else Maintaining)
    && (at == DisableVerdict(Refused) ==> LastReadBack(w, id))
  }

  ghost predicate IntentOk(t: Tables, w: World, phase: Phase, id: Id, at: IntentAt) {
    && phase.Reconciling? && id in t.intents
    && (at.ReadIntentState? ==> t.intents[id] == at.intent)
    && (at.ClearIntent? ==> LastReadBack(w, id))
  }

  ghost predicate RestoreOk(t: Tables, w: World, phase: Phase, selected: map<Id, Marker>, id: Id, flow: RestoreFlow,
          at: RestoreAt) {
    && id in t.restores && id !in selected
    && phase == (if flow.FromProbe? then Probing else Reconciling)
    && (flow.FromProbe? ==> Bounded(flow.latencyMs))
    && (at == RestoreVerdict(Success) ==> LastReadBack(w, id))
  }

  ghost predicate RestoreTaskOk(t: Tables, w: World, phase: Phase, id: Id, at: RestoreTaskAt) {
    && phase.Reconciling? && id in t.restores
    && (at.ReadRestoreState? || at.Retest? ==> id in t.markers && t.markers[id] == at.marker)
    && (at.Complete? ==> LastReadBack(w, id))
  }

  /** What stands behind a passing attempt, or a restore, of a slow marker. */
  ghost predicate Backed(m: Marker, history: History, id: Id, latencyMs: Option<nat>, streak: nat) {
    && LastObserved(history, id, latencyMs)
    && (m.reason.SlowFirstToken? ==> AtMost(latencyMs, m.thresholdMs) && m.streak == streak)
  }

  ghost predicate ProbeOk(t: Tables, history: History, phase: Phase, selected: map<Id, Marker>, id: Id, at: ProbeAt) {
    && phase.Probing? && id !in selected && id in t.markers
    && (match at
        case ReadMarkerState(marker) => t.markers[id] == marker
        case Test(marker) => t.markers[id] == marker
        case Begin(latencyMs) => Bounded(latencyMs) && Backed(t.markers[id], history, id, latencyMs, 1)
        case Record(result, latencyMs) =>
          && ValidAttempt(result, latencyMs)
          && (result.Passing? ==>
              t.markers[id].reason.SlowFirstToken? && Backed(t.markers[id], history, id, latencyMs, 0)))
  }

  ghost predicate ControlOk(s: State) {
    match s.control
    case Idle => true
    case Disabling(id, flow, at) => DisableOk(s.tables, s.world, s.phase, id, flow, at)
    case IntentTask(id, at) => IntentOk(s.tables, s.world, s.phase, id, at)
    case Restoring(id, flow, at) => RestoreOk(s.tables, s.world, s.phase, s.selected, id, flow, at)
    case RestoreTask(id, at) => RestoreTaskOk(s.tables, s.world, s.phase, id, at)
    case ProbeTask(id, at) => ProbeOk(s.tables, s.history, s.phase, s.selected, id, at)
  }

  ghost predicate Inv(s: State) {
    && WellFormed(s.tables)
    && NothingLost(s.tables, s.world)
    && SelectedOk(s.tables, s.phase, s.selected)
    && ControlOk(s)
    && !s.rejected
  }

  // ----- Every step keeps the invariant -----

  lemma WriteKeeps(s: State, applied: bool, acknowledged: bool)
    requires Inv(s)
    ensures Inv(WriteStep(s, applied, acknowledged))
  {
    match s.control
    case Disabling(id, flow, at) => DisableWriteKeeps(s, applied && id in s.world.upstream, acknowledged);
    case Restoring(id, flow, at) => RestoreWriteKeeps(s, applied && id in s.world.upstream, acknowledged);
    case _ =>
  }

  lemma DisableWriteKeeps(s: State, lands: bool, acknowledged: bool)
    requires Inv(s) && s.control.Disabling? && (lands ==> s.control.id in s.world.upstream)
    ensures Inv(DisableWrite(s, s.control.id, s.control.disableFlow, s.control.disableAt, lands, acknowledged))
  {
    hide WellFormed, SelectedOk, LastReadBack;
  }

  lemma RestoreWriteKeeps(s: State, lands: bool, acknowledged: bool)
    requires Inv(s) && s.control.Restoring? && (lands ==> s.control.id in s.world.upstream)
    ensures Inv(RestoreWrite(s, s.control.id, s.control.restoreFlow, s.control.restoreAt, lands, acknowledged))
  {
    hide WellFormed, SelectedOk, LastReadBack;
  }

  lemma FailedReadKeeps(s: State)
    requires Inv(s) && ReadsNow(s.control)
    ensures Inv(s.(control := AfterFailedRead(s.control)))
  {
  }

  lemma GoodReadKeeps(s: State, id: Id, limited: bool)
    requires Inv(s) && ReadsNow(s.control) && id == s.control.id && id in s.world.upstream
    ensures Inv(s.(control := AfterRead(s.control, s.world.upstream[id], limited), world := ReadAccount(s.world, id)))
  {
    var w := ReadAccount(s.world, id);
    assert w.log[|w.log| - 1] == Saw(id, s.world.upstream[id]);
    assert NothingLost(s.tables, w);
    match s.control
    case Disabling(_, _, _) =>
    case IntentTask(_, _) =>
    case Restoring(_, _, _) =>
    case RestoreTask(_, _) =>
    case ProbeTask(_, _) =>
  }

  lemma ReadKeeps(s: State, readable: bool, limited: bool)
    requires Inv(s)
    ensures Inv(ReadStep(s, readable, limited))
  {
    if ReadsNow(s.control) {
      if readable && s.control.id in s.world.upstream {
        GoodReadKeeps(s, s.control.id, limited);
      } else {
        FailedReadKeeps(s);
      }
    }
  }

  lemma TestedKeeps(s: State, outcome: TestOutcome, firstEventMs: Option<nat>)
    requires Inv(s) && Bounded(firstEventMs)
    ensures Inv(TestedStep(s, outcome, firstEventMs))
  {
    if s.control.ProbeTask? {
      assert ValidMarker(s.tables.markers[s.control.id]);
    }
  }

  /** A commit writes nothing upstream, and lets go only of accounts just read as back. */
  ghost predicate Releases(s: State, next: State) {
    && next.world == s.world
    && forall id | s.tables.Held(id) && !next.tables.Held(id) :: LastReadBack(s.world, id)
  }

  lemma CommitDisableKeeps(s: State, id: Id, flow: DisableFlow, verdict: Verdict)
    requires Inv(s) && s.control == Disabling(id, flow, DisableVerdict(verdict))
    ensures var next := CommitDisable(s, id, flow, verdict); Inv(next) && Releases(s, next)
  {
    RemoveIntentKeeps(s.tables, id);
    PromoteKeeps(s.tables, id);
  }

  lemma CommitIntentTaskKeeps(s: State, id: Id, at: IntentAt)
    requires Inv(s) && s.control == IntentTask(id, at)
    ensures var next := CommitIntentTask(s, id, at); Inv(next) && Releases(s, next)
  {
    RemoveIntentKeeps(s.tables, id);
  }

  lemma CommitRestoreKeeps(s: State, id: Id, flow: RestoreFlow, verdict: Verdict)
    requires Inv(s) && s.control == Restoring(id, flow, RestoreVerdict(verdict))
    ensures var next := CommitRestore(s, id, flow, verdict); Inv(next) && Releases(s, next)
  {
    CompleteRestoreKeeps(s.tables, id);
  }

  lemma CommitRestoringKeeps(s: State, id: Id, flow: RestoreFlow, at: RestoreAt)
    requires Inv(s) && s.control == Restoring(id, flow, at)
    ensures var next := CommitRestoring(s, id, flow, at); Inv(next) && Releases(s, next)
  {
    if at.RestoreVerdict? { CommitRestoreKeeps(s, id, flow, at.verdict); }
  }

  lemma CommitRestoreTaskKeeps(s: State, id: Id, at: RestoreTaskAt)
    requires Inv(s) && s.control == RestoreTask(id, at)
    ensures var next := CommitRestoreTask(s, id, at); Inv(next) && Releases(s, next)
  {
    CompleteRestoreKeeps(s.tables, id);
  }

  lemma CommitRecordKeeps(s: State, id: Id, result: ProbeResult, latencyMs: Option<nat>, now: int)
    requires Inv(s) && s.control == ProbeTask(id, Record(result, latencyMs))
    ensures var next := CommitRecord(s, id, result, latencyMs, now); Inv(next) && Releases(s, next)
  {
    assert ValidMarker(s.tables.markers[id]);
    UpdateProbeKeeps(s.tables, id, now, latencyMs, result);
  }

  lemma CommitBeginKeeps(s: State, id: Id, latencyMs: Option<nat>, now: int)
    requires Inv(s) && s.control == ProbeTask(id, Begin(latencyMs))
    ensures var next := CommitBegin(s, id, latencyMs, now); Inv(next) && Releases(s, next)
  {
  }

  lemma CommitKeeps(s: State, now: int)
    requires Inv(s)
    ensures Inv(CommitStep(s, now)) && Releases(s, CommitStep(s, now))
  {
    hide Inv;
    match s.control
    case Idle =>
    case Disabling(id, flow, at) => if at.DisableVerdict? { CommitDisableKeeps(s, id, flow, at.verdict); }
    case IntentTask(id, at) => CommitIntentTaskKeeps(s, id, at);
    case Restoring(id, flow, at) => CommitRestoringKeeps(s, id, flow, at);
    case RestoreTask(id, at) => CommitRestoreTaskKeeps(s, id, at);
    case ProbeTask(id, at) =>
      if at.Begin? { CommitBeginKeeps(s, id, at.latencyMs, now); }
      else if at.Record? { CommitRecordKeeps(s, id, at.result, at.latencyMs, now); }
  }

  lemma BeginDisableKeeps(s: State, id: Id, intent: Intent)
    requires Inv(s)
    ensures Inv(BeginDisableStep(s, id, intent))
  {
    if ValidIntent(intent) { UpsertIntentKeeps(s.tables, id, intent); }
  }

  lemma ReconcileKeeps(s: State, e: Event)
    requires Inv(s)
    ensures Inv(ReconcileStep(s, e))
  {
  }

  lemma PhaseKeeps(s: State, e: Event)
    requires Inv(s)
    ensures Inv(PhaseStep(s, e))
  {
  }

  lemma InterruptKeeps(s: State)
    requires Inv(s)
    ensures Inv(Abort(s)) && Inv(FaultStep(s)) && Inv(DeadlineStep(s))
  {
  }

  lemma EnvironmentKeeps(s: State, id: Id, a: Account)
    requires Inv(s)
    ensures Inv(s.(world := SetAccount(s.world, id, a)))
  {
  }

  lemma AroundKeeps(s: State, e: Event)
    requires Inv(s) && (e.Crash? || e.Fault? || e.DeadlinePassed? || e.Environment?)
    ensures Inv(Step(s, e))
  {
    hide Inv;
    if e.Environment? { EnvironmentKeeps(s, e.account, e.now); } else { InterruptKeeps(s); }
  }

  lemma UpstreamKeeps(s: State, e: Event)
    requires Inv(s) && (e.Write? || e.Read? || e.Tested?)
    ensures Inv(Step(s, e))
  {
    hide Inv;
    if e.Write? { WriteKeeps(s, e.applied, e.acknowledged); }
    else if e.Read? { ReadKeeps(s, e.readable, e.limited); }
    else if Bounded(e.firstEventMs) { TestedKeeps(s, e.outcome, e.firstEventMs); }
  }

  lemma {:induction false} StepKeeps(s: State, e: Event)
    requires Inv(s)
    ensures Inv(Step(s, e))
  {
    hide Inv;
    if e.Crash? || e.Fault? || e.DeadlinePassed? || e.Environment? { AroundKeeps(s, e); }
    else if e.Write? || e.Read? || e.Tested? { UpstreamKeeps(s, e); }
    else if e.Commit? { CommitKeeps(s, e.at); }
    else if e.BeginDisable? { BeginDisableKeeps(s, e.account, e.intent); }
    else if ChangesPhase(e) { PhaseKeeps(s, e); }
    else { ReconcileKeeps(s, e); }
  }

  lemma {:induction false} RunKeeps(events: seq<Event>)
    ensures Inv(Run(Init(), events))
    decreases |events|
  {
    if events == [] {
    } else {
      RunKeeps(events[..|events| - 1]);
      StepKeeps(Run(Init(), events[..|events| - 1]), events[|events| - 1]);
    }
  }

  // ----- The observers say what they should -----

  lemma OutstandingAfter(log: seq<Entry>, e: Entry, id: Id)
    ensures Outstanding(log + [e], id) <==> e == WroteInactive(id) || (Outstanding(log, id) && !ReadsBack(e, id))
  {
    var after := log + [e];
    assert after[|log|] == e && forall j :: 0 <= j < |log| ==> after[j] == log[j];
    if e == WroteInactive(id) {
      assert after[|log|] == WroteInactive(id);
    } else if Outstanding(log, id) && !ReadsBack(e, id) {
      var k :| 0 <= k < |log| && log[k] == WroteInactive(id) && forall j :: k < j < |log| ==> !ReadsBack(log[j], id);
      assert after[k] == WroteInactive(id);
    }
  }

  /** The step that takes account `id` out of traffic by our own write. */
  predicate TakesOut(s: State, e: Event, id: Id) {
    && s.control.Disabling? && s.control.id == id && s.control.disableAt.PutInactive?
    && e.Write? && e.applied && id in s.world.upstream
  }

  /** What a step can do to the upstream and its observers. */
  ghost predicate WorldMoves(s: State, e: Event, w: World) {
    || w == s.world
    || (e.Environment? && w == SetAccount(s.world, e.account, e.now))
    || (!s.control.Idle? && s.control.id in s.world.upstream
        && (|| (e.Read? && w == ReadAccount(s.world, s.control.id))
            || (TakesOut(s, e, s.control.id) && w == MakeInactive(s.world, s.control.id))
            || (exists a :: w == SetAccount(s.world, s.control.id, a))))
  }

  lemma WorldStep(s: State, e: Event)
    ensures WorldMoves(s, e, Step(s, e).world)
  {
    match e
    case Write(applied, _) =>
      if applied && s.control.Disabling? && s.control.id in s.world.upstream {
        var a := s.world.upstream[s.control.id].(schedulable := false);
        if s.control.disableAt.PostUnschedulable? { assert Step(s, e).world == SetAccount(s.world, s.control.id, a); }
      } else if applied && s.control.Restoring? && s.control.id in s.world.upstream {
        var a := s.world.upstream[s.control.id];
        if s.control.restoreAt.PutActive? {
          assert Step(s, e).world == SetAccount(s.world, s.control.id, a.(status := Active));
        } else if s.control.restoreAt.PostSchedulable? {
          assert Step(s, e).world == SetAccount(s.world, s.control.id, a.(schedulable := true));
        }
      }
    case Read(_, _) =>
    case Environment(_, _) =>
    case Commit(_) =>
    case _ => assert Step(s, e).world == s.world;
  }

  lemma {:induction false} ObserversAgree(events: seq<Event>, id: Id)
    ensures var w := Run(Init(), events).world; id in w.outstanding <==> Outstanding(w.log, id)
    decreases |events|
  {
    if events == [] {
    } else {
      var s, e := Run(Init(), events[..|events| - 1]), events[|events| - 1];
      ObserversAgree(events[..|events| - 1], id);
      WorldStep(s, e);
      if !s.control.Idle? && s.control.id in s.world.upstream {
        OutstandingAfter(s.world.log, WroteInactive(s.control.id), id);
        OutstandingAfter(s.world.log, Saw(s.control.id, s.world.upstream[s.control.id]), id);
      }
    }
  }

  // ----- Safety over every run -----

  /** Whatever crashes, lost responses, failed reads and foreign changes a run contains, every
      account this path made inactive and has not since read as back is held by an intent
      or a marker. */
  lemma {:induction false} NothingIsLost(events: seq<Event>, id: Id)
    requires Outstanding(Run(Init(), events).world.log, id)
    ensures Run(Init(), events).tables.Held(id)
  {
    RunKeeps(events);
    ObserversAgree(events, id);
  }

  predicate OffUpstream(s: State, id: Id) {
    id in s.world.upstream && s.world.upstream[id].Off()
  }

  /** Our write took the account out after `k` events and nobody has brought it back since. */
  ghost predicate OffSince(events: seq<Event>, k: nat, id: Id) {
    && k < |events|
    && TakesOut(Run(Init(), events[..k]), events[k], id)
    && forall j :: k < j <= |events| ==> OffUpstream(Run(Init(), events[..j]), id)
  }

  lemma OursStep(s: State, e: Event, id: Id)
    requires TakesOut(s, e, id) || id in s.world.ours
    requires OffUpstream(Step(s, e), id)
    ensures id in Step(s, e).world.ours
  {
    WorldStep(s, e);
    if TakesOut(s, e, id) { assert Step(s, e).world == MakeInactive(s.world, id); }
  }

  lemma {:induction false} OffSinceIsOurs(events: seq<Event>, k: nat, id: Id)
    requires OffSince(events, k, id)
    ensures id in Run(Init(), events).world.ours
    decreases |events|
  {
    var before := events[..|events| - 1];
    assert events[..|events|] == events;
    if k < |before| {
      assert forall j | 0 <= j <= |before| :: before[..j] == events[..j];
      assert OffUpstream(Run(Init(), events[..|before|]), id);
      OffSinceIsOurs(before, k, id);
    }
    OursStep(Run(Init(), before), events[|events| - 1], id);
  }

  /** The same promise in terms of the true upstream state, whatever was read: an account that
      our write took out, and that has stayed out ever since, is held by a row. */
  lemma {:induction false} OffByUsIsHeld(events: seq<Event>, k: nat, id: Id)
    requires OffSince(events, k, id)
    ensures Run(Init(), events).tables.Held(id)
  {
    OffSinceIsOurs(events, k, id);
    RunKeeps(events);
  }

  lemma LastReadBackMeans(w: World, id: Id)
    requires LastReadBack(w, id)
    ensures SeenBack(w.log, id)
  {
    assert ReadsBack(w.log[|w.log| - 1], id);
  }

  lemma WriteLeavesTables(s: State, applied: bool, acknowledged: bool)
    ensures WriteStep(s, applied, acknowledged).tables == s.tables
  {
    hide MakeInactive, SetAccount;
  }

  lemma ReadLeavesTables(s: State, readable: bool, limited: bool)
    ensures ReadStep(s, readable, limited).tables == s.tables
  {
    hide AfterRead, AfterFailedRead, ReadAccount;
  }

  lemma MarkersStay(s: State, e: Event)
    requires !e.Commit?
    ensures var t := Step(s, e).tables;
            && t.markers == s.tables.markers && t.restores == s.tables.restores
            && forall id | id in s.tables.intents :: id in t.intents
  {
    hide WriteStep, ReadStep;
    if e.BeginDisable? {
    } else if e.Write? {
      WriteLeavesTables(s, e.applied, e.acknowledged);
    } else if e.Read? {
      ReadLeavesTables(s, e.readable, e.limited);
    } else {
      assert Step(s, e).tables == s.tables;
    }
  }

  /** Only a commit can drop a row. */
  lemma RowsSurvive(s: State, e: Event, id: Id)
    requires !e.Commit? && s.tables.Held(id)
    ensures Step(s, e).tables.Held(id)
  {
    MarkersStay(s, e);
  }

  lemma CommitLetsGo(s: State, next: State, id: Id)
    requires Releases(s, next) && s.tables.Held(id) && !next.tables.Held(id)
    ensures SeenBack(next.world.log, id)
  {
    LastReadBackMeans(s.world, id);
  }

  /** Every removal of a row follows a read that showed the account neither inactive nor
      disabled, with no later write of ours that made it inactive. */
  lemma {:induction false} RemovalFollowsRead(events: seq<Event>, e: Event, id: Id)
    requires Run(Init(), events).tables.Held(id) && !Run(Init(), events + [e]).tables.Held(id)
    ensures SeenBack(Run(Init(), events + [e]).world.log, id)
  {
    hide Inv;
    var s := Run(Init(), events);
    RunOne(events, e);
    RunKeeps(events);
    if e.Commit? {
      CommitKeeps(s, e.at);
      CommitLetsGo(s, Step(s, e), id);
    } else {
      RowsSurvive(s, e, id);
    }
  }

  lemma RunOne(events: seq<Event>, e: Event)
    ensures Run(Init(), events + [e]) == Step(Run(Init(), events), e)
  {
    assert (events + [e])[..|events|] == events;
  }

  /** Nothing is written upstream to take an account out before its intent is stored. */
  lemma {:induction false} IntentBeforeWrite(events: seq<Event>, e: Event, id: Id)
    requires TakesOut(Run(Init(), events), e, id)
    ensures id in Run(Init(), events).tables.intents
  {
    RunKeeps(events);
  }

  /** The one transaction that may be refused: a candidate's intent is not stored, and the run
      ends, exactly if the intent is invalid, the account has a marker already, or it has no intent
      yet and the registry is full. */
  lemma {:induction false} IntentEndsRun(events: seq<Event>, id: Id, intent: Intent)
    requires Run(Init(), events).control.Idle? && Run(Init(), events).phase.Maintaining?
    ensures var s := Run(Init(), events);
            BeginDisableStep(s, id, intent) == Abort(s) <==>
              || !ValidIntent(intent) || id in s.tables.markers
              || (id !in s.tables.intents && |s.tables.markers| + |s.tables.intents| == CAPACITY)
  {
    RunKeeps(events);
  }

  /** A marker as its reader wants it, one case for each last result. */
  ghost predicate MarkerReads(m: Marker) {
    && 1 <= m.thresholdMs <= 3_600_000 && 1 <= m.observedCount <= 1_000_000
    && match m.lastResult
       case Never => m.lastProbeAt == None && m.lastLatencyMs == None && m.streak == 0
       case Passing =>
         && m.reason == SlowFirstToken && m.lastProbeAt.Some? && m.streak == 1
         && m.lastLatencyMs.Some? && m.lastLatencyMs.value <= m.thresholdMs
       case Slow =>
         && m.lastProbeAt.Some? && m.streak == 0
         && m.lastLatencyMs.Some? && m.lastLatencyMs.value <= 3_600_000
       case _ =>
         && m.lastProbeAt.Some? && m.streak == 0
         && (m.lastLatencyMs == None || m.lastLatencyMs.value <= 3_600_000)
  }

  lemma ValidReads(m: Marker)
    requires ValidMarker(m)
    ensures MarkerReads(m)
  {
  }

  /** The tables of every reachable state: disjoint, restore intents only on markers, at most
      10 000 rows, every row readable; and no transaction the scheduler relies on is ever
      refused, so its missing-row and second-pass errors are unreachable. */
  lemma {:induction false} TablesStaySound(events: seq<Event>)
    ensures var s := Run(Init(), events);
            && s.tables.markers.Keys !! s.tables.intents.Keys
            && s.tables.restores.Keys <= s.tables.markers.Keys
            && |s.tables.markers| + |s.tables.intents| <= 10_000
            && (forall id | id in s.tables.markers :: MarkerReads(s.tables.markers[id]))
            && (forall id | id in s.tables.intents ::
                  var i := s.tables.intents[id];
                  && 1 <= i.thresholdMs <= 3_600_000 && 1 <= i.observedCount <= 1_000_000
                  && (i.previous.status.Active? || i.previous.status.Error?))
            && !s.rejected
  {
    RunKeeps(events);
    forall id | id in Run(Init(), events).tables.markers
      ensures MarkerReads(Run(Init(), events).tables.markers[id])
    {
      ValidReads(Run(Init(), events).tables.markers[id]);
    }
  }
}
