/** Testing and writing one account: what the adapter asks of the upstream, and what a recovery
    run makes of the answers. */
module AccountOperations {
  import opened Common

  datatype AccountStatus = InService | Errored | SwitchedOff | Idle

  /** One account as the snapshot shows it. */
  datatype Account = Account(
    id: nat, oauth: bool, expired: bool, status: AccountStatus, schedulable: bool,
    automatic: bool, temporary: bool, groups: set<nat>)

  datatype LiveStatus = LiveActive | LiveInactive | LiveDisabled | LiveOther

  /** One account as a single read shows it now; the read may raise or fail. */
  datatype Live =
    | ReadRaised
    | ReadFailed
    | Read(status: LiveStatus, schedulable: Option<bool>, automatic: bool, temporary: bool, expired: bool, oauth: bool)

  datatype Block = StateUnavailable | IsOauth | IsExpired | IsTemporary | IsManualPause

  datatype TestReply = TestRaised | Verdict(sameAccount: bool, success: bool, definitive: bool, incomplete: bool)

  datatype TestResult = TestPassed | TestFailed | TestUnclear | TestSkipped

  /** `incomplete` is the reason `test_incomplete`; `observedAutomatic` travels to the write. */
  datatype TestOutcome =
    | TestBroke
    | TestDone(result: TestResult, incomplete: bool, attempted: bool, observedAutomatic: bool)

  datatype WriteReply = WriteRaised | Written(success: bool, uncertain: bool)

  datatype MutationResult = Applied | NoChange | Blocked | Unclear

  datatype MutationOutcome = MutationBroke | Mutated(result: MutationResult, attempted: bool)

  /** Why accounts are looked at: a channel-error episode names its group, a manual run may. */
  datatype Trigger = BadState | ChannelError(episode: nat, group: nat) | HourlyCheck | Manual(onlyGroup: Option<nat>)

  datatype Final = Enabled | Disabled | Indeterminate | Skipped

  predicate NotInService(a: Account) { !a.status.InService? }

  predicate ManualPause(a: Account) { a.status.InService? && !a.schedulable && !a.automatic }

  function BlockOf(s: Live): Option<Block>
    requires !s.ReadRaised?
  {
    if s.ReadFailed? then Some(StateUnavailable)
    else if s.oauth then Some(IsOauth)
    else if s.expired then Some(IsExpired)
    else if s.temporary && s.status.LiveActive? && !s.automatic then Some(IsTemporary)
    else if s.status.LiveActive? && s.schedulable == Some(false) && !s.automatic then Some(IsManualPause)
    else None
  }

  predicate LiveAutomatic(s: Live) { s.Read? && s.automatic }

  /** Accounts the adapter refuses to test whatever the upstream says now. */
  predicate RefusedBySnapshot(a: Account) {
    a.oauth || ManualPause(a) || a.expired || (a.temporary && !a.automatic && !NotInService(a))
  }

  function TestBlock(a: Account, s: Live): Option<Block>
    requires !s.ReadRaised?
  {
    var b := BlockOf(s);
    if b == Some(IsManualPause) && (NotInService(a) || a.automatic) then None
    else if b == Some(StateUnavailable) && NotInService(a) then None
    else b
  }

  /** The upstream test is really called. */
  predicate CallsTest(a: Account, s: Live) {
    !RefusedBySnapshot(a) && !s.ReadRaised? && TestBlock(a, s).None?
  }

  function TestAccount(a: Account, s: Live, reply: TestReply): TestOutcome {
    if RefusedBySnapshot(a) then TestDone(TestSkipped, false, false, a.automatic)
    else if s.ReadRaised? then TestBroke
    else if TestBlock(a, s).Some? then
      TestDone(if TestBlock(a, s).value.StateUnavailable? then TestUnclear else TestSkipped, false, false,
               a.automatic || LiveAutomatic(s))
    else if reply.TestRaised? then TestBroke
    else if !reply.sameAccount then TestDone(TestUnclear, false, false, false)
    else
      TestDone(if reply.success then TestPassed else if reply.definitive then TestFailed else TestUnclear,
               reply.incomplete, true, a.automatic || LiveAutomatic(s))
  }

  function EnableBlock(a: Account, automatic: bool, s: Live): Option<Block>
    requires !s.ReadRaised?
  {
    var b := BlockOf(s);
    if (b == Some(IsManualPause) || b == Some(IsTemporary)) && (automatic || NotInService(a)) then None else b
  }

  predicate CallsEnable(a: Account, automatic: bool, s: Live) {
    && !(a.status.InService? && !a.schedulable && !automatic)
    && !s.ReadRaised? && EnableBlock(a, automatic, s).None?
    && !(s.Read? && s.status.LiveActive? && s.schedulable == Some(true))
  }

  function WriteResult(reply: WriteReply): MutationOutcome {
    if reply.WriteRaised? then MutationBroke
    else Mutated(if reply.success then Applied else if reply.uncertain then Unclear else Blocked, true)
  }

  function BlockedResult(b: Block): MutationOutcome {
    Mutated(if b.StateUnavailable? then Unclear else Blocked, false)
  }

  function EnableAccount(a: Account, automatic: bool, s: Live, reply: WriteReply): MutationOutcome {
    if a.status.InService? && !a.schedulable && !automatic then Mutated(Blocked, false)
    else if s.ReadRaised? then MutationBroke
    else if EnableBlock(a, automatic, s).Some? then BlockedResult(EnableBlock(a, automatic, s).value)
    else if s.Read? && s.status.LiveActive? && s.schedulable == Some(true) then Mutated(NoChange, false)
    else WriteResult(reply)
  }

  predicate KeepsAutomaticPause(s: Live) {
    s.Read? && s.status.LiveActive? && s.schedulable == Some(false) && s.automatic
  }

  predicate AlreadyOff(s: Live) {
    s.Read? && (s.status.LiveInactive? || s.status.LiveDisabled?) && s.schedulable == Some(false)
  }

  predicate CallsDisable(s: Live) {
    !s.ReadRaised? && !KeepsAutomaticPause(s) && BlockOf(s).None? && !AlreadyOff(s)
  }

  function DisableAccount(s: Live, reply: WriteReply): MutationOutcome {
    if s.ReadRaised? then MutationBroke
    else if KeepsAutomaticPause(s) then Mutated(Blocked, false)
    else if BlockOf(s).Some? then BlockedResult(BlockOf(s).value)
    else if AlreadyOff(s) then Mutated(NoChange, false)
    else WriteResult(reply)
  }

  /** Everything the upstream may answer while one account is handled: two tests and one write. */
  datatype World = World(
    firstRead: Live, firstReply: TestReply, secondRead: Live, secondReply: TestReply,
    writeRead: Live, writeReply: WriteReply)

  datatype Write = NoWrite | EnableWrite | DisableWrite

  /** `final`, `tested` and `stop` are what the run learns; `tests` and `write` are the upstream
      calls that were really made. */
  datatype Handled = Handled(final: Final, tested: bool, stop: bool, tests: nat, write: Write)

  function CallCount(called: bool): nat { if called then 1 else 0 }

  /** The write step after a test; it stops the run unless its result is known. */
  function AfterMutation(m: MutationOutcome, expected: Final, tested: bool, tests: nat, write: Write): Handled {
    match m
    case MutationBroke => Handled(Indeterminate, tested, true, tests, write)
    case Mutated(result, attempted) =>
      if result.Applied? || result.NoChange? then Handled(expected, tested, false, tests, write)
      else if !attempted && result.Blocked? then Handled(Skipped, tested, false, tests, write)
      else Handled(Indeterminate, tested, attempted, tests, write)
  }

  function Mutate(a: Account, t: TestOutcome, tests: nat, w: World): Handled
    requires t.TestDone?
  {
    if t.result.TestPassed? then
      AfterMutation(EnableAccount(a, t.observedAutomatic, w.writeRead, w.writeReply), Enabled, t.attempted, tests,
                    if CallsEnable(a, t.observedAutomatic, w.writeRead) then EnableWrite else NoWrite)
    else
      AfterMutation(DisableAccount(w.writeRead, w.writeReply), Disabled, t.attempted, tests,
                    if CallsDisable(w.writeRead) then DisableWrite else NoWrite)
  }

  /** A failed first test is repeated with the fallback model when `mayRetry`. */
  function Retested(a: Account, first: TestOutcome, mayRetry: bool, writeback: bool, w: World): TestOutcome
    requires first.TestDone?
  {
    if !first.result.TestPassed? && mayRetry && writeback then
      var second := TestAccount(a, w.secondRead, w.secondReply);
      if second.TestDone? && second.result.TestPassed? then second else first
    else first
  }

  function TestCalls(a: Account, first: TestOutcome, mayRetry: bool, writeback: bool, w: World): nat
    requires first.TestDone?
  {
    CallCount(CallsTest(a, w.firstRead))
    + (if !first.result.TestPassed? && mayRetry && writeback then CallCount(CallsTest(a, w.secondRead)) else 0)
  }

  function Judge(a: Account, trigger: Trigger, writeback: bool, t: TestOutcome, tests: nat, w: World): Handled
    requires t.TestDone?
  {
    if !writeback then
      Handled(if t.result.TestUnclear? then Indeterminate else Skipped, t.attempted, false, tests, NoWrite)
    else if t.result.TestSkipped? then Handled(Skipped, t.attempted, false, tests, NoWrite)
    else if t.result.TestUnclear? && !t.incomplete && !trigger.ChannelError? then
      Handled(Indeterminate, t.attempted, false, tests, NoWrite)
    else if trigger.HourlyCheck? && t.result.TestPassed? && a.status.InService? && a.schedulable then
      Handled(Enabled, t.attempted, false, tests, NoWrite)
    else Mutate(a, t, tests, w)
  }

  function ExecuteAccount(a: Account, trigger: Trigger, writeback: bool, mayRetry: bool, w: World): Handled {
    if a.oauth then Handled(Skipped, false, false, 0, NoWrite)
    else
      var first := TestAccount(a, w.firstRead, w.firstReply);
      if first.TestBroke? then
        Handled(Indeterminate, true, false, CallCount(CallsTest(a, w.firstRead)), NoWrite)
      else
        Judge(a, trigger, writeback, Retested(a, first, mayRetry, writeback, w),
              TestCalls(a, first, mayRetry, writeback, w), w)
  }

  // ----- What the answers can lead to -----

  /** An OAuth account, an expired one, a manual pause, and an active account in temporary
      protection are neither tested nor written, whatever the upstream answers. */
  lemma RefusedIsUntouched(a: Account, trigger: Trigger, writeback: bool, mayRetry: bool, w: World)
    requires RefusedBySnapshot(a)
    ensures var h := ExecuteAccount(a, trigger, writeback, mayRetry, w);
            h.tests == 0 && h.write == NoWrite && h.final == Skipped && !h.stop && !h.tested
  {
  }

  /** A write call was made and the upstream did not report its success. */
  predicate WriteUnconfirmed(h: Handled, w: World) {
    h.write != NoWrite && !(w.writeReply.Written? && w.writeReply.success)
  }

  lemma MutateStops(a: Account, t: TestOutcome, tests: nat, w: World)
    requires t.TestDone?
    ensures var h := Mutate(a, t, tests, w);
            && (WriteUnconfirmed(h, w) ==> h.stop)
            && (h.stop ==> h.final.Indeterminate? && (WriteUnconfirmed(h, w) || w.writeRead.ReadRaised?))
  {
  }

  lemma MutateAgrees(a: Account, t: TestOutcome, tests: nat, w: World)
    requires t.TestDone?
    ensures var h := Mutate(a, t, tests, w);
            && h.tested == t.attempted && h.tests == tests
            && (h.write.EnableWrite? || h.final.Enabled? ==> t.result.TestPassed?)
            && (h.write.DisableWrite? || h.final.Disabled? ==> !t.result.TestPassed?)
  {
  }

  /** The run is told to stop exactly when a write went out unconfirmed or the read before it
      raised, and then the account's own result says that nothing is known. */
  lemma StopMeansUnconfirmed(a: Account, trigger: Trigger, writeback: bool, mayRetry: bool, w: World)
    ensures var h := ExecuteAccount(a, trigger, writeback, mayRetry, w);
            && (WriteUnconfirmed(h, w) ==> h.stop)
            && (h.stop ==> h.final.Indeterminate? && (WriteUnconfirmed(h, w) || w.writeRead.ReadRaised?))
  {
    var first := TestAccount(a, w.firstRead, w.firstReply);
    if !a.oauth && first.TestDone? {
      MutateStops(a, Retested(a, first, mayRetry, writeback, w), TestCalls(a, first, mayRetry, writeback, w), w);
    }
  }

  /** The upstream test was called and the account itself passed it. */
  predicate Passes(a: Account, s: Live, reply: TestReply) {
    CallsTest(a, s) && reply.Verdict? && reply.sameAccount && reply.success
  }

  /** The first test passed, or the second one that was allowed to follow it. */
  predicate SomePass(a: Account, mayRetry: bool, writeback: bool, w: World) {
    || Passes(a, w.firstRead, w.firstReply)
    || (mayRetry && writeback && TestAccount(a, w.firstRead, w.firstReply).TestDone?
        && Passes(a, w.secondRead, w.secondReply))
  }

  lemma RetestedMeans(a: Account, mayRetry: bool, writeback: bool, w: World)
    requires TestAccount(a, w.firstRead, w.firstReply).TestDone?
    ensures var t := Retested(a, TestAccount(a, w.firstRead, w.firstReply), mayRetry, writeback, w);
            t.result.TestPassed? <==> SomePass(a, mayRetry, writeback, w)
  {
  }

  /** An account that is not handed over for writing is never written.  Otherwise it is enabled
      only after a passed test of its own, and disabled only without one. */
  lemma WriteFollowsTest(a: Account, trigger: Trigger, writeback: bool, mayRetry: bool, w: World)
    ensures var h := ExecuteAccount(a, trigger, writeback, mayRetry, w);
            && (!writeback ==> h.write == NoWrite && !h.final.Enabled? && !h.final.Disabled?)
            && (h.write.EnableWrite? || h.final.Enabled? ==> h.tested && SomePass(a, mayRetry, writeback, w))
            && (h.write.DisableWrite? || h.final.Disabled? ==> !SomePass(a, mayRetry, writeback, w))
  {
    var first := TestAccount(a, w.firstRead, w.firstReply);
    if !a.oauth && first.TestDone? {
      RetestedMeans(a, mayRetry, writeback, w);
      MutateAgrees(a, Retested(a, first, mayRetry, writeback, w), TestCalls(a, first, mayRetry, writeback, w), w);
    }
  }

  /** The test ends without a verdict on this account: it could not be read, or the upstream
      answered for another account. */
  predicate NoVerdict(a: Account, s: Live, reply: TestReply) {
    && !RefusedBySnapshot(a) && !s.ReadRaised?
    && (TestBlock(a, s) == Some(StateUnavailable) || (CallsTest(a, s) && reply.Verdict? && !reply.sameAccount))
  }

  lemma UntestedMeans(a: Account, mayRetry: bool, writeback: bool, w: World)
    requires TestAccount(a, w.firstRead, w.firstReply).TestDone?
    ensures var t := Retested(a, TestAccount(a, w.firstRead, w.firstReply), mayRetry, writeback, w);
            !SomePass(a, mayRetry, writeback, w) ==>
              (NoVerdict(a, w.firstRead, w.firstReply) <==> t.result.TestUnclear? && !t.attempted)
  {
  }

  /** A write goes out to disable an account of which no test is recorded exactly in a writing
      channel-error run whose first test ends without a verdict, when no second test was allowed
      and passed, and when the state read before the write does not protect the account. */
  lemma DisabledUntested(a: Account, trigger: Trigger, writeback: bool, mayRetry: bool, w: World)
    ensures var h := ExecuteAccount(a, trigger, writeback, mayRetry, w);
            h.write.DisableWrite? && !h.tested <==>
              && writeback && trigger.ChannelError?
              && NoVerdict(a, w.firstRead, w.firstReply)
              && !(mayRetry && Passes(a, w.secondRead, w.secondReply))
              && CallsDisable(w.writeRead)
  {
    var first := TestAccount(a, w.firstRead, w.firstReply);
    if !a.oauth && first.TestDone? {
      RetestedMeans(a, mayRetry, writeback, w);
      UntestedMeans(a, mayRetry, writeback, w);
      MutateAgrees(a, Retested(a, first, mayRetry, writeback, w), TestCalls(a, first, mayRetry, writeback, w), w);
    }
  }

  /** An example: an account that still serves and can be read before the write, but not before
      its test, is disabled although no test was called. */
  lemma UnreadableIsDisabled() returns (a: Account, w: World)
    ensures !RefusedBySnapshot(a) && a.status.InService? && a.schedulable && w.firstRead.ReadFailed?
    ensures var h := ExecuteAccount(a, ChannelError(1, 2), true, false, w);
            h.write.DisableWrite? && h.final.Disabled? && h.tests == 0 && !h.tested
  {
    a := Account(7, false, false, InService, true, false, false, {2});
    var healthy := Read(LiveActive, Some(true), false, false, false, false);
    w := World(ReadFailed, TestRaised, ReadFailed, TestRaised, healthy, Written(true, false));
  }

  /** The upstream shows a pause made by hand now. */
  predicate PausedByHand(s: Live) {
    s.Read? && BlockOf(s) == Some(IsManualPause)
  }

  /** The snapshot, or the read before the test that passed, shows an automatic pause. */
  predicate SeenAutomatic(a: Account, w: World) {
    var before := if Passes(a, w.firstRead, w.firstReply) then w.firstRead else w.secondRead;
    a.automatic || (before.Read? && before.automatic)
  }

  /** A pause made by hand after the snapshot is overridden exactly for accounts that were out of
      service or automatically paused: they are tested, and after a pass they are enabled. */
  lemma ManualPauseOverridden(a: Account, trigger: Trigger, writeback: bool, mayRetry: bool, w: World)
    ensures PausedByHand(w.firstRead) ==>
              (CallsTest(a, w.firstRead) <==> !RefusedBySnapshot(a) && (NotInService(a) || a.automatic))
    ensures PausedByHand(w.writeRead) ==>
              (ExecuteAccount(a, trigger, writeback, mayRetry, w).write.EnableWrite? <==>
                && writeback && SomePass(a, mayRetry, writeback, w)
                && (NotInService(a) || SeenAutomatic(a, w))
                && !(trigger.HourlyCheck? && a.status.InService? && a.schedulable))
  {
    var first := TestAccount(a, w.firstRead, w.firstReply);
    if PausedByHand(w.writeRead) && !a.oauth && first.TestDone? {
      RetestedMeans(a, mayRetry, writeback, w);
      MutateAgrees(a, Retested(a, first, mayRetry, writeback, w), TestCalls(a, first, mayRetry, writeback, w), w);
    }
  }

  /** An automatic pause that the upstream still shows is never turned into a disabled account. */
  lemma AutomaticPauseSurvives(a: Account, trigger: Trigger, writeback: bool, mayRetry: bool, w: World)
    requires KeepsAutomaticPause(w.writeRead)
    ensures !ExecuteAccount(a, trigger, writeback, mayRetry, w).write.DisableWrite?
  {
  }
}
