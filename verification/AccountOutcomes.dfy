/** Exactly which calls the handling of one account makes, and how it ends, in terms of the snapshot,
    the reads and the replies. */
module AccountOutcomes {
  import opened Common
  import opened AccountOperations

  // ----- What the reads allow -----

  /** Nothing in the account's own kind forbids an operation. */
  predicate Operable(s: Live) { s.Read? && !s.oauth && !s.expired }

  predicate ShowsPause(s: Live) { s.Read? && s.status.LiveActive? && s.schedulable == Some(false) }

  predicate ShowsLimit(s: Live) { s.Read? && s.status.LiveActive? && s.temporary }

  predicate ShowsOff(s: Live) {
    s.Read? && (s.status.LiveInactive? || s.status.LiveDisabled?) && s.schedulable == Some(false)
  }

  predicate ShowsOn(s: Live) { s.Read? && s.status.LiveActive? && s.schedulable == Some(true) }

  lemma RefusedMeans(a: Account)
    ensures RefusedBySnapshot(a) <==>
              || a.oauth || a.expired
              || (a.status.InService? && !a.automatic && (!a.schedulable || a.temporary))
  {
  }

  /** The upstream test is called for an account that the snapshot allows, if it can be read now and
      is neither limited nor paused by hand; an account that was out of service is tested unread, and
      it, or one that was paused automatically, is tested in spite of a pause. */
  lemma CallsTestMeans(a: Account, s: Live)
    ensures CallsTest(a, s) <==>
              && !RefusedBySnapshot(a)
              && (|| (s.ReadFailed? && !a.status.InService?)
                  || (&& Operable(s) && !(ShowsLimit(s) && !s.automatic)
                      && (ShowsPause(s) && !s.automatic ==> !a.status.InService? || a.automatic)))
  {
  }

  /** The write that disables goes out for a readable account that is neither paused, nor limited, nor
      off already. */
  predicate MayDisable(s: Live) {
    Operable(s) && !ShowsPause(s) && !(ShowsLimit(s) && !s.automatic) && !ShowsOff(s)
  }

  lemma CallsDisableMeans(s: Live)
    ensures CallsDisable(s) <==> MayDisable(s)
  {
  }

  /** The pause or limit of the account is not one that an operator has set. */
  predicate Trusted(a: Account, automatic: bool) { automatic || !a.status.InService? }

  /** An account may be put back unless it is paused or limited for reasons of its own. */
  predicate MayPutBack(a: Account, automatic: bool, s: Live) {
    && !(a.status.InService? && !a.schedulable && !automatic)
    && Operable(s) && ((ShowsPause(s) || ShowsLimit(s)) && !s.automatic ==> Trusted(a, automatic))
  }

  lemma CallsEnableMeans(a: Account, automatic: bool, s: Live)
    ensures CallsEnable(a, automatic, s) <==> MayPutBack(a, automatic, s) && !ShowsOn(s)
  {
  }

  // ----- How the test ended -----

  predicate FirstBroke(a: Account, w: World) {
    !RefusedBySnapshot(a) && (w.firstRead.ReadRaised? || (CallsTest(a, w.firstRead) && w.firstReply.TestRaised?))
  }

  /** The upstream answered for the account itself, and did not report success. */
  predicate Answered(a: Account, w: World) {
    CallsTest(a, w.firstRead) && w.firstReply.Verdict? && w.firstReply.sameAccount && !w.firstReply.success
  }

  /** No test passed, and the first one gives reason enough to disable the account: it failed for
      good or did not end, or in a channel-error run it gave no verdict. */
  predicate AsksToDisable(a: Account, trigger: Trigger, mayRetry: bool, writeback: bool, w: World) {
    && writeback && !SomePass(a, mayRetry, writeback, w)
    && (|| (Answered(a, w) && (w.firstReply.definitive || w.firstReply.incomplete || trigger.ChannelError?))
        || (trigger.ChannelError? && NoVerdict(a, w.firstRead, w.firstReply)))
  }

  /** An hourly check of an account in service that passes changes nothing. */
  predicate OnlyChecks(a: Account, trigger: Trigger) {
    trigger.HourlyCheck? && a.status.InService? && a.schedulable
  }

  predicate AsksToEnable(a: Account, trigger: Trigger, mayRetry: bool, writeback: bool, w: World) {
    writeback && SomePass(a, mayRetry, writeback, w) && !OnlyChecks(a, trigger)
  }

  /** The write went out and the upstream reported its success. */
  predicate Confirmed(w: World) { w.writeReply.Written? && w.writeReply.success }

  lemma ResultMeans(a: Account, trigger: Trigger, mayRetry: bool, writeback: bool, w: World)
    requires !FirstBroke(a, w)
    ensures TestAccount(a, w.firstRead, w.firstReply).TestDone?
    ensures var t := Retested(a, TestAccount(a, w.firstRead, w.firstReply), mayRetry, writeback, w);
            && (t.result.TestPassed? <==> SomePass(a, mayRetry, writeback, w))
            && (t.result.TestPassed? ==> t.attempted && t.observedAutomatic == SeenAutomatic(a, w))
            && (!t.result.TestPassed? && writeback ==>
                  (AsksToDisable(a, trigger, mayRetry, writeback, w) <==>
                     t.result.TestFailed? || (t.result.TestUnclear? && (t.incomplete || trigger.ChannelError?))))
  {
    RetestedMeans(a, mayRetry, writeback, w);
  }

  lemma DisableResult(a: Account, t: TestOutcome, tests: nat, w: World)
    requires t.TestDone? && !t.result.TestPassed?
    ensures var h := Mutate(a, t, tests, w);
            && (h.write.DisableWrite? <==> MayDisable(w.writeRead)) && !h.write.EnableWrite?
            && (h.final.Disabled? <==> || (MayDisable(w.writeRead) && Confirmed(w))
                                       || (Operable(w.writeRead) && ShowsOff(w.writeRead)))
            && !h.final.Enabled?
  {
  }

  lemma EnableResult(a: Account, t: TestOutcome, tests: nat, w: World)
    requires t.TestDone? && t.result.TestPassed?
    ensures var h := Mutate(a, t, tests, w);
            && (h.write.EnableWrite? <==> MayPutBack(a, t.observedAutomatic, w.writeRead) && !ShowsOn(w.writeRead))
            && !h.write.DisableWrite? && !h.final.Disabled?
            && (h.final.Enabled? <==> MayPutBack(a, t.observedAutomatic, w.writeRead)
                                      && (ShowsOn(w.writeRead) || Confirmed(w)))
  {
  }

  /** Exactly when an account is sent each write, and exactly when it is reported as disabled or
      enabled: if that write was confirmed, or if the account was that way already. */
  lemma WritesExactly(a: Account, trigger: Trigger, writeback: bool, mayRetry: bool, w: World)
    ensures var h := ExecuteAccount(a, trigger, writeback, mayRetry, w);
            var disables := AsksToDisable(a, trigger, mayRetry, writeback, w);
            var enables := AsksToEnable(a, trigger, mayRetry, writeback, w)
                           && MayPutBack(a, SeenAutomatic(a, w), w.writeRead);
            && (h.write.DisableWrite? <==> disables && MayDisable(w.writeRead))
            && (h.write.EnableWrite? <==> enables && !ShowsOn(w.writeRead))
            && (h.final.Disabled? <==> && disables
                                       && (|| (MayDisable(w.writeRead) && Confirmed(w))
                                           || (Operable(w.writeRead) && ShowsOff(w.writeRead))))
            && (h.final.Enabled? <==> || (enables && (ShowsOn(w.writeRead) || Confirmed(w)))
                                      || (writeback && SomePass(a, mayRetry, writeback, w) && OnlyChecks(a, trigger)))
  {
    if !FirstBroke(a, w) && !a.oauth {
      var first := TestAccount(a, w.firstRead, w.firstReply);
      var t := Retested(a, first, mayRetry, writeback, w);
      var tests := TestCalls(a, first, mayRetry, writeback, w);
      ResultMeans(a, trigger, mayRetry, writeback, w);
      if t.result.TestPassed? { EnableResult(a, t, tests, w); } else { DisableResult(a, t, tests, w); }
    }
  }

  /** The second test is asked for: the first one did not pass and did not break. */
  predicate Retries(a: Account, mayRetry: bool, writeback: bool, w: World) {
    mayRetry && writeback && !RefusedBySnapshot(a) && !FirstBroke(a, w) && !Passes(a, w.firstRead, w.firstReply)
  }

  /** How many upstream tests are called. */
  lemma TestsExactly(a: Account, trigger: Trigger, writeback: bool, mayRetry: bool, w: World)
    ensures ExecuteAccount(a, trigger, writeback, mayRetry, w).tests
            == (if CallsTest(a, w.firstRead) then 1 else 0)
               + (if Retries(a, mayRetry, writeback, w) && CallsTest(a, w.secondRead) then 1 else 0)
  {
    hide DisableAccount, EnableAccount, CallsDisable, CallsEnable;
    if !FirstBroke(a, w) && !a.oauth { CountsIn(a, trigger, mayRetry, writeback, w); }
  }

  /** The run counts the account as tested exactly if its test broke or answered for it. */
  lemma TestedExactly(a: Account, trigger: Trigger, writeback: bool, mayRetry: bool, w: World)
    ensures ExecuteAccount(a, trigger, writeback, mayRetry, w).tested <==>
              FirstBroke(a, w) || Answered(a, w) || SomePass(a, mayRetry, writeback, w)
  {
    hide DisableAccount, EnableAccount, CallsDisable, CallsEnable;
    if !FirstBroke(a, w) && !a.oauth { CountsIn(a, trigger, mayRetry, writeback, w); }
  }

  lemma CountsIn(a: Account, trigger: Trigger, mayRetry: bool, writeback: bool, w: World)
    requires !FirstBroke(a, w) && !a.oauth && TestAccount(a, w.firstRead, w.firstReply).TestDone?
    ensures var first := TestAccount(a, w.firstRead, w.firstReply);
            var t := Retested(a, first, mayRetry, writeback, w);
            var h := Judge(a, trigger, writeback, t, TestCalls(a, first, mayRetry, writeback, w), w);
            && h.tests == TestCalls(a, first, mayRetry, writeback, w)
            && (h.tested <==> Answered(a, w) || SomePass(a, mayRetry, writeback, w))
  {
    var first := TestAccount(a, w.firstRead, w.firstReply);
    MutateAgrees(a, Retested(a, first, mayRetry, writeback, w), TestCalls(a, first, mayRetry, writeback, w), w);
  }

  /** A write was decided on, and the account had to be read for it. */
  predicate ReadsForWrite(a: Account, trigger: Trigger, mayRetry: bool, writeback: bool, w: World) {
    || AsksToDisable(a, trigger, mayRetry, writeback, w)
    || (AsksToEnable(a, trigger, mayRetry, writeback, w)
        && !(a.status.InService? && !a.schedulable && !SeenAutomatic(a, w)))
  }

  lemma StopIn(a: Account, t: TestOutcome, tests: nat, w: World)
    requires t.TestDone?
    ensures var h := Mutate(a, t, tests, w);
            var looked := t.result.TestPassed? ==> !(a.status.InService? && !a.schedulable && !t.observedAutomatic);
            h.stop <==> WriteUnconfirmed(h, w) || (looked && w.writeRead.ReadRaised?)
  {
  }

  /** The run is told to stop exactly if a write went out unconfirmed or the read before it raised. */
  lemma StopsExactly(a: Account, trigger: Trigger, writeback: bool, mayRetry: bool, w: World)
    ensures var h := ExecuteAccount(a, trigger, writeback, mayRetry, w);
            h.stop <==> || WriteUnconfirmed(h, w)
                        || (ReadsForWrite(a, trigger, mayRetry, writeback, w) && w.writeRead.ReadRaised?)
  {
    if !FirstBroke(a, w) && !a.oauth {
      var first := TestAccount(a, w.firstRead, w.firstReply);
      ResultMeans(a, trigger, mayRetry, writeback, w);
      StopIn(a, Retested(a, first, mayRetry, writeback, w), TestCalls(a, first, mayRetry, writeback, w), w);
    }
  }

  /** The first test left the account's state open. */
  predicate LeftOpen(a: Account, w: World) {
    NoVerdict(a, w.firstRead, w.firstReply) || (Answered(a, w) && !w.firstReply.definitive)
  }

  lemma SkippedIn(a: Account, t: TestOutcome, tests: nat, w: World)
    requires t.TestDone?
    ensures var h := Mutate(a, t, tests, w);
            h.final.Skipped? <==>
              if t.result.TestPassed? then
                || (a.status.InService? && !a.schedulable && !t.observedAutomatic)
                || (w.writeRead.Read? && !MayPutBack(a, t.observedAutomatic, w.writeRead))
              else w.writeRead.Read? && !MayDisable(w.writeRead) && !(Operable(w.writeRead) && ShowsOff(w.writeRead))
  {
  }

  lemma OpenMeans(a: Account, mayRetry: bool, writeback: bool, w: World)
    requires !FirstBroke(a, w) && !SomePass(a, mayRetry, writeback, w)
    ensures TestAccount(a, w.firstRead, w.firstReply).TestDone?
    ensures Retested(a, TestAccount(a, w.firstRead, w.firstReply), mayRetry, writeback, w).result.TestUnclear?
       <==> LeftOpen(a, w)
    ensures RefusedBySnapshot(a) ==>
              Retested(a, TestAccount(a, w.firstRead, w.firstReply), mayRetry, writeback, w).result.TestSkipped?
  {
  }

  /** The account counts as skipped exactly if nothing was learnt that calls for a write it may get:
      it was refused; or it may not be written and its state is not open; or a read shows that it must
      be left alone. */
  lemma SkippedExactly(a: Account, trigger: Trigger, writeback: bool, mayRetry: bool, w: World)
    ensures ExecuteAccount(a, trigger, writeback, mayRetry, w).final.Skipped? <==>
              && !FirstBroke(a, w)
              && if SomePass(a, mayRetry, writeback, w) then
                   || !writeback
                   || (AsksToEnable(a, trigger, mayRetry, writeback, w)
                       && (|| (a.status.InService? && !a.schedulable && !SeenAutomatic(a, w))
                           || (w.writeRead.Read? && !MayPutBack(a, SeenAutomatic(a, w), w.writeRead))))
                 else if AsksToDisable(a, trigger, mayRetry, writeback, w) then
                   w.writeRead.Read? && !MayDisable(w.writeRead) && !(Operable(w.writeRead) && ShowsOff(w.writeRead))
                 else !LeftOpen(a, w)
  {
    if !FirstBroke(a, w) && !a.oauth {
      var first := TestAccount(a, w.firstRead, w.firstReply);
      var t := Retested(a, first, mayRetry, writeback, w);
      ResultMeans(a, trigger, mayRetry, writeback, w);
      if !SomePass(a, mayRetry, writeback, w) { OpenMeans(a, mayRetry, writeback, w); }
      SkippedIn(a, t, TestCalls(a, first, mayRetry, writeback, w), w);
    }
  }
}
