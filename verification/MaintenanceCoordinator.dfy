/** One maintenance run: who is proposed for disabling, and who is disabled. */
module MaintenanceCoordinator {
  import opened Common
  import opened Ordering
  import opened MinimumPool

  datatype TestResult = TestResult(id: Id, success: bool, definitiveFailure: bool)

  datatype DisableResult = DisableResult(id: Id, success: bool, uncertain: bool)

  datatype Probe = Probe(failing: bool, group: Option<Group>)

  datatype UsageLog = UsageLog(account: Id, createdAt: int, firstTokenMs: Option<nat>)

  datatype Policy = Policy(sweepEnabled: bool, sweepMaxAccounts: nat, guardEnabled: bool, slowMs: nat)

  const SLOW_EVENTS: nat := 3
  const SLOW_WINDOW_SECONDS: nat := 180

  predicate Within(a: Account, groups: set<Group>) {
    forall g | g in a.groups :: g in groups
  }

  // ----- The channel sweep -----

  predicate Eligible(a: Account, adjusted: set<Id>) {
    && a.groups != [] && !a.expired && !a.oauth && a.id !in adjusted
    && !a.status.Inactive? && !a.status.Disabled?
    && !(a.status.Active? && !a.schedulable)
  }

  function FailedGroups(probes: seq<Probe>, known: set<Group>): set<Group> {
    set p | p in probes && p.failing && p.group.Some? && p.group.value in known :: p.group.value
  }

  predicate SweepCandidate(a: Account, failed: set<Group>, adjusted: set<Id>, known: set<Group>,
          monitored: set<Group>) {
    && (exists g | g in a.groups :: g in failed)
    && Eligible(a, adjusted) && Within(a, known) && Within(a, monitored)
  }

  /** A result for another account, or one that claims both verdicts, decides nothing. */
  function Sanitized(id: Id, r: TestResult): TestResult {
    if r.id != id || (r.success && r.definitiveFailure) then TestResult(id, false, false) else r
  }

  /** Some candidate of the group passed its test in this sweep. */
  ghost predicate Healthy(g: Group, candidates: seq<Account>, tests: map<Id, TestResult>) {
    exists b :: b in candidates && g in b.groups && b.id in tests && tests[b.id].success
  }

  ghost predicate SweepTarget(a: Account, failed: set<Group>, candidates: seq<Account>, tests: map<Id, TestResult>) {
    && a in candidates && a.id in tests && tests[a.id].definitiveFailure
    && forall g | g in a.groups && g in failed :: Healthy(g, candidates, tests)
  }

  /** The accounts the sweep looks at, in snapshot order. */
  function SweepPool(accounts: seq<Account>, failed: set<Group>, adjusted: set<Id>, known: set<Group>,
          monitored: set<Group>)
    : seq<Account>
  {
    if accounts == [] then []
    else
      var last := accounts[|accounts| - 1];
      SweepPool(accounts[..|accounts| - 1], failed, adjusted, known, monitored)
      + if SweepCandidate(last, failed, adjusted, known, monitored) then [last] else []
  }

  lemma {:induction false} SweepPoolFrom(accounts: seq<Account>, failed: set<Group>, adjusted: set<Id>,
          known: set<Group>, monitored: set<Group>)
    ensures forall a :: a in SweepPool(accounts, failed, adjusted, known, monitored) <==>
              a in accounts && SweepCandidate(a, failed, adjusted, known, monitored)
  {
    if accounts != [] {
      SweepPoolFrom(accounts[..|accounts| - 1], failed, adjusted, known, monitored);
      assert accounts == accounts[..|accounts| - 1] + [accounts[|accounts| - 1]];
    }
  }

  /** The accounts whose test failed for good while every failed group of theirs has an account
      that passed; none at all when there are too many candidates to test. */
  method ChannelSweep(probes: seq<Probe>, accounts: seq<Account>, adjusted: set<Id>, known: set<Group>,
                      monitored: set<Group>, maxAccounts: nat, gateway: Id -> TestResult)
    returns (targets: seq<Account>, tested: map<Id, TestResult>)
    requires Snapshot(accounts)
    ensures var candidates := SweepPool(accounts, FailedGroups(probes, known), adjusted, known, monitored);
            if |candidates| > maxAccounts then targets == [] && tested == map[]
            else
              && (forall id :: id in tested <==> exists a :: a in candidates && a.id == id)
              && (forall id | id in tested :: tested[id] == Sanitized(id, gateway(id)))
              && (forall a :: a in targets <==> SweepTarget(a, FailedGroups(probes, known), candidates, tested))
  {
    var failed := CollectFailed(probes, known);
    var pool := [];
    var i := 0;
    while i < |accounts|
      invariant 0 <= i <= |accounts|
      invariant pool == SweepPool(accounts[..i], failed, adjusted, known, monitored)
    {
      assert accounts[..i + 1][..i] == accounts[..i];
      if SweepCandidate(accounts[i], failed, adjusted, known, monitored) {
        pool := pool + [accounts[i]];
      }
      i := i + 1;
    }
    assert accounts[..i] == accounts;
    targets, tested := [], map[];
    if |pool| > maxAccounts {
      return;
    }
    tested := TestAll(pool, gateway);
    targets := PickFailing(pool, failed, tested);
  }

  /** The tested accounts that failed for good while each failed group of theirs has one that passed. */
  method PickFailing(pool: seq<Account>, failed: set<Group>, tested: map<Id, TestResult>)
    returns (targets: seq<Account>)
    requires forall a | a in pool :: a.id in tested
    requires forall id | id in tested :: !(tested[id].success && tested[id].definitiveFailure)
    ensures forall a :: a in targets <==> SweepTarget(a, failed, pool, tested)
  {
    targets := [];
    var healthy := HealthyGroups(failed, pool, tested);
    var i := 0;
    while i < |pool|
      invariant 0 <= i <= |pool|
      invariant forall a :: a in targets <==> a in pool[..i] && SweepTarget(a, failed, pool, tested)
    {
      var a := pool[i];
      assert pool[..i + 1] == pool[..i] + [a];
      assert a in pool;
      assert a.id in tested;
      if && !tested[a.id].success && tested[a.id].definitiveFailure
         && forall g | g in a.groups :: g in failed ==> g in healthy {
        targets := targets + [a];
      }
      i := i + 1;
    }
    assert pool[..i] == pool;
  }

  method CollectFailed(probes: seq<Probe>, known: set<Group>) returns (failed: set<Group>)
    ensures failed == FailedGroups(probes, known)
  {
    failed := {};
    var i := 0;
    while i < |probes|
      invariant 0 <= i <= |probes|
      invariant failed == FailedGroups(probes[..i], known)
    {
      var p := probes[i];
      assert probes[..i + 1] == probes[..i] + [p];
      if p.failing && p.group.Some? && p.group.value in known {
        failed := failed + {p.group.value};
      }
      i := i + 1;
    }
    assert probes[..i] == probes;
  }

  method TestAll(pool: seq<Account>, gateway: Id -> TestResult) returns (tested: map<Id, TestResult>)
    ensures forall id :: id in tested <==> exists a :: a in pool && a.id == id
    ensures forall id | id in tested :: tested[id] == Sanitized(id, gateway(id))
  {
    tested := map[];
    var i := 0;
    while i < |pool|
      invariant 0 <= i <= |pool|
      invariant forall id :: id in tested <==> exists j | 0 <= j < i :: pool[j].id == id
      invariant forall id | id in tested :: tested[id] == Sanitized(id, gateway(id))
    {
      tested := tested[pool[i].id := Sanitized(pool[i].id, gateway(pool[i].id))];
      i := i + 1;
    }
    forall id ensures id in tested <==> exists a :: a in pool && a.id == id {
      if id in tested {
        var j :| 0 <= j < |pool| && pool[j].id == id;
        assert pool[j] in pool;
      }
    }
  }

  method HealthyGroups(failed: set<Group>, pool: seq<Account>, tested: map<Id, TestResult>)
    returns (healthy: set<Group>)
    requires forall a | a in pool :: a.id in tested
    ensures forall g :: g in healthy <==> g in failed && Healthy(g, pool, tested)
  {
    healthy := {};
    var i := 0;
    while i < |pool|
      invariant 0 <= i <= |pool|
      invariant forall g :: g in healthy <==> g in failed && Healthy(g, pool[..i], tested)
    {
      var a := pool[i];
      assert pool[..i + 1] == pool[..i] + [a];
      assert a in pool;
      if tested[a.id].success {
        assert forall g | g in a.groups :: Healthy(g, pool[..i + 1], tested);
        healthy := healthy + (set g | g in a.groups && g in failed);
      }
      i := i + 1;
    }
    assert pool[..i] == pool;
  }

  // ----- The log guard -----

  predicate Guarded(a: Account, adjusted: set<Id>, monitored: set<Group>) {
    Usable(a) && !a.oauth && a.groups != [] && Within(a, monitored) && a.id !in adjusted
  }

  predicate SlowEvent(log: UsageLog, id: Id, end: int, slowMs: nat) {
    && log.account == id && end - SLOW_WINDOW_SECONDS <= log.createdAt < end
    && log.firstTokenMs.Some? && log.firstTokenMs.value > slowMs
  }

  function SlowEvents(logs: seq<UsageLog>, id: Id, end: int, slowMs: nat): nat {
    if logs == [] then 0
    else SlowEvents(logs[..|logs| - 1], id, end, slowMs)
         + (if SlowEvent(logs[|logs| - 1], id, end, slowMs) then 1 else 0)
  }

  predicate GuardTarget(a: Account, logs: seq<UsageLog>, end: int, slowMs: nat, adjusted: set<Id>, known: set<Group>,
          monitored: set<Group>) {
    Guarded(a, adjusted, monitored) && Within(a, known) && SlowEvents(logs, a.id, end, slowMs) >= SLOW_EVENTS
  }

  method AccountLogGuard(accounts: seq<Account>, logs: seq<UsageLog>, end: int, slowMs: nat, adjusted: set<Id>,
                         known: set<Group>, monitored: set<Group>)
    returns (targets: seq<Account>)
    ensures forall a :: a in targets <==> a in accounts && GuardTarget(a, logs, end, slowMs, adjusted, known, monitored)
  {
    var guarded := set a | a in accounts && Guarded(a, adjusted, monitored) :: a.id;
    var slow: map<Id, nat> := map[];
    var i := 0;
    while i < |logs|
      invariant 0 <= i <= |logs|
      invariant forall id | id in slow :: id in guarded
      invariant forall id | id in guarded ::
        SlowEvents(logs[..i], id, end, slowMs) == (if id in slow then slow[id] else 0)
    {
      var log := logs[i];
      assert logs[..i + 1][..i] == logs[..i];
      if log.account in guarded && SlowEvent(log, log.account, end, slowMs) {
        slow := slow[log.account := (if log.account in slow then slow[log.account] else 0) + 1];
      }
      i := i + 1;
    }
    assert logs[..i] == logs;
    targets := [];
    i := 0;
    while i < |accounts|
      invariant 0 <= i <= |accounts|
      invariant forall a :: a in targets <==>
        a in accounts[..i] && GuardTarget(a, logs, end, slowMs, adjusted, known, monitored)
    {
      var a := accounts[i];
      assert accounts[..i + 1] == accounts[..i] + [a];
      if Guarded(a, adjusted, monitored) {
        assert a.id in guarded;
        if a.id in slow && slow[a.id] >= SLOW_EVENTS && Within(a, known) {
          targets := targets + [a];
        }
      }
      i := i + 1;
    }
    assert accounts[..i] == accounts;
  }

  // ----- The disable loop -----

  datatype Reason = ChannelTestFailed | SlowFirstToken

  datatype Candidate = Candidate(groups: seq<Group>, reason: Reason)

  datatype Notice =
    | AmbiguousMapping(id: Id)
    | MinPoolProtected(id: Id, blocking: seq<Group>)
    | StateUncertain(id: Id)

  /** Accounts disabled, notices in order, and every disable call that was made. */
  datatype Report = Report(adjustments: seq<Id>, notices: seq<Notice>, calls: seq<Id>)

  function Find(accounts: seq<Account>, id: Id): Option<Account> {
    if accounts == [] then None
    else if accounts[0].id == id then Some(accounts[0])
    else Find(accounts[1..], id)
  }

  lemma {:induction false} FindFinds(accounts: seq<Account>, id: Id)
    ensures Find(accounts, id).Some? ==> Find(accounts, id).value in accounts && Find(accounts, id).value.id == id
  {
    if accounts != [] && accounts[0].id != id {
      FindFinds(accounts[1..], id);
      assert forall a :: a in accounts[1..] ==> a in accounts;
    }
  }

  function Clean(id: Id, r: DisableResult): DisableResult {
    if r.id != id || (r.success && r.uncertain) then DisableResult(id, false, true) else r
  }

  /** The upstream answered for this account and verified that it is disabled. */
  predicate Verified(id: Id, r: DisableResult) { r.id == id && r.success && !r.uncertain }

  /** The upstream answered for another account, or does not know. */
  predicate Doubtful(id: Id, r: DisableResult) { r.id != id || r.uncertain }

  lemma CleanMeans(id: Id, r: DisableResult)
    ensures Clean(id, r).success <==> Verified(id, r)
    ensures Clean(id, r).uncertain <==> Doubtful(id, r)
  {
  }

  /** `view` is `latest` except for accounts that are already excluded. */
  ghost predicate Agrees(view: seq<Account>, latest: seq<Account>, adjusted: set<Id>) {
    && |view| == |latest| && Snapshot(view)
    && forall i | 0 <= i < |view| ::
         view[i].id == latest[i].id && view[i].groups == latest[i].groups
         && (latest[i].id !in adjusted ==> view[i] == latest[i])
  }

  lemma AgreesUsable(view: seq<Account>, latest: seq<Account>, adjusted: set<Id>, excluded: set<Id>, g: Group)
    requires Agrees(view, latest, adjusted) && adjusted <= excluded
    ensures UsableIds(view, excluded, g) == UsableIds(latest, excluded, g)
  {
    hide Snapshot, Usable;
    forall x ensures x in UsableIds(view, excluded, g) <==> x in UsableIds(latest, excluded, g) {
      if x in UsableIds(view, excluded, g) {
        var a :| a in view && Counts(a, excluded, g) && a.id == x;
        var i :| 0 <= i < |view| && view[i] == a;
        assert latest[i] in latest && Counts(latest[i], excluded, g);
      }
      if x in UsableIds(latest, excluded, g) {
        var a :| a in latest && Counts(a, excluded, g) && a.id == x;
        var i :| 0 <= i < |latest| && latest[i] == a;
        assert view[i] in view && Counts(view[i], excluded, g);
      }
    }
  }

  lemma AgreesAfterClose(view: seq<Account>, latest: seq<Account>, adjusted: set<Id>, id: Id)
    requires Agrees(view, latest, adjusted)
    ensures Agrees(Close(view, id), latest, adjusted + {id})
  {
    CloseExcludes(view, {}, id, 0);
  }

  /** Every group of the account keeps somebody who serves it besides `gone`. */
  ghost predicate GroupsServed(latest: seq<Account>, gone: set<Id>, id: Id) {
    Find(latest, id).Some? && forall g | g in Find(latest, id).value.groups :: UsableIds(latest, gone, g) != {}
  }

  /** Taking `id` out keeps served every group that was served and is not one of its own. */
  lemma ServedElsewhere(latest: seq<Account>, gone: set<Id>, id: Id, g: Group)
    requires UsableIds(latest, gone, g) != {}
    requires forall a | a in latest && a.id == id :: g !in a.groups
    ensures UsableIds(latest, gone + {id}, g) != {}
  {
    var x :| x in UsableIds(latest, gone, g);
    var a :| a in latest && Counts(a, gone, g) && a.id == x;
    assert Counts(a, gone + {id}, g);
    assert x in UsableIds(latest, gone + {id}, g);
  }

  /** The pool check on the remembered view decides exactly whether, in the latest snapshot, each
      group of the account keeps somebody else who serves it. */
  lemma PoolDecides(pool: MinimumUsablePool, view: seq<Account>, latest: seq<Account>, adjusted: set<Id>, a: Account,
          g: Group)
    requires Snapshot(latest) && Agrees(view, latest, adjusted) && Describes(pool.counts, view, adjusted)
    requires a in view && a.id !in adjusted && g in a.groups
    ensures pool.Spares(g, a) <==> UsableIds(latest, adjusted + {a.id}, g) != {}
  {
    assert Known(view, g);
    CountAfterExclusion(view, adjusted, a, g);
    AgreesUsable(view, latest, adjusted, adjusted + {a.id}, g);
  }

  /** What happens to one candidate. */
  datatype Outcome =
    | Ambiguous
    | Protected(blocking: seq<Group>)
    | Called(result: DisableResult)

  predicate StillEligible(a: Account, c: Candidate, adjusted: set<Id>, known: set<Group>, monitored: set<Group>) {
    && (if c.reason.SlowFirstToken? then Usable(a) else Eligible(a, adjusted))
    && a.groups == c.groups && a.groups != [] && Within(a, known) && Within(a, monitored)
  }

  /** The account is still what made it a candidate, and each of its groups keeps somebody else. */
  ghost predicate MayDisable(id: Id, c: Candidate, latest: seq<Account>, gone: set<Id>, known: set<Group>,
          monitored: set<Group>) {
    && Find(latest, id).Some? && StillEligible(Find(latest, id).value, c, gone, known, monitored)
    && GroupsServed(latest, gone + {id}, id)
  }

  /** The groups of the account that would be left with nobody who serves them. */
  ghost predicate AreBlocking(blocking: seq<Group>, id: Id, latest: seq<Account>, gone: set<Id>) {
    && Find(latest, id).Some?
    && forall g :: g in blocking <==> g in Find(latest, id).value.groups && UsableIds(latest, gone + {id}, g) == {}
  }

  method DisableOne(id: Id, c: Candidate, view: seq<Account>, ghost latest: seq<Account>, adjusted: set<Id>,
                    known: set<Group>, monitored: set<Group>, disable: Id -> DisableResult)
    returns (outcome: Outcome, nextView: seq<Account>, nextAdjusted: set<Id>)
    requires Snapshot(latest) && Agrees(view, latest, adjusted) && id !in adjusted
    ensures Find(view, id) == Find(latest, id)
    ensures outcome.Ambiguous? <==>
              !(Find(latest, id).Some? && StillEligible(Find(latest, id).value, c, adjusted, known, monitored))
    ensures Justified(id, outcome, latest, adjusted, disable)
    ensures outcome.Called? <==> MayDisable(id, c, latest, adjusted, known, monitored)
    ensures outcome.Protected? ==> AreBlocking(outcome.blocking, id, latest, adjusted)
    ensures nextAdjusted == adjusted + (if outcome.Called? && outcome.result.success then {id} else {})
    ensures Agrees(nextView, latest, nextAdjusted)
  {
    FindAgrees(view, latest, adjusted, id);
    FindFinds(view, id);
    nextView, nextAdjusted := view, adjusted;
    var found := Find(view, id);
    if found.None? || !StillEligible(found.value, c, adjusted, known, monitored) {
      outcome := Ambiguous;
      return;
    }
    var a := found.value;
    var pool := new MinimumUsablePool(view, adjusted);
    forall g | g in a.groups ensures pool.Spares(g, a) <==> UsableIds(latest, adjusted + {id}, g) != {} {
      PoolDecides(pool, view, latest, adjusted, a, g);
    }
    var ok := pool.CanDisable(a);
    if !ok {
      var blocking := pool.BlockingGroupIds(a);
      var g :| g in a.groups && !pool.Spares(g, a);
      assert g in blocking;
      outcome := Protected(blocking);
      return;
    }
    var result := Clean(id, disable(id));
    outcome := Called(result);
    if result.success {
      AgreesAfterClose(view, latest, adjusted, id);
      nextAdjusted := adjusted + {id};
      nextView := Close(view, id);
    }
  }

  lemma {:induction false} FindAgrees(view: seq<Account>, latest: seq<Account>, adjusted: set<Id>, id: Id)
    requires |view| == |latest| && id !in adjusted
    requires forall i | 0 <= i < |view| ::
      view[i].id == latest[i].id && (latest[i].id !in adjusted ==> view[i] == latest[i])
    ensures Find(view, id) == Find(latest, id)
  {
    if view != [] && view[0].id != id {
      FindAgrees(view[1..], latest[1..], adjusted, id);
    }
  }

  lemma KeepServed(latest: seq<Account>, gone: set<Id>, other: Id, id: Id)
    requires Snapshot(latest) && GroupsServed(latest, gone, other) && GroupsServed(latest, gone + {id}, id)
    ensures GroupsServed(latest, gone + {id}, other)
  {
    FindFinds(latest, id);
    var a := Find(latest, id).value;
    forall g | g in Find(latest, other).value.groups ensures UsableIds(latest, gone + {id}, g) != {} {
      if g !in a.groups {
        forall b | b in latest && b.id == id ensures g !in b.groups { SameAccount(latest, a, b); }
        ServedElsewhere(latest, gone, id, g);
      }
    }
  }

  lemma StillBlocked(latest: seq<Account>, fewer: set<Id>, more: set<Id>, g: Group)
    requires fewer <= more
    ensures UsableIds(latest, more, g) <= UsableIds(latest, fewer, g)
  {
    forall x | x in UsableIds(latest, more, g) ensures x in UsableIds(latest, fewer, g) {
      var a :| a in latest && Counts(a, more, g) && a.id == x;
      assert Counts(a, fewer, g);
    }
  }

  /** The report after one more candidate. */
  function Noted(report: Report, id: Id, outcome: Outcome): Report {
    match outcome
    case Ambiguous => report.(notices := report.notices + [AmbiguousMapping(id)])
    case Protected(blocking) => report.(notices := report.notices + [MinPoolProtected(id, blocking)])
    case Called(result) =>
      Report(if result.success then report.adjustments + [id] else report.adjustments,
             if result.uncertain then report.notices + [StateUncertain(id)] else report.notices,
             report.calls + [id])
  }

  ghost predicate Blocks(n: Notice, latest: seq<Account>, gone: set<Id>) {
    n.MinPoolProtected? ==>
      n.blocking != [] && forall g | g in n.blocking :: UsableIds(latest, gone + {n.id}, g) == {}
  }

  /** The notices only ever grow, and every candidate leaves a trace. */
  ghost predicate Accounted(ids: seq<Id>, k: nat, report: Report)
    requires k <= |ids|
  {
    forall id | id in ids[..k] :: id in report.calls || exists n :: n in report.notices && n.id == id
  }

  /** What the disable loop has done after `k` candidates without an uncertain write. */
  ghost predicate Progress(ids: seq<Id>, k: nat, report: Report, latest: seq<Account>, adjusted: set<Id>,
          disable: Id -> DisableResult)
    requires k <= |ids|
  {
    && (forall id | id in report.calls :: id in ids[..k] && !Clean(id, disable(id)).uncertain)
    && IsAscending(report.calls)
    && (forall id :: id in report.adjustments <==> id in report.calls && Clean(id, disable(id)).success)
    && (forall id | id in report.adjustments :: GroupsServed(latest, adjusted + Elements(report.adjustments), id))
    && (forall n | n in report.notices :: Blocks(n, latest, adjusted + Elements(report.adjustments)))
    && Accounted(ids, k, report)
  }

  /** Accounts the run may have taken out of traffic: verified or not. */
  function Gone(calls: seq<Id>, disable: Id -> DisableResult): set<Id> {
    set id | id in calls && (Clean(id, disable(id)).success || Clean(id, disable(id)).uncertain)
  }

  /** What DisableOne found out about the candidate at `k`. */
  ghost predicate Justified(id: Id, outcome: Outcome, latest: seq<Account>, gone: set<Id>,
          disable: Id -> DisableResult) {
    && (outcome.Protected? ==> Blocks(MinPoolProtected(id, outcome.blocking), latest, gone))
    && (outcome.Called? ==> outcome.result == Clean(id, disable(id)) && GroupsServed(latest, gone + {id}, id))
  }

  lemma AccountedMore(ids: seq<Id>, k: nat, report: Report, outcome: Outcome)
    requires k < |ids| && IsAscending(ids) && Accounted(ids, k, report)
    ensures Accounted(ids, k + 1, Noted(report, ids[k], outcome))
  {
    BelowAt(ids, k);
    var after := Noted(report, ids[k], outcome);
    forall id | id in ids[..k + 1] ensures id in after.calls || exists n :: n in after.notices && n.id == id {
      if id == ids[k] {
        if !outcome.Called? { assert after.notices[|report.notices|].id == id; }
      } else if id !in report.calls {
        var n :| n in report.notices && n.id == id;
        assert n in after.notices;
      }
    }
  }

  lemma CallsGrow(ids: seq<Id>, k: nat, calls: seq<Id>)
    requires k < |ids| && IsAscending(ids) && IsAscending(calls) && forall id | id in calls :: id in ids[..k]
    ensures IsAscending(calls + [ids[k]]) && ids[k] !in calls
    ensures forall id | id in calls + [ids[k]] :: id in ids[..k + 1]
  {
    BelowAt(ids, k);
    AppendAscending(calls, ids[k]);
  }

  lemma NoticesStay(notices: seq<Notice>, latest: seq<Account>, gone: set<Id>, id: Id)
    requires forall n | n in notices :: Blocks(n, latest, gone)
    ensures forall n | n in notices :: Blocks(n, latest, gone + {id})
  {
    forall n | n in notices && n.MinPoolProtected? ensures Blocks(n, latest, gone + {id}) {
      forall g | g in n.blocking ensures UsableIds(latest, gone + {id} + {n.id}, g) == {} {
        StillBlocked(latest, gone + {n.id}, gone + {id} + {n.id}, g);
      }
    }
  }

  lemma ProgressMore(ids: seq<Id>, k: nat, report: Report, outcome: Outcome, latest: seq<Account>, adjusted: set<Id>,
          disable: Id -> DisableResult)
    requires Snapshot(latest) && k < |ids| && IsAscending(ids)
    requires Progress(ids, k, report, latest, adjusted, disable)
    requires Justified(ids[k], outcome, latest, adjusted + Elements(report.adjustments), disable)
    requires outcome.Called? ==> !outcome.result.uncertain
    ensures Progress(ids, k + 1, Noted(report, ids[k], outcome), latest, adjusted, disable)
  {
    var id, gone := ids[k], adjusted + Elements(report.adjustments);
    BelowAt(ids, k);
    AccountedMore(ids, k, report, outcome);
    CallsGrow(ids, k, report.calls);
    if outcome.Called? && outcome.result.success {
      assert adjusted + Elements(report.adjustments + [id]) == gone + {id};
      NoticesStay(report.notices, latest, gone, id);
      forall other | other in report.adjustments ensures GroupsServed(latest, gone + {id}, other) {
        KeepServed(latest, gone, other, id);
      }
    }
  }

  /** The promises of a finished run, stopped by an uncertain write or not. */
  ghost predicate RunKept(candidates: set<Id>, report: Report, stopped: bool, latest: seq<Account>, adjusted: set<Id>,
          disable: Id -> DisableResult) {
    // Calls in id order, each candidate at most once; only the last may be uncertain.
    && IsAscending(report.calls) && Elements(report.calls) <= candidates
    && (forall i | 0 <= i < |report.calls| - 1 :: !Clean(report.calls[i], disable(report.calls[i])).uncertain)
    && (stopped <==> exists id :: id in report.calls && Clean(id, disable(id)).uncertain)
    && (forall id :: id in report.adjustments <==> id in report.calls && Clean(id, disable(id)).success)
    // Every group of an account that may be out of traffic is still served by somebody else.
    && (forall id | id in Gone(report.calls, disable) ::
         GroupsServed(latest, adjusted + Gone(report.calls, disable), id))
    // Only accounts whose loss would have emptied a group were protected.
    && (forall n | n in report.notices :: Blocks(n, latest, adjusted + Gone(report.calls, disable)))
    && (!stopped ==> forall id | id in candidates ::
         id in report.calls || exists n :: n in report.notices && n.id == id)
  }

  lemma Finished(ids: seq<Id>, candidates: set<Id>, report: Report, latest: seq<Account>, adjusted: set<Id>,
          disable: Id -> DisableResult)
    requires Progress(ids, |ids|, report, latest, adjusted, disable)
    requires forall id :: id in ids <==> id in candidates
    ensures RunKept(candidates, report, false, latest, adjusted, disable)
  {
    assert ids[..|ids|] == ids;
    assert Gone(report.calls, disable) == Elements(report.adjustments);
  }

  /** The last call could not be verified: its account counts as gone, too. */
  lemma Stopped(ids: seq<Id>, candidates: set<Id>, k: nat, report: Report, outcome: Outcome, latest: seq<Account>,
          adjusted: set<Id>, disable: Id -> DisableResult)
    requires Snapshot(latest) && k < |ids| && IsAscending(ids) && forall id :: id in ids <==> id in candidates
    requires Progress(ids, k, report, latest, adjusted, disable)
    requires Justified(ids[k], outcome, latest, adjusted + Elements(report.adjustments), disable)
    requires outcome.Called? && outcome.result.uncertain && !outcome.result.success
    ensures RunKept(candidates, Noted(report, ids[k], outcome), true, latest, adjusted, disable)
  {
    var id, gone := ids[k], adjusted + Elements(report.adjustments);
    var after := Noted(report, id, outcome);
    BelowAt(ids, k);
    CallsGrow(ids, k, report.calls);
    hide Blocks, GroupsServed, Snapshot;
    assert Gone(after.calls, disable) == Elements(report.adjustments) + {id};
    assert adjusted + Gone(after.calls, disable) == gone + {id};
    NoticesStay(report.notices, latest, gone, id);
    forall other | other in report.adjustments ensures GroupsServed(latest, gone + {id}, other) {
      KeepServed(latest, gone, other, id);
    }
    assert after.calls[|report.calls|] == id;
    assert forall i | 0 <= i < |report.calls| :: report.calls[i] in report.calls;
  }

  /** The accounts verified as disabled before it was this one's turn. */
  function Earlier(adjustments: seq<Id>, id: Id): set<Id> { set x | x in adjustments && x < id }

  /** An uncertain result stopped the loop before this account's turn. */
  predicate StoppedBefore(calls: seq<Id>, disable: Id -> DisableResult, id: Id) {
    exists x | x in calls :: x < id && Clean(x, disable(x)).uncertain
  }

  /** A candidate whose turn came was disabled exactly if it still might be then; else the run notes
      that it is no longer what it was, or which of its groups need it.  An answer that leaves doubt
      is noted, too. */
  ghost predicate Fated(id: Id, c: Candidate, report: Report, latest: seq<Account>, adjusted: set<Id>,
                        known: set<Group>, monitored: set<Group>, disable: Id -> DisableResult) {
    var gone := adjusted + Earlier(report.adjustments, id);
    var eligible := Find(latest, id).Some? && StillEligible(Find(latest, id).value, c, gone, known, monitored);
    && (id in report.calls <==> MayDisable(id, c, latest, gone, known, monitored))
    && (AmbiguousMapping(id) in report.notices <==> !eligible)
    && ((exists n :: n in report.notices && n.MinPoolProtected? && n.id == id) <==> eligible && id !in report.calls)
    && (forall n | n in report.notices && n.MinPoolProtected? && n.id == id ::
          AreBlocking(n.blocking, id, latest, gone))
    && (StateUncertain(id) in report.notices <==> id in report.calls && Doubtful(id, disable(id)))
  }

  ghost predicate FatedSoFar(ids: seq<Id>, k: nat, candidates: map<Id, Candidate>, report: Report, latest: seq<Account>,
                             adjusted: set<Id>, known: set<Group>, monitored: set<Group>, disable: Id -> DisableResult)
    requires k <= |ids|
  {
    && (forall n | n in report.notices :: n.id in ids[..k])
    && forall j | 0 <= j < k :: ids[j] in candidates ==>
         Fated(ids[j], candidates[ids[j]], report, latest, adjusted, known, monitored, disable)
  }

  lemma NotesOthers(report: Report, last: Id, outcome: Outcome, n: Notice)
    requires n.id != last
    ensures n in Noted(report, last, outcome).notices <==> n in report.notices
  {
  }

  lemma FateStays(id: Id, c: Candidate, report: Report, last: Id, outcome: Outcome, latest: seq<Account>,
          adjusted: set<Id>, known: set<Group>, monitored: set<Group>, disable: Id -> DisableResult)
    requires id < last && Fated(id, c, report, latest, adjusted, known, monitored, disable)
    ensures Fated(id, c, Noted(report, last, outcome), latest, adjusted, known, monitored, disable)
  {
    hide StillEligible, MayDisable, AreBlocking;
    var after := Noted(report, last, outcome);
    assert Earlier(after.adjustments, id) == Earlier(report.adjustments, id);
    assert id in after.calls <==> id in report.calls;
    forall n: Notice | n.id == id ensures n in after.notices <==> n in report.notices {
      NotesOthers(report, last, outcome, n);
    }
    hide Noted;
  }

  /** What is known of the candidate when its turn ends. */
  ghost predicate Found(id: Id, c: Candidate, outcome: Outcome, latest: seq<Account>, gone: set<Id>, known: set<Group>,
          monitored: set<Group>, disable: Id -> DisableResult) {
    && (outcome.Called? <==> MayDisable(id, c, latest, gone, known, monitored))
    && (outcome.Ambiguous? <==>
          !(Find(latest, id).Some? && StillEligible(Find(latest, id).value, c, gone, known, monitored)))
    && (outcome.Protected? ==> AreBlocking(outcome.blocking, id, latest, gone))
    && (outcome.Called? ==> outcome.result == Clean(id, disable(id)))
  }

  lemma FateSet(id: Id, c: Candidate, report: Report, outcome: Outcome, latest: seq<Account>, adjusted: set<Id>,
                known: set<Group>, monitored: set<Group>, disable: Id -> DisableResult)
    requires forall x | x in report.adjustments :: x < id
    requires id !in report.calls && forall n | n in report.notices :: n.id != id
    requires Found(id, c, outcome, latest, adjusted + Elements(report.adjustments), known, monitored, disable)
    ensures Fated(id, c, Noted(report, id, outcome), latest, adjusted, known, monitored, disable)
  {
    var after := Noted(report, id, outcome);
    assert Earlier(after.adjustments, id) == Elements(report.adjustments);
    CleanMeans(id, disable(id));
    var news: seq<Notice> := match outcome
      case Ambiguous => [AmbiguousMapping(id)]
      case Protected(blocking) => [MinPoolProtected(id, blocking)]
      case Called(result) => if result.uncertain then [StateUncertain(id)] else [];
    assert report.notices + [] == report.notices;
    assert after.notices == report.notices + news && (id in after.calls <==> outcome.Called?);
    hide StillEligible, MayDisable, AreBlocking, Clean, Doubtful, Noted;
  }

  lemma FatedMore(ids: seq<Id>, k: nat, candidates: map<Id, Candidate>, report: Report, outcome: Outcome,
          latest: seq<Account>, adjusted: set<Id>, known: set<Group>, monitored: set<Group>,
          disable: Id -> DisableResult)
    requires k < |ids| && IsAscending(ids) && ids[k] in candidates
    requires Progress(ids, k, report, latest, adjusted, disable)
    requires FatedSoFar(ids, k, candidates, report, latest, adjusted, known, monitored, disable)
    requires Found(ids[k], candidates[ids[k]], outcome, latest, adjusted + Elements(report.adjustments), known,
                   monitored, disable)
    ensures FatedSoFar(ids, k + 1, candidates, Noted(report, ids[k], outcome), latest, adjusted, known, monitored,
                       disable)
  {
    BelowAt(ids, k);
    FateSet(ids[k], candidates[ids[k]], report, outcome, latest, adjusted, known, monitored, disable);
    forall j | 0 <= j < k && ids[j] in candidates
      ensures Fated(ids[j], candidates[ids[j]], Noted(report, ids[k], outcome), latest, adjusted, known, monitored,
                    disable)
    {
      FateStays(ids[j], candidates[ids[j]], report, ids[k], outcome, latest, adjusted, known, monitored, disable);
    }
    forall n | n in Noted(report, ids[k], outcome).notices ensures n.id in ids[..k + 1] {
      if n.id != ids[k] { NotesOthers(report, ids[k], outcome, n); }
    }
  }

  /** Every candidate's fate, but for those an uncertain result left without a turn. */
  ghost predicate FateIsExact(candidates: map<Id, Candidate>, report: Report, latest: seq<Account>, adjusted: set<Id>,
                              known: set<Group>, monitored: set<Group>, disable: Id -> DisableResult) {
    forall id | id in candidates :: !StoppedBefore(report.calls, disable, id) ==>
      Fated(id, candidates[id], report, latest, adjusted, known, monitored, disable)
  }

  lemma FateBegins(ids: seq<Id>, candidates: map<Id, Candidate>, report: Report, latest: seq<Account>,
                   adjusted: set<Id>, known: set<Group>, monitored: set<Group>, disable: Id -> DisableResult)
    requires report.notices == []
    ensures FatedSoFar(ids, 0, candidates, report, latest, adjusted, known, monitored, disable)
  {
  }

  lemma FateEnds(ids: seq<Id>, k: nat, candidates: map<Id, Candidate>, report: Report, latest: seq<Account>,
          adjusted: set<Id>, known: set<Group>, monitored: set<Group>, disable: Id -> DisableResult)
    requires k <= |ids| && IsAscending(ids) && forall id | id in candidates :: id in ids
    requires FatedSoFar(ids, k, candidates, report, latest, adjusted, known, monitored, disable)
    requires k < |ids| ==> k > 0 && ids[k - 1] in report.calls && Clean(ids[k - 1], disable(ids[k - 1])).uncertain
    ensures FateIsExact(candidates, report, latest, adjusted, known, monitored, disable)
  {
    hide Fated;
    assert forall j | k <= j < |ids| :: ids[k - 1] < ids[j];
    forall id | id in candidates && !StoppedBefore(report.calls, disable, id)
      ensures Fated(id, candidates[id], report, latest, adjusted, known, monitored, disable)
    {
      var j :| 0 <= j < |ids| && ids[j] == id;
    }
  }

  /** The loop's running state: the report, the remembered view and the accounts left alone. */
  ghost predicate InStep(ids: seq<Id>, k: nat, report: Report, view: seq<Account>, taken: set<Id>,
                         latest: seq<Account>, adjusted: set<Id>, disable: Id -> DisableResult)
    requires k <= |ids|
  {
    && Progress(ids, k, report, latest, adjusted, disable)
    && taken == adjusted + Elements(report.adjustments)
    && Agrees(view, latest, taken)
  }

  lemma InStepEnds(ids: seq<Id>, candidates: set<Id>, report: Report, view: seq<Account>, taken: set<Id>,
                   latest: seq<Account>, adjusted: set<Id>, disable: Id -> DisableResult)
    requires InStep(ids, |ids|, report, view, taken, latest, adjusted, disable)
    requires forall id :: id in ids <==> id in candidates
    ensures RunKept(candidates, report, false, latest, adjusted, disable)
  {
    Finished(ids, candidates, report, latest, adjusted, disable);
  }

  lemma InStepMore(ids: seq<Id>, k: nat, report: Report, outcome: Outcome, view: seq<Account>, taken: set<Id>,
                   nextView: seq<Account>, nextTaken: set<Id>,
                   latest: seq<Account>, adjusted: set<Id>, disable: Id -> DisableResult)
    requires Snapshot(latest) && k < |ids| && IsAscending(ids)
    requires InStep(ids, k, report, view, taken, latest, adjusted, disable)
    requires Justified(ids[k], outcome, latest, taken, disable) && (outcome.Called? ==> !outcome.result.uncertain)
    requires nextTaken == taken + (if outcome.Called? && outcome.result.success then {ids[k]} else {})
    requires Agrees(nextView, latest, nextTaken)
    ensures InStep(ids, k + 1, Noted(report, ids[k], outcome), nextView, nextTaken, latest, adjusted, disable)
  {
    ProgressMore(ids, k, report, outcome, latest, adjusted, disable);
    ElementsAppend(report.adjustments, ids[k]);
  }

  lemma NotTakenYet(ids: seq<Id>, k: nat, report: Report, view: seq<Account>, taken: set<Id>,
                    latest: seq<Account>, adjusted: set<Id>, disable: Id -> DisableResult)
    requires k < |ids| && IsAscending(ids) && Elements(ids) !! adjusted
    requires InStep(ids, k, report, view, taken, latest, adjusted, disable)
    ensures ids[k] !in taken
  {
    CallsGrow(ids, k, report.calls);
    assert ids[k] in Elements(ids);
  }

  lemma Starts(ids: seq<Id>, latest: seq<Account>, adjusted: set<Id>, disable: Id -> DisableResult)
    requires Snapshot(latest)
    ensures InStep(ids, 0, Report([], [], []), latest, adjusted, latest, adjusted, disable)
  {
    assert adjusted + Elements([]) == adjusted;
  }

  /** One turn of the loop. */
  method DisableNext(ids: seq<Id>, k: nat, candidates: map<Id, Candidate>, report: Report, view: seq<Account>,
          taken: set<Id>, ghost latest: seq<Account>, ghost adjusted: set<Id>, known: set<Group>, monitored: set<Group>,
          disable: Id -> DisableResult)
    returns (next: Report, nextView: seq<Account>, nextTaken: set<Id>, stopped: bool)
    requires Snapshot(latest) && k < |ids| && IsAscending(ids) && Elements(ids) !! adjusted
    requires InStep(ids, k, report, view, taken, latest, adjusted, disable) && ids[k] in candidates
    requires FatedSoFar(ids, k, candidates, report, latest, adjusted, known, monitored, disable)
    ensures stopped ==> RunKept(Elements(ids), next, true, latest, adjusted, disable)
    ensures stopped ==> ids[k] in next.calls && Clean(ids[k], disable(ids[k])).uncertain
    ensures !stopped ==> InStep(ids, k + 1, next, nextView, nextTaken, latest, adjusted, disable)
    ensures FatedSoFar(ids, k + 1, candidates, next, latest, adjusted, known, monitored, disable)
  {
    NotTakenYet(ids, k, report, view, taken, latest, adjusted, disable);
    var outcome;
    outcome, nextView, nextTaken :=
      DisableOne(ids[k], candidates[ids[k]], view, latest, taken, known, monitored, disable);
    next := Noted(report, ids[k], outcome);
    FatedMore(ids, k, candidates, report, outcome, latest, adjusted, known, monitored, disable);
    stopped := outcome.Called? && outcome.result.uncertain;
    if stopped {
      Stopped(ids, Elements(ids), k, report, outcome, latest, adjusted, disable);
    } else {
      InStepMore(ids, k, report, outcome, view, taken, nextView, nextTaken, latest, adjusted, disable);
    }
  }

  /** The adjustments are the verified calls; only a doubtful answer stops the loop, so a plain refusal
      does not. */
  ghost predicate AnswersDecide(report: Report, stopped: bool, disable: Id -> DisableResult) {
    && (forall id :: id in report.adjustments <==> id in report.calls && Verified(id, disable(id)))
    && (stopped <==> exists id :: id in report.calls && Doubtful(id, disable(id)))
  }

  lemma KeptAnswers(candidates: set<Id>, report: Report, stopped: bool, latest: seq<Account>, adjusted: set<Id>,
          disable: Id -> DisableResult)
    requires RunKept(candidates, report, stopped, latest, adjusted, disable)
    ensures AnswersDecide(report, stopped, disable)
  {
    forall id ensures Clean(id, disable(id)).success <==> Verified(id, disable(id)) { CleanMeans(id, disable(id)); }
    forall id ensures Clean(id, disable(id)).uncertain <==> Doubtful(id, disable(id)) { CleanMeans(id, disable(id)); }
  }

  /** Disable the candidates in id order until one write cannot be verified. */
  method DisableLoop(candidates: map<Id, Candidate>, latest: seq<Account>, adjusted: set<Id>, known: set<Group>,
                     monitored: set<Group>, disable: Id -> DisableResult)
    returns (report: Report, stopped: bool)
    requires Snapshot(latest) && candidates.Keys !! adjusted
    ensures RunKept(candidates.Keys, report, stopped, latest, adjusted, disable)
    ensures FateIsExact(candidates, report, latest, adjusted, known, monitored, disable)
    ensures AnswersDecide(report, stopped, disable)
  {
    hide RunKept, InStep, Snapshot, FatedSoFar, FateIsExact;
    var ids := Ascending(candidates.Keys);
    AscendingOrder(candidates.Keys);
    SameElements(ids, candidates.Keys);
    Starts(ids, latest, adjusted, disable);
    report := Report([], [], []);
    FateBegins(ids, candidates, report, latest, adjusted, known, monitored, disable);
    stopped := false;
    var view, taken := latest, adjusted;
    var k := 0;
    while k < |ids| && !stopped
      invariant 0 <= k <= |ids|
      invariant stopped ==> RunKept(candidates.Keys, report, true, latest, adjusted, disable)
      invariant !stopped ==> InStep(ids, k, report, view, taken, latest, adjusted, disable)
      invariant FatedSoFar(ids, k, candidates, report, latest, adjusted, known, monitored, disable)
      invariant stopped ==> k > 0 && ids[k - 1] in report.calls && Clean(ids[k - 1], disable(ids[k - 1])).uncertain
    {
      report, view, taken, stopped :=
        DisableNext(ids, k, candidates, report, view, taken, latest, adjusted, known, monitored, disable);
      k := k + 1;
    }
    if !stopped {
      InStepEnds(ids, candidates.Keys, report, view, taken, latest, adjusted, disable);
    }
    FateEnds(ids, k, candidates, report, latest, adjusted, known, monitored, disable);
    KeptAnswers(candidates.Keys, report, stopped, latest, adjusted, disable);
  }

  // ----- The whole run -----

  /** What the upstream answers during one run. */
  datatype Upstream = Upstream(
    accounts: seq<Account>,
    known: set<Group>,
    logs: seq<UsageLog>,
    latest: seq<Account>,
    test: Id -> TestResult,
    disable: Id -> DisableResult)

  function ClosedIds(accounts: seq<Account>): set<Id> {
    set a | a in accounts && a.bucket.Closed? :: a.id
  }

  function BoundGroups(probes: seq<Probe>): set<Group> {
    set p | p in probes && p.group.Some? :: p.group.value
  }

  function TestsOf(pool: seq<Account>, gateway: Id -> TestResult): map<Id, TestResult> {
    map id | id in (set a | a in pool :: a.id) :: Sanitized(id, gateway(id))
  }

  /** The accounts the sweep picks. */
  ghost function Swept(policy: Policy, probes: seq<Probe>, u: Upstream, adjusted: set<Id>,
          monitored: set<Group>): set<Id> {
    var failed := FailedGroups(probes, u.known);
    var pool := SweepPool(u.accounts, failed, adjusted, u.known, monitored);
    if !policy.sweepEnabled || |pool| > policy.sweepMaxAccounts then {}
    else set a | a in pool && SweepTarget(a, failed, pool, TestsOf(pool, u.test)) :: a.id
  }

  /** The accounts the log guard picks. */
  ghost function SlowOnes(policy: Policy, u: Upstream, now: int, adjusted: set<Id>, monitored: set<Group>): set<Id> {
    if !policy.guardEnabled then {}
    else set a | a in u.accounts && GuardTarget(a, u.logs, now, policy.slowMs, adjusted, u.known, monitored) :: a.id
  }

  lemma CandidateGroups(targets: seq<Account>, accounts: seq<Account>, reason: Reason, id: Id)
    requires (forall a | a in targets :: a in accounts) && id in CandidatesOf(targets, reason)
    ensures exists a :: a in accounts && a.id == id && CandidatesOf(targets, reason)[id] == Candidate(a.groups, reason)
  {
    var a :| a in targets && a.id == id;
    FindHas(targets, a);
    FindFinds(targets, id);
    assert Find(targets, id).value in accounts;
  }

  lemma {:induction false} FindHas(accounts: seq<Account>, a: Account)
    requires a in accounts
    ensures Find(accounts, a.id).Some?
  {
    if accounts[0].id != a.id {
      assert a in accounts[1..];
      FindHas(accounts[1..], a);
    }
  }

  function CandidatesOf(targets: seq<Account>, reason: Reason): map<Id, Candidate> {
    map id | id in (set a | a in targets :: a.id) :: Candidate(GroupsOf(targets, id), reason)
  }

  function GroupsOf(targets: seq<Account>, id: Id): seq<Group> {
    if Find(targets, id).Some? then Find(targets, id).value.groups else []
  }

  /** The ids of these targets, all accounts of the snapshot that nobody excluded. */
  ghost predicate AreTargets(targets: seq<Account>, ids: set<Id>, accounts: seq<Account>, adjusted: set<Id>) {
    && (set a | a in targets :: a.id) == ids
    && forall a | a in targets :: a in accounts && a.id !in adjusted
  }

  method PickSwept(policy: Policy, probes: seq<Probe>, u: Upstream, adjusted: set<Id>,
          monitored: set<Group>)
    returns (targets: seq<Account>)
    requires Snapshot(u.accounts)
    ensures AreTargets(targets, Swept(policy, probes, u, adjusted, monitored), u.accounts, adjusted)
  {
    targets := [];
    if policy.sweepEnabled {
      ghost var failed := FailedGroups(probes, u.known);
      ghost var pool := SweepPool(u.accounts, failed, adjusted, u.known, monitored);
      SweepPoolFrom(u.accounts, failed, adjusted, u.known, monitored);
      var tested;
      targets, tested :=
        ChannelSweep(probes, u.accounts, adjusted, u.known, monitored, policy.sweepMaxAccounts, u.test);
      if |pool| <= policy.sweepMaxAccounts {
        assert tested == TestsOf(pool, u.test);
      }
    }
  }

  method PickSlow(policy: Policy, u: Upstream, now: int, adjusted: set<Id>,
          monitored: set<Group>)
    returns (targets: seq<Account>)
    ensures AreTargets(targets, SlowOnes(policy, u, now, adjusted, monitored), u.accounts, adjusted)
  {
    targets := [];
    if policy.guardEnabled {
      targets := AccountLogGuard(u.accounts, u.logs, now, policy.slowMs, adjusted, u.known, monitored);
    }
  }

  /** A candidate carries its account's groups; the sweep's reason wins for an account in both. */
  ghost predicate AreCandidates(candidates: map<Id, Candidate>, swept: set<Id>, slow: set<Id>, accounts: seq<Account>) {
    && candidates.Keys == swept + slow
    && forall id | id in candidates ::
         IsCandidate(candidates[id], id, if id in swept then ChannelTestFailed else SlowFirstToken, accounts)
  }

  ghost predicate IsCandidate(c: Candidate, id: Id, reason: Reason, accounts: seq<Account>) {
    exists a :: a in accounts && a.id == id && c == Candidate(a.groups, reason)
  }

  lemma MergedCandidates(guarded: seq<Account>, swept: seq<Account>, slowIds: set<Id>, sweptIds: set<Id>,
                         accounts: seq<Account>, adjusted: set<Id>)
    requires AreTargets(guarded, slowIds, accounts, adjusted) && AreTargets(swept, sweptIds, accounts, adjusted)
    ensures var merged := CandidatesOf(guarded, SlowFirstToken) + CandidatesOf(swept, ChannelTestFailed);
            AreCandidates(merged, sweptIds, slowIds, accounts) && merged.Keys !! adjusted
  {
    var fromLogs, fromSweep := CandidatesOf(guarded, SlowFirstToken), CandidatesOf(swept, ChannelTestFailed);
    var merged := fromLogs + fromSweep;
    forall id | id in merged
      ensures IsCandidate(merged[id], id, if id in sweptIds then ChannelTestFailed else SlowFirstToken, accounts)
    {
      if id in sweptIds {
        CandidateGroups(swept, accounts, ChannelTestFailed, id);
      } else {
        CandidateGroups(guarded, accounts, SlowFirstToken, id);
      }
    }
  }

  class Coordinator {
    /** Accounts earlier runs disabled or were told to leave alone. */
    var disabledIds: set<Id>

    constructor ()
      ensures disabledIds == {}
    {
      disabledIds := {};
    }

    /** One run over both candidate sources. */
    method Run(policy: Policy, probes: seq<Probe>, upstream: Upstream, now: int, excluded: set<Id>,
               excludedGroups: set<Group>)
      returns (report: Report, stopped: bool, ghost adjusted: set<Id>, ghost candidates: map<Id, Candidate>)
      requires Snapshot(upstream.accounts) && Snapshot(upstream.latest)
      modifies this
      ensures adjusted == old(disabledIds) * ClosedIds(upstream.accounts) + excluded
      ensures var known, monitored := upstream.known, upstream.known + BoundGroups(probes) - excludedGroups;
              if known == {} then candidates == map[]
              else AreCandidates(candidates, Swept(policy, probes, upstream, adjusted, monitored),
                                 SlowOnes(policy, upstream, now, adjusted, monitored), upstream.accounts)
      ensures candidates.Keys !! adjusted
      ensures RunKept(candidates.Keys, report, stopped, upstream.latest, adjusted, upstream.disable)
      ensures FateIsExact(candidates, report, upstream.latest, adjusted, upstream.known,
                          upstream.known + BoundGroups(probes) - excludedGroups, upstream.disable)
      ensures if (policy.sweepEnabled || policy.guardEnabled) && upstream.known != {}
              then disabledIds == adjusted + Elements(report.adjustments)
              else disabledIds == old(disabledIds) && report.calls == []
    {
      report, stopped := Report([], [], []), false;
      adjusted, candidates := disabledIds * ClosedIds(upstream.accounts) + excluded, map[];
      if !policy.sweepEnabled && !policy.guardEnabled {
        return;
      }
      if upstream.known == {} {
        return;
      }
      var monitored := upstream.known + BoundGroups(probes) - excludedGroups;
      var taken := disabledIds * ClosedIds(upstream.accounts) + excluded;
      var swept := PickSwept(policy, probes, upstream, taken, monitored);
      var guarded := PickSlow(policy, upstream, now, taken, monitored);
      var merged := CandidatesOf(guarded, SlowFirstToken) + CandidatesOf(swept, ChannelTestFailed);
      MergedCandidates(guarded, swept, SlowOnes(policy, upstream, now, taken, monitored),
                       Swept(policy, probes, upstream, taken, monitored), upstream.accounts, taken);
      candidates := merged;
      report, stopped := DisableLoop(merged, upstream.latest, taken, upstream.known, monitored, upstream.disable);
      disabledIds := taken + Elements(report.adjustments);
    }
  }

  /** A swept account always has a healthy peer in each of its failed groups: somebody else
      whose test passed in the same sweep. */
  lemma SweptHasPeer(a: Account, failed: set<Group>, candidates: seq<Account>, tests: map<Id, TestResult>,
                     gateway: Id -> TestResult, g: Group)
    returns (peer: Account)
    requires forall id | id in tests :: tests[id] == Sanitized(id, gateway(id))
    requires SweepTarget(a, failed, candidates, tests) && g in a.groups && g in failed
    ensures peer in candidates && g in peer.groups && peer.id != a.id && peer.id in tests && tests[peer.id].success
  {
    peer :| peer in candidates && g in peer.groups && peer.id in tests && tests[peer.id].success;
  }
}
