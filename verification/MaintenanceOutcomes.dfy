/** Whom a maintenance run proposes and takes out, in terms of the snapshot, the probes, the log rows
    and the answers of the upstream. */
module MaintenanceOutcomes {
  import opened Common
  import opened Counting
  import opened Ordering
  import opened MinimumPool
  import opened MaintenanceCoordinator

  // ----- The channel sweep -----

  /** A probe of this known group failed. */
  predicate Fails(probes: seq<Probe>, known: set<Group>, g: Group) {
    g in known && exists p :: p in probes && p.failing && p.group == Some(g)
  }

  lemma FailedMeans(probes: seq<Probe>, known: set<Group>, g: Group)
    ensures g in FailedGroups(probes, known) <==> Fails(probes, known, g)
  {
  }

  /** Neither expired, nor an OAuth account, nor left alone, and in error or in traffic. */
  predicate MayBeSwept(a: Account, adjusted: set<Id>) {
    && !a.expired && !a.oauth && a.id !in adjusted
    && (a.status.Error? || (a.status.Active? && a.schedulable))
  }

  /** The sweep tests accounts of a failed group all of whose groups are known and monitored. */
  predicate InSweep(a: Account, probes: seq<Probe>, adjusted: set<Id>, known: set<Group>, monitored: set<Group>) {
    && MayBeSwept(a, adjusted)
    && (forall g | g in a.groups :: g in known && g in monitored)
    && exists g | g in a.groups :: Fails(probes, known, g)
  }

  lemma CandidateMeans(a: Account, probes: seq<Probe>, adjusted: set<Id>, known: set<Group>, monitored: set<Group>)
    ensures SweepCandidate(a, FailedGroups(probes, known), adjusted, known, monitored)
       <==> InSweep(a, probes, adjusted, known, monitored)
  {
    var failed := FailedGroups(probes, known);
    forall g ensures g in failed <==> Fails(probes, known, g) { FailedMeans(probes, known, g); }
    hide FailedGroups, Fails;
  }

  function Tested(accounts: seq<Account>, probes: seq<Probe>, adjusted: set<Id>, known: set<Group>,
          monitored: set<Group>): set<nat> {
    Places(accounts, (a: Account) => InSweep(a, probes, adjusted, known, monitored))
  }

  lemma {:induction false} TestedAreCounted(accounts: seq<Account>, probes: seq<Probe>, adjusted: set<Id>,
          known: set<Group>, monitored: set<Group>)
    ensures |SweepPool(accounts, FailedGroups(probes, known), adjusted, known, monitored)|
         == |Tested(accounts, probes, adjusted, known, monitored)|
  {
    if accounts != [] {
      var last := accounts[|accounts| - 1];
      TestedAreCounted(accounts[..|accounts| - 1], probes, adjusted, known, monitored);
      PlacesOneMore(accounts, (a: Account) => InSweep(a, probes, adjusted, known, monitored));
      CandidateMeans(last, probes, adjusted, known, monitored);
      hide FailedGroups, SweepCandidate, InSweep;
    }
  }

  /** The upstream's answer for this account is a clear success, or a clear failure. */
  predicate Passed(id: Id, r: TestResult) { r.id == id && r.success && !r.definitiveFailure }

  predicate FailedForGood(id: Id, r: TestResult) { r.id == id && r.definitiveFailure && !r.success }

  /** An account of the sweep passed its test and serves the group. */
  ghost predicate HasPeer(policy: Policy, probes: seq<Probe>, u: Upstream, adjusted: set<Id>, monitored: set<Group>,
          g: Group) {
    exists b :: b in u.accounts && InSweep(b, probes, adjusted, u.known, monitored) && g in b.groups
                && Passed(b.id, u.test(b.id))
  }

  /** The sweep picks exactly the tested accounts that failed for good while each failed group of
      theirs has an account that passed; none if it is off or would have to test too many. */
  lemma SweptExactly(policy: Policy, probes: seq<Probe>, u: Upstream, adjusted: set<Id>, monitored: set<Group>, id: Id)
    ensures id in Swept(policy, probes, u, adjusted, monitored) <==>
              && policy.sweepEnabled
              && |Tested(u.accounts, probes, adjusted, u.known, monitored)| <= policy.sweepMaxAccounts
              && exists a :: && a in u.accounts && a.id == id && InSweep(a, probes, adjusted, u.known, monitored)
                             && FailedForGood(id, u.test(id))
                             && forall g | g in a.groups && Fails(probes, u.known, g) ::
                                  HasPeer(policy, probes, u, adjusted, monitored, g)
  {
    hide FailedGroups, SweepPool, SweepCandidate, InSweep, Fails, Tested, MayBeSwept;
    var failed := FailedGroups(probes, u.known);
    var pool := SweepPool(u.accounts, failed, adjusted, u.known, monitored);
    SweepPoolFrom(u.accounts, failed, adjusted, u.known, monitored);
    TestedAreCounted(u.accounts, probes, adjusted, u.known, monitored);
    forall a: Account
      ensures SweepCandidate(a, failed, adjusted, u.known, monitored)
         <==> InSweep(a, probes, adjusted, u.known, monitored)
    {
      CandidateMeans(a, probes, adjusted, u.known, monitored);
    }
    forall g ensures g in failed <==> Fails(probes, u.known, g) { FailedMeans(probes, u.known, g); }
    var tests := TestsOf(pool, u.test);
    forall g ensures Healthy(g, pool, tests) <==> HasPeer(policy, probes, u, adjusted, monitored, g) {
      HealthyMeans(policy, probes, u, adjusted, monitored, pool, g);
    }
    forall a | a in pool
      ensures a.id in tests && (tests[a.id].definitiveFailure <==> FailedForGood(a.id, u.test(a.id)))
    {
    }
    hide Healthy, HasPeer, TestsOf, Sanitized, FailedForGood;
    if policy.sweepEnabled && |pool| <= policy.sweepMaxAccounts {
      assert Swept(policy, probes, u, adjusted, monitored)
          == set a | a in pool && SweepTarget(a, failed, pool, tests) :: a.id;
    }
  }

  lemma HealthyMeans(policy: Policy, probes: seq<Probe>, u: Upstream, adjusted: set<Id>, monitored: set<Group>,
          pool: seq<Account>, g: Group)
    requires forall a :: a in pool <==> a in u.accounts && InSweep(a, probes, adjusted, u.known, monitored)
    ensures Healthy(g, pool, TestsOf(pool, u.test)) <==> HasPeer(policy, probes, u, adjusted, monitored, g)
  {
    hide InSweep;
    var tests := TestsOf(pool, u.test);
    forall b | b in pool ensures b.id in tests && (tests[b.id].success <==> Passed(b.id, u.test(b.id))) {
    }
    hide TestsOf, Sanitized, Passed;
  }

  // ----- The log guard -----

  /** A request of this account in the last 180 seconds whose first token came too late. */
  predicate CameLate(log: UsageLog, id: Id, end: int, slowMs: nat) {
    && log.account == id && end - 180 <= log.createdAt && log.createdAt < end
    && log.firstTokenMs.Some? && log.firstTokenMs.value > slowMs
  }

  function LateOnes(logs: seq<UsageLog>, id: Id, end: int, slowMs: nat): set<nat> {
    Places(logs, (log: UsageLog) => CameLate(log, id, end, slowMs))
  }

  lemma {:induction false} LateOnesAreCounted(logs: seq<UsageLog>, id: Id, end: int, slowMs: nat)
    ensures SlowEvents(logs, id, end, slowMs) == |LateOnes(logs, id, end, slowMs)|
  {
    if logs != [] {
      LateOnesAreCounted(logs[..|logs| - 1], id, end, slowMs);
      PlacesOneMore(logs, (log: UsageLog) => CameLate(log, id, end, slowMs));
    }
  }

  /** The account serves: it is available, active, scheduled and not expired. */
  predicate Serves(a: Account) { a.bucket == Available && a.status == Active && a.schedulable && !a.expired }

  /** The log guard picks exactly the serving accounts, not OAuth and not left alone, with groups that
      are all known and monitored, that were late at least three times in the window. */
  lemma SlowExactly(policy: Policy, u: Upstream, now: int, adjusted: set<Id>, monitored: set<Group>, id: Id)
    ensures id in SlowOnes(policy, u, now, adjusted, monitored) <==>
              && policy.guardEnabled && id !in adjusted && |LateOnes(u.logs, id, now, policy.slowMs)| >= 3
              && exists a :: && a in u.accounts && a.id == id && Serves(a) && !a.oauth && a.groups != []
                             && forall g | g in a.groups :: g in u.known && g in monitored
  {
    LateOnesAreCounted(u.logs, id, now, policy.slowMs);
    hide SlowEvents, LateOnes;
  }

  // ----- The disable loop -----

  /** Somebody serves the group who is not gone. */
  predicate IsServed(accounts: seq<Account>, gone: set<Id>, g: Group) {
    exists b :: b in accounts && b.id !in gone && g in b.groups && Serves(b)
  }

  lemma ServedMeans(accounts: seq<Account>, gone: set<Id>, g: Group)
    ensures UsableIds(accounts, gone, g) != {} <==> IsServed(accounts, gone, g)
  {
    if IsServed(accounts, gone, g) {
      var b :| b in accounts && b.id !in gone && g in b.groups && Serves(b);
      assert b.id in UsableIds(accounts, gone, g);
    }
  }

  /** The account is still what its reason asks for, in the groups it was proposed for, all of which
      are known and monitored. */
  predicate StillCalledFor(a: Account, c: Candidate, gone: set<Id>, known: set<Group>, monitored: set<Group>) {
    && (if c.reason == SlowFirstToken then Serves(a) else MayBeSwept(a, gone))
    && a.groups == c.groups && a.groups != [] && forall g | g in a.groups :: g in known && g in monitored
  }

  /** A candidate may be disabled exactly if the newest snapshot still shows an account that is called
      for, and somebody else serves each of its groups. */
  lemma MayDisableMeans(id: Id, c: Candidate, latest: seq<Account>, gone: set<Id>, known: set<Group>,
          monitored: set<Group>)
    requires Snapshot(latest)
    ensures MayDisable(id, c, latest, gone, known, monitored) <==>
              exists a :: && a in latest && a.id == id && StillCalledFor(a, c, gone, known, monitored)
                          && forall g | g in a.groups :: IsServed(latest, gone + {id}, g)
    ensures (Find(latest, id).Some? && StillEligible(Find(latest, id).value, c, gone, known, monitored)) <==>
              exists a :: a in latest && a.id == id && StillCalledFor(a, c, gone, known, monitored)
  {
    FindFinds(latest, id);
    forall a | a in latest && a.id == id ensures Find(latest, id) == Some(a) {
      FindHas(latest, a);
      SameAccount(latest, a, Find(latest, id).value);
    }
    forall g ensures UsableIds(latest, gone + {id}, g) != {} <==> IsServed(latest, gone + {id}, g) {
      ServedMeans(latest, gone + {id}, g);
    }
    hide Find, UsableIds, IsServed, Snapshot;
  }

  /** Which accounts an earlier run disabled that the snapshot shows as closed, and which groups the
      probes are bound to. */
  lemma SourcesMean(accounts: seq<Account>, probes: seq<Probe>, id: Id, g: Group)
    ensures id in ClosedIds(accounts) <==> exists a :: a in accounts && a.id == id && a.bucket == Closed
    ensures g in BoundGroups(probes) <==> exists p :: p in probes && p.group == Some(g)
  {
  }
}
