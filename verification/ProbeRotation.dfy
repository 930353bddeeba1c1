/** Which markers one maintenance run probes, and why no marker waits forever. */
module ProbeRotation {
  import opened Common
  import opened Ordering
  import opened QuarantineTables

  type Markers = map<Id, Marker>

  /** Markers probed in one run. */
  const BATCH: nat := 5

  /** The order of the probe query: never probed first, then the oldest probe, then the oldest
      quarantine, then the account id. */
  predicate Before(a: Marker, ida: Id, b: Marker, idb: Id) {
    if a.lastProbeAt.None? != b.lastProbeAt.None? then a.lastProbeAt.None?
    else if a.lastProbeAt.Some? && a.lastProbeAt.value != b.lastProbeAt.value
    then a.lastProbeAt.value < b.lastProbeAt.value
    else if a.quarantinedAt != b.quarantinedAt then a.quarantinedAt < b.quarantinedAt
    else ida < idb
  }

  ghost predicate IsFirst(markers: Markers, id: Id) {
    id in markers && forall other | other in markers && other != id :: Before(markers[id], id, markers[other], other)
  }

  lemma {:induction false} FirstExists(markers: Markers) returns (id: Id)
    requires markers != map[]
    ensures IsFirst(markers, id)
    decreases |markers|
  {
    id :| id in markers;
    var rest := markers - {id};
    if rest != map[] {
      RemovedSize(markers, id);
      var other := FirstExists(rest);
      if Before(rest[other], other, markers[id], id) {
        assert IsFirst(markers, other) by {
          forall x | x in markers && x != other ensures Before(markers[other], other, markers[x], x) {
            if x != id { assert x in rest; }
          }
        }
        id := other;
      } else {
        assert IsFirst(markers, id) by {
          forall x | x in markers && x != id ensures Before(markers[id], id, markers[x], x) {
            assert x in rest && (x == other || Before(rest[other], other, rest[x], x));
          }
        }
      }
    } else {
      assert forall x | x in markers :: x == id || x in rest;
    }
  }

  function First(markers: Markers): (id: Id)
    requires markers != map[]
    ensures IsFirst(markers, id)
  {
    assert exists id :: IsFirst(markers, id) by {
      var id := FirstExists(markers);
    }
    var id :| id in markers && forall other | other in markers && other != id ::
                                 Before(markers[id], id, markers[other], other);
    id
  }

  /** The first `limit` markers of the probe order. */
  function ForProbe(markers: Markers, limit: nat): seq<Id>
    decreases limit
  {
    if limit == 0 || markers == map[] then []
    else [First(markers)] + ForProbe(markers - {First(markers)}, limit - 1)
  }

  /** `chosen` is a batch of the first markers: full if it can be, and ahead of all others. */
  ghost predicate IsBatch(markers: Markers, chosen: set<Id>, limit: nat) {
    && chosen <= markers.Keys
    && |chosen| == (if |markers| < limit then |markers| else limit)
    && forall a, b | a in chosen && b in markers && b !in chosen :: Before(markers[a], a, markers[b], b)
  }

  lemma ElementsOfCons(id: Id, rows: seq<Id>)
    ensures Elements([id] + rows) == {id} + Elements(rows)
  {
  }

  lemma NobodyIsBatch(markers: Markers, limit: nat)
    requires limit == 0 || markers == map[]
    ensures IsBatch(markers, {}, limit)
  {
  }

  lemma {:induction false} ForProbeIsBatch(markers: Markers, limit: nat, chosen: set<Id>)
    requires chosen == Elements(ForProbe(markers, limit))
    ensures IsBatch(markers, chosen, limit)
    decreases limit
  {
    if limit == 0 || markers == map[] {
      assert chosen == {};
      NobodyIsBatch(markers, limit);
    } else {
      var id := First(markers);
      var rest := markers - {id};
      var tail := ForProbe(rest, limit - 1);
      var others := Elements(tail);
      assert ForProbe(markers, limit) == [id] + tail;
      ForProbeIsBatch(rest, limit - 1, others);
      ElementsOfCons(id, tail);
      FirstThenBatch(markers, id, others, limit, chosen);
    }
  }

  lemma FirstThenBatch(markers: Markers, id: Id, tail: set<Id>, limit: nat, chosen: set<Id>)
    requires limit > 0 && IsFirst(markers, id) && IsBatch(markers - {id}, tail, limit - 1)
    requires chosen == {id} + tail
    ensures IsBatch(markers, chosen, limit)
  {
    RemovedSize(markers, id);
    assert id !in tail;
    forall a, b | a in chosen && b in markers && b !in chosen
      ensures Before(markers[a], a, markers[b], b)
    {
      if a != id { assert b in markers - {id}; }
    }
  }

  // ----- One run -----

  datatype Attempt = Attempt(recovered: bool, result: ProbeResult, latencyMs: Option<nat>, probedAt: int)

  /** An attempt the registry accepts for this marker. */
  predicate Acceptable(m: Marker, a: Attempt) {
    a.recovered
    || (ValidAttempt(a.result, a.latencyMs)
        && (a.result.Passing? ==>
            m.reason.SlowFirstToken? && AtMost(a.latencyMs, m.thresholdMs) && !m.lastResult.Passing?))
  }

  /** Probing `chosen` with a clock not before `now` removes or restamps exactly those rows. */
  ghost predicate Probed(before: Markers, after: Markers, chosen: set<Id>, now: int) {
    && after.Keys <= before.Keys
    && (forall id | id in before && id !in chosen :: id in after && after[id] == before[id])
    && (forall id | id in after && id in chosen ::
         after[id].lastProbeAt.Some? && after[id].lastProbeAt.value >= now)
  }

  lemma ProbedOneMore(before: Markers, mid: Markers, after: Markers, chosen: seq<Id>, i: nat, now: int)
    requires i < |chosen| && Probed(before, mid, Elements(chosen[..i]), now) && Probed(mid, after, {chosen[i]}, now)
    ensures Probed(before, after, Elements(chosen[..i + 1]), now)
  {
    assert chosen[..i + 1] == chosen[..i] + [chosen[i]];
    assert Elements(chosen[..i + 1]) == Elements(chosen[..i]) + {chosen[i]};
  }

  /** One attempt.  A recovered account has begun its restore, which is completed here; any
      other attempt is recorded. */
  method ProbeOne(registry: QuarantineRegistry, id: Id, attempt: Attempt, ghost now: int)
    requires registry.Valid() && id in registry.markers && Acceptable(registry.markers[id], attempt)
    requires attempt.recovered ==> id in registry.restores
    requires attempt.probedAt >= now
    modifies registry
    ensures registry.Valid() && registry.intents == old(registry.intents)
    ensures Probed(old(registry.markers), registry.markers, {id}, now)
    ensures id in registry.markers <==> !attempt.recovered
    ensures forall other | other in old(registry.restores) && other != id :: other in registry.restores
  {
    if attempt.recovered {
      var _ := registry.CompleteAccountQuarantineRestore(id);
    } else {
      UpdateProbeKeeps(registry.Rows(), id, attempt.probedAt, attempt.latencyMs, attempt.result);
      var _ := registry.UpdateAccountQuarantineProbe(id, attempt.probedAt, attempt.latencyMs, attempt.result);
    }
  }

  /** Probe the chosen markers one after the other. */
  method ProbeSelected(registry: QuarantineRegistry, chosen: seq<Id>, attempts: seq<Attempt>, ghost now: int)
    requires registry.Valid()
    requires |attempts| == |chosen| && forall i, j | 0 <= i < j < |chosen| :: chosen[i] != chosen[j]
    requires forall i | 0 <= i < |chosen| ::
      && chosen[i] in registry.markers && Acceptable(registry.markers[chosen[i]], attempts[i])
      && (attempts[i].recovered ==> chosen[i] in registry.restores)
      && attempts[i].probedAt >= now
    modifies registry
    ensures registry.Valid()
    ensures Probed(old(registry.markers), registry.markers, Elements(chosen), now)
    ensures forall i | 0 <= i < |chosen| :: chosen[i] in registry.markers <==> !attempts[i].recovered
    ensures registry.intents == old(registry.intents)
  {
    ghost var before := registry.markers;
    var i := 0;
    while i < |chosen|
      invariant 0 <= i <= |chosen|
      invariant registry.Valid() && registry.intents == old(registry.intents)
      invariant Probed(before, registry.markers, Elements(chosen[..i]), now)
      invariant forall j | 0 <= j < i :: chosen[j] in registry.markers <==> !attempts[j].recovered
      invariant forall j | i <= j < |chosen| ::
        && chosen[j] in registry.markers && registry.markers[chosen[j]] == before[chosen[j]]
        && (attempts[j].recovered ==> chosen[j] in registry.restores)
    {
      ghost var mid := registry.markers;
      ProbeOne(registry, chosen[i], attempts[i], now);
      ProbedOneMore(before, mid, registry.markers, chosen, i, now);
      i := i + 1;
    }
    assert chosen[..i] == chosen;
  }

  // ----- Many runs -----

  /** One run: what it chose and the markers it left. */
  datatype RunRecord = RunRecord(chosen: set<Id>, after: Markers)

  /** Runs from `start` with no new markers and a clock ahead of every probe stored at the start. */
  ghost predicate Runs(start: Markers, runs: seq<RunRecord>, clock: int) {
    forall i | 0 <= i < |runs| ::
      && IsBatch(AfterRuns(start, runs[..i]), runs[i].chosen, BATCH)
      && Probed(AfterRuns(start, runs[..i]), runs[i].after, runs[i].chosen, clock)
  }

  function ProbedSoFar(runs: seq<RunRecord>): set<Id> {
    if runs == [] then {} else ProbedSoFar(runs[..|runs| - 1]) + runs[|runs| - 1].chosen
  }

  ghost predicate ClockAhead(start: Markers, clock: int) {
    forall id | id in start && start[id].lastProbeAt.Some? :: start[id].lastProbeAt.value < clock
  }

  /** Markers not probed yet are still there, untouched; every other one is stamped at or
      after the clock, so it comes later in the order. */
  ghost predicate Rotated(start: Markers, now: Markers, probed: set<Id>, clock: int) {
    && now.Keys <= start.Keys
    && (forall id | id in start && id !in probed :: id in now && now[id] == start[id])
    && (forall id | id in now && id in probed :: now[id].lastProbeAt.Some? && now[id].lastProbeAt.value >= clock)
  }

  lemma StampedComesLater(stamped: Marker, id: Id, waiting: Marker, other: Id, clock: int)
    requires stamped.lastProbeAt.Some? && stamped.lastProbeAt.value >= clock
    requires waiting.lastProbeAt.Some? ==> waiting.lastProbeAt.value < clock
    ensures !Before(stamped, id, waiting, other)
  {
  }

  /** A batch takes unprobed markers before any probed one. */
  lemma BatchPrefersWaiting(start: Markers, now: Markers, probed: set<Id>, chosen: set<Id>, clock: int)
    requires Rotated(start, now, probed, clock) && ClockAhead(start, clock) && IsBatch(now, chosen, BATCH)
    ensures var waiting := start.Keys - probed;
            chosen <= waiting || waiting <= chosen
  {
    var waiting := start.Keys - probed;
    if a :| a in chosen && a !in waiting {
      forall b | b in waiting ensures b in chosen {
        StampedComesLater(now[a], a, now[b], b, clock);
      }
    }
  }

  lemma {:induction false} WaitingShrinks(start: Markers, now: Markers, probed: set<Id>, chosen: set<Id>, clock: int)
    requires Rotated(start, now, probed, clock) && ClockAhead(start, clock) && IsBatch(now, chosen, BATCH)
    requires probed <= start.Keys
    ensures |probed + chosen| >= (if |probed| + BATCH < |start| then |probed| + BATCH else |start|)
  {
    var waiting := start.Keys - probed;
    assert waiting <= now.Keys;
    SubsetSize(waiting, now.Keys);
    SubsetSize(probed, start.Keys);
    BatchPrefersWaiting(start, now, probed, chosen, clock);
    if waiting <= chosen {
      assert start.Keys <= probed + chosen;
      SubsetSize(start.Keys, probed + chosen);
    } else {
      SubsetSize(chosen, waiting);
      assert |probed + chosen| == |probed| + |chosen|;
    }
  }

  lemma RotatedAgain(start: Markers, now: Markers, after: Markers, probed: set<Id>, chosen: set<Id>, clock: int)
    requires Rotated(start, now, probed, clock) && Probed(now, after, chosen, clock)
    ensures Rotated(start, after, probed + chosen, clock)
  {
  }

  function AfterRuns(start: Markers, runs: seq<RunRecord>): Markers {
    if runs == [] then start else runs[|runs| - 1].after
  }

  /** k runs probe at least min(5k, n) distinct markers. */
  lemma {:induction false} RotationAfter(start: Markers, runs: seq<RunRecord>, clock: int)
    requires Runs(start, runs, clock) && ClockAhead(start, clock)
    ensures Rotated(start, AfterRuns(start, runs), ProbedSoFar(runs), clock)
    ensures ProbedSoFar(runs) <= start.Keys
    ensures |ProbedSoFar(runs)| >= (if BATCH * |runs| < |start| then BATCH * |runs| else |start|)
    decreases |runs|
  {
    if runs != [] {
      var most, last := runs[..|runs| - 1], runs[|runs| - 1];
      forall i | 0 <= i < |most|
        ensures most[i] == runs[i] && AfterRuns(start, most[..i]) == AfterRuns(start, runs[..i])
      {
        assert most[..i] == runs[..i];
      }
      RotationAfter(start, most, clock);
      assert runs[..|most|] == most;
      WaitingShrinks(start, AfterRuns(start, most), ProbedSoFar(most), last.chosen, clock);
      RotatedAgain(start, AfterRuns(start, most), last.after, ProbedSoFar(most), last.chosen, clock);
    }
  }

  /** Fairness: after enough runs to cover n markers five at a time, every one of them has
      been probed. */
  lemma {:induction false} EveryMarkerIsProbed(start: Markers, runs: seq<RunRecord>, clock: int)
    requires Runs(start, runs, clock) && ClockAhead(start, clock)
    requires BATCH * |runs| >= |start|
    ensures ProbedSoFar(runs) == start.Keys
  {
    RotationAfter(start, runs, clock);
    SubsetSize(ProbedSoFar(runs), start.Keys);
    assert start.Keys - ProbedSoFar(runs) == {};
  }

  /** The probe order: what was never probed first; then by last probe, quarantine time and id. */
  lemma BeforeMeans(a: Marker, ida: Id, b: Marker, idb: Id)
    ensures Before(a, ida, b, idb) <==>
              || (a.lastProbeAt.None? && b.lastProbeAt.Some?)
              || (a.lastProbeAt.Some? && b.lastProbeAt.Some? && a.lastProbeAt.value < b.lastProbeAt.value)
              || (a.lastProbeAt == b.lastProbeAt && a.quarantinedAt < b.quarantinedAt)
              || (a.lastProbeAt == b.lastProbeAt && a.quarantinedAt == b.quarantinedAt && ida < idb)
  {
  }

  /** The attempts that this module asks for are those that the registry accepts. */
  lemma AcceptedAttempts(t: Tables, id: Id, a: Attempt)
    requires WellFormed(t) && id in t.markers && !a.recovered && ValidAttempt(a.result, a.latencyMs)
    ensures Acceptable(t.markers[id], a) <==> UpdateProbe(t, id, a.probedAt, a.latencyMs, a.result).Ok?
  {
    UpdateProbeKeeps(t, id, a.probedAt, a.latencyMs, a.result);
  }
}
