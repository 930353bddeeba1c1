/** The three quarantine tables of the service database and their transactions.

    Every transaction is atomic.  `Tables` is the value of the three tables; the class
    `QuarantineRegistry` is the repository object that updates them in place. */
module QuarantineTables {
  import opened Common

  type Id = nat

  /** Markers and intents together never exceed this many rows. */
  const CAPACITY: nat := 10_000

  const MAX_LATENCY_MS: nat := 3_600_000

  datatype Status = Active | Error | Inactive | Disabled

  /** What one account readback shows. */
  datatype Account = Account(status: Status, schedulable: bool) {
    /** The account is out of traffic by status, whatever its dispatch switch says. */
    predicate Off() { status.Inactive? || status.Disabled? }
  }

  datatype Reason = SlowFirstToken | ChannelTestFailed

  datatype ProbeResult = Never | Passing | Recovered | Failed | Slow | Invalid

  datatype Marker = Marker(
    reason: Reason,
    thresholdMs: nat,
    observedCount: nat,
    quarantinedAt: int,
    lastProbeAt: Option<int>,
    lastLatencyMs: Option<nat>,
    lastResult: ProbeResult,
    streak: nat)

  datatype Intent = Intent(
    reason: Reason,
    thresholdMs: nat,
    observedCount: nat,
    previous: Account,
    createdAt: int)

  /** `restores` maps an account to the time its restore intent was written. */
  datatype Tables = Tables(
    markers: map<Id, Marker>,
    intents: map<Id, Intent>,
    restores: map<Id, int>)
  {
    /** An account this service still keeps track of. */
    predicate Held(id: Id) { id in markers || id in intents }
  }

  const EMPTY := Tables(map[], map[], map[])

  datatype Failure = DataInvalid | TransitionConflict | CapacityReached | NotFound | ProbeRejected

  /** The record validator: a row that fails it cannot be parsed back. */
  predicate ValidMarker(m: Marker) {
    && 1 <= m.thresholdMs <= MAX_LATENCY_MS
    && 1 <= m.observedCount <= 1_000_000
    && (m.lastLatencyMs.Some? ==> m.lastLatencyMs.value <= MAX_LATENCY_MS)
    && (if m.lastResult.Never?
        then m.lastProbeAt.None? && m.lastLatencyMs.None?
        else m.lastProbeAt.Some?)
    && (m.lastResult.Slow? ==> m.lastLatencyMs.Some?)
    && (if m.lastResult.Passing?
        then m.reason.SlowFirstToken? && m.streak == 1 && AtMost(m.lastLatencyMs, m.thresholdMs)
        else m.streak == 0)
  }

  predicate ValidIntent(i: Intent) {
    && 1 <= i.thresholdMs <= MAX_LATENCY_MS
    && 1 <= i.observedCount <= 1_000_000
    && !i.previous.Off()
  }

  /** A probe attempt as the attempt validator accepts it and the scheduler records it. */
  predicate ValidAttempt(result: ProbeResult, latencyMs: Option<nat>) {
    && !result.Never? && !result.Recovered?
    && (result.Passing? || result.Slow? ==> latencyMs.Some?)
    && (latencyMs.Some? ==> latencyMs.value <= MAX_LATENCY_MS)
  }

  /** What every transaction keeps. */
  ghost predicate WellFormed(t: Tables) {
    && t.markers.Keys !! t.intents.Keys
    && t.restores.Keys <= t.markers.Keys
    && |t.markers| + |t.intents| <= CAPACITY
    && (forall id | id in t.markers :: ValidMarker(t.markers[id]))
    && (forall id | id in t.intents :: ValidIntent(t.intents[id]))
  }

  // ----- The transactions, as functions on the tables -----

  function UpsertIntent(t: Tables, id: Id, intent: Intent): Result<Tables, Failure> {
    if id in t.markers && id in t.intents then Err(DataInvalid)
    else if id in t.markers then Err(TransitionConflict)
    else if id in t.intents then Ok(t)
    else if |t.markers| + |t.intents| >= CAPACITY then Err(CapacityReached)
    else Ok(t.(intents := t.intents[id := intent]))
  }

  function NewMarker(i: Intent): Marker {
    Marker(i.reason, i.thresholdMs, i.observedCount, i.createdAt, None, None, Never, 0)
  }

  /** Move the intent to the markers; a marker that is already there wins. */
  function Promote(t: Tables, id: Id): Tables {
    if id !in t.intents then t
    else
      var markers := if id in t.markers then t.markers else t.markers[id := NewMarker(t.intents[id])];
      t.(markers := markers, intents := t.intents - {id})
  }

  function RemoveIntent(t: Tables, id: Id): Tables {
    t.(intents := t.intents - {id})
  }

  function BeginRestore(t: Tables, id: Id, now: int): Result<Tables, Failure> {
    if id !in t.markers then Err(NotFound)
    else if id in t.restores then Ok(t)
    else Ok(t.(restores := t.restores[id := now]))
  }

  /** Deleting the marker cascades to its restore intent. */
  function CompleteRestore(t: Tables, id: Id): Tables {
    if id in t.restores && id in t.markers
    then t.(markers := t.markers - {id}, restores := t.restores - {id})
    else t
  }

  function CancelRestore(t: Tables, id: Id): Tables {
    t.(restores := t.restores - {id})
  }

  function EffectiveProbeTime(m: Marker, probedAt: int): int {
    if m.lastProbeAt.Some? && probedAt <= m.lastProbeAt.value then m.lastProbeAt.value + 1 else probedAt
  }

  function UpdateProbe(t: Tables, id: Id, probedAt: int, latencyMs: Option<nat>, result: ProbeResult)
    : Result<Tables, Failure>
  {
    if result.Never? then Err(ProbeRejected)
    else if id !in t.markers then Err(NotFound)
    else
      var m := t.markers[id];
      if result.Passing? && (!m.reason.SlowFirstToken? || !AtMost(latencyMs, m.thresholdMs) || m.streak != 0)
      then Err(ProbeRejected)
      else if result.Slow? && latencyMs.None? then Err(ProbeRejected)
      else
        var updated := m.(lastProbeAt := Some(EffectiveProbeTime(m, probedAt)),
                          lastLatencyMs := latencyMs,
                          lastResult := result,
                          streak := if result.Passing? then 1 else 0);
        Ok(t.(markers := t.markers[id := updated]))
  }

  // ----- What the transactions keep -----

  lemma AddedSize<V>(m: map<Id, V>, id: Id, v: V)
    requires id !in m
    ensures |m[id := v]| == |m| + 1
  {
    assert (m[id := v]).Keys == m.Keys + {id};
  }

  lemma RemovedSize<V>(m: map<Id, V>, id: Id)
    requires id in m
    ensures |m - {id}| == |m| - 1
  {
    assert (m - {id}).Keys == m.Keys - {id};
    assert |m.Keys - {id}| == |m.Keys| - 1;
  }

  lemma {:induction false} UpsertIntentKeeps(t: Tables, id: Id, intent: Intent)
    requires WellFormed(t) && ValidIntent(intent)
    ensures var r := UpsertIntent(t, id, intent);
            r.Ok? ==> WellFormed(r.value) && id in r.value.intents && r.value.markers == t.markers
  {
    if !t.Held(id) {
      AddedSize(t.intents, id, intent);
    }
  }

  /** A new intent is accepted exactly for an account that already has one, or for an account
      without any row while there is room. */
  lemma UpsertIntentAccepts(t: Tables, id: Id, intent: Intent)
    requires WellFormed(t)
    ensures UpsertIntent(t, id, intent).Ok?
       <==> id in t.intents || (!t.Held(id) && |t.markers| + |t.intents| < CAPACITY)
  {
  }

  lemma {:induction false} PromoteKeeps(t: Tables, id: Id)
    requires WellFormed(t) && id in t.intents
    ensures WellFormed(Promote(t, id))
    ensures Promote(t, id).markers == t.markers[id := NewMarker(t.intents[id])]
    ensures forall other :: Promote(t, id).Held(other) <==> t.Held(other)
    ensures |Promote(t, id).markers| + |Promote(t, id).intents| == |t.markers| + |t.intents|
  {
    RemovedSize(t.intents, id);
    AddedSize(t.markers, id, NewMarker(t.intents[id]));
  }

  lemma {:induction false} RemoveIntentKeeps(t: Tables, id: Id)
    requires WellFormed(t)
    ensures WellFormed(RemoveIntent(t, id))
    ensures forall other | other != id :: RemoveIntent(t, id).Held(other) <==> t.Held(other)
    ensures RemoveIntent(t, id).Held(id) <==> id in t.markers
  {
    hide ValidMarker, ValidIntent;
    if id in t.intents {
      RemovedSize(t.intents, id);
    } else {
      assert t.intents - {id} == t.intents;
    }
  }

  lemma {:induction false} CompleteRestoreKeeps(t: Tables, id: Id)
    requires WellFormed(t)
    ensures WellFormed(CompleteRestore(t, id))
    ensures forall other | other != id :: CompleteRestore(t, id).Held(other) <==> t.Held(other)
    ensures id in t.restores ==> !CompleteRestore(t, id).Held(id)
  {
    if id in t.restores {
      RemovedSize(t.markers, id);
    }
  }

  /** A recorded attempt is refused only when the account has no marker or a second passing
      probe is recorded instead of restoring; probe times of a marker strictly increase. */
  lemma {:induction false} UpdateProbeKeeps(t: Tables, id: Id, probedAt: int, latencyMs: Option<nat>,
          result: ProbeResult)
    requires WellFormed(t) && ValidAttempt(result, latencyMs)
    ensures var r := UpdateProbe(t, id, probedAt, latencyMs, result);
            && (r.Ok? <==>
                && id in t.markers
                && (result.Passing? ==>
                    && t.markers[id].reason.SlowFirstToken?
                    && AtMost(latencyMs, t.markers[id].thresholdMs)
                    && !t.markers[id].lastResult.Passing?))
            && (r.Ok? ==>
                && WellFormed(r.value)
                && r.value.intents == t.intents && r.value.restores == t.restores
                && r.value.markers.Keys == t.markers.Keys
                && (forall other | other in t.markers && other != id :: r.value.markers[other] == t.markers[other])
                && r.value.markers[id].lastProbeAt.Some?
                && (t.markers[id].lastProbeAt.Some? ==>
                    t.markers[id].lastProbeAt.value < r.value.markers[id].lastProbeAt.value)
                && r.value.markers[id].lastProbeAt.value >= probedAt
                && (r.value.markers[id].streak == 1 <==> result.Passing?))
  {
    if id in t.markers {
      assert ValidMarker(t.markers[id]);
      var r := UpdateProbe(t, id, probedAt, latencyMs, result);
      if r.Ok? {
        assert r.value.markers.Keys == t.markers.Keys;
        assert |r.value.markers| == |t.markers|;
      }
    }
  }

  // ----- Each transaction, exactly -----

  /** An intent is refused for an account that is marked, or for a new one when the registry is full; a
      known intent stays as it is. */
  lemma UpsertIntentExactly(t: Tables, id: Id, intent: Intent)
    ensures var r := UpsertIntent(t, id, intent);
            var full := |t.markers| + |t.intents| >= 10_000;
            && (r == Err(DataInvalid) <==> id in t.markers && id in t.intents)
            && (r == Err(TransitionConflict) <==> id in t.markers && id !in t.intents)
            && (r == Err(CapacityReached) <==> id !in t.markers && id !in t.intents && full)
            && (r.Err? ==> r.error.DataInvalid? || r.error.TransitionConflict? || r.error.CapacityReached?)
            && (r.Ok? ==> r.value == Tables(t.markers, if id in t.intents then t.intents else t.intents[id := intent],
                                            t.restores))
  {
  }

  /** A marker that is promoted says what its intent said, and was never probed; one that is there stays. */
  lemma PromoteExactly(t: Tables, id: Id)
    requires id in t.intents
    ensures var after, i := Promote(t, id), t.intents[id];
            && after.restores == t.restores && after.intents == t.intents - {id}
            && after.markers.Keys == t.markers.Keys + {id}
            && (forall other | other in t.markers :: after.markers[other] == t.markers[other])
            && (id !in t.markers ==>
                  var m := after.markers[id];
                  && m.reason == i.reason && m.thresholdMs == i.thresholdMs && m.observedCount == i.observedCount
                  && m.quarantinedAt == i.createdAt && m.lastProbeAt == None && m.lastLatencyMs == None
                  && m.lastResult == Never && m.streak == 0)
  {
  }

  /** A restore begins for a marked account only, and an older restore intent keeps its time. */
  lemma BeginRestoreExactly(t: Tables, id: Id, now: int)
    ensures var r := BeginRestore(t, id, now);
            && (r == Err(NotFound) <==> id !in t.markers) && (r.Err? ==> r.error.NotFound?)
            && (r.Ok? ==> && r.value.markers == t.markers && r.value.intents == t.intents
                          && r.value.restores.Keys == t.restores.Keys + {id}
                          && r.value.restores[id] == (if id in t.restores then t.restores[id] else now)
                          && forall other | other in t.restores :: r.value.restores[other] == t.restores[other])
  {
    if id in t.restores { assert t.restores.Keys == t.restores.Keys + {id}; }
  }

  /** A restore ends for an account with a marker and a restore intent, which both go; and its intent
      alone goes when it is given up. */
  lemma EndRestoreExactly(t: Tables, id: Id)
    ensures var both := if id in t.markers && id in t.restores then {id} else {};
            CompleteRestore(t, id) == Tables(t.markers - both, t.intents, t.restores - both)
    ensures CancelRestore(t, id) == Tables(t.markers, t.intents, t.restores - {id})
    ensures RemoveIntent(t, id) == Tables(t.markers, t.intents - {id}, t.restores)
  {
    assert t.markers - {} == t.markers && t.restores - {} == t.restores;
  }

  /** The marker may pass the probe: it is a slow one, fast this time, and did not pass last time. */
  predicate MayPass(m: Marker, latencyMs: Option<nat>) {
    m.reason == SlowFirstToken && latencyMs.Some? && latencyMs.value <= m.thresholdMs && m.streak == 0
  }

  /** The first time at or after `now` that is later than the last probe. */
  predicate IsNextTime(last: Option<int>, now: int, at: int) {
    && at >= now && (last.Some? ==> at > last.value)
    && (at == now || (last.Some? && at == last.value + 1))
  }

  /** An attempt is refused without a result, without a marker, as a pass the marker may not have, or as
      slow without a time; else it is stored at the first time that is later than the last probe. */
  lemma UpdateProbeExactly(t: Tables, id: Id, now: int, latencyMs: Option<nat>, result: ProbeResult)
    ensures var r := UpdateProbe(t, id, now, latencyMs, result);
            && (r == Err(NotFound) <==> !result.Never? && id !in t.markers)
            && (r == Err(ProbeRejected) <==>
                  || result.Never?
                  || (id in t.markers && ((result.Passing? && !MayPass(t.markers[id], latencyMs))
                                          || (result.Slow? && latencyMs.None?))))
            && (r.Err? ==> r.error.NotFound? || r.error.ProbeRejected?)
            && (r.Ok? ==>
                  && r.value.intents == t.intents && r.value.restores == t.restores
                  && r.value.markers.Keys == t.markers.Keys
                  && (forall other | other in t.markers && other != id :: r.value.markers[other] == t.markers[other])
                  && var m, n := t.markers[id], r.value.markers[id];
                     && n.reason == m.reason && n.thresholdMs == m.thresholdMs && n.observedCount == m.observedCount
                     && n.quarantinedAt == m.quarantinedAt
                     && n.lastProbeAt.Some? && IsNextTime(m.lastProbeAt, now, n.lastProbeAt.value)
                     && n.lastLatencyMs == latencyMs && n.lastResult == result
                     && n.streak == if result.Passing? then 1 else 0)
  {
  }

  /** The repository object: each method is one committed transaction. */
  class QuarantineRegistry {
    var markers: map<Id, Marker>
    var intents: map<Id, Intent>
    var restores: map<Id, int>

    ghost function Rows(): Tables
      reads this
    {
      Tables(markers, intents, restores)
    }

    ghost predicate Valid()
      reads this
    {
      WellFormed(Rows())
    }

    constructor ()
      ensures Valid() && Rows() == EMPTY
    {
      markers, intents, restores := map[], map[], map[];
    }

    method UpsertAccountQuarantineIntent(id: Id, intent: Intent) returns (r: Result<Intent, Failure>)
      requires Valid() && ValidIntent(intent)
      modifies this
      ensures Valid()
      ensures var spec := UpsertIntent(old(Rows()), id, intent);
              if spec.Ok?
              then Rows() == spec.value && id in intents && r == Ok(intents[id])
              else Rows() == old(Rows()) && r == Err(spec.error)
    {
      UpsertIntentKeeps(Rows(), id, intent);
      var hasIntent := id in intents;
      var hasMarker := id in markers;
      if hasIntent && hasMarker {
        return Err(DataInvalid);
      }
      if hasMarker {
        return Err(TransitionConflict);
      }
      if !hasIntent {
        if |markers| + |intents| >= CAPACITY {
          return Err(CapacityReached);
        }
        intents := intents[id := intent];
      }
      r := Ok(intents[id]);
    }

    method PromoteAccountQuarantineIntent(id: Id) returns (promoted: Option<Marker>)
      requires Valid()
      modifies this
      ensures Valid()
      ensures Rows() == Promote(old(Rows()), id)
      ensures promoted == if id in old(intents) then Some(NewMarker(old(intents)[id])) else None
    {
      if id !in intents {
        return None;
      }
      PromoteKeeps(Rows(), id);
      if id !in markers {
        markers := markers[id := NewMarker(intents[id])];
      }
      intents := intents - {id};
      promoted := Some(markers[id]);
    }

    method RemoveAccountQuarantineIntent(id: Id) returns (removed: bool)
      requires Valid()
      modifies this
      ensures Valid()
      ensures Rows() == RemoveIntent(old(Rows()), id)
      ensures removed == (id in old(intents))
    {
      RemoveIntentKeeps(Rows(), id);
      removed := id in intents;
      intents := intents - {id};
    }

    method BeginAccountQuarantineRestore(id: Id, now: int) returns (ok: bool)
      requires Valid()
      modifies this
      ensures Valid()
      ensures ok == (id in old(markers))
      ensures ok ==> BeginRestore(old(Rows()), id, now) == Ok(Rows())
      ensures !ok ==> Rows() == old(Rows())
    {
      if id !in markers {
        return false;
      }
      if id !in restores {
        restores := restores[id := now];
      }
      ok := true;
    }

    method CompleteAccountQuarantineRestore(id: Id) returns (completed: Option<Marker>)
      requires Valid()
      modifies this
      ensures Valid()
      ensures Rows() == CompleteRestore(old(Rows()), id)
      ensures completed == if id in old(restores) then Some(old(markers)[id]) else None
    {
      if id !in restores || id !in markers {
        return None;
      }
      CompleteRestoreKeeps(Rows(), id);
      completed := Some(markers[id]);
      markers := markers - {id};
      restores := restores - {id};
    }

    method CancelAccountQuarantineRestore(id: Id) returns (removed: bool)
      requires Valid()
      modifies this
      ensures Valid()
      ensures Rows() == CancelRestore(old(Rows()), id)
      ensures removed == (id in old(restores))
    {
      removed := id in restores;
      restores := restores - {id};
    }

    method UpdateAccountQuarantineProbe(id: Id, probedAt: int, latencyMs: Option<nat>, result: ProbeResult)
      returns (r: Result<Marker, Failure>)
      requires Valid() && ValidAttempt(result, latencyMs)
      modifies this
      ensures Valid()
      ensures var spec := UpdateProbe(old(Rows()), id, probedAt, latencyMs, result);
              if spec.Ok?
              then Rows() == spec.value && id in markers && r == Ok(markers[id])
              else Rows() == old(Rows()) && r == Err(spec.error)
    {
      UpdateProbeKeeps(Rows(), id, probedAt, latencyMs, result);
      if id !in markers {
        return Err(NotFound);
      }
      var existing := markers[id];
      var effective := probedAt;
      if existing.lastProbeAt.Some? && effective <= existing.lastProbeAt.value {
        effective := existing.lastProbeAt.value + 1;
      }
      var streak := 0;
      if result.Passing? {
        if !existing.reason.SlowFirstToken? || !AtMost(latencyMs, existing.thresholdMs) {
          return Err(ProbeRejected);
        }
        streak := existing.streak + 1;
        if streak != 1 {
          return Err(ProbeRejected);
        }
      }
      var updated := existing.(lastProbeAt := Some(effective), lastLatencyMs := latencyMs,
                               lastResult := result, streak := streak);
      assert UpdateProbe(Rows(), id, probedAt, latencyMs, result)
          == Ok(Rows().(markers := markers[id := updated])) by {
        assert effective == EffectiveProbeTime(existing, probedAt);
      }
      markers := markers[id := updated];
      r := Ok(updated);
    }
  }
}
