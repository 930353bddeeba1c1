/** The queue of shared input snapshots: claimed under a lease, consumed once. */
module SnapshotQueue {
  import opened Common

  datatype Claim = Claim(owner: nat, expires: int)

  datatype Row = Row(captured: int, claim: Option<Claim>, consumedAt: Option<int>)

  type Table = map<nat, Row>

  predicate Waiting(t: Table, id: nat) { id in t && t[id].consumedAt.None? }

  predicate Free(r: Row, now: int) { r.claim.None? || r.claim.value.expires <= now }

  predicate Claimable(t: Table, id: nat, now: int) { Waiting(t, id) && Free(t[id], now) }

  /** Captured earlier; equal times are ordered by id. */
  predicate Before(t: Table, a: nat, b: nat)
    requires a in t && b in t
  {
    t[a].captured < t[b].captured || (t[a].captured == t[b].captured && a < b)
  }

  predicate IsOldestClaimable(t: Table, id: nat, now: int) {
    && Claimable(t, id, now)
    && forall other | other in t && other != id && Claimable(t, other, now) :: Before(t, id, other)
  }

  predicate IsNewestWaiting(t: Table, id: nat) {
    Waiting(t, id) && forall other | other in t && other != id && Waiting(t, other) :: Before(t, other, id)
  }

  function Published(t: Table, id: nat, captured: int): Table {
    if id in t then t else t[id := Row(captured, None, None)]
  }

  ghost function Oldest(t: Table, now: int): Option<nat> {
    if exists id :: IsOldestClaimable(t, id, now) then
      var id :| IsOldestClaimable(t, id, now); Some(id)
    else None
  }

  function Max(a: int, b: int): int { if a < b then b else a }

  ghost function Claimed(t: Table, owner: nat, lease: int, now: int): Table {
    var id := Oldest(t, now);
    if id.None? then t
    else
      assert IsOldestClaimable(t, id.value, now);
      t[id.value := t[id.value].(claim := Some(Claim(owner, now + Max(1, lease))))]
  }

  predicate Owns(t: Table, id: nat, owner: nat) {
    Waiting(t, id) && t[id].claim.Some? && t[id].claim.value.owner == owner
  }

  function Consumed(t: Table, id: nat, owner: nat, now: int): Table {
    if Owns(t, id, owner) then t[id := Row(t[id].captured, None, Some(now))] else t
  }

  function Released(t: Table, id: nat, owner: nat): Table {
    if Owns(t, id, owner) then t[id := t[id].(claim := None)] else t
  }

  predicate Outdated(t: Table, id: nat, cutoff: int, now: int) {
    Claimable(t, id, now) && t[id].captured < cutoff && !IsNewestWaiting(t, id)
  }

  function Superseded(t: Table, cutoff: int, now: int): Table {
    map id | id in t :: if Outdated(t, id, cutoff, now) then Row(t[id].captured, None, Some(now)) else t[id]
  }

  /** Retention drops old snapshots, but only consumed ones. */
  function Deleted(t: Table, cutoff: int): Table {
    map id | id in t && (t[id].consumedAt.None? || t[id].captured >= cutoff) :: t[id]
  }

  // ----- Some order facts -----

  lemma {:induction false} OldestIn(t: Table, now: int, ids: set<nat>) returns (id: nat)
    requires ids != {} && ids <= t.Keys
    requires forall x | x in ids :: Claimable(t, x, now)
    ensures id in ids && forall other | other in ids && other != id :: Before(t, id, other)
    decreases |ids|
  {
    var x :| x in ids;
    var rest := ids - {x};
    assert ids == rest + {x};
    if rest == {} {
      id := x;
    } else {
      var y := OldestIn(t, now, rest);
      id := if Before(t, x, y) then x else y;
      forall other | other in ids && other != id ensures Before(t, id, other) {
        assert other == x || other in rest;
      }
    }
  }

  lemma OldestExists(t: Table, now: int, x: nat)
    requires Claimable(t, x, now)
    ensures exists id :: IsOldestClaimable(t, id, now)
  {
    var ids := set y | y in t && Claimable(t, y, now);
    assert x in ids;
    var id := OldestIn(t, now, ids);
    assert IsOldestClaimable(t, id, now);
  }

  lemma OldestIsUnique(t: Table, now: int, id: nat)
    requires IsOldestClaimable(t, id, now)
    ensures Oldest(t, now) == Some(id)
  {
    var other := Oldest(t, now).value;
    assert IsOldestClaimable(t, other, now);
    assert other == id;
  }

  lemma {:induction false} NewestIn(t: Table, ids: set<nat>) returns (id: nat)
    requires ids != {} && ids <= t.Keys
    requires forall x | x in ids :: Waiting(t, x)
    ensures id in ids && forall other | other in ids && other != id :: Before(t, other, id)
    decreases |ids|
  {
    var x :| x in ids;
    var rest := ids - {x};
    assert ids == rest + {x};
    if rest == {} {
      id := x;
    } else {
      var y := NewestIn(t, rest);
      id := if Before(t, x, y) then y else x;
      forall other | other in ids && other != id ensures Before(t, other, id) {
        assert other == x || other in rest;
      }
    }
  }

  lemma NewestExists(t: Table, x: nat) returns (id: nat)
    requires Waiting(t, x)
    ensures IsNewestWaiting(t, id)
  {
    var ids := set y | y in t && Waiting(t, y);
    assert x in ids;
    id := NewestIn(t, ids);
  }

  class InputSnapshots {
    var rows: Table

    constructor ()
      ensures rows == map[]
    {
      rows := map[];
    }

    method PublishGuardianSnapshot(id: nat, captured: int)
      modifies this
      ensures rows == Published(old(rows), id, captured)
    {
      if id !in rows {
        rows := rows[id := Row(captured, None, None)];
      }
    }

    /** Hands out the oldest snapshot that waits and is not under a live claim. */
    method ClaimInputSnapshot(owner: nat, lease: int, now: int) returns (id: Option<nat>)
      modifies this
      ensures id == Oldest(old(rows), now) && rows == Claimed(old(rows), owner, lease, now)
      ensures id.Some? ==> IsOldestClaimable(old(rows), id.value, now) && Owns(rows, id.value, owner)
      ensures id.None? ==> forall x | x in old(rows) :: !Claimable(old(rows), x, now)
    {
      if x :| x in rows && Claimable(rows, x, now) {
        OldestExists(rows, now, x);
        var oldest :| oldest in rows && IsOldestClaimable(rows, oldest, now);
        OldestIsUnique(rows, now, oldest);
        rows := rows[oldest := rows[oldest].(claim := Some(Claim(owner, now + Max(1, lease))))];
        id := Some(oldest);
      } else {
        id := None;
      }
    }

    method ConsumeInputSnapshot(id: nat, owner: nat, now: int) returns (won: bool)
      modifies this
      ensures won == Owns(old(rows), id, owner) && rows == Consumed(old(rows), id, owner, now)
    {
      won := id in rows && rows[id].consumedAt.None? && rows[id].claim.Some? && rows[id].claim.value.owner == owner;
      if won {
        rows := rows[id := Row(rows[id].captured, None, Some(now))];
      }
    }

    method ReleaseInputSnapshot(id: nat, owner: nat)
      modifies this
      ensures rows == Released(old(rows), id, owner)
    {
      if id in rows && rows[id].consumedAt.None? && rows[id].claim.Some? && rows[id].claim.value.owner == owner {
        rows := rows[id := rows[id].(claim := None)];
      }
    }

    method SupersedeExpiredInputSnapshots(cutoff: int, now: int)
      modifies this
      ensures rows == Superseded(old(rows), cutoff, now)
    {
      if x :| x in rows && Waiting(rows, x) {
        ghost var _ := NewestExists(rows, x);
        var newest :| newest in rows && IsNewestWaiting(rows, newest);
        NewestIsUnique(rows, newest);
        rows := map id | id in rows ::
          if rows[id].consumedAt.None? && rows[id].captured < cutoff && id != newest
             && (rows[id].claim.None? || rows[id].claim.value.expires <= now)
          then Row(rows[id].captured, None, Some(now)) else rows[id];
      }
    }
  }

  lemma NewestIsUnique(t: Table, newest: nat)
    requires IsNewestWaiting(t, newest)
    ensures forall id | id in t && Waiting(t, id) :: IsNewestWaiting(t, id) <==> id == newest
  {
    forall id | id in t && IsNewestWaiting(t, id) ensures id == newest {
    }
  }

  /** Superseding consumes exactly the outdated snapshots that nobody holds; the newest waiting one
      stays the newest waiting one, so whatever is superseded leaves something to read. */
  lemma SupersedeSpares(t: Table, cutoff: int, now: int, newest: nat)
    requires IsNewestWaiting(t, newest)
    ensures IsNewestWaiting(Superseded(t, cutoff, now), newest) && Superseded(t, cutoff, now)[newest] == t[newest]
    ensures forall id | Waiting(t, id) ::
              Waiting(Superseded(t, cutoff, now), id) <==>
              id == newest || t[id].captured >= cutoff || (t[id].claim.Some? && t[id].claim.value.expires > now)
  {
    NewestIsUnique(t, newest);
  }

  /** Releasing a claim gives back the queue as it was, but for a claim that had run out. */
  lemma ReleaseUndoesClaim(t: Table, owner: nat, lease: int, now: int, id: nat)
    requires Oldest(t, now) == Some(id)
    ensures IsOldestClaimable(t, id, now)
    ensures Released(Claimed(t, owner, lease, now), id, owner) == t[id := t[id].(claim := None)]
  {
    assert IsOldestClaimable(t, id, now);
  }

  /** So a snapshot that every run gives back is handed out again and again ahead of all newer
      ones, at any later time at which nothing older has become free. */
  lemma ReleasedIsNextAgain(t: Table, owner: nat, lease: int, now: int, later: int, id: nat)
    requires Oldest(t, now) == Some(id) && later >= now
    requires forall x | x in t && x != id && Waiting(t, x) && Before(t, x, id) :: !Free(t[x], later)
    ensures IsOldestClaimable(t, id, now)
    ensures Oldest(Released(Claimed(t, owner, lease, now), id, owner), later) == Some(id)
  {
    ReleaseUndoesClaim(t, owner, lease, now, id);
    var after := t[id := t[id].(claim := None)];
    assert IsOldestClaimable(after, id, later);
    OldestIsUnique(after, later, id);
  }

  // ----- Every interleaving of the operations -----

  datatype Happening =
    | Publish(id: nat, captured: int)
    | Take(owner: nat, lease: int, now: int)
    | Consume(id: nat, owner: nat, now: int)
    | Release(id: nat, owner: nat)
    | Supersede(cutoff: int, now: int)
    | Retain(cutoff: int)

  ghost function Next(t: Table, e: Happening): Table {
    match e
    case Publish(id, captured) => Published(t, id, captured)
    case Take(owner, lease, now) => Claimed(t, owner, lease, now)
    case Consume(id, owner, now) => Consumed(t, id, owner, now)
    case Release(id, owner) => Released(t, id, owner)
    case Supersede(cutoff, now) => Superseded(t, cutoff, now)
    case Retain(cutoff) => Deleted(t, cutoff)
  }

  ghost predicate IsStep(states: seq<Table>, history: seq<Happening>, n: nat)
    requires n < |history| && |states| == |history| + 1
  {
    states[n + 1] == Next(states[n], history[n])
  }

  ghost predicate IsTrace(states: seq<Table>, history: seq<Happening>) {
    && |states| == |history| + 1 && states[0] == map[]
    && forall n: nat | n < |history| :: IsStep(states, history, n)
  }

  predicate Done(t: Table, id: nat) { id in t && t[id].consumedAt.Some? }

  predicate Wins(t: Table, e: Happening, id: nat) { e.Consume? && e.id == id && Owns(t, id, e.owner) }

  ghost predicate Hands(t: Table, e: Happening, id: nat) { e.Take? && Oldest(t, e.now) == Some(id) }

  predicate Drops(t: Table, e: Happening, id: nat) { e.Retain? && id in t && id !in Deleted(t, e.cutoff) }

  ghost predicate ConsumedUnclaimed(t: Table) { forall id | Done(t, id) :: t[id].claim.None? }

  lemma TakeKeeps(t: Table, owner: nat, lease: int, now: int, id: nat)
    ensures id in Claimed(t, owner, lease, now) <==> id in t
    ensures id in t && Oldest(t, now) != Some(id) ==> Claimed(t, owner, lease, now)[id] == t[id]
    ensures Oldest(t, now) == Some(id) ==>
              && Waiting(t, id)
              && Claimed(t, owner, lease, now)[id] == t[id].(claim := Some(Claim(owner, now + Max(1, lease))))
  {
    var oldest := Oldest(t, now);
    assert oldest.Some? ==> IsOldestClaimable(t, oldest.value, now);
  }

  /** Consumed is permanent: every step keeps a consumed row as it is, or retention drops it. */
  lemma ConsumedStays(t: Table, e: Happening, id: nat)
    requires Done(t, id)
    ensures Drops(t, e, id) || (id in Next(t, e) && Next(t, e)[id] == t[id])
  {
    if e.Take? {
      TakeKeeps(t, e.owner, e.lease, e.now, id);
    }
  }

  lemma StaysUnclaimed(t: Table, e: Happening)
    requires ConsumedUnclaimed(t)
    ensures ConsumedUnclaimed(Next(t, e))
  {
    forall id | Done(Next(t, e), id) ensures Next(t, e)[id].claim.None? {
      if e.Take? {
        TakeKeeps(t, e.owner, e.lease, e.now, id);
      }
    }
  }

  /** In every reachable state a consumed snapshot is under no claim. */
  lemma {:induction false} ConsumedIsUnclaimed(states: seq<Table>, history: seq<Happening>, n: nat)
    requires IsTrace(states, history) && n <= |history|
    ensures ConsumedUnclaimed(states[n])
    decreases n
  {
    if n > 0 {
      assert IsStep(states, history, n - 1);
      ConsumedIsUnclaimed(states, history, n - 1);
      StaysUnclaimed(states[n - 1], history[n - 1]);
    }
  }

  lemma {:induction false} DoneUntilDropped(states: seq<Table>, history: seq<Happening>, i: nat, j: nat, id: nat)
    requires IsTrace(states, history) && i <= j <= |history| && Done(states[i], id)
    ensures Done(states[j], id) || exists k: nat :: i <= k < j && Drops(states[k], history[k], id)
    decreases j
  {
    if i < j {
      DoneUntilDropped(states, history, i, j - 1, id);
      assert IsStep(states, history, j - 1);
      if Done(states[j - 1], id) {
        ConsumedStays(states[j - 1], history[j - 1], id);
      }
    }
  }

  /** Consuming succeeds at most once per snapshot, unless retention drops the consumed row and the
      same snapshot is published again in between. */
  lemma ConsumedOnce(states: seq<Table>, history: seq<Happening>, i: nat, j: nat, id: nat)
    requires IsTrace(states, history) && i < j < |history|
    requires Wins(states[i], history[i], id) && Wins(states[j], history[j], id)
    ensures exists k: nat :: i < k < j && Drops(states[k], history[k], id)
  {
    assert IsStep(states, history, i);
    DoneUntilDropped(states, history, i + 1, j, id);
  }

  lemma OwnerStep(t: Table, e: Happening, id: nat, owner: nat)
    requires Owns(Next(t, e), id, owner)
    ensures (Hands(t, e, id) && e.owner == owner) || (Owns(t, id, owner) && !Hands(t, e, id))
  {
    if e.Take? {
      TakeKeeps(t, e.owner, e.lease, e.now, id);
    }
  }

  /** Whoever owns a snapshot got it from the last claim that handed it out. */
  lemma {:induction false} OwnerHasLastClaim(states: seq<Table>, history: seq<Happening>, n: nat, id: nat,
          owner: nat)
    returns (k: nat)
    requires IsTrace(states, history) && n <= |history| && Owns(states[n], id, owner)
    ensures k < n && Hands(states[k], history[k], id) && history[k].owner == owner
    ensures forall m: nat | k < m < n :: !Hands(states[m], history[m], id)
    decreases n
  {
    assert IsStep(states, history, n - 1);
    OwnerStep(states[n - 1], history[n - 1], id, owner);
    if Hands(states[n - 1], history[n - 1], id) {
      k := n - 1;
    } else {
      k := OwnerHasLastClaim(states, history, n - 1, id, owner);
    }
  }

  /** A snapshot that was handed to somebody else cannot be consumed by its first owner, unless it
      was handed to that owner again. */
  lemma StolenClaimLoses(states: seq<Table>, history: seq<Happening>, m: nat, n: nat, id: nat, owner: nat)
    requires IsTrace(states, history) && m < n < |history|
    requires Hands(states[m], history[m], id) && history[m].owner != owner
    requires forall k: nat | m < k < n :: !(Hands(states[k], history[k], id) && history[k].owner == owner)
    ensures !Owns(states[n], id, owner)
  {
    if Owns(states[n], id, owner) {
      var k := OwnerHasLastClaim(states, history, n, id, owner);
      assert false;
    }
  }

  // ----- A claim lasts for its lease -----

  /** Whoever gets a snapshot keeps all others from it for the length of its lease, at least one
      second, and for no longer. */
  lemma ClaimLasts(t: Table, owner: nat, lease: int, now: int, later: int, id: nat)
    requires Oldest(t, now) == Some(id)
    ensures var after := Claimed(t, owner, lease, now);
            && Owns(after, id, owner)
            && (Claimable(after, id, later) <==> later >= now + 1 && later >= now + lease)
            && forall other | other in t && other != id :: other in after && after[other] == t[other]
  {
    assert IsOldestClaimable(t, id, now);
  }

  // ----- What publishing and retention do -----

  /** A snapshot that is not there yet begins to wait; one that is there stays as it is. */
  lemma PublishedMeans(t: Table, id: nat, captured: int)
    ensures var after := Published(t, id, captured);
            && after.Keys == t.Keys + {id} && (forall other | other in t :: after[other] == t[other])
            && (id !in t ==> Waiting(after, id) && after[id].captured == captured && after[id].claim == None)
  {
  }

  /** Retention drops exactly the consumed snapshots captured before the cutoff. */
  lemma RetainedMeans(t: Table, cutoff: int, id: nat)
    ensures var after := Deleted(t, cutoff);
            && (id in after <==> id in t && !(t[id].consumedAt != None && t[id].captured < cutoff))
            && (id in after ==> after[id] == t[id])
  {
  }
}
