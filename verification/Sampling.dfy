/** Traffic observations and monitor evidence, put into time buckets and fused. */
module Sampling {
  import opened Common
  import opened Sorting
  import opened WeightedAverage
  import opened Grouping

  /** `details` stands for event type and status code; the hash identifies the request. */
  datatype Observation = Observation(
    hash: nat, channel: Option<nat>, at: int, details: nat, score: nat, ttfb: Option<nat>, monitor: bool)

  datatype Bucket = Bucket(
    channel: nat, at: int, score: real, quality: real, sources: set<nat>, events: nat, p95: Option<int>)

  const TRAFFIC := 0

  function BucketAt(at: int, width: nat): int
    requires width > 0
  {
    at - at % width
  }

  function Measured(ttfb: seq<Option<nat>>): seq<int> {
    if ttfb == [] then [] else (if ttfb[0].Some? then [ttfb[0].value] else []) + Measured(ttfb[1..])
  }

  // ----- Traffic -----

  datatype TrafficError = BadWidth | ChangedObservation

  /** `kept` are the observations that go into buckets. */
  datatype Sifted = Sifted(
    seen: map<nat, Observation>, kept: seq<Observation>, duplicates: nat, monitors: nat, unattributed: nat)

  const NOTHING := Sifted(map[], [], 0, 0, 0)

  function SiftOne(s: Sifted, o: Observation): Option<Sifted> {
    if o.hash in s.seen then
      if s.seen[o.hash] != o then None else Some(s.(duplicates := s.duplicates + 1))
    else
      var t := s.(seen := s.seen[o.hash := o]);
      Some(if o.monitor then t.(monitors := t.monitors + 1)
           else if o.channel.None? then t.(unattributed := t.unattributed + 1)
           else t.(kept := t.kept + [o]))
  }

  function Sift(observations: seq<Observation>): Option<Sifted> {
    if observations == [] then Some(NOTHING)
    else
      var before := Sift(observations[..|observations| - 1]);
      if before.None? then None else SiftOne(before.value, observations[|observations| - 1])
  }

  function TrafficKey(width: nat): Observation -> Key
    requires width > 0
  {
    (o: Observation) => Key(if o.channel.Some? then o.channel.value else 0, BucketAt(o.at, width), TRAFFIC)
  }

  function ScoreSum(rows: seq<Observation>): nat { Total(rows, (o: Observation) => o.score) }

  function TtfbOf(rows: seq<Observation>): seq<Option<nat>> {
    seq(|rows|, (k: nat) requires k < |rows| => rows[k].ttfb)
  }

  function TrafficBucket(k: Key, rows: seq<Observation>): Bucket
    requires rows != []
  {
    var n := |rows|;
    Bucket(k.channel, k.at, ScoreSum(rows) as real / n as real, if n >= 5 then 1.0 else n as real / 5.0,
           {TRAFFIC}, n, NearestRank95(Measured(TtfbOf(rows))))
  }

  function TrafficBuckets(keys: seq<Key>, kept: seq<Observation>, width: nat): seq<Bucket>
    requires width > 0 && forall k | k in keys :: Group(kept, TrafficKey(width), k) != []
  {
    if keys == [] then []
    else [TrafficBucket(keys[0], Group(kept, TrafficKey(width), keys[0]))] + TrafficBuckets(keys[1..], kept, width)
  }

  datatype Built = Built(buckets: seq<Bucket>, duplicates: nat, monitors: nat, unattributed: nat)

  function BuildTraffic(observations: seq<Observation>, width: nat): Result<Built, TrafficError> {
    if !(30 <= width <= 300) then Err(BadWidth)
    else if Sift(observations).None? then Err(ChangedObservation)
    else
      var s := Sift(observations).value;
      KeysAreSorted(s.kept, TrafficKey(width));
      Ok(Built(TrafficBuckets(KeysOf(s.kept, TrafficKey(width)), s.kept, width),
               s.duplicates, s.monitors, s.unattributed))
  }

  /** The dictionary of groups, in key order. */
  ghost predicate IsGrouped<T(!new)>(keys: seq<Key>, groups: map<Key, seq<T>>, rows: seq<T>, key: T -> Key) {
    && keys == KeysOf(rows, key)
    && (forall k | k in keys :: k in groups)
    && (forall k | k in groups :: k in keys && groups[k] == Group(rows, key, k))
  }

  lemma GroupedGrows<T(!new)>(keys: seq<Key>, groups: map<Key, seq<T>>, rows: seq<T>, key: T -> Key, x: T)
    requires IsGrouped(keys, groups, rows, key)
    ensures var k := key(x);
            IsGrouped(WithKey(keys, k), GrownGroups(groups, k, x), rows + [x], key)
  {
    var k := key(x);
    assert (rows + [x])[..|rows|] == rows;
    forall y ensures y in WithKey(keys, k) <==> y in keys || y == k { WithKeyHas(keys, k, y); }
    if k !in groups {
      NoGroup(rows, key, k);
    }
    forall y | y in groups && y != k ensures Group(rows + [x], key, y) == groups[y] {
      GroupAppend(rows, x, key, y);
    }
  }

  lemma {:induction false} NoGroup<T(!new)>(rows: seq<T>, key: T -> Key, k: Key)
    requires k !in KeysOf(rows, key)
    ensures Group(rows, key, k) == []
  {
    if rows != [] {
      WithKeyHas(KeysOf(rows[..|rows| - 1], key), key(rows[|rows| - 1]), k);
      NoGroup(rows[..|rows| - 1], key, k);
    }
  }

  function GrownGroups<T>(groups: map<Key, seq<T>>, k: Key, x: T): map<Key, seq<T>> {
    groups[k := (if k in groups then groups[k] else []) + [x]]
  }

  /** The first loop: what is counted away, and the dictionary of the rest. */
  method SiftAndGroup(observations: seq<Observation>, width: nat)
    returns (changed: bool, keys: seq<Key>, groups: map<Key, seq<Observation>>,
             duplicates: nat, monitors: nat, unattributed: nat, ghost s: Sifted)
    requires width > 0
    ensures changed <==> Sift(observations).None?
    ensures !changed ==> Sift(observations) == Some(s)
    ensures !changed ==> s.duplicates == duplicates && s.monitors == monitors && s.unattributed == unattributed
    ensures !changed ==> IsGrouped(keys, groups, s.kept, TrafficKey(width))
  {
    var key := TrafficKey(width);
    var seen: map<nat, Observation> := map[];
    changed, keys, groups := false, [], map[];
    duplicates, monitors, unattributed := 0, 0, 0;
    s := NOTHING;
    for i := 0 to |observations|
      invariant !changed && Sift(observations[..i]) == Some(s)
      invariant s.seen == seen && s.duplicates == duplicates && s.monitors == monitors && s.unattributed == unattributed
      invariant IsGrouped(keys, groups, s.kept, key)
    {
      var o := observations[i];
      assert observations[..i + 1][..i] == observations[..i];
      if o.hash in seen && seen[o.hash] != o {
        SiftStaysBroken(observations, i + 1);
        changed := true;
        return;
      }
      ghost var before := s;
      s := SiftOne(s, o).value;
      if o.hash in seen {
        duplicates := duplicates + 1;
      } else {
        seen := seen[o.hash := o];
        if o.monitor {
          monitors := monitors + 1;
        } else if o.channel.None? {
          unattributed := unattributed + 1;
        } else {
          GroupedGrows(keys, groups, before.kept, key, o);
          keys, groups := WithKey(keys, key(o)), GrownGroups(groups, key(o), o);
        }
      }
    }
    assert observations[..|observations|] == observations;
  }

  lemma MoveFirst<T>(a: seq<T>, x: T, b: seq<T>)
    ensures a + ([x] + b) == a + [x] + b
  {
  }

  lemma NextBucket(keys: seq<Key>, j: nat, kept: seq<Observation>, width: nat)
    requires width > 0 && j < |keys| && forall k | k in keys :: Group(kept, TrafficKey(width), k) != []
    ensures keys[j] in keys
    ensures TrafficBuckets(keys[j..], kept, width)
            == [TrafficBucket(keys[j], Group(kept, TrafficKey(width), keys[j]))]
               + TrafficBuckets(keys[j + 1..], kept, width)
  {
    assert keys[j..][0] == keys[j] && keys[j..][1..] == keys[j + 1..];
  }

  /** The second loop: one bucket per group, in key order. */
  method FillBuckets(keys: seq<Key>, groups: map<Key, seq<Observation>>, width: nat,
          ghost kept: seq<Observation>)
    returns (buckets: seq<Bucket>)
    requires width > 0 && IsGrouped(keys, groups, kept, TrafficKey(width))
    requires forall k | k in keys :: Group(kept, TrafficKey(width), k) != []
    ensures buckets == TrafficBuckets(keys, kept, width)
  {
    buckets := [];
    for j := 0 to |keys|
      invariant TrafficBuckets(keys, kept, width) == buckets + TrafficBuckets(keys[j..], kept, width)
    {
      NextBucket(keys, j, kept, width);
      var b := TrafficBucket(keys[j], groups[keys[j]]);
      MoveFirst(buckets, b, TrafficBuckets(keys[j + 1..], kept, width));
      buckets := buckets + [b];
    }
  }

  method BuildTrafficBuckets(observations: seq<Observation>, width: nat) returns (r: Result<Built, TrafficError>)
    ensures r == BuildTraffic(observations, width)
  {
    if !(30 <= width <= 300) {
      return Err(BadWidth);
    }
    var changed, keys, groups, duplicates, monitors, unattributed, s := SiftAndGroup(observations, width);
    if changed {
      return Err(ChangedObservation);
    }
    KeysAreSorted(s.kept, TrafficKey(width));
    var buckets := FillBuckets(keys, groups, width, s.kept);
    r := Ok(Built(buckets, duplicates, monitors, unattributed));
  }

  lemma {:induction false} SiftStaysBroken(observations: seq<Observation>, i: nat)
    requires i <= |observations| && Sift(observations[..i]).None?
    ensures Sift(observations).None?
    decreases |observations|
  {
    if i < |observations| {
      var most := observations[..|observations| - 1];
      assert most[..i] == observations[..i];
      SiftStaysBroken(most, i);
    } else {
      assert observations[..i] == observations;
    }
  }

  function EventTotal(buckets: seq<Bucket>): nat {
    if buckets == [] then 0 else buckets[0].events + EventTotal(buckets[1..])
  }

  function One(o: Observation): nat { 1 }

  lemma {:induction false} TotalOfOnes(rows: seq<Observation>)
    ensures Total(rows, One) == |rows|
  {
    if rows != [] {
      TotalOfOnes(rows[..|rows| - 1]);
    }
  }

  lemma {:induction false} TrafficEvents(keys: seq<Key>, kept: seq<Observation>, width: nat)
    requires width > 0 && forall k | k in keys :: Group(kept, TrafficKey(width), k) != []
    ensures EventTotal(TrafficBuckets(keys, kept, width)) == GroupTotals(keys, kept, TrafficKey(width), One)
  {
    if keys != [] {
      assert keys[0] in keys;
      TotalOfOnes(Group(kept, TrafficKey(width), keys[0]));
      TrafficEvents(keys[1..], kept, width);
    }
  }

  lemma {:induction false} SiftConserves(observations: seq<Observation>)
    requires Sift(observations).Some?
    ensures var s := Sift(observations).value;
            s.duplicates + s.monitors + s.unattributed + |s.kept| == |observations|
  {
    if observations != [] {
      SiftConserves(observations[..|observations| - 1]);
    }
  }

  /** Every observation is counted exactly once: as a duplicate, as a monitor request, as
      unattributed, or as an event of one bucket. */
  lemma TrafficConserves(observations: seq<Observation>, width: nat)
    requires BuildTraffic(observations, width).Ok?
    ensures var b := BuildTraffic(observations, width).value;
            b.duplicates + b.monitors + b.unattributed + EventTotal(b.buckets) == |observations|
  {
    var s := Sift(observations).value;
    var keys := KeysOf(s.kept, TrafficKey(width));
    SiftConserves(observations);
    KeysAreSorted(s.kept, TrafficKey(width));
    TrafficEvents(keys, s.kept, width);
    GroupsConserve(keys, s.kept, TrafficKey(width), One);
    TotalOfOnes(s.kept);
  }

  predicate SameHashSame(observations: seq<Observation>) {
    forall i, j | 0 <= i < j < |observations| ::
      observations[i].hash == observations[j].hash ==> observations[i] == observations[j]
  }

  ghost predicate SeenIs(seen: map<nat, Observation>, observations: seq<Observation>) {
    && (forall h | h in seen :: seen[h].hash == h && seen[h] in observations)
    && (forall i | 0 <= i < |observations| :: observations[i].hash in seen)
  }

  lemma SeenFinds(seen: map<nat, Observation>, observations: seq<Observation>, o: Observation, i: nat)
    requires SeenIs(seen, observations) && SameHashSame(observations) && i < |observations|
    requires observations[i].hash == o.hash
    ensures o.hash in seen && (seen[o.hash] == o <==> observations[i] == o)
  {
    var j :| 0 <= j < |observations| && observations[j] == seen[o.hash];
    assert observations[i].hash == observations[j].hash;
    assert i < j || j < i || i == j;
  }

  lemma SeenGrows(seen: map<nat, Observation>, most: seq<Observation>, o: Observation)
    requires SeenIs(seen, most)
    ensures SeenIs(if o.hash in seen then seen else seen[o.hash := o], most + [o])
  {
  }

  /** A new observation keeps the contents unique exactly if its hash is new or known with it. */
  lemma SameGrows(seen: map<nat, Observation>, most: seq<Observation>, o: Observation)
    requires SeenIs(seen, most) && SameHashSame(most)
    ensures SameHashSame(most + [o]) <==> (o.hash in seen ==> seen[o.hash] == o)
  {
    var all := most + [o];
    if o.hash in seen && seen[o.hash] != o {
      var j :| 0 <= j < |most| && most[j] == seen[o.hash];
      assert all[j].hash == all[|most|].hash && all[j] != all[|most|];
    } else {
      forall i, j | 0 <= i < j < |all| && all[i].hash == all[j].hash ensures all[i] == all[j] {
        if j == |most| {
          SeenFinds(seen, most, o, i);
        }
      }
    }
  }

  lemma SiftOneSees(s: Sifted, most: seq<Observation>, o: Observation)
    requires SeenIs(s.seen, most) && SameHashSame(most)
    ensures SiftOne(s, o).Some? <==> SameHashSame(most + [o])
    ensures SiftOne(s, o).Some? ==> SeenIs(SiftOne(s, o).value.seen, most + [o])
  {
    SeenGrows(s.seen, most, o);
    SameGrows(s.seen, most, o);
  }

  lemma SiftUnfolds(most: seq<Observation>, o: Observation)
    ensures Sift(most + [o]) == if Sift(most).None? then None else SiftOne(Sift(most).value, o)
  {
    assert (most + [o])[..|most|] == most;
  }

  lemma {:induction false} SiftSees(observations: seq<Observation>)
    ensures Sift(observations).Some? <==> SameHashSame(observations)
    ensures Sift(observations).Some? ==> SeenIs(Sift(observations).value.seen, observations)
  {
    if observations != [] {
      var most, o := observations[..|observations| - 1], observations[|observations| - 1];
      SiftSees(most);
      assert observations == most + [o];
      SiftUnfolds(most, o);
      if Sift(most).Some? {
        SiftOneSees(Sift(most).value, most, o);
      } else {
        DifferGrows(most, o);
      }
    }
  }

  lemma DifferGrows(most: seq<Observation>, o: Observation)
    requires !SameHashSame(most)
    ensures !SameHashSame(most + [o])
  {
    var i, j :| 0 <= i < j < |most| && most[i].hash == most[j].hash && most[i] != most[j];
    assert (most + [o])[i] == most[i] && (most + [o])[j] == most[j];
  }

  /** Traffic is refused exactly when one request hash comes with two different contents. */
  lemma RefusedIfChanged(observations: seq<Observation>, width: nat)
    requires 30 <= width <= 300
    ensures BuildTraffic(observations, width).Err? <==> !SameHashSame(observations)
  {
    SiftSees(observations);
  }

  lemma SeenAlready(seen: map<nat, Observation>, observations: seq<Observation>, o: Observation)
    requires SeenIs(seen, observations) && SameHashSame(observations) && o in observations
    ensures o.hash in seen && seen[o.hash] == o
  {
    var i :| 0 <= i < |observations| && observations[i] == o;
    SeenFinds(seen, observations, o, i);
  }

  lemma DuplicateSifts(observations: seq<Observation>, o: Observation, s: Sifted)
    requires Sift(observations) == Some(s) && o in observations
    ensures Sift(observations + [o]) == Some(s.(duplicates := s.duplicates + 1))
  {
    SiftSees(observations);
    SeenAlready(s.seen, observations, o);
    SiftUnfolds(observations, o);
  }

  /** Reading an observation once more changes no bucket; it is only counted as a duplicate. */
  lemma DuplicateChangesNoBucket(observations: seq<Observation>, width: nat, o: Observation)
    requires BuildTraffic(observations, width).Ok? && o in observations
    ensures var b := BuildTraffic(observations, width).value;
            BuildTraffic(observations + [o], width) == Ok(b.(duplicates := b.duplicates + 1))
  {
    DuplicateSifts(observations, o, Sift(observations).value);
  }

  // ----- Evidence fusion -----

  datatype Evidence = Evidence(
    channel: nat, at: int, source: nat, event: nat, score: real, reliability: real, events: nat, ttfb: Option<nat>)

  function SourceKey(width: nat): Evidence -> Key
    requires width > 0
  {
    (e: Evidence) => Key(e.channel, BucketAt(e.at, width), e.source)
  }

  predicate Replayed(known: seq<Evidence>, e: Evidence, width: nat)
    requires width > 0
  {
    exists k :: 0 <= k < |known| && SourceKey(width)(known[k]) == SourceKey(width)(e) && known[k].event == e.event
  }

  /** The first reading of each event of a source in a bucket. */
  function Distinct(evidence: seq<Evidence>, width: nat): seq<Evidence>
    requires width > 0
  {
    if evidence == [] then []
    else
      var known := Distinct(evidence[..|evidence| - 1], width);
      var e := evidence[|evidence| - 1];
      if Replayed(known, e, width) then known else known + [e]
  }

  /** What one source says of one bucket. */
  datatype Part = Part(key: Key, sources: set<nat>, score: real, reliability: real, events: nat, p95: Option<int>)

  function RealSum(rows: seq<Evidence>): real {
    if rows == [] then 0.0 else RealSum(rows[..|rows| - 1]) + rows[|rows| - 1].score
  }

  function MaxReliability(rows: seq<Evidence>): real
    requires rows != []
  {
    if |rows| == 1 then rows[0].reliability
    else
      var rest := MaxReliability(rows[1..]);
      if rows[0].reliability < rest then rest else rows[0].reliability
  }

  function EvidenceTtfb(rows: seq<Evidence>): seq<Option<nat>> {
    seq(|rows|, (k: nat) requires k < |rows| => rows[k].ttfb)
  }

  function EventsOf(e: Evidence): nat { e.events }

  function EvidencePart(k: Key, rows: seq<Evidence>): Part
    requires rows != []
  {
    Part(Key(k.channel, k.at, 0), {k.source}, RealSum(rows) / |rows| as real, MaxReliability(rows),
         Total(rows, EventsOf), NearestRank95(Measured(EvidenceTtfb(rows))))
  }

  function EvidenceParts(keys: seq<Key>, rows: seq<Evidence>, width: nat): seq<Part>
    requires width > 0 && forall k | k in keys :: Group(rows, SourceKey(width), k) != []
  {
    if keys == [] then []
    else [EvidencePart(keys[0], Group(rows, SourceKey(width), keys[0]))] + EvidenceParts(keys[1..], rows, width)
  }

  function TrafficParts(traffic: seq<Bucket>): seq<Part> {
    seq(|traffic|, (k: nat) requires k < |traffic| => TrafficPart(traffic[k]))
  }

  function TrafficPart(b: Bucket): Part {
    Part(Key(b.channel, b.at, 0), b.sources, b.score, b.quality, b.events, b.p95)
  }

  function PartKey(p: Part): Key { p.key }

  function PartEvents(p: Part): nat { p.events }

  function Parts(evidence: seq<Evidence>, traffic: seq<Bucket>, width: nat): seq<Part>
    requires width > 0
  {
    var rows := Distinct(evidence, width);
    KeysAreSorted(rows, SourceKey(width));
    EvidenceParts(KeysOf(rows, SourceKey(width)), rows, width) + TrafficParts(traffic)
  }

  function Terms(parts: seq<Part>): seq<Term> {
    seq(|parts|, (k: nat) requires k < |parts| => Term(parts[k].score, parts[k].reliability))
  }

  /** The chance that every source is wrong. */
  function Doubt(parts: seq<Part>): real {
    if parts == [] then 1.0 else Times(Doubt(parts[..|parts| - 1]), 1.0 - parts[|parts| - 1].reliability)
  }

  function Quality(parts: seq<Part>): real { 1.0 - Doubt(parts) }

  function SourcesOf(parts: seq<Part>): set<nat> {
    if parts == [] then {} else SourcesOf(parts[..|parts| - 1]) + parts[|parts| - 1].sources
  }

  function Slowest(parts: seq<Part>): Option<int> {
    if parts == [] then None
    else
      var rest, last := Slowest(parts[..|parts| - 1]), parts[|parts| - 1].p95;
      if rest.None? then last else if last.None? then rest else if rest.value < last.value then last else rest
  }

  function FusedBucket(k: Key, parts: seq<Part>): Bucket
    requires Weight(Terms(parts)) != 0.0
  {
    Bucket(k.channel, k.at, Dot(Terms(parts)) / Weight(Terms(parts)), Quality(parts), SourcesOf(parts),
           Total(parts, PartEvents), Slowest(parts))
  }

  datatype FusionError = DividesByZero

  function FuseKeys(keys: seq<Key>, parts: seq<Part>): Result<seq<Bucket>, FusionError> {
    if keys == [] then Ok([])
    else
      var group := Group(parts, PartKey, keys[0]);
      if Weight(Terms(group)) == 0.0 then Err(DividesByZero)
      else
        var rest := FuseKeys(keys[1..], parts);
        if rest.Err? then rest else Ok([FusedBucket(keys[0], group)] + rest.value)
  }

  function Fuse(evidence: seq<Evidence>, traffic: seq<Bucket>, width: nat): Result<seq<Bucket>, FusionError>
    requires width > 0
  {
    var parts := Parts(evidence, traffic, width);
    FuseKeys(KeysOf(parts, PartKey), parts)
  }

  lemma ReplayedInGroup(known: seq<Evidence>, e: Evidence, width: nat)
    requires width > 0
    ensures Replayed(known, e, width)
       <==> exists x :: x in Group(known, SourceKey(width), SourceKey(width)(e)) && x.event == e.event
  {
    var key := SourceKey(width);
    GroupFrom(known, key, key(e));
    forall k | 0 <= k < |known| && key(known[k]) == key(e) ensures known[k] in Group(known, key, key(e)) {
      GroupHas(known, key, k);
    }
  }

  lemma {:induction false} GroupHas<T(!new)>(rows: seq<T>, key: T -> Key, k: nat)
    requires k < |rows|
    ensures rows[k] in Group(rows, key, key(rows[k]))
  {
    if k < |rows| - 1 {
      GroupHas(rows[..|rows| - 1], key, k);
    }
  }

  method GroupEvidence(evidence: seq<Evidence>, width: nat) returns (keys: seq<Key>, groups: map<Key, seq<Evidence>>)
    requires width > 0
    ensures IsGrouped(keys, groups, Distinct(evidence, width), SourceKey(width))
  {
    var key := SourceKey(width);
    keys, groups := [], map[];
    for i := 0 to |evidence|
      invariant IsGrouped(keys, groups, Distinct(evidence[..i], width), key)
    {
      var e := evidence[i];
      ghost var known := Distinct(evidence[..i], width);
      assert evidence[..i + 1][..i] == evidence[..i];
      ReplayedInGroup(known, e, width);
      var k := key(e);
      if k !in groups {
        NoGroup(known, key, k);
      }
      if k !in groups || forall x | x in groups[k] :: x.event != e.event {
        GroupedGrows(keys, groups, known, key, e);
        keys, groups := WithKey(keys, k), GrownGroups(groups, k, e);
      }
    }
    assert evidence[..|evidence|] == evidence;
  }

  lemma NextPart(keys: seq<Key>, j: nat, rows: seq<Evidence>, width: nat)
    requires width > 0 && j < |keys| && forall k | k in keys :: Group(rows, SourceKey(width), k) != []
    ensures keys[j] in keys
    ensures EvidenceParts(keys[j..], rows, width)
            == [EvidencePart(keys[j], Group(rows, SourceKey(width), keys[j]))]
               + EvidenceParts(keys[j + 1..], rows, width)
  {
    assert keys[j..][0] == keys[j] && keys[j..][1..] == keys[j + 1..];
  }

  method PartsOf(keys: seq<Key>, groups: map<Key, seq<Evidence>>, width: nat,
          ghost rows: seq<Evidence>)
    returns (parts: seq<Part>)
    requires width > 0 && IsGrouped(keys, groups, rows, SourceKey(width))
    requires forall k | k in keys :: Group(rows, SourceKey(width), k) != []
    ensures parts == EvidenceParts(keys, rows, width)
  {
    parts := [];
    for j := 0 to |keys|
      invariant EvidenceParts(keys, rows, width) == parts + EvidenceParts(keys[j..], rows, width)
    {
      NextPart(keys, j, rows, width);
      var part := EvidencePart(keys[j], groups[keys[j]]);
      MoveFirst(parts, part, EvidenceParts(keys[j + 1..], rows, width));
      parts := parts + [part];
    }
  }

  method GroupParts(parts: seq<Part>) returns (keys: seq<Key>, groups: map<Key, seq<Part>>)
    ensures IsGrouped(keys, groups, parts, PartKey)
  {
    keys, groups := [], map[];
    for i := 0 to |parts|
      invariant IsGrouped(keys, groups, parts[..i], PartKey)
    {
      assert parts[..i + 1] == parts[..i] + [parts[i]];
      GroupedGrows(keys, groups, parts[..i], PartKey, parts[i]);
      keys, groups := WithKey(keys, parts[i].key), GrownGroups(groups, parts[i].key, parts[i]);
    }
    assert parts[..|parts|] == parts;
  }

  lemma {:induction false} FuseSplits(keys: seq<Key>, parts: seq<Part>, j: nat, done: seq<Bucket>)
    requires j < |keys| && FuseKeys(keys[..j], parts) == Ok(done)
    ensures var group := Group(parts, PartKey, keys[j]);
            if Weight(Terms(group)) == 0.0 then FuseKeys(keys, parts) == Err(DividesByZero)
            else FuseKeys(keys[..j + 1], parts) == Ok(done + [FusedBucket(keys[j], group)])
    decreases j
  {
    if j == 0 {
      assert keys[..1] == [keys[0]] && keys[..1][1..] == [];
      assert keys[..0] == [] && done == [];
      var b := Group(parts, PartKey, keys[0]);
      if Weight(Terms(b)) != 0.0 {
        assert [FusedBucket(keys[0], b)] + [] == [] + [FusedBucket(keys[0], b)];
      }
    } else {
      assert keys[..j][1..] == keys[1..][..j - 1] && keys[..j + 1][1..] == keys[1..][..j];
      FuseSplits(keys[1..], parts, j - 1, done[1..]);
      assert keys[1..][j - 1] == keys[j];
      var b := Group(parts, PartKey, keys[j]);
      if Weight(Terms(b)) != 0.0 {
        assert done + [FusedBucket(keys[j], b)] == [done[0]] + (done[1..] + [FusedBucket(keys[j], b)]);
      }
    }
  }

  method FuseEvidenceBuckets(evidence: seq<Evidence>, traffic: seq<Bucket>,
          width: nat)
    returns (r: Result<seq<Bucket>, FusionError>)
    requires width > 0
    ensures r == Fuse(evidence, traffic, width)
  {
    var sourceKeys, bySource := GroupEvidence(evidence, width);
    ghost var rows := Distinct(evidence, width);
    KeysAreSorted(rows, SourceKey(width));
    var own := PartsOf(sourceKeys, bySource, width, rows);
    var parts := own + TrafficParts(traffic);
    var keys, groups := GroupParts(parts);
    var fused: seq<Bucket> := [];
    for j := 0 to |keys|
      invariant FuseKeys(keys[..j], parts) == Ok(fused)
    {
      var group := groups[keys[j]];
      FuseSplits(keys, parts, j, fused);
      if Weight(Terms(group)) == 0.0 {
        return Err(DividesByZero);
      }
      fused := fused + [FusedBucket(keys[j], group)];
    }
    assert keys[..|keys|] == keys;
    r := Ok(fused);
  }

  // ----- What one bucket says -----

  lemma {:induction false} ScoreSumBetween(rows: seq<Observation>, lo: nat, hi: nat)
    requires forall k | 0 <= k < |rows| :: lo <= rows[k].score <= hi
    ensures lo * |rows| <= ScoreSum(rows) <= hi * |rows|
  {
    if rows != [] {
      var most := rows[..|rows| - 1];
      ScoreSumBetween(most, lo, hi);
      OneMore(lo, |most|);
      OneMore(hi, |most|);
      assert |rows| == |most| + 1;
    }
  }

  lemma OneMore(a: nat, n: nat)
    ensures a * (n + 1) == a * n + a
  {
  }

  /** A traffic bucket scores between the least and the greatest score of its events, and its
      quality is full from five events on. */
  lemma TrafficBucketBetween(k: Key, rows: seq<Observation>, lo: nat, hi: nat)
    requires rows != [] && forall i | 0 <= i < |rows| :: lo <= rows[i].score <= hi
    ensures var b := TrafficBucket(k, rows);
            && lo as real <= b.score <= hi as real && b.events == |rows|
            && 0.0 < b.quality <= 1.0 && (b.quality == 1.0 <==> |rows| >= 5)
  {
    ScoreSumBetween(rows, lo, hi);
    MeanBetween(ScoreSum(rows), |rows|, lo, hi);
  }

  lemma MeanBetween(sum: nat, n: nat, lo: nat, hi: nat)
    requires n > 0 && lo * n <= sum <= hi * n
    ensures lo as real <= sum as real / n as real <= hi as real
  {
    RealProduct(lo, n);
    RealProduct(hi, n);
    QuotientBetween(sum as real, n as real, lo as real, hi as real);
  }

  lemma RealProduct(a: nat, b: nat)
    ensures a as real * b as real == (a * b) as real
  {
  }

  lemma {:induction false} RealSumBetween(rows: seq<Evidence>, lo: real, hi: real)
    requires forall k | 0 <= k < |rows| :: lo <= rows[k].score <= hi
    ensures Times(lo, |rows| as real) <= RealSum(rows) <= Times(hi, |rows| as real)
  {
    if rows == [] {
      assert Times(lo, 0.0) == 0.0 && Times(hi, 0.0) == 0.0;
    } else {
      hide Times;
      RealSumBetween(rows[..|rows| - 1], lo, hi);
      assert |rows| as real == |rows[..|rows| - 1]| as real + 1.0;
      Distributes(lo, |rows[..|rows| - 1]| as real, 1.0);
      Distributes(hi, |rows[..|rows| - 1]| as real, 1.0);
      Units(lo);
      Units(hi);
      Commutes(lo, 1.0);
      Commutes(hi, 1.0);
    }
  }

  lemma {:induction false} ReliabilityIsMost(rows: seq<Evidence>)
    requires rows != []
    ensures forall e | e in rows :: e.reliability <= MaxReliability(rows)
    ensures exists e :: e in rows && e.reliability == MaxReliability(rows)
  {
    if |rows| == 1 {
      assert rows[0] in rows;
    } else {
      ReliabilityIsMost(rows[1..]);
      var e :| e in rows[1..] && e.reliability == MaxReliability(rows[1..]);
      assert e in rows && rows[0] in rows;
    }
  }

  /** What one source says scores between its own events and is as reliable as the best of them. */
  lemma EvidencePartBetween(k: Key, rows: seq<Evidence>, lo: real, hi: real)
    requires rows != [] && forall i | 0 <= i < |rows| :: lo <= rows[i].score <= hi
    ensures var part := EvidencePart(k, rows);
            && lo <= part.score <= hi && (forall e | e in rows :: e.reliability <= part.reliability)
            && (exists e :: e in rows && e.reliability == part.reliability)
  {
    RealSumBetween(rows, lo, hi);
    ReliabilityIsMost(rows);
    QuotientBetween(RealSum(rows), |rows| as real, lo, hi);
  }

  // ----- What fusion keeps -----

  lemma {:induction false} FusedEvents(keys: seq<Key>, parts: seq<Part>)
    requires FuseKeys(keys, parts).Ok?
    ensures EventTotal(FuseKeys(keys, parts).value) == GroupTotals(keys, parts, PartKey, PartEvents)
  {
    if keys != [] {
      FusedEvents(keys[1..], parts);
      var rest := FuseKeys(keys[1..], parts).value;
      var b := FusedBucket(keys[0], Group(parts, PartKey, keys[0]));
      assert ([b] + rest)[1..] == rest;
    }
  }

  lemma {:induction false} TotalBoth<T>(a: seq<T>, b: seq<T>, weight: T -> nat)
    ensures Total(a + b, weight) == Total(a, weight) + Total(b, weight)
    decreases |b|
  {
    if b == [] {
      assert a + b == a;
    } else {
      assert (a + b)[..|a + b| - 1] == a + b[..|b| - 1];
      TotalBoth(a, b[..|b| - 1], weight);
    }
  }

  lemma {:induction false} EvidencePartEvents(keys: seq<Key>, rows: seq<Evidence>, width: nat)
    requires width > 0 && forall k | k in keys :: Group(rows, SourceKey(width), k) != []
    ensures Total(EvidenceParts(keys, rows, width), PartEvents) == GroupTotals(keys, rows, SourceKey(width), EventsOf)
  {
    if keys != [] {
      assert keys[0] in keys;
      var first := EvidencePart(keys[0], Group(rows, SourceKey(width), keys[0]));
      var rest := EvidenceParts(keys[1..], rows, width);
      EvidencePartEvents(keys[1..], rows, width);
      TotalBoth([first], rest, PartEvents);
      TotalAppend([], first, PartEvents);
      assert [] + [first] == [first];
    }
  }

  function BucketEvents(b: Bucket): nat { b.events }

  lemma {:induction false} TrafficPartEvents(traffic: seq<Bucket>)
    ensures Total(TrafficParts(traffic), PartEvents) == Total(traffic, BucketEvents)
  {
    if traffic != [] {
      var most := traffic[..|traffic| - 1];
      TrafficPartEvents(most);
      assert TrafficParts(traffic)[..|traffic| - 1] == TrafficParts(most);
    }
  }

  /** Fusion loses and repeats no event: the fused buckets hold the events of the distinct evidence
      and those of the traffic buckets. */
  lemma FusionConserves(evidence: seq<Evidence>, traffic: seq<Bucket>, width: nat)
    requires width > 0 && Fuse(evidence, traffic, width).Ok?
    ensures EventTotal(Fuse(evidence, traffic, width).value)
            == Total(Distinct(evidence, width), EventsOf) + Total(traffic, BucketEvents)
  {
    var rows := Distinct(evidence, width);
    var keys := KeysOf(rows, SourceKey(width));
    var parts := Parts(evidence, traffic, width);
    KeysAreSorted(rows, SourceKey(width));
    KeysAreSorted(parts, PartKey);
    FusedEvents(KeysOf(parts, PartKey), parts);
    GroupsConserve(KeysOf(parts, PartKey), parts, PartKey, PartEvents);
    TotalBoth(EvidenceParts(keys, rows, width), TrafficParts(traffic), PartEvents);
    EvidencePartEvents(keys, rows, width);
    GroupsConserve(keys, rows, SourceKey(width), EventsOf);
    TrafficPartEvents(traffic);
  }

  /** Reading the same event of a source again in the same bucket changes nothing at all. */
  lemma ReplayChangesNothing(evidence: seq<Evidence>, traffic: seq<Bucket>, width: nat, e: Evidence)
    requires width > 0 && Replayed(evidence, e, width)
    ensures Fuse(evidence + [e], traffic, width) == Fuse(evidence, traffic, width)
  {
    assert (evidence + [e])[..|evidence|] == evidence;
    var k :| && 0 <= k < |evidence|
             && SourceKey(width)(evidence[k]) == SourceKey(width)(e) && evidence[k].event == e.event;
    DistinctKnows(evidence, width, k);
  }

  lemma {:induction false} DistinctKnows(evidence: seq<Evidence>, width: nat, k: nat)
    requires width > 0 && k < |evidence|
    ensures Replayed(Distinct(evidence, width), evidence[k], width)
  {
    var n := |evidence| - 1;
    var known := Distinct(evidence[..n], width);
    var all := Distinct(evidence, width);
    if k < n {
      DistinctKnows(evidence[..n], width, k);
      var m :| && 0 <= m < |known| && SourceKey(width)(known[m]) == SourceKey(width)(evidence[k])
               && known[m].event == evidence[k].event;
      assert all[m] == known[m];
    } else if !Replayed(known, evidence[n], width) {
      assert all[|known|] == evidence[n];
    }
  }

  predicate Reliable(parts: seq<Part>) { forall p | p in parts :: 0.0 <= p.reliability <= 1.0 }

  predicate ScoredWithin(parts: seq<Part>, lo: real, hi: real) {
    forall k | 0 <= k < |parts| :: lo <= parts[k].score <= hi
  }

  /** A fused score lies between the least and the greatest score of its sources. */
  lemma FusedBetween(k: Key, parts: seq<Part>, lo: real, hi: real)
    requires Reliable(parts) && ScoredWithin(parts, lo, hi) && Weight(Terms(parts)) != 0.0
    ensures lo <= FusedBucket(k, parts).score <= hi
  {
    assert forall i | 0 <= i < |parts| :: parts[i] in parts && Terms(parts)[i].weight == parts[i].reliability;
    WeightNonNegative(Terms(parts));
    DotBetween(Terms(parts), lo, hi);
    QuotientBetween(Dot(Terms(parts)), Weight(Terms(parts)), lo, hi);
  }

  predicate SameSlot(b: Bucket, k: Key) { b.channel == k.channel && b.at == k.at }

  lemma {:induction false} FusedSlots(keys: seq<Key>, parts: seq<Part>)
    requires FuseKeys(keys, parts).Ok?
    ensures var fused := FuseKeys(keys, parts).value;
            |fused| == |keys| && forall i | 0 <= i < |keys| :: SameSlot(fused[i], keys[i])
  {
    if keys != [] {
      FusedSlots(keys[1..], parts);
    }
  }

  /** Each fused score lies between the least and the greatest score of the sources of its bucket. */
  lemma {:induction false} FusedScores(keys: seq<Key>, parts: seq<Part>, i: nat, lo: real, hi: real)
    requires Reliable(parts) && FuseKeys(keys, parts).Ok? && i < |keys|
    requires ScoredWithin(Group(parts, PartKey, keys[i]), lo, hi)
    ensures var fused := FuseKeys(keys, parts).value;
            |fused| == |keys| && SameSlot(fused[i], keys[i]) && lo <= fused[i].score <= hi
    decreases |keys|
  {
    hide SameSlot, Reliable;
    FusedSlots(keys, parts);
    FusedSlots(keys[1..], parts);
    if i == 0 {
      FirstFused(keys, parts, lo, hi);
    } else {
      FusedScores(keys[1..], parts, i - 1, lo, hi);
    }
  }

  lemma FirstFused(keys: seq<Key>, parts: seq<Part>, lo: real, hi: real)
    requires Reliable(parts) && FuseKeys(keys, parts).Ok? && keys != []
    requires ScoredWithin(Group(parts, PartKey, keys[0]), lo, hi)
    ensures FuseKeys(keys, parts).value != [] && lo <= FuseKeys(keys, parts).value[0].score <= hi
  {
    GroupFrom(parts, PartKey, keys[0]);
    FusedBetween(keys[0], Group(parts, PartKey, keys[0]), lo, hi);
  }

  predicate BucketBefore(a: Bucket, b: Bucket) { a.channel < b.channel || (a.channel == b.channel && a.at < b.at) }

  lemma {:induction false} EvidenceSlots(keys: seq<Key>, rows: seq<Evidence>, width: nat)
    requires width > 0 && forall k | k in keys :: Group(rows, SourceKey(width), k) != []
    ensures forall p | p in EvidenceParts(keys, rows, width) :: p.key.source == 0
  {
    if keys != [] {
      EvidenceSlots(keys[1..], rows, width);
    }
  }

  lemma PartsHaveNoSource(evidence: seq<Evidence>, traffic: seq<Bucket>, width: nat)
    requires width > 0
    ensures forall p | p in Parts(evidence, traffic, width) :: p.key.source == 0
  {
    var rows := Distinct(evidence, width);
    KeysAreSorted(rows, SourceKey(width));
    EvidenceSlots(KeysOf(rows, SourceKey(width)), rows, width);
  }

  lemma KeysArePartKeys(parts: seq<Part>)
    ensures forall k | k in KeysOf(parts, PartKey) :: exists p :: p in parts && p.key == k
    ensures forall p | p in parts :: p.key in KeysOf(parts, PartKey)
  {
    KeysAreSorted(parts, PartKey);
    forall k | k in KeysOf(parts, PartKey) ensures exists p :: p in parts && p.key == k {
      GroupFrom(parts, PartKey, k);
      var p := Group(parts, PartKey, k)[0];
      assert p in Group(parts, PartKey, k);
    }
    forall p | p in parts ensures p.key in KeysOf(parts, PartKey) {
      var i :| 0 <= i < |parts| && parts[i] == p;
      assert PartKey(parts[i]) in KeysOf(parts, PartKey);
    }
  }

  lemma SlotsInOrder(keys: seq<Key>, fused: seq<Bucket>)
    requires |fused| == |keys| && Ascending(keys) && forall i | 0 <= i < |keys| :: SameSlot(fused[i], keys[i])
    requires forall k | k in keys :: k.source == 0
    ensures forall i, j | 0 <= i < j < |fused| :: BucketBefore(fused[i], fused[j])
  {
    forall i, j | 0 <= i < j < |fused| ensures BucketBefore(fused[i], fused[j]) {
      assert KeyBefore(keys[i], keys[j]) && keys[i] in keys && keys[j] in keys;
    }
  }

  lemma SlotOf(keys: seq<Key>, fused: seq<Bucket>, k: Key)
    requires |fused| == |keys| && k in keys && forall i | 0 <= i < |keys| :: SameSlot(fused[i], keys[i])
    ensures exists b :: b in fused && SameSlot(b, k)
  {
    var i :| 0 <= i < |keys| && keys[i] == k;
    assert fused[i] in fused;
  }

  lemma FusedPartsInOrder(parts: seq<Part>)
    requires FuseKeys(KeysOf(parts, PartKey), parts).Ok? && forall p | p in parts :: p.key.source == 0
    ensures var fused := FuseKeys(KeysOf(parts, PartKey), parts).value;
            && (forall i, j | 0 <= i < j < |fused| :: BucketBefore(fused[i], fused[j]))
            && (forall p | p in parts :: exists b :: b in fused && SameSlot(b, p.key))
            && (forall b | b in fused :: exists p :: p in parts && SameSlot(b, p.key))
  {
    var keys := KeysOf(parts, PartKey);
    var fused := FuseKeys(keys, parts).value;
    FusedSlots(keys, parts);
    KeysAreSorted(parts, PartKey);
    KeysArePartKeys(parts);
    hide *;
    SlotsInOrder(keys, fused);
    forall p | p in parts ensures exists b :: b in fused && SameSlot(b, p.key) {
      SlotOf(keys, fused, p.key);
    }
    forall b | b in fused ensures exists p :: p in parts && SameSlot(b, p.key) {
      var i :| 0 <= i < |fused| && fused[i] == b;
      assert keys[i] in keys;
    }
  }

  /** Fusion gives its buckets in the order of channel and time, each pair once, and exactly for
      the pairs that some source speaks of. */
  lemma FusedInOrder(evidence: seq<Evidence>, traffic: seq<Bucket>, width: nat)
    requires width > 0 && Fuse(evidence, traffic, width).Ok?
    ensures var fused, parts := Fuse(evidence, traffic, width).value, Parts(evidence, traffic, width);
            && (forall i, j | 0 <= i < j < |fused| :: BucketBefore(fused[i], fused[j]))
            && (forall p | p in parts :: exists b :: b in fused && SameSlot(b, p.key))
            && (forall b | b in fused :: exists p :: p in parts && SameSlot(b, p.key))
  {
    var parts := Parts(evidence, traffic, width);
    PartsHaveNoSource(evidence, traffic, width);
    hide Parts;
    FusedPartsInOrder(parts);
  }

  lemma {:induction false} DoubtIsFraction(parts: seq<Part>)
    requires Reliable(parts)
    ensures 0.0 <= Doubt(parts) <= 1.0
  {
    if parts != [] {
      var last := parts[|parts| - 1];
      DoubtIsFraction(parts[..|parts| - 1]);
      FractionProduct(Doubt(parts[..|parts| - 1]), 1.0 - last.reliability);
    }
  }

  /** One more source never lowers the quality, which stays a fraction and is at least what the new
      source alone is worth. */
  lemma SourceAddsQuality(parts: seq<Part>, more: Part)
    requires Reliable(parts) && 0.0 <= more.reliability <= 1.0
    ensures Quality(parts) <= Quality(parts + [more]) <= 1.0
    ensures more.reliability <= Quality(parts + [more])
  {
    assert (parts + [more])[..|parts|] == parts;
    var before, rest, after := Doubt(parts), 1.0 - more.reliability, Doubt(parts + [more]);
    assert after == Times(before, rest);
    DoubtIsFraction(parts);
    FractionProduct(before, rest);
    hide Times;
  }

  lemma {:induction false} NoWeight(terms: seq<Term>)
    requires NonNegative(terms)
    ensures Weight(terms) == 0.0 <==> forall k | 0 <= k < |terms| :: terms[k].weight == 0.0
  {
    if terms != [] {
      NoWeight(terms[1..]);
      WeightNonNegative(terms[1..]);
      assert forall k | 0 < k < |terms| :: terms[k] == terms[1..][k - 1];
    }
  }

  /** No source of this bucket has any reliability. */
  ghost predicate Worthless(parts: seq<Part>, k: Key) {
    forall p | p in Group(parts, PartKey, k) :: p.reliability == 0.0
  }

  lemma WorthlessMeansNoWeight(parts: seq<Part>, k: Key)
    requires Reliable(parts)
    ensures Weight(Terms(Group(parts, PartKey, k))) == 0.0 <==> Worthless(parts, k)
  {
    var group := Group(parts, PartKey, k);
    GroupFrom(parts, PartKey, k);
    assert forall i | 0 <= i < |group| :: group[i] in group && Terms(group)[i].weight == group[i].reliability;
    NoWeight(Terms(group));
  }

  /** Fusion divides by zero exactly when all sources of some bucket have no reliability at all. */
  lemma {:induction false} FusionFailsIf(keys: seq<Key>, parts: seq<Part>)
    requires Reliable(parts)
    ensures FuseKeys(keys, parts).Err? <==> exists k :: k in keys && Worthless(parts, k)
  {
    if keys != [] {
      FusionFailsIf(keys[1..], parts);
      WorthlessMeansNoWeight(parts, keys[0]);
      assert forall k | k in keys :: k == keys[0] || k in keys[1..];
    }
  }

  // ----- What a bucket covers -----

  /** The bucket time is the multiple of the width at or below the event's time: a bucket holds the
      events of one width and no other. */
  lemma BucketCovers(at: int, width: nat, start: int)
    requires width > 0
    ensures BucketAt(at, width) <= at < BucketAt(at, width) + width && BucketAt(at, width) % width == 0
    ensures start % width == 0 ==> (BucketAt(at, width) == start <==> start <= at < start + width)
  {
    MultipleBelow(at, width);
    if start % width == 0 && start <= at < start + width {
      OneMultiple(start, BucketAt(at, width), width);
    }
  }

  lemma MultipleBelow(at: int, width: nat)
    requires width > 0
    ensures (at - at % width) % width == 0
  {
    assert at - at % width == (at / width) * width;
    MultipleHasNoRest(at / width, width);
  }

  lemma MultipleHasNoRest(n: int, width: nat)
    requires width > 0
    ensures (n * width) % width == 0
  {
    RestIsUnique(n * width, n, (n * width) / width, width, (n * width) % width);
  }

  lemma RestIsUnique(x: int, n: int, m: int, width: nat, rest: int)
    requires width > 0 && x == n * width && x == m * width + rest && 0 <= rest < width
    ensures rest == 0
  {
    assert (n - m) * width == rest && (m - n) * width == -rest;
    if n > m {
      WideProduct(n - m, width);
    } else if n < m {
      WideProduct(m - n, width);
    }
  }

  lemma WideProduct(n: int, width: nat)
    requires n >= 1
    ensures n * width >= width
  {
    NaturalProduct(n - 1, width);
    assert n * width == (n - 1) * width + width;
  }

  lemma NaturalProduct(n: nat, width: nat)
    ensures n * width >= 0
  {
  }

  /** Multiples of the width less than one width apart are equal. */
  lemma OneMultiple(a: int, b: int, width: nat)
    requires width > 0 && a % width == 0 && b % width == 0 && a - b < width && b - a < width
    ensures a == b
  {
    var n, m := a / width, b / width;
    assert a == n * width && b == m * width;
    assert (n - m) * width == a - b && (m - n) * width == b - a;
    if n > m {
      WideProduct(n - m, width);
    } else if n < m {
      WideProduct(m - n, width);
    }
  }

  lemma GroupHasKey<T>(rows: seq<T>, key: T -> Key, k: Key, x: T)
    requires x in Group(rows, key, k)
    ensures x in rows && key(x) == k
  {
    GroupFrom(rows, key, k);
  }
}
