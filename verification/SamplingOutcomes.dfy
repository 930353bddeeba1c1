/** What is in a bucket of traffic, and in a fused bucket, in terms of the observations and readings. */
module SamplingOutcomes {
  import opened Common
  import opened Counting
  import opened Sorting
  import opened WeightedAverage
  import opened Grouping
  import opened Sampling

  // ----- The percentile -----

  function Timed(ttfb: seq<Option<nat>>): set<nat> { Places(ttfb, (t: Option<nat>) => t.Some?) }

  function TimedWithin(ttfb: seq<Option<nat>>, x: int): set<nat> {
    Places(ttfb, (t: Option<nat>) => t.Some? && t.value <= x)
  }

  /** The least time that at least 95 percent of the measured times do not exceed. */
  ghost predicate IsP95(ttfb: seq<Option<nat>>, r: Option<int>) {
    && (r.None? <==> Timed(ttfb) == {})
    && (r.Some? ==> && 20 * |TimedWithin(ttfb, r.value)| >= 19 * |Timed(ttfb)|
                    && forall x | x < r.value :: 20 * |TimedWithin(ttfb, x)| < 19 * |Timed(ttfb)|)
  }

  lemma {:induction false} CountAppend(s: seq<int>, v: int, x: int)
    ensures CountAtMost(s + [v], x) == CountAtMost(s, x) + if v <= x then 1 else 0
  {
    if s == [] {
      assert [v][1..] == [];
    } else {
      assert (s + [v])[1..] == s[1..] + [v];
      CountAppend(s[1..], v, x);
    }
  }

  lemma MeasuredStep(ttfb: seq<Option<nat>>) returns (head: seq<int>)
    requires ttfb != []
    ensures head == if ttfb[0].Some? then [ttfb[0].value] else []
    ensures Measured(ttfb) == head + Measured(ttfb[1..])
  {
    head := if ttfb[0].Some? then [ttfb[0].value] else [];
  }

  lemma {:induction false} MeasuredAppend(ttfb: seq<Option<nat>>, t: Option<nat>)
    ensures Measured(ttfb + [t]) == Measured(ttfb) + if t.Some? then [t.value] else []
  {
    if ttfb == [] {
      assert [t][1..] == [];
    } else {
      hide Measured;
      assert (ttfb + [t])[1..] == ttfb[1..] + [t];
      var all := MeasuredStep(ttfb + [t]);
      var head := MeasuredStep(ttfb);
      MeasuredAppend(ttfb[1..], t);
    }
  }

  lemma {:induction false} MeasuredAreCounted(ttfb: seq<Option<nat>>, x: int)
    ensures |Measured(ttfb)| == |Timed(ttfb)|
    ensures CountAtMost(Measured(ttfb), x) == |TimedWithin(ttfb, x)|
    decreases |ttfb|
  {
    if ttfb == [] {
      assert Timed(ttfb) == {} && TimedWithin(ttfb, x) == {};
    } else {
      var most, last := ttfb[..|ttfb| - 1], ttfb[|ttfb| - 1];
      MeasuredAreCounted(most, x);
      PlacesOneMore(ttfb, (t: Option<nat>) => t.Some?);
      PlacesOneMore(ttfb, (t: Option<nat>) => t.Some? && t.value <= x);
      assert ttfb == most + [last];
      MeasuredAppend(most, last);
      if last.Some? { CountAppend(Measured(most), last.value, x); }
      assert Measured(most) + [] == Measured(most);
      hide Places, Measured, CountAtMost;
    }
  }

  lemma P95Exactly(ttfb: seq<Option<nat>>)
    ensures IsP95(ttfb, NearestRank95(Measured(ttfb)))
  {
    forall x ensures |Measured(ttfb)| == |Timed(ttfb)| && CountAtMost(Measured(ttfb), x) == |TimedWithin(ttfb, x)| {
      MeasuredAreCounted(ttfb, x);
    }
    hide Timed, TimedWithin, Measured, CountAtMost;
    if Measured(ttfb) != [] { NearestRankIsLeast(Measured(ttfb)); }
  }

  // ----- Traffic -----

  /** The first observation of each request. */
  function FirstOnes(observations: seq<Observation>): seq<Observation> {
    if observations == [] then []
    else
      var most, last := observations[..|observations| - 1], observations[|observations| - 1];
      FirstOnes(most) + if forall o | o in most :: o.hash != last.hash then [last] else []
  }

  predicate IsTraffic(o: Observation) { !o.monitor && o.channel.Some? }

  predicate IsMonitor(o: Observation) { o.monitor }

  predicate IsUnattributed(o: Observation) { !o.monitor && o.channel.None? }

  function Hashes(observations: seq<Observation>): set<nat> { set o | o in observations :: o.hash }

  lemma {:induction false} SiftSeen(observations: seq<Observation>)
    requires Sift(observations).Some?
    ensures Sift(observations).value.seen.Keys == Hashes(observations)
  {
    if observations != [] {
      var most, last := observations[..|observations| - 1], observations[|observations| - 1];
      SiftSeen(most);
      assert observations == most + [last];
      assert Hashes(observations) == Hashes(most) + {last.hash};
    }
  }

  lemma SiftStep(observations: seq<Observation>)
    requires observations != [] && Sift(observations).Some?
    ensures var most, last := observations[..|observations| - 1], observations[|observations| - 1];
            && Sift(most).Some? && SiftOne(Sift(most).value, last) == Sift(observations)
            && FirstOnes(observations)
               == FirstOnes(most) + (if last.hash in Sift(most).value.seen then [] else [last])
  {
    SiftSeen(observations[..|observations| - 1]);
  }

  lemma FirstCounts(firsts: seq<Observation>, o: Observation)
    ensures |Places(firsts + [o], IsMonitor)| == |Places(firsts, IsMonitor)| + if o.monitor then 1 else 0
    ensures |Places(firsts + [o], IsUnattributed)|
         == |Places(firsts, IsUnattributed)| + if IsUnattributed(o) then 1 else 0
    ensures Only(firsts + [o], IsTraffic) == Only(firsts, IsTraffic) + if IsTraffic(o) then [o] else []
  {
    assert (firsts + [o])[..|firsts|] == firsts;
    PlacesOneMore(firsts + [o], IsMonitor);
    PlacesOneMore(firsts + [o], IsUnattributed);
  }

  /** Each observation is a repetition, or the first of its request: then it is a monitor request, or
      belongs to no channel, or is kept. */
  lemma {:induction false} SiftMeans(observations: seq<Observation>)
    requires Sift(observations).Some?
    ensures var s, firsts := Sift(observations).value, FirstOnes(observations);
            && s.duplicates + |firsts| == |observations|
            && s.monitors == |Places(firsts, IsMonitor)| && s.unattributed == |Places(firsts, IsUnattributed)|
            && s.kept == Only(firsts, IsTraffic)
  {
    if observations == [] {
      assert Places(FirstOnes(observations), IsMonitor) == {} && Places(FirstOnes(observations), IsUnattributed) == {};
    } else {
      hide Sift, FirstOnes, Places, Only;
      var most, last := observations[..|observations| - 1], observations[|observations| - 1];
      SiftStep(observations);
      SiftMeans(most);
      FirstCounts(FirstOnes(most), last);
      assert FirstOnes(most) + [] == FirstOnes(most);
      assert Only(FirstOnes(most), IsTraffic) + [] == Only(FirstOnes(most), IsTraffic);
    }
  }

  /** A first request of this channel, not of a monitor, in the time from `start` on. */
  predicate InSlot(o: Observation, channel: nat, start: int, width: nat) {
    !o.monitor && o.channel == Some(channel) && start <= o.at < start + width
  }

  function Slot(observations: seq<Observation>, channel: nat, start: int, width: nat): seq<Observation> {
    Only(FirstOnes(observations), (o: Observation) => InSlot(o, channel, start, width))
  }

  lemma KeyMeans(o: Observation, width: nat, k: Key)
    requires width > 0 && k.at % width == 0 && k.source == TRAFFIC
    ensures IsTraffic(o) && TrafficKey(width)(o) == k <==> InSlot(o, k.channel, k.at, width)
  {
    BucketCovers(o.at, width, k.at);
  }

  /** The requests of one slot among these first ones. */
  function SlotOf(firsts: seq<Observation>, width: nat, k: Key): seq<Observation> {
    Only(firsts, (o: Observation) => InSlot(o, k.channel, k.at, width))
  }

  lemma SlotStep(firsts: seq<Observation>, width: nat, k: Key)
    requires firsts != []
    ensures var most, last := firsts[..|firsts| - 1], firsts[|firsts| - 1];
            && SlotOf(firsts, width, k)
               == SlotOf(most, width, k) + (if InSlot(last, k.channel, k.at, width) then [last] else [])
            && Only(firsts, IsTraffic) == Only(most, IsTraffic) + (if IsTraffic(last) then [last] else [])
  {
  }

  lemma {:induction false} GroupOfOnly(firsts: seq<Observation>, width: nat, k: Key)
    requires width > 0 && k.at % width == 0 && k.source == TRAFFIC
    ensures Group(Only(firsts, IsTraffic), TrafficKey(width), k) == SlotOf(firsts, width, k)
  {
    if firsts != [] {
      var most, last := firsts[..|firsts| - 1], firsts[|firsts| - 1];
      var before := Only(most, IsTraffic);
      hide Only, Group, SlotOf, InSlot, IsTraffic, TrafficKey, BucketAt;
      GroupOfOnly(most, width, k);
      SlotStep(firsts, width, k);
      KeyMeans(last, width, k);
      GroupAppend(before, last, TrafficKey(width), k);
      assert before + [] == before && SlotOf(most, width, k) + [] == SlotOf(most, width, k);
    }
  }

  lemma KeyIsSlot(kept: seq<Observation>, width: nat, k: Key)
    requires width > 0 && k in KeysOf(kept, TrafficKey(width))
    ensures k.at % width == 0 && k.source == TRAFFIC
  {
    KeysAreSorted(kept, TrafficKey(width));
    var o := Group(kept, TrafficKey(width), k)[0];
    assert o in Group(kept, TrafficKey(width), k);
    GroupHasKey(kept, TrafficKey(width), k, o);
    BucketCovers(o.at, width, k.at);
  }

  /** A traffic bucket says of its slot: how many requests, their mean score, full quality from five
      on, and their percentile. */
  ghost predicate Tells(b: Bucket, slot: seq<Observation>) {
    && b.events == |slot| > 0 && b.sources == {TRAFFIC}
    && Times(b.score, |slot| as real) == Sum(slot, (o: Observation) => o.score as real)
    && b.quality == (if |slot| >= 5 then 1.0 else |slot| as real / 5.0)
    && IsP95(seq(|slot|, (i: nat) requires i < |slot| => slot[i].ttfb), b.p95)
  }

  lemma {:induction false} ScoresAdd(rows: seq<Observation>)
    ensures ScoreSum(rows) as real == Sum(rows, (o: Observation) => o.score as real)
  {
    if rows != [] {
      ScoresAdd(rows[..|rows| - 1]);
    }
  }

  lemma QuotientTimes(sum: real, n: real)
    requires n > 0.0
    ensures Times(sum / n, n) == sum
  {
  }

  lemma TimesOfSlot(rows: seq<Observation>)
    ensures TtfbOf(rows) == seq(|rows|, (i: nat) requires i < |rows| => rows[i].ttfb)
  {
  }

  lemma BucketTells(k: Key, rows: seq<Observation>)
    requires rows != []
    ensures Tells(TrafficBucket(k, rows), rows) && SameSlot(TrafficBucket(k, rows), k)
  {
    hide ScoreSum, IsP95, TtfbOf, NearestRank95, Measured, Times, Sum;
    ScoresAdd(rows);
    QuotientTimes(ScoreSum(rows) as real, |rows| as real);
    P95Exactly(TtfbOf(rows));
    TimesOfSlot(rows);
  }

  lemma {:induction false} TrafficBucketAt(keys: seq<Key>, kept: seq<Observation>, width: nat, i: nat)
    requires width > 0 && forall k | k in keys :: Group(kept, TrafficKey(width), k) != []
    requires i < |keys|
    ensures |TrafficBuckets(keys, kept, width)| == |keys|
    ensures TrafficBuckets(keys, kept, width)[i] == TrafficBucket(keys[i], Group(kept, TrafficKey(width), keys[i]))
    decreases |keys|
  {
    if i > 0 { TrafficBucketAt(keys[1..], kept, width, i - 1); }
    else if |keys| > 1 { TrafficBucketAt(keys[1..], kept, width, 0); }
  }

  /** Traffic is refused for a width out of bounds, and for one request with two contents; otherwise the
      rest of the observations is told apart. */
  lemma TrafficCountsExactly(observations: seq<Observation>, width: nat)
    ensures var r, firsts := BuildTraffic(observations, width), FirstOnes(observations);
            var bounded := 30 <= width && width <= 300;
            && (r == Err(BadWidth) <==> !bounded)
            && (r == Err(ChangedObservation) <==> bounded && !SameHashSame(observations))
            && (r.Ok? ==> && r.value.duplicates + |firsts| == |observations|
                          && r.value.monitors == |Places(firsts, IsMonitor)|
                          && r.value.unattributed == |Places(firsts, IsUnattributed)|)
  {
    if 30 <= width <= 300 { RefusedIfChanged(observations, width); }
    if BuildTraffic(observations, width).Ok? { SiftMeans(observations); }
    hide Sift, FirstOnes, Places, SameHashSame;
  }

  lemma SlotIsGroup(observations: seq<Observation>, width: nat, k: Key)
    requires Sift(observations).Some? && width > 0 && k.at % width == 0 && k.source == TRAFFIC
    ensures Group(Sift(observations).value.kept, TrafficKey(width), k) == Slot(observations, k.channel, k.at, width)
  {
    SiftMeans(observations);
    GroupOfOnly(FirstOnes(observations), width, k);
    assert SlotOf(FirstOnes(observations), width, k) == Slot(observations, k.channel, k.at, width);
  }

  lemma BucketIsTold(observations: seq<Observation>, width: nat, i: nat)
    requires BuildTraffic(observations, width).Ok?
    requires i < |KeysOf(Sift(observations).value.kept, TrafficKey(width))|
    ensures var keys := KeysOf(Sift(observations).value.kept, TrafficKey(width));
            var buckets := BuildTraffic(observations, width).value.buckets;
            && |buckets| == |keys| && SameSlot(buckets[i], keys[i])
            && keys[i].at % width == 0 && keys[i].source == 0
            && Tells(buckets[i], Slot(observations, keys[i].channel, keys[i].at, width))
  {
    var kept := Sift(observations).value.kept;
    var keys := KeysOf(kept, TrafficKey(width));
    KeysAreSorted(kept, TrafficKey(width));
    KeyIsSlot(kept, width, keys[i]);
    SlotIsGroup(observations, width, keys[i]);
    TrafficBucketAt(keys, kept, width, i);
    BucketTells(keys[i], Group(kept, TrafficKey(width), keys[i]));
    hide KeysOf, Group, Slot, Tells, TrafficBucket, TrafficBuckets, Sift;
  }

  lemma NoBucketless(observations: seq<Observation>, width: nat, channel: nat, start: int)
    requires Sift(observations).Some? && width > 0 && start % width == 0
    requires Slot(observations, channel, start, width) != []
    ensures Key(channel, start, TRAFFIC) in KeysOf(Sift(observations).value.kept, TrafficKey(width))
  {
    var kept, k := Sift(observations).value.kept, Key(channel, start, TRAFFIC);
    SlotIsGroup(observations, width, k);
    var o := Group(kept, TrafficKey(width), k)[0];
    assert o in Group(kept, TrafficKey(width), k);
    GroupHasKey(kept, TrafficKey(width), k, o);
    KeysAreSorted(kept, TrafficKey(width));
    var i :| 0 <= i < |kept| && kept[i] == o;
  }

  /** There is one bucket for each slot in which a request falls, in the order of channel and time, and
      it tells of the requests of its slot. */
  lemma TrafficExactly(observations: seq<Observation>, width: nat)
    requires BuildTraffic(observations, width).Ok?
    ensures var buckets := BuildTraffic(observations, width).value.buckets;
            && (forall i | 0 <= i < |buckets| ::
                  && buckets[i].at % width == 0
                  && Tells(buckets[i], Slot(observations, buckets[i].channel, buckets[i].at, width)))
            && (forall i, j | 0 <= i < j < |buckets| :: BucketBefore(buckets[i], buckets[j]))
            && (forall channel: nat, start: int |
                  start % width == 0 && Slot(observations, channel, start, width) != [] ::
                  exists i :: 0 <= i < |buckets| && buckets[i].channel == channel && buckets[i].at == start)
  {
    var buckets := BuildTraffic(observations, width).value.buckets;
    var keys := KeysOf(Sift(observations).value.kept, TrafficKey(width));
    KeysAreSorted(Sift(observations).value.kept, TrafficKey(width));
    if keys == [] { assert buckets == []; }
    hide KeysOf, Slot, Tells, Sift, BuildTraffic;
    forall i | 0 <= i < |keys|
      ensures |buckets| == |keys| && SameSlot(buckets[i], keys[i]) && keys[i].source == 0
      ensures keys[i].at % width == 0 && Tells(buckets[i], Slot(observations, keys[i].channel, keys[i].at, width))
    {
      BucketIsTold(observations, width, i);
    }
    SlotsInOrder(keys, buckets);
    forall channel: nat, start: int | start % width == 0 && Slot(observations, channel, start, width) != []
      ensures exists i :: 0 <= i < |buckets| && buckets[i].channel == channel && buckets[i].at == start
    {
      NoBucketless(observations, width, channel, start);
      var i :| 0 <= i < |keys| && keys[i] == Key(channel, start, TRAFFIC);
      assert SameSlot(buckets[i], keys[i]);
    }
  }

  // ----- What one source says -----

  /** Two readings of one event of a source, in one bucket. */
  predicate SameReading(a: Evidence, b: Evidence, width: nat)
    requires width > 0
  {
    && a.channel == b.channel && a.source == b.source && a.event == b.event
    && BucketAt(a.at, width) == BucketAt(b.at, width)
  }

  predicate IsRead(rows: seq<Evidence>, e: Evidence, width: nat)
    requires width > 0
  {
    exists x :: x in rows && SameReading(x, e, width)
  }

  /** The first reading of each event. */
  function FirstReadings(evidence: seq<Evidence>, width: nat): seq<Evidence>
    requires width > 0
  {
    if evidence == [] then []
    else
      var most, last := evidence[..|evidence| - 1], evidence[|evidence| - 1];
      FirstReadings(most, width) + if IsRead(most, last, width) then [] else [last]
  }

  lemma ReadOneMore(rows: seq<Evidence>, last: Evidence, e: Evidence, width: nat)
    requires width > 0
    ensures IsRead(rows + [last], e, width) <==> IsRead(rows, e, width) || SameReading(last, e, width)
  {
    var all := rows + [last];
    if IsRead(rows, e, width) {
      var x :| x in rows && SameReading(x, e, width);
      assert x in all;
    }
    if SameReading(last, e, width) { assert last in all; }
  }

  lemma {:induction false} ReadFirst(evidence: seq<Evidence>, e: Evidence, width: nat)
    requires width > 0
    ensures IsRead(FirstReadings(evidence, width), e, width) <==> IsRead(evidence, e, width)
  {
    if evidence != [] {
      var most, last := evidence[..|evidence| - 1], evidence[|evidence| - 1];
      var firsts := FirstReadings(most, width);
      ReadFirst(most, e, width);
      ReadOneMore(most, last, e, width);
      ReadOneMore(firsts, last, e, width);
      assert evidence == most + [last] && firsts + [] == firsts;
      if IsRead(most, last, width) && SameReading(last, e, width) {
        var x :| x in most && SameReading(x, last, width);
        assert SameReading(x, e, width);
      }
      hide IsRead, SameReading;
    }
  }

  lemma ReplayedMeans(known: seq<Evidence>, e: Evidence, width: nat)
    requires width > 0
    ensures Replayed(known, e, width) <==> IsRead(known, e, width)
  {
    if Replayed(known, e, width) {
      var k :| 0 <= k < |known| && SourceKey(width)(known[k]) == SourceKey(width)(e) && known[k].event == e.event;
      assert SameReading(known[k], e, width);
    }
    if IsRead(known, e, width) {
      var x :| x in known && SameReading(x, e, width);
      var k :| 0 <= k < |known| && known[k] == x;
      assert SourceKey(width)(known[k]) == SourceKey(width)(e);
    }
  }

  lemma {:induction false} DistinctMeans(evidence: seq<Evidence>, width: nat)
    requires width > 0
    ensures Distinct(evidence, width) == FirstReadings(evidence, width)
  {
    if evidence != [] {
      var most, last := evidence[..|evidence| - 1], evidence[|evidence| - 1];
      DistinctMeans(most, width);
      ReplayedMeans(Distinct(most, width), last, width);
      ReadFirst(most, last, width);
      assert FirstReadings(most, width) + [] == FirstReadings(most, width);
      hide IsRead, Replayed;
    }
  }

  predicate IsReading(e: Evidence, channel: nat, start: int, source: nat, width: nat) {
    e.channel == channel && e.source == source && start <= e.at < start + width
  }

  /** The first readings of a source in a bucket. */
  function Readings(evidence: seq<Evidence>, width: nat, channel: nat, start: int, source: nat): seq<Evidence>
    requires width > 0
  {
    Only(FirstReadings(evidence, width), (e: Evidence) => IsReading(e, channel, start, source, width))
  }

  lemma {:induction false} GroupIsReadings(rows: seq<Evidence>, width: nat, k: Key)
    requires width > 0 && k.at % width == 0
    ensures Group(rows, SourceKey(width), k)
         == Only(rows, (e: Evidence) => IsReading(e, k.channel, k.at, k.source, width))
  {
    if rows != [] {
      GroupIsReadings(rows[..|rows| - 1], width, k);
      BucketCovers(rows[|rows| - 1].at, width, k.at);
    }
  }

  /** A part says of the readings behind it: their mean score, the best reliability, all events, and the
      percentile. */
  ghost predicate Speaks(p: Part, rows: seq<Evidence>) {
    && rows != [] && Times(p.score, |rows| as real) == Sum(rows, (e: Evidence) => e.score)
    && (exists e :: e in rows && e.reliability == p.reliability)
    && (forall e | e in rows :: e.reliability <= p.reliability)
    && p.events == Total(rows, EventsOf)
    && IsP95(seq(|rows|, (i: nat) requires i < |rows| => rows[i].ttfb), p.p95)
  }

  lemma {:induction false} ReadingsAdd(rows: seq<Evidence>)
    ensures RealSum(rows) == Sum(rows, (e: Evidence) => e.score)
  {
    if rows != [] {
      ReadingsAdd(rows[..|rows| - 1]);
    }
  }

  lemma TimesOfReadings(rows: seq<Evidence>)
    ensures EvidenceTtfb(rows) == seq(|rows|, (i: nat) requires i < |rows| => rows[i].ttfb)
  {
  }

  lemma PartSpeaks(k: Key, rows: seq<Evidence>)
    requires rows != []
    ensures Speaks(EvidencePart(k, rows), rows)
  {
    hide RealSum, IsP95, EvidenceTtfb, NearestRank95, Measured, MaxReliability, Times, Sum, Total;
    ReadingsAdd(rows);
    QuotientTimes(RealSum(rows), |rows| as real);
    P95Exactly(EvidenceTtfb(rows));
    TimesOfReadings(rows);
    ReliabilityIsMost(rows);
  }

  lemma {:induction false} EvidencePartAt(keys: seq<Key>, rows: seq<Evidence>, width: nat, i: nat)
    requires width > 0 && forall k | k in keys :: Group(rows, SourceKey(width), k) != []
    requires i < |keys|
    ensures |EvidenceParts(keys, rows, width)| == |keys|
    ensures EvidenceParts(keys, rows, width)[i] == EvidencePart(keys[i], Group(rows, SourceKey(width), keys[i]))
    decreases |keys|
  {
    if i > 0 { EvidencePartAt(keys[1..], rows, width, i - 1); }
    else if |keys| > 1 { EvidencePartAt(keys[1..], rows, width, 0); }
  }

  lemma ReadingsKey(rows: seq<Evidence>, width: nat, k: Key)
    requires width > 0 && Group(rows, SourceKey(width), k) != []
    ensures k.at % width == 0
  {
    var e := Group(rows, SourceKey(width), k)[0];
    assert e in Group(rows, SourceKey(width), k);
    GroupHasKey(rows, SourceKey(width), k, e);
    BucketCovers(e.at, width, k.at);
  }

  lemma ReadingsFound(rows: seq<Evidence>, width: nat, k: Key)
    requires width > 0 && Group(rows, SourceKey(width), k) != []
    ensures k in KeysOf(rows, SourceKey(width))
  {
    var e := Group(rows, SourceKey(width), k)[0];
    assert e in Group(rows, SourceKey(width), k);
    GroupHasKey(rows, SourceKey(width), k, e);
    KeysAreSorted(rows, SourceKey(width));
    var i :| 0 <= i < |rows| && rows[i] == e;
  }

  lemma PartIsSpoken(evidence: seq<Evidence>, width: nat, k: Key)
    requires width > 0 && k in KeysOf(Distinct(evidence, width), SourceKey(width))
    ensures Group(Distinct(evidence, width), SourceKey(width), k) != [] && k.at % width == 0
    ensures var p := EvidencePart(k, Group(Distinct(evidence, width), SourceKey(width), k));
            && p.key == Key(k.channel, k.at, 0) && p.sources == {k.source}
            && Speaks(p, Readings(evidence, width, k.channel, k.at, k.source))
  {
    var rows := Distinct(evidence, width);
    KeysAreSorted(rows, SourceKey(width));
    ReadingsKey(rows, width, k);
    DistinctMeans(evidence, width);
    GroupIsReadings(rows, width, k);
    PartSpeaks(k, Group(rows, SourceKey(width), k));
    hide Distinct, FirstReadings, KeysOf, Group, Speaks;
  }

  lemma PartsAre(evidence: seq<Evidence>, traffic: seq<Bucket>, width: nat)
    requires width > 0
    ensures var rows := Distinct(evidence, width);
            var keys := KeysOf(rows, SourceKey(width));
            && (forall k | k in keys :: Group(rows, SourceKey(width), k) != [])
            && |EvidenceParts(keys, rows, width)| == |keys|
            && Sampling.Parts(evidence, traffic, width) == EvidenceParts(keys, rows, width) + TrafficParts(traffic)
  {
    hide Distinct, KeysOf, Group;
    var rows := Distinct(evidence, width);
    var keys := KeysOf(rows, SourceKey(width));
    KeysAreSorted(rows, SourceKey(width));
    if keys != [] { EvidencePartAt(keys, rows, width, 0); }
  }

  lemma TrafficPartsAre(traffic: seq<Bucket>)
    ensures |TrafficParts(traffic)| == |traffic|
    ensures forall i | 0 <= i < |traffic| ::
              var p, b := TrafficParts(traffic)[i], traffic[i];
              && p.key == Key(b.channel, b.at, 0) && p.sources == b.sources && p.score == b.score
              && p.reliability == b.quality && p.events == b.events && p.p95 == b.p95
  {
  }

  lemma ReadingsHaveKey(evidence: seq<Evidence>, width: nat, k: Key)
    requires width > 0 && k.at % width == 0 && Readings(evidence, width, k.channel, k.at, k.source) != []
    ensures k in KeysOf(Distinct(evidence, width), SourceKey(width))
  {
    DistinctMeans(evidence, width);
    GroupIsReadings(Distinct(evidence, width), width, k);
    ReadingsFound(Distinct(evidence, width), width, k);
  }

  /** What the sources say: one part for each source with readings in a bucket, which speaks of their
      first readings there, and one for each bucket of traffic. */
  lemma PartsExactly(evidence: seq<Evidence>, traffic: seq<Bucket>, width: nat) returns (keys: seq<Key>)
    requires width > 0
    ensures Ascending(keys) && |Sampling.Parts(evidence, traffic, width)| == |keys| + |traffic|
    ensures forall i | 0 <= i < |keys| ::
              var p, k := Sampling.Parts(evidence, traffic, width)[i], keys[i];
              && k.at % width == 0 && p.key == Key(k.channel, k.at, 0) && p.sources == {k.source}
              && Speaks(p, Readings(evidence, width, k.channel, k.at, k.source))
    ensures forall channel: nat, start: int, source: nat |
              start % width == 0 && Readings(evidence, width, channel, start, source) != [] ::
              Key(channel, start, source) in keys
    ensures forall i | 0 <= i < |traffic| ::
              var p, b := Sampling.Parts(evidence, traffic, width)[|keys| + i], traffic[i];
              && p.key == Key(b.channel, b.at, 0) && p.sources == b.sources && p.score == b.score
              && p.reliability == b.quality && p.events == b.events && p.p95 == b.p95
  {
    hide EvidenceParts, EvidencePart, Speaks, Distinct, KeysOf, Readings, TrafficParts, Sampling.Parts;
    var rows := Distinct(evidence, width);
    KeysAreSorted(rows, SourceKey(width));
    keys := KeysOf(rows, SourceKey(width));
    PartsAre(evidence, traffic, width);
    TrafficPartsAre(traffic);
    forall i | 0 <= i < |keys|
      ensures var p, k := Sampling.Parts(evidence, traffic, width)[i], keys[i];
              && k.at % width == 0 && p.key == Key(k.channel, k.at, 0) && p.sources == {k.source}
              && Speaks(p, Readings(evidence, width, k.channel, k.at, k.source))
    {
      PartIsSpoken(evidence, width, keys[i]);
      EvidencePartAt(keys, rows, width, i);
    }
    forall channel: nat, start: int, source: nat |
      start % width == 0 && Readings(evidence, width, channel, start, source) != []
      ensures Key(channel, start, source) in keys
    {
      ReadingsHaveKey(evidence, width, Key(channel, start, source));
    }
  }

  // ----- A fused bucket -----

  /** What all sources say of one bucket. */
  function At(parts: seq<Part>, channel: nat, at: int): seq<Part> {
    Only(parts, (p: Part) => p.key == Key(channel, at, 0))
  }

  function Product(parts: seq<Part>): real {
    if parts == [] then 1.0 else Product(parts[..|parts| - 1]) * (1.0 - parts[|parts| - 1].reliability)
  }

  /** A fused bucket: the mean of its parts by reliability; it is wrong only if all of them are; all their
      sources and events; the slowest percentile. */
  ghost predicate Fuses(b: Bucket, parts: seq<Part>) {
    && Sum(parts, (p: Part) => p.reliability) != 0.0
    && Times(b.score, Sum(parts, (p: Part) => p.reliability)) == Sum(parts, (p: Part) => Times(p.score, p.reliability))
    && b.quality == 1.0 - Product(parts)
    && (forall s :: s in b.sources <==> exists p :: p in parts && s in p.sources)
    && b.events == Total(parts, PartEvents)
    && (b.p95.None? <==> forall p | p in parts :: p.p95.None?)
    && (b.p95.Some? ==> && (exists p :: p in parts && p.p95 == b.p95)
                        && forall p | p in parts && p.p95.Some? :: p.p95.value <= b.p95.value)
  }

  lemma {:induction false} SumsAppend(terms: seq<Term>, t: Term)
    ensures Weight(terms + [t]) == Weight(terms) + t.weight
    ensures Dot(terms + [t]) == Dot(terms) + Times(t.score, t.weight)
  {
    hide Times;
    if terms == [] {
      assert [t][1..] == [];
    } else {
      assert (terms + [t])[1..] == terms[1..] + [t];
      SumsAppend(terms[1..], t);
    }
  }

  lemma {:induction false} TermsAdd(parts: seq<Part>)
    ensures Weight(Terms(parts)) == Sum(parts, (p: Part) => p.reliability)
    ensures Dot(Terms(parts)) == Sum(parts, (p: Part) => Times(p.score, p.reliability))
  {
    if parts == [] {
      assert Terms(parts) == [];
    } else {
      var most, last := parts[..|parts| - 1], parts[|parts| - 1];
      TermsAdd(most);
      assert Terms(parts) == Terms(most) + [Term(last.score, last.reliability)];
      SumsAppend(Terms(most), Term(last.score, last.reliability));
    }
  }

  lemma {:induction false} DoubtIsProduct(parts: seq<Part>)
    ensures Doubt(parts) == Product(parts)
  {
    if parts != [] {
      DoubtIsProduct(parts[..|parts| - 1]);
    }
  }

  lemma {:induction false} SourcesAre(parts: seq<Part>, s: nat)
    ensures s in SourcesOf(parts) <==> exists p :: p in parts && s in p.sources
  {
    if parts != [] {
      var most, last := parts[..|parts| - 1], parts[|parts| - 1];
      SourcesAre(most, s);
      assert parts == most + [last] && last in parts;
      if exists p :: p in most && s in p.sources {
        var p :| p in most && s in p.sources;
        assert p in parts;
      }
    }
  }

  lemma {:induction false} SlowestIs(parts: seq<Part>)
    ensures Slowest(parts).None? <==> forall p | p in parts :: p.p95.None?
    ensures Slowest(parts).Some? ==> exists p :: p in parts && p.p95 == Slowest(parts)
    ensures Slowest(parts).Some? ==> forall p | p in parts && p.p95.Some? :: p.p95.value <= Slowest(parts).value
  {
    if parts != [] {
      var most, last := parts[..|parts| - 1], parts[|parts| - 1];
      SlowestIs(most);
      assert parts == most + [last] && last in parts;
      if Slowest(most).Some? {
        var p :| p in most && p.p95 == Slowest(most);
        assert p in parts;
      }
    }
  }

  lemma GroupFuses(k: Key, parts: seq<Part>)
    requires Weight(Terms(parts)) != 0.0
    ensures Fuses(FusedBucket(k, parts), parts)
  {
    TermsAdd(parts);
    DoubtIsProduct(parts);
    SlowestIs(parts);
    forall s ensures s in SourcesOf(parts) <==> exists p :: p in parts && s in p.sources { SourcesAre(parts, s); }
    TimesQuotient(Dot(Terms(parts)), Weight(Terms(parts)));
    hide Sum, Product, Slowest, SourcesOf, Dot, Weight, Doubt;
  }

  lemma TimesQuotient(x: real, y: real)
    requires y != 0.0
    ensures Times(x / y, y) == x
  {
  }

  lemma {:induction false} GroupIsAt(parts: seq<Part>, k: Key)
    requires k.source == 0
    ensures Group(parts, PartKey, k) == At(parts, k.channel, k.at)
  {
    if parts != [] {
      GroupIsAt(parts[..|parts| - 1], k);
    }
  }

  lemma {:induction false} FusedAt(keys: seq<Key>, parts: seq<Part>, i: nat)
    requires FuseKeys(keys, parts).Ok? && i < |keys|
    ensures var fused := FuseKeys(keys, parts).value;
            && |fused| == |keys| && SameSlot(fused[i], keys[i])
            && Fuses(fused[i], Group(parts, PartKey, keys[i]))
    decreases |keys|
  {
    hide Fuses, SameSlot, Weight, Terms;
    FusedSlots(keys, parts);
    FusedSlots(keys[1..], parts);
    if i == 0 {
      GroupFuses(keys[0], Group(parts, PartKey, keys[0]));
    } else {
      FusedAt(keys[1..], parts, i - 1);
    }
  }

  /** Every fused bucket fuses exactly what the sources say of it. */
  lemma FusedExactly(evidence: seq<Evidence>, traffic: seq<Bucket>, width: nat, i: nat)
    requires width > 0 && Fuse(evidence, traffic, width).Ok? && i < |Fuse(evidence, traffic, width).value|
    ensures var b := Fuse(evidence, traffic, width).value[i];
            Fuses(b, At(Sampling.Parts(evidence, traffic, width), b.channel, b.at))
  {
    var parts := Sampling.Parts(evidence, traffic, width);
    var keys := KeysOf(parts, PartKey);
    FusedSlots(keys, parts);
    FusedAt(keys, parts, i);
    PartsHaveNoSource(evidence, traffic, width);
    KeysArePartKeys(parts);
    assert keys[i] in keys;
    hide Sampling.Parts, KeysOf, FuseKeys, Fuses;
    GroupIsAt(parts, keys[i]);
  }
}
