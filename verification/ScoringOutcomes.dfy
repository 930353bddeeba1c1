/** The health score of a channel in terms of its evidence: sums over all buckets, the newest one, the
    span and the spacing of their times. */
module ScoringOutcomes {
  import opened Common
  import opened Counting
  import opened Sorting
  import opened WeightedAverage
  import opened Scoring

  // ----- When there is no score, or nothing to score -----

  /** Each error, in the order of the checks. */
  lemma ErrorsExactly(buckets: seq<Bucket>, now: int, previous: real, p: ScoringPolicy, s: SamplingPolicy,
          d: real -> real)
    requires p.shortMinutes >= 1 && p.longMinutes >= p.shortMinutes && p.shortHalfLife > 0.0 && p.longHalfLife > 0.0
    requires p.shortRatio >= 0.0 && p.shortRatio <= 1.0
    requires s.bucketSeconds >= 30 && s.freshSeconds >= 30 && s.warmupBuckets >= 1
    ensures var r := HealthScore(buckets, now, previous, p, s, d);
            var ranged := 0.0 <= previous && previous <= 100.0;
            var mixed := exists i, j :: 0 <= i < j < |buckets| && buckets[i].channel != buckets[j].channel;
            var twice := exists i, j :: 0 <= i < j < |buckets| && buckets[i].at == buckets[j].at;
            var future := exists i :: 0 <= i < |buckets| && buckets[i].at > now;
            && (r == Err(PreviousOutOfRange) <==> !ranged)
            && (r == Err(MixedChannels) <==> ranged && mixed)
            && (r == Err(DuplicateTime) <==> ranged && !mixed && twice)
            && (r == Err(FutureBucket) <==> ranged && !mixed && !twice && future)
  {
  }

  predicate IsWithin(b: Bucket, now: int, minutes: nat) { now - b.at <= 60 * minutes }

  predicate SomeWithin(buckets: seq<Bucket>, now: int, minutes: nat) {
    exists i :: 0 <= i < |buckets| && IsWithin(buckets[i], now, minutes)
  }

  lemma {:induction false} RecentMeans(buckets: seq<Bucket>, now: int, minutes: nat)
    ensures forall b :: b in Recent(buckets, now, minutes) <==> b in buckets && IsWithin(b, now, minutes)
    ensures Recent(buckets, now, minutes) != [] <==> SomeWithin(buckets, now, minutes)
  {
    if buckets != [] {
      RecentMeans(buckets[1..], now, minutes);
      assert buckets == [buckets[0]] + buckets[1..];
      assert forall i | 0 <= i < |buckets[1..]| :: buckets[1..][i] == buckets[i + 1];
      if SomeWithin(buckets, now, minutes) && !IsWithin(buckets[0], now, minutes) {
        var i :| 0 <= i < |buckets| && IsWithin(buckets[i], now, minutes);
        assert IsWithin(buckets[1..][i - 1], now, minutes);
      }
    }
  }

  /** The newest of these times. */
  predicate IsNewest(buckets: seq<Bucket>, at: int) {
    && (exists i :: 0 <= i < |buckets| && buckets[i].at == at)
    && forall i | 0 <= i < |buckets| :: buckets[i].at <= at
  }

  predicate IsOldest(buckets: seq<Bucket>, at: int) {
    && (exists i :: 0 <= i < |buckets| && buckets[i].at == at)
    && forall i | 0 <= i < |buckets| :: at <= buckets[i].at
  }

  lemma {:induction false} LatestMeans(buckets: seq<Bucket>)
    requires buckets != []
    ensures IsNewest(buckets, Latest(buckets)) && IsOldest(buckets, Earliest(buckets))
  {
    if |buckets| > 1 {
      LatestMeans(buckets[1..]);
      assert forall i | 0 <= i < |buckets[1..]| :: buckets[1..][i] == buckets[i + 1];
    }
  }

  /** Without any bucket in the long window the scores stay what they were, with no confidence. */
  lemma NothingRecent(buckets: seq<Bucket>, now: int, previous: real, p: ScoringPolicy, s: SamplingPolicy,
          d: real -> real)
    requires IsPolicy(p, s) && HealthScore(buckets, now, previous, p, s, d).Ok?
    requires !SomeWithin(buckets, now, p.longMinutes)
    ensures var h := HealthScore(buckets, now, previous, p, s, d).value;
            && h.shortScore == previous && h.longScore == previous && h.health == previous && h.confidence == 0.0
            && h.freshness == ExpiredEvidence && h.bucketCount == 0 && h.warmingUp
            && (buckets == [] <==> h.lastAt.None?) && (buckets != [] ==> IsNewest(buckets, h.lastAt.value))
  {
    RecentMeans(buckets, now, p.longMinutes);
    if buckets != [] { LatestMeans(buckets); }
  }

  // ----- Freshness, and whether the channel warms up -----

  lemma RecentStep(buckets: seq<Bucket>, now: int, minutes: nat) returns (head: seq<Bucket>)
    requires buckets != []
    ensures head == if IsWithin(buckets[0], now, minutes) then [buckets[0]] else []
    ensures Recent(buckets, now, minutes) == head + Recent(buckets[1..], now, minutes)
  {
    head := if IsWithin(buckets[0], now, minutes) then [buckets[0]] else [];
  }

  lemma {:induction false} RecentBoth(a: seq<Bucket>, b: seq<Bucket>, now: int, minutes: nat)
    ensures Recent(a + b, now, minutes) == Recent(a, now, minutes) + Recent(b, now, minutes)
    decreases |a|
  {
    if a == [] {
      assert a + b == b;
    } else {
      hide Recent, IsWithin;
      assert (a + b)[1..] == a[1..] + b;
      var all := RecentStep(a + b, now, minutes);
      var head := RecentStep(a, now, minutes);
      RecentBoth(a[1..], b, now, minutes);
    }
  }

  lemma {:induction false} RecentCount(buckets: seq<Bucket>, now: int, minutes: nat)
    ensures |Recent(buckets, now, minutes)| == |Places(buckets, (b: Bucket) => IsWithin(b, now, minutes))|
    decreases |buckets|
  {
    if buckets != [] {
      var most, last := buckets[..|buckets| - 1], buckets[|buckets| - 1];
      RecentCount(most, now, minutes);
      PlacesOneMore(buckets, (b: Bucket) => IsWithin(b, now, minutes));
      assert buckets == most + [last] && [last][1..] == [];
      RecentBoth(most, [last], now, minutes);
    }
  }

  lemma {:induction false} RecentTwice(buckets: seq<Bucket>, now: int, short: nat, long: nat)
    requires short <= long
    ensures Recent(Recent(buckets, now, long), now, short) == Recent(buckets, now, short)
  {
    if buckets != [] {
      var head := if IsWithin(buckets[0], now, long) then [buckets[0]] else [];
      RecentTwice(buckets[1..], now, short, long);
      RecentBoth(head, Recent(buckets[1..], now, long), now, short);
    }
  }

  /** The newest evidence is fresh up to the fresh window or two intervals, whichever is longer, and
      expired past the expire window and twice both of these. */
  lemma FreshnessMeans(age: int, s: SamplingPolicy)
    ensures var f := FreshnessOf(age, s);
            && (f == FreshEvidence <==> age <= s.freshSeconds || age <= 2 * s.interval)
            && (f == ExpiredEvidence <==> age > s.expireSeconds && age > 2 * s.freshSeconds && age > 4 * s.interval)
  {
  }

  // ----- The spacing of the evidence -----

  predicate IsNext(times: set<int>, t: int, u: int) {
    u in times && t < u && forall v | v in times :: !(t < v < u)
  }

  /** From `t` to the next of these times it takes at least `width` and at most `x` seconds. */
  predicate NextWithin(times: set<int>, t: int, width: nat, x: int) {
    exists u | u in times :: IsNext(times, t, u) && width <= u - t <= x
  }

  predicate NextIsWide(times: set<int>, t: int, width: nat) {
    exists u | u in times :: IsNext(times, t, u) && width <= u - t
  }

  /** The times after which the next comes so late. */
  function Gaps(times: set<int>, width: nat, x: int): set<int> { set t | t in times && NextWithin(times, t, width, x) }

  function WideOnes(times: set<int>, width: nat): set<int> { set t | t in times && NextIsWide(times, t, width) }

  /** The gap number `k` by size is `r`: more than `k` of them are at most `r`, but not of those below. */
  predicate IsRanked(times: set<int>, width: nat, k: nat, r: int) {
    |Gaps(times, width, r)| > k && |Gaps(times, width, r - 1)| <= k
  }

  /** The usual spacing of these times: the median of the gaps that are at least one bucket wide, and
      the bucket width if there are none. */
  ghost predicate IsCadence(times: set<int>, width: nat, c: int) {
    var n := |WideOnes(times, width)|;
    if n == 0 then c == width
    else if n % 2 == 1 then IsRanked(times, width, n / 2, c)
    else exists x, y :: IsRanked(times, width, n / 2 - 1, x) && IsRanked(times, width, n / 2, y) && c == Middle(x, y)
  }

  function Middle(x: int, y: int): int { (x + y) / 2 }

  function AsSet(s: seq<int>): set<int> { set t | t in s }

  predicate IsRising(s: seq<int>) { forall i, j | 0 <= i < j < |s| :: s[i] < s[j] }

  lemma FirstNext(s: seq<int>)
    requires |s| >= 2 && IsRising(s)
    ensures AsSet(s) == AsSet(s[1..]) + {s[0]} && s[0] !in AsSet(s[1..])
    ensures forall u :: IsNext(AsSet(s), s[0], u) <==> u == s[1]
    ensures forall t, u | t in AsSet(s[1..]) :: IsNext(AsSet(s), t, u) <==> IsNext(AsSet(s[1..]), t, u)
  {
    assert s == [s[0]] + s[1..];
    assert s[1] in s[1..];
    assert forall t | t in s[1..] :: s[1] <= t && s[0] < t;
    forall u ensures IsNext(AsSet(s), s[0], u) <==> u == s[1] {
      assert s[1] in AsSet(s) && (u in AsSet(s) && s[0] < u ==> u in s[1..]);
    }
  }

  lemma FirstGap(s: seq<int>, width: nat, x: int)
    requires |s| >= 2 && IsRising(s)
    ensures var times, rest := AsSet(s), AsSet(s[1..]);
            && Gaps(times, width, x) == Gaps(rest, width, x) + (if width <= s[1] - s[0] <= x then {s[0]} else {})
            && WideOnes(times, width) == WideOnes(rest, width) + (if width <= s[1] - s[0] then {s[0]} else {})
            && s[0] !in Gaps(rest, width, x) && s[0] !in WideOnes(rest, width)
  {
    FirstNext(s);
    assert s[1] in AsSet(s);
    hide IsNext, AsSet, IsRising;
  }

  lemma WideGapsStep(s: seq<int>, width: nat, x: int)
    requires |s| >= 2
    ensures var gap, rest := s[1] - s[0], WideGaps(s[1..], width);
            && |WideGaps(s, width)| == |rest| + (if width <= gap then 1 else 0)
            && CountAtMost(WideGaps(s, width), x) == CountAtMost(rest, x) + if width <= gap <= x then 1 else 0
  {
    var gap, rest := s[1] - s[0], WideGaps(s[1..], width);
    assert ([gap] + rest)[1..] == rest && [] + rest == rest;
  }

  lemma {:induction false} GapsAreCounted(s: seq<int>, width: nat, x: int)
    requires IsRising(s)
    ensures CountAtMost(WideGaps(s, width), x) == |Gaps(AsSet(s), width, x)|
    ensures |WideGaps(s, width)| == |WideOnes(AsSet(s), width)|
  {
    if |s| < 2 {
      assert |s| == 1 ==> forall t | t in s :: t == s[0];
      assert Gaps(AsSet(s), width, x) == {} && WideOnes(AsSet(s), width) == {};
    } else {
      FirstGap(s, width, x);
      WideGapsStep(s, width, x);
      GapsAreCounted(s[1..], width, x);
      hide Gaps, WideOnes, WideGaps, CountAtMost, AsSet;
    }
  }

  lemma {:induction false} GapsAreWide(s: seq<int>, width: nat)
    ensures AllAtLeast(WideGaps(s, width), width)
  {
    if |s| >= 2 {
      GapsAreWide(s[1..], width);
    }
  }

  lemma SortedIsRanked(values: seq<int>, k: nat)
    requires k < |values|
    ensures |SortedInts(values)| == |values|
    ensures var r := SortedInts(values)[k]; CountAtMost(values, r) > k && CountAtMost(values, r - 1) <= k
    ensures SortedInts(values)[k] in values
  {
    SortedIntsSorts(values);
    var s := SortedInts(values);
    SortedCount(values, s[k]);
    SortedCount(values, s[k] - 1);
    CountBounds(s, k, s[k]);
    CountBounds(s, k, s[k] - 1);
    assert s[k] in multiset(s);
  }

  lemma MiddleIsWide(x: int, y: int, width: nat)
    requires x >= width && y >= width
    ensures Middle(x, y) >= width && Half(x + y) == Middle(x, y)
  {
  }

  /** In sorted gaps the one at `k` is number `k` by size. */
  lemma GapIsRanked(s: seq<int>, width: nat, k: nat)
    requires IsRising(s) && k < |WideGaps(s, width)|
    ensures |SortedInts(WideGaps(s, width))| == |WideGaps(s, width)| == |WideOnes(AsSet(s), width)|
    ensures var r := SortedInts(WideGaps(s, width))[k]; IsRanked(AsSet(s), width, k, r) && r >= width
  {
    var gaps := WideGaps(s, width);
    SortedIsRanked(gaps, k);
    GapsAreWide(s, width);
    var r := SortedInts(gaps)[k];
    GapsAreCounted(s, width, r);
    GapsAreCounted(s, width, r - 1);
    hide WideGaps, SortedInts, CountAtMost, Gaps, WideOnes, AsSet;
  }

  lemma OddMedian(s: seq<int>, width: nat)
    requires IsRising(s) && |WideGaps(s, width)| % 2 == 1
    ensures |SortedInts(WideGaps(s, width))| == |WideGaps(s, width)|
    ensures var m := Median(SortedInts(WideGaps(s, width))); IsCadence(AsSet(s), width, m) && m >= width
  {
    GapIsRanked(s, width, |WideGaps(s, width)| / 2);
    hide WideGaps, SortedInts, WideOnes, IsRanked, AsSet;
  }

  lemma EvenCadence(times: set<int>, width: nat, half: nat, x: int, y: int)
    requires half > 0 && |WideOnes(times, width)| == 2 * half
    requires IsRanked(times, width, half - 1, x) && IsRanked(times, width, half, y)
    ensures IsCadence(times, width, Middle(x, y))
  {
    hide WideOnes, IsRanked, Middle;
    assert 2 * half / 2 == half && 2 * half % 2 == 0;
  }

  lemma EvenMiddle(sorted: seq<int>, half: nat)
    requires half > 0 && |sorted| == 2 * half
    ensures Median(sorted) == Half(sorted[half - 1] + sorted[half])
  {
    hide Half;
    assert 2 * half / 2 == half && 2 * half % 2 == 0;
  }

  lemma EvenMedian(s: seq<int>, width: nat, half: nat)
    requires IsRising(s) && half > 0 && |WideGaps(s, width)| == 2 * half
    ensures |SortedInts(WideGaps(s, width))| == |WideGaps(s, width)|
    ensures var m := Median(SortedInts(WideGaps(s, width))); IsCadence(AsSet(s), width, m) && m >= width
  {
    hide WideGaps, SortedInts, WideOnes, IsRanked, Middle, Half, AsSet, Median, IsCadence, IsRising;
    var sorted := SortedInts(WideGaps(s, width));
    GapIsRanked(s, width, half);
    GapIsRanked(s, width, half - 1);
    EvenCadence(AsSet(s), width, half, sorted[half - 1], sorted[half]);
    EvenMiddle(sorted, half);
    MiddleIsWide(sorted[half - 1], sorted[half], width);
  }

  lemma MedianOfGaps(s: seq<int>, width: nat)
    requires IsRising(s)
    ensures var gaps := WideGaps(s, width);
            |SortedInts(gaps)| == |gaps|
            && IsCadence(AsSet(s), width, if gaps == [] then width else MaxInt(width, Median(SortedInts(gaps))))
  {
    var gaps := WideGaps(s, width);
    SortedIntsSorts(gaps);
    if gaps == [] {
      GapsAreCounted(s, width, 0);
    } else if |gaps| % 2 == 1 {
      OddMedian(s, width);
      hide IsCadence;
    } else {
      EvenMedian(s, width, |gaps| / 2);
      hide IsCadence;
    }
    hide WideGaps, SortedInts, WideOnes, IsRanked, AsSet, Median;
  }

  function TimesWithin(buckets: seq<Bucket>, now: int, minutes: nat): set<int> {
    set b | b in buckets && IsWithin(b, now, minutes) :: b.at
  }

  lemma {:induction false} TimesAreThose(buckets: seq<Bucket>)
    ensures |TimesOf(buckets)| == |buckets| && forall k | 0 <= k < |buckets| :: TimesOf(buckets)[k] == buckets[k].at
  {
    if buckets != [] {
      TimesAreThose(buckets[1..]);
    }
  }

  predicate AllDistinct(s: seq<int>) { forall i, j | 0 <= i < j < |s| :: s[i] != s[j] }

  lemma {:induction false} DistinctOnce(s: seq<int>)
    requires AllDistinct(s)
    ensures forall x :: multiset(s)[x] <= 1
  {
    if s != [] {
      DistinctOnce(s[1..]);
      assert s == [s[0]] + s[1..];
      assert s[0] !in s[1..];
    }
  }

  lemma TwiceCounts(s: seq<int>, i: nat, j: nat)
    requires i < j < |s| && s[i] == s[j]
    ensures multiset(s)[s[i]] >= 2
  {
    assert s == s[..j] + s[j..] && s[i] in s[..j] && s[j] in s[j..];
  }

  lemma SortedRises(values: seq<int>)
    requires AllDistinct(values)
    ensures IsRising(SortedInts(values)) && forall t :: t in SortedInts(values) <==> t in values
  {
    var s := SortedInts(values);
    SortedIntsSorts(values);
    DistinctOnce(values);
    forall t ensures t in s <==> t in values {
      assert t in s <==> t in multiset(s);
    }
    hide SortedInts;
    forall i, j | 0 <= i < j < |s| ensures s[i] < s[j] {
      if s[i] == s[j] { TwiceCounts(s, i, j); }
    }
  }

  lemma {:induction false} RecentDistinct(buckets: seq<Bucket>, now: int, minutes: nat)
    requires DistinctTimes(buckets)
    ensures DistinctTimes(Recent(buckets, now, minutes))
  {
    if buckets != [] {
      var rest := Recent(buckets[1..], now, minutes);
      RecentDistinct(buckets[1..], now, minutes);
      RecentMeans(buckets[1..], now, minutes);
      forall k | 0 <= k < |rest| ensures rest[k].at != buckets[0].at {
        assert rest[k] in buckets[1..];
      }
    }
  }

  lemma SameTimes(buckets: seq<Bucket>, now: int, minutes: nat)
    ensures AsSet(TimesOf(Recent(buckets, now, minutes))) == TimesWithin(buckets, now, minutes)
  {
    var long := Recent(buckets, now, minutes);
    RecentMeans(buckets, now, minutes);
    TimesAreThose(long);
    hide Recent, TimesOf;
    forall t ensures t in AsSet(TimesOf(long)) <==> t in TimesWithin(buckets, now, minutes) {
      if t in TimesOf(long) {
        var k :| 0 <= k < |long| && TimesOf(long)[k] == t;
        assert long[k] in buckets;
      }
      if t in TimesWithin(buckets, now, minutes) {
        var b :| b in buckets && IsWithin(b, now, minutes) && b.at == t;
        var k :| 0 <= k < |long| && long[k] == b;
        assert TimesOf(long)[k] == t;
      }
    }
  }

  lemma CadenceOfRecent(long: seq<Bucket>, width: nat)
    requires DistinctTimes(long)
    ensures IsCadence(AsSet(TimesOf(long)), width, Cadence(long, width))
  {
    TimesAreThose(long);
    SortedRises(TimesOf(long));
    var s := SortedInts(TimesOf(long));
    SortedIntsSorts(TimesOf(long));
    MedianOfGaps(s, width);
    assert AsSet(s) == AsSet(TimesOf(long));
    if |long| < 2 { assert WideGaps(s, width) == []; }
    hide SortedInts, TimesOf, IsCadence, Median;
  }

  lemma CadenceMeans(buckets: seq<Bucket>, now: int, minutes: nat, width: nat)
    requires DistinctTimes(buckets)
    ensures IsCadence(TimesWithin(buckets, now, minutes), width, Cadence(Recent(buckets, now, minutes), width))
  {
    RecentDistinct(buckets, now, minutes);
    SameTimes(buckets, now, minutes);
    CadenceOfRecent(Recent(buckets, now, minutes), width);
    hide Recent, Cadence, IsCadence, TimesOf, DistinctTimes;
  }

  // ----- The scores -----

  /** The sum of a value over the buckets of the window. */
  function SumWithin(buckets: seq<Bucket>, now: int, minutes: nat, value: Bucket -> real): real {
    if buckets == [] then 0.0
    else
      var last := buckets[|buckets| - 1];
      SumWithin(buckets[..|buckets| - 1], now, minutes, value)
      + if IsWithin(last, now, minutes) then value(last) else 0.0
  }

  /** What remains of a bucket's weight at its age. */
  function Remains(b: Bucket, now: int, halfLife: real, d: real -> real): real
    requires halfLife > 0.0
  {
    d((now - b.at) as real / (60.0 * halfLife))
  }

  function CountWithin(buckets: seq<Bucket>, now: int, minutes: nat): nat {
    |Places(buckets, (b: Bucket) => IsWithin(b, now, minutes))|
  }

  lemma SomeAreCounted(buckets: seq<Bucket>, now: int, minutes: nat)
    ensures CountWithin(buckets, now, minutes) > 0 <==> SomeWithin(buckets, now, minutes)
  {
    RecentCount(buckets, now, minutes);
    RecentMeans(buckets, now, minutes);
    assert CountWithin(buckets, now, minutes) == |Recent(buckets, now, minutes)|;
  }

  function Mass(buckets: seq<Bucket>, now: int, minutes: nat, halfLife: real, d: real -> real): real
    requires halfLife > 0.0
  {
    SumWithin(buckets, now, minutes, (b: Bucket) => b.quality * Remains(b, now, halfLife, d))
  }

  function Moment(buckets: seq<Bucket>, now: int, minutes: nat, halfLife: real, d: real -> real): real
    requires halfLife > 0.0
  {
    SumWithin(buckets, now, minutes, (b: Bucket) => b.score * (b.quality * Remains(b, now, halfLife, d)))
  }

  function Total(buckets: seq<Bucket>, now: int, minutes: nat): real {
    SumWithin(buckets, now, minutes, (b: Bucket) => b.score)
  }

  /** The mean score of the window, each bucket weighing its quality times what remains of it; the plain
      mean if nothing has any weight. */
  function Mean(buckets: seq<Bucket>, now: int, minutes: nat, halfLife: real, d: real -> real): real
    requires halfLife > 0.0 && SomeWithin(buckets, now, minutes)
  {
    SomeAreCounted(buckets, now, minutes);
    if Mass(buckets, now, minutes, halfLife, d) > 0.0 then
      Moment(buckets, now, minutes, halfLife, d) / Mass(buckets, now, minutes, halfLife, d)
    else Total(buckets, now, minutes) / CountWithin(buckets, now, minutes) as real
  }

  lemma AgeInHalfLives(x: real, halfLife: real)
    requires halfLife > 0.0
    ensures 60.0 * halfLife > 0.0 && x / 60.0 / halfLife == x / (60.0 * halfLife)
  {
  }

  lemma RemainsIsDecayed(b: Bucket, now: int, halfLife: real, d: real -> real)
    requires halfLife > 0.0
    ensures Remains(b, now, halfLife, d) == Decayed(b, now, halfLife, d)
  {
    AgeInHalfLives((now - b.at) as real, halfLife);
  }

  lemma {:induction false} SumsAppend(terms: seq<Term>, t: Term)
    ensures Weight(terms + [t]) == Weight(terms) + t.weight
    ensures Dot(terms + [t]) == Dot(terms) + Times(t.score, t.weight)
    ensures Plain(terms + [t]) == Plain(terms) + t.score
  {
    hide Times;
    if terms == [] {
      assert [t][1..] == [];
    } else {
      assert (terms + [t])[1..] == terms[1..] + [t];
      SumsAppend(terms[1..], t);
    }
  }

  lemma RecentAppend(buckets: seq<Bucket>, now: int, minutes: nat)
    requires buckets != []
    ensures var last := buckets[|buckets| - 1];
            Recent(buckets, now, minutes)
            == Recent(buckets[..|buckets| - 1], now, minutes) + if IsWithin(last, now, minutes) then [last] else []
  {
    var most, last := buckets[..|buckets| - 1], buckets[|buckets| - 1];
    assert buckets == most + [last] && [last][1..] == [];
    RecentBoth(most, [last], now, minutes);
  }

  lemma SumsOneMore(buckets: seq<Bucket>, now: int, minutes: nat, halfLife: real, d: real -> real)
    requires halfLife > 0.0 && buckets != []
    ensures var most, last := buckets[..|buckets| - 1], buckets[|buckets| - 1];
            var term := ScoreTerm(last, now, halfLife, d);
            var counts := IsWithin(last, now, minutes);
            && Mass(buckets, now, minutes, halfLife, d)
               == Mass(most, now, minutes, halfLife, d) + (if counts then term.weight else 0.0)
            && Moment(buckets, now, minutes, halfLife, d)
               == Moment(most, now, minutes, halfLife, d) + (if counts then Times(term.score, term.weight) else 0.0)
            && Total(buckets, now, minutes) == Total(most, now, minutes) + (if counts then term.score else 0.0)
  {
    var last := buckets[|buckets| - 1];
    RemainsIsDecayed(last, now, halfLife, d);
    hide Remains, Decayed;
  }

  lemma {:induction false} ScoreSums(buckets: seq<Bucket>, now: int, minutes: nat, halfLife: real, d: real -> real)
    requires halfLife > 0.0
    ensures var terms := ScoreTerms(Recent(buckets, now, minutes), now, halfLife, d);
            && Weight(terms) == Mass(buckets, now, minutes, halfLife, d)
            && Dot(terms) == Moment(buckets, now, minutes, halfLife, d)
            && Plain(terms) == Total(buckets, now, minutes)
    decreases |buckets|
  {
    if buckets == [] {
      assert ScoreTerms(Recent(buckets, now, minutes), now, halfLife, d) == [];
    } else {
      var most, last := buckets[..|buckets| - 1], buckets[|buckets| - 1];
      ScoreSums(most, now, minutes, halfLife, d);
      RecentAppend(buckets, now, minutes);
      SumsOneMore(buckets, now, minutes, halfLife, d);
      var before := ScoreTerms(Recent(most, now, minutes), now, halfLife, d);
      var term := ScoreTerm(last, now, halfLife, d);
      SumsAppend(before, term);
      assert ScoreTerms(Recent(buckets, now, minutes), now, halfLife, d)
          == before + if IsWithin(last, now, minutes) then [term] else [];
      assert before + [] == before;
      hide Recent, Weight, Dot, Plain, Mass, Moment, Total, Times;
    }
  }

  lemma MeanIsScore(buckets: seq<Bucket>, now: int, minutes: nat, halfLife: real, d: real -> real)
    requires halfLife > 0.0 && SomeWithin(buckets, now, minutes)
    ensures Recent(buckets, now, minutes) != []
    ensures TimeWeightedScore(Recent(buckets, now, minutes), now, halfLife, d)
         == Mean(buckets, now, minutes, halfLife, d)
  {
    RecentMeans(buckets, now, minutes);
    RecentCount(buckets, now, minutes);
    ScoreSums(buckets, now, minutes, halfLife, d);
    hide Mass, Moment, Total, Recent, Weight, Dot, Plain;
  }

  lemma EvidenceFound(buckets: seq<Bucket>, now: int, previous: real, p: ScoringPolicy, s: SamplingPolicy,
          d: real -> real)
    requires IsPolicy(p, s) && HealthScore(buckets, now, previous, p, s, d).Ok?
    requires SomeWithin(buckets, now, p.longMinutes)
    ensures HasEvidence(buckets, now, p) && 0.0 <= previous <= 100.0
    ensures var long := Recent(buckets, now, p.longMinutes);
            && long != [] && Recent(long, now, p.shortMinutes) == Recent(buckets, now, p.shortMinutes)
            && (Recent(buckets, now, p.shortMinutes) != [] <==> SomeWithin(buckets, now, p.shortMinutes))
  {
    RecentMeans(buckets, now, p.longMinutes);
    RecentMeans(buckets, now, p.shortMinutes);
    RecentTwice(buckets, now, p.shortMinutes, p.longMinutes);
  }

  /** The short score has its share, and the long one the rest. */
  function Mix(short: real, long: real, ratio: real): real { short * ratio + long * (1.0 - ratio) }

  lemma MixIs(short: real, long: real, ratio: real)
    ensures Blend(short, long, ratio) == Mix(short, long, ratio)
  {
  }

  /** The three scores of a channel with evidence in the long window: the weighted means of the two
      windows, the long one for both if the short one is empty, and their mix. */
  lemma ScoresExactly(buckets: seq<Bucket>, now: int, previous: real, p: ScoringPolicy, s: SamplingPolicy,
          d: real -> real)
    requires IsPolicy(p, s) && AreBuckets(buckets) && IsDecay(d) && HealthScore(buckets, now, previous, p, s, d).Ok?
    requires SomeWithin(buckets, now, p.longMinutes)
    ensures var h := HealthScore(buckets, now, previous, p, s, d).value;
            && h.longScore == Mean(buckets, now, p.longMinutes, p.longHalfLife, d)
            && h.shortScore == (if SomeWithin(buckets, now, p.shortMinutes)
                                then Mean(buckets, now, p.shortMinutes, p.shortHalfLife, d) else h.longScore)
            && h.health == Mix(h.shortScore, h.longScore, p.shortRatio)
  {
    EvidenceFound(buckets, now, previous, p, s, d);
    ClampsAreIdle(buckets, now, previous, p, s, d);
    MeanIsScore(buckets, now, p.longMinutes, p.longHalfLife, d);
    if SomeWithin(buckets, now, p.shortMinutes) {
      MeanIsScore(buckets, now, p.shortMinutes, p.shortHalfLife, d);
    }
    var long := Recent(buckets, now, p.longMinutes);
    MixIs(ShortScore(long, Recent(long, now, p.shortMinutes), now, p, d),
          TimeWeightedScore(long, now, p.longHalfLife, d), p.shortRatio);
    hide HealthScore, Mean, Recent, TimeWeightedScore, SomeWithin, HasEvidence, AreBuckets, RawConfidence, Blend, Mix;
    hide IsDecay;
  }

  // ----- How much the evidence covers, and the confidence -----

  /** The first and the last of these times. */
  predicate AreEnds(times: set<int>, first: int, last: int) {
    first in times && last in times && forall t | t in times :: first <= t <= last
  }

  lemma NewestIsRecent(buckets: seq<Bucket>, now: int, minutes: nat)
    requires SomeWithin(buckets, now, minutes)
    ensures buckets != [] && Recent(buckets, now, minutes) != []
    ensures Latest(Recent(buckets, now, minutes)) == Latest(buckets)
  {
    var long := Recent(buckets, now, minutes);
    RecentMeans(buckets, now, minutes);
    LatestMeans(buckets);
    LatestMeans(long);
    hide Recent, Latest, IsOldest;
    var i :| 0 <= i < |buckets| && buckets[i].at == Latest(buckets);
    assert IsWithin(buckets[i], now, minutes) && buckets[i] in long;
    var k :| 0 <= k < |long| && long[k] == buckets[i];
    var m :| 0 <= m < |long| && long[m].at == Latest(long);
    assert long[m] in buckets;
  }

  lemma EndsOf(long: seq<Bucket>)
    requires long != []
    ensures AreEnds(AsSet(TimesOf(long)), Earliest(long), Latest(long))
  {
    LatestMeans(long);
    TimesAreThose(long);
    hide Latest, Earliest, TimesOf;
    var m :| 0 <= m < |long| && long[m].at == Latest(long);
    var n :| 0 <= n < |long| && long[n].at == Earliest(long);
    assert TimesOf(long)[m] == Latest(long) && TimesOf(long)[n] == Earliest(long);
  }

  lemma LatestRecent(buckets: seq<Bucket>, now: int, minutes: nat)
    requires SomeWithin(buckets, now, minutes)
    ensures buckets != [] && Recent(buckets, now, minutes) != []
    ensures var long := Recent(buckets, now, minutes);
            && Latest(long) == Latest(buckets)
            && AreEnds(TimesWithin(buckets, now, minutes), Earliest(long), Latest(long))
  {
    NewestIsRecent(buckets, now, minutes);
    EndsOf(Recent(buckets, now, minutes));
    SameTimes(buckets, now, minutes);
    hide Recent, Latest, Earliest, AreEnds, AsSet;
  }

  /** A channel with evidence in the long window warms up while that evidence spans less than it must, or
      is a single bucket, or leaves the short window empty.  It must span its usual spacing times the
      number of buckets the policy asks for. */
  lemma WarmsUpExactly(buckets: seq<Bucket>, now: int, previous: real, p: ScoringPolicy, s: SamplingPolicy,
          d: real -> real)
    returns (cadence: int, first: int, last: int)
    requires IsPolicy(p, s) && HealthScore(buckets, now, previous, p, s, d).Ok?
    requires SomeWithin(buckets, now, p.longMinutes)
    ensures var times := TimesWithin(buckets, now, p.longMinutes);
            IsCadence(times, s.bucketSeconds, cadence) && AreEnds(times, first, last) && IsNewest(buckets, last)
    ensures var h := HealthScore(buckets, now, previous, p, s, d).value;
            && h.lastAt == Some(last) && h.bucketCount == CountWithin(buckets, now, p.longMinutes)
            && h.freshness == FreshnessOf(now - last, s)
            && (h.warmingUp <==> || last - first < cadence * s.warmupBuckets || h.bucketCount < 2
                                 || !SomeWithin(buckets, now, p.shortMinutes))
    ensures var long := Recent(buckets, now, p.longMinutes);
            && long != [] && cadence == Cadence(long, s.bucketSeconds) && last == Latest(buckets)
            && first == Earliest(long)
  {
    var long := Recent(buckets, now, p.longMinutes);
    EvidenceFound(buckets, now, previous, p, s, d);
    LatestRecent(buckets, now, p.longMinutes);
    LatestMeans(buckets);
    RecentCount(buckets, now, p.longMinutes);
    CadenceMeans(buckets, now, p.longMinutes, s.bucketSeconds);
    cadence, first, last := Cadence(long, s.bucketSeconds), Earliest(long), Latest(buckets);
    hide Recent, Cadence, Latest, Earliest, FreshnessOf, IsCadence, AreEnds, IsNewest, SomeWithin, RawConfidence;
    hide RawHealth, TimeWeightedScore, ShortScore, Bounded;
  }

  function Remaining(buckets: seq<Bucket>, now: int, minutes: nat, halfLife: real, d: real -> real): real
    requires halfLife > 0.0
  {
    SumWithin(buckets, now, minutes, (b: Bucket) => Remains(b, now, halfLife, d))
  }

  /** The mean quality of the window, each bucket weighing what remains of it; none without a bucket. */
  function MeanQuality(buckets: seq<Bucket>, now: int, minutes: nat, halfLife: real, d: real -> real): real
    requires halfLife > 0.0
  {
    if Remaining(buckets, now, minutes, halfLife, d) > 0.0 then
      Mass(buckets, now, minutes, halfLife, d) / Remaining(buckets, now, minutes, halfLife, d)
    else 0.0
  }

  lemma QualityOneMore(buckets: seq<Bucket>, now: int, minutes: nat, halfLife: real, d: real -> real)
    requires halfLife > 0.0 && buckets != []
    ensures var most, last := buckets[..|buckets| - 1], buckets[|buckets| - 1];
            var decayed := Decayed(last, now, halfLife, d);
            var counts := IsWithin(last, now, minutes);
            && Remaining(buckets, now, minutes, halfLife, d)
               == Remaining(most, now, minutes, halfLife, d) + (if counts then decayed else 0.0)
            && Mass(buckets, now, minutes, halfLife, d)
               == Mass(most, now, minutes, halfLife, d) + (if counts then Times(last.quality, decayed) else 0.0)
  {
    RemainsIsDecayed(buckets[|buckets| - 1], now, halfLife, d);
    hide Remains, Decayed;
  }

  lemma {:induction false} QualitySums(buckets: seq<Bucket>, now: int, minutes: nat, halfLife: real, d: real -> real)
    requires halfLife > 0.0
    ensures var terms := QualityTerms(Recent(buckets, now, minutes), now, halfLife, d);
            && Weight(terms) == Remaining(buckets, now, minutes, halfLife, d)
            && Dot(terms) == Mass(buckets, now, minutes, halfLife, d)
    decreases |buckets|
  {
    if buckets == [] {
      assert QualityTerms(Recent(buckets, now, minutes), now, halfLife, d) == [];
    } else {
      var most, last := buckets[..|buckets| - 1], buckets[|buckets| - 1];
      QualitySums(most, now, minutes, halfLife, d);
      RecentAppend(buckets, now, minutes);
      QualityOneMore(buckets, now, minutes, halfLife, d);
      var before := QualityTerms(Recent(most, now, minutes), now, halfLife, d);
      var term := Term(last.quality, Decayed(last, now, halfLife, d));
      SumsAppend(before, term);
      assert QualityTerms(Recent(buckets, now, minutes), now, halfLife, d)
          == before + if IsWithin(last, now, minutes) then [term] else [];
      assert before + [] == before;
      hide Recent, Weight, Dot, Plain, Mass, Remaining, Times;
    }
  }

  /** The window in which evidence is fresh. */
  function Window(s: SamplingPolicy): int { if 2 * s.interval > s.freshSeconds then 2 * s.interval else s.freshSeconds }

  lemma WindowIsFresh(s: SamplingPolicy)
    ensures Window(s) == FreshWindow(s)
  {
  }

  /** How much of the required span is covered. */
  function Covered(span: int, required: int): real
    requires required > 0
  {
    if span >= required then 1.0 else span as real / required as real
  }

  lemma CoveredIs(span: int, required: int)
    requires required > 0
    ensures Covered(span, required) == MinReal(1.0, span as real / required as real)
  {
    if span >= required { QuotientAtLeastOne(span as real, required as real); }
    else { QuotientBelowOne(span as real, required as real); }
  }

  lemma QuotientBelowOne(x: real, y: real)
    requires y > 0.0 && x < y
    ensures x / y < 1.0
  {
  }

  lemma CadencePositive(long: seq<Bucket>, s: SamplingPolicy)
    requires s.bucketSeconds >= 30 && s.warmupBuckets >= 1
    ensures Cadence(long, s.bucketSeconds) * s.warmupBuckets > 0
  {
    ProductPositive(Cadence(long, s.bucketSeconds), s.warmupBuckets);
  }

  /** Six tenths of the coverage and four tenths of the quality, times how recent the evidence is. */
  function Confidence(recency: real, covered: real, quality: real): real {
    recency * (covered * 0.6 + quality * 0.4)
  }

  lemma ConfidenceIs(recency: real, covered: real, quality: real)
    ensures Times(recency, Blend(covered, quality, 0.6)) == Confidence(recency, covered, quality)
  {
  }

  lemma RawConfidenceIs(buckets: seq<Bucket>, long: seq<Bucket>, short: seq<Bucket>, now: int, p: ScoringPolicy,
          s: SamplingPolicy, d: real -> real)
    requires IsPolicy(p, s) && buckets != [] && long != []
    ensures Window(s) > 0
    ensures RawConfidence(buckets, long, short, now, p, s, d)
         == Confidence(d((now - Latest(buckets)) as real / Window(s) as real), Coverage(long, p, s),
                       Quality(short, now, p, d))
  {
    WindowIsFresh(s);
    ConfidenceIs(FreshFactor(buckets, now, s, d), Coverage(long, p, s), Quality(short, now, p, d));
    hide Coverage, Quality, Times, Blend, Confidence;
  }

  lemma CoverageIs(long: seq<Bucket>, p: ScoringPolicy, s: SamplingPolicy)
    requires IsPolicy(p, s) && long != []
    ensures Cadence(long, s.bucketSeconds) * s.warmupBuckets > 0
    ensures Coverage(long, p, s)
         == Covered(Latest(long) - Earliest(long), Cadence(long, s.bucketSeconds) * s.warmupBuckets)
  {
    LatestMeans(long);
    CadencePositive(long, s);
    hide Cadence, Latest, Earliest;
    assert Span(long) == Latest(long) - Earliest(long);
    CoveredIs(Span(long), RequiredSpan(long, s));
  }

  lemma QualityIs(buckets: seq<Bucket>, now: int, p: ScoringPolicy, d: real -> real)
    requires p.shortHalfLife > 0.0
    ensures Quality(Recent(buckets, now, p.shortMinutes), now, p, d)
         == MeanQuality(buckets, now, p.shortMinutes, p.shortHalfLife, d)
  {
    QualitySums(buckets, now, p.shortMinutes, p.shortHalfLife, d);
  }

  lemma ConfidenceIsRaw(buckets: seq<Bucket>, now: int, previous: real, p: ScoringPolicy, s: SamplingPolicy,
          d: real -> real)
    requires IsPolicy(p, s) && AreBuckets(buckets) && IsDecay(d) && HealthScore(buckets, now, previous, p, s, d).Ok?
    requires SomeWithin(buckets, now, p.longMinutes)
    ensures buckets != [] && Recent(buckets, now, p.longMinutes) != []
    ensures HealthScore(buckets, now, previous, p, s, d).value.confidence
         == RawConfidence(buckets, Recent(buckets, now, p.longMinutes), Recent(buckets, now, p.shortMinutes), now, p, s,
                          d)
  {
    EvidenceFound(buckets, now, previous, p, s, d);
    hide Recent, HealthScore, RawConfidence, RawHealth, SomeWithin, HasEvidence, AreBuckets, IsDecay, ShortScore;
    ClampsAreIdle(buckets, now, previous, p, s, d);
  }

  lemma AllConfidence(buckets: seq<Bucket>, now: int, p: ScoringPolicy, s: SamplingPolicy, d: real -> real)
    requires IsPolicy(p, s) && buckets != [] && Recent(buckets, now, p.longMinutes) != []
    ensures var long := Recent(buckets, now, p.longMinutes);
            && Window(s) > 0 && Cadence(long, s.bucketSeconds) * s.warmupBuckets > 0
            && RawConfidence(buckets, long, Recent(buckets, now, p.shortMinutes), now, p, s, d)
               == Confidence(d((now - Latest(buckets)) as real / Window(s) as real),
                             Covered(Latest(long) - Earliest(long), Cadence(long, s.bucketSeconds) * s.warmupBuckets),
                             MeanQuality(buckets, now, p.shortMinutes, p.shortHalfLife, d))
  {
    var long := Recent(buckets, now, p.longMinutes);
    CoverageIs(long, p, s);
    QualityIs(buckets, now, p, d);
    RawConfidenceIs(buckets, long, Recent(buckets, now, p.shortMinutes), now, p, s, d);
    hide Recent, Cadence, Latest, Earliest, Window, Covered, MeanQuality, RawConfidence, Confidence, Quality, Coverage;
  }

  /** The confidence follows from how recent the newest evidence is, how much of the required span is
      covered, and the quality of the short window. */
  lemma ConfidenceExactly(buckets: seq<Bucket>, now: int, previous: real, p: ScoringPolicy, s: SamplingPolicy,
          d: real -> real)
    returns (cadence: int, first: int, last: int)
    requires IsPolicy(p, s) && AreBuckets(buckets) && IsDecay(d) && HealthScore(buckets, now, previous, p, s, d).Ok?
    requires SomeWithin(buckets, now, p.longMinutes)
    ensures var times := TimesWithin(buckets, now, p.longMinutes);
            IsCadence(times, s.bucketSeconds, cadence) && AreEnds(times, first, last) && IsNewest(buckets, last)
    ensures Window(s) > 0 && cadence * s.warmupBuckets > 0
    ensures var covered := Covered(last - first, cadence * s.warmupBuckets);
            var quality := MeanQuality(buckets, now, p.shortMinutes, p.shortHalfLife, d);
            HealthScore(buckets, now, previous, p, s, d).value.confidence
            == Confidence(d((now - last) as real / Window(s) as real), covered, quality)
  {
    hide Recent, Cadence, Latest, Earliest, HealthScore, IsCadence, AreEnds, IsNewest, SomeWithin, Window, AreBuckets;
    hide TimesWithin, Covered, MeanQuality, IsDecay, RawConfidence, Confidence, FreshnessOf, CountWithin, IsPolicy;
    cadence, first, last := WarmsUpExactly(buckets, now, previous, p, s, d);
    ConfidenceIsRaw(buckets, now, previous, p, s, d);
    AllConfidence(buckets, now, p, s, d);
    NewestIsRecent(buckets, now, p.longMinutes);
  }

  // ----- The score by position -----

  /** Newest first: each place weighs `decay` times as much as the one before. */
  function Worth(scores: seq<real>, decay: real): real {
    if scores == [] then 0.0 else scores[0] + decay * Worth(scores[1..], decay)
  }

  function Weights(n: nat, decay: real): real { if n == 0 then 0.0 else 1.0 + decay * Weights(n - 1, decay) }

  lemma {:induction false} PositionSums(scores: seq<real>, decay: real)
    ensures Dot(PositionTerms(scores, decay)) == Worth(scores, decay)
    ensures Weight(PositionTerms(scores, decay)) == Weights(|scores|, decay)
  {
    if scores == [] {
      assert PositionTerms(scores, decay) == [];
    } else {
      var terms, rest := PositionTerms(scores, decay), PositionTerms(scores[1..], decay);
      PositionSums(scores[1..], decay);
      assert terms[0] == Term(scores[0], 1.0);
      assert Times(scores[0], 1.0) == scores[0];
      assert Scales(rest, terms[1..], decay);
      SumsScale(rest, terms[1..], decay);
      hide Scales, PositionTerms;
    }
  }

  lemma {:induction false} WeightsPositive(n: nat, decay: real)
    requires n > 0 && decay > 0.0
    ensures Weights(n, decay) > 0.0
  {
    if n > 1 {
      WeightsPositive(n - 1, decay);
      ProductNonNegative(decay, Weights(n - 1, decay));
    }
  }

  /** The older score: the newest sample has its own share, the others share the rest by position. */
  lemma PositionExactly(scores: seq<real>, latestWeight: real, decay: real)
    requires decay > 0.0
    ensures |scores| == 0 ==> PositionScore(scores, latestWeight, decay) == 0.0
    ensures |scores| == 1 ==> PositionScore(scores, latestWeight, decay) == scores[0]
    ensures |scores| >= 2 ==>
              && Weights(|scores| - 1, decay) > 0.0
              && PositionScore(scores, latestWeight, decay)
                 == scores[0] * latestWeight
                    + Worth(scores[1..], decay) / Weights(|scores| - 1, decay) * (1.0 - latestWeight)
  {
    if |scores| >= 2 {
      PositionSums(scores[1..], decay);
      WeightsPositive(|scores| - 1, decay);
    }
  }
}
