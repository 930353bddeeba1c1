/** Health scores from time-decayed evidence. */
module Scoring {
  import opened Common
  import opened Sorting
  import opened WeightedAverage

  // ----- Decay -----

  /** What is used of `2^-x`; the exponential itself is not part of this model. */
  ghost predicate IsDecay(d: real -> real) {
    && d(0.0) == 1.0 && d(1.0) == 0.5
    && (forall x :: d(x) > 0.0 && (x > 0.0 ==> d(x) < 1.0))
    && (forall x, y :: d(x + y) == d(x) * d(y))
  }

  /** Times are whole seconds. */
  datatype Bucket = Bucket(channel: nat, at: int, score: real, quality: real)

  predicate IsBucket(b: Bucket) { 0.0 <= b.score <= 100.0 && 0.0 <= b.quality <= 1.0 }

  predicate AreBuckets(buckets: seq<Bucket>) { forall k | 0 <= k < |buckets| :: IsBucket(buckets[k]) }

  function Decayed(b: Bucket, now: int, halfLife: real, d: real -> real): real
    requires halfLife > 0.0
  {
    d((now - b.at) as real / 60.0 / halfLife)
  }

  function ScoreTerm(b: Bucket, now: int, halfLife: real, d: real -> real): Term
    requires halfLife > 0.0
  {
    Term(b.score, b.quality * Decayed(b, now, halfLife, d))
  }

  function ScoreTerms(buckets: seq<Bucket>, now: int, halfLife: real, d: real -> real): seq<Term>
    requires halfLife > 0.0
  {
    seq(|buckets|, (k: nat) requires k < |buckets| => ScoreTerm(buckets[k], now, halfLife, d))
  }

  function QualityTerms(buckets: seq<Bucket>, now: int, halfLife: real, d: real -> real): seq<Term>
    requires halfLife > 0.0
  {
    seq(|buckets|, (k: nat) requires k < |buckets| => Term(buckets[k].quality, Decayed(buckets[k], now, halfLife, d)))
  }

  function TimeWeightedScore(buckets: seq<Bucket>, now: int, halfLife: real, d: real -> real): real
    requires halfLife > 0.0 && buckets != []
  {
    Average(ScoreTerms(buckets, now, halfLife, d))
  }

  method TimeWeighted(buckets: seq<Bucket>, now: int, halfLife: real, d: real -> real) returns (score: real)
    requires halfLife > 0.0 && buckets != []
    ensures score == TimeWeightedScore(buckets, now, halfLife, d)
  {
    var weighted: seq<Term> := [];
    for k := 0 to |buckets|
      invariant |weighted| == k
      invariant forall m | 0 <= m < k :: weighted[m] == ScoreTerm(buckets[m], now, halfLife, d)
    {
      weighted := weighted + [ScoreTerm(buckets[k], now, halfLife, d)];
    }
    assert weighted == ScoreTerms(buckets, now, halfLife, d);
    var total := Weight(weighted);
    if total <= 0.0 {
      return Plain(weighted) / |weighted| as real;
    }
    score := Dot(weighted) / total;
  }

  lemma ScoreTermNonNegative(b: Bucket, now: int, halfLife: real, d: real -> real)
    requires IsBucket(b) && halfLife > 0.0 && IsDecay(d)
    ensures ScoreTerm(b, now, halfLife, d).weight >= 0.0
  {
    ProductNonNegative(b.quality, Decayed(b, now, halfLife, d));
  }

  lemma WeightsNonNegative(buckets: seq<Bucket>, now: int, halfLife: real, d: real -> real)
    requires AreBuckets(buckets) && halfLife > 0.0 && IsDecay(d)
    ensures NonNegative(ScoreTerms(buckets, now, halfLife, d)) && NonNegative(QualityTerms(buckets, now, halfLife, d))
  {
    forall k | 0 <= k < |buckets| ensures ScoreTerms(buckets, now, halfLife, d)[k].weight >= 0.0 {
      ScoreTermNonNegative(buckets[k], now, halfLife, d);
    }
  }

  predicate ScoresWithin(buckets: seq<Bucket>, lo: real, hi: real) {
    forall k | 0 <= k < |buckets| :: lo <= buckets[k].score <= hi
  }

  lemma ScoreBetween(buckets: seq<Bucket>, now: int, halfLife: real, d: real -> real, lo: real, hi: real)
    requires AreBuckets(buckets) && buckets != [] && halfLife > 0.0 && IsDecay(d) && ScoresWithin(buckets, lo, hi)
    ensures lo <= TimeWeightedScore(buckets, now, halfLife, d) <= hi
  {
    WeightsNonNegative(buckets, now, halfLife, d);
    AverageBetween(ScoreTerms(buckets, now, halfLife, d), lo, hi);
  }

  lemma AgesShift(at: int, now: int, later: int, halfLife: real)
    requires halfLife > 0.0
    ensures (later - at) as real / 60.0 / halfLife
         == (later - now) as real / 60.0 / halfLife + (now - at) as real / 60.0 / halfLife
  {
    assert (later - at) as real == (later - now) as real + (now - at) as real;
    assert (later - at) as real / 60.0 == (later - now) as real / 60.0 + (now - at) as real / 60.0;
    QuotientAdds((later - now) as real / 60.0, (now - at) as real / 60.0, halfLife);
  }

  lemma QuotientAdds(x: real, y: real, w: real)
    requires w > 0.0
    ensures (x + y) / w == x / w + y / w
  {
  }

  lemma DecayShifts(b: Bucket, now: int, later: int, halfLife: real, d: real -> real)
    requires halfLife > 0.0 && IsDecay(d)
    ensures Decayed(b, later, halfLife, d) == d((later - now) as real / 60.0 / halfLife) * Decayed(b, now, halfLife, d)
  {
    AgesShift(b.at, now, later, halfLife);
  }

  lemma ProductShifts(q: real, c: real, x: real)
    ensures q * (c * x) == c * (q * x)
  {
  }

  /** The time-weighted score of a fixed set of buckets does not depend on when it is taken. */
  lemma ScoreIgnoresNow(buckets: seq<Bucket>, now: int, later: int, halfLife: real, d: real -> real)
    requires buckets != [] && halfLife > 0.0 && IsDecay(d)
    ensures TimeWeightedScore(buckets, now, halfLife, d) == TimeWeightedScore(buckets, later, halfLife, d)
  {
    var c := d((later - now) as real / 60.0 / halfLife);
    var a, b := ScoreTerms(buckets, now, halfLife, d), ScoreTerms(buckets, later, halfLife, d);
    forall k | 0 <= k < |a| ensures b[k].score == a[k].score && b[k].weight == c * a[k].weight {
      DecayShifts(buckets[k], now, later, halfLife, d);
      ProductShifts(buckets[k].quality, c, Decayed(buckets[k], now, halfLife, d));
    }
    AverageScales(a, b, c);
  }

  // ----- The health score -----

  datatype ScoringPolicy = ScoringPolicy(
    shortMinutes: nat, longMinutes: nat, shortHalfLife: real, longHalfLife: real, shortRatio: real)

  datatype SamplingPolicy = SamplingPolicy(
    interval: nat, bucketSeconds: nat, freshSeconds: nat, expireSeconds: nat, warmupBuckets: nat)

  /** The bounds the policy model enforces on its fields. */
  predicate IsPolicy(p: ScoringPolicy, s: SamplingPolicy) {
    && 1 <= p.shortMinutes <= p.longMinutes && p.shortHalfLife > 0.0 && p.longHalfLife > 0.0
    && 0.0 <= p.shortRatio <= 1.0
    && s.bucketSeconds >= 30 && s.freshSeconds >= 30 && s.warmupBuckets >= 1
  }

  datatype Freshness = FreshEvidence | StaleEvidence | ExpiredEvidence

  datatype ScoreError = MixedChannels | DuplicateTime | FutureBucket | PreviousOutOfRange

  datatype Health = Health(
    shortScore: real, longScore: real, health: real, confidence: real, freshness: Freshness,
    bucketCount: nat, lastAt: Option<int>, warmingUp: bool)

  function MaxInt(a: int, b: int): int { if a < b then b else a }

  function MinReal(a: real, b: real): real { if a < b then a else b }

  function MaxReal(a: real, b: real): real { if a < b then b else a }

  function Bounded(x: real): real { MaxReal(0.0, MinReal(100.0, x)) }

  function FreshWindow(s: SamplingPolicy): int { MaxInt(s.freshSeconds, MaxInt(s.freshSeconds, 2 * s.interval)) }

  function ExpireWindow(s: SamplingPolicy): int { MaxInt(s.expireSeconds, 2 * FreshWindow(s)) }

  function Latest(buckets: seq<Bucket>): int
    requires buckets != []
  {
    if |buckets| == 1 then buckets[0].at else MaxInt(buckets[0].at, Latest(buckets[1..]))
  }

  function Earliest(buckets: seq<Bucket>): int
    requires buckets != []
  {
    if |buckets| == 1 then buckets[0].at
    else var rest := Earliest(buckets[1..]); if buckets[0].at < rest then buckets[0].at else rest
  }

  /** The buckets at most this many minutes old, in their order. */
  function Recent(buckets: seq<Bucket>, now: int, minutes: nat): seq<Bucket> {
    if buckets == [] then []
    else (if now - buckets[0].at <= minutes * 60 then [buckets[0]] else []) + Recent(buckets[1..], now, minutes)
  }

  function TimesOf(buckets: seq<Bucket>): seq<int> {
    if buckets == [] then [] else [buckets[0].at] + TimesOf(buckets[1..])
  }

  /** The gaps between neighbouring times that are at least one bucket wide. */
  function WideGaps(times: seq<int>, width: nat): seq<int> {
    if |times| < 2 then []
    else (if times[1] - times[0] >= width then [times[1] - times[0]] else []) + WideGaps(times[1..], width)
  }

  function Half(x: int): int { if x >= 0 then x / 2 else -((-x) / 2) }

  /** The whole part of the median. */
  function Median(sorted: seq<int>): int
    requires sorted != []
  {
    var m := |sorted| / 2;
    if |sorted| % 2 == 1 then sorted[m] else Half(sorted[m - 1] + sorted[m])
  }

  function Cadence(buckets: seq<Bucket>, width: nat): int {
    if |buckets| < 2 then width
    else
      var gaps := WideGaps(SortedInts(TimesOf(buckets)), width);
      SortedIntsSorts(gaps);
      if gaps == [] then width else MaxInt(width, Median(SortedInts(gaps)))
  }

  function Span(buckets: seq<Bucket>): int
    requires buckets != []
  {
    MaxInt(0, Latest(buckets) - Earliest(buckets))
  }

  function RequiredSpan(long: seq<Bucket>, s: SamplingPolicy): int { Cadence(long, s.bucketSeconds) * s.warmupBuckets }

  lemma RequiredSpanPositive(long: seq<Bucket>, p: ScoringPolicy, s: SamplingPolicy)
    requires IsPolicy(p, s)
    ensures RequiredSpan(long, s) > 0
  {
    ProductPositive(Cadence(long, s.bucketSeconds), s.warmupBuckets);
  }

  lemma ProductPositive(x: int, y: int)
    requires x > 0 && y > 0
    ensures x * y > 0
  {
  }

  function Coverage(long: seq<Bucket>, p: ScoringPolicy, s: SamplingPolicy): real
    requires IsPolicy(p, s) && long != []
  {
    RequiredSpanPositive(long, p, s);
    MinReal(1.0, Span(long) as real / RequiredSpan(long, s) as real)
  }

  function Quality(short: seq<Bucket>, now: int, p: ScoringPolicy, d: real -> real): real
    requires p.shortHalfLife > 0.0
  {
    var terms := QualityTerms(short, now, p.shortHalfLife, d);
    if Weight(terms) > 0.0 then Dot(terms) / Weight(terms) else 0.0
  }

  function FreshFactor(buckets: seq<Bucket>, now: int, s: SamplingPolicy, d: real -> real): real
    requires buckets != [] && s.freshSeconds >= 30
  {
    d((now - Latest(buckets)) as real / FreshWindow(s) as real)
  }

  /** Confidence before it is clamped to [0, 1]. */
  function RawConfidence(buckets: seq<Bucket>, long: seq<Bucket>, short: seq<Bucket>, now: int, p: ScoringPolicy,
          s: SamplingPolicy, d: real -> real): real
    requires IsPolicy(p, s) && buckets != [] && long != []
  {
    Times(FreshFactor(buckets, now, s, d), Blend(Coverage(long, p, s), Quality(short, now, p, d), 0.6))
  }

  function ShortScore(long: seq<Bucket>, short: seq<Bucket>, now: int, p: ScoringPolicy, d: real -> real): real
    requires p.shortHalfLife > 0.0 && p.longHalfLife > 0.0 && long != []
  {
    if short != [] then TimeWeightedScore(short, now, p.shortHalfLife, d)
    else TimeWeightedScore(long, now, p.longHalfLife, d)
  }

  /** The health score before it is clamped to [0, 100]. */
  function RawHealth(long: seq<Bucket>, short: seq<Bucket>, now: int, p: ScoringPolicy, d: real -> real): real
    requires p.shortHalfLife > 0.0 && p.longHalfLife > 0.0 && long != []
  {
    Blend(ShortScore(long, short, now, p, d), TimeWeightedScore(long, now, p.longHalfLife, d), p.shortRatio)
  }

  predicate OneChannel(buckets: seq<Bucket>) {
    forall i, j | 0 <= i < j < |buckets| :: buckets[i].channel == buckets[j].channel
  }

  predicate DistinctTimes(buckets: seq<Bucket>) {
    forall i, j | 0 <= i < j < |buckets| :: buckets[i].at != buckets[j].at
  }

  predicate NoFuture(buckets: seq<Bucket>, now: int) { forall i | 0 <= i < |buckets| :: buckets[i].at <= now }

  function FreshnessOf(age: int, s: SamplingPolicy): Freshness {
    if age <= FreshWindow(s) then FreshEvidence else if age <= ExpireWindow(s) then StaleEvidence else ExpiredEvidence
  }

  function NoEvidence(previous: real, lastAt: Option<int>): Health {
    Health(previous, previous, previous, 0.0, ExpiredEvidence, 0, lastAt, true)
  }

  function HealthScore(buckets: seq<Bucket>, now: int, previous: real, p: ScoringPolicy, s: SamplingPolicy,
          d: real -> real): Result<Health, ScoreError>
    requires IsPolicy(p, s)
  {
    var long := Recent(buckets, now, p.longMinutes);
    var short := Recent(long, now, p.shortMinutes);
    if !(0.0 <= previous <= 100.0) then Err(PreviousOutOfRange)
    else if buckets == [] then Ok(NoEvidence(previous, None))
    else if !OneChannel(buckets) then Err(MixedChannels)
    else if !DistinctTimes(buckets) then Err(DuplicateTime)
    else if !NoFuture(buckets, now) then Err(FutureBucket)
    else if long == [] then Ok(NoEvidence(previous, Some(Latest(buckets))))
    else
      Ok(Health(Bounded(ShortScore(long, short, now, p, d)),
                Bounded(TimeWeightedScore(long, now, p.longHalfLife, d)),
                Bounded(RawHealth(long, short, now, p, d)),
                MaxReal(0.0, MinReal(1.0, RawConfidence(buckets, long, short, now, p, s, d))),
                FreshnessOf(now - Latest(buckets), s), |long|, Some(Latest(buckets)),
                Span(long) < RequiredSpan(long, s) || |long| < 2 || |short| < 1))
  }

  lemma {:induction false} RecentFrom(buckets: seq<Bucket>, now: int, minutes: nat)
    requires AreBuckets(buckets)
    ensures AreBuckets(Recent(buckets, now, minutes))
    ensures forall b | b in Recent(buckets, now, minutes) :: b in buckets && now - b.at <= minutes * 60
  {
    if buckets != [] {
      assert IsBucket(buckets[0]);
      RecentFrom(buckets[1..], now, minutes);
    }
  }

  lemma HealthBetween(long: seq<Bucket>, short: seq<Bucket>, now: int, p: ScoringPolicy, d: real -> real, lo: real,
          hi: real)
    requires AreBuckets(long) && AreBuckets(short) && long != [] && IsDecay(d)
    requires p.shortHalfLife > 0.0 && p.longHalfLife > 0.0 && 0.0 <= p.shortRatio <= 1.0
    requires ScoresWithin(long, lo, hi) && ScoresWithin(short, lo, hi)
    ensures lo <= ShortScore(long, short, now, p, d) <= hi
    ensures lo <= TimeWeightedScore(long, now, p.longHalfLife, d) <= hi
    ensures lo <= RawHealth(long, short, now, p, d) <= hi
  {
    ScoreBetween(long, now, p.longHalfLife, d, lo, hi);
    if short != [] {
      ScoreBetween(short, now, p.shortHalfLife, d, lo, hi);
    }
    BlendBetween(ShortScore(long, short, now, p, d), TimeWeightedScore(long, now, p.longHalfLife, d), p.shortRatio,
                 lo, hi);
  }

  lemma {:induction false} RecentWithin(buckets: seq<Bucket>, now: int, minutes: nat, lo: real, hi: real)
    requires ScoresWithin(buckets, lo, hi)
    ensures ScoresWithin(Recent(buckets, now, minutes), lo, hi)
  {
    if buckets != [] {
      RecentWithin(buckets[1..], now, minutes, lo, hi);
    }
  }

  /** With evidence in the long window all three scores lie between any bounds of that evidence,
      so the clamps to [0, 100] never change a value. */
  lemma HealthIsConvex(buckets: seq<Bucket>, now: int, p: ScoringPolicy, d: real -> real, lo: real, hi: real)
    requires AreBuckets(buckets) && IsDecay(d)
    requires p.shortHalfLife > 0.0 && p.longHalfLife > 0.0 && 0.0 <= p.shortRatio <= 1.0
    requires Recent(buckets, now, p.longMinutes) != [] && ScoresWithin(Recent(buckets, now, p.longMinutes), lo, hi)
    ensures var long := Recent(buckets, now, p.longMinutes);
            var short := Recent(long, now, p.shortMinutes);
            && lo <= ShortScore(long, short, now, p, d) <= hi
            && lo <= TimeWeightedScore(long, now, p.longHalfLife, d) <= hi
            && lo <= RawHealth(long, short, now, p, d) <= hi
  {
    var long := Recent(buckets, now, p.longMinutes);
    RecentFrom(buckets, now, p.longMinutes);
    RecentFrom(long, now, p.shortMinutes);
    RecentWithin(long, now, p.shortMinutes, lo, hi);
    HealthBetween(long, Recent(long, now, p.shortMinutes), now, p, d, lo, hi);
  }

  /** Evidence that can be judged: of one channel, at different times, none of the future, and some
      of it inside the long window. */
  predicate HasEvidence(buckets: seq<Bucket>, now: int, p: ScoringPolicy) {
    && OneChannel(buckets) && DistinctTimes(buckets) && NoFuture(buckets, now)
    && Recent(buckets, now, p.longMinutes) != []
  }

  lemma EvidenceIsScored(buckets: seq<Bucket>, now: int, previous: real, p: ScoringPolicy, s: SamplingPolicy,
          d: real -> real)
    requires IsPolicy(p, s) && HasEvidence(buckets, now, p) && 0.0 <= previous <= 100.0
    ensures var long := Recent(buckets, now, p.longMinutes);
            && buckets != [] && HealthScore(buckets, now, previous, p, s, d).Ok?
            && HealthScore(buckets, now, previous, p, s, d).value.health
               == Bounded(RawHealth(long, Recent(long, now, p.shortMinutes), now, p, d))
  {
  }

  lemma ClampsAreIdle(buckets: seq<Bucket>, now: int, previous: real, p: ScoringPolicy, s: SamplingPolicy,
          d: real -> real)
    requires AreBuckets(buckets) && IsPolicy(p, s) && IsDecay(d) && HasEvidence(buckets, now, p)
    requires 0.0 <= previous <= 100.0
    ensures buckets != [] && HealthScore(buckets, now, previous, p, s, d).Ok?
    ensures var long := Recent(buckets, now, p.longMinutes);
            var short := Recent(long, now, p.shortMinutes);
            var h := HealthScore(buckets, now, previous, p, s, d).value;
            && h.shortScore == ShortScore(long, short, now, p, d)
            && h.longScore == TimeWeightedScore(long, now, p.longHalfLife, d)
            && h.health == RawHealth(long, short, now, p, d)
            && h.confidence == RawConfidence(buckets, long, short, now, p, s, d)
  {
    var long := Recent(buckets, now, p.longMinutes);
    RecentFrom(buckets, now, p.longMinutes);
    assert forall k | 0 <= k < |long| :: IsBucket(long[k]);
    HealthIsConvex(buckets, now, p, d, 0.0, 100.0);
    RecentFrom(long, now, p.shortMinutes);
    ConfidenceIsFraction(buckets, long, Recent(long, now, p.shortMinutes), now, p, s, d);
  }

  lemma {:induction false} LatestIn(buckets: seq<Bucket>, now: int)
    requires buckets != [] && NoFuture(buckets, now)
    ensures Latest(buckets) <= now
  {
    if |buckets| > 1 {
      assert forall i | 0 <= i < |buckets[1..]| :: buckets[1..][i] == buckets[i + 1];
      LatestIn(buckets[1..], now);
    }
  }

  lemma QualityIsFraction(short: seq<Bucket>, now: int, p: ScoringPolicy, d: real -> real)
    requires AreBuckets(short) && IsDecay(d) && p.shortHalfLife > 0.0
    ensures 0.0 <= Quality(short, now, p, d) <= 1.0
  {
    var terms := QualityTerms(short, now, p.shortHalfLife, d);
    WeightsNonNegative(short, now, p.shortHalfLife, d);
    assert forall k | 0 <= k < |short| :: IsBucket(short[k]);
    if Weight(terms) > 0.0 {
      DotBetween(terms, 0.0, 1.0);
      QuotientBetween(Dot(terms), Weight(terms), 0.0, 1.0);
    }
  }

  lemma CoverageIsFraction(long: seq<Bucket>, p: ScoringPolicy, s: SamplingPolicy)
    requires IsPolicy(p, s) && long != []
    ensures 0.0 <= Coverage(long, p, s) <= 1.0
  {
    RequiredSpanPositive(long, p, s);
    FractionQuotient(Span(long) as real, RequiredSpan(long, s) as real);
  }

  lemma FreshFactorIsFraction(buckets: seq<Bucket>, now: int, s: SamplingPolicy, d: real -> real)
    requires buckets != [] && NoFuture(buckets, now) && s.freshSeconds >= 30 && IsDecay(d)
    ensures 0.0 <= FreshFactor(buckets, now, s, d) <= 1.0
  {
    LatestIn(buckets, now);
    FractionQuotient((now - Latest(buckets)) as real, FreshWindow(s) as real);
  }

  lemma ConfidenceIsFraction(buckets: seq<Bucket>, long: seq<Bucket>, short: seq<Bucket>, now: int, p: ScoringPolicy,
          s: SamplingPolicy, d: real -> real)
    requires IsPolicy(p, s) && IsDecay(d) && buckets != [] && NoFuture(buckets, now)
    requires long != [] && AreBuckets(short)
    ensures 0.0 <= RawConfidence(buckets, long, short, now, p, s, d) <= 1.0
  {
    hide Times, Blend;
    QualityIsFraction(short, now, p, d);
    CoverageIsFraction(long, p, s);
    FreshFactorIsFraction(buckets, now, s, d);
    BlendBetween(Coverage(long, p, s), Quality(short, now, p, d), 0.6, 0.0, 1.0);
    FractionProduct(FreshFactor(buckets, now, s, d), Blend(Coverage(long, p, s), Quality(short, now, p, d), 0.6));
  }

  /** A channel that is not warming up has full coverage: its confidence is decided by how fresh
      and how good its evidence is. */
  lemma WarmMeansCovered(buckets: seq<Bucket>, now: int, previous: real, p: ScoringPolicy, s: SamplingPolicy,
          d: real -> real)
    requires IsPolicy(p, s) && HealthScore(buckets, now, previous, p, s, d).Ok?
    requires !HealthScore(buckets, now, previous, p, s, d).value.warmingUp
    ensures var long := Recent(buckets, now, p.longMinutes); long != [] && Coverage(long, p, s) == 1.0
  {
    var long := Recent(buckets, now, p.longMinutes);
    RequiredSpanPositive(long, p, s);
    QuotientAtLeastOne(Span(long) as real, RequiredSpan(long, s) as real);
  }

  // ----- Better evidence never lowers the health -----

  predicate Better(a: seq<Bucket>, b: seq<Bucket>) {
    |a| == |b| && forall k | 0 <= k < |a| :: b[k] == a[k].(score := b[k].score) && a[k].score <= b[k].score
  }

  lemma {:induction false} RecentBetter(a: seq<Bucket>, b: seq<Bucket>, now: int, minutes: nat)
    requires Better(a, b)
    ensures Better(Recent(a, now, minutes), Recent(b, now, minutes))
  {
    if a != [] {
      RecentBetter(a[1..], b[1..], now, minutes);
    }
  }

  lemma TermsRise(a: seq<Bucket>, b: seq<Bucket>, now: int, halfLife: real, d: real -> real)
    requires Better(a, b) && halfLife > 0.0
    ensures Raises(ScoreTerms(a, now, halfLife, d), ScoreTerms(b, now, halfLife, d))
  {
    forall k | 0 <= k < |a|
      ensures ScoreTerm(a[k], now, halfLife, d).weight == ScoreTerm(b[k], now, halfLife, d).weight
    {
      assert a[k].quality == b[k].quality && a[k].at == b[k].at;
    }
  }

  lemma ScoreRises(a: seq<Bucket>, b: seq<Bucket>, now: int, halfLife: real, d: real -> real)
    requires a != [] && Better(a, b) && AreBuckets(a) && halfLife > 0.0 && IsDecay(d)
    ensures TimeWeightedScore(a, now, halfLife, d) <= TimeWeightedScore(b, now, halfLife, d)
  {
    WeightsNonNegative(a, now, halfLife, d);
    TermsRise(a, b, now, halfLife, d);
    AverageRises(ScoreTerms(a, now, halfLife, d), ScoreTerms(b, now, halfLife, d));
  }

  lemma RawHealthRises(a: seq<Bucket>, b: seq<Bucket>, now: int, p: ScoringPolicy, d: real -> real)
    requires Better(a, b) && AreBuckets(a) && IsDecay(d)
    requires p.shortHalfLife > 0.0 && p.longHalfLife > 0.0 && 0.0 <= p.shortRatio <= 1.0
    requires Recent(a, now, p.longMinutes) != []
    ensures Recent(b, now, p.longMinutes) != []
    ensures var longA, longB := Recent(a, now, p.longMinutes), Recent(b, now, p.longMinutes);
            RawHealth(longA, Recent(longA, now, p.shortMinutes), now, p, d)
            <= RawHealth(longB, Recent(longB, now, p.shortMinutes), now, p, d)
  {
    RecentFrom(a, now, p.longMinutes);
    RecentBetter(a, b, now, p.longMinutes);
    var longA, longB := Recent(a, now, p.longMinutes), Recent(b, now, p.longMinutes);
    RecentFrom(longA, now, p.shortMinutes);
    RecentBetter(longA, longB, now, p.shortMinutes);
    var shortA, shortB := Recent(longA, now, p.shortMinutes), Recent(longB, now, p.shortMinutes);
    ScoreRises(longA, longB, now, p.longHalfLife, d);
    if shortA != [] {
      ScoreRises(shortA, shortB, now, p.shortHalfLife, d);
    }
    BlendRises(ShortScore(longA, shortA, now, p, d), TimeWeightedScore(longA, now, p.longHalfLife, d),
               ShortScore(longB, shortB, now, p, d), TimeWeightedScore(longB, now, p.longHalfLife, d), p.shortRatio);
  }

  lemma BetterIsEvidence(a: seq<Bucket>, b: seq<Bucket>, now: int, p: ScoringPolicy)
    requires Better(a, b) && HasEvidence(a, now, p)
    ensures HasEvidence(b, now, p)
  {
    RecentBetter(a, b, now, p.longMinutes);
  }

  lemma BoundedRises(x: real, y: real)
    requires x <= y
    ensures Bounded(x) <= Bounded(y)
  {
  }

  /** Raising the score of any buckets never lowers the health score. */
  lemma HealthRises(a: seq<Bucket>, b: seq<Bucket>, now: int, previous: real, p: ScoringPolicy, s: SamplingPolicy,
          d: real -> real)
    requires Better(a, b) && AreBuckets(a) && IsPolicy(p, s) && IsDecay(d) && HasEvidence(a, now, p)
    requires 0.0 <= previous <= 100.0
    ensures HealthScore(a, now, previous, p, s, d).Ok? && HealthScore(b, now, previous, p, s, d).Ok?
    ensures HealthScore(a, now, previous, p, s, d).value.health <= HealthScore(b, now, previous, p, s, d).value.health
  {
    BetterIsEvidence(a, b, now, p);
    EvidenceIsScored(a, now, previous, p, s, d);
    EvidenceIsScored(b, now, previous, p, s, d);
    RawHealthRises(a, b, now, p, d);
    var longA, longB := Recent(a, now, p.longMinutes), Recent(b, now, p.longMinutes);
    BoundedRises(RawHealth(longA, Recent(longA, now, p.shortMinutes), now, p, d),
                 RawHealth(longB, Recent(longB, now, p.shortMinutes), now, p, d));
  }

  // ----- The older score by position -----

  function Power(x: real, n: nat): real { if n == 0 then 1.0 else x * Power(x, n - 1) }

  function PositionTerms(scores: seq<real>, decay: real): seq<Term> {
    seq(|scores|, (k: nat) requires k < |scores| => Term(scores[k], Power(decay, k)))
  }

  /** `scores` newest first: the newest has its own weight, the others decay by position. */
  function PositionScore(scores: seq<real>, latestWeight: real, decay: real): real
    requires decay > 0.0
  {
    if scores == [] then 0.0
    else if |scores| == 1 then scores[0]
    else Blend(scores[0], Average(PositionTerms(scores[1..], decay)), latestWeight)
  }

  lemma {:induction false} PowerPositive(x: real, n: nat)
    requires x > 0.0
    ensures Power(x, n) > 0.0
  {
    if n > 0 {
      PowerPositive(x, n - 1);
      assert x * Power(x, n - 1) > 0.0;
    }
  }

  lemma PositionScoreBetween(scores: seq<real>, latestWeight: real, decay: real, lo: real, hi: real)
    requires scores != [] && decay > 0.0 && 0.0 <= latestWeight <= 1.0
    requires forall k | 0 <= k < |scores| :: lo <= scores[k] <= hi
    ensures lo <= PositionScore(scores, latestWeight, decay) <= hi
  {
    if |scores| > 1 {
      var terms := PositionTerms(scores[1..], decay);
      forall k | 0 <= k < |terms| ensures terms[k].weight >= 0.0 {
        PowerPositive(decay, k);
      }
      AverageBetween(terms, lo, hi);
      BlendBetween(scores[0], Average(terms), latestWeight, lo, hi);
    }
  }

  // ----- Newer evidence weighs more -----

  lemma PositiveProduct(x: real, y: real)
    requires x > 0.0 && y > 0.0
    ensures x * y > 0.0
  {
  }

  lemma SmallerProduct(x: real, y: real)
    requires x > 0.0 && 0.0 < y < 1.0
    ensures x * y < x
  {
    var less := 1.0 - y;
    PositiveProduct(x, less);
    assert x * y == x - x * less;
  }

  lemma QuotientPositive(x: real, y: real)
    requires x > 0.0 && y > 0.0
    ensures x / y > 0.0
  {
  }

  /** Of two buckets the newer one has the greater decay, whenever it is looked at. */
  lemma NewerWeighsMore(older: Bucket, newer: Bucket, now: int, halfLife: real, d: real -> real)
    requires IsDecay(d) && halfLife > 0.0 && older.at < newer.at
    ensures 0.0 < Decayed(older, now, halfLife, d) < Decayed(newer, now, halfLife, d)
  {
    AgesShift(older.at, newer.at, now, halfLife);
    var gap := (newer.at - older.at) as real / 60.0 / halfLife;
    QuotientPositive((newer.at - older.at) as real / 60.0, halfLife);
    SmallerProduct(Decayed(newer, now, halfLife, d), d(gap));
  }

  lemma OneHalfLife(gap: real, halfLife: real)
    requires halfLife > 0.0 && gap == 60.0 * halfLife
    ensures gap / 60.0 / halfLife == 1.0
  {
    assert gap / 60.0 == halfLife;
  }

  lemma HalfProduct(quality: real, x: real, half: real)
    requires half == x * 0.5
    ensures quality * half == (quality * x) / 2.0
  {
  }

  /** Evidence that is one half-life older weighs half as much, at equal quality. */
  lemma HalfLifeHalves(older: Bucket, newer: Bucket, now: int, halfLife: real, d: real -> real)
    requires IsDecay(d) && halfLife > 0.0 && (newer.at - older.at) as real == 60.0 * halfLife
    requires older.quality == newer.quality
    ensures ScoreTerm(older, now, halfLife, d).weight == ScoreTerm(newer, now, halfLife, d).weight / 2.0
  {
    AgesShift(older.at, newer.at, now, halfLife);
    OneHalfLife((newer.at - older.at) as real, halfLife);
    HalfProduct(newer.quality, Decayed(newer, now, halfLife, d), Decayed(older, now, halfLife, d));
  }
}
