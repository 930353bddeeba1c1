/** What one round decides for one monitored channel: fuse, degrade, keep or recover. */
module ChannelDecision {
  import opened Common

  datatype Health =
    | Pending | WarmingUp | Stale | Healthy | Degraded | RateLimited | Fused
    | ForcedKeep | ManuallyPaused | Excluded | UpstreamDisabled

  datatype Control = NoControl | ControlPaused | ControlExcluded | ControlFused

  datatype EventType = Perfect | SlowTtfb | UpstreamUnknown | GatewayError | QuotaExhausted | ProbeFail | Fatal

  datatype Freshness = EvidenceFresh | EvidenceStale | EvidenceExpired

  datatype Breaker = Breaker(
    enabled: bool, httpWindow: nat, httpFailures: nat, httpScoreBelow: real,
    latencyWindow: nat, latencyOccurrences: nat, latencyTtfbMs: int, latencyDegradeOnly: bool,
    hardFatal: bool, maxSwitchPerRound: nat, cooldown: nat, minPoolSize: nat)

  datatype Recovery = Recovery(enabled: bool, targetScore: real, successCount: nat, hold: nat)

  datatype Policy = Policy(
    breaker: Breaker, degradeEnabled: bool, degradeBelow: real, recovery: Recovery,
    degradeMin: real, fuseMin: real, recoverMin: real)

  datatype Input = Input(
    score: real, recentEvents: seq<EventType>, recentTtfb: seq<int>, current: Health, confidence: real,
    freshness: Freshness, warmingUp: bool, fatalConfirmed: bool, guardianOwned: bool, control: Control,
    schedulable: bool, available: nat, streak: nat, healthySince: Option<int>, fusedUntil: Option<int>,
    now: int, policy: Policy)

  datatype Cause = FatalEvent | ErrorWindow | LatencyWindow

  datatype Reason =
    | ManualExclusion | ManualPause | ManualFuse | NotSchedulable | StillWarmingUp | NotFresh
    | NotOwned | Cooldown | SlowButUsable | RecoveryMet | AwaitingConfidence | AwaitingRecovery
    | MinimumPool(kept: Cause) | Tripped(cause: Cause) | LatencyDegraded | ScoreDegraded
    | LowConfidence | LooksHealthy | RoundFuseLimit | ScopeRule

  datatype Decision = Decision(health: Health, schedule: bool, probe: bool, canRecover: bool, reason: Reason)

  predicate IsFailure(e: EventType) {
    e.GatewayError? || e.QuotaExhausted? || e.ProbeFail? || e.UpstreamUnknown? || e.Fatal?
  }

  function FailureCount(events: seq<EventType>): nat {
    if events == [] then 0 else (if IsFailure(events[0]) then 1 else 0) + FailureCount(events[1..])
  }

  function SlowCount(ttfb: seq<int>, limit: int): nat {
    if ttfb == [] then 0 else (if ttfb[0] > limit then 1 else 0) + SlowCount(ttfb[1..], limit)
  }

  function Newest<T>(s: seq<T>, n: nat): seq<T> { if n < |s| then s[..n] else s }

  predicate LatestIs(events: seq<EventType>, e: EventType) { |events| > 0 && events[0] == e }

  function FusedOrForced(v: Input, cause: Cause): Decision {
    var canRecover := v.policy.recovery.enabled && v.guardianOwned;
    if v.available <= v.policy.breaker.minPoolSize then
      Decision(ForcedKeep, true, canRecover, canRecover, MinimumPool(cause))
    else
      Decision(Fused, false, canRecover, canRecover, Tripped(cause))
  }

  /** A warming-up channel is judged all the same when its newest event is an unusable one. */
  predicate FailsNow(v: Input) {
    && |v.recentEvents| > 0 && IsFailure(v.recentEvents[0])
    && (v.recentEvents[0].Fatal? ==> v.fatalConfirmed)
  }

  function WhileFused(v: Input): Decision {
    var r := v.policy.recovery;
    if !v.guardianOwned then
      Decision(Fused, false, false, false, NotOwned)
    else if v.fusedUntil.Some? && v.now < v.fusedUntil.value then
      Decision(Fused, false, r.enabled, r.enabled, Cooldown)
    else if LatestIs(v.recentEvents, SlowTtfb) && v.available > v.policy.breaker.minPoolSize then
      Decision(Degraded, true, false, true, SlowButUsable)
    else if && r.enabled && v.confidence >= v.policy.recoverMin && v.score >= r.targetScore
            && v.streak >= r.successCount
            && v.healthySince.Some? && v.now - v.healthySince.value >= r.hold then
      Decision(Healthy, true, true, true, RecoveryMet)
    else
      Decision(Fused, false, r.enabled, r.enabled,
               if v.confidence < v.policy.recoverMin then AwaitingConfidence else AwaitingRecovery)
  }

  function ByScore(v: Input): Decision {
    if v.policy.degradeEnabled && v.score < v.policy.degradeBelow && v.confidence >= v.policy.degradeMin then
      Decision(Degraded, true, false, true, ScoreDegraded)
    else if v.confidence < v.policy.degradeMin then
      Decision(v.current, v.schedulable, false, false, LowConfidence)
    else
      Decision(Healthy, true, false, true, LooksHealthy)
  }

  predicate FatalTrips(v: Input) {
    v.policy.breaker.hardFatal && v.fatalConfirmed && LatestIs(v.recentEvents, Fatal)
  }

  predicate ErrorsTrip(v: Input) {
    var b := v.policy.breaker;
    && FailureCount(Newest(v.recentEvents, b.httpWindow)) >= b.httpFailures
    && v.score < b.httpScoreBelow && v.confidence >= v.policy.fuseMin
  }

  predicate LatencyTrips(v: Input) {
    var b := v.policy.breaker;
    && SlowCount(Newest(v.recentTtfb, b.latencyWindow), b.latencyTtfbMs) >= b.latencyOccurrences
    && v.confidence >= v.policy.degradeMin
  }

  function WhileServing(v: Input): Decision {
    if v.policy.breaker.enabled && FatalTrips(v) then FusedOrForced(v, FatalEvent)
    else if v.policy.breaker.enabled && ErrorsTrip(v) then FusedOrForced(v, ErrorWindow)
    else if v.policy.breaker.enabled && LatencyTrips(v) then
      if v.policy.breaker.latencyDegradeOnly then Decision(Degraded, true, false, true, LatencyDegraded)
      else FusedOrForced(v, LatencyWindow)
    else ByScore(v)
  }

  function Decide(v: Input): Decision {
    match v.control
    case ControlExcluded => Decision(Excluded, false, false, false, ManualExclusion)
    case ControlPaused => Decision(ManuallyPaused, false, false, false, ManualPause)
    case ControlFused => Decision(Fused, false, false, false, ManualFuse)
    case NoControl =>
      if !v.schedulable then Decision(UpstreamDisabled, false, false, false, NotSchedulable)
      else if v.warmingUp && !FailsNow(v) then Decision(WarmingUp, v.schedulable, false, false, StillWarmingUp)
      else if !v.freshness.EvidenceFresh? then Decision(Stale, v.schedulable, false, false, NotFresh)
      else if v.current.Fused? then WhileFused(v)
      else WhileServing(v)
  }

  /** The channel is under automatic control and its evidence may be judged. */
  predicate Governed(v: Input) {
    && v.control.NoControl? && v.schedulable && v.freshness.EvidenceFresh?
    && (v.warmingUp ==> FailsNow(v))
  }

  predicate CooledDown(v: Input) { v.fusedUntil.Some? ==> v.now >= v.fusedUntil.value }

  predicate SlowAndSpare(v: Input) {
    LatestIs(v.recentEvents, SlowTtfb) && v.available > v.policy.breaker.minPoolSize
  }

  predicate Recovered(v: Input) {
    var r := v.policy.recovery;
    && r.enabled && v.confidence >= v.policy.recoverMin && v.score >= r.targetScore && v.streak >= r.successCount
    && v.healthySince.Some? && v.now - v.healthySince.value >= r.hold
  }

  /** Every way out of a fuse, and no other: an owned fuse under automatic control is left only
      after its cooldown, for DEGRADED or for HEALTHY; whatever else leaves it is a control, an
      upstream switch, or evidence that may not be judged. */
  lemma LeavesFuse(v: Input)
    requires v.current.Fused? && v.guardianOwned
    ensures Decide(v).health.Degraded? <==> Governed(v) && CooledDown(v) && SlowAndSpare(v)
    ensures Decide(v).health.Healthy? <==> Governed(v) && CooledDown(v) && !SlowAndSpare(v) && Recovered(v)
    ensures Decide(v).health.Fused? <==>
            || v.control.ControlFused?
            || (Governed(v) && !(CooledDown(v) && (SlowAndSpare(v) || Recovered(v))))
    ensures Governed(v) ==> Decide(v).schedule == !Decide(v).health.Fused?
  {
  }

  predicate Trips(v: Input) {
    && v.policy.breaker.enabled
    && (FatalTrips(v) || ErrorsTrip(v) || (LatencyTrips(v) && !v.policy.breaker.latencyDegradeOnly))
  }

  /** A serving channel is fused exactly when a breaker trips and the pool stays above its
      minimum; a tripped breaker at the minimum keeps the channel in service, and says so. */
  lemma EntersFuse(v: Input)
    requires !v.current.Fused? && v.control.NoControl?
    ensures Decide(v).health.Fused? <==> Governed(v) && Trips(v) && v.available > v.policy.breaker.minPoolSize
    ensures Decide(v).reason.MinimumPool? <==> Governed(v) && Trips(v) && v.available <= v.policy.breaker.minPoolSize
    ensures Decide(v).reason.MinimumPool? ==> Decide(v).schedule && Decide(v).health.ForcedKeep?
  {
  }

  /** Which label a channel carries that an operator controls, or whose evidence may not be judged. */
  lemma UnjudgedDecides(v: Input)
    ensures v.control.ControlExcluded? ==> Decide(v).health.Excluded? && Decide(v).reason.ManualExclusion?
    ensures v.control.ControlPaused? ==> Decide(v).health.ManuallyPaused? && Decide(v).reason.ManualPause?
    ensures v.control.ControlFused? ==> Decide(v).health.Fused? && Decide(v).reason.ManualFuse?
    ensures v.control.NoControl? && !Governed(v) ==>
              Decide(v).health == if !v.schedulable then UpstreamDisabled
                                  else if v.freshness.EvidenceFresh? || (v.warmingUp && !FailsNow(v)) then WarmingUp
                                  else Stale
    ensures v.control.NoControl? && !Governed(v) ==>
              && (Decide(v).reason.NotSchedulable? <==> Decide(v).health.UpstreamDisabled?)
              && (Decide(v).reason.StillWarmingUp? <==> Decide(v).health.WarmingUp?)
              && (Decide(v).reason.NotFresh? <==> Decide(v).health.Stale?)
  {
  }

  /** No breaker takes this serving channel out of service, though the latency window may be slow. */
  predicate SlowWindow(v: Input) { v.policy.breaker.enabled && LatencyTrips(v) }

  predicate TooUncertain(v: Input) { v.confidence < v.policy.degradeMin }

  predicate TooLow(v: Input) { v.policy.degradeEnabled && v.score < v.policy.degradeBelow }

  /** A serving channel that may be judged and that no breaker takes out of service is degraded for
      a slow latency window, or for a low score with enough confidence; with too little confidence
      it keeps its label; it is healthy in every other case. */
  lemma ServingDecides(v: Input)
    requires !v.current.Fused? && Governed(v) && !Trips(v)
    ensures var health := Decide(v).health;
            && (SlowWindow(v) ==> !TooUncertain(v) && health.Degraded?)
            && (!SlowWindow(v) && TooUncertain(v) ==> health == v.current)
            && (!SlowWindow(v) && !TooUncertain(v) ==> health == if TooLow(v) then Degraded else Healthy)
  {
  }

  /** What else a decision says.  Traffic is scheduled exactly for a channel without control that is
      schedulable upstream and not fused.  It is probed, when it may be judged, for as long as
      recovery is enabled and it is fused or would be, a slow but usable channel excepted.  It may
      recover then, or if it serves with enough confidence. */
  lemma FlagsMean(v: Input)
    ensures var d := Decide(v);
            && (d.schedule <==> v.control.NoControl? && v.schedulable && !d.health.Fused?)
            && (d.probe <==> && Governed(v) && v.guardianOwned && v.policy.recovery.enabled
                             && if v.current.Fused? then !(CooledDown(v) && SlowAndSpare(v)) else Trips(v))
            && (d.canRecover <==> && Governed(v)
                                  && if v.current.Fused? then
                                       && v.guardianOwned
                                       && (v.policy.recovery.enabled || (CooledDown(v) && SlowAndSpare(v)))
                                     else if Trips(v) then v.guardianOwned && v.policy.recovery.enabled
                                     else !TooUncertain(v))
  {
  }

  /** Why: what keeps a fused channel fused, which breaker tripped first, and what decided about a
      channel that serves on. */
  lemma ReasonsMean(v: Input)
    requires Governed(v)
    ensures var reason := Decide(v).reason;
            var cause := if FatalTrips(v) then FatalEvent else if ErrorsTrip(v) then ErrorWindow else LatencyWindow;
            && (v.current.Fused? && Decide(v).health.Fused? ==>
                  reason == if !v.guardianOwned then NotOwned else if !CooledDown(v) then Cooldown
                            else if v.confidence < v.policy.recoverMin then AwaitingConfidence else AwaitingRecovery)
            && (v.current.Fused? && !Decide(v).health.Fused? ==>
                  reason == if SlowAndSpare(v) then SlowButUsable else RecoveryMet)
            && (!v.current.Fused? && Trips(v) ==>
                  reason == if v.available <= v.policy.breaker.minPoolSize then MinimumPool(cause) else Tripped(cause))
            && (!v.current.Fused? && !Trips(v) ==>
                  reason == if SlowWindow(v) then LatencyDegraded else if TooUncertain(v) then LowConfidence
                            else if TooLow(v) then ScoreDegraded else LooksHealthy)
  {
  }

  // ----- What trips -----

  function FailedAt(events: seq<EventType>): set<nat> { set i: nat | i < |events| && IsFailure(events[i]) }

  function SlowAt(ttfb: seq<int>, limit: int): set<nat> { set i: nat | i < |ttfb| && ttfb[i] > limit }

  lemma {:induction false} FailureAppend(events: seq<EventType>, e: EventType)
    ensures FailureCount(events + [e]) == FailureCount(events) + if IsFailure(e) then 1 else 0
  {
    if events == [] {
      assert [e][1..] == [];
    } else {
      assert (events + [e])[1..] == events[1..] + [e];
      FailureAppend(events[1..], e);
    }
  }

  lemma {:induction false} FailuresAreCounted(events: seq<EventType>)
    ensures FailureCount(events) == |FailedAt(events)|
  {
    if events != [] {
      var most, last := events[..|events| - 1], events[|events| - 1];
      FailuresAreCounted(most);
      assert events == most + [last];
      FailureAppend(most, last);
      assert FailedAt(events) == FailedAt(most) + if IsFailure(last) then {|most|} else {};
    }
  }

  lemma {:induction false} SlowAppend(ttfb: seq<int>, t: int, limit: int)
    ensures SlowCount(ttfb + [t], limit) == SlowCount(ttfb, limit) + if t > limit then 1 else 0
  {
    if ttfb == [] {
      assert [t][1..] == [];
    } else {
      assert (ttfb + [t])[1..] == ttfb[1..] + [t];
      SlowAppend(ttfb[1..], t, limit);
    }
  }

  lemma {:induction false} SlowOnesAreCounted(ttfb: seq<int>, limit: int)
    ensures SlowCount(ttfb, limit) == |SlowAt(ttfb, limit)|
  {
    if ttfb != [] {
      var most, last := ttfb[..|ttfb| - 1], ttfb[|ttfb| - 1];
      SlowOnesAreCounted(most, limit);
      assert ttfb == most + [last];
      SlowAppend(most, last, limit);
      assert SlowAt(ttfb, limit) == SlowAt(most, limit) + if last > limit then {|most|} else {};
    }
  }

  /** The breakers in terms of the newest events and response times: a confirmed fatal event at the
      head; enough failures in the error window with a low score and enough confidence; enough slow
      responses in the latency window. */
  lemma TripsMean(v: Input)
    ensures var b := v.policy.breaker;
            var failures := set i: nat | i < b.httpWindow && i < |v.recentEvents| && IsFailure(v.recentEvents[i]);
            var slow := set i: nat | i < b.latencyWindow && i < |v.recentTtfb| && v.recentTtfb[i] > b.latencyTtfbMs;
            && (ErrorsTrip(v) <==> |failures| >= b.httpFailures && v.score < b.httpScoreBelow
                                   && v.confidence >= v.policy.fuseMin)
            && (LatencyTrips(v) <==> |slow| >= b.latencyOccurrences && v.confidence >= v.policy.degradeMin)
            && (FatalTrips(v) <==> b.hardFatal && v.fatalConfirmed && v.recentEvents != [] && v.recentEvents[0].Fatal?)
  {
    var b := v.policy.breaker;
    var events, ttfb := Newest(v.recentEvents, b.httpWindow), Newest(v.recentTtfb, b.latencyWindow);
    FailuresAreCounted(events);
    SlowOnesAreCounted(ttfb, b.latencyTtfbMs);
    assert FailedAt(events) == set i: nat | i < b.httpWindow && i < |v.recentEvents| && IsFailure(v.recentEvents[i]);
    assert SlowAt(ttfb, b.latencyTtfbMs)
        == set i: nat | i < b.latencyWindow && i < |v.recentTtfb| && v.recentTtfb[i] > b.latencyTtfbMs;
  }
}
