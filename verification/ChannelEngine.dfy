/** Rounds of the guardian engine: what is stored for each channel from one round to the next. */
module ChannelEngine {
  import opened Common
  import opened ChannelDecision

  /** The stored row; a channel that was never seen counts as pending. */
  datatype Channel = Channel(
    health: Health, control: Control, streak: nat, healthySince: Option<int>, fusedUntil: Option<int>)

  const UNSEEN := Channel(Pending, NoControl, 0, None, None)

  /** Group `None` is the ungrouped pool. */
  datatype Scope = Scope(
    excludedGroups: set<Option<nat>>, excludedChannels: set<nat>, selectedOnly: bool,
    managedGroups: set<Option<nat>>, pausedChannels: set<nat>)

  datatype Override = Override(
    enabled: Option<bool>, breakerEnabled: Option<bool>, minPoolSize: Option<nat>, recoveryEnabled: Option<bool>)

  /** What one round observes of one channel: the monitor entry and the evidence behind it. */
  datatype Facts = Facts(
    id: nat, group: Option<nat>, schedulable: bool, available: Option<nat>, event: EventType,
    recentEvents: seq<EventType>, recentTtfb: seq<int>, score: real, confidence: real,
    freshness: Freshness, warmingUp: bool, fatalConfirmed: bool, override: Option<Override>)

  /** The settings and the clock reading of one round. */
  datatype Setting = Setting(now: int, policy: Policy, scope: Scope)

  function OrElse<T>(value: Option<T>, default: T): T { if value.Some? then value.value else default }

  function EffectivePolicy(p: Policy, o: Option<Override>): Policy {
    if o.None? then p
    else p.(breaker := p.breaker.(enabled := OrElse(o.value.breakerEnabled, p.breaker.enabled),
                                  minPoolSize := OrElse(o.value.minPoolSize, p.breaker.minPoolSize)),
            recovery := p.recovery.(enabled := OrElse(o.value.recoveryEnabled, p.recovery.enabled)))
  }

  function ScopeDecision(x: Setting, f: Facts): Option<Decision> {
    if || f.group in x.scope.excludedGroups || f.id in x.scope.excludedChannels
       || (x.scope.selectedOnly && f.group !in x.scope.managedGroups)
       || (f.override.Some? && f.override.value.enabled == Some(false)) then
      Some(Decision(Excluded, f.schedulable, false, false, ScopeRule))
    else if f.id in x.scope.pausedChannels then
      Some(Decision(ManuallyPaused, false, true, false, ScopeRule))
    else None
  }

  function LeadingPerfects(events: seq<EventType>): nat {
    if events == [] || !events[0].Perfect? then 0 else 1 + LeadingPerfects(events[1..])
  }

  predicate Monitored(x: Setting, c: Channel, f: Facts) {
    !c.control.ControlExcluded? && !(ScopeDecision(x, f).Some? && ScopeDecision(x, f).value.health.Excluded?)
  }

  /** The streak and its start before the decision of this round. */
  function Observed(x: Setting, c: Channel, f: Facts): Channel {
    if c.health.Fused? then
      if f.event.Perfect? && Monitored(x, c, f) then
        c.(streak := c.streak + 1, healthySince := if c.healthySince.Some? then c.healthySince else Some(x.now))
      else c.(streak := 0, healthySince := None)
    else c.(streak := LeadingPerfects(f.recentEvents), healthySince := None, fusedUntil := None)
  }

  function InputOf(x: Setting, c: Channel, f: Facts): Input {
    var seen := Observed(x, c, f);
    Input(f.score, f.recentEvents, f.recentTtfb, c.health, f.confidence, f.freshness, f.warmingUp,
          f.fatalConfirmed, true, c.control, f.schedulable,
          if f.available.Some? then f.available.value else 1,
          seen.streak, seen.healthySince, seen.fusedUntil, x.now, EffectivePolicy(x.policy, f.override))
  }

  function DecisionOf(x: Setting, c: Channel, f: Facts): Decision {
    var scoped := ScopeDecision(x, f);
    if scoped.Some? then scoped.value else Decide(InputOf(x, c, f))
  }

  datatype Turn = Turn(channel: Channel, decision: Decision, fuses: nat)

  /** One channel's turn in a round in which `fuses` channels were fused before it. */
  function TakeTurn(x: Setting, c: Channel, f: Facts, fuses: nat): Turn {
    var d := DecisionOf(x, c, f);
    var seen := Observed(x, c, f);
    var newFuse := d.health.Fused? && !c.health.Fused? && !d.reason.ManualFuse?;
    if newFuse && fuses >= x.policy.breaker.maxSwitchPerRound then
      Turn(seen.(health := Degraded), d.(health := Degraded, schedule := true, reason := RoundFuseLimit), fuses)
    else if newFuse then
      Turn(seen.(health := Fused, fusedUntil := Some(x.now + x.policy.breaker.cooldown)), d, fuses + 1)
    else if !d.health.Fused? && c.health.Fused? then
      Turn(seen.(health := d.health, healthySince := None, fusedUntil := None), d, fuses)
    else Turn(seen.(health := d.health), d, fuses)
  }

  // ----- One round over many channels -----

  datatype Outcome = Outcome(facts: Facts, before: Channel, turn: Turn)

  function Stored(channels: map<nat, Channel>, id: nat): Channel {
    if id in channels then channels[id] else UNSEEN
  }

  function RoundOutcomes(x: Setting, channels: map<nat, Channel>, entries: seq<Facts>, fuses: nat): seq<Outcome>
    decreases |entries|
  {
    if entries == [] then []
    else
      var c := Stored(channels, entries[0].id);
      var t := TakeTurn(x, c, entries[0], fuses);
      [Outcome(entries[0], c, t)] + RoundOutcomes(x, channels[entries[0].id := t.channel], entries[1..], t.fuses)
  }

  function AfterRound(channels: map<nat, Channel>, outcomes: seq<Outcome>): map<nat, Channel>
    decreases |outcomes|
  {
    if outcomes == [] then channels
    else AfterRound(channels[outcomes[0].facts.id := outcomes[0].turn.channel], outcomes[1..])
  }

  class GuardianEngine {
    var channels: map<nat, Channel>

    constructor ()
      ensures channels == map[]
    {
      channels := map[];
    }

    /** Goes through the entries until the run is cancelled; what was stored stays stored. */
    method Evaluate(x: Setting, entries: seq<Facts>, cancelled: nat -> bool)
      returns (ghost outcomes: seq<Outcome>, evaluated: nat)
      modifies this
      ensures evaluated <= |entries| && (evaluated < |entries| ==> cancelled(evaluated))
      ensures forall k: nat | k < evaluated :: !cancelled(k)
      ensures outcomes == RoundOutcomes(x, old(channels), entries[..evaluated], 0)
      ensures channels == AfterRound(old(channels), outcomes)
    {
      evaluated := 0;
      outcomes := [];
      var fuses := 0;
      while evaluated < |entries| && !cancelled(evaluated)
        invariant 0 <= evaluated <= |entries|
        invariant forall k: nat | k < evaluated :: !cancelled(k)
        invariant outcomes == RoundOutcomes(x, old(channels), entries[..evaluated], 0)
        invariant fuses == FusesAfter(outcomes, 0)
        invariant channels == AfterRound(old(channels), outcomes)
      {
        var f := entries[evaluated];
        var before := Stored(channels, f.id);
        var t := TakeTurn(x, before, f, fuses);
        AppendTurn(x, old(channels), entries, evaluated, outcomes, fuses);
        outcomes := outcomes + [Outcome(f, before, t)];
        fuses := t.fuses;
        channels := channels[f.id := t.channel];
        evaluated := evaluated + 1;
      }
    }
  }

  function FusesAfter(outcomes: seq<Outcome>, fuses: nat): nat {
    if outcomes == [] then fuses else outcomes[|outcomes| - 1].turn.fuses
  }

  lemma {:induction false} AppendOutcomes(x: Setting, channels: map<nat, Channel>, entries: seq<Facts>, fuses: nat,
          f: Facts)
    ensures var outcomes := RoundOutcomes(x, channels, entries, fuses);
            var c := Stored(AfterRound(channels, outcomes), f.id);
            RoundOutcomes(x, channels, entries + [f], fuses)
            == outcomes + [Outcome(f, c, TakeTurn(x, c, f, FusesAfter(outcomes, fuses)))]
    decreases |entries|
  {
    if entries == [] {
      assert (entries + [f])[1..] == [];
    } else {
      var t := TakeTurn(x, Stored(channels, entries[0].id), entries[0], fuses);
      assert (entries + [f])[1..] == entries[1..] + [f];
      AppendOutcomes(x, channels[entries[0].id := t.channel], entries[1..], t.fuses, f);
    }
  }

  lemma {:induction false} AppendStored(channels: map<nat, Channel>, outcomes: seq<Outcome>, o: Outcome)
    ensures AfterRound(channels, outcomes + [o]) == AfterRound(channels, outcomes)[o.facts.id := o.turn.channel]
    decreases |outcomes|
  {
    if outcomes == [] {
      assert (outcomes + [o])[1..] == [];
    } else {
      assert (outcomes + [o])[1..] == outcomes[1..] + [o];
      AppendStored(channels[outcomes[0].facts.id := outcomes[0].turn.channel], outcomes[1..], o);
    }
  }

  lemma AppendTurn(x: Setting, channels: map<nat, Channel>, entries: seq<Facts>, i: nat, outcomes: seq<Outcome>,
          fuses: nat)
    requires i < |entries| && outcomes == RoundOutcomes(x, channels, entries[..i], 0)
    requires fuses == FusesAfter(outcomes, 0)
    ensures var stored := AfterRound(channels, outcomes);
            var c := Stored(stored, entries[i].id);
            var o := Outcome(entries[i], c, TakeTurn(x, c, entries[i], fuses));
            && RoundOutcomes(x, channels, entries[..i + 1], 0) == outcomes + [o]
            && AfterRound(channels, outcomes + [o]) == stored[entries[i].id := o.turn.channel]
  {
    AppendOutcomes(x, channels, entries[..i], 0, entries[i]);
    assert entries[..i + 1] == entries[..i] + [entries[i]];
    var c := Stored(AfterRound(channels, outcomes), entries[i].id);
    AppendStored(channels, outcomes, Outcome(entries[i], c, TakeTurn(x, c, entries[i], fuses)));
  }

  /** The channel was in service and is now fused, and no operator asked for it. */
  predicate IsNewFuse(o: Outcome) {
    !o.before.health.Fused? && o.turn.channel.health.Fused? && !o.before.control.ControlFused?
  }

  function NewFuses(outcomes: seq<Outcome>): nat {
    if outcomes == [] then 0 else (if IsNewFuse(outcomes[0]) then 1 else 0) + NewFuses(outcomes[1..])
  }

  lemma NewFuseCounts(x: Setting, c: Channel, f: Facts, fuses: nat)
    ensures var t := TakeTurn(x, c, f, fuses);
            t.fuses == fuses + (if IsNewFuse(Outcome(f, c, t)) then 1 else 0)
    ensures var t := TakeTurn(x, c, f, fuses);
            IsNewFuse(Outcome(f, c, t)) ==> fuses < x.policy.breaker.maxSwitchPerRound
  {
  }

  /** In one round at most `max_switch_per_round` channels are fused automatically, however
      many trip. */
  lemma {:induction false} RoundFusesAtMost(x: Setting, channels: map<nat, Channel>, entries: seq<Facts>, fuses: nat)
    requires fuses <= x.policy.breaker.maxSwitchPerRound
    ensures fuses + NewFuses(RoundOutcomes(x, channels, entries, fuses)) <= x.policy.breaker.maxSwitchPerRound
    decreases |entries|
  {
    if entries != [] {
      var c := Stored(channels, entries[0].id);
      var t := TakeTurn(x, c, entries[0], fuses);
      NewFuseCounts(x, c, entries[0], fuses);
      RoundFusesAtMost(x, channels[entries[0].id := t.channel], entries[1..], t.fuses);
    }
  }

  function MinPool(x: Setting, f: Facts): nat { EffectivePolicy(x.policy, f.override).breaker.minPoolSize }

  lemma NewFuseSparesPool(x: Setting, c: Channel, f: Facts, fuses: nat)
    requires IsNewFuse(Outcome(f, c, TakeTurn(x, c, f, fuses)))
    ensures OrElse(f.available, 1) > MinPool(x, f)
    ensures Trips(InputOf(x, c, f)) && Governed(InputOf(x, c, f))
  {
    EntersFuse(InputOf(x, c, f));
  }

  /** Every channel fused automatically in a round had a tripped breaker and more available
      accounts than its pool minimum. */
  lemma {:induction false} RoundFusesSparePools(x: Setting, channels: map<nat, Channel>, entries: seq<Facts>,
          fuses: nat, o: Outcome)
    requires o in RoundOutcomes(x, channels, entries, fuses) && IsNewFuse(o)
    ensures OrElse(o.facts.available, 1) > MinPool(x, o.facts)
    ensures Trips(InputOf(x, o.before, o.facts)) && Governed(InputOf(x, o.before, o.facts))
    decreases |entries|
  {
    var c := Stored(channels, entries[0].id);
    var t := TakeTurn(x, c, entries[0], fuses);
    if o == Outcome(entries[0], c, t) {
      NewFuseSparesPool(x, c, entries[0], fuses);
    } else {
      RoundFusesSparePools(x, channels[entries[0].id := t.channel], entries[1..], t.fuses, o);
    }
  }

  // ----- A turn of a serving channel, in terms of what was observed -----

  predicate FatalNow(x: Setting, f: Facts) {
    x.policy.breaker.hardFatal && f.fatalConfirmed && f.recentEvents != [] && f.recentEvents[0].Fatal?
  }

  /** A request that was neither answered well nor merely slowly. */
  predicate Unusable(e: EventType) { !e.Perfect? && !e.SlowTtfb? }

  predicate TooManyFailures(x: Setting, f: Facts) {
    var b := x.policy.breaker;
    var failures := set i: nat | i < b.httpWindow && i < |f.recentEvents| && Unusable(f.recentEvents[i]);
    |failures| >= b.httpFailures && f.score < b.httpScoreBelow && f.confidence >= x.policy.fuseMin
  }

  predicate TooSlow(x: Setting, f: Facts) {
    var b := x.policy.breaker;
    var slow := set i: nat | i < b.latencyWindow && i < |f.recentTtfb| && f.recentTtfb[i] > b.latencyTtfbMs;
    |slow| >= b.latencyOccurrences && f.confidence >= x.policy.degradeMin
  }

  /** The breaker's own switch, unless the channel overrides it. */
  predicate BreakerOn(x: Setting, f: Facts) {
    if f.override.Some? && f.override.value.breakerEnabled.Some? then f.override.value.breakerEnabled.value
    else x.policy.breaker.enabled
  }

  function PoolMinimum(x: Setting, f: Facts): nat {
    if f.override.Some? && f.override.value.minPoolSize.Some? then f.override.value.minPoolSize.value
    else x.policy.breaker.minPoolSize
  }

  /** The evidence may not be judged yet: the channel warms up, and its newest event is not a failure
      that counts at once. */
  predicate WarmsUp(f: Facts) {
    && f.warmingUp
    && !(&& f.recentEvents != [] && Unusable(f.recentEvents[0])
         && (f.recentEvents[0].Fatal? ==> f.fatalConfirmed))
  }

  predicate BreakerTrips(x: Setting, f: Facts) {
    && BreakerOn(x, f)
    && (FatalNow(x, f) || TooManyFailures(x, f) || (TooSlow(x, f) && !x.policy.breaker.latencyDegradeOnly))
  }

  lemma TripsSeen(x: Setting, c: Channel, f: Facts)
    ensures Trips(InputOf(x, c, f)) <==> BreakerTrips(x, f)
    ensures SlowWindow(InputOf(x, c, f)) <==> BreakerOn(x, f) && TooSlow(x, f)
  {
    var b := x.policy.breaker;
    TripsMean(InputOf(x, c, f));
    assert (set i: nat | i < b.httpWindow && i < |f.recentEvents| && IsFailure(f.recentEvents[i]))
        == set i: nat | i < b.httpWindow && i < |f.recentEvents| && Unusable(f.recentEvents[i]);
  }

  /** The label a round gives to a serving channel in scope and without control.  A tripped breaker
      fuses it if accounts are to spare and the round has not fused too many; at the pool minimum it
      is kept, past the limit it is degraded. */
  lemma ServingTurn(x: Setting, c: Channel, f: Facts, fuses: nat)
    requires !c.health.Fused? && c.control.NoControl? && ScopeDecision(x, f).None?
    ensures TakeTurn(x, c, f, fuses).channel.health ==
              if !f.schedulable then UpstreamDisabled
              else if WarmsUp(f) then WarmingUp
              else if !f.freshness.EvidenceFresh? then Stale
              else if BreakerTrips(x, f) then
                if OrElse(f.available, 1) <= PoolMinimum(x, f) then ForcedKeep
                else if fuses < x.policy.breaker.maxSwitchPerRound then Fused else Degraded
              else if BreakerOn(x, f) && TooSlow(x, f) then Degraded
              else if f.confidence < x.policy.degradeMin then c.health
              else if x.policy.degradeEnabled && f.score < x.policy.degradeBelow then Degraded
              else Healthy
  {
    hide BreakerTrips, Trips, FatalTrips, ErrorsTrip, LatencyTrips, TooSlow;
    var v := InputOf(x, c, f);
    TripsSeen(x, c, f);
    EntersFuse(v);
    if Governed(v) && !Trips(v) { ServingDecides(v); }
    UnjudgedDecides(v);
  }

  /** Channels out of scope, and those an operator controls, carry the label that says so. */
  lemma ControlledTurn(x: Setting, c: Channel, f: Facts, fuses: nat)
    ensures var health := TakeTurn(x, c, f, fuses).channel.health;
            var out := f.group in x.scope.excludedGroups || f.id in x.scope.excludedChannels
                       || (x.scope.selectedOnly && f.group !in x.scope.managedGroups)
                       || (f.override.Some? && f.override.value.enabled == Some(false));
            && (ScopeDecision(x, f).None? <==> !out && f.id !in x.scope.pausedChannels)
            && (out ==> health.Excluded?)
            && (!out && f.id in x.scope.pausedChannels ==> health.ManuallyPaused?)
            && (ScopeDecision(x, f).Some? ==> TakeTurn(x, c, f, fuses).decision.reason.ScopeRule?)
            && (ScopeDecision(x, f).None? && c.control.ControlExcluded? ==> health.Excluded?)
            && (ScopeDecision(x, f).None? && c.control.ControlPaused? ==> health.ManuallyPaused?)
            && (ScopeDecision(x, f).None? && c.control.ControlFused? ==> health.Fused?)
            && TakeTurn(x, c, f, fuses).channel.control == c.control
  {
  }

  /** Whether the round leaves the channel to the upstream's own schedule, takes it out or keeps it in:
      one out of scope is left alone, a paused one is taken out and probed, any other is in traffic
      exactly if it is schedulable, without control and not fused by then. */
  lemma ScheduledTurn(x: Setting, c: Channel, f: Facts, fuses: nat)
    ensures var t := TakeTurn(x, c, f, fuses);
            var scoped := ScopeDecision(x, f);
            && (scoped.Some? && t.channel.health.Excluded? ==>
                  t.decision.schedule == f.schedulable && !t.decision.probe)
            && (scoped.Some? && t.channel.health.ManuallyPaused? ==> !t.decision.schedule && t.decision.probe)
            && (scoped.Some? ==> !t.decision.canRecover)
            && (scoped.None? ==> (t.decision.schedule
                                  <==> c.control.NoControl? && f.schedulable && !t.channel.health.Fused?))
  {
    FlagsMean(InputOf(x, c, f));
  }

  // ----- What a turn stores besides the label -----

  /** So many of the newest events are perfect, and the next is not. */
  predicate Leads(events: seq<EventType>, n: nat) {
    && n <= |events| && (forall i | 0 <= i < n :: events[i].Perfect?)
    && (n < |events| ==> !events[n].Perfect?)
  }

  lemma {:induction false} LeadingMeans(events: seq<EventType>)
    ensures Leads(events, LeadingPerfects(events))
  {
    if events != [] && events[0].Perfect? {
      LeadingMeans(events[1..]);
      var n := LeadingPerfects(events[1..]);
      forall i | 0 <= i < n + 1 ensures events[i].Perfect? {
        if i > 0 { assert events[i] == events[1..][i - 1]; }
      }
    }
  }

  /** The round observes the channel: it is neither excluded by an operator nor out of scope. */
  predicate Observes(x: Setting, c: Channel, f: Facts) {
    && !c.control.ControlExcluded?
    && f.group !in x.scope.excludedGroups && f.id !in x.scope.excludedChannels
    && (x.scope.selectedOnly ==> f.group in x.scope.managedGroups)
    && !(f.override.Some? && f.override.value.enabled == Some(false))
  }

  /** The streak of a fused channel grows with a perfect event of a round that observes it and ends with
      any other; that of a serving channel counts its newest perfect events. */
  lemma StreakTurn(x: Setting, c: Channel, f: Facts, fuses: nat)
    ensures var after := TakeTurn(x, c, f, fuses).channel;
            && (c.health.Fused? ==>
                  after.streak == if f.event.Perfect? && Observes(x, c, f) then c.streak + 1 else 0)
            && (!c.health.Fused? ==> Leads(f.recentEvents, after.streak))
  {
    LeadingMeans(f.recentEvents);
  }

  /** The round fuses the channel on its own. */
  predicate FusesNow(c: Channel, t: Turn) {
    !c.health.Fused? && t.channel.health.Fused? && !t.decision.reason.ManualFuse?
  }

  /** A fuse of the round ends after the cooldown; a channel that stays fused keeps its end, and the start
      of its streak while the streak lasts; every other channel has neither.  Only fuses of the round
      count against its limit. */
  lemma TimesTurn(x: Setting, c: Channel, f: Facts, fuses: nat)
    ensures var t := TakeTurn(x, c, f, fuses);
            var stays, goesOn := c.health.Fused? && t.channel.health.Fused?, f.event.Perfect? && Observes(x, c, f);
            && t.channel.fusedUntil == (if FusesNow(c, t) then Some(x.now + x.policy.breaker.cooldown)
                                        else if stays then c.fusedUntil else None)
            && t.channel.healthySince
               == (if stays && goesOn then if c.healthySince.None? then Some(x.now) else c.healthySince else None)
            && t.fuses == fuses + (if FusesNow(c, t) then 1 else 0)
  {
  }

  /** The decision that is reported carries the label that is stored; past the limit of the round it
      says so, and the channel stays in traffic. */
  lemma ReportedTurn(x: Setting, c: Channel, f: Facts, fuses: nat)
    ensures var t := TakeTurn(x, c, f, fuses);
            && t.decision.health == t.channel.health
            && (t.decision.reason.RoundFuseLimit? <==>
                  && ScopeDecision(x, f).None? && c.control.NoControl? && !c.health.Fused?
                  && f.schedulable && !WarmsUp(f) && f.freshness.EvidenceFresh? && BreakerTrips(x, f)
                  && OrElse(f.available, 1) > PoolMinimum(x, f) && fuses >= x.policy.breaker.maxSwitchPerRound)
            && (t.decision.reason.RoundFuseLimit? ==> t.decision.schedule && t.channel.health.Degraded?)
  {
    hide BreakerTrips, Trips, TooSlow;
    if ScopeDecision(x, f).None? && c.control.NoControl? && !c.health.Fused? {
      TripsSeen(x, c, f);
      EntersFuse(InputOf(x, c, f));
    }
  }
}
