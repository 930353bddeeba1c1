/** The whole life of one channel: rounds and operator controls, in any order and number. */
module ChannelHistory {
  import opened Common
  import opened ChannelDecision
  import opened ChannelEngine

  /** A round in which `fuses` channels were fused before this one, or an operator's control. */
  datatype Happening = Round(setting: Setting, facts: Facts, fuses: nat) | SetControl(control: Control)

  function Controlled(c: Channel, control: Control): Channel {
    c.(control := control,
       health := match control
                 case NoControl => Pending
                 case ControlPaused => ManuallyPaused
                 case ControlExcluded => Excluded
                 case ControlFused => Fused)
  }

  function Next(c: Channel, e: Happening): Channel {
    match e
    case Round(x, f, fuses) => TakeTurn(x, c, f, fuses).channel
    case SetControl(control) => Controlled(c, control)
  }

  ghost predicate IsStep(states: seq<Channel>, history: seq<Happening>, n: nat)
    requires n < |history| && |states| == |history| + 1
  {
    states[n + 1] == Next(states[n], history[n])
  }

  /** `states[n]` is what is stored after the first `n` happenings. */
  ghost predicate IsLife(states: seq<Channel>, history: seq<Happening>) {
    && |states| == |history| + 1 && states[0] == UNSEEN
    && forall n: nat | n < |history| :: IsStep(states, history, n)
  }

  /** Fused, and not because an operator said so. */
  predicate FusedBySelf(c: Channel) { c.health.Fused? && c.control.NoControl? }

  /** Step `k` was a round that fused the channel, and it has stayed so up to `states[n]`. */
  ghost predicate FusedSince(states: seq<Channel>, history: seq<Happening>, k: nat, n: nat)
    requires n <= |history| && |states| == |history| + 1
  {
    && k < n && history[k].Round? && !states[k].health.Fused?
    && (forall m: nat | k < m <= n :: FusedBySelf(states[m]))
    && (forall m: nat | k < m < n :: history[m].Round?)
  }

  function FuseEnds(e: Happening): int
    requires e.Round?
  {
    e.setting.now + e.setting.policy.breaker.cooldown
  }

  lemma FusedStep(c: Channel, e: Happening)
    requires FusedBySelf(Next(c, e))
    ensures e.Round?
    ensures FusedBySelf(c) ==> Next(c, e).fusedUntil == c.fusedUntil
    ensures !FusedBySelf(c) ==> !c.health.Fused? && Next(c, e).fusedUntil == Some(FuseEnds(e))
  {
  }

  /** A channel that is fused without an operator's control was fused by some round; since then it
      has stayed fused, and its release time is that round's clock plus that round's cooldown. */
  lemma {:induction false} FuseHasOrigin(states: seq<Channel>, history: seq<Happening>, n: nat) returns (k: nat)
    requires IsLife(states, history) && n <= |history| && FusedBySelf(states[n])
    ensures k < n && FusedSince(states, history, k, n)
    ensures states[n].fusedUntil == Some(FuseEnds(history[k]))
    decreases n
  {
    assert IsStep(states, history, n - 1);
    FusedStep(states[n - 1], history[n - 1]);
    if FusedBySelf(states[n - 1]) {
      k := FuseHasOrigin(states, history, n - 1);
    } else {
      k := n - 1;
    }
  }

  predicate PerfectRound(c: Channel, e: Happening) {
    e.Round? && e.facts.event.Perfect? && Monitored(e.setting, c, e.facts)
  }

  /** Rounds `j` to `n`, without `n`, all saw a perfect event on the monitored channel. */
  ghost predicate PerfectSince(states: seq<Channel>, history: seq<Happening>, j: nat, n: nat)
    requires n <= |history| && |states| == |history| + 1
  {
    forall m: nat | j <= m < n :: PerfectRound(states[m], history[m])
  }

  /** The perfect events that stood at the head of the recent events when the fuse came. */
  function CarriedOver(e: Happening): nat
    requires e.Round?
  {
    LeadingPerfects(e.facts.recentEvents)
  }

  /** After the fuse in round `k`, round `j` started the unbroken run of perfect rounds up to `n`. */
  ghost predicate IsRun(states: seq<Channel>, history: seq<Happening>, k: nat, j: nat, n: nat)
    requires n <= |history| && |states| == |history| + 1
  {
    && k < j <= n && PerfectSince(states, history, j, n)
    && (j == k + 1 || !PerfectRound(states[j - 1], history[j - 1]))
  }

  lemma FuseStarts(c: Channel, e: Happening)
    requires e.Round? && FusedBySelf(Next(c, e)) && !c.health.Fused?
    ensures Next(c, e).streak == CarriedOver(e) && Next(c, e).healthySince == None
  {
  }

  lemma FuseContinues(c: Channel, e: Happening)
    requires e.Round? && FusedBySelf(Next(c, e)) && FusedBySelf(c)
    ensures PerfectRound(c, e) ==>
            && Next(c, e).streak == c.streak + 1
            && Next(c, e).healthySince == Some(if c.healthySince.Some? then c.healthySince.value else e.setting.now)
    ensures !PerfectRound(c, e) ==> Next(c, e).streak == 0 && Next(c, e).healthySince == None
  {
  }

  /** In every reachable fused state the streak and its start are exactly those of the unbroken
      run of perfect rounds; a run that reaches back to the fuse itself also counts the perfect
      events that came before the fuse. */
  lemma {:induction false} StreakIsRun(states: seq<Channel>, history: seq<Happening>, k: nat, n: nat) returns (j: nat)
    requires IsLife(states, history) && n <= |history| && FusedSince(states, history, k, n)
    ensures IsRun(states, history, k, j, n)
    ensures states[n].streak == n - j + (if j == k + 1 then CarriedOver(history[k]) else 0)
    ensures j < n ==> history[j].Round?
    ensures states[n].healthySince == if j < n then Some(history[j].setting.now) else None
    decreases n
  {
    assert IsStep(states, history, n - 1);
    if n == k + 1 {
      FuseStarts(states[k], history[k]);
      j := n;
    } else {
      FuseContinues(states[n - 1], history[n - 1]);
      j := StreakIsRun(states, history, k, n - 1);
      if !PerfectRound(states[n - 1], history[n - 1]) {
        j := n;
      }
    }
  }

  /** All that a recovery in round `n` asks for, but for the number of perfect events: the cooldown
      of the fuse of round `k` is over, the run from round `j` spans the hold time, recovery is
      enabled, score and confidence suffice, and no slow newest event degrades the channel instead. */
  predicate Ready(history: seq<Happening>, k: nat, j: nat, n: nat)
    requires k < j <= n < |history| && history[k].Round? && history[j].Round? && history[n].Round?
  {
    var x, f := history[n].setting, history[n].facts;
    var r := EffectivePolicy(x.policy, f.override).recovery;
    && x.now >= FuseEnds(history[k]) && x.now - history[j].setting.now >= r.hold
    && r.enabled && f.score >= r.targetScore && f.confidence >= x.policy.recoverMin
    && !(LatestIs(f.recentEvents, SlowTtfb) && OrElse(f.available, 1) > MinPool(x, f))
  }

  function SuccessCount(e: Happening): nat
    requires e.Round?
  {
    EffectivePolicy(e.setting.policy, e.facts.override).recovery.successCount
  }

  predicate Judged(c: Channel, e: Happening) {
    e.Round? && ScopeDecision(e.setting, e.facts).None? && Governed(InputOf(e.setting, c, e.facts))
  }

  lemma RecoversIf(c: Channel, e: Happening)
    requires e.Round? && FusedBySelf(c)
    ensures var x, f := e.setting, e.facts;
            var r := EffectivePolicy(x.policy, f.override).recovery;
            Next(c, e).health.Healthy? <==>
              && Judged(c, e) && PerfectRound(c, e)
              && (c.fusedUntil.Some? ==> x.now >= c.fusedUntil.value)
              && x.now - (if c.healthySince.Some? then c.healthySince.value else x.now) >= r.hold
              && r.enabled && f.score >= r.targetScore && f.confidence >= x.policy.recoverMin
              && !(LatestIs(f.recentEvents, SlowTtfb) && OrElse(f.available, 1) > MinPool(x, f))
              && c.streak + 1 >= r.successCount
  {
    LeavesFuse(InputOf(e.setting, c, e.facts));
  }

  /** A fused channel becomes healthy in round `n` exactly when the round may judge it, is perfect,
      and is ready, and the unbroken run of perfect rounds, this one included, has the required
      number; a run that reaches back to the fuse itself also counts the perfect events that came
      before the fuse. */
  lemma RecoveryIsEarned(states: seq<Channel>, history: seq<Happening>, n: nat) returns (k: nat, j: nat)
    requires IsLife(states, history) && n < |history| && FusedBySelf(states[n]) && history[n].Round?
    ensures k < j <= n && FusedSince(states, history, k, n) && IsRun(states, history, k, j, n) && history[j].Round?
    ensures var carried := if j == k + 1 then CarriedOver(history[k]) else 0;
            states[n + 1].health.Healthy? <==>
              && Judged(states[n], history[n]) && PerfectRound(states[n], history[n])
              && Ready(history, k, j, n)
              && n + 1 - j + carried >= SuccessCount(history[n])
  {
    k := FuseHasOrigin(states, history, n);
    j := StreakIsRun(states, history, k, n);
    assert IsStep(states, history, n);
    RecoversIf(states[n], history[n]);
  }

  /** Fewer perfect rounds than asked for are enough exactly when the run reaches back to the fuse
      and the perfect events from before the fuse make up for the rest. */
  lemma EarlyRecovery(states: seq<Channel>, history: seq<Happening>, n: nat) returns (k: nat, j: nat)
    requires IsLife(states, history) && n < |history| && FusedBySelf(states[n]) && history[n].Round?
    ensures k < j <= n && FusedSince(states, history, k, n) && IsRun(states, history, k, j, n) && history[j].Round?
    ensures var rounds, count := n + 1 - j, SuccessCount(history[n]);
            states[n + 1].health.Healthy? && rounds < count <==>
              && Judged(states[n], history[n]) && PerfectRound(states[n], history[n])
              && Ready(history, k, j, n)
              && j == k + 1 && rounds < count <= rounds + CarriedOver(history[k])
  {
    k, j := RecoveryIsEarned(states, history, n);
  }

  lemma DegradesIf(c: Channel, e: Happening)
    requires e.Round? && FusedBySelf(c)
    ensures var x, f := e.setting, e.facts;
            Next(c, e).health.Degraded? <==>
              && Judged(c, e) && (c.fusedUntil.Some? ==> x.now >= c.fusedUntil.value)
              && LatestIs(f.recentEvents, SlowTtfb) && OrElse(f.available, 1) > MinPool(x, f)
  {
    LeavesFuse(InputOf(e.setting, c, e.facts));
  }

  /** A fused channel is degraded exactly by a round that may judge it, after its cooldown, on a
      slow newest event, with more available accounts than the pool minimum. */
  lemma DegradeIsSlow(states: seq<Channel>, history: seq<Happening>, n: nat) returns (k: nat)
    requires IsLife(states, history) && n < |history| && FusedBySelf(states[n]) && history[n].Round?
    ensures k < n && FusedSince(states, history, k, n)
    ensures var x, f := history[n].setting, history[n].facts;
            states[n + 1].health.Degraded? <==>
              && Judged(states[n], history[n]) && x.now >= FuseEnds(history[k])
              && LatestIs(f.recentEvents, SlowTtfb) && OrElse(f.available, 1) > MinPool(x, f)
  {
    k := FuseHasOrigin(states, history, n);
    assert IsStep(states, history, n);
    DegradesIf(states[n], history[n]);
  }

  lemma JudgedStep(c: Channel, e: Happening)
    requires FusedBySelf(c) && Judged(c, e)
    ensures var after := Next(c, e).health;
            && (after.Fused? || after.Healthy? || after.Degraded?)
            && (c.fusedUntil.Some? && e.setting.now < c.fusedUntil.value ==> after.Fused?)
  {
    LeavesFuse(InputOf(e.setting, c, e.facts));
  }

  /** Under automatic control, with evidence that may be judged, no round lets a channel go before
      its cooldown is over, and none lets it go to any other state. */
  lemma JudgedFuseHolds(states: seq<Channel>, history: seq<Happening>, n: nat) returns (k: nat)
    requires IsLife(states, history) && n < |history| && FusedBySelf(states[n]) && Judged(states[n], history[n])
    ensures k < n && FusedSince(states, history, k, n)
    ensures var after := states[n + 1].health;
            && (after.Fused? || after.Healthy? || after.Degraded?)
            && (history[n].setting.now < FuseEnds(history[k]) ==> after.Fused?)
  {
    k := FuseHasOrigin(states, history, n);
    assert IsStep(states, history, n);
    JudgedStep(states[n], history[n]);
  }

  // ----- Rounds over many channels are steps of each channel's life -----

  function Lived(c: Channel, happenings: seq<Happening>): Channel
    decreases |happenings|
  {
    if happenings == [] then c else Lived(Next(c, happenings[0]), happenings[1..])
  }

  /** What a round does to one channel is what the channel's own entries do to it, each a round
      of this setting; a channel without an entry keeps what is stored. */
  lemma {:induction false} RoundIsLived(x: Setting, channels: map<nat, Channel>, entries: seq<Facts>, fuses: nat,
          id: nat)
    returns (own: seq<Happening>)
    ensures Stored(AfterRound(channels, RoundOutcomes(x, channels, entries, fuses)), id)
            == Lived(Stored(channels, id), own)
    ensures forall e | e in own :: e.Round? && e.setting == x && e.facts in entries && e.facts.id == id
    ensures (forall f | f in entries :: f.id != id) ==> own == []
    decreases |entries|
  {
    if entries == [] {
      own := [];
    } else {
      var f := entries[0];
      var t := TakeTurn(x, Stored(channels, f.id), f, fuses);
      var rest := RoundIsLived(x, channels[f.id := t.channel], entries[1..], t.fuses, id);
      own := if f.id == id then [Round(x, f, fuses)] + rest else rest;
    }
  }

  // ----- What the streak does not promise -----

  const DEMO_POLICY := Policy(
    Breaker(true, 5, 3, 60.0, 10, 5, 15000, true, true, 1, 0, 0), true, 75.0,
    Recovery(true, 75.0, 3, 0), 0.6, 0.85, 0.85)

  const ANYWHERE := Scope({}, {}, false, {}, {})

  function Seen(event: EventType, recent: seq<EventType>, score: real): Facts {
    Facts(1, None, true, Some(5), event, recent, [], score, 1.0, EvidenceFresh, false, false, None)
  }

  /** Two perfect events and three failures fuse the channel; one perfect round later the streak
      is three, and the channel is released although three perfect rounds were asked for. */
  lemma OneRoundMayRecover() returns (states: seq<Channel>, history: seq<Happening>)
    ensures |history| == 2 && IsLife(states, history) && FusedSince(states, history, 0, 1)
    ensures states[2].health.Healthy? && history[1].Round?
    ensures SuccessCount(history[1]) == 3
  {
    var failing := [Perfect, Perfect, ProbeFail, ProbeFail, ProbeFail];
    var first := Round(Setting(0, DEMO_POLICY, ANYWHERE), Seen(Perfect, failing, 50.0), 0);
    var second := Round(Setting(60, DEMO_POLICY, ANYWHERE), Seen(Perfect, [Perfect] + failing, 80.0), 0);
    history := [first, second];
    states := [UNSEEN, Next(UNSEEN, first), Next(Next(UNSEEN, first), second)];
    FiveEvents(failing);
    assert LeadingPerfects(failing) == 2 by {
      assert failing[1..][1..] == [ProbeFail, ProbeFail, ProbeFail];
    }
    assert states[1] == Channel(Fused, NoControl, 2, None, Some(0));
  }

  lemma FiveEvents(events: seq<EventType>)
    requires |events| == 5 && IsFailure(events[2]) && IsFailure(events[3]) && IsFailure(events[4])
    ensures FailureCount(Newest(events, 5)) >= 3
  {
    assert Newest(events, 5) == events;
    assert FailureCount(events[4..]) == 1;
    assert events[3..][1..] == events[4..] && events[2..][1..] == events[3..];
    assert FailureCount(events[2..]) == 3;
    assert events[1..][1..] == events[2..];
    assert FailureCount(events) >= FailureCount(events[1..]) >= FailureCount(events[2..]);
  }
}
