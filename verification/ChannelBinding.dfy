/** Binding monitored channels to account groups by usage records, and counting accounts by group. */
module ChannelBinding {
  import opened Common

  /** `checkedAt` is absent when it cannot be read; times are microseconds. */
  datatype Channel = Channel(monitor: nat, latency: Option<int>, model: Option<nat>, checkedAt: Option<int>)

  /** `probe` says that the record's user agent is the monitor's own client. */
  datatype Record = Record(model: nat, probe: bool, createdAt: Option<int>, group: Option<nat>, duration: Option<int>)

  function Millis(micros: int): int { if micros >= 0 then micros / 1000 else -((-micros) / 1000) }

  function Abs(x: int): nat { if x < 0 then -x else x }

  function Max(a: int, b: int): int { if a < b then b else a }

  predicate IsProbed(c: Channel) {
    c.latency.Some? && c.latency.value >= 0 && c.model.Some? && c.checkedAt.Some?
  }

  function Gap(c: Channel, r: Record): nat
    requires IsProbed(c) && r.duration.Some?
  {
    Abs(r.duration.value - c.latency.value)
  }

  predicate Matches(c: Channel, r: Record)
    requires IsProbed(c)
  {
    && r.model == c.model.value && r.probe && r.createdAt.Some?
    && r.group.Some? && r.group.value > 0 && r.duration.Some?
    && 0 <= Millis(r.createdAt.value - c.checkedAt.value) <= 2000
    && Gap(c, r) <= Max(1000, c.latency.value / 4)
  }

  predicate MatchesGroup(c: Channel, r: Record, g: nat)
    requires IsProbed(c)
  {
    Matches(c, r) && r.group.value == g
  }

  /** `gap` is the smallest gap of the group's matching records. */
  ghost predicate IsBest(c: Channel, records: seq<Record>, g: nat, gap: nat)
    requires IsProbed(c)
  {
    && (exists r :: r in records && MatchesGroup(c, r, g) && Gap(c, r) == gap)
    && (forall r | r in records && MatchesGroup(c, r, g) :: Gap(c, r) >= gap)
  }

  /** Every other matching group is more than 100 ms behind `gap`, the best of group `g`. */
  ghost predicate Beats(c: Channel, records: seq<Record>, g: nat, gap: nat)
    requires IsProbed(c)
  {
    && IsBest(c, records, g, gap)
    && (forall r | r in records && Matches(c, r) && r.group.value != g :: Gap(c, r) > gap + 100)
  }

  ghost predicate Wins(c: Channel, records: seq<Record>, g: nat)
    requires IsProbed(c)
  {
    exists gap: nat :: Beats(c, records, g, gap)
  }

  ghost predicate IsBestMap(c: Channel, records: seq<Record>, best: map<nat, nat>)
    requires IsProbed(c)
  {
    && (forall g | g in best :: IsBest(c, records, g, best[g]))
    && (forall r | r in records && Matches(c, r) :: r.group.value in best)
  }

  lemma BestGrows(c: Channel, records: seq<Record>, r: Record, best: map<nat, nat>)
    requires IsProbed(c) && IsBestMap(c, records, best)
    ensures !Matches(c, r) ==> IsBestMap(c, records + [r], best)
    ensures Matches(c, r) && r.group.value in best && best[r.group.value] <= Gap(c, r)
        ==> IsBestMap(c, records + [r], best)
    ensures Matches(c, r) && (r.group.value !in best || Gap(c, r) < best[r.group.value]) ==>
              IsBestMap(c, records + [r], best[r.group.value := Gap(c, r)])
  {
    forall g, gap | IsBest(c, records, g, gap) && !MatchesGroup(c, r, g) ensures IsBest(c, records + [r], g, gap) {
      StillBest(c, records, r, g, gap);
    }
    if Matches(c, r) {
      var g := r.group.value;
      if g in best && best[g] <= Gap(c, r) {
        StillBest(c, records, r, g, best[g]);
      } else {
        NewBest(c, records, r, g);
      }
    }
  }

  lemma StillBest(c: Channel, records: seq<Record>, r: Record, g: nat, gap: nat)
    requires IsProbed(c) && IsBest(c, records, g, gap) && (MatchesGroup(c, r, g) ==> gap <= Gap(c, r))
    ensures IsBest(c, records + [r], g, gap)
  {
    var x :| x in records && MatchesGroup(c, x, g) && Gap(c, x) == gap;
    assert x in records + [r];
  }

  lemma NewBest(c: Channel, records: seq<Record>, r: Record, g: nat)
    requires IsProbed(c) && MatchesGroup(c, r, g)
    requires forall x | x in records && MatchesGroup(c, x, g) :: Gap(c, r) <= Gap(c, x)
    ensures IsBest(c, records + [r], g, Gap(c, r))
  {
    assert r in records + [r];
  }

  // ----- Ranking -----

  predicate RankedBefore(best: map<nat, nat>, g: nat, h: nat)
    requires g in best && h in best
  {
    best[g] < best[h] || (best[g] == best[h] && g < h)
  }

  predicate IsFirst(best: map<nat, nat>, among: set<nat>, g: nat)
    requires among <= best.Keys
  {
    g in among && forall h | h in among && h != g :: RankedBefore(best, g, h)
  }

  lemma {:induction false} FirstExists(best: map<nat, nat>, among: set<nat>) returns (g: nat)
    requires among != {} && among <= best.Keys
    ensures IsFirst(best, among, g)
    decreases |among|
  {
    var x :| x in among;
    var rest := among - {x};
    assert among == rest + {x};
    if rest == {} {
      g := x;
    } else {
      var y := FirstExists(best, rest);
      g := if RankedBefore(best, x, y) then x else y;
      forall h | h in among && h != g ensures RankedBefore(best, g, h) {
        assert h == x || h in rest;
      }
    }
  }

  method First(best: map<nat, nat>, among: set<nat>) returns (g: nat)
    requires among != {} && among <= best.Keys
    ensures IsFirst(best, among, g)
  {
    ghost var _ := FirstExists(best, among);
    g :| g in among && IsFirst(best, among, g);
  }

  lemma RaceOrder(best: map<nat, nat>, first: nat, second: nat)
    requires IsFirst(best, best.Keys, first) && IsFirst(best, best.Keys - {first}, second)
    ensures second != first && best[first] <= best[second]
    ensures forall h | h in best && h != first :: best[second] <= best[h]
  {
    assert RankedBefore(best, first, second);
    forall h | h in best && h != first ensures best[second] <= best[h] {
      assert h != second ==> RankedBefore(best, second, h);
    }
  }

  method SmallestGaps(c: Channel, records: seq<Record>) returns (best: map<nat, nat>)
    requires IsProbed(c)
    ensures IsBestMap(c, records, best)
  {
    best := map[];
    for i := 0 to |records|
      invariant IsBestMap(c, records[..i], best)
    {
      var r := records[i];
      BestGrows(c, records[..i], r, best);
      assert records[..i + 1] == records[..i] + [r];
      if Matches(c, r) {
        var g, gap := r.group.value, Gap(c, r);
        if g !in best || gap < best[g] {
          best := best[g := gap];
        }
      }
    }
    assert records[..|records|] == records;
  }

  /** A channel is bound to a group exactly when that group's smallest gap beats every other
      matching group by more than 100 ms, or no other group matches. */
  method ResolveChannel(c: Channel, records: seq<Record>) returns (bound: Option<nat>)
    ensures bound.Some? ==> IsProbed(c) && Wins(c, records, bound.value)
    ensures bound.None? && IsProbed(c) ==> forall g :: !Wins(c, records, g)
  {
    if !IsProbed(c) {
      return None;
    }
    var best := SmallestGaps(c, records);
    if best.Keys == {} {
      forall g ensures !Wins(c, records, g) { NoMatchNoWin(c, records, best, g); }
      return None;
    }
    var first := First(best, best.Keys);
    var others := best.Keys - {first};
    assert forall h | h in best && h != first :: h in others;
    if others != {} {
      var second := First(best, others);
      RaceOrder(best, first, second);
      if best[second] <= best[first] + 100 {
        forall g ensures !Wins(c, records, g) { CloseRaceNoWin(c, records, best, first, second, g); }
        return None;
      }
    }
    ClearRaceWins(c, records, best, first);
    bound := Some(first);
  }

  /** The binding of one channel as a value: the winner, if there is one. */
  ghost function Bound(c: Channel, records: seq<Record>): Option<nat> {
    if IsProbed(c) && exists g :: Wins(c, records, g) then var g :| Wins(c, records, g); Some(g) else None
  }

  ghost function Bindings(channels: seq<Channel>, records: seq<Record>): map<nat, nat> {
    if channels == [] then map[]
    else
      var before, c := Bindings(channels[..|channels| - 1], records), channels[|channels| - 1];
      if Bound(c, records).Some? then before[c.monitor := Bound(c, records).value] else before
  }

  method ResolveChannelGroupIds(channels: seq<Channel>, records: seq<Record>) returns (bindings: map<nat, nat>)
    ensures bindings == Bindings(channels, records)
  {
    bindings := map[];
    for i := 0 to |channels|
      invariant bindings == Bindings(channels[..i], records)
    {
      assert channels[..i + 1][..i] == channels[..i];
      var bound := ResolveChannel(channels[i], records);
      if bound.Some? {
        BoundIsWinner(channels[i], records, bound.value);
        bindings := bindings[channels[i].monitor := bound.value];
      }
    }
    assert channels[..|channels|] == channels;
  }

  lemma BoundIsWinner(c: Channel, records: seq<Record>, g: nat)
    requires IsProbed(c) && Wins(c, records, g)
    ensures Bound(c, records) == Some(g)
  {
    var h := Bound(c, records).value;
    assert Wins(c, records, h);
    WinnerIsUnique(c, records, g, h);
  }

  lemma NoMatchNoWin(c: Channel, records: seq<Record>, best: map<nat, nat>, g: nat)
    requires IsProbed(c) && IsBestMap(c, records, best) && best.Keys == {}
    ensures !Wins(c, records, g)
  {
    assert forall r | r in records :: !Matches(c, r);
  }

  lemma BestIsOne(c: Channel, records: seq<Record>, g: nat, a: nat, b: nat)
    requires IsProbed(c) && IsBest(c, records, g, a) && IsBest(c, records, g, b)
    ensures a == b
  {
  }

  lemma RivalTooClose(c: Channel, records: seq<Record>, g: nat, gap: nat, rival: nat, behind: nat)
    requires IsProbed(c) && IsBest(c, records, rival, behind) && rival != g && behind <= gap + 100
    ensures !Beats(c, records, g, gap)
  {
    var r :| r in records && MatchesGroup(c, r, rival) && Gap(c, r) == behind;
  }

  lemma CloseRaceNoWin(c: Channel, records: seq<Record>, best: map<nat, nat>, first: nat, second: nat, g: nat)
    requires IsProbed(c) && IsBestMap(c, records, best) && IsFirst(best, best.Keys, first)
    requires second in best && second != first && best[second] <= best[first] + 100
    ensures !Wins(c, records, g)
  {
    forall gap: nat ensures !Beats(c, records, g, gap) {
      if IsBest(c, records, g, gap) {
        var mine :| mine in records && MatchesGroup(c, mine, g) && Gap(c, mine) == gap;
        assert g in best && IsBest(c, records, g, best[g]);
        BestIsOne(c, records, g, gap, best[g]);
        var rival := if g == first then second else first;
        assert IsBest(c, records, rival, best[rival]);
        RivalTooClose(c, records, g, gap, rival, best[rival]);
      }
    }
  }

  lemma ClearRaceWins(c: Channel, records: seq<Record>, best: map<nat, nat>, first: nat)
    requires IsProbed(c) && IsBestMap(c, records, best) && first in best
    requires forall h | h in best && h != first :: best[h] > best[first] + 100
    ensures Wins(c, records, first)
  {
    assert IsBest(c, records, first, best[first]);
    forall r | r in records && Matches(c, r) && r.group.value != first ensures Gap(c, r) > best[first] + 100 {
      assert IsBest(c, records, r.group.value, best[r.group.value]);
      assert MatchesGroup(c, r, r.group.value);
    }
    assert Beats(c, records, first, best[first]);
  }

  lemma BothBeat(c: Channel, records: seq<Record>, g: nat, a: nat, h: nat, b: nat)
    requires IsProbed(c) && Beats(c, records, g, a) && Beats(c, records, h, b)
    ensures g == h
  {
    var r :| r in records && MatchesGroup(c, r, g) && Gap(c, r) == a;
    var s :| s in records && MatchesGroup(c, s, h) && Gap(c, s) == b;
  }

  /** At most one group wins. */
  lemma WinnerIsUnique(c: Channel, records: seq<Record>, g: nat, h: nat)
    requires IsProbed(c) && Wins(c, records, g) && Wins(c, records, h)
    ensures g == h
  {
    var a: nat :| Beats(c, records, g, a);
    var b: nat :| Beats(c, records, h, b);
    BothBeat(c, records, g, a, h, b);
  }

  /** Which group wins depends only on which records there are, not on their order or number. */
  lemma OrderDoesNotMatter(c: Channel, records: seq<Record>, shuffled: seq<Record>, g: nat)
    requires IsProbed(c) && (forall r :: r in records <==> r in shuffled)
    ensures Wins(c, records, g) <==> Wins(c, shuffled, g)
  {
    forall gap: nat ensures Beats(c, records, g, gap) <==> Beats(c, shuffled, g, gap) { }
  }

  // ----- Account counts by group -----

  datatype Bucket = Available | Temporary | Errored | Closed

  /** A snapshot account with its groups as listed. */
  datatype Account = Account(groups: seq<nat>, bucket: Bucket)

  datatype Counts = Counts(total: nat, available: nat, temporary: nat, errored: nat)

  function Listed(groups: seq<nat>, g: nat): nat {
    if groups == [] then 0 else Listed(groups[..|groups| - 1], g) + if groups[|groups| - 1] == g then 1 else 0
  }

  const ANY_BUCKET := {Available, Temporary, Errored, Closed}

  /** How often the group is listed by accounts of these buckets. */
  function CountIn(accounts: seq<Account>, buckets: set<Bucket>, g: nat): nat {
    if accounts == [] then 0
    else
      var last := accounts[|accounts| - 1];
      CountIn(accounts[..|accounts| - 1], buckets, g) + if last.bucket in buckets then Listed(last.groups, g) else 0
  }

  function Recount(accounts: seq<Account>, g: nat): Counts {
    Counts(CountIn(accounts, ANY_BUCKET, g), CountIn(accounts, {Available}, g), CountIn(accounts, {Temporary}, g),
           CountIn(accounts, {Errored}, g))
  }

  function Add(c: Counts, b: Bucket): Counts {
    var d := c.(total := c.total + 1);
    match b
    case Available => d.(available := d.available + 1)
    case Temporary => d.(temporary := d.temporary + 1)
    case Errored => d.(errored := d.errored + 1)
    case Closed => d
  }

  lemma CountAppend(accounts: seq<Account>, a: Account, buckets: set<Bucket>, g: nat)
    ensures CountIn(accounts + [a], buckets, g)
         == CountIn(accounts, buckets, g) + if a.bucket in buckets then Listed(a.groups, g) else 0
  {
    assert (accounts + [a])[..|accounts|] == accounts;
  }

  /** `n` more accounts of one bucket. */
  function Plus(c: Counts, b: Bucket, n: nat): Counts {
    Counts(c.total + n, c.available + (if b == Available then n else 0),
           c.temporary + (if b == Temporary then n else 0), c.errored + (if b == Errored then n else 0))
  }

  lemma RecountAppend(accounts: seq<Account>, a: Account, more: seq<Account>, g: nat)
    requires more == accounts + [a]
    ensures Recount(more, g) == Plus(Recount(accounts, g), a.bucket, Listed(a.groups, g))
  {
    CountAppend(accounts, a, ANY_BUCKET, g);
    CountAppend(accounts, a, {Available}, g);
    CountAppend(accounts, a, {Temporary}, g);
    CountAppend(accounts, a, {Errored}, g);
  }

  method CountAccount(mutable: map<nat, Counts>, a: Account) returns (next: map<nat, Counts>)
    ensures next.Keys == mutable.Keys
    ensures forall g | g in next :: next[g] == Plus(mutable[g], a.bucket, Listed(a.groups, g))
  {
    next := mutable;
    for i := 0 to |a.groups|
      invariant next.Keys == mutable.Keys
      invariant forall g | g in next :: next[g] == Plus(mutable[g], a.bucket, Listed(a.groups[..i], g))
    {
      var g := a.groups[i];
      forall h ensures Listed(a.groups[..i + 1], h) == Listed(a.groups[..i], h) + if h == g then 1 else 0 {
        assert a.groups[..i + 1][..i] == a.groups[..i];
      }
      if g in next {
        next := next[g := Add(next[g], a.bucket)];
      }
    }
    assert a.groups[..|a.groups|] == a.groups;
  }

  /** One row per group, in the given order, each what counting that group alone gives. */
  method AggregateGroupAccountCounts(groups: seq<nat>, accounts: seq<Account>) returns (rows: seq<Counts>)
    ensures |rows| == |groups| && forall k | 0 <= k < |groups| :: rows[k] == Recount(accounts, groups[k])
  {
    var mutable: map<nat, Counts> := map g | g in groups :: Counts(0, 0, 0, 0);
    for i := 0 to |accounts|
      invariant forall g | g in groups :: g in mutable
      invariant forall g | g in mutable :: mutable[g] == Recount(accounts[..i], g)
    {
      assert accounts[..i + 1] == accounts[..i] + [accounts[i]];
      forall g | g in mutable
        ensures Recount(accounts[..i + 1], g) == Plus(mutable[g], accounts[i].bucket, Listed(accounts[i].groups, g))
      {
        RecountAppend(accounts[..i], accounts[i], accounts[..i + 1], g);
      }
      mutable := CountAccount(mutable, accounts[i]);
    }
    assert accounts[..|accounts|] == accounts;
    rows := seq(|groups|, (k: nat) requires k < |groups| && groups[k] in mutable => mutable[groups[k]]);
  }

  function ClosedCount(c: Counts): int { c.total - c.available - c.temporary - c.errored }

  /** The remainder that is reported as closed is exactly the number of closed accounts. */
  lemma {:induction false} RemainderIsClosed(accounts: seq<Account>, g: nat)
    ensures ClosedCount(Recount(accounts, g)) == CountIn(accounts, {Closed}, g)
  {
    if accounts != [] {
      RemainderIsClosed(accounts[..|accounts| - 1], g);
    }
  }

  // ----- What binds a channel, in terms of the records -----

  function Distance(a: int, b: int): nat { if a < b then b - a else a - b }

  /** The record speaks for the group: the monitor's own client used the channel's model at most two
      seconds after the check, and took as long as the check did, up to a second or a quarter.  Times are
      cut to whole milliseconds, so a record less than one before the check still counts. */
  predicate SpeaksFor(c: Channel, r: Record, g: nat) {
    && c.latency.Some? && c.model == Some(r.model) && c.checkedAt.Some?
    && r.probe && r.group == Some(g) && g >= 1 && r.createdAt.Some? && r.duration.Some?
    && -1_000 < r.createdAt.value - c.checkedAt.value < 2_001_000
    && (Distance(r.duration.value, c.latency.value) <= 1_000
        || 4 * Distance(r.duration.value, c.latency.value) <= c.latency.value)
  }

  lemma MatchesMeans(c: Channel, r: Record, g: nat)
    requires IsProbed(c)
    ensures MatchesGroup(c, r, g) <==> SpeaksFor(c, r, g)
    ensures SpeaksFor(c, r, g) ==> Gap(c, r) == Distance(r.duration.value, c.latency.value)
  {
  }

  /** The channel can be bound at all. */
  predicate IsChecked(c: Channel) { c.latency.Some? && c.latency.value >= 0 && c.model.Some? && c.checkedAt.Some? }

  /** A record speaks for the group, no other for it comes closer, and all for other groups are more
      than 100 ms further off. */
  predicate IsClear(c: Channel, records: seq<Record>, g: nat, r: Record)
    requires IsChecked(c) && r.duration.Some?
  {
    var off := Distance(r.duration.value, c.latency.value);
    && (forall s | s in records && SpeaksFor(c, s, g) :: Distance(s.duration.value, c.latency.value) >= off)
    && (forall s | s in records && s.group.Some? && s.group.value != g && SpeaksFor(c, s, s.group.value) ::
          Distance(s.duration.value, c.latency.value) > off + 100)
  }

  /** Exactly when a channel is bound to a group. */
  lemma BindsExactly(c: Channel, records: seq<Record>, g: nat)
    ensures (IsProbed(c) && Wins(c, records, g)) <==>
              IsChecked(c) && exists r :: r in records && SpeaksFor(c, r, g) && IsClear(c, records, g, r)
  {
    if IsProbed(c) {
      forall r, h ensures MatchesGroup(c, r, h) <==> SpeaksFor(c, r, h) { MatchesMeans(c, r, h); }
      forall r, h | SpeaksFor(c, r, h) ensures Gap(c, r) == Distance(r.duration.value, c.latency.value) {
        MatchesMeans(c, r, h);
      }
      hide SpeaksFor, Gap, Distance;
      if Wins(c, records, g) {
        var gap: nat :| Beats(c, records, g, gap);
        var r :| r in records && MatchesGroup(c, r, g) && Gap(c, r) == gap;
        assert IsClear(c, records, g, r);
      }
      forall r | r in records && SpeaksFor(c, r, g) && IsClear(c, records, g, r) ensures Wins(c, records, g) {
        assert Beats(c, records, g, Gap(c, r));
      }
    }
  }

  // ----- What an account count counts -----

  /** Each place at which an account of these buckets lists the group. */
  function Listings(accounts: seq<Account>, buckets: set<Bucket>, g: nat): set<(nat, nat)> {
    set i: nat, j: nat |
      i < |accounts| && accounts[i].bucket in buckets && j < |accounts[i].groups| && accounts[i].groups[j] == g ::
      (i, j)
  }

  lemma {:induction false} ListedMeans(groups: seq<nat>, g: nat)
    ensures Listed(groups, g) == multiset(groups)[g]
  {
    if groups != [] {
      ListedMeans(groups[..|groups| - 1], g);
      assert groups == groups[..|groups| - 1] + [groups[|groups| - 1]];
    }
  }

  function PlacesAt(n: nat, groups: seq<nat>, g: nat): set<(nat, nat)> {
    set j: nat | j < |groups| && groups[j] == g :: (n, j)
  }

  lemma {:induction false} PlacesAreListed(n: nat, groups: seq<nat>, g: nat)
    ensures |PlacesAt(n, groups, g)| == Listed(groups, g)
  {
    if groups != [] {
      var most, last := groups[..|groups| - 1], groups[|groups| - 1];
      PlacesAreListed(n, most, g);
      assert PlacesAt(n, groups, g) == PlacesAt(n, most, g) + if last == g then {(n, |most|)} else {};
    }
  }

  lemma {:induction false} CountExactly(accounts: seq<Account>, buckets: set<Bucket>, g: nat)
    ensures CountIn(accounts, buckets, g) == |Listings(accounts, buckets, g)|
  {
    if accounts != [] {
      var most, last := accounts[..|accounts| - 1], accounts[|accounts| - 1];
      var more := if last.bucket in buckets then PlacesAt(|most|, last.groups, g) else {};
      CountExactly(most, buckets, g);
      PlacesAreListed(|most|, last.groups, g);
      assert Listings(accounts, buckets, g) == Listings(most, buckets, g) + more;
      assert Listings(most, buckets, g) !! more;
    }
  }

  /** Each row counts the places at which accounts list the group: all of them, and those of each kind. */
  lemma RecountExactly(accounts: seq<Account>, g: nat)
    ensures var c := Recount(accounts, g);
            && c.total == |Listings(accounts, {Available, Temporary, Errored, Closed}, g)|
            && c.available == |Listings(accounts, {Available}, g)|
            && c.temporary == |Listings(accounts, {Temporary}, g)|
            && c.errored == |Listings(accounts, {Errored}, g)|
  {
    CountExactly(accounts, ANY_BUCKET, g);
    CountExactly(accounts, {Available}, g);
    CountExactly(accounts, {Temporary}, g);
    CountExactly(accounts, {Errored}, g);
    hide Listings;
  }
}
