/** At most so many binding attempts per actor in any sliding window, with a bounded table. */
module AttemptLimiter {

  datatype Limits = Limits(maxAttempts: nat, window: nat, maxTracked: nat)

  /** What the constructor makes of its arguments: each is clamped to its range. */
  predicate IsLimits(l: Limits) { 1 <= l.maxAttempts <= 20 && 1 <= l.window <= 3600 && 1 <= l.maxTracked <= 10000 }

  function Clamped(x: int, low: int, high: int): int
    requires low <= high
  {
    if x < low then low else if x > high then high else x
  }

  function MakeLimits(maxAttempts: int, window: int, maxTracked: int): (l: Limits)
    ensures IsLimits(l)
  {
    Limits(Clamped(maxAttempts, 1, 20), Clamped(window, 1, 3600), Clamped(maxTracked, 1, 10000))
  }

  /** The attempt times after `cutoff`, in their order. */
  function After(times: seq<int>, cutoff: int): seq<int> {
    if times == [] then []
    else After(times[..|times| - 1], cutoff) + if times[|times| - 1] > cutoff then [times[|times| - 1]] else []
  }

  function DropOld(times: seq<int>, cutoff: int): seq<int> {
    if times != [] && times[0] <= cutoff then DropOld(times[1..], cutoff) else times
  }

  predicate IsExpired(times: seq<int>, cutoff: int) { times == [] || times[|times| - 1] <= cutoff }

  type Table = map<nat, seq<int>>

  function Evicted(t: Table, cutoff: int): Table { map a | a in t && !IsExpired(t[a], cutoff) :: t[a] }

  /** The table once the actor has a row, if there is room for one. */
  function WithRow(t: Table, actor: nat, l: Limits, cutoff: int): Table {
    if actor in t then t
    else
      var roomy := if |t| >= l.maxTracked then Evicted(t, cutoff) else t;
      if |roomy| >= l.maxTracked then roomy else roomy[actor := []]
  }

  function Allowed(t: Table, actor: nat, l: Limits, now: int): (Table, bool) {
    var room := WithRow(t, actor, l, now - l.window);
    if actor !in room then (room, false)
    else
      var times := DropOld(room[actor], now - l.window);
      if |times| >= l.maxAttempts then (room[actor := times], false)
      else (room[actor := times + [now]], true)
  }

  class BindingAttemptLimiter {
    const limits: Limits
    var attempts: Table

    constructor (maxAttempts: int, window: int, maxTracked: int)
      ensures limits == MakeLimits(maxAttempts, window, maxTracked) && attempts == map[]
    {
      limits := MakeLimits(maxAttempts, window, maxTracked);
      attempts := map[];
    }

    method Allow(actor: nat, now: int) returns (ok: bool)
      modifies this
      ensures (attempts, ok) == Allowed(old(attempts), actor, limits, now)
    {
      var cutoff := now - limits.window;
      if actor !in attempts {
        if |attempts| >= limits.maxTracked {
          attempts := map a | a in attempts && !IsExpired(attempts[a], cutoff) :: attempts[a];
          if |attempts| >= limits.maxTracked {
            return false;
          }
        }
        attempts := attempts[actor := []];
      }
      var times := attempts[actor];
      ghost var all := times;
      while times != [] && times[0] <= cutoff
        invariant DropOld(times, cutoff) == DropOld(all, cutoff)
        decreases |times|
      {
        times := times[1..];
      }
      if |times| >= limits.maxAttempts {
        attempts := attempts[actor := times];
        return false;
      }
      attempts := attempts[actor := times + [now]];
      ok := true;
    }
  }

  // ----- Every sequence of calls -----

  datatype Call = Call(actor: nat, now: int)

  /** The table, and every grant there ever was: the memory of an unbounded limiter. */
  datatype State = State(table: Table, granted: map<nat, seq<int>>)

  function GrantsOf(granted: map<nat, seq<int>>, actor: nat): seq<int> {
    if actor in granted then granted[actor] else []
  }

  function Next(s: State, c: Call, l: Limits): State {
    var (table, ok) := Allowed(s.table, c.actor, l, c.now);
    State(table, if ok then s.granted[c.actor := GrantsOf(s.granted, c.actor) + [c.now]] else s.granted)
  }

  function Run(calls: seq<Call>, l: Limits): State {
    if calls == [] then State(map[], map[]) else Next(Run(calls[..|calls| - 1], l), calls[|calls| - 1], l)
  }

  predicate InOrder(calls: seq<Call>) { forall i, j | 0 <= i < j < |calls| :: calls[i].now <= calls[j].now }

  /** Times in order, none after `now`. */
  predicate Ordered(times: seq<int>, now: int) {
    times == [] || (times[|times| - 1] <= now && Ordered(times[..|times| - 1], times[|times| - 1]))
  }

  function RowOf(t: Table, actor: nat): seq<int> { if actor in t then t[actor] else [] }

  /** A row agrees with the unbounded memory on everything that can still matter. */
  predicate Agrees(row: seq<int>, grants: seq<int>, oldest: int, now: int) {
    Ordered(row, now) && Ordered(grants, now) && After(row, oldest) == After(grants, oldest)
  }

  predicate Tracks(s: State, l: Limits, now: int, a: nat) {
    Agrees(RowOf(s.table, a), GrantsOf(s.granted, a), now - l.window, now)
  }

  lemma AfterAppend(times: seq<int>, x: int, cutoff: int)
    ensures After(times + [x], cutoff) == After(times, cutoff) + if x > cutoff then [x] else []
  {
    assert (times + [x])[..|times|] == times;
  }

  lemma OrderedAppend(times: seq<int>, now: int)
    requires Ordered(times, now)
    ensures Ordered(times + [now], now)
  {
    assert (times + [now])[..|times|] == times;
  }

  lemma {:induction false} OrderedEnds(times: seq<int>, now: int)
    requires Ordered(times, now) && times != []
    ensures times[0] <= times[|times| - 1]
  {
    if |times| > 1 {
      OrderedEnds(times[..|times| - 1], times[|times| - 1]);
    }
  }

  lemma {:induction false} OrderedTail(times: seq<int>, now: int)
    requires Ordered(times, now) && times != []
    ensures Ordered(times[1..], now)
    decreases |times|
  {
    if |times| > 1 {
      var most := times[..|times| - 1];
      OrderedTail(most, times[|times| - 1]);
      assert times[1..][..|times| - 2] == most[1..];
    }
  }

  lemma {:induction false} AfterAll(times: seq<int>, cutoff: int, now: int)
    requires Ordered(times, now) && (times != [] ==> times[0] > cutoff)
    ensures After(times, cutoff) == times
  {
    if times != [] {
      OrderedEnds(times, now);
      AfterAll(times[..|times| - 1], cutoff, times[|times| - 1]);
    }
  }

  lemma {:induction false} AfterNone(times: seq<int>, cutoff: int)
    requires Ordered(times, cutoff)
    ensures After(times, cutoff) == []
  {
    if times != [] {
      AfterNone(times[..|times| - 1], cutoff);
    }
  }

  lemma {:induction false} AfterFirst(times: seq<int>, cutoff: int)
    requires times != [] && times[0] <= cutoff
    ensures After(times, cutoff) == After(times[1..], cutoff)
    decreases |times|
  {
    if |times| > 1 {
      var most := times[..|times| - 1];
      assert times[1..][..|times| - 2] == most[1..];
      AfterFirst(most, cutoff);
    }
  }

  /** Popping old attempts from the left is filtering, since rows are in order. */
  lemma {:induction false} DropOldIsAfter(times: seq<int>, cutoff: int, now: int)
    requires Ordered(times, now)
    ensures DropOld(times, cutoff) == After(times, cutoff)
    decreases |times|
  {
    if times != [] && times[0] <= cutoff {
      OrderedTail(times, now);
      DropOldIsAfter(times[1..], cutoff, now);
      AfterFirst(times, cutoff);
    } else {
      AfterAll(times, cutoff, now);
    }
  }

  lemma {:induction false} AfterOrdered(times: seq<int>, cutoff: int, now: int)
    requires Ordered(times, now)
    ensures Ordered(After(times, cutoff), now)
  {
    if times != [] {
      var most, last := times[..|times| - 1], times[|times| - 1];
      AfterOrdered(most, cutoff, last);
      if last > cutoff {
        OrderedAppend(After(most, cutoff), last);
      } else {
        assert After(most, cutoff) + [] == After(most, cutoff);
      }
    }
  }

  lemma {:induction false} AfterTwice(times: seq<int>, early: int, late: int)
    requires early <= late
    ensures After(After(times, early), late) == After(times, late)
  {
    if times != [] {
      var most, last := times[..|times| - 1], times[|times| - 1];
      AfterTwice(most, early, late);
      if last > early {
        AfterAppend(After(most, early), last, late);
      } else {
        assert After(most, early) + [] == After(most, early);
      }
    }
  }

  lemma ExpiredHasNothing(times: seq<int>, cutoff: int, now: int)
    requires Ordered(times, now) && IsExpired(times, cutoff)
    ensures After(times, cutoff) == []
  {
    AfterNone(times, cutoff);
  }

  /** Making room changes no row that still matters, and evicted rows have nothing left to say. */
  lemma RoomAgrees(s: State, l: Limits, now: int, actor: nat, a: nat)
    requires Tracks(s, l, now, a)
    ensures Agrees(RowOf(WithRow(s.table, actor, l, now - l.window), a), GrantsOf(s.granted, a), now - l.window, now)
  {
    var row := RowOf(s.table, a);
    var after := RowOf(WithRow(s.table, actor, l, now - l.window), a);
    if after != row {
      ExpiredHasNothing(row, now - l.window, now);
    }
  }

  lemma LaterAgrees(row: seq<int>, grants: seq<int>, oldest: int, now: int, older: int, later: int)
    requires Agrees(row, grants, oldest, now) && now <= later && oldest <= older
    ensures Agrees(row, grants, older, later)
  {
    AfterTwice(row, oldest, older);
    AfterTwice(grants, oldest, older);
  }

  lemma DropAgrees(row: seq<int>, grants: seq<int>, oldest: int, now: int)
    requires Agrees(row, grants, oldest, now)
    ensures DropOld(row, oldest) == After(grants, oldest) && Agrees(DropOld(row, oldest), grants, oldest, now)
  {
    DropOldIsAfter(row, oldest, now);
    AfterOrdered(row, oldest, now);
    AfterTwice(row, oldest, oldest);
  }

  lemma GrantAgrees(row: seq<int>, grants: seq<int>, oldest: int, now: int)
    requires Agrees(row, grants, oldest, now)
    ensures Agrees(row + [now], grants + [now], oldest, now)
  {
    AfterAppend(row, now, oldest);
    AfterAppend(grants, now, oldest);
    OrderedAppend(row, now);
    OrderedAppend(grants, now);
  }

  /** There is no row for the actor and no room for one. */
  predicate Refuses(t: Table, actor: nat, l: Limits, now: int) { actor !in WithRow(t, actor, l, now - l.window) }

  /** One call: unless the table is full, the answer is that of the unbounded limiter, which counts
      the actor's grants in the window. */
  lemma AnswerIsExact(s: State, l: Limits, now: int, actor: nat)
    requires Tracks(s, l, now, actor)
    ensures Allowed(s.table, actor, l, now).1 <==>
            !Refuses(s.table, actor, l, now) && |After(GrantsOf(s.granted, actor), now - l.window)| < l.maxAttempts
  {
    RoomAgrees(s, l, now, actor, actor);
    var room := WithRow(s.table, actor, l, now - l.window);
    if actor in room {
      DropAgrees(room[actor], GrantsOf(s.granted, actor), now - l.window, now);
    }
  }

  /** What a call does to the rows: the caller's own row is renewed, every other row is kept. */
  lemma RowsAfter(s: State, l: Limits, c: Call, a: nat)
    ensures var room := WithRow(s.table, c.actor, l, c.now - l.window);
            var next := Next(s, c, l);
            var ok := Allowed(s.table, c.actor, l, c.now).1;
            var mine := a == c.actor && a in room;
            && RowOf(next.table, a) == (if !mine then RowOf(room, a)
                                        else DropOld(room[a], c.now - l.window) + if ok then [c.now] else [])
            && GrantsOf(next.granted, a) == GrantsOf(s.granted, a) + if mine && ok then [c.now] else []
  {
    assert GrantsOf(s.granted, a) + [] == GrantsOf(s.granted, a);
  }

  lemma RowAgrees(row: seq<int>, grants: seq<int>, oldest: int, now: int, mine: bool, ok: bool)
    requires Agrees(row, grants, oldest, now)
    ensures Agrees(if !mine then row else DropOld(row, oldest) + if ok then [now] else [],
                   grants + if mine && ok then [now] else [], oldest, now)
  {
    assert grants + [] == grants;
    if mine {
      var times := DropOld(row, oldest);
      assert times + [] == times;
      DropAgrees(row, grants, oldest, now);
      GrantAgrees(times, grants, oldest, now);
    }
  }

  lemma ActorStep(s: State, l: Limits, c: Call, a: nat)
    requires Tracks(s, l, c.now, a)
    ensures Tracks(Next(s, c, l), l, c.now, a)
  {
    hide Agrees, WithRow, Next, Allowed, DropOld;
    var oldest := c.now - l.window;
    var room := WithRow(s.table, c.actor, l, oldest);
    RoomAgrees(s, l, c.now, c.actor, a);
    RowsAfter(s, l, c, a);
    RowAgrees(RowOf(room, a), GrantsOf(s.granted, a), oldest, c.now, a == c.actor && a in room,
              Allowed(s.table, c.actor, l, c.now).1);
  }

  lemma TracksLater(s: State, l: Limits, now: int, later: int, a: nat)
    requires Tracks(s, l, now, a) && now <= later
    ensures Tracks(s, l, later, a)
  {
    LaterAgrees(RowOf(s.table, a), GrantsOf(s.granted, a), now - l.window, now, later - l.window, later);
  }

  lemma {:induction false} RunTracks(calls: seq<Call>, l: Limits, now: int, a: nat)
    requires InOrder(calls) && forall i | 0 <= i < |calls| :: calls[i].now <= now
    ensures Tracks(Run(calls, l), l, now, a)
  {
    if calls != [] {
      var most, c := calls[..|calls| - 1], calls[|calls| - 1];
      hide Tracks, Next;
      RunTracks(most, l, c.now, a);
      ActorStep(Run(most, l), l, c, a);
      TracksLater(Run(calls, l), l, c.now, now, a);
    }
  }

  lemma OrderSplits(calls: seq<Call>, c: Call)
    requires InOrder(calls + [c])
    ensures InOrder(calls) && forall i | 0 <= i < |calls| :: calls[i].now <= c.now
  {
    var all := calls + [c];
    assert forall i | 0 <= i < |calls| :: all[i] == calls[i] && all[|calls|] == c;
  }

  /** Over every sequence of calls with times in order, evicting actors never changes an answer
      against the unbounded limiter, but for refusals while the table is full. */
  lemma EvictionIsInvisible(calls: seq<Call>, l: Limits, c: Call)
    requires InOrder(calls + [c])
    ensures var s := Run(calls, l);
            Allowed(s.table, c.actor, l, c.now).1 <==>
              && !Refuses(s.table, c.actor, l, c.now)
              && |After(GrantsOf(s.granted, c.actor), c.now - l.window)| < l.maxAttempts
  {
    OrderSplits(calls, c);
    RunTracks(calls, l, c.now, c.actor);
    AnswerIsExact(Run(calls, l), l, c.now, c.actor);
  }

  /** The table is full only while that many other actors each have a grant in the window. */
  lemma FullMeansBusy(calls: seq<Call>, l: Limits, c: Call)
    requires InOrder(calls + [c]) && Refuses(Run(calls, l).table, c.actor, l, c.now)
    ensures var s := Run(calls, l);
            var busy := WithRow(s.table, c.actor, l, c.now - l.window).Keys;
            && |busy| >= l.maxTracked && c.actor !in busy
            && forall a | a in busy :: After(GrantsOf(s.granted, a), c.now - l.window) != []
  {
    var s := Run(calls, l);
    var room := WithRow(s.table, c.actor, l, c.now - l.window);
    OrderSplits(calls, c);
    forall a | a in room ensures After(GrantsOf(s.granted, a), c.now - l.window) != [] {
      RunTracks(calls, l, c.now, a);
      BusyActor(s, l, c, a);
    }
  }

  lemma BusyActor(s: State, l: Limits, c: Call, a: nat)
    requires Tracks(s, l, c.now, a) && Refuses(s.table, c.actor, l, c.now)
    requires a in WithRow(s.table, c.actor, l, c.now - l.window)
    ensures After(GrantsOf(s.granted, a), c.now - l.window) != []
  {
    RoomAgrees(s, l, c.now, c.actor, a);
    RefusedRowsLive(s.table, c.actor, l, c.now - l.window, a);
    LiveRowHasGrant(WithRow(s.table, c.actor, l, c.now - l.window)[a], c.now - l.window);
  }

  lemma RefusedRowsLive(t: Table, actor: nat, l: Limits, cutoff: int, a: nat)
    requires actor !in WithRow(t, actor, l, cutoff) && a in WithRow(t, actor, l, cutoff)
    ensures !IsExpired(WithRow(t, actor, l, cutoff)[a], cutoff)
  {
  }

  lemma LiveRowHasGrant(times: seq<int>, cutoff: int)
    requires !IsExpired(times, cutoff)
    ensures After(times, cutoff) != []
  {
  }

  // ----- No window holds more grants than allowed -----

  /** The grants in (t - window, t]. */
  function InWindow(times: seq<int>, t: int, window: nat): nat {
    if times == [] then 0
    else InWindow(times[..|times| - 1], t, window) + if t - window < times[|times| - 1] <= t then 1 else 0
  }

  /** Each grant came when the window before it had room. */
  ghost predicate Paced(times: seq<int>, l: Limits) {
    forall n | 0 < n <= |times| :: HadRoom(times, n, l)
  }

  predicate HadRoom(times: seq<int>, n: nat, l: Limits)
    requires 0 < n <= |times|
  {
    |After(times[..n - 1], times[n - 1] - l.window)| < l.maxAttempts
  }

  lemma {:induction false} WindowIsAfter(times: seq<int>, t: int, window: nat)
    requires Ordered(times, t)
    ensures InWindow(times, t, window) == |After(times, t - window)|
  {
    if times != [] {
      WindowIsAfter(times[..|times| - 1], t, window);
    }
  }

  lemma {:induction false} AfterShrinks(times: seq<int>, early: int, late: int)
    requires early <= late
    ensures |After(times, late)| <= |After(times, early)|
  {
    if times != [] {
      AfterShrinks(times[..|times| - 1], early, late);
    }
  }

  lemma {:induction false} PacedWindows(times: seq<int>, now: int, t: int, l: Limits)
    requires Ordered(times, now) && Paced(times, l) && l.maxAttempts >= 1
    ensures InWindow(times, t, l.window) <= l.maxAttempts
  {
    if times != [] {
      var most, last := times[..|times| - 1], times[|times| - 1];
      forall n | 0 < n <= |most| ensures HadRoom(most, n, l) {
        RoomKept(most, times, n, l);
      }
      PacedWindows(most, last, t, l);
      if last <= t {
        assert HadRoom(times, |times|, l);
        WindowIsAfter(most, t, l.window);
        AfterShrinks(most, last - l.window, t - l.window);
      }
    }
  }

  lemma RoomKept(times: seq<int>, more: seq<int>, n: nat, l: Limits)
    requires 0 < n <= |times| <= |more| && times == more[..|times|]
    ensures HadRoom(more, n, l) <==> HadRoom(times, n, l)
  {
    assert more[..n - 1] == times[..n - 1] && more[n - 1] == times[n - 1];
  }

  lemma PacedGrows(times: seq<int>, now: int, l: Limits)
    requires Paced(times, l) && |After(times, now - l.window)| < l.maxAttempts
    ensures Paced(times + [now], l)
  {
    var more := times + [now];
    assert more[..|times|] == times && more[|times|] == now;
    forall n | 0 < n <= |more| ensures HadRoom(more, n, l) {
      if n <= |times| {
        RoomKept(times, more, n, l);
      }
    }
  }

  lemma {:induction false} RunPaces(calls: seq<Call>, l: Limits, a: nat)
    requires InOrder(calls)
    ensures Paced(GrantsOf(Run(calls, l).granted, a), l)
  {
    if calls != [] {
      var most, c := calls[..|calls| - 1], calls[|calls| - 1];
      RunPaces(most, l, a);
      RunTracks(most, l, c.now, c.actor);
      AnswerIsExact(Run(most, l), l, c.now, c.actor);
      if a == c.actor && Allowed(Run(most, l).table, a, l, c.now).1 {
        PacedGrows(GrantsOf(Run(most, l).granted, a), c.now, l);
      }
    }
  }

  /** For every sequence of calls with times in order, no actor is granted more than `maxAttempts`
      attempts in any interval (t - window, t]. */
  lemma NoWindowOverflows(calls: seq<Call>, l: Limits, a: nat, t: int)
    requires InOrder(calls) && l.maxAttempts >= 1
    ensures InWindow(GrantsOf(Run(calls, l).granted, a), t, l.window) <= l.maxAttempts
  {
    RunPaces(calls, l, a);
    var now := if calls == [] then 0 else calls[|calls| - 1].now;
    RunTracks(calls, l, now, a);
    PacedWindows(GrantsOf(Run(calls, l).granted, a), now, t, l);
  }

  // ----- The limits and the table of one call -----

  /** The bound next to the argument, if it is out of its bounds. */
  predicate IsNearest(x: int, low: int, high: int, bound: int) {
    if low <= x && x <= high then bound == x else if x < low then bound == low else bound == high
  }

  /** Between one and 20 attempts, in one second to an hour, by one to 10 000 actors. */
  lemma LimitsExactly(maxAttempts: int, window: int, maxTracked: int)
    ensures var l := MakeLimits(maxAttempts, window, maxTracked);
            && IsNearest(maxAttempts, 1, 20, l.maxAttempts) && IsNearest(window, 1, 3600, l.window)
            && IsNearest(maxTracked, 1, 10_000, l.maxTracked)
  {
  }

  /** The actor made no attempt after the cutoff that the table shows. */
  predicate IsIdle(times: seq<int>, cutoff: int) { times == [] || times[|times| - 1] <= cutoff }

  /** Which rows one call leaves: those of idle actors go exactly if a new actor finds the table full; and
      that actor is left out if the table is full even then. */
  lemma TableExactly(t: Table, actor: nat, l: Limits, now: int)
    ensures var (after, ok) := Allowed(t, actor, l, now);
            var clears := actor !in t && |t| >= l.maxTracked;
            var kept := set a | a in t && !(clears && IsIdle(t[a], now - l.window));
            && (forall a | a != actor :: a in after <==> a in kept)
            && (forall a | a != actor && a in after :: a in t && after[a] == t[a])
            && (actor in after <==> actor in t || |kept| < l.maxTracked)
            && (ok ==> actor in after && after[actor] != [] && after[actor][|after[actor]| - 1] == now)
  {
    var cutoff := now - l.window;
    var clears := actor !in t && |t| >= l.maxTracked;
    var kept := set a | a in t && !(clears && IsIdle(t[a], cutoff));
    if clears {
      assert Evicted(t, cutoff).Keys == kept;
    } else {
      assert t.Keys == kept;
    }
  }
}
