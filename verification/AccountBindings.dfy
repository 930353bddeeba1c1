/** One account per actor and one actor per account, kept in two inverse dictionaries. */
module AccountBindings {
  import opened Common
  import Ordering

  datatype Binding = Binding(actor: nat, user: nat, email: nat, boundAt: nat)

  datatype Registry = Registry(byActor: map<nat, Binding>, actorByAccount: map<nat, nat>)

  datatype BindOutcome = Created | AlreadyBound | ActorConflict | AccountConflict | TooManyBindings

  datatype LoadError = DuplicateActor | DuplicateAccount | TooManyLoaded

  const MAX_BINDINGS := 10000

  ghost predicate IsInverse(r: Registry) {
    && (forall a | a in r.byActor ::
         r.byActor[a].actor == a && r.byActor[a].user in r.actorByAccount && r.actorByAccount[r.byActor[a].user] == a)
    && (forall u | u in r.actorByAccount ::
         r.actorByAccount[u] in r.byActor && r.byActor[r.actorByAccount[u]].user == u)
    && |r.byActor| <= MAX_BINDINGS
  }

  function With(r: Registry, b: Binding): Registry {
    Registry(r.byActor[b.actor := b], r.actorByAccount[b.user := b.actor])
  }

  function Bound(r: Registry, b: Binding): (Registry, BindOutcome) {
    if b.actor in r.byActor then (r, if r.byActor[b.actor].user == b.user then AlreadyBound else ActorConflict)
    else if b.user in r.actorByAccount then (r, AccountConflict)
    else if |r.byActor| >= MAX_BINDINGS then (r, TooManyBindings)
    else (With(r, b), Created)
  }

  function Unbound(r: Registry, actor: nat): Registry {
    if actor !in r.byActor then r
    else Registry(r.byActor - {actor}, r.actorByAccount - {r.byActor[actor].user})
  }

  function Loaded(bindings: seq<Binding>): Result<Registry, LoadError> {
    if bindings == [] then Ok(Registry(map[], map[]))
    else
      var before, b := Loaded(bindings[..|bindings| - 1]), bindings[|bindings| - 1];
      if before.Err? then before
      else if b.actor in before.value.byActor then Err(DuplicateActor)
      else if b.user in before.value.actorByAccount then Err(DuplicateAccount)
      else if |before.value.byActor| >= MAX_BINDINGS then Err(TooManyLoaded)
      else Ok(With(before.value, b))
  }

  lemma WithKeepsInverse(r: Registry, b: Binding)
    requires IsInverse(r) && b.actor !in r.byActor && b.user !in r.actorByAccount && |r.byActor| < MAX_BINDINGS
    ensures IsInverse(With(r, b))
  {
    assert |With(r, b).byActor| == |r.byActor| + 1;
  }

  lemma UnbindKeepsInverse(r: Registry, actor: nat)
    requires IsInverse(r)
    ensures IsInverse(Unbound(r, actor))
  {
    var after := Unbound(r, actor);
    assert after.byActor.Keys <= r.byActor.Keys;
    Ordering.SubsetSize(after.byActor.Keys, r.byActor.Keys);
  }

  /** Binding and unbinding again leaves everything as it was. */
  lemma UnbindUndoesBind(r: Registry, b: Binding)
    requires IsInverse(r) && Bound(r, b).1.Created?
    ensures Unbound(Bound(r, b).0, b.actor) == r
  {
    assert (r.byActor[b.actor := b]) - {b.actor} == r.byActor;
    assert (r.actorByAccount[b.user := b.actor]) - {b.user} == r.actorByAccount;
  }

  /** A list that loads gives inverse dictionaries that hold exactly the listed bindings. */
  lemma {:induction false} LoadedIsInverse(bindings: seq<Binding>)
    requires Loaded(bindings).Ok?
    ensures IsInverse(Loaded(bindings).value) && |Loaded(bindings).value.byActor| == |bindings|
    ensures forall b | b in bindings ::
              b.actor in Loaded(bindings).value.byActor && Loaded(bindings).value.byActor[b.actor] == b
    ensures forall a | a in Loaded(bindings).value.byActor :: Loaded(bindings).value.byActor[a] in bindings
  {
    if bindings != [] {
      var most, b := bindings[..|bindings| - 1], bindings[|bindings| - 1];
      LoadedIsInverse(most);
      WithKeepsInverse(Loaded(most).value, b);
      assert bindings == most + [b];
    }
  }

  ghost predicate Lists(bindings: seq<Binding>, r: Registry) {
    && (forall i, j | 0 <= i < j < |bindings| :: bindings[i].actor != bindings[j].actor)
    && (forall b | b in bindings :: b.actor in r.byActor && r.byActor[b.actor] == b)
    && (forall a | a in r.byActor :: r.byActor[a] in bindings)
  }

  predicate DistinctParties(bindings: seq<Binding>) {
    forall i, j | 0 <= i < j < |bindings| ::
      bindings[i].actor != bindings[j].actor && bindings[i].user != bindings[j].user
  }

  lemma TakenParties(bindings: seq<Binding>, b: Binding)
    requires Loaded(bindings).Ok? && DistinctParties(bindings)
    ensures var r := Loaded(bindings).value;
            b.actor !in r.byActor && b.user !in r.actorByAccount <==> DistinctParties(bindings + [b])
  {
    var r, all := Loaded(bindings).value, bindings + [b];
    LoadedIsInverse(bindings);
    assert forall i | 0 <= i < |bindings| :: all[i] == bindings[i] && bindings[i] in bindings;
    if b.actor in r.byActor {
      var i :| 0 <= i < |bindings| && bindings[i] == r.byActor[b.actor];
      assert all[i].actor == all[|bindings|].actor;
    } else if b.user in r.actorByAccount {
      var i :| 0 <= i < |bindings| && bindings[i] == r.byActor[r.actorByAccount[b.user]];
      assert all[i].user == all[|bindings|].user;
    }
  }

  /** A list loads exactly if no actor and no account occurs twice and it is not too long. */
  lemma {:induction false} LoadsExactly(bindings: seq<Binding>)
    ensures Loaded(bindings).Ok? <==> DistinctParties(bindings) && |bindings| <= MAX_BINDINGS
  {
    if bindings != [] {
      var most, b := bindings[..|bindings| - 1], bindings[|bindings| - 1];
      assert bindings == most + [b];
      LoadsExactly(most);
      assert DistinctParties(bindings) ==> DistinctParties(most);
      if Loaded(most).Ok? {
        LoadedIsInverse(most);
        TakenParties(most, b);
      }
    }
  }

  lemma LoadedLists(bindings: seq<Binding>)
    requires Loaded(bindings).Ok?
    ensures IsInverse(Loaded(bindings).value) && Lists(bindings, Loaded(bindings).value)
  {
    LoadedIsInverse(bindings);
    LoadsExactly(bindings);
  }

  lemma {:induction false} LoadStaysBroken(bindings: seq<Binding>, i: nat)
    requires i <= |bindings| && Loaded(bindings[..i]).Err?
    ensures Loaded(bindings) == Loaded(bindings[..i])
    decreases |bindings|
  {
    if i < |bindings| {
      var most := bindings[..|bindings| - 1];
      assert most[..i] == bindings[..i];
      LoadStaysBroken(most, i);
    } else {
      assert bindings[..i] == bindings;
    }
  }

  lemma PutBack<V>(m: map<nat, V>, k: nat)
    requires k in m
    ensures (m - {k})[k := m[k]] == m && |m - {k}| == |m| - 1
  {
    assert (m - {k})[k := m[k]] == m;
    assert m.Keys == (m - {k}).Keys + {k};
  }

  lemma BindUndoesUnbind(r: Registry, b: Binding)
    requires IsInverse(r) && b.actor in r.byActor && r.byActor[b.actor] == b
    ensures var less := Unbound(r, b.actor);
            && With(less, b) == r && b.actor !in less.byActor && b.user !in less.actorByAccount
            && |less.byActor| < MAX_BINDINGS
  {
    PutBack(r.byActor, b.actor);
    PutBack(r.actorByAccount, b.user);
  }

  lemma LoadStep(most: seq<Binding>, b: Binding, less: Registry)
    requires Loaded(most) == Ok(less)
    requires b.actor !in less.byActor && b.user !in less.actorByAccount && |less.byActor| < MAX_BINDINGS
    ensures Loaded(most + [b]) == Ok(With(less, b))
  {
    assert (most + [b])[..|most|] == most;
  }

  /** Storing a registry as a list and loading that list gives the registry back, in any order. */
  lemma {:induction false} LoadUndoesStore(bindings: seq<Binding>, r: Registry)
    requires IsInverse(r) && Lists(bindings, r)
    ensures Loaded(bindings) == Ok(r)
    decreases |bindings|
  {
    if bindings == [] {
      assert r.byActor == map[];
      assert r.actorByAccount == map[];
    } else {
      var most, b := bindings[..|bindings| - 1], bindings[|bindings| - 1];
      assert bindings == most + [b];
      UnbindKeepsInverse(r, b.actor);
      ListsLess(most, b, r);
      BindUndoesUnbind(r, b);
      LoadUndoesStore(most, Unbound(r, b.actor));
      LoadStep(most, b, Unbound(r, b.actor));
    }
  }

  lemma ListsLess(most: seq<Binding>, b: Binding, r: Registry)
    requires IsInverse(r) && Lists(most + [b], r)
    ensures Lists(most, Unbound(r, b.actor)) && b.actor in r.byActor && r.byActor[b.actor] == b
  {
    var all := most + [b];
    assert all[|most|] == b && b in all;
    assert forall i | 0 <= i < |most| :: all[i] == most[i];
    forall x | x in most ensures x.actor != b.actor && x in all {
      var i :| 0 <= i < |most| && most[i] == x;
      assert all[i] == x;
    }
    assert forall a | a in Unbound(r, b.actor).byActor :: r.byActor[a] in most;
  }

  class BindingRegistry {
    var byActor: map<nat, Binding>
    var actorByAccount: map<nat, nat>

    ghost function Value(): Registry
      reads this
    {
      Registry(byActor, actorByAccount)
    }

    constructor ()
      ensures Value() == Registry(map[], map[]) && IsInverse(Value())
    {
      byActor, actorByAccount := map[], map[];
    }

    method AddLoaded(b: Binding) returns (error: Option<LoadError>)
      modifies this
      ensures var before := old(Value());
              error == if b.actor in before.byActor then Some(DuplicateActor)
                       else if b.user in before.actorByAccount then Some(DuplicateAccount)
                       else if |before.byActor| >= MAX_BINDINGS then Some(TooManyLoaded)
                       else None
      ensures Value() == if error.None? then With(old(Value()), b) else old(Value())
    {
      if b.actor in byActor {
        return Some(DuplicateActor);
      }
      if b.user in actorByAccount {
        return Some(DuplicateAccount);
      }
      if |byActor| >= MAX_BINDINGS {
        return Some(TooManyLoaded);
      }
      byActor := byActor[b.actor := b];
      actorByAccount := actorByAccount[b.user := b.actor];
      error := None;
    }

    /** A new registry from a stored list: it holds exactly the listed bindings, or the first
        binding that does not fit is named. */
    static method Load(bindings: seq<Binding>) returns (r: Result<BindingRegistry, LoadError>)
      ensures r.Ok? <==> DistinctParties(bindings) && |bindings| <= MAX_BINDINGS
      ensures r.Ok? ==> fresh(r.value) && IsInverse(r.value.Value()) && Lists(bindings, r.value.Value())
      ensures r.Err? ==> Loaded(bindings) == Err(r.error)
    {
      hide IsInverse, Lists, DistinctParties;
      var registry := new BindingRegistry();
      LoadsExactly(bindings);
      for i := 0 to |bindings|
        invariant Loaded(bindings[..i]) == Ok(registry.Value())
      {
        assert bindings[..i + 1][..i] == bindings[..i];
        var error := registry.AddLoaded(bindings[i]);
        if error.Some? {
          LoadStaysBroken(bindings, i + 1);
          return Err(error.value);
        }
      }
      assert bindings[..|bindings|] == bindings;
      LoadedLists(bindings);
      r := Ok(registry);
    }

    method Bind(b: Binding) returns (outcome: BindOutcome)
      requires IsInverse(Value())
      modifies this
      ensures (Value(), outcome) == Bound(old(Value()), b) && IsInverse(Value())
    {
      if b.actor in byActor {
        return if byActor[b.actor].user == b.user then AlreadyBound else ActorConflict;
      }
      if b.user in actorByAccount {
        return AccountConflict;
      }
      if |byActor| >= MAX_BINDINGS {
        return TooManyBindings;
      }
      WithKeepsInverse(Value(), b);
      byActor := byActor[b.actor := b];
      actorByAccount := actorByAccount[b.user := b.actor];
      outcome := Created;
    }

    method Unbind(actor: nat) returns (found: bool)
      requires IsInverse(Value())
      modifies this
      ensures found == (actor in old(byActor)) && Value() == Unbound(old(Value()), actor) && IsInverse(Value())
    {
      UnbindKeepsInverse(Value(), actor);
      found := actor in byActor;
      if found {
        var user := byActor[actor].user;
        byActor := byActor - {actor};
        actorByAccount := actorByAccount - {user};
      }
    }
  }

  /** Somebody else holds the account. */
  predicate IsHeld(r: Registry, user: nat) { exists a :: a in r.byActor && r.byActor[a].user == user }

  /** Which outcome a binding has, and what it leaves. */
  lemma BindsExactly(r: Registry, b: Binding)
    requires IsInverse(r)
    ensures var (after, outcome) := Bound(r, b);
            var full := |r.byActor| == 10_000;
            && (outcome.AlreadyBound? <==> b.actor in r.byActor && r.byActor[b.actor].user == b.user)
            && (outcome.ActorConflict? <==> b.actor in r.byActor && r.byActor[b.actor].user != b.user)
            && (outcome.AccountConflict? <==> b.actor !in r.byActor && IsHeld(r, b.user))
            && (outcome.TooManyBindings? <==> b.actor !in r.byActor && !IsHeld(r, b.user) && full)
            && (outcome.Created? <==> b.actor !in r.byActor && !IsHeld(r, b.user) && !full)
            && after.byActor == (if outcome.Created? then r.byActor[b.actor := b] else r.byActor)
            && after.actorByAccount
               == (if outcome.Created? then r.actorByAccount[b.user := b.actor] else r.actorByAccount)
  {
    if b.user in r.actorByAccount {
      assert r.byActor[r.actorByAccount[b.user]].user == b.user;
    }
  }

  predicate ActorTaken(bindings: seq<Binding>, actor: nat) {
    exists i :: 0 <= i < |bindings| && bindings[i].actor == actor
  }

  predicate UserTaken(bindings: seq<Binding>, user: nat) {
    exists i :: 0 <= i < |bindings| && bindings[i].user == user
  }

  lemma TakenMeans(bindings: seq<Binding>, b: Binding)
    requires Loaded(bindings).Ok?
    ensures var r := Loaded(bindings).value;
            && (b.actor in r.byActor <==> ActorTaken(bindings, b.actor))
            && (b.user in r.actorByAccount <==> UserTaken(bindings, b.user))
            && |r.byActor| == |bindings|
  {
    var r := Loaded(bindings).value;
    LoadedIsInverse(bindings);
    hide Loaded;
    assert forall i | 0 <= i < |bindings| :: bindings[i] in bindings;
    if b.actor in r.byActor {
      var i :| 0 <= i < |bindings| && bindings[i] == r.byActor[b.actor];
    }
    if b.user in r.actorByAccount {
      var i :| 0 <= i < |bindings| && bindings[i] == r.byActor[r.actorByAccount[b.user]];
    }
  }

  /** Binding `n` is the first that does not fit, and why. */
  predicate Breaks(bindings: seq<Binding>, n: nat, error: LoadError) {
    && n < |bindings| && DistinctParties(bindings[..n]) && n <= 10_000
    && var actorTaken := ActorTaken(bindings[..n], bindings[n].actor);
       var userTaken := UserTaken(bindings[..n], bindings[n].user);
       && (error.DuplicateActor? <==> actorTaken)
       && (error.DuplicateAccount? <==> !actorTaken && userTaken)
       && (error.TooManyLoaded? <==> !actorTaken && !userTaken)
       && (error.TooManyLoaded? ==> n == 10_000)
  }

  lemma OneBreaks(most: seq<Binding>, b: Binding, error: LoadError)
    requires Loaded(most).Ok?
    ensures Loaded(most + [b]) == Err(error) <==> Breaks(most + [b], |most|, error)
  {
    assert (most + [b])[..|most|] == most;
    LoadsExactly(most);
    TakenMeans(most, b);
    hide ActorTaken, UserTaken, DistinctParties;
  }

  lemma BreaksPrefix(bindings: seq<Binding>, n: nat, error: LoadError)
    requires n < |bindings|
    ensures Breaks(bindings, n, error) <==> Breaks(bindings[..n] + [bindings[n]], n, error)
  {
    assert (bindings[..n] + [bindings[n]])[..n] == bindings[..n];
  }

  lemma {:induction false} FirstBreak(bindings: seq<Binding>) returns (n: nat)
    requires Loaded(bindings).Err?
    ensures Breaks(bindings, n, Loaded(bindings).error)
  {
    var most, b := bindings[..|bindings| - 1], bindings[|bindings| - 1];
    assert bindings == most + [b];
    if Loaded(most).Err? {
      n := FirstBreak(most);
      assert bindings[..n] == most[..n] && bindings[n] == most[n];
      hide ActorTaken, UserTaken, DistinctParties;
    } else {
      n := |most|;
      OneBreaks(most, b, Loaded(bindings).error);
      hide Breaks;
    }
  }

  /** A list is refused exactly with the error of the first binding that does not fit. */
  lemma LoadErrorsExactly(bindings: seq<Binding>, error: LoadError)
    ensures Loaded(bindings) == Err(error) <==> exists n: nat :: Breaks(bindings, n, error)
  {
    forall n: nat | Breaks(bindings, n, error) ensures Loaded(bindings) == Err(error) {
      LoadsExactly(bindings[..n]);
      BreaksPrefix(bindings, n, error);
      OneBreaks(bindings[..n], bindings[n], error);
      assert bindings[..n + 1] == bindings[..n] + [bindings[n]];
      LoadStaysBroken(bindings, n + 1);
    }
    if Loaded(bindings).Err? {
      var n := FirstBreak(bindings);
    }
  }
}
