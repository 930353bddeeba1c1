/** The minimum usable pool: how many accounts of each group can still serve. */
module MinimumPool {
  type Id = nat
  type Group = nat

  datatype Bucket = Available | Temporary | Errored | Closed
  datatype Status = Active | Error | Inactive | Disabled

  datatype Account = Account(
    id: Id,
    groups: seq<Group>,
    bucket: Bucket,
    status: Status,
    schedulable: bool,
    expired: bool,
    oauth: bool)

  predicate Usable(a: Account) {
    a.bucket.Available? && a.status.Active? && a.schedulable && !a.expired
  }

  /** Account snapshots carry each account once and each of its groups once. */
  ghost predicate Snapshot(accounts: seq<Account>) {
    && (forall i, j | 0 <= i < j < |accounts| :: accounts[i].id != accounts[j].id)
    && (forall a | a in accounts :: forall i, j | 0 <= i < j < |a.groups| :: a.groups[i] != a.groups[j])
  }

  predicate Counts(a: Account, excluded: set<Id>, g: Group) {
    a.id !in excluded && Usable(a) && g in a.groups
  }

  /** The accounts that serve group `g`. */
  function UsableIds(accounts: seq<Account>, excluded: set<Id>, g: Group): set<Id> {
    set a | a in accounts && Counts(a, excluded, g) :: a.id
  }

  ghost predicate Known(accounts: seq<Account>, g: Group) {
    exists a :: a in accounts && g in a.groups
  }

  lemma UsableOneMore(accounts: seq<Account>, excluded: set<Id>, g: Group, i: nat)
    requires i < |accounts| && Snapshot(accounts)
    ensures var more := UsableIds(accounts[..i + 1], excluded, g);
            var before := UsableIds(accounts[..i], excluded, g);
            && more == (if Counts(accounts[i], excluded, g) then before + {accounts[i].id} else before)
            && |more| == |before| + (if Counts(accounts[i], excluded, g) then 1 else 0)
  {
    var a := accounts[i];
    assert accounts[..i + 1] == accounts[..i] + [a];
    forall b | b in accounts[..i] ensures b.id != a.id {
      var j :| 0 <= j < i && accounts[j] == b;
    }
  }

  lemma KnownOneMore(accounts: seq<Account>, g: Group, i: nat)
    requires i < |accounts|
    ensures Known(accounts[..i + 1], g) <==> Known(accounts[..i], g) || g in accounts[i].groups
  {
    assert accounts[..i + 1] == accounts[..i] + [accounts[i]];
    assert accounts[i] in accounts[..i + 1];
  }

  function Decrement(a: Account): int {
    if Usable(a) then 1 else 0
  }

  /** Each group's count is the number of accounts that serve it. */
  ghost predicate Describes(counts: map<Group, int>, accounts: seq<Account>, excluded: set<Id>) {
    && (forall g :: g in counts <==> Known(accounts, g))
    && (forall g | g in counts :: counts[g] == |UsableIds(accounts, excluded, g)|)
  }

  function CountOf(counts: map<Group, int>, g: Group): int {
    if g in counts then counts[g] else 0
  }

  /** `counts` plus account `a` in its first `j` groups. */
  ghost predicate Adds(before: map<Group, int>, counts: map<Group, int>, a: Account, excluded: set<Id>, j: nat)
    requires j <= |a.groups|
  {
    && (forall g :: g in counts <==> g in before || g in a.groups[..j])
    && (forall g | g in counts ::
         counts[g] == CountOf(before, g) + (if g in a.groups[..j] && Counts(a, excluded, g) then 1 else 0))
  }

  lemma AddsNothing(counts: map<Group, int>, a: Account, excluded: set<Id>)
    ensures Adds(counts, counts, a, excluded, 0)
  {
  }

  lemma AddsOne(before: map<Group, int>, counts: map<Group, int>, after: map<Group, int>, a: Account,
          excluded: set<Id>, j: nat)
    requires forall i, k | 0 <= i < k < |a.groups| :: a.groups[i] != a.groups[k]
    requires j < |a.groups| && Adds(before, counts, a, excluded, j)
    requires var g := a.groups[j];
             after == counts[g := CountOf(counts, g) + (if a.id !in excluded && Usable(a) then 1 else 0)]
    ensures Adds(before, after, a, excluded, j + 1)
  {
    var g := a.groups[j];
    assert forall x :: x in a.groups[..j + 1] <==> x in a.groups[..j] || x == g;
    assert g !in a.groups[..j] && g in a.groups;
    forall x | x in after
      ensures after[x] == CountOf(before, x) + (if x in a.groups[..j + 1] && Counts(a, excluded, x) then 1 else 0)
    {
    }
  }

  lemma AddsAll(before: map<Group, int>, counts: map<Group, int>, accounts: seq<Account>, excluded: set<Id>, i: nat)
    requires i < |accounts| && Snapshot(accounts) && Describes(before, accounts[..i], excluded)
    requires Adds(before, counts, accounts[i], excluded, |accounts[i].groups|)
    ensures Describes(counts, accounts[..i + 1], excluded)
  {
    var a := accounts[i];
    assert a.groups[..|a.groups|] == a.groups;
    forall g ensures g in counts <==> Known(accounts[..i + 1], g) {
      KnownOneMore(accounts, g, i);
    }
    forall g | g in counts ensures counts[g] == |UsableIds(accounts[..i + 1], excluded, g)| {
      UsableOneMore(accounts, excluded, g, i);
      if g !in before { NobodyServes(accounts[..i], excluded, g); }
    }
  }

  class MinimumUsablePool {
    var counts: map<Group, int>

    /** Disabling the account leaves this group at least one that serves. */
    predicate Spares(g: Group, account: Account)
      reads this
    {
      g in counts && counts[g] - Decrement(account) >= 1
    }

    constructor (accounts: seq<Account>, excluded: set<Id>)
      requires Snapshot(accounts)
      ensures Describes(counts, accounts, excluded)
    {
      counts := map[];
      new;
      var i := 0;
      assert accounts[..0] == [];
      while i < |accounts|
        invariant 0 <= i <= |accounts|
        invariant Describes(counts, accounts[..i], excluded)
      {
        ghost var before := counts;
        AddAccount(accounts[i], excluded);
        AddsAll(before, counts, accounts, excluded, i);
        i := i + 1;
      }
      assert accounts[..i] == accounts;
    }

    /** Count the account once in each of its groups. */
    method AddAccount(a: Account, excluded: set<Id>)
      requires forall i, j | 0 <= i < j < |a.groups| :: a.groups[i] != a.groups[j]
      modifies this
      ensures Adds(old(counts), counts, a, excluded, |a.groups|)
    {
      hide Adds;
      ghost var before := counts;
      var j := 0;
      AddsNothing(before, a, excluded);
      while j < |a.groups|
        invariant 0 <= j <= |a.groups|
        invariant Adds(before, counts, a, excluded, j)
      {
        var g := a.groups[j];
        ghost var earlier := counts;
        if g !in counts {
          counts := counts[g := 0];
        }
        if a.id !in excluded && Usable(a) {
          counts := counts[g := counts[g] + 1];
        }
        AddsOne(before, earlier, counts, a, excluded, j);
        j := j + 1;
      }
    }

    method CanDisable(account: Account) returns (ok: bool)
      ensures ok <==> account.groups != [] && forall g | g in account.groups :: Spares(g, account)
    {
      if account.groups == [] {
        return false;
      }
      var j := 0;
      while j < |account.groups|
        invariant 0 <= j <= |account.groups|
        invariant forall k | 0 <= k < j :: Spares(account.groups[k], account)
      {
        if !Spares(account.groups[j], account) {
          return false;
        }
        j := j + 1;
      }
      ok := true;
    }

    /** The groups that stand in the way; none exactly when every group spares the account. */
    method BlockingGroupIds(account: Account) returns (blocking: seq<Group>)
      ensures forall g :: g in blocking <==> (g in account.groups && !Spares(g, account))
    {
      blocking := [];
      var j := 0;
      while j < |account.groups|
        invariant 0 <= j <= |account.groups|
        invariant forall g :: g in blocking <==> (g in account.groups[..j] && !Spares(g, account))
      {
        assert account.groups[..j + 1] == account.groups[..j] + [account.groups[j]];
        if !Spares(account.groups[j], account) {
          blocking := blocking + [account.groups[j]];
        }
        j := j + 1;
      }
      assert account.groups[..j] == account.groups;
    }
  }

  lemma NobodyServes(accounts: seq<Account>, excluded: set<Id>, g: Group)
    requires !Known(accounts, g)
    ensures UsableIds(accounts, excluded, g) == {}
  {
  }

  // ----- What the counts mean -----

  /** The account as the run remembers it after disabling it. */
  function ClosedAs(a: Account): Account {
    a.(bucket := Closed, status := Inactive, schedulable := false)
  }

  function Close(accounts: seq<Account>, id: Id): (closed: seq<Account>)
    ensures |closed| == |accounts|
  {
    seq(|accounts|, i requires 0 <= i < |accounts| =>
      if accounts[i].id == id then ClosedAs(accounts[i]) else accounts[i])
  }

  /** The true number left: an account that is not excluded yet takes exactly its own
      decrement away from each of its groups, whether it is excluded or closed. */
  lemma CountAfterExclusion(accounts: seq<Account>, excluded: set<Id>, a: Account, g: Group)
    requires Snapshot(accounts) && a in accounts && a.id !in excluded && g in a.groups
    ensures |UsableIds(accounts, excluded + {a.id}, g)|
         == |UsableIds(accounts, excluded, g)| - Decrement(a)
  {
    var before, after := UsableIds(accounts, excluded, g), UsableIds(accounts, excluded + {a.id}, g);
    forall id ensures id in after <==> id in before && id != a.id {
      if id in before && id != a.id {
        var b :| b in accounts && Counts(b, excluded, g) && b.id == id;
        assert Counts(b, excluded + {a.id}, g);
      }
      if id in after {
        var b :| b in accounts && Counts(b, excluded + {a.id}, g) && b.id == id;
        assert Counts(b, excluded, g);
      }
    }
    assert after == before - {a.id};
    if a.id in before {
      var b :| b in accounts && Counts(b, excluded, g) && b.id == a.id;
      SameAccount(accounts, a, b);
    }
    if Usable(a) { assert Counts(a, excluded, g); }
  }

  lemma SameAccount(accounts: seq<Account>, a: Account, b: Account)
    requires Snapshot(accounts) && a in accounts && b in accounts && a.id == b.id
    ensures a == b
  {
    var i :| 0 <= i < |accounts| && accounts[i] == a;
    var j :| 0 <= j < |accounts| && accounts[j] == b;
  }

  lemma CloseExcludes(accounts: seq<Account>, excluded: set<Id>, id: Id, g: Group)
    requires Snapshot(accounts)
    ensures Snapshot(Close(accounts, id))
    ensures UsableIds(Close(accounts, id), excluded, g) == UsableIds(accounts, excluded + {id}, g)
  {
    var closed := Close(accounts, id);
    forall a | a in closed ensures forall i, j | 0 <= i < j < |a.groups| :: a.groups[i] != a.groups[j] {
      var k :| 0 <= k < |closed| && closed[k] == a;
      assert accounts[k] in accounts;
    }
    forall x ensures x in UsableIds(closed, excluded, g) <==> x in UsableIds(accounts, excluded + {id}, g) {
      if x in UsableIds(closed, excluded, g) {
        var a :| a in closed && Counts(a, excluded, g) && a.id == x;
        var k :| 0 <= k < |closed| && closed[k] == a;
        assert accounts[k] in accounts && Counts(accounts[k], excluded + {id}, g);
      }
      if x in UsableIds(accounts, excluded + {id}, g) {
        var a :| a in accounts && Counts(a, excluded + {id}, g) && a.id == x;
        var k :| 0 <= k < |accounts| && accounts[k] == a;
        assert closed[k] == a && closed[k] in closed;
      }
    }
  }

  /** A closed account is inactive and unscheduled in the remembered view; nothing else changes there. */
  lemma CloseMeans(accounts: seq<Account>, id: Id, i: nat)
    requires i < |accounts|
    ensures var a, b := accounts[i], Close(accounts, id)[i];
            && a.id == b.id && a.groups == b.groups && a.expired == b.expired && a.oauth == b.oauth
            && (a.id != id ==> a == b)
            && (a.id == id ==> b.bucket == Closed && b.status == Inactive && !b.schedulable)
  {
  }
}
