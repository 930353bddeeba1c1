/** Which accounts of a snapshot a recovery run may test, and which it may write. */
module RecoverySelection {
  import opened Common
  import opened AccountOperations

  datatype Classification = Barred | Paused | UpstreamError | Quarantined | TurnedOff | Available

  datatype Decision = Decision(account: Account, classification: Classification, selected: bool, writeback: bool)

  datatype Selection = Selection(decisions: seq<Decision>, blocked: bool)

  function Classify(a: Account, quarantined: set<nat>): Classification {
    if a.oauth || a.expired then Barred
    else if a.status.InService? && !a.schedulable then (if a.automatic then UpstreamError else Paused)
    else if a.id in quarantined then Quarantined
    else if a.status.Errored? then UpstreamError
    else if !a.status.InService? then TurnedOff
    else if a.temporary then Barred
    else Available
  }

  function ScopeGroup(trigger: Trigger): Option<nat> {
    match trigger
    case ChannelError(_, group) => Some(group)
    case Manual(group) => group
    case BadState => None
    case HourlyCheck => None
  }

  predicate InScope(trigger: Trigger, a: Account) {
    ScopeGroup(trigger).Some? ==> ScopeGroup(trigger).value in a.groups
  }

  function Choose(a: Account, trigger: Trigger, monitored: set<nat>, quarantined: set<nat>,
          processed: set<nat>): Decision {
    var c := Classify(a, quarantined);
    var scoped := ScopeGroup(trigger).Some?;
    var watched := a.groups * monitored != {};
    var writeback := watched && (scoped || a.groups <= monitored) && !c.Paused? && !c.Barred?;
    var selected :=
      if !watched || a.id in processed || c.Paused? || c.Barred? then false
      else if trigger.HourlyCheck? then (c.Available? || (c.UpstreamError? && a.automatic)) && writeback
      else if scoped then true
      else c.UpstreamError? || c.TurnedOff? || c.Quarantined?;
    Decision(a, c, selected, writeback)
  }

  function ChooseAll(accounts: seq<Account>, trigger: Trigger, monitored: set<nat>, quarantined: set<nat>,
          processed: set<nat>): seq<Decision> {
    if accounts == [] then []
    else
      (if InScope(trigger, accounts[0]) then [Choose(accounts[0], trigger, monitored, quarantined, processed)] else [])
      + ChooseAll(accounts[1..], trigger, monitored, quarantined, processed)
  }

  function Deselected(decisions: seq<Decision>): seq<Decision> {
    if decisions == [] then [] else [decisions[0].(selected := false)] + Deselected(decisions[1..])
  }

  predicate DistinctIds(accounts: seq<Account>) {
    forall i, j | 0 <= i < j < |accounts| :: accounts[i].id != accounts[j].id
  }

  function Select(accounts: seq<Account>, trigger: Trigger, maxAccounts: nat, monitored: set<nat>,
          quarantined: set<nat>, processed: set<nat>): Option<Selection> {
    if !DistinctIds(accounts) then None
    else
      var decisions := ChooseAll(accounts, trigger, monitored, quarantined, processed);
      if ScopeGroup(trigger).Some? && |decisions| > maxAccounts then Some(Selection(Deselected(decisions), true))
      else Some(Selection(decisions, false))
  }

  function Chosen(decisions: seq<Decision>): seq<Decision> {
    if decisions == [] then [] else (if decisions[0].selected then [decisions[0]] else []) + Chosen(decisions[1..])
  }

  // ----- What a selection means, in terms of the accounts alone -----

  predicate AutomaticPause(a: Account) { a.status.InService? && !a.schedulable && a.automatic }

  /** Not an OAuth account, not expired, not paused by hand, and not merely rate limited. */
  predicate MayBeTested(a: Account, quarantined: set<nat>) {
    && !a.oauth && !a.expired && !ManualPause(a)
    && !(a.status.InService? && a.schedulable && a.temporary && a.id !in quarantined)
  }

  predicate Abnormal(a: Account, quarantined: set<nat>) {
    NotInService(a) || AutomaticPause(a) || a.id in quarantined
  }

  predicate Wanted(a: Account, trigger: Trigger, monitored: set<nat>, quarantined: set<nat>) {
    if trigger.HourlyCheck? then
      && a.groups <= monitored
      && (AutomaticPause(a) || (a.status.InService? && a.id !in quarantined)
          || (a.status.Errored? && a.automatic && a.id !in quarantined))
    else if ScopeGroup(trigger).Some? then true
    else Abnormal(a, quarantined)
  }

  /** One account is selected exactly when it may be tested, belongs to a monitored group, was not
      processed before, and the trigger wants it; it is written back only if a monitored group
      holds it and, outside a group run, no other group does. */
  lemma ChooseMeans(a: Account, trigger: Trigger, monitored: set<nat>, quarantined: set<nat>, processed: set<nat>)
    ensures var d := Choose(a, trigger, monitored, quarantined, processed);
            && (d.selected <==> MayBeTested(a, quarantined) && a.groups * monitored != {} && a.id !in processed
                                && Wanted(a, trigger, monitored, quarantined))
            && (d.writeback <==> MayBeTested(a, quarantined) && a.groups * monitored != {}
                                 && (ScopeGroup(trigger).Some? || a.groups <= monitored))
            && d.account == a
  {
  }

  /** Each classification on its own. */
  lemma ClassifyMeans(a: Account, quarantined: set<nat>)
    ensures var c := Classify(a, quarantined);
            var operable := !a.oauth && !a.expired;
            var paused := a.status.InService? && !a.schedulable;
            var held := operable && !paused && a.id in quarantined;
            && (c.Paused? <==> operable && paused && !a.automatic)
            && (c.UpstreamError? <==> operable && !held && (a.status.Errored? || (paused && a.automatic)))
            && (c.Quarantined? <==> held)
            && (c.TurnedOff? <==> operable && !held && !a.status.InService? && !a.status.Errored?)
            && (c.Available? <==> operable && !held && a.status.InService? && a.schedulable && !a.temporary)
  {
  }

  lemma {:induction false} ChosenFrom(decisions: seq<Decision>, d: Decision)
    requires d in Chosen(decisions)
    ensures d in decisions && d.selected
  {
    if !(decisions[0].selected && d == decisions[0]) {
      ChosenFrom(decisions[1..], d);
    }
  }

  lemma ChosenAfter(d: Decision, rest: seq<Decision>)
    ensures Chosen([d] + rest) == (if d.selected then [d] else []) + Chosen(rest)
  {
    assert ([d] + rest)[1..] == rest;
  }

  lemma {:induction false} DeselectedChoosesNone(decisions: seq<Decision>)
    ensures Chosen(Deselected(decisions)) == []
  {
    if decisions != [] {
      DeselectedChoosesNone(decisions[1..]);
    }
  }

  lemma {:induction false} ChooseAllFrom(accounts: seq<Account>, trigger: Trigger, monitored: set<nat>,
          quarantined: set<nat>, processed: set<nat>, d: Decision)
    requires d in ChooseAll(accounts, trigger, monitored, quarantined, processed)
    ensures d.account in accounts && InScope(trigger, d.account)
    ensures d == Choose(d.account, trigger, monitored, quarantined, processed)
  {
    if !(InScope(trigger, accounts[0]) && d == Choose(accounts[0], trigger, monitored, quarantined, processed)) {
      ChooseAllFrom(accounts[1..], trigger, monitored, quarantined, processed, d);
    }
  }

  /** Every chosen account may be tested and was not processed before; a manual pause, an expired
      account and an OAuth account are never chosen, by any trigger. */
  lemma ChosenMayBeTested(accounts: seq<Account>, trigger: Trigger, monitored: set<nat>, quarantined: set<nat>,
          processed: set<nat>, d: Decision)
    requires d in Chosen(ChooseAll(accounts, trigger, monitored, quarantined, processed))
    ensures d.account in accounts && InScope(trigger, d.account)
    ensures MayBeTested(d.account, quarantined) && d.account.id !in processed && d.account.groups * monitored != {}
    ensures !d.account.oauth && !d.account.expired && !ManualPause(d.account)
    ensures d.writeback <==> ScopeGroup(trigger).Some? || d.account.groups <= monitored
  {
    ChosenFrom(ChooseAll(accounts, trigger, monitored, quarantined, processed), d);
    ChooseAllFrom(accounts, trigger, monitored, quarantined, processed, d);
    ChooseMeans(d.account, trigger, monitored, quarantined, processed);
  }

  /** And every account that meets those conditions is chosen. */
  lemma {:induction false} WantedIsChosen(accounts: seq<Account>, trigger: Trigger, monitored: set<nat>,
          quarantined: set<nat>, processed: set<nat>, a: Account)
    requires a in accounts && InScope(trigger, a) && MayBeTested(a, quarantined) && a.groups * monitored != {}
    requires a.id !in processed && Wanted(a, trigger, monitored, quarantined)
    ensures Choose(a, trigger, monitored, quarantined, processed)
         in Chosen(ChooseAll(accounts, trigger, monitored, quarantined, processed))
  {
    ChooseMeans(a, trigger, monitored, quarantined, processed);
    var rest := ChooseAll(accounts[1..], trigger, monitored, quarantined, processed);
    ChosenAfter(Choose(accounts[0], trigger, monitored, quarantined, processed), rest);
    assert [] + rest == rest;
    if accounts[0] != a {
      WantedIsChosen(accounts[1..], trigger, monitored, quarantined, processed, a);
    }
  }

  predicate DistinctChoices(todo: seq<Decision>) {
    forall i, j | 0 <= i < j < |todo| :: todo[i].account.id != todo[j].account.id
  }

  lemma EmptyDistinct()
    ensures DistinctChoices([])
  {
  }

  lemma ChooseKeepsAccount(a: Account, trigger: Trigger, monitored: set<nat>, quarantined: set<nat>,
          processed: set<nat>)
    ensures Choose(a, trigger, monitored, quarantined, processed).account == a
  {
  }

  lemma DistinctPrepend(d: Decision, todo: seq<Decision>)
    requires DistinctChoices(todo) && forall e | e in todo :: e.account.id != d.account.id
    ensures DistinctChoices([d] + todo)
  {
    var all := [d] + todo;
    forall i, j | 0 <= i < j < |all| ensures all[i].account.id != all[j].account.id {
      assert all[j] == todo[j - 1] && todo[j - 1] in todo;
    }
  }

  lemma {:induction false} ChosenDistinct(accounts: seq<Account>, trigger: Trigger, monitored: set<nat>,
          quarantined: set<nat>, processed: set<nat>)
    requires DistinctIds(accounts)
    ensures DistinctChoices(Chosen(ChooseAll(accounts, trigger, monitored, quarantined, processed)))
  {
    hide Choose, DistinctChoices;
    if accounts == [] {
      EmptyDistinct();
    } else {
      var first := Choose(accounts[0], trigger, monitored, quarantined, processed);
      var rest := ChooseAll(accounts[1..], trigger, monitored, quarantined, processed);
      ChosenDistinct(accounts[1..], trigger, monitored, quarantined, processed);
      ChooseKeepsAccount(accounts[0], trigger, monitored, quarantined, processed);
      forall d | d in Chosen(rest) ensures d.account.id != accounts[0].id {
        ChosenMayBeTested(accounts[1..], trigger, monitored, quarantined, processed, d);
      }
      DistinctPrepend(first, Chosen(rest));
      ChosenAfter(first, rest);
      assert [] + rest == rest && [] + Chosen(rest) == Chosen(rest);
    }
  }
}
