/** What the documentation of request pools promises, over every run of a day. */
module PoolLaws {
  import opened Sums
  import opened CappedSplit
  import opened Settlement
  import opened SettlementLaws
  import opened PoolRuns

  /** A day that starts with empty tables. */
  ghost function Day(rules: Rules, events: seq<Event>): World
    requires LimitsOk(rules)
  {
    StartInv(rules);
    Run(Start(rules), events)
  }

  lemma DayInv(rules: Rules, events: seq<Event>)
    requires LimitsOk(rules)
    ensures Inv(Day(rules, events))
  {
    StartInv(rules);
    RunKeepsInv(Start(rules), events);
  }

  /** At any moment a settlement's delta is the requests made since each member's own last
      settlement or admission: never something spent before a member arrived. */
  lemma DeltaCountsOnlyOwnInterval(rules: Rules, events: seq<Event>, p: int)
    requires LimitsOk(rules) && p in Day(rules, events).pools
    ensures var w := Day(rules, events);
      && Delta(w.books, p, w.pools[p]) == Sum(NewMap(w, w.pools[p]), Elements(w.pools[p]))
      && Delta(w.books, p, w.pools[p]) >= 0
      && forall u | u in w.pools[p] :: At(w.base, u) + At(w.books.carries, u) == Charged(w.books, p, u)
  {
    hide Sum, Run;
    DayInv(rules, events);
    var w := Day(rules, events);
    DeltaIsNewRequests(w, p);
    forall u | u in w.pools[p] ensures At(w.base, u) + At(w.books.carries, u) == Charged(w.books, p, u) {
      assert Tied(w, p, u);
    }
  }

  /** Right after a settlement, whatever came before, every member's effective use is their
      charge and the pool's used count is the sum of the charges. */
  lemma SettlementBalances(rules: Rules, events: seq<Event>, p: int, dissolving: bool)
    requires LimitsOk(rules) && p in Day(rules, events).pools
    ensures var w := Day(rules, events);
      && NoDuplicates(w.pools[p])
      && var b := Settle(w.books, w.rules, p, w.pools[p], dissolving);
      && Sum(UsedMap(b, w.pools[p]), Elements(w.pools[p])) == Sum(ChargedMap(b, p, w.pools[p]), Elements(w.pools[p]))
      && forall u | u in w.pools[p] :: Max(0, Used(b, u)) == Charged(b, p, u)
  {
    hide Sum, Run, Settle;
    DayInv(rules, events);
    var w := Day(rules, events);
    ChargedEqualsUsed(w.books, w.rules, p, w.pools[p], dissolving);
    SettledInStep(w, p, dissolving);
    forall u | u in w.pools[p]
      ensures Max(0, Used(Settle(w.books, w.rules, p, w.pools[p], dissolving), u))
        == Charged(Settle(w.books, w.rules, p, w.pools[p], dissolving), p, u)
    {
      SettledChargeNotNegative(w, p, dissolving, u);
    }
  }

  // ----- nobody gains quota by moving between pools ---------------------------

  ghost predicate SameLimits(rules: Rules, events: seq<Event>) {
    forall e | e in events && e.ChangeRules? :: e.rules.limits == rules.limits
  }

  /** No member with a limit is charged past it. */
  ghost predicate WithinLimits(w: World) {
    forall p, u | p in w.pools && u in w.pools[p] && u in w.rules.limits :: Charged(w.books, p, u) <= w.rules.limits[u]
  }

  lemma SettledWithinLimits(w: World, p: int, dissolving: bool)
    requires Inv(w) && p in w.pools && WithinLimits(w)
    ensures WithinLimits(Settled(w, p, dissolving))
  {
    hide Sum, Shares, Write, SettleLoss;
    var members, b := w.pools[p], w.books;
    DeltaIsNewRequests(w, p);
    var w' := Settled(w, p, dissolving);
    forall q, u | q in w'.pools && u in w'.pools[q] && u in w'.rules.limits
      ensures Charged(w'.books, q, u) <= w'.rules.limits[u]
    {
      assert Charged(b, q, u) <= w.rules.limits[u];
      SettledUser(b, w.rules, p, members, dissolving, u);
      if q != p {
        SettleLeavesOthersAlone(b, w.rules, p, members, dissolving, u, q);
      } else if !Unlimited(w.rules, members) {
        LimitedCharge(b, w.rules, p, members, dissolving, u);
      } else {
        assert 0 <= At(w.rules.limits, u);
      }
    }
  }

  lemma AdmittedWithinLimits(w: World, p: int, u: int)
    requires Inv(w) && !Pooled(w, u) && WithinLimits(w)
    ensures WithinLimits(Admitted(w, p, u))
  {
    hide Sum, Write, Admit;
    var w' := Admitted(w, p, u);
    assert (p, u) !in w.books.ledger;
    forall q, v | q in w'.pools && v in w'.pools[q] && v in w'.rules.limits
      ensures Charged(w'.books, q, v) <= w'.rules.limits[v]
    {
      AdmissionCharge(w.books, w.rules, p, u, v);
      if q != p {
        AdmissionElsewhere(w.books, w.rules, p, u, q, v);
      }
      if v != u {
        assert q in w.pools && v in w.pools[q];
      }
      assert 0 <= At(w.rules.limits, v);
    }
  }

  lemma StepWithinLimits(w: World, e: Event)
    requires Inv(w) && Enabled(w, e) && WithinLimits(w)
    requires e.ChangeRules? ==> e.rules.limits == w.rules.limits
    ensures WithinLimits(Step(w, e))
    ensures Step(w, e).rules.limits == w.rules.limits
  {
    hide Sum, Settled, Admitted;
    match e {
      case Use(u, n) =>
      case Resettle(p) =>
        SettledWithinLimits(w, p, false);
        SettledPools(w, p, false);
      case Create(p, u) =>
        AdmittedWithinLimits(w, p, u);
        AdmittedRules(w, p, u);
      case Join(p, u) =>
        SettledKeepsInv(w, p, false);
        SettledWithinLimits(w, p, false);
        SettledPools(w, p, false);
        AdmittedWithinLimits(Settled(w, p, false), p, u);
        AdmittedRules(Settled(w, p, false), p, u);
      case Leave(p, u) =>
        SettledWithinLimits(w, p, false);
        SettledPools(w, p, false);
        WithoutIs(w.pools[p], u);
      case Dissolve(p) =>
        SettledWithinLimits(w, p, true);
        SettledPools(w, p, true);
      case ChangeRules(rules) =>
    }
  }

  lemma AdmittedRules(w: World, p: int, u: int)
    ensures Admitted(w, p, u).rules == w.rules
  {
  }

  lemma {:induction false} RunWithinLimits(w: World, events: seq<Event>)
    requires Inv(w) && WithinLimits(w) && SameLimits(w.rules, events)
    ensures WithinLimits(Run(w, events))
    ensures Run(w, events).rules.limits == w.rules.limits
    decreases |events|
  {
    hide Sum, WithinLimits;
    if events != [] {
      if Enabled(w, events[0]) {
        assert events[0] in events;
        StepKeepsInv(w, events[0]);
        StepWithinLimits(w, events[0]);
        RunWithinLimits(Step(w, events[0]), events[1..]);
      } else {
        RunWithinLimits(w, events[1..]);
      }
    }
  }

  /** Pool hopping: through any number of joins, leaves and settlements, and whoever is
      deactivated when, a member with a limit stays charged between 0 and that limit. */
  lemma PoolHoppingBound(rules: Rules, events: seq<Event>, p: int, u: int)
    requires LimitsOk(rules) && SameLimits(rules, events)
    requires p in Day(rules, events).pools && u in Day(rules, events).pools[p] && u in rules.limits
    ensures 0 <= Charged(Day(rules, events).books, p, u) <= rules.limits[u]
  {
    hide Sum, Run;
    DayInv(rules, events);
    StartInv(rules);
    RunWithinLimits(Start(rules), events);
    assert Tied(Day(rules, events), p, u);
  }

  // ----- quota is destroyed, never created -----------------------------------------

  /** No cap or clamp takes effect in this event. */
  ghost predicate NothingBinds(w: World, e: Event)
    requires PoolsOk(w) && Enabled(w, e)
  {
    match e
    case Use(_, _) => true
    case ChangeRules(_) => true
    case Create(_, u) => Excess(w.rules, w.books, u) == 0
    case Join(p, u) => SettleLoss(w.books, w.rules, p, w.pools[p]) == 0
      && Excess(w.rules, Settle(w.books, w.rules, p, w.pools[p], false), u) == 0
    case Resettle(p) => SettleLoss(w.books, w.rules, p, w.pools[p]) == 0
    case Leave(p, _) => SettleLoss(w.books, w.rules, p, w.pools[p]) == 0
    case Dissolve(p) => SettleLoss(w.books, w.rules, p, w.pools[p]) == 0
  }

  ghost predicate NothingEverBinds(w: World, events: seq<Event>)
    requires Inv(w)
    decreases |events|
  {
    events != [] ==>
      if Enabled(w, events[0]) then
        StepKeepsInv(w, events[0]);
        NothingBinds(w, events[0]) && NothingEverBinds(Step(w, events[0]), events[1..])
      else NothingEverBinds(w, events[1..])
  }

  lemma StepDestroys(w: World, e: Event)
    requires Inv(w) && Enabled(w, e)
    ensures Step(w, e).destroyed >= w.destroyed
    ensures Step(w, e).destroyed == w.destroyed <==> NothingBinds(w, e)
  {
    hide Sum, Settle, SettleLoss, Admit;
    match e {
      case Use(u, n) =>
      case Create(p, u) =>
      case ChangeRules(rules) =>
      case Join(p, u) => LossNotNegative(w, p);
      case Resettle(p) => LossNotNegative(w, p);
      case Leave(p, u) => LossNotNegative(w, p);
      case Dissolve(p) => LossNotNegative(w, p);
    }
  }

  lemma {:induction false} RunDestroys(w: World, events: seq<Event>)
    requires Inv(w)
    ensures Run(w, events).destroyed >= w.destroyed
    ensures Run(w, events).destroyed == w.destroyed <==> NothingEverBinds(w, events)
    decreases |events|
  {
    hide Sum, Step, NothingBinds;
    if events != [] {
      if Enabled(w, events[0]) {
        StepKeepsInv(w, events[0]);
        StepDestroys(w, events[0]);
        RunDestroys(Step(w, events[0]), events[1..]);
      } else {
        RunDestroys(w, events[1..]);
      }
    }
  }

  /** All carries together are never positive: settlement invents no usage. Together they are
      exactly the requests wiped off by caps and clamps, so they cancel out if and only if
      nothing ever bound. */
  lemma NoInventedUsage(rules: Rules, events: seq<Event>)
    requires LimitsOk(rules)
    ensures Inv(Start(rules))
    ensures CarryTotal(Day(rules, events).books) <= 0
    ensures CarryTotal(Day(rules, events).books) == 0 <==> NothingEverBinds(Start(rules), events)
  {
    hide Sum, Run, NothingEverBinds;
    DayInv(rules, events);
    StartInv(rules);
    RunDestroys(Start(rules), events);
  }

  // ----- deleting rows under a live pool -------------------------------------------

  /** A purge of one member's rows that another member's new requests cancel out: the skip sees
      nothing to do and leaves both out of step, although the pool's total is right. */
  lemma PurgeCanHideBehindGrowth()
    ensures var b := Books(map[1 := 3, 2 := 7], map[(9, 1) := 5, (9, 2) := 5], map[]);
      var rules := Rules(map[1 := 10, 2 := 10], {});
      && NoDuplicates([1, 2])
      && Settle(b, rules, 9, [1, 2], false) == b
      && Delta(b, 9, [1, 2]) == 0
      && !InStep(b, 9, [1, 2])
      && InStep(Settle(b, rules, 9, [1, 2], true), 9, [1, 2])
  {
    hide Sum, Shares, Settle, Recorded;
    var b := Books(map[1 := 3, 2 := 7], map[(9, 1) := 5, (9, 2) := 5], map[]);
    var rules := Rules(map[1 := 10, 2 := 10], {});
    var members := [1, 2];
    assert Elements(members) == {1, 2};
    assert members[0] == 1 && Used(b, 1) == 3 && Charged(b, 9, 1) == 5;
    assert Used(b, 2) == 7 && Charged(b, 9, 2) == 5;
    SumTwo(UsedMap(b, members), 1, 2);
    SumTwo(ChargedMap(b, 9, members), 1, 2);
    SkipWritesNothing(b, rules, 9, members);
    SettleBringsInStep(b, rules, 9, members, true);
  }

  lemma SkipWritesNothing(b: Books, rules: Rules, pool: int, members: seq<int>)
    requires NoDuplicates(members) && Skips(b, rules, pool, members, false)
    ensures Settle(b, rules, pool, members, false) == b
  {
    hide Sum, Shares, Write;
    RewriteIsNoOp(b, pool, map[]);
  }

  lemma SumTwo(m: map<int, int>, a: int, c: int)
    requires a != c
    ensures Sum(m, {a, c}) == At(m, a) + At(m, c)
  {
    SumPick(m, {a, c}, a);
    assert {a, c} - {a} == {c};
    SumPick(m, {c}, c);
    assert {c} - {c} == {};
    SumNone(m);
  }
}
