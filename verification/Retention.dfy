/** What usage the database keeps, and where: daily rows move to the monthly table once their month has
    aged, hourly rows go after two days. Every reader's window must still find all that was recorded. */
module Retention {
  import opened Calendar
  import opened Sums
  import opened UsageBuffer

  const KEPT_DAYS := 30

  datatype MonthKey = MonthKey(month: Month, userId: int, model: string, server: string, poolId: int)

  function MonthKeyOf(k: DayKey): MonthKey { MonthKey(MonthOf(k.date), k.userId, k.model, k.server, k.poolId) }

  function DayOfHour(k: HourKey): DayKey { DayKey(k.date, k.userId, k.model, k.server, k.poolId) }

  predicate MonthMatches(axis: Axis, k: MonthKey) { OnAxis(axis, k.userId, k.model, k.poolId) }

  /** The rollup's test of a month's age. */
  predicate Aged(today: int, m: Month)
    requires Proper(m)
  {
    FirstDay(m) + Length(m) - 1 < today - KEPT_DAYS
  }

  /** `recorded` is the history the tables are checked against: requests flushed and not purged. */
  datatype State = State(
    today: int,
    hourly: map<HourKey, int>,
    daily: map<DayKey, int>,
    monthly: map<MonthKey, int>,
    recorded: map<DayKey, int>)

  datatype Event =
    | Days(n: nat)
    | Flush(snapshot: Buffer)
    | Prune
    | Rollup(months: set<Month>)        // those it got through; it commits month by month
    | Purge(axis: Axis)

  predicate Enabled(s: State, e: Event) {
    e.Rollup? ==> forall m | m in e.months :: Proper(m) && Aged(s.today, m)
  }

  function InMonths(ms: set<Month>): DayKey -> bool { (k: DayKey) => MonthOf(k.date) in ms }
  function NotInMonths(ms: set<Month>): DayKey -> bool { (k: DayKey) => MonthOf(k.date) !in ms }
  function SinceYesterday(today: int): HourKey -> bool { (k: HourKey) => k.date >= today - 1 }
  function HourOff(axis: Axis): HourKey -> bool { (k: HourKey) => !HourMatches(axis, k) }
  function DayOff(axis: Axis): DayKey -> bool { (k: DayKey) => !DayMatches(axis, k) }
  function MonthOff(axis: Axis): MonthKey -> bool { (k: MonthKey) => !MonthMatches(axis, k) }

  /** What rolling up some months leaves, up to monthly rows that are absent or 0. */
  ghost predicate IsRolledUp(daily: map<DayKey, int>, monthly: map<MonthKey, int>, ms: set<Month>,
                             daily': map<DayKey, int>, monthly': map<MonthKey, int>) {
    && daily' == Only(daily, NotInMonths(ms))
    && forall k :: At(monthly', k) == At(monthly, k) + Group(Only(daily, InMonths(ms)), MonthKeyOf, k)
  }

  ghost predicate IsStep(s: State, e: Event, s': State) {
    && Enabled(s, e)
    && match e
       case Days(n) => s' == s.(today := s.today + n)
       case Flush(b) =>
         s' == s.(hourly := Plus(s.hourly, Collapse(b, HourOf)), daily := Plus(s.daily, Collapse(b, DayOf)),
                  recorded := Plus(s.recorded, Collapse(b, DayOf)))
       case Prune => s' == s.(hourly := Only(s.hourly, SinceYesterday(s.today)))
       case Rollup(ms) =>
         s' == s.(daily := s'.daily, monthly := s'.monthly) && IsRolledUp(s.daily, s.monthly, ms, s'.daily, s'.monthly)
       case Purge(axis) =>
         s' == s.(hourly := Only(s.hourly, HourOff(axis)), daily := Only(s.daily, DayOff(axis)),
                  monthly := Only(s.monthly, MonthOff(axis)), recorded := Only(s.recorded, DayOff(axis)))
  }

  // ----- the invariant -----------------------------------------------------------------

  /** The last thirty days and today are in the daily table alone. */
  ghost predicate DailyHasRecent(s: State) {
    forall k: DayKey | k.date >= s.today - KEPT_DAYS :: At(s.daily, k) == At(s.recorded, k)
  }

  /** Daily and monthly together hold everything, each request in one of them. */
  ghost predicate NothingLost(s: State) {
    forall k :: At(s.monthly, k) + Group(s.daily, MonthKeyOf, k) == Group(s.recorded, MonthKeyOf, k)
  }

  /** Since yesterday, a day's hours add up to its daily row. */
  ghost predicate HoursAddUp(s: State) {
    forall k: DayKey | k.date >= s.today - 1 :: Group(s.hourly, DayOfHour, k) == At(s.daily, k)
  }

  ghost predicate Inv(s: State) { DailyHasRecent(s) && NothingLost(s) && HoursAddUp(s) }

  function Start(today: int): State { State(today, map[], map[], map[], map[]) }

  // ----- each step keeps it ----------------------------------------------------------------

  /** No row dated today - 30 or later is in an aged month. */
  lemma RecentIsNotAged(today: int, day: int)
    requires day >= today - KEPT_DAYS
    ensures !Aged(today, MonthOf(day))
  {
    BoundsMatchLength(MonthOf(day));
    FirstMonth(day);
  }

  lemma FirstMonth(day: int)
    ensures day <= LastDay(MonthOf(day))
  {
    hide SearchMonth;
    if day < 1 { assert MonthOf(day) == Month(1, 1); }
  }

  /** Thirty days is as much as is kept: a day one older is in an aged month when it ends one. */
  lemma OlderDayMayBeAged(m: Month)
    requires Proper(m) && FirstDay(m) >= 1
    ensures MonthOf(LastDay(m)) == m && Aged(LastDay(m) + KEPT_DAYS + 1, m)
  {
    BoundsMatchLength(m);
    MonthOfIff(LastDay(m), m);
  }

  lemma PlusGroup<K(!new), G>(m: map<K, int>, p: map<K, int>, f: K -> G, g: G)
    ensures Group(Plus(m, p), f, g) == Group(m, f, g) + Group(p, f, g)
  {
    hide Sum, Group;
    GroupPlus(Plus(m, p), m, 1, p, f, g);
  }

  lemma SplitGroup<K(!new), G>(m: map<K, int>, p: K -> bool, q: K -> bool, f: K -> G, g: G)
    requires forall k :: q(k) == !p(k)
    ensures Group(m, f, g) == Group(Only(m, p), f, g) + Group(Only(m, q), f, g)
  {
    hide Sum, Group;
    GroupPlus(m, Only(m, p), 1, Only(m, q), f, g);
  }

  lemma FlushKeeps(s: State, b: Buffer, s': State)
    requires Inv(s) && IsStep(s, Flush(b), s')
    ensures Inv(s')
  {
    hide Sum, Group, Collapse, NothingLost, HoursAddUp;
    forall k: DayKey
      ensures Group(s'.hourly, DayOfHour, k) - At(s'.daily, k) == Group(s.hourly, DayOfHour, k) - At(s.daily, k)
    {
      PlusGroup(s.hourly, Collapse(b, HourOf), DayOfHour, k);
      CollapseTwice(b, HourOf, DayOfHour, DayOf, k);
      CollapseAt(b, DayOf, k);
    }
    HoursFollow(s, s');
    forall k
      ensures Group(s'.daily, MonthKeyOf, k) - Group(s.daily, MonthKeyOf, k)
        == Group(s'.recorded, MonthKeyOf, k) - Group(s.recorded, MonthKeyOf, k)
    {
      PlusGroup(s.daily, Collapse(b, DayOf), MonthKeyOf, k);
      PlusGroup(s.recorded, Collapse(b, DayOf), MonthKeyOf, k);
    }
    LossFollows(s, s');
  }

  lemma HoursFollow(s: State, s': State)
    requires HoursAddUp(s) && s'.today >= s.today
    requires forall k: DayKey | k.date >= s'.today - 1 ::
      Group(s'.hourly, DayOfHour, k) - At(s'.daily, k) == Group(s.hourly, DayOfHour, k) - At(s.daily, k)
    ensures HoursAddUp(s')
  {
    hide Group;
  }

  lemma LossFollows(s: State, s': State)
    requires NothingLost(s) && s'.monthly == s.monthly
    requires forall k ::
      Group(s'.daily, MonthKeyOf, k) - Group(s.daily, MonthKeyOf, k)
        == Group(s'.recorded, MonthKeyOf, k) - Group(s.recorded, MonthKeyOf, k)
    ensures NothingLost(s')
  {
    hide Group;
  }

  lemma PruneKeeps(s: State, s': State)
    requires Inv(s) && IsStep(s, Prune, s')
    ensures Inv(s')
  {
    hide Sum, Group, NothingLost, HoursAddUp;
    forall k: DayKey | k.date >= s.today - 1 ensures Group(s'.hourly, DayOfHour, k) == Group(s.hourly, DayOfHour, k) {
      GroupOnly(s.hourly, SinceYesterday(s.today), DayOfHour, k, true);
    }
    HoursFollow(s, s');
    LossFollows(s, s');
  }

  /** Pruning keeps every hourly total from yesterday on and empties every earlier one; so whatever prunes
      were missed, and whatever was flushed between, the next one leaves what it would have left anyway. */
  lemma PruneKeepsTotals(hourly: map<HourKey, int>, b: Buffer, today: int, later: int, k: DayKey)
    requires today <= later
    ensures var kept := Only(hourly, SinceYesterday(today));
      && Group(kept, DayOfHour, k) == (if k.date >= today - 1 then Group(hourly, DayOfHour, k) else 0)
      && var flushed := Collapse(b, HourOf);
         Only(Plus(kept, flushed), SinceYesterday(later)) == Only(Plus(hourly, flushed), SinceYesterday(later))
  {
    hide Sum, Group, Collapse;
    GroupOnly(hourly, SinceYesterday(today), DayOfHour, k, k.date >= today - 1);
    var kept, flushed := Only(hourly, SinceYesterday(today)), Collapse(b, HourOf);
    assert Only(Plus(kept, flushed), SinceYesterday(later)) == Only(Plus(hourly, flushed), SinceYesterday(later));
  }

  /** A flush adds the snapshot to the hourly and the daily rows; the nightly prune drops the hours before yesterday
      and nothing else; days pass. */
  lemma TablesFill(s: State, e: Event, s': State, h: HourKey, d: DayKey)
    requires IsStep(s, e, s')
    ensures e.Flush? ==>
      && At(s'.hourly, h) == At(s.hourly, h) + Sum(e.snapshot, set u | u in e.snapshot && HourOf(u) == h)
      && At(s'.daily, d) == At(s.daily, d) + Sum(e.snapshot, set u | u in e.snapshot && DayOf(u) == d)
      && At(s'.recorded, d) == At(s.recorded, d) + Sum(e.snapshot, set u | u in e.snapshot && DayOf(u) == d)
      && s'.monthly == s.monthly && s'.today == s.today
    ensures e.Prune? ==>
      && At(s'.hourly, h) == (if h.date >= s.today - 1 then At(s.hourly, h) else 0)
      && s'.daily == s.daily && s'.monthly == s.monthly && s'.today == s.today
    ensures e.Days? ==> s' == s.(today := s.today + e.n)
  {
    hide Sum, Collapse;
    if e.Flush? {
      CollapseAt(e.snapshot, HourOf, h);
      CollapseAt(e.snapshot, DayOf, d);
      assert Fiber(e.snapshot, HourOf, h) == set u | u in e.snapshot && HourOf(u) == h;
      assert Fiber(e.snapshot, DayOf, d) == set u | u in e.snapshot && DayOf(u) == d;
    }
  }

  /** The daily table's requests of one monthly row. */
  ghost function OfMonth(daily: map<DayKey, int>, k: MonthKey): int {
    Sum(daily, set d | d in daily && MonthOf(d.date) == k.month && d.userId == k.userId && d.model == k.model
                       && d.server == k.server && d.poolId == k.poolId)
  }

  lemma MonthGroup(daily: map<DayKey, int>, ms: set<Month>, k: MonthKey)
    ensures Group(Only(daily, InMonths(ms)), MonthKeyOf, k) == if k.month in ms then OfMonth(daily, k) else 0
  {
    hide Sum, MonthOf;
    var moving := Only(daily, InMonths(ms));
    if k.month in ms {
      assert Fiber(moving, MonthKeyOf, k) == set d | d in daily && MonthOf(d.date) == k.month && d.userId == k.userId
        && d.model == k.model && d.server == k.server && d.poolId == k.poolId;
      SumSame(moving, daily, Fiber(moving, MonthKeyOf, k));
    } else {
      assert Fiber(moving, MonthKeyOf, k) == {};
      SumNone(moving);
    }
  }

  /** A rollup empties the daily rows of its months and adds them to the monthly rows they belong to, and touches no
      other. */
  lemma RollupMovesMonths(s: State, ms: set<Month>, s': State, d: DayKey, k: MonthKey)
    requires IsStep(s, Rollup(ms), s')
    ensures At(s'.daily, d) == if MonthOf(d.date) in ms then 0 else At(s.daily, d)
    ensures At(s'.monthly, k) == At(s.monthly, k) + if k.month in ms then OfMonth(s.daily, k) else 0
    ensures s'.hourly == s.hourly && s'.today == s.today && s'.recorded == s.recorded
  {
    hide Sum, Group, MonthOf, OfMonth;
    MonthGroup(s.daily, ms, k);
  }

  /** A month can be rolled up exactly when its last day is more than thirty days ago; all else can happen at any
      time. */
  lemma AgedMonthsMove(s: State, m: Month, e: Event)
    ensures Enabled(s, Rollup({m})) <==> Proper(m) && LastDay(m) < s.today - 30
    ensures !e.Rollup? ==> Enabled(s, e)
  {
    if Proper(m) { BoundsMatchLength(m); }
    assert m in {m};
  }

  /** A purge empties the rows on its axis, in the hourly, daily and monthly table, and leaves every other. */
  lemma PurgeEmptiesTables(s: State, axis: Axis, s': State, h: HourKey, d: DayKey, m: MonthKey)
    requires IsStep(s, Purge(axis), s')
    ensures At(s'.hourly, h) ==
      if axis in {ByUser(h.userId), ByModel(h.model), ByPool(h.poolId)} then 0 else At(s.hourly, h)
    ensures At(s'.daily, d) ==
      if axis in {ByUser(d.userId), ByModel(d.model), ByPool(d.poolId)} then 0 else At(s.daily, d)
    ensures At(s'.monthly, m) ==
      if axis in {ByUser(m.userId), ByModel(m.model), ByPool(m.poolId)} then 0 else At(s.monthly, m)
    ensures At(s'.recorded, d) ==
      if axis in {ByUser(d.userId), ByModel(d.model), ByPool(d.poolId)} then 0 else At(s.recorded, d)
  {
  }

  lemma RollupKeeps(s: State, ms: set<Month>, s': State)
    requires Inv(s) && IsStep(s, Rollup(ms), s')
    ensures Inv(s')
  {
    hide Sum, Group, Aged, MonthOf, HoursAddUp;
    forall k: DayKey | k.date >= s.today - KEPT_DAYS ensures At(s'.daily, k) == At(s.daily, k) {
      RecentIsNotAged(s.today, k.date);
    }
    HoursFollow(s, s');
    forall k
      ensures At(s'.monthly, k) + Group(s'.daily, MonthKeyOf, k) == At(s.monthly, k) + Group(s.daily, MonthKeyOf, k)
    {
      SplitGroup(s.daily, InMonths(ms), NotInMonths(ms), MonthKeyOf, k);
    }
  }

  lemma PurgeKeeps(s: State, axis: Axis, s': State)
    requires Inv(s) && IsStep(s, Purge(axis), s')
    ensures Inv(s')
  {
    hide Sum, Group, MonthOf, OnAxis;
    forall k: DayKey | k.date >= s.today - 1 ensures Group(s'.hourly, DayOfHour, k) == At(s'.daily, k) {
      GroupOnly(s.hourly, HourOff(axis), DayOfHour, k, DayOff(axis)(k));
    }
    forall k ensures At(s'.monthly, k) + Group(s'.daily, MonthKeyOf, k) == Group(s'.recorded, MonthKeyOf, k) {
      GroupOnly(s.daily, DayOff(axis), MonthKeyOf, k, MonthOff(axis)(k));
      GroupOnly(s.recorded, DayOff(axis), MonthKeyOf, k, MonthOff(axis)(k));
    }
  }

  lemma StepKeepsInv(s: State, e: Event, s': State)
    requires Inv(s) && IsStep(s, e, s')
    ensures Inv(s')
  {
    hide Group;
    match e {
      case Days(_) => LossFollows(s, s');
      case Flush(b) => FlushKeeps(s, b, s');
      case Prune => PruneKeeps(s, s');
      case Rollup(ms) => RollupKeeps(s, ms, s');
      case Purge(axis) => PurgeKeeps(s, axis, s');
    }
  }

  /** From empty tables, one event after another, the date never going back. */
  ghost predicate IsRun(states: seq<State>, events: seq<Event>) {
    && |states| == |events| + 1
    && states[0] == Start(states[0].today)
    && forall i | 0 <= i < |events| :: IsStep(states[i], events[i], states[i + 1])
  }

  lemma {:induction false} RunKeepsInv(states: seq<State>, events: seq<Event>, i: nat)
    requires IsRun(states, events) && i < |states|
    ensures Inv(states[i])
  {
    hide Inv, IsStep;
    if i == 0 {
      StartInv(states[0].today);
    } else {
      RunKeepsInv(states, events, i - 1);
      StepKeepsInv(states[i - 1], events[i - 1], states[i]);
    }
  }

  lemma StartInv(today: int)
    ensures Inv(Start(today))
  {
    hide Sum;
    var s := Start(today);
    forall k ensures Group(s.hourly, DayOfHour, k) == 0 {
      assert Fiber(s.hourly, DayOfHour, k) == {};
      SumNone(s.hourly);
    }
    forall k ensures Group(s.daily, MonthKeyOf, k) == 0 {
      assert Fiber(s.daily, MonthKeyOf, k) == {};
      SumNone(s.daily);
    }
  }

  // ----- what readers find ---------------------------------------------------------------------

  ghost function Window(m: map<DayKey, int>, from: int, to: int, who: DayKey -> bool): set<DayKey> {
    set k | k in m && from <= k.date <= to && who(k)
  }

  /** get_usage_report_aggregates for one user, one model or all, `who` says which. */
  ghost function Report(m: map<DayKey, int>, from: int, to: int, who: DayKey -> bool): int {
    Sum(m, Window(m, from, to, who))
  }

  /** A report over any days from thirty days ago on, read from the daily table alone, is of all usage
      recorded in them: after any run of flushes, rollups, prunes and purges. */
  lemma ReportIsExact(states: seq<State>, events: seq<Event>, i: nat, from: int, to: int, who: DayKey -> bool)
    requires IsRun(states, events) && i < |states|
    requires from >= states[i].today - KEPT_DAYS
    ensures Report(states[i].daily, from, to, who) == Report(states[i].recorded, from, to, who)
  {
    hide Sum, IsRun, NothingLost, HoursAddUp;
    RunKeepsInv(states, events, i);
    var daily, recorded := states[i].daily, states[i].recorded;
    var all := Window(daily, from, to, who) + Window(recorded, from, to, who);
    SumSame(daily, recorded, all);
    SumSupport(daily, all, Window(daily, from, to, who));
    SumSupport(recorded, all, Window(recorded, from, to, who));
  }

  /** A month's window reads the daily rows of the month and its monthly rows: between them they have
      each request recorded in it once. */
  lemma MonthWindowIsExact(states: seq<State>, events: seq<Event>, i: nat, k: MonthKey)
    requires IsRun(states, events) && i < |states|
    ensures At(states[i].monthly, k) + Group(states[i].daily, MonthKeyOf, k) == Group(states[i].recorded, MonthKeyOf, k)
  {
    hide Group, IsRun;
    RunKeepsInv(states, events, i);
  }

  /** The chart of today and yesterday reads hourly rows, the table daily ones: they agree. */
  lemma ChartMatchesTable(states: seq<State>, events: seq<Event>, i: nat, k: DayKey)
    requires IsRun(states, events) && i < |states| && k.date >= states[i].today - 1
    ensures Group(states[i].hourly, DayOfHour, k) == At(states[i].daily, k)
  {
    hide Group, IsRun;
    RunKeepsInv(states, events, i);
  }

  ghost function DaysOn(m: map<DayKey, int>, axis: Axis): set<DayKey> { set k | k in m && DayMatches(axis, k) }
  ghost function MonthsOn(m: map<MonthKey, int>, axis: Axis): set<MonthKey> { set k | k in m && MonthMatches(axis, k) }
  ghost function MonthKeys(m: map<DayKey, int>, axis: Axis): set<MonthKey> {
    set k | k in m && DayMatches(axis, k) :: MonthKeyOf(k)
  }

  /** The daily rows under enough month keys are all those on the axis. */
  lemma DaysByMonth(m: map<DayKey, int>, axis: Axis, ks: set<MonthKey>)
    requires MonthKeys(m, axis) <= ks && forall k | k in ks :: MonthMatches(axis, k)
    ensures Sum(map k | k in ks :: Group(m, MonthKeyOf, k), ks) == Sum(m, DaysOn(m, axis))
  {
    hide Sum, Group, MonthOf, OnAxis;
    var totals := map k | k in ks :: Group(m, MonthKeyOf, k);
    GroupsAddUp(m, MonthKeyOf, totals, ks);
    forall k | k in m ensures MonthKeyOf(k) in ks <==> DayMatches(axis, k) {
      assert DayMatches(axis, k) ==> MonthKeyOf(k) in MonthKeys(m, axis);
    }
    assert FiberOver(m, MonthKeyOf, ks) == DaysOn(m, axis);
  }

  /** count_usage_requests, shown before a purge: the daily and monthly rows on an axis add up to every
      request recorded there. */
  lemma PurgeCountIsExact(states: seq<State>, events: seq<Event>, i: nat, axis: Axis)
    requires IsRun(states, events) && i < |states|
    ensures Sum(states[i].daily, DaysOn(states[i].daily, axis))
      + Sum(states[i].monthly, MonthsOn(states[i].monthly, axis))
      == Sum(states[i].recorded, DaysOn(states[i].recorded, axis))
  {
    hide Sum, Group, IsRun, MonthOf, OnAxis;
    RunKeepsInv(states, events, i);
    var s := states[i];
    var ks := MonthKeys(s.daily, axis) + MonthKeys(s.recorded, axis) + MonthsOn(s.monthly, axis);
    DaysByMonth(s.daily, axis, ks);
    DaysByMonth(s.recorded, axis, ks);
    var inDaily := map k | k in ks :: Group(s.daily, MonthKeyOf, k);
    var inAll := map k | k in ks :: Group(s.recorded, MonthKeyOf, k);
    SumPlus(inAll, s.monthly, inDaily, ks);
    SumSupport(s.monthly, ks, MonthsOn(s.monthly, axis));
  }
}
