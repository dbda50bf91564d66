/** Writing a flushed snapshot: app/request_tracker.py builds one row per buffered key for the
    hourly table and folds them into daily rows; app/auth/database.py writes both in one
    transaction, adding to rows that exist, and later prunes the hourly table and rolls aged months
    of the daily one up into the monthly. */
module UsageTables {
  import opened Sums
  import opened Calendar
  import opened Retention
  import opened UsageBuffer

  datatype HourlyRow = HourlyRow(key: HourKey, count: int)

  /** What a bulk upsert of these rows adds at one key. */
  ghost function Added(rows: seq<HourlyRow>, k: HourKey): int {
    if rows == [] then 0
    else Added(rows[..|rows| - 1], k) + if rows[|rows| - 1].key == k then rows[|rows| - 1].count else 0
  }

  lemma AddedOneMore(rows: seq<HourlyRow>, r: HourlyRow, k: HourKey)
    ensures Added(rows + [r], k) == Added(rows, k) + if r.key == k then r.count else 0
  {
    assert (rows + [r])[..|rows|] == rows;
  }

  lemma AgedMeans(today: int, m: Month)
    requires Proper(m)
    ensures Aged(today, m) <==> LastDay(m) < today - 30
  {
    BoundsMatchLength(m);
  }

  lemma RolledUpMeans(daily: map<DayKey, int>, monthly: map<MonthKey, int>, moved: set<Month>,
                      daily1: map<DayKey, int>, monthly1: map<MonthKey, int>, today: int)
    requires IsRolledUp(daily, monthly, moved, daily1, monthly1) && forall k | k in daily :: k.date >= 1
    requires forall m | m in moved :: Proper(m) && Aged(today, m)
    ensures forall m | m in moved :: LastDay(m) < today - 30
    ensures forall m | m in moved :: forall k: DayKey | k in daily1 :: !(FirstDay(m) <= k.date <= LastDay(m))
    ensures forall k: MonthKey ::
      At(monthly1, k) == At(monthly, k) + if k.month in moved then OfMonth(daily, k) else 0
    ensures (forall k | k in daily1 :: Proper(MonthOf(k.date)) && !Aged(today, MonthOf(k.date))) ==>
      forall k | k in daily1 :: LastDay(MonthOf(k.date)) >= today - 30
  {
    hide Sum, Group, MonthOf, FirstDay, LastDay, OfMonth, Aged;
    forall m | m in moved ensures LastDay(m) < today - 30 {
      AgedMeans(today, m);
    }
    forall m, k: DayKey | m in moved && k in daily1 ensures !(FirstDay(m) <= k.date <= LastDay(m)) {
      WithinBounds(m, k.date);
    }
    forall k: MonthKey
      ensures At(monthly1, k) == At(monthly, k) + if k.month in moved then OfMonth(daily, k) else 0
    {
      MonthGroup(daily, moved, k);
    }
    if forall k | k in daily1 :: Proper(MonthOf(k.date)) && !Aged(today, MonthOf(k.date)) {
      forall k | k in daily1 ensures LastDay(MonthOf(k.date)) >= today - 30 {
        AgedMeans(today, MonthOf(k.date));
      }
    }
  }

  // ----- the rows a snapshot goes to ----------------------------------------------------------

  /** The snapshot's requests of one hourly row, and of one daily row. */
  ghost function OfHour(snapshot: Buffer, k: HourKey): int {
    Sum(snapshot, set u | u in snapshot && u.date == k.date && u.hour == k.hour && u.userId == k.userId
                          && u.model == k.model && u.server == k.server && u.poolId == k.poolId)
  }

  ghost function OfDay(snapshot: Buffer, k: DayKey): int {
    Sum(snapshot, set u | u in snapshot && u.date == k.date && u.userId == k.userId && u.model == k.model
                          && u.server == k.server && u.poolId == k.poolId)
  }

  lemma HourGroup(snapshot: Buffer, k: HourKey)
    ensures Group(snapshot, HourOf, k) == OfHour(snapshot, k)
  {
    hide Sum;
    assert Fiber(snapshot, HourOf, k) == set u | u in snapshot && u.date == k.date && u.hour == k.hour
      && u.userId == k.userId && u.model == k.model && u.server == k.server && u.poolId == k.poolId;
  }

  lemma DayGroup(snapshot: Buffer, k: DayKey)
    ensures Group(snapshot, DayOf, k) == OfDay(snapshot, k) == At(Collapse(snapshot, DayOf), k)
  {
    hide Sum;
    CollapseAt(snapshot, DayOf, k);
    assert Fiber(snapshot, DayOf, k) == set u | u in snapshot && u.date == k.date && u.userId == k.userId
      && u.model == k.model && u.server == k.server && u.poolId == k.poolId;
  }

  /** One hourly row per buffered key, in the dictionary's order. */
  method HourlyRows(snapshot: Buffer) returns (rows: seq<HourlyRow>)
    ensures |rows| == |snapshot|
    ensures forall k :: Added(rows, k) == Group(snapshot, HourOf, k) == OfHour(snapshot, k)
  {
    hide Sum, Added, Group, OfHour;
    var keys := ListKeys(snapshot);
    rows := [];
    NothingSeen(snapshot, HourOf);
    assert forall k :: Added([], k) == 0 by {
      forall k ensures Added([], k) == 0 { AddedNothing(k); }
    }
    assert Seen(keys, 0) == {};
    for i := 0 to |keys|
      invariant |rows| == i && |Seen(keys, i)| == i
      invariant forall k :: Added(rows, k) == SeenGroup(snapshot, HourOf, Seen(keys, i), k)
    {
      SeenNext(keys, i);
      var row := HourlyRow(HourOf(keys[i]), snapshot[keys[i]]);
      forall k ensures Added(rows + [row], k) == SeenGroup(snapshot, HourOf, Seen(keys, i + 1), k) {
        AddedOneMore(rows, row, k);
        SeenGroupNext(snapshot, HourOf, Seen(keys, i), keys[i], k);
      }
      rows := rows + [row];
    }
    SeenAll(keys, snapshot);
    AllSeen(snapshot, HourOf);
    forall k ensures Group(snapshot, HourOf, k) == OfHour(snapshot, k) {
      HourGroup(snapshot, k);
    }
  }

  lemma AddedNothing(k: HourKey)
    ensures Added([], k) == 0
  {
  }

  /** The daily fold: rows that only differ in hour or label become one. */
  method DailyRows(snapshot: Buffer) returns (daily: map<DayKey, int>)
    ensures daily == Collapse(snapshot, DayOf)
    ensures forall k :: At(daily, k) == OfDay(snapshot, k)
  {
    hide Collapse, OfDay;
    daily := FoldBy(snapshot, DayOf);
    forall k ensures At(daily, k) == OfDay(snapshot, k) {
      DayGroup(snapshot, k);
    }
  }

  class Database {
    var hourly: map<HourKey, int>
    var daily: map<DayKey, int>
    var monthly: map<MonthKey, int>

    /** flush_usage_rows: both tables or neither. `fails` is what the transaction met. */
    method FlushUsageRows(hourlyRows: seq<HourlyRow>, dailyRows: map<DayKey, int>, fails: bool)
        returns (committed: bool)
      modifies this`hourly, this`daily
      ensures committed == !fails
      ensures !committed ==> hourly == old(hourly) && daily == old(daily)
      ensures committed ==> daily == Plus(old(daily), dailyRows)
      ensures committed ==> forall k :: At(hourly, k) == At(old(hourly), k) + Added(hourlyRows, k)
    {
      hide Added;
      var newHourly, newDaily := hourly, daily;
      forall k ensures Added(hourlyRows[..0], k) == 0 {
        AddedNothing(k);
      }
      for i := 0 to |hourlyRows|
        invariant hourly == old(hourly) && daily == old(daily)
        invariant forall k :: At(newHourly, k) == At(old(hourly), k) + Added(hourlyRows[..i], k)
      {
        var r := hourlyRows[i];
        assert hourlyRows[..i+1] == hourlyRows[..i] + [r];
        forall k ensures Added(hourlyRows[..i+1], k) == Added(hourlyRows[..i], k) + if r.key == k then r.count else 0 {
          AddedOneMore(hourlyRows[..i], r, k);
        }
        newHourly := newHourly[r.key := At(newHourly, r.key) + r.count];
      }
      assert hourlyRows[..|hourlyRows|] == hourlyRows;
      newDaily := Upsert(newDaily, dailyRows);
      committed := !fails;
      if committed {
        hourly, daily := newHourly, newDaily;
      }
    }

    /** The write half of a flush: on success the snapshot has gone into both tables exactly once,
        on failure into neither. */
    method WriteSnapshot(snapshot: Buffer, fails: bool) returns (committed: bool)
      modifies this`hourly, this`daily
      ensures committed == !fails
      ensures !committed ==> hourly == old(hourly) && daily == old(daily)
      ensures committed ==> daily == Plus(old(daily), Collapse(snapshot, DayOf))
      ensures committed ==> forall k :: At(hourly, k) == At(old(hourly), k) + Group(snapshot, HourOf, k)
      ensures committed ==> forall k :: At(hourly, k) == At(old(hourly), k) + OfHour(snapshot, k)
      ensures committed ==> forall k :: At(daily, k) == At(old(daily), k) + OfDay(snapshot, k)
    {
      hide Group, Collapse, OfHour, OfDay;
      var hourlyRows := HourlyRows(snapshot);
      var dailyRows := DailyRows(snapshot);
      committed := FlushUsageRows(hourlyRows, dailyRows, fails);
    }

    /** prune_hourly_usage: about 48 hours are kept. */
    method PruneHourly(today: int)
      modifies this`hourly
      ensures hourly == Only(old(hourly), SinceYesterday(today))
    {
      var cutoff := today - 1;
      hourly := map k | k in hourly && k.date >= cutoff :: hourly[k];
    }

    /** One month of the rollup: aggregate its daily rows, add them to the monthly table, delete them. */
    method RollUpMonth(month: Month)
      requires Proper(month) && forall k | k in daily :: k.date >= 1
      modifies this`daily, this`monthly
      ensures IsRolledUp(old(daily), old(monthly), {month}, daily, monthly)
      ensures forall k: DayKey :: k in daily <==> k in old(daily) && !(FirstDay(month) <= k.date <= LastDay(month))
      ensures forall k | k in daily :: daily[k] == old(daily)[k]
      ensures forall k: MonthKey ::
        At(monthly, k) == At(old(monthly), k) + if k.month == month then OfMonth(old(daily), k) else 0
    {
      hide Sum, Group, MonthOf, FirstDay, LastDay, OfMonth;
      forall k | k in daily ensures MonthOf(k.date) == month <==> FirstDay(month) <= k.date <= LastDay(month) {
        WithinBounds(month, k.date);
      }
      var inMonth := map k | k in daily && FirstDay(month) <= k.date <= LastDay(month) :: daily[k];
      assert inMonth == Only(daily, InMonths({month}));
      var rows := FoldBy(inMonth, MonthKeyOf);
      forall k ensures At(rows, k) == Group(inMonth, MonthKeyOf, k) {
        CollapseAt(inMonth, MonthKeyOf, k);
      }
      monthly := Upsert(monthly, rows);
      daily := map k | k in daily && !(FirstDay(month) <= k.date <= LastDay(month)) :: daily[k];
      forall k: MonthKey
        ensures Group(inMonth, MonthKeyOf, k) == if k.month == month then OfMonth(old(daily), k) else 0
      {
        MonthGroup(old(daily), {month}, k);
      }
    }

    /** rollup_to_monthly: every month present that has aged, each in a transaction of its own. A failure
        (before month number `failsAt`) leaves the months after it for the next time. */
    method RollupToMonthly(today: int, failsAt: nat) returns (ghost moved: set<Month>)
      requires forall k | k in daily :: k.date >= 1
      modifies this`daily, this`monthly
      ensures IsRolledUp(old(daily), old(monthly), moved, daily, monthly)
      ensures forall m | m in moved :: Proper(m) && LastDay(m) < today - 30
      ensures forall m | m in moved :: forall k: DayKey | k in daily :: !(FirstDay(m) <= k.date <= LastDay(m))
      ensures forall k: MonthKey ::
        At(monthly, k) == At(old(monthly), k) + if k.month in moved then OfMonth(old(daily), k) else 0
      ensures failsAt >= |old(daily)| ==> forall k | k in daily :: LastDay(MonthOf(k.date)) >= today - 30
      ensures forall m | m in moved :: Proper(m) && Aged(today, m)
      ensures failsAt >= |old(daily)| ==> forall k | k in daily :: !Aged(today, MonthOf(k.date))
    {
      hide Sum, Group, MonthOf, FirstDay, LastDay, Aged, IsRolledUp;
      var present := set k | k in daily :: MonthOf(k.date);
      PresentMonths(daily, present);
      var months := ListElements(present);
      ListedOnce(months, present);
      moved := {};
      RolledUpNothing(daily, monthly);
      for i := 0 to |months|
        invariant IsRolledUp(old(daily), old(monthly), moved, daily, monthly)
        invariant moved <= Seen(months, i)
        invariant forall m | m in moved :: Proper(m) && Aged(today, m)
        invariant forall m | m in Seen(months, i) && m !in moved :: Proper(m) && !Aged(today, m)
      {
        SeenNext(months, i);
        var month := months[i];
        assert month in present;
        RolledUpKeys(old(daily), old(monthly), moved, daily, monthly);
        if i == failsAt {
          RolledUpMeans(old(daily), old(monthly), moved, daily, monthly, today);
          return;
        }
        if !Aged(today, month) {
          continue;
        }
        ghost var daily1, monthly1 := daily, monthly;
        RollUpMonth(month);
        RolledUpOneMore(old(daily), old(monthly), moved, daily1, monthly1, month, daily, monthly);
        moved := moved + {month};
      }
      RolledUpKeys(old(daily), old(monthly), moved, daily, monthly);
      SeenIsAll(months, present);
      RolledUpMeans(old(daily), old(monthly), moved, daily, monthly, today);
    }
  }

  lemma WithinBounds(month: Month, day: int)
    requires day >= 1 && Proper(month)
    ensures MonthOf(day) == month <==> FirstDay(month) <= day <= LastDay(month)
  {
    MonthOfIff(day, month);
  }

  lemma PresentMonths(daily: map<DayKey, int>, present: set<Month>)
    requires present == set k | k in daily :: MonthOf(k.date)
    ensures |present| <= |daily|
    ensures forall m | m in present :: Proper(m)
  {
    hide MonthOf;
    ImageIsSmall(daily.Keys, (k: DayKey) => MonthOf(k.date), present);
  }

  lemma {:induction false} ImageIsSmall(ks: set<DayKey>, f: DayKey -> Month, image: set<Month>)
    requires image == set k | k in ks :: f(k)
    ensures |image| <= |ks|
    decreases |ks|
  {
    if ks != {} {
      var k := AnElement(ks);
      var rest := set j | j in ks - {k} :: f(j);
      ImageIsSmall(ks - {k}, f, rest);
      assert image == rest + {f(k)};
    }
  }

  lemma ListedOnce(months: seq<Month>, present: set<Month>)
    requires forall m :: m in months <==> m in present
    requires NoDuplicates(months)
    ensures |months| == |present| && Seen(months, 0) == {}
  {
    ElementsSize(months);
    assert Elements(months) == present;
  }

  lemma SeenIsAll(months: seq<Month>, present: set<Month>)
    requires forall m :: m in months <==> m in present
    ensures Seen(months, |months|) == present
  {
    assert months[..|months|] == months;
  }

  lemma RolledUpNothing(daily: map<DayKey, int>, monthly: map<MonthKey, int>)
    ensures IsRolledUp(daily, monthly, {}, daily, monthly)
  {
    hide Sum;
    assert Only(daily, NotInMonths({})) == daily;
    assert Only(daily, InMonths({})) == map[];
    forall k ensures Group(map[], MonthKeyOf, k) == 0 {
      SumEmptyMap(Fiber(map[], MonthKeyOf, k));
    }
  }

  lemma RolledUpKeys(daily: map<DayKey, int>, monthly: map<MonthKey, int>, ms: set<Month>, daily1: map<DayKey, int>,
                     monthly1: map<MonthKey, int>)
    requires IsRolledUp(daily, monthly, ms, daily1, monthly1)
    ensures forall k :: k in daily1 <==> k in daily && MonthOf(k.date) !in ms
  {
    hide Sum, MonthOf;
  }

  lemma RolledUpOneMore(daily: map<DayKey, int>, monthly: map<MonthKey, int>, ms: set<Month>,
                        daily1: map<DayKey, int>, monthly1: map<MonthKey, int>, m: Month,
                        daily2: map<DayKey, int>, monthly2: map<MonthKey, int>)
    requires IsRolledUp(daily, monthly, ms, daily1, monthly1) && IsRolledUp(daily1, monthly1, {m}, daily2, monthly2)
    requires m !in ms
    ensures IsRolledUp(daily, monthly, ms + {m}, daily2, monthly2)
  {
    hide Sum, Group, MonthOf;
    assert daily2 == Only(daily, NotInMonths(ms + {m}));
    forall k ensures At(monthly2, k) == At(monthly, k) + Group(Only(daily, InMonths(ms + {m})), MonthKeyOf, k) {
      MovedOneMore(daily, ms, m, k);
    }
  }

  lemma MovedOneMore(daily: map<DayKey, int>, ms: set<Month>, m: Month, k: MonthKey)
    requires m !in ms
    ensures Group(Only(daily, InMonths(ms + {m})), MonthKeyOf, k)
      == Group(Only(daily, InMonths(ms)), MonthKeyOf, k)
        + Group(Only(Only(daily, NotInMonths(ms)), InMonths({m})), MonthKeyOf, k)
  {
    hide Sum, Group, MonthOf;
    GroupPlus(Only(daily, InMonths(ms + {m})), Only(daily, InMonths(ms)), 1,
      Only(Only(daily, NotInMonths(ms)), InMonths({m})), MonthKeyOf, k);
  }
}
