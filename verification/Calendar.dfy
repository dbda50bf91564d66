/** Calendar months over day numbers, as Python's `date` counts them: day 1 is 1 January of year 1. */
module Calendar {

  datatype Month = Month(year: int, month: int)

  predicate Proper(m: Month) { m.year >= 1 && 1 <= m.month <= 12 }

  predicate Leap(year: int) { year % 4 == 0 && (year % 100 != 0 || year % 400 == 0) }

  const DAYS_BEFORE := [0, 31, 59, 90, 120, 151, 181, 212, 243, 273, 304, 334]
  const DAYS_IN := [31, 28, 31, 30, 31, 30, 31, 31, 30, 31, 30, 31]

  function DaysBeforeYear(year: int): int {
    (year - 1) * 365 + (year - 1) / 4 - (year - 1) / 100 + (year - 1) / 400
  }

  /** `date(year, month, 1)` */
  function FirstDay(m: Month): int
    requires Proper(m)
  {
    DaysBeforeYear(m.year) + DAYS_BEFORE[m.month - 1] + (if m.month > 2 && Leap(m.year) then 1 else 0) + 1
  }

  /** `calendar.monthrange(year, month)[1]` */
  function Length(m: Month): int
    requires Proper(m)
  {
    DAYS_IN[m.month - 1] + if m.month == 2 && Leap(m.year) then 1 else 0
  }

  function NextMonth(m: Month): Month {
    if m.month == 12 then Month(m.year + 1, 1) else Month(m.year, m.month + 1)
  }

  /** `_month_bounds`: up to the day before the next month's first. */
  function LastDay(m: Month): int
    requires Proper(m)
  {
    FirstDay(NextMonth(m)) - 1
  }

  lemma OneYearOn(year: int)
    ensures year / 4 - (year - 1) / 4 == if year % 4 == 0 then 1 else 0
    ensures year / 100 - (year - 1) / 100 == if year % 100 == 0 then 1 else 0
    ensures year / 400 - (year - 1) / 400 == if year % 400 == 0 then 1 else 0
  {
  }

  lemma FourHundreds(year: int)
    requires year % 400 == 0
    ensures year % 100 == 0
  {
    assert year == 400 * (year / 400);
  }

  lemma Hundreds(year: int)
    requires year % 100 == 0
    ensures year % 4 == 0
  {
    assert year == 100 * (year / 100);
  }

  lemma YearLength(year: int)
    ensures DaysBeforeYear(year + 1) == DaysBeforeYear(year) + 365 + if Leap(year) then 1 else 0
  {
    OneYearOn(year);
    if year % 400 == 0 { FourHundreds(year); }
    if year % 100 == 0 { Hundreds(year); }
  }

  /** The last day by the month's bounds is the one by its length: the rollup's test of a month's age and
      the rows it then moves go by the same days. */
  lemma BoundsMatchLength(m: Month)
    requires Proper(m)
    ensures LastDay(m) == FirstDay(m) + Length(m) - 1
    ensures FirstDay(m) < LastDay(m)
  {
    hide DaysBeforeYear, Leap;
    if m.month == 12 { YearLength(m.year); }
  }

  lemma FourHundredOn(y: int)
    ensures (y + 400) / 4 == y / 4 + 100 && (y + 400) % 4 == y % 4
  {
  }

  lemma FourHundredOn100(y: int)
    ensures (y + 400) / 100 == y / 100 + 4 && (y + 400) % 100 == y % 100
  {
  }

  lemma FourHundredOn400(y: int)
    ensures (y + 400) / 400 == y / 400 + 1 && (y + 400) % 400 == y % 400
  {
  }

  /** The same days come again after 400 years. */
  lemma FourHundredYears(m: Month)
    requires Proper(m)
    ensures FirstDay(Month(m.year + 400, m.month)) == FirstDay(m) + 146097
  {
    FourHundredOn(m.year);
    FourHundredOn100(m.year);
    FourHundredOn400(m.year);
    FourHundredOn(m.year - 1);
    FourHundredOn100(m.year - 1);
    FourHundredOn400(m.year - 1);
  }

  /** The Gregorian calendar: the lengths of the months, one after another from 1 January of year 1. */
  lemma Gregorian(m: Month)
    requires Proper(m)
    ensures Length(m) ==
      if m.month in {4, 6, 9, 11} then 30
      else if m.month != 2 then 31
      else if m.year % 400 == 0 || (m.year % 4 == 0 && m.year % 100 != 0) then 29
      else 28
    ensures FirstDay(Month(1, 1)) == 1
    ensures FirstDay(if m.month < 12 then Month(m.year, m.month + 1) else Month(m.year + 1, 1)) == LastDay(m) + 1
    ensures LastDay(m) == FirstDay(m) + Length(m) - 1
  {
    LengthIs(m);
    BoundsMatchLength(m);
  }

  lemma LengthIs(m: Month)
    requires Proper(m)
    ensures Length(m) ==
      if m.month in {4, 6, 9, 11} then 30
      else if m.month != 2 then 31
      else if m.year % 400 == 0 || (m.year % 4 == 0 && m.year % 100 != 0) then 29
      else 28
  {
    if m.year % 400 == 0 {
      FourHundreds(m.year);
      Hundreds(m.year);
    }
  }

  predicate Within(m: Month, day: int)
    requires Proper(m)
  {
    FirstDay(m) <= day <= LastDay(m)
  }

  // ----- which month a day is in ---------------------------------------------------------

  function Serial(m: Month): int { m.year * 12 + m.month }

  lemma {:induction false} LaterMonthStartsLater(a: Month, b: Month)
    requires Proper(a) && Proper(b) && Serial(a) < Serial(b)
    ensures LastDay(a) < FirstDay(b)
    decreases Serial(b) - Serial(a)
  {
    var n := NextMonth(a);
    if Serial(n) < Serial(b) {
      LaterMonthStartsLater(n, b);
      BoundsMatchLength(n);
    } else {
      assert n == b;
    }
  }

  /** Months do not overlap. */
  lemma OneMonth(a: Month, b: Month, day: int)
    requires Proper(a) && Proper(b) && Within(a, day) && Within(b, day)
    ensures a == b
  {
    hide FirstDay;
    if Serial(a) < Serial(b) { LaterMonthStartsLater(a, b); }
    if Serial(b) < Serial(a) { LaterMonthStartsLater(b, a); }
  }

  function SearchMonth(m: Month, day: int): (found: Month)
    requires Proper(m) && FirstDay(m) <= day
    ensures Proper(found) && Within(found, day)
    decreases day - FirstDay(m)
  {
    if day <= LastDay(m) then m else
      BoundsMatchLength(m);
      SearchMonth(NextMonth(m), day)
  }

  /** The (year, month) of a stored date; days are counted from 1. */
  function MonthOf(day: int): (m: Month)
    ensures Proper(m) && (day >= 1 ==> Within(m, day))
  {
    if day >= 1 then SearchMonth(Month(1, 1), day) else Month(1, 1)
  }

  /** A stored date is in a month exactly when it is between the month's bounds. */
  lemma MonthOfIff(day: int, m: Month)
    requires day >= 1 && Proper(m)
    ensures MonthOf(day) == m <==> Within(m, day)
  {
    if Within(m, day) { OneMonth(MonthOf(day), m, day); }
  }
}
