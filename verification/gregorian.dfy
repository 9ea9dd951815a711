/** Calendar arithmetic of the month view (XIVE/UI/Calander/CalendarView.swift and
    XIVE/UI/Calander/Calander.swift) on the proleptic Gregorian calendar: month
    lengths, the day list of a month, the first of a month, day and month steps. */
module Gregorian {

  datatype Date = Date(year: int, month: int, day: int)

  /** A month of a year; the month view's `currentMonth` is only ever read for these. */
  datatype YearMonth = YearMonth(year: int, month: int)

  predicate ValidMonth(ym: YearMonth)
  {
    1 <= ym.month <= 12
  }

  /** Every fourth year, except the centuries not divisible by 400. */
  predicate IsLeapYear(year: int): (leap: bool)
    ensures leap ==> year % 4 == 0
    ensures year % 100 == 0 ==> (leap <==> year % 400 == 0)
  {
    (year % 4 == 0 && year % 100 != 0) || year % 400 == 0
  }

  function DaysInMonth(ym: YearMonth): (n: nat)
    requires ValidMonth(ym)
    ensures 28 <= n <= 31
    ensures n == 28 <==> ym.month == 2 && !IsLeapYear(ym.year)
  {
    match ym.month
    case 2 => if IsLeapYear(ym.year) then 29 else 28
    case 4 => 30
    case 6 => 30
    case 9 => 30
    case 11 => 30
    case _ => 31
  }

  predicate ValidDate(d: Date)
  {
    ValidMonth(MonthOf(d)) && 1 <= d.day <= DaysInMonth(MonthOf(d))
  }

  function MonthOf(d: Date): YearMonth
  {
    YearMonth(d.year, d.month)
  }

  /** Month lengths lie between 28 and 31; February has 29 days exactly in leap years. */
  lemma DaysInMonthBounds(ym: YearMonth)
    requires ValidMonth(ym)
    ensures 28 <= DaysInMonth(ym) <= 31
    ensures ym.month == 2 ==> (DaysInMonth(ym) == 29 <==> IsLeapYear(ym.year))
    ensures ym.month != 2 ==> (DaysInMonth(ym) == 30 <==> ym.month in {4, 6, 9, 11})
  {
  }

  /** The days in the months before `month`. */
  function DaysBeforeMonth(year: int, month: nat): nat
    requires month <= 12
  {
    if month == 0 then 0 else DaysBeforeMonth(year, month - 1) + DaysInMonth(YearMonth(year, month))
  }

  /** An independent check of the table: the twelve months make a 365- or 366-day year. */
  lemma YearLength(year: int)
    ensures DaysBeforeMonth(year, 12) == if IsLeapYear(year) then 366 else 365
  {
    var feb := if IsLeapYear(year) then 29 else 28;
    assert DaysBeforeMonth(year, 0) == 0;
    assert DaysBeforeMonth(year, 1) == 31;
    assert DaysBeforeMonth(year, 2) == 31 + feb;
    assert DaysBeforeMonth(year, 3) == 31 + feb + 31;
    assert DaysBeforeMonth(year, 4) == 31 + feb + 31 + 30;
    assert DaysBeforeMonth(year, 5) == 31 + feb + 31 + 30 + 31;
    assert DaysBeforeMonth(year, 6) == 31 + feb + 31 + 30 + 31 + 30;
    assert DaysBeforeMonth(year, 7) == 31 + feb + 31 + 30 + 31 + 30 + 31;
    assert DaysBeforeMonth(year, 8) == 31 + feb + 31 + 30 + 31 + 30 + 31 + 31;
    assert DaysBeforeMonth(year, 9) == 31 + feb + 31 + 30 + 31 + 30 + 31 + 31 + 30;
    assert DaysBeforeMonth(year, 10) == 31 + feb + 31 + 30 + 31 + 30 + 31 + 31 + 30 + 31;
    assert DaysBeforeMonth(year, 11) == 31 + feb + 31 + 30 + 31 + 30 + 31 + 31 + 30 + 31 + 30;
  }

  /** `generateDaysInMonth`: `Array(range(of: .day, in: .month))`. */
  function GenerateDaysInMonth(ym: YearMonth): (days: seq<int>)
    requires ValidMonth(ym)
    ensures |days| == DaysInMonth(ym)
    ensures forall i :: 0 <= i < |days| ==> days[i] == i + 1
  {
    seq(DaysInMonth(ym), i => i + 1)
  }

  /** The list holds exactly the days of the month, each once, in increasing order. */
  lemma GenerateDaysInMonthIsTheMonth(ym: YearMonth, d: int)
    requires ValidMonth(ym)
    ensures d in GenerateDaysInMonth(ym) <==> ValidDate(Date(ym.year, ym.month, d))
    ensures forall i, j :: 0 <= i < j < |GenerateDaysInMonth(ym)| ==>
              GenerateDaysInMonth(ym)[i] < GenerateDaysInMonth(ym)[j]
    ensures 28 <= |GenerateDaysInMonth(ym)| <= 31
  {
    var days := GenerateDaysInMonth(ym);
    if ValidDate(Date(ym.year, ym.month, d)) {
      assert days[d - 1] == d;
    }
    DaysInMonthBounds(ym);
  }

  /** `startOfMonth`: the first of the same month. */
  function StartOfMonth(d: Date): (r: Date)
    ensures MonthOf(r) == MonthOf(d) && r.day == 1
    ensures ValidMonth(MonthOf(d)) ==> ValidDate(r)
  {
    Date(d.year, d.month, 1)
  }

  lemma StartOfMonthIdempotent(d: Date)
    ensures StartOfMonth(StartOfMonth(d)) == StartOfMonth(d)
  {
  }

  /** The following day, across month and year ends. */
  function NextDay(d: Date): (r: Date)
    requires ValidDate(d)
    ensures ValidDate(r)
  {
    if d.day < DaysInMonth(MonthOf(d)) then Date(d.year, d.month, d.day + 1)
    else if d.month < 12 then Date(d.year, d.month + 1, 1)
    else Date(d.year + 1, 1, 1)
  }

  /** `date(byAdding: .day, value: n, to:)` for n >= 0. */
  function AddDays(d: Date, n: nat): (r: Date)
    requires ValidDate(d)
    ensures ValidDate(r)
    decreases n
  {
    if n == 0 then d else AddDays(NextDay(d), n - 1)
  }

  /** Adding k days to the first of a month stays in the month for k below its length. */
  lemma {:induction false} AddDaysFromFirst(ym: YearMonth, k: nat)
    requires ValidMonth(ym) && k < DaysInMonth(ym)
    ensures AddDays(Date(ym.year, ym.month, 1), k) == Date(ym.year, ym.month, k + 1)
  {
    if k > 0 {
      AddDaysFromFirst(ym, k - 1);
      AddDaysSplit(Date(ym.year, ym.month, 1), k - 1);
    }
  }

  lemma {:induction false} AddDaysSplit(d: Date, n: nat)
    requires ValidDate(d)
    ensures AddDays(d, n + 1) == NextDay(AddDays(d, n))
    decreases n
  {
    if n > 0 {
      AddDaysSplit(NextDay(d), n - 1);
    }
  }

  /** `date(byAdding: .month, value: n, to:)` read on the month: months are counted
      from year 0 and counted back into a year and a month. */
  function AddMonths(ym: YearMonth, n: int): (r: YearMonth)
    requires ValidMonth(ym)
    ensures ValidMonth(r)
  {
    var index := ym.year * 12 + (ym.month - 1) + n;
    YearMonth(index / 12, index % 12 + 1)
  }

  /** `date(byAdding: .month, value: n, to: d)`: the same day in the month n away,
      clamped to the last day of a shorter month. */
  function AddMonthsToDate(d: Date, n: int): (r: Date)
    requires ValidDate(d)
    ensures ValidDate(r) && MonthOf(r) == AddMonths(MonthOf(d), n)
    ensures r.day <= d.day
    ensures d.day <= DaysInMonth(MonthOf(r)) ==> r.day == d.day
    ensures r.day < d.day ==> r.day == DaysInMonth(MonthOf(r))
  {
    var ym := AddMonths(MonthOf(d), n);
    var last := DaysInMonth(ym);
    Date(ym.year, ym.month, if d.day <= last then d.day else last)
  }

  /** The month after, by cases. */
  function NextMonth(ym: YearMonth): YearMonth
  {
    if ym.month == 12 then YearMonth(ym.year + 1, 1) else YearMonth(ym.year, ym.month + 1)
  }

  /** The month before, by cases. */
  function PreviousMonth(ym: YearMonth): YearMonth
  {
    if ym.month == 1 then YearMonth(ym.year - 1, 12) else YearMonth(ym.year, ym.month - 1)
  }

  /** The `>` and `<` steps agree with the case definitions, and undo each other. */
  lemma MonthSteps(ym: YearMonth)
    requires ValidMonth(ym)
    ensures AddMonths(ym, 1) == NextMonth(ym)
    ensures AddMonths(ym, -1) == PreviousMonth(ym)
    ensures AddMonths(AddMonths(ym, 1), -1) == ym
    ensures AddMonths(AddMonths(ym, -1), 1) == ym
  {
    MonthIndexRoundTrip(ym.year, ym.month - 1);
    if ym.month == 12 {
      MonthIndexRoundTrip(ym.year + 1, 0);
    } else {
      MonthIndexRoundTrip(ym.year, ym.month);
    }
    if ym.month == 1 {
      MonthIndexRoundTrip(ym.year - 1, 11);
    } else {
      MonthIndexRoundTrip(ym.year, ym.month - 2);
    }
  }

  /** Stepping a date a month back and forth returns to its month; the day survives
      unless a shorter month clamped it. */
  lemma MonthStepsOnDates(d: Date)
    requires ValidDate(d)
    ensures MonthOf(AddMonthsToDate(d, 1)) == NextMonth(MonthOf(d))
    ensures MonthOf(AddMonthsToDate(d, -1)) == PreviousMonth(MonthOf(d))
    ensures MonthOf(AddMonthsToDate(AddMonthsToDate(d, 1), -1)) == MonthOf(d)
    ensures d.day <= 28 ==> AddMonthsToDate(AddMonthsToDate(d, 1), -1) == d
  {
    MonthSteps(MonthOf(d));
    DaysInMonthBounds(MonthOf(AddMonthsToDate(d, 1)));
  }

  /** A step can lose the day: January 31st, a month on, is the last of February,
      and a month back from there is January 28th or 29th. */
  lemma MonthStepClampsDay(year: int)
    ensures AddMonthsToDate(Date(year, 1, 31), 1) == Date(year, 2, if IsLeapYear(year) then 29 else 28)
    ensures AddMonthsToDate(AddMonthsToDate(Date(year, 1, 31), 1), -1) == Date(year, 1, if IsLeapYear(year) then 29 else 28)
  {
    MonthSteps(YearMonth(year, 1));
    MonthSteps(YearMonth(year, 2));
  }

  lemma MonthIndexRoundTrip(year: int, m0: int)
    requires 0 <= m0 < 12
    ensures (year * 12 + m0) / 12 == year && (year * 12 + m0) % 12 == m0
  {
  }
}
