/** The month screen of XIVE/UI/Calander/CalendarView.swift: a month shown as its list
    of days, a tap that selects a date, and buttons that step the month. */
module CalendarScreen {
  import opened Wrappers
  import opened Gregorian

  class CalendarView {
    /** The date a tap selected, none before the first tap. */
    var selectedDate: Option<Date>
    /** A date inside the month on show; only its year and month are read. */
    var currentMonth: Date

    ghost predicate Valid()
      reads this
    {
      ValidDate(currentMonth)
    }

    /** The screen opens on the month of `today` with nothing selected. */
    constructor(today: Date)
      requires ValidDate(today)
      ensures Valid()
      ensures currentMonth == today && selectedDate == None
    {
      currentMonth := today;
      selectedDate := None;
    }

    /** A tap on a day of the list selects that day of the month on show. */
    method TapDay(day: int)
      requires Valid() && day in GenerateDaysInMonth(MonthOf(currentMonth))
      modifies this`selectedDate
      ensures selectedDate == Some(Date(currentMonth.year, currentMonth.month, day))
      ensures ValidDate(selectedDate.value)
    {
      GenerateDaysInMonthIsTheMonth(MonthOf(currentMonth), day);
      var startOfMonth := StartOfMonth(currentMonth);
      AddDaysFromFirst(MonthOf(currentMonth), day - 1);
      selectedDate := Some(AddDays(startOfMonth, day - 1));
    }

    /** The `<` button: a month back; the selection stays. */
    method ShowPreviousMonth()
      requires Valid()
      modifies this`currentMonth
      ensures Valid()
      ensures currentMonth == AddMonthsToDate(old(currentMonth), -1)
      ensures MonthOf(currentMonth) == PreviousMonth(MonthOf(old(currentMonth)))
    {
      MonthStepsOnDates(currentMonth);
      currentMonth := AddMonthsToDate(currentMonth, -1);
    }

    /** The `>` button: a month on; the selection stays. */
    method ShowNextMonth()
      requires Valid()
      modifies this`currentMonth
      ensures Valid()
      ensures currentMonth == AddMonthsToDate(old(currentMonth), 1)
      ensures MonthOf(currentMonth) == NextMonth(MonthOf(old(currentMonth)))
    {
      MonthStepsOnDates(currentMonth);
      currentMonth := AddMonthsToDate(currentMonth, 1);
    }
  }
}
