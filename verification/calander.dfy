/** The month screen of XIVE/UI/Calander/Calander.swift: as in CalendarView.swift, but a
    tap also opens a sheet listing the day's events, which the user can delete. */
module CalanderScreen {
  import opened Wrappers
  import opened Gregorian

  class CalendarView {
    var selectedDate: Option<Date>
    var showingSheet: bool
    var currentMonth: Date

    ghost predicate Valid()
      reads this
    {
      ValidDate(currentMonth)
    }

    constructor(today: Date)
      requires ValidDate(today)
      ensures Valid()
      ensures currentMonth == today && selectedDate == None && !showingSheet
    {
      currentMonth := today;
      selectedDate := None;
      showingSheet := false;
    }

    /** A tap selects the day and opens the event sheet. */
    method TapDay(day: int)
      requires Valid() && day in GenerateDaysInMonth(MonthOf(currentMonth))
      modifies this`selectedDate, this`showingSheet
      ensures selectedDate == Some(Date(currentMonth.year, currentMonth.month, day))
      ensures ValidDate(selectedDate.value)
      ensures showingSheet
    {
      GenerateDaysInMonthIsTheMonth(MonthOf(currentMonth), day);
      AddDaysFromFirst(MonthOf(currentMonth), day - 1);
      selectedDate := Some(AddDays(StartOfMonth(currentMonth), day - 1));
      showingSheet := true;
    }

    method ShowPreviousMonth()
      requires Valid()
      modifies this`currentMonth
      ensures Valid()
      ensures currentMonth == AddMonthsToDate(old(currentMonth), -1)
      ensures MonthOf(currentMonth) == PreviousMonth(MonthOf(old(currentMonth)))
    {
      MonthStepsOnDates(currentMonth);
      currentMonth := AddMonthsToDate(currentMonth, -1);
    }

    method ShowNextMonth()
      requires Valid()
      modifies this`currentMonth
      ensures Valid()
      ensures currentMonth == AddMonthsToDate(old(currentMonth), 1)
      ensures MonthOf(currentMonth) == NextMonth(MonthOf(old(currentMonth)))
    {
      MonthStepsOnDates(currentMonth);
      currentMonth := AddMonthsToDate(currentMonth, 1);
    }
  }

  /** The indices below n that are not among the offsets, in increasing order. */
  function KeptIndices(n: nat, offsets: set<int>): (kept: seq<nat>)
    ensures forall j :: 0 <= j < |kept| ==> kept[j] < n
    decreases n
  {
    if n == 0 then []
    else KeptIndices(n - 1, offsets) + (if n - 1 in offsets then [] else [n - 1])
  }

  /** The kept indices are exactly the positions below n that are not offsets, each
      once and in increasing order. */
  lemma {:induction false} KeptIndicesAreTheKept(n: nat, offsets: set<int>)
    ensures forall j :: 0 <= j < |KeptIndices(n, offsets)| ==> KeptIndices(n, offsets)[j] !in offsets
    ensures forall i :: 0 <= i < n && i !in offsets ==> i in KeptIndices(n, offsets)
    ensures forall j, j' :: 0 <= j < j' < |KeptIndices(n, offsets)| ==>
              KeptIndices(n, offsets)[j] < KeptIndices(n, offsets)[j']
    decreases n
  {
    if n > 0 {
      KeptIndicesAreTheKept(n - 1, offsets);
      var before := KeptIndices(n - 1, offsets);
      assert KeptIndices(n, offsets) == before + (if n - 1 in offsets then [] else [n - 1]);
    }
  }

  /** The offsets below n. */
  function RemovedIndices(n: nat, offsets: set<int>): set<int>
  {
    set i | i in offsets && 0 <= i < n
  }

  /** Every index below n is either kept or removed. */
  lemma {:induction false} KeptCount(n: nat, offsets: set<int>)
    ensures |KeptIndices(n, offsets)| + |RemovedIndices(n, offsets)| == n
    decreases n
  {
    if n > 0 {
      KeptCount(n - 1, offsets);
      if n - 1 in offsets {
        assert RemovedIndices(n, offsets) == RemovedIndices(n - 1, offsets) + {n - 1};
      } else {
        assert RemovedIndices(n, offsets) == RemovedIndices(n - 1, offsets);
      }
    }
  }

  /** `remove(atOffsets:)`: the elements whose positions are not among the offsets, in
      their order. */
  function RemoveOffsets<T>(s: seq<T>, offsets: set<int>): (r: seq<T>)
    ensures |r| == |KeptIndices(|s|, offsets)|
    ensures forall j :: 0 <= j < |r| ==> r[j] == s[KeptIndices(|s|, offsets)[j]]
    decreases |s|
  {
    if |s| == 0 then []
    else
      var init := s[..|s| - 1];
      assert forall i :: 0 <= i < |init| ==> init[i] == s[i];
      RemoveOffsets(init, offsets) + (if |s| - 1 in offsets then [] else [s[|s| - 1]])
  }

  /** The list shrinks by the number of offsets that name one of its positions. */
  lemma RemoveOffsetsLength<T>(s: seq<T>, offsets: set<int>)
    ensures |RemoveOffsets(s, offsets)| == |s| - |RemovedIndices(|s|, offsets)|
  {
    KeptCount(|s|, offsets);
  }

  /** Offsets outside the list remove nothing. */
  lemma {:induction false} RemoveNoOffsets<T>(s: seq<T>, offsets: set<int>)
    requires forall i :: i in offsets ==> i < 0 || |s| <= i
    ensures RemoveOffsets(s, offsets) == s
    decreases |s|
  {
    if |s| > 0 {
      RemoveNoOffsets(s[..|s| - 1], offsets);
      assert s[..|s| - 1] + [s[|s| - 1]] == s;
    }
  }

  /** The event sheet's list. */
  class EventDetailView {
    const date: Date
    var events: seq<string>

    /** The sheet opens with three placeholder events. */
    constructor(date: Date)
      ensures this.date == date
      ensures events == ["이벤트 1", "이벤트 2", "이벤트 3"]
    {
      this.date := date;
      events := ["이벤트 1", "이벤트 2", "이벤트 3"];
    }

    /** A swipe deletes the rows at the offsets, which name rows of the list; the
        rest keep their order. */
    method Delete(offsets: set<int>)
      requires forall i :: i in offsets ==> 0 <= i < |events|
      modifies this`events
      ensures events == RemoveOffsets(old(events), offsets)
      ensures |events| == |old(events)| - |offsets|
    {
      RemoveOffsetsLength(events, offsets);
      assert RemovedIndices(|events|, offsets) == offsets;
      events := RemoveOffsets(events, offsets);
    }
  }
}
