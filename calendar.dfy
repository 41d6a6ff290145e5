/**
 * The incubation calendar (components/Calendar.tsx): a month grid whose day cells are
 * classified against the incubation period and the current day, and a month navigator
 * that cannot leave the months of the period.
 */
module Calendar {
  import opened CivilDates

  /** How a day cell is drawn. */
  datatype DayStatus = Outside | Past | Current | Future

  /** A displayed month: the component's `currentYear` and 0-based `currentMonth`. */
  datatype YearMonth = YearMonth(year: int, month: int)

  predicate ValidMonth(ym: YearMonth) {
    0 <= ym.month < 12
  }

  function MonthOf(d: Date): YearMonth {
    YearMonth(d.year, d.month)
  }

  /** Months numbered consecutively, so that January follows the December before it. */
  function MonthIndex(ym: YearMonth): int {
    12 * ym.year + ym.month
  }

  lemma MonthIndexInjective(a: YearMonth, b: YearMonth)
    requires ValidMonth(a) && ValidMonth(b)
    ensures MonthIndex(a) == MonthIndex(b) <==> a == b
  {
    if a.year < b.year {
      assert MonthIndex(a) < 12 * (a.year + 1) <= MonthIndex(b);
    } else if b.year < a.year {
      assert MonthIndex(b) < 12 * (b.year + 1) <= MonthIndex(a);
    }
  }

  /** Whether the month before the displayed one may be shown: only after the start's month. */
  function CanGoPrevious(shown: YearMonth, start: CivilDate): (r: bool)
    ensures ValidMonth(shown) ==> (r <==> MonthIndex(MonthOf(start)) < MonthIndex(shown))
  {
    if shown.year < start.year then false
    else if shown.year == start.year && shown.month <= start.month then false
    else true
  }

  /** Whether the month after the displayed one may be shown: only before the end's month. */
  function CanGoNext(shown: YearMonth, end: CivilDate): (r: bool)
    ensures ValidMonth(shown) ==> (r <==> MonthIndex(shown) < MonthIndex(MonthOf(end)))
  {
    if shown.year > end.year then false
    else if shown.year == end.year && shown.month >= end.month then false
    else true
  }

  /** The calendar month before `ym`, December of the previous year before January. */
  function PreviousOf(ym: YearMonth): (r: YearMonth)
    requires ValidMonth(ym)
    ensures ValidMonth(r) && MonthIndex(r) == MonthIndex(ym) - 1
  {
    if ym.month == 0 then YearMonth(ym.year - 1, 11) else YearMonth(ym.year, ym.month - 1)
  }

  /** The calendar month after `ym`, January of the next year after December. */
  function NextOf(ym: YearMonth): (r: YearMonth)
    requires ValidMonth(ym)
    ensures ValidMonth(r) && MonthIndex(r) == MonthIndex(ym) + 1
  {
    if ym.month == 11 then YearMonth(ym.year + 1, 0) else YearMonth(ym.year, ym.month + 1)
  }

  /** The two navigation buttons: `previousMonth` and `nextMonth`. */
  datatype Nav = Back | Forward

  /** The displayed month after one button press; a disallowed press does nothing. */
  function Navigate(shown: YearMonth, start: CivilDate, end: CivilDate, nav: Nav): (r: YearMonth)
    requires ValidMonth(shown)
    ensures ValidMonth(r)
    ensures nav == Back ==>
      MonthIndex(r) == if MonthIndex(MonthOf(start)) < MonthIndex(shown) then MonthIndex(shown) - 1 else MonthIndex(shown)
    ensures nav == Forward ==>
      MonthIndex(r) == if MonthIndex(shown) < MonthIndex(MonthOf(end)) then MonthIndex(shown) + 1 else MonthIndex(shown)
  {
    match nav
    case Back => if CanGoPrevious(shown, start) then PreviousOf(shown) else shown
    case Forward => if CanGoNext(shown, end) then NextOf(shown) else shown
  }

  /** The displayed month after a sequence of presses, in order. */
  function AfterNavigation(shown: YearMonth, start: CivilDate, end: CivilDate, navs: seq<Nav>): YearMonth
    requires ValidMonth(shown)
    decreases |navs|
  {
    if navs == [] then shown
    else AfterNavigation(Navigate(shown, start, end, navs[0]), start, end, navs[1..])
  }

  /**
   * The months the navigator may display: from the start's month to the end's month,
   * or only the start's month when the end lies in an earlier month.
   */
  predicate InWindow(shown: YearMonth, start: CivilDate, end: CivilDate) {
    && ValidMonth(shown)
    && MonthIndex(MonthOf(start)) <= MonthIndex(shown)
    && (MonthIndex(shown) <= MonthIndex(MonthOf(end)) || shown == MonthOf(start))
  }

  lemma NavigateKeepsWindow(shown: YearMonth, start: CivilDate, end: CivilDate, nav: Nav)
    requires InWindow(shown, start, end)
    ensures InWindow(Navigate(shown, start, end, nav), start, end)
  {
    var r := Navigate(shown, start, end, nav);
    if MonthIndex(r) == MonthIndex(MonthOf(start)) {
      MonthIndexInjective(r, MonthOf(start));
    }
  }

  /** Every sequence of presses from a month in the window stays in the window. */
  lemma {:induction false} NavigationKeepsWindow(shown: YearMonth, start: CivilDate, end: CivilDate, navs: seq<Nav>)
    requires InWindow(shown, start, end)
    ensures InWindow(AfterNavigation(shown, start, end, navs), start, end)
    decreases |navs|
  {
    if navs != [] {
      NavigateKeepsWindow(shown, start, end, navs[0]);
      NavigationKeepsWindow(Navigate(shown, start, end, navs[0]), start, end, navs[1..]);
    }
  }

  /** From the start's month, where the calendar opens, no sequence of presses leaves [start month, end month]. */
  lemma NavigationFromStartStaysInPeriod(start: CivilDate, end: CivilDate, navs: seq<Nav>)
    requires !Before(end, start)
    ensures var r := AfterNavigation(MonthOf(start), start, end, navs);
      ValidMonth(r) && MonthIndex(MonthOf(start)) <= MonthIndex(r) <= MonthIndex(MonthOf(end))
  {
    NavigationKeepsWindow(MonthOf(start), start, end, navs);
  }

  /** Months in index order are days in calendar order. */
  lemma EarlierMonthEarlierDay(a: CivilDate, b: CivilDate)
    requires MonthIndex(MonthOf(a)) < MonthIndex(MonthOf(b))
    ensures Before(a, b)
  {
    if a.year >= b.year {
      assert MonthIndex(MonthOf(b)) < 12 * (b.year + 1) <= MonthIndex(MonthOf(a)) + 12;
    }
  }

  /**
   * A period shorter than 29 days touches at most two calendar months, so the
   * navigator of a 21-day incubation has at most one "next" to offer.
   */
  lemma ShortPeriodSpansTwoMonths(start: CivilDate, end: CivilDate)
    requires DayNumber(end) < DayNumber(start) + 29
    ensures MonthIndex(MonthOf(end)) <= MonthIndex(MonthOf(start)) + 1
  {
    if MonthIndex(MonthOf(end)) > MonthIndex(MonthOf(start)) + 1 {
      var m0 := MonthOf(start);
      var m1 := NextOf(m0);
      var m2 := NextOf(m1);
      var f0: CivilDate := Date(m0.year, m0.month, 1);
      var f1: CivilDate := Date(m1.year, m1.month, 1);
      var f2: CivilDate := Date(m2.year, m2.month, 1);
      assert DayNumber(f2) >= DayNumber(start) + 29 by {
        NextMonthStartNumber(m0.year, m0.month);
        NextMonthStartNumber(m1.year, m1.month);
        assert DayNumber(start) == DayNumber(f0) + start.day - 1;
      }
      if MonthIndex(MonthOf(end)) == MonthIndex(m2) {
        MonthIndexInjective(MonthOf(end), m2);
      } else {
        EarlierMonthEarlierDay(f2, end);
      }
      DayNumberOrder(end, f2);
    }
  }

  /** `k` presses of the next button. */
  function Forwards(k: nat): (navs: seq<Nav>)
    ensures |navs| == k
  {
    if k == 0 then [] else [Forward] + Forwards(k - 1)
  }

  /** Every month of the window is reachable: k presses of "next" advance k months while the end allows it. */
  lemma {:induction false} ForwardsReach(shown: YearMonth, start: CivilDate, end: CivilDate, k: nat)
    requires ValidMonth(shown)
    requires MonthIndex(shown) + k <= MonthIndex(MonthOf(end))
    ensures MonthIndex(AfterNavigation(shown, start, end, Forwards(k))) == MonthIndex(shown) + k
    decreases k
  {
    if k > 0 {
      var navs := Forwards(k);
      assert navs[0] == Forward && navs[1..] == Forwards(k - 1);
      ForwardsReach(Navigate(shown, start, end, Forward), start, end, k - 1);
    }
  }

  /** A permitted "previous" followed by "next" returns to the month that was displayed. */
  lemma PreviousThenNextReturns(shown: YearMonth, start: CivilDate, end: CivilDate)
    requires InWindow(shown, start, end)
    requires CanGoPrevious(shown, start)
    ensures Navigate(Navigate(shown, start, end, Back), start, end, Forward) == shown
  {
    var back := Navigate(shown, start, end, Back);
    MonthIndexInjective(Navigate(back, start, end, Forward), shown);
  }

  /** A permitted "next" followed by "previous" returns to the month that was displayed. */
  lemma NextThenPreviousReturns(shown: YearMonth, start: CivilDate, end: CivilDate)
    requires InWindow(shown, start, end)
    requires CanGoNext(shown, end)
    ensures Navigate(Navigate(shown, start, end, Forward), start, end, Back) == shown
  {
    var forward := Navigate(shown, start, end, Forward);
    MonthIndexInjective(Navigate(forward, start, end, Back), shown);
  }

  /** Whether a day lies in the incubation period; both ends count as inside. */
  predicate InPeriod(day: Date, start: DateTime, end: DateTime) {
    !Before(day, start.date) && !Before(end.date, day)
  }

  /**
   * Classification of day `day` of the displayed month. All four dates are taken at
   * local midnight and compared as timestamps, so the time of day plays no part.
   */
  function GetDayStatus(shown: YearMonth, day: int, start: DateTime, end: DateTime, current: DateTime): (s: DayStatus)
    requires ValidMonth(shown) && 1 <= day <= DaysInMonth(shown.year, shown.month)
    ensures var d := Date(shown.year, shown.month, day);
      && (s == Outside <==> !InPeriod(d, start, end))
      && (s == Current <==> InPeriod(d, start, end) && d == current.date)
      && (s == Past <==> InPeriod(d, start, end) && Before(d, current.date))
      && (s == Future <==> InPeriod(d, start, end) && Before(current.date, d))
  {
    var date: CivilDate := Date(shown.year, shown.month, day);
    DayNumberOrder(date, start.date);
    DayNumberOrder(end.date, date);
    DayNumberOrder(date, current.date);
    DayNumberOrder(current.date, date);
    if Midnight(date) < Midnight(start.date) || Midnight(date) > Midnight(end.date) then Outside
    else if Midnight(date) == Midnight(current.date) then Current
    else if Midnight(date) < Midnight(current.date) then Past
    else Future
  }

  /** Classification depends on the four days only, not on the times of day of the three given dates. */
  lemma StatusIgnoresTimeOfDay(shown: YearMonth, day: int, start: DateTime, end: DateTime, current: DateTime,
                               start': DateTime, end': DateTime, current': DateTime)
    requires ValidMonth(shown) && 1 <= day <= DaysInMonth(shown.year, shown.month)
    requires start.date == start'.date && end.date == end'.date && current.date == current'.date
    ensures GetDayStatus(shown, day, start, end, current) == GetDayStatus(shown, day, start', end', current')
  {
  }

  /** Weekday of the first of the month: the number of blank cells before day 1 (0 = Sunday). */
  function FirstDayOfMonth(ym: YearMonth): (w: int)
    requires ValidMonth(ym)
    ensures 0 <= w < 7
  {
    Weekday(Date(ym.year, ym.month, 1))
  }

  /** Each month's grid starts on the weekday after the last day of the month before it. */
  lemma NextMonthContinuesWeek(ym: YearMonth)
    requires ValidMonth(ym)
    ensures FirstDayOfMonth(NextOf(ym)) == (FirstDayOfMonth(ym) + DaysInMonth(ym.year, ym.month)) % 7
  {
    var first: CivilDate := Date(ym.year, ym.month, 1);
    var n := DaysInMonth(ym.year, ym.month);
    var next := NextOf(ym);
    var nextFirst: CivilDate := Date(next.year, next.month, 1);
    assert Weekday(nextFirst) == (Weekday(first) + n) % 7 by {
      NextMonthStart(ym.year, ym.month);
      assert AddDays(first, n) == nextFirst;
      WeekdayOfAddDays(first, n);
    }
  }

  /** A cell of the month grid: a blank before the first, or a numbered day with its status. */
  datatype Cell = Blank(index: nat) | DayCell(day: int, status: DayStatus)

  /** The calendar component while it is mounted. */
  class CalendarView {
    const startDate: DateTime
    const endDate: DateTime
    const currentDate: DateTime
    var currentMonth: int
    var currentYear: int

    function Shown(): YearMonth
      reads this
    {
      YearMonth(currentYear, currentMonth)
    }

    /** The displayed month is a real month within the navigator's window. */
    predicate Valid()
      reads this
    {
      InWindow(Shown(), startDate.date, endDate.date)
    }

    /** The calendar opens on the month of the start date. */
    constructor (startDate: DateTime, endDate: DateTime, currentDate: DateTime)
      ensures Valid()
      ensures Shown() == MonthOf(startDate.date)
      ensures this.startDate == startDate && this.endDate == endDate && this.currentDate == currentDate
    {
      this.startDate, this.endDate, this.currentDate := startDate, endDate, currentDate;
      currentMonth := startDate.date.month;
      currentYear := startDate.date.year;
    }

    method PreviousMonth()
      requires Valid()
      modifies this
      ensures Valid()
      ensures Shown() == Navigate(old(Shown()), startDate.date, endDate.date, Back)
    {
      NavigateKeepsWindow(Shown(), startDate.date, endDate.date, Back);
      if !CanGoPrevious(Shown(), startDate.date) {
        return;
      }
      if currentMonth == 0 {
        currentMonth := 11;
        currentYear := currentYear - 1;
      } else {
        currentMonth := currentMonth - 1;
      }
    }

    method NextMonth()
      requires Valid()
      modifies this
      ensures Valid()
      ensures Shown() == Navigate(old(Shown()), startDate.date, endDate.date, Forward)
    {
      NavigateKeepsWindow(Shown(), startDate.date, endDate.date, Forward);
      if !CanGoNext(Shown(), endDate.date) {
        return;
      }
      if currentMonth == 11 {
        currentMonth := 0;
        currentYear := currentYear + 1;
      } else {
        currentMonth := currentMonth + 1;
      }
    }

    /**
     * The grid of the displayed month: `FirstDayOfMonth` blank cells, then one cell
     * for each day 1 .. `DaysInMonth`, in order, each with its status.
     */
    method GenerateDays() returns (cells: seq<Cell>)
      requires ValidMonth(Shown())
      ensures |cells| == FirstDayOfMonth(Shown()) + DaysInMonth(currentYear, currentMonth)
      ensures forall i :: 0 <= i < FirstDayOfMonth(Shown()) ==> cells[i] == Blank(i)
      ensures forall i :: FirstDayOfMonth(Shown()) <= i < |cells| ==>
        cells[i] == DayCell(i - FirstDayOfMonth(Shown()) + 1,
          GetDayStatus(Shown(), i - FirstDayOfMonth(Shown()) + 1, startDate, endDate, currentDate))
    {
      var firstDay := FirstDayOfMonth(Shown());
      var daysInMonth := DaysInMonth(currentYear, currentMonth);
      cells := [];
      var i := 0;
      while i < firstDay
        invariant 0 <= i <= firstDay
        invariant |cells| == i
        invariant forall j :: 0 <= j < i ==> cells[j] == Blank(j)
      {
        cells := cells + [Blank(i)];
        i := i + 1;
      }
      var day := 1;
      while day <= daysInMonth
        invariant 1 <= day <= daysInMonth + 1
        invariant |cells| == firstDay + day - 1
        invariant forall j :: 0 <= j < firstDay ==> cells[j] == Blank(j)
        invariant forall j :: firstDay <= j < |cells| ==>
          cells[j] == DayCell(j - firstDay + 1, GetDayStatus(Shown(), j - firstDay + 1, startDate, endDate, currentDate))
      {
        cells := cells + [DayCell(day, GetDayStatus(Shown(), day, startDate, endDate, currentDate))];
        day := day + 1;
      }
    }
  }
}
