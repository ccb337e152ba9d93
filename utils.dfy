/**
 * The date algebra of inventaris/utils.py: one step of a maintenance period
 * (`add_period`) and the on-time/late status of a due date
 * (`schedule_status`).
 */
module Utils {
  import opened Calendar
  import opened Models

  /** Number of months since year 0: consecutive months differ by one. */
  function MonthIndex(d: Date): int {
    d.year * 12 + d.month
  }

  /**
   * `add_period(base_date, period)` (inventaris/utils.py:9-26). Daily and
   * weekly add one and seven days; monthly and yearly move to the next month
   * or year and clamp the day to that month's length; any other value leaves
   * the date unchanged.
   */
  function AddPeriod(base: CalendarDate, period: Period): (r: CalendarDate)
    ensures period == Daily ==> DayNumber(r) == DayNumber(base) + 1
    ensures period == Weekly ==> DayNumber(r) == DayNumber(base) + 7
    ensures period == Monthly ==>
      MonthIndex(r) == MonthIndex(base) + 1 && r.day == Min(base.day, DaysInMonth(r.year, r.month))
    ensures period == Yearly ==>
      r.year == base.year + 1 && r.month == base.month && r.day == Min(base.day, DaysInMonth(r.year, r.month))
    ensures IsChoice(period) ==> Before(base, r)
    ensures !IsChoice(period) ==> r == base
  {
    match period
    case Daily =>
      var r := AddDays(base, 1);
      DayNumberOrder(base, r);
      r
    case Weekly =>
      var r := AddDays(base, 7);
      DayNumberOrder(base, r);
      r
    case Monthly =>
      var year := if base.month == 12 then base.year + 1 else base.year;
      var month := if base.month == 12 then 1 else base.month + 1;
      Date(year, month, Min(base.day, DaysInMonth(year, month)))
    case Yearly =>
      var year := base.year + 1;
      Date(year, base.month, Min(base.day, DaysInMonth(year, base.month)))
    case Unrecognised(_) => base
  }

  /**
   * `schedule_status(next_due_date, today)` (inventaris/utils.py:29-35):
   * late exactly when there is a due date and today is after it, so the due
   * date itself is still on time. `today` stands for `date.today()`.
   */
  function StatusFor(nextDueDate: Option<CalendarDate>, today: CalendarDate): (s: ScheduleStatus)
    ensures s == Late <==> nextDueDate.Some? && DayNumber(nextDueDate.value) < DayNumber(today)
  {
    if nextDueDate.None? then OnTime
    else
      DayNumberOrder(nextDueDate.value, today);
      if Before(nextDueDate.value, today) then Late else OnTime
  }

  /** Every known period moves the date strictly forward, so the result is a different, later day. */
  lemma AddPeriodAdvances(base: CalendarDate, period: Period)
    requires IsChoice(period)
    ensures DayNumber(base) < DayNumber(AddPeriod(base, period))
  {
    DayNumberOrder(base, AddPeriod(base, period));
  }

  /** A monthly step spans between 28 and 31 days, whatever the clamping does. */
  lemma MonthlyStepLength(base: CalendarDate)
    ensures var gap := DayNumber(AddPeriod(base, Monthly)) - DayNumber(base);
      28 <= gap <= 31
  {
    var r := AddPeriod(base, Monthly);
    MonthStep(base.year, base.month);
    if base.month == 12 {
      assert DaysBeforeYear(r.year) == DaysBeforeYear(base.year) + YearLength(base.year);
      assert DayNumber(r) - DayNumber(base) == DaysInMonth(base.year, 12) - base.day + r.day;
    } else {
      assert DayNumber(r) - DayNumber(base) == DaysInMonth(base.year, base.month) - base.day + r.day;
    }
  }

  /** Clamping is not sticky: a day the next month has is kept as it is. */
  lemma MonthlyKeepsDay(base: CalendarDate)
    requires base.day <= 28
    ensures AddPeriod(base, Monthly).day == base.day
  {
  }

  /** 2024-01-31 advances to 2024-02-29 (2024 is a leap year) and then to 2024-03-29, not 2024-03-31. */
  lemma MonthlyFromJanuary31()
    ensures AddPeriod(Date(2024, 1, 31), Monthly) == Date(2024, 2, 29)
    ensures AddPeriod(AddPeriod(Date(2024, 1, 31), Monthly), Monthly) == Date(2024, 3, 29)
  {
  }

  /** A yearly step from Feb 29 lands on Feb 28 when the next year is not a leap year. */
  lemma YearlyFromLeapDay(base: CalendarDate)
    requires base.month == 2 && base.day == 29 && !IsLeapYear(base.year + 1)
    ensures AddPeriod(base, Yearly) == Date(base.year + 1, 2, 28)
  {
  }

  /** December wraps to January of the next year. */
  lemma MonthlyWrapsDecember(base: CalendarDate)
    requires base.month == 12
    ensures AddPeriod(base, Monthly).year == base.year + 1 && AddPeriod(base, Monthly).month == 1
  {
  }

  /** Daily and weekly steps cross month and year ends: 2023-12-31 is followed by 2024-01-01, and 2024-02-26 + 7 days is 2024-03-04. */
  lemma DailyAndWeeklyCrossBoundaries()
    ensures AddPeriod(Date(2023, 12, 31), Daily) == Date(2024, 1, 1)
    ensures AddPeriod(Date(2024, 2, 26), Weekly) == Date(2024, 3, 4)
  {
    assert AddDays(Date(2023, 12, 31), 1) == AddDays(Date(2024, 1, 1), 0);
    assert AddDays(Date(2024, 2, 26), 7) == AddDays(Date(2024, 2, 27), 6);
    assert AddDays(Date(2024, 2, 27), 6) == AddDays(Date(2024, 2, 28), 5);
    assert AddDays(Date(2024, 2, 28), 5) == AddDays(Date(2024, 2, 29), 4);
    assert AddDays(Date(2024, 2, 29), 4) == AddDays(Date(2024, 3, 1), 3);
    assert AddDays(Date(2024, 3, 1), 3) == AddDays(Date(2024, 3, 2), 2);
    assert AddDays(Date(2024, 3, 2), 2) == AddDays(Date(2024, 3, 3), 1);
    assert AddDays(Date(2024, 3, 3), 1) == AddDays(Date(2024, 3, 4), 0);
  }

  /** A due date on or after today is on time; status depends on the ordinal comparison only. */
  lemma DueDateItselfOnTime(due: CalendarDate)
    ensures StatusFor(Some(due), due) == OnTime
    ensures StatusFor(Some(due), NextDay(due)) == Late
  {
  }
}
