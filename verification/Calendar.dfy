/** Calendar dates, as DATE columns hold them, and month arithmetic that clamps
    to the end of a month. */
module Calendar {

  datatype Date = Date(year: int, month: int, day: int) {
    predicate Valid() {
      1 <= month <= 12 && 1 <= day <= DaysIn(year, month)
    }

    predicate Before(other: Date) {
      || year < other.year
      || (year == other.year && month < other.month)
      || (year == other.year && month == other.month && day < other.day)
    }

    /** Months counted from year 0: one number for the (year, month) pair. */
    function MonthIndex(): int {
      12 * year + (month - 1)
    }
  }

  /** A date that exists on the calendar, the only kind a DATE column holds. */
  type Day = d: Date | d.Valid() witness Date(1, 1, 1)

  predicate IsLeap(year: int) {
    year % 4 == 0 && (year % 100 != 0 || year % 400 == 0)
  }

  function DaysIn(year: int, month: int): (days: int)
    ensures 28 <= days <= 31
  {
    if month == 2 then (if IsLeap(year) then 29 else 28)
    else if month == 4 || month == 6 || month == 9 || month == 11 then 30
    else 31
  }

  /** The days from 1 January of year 1 to that of another year, of the Gregorian calendar. */
  function DaysBefore(year: int): int {
    365 * (year - 1) + (year - 1) / 4 - (year - 1) / 100 + (year - 1) / 400
  }

  /** The months from March on have the lengths of its closed form, and the twelve months
      of a year add up to the days from one January to the next. */
  lemma CalendarIsGregorian(year: int, n: nat)
    ensures n < 11 ==> DaysIn(year, (n + 2) % 12 + 1) == (153 * (n + 1) + 2) / 5 - (153 * n + 2) / 5
    ensures DaysIn(year, 1) + DaysIn(year, 2) + DaysIn(year, 3) + DaysIn(year, 4) + DaysIn(year, 5) + DaysIn(year, 6)
            + DaysIn(year, 7) + DaysIn(year, 8) + DaysIn(year, 9) + DaysIn(year, 10) + DaysIn(year, 11)
            + DaysIn(year, 12)
         == DaysBefore(year + 1) - DaysBefore(year)
  {
    if n < 11 {
      assert n == 0 || n == 1 || n == 2 || n == 3 || n == 4 || n == 5 || n == 6 || n == 7 || n == 8 || n == 9 || n == 10;
    }
    LeapDays(year);
  }

  lemma LeapDays(year: int)
    ensures DaysBefore(year + 1) - DaysBefore(year) == if IsLeap(year) then 366 else 365
  {
    assert year / 4 - (year - 1) / 4 == if year % 4 == 0 then 1 else 0;
    assert year / 100 - (year - 1) / 100 == if year % 100 == 0 then 1 else 0;
    assert year / 400 - (year - 1) / 400 == if year % 400 == 0 then 1 else 0;
    assert year % 400 == 0 ==> year % 100 == 0;
    assert year % 100 == 0 ==> year % 4 == 0;
  }

  /** The month overflow rule of time.Date: month 13 is January of the next year. */
  function FirstOfMonth(year: int, month: int): Date {
    Date(year + (month - 1) / 12, (month - 1) % 12 + 1, 1)
  }

  function AddMonthsClamped(anchor: Date, months: int): Date {
    var first := FirstOfMonth(anchor.year, anchor.month + months);
    var lastDay := DaysIn(first.year, first.month);
    Date(first.year, first.month, if anchor.day > lastDay then lastDay else anchor.day)
  }

  /** Month arithmetic lands in exactly the month asked for, and there on the
      latest date that is no later in the month than the anchor is. */
  lemma ClampedIsLatest(anchor: Date, months: int)
    requires anchor.Valid()
    ensures var r := AddMonthsClamped(anchor, months);
            && r.Valid()
            && r.MonthIndex() == anchor.MonthIndex() + months
            && r.day <= anchor.day
            && forall d: Date :: d.Valid() && d.MonthIndex() == r.MonthIndex() && d.day <= anchor.day
                                 ==> d == r || d.Before(r)
  {
    var r := AddMonthsClamped(anchor, months);
    forall d: Date | d.Valid() && d.MonthIndex() == r.MonthIndex() && d.day <= anchor.day
      ensures d == r || d.Before(r)
    {
      MonthIndexIsInjective(d, r);
    }
  }

  lemma MonthIndexIsInjective(d: Date, e: Date)
    requires d.Valid() && e.Valid()
    ensures d.MonthIndex() == e.MonthIndex() <==> d.year == e.year && d.month == e.month
    ensures d.MonthIndex() < e.MonthIndex() ==> d.Before(e)
  {
  }
}
