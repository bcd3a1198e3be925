/**
 * The date label shown above each day's group of chat messages
 * (src/components/chat/DateDivider.tsx). A date is a (year, month, day)
 * triple of the proleptic Gregorian calendar; the rendered text of a label
 * (weekday and month names) is left to the locale and not modelled.
 */
module CalendarDates {

  datatype CalendarDate = CalendarDate(year: int, month: int, day: int)

  predicate IsLeapYear(y: int) {
    y % 4 == 0 && (y % 100 != 0 || y % 400 == 0)
  }

  function DaysInMonth(y: int, m: int): (n: int)
    requires 1 <= m <= 12
    ensures 28 <= n <= 31
    ensures m == 2 ==> n == (if IsLeapYear(y) then 29 else 28)
  {
    if m == 2 then (if IsLeapYear(y) then 29 else 28)
    else if m == 4 || m == 6 || m == 9 || m == 11 then 30
    else 31
  }

  /** A real day of the calendar. */
  predicate ValidDate(d: CalendarDate) {
    1 <= d.month <= 12 && 1 <= d.day <= DaysInMonth(d.year, d.month)
  }

  /** Chronological order of dates. */
  predicate Before(a: CalendarDate, b: CalendarDate) {
    a.year < b.year
    || (a.year == b.year && a.month < b.month)
    || (a.year == b.year && a.month == b.month && a.day < b.day)
  }

  /**
   * The day before `d`, as `setDate(getDate() - 1)` computes it on a copy
   * of today: day 0 of a month rolls back to the last day of the previous
   * month, and 0 January to 31 December of the previous year.
   */
  function PreviousDay(d: CalendarDate): (p: CalendarDate)
    requires ValidDate(d)
    ensures ValidDate(p) && Before(p, d)
  {
    if d.day > 1 then CalendarDate(d.year, d.month, d.day - 1)
    else if d.month > 1 then CalendarDate(d.year, d.month - 1, DaysInMonth(d.year, d.month - 1))
    else CalendarDate(d.year - 1, 12, 31)
  }

  /** The day after `d`: the inverse of PreviousDay. */
  function NextDay(d: CalendarDate): (n: CalendarDate)
    requires ValidDate(d)
    ensures ValidDate(n) && Before(d, n)
  {
    if d.day < DaysInMonth(d.year, d.month) then CalendarDate(d.year, d.month, d.day + 1)
    else if d.month < 12 then CalendarDate(d.year, d.month + 1, 1)
    else CalendarDate(d.year + 1, 1, 1)
  }

  lemma NextOfPrevious(d: CalendarDate)
    requires ValidDate(d)
    ensures NextDay(PreviousDay(d)) == d
  {
  }

  lemma PreviousOfNext(d: CalendarDate)
    requires ValidDate(d)
    ensures PreviousDay(NextDay(d)) == d
  {
  }

  /** No valid date lies strictly between the day before `d` and `d`. */
  lemma PreviousDayIsAdjacent(d: CalendarDate, e: CalendarDate)
    requires ValidDate(d) && ValidDate(e)
    ensures !(Before(PreviousDay(d), e) && Before(e, d))
  {
  }

  /** What a divider says; the two date-bearing labels are rendered by the locale. */
  datatype DateLabel =
    | Today
    | Yesterday
    | WeekdayMonthDay(date: CalendarDate)
    | WeekdayMonthDayYear(date: CalendarDate)

  /**
   * The label for `date` seen on `today`. The year test comes first, then
   * equality with today, then with the day before today.
   */
  function FormatMessageDate(date: CalendarDate, today: CalendarDate): (l: DateLabel)
    requires ValidDate(today)
    ensures l.WeekdayMonthDayYear? <==> date.year != today.year
    ensures l == Today <==> date == today
    ensures l == Yesterday <==> date.year == today.year && date == PreviousDay(today)
    ensures l.WeekdayMonthDay? <==>
      date.year == today.year && date != today && date != PreviousDay(today)
    ensures l.WeekdayMonthDayYear? || l.WeekdayMonthDay? ==> l.date == date
  {
    if date.year != today.year then WeekdayMonthDayYear(date)
    else if date == today then Today
    else if date == PreviousDay(today) then Yesterday
    else WeekdayMonthDay(date)
  }

  /** "Yesterday" labels exactly the dates whose next day is today (within today's year). */
  lemma YesterdayMeansDayBefore(date: CalendarDate, today: CalendarDate)
    requires ValidDate(date) && ValidDate(today)
    ensures FormatMessageDate(date, today) == Yesterday <==>
      date.year == today.year && NextDay(date) == today
  {
    if NextDay(date) == today {
      PreviousOfNext(date);
    }
    if date == PreviousDay(today) {
      NextOfPrevious(today);
    }
  }

  /**
   * Because the year test is made first, on 1 January the previous day
   * (31 December of the year before) gets the full label with its year,
   * never "Yesterday".
   */
  lemma NewYearsDayHasNoYesterday(y: int)
    ensures PreviousDay(CalendarDate(y, 1, 1)) == CalendarDate(y - 1, 12, 31)
    ensures FormatMessageDate(CalendarDate(y - 1, 12, 31), CalendarDate(y, 1, 1))
         == WeekdayMonthDayYear(CalendarDate(y - 1, 12, 31))
  {
  }
}
