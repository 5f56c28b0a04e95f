/** Dates of the Gregorian calendar, and adding months and days to them. */
module Calendar {

  /** `month` counts the months from year 0 on: 12 times the year, and the number of the month from 0 on. */
  datatype Date = Date(month: int, day: int)

  predicate Leap(year: int) {
    year % 4 == 0 && (year % 100 != 0 || year % 400 == 0)
  }

  function DaysIn(month: int): (days: int)
    ensures 28 <= days <= 31
  {
    var m := month % 12;
    if m == 1 then (if Leap(month / 12) then 29 else 28)
    else if m == 3 || m == 5 || m == 8 || m == 10 then 30
    else 31
  }

  predicate Valid(d: Date) {
    1 <= d.day <= DaysIn(d.month)
  }

  predicate Before(a: Date, b: Date) {
    a.month < b.month || (a.month == b.month && a.day < b.day)
  }

  predicate AtMost(a: Date, b: Date) {
    !Before(b, a)
  }

  function Min(a: int, b: int): int {
    if a <= b then a else b
  }

  /** A day that the month does not have becomes its last day. */
  function AddMonths(d: Date, n: int): (r: Date)
    requires Valid(d)
    ensures Valid(r)
  {
    Date(d.month + n, Min(d.day, DaysIn(d.month + n)))
  }

  function NextDay(d: Date): (r: Date)
    requires Valid(d)
    ensures Valid(r)
  {
    if d.day < DaysIn(d.month) then Date(d.month, d.day + 1) else Date(d.month + 1, 1)
  }

  function PreviousDay(d: Date): (r: Date)
    requires Valid(d)
    ensures Valid(r)
  {
    if d.day > 1 then Date(d.month, d.day - 1) else Date(d.month - 1, DaysIn(d.month - 1))
  }

  /** The two are inverse, and no date lies between a date and the next. */
  lemma NextAndPrevious(d: Date, x: Date)
    requires Valid(d) && Valid(x)
    ensures NextDay(PreviousDay(d)) == d && PreviousDay(NextDay(d)) == d
    ensures Before(d, x) <==> AtMost(NextDay(d), x)
  {}

  /**
   * The difference of two dates in whole months, as dateutil's relativedelta finds it: it starts from
   * the difference of the months and corrects it where that goes past the end.
   */
  function MonthsBetween(start: Date, end: Date): int
    requires Valid(start) && Valid(end)
  {
    var months := end.month - start.month;
    var reached := AddMonths(start, months);
    if Before(end, start) then (if Before(reached, end) then months + 1 else months)
    else if Before(end, reached) then months - 1 else months
  }

  /** It is the greatest number of months that does not go past the end. */
  lemma MonthsBetweenIsGreatest(start: Date, end: Date, n: int)
    requires Valid(start) && Valid(end) && AtMost(start, end)
    ensures MonthsBetween(start, end) >= 0
    ensures AtMost(AddMonths(start, n), end) <==> n <= MonthsBetween(start, end)
  {}

  /**
   * The lengths of the months from January on; February has one day more exactly in every fourth year
   * that is no century, and in every fourth century.
   */
  lemma MonthLengths(year: int, n: int)
    requires 0 <= n < 12
    ensures var february := if (if year % 100 == 0 then year % 400 == 0 else year % 4 == 0) then 29 else 28;
            DaysIn(12 * year + n) == [31, february, 31, 30, 31, 30, 31, 31, 30, 31, 30, 31][n]
  {
    var m := 12 * year + n;
    assert m % 12 == n && m / 12 == year;
  }

  /** Adding months gives the latest date of the month reached that has no later day. */
  lemma AddMonthsIsLatest(d: Date, n: int, x: Date)
    requires Valid(d) && Valid(x) && x.month == d.month + n && x.day <= d.day
    ensures AddMonths(d, n).month == d.month + n && AddMonths(d, n).day <= d.day && AtMost(x, AddMonths(d, n))
  {}
}
