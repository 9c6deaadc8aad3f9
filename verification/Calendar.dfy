/** The Gregorian calendar in days and in months, and adding months to a date. */
module Calendar {

  /** How many multiples of n there are from 0 up to the year, the year excluded. */
  function Multiples(year: int, n: nat): int
    requires n > 0
  {
    (year + n - 1) / n
  }

  /** Days before the first of January of the year; year 0 is a leap year. */
  function DaysBeforeYear(year: int): int {
    365 * year + Multiples(year, 4) - Multiples(year, 100) + Multiples(year, 400)
  }

  predicate Divides(n: nat, year: int)
    requires n > 0
  {
    year % n == 0
  }

  predicate IsLeap(year: int) {
    Divides(4, year) && (Divides(100, year) ==> Divides(400, year))
  }

  /** Days of a common year before its month (0 is January). */
  function DaysBeforeMonth(month: int): int
    requires 0 <= month < 12
  {
    [0, 31, 59, 90, 120, 151, 181, 212, 243, 273, 304, 334][month]
  }

  function DaysInMonth(m: int): int {
    match m % 12
    case 1 => if IsLeap(m / 12) then 29 else 28
    case 3 => 30
    case 5 => 30
    case 8 => 30
    case 10 => 30
    case _ => 31
  }

  /** The first day of month m, counted from the January of year 0. */
  function MonthStart(m: int): int {
    DaysBeforeYear(m / 12) + DaysBeforeMonth(m % 12) + if m % 12 > 1 && IsLeap(m / 12) then 1 else 0
  }

  lemma YearLength(year: int)
    ensures DaysBeforeYear(year + 1) == DaysBeforeYear(year) + if IsLeap(year) then 366 else 365
  {
    hide Multiples, Divides;
    NextMultiple(year, 4);
    NextMultiple(year, 100);
    NextMultiple(year, 400);
    Centuries(year);
  }

  lemma NextMultiple(year: int, n: nat)
    requires n == 4 || n == 100 || n == 400
    ensures Multiples(year + 1, n) == Multiples(year, n) + if Divides(n, year) then 1 else 0
  {
    hide Multiples, Divides;
    if n == 4 {
      NextFourth(year);
    } else if n == 100 {
      NextCentury(year);
    } else {
      NextFourCenturies(year);
    }
  }

  lemma NextFourth(year: int)
    ensures Multiples(year + 1, 4) == Multiples(year, 4) + if Divides(4, year) then 1 else 0
  {
  }

  lemma NextCentury(year: int)
    ensures Multiples(year + 1, 100) == Multiples(year, 100) + if Divides(100, year) then 1 else 0
  {
  }

  lemma NextFourCenturies(year: int)
    ensures Multiples(year + 1, 400) == Multiples(year, 400) + if Divides(400, year) then 1 else 0
  {
  }

  lemma Centuries(year: int)
    ensures Divides(400, year) ==> Divides(100, year)
    ensures Divides(100, year) ==> Divides(4, year)
  {
  }

  /** A month ends where the next one begins. */
  lemma NextMonth(m: int)
    ensures MonthStart(m + 1) == MonthStart(m) + DaysInMonth(m)
  {
    hide DaysBeforeYear, IsLeap;
    if m % 12 == 11 {
      assert (m + 1) / 12 == m / 12 + 1 && (m + 1) % 12 == 0;
      YearLength(m / 12);
    } else {
      assert (m + 1) / 12 == m / 12 && (m + 1) % 12 == m % 12 + 1;
    }
  }

  lemma {:induction false} MonthsAscend(m: int, n: int)
    requires m <= n
    ensures MonthStart(n) >= MonthStart(m) + 28 * (n - m)
    decreases n - m
  {
    hide MonthStart, DaysBeforeYear;
    if m < n {
      MonthsAscend(m, n - 1);
      NextMonth(n - 1);
    }
  }

  predicate InMonth(day: int, m: int) {
    MonthStart(m) <= day < MonthStart(m + 1)
  }

  /** Months are disjoint. */
  lemma OneMonth(day: int, m: int, n: int)
    requires InMonth(day, m) && InMonth(day, n)
    ensures m == n
  {
    hide MonthStart;
    if m < n {
      MonthsAscend(m + 1, n);
    }
    if n < m {
      MonthsAscend(n + 1, m);
    }
  }

  function Distance(day: int, m: int): nat {
    if day < MonthStart(m) then MonthStart(m) - day
    else if day >= MonthStart(m + 1) then day - MonthStart(m + 1) + 1
    else 0
  }

  lemma Closer(day: int, m: int)
    ensures day < MonthStart(m) ==> Distance(day, m - 1) < Distance(day, m)
    ensures day >= MonthStart(m + 1) ==> Distance(day, m + 1) < Distance(day, m)
  {
    hide MonthStart;
    NextMonth(m - 1);
    NextMonth(m);
    NextMonth(m + 1);
  }

  function MonthFrom(day: int, m: int): (r: int)
    ensures InMonth(day, r)
    decreases Distance(day, m)
  {
    Closer(day, m);
    if day < MonthStart(m) then MonthFrom(day, m - 1)
    else if day >= MonthStart(m + 1) then MonthFrom(day, m + 1)
    else m
  }

  /** The month of a day. */
  function MonthOf(day: int): (m: int)
    ensures InMonth(day, m)
  {
    MonthFrom(day, 0)
  }

  /** A date plus months: the same day of the month, or the last one of a shorter month. */
  function AddMonths(day: int, months: int): int {
    var m := MonthOf(day);
    var last := DaysInMonth(m + months) - 1;
    MonthStart(m + months) + if day - MonthStart(m) <= last then day - MonthStart(m) else last
  }

  /** The month a number of months ahead, whatever the day of the month is today. */
  lemma MonthsAhead(day: int, months: int)
    ensures MonthOf(AddMonths(day, months)) == MonthOf(day) + months
  {
    hide MonthStart, MonthOf, DaysInMonth;
    var m := MonthOf(day);
    NextMonth(m + months);
    assert DaysInMonth(m + months) >= 28 by { MonthLength(m + months); }
    OneMonth(AddMonths(day, months), MonthOf(AddMonths(day, months)), m + months);
  }

  lemma MonthLength(m: int)
    ensures 28 <= DaysInMonth(m) <= 31
  {
  }

  /** Months of the Gregorian calendar: four hundred years are 146,097 days. */
  lemma Cycle(m: int)
    ensures MonthStart(m + 4800) == MonthStart(m) + 146_097
    ensures DaysInMonth(m + 4800) == DaysInMonth(m)
  {
    hide IsLeap;
    var y := m / 12;
    assert (m + 4800) / 12 == y + 400 && (m + 4800) % 12 == m % 12;
    CycleYears(y);
  }

  lemma CycleYears(year: int)
    ensures DaysBeforeYear(year + 400) == DaysBeforeYear(year) + 146_097
    ensures IsLeap(year + 400) <==> IsLeap(year)
  {
    hide Multiples, Divides;
    MoreFourths(year);
    MoreCenturies(year);
    MoreFourHundreds(year);
  }

  lemma MoreFourths(year: int)
    ensures Multiples(year + 400, 4) == Multiples(year, 4) + 100
    ensures Divides(4, year + 400) <==> Divides(4, year)
  {
  }

  lemma MoreCenturies(year: int)
    ensures Multiples(year + 400, 100) == Multiples(year, 100) + 4
    ensures Divides(100, year + 400) <==> Divides(100, year)
  {
  }

  lemma MoreFourHundreds(year: int)
    ensures Multiples(year + 400, 400) == Multiples(year, 400) + 1
    ensures Divides(400, year + 400) <==> Divides(400, year)
  {
  }

  /** Years divisible by 4 are leap years, but of those divisible by 100 only those divisible by 400. */
  lemma LeapYears(year: int)
    ensures DaysInMonth(12 * year + 1)
            == if year % 400 == 0 || (year % 4 == 0 && year % 100 != 0) then 29 else 28
  {
    hide IsLeap;
    February(year);
    LeapIs(year);
  }

  lemma February(year: int)
    ensures DaysInMonth(12 * year + 1) == if IsLeap(year) then 29 else 28
  {
    hide IsLeap;
    YearOf(year);
  }

  lemma YearOf(year: int)
    ensures (12 * year + 1) / 12 == year && (12 * year + 1) % 12 == 1
  {
  }

  lemma LeapIs(year: int)
    ensures IsLeap(year) <==> year % 400 == 0 || (year % 4 == 0 && year % 100 != 0)
  {
    Centuries(year);
  }

  /** The calendar is in step with the epoch of Unix: 1970 begins 719,528 days after year 0. */
  lemma Epoch()
    ensures MonthStart(12 * 1970) == 719_528
    ensures MonthStart(12 * 2000 + 2) == 719_528 + 11_017
  {
  }

  /** The day of the month stays when months are added, or is the last one of a shorter month. */
  lemma DayKept(day: int, months: int)
    ensures var m, n, t := MonthOf(day), MonthOf(day) + months, AddMonths(day, months);
            t - MonthStart(n) == if day - MonthStart(m) < DaysInMonth(n) then day - MonthStart(m) else DaysInMonth(n) - 1
  {
    hide MonthStart, MonthOf, DaysInMonth;
  }
}
