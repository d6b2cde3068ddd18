/** The day-count to date conversion of engine/src/version.rs, against the calendar of RFC 3339, section 5.7
    and appendix C, extended backwards without limit. */
module CivilCalendar {
  datatype Date = Date(year: int, month: int, day: int)

  /** The quotient and the remainder are the only ones. */
  lemma Divides(a: int, b: int, quotient: int, rest: int)
    requires 0 <= rest < b && a == b * quotient + rest
    ensures a / b == quotient && a % b == rest
  {
    var other, over := a / b, a % b;
    var gap := quotient - other;
    assert b * gap == over - rest by {
      assert a == b * other + over;
      assert b * quotient == b * other + b * gap;
    }
    if gap > 0 {
      AtLeast(b, gap);
    } else if gap < 0 {
      AtLeast(b, -gap);
    }
  }

  lemma AtLeast(b: int, n: int)
    requires b > 0 && n > 0
    ensures b * n >= b
  {
    assert b * n == b + b * (n - 1);
  }

  // ---------- The calendar ----------

  predicate IsLeap(year: int) {
    year % 4 == 0 && (year % 100 != 0 || year % 400 == 0)
  }

  function DaysInMonth(year: int, month: int): (n: int)
    requires 1 <= month <= 12
    ensures 28 <= n <= 31
  {
    if month == 2 then (if IsLeap(year) then 29 else 28)
    else if month in {4, 6, 9, 11} then 30
    else 31
  }

  predicate IsDate(date: Date) {
    1 <= date.month <= 12 && 1 <= date.day <= DaysInMonth(date.year, date.month)
  }

  function NextDay(date: Date): (next: Date)
    requires IsDate(date)
    ensures IsDate(next)
  {
    if date.day < DaysInMonth(date.year, date.month) then date.(day := date.day + 1)
    else if date.month < 12 then Date(date.year, date.month + 1, 1)
    else Date(date.year + 1, 1, 1)
  }

  /** Days from 1 January 1970 to 1 January of `year`, from the leap-year rule alone. */
  function DaysToYear(year: int): int {
    365 * (year - 1970) + LeapsBefore(year) - LeapsBefore(1970)
  }

  /** Leap years from year 1 to the year before this one; negative before year 1. */
  function LeapsBefore(year: int): int {
    (year - 1) / 4 - (year - 1) / 100 + (year - 1) / 400
  }

  function DaysToMonth(year: int, month: int): int
    requires 1 <= month <= 13
    decreases month
  {
    if month == 1 then 0 else DaysToMonth(year, month - 1) + DaysInMonth(year, month - 1)
  }

  function DayNumber(date: Date): int
    requires IsDate(date)
  {
    DaysToYear(date.year) + DaysToMonth(date.year, date.month) + date.day - 1
  }

  lemma QuotientSteps(year: int, period: int)
    requires period > 1
    ensures year / period == (year - 1) / period + if year % period == 0 then 1 else 0
  {
    var rest := year % period;
    if rest == 0 {
      Divides(year - 1, period, year / period - 1, period - 1);
    } else {
      Divides(year - 1, period, year / period, rest - 1);
    }
  }

  lemma CenturiesAreFours(year: int)
    ensures year % 100 == 0 ==> year % 4 == 0
    ensures year % 400 == 0 ==> year % 100 == 0
  {
    if year % 100 == 0 {
      Divides(year, 4, 25 * (year / 100), 0);
    }
    if year % 400 == 0 {
      Divides(year, 100, 4 * (year / 400), 0);
    }
  }

  lemma LeapsCountLeapYears(year: int)
    ensures LeapsBefore(year + 1) == LeapsBefore(year) + if IsLeap(year) then 1 else 0
    ensures DaysToYear(year + 1) == DaysToYear(year) + if IsLeap(year) then 366 else 365
  {
    QuotientSteps(year, 4);
    QuotientSteps(year, 100);
    QuotientSteps(year, 400);
    CenturiesAreFours(year);
  }

  /** Where each month of the year starts, and where the year ends. */
  lemma MonthStarts(year: int)
    ensures DaysToMonth(year, 2) == 31
    ensures var leap := if IsLeap(year) then 1 else 0;
      && DaysToMonth(year, 3) == 59 + leap && DaysToMonth(year, 4) == 90 + leap && DaysToMonth(year, 5) == 120 + leap
      && DaysToMonth(year, 6) == 151 + leap && DaysToMonth(year, 7) == 181 + leap && DaysToMonth(year, 8) == 212 + leap
      && DaysToMonth(year, 9) == 243 + leap && DaysToMonth(year, 10) == 273 + leap && DaysToMonth(year, 11) == 304 + leap
      && DaysToMonth(year, 12) == 334 + leap && DaysToMonth(year, 13) == 365 + leap
  {
    assert DaysToMonth(year, 1) == 0;
    assert DaysToMonth(year, 3) == DaysToMonth(year, 2) + DaysInMonth(year, 2);
    assert DaysToMonth(year, 5) == DaysToMonth(year, 4) + DaysInMonth(year, 4);
    assert DaysToMonth(year, 7) == DaysToMonth(year, 6) + DaysInMonth(year, 6);
    assert DaysToMonth(year, 9) == DaysToMonth(year, 8) + DaysInMonth(year, 8);
    assert DaysToMonth(year, 11) == DaysToMonth(year, 10) + DaysInMonth(year, 10);
    assert DaysToMonth(year, 13) == DaysToMonth(year, 12) + DaysInMonth(year, 12);
  }

  /** The day number counts days: it is 0 on the epoch and one more the next day. */
  lemma DayNumberCounts(date: Date)
    requires IsDate(date)
    ensures DayNumber(Date(1970, 1, 1)) == 0
    ensures DayNumber(NextDay(date)) == DayNumber(date) + 1
  {
    hide LeapsBefore, IsLeap;
    MonthStarts(date.year);
    LeapsCountLeapYears(date.year);
    assert DaysToMonth(date.year, date.month + 1) == DaysToMonth(date.year, date.month) + DaysInMonth(date.year, date.month);
  }

  lemma {:induction false} MonthsInOrder(year: int, a: int, b: int)
    requires 1 <= a <= b <= 13
    ensures DaysToMonth(year, a) <= DaysToMonth(year, b)
    decreases b
  {
    if a < b {
      MonthsInOrder(year, a, b - 1);
    }
  }

  lemma {:induction false} YearsInOrder(a: int, b: int)
    requires a <= b
    ensures DaysToYear(a) <= DaysToYear(b)
    decreases b - a
  {
    if a < b {
      YearsInOrder(a, b - 1);
      LeapsCountLeapYears(b - 1);
    }
  }

  lemma DayNumberInYear(date: Date)
    requires IsDate(date)
    ensures DaysToYear(date.year) <= DayNumber(date) < DaysToYear(date.year + 1)
  {
    MonthStarts(date.year);
    MonthsInOrder(date.year, 1, date.month);
    MonthsInOrder(date.year, date.month + 1, 13);
    LeapsCountLeapYears(date.year);
  }

  lemma DatesAreNotEarlier(a: Date, b: Date)
    requires IsDate(a) && IsDate(b) && DayNumber(a) == DayNumber(b)
    ensures a.year <= b.year
    ensures a.year == b.year ==> a.month <= b.month
  {
    hide DaysInMonth, DaysToYear, IsLeap;
    DayNumberInYear(a);
    DayNumberInYear(b);
    if a.year > b.year {
      YearsInOrder(b.year + 1, a.year);
    } else if a.year == b.year && a.month > b.month {
      MonthsInOrder(a.year, b.month + 1, a.month);
    }
  }

  /** Different dates have different numbers. */
  lemma DayNumberIsInjective(a: Date, b: Date)
    requires IsDate(a) && IsDate(b) && DayNumber(a) == DayNumber(b)
    ensures a == b
  {
    DatesAreNotEarlier(a, b);
    DatesAreNotEarlier(b, a);
  }

  // ---------- The conversion ----------

  /** Rust's division on signed integers, which drops the fraction. */
  function Quotient(a: int, b: int): int
    requires b > 0
  {
    if a >= 0 then a / b else -(-a / b)
  }

  function Era(z: int): (era: int)
    ensures 146097 * era <= z < 146097 * (era + 1)
  {
    Quotient(if z >= 0 then z else z - 146096, 146097)
  }

  function YearOfEra(dayOfEra: int): int {
    Quotient(dayOfEra - Quotient(dayOfEra, 1460) + Quotient(dayOfEra, 36524) - Quotient(dayOfEra, 146096), 365)
  }

  function DayOfYear(dayOfEra: int, yearOfEra: int): int {
    dayOfEra - (365 * yearOfEra + Quotient(yearOfEra, 4) - Quotient(yearOfEra, 100))
  }

  /** A year that starts in March: month and day from the number of days since 1 March. */
  function MonthAndDay(dayOfYear: int): (int, int) {
    var shifted := Quotient(5 * dayOfYear + 2, 153);
    (shifted + if shifted < 10 then 3 else -9, dayOfYear - Quotient(153 * shifted + 2, 5) + 1)
  }

  function CivilFromDays(days: int): Date {
    var z := days + 719468;
    var era := Era(z);
    var dayOfEra := z - era * 146097;
    var yearOfEra := YearOfEra(dayOfEra);
    var (month, day) := MonthAndDay(DayOfYear(dayOfEra, yearOfEra));
    Date(yearOfEra + era * 400 + if month <= 2 then 1 else 0, month, day)
  }

  /** An era is four centuries of 36524 days and a day, a century 25 times 1461 days less one, and the correction
      terms of the formula round the years correctly at each of those ends. */
  lemma YearOfEraIsRight(century: int, quad: int, rest: int)
    requires 0 <= century <= 3 && 0 <= quad <= 24 && 0 <= rest <= 1460
    requires century < 3 && quad == 24 ==> rest < 1460
    ensures var dayOfEra := 36524 * century + 1461 * quad + rest;
            var year := if rest == 1460 then 3 else rest / 365;
            && YearOfEra(dayOfEra) == 100 * century + 4 * quad + year
            && DayOfYear(dayOfEra, YearOfEra(dayOfEra)) == rest - 365 * year
  {
    var dayOfEra := 36524 * century + 1461 * quad + rest;
    var year := if rest == 1460 then 3 else rest / 365;
    var late := if 24 * century + quad + rest >= 1460 then 1 else 0;
    Divides(dayOfEra, 1460, 25 * century + quad + late, 24 * century + quad + rest - 1460 * late);
    if dayOfEra == 146096 {
      assert century == 3 && quad == 24 && rest == 1460;
    } else {
      Divides(dayOfEra, 36524, century, 1461 * quad + rest);
      Divides(dayOfEra, 146096, 0, dayOfEra);
    }
    var years := 100 * century + 4 * quad + year;
    Divides(dayOfEra - dayOfEra / 1460 + century, 365, years, rest - late - 365 * year);
    Divides(years, 4, 25 * century + quad, year);
    Divides(years, 100, century, 4 * quad + year);
  }

  lemma LastYearIsLeap(century: int, quad: int)
    requires 0 <= century <= 3 && 0 <= quad <= 24 && (quad == 24 ==> century == 3)
    ensures IsLeap(100 * century + 4 * quad + 4)
  {
    var year := 100 * century + 4 * quad + 4;
    Divides(year, 4, 25 * century + quad + 1, 0);
    if quad < 24 {
      Divides(year, 100, century, 4 * quad + 4);
    }
  }

  /** The year has 366 days only when the February at its end is in a leap year. */
  lemma YearOfEraBounds(dayOfEra: int) returns (year: int, dayOfYear: int)
    requires 0 <= dayOfEra < 146097
    ensures year == YearOfEra(dayOfEra) && dayOfYear == DayOfYear(dayOfEra, year)
    ensures 0 <= year <= 399 && 0 <= dayOfYear <= 365
    ensures dayOfEra == 365 * year + year / 4 - year / 100 + dayOfYear
    ensures dayOfYear == 365 ==> IsLeap(year + 1)
  {
    hide YearOfEra, IsLeap;
    year, dayOfYear := YearOfEra(dayOfEra), DayOfYear(dayOfEra, YearOfEra(dayOfEra));
    var century := if dayOfEra == 146096 then 3 else dayOfEra / 36524;
    var inCentury := dayOfEra - 36524 * century;
    var quad := inCentury / 1461;
    var rest := inCentury - 1461 * quad;
    YearOfEraIsRight(century, quad, rest);
    if rest == 1460 {
      LastYearIsLeap(century, quad);
    }
  }

  lemma MonthAndDayIsRight(dayOfYear: int, marchYear: int)
    requires 0 <= dayOfYear <= 365 && (dayOfYear == 365 ==> IsLeap(marchYear + 1))
    ensures var (month, day) := MonthAndDay(dayOfYear);
            var date := Date(marchYear + if month <= 2 then 1 else 0, month, day);
            IsDate(date) && DayNumber(date) == DaysToYear(marchYear + 1) - 306 + dayOfYear
  {
    MonthStarts(marchYear);
    MonthStarts(marchYear + 1);
    LeapsCountLeapYears(marchYear);
  }

  lemma ErasRepeat(era: int, year: int)
    requires 0 <= year <= 399
    ensures IsLeap(400 * era + year + 1) == IsLeap(year + 1)
    ensures DaysToYear(400 * era + year + 1) == 146097 * era + 365 * year + year / 4 - year / 100 - 719162
  {
    var y := 400 * era + year;
    Divides(y, 4, 100 * era + year / 4, year % 4);
    Divides(y, 100, 4 * era + year / 100, year % 100);
    Divides(y, 400, era, year);
    QuotientSteps(y + 1, 4);
    QuotientSteps(y + 1, 100);
    QuotientSteps(y + 1, 400);
    QuotientSteps(year + 1, 4);
    QuotientSteps(year + 1, 100);
    QuotientSteps(year + 1, 400);
  }

  /** Every day number, negative ones included, gives a date of the calendar whose day number it is. */
  lemma CivilFromDaysIsRight(days: int)
    ensures IsDate(CivilFromDays(days)) && DayNumber(CivilFromDays(days)) == days
  {
    hide YearOfEra, DayOfYear, MonthAndDay, DayNumber, DaysToYear, IsDate, IsLeap;
    var z := days + 719468;
    var era := Era(z);
    var year, dayOfYear := YearOfEraBounds(z - era * 146097);
    ErasRepeat(era, year);
    MonthAndDayIsRight(dayOfYear, 400 * era + year);
  }

  /** The conversion is the inverse of day counting, in both directions. */
  lemma CivilFromDaysInverts(date: Date)
    requires IsDate(date)
    ensures CivilFromDays(DayNumber(date)) == date
  {
    hide DayNumber, CivilFromDays;
    CivilFromDaysIsRight(DayNumber(date));
    DayNumberIsInjective(CivilFromDays(DayNumber(date)), date);
  }

  /** Day 0 is 1 January 1970, and consecutive days have consecutive dates. */
  lemma ConsecutiveDays(days: int)
    ensures CivilFromDays(0) == Date(1970, 1, 1)
    ensures IsDate(CivilFromDays(days)) && CivilFromDays(days + 1) == NextDay(CivilFromDays(days))
  {
    hide DayNumber, CivilFromDays, NextDay;
    CivilFromDaysIsRight(days);
    DayNumberCounts(CivilFromDays(days));
    CivilFromDaysInverts(NextDay(CivilFromDays(days)));
    CivilFromDaysInverts(Date(1970, 1, 1));
  }
}
