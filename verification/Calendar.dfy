/** base/Date.cpp: the Julian day number of a Gregorian date and its inverse. */
module Calendar {
  import opened CInt

  datatype YearMonthDay = YearMonthDay(year: int, month: int, day: int)

  // ---- The calendar itself, independent of the conversion formulas ----

  predicate IsLeap(year: int) {
    year % 4 == 0 && (year % 100 != 0 || year % 400 == 0)
  }

  function DaysInMonth(year: int, month: int): int {
    if month == 2 then (if IsLeap(year) then 29 else 28)
    else if month in {4, 6, 9, 11} then 30
    else 31
  }

  predicate ValidDate(date: YearMonthDay) {
    1 <= date.month <= 12 && 1 <= date.day <= DaysInMonth(date.year, date.month)
  }

  /** The day after `date` in the proleptic Gregorian calendar. */
  function Tomorrow(date: YearMonthDay): YearMonthDay {
    if date.day < DaysInMonth(date.year, date.month) then date.(day := date.day + 1)
    else if date.month < 12 then YearMonthDay(date.year, date.month + 1, 1)
    else YearMonthDay(date.year + 1, 1, 1)
  }

  /** Dates the conversion formulas are meant for: 1 March -4800 onwards. */
  predicate InDomain(date: YearMonthDay) {
    ValidDate(date) && (date.year > -4800 || (date.year == -4800 && 3 <= date.month))
  }

  const FIRST_DAY := -32044

  // ---- The code ----

  /** getJulianDayNumber */
  function JulianDayNumber(year: int, month: int, day: int): int {
    var a := Div(14 - month, 12);
    var y := year + 4800 - a;
    var m := month + 12 * a - 3;
    day + Div(153 * m + 2, 5) + y * 365 + Div(y, 4) - Div(y, 100) + Div(y, 400) - 32045
  }

  function DayNumber(date: YearMonthDay): int {
    JulianDayNumber(date.year, date.month, date.day)
  }

  /** getYearMonthDay */
  function ToYearMonthDay(julianDayNumber: int): YearMonthDay {
    var a := julianDayNumber + 32044;
    var b := Div(4 * a + 3, 146097);
    var c := a - Div(b * 146097, 4);
    var d := Div(4 * c + 3, 1461);
    var e := c - Div(1461 * d, 4);
    var m := Div(5 * e + 2, 153);
    YearMonthDay(b * 100 + d - 4800 + Div(m, 10), m + 3 - 12 * Div(m, 10), e - Div(153 * m + 2, 5) + 1)
  }

  /** Date::weekDay, 0 for Sunday */
  function WeekDay(julianDayNumber: int): int {
    Mod(julianDayNumber + 1, 7)
  }

  // ---- March-based years, in which the leap day comes last ----

  /** 0 for the year that starts on 1 March -4800 */
  function MarchYear(date: YearMonthDay): int {
    date.year + 4800 - (if date.month <= 2 then 1 else 0)
  }

  /** 0 for March to 11 for February */
  function MarchMonth(date: YearMonthDay): int {
    date.month + (if date.month <= 2 then 9 else -3)
  }

  function DayOfMarchYear(date: YearMonthDay): int {
    date.day - 1 + (153 * MarchMonth(date) + 2) / 5
  }

  /** The days of the first y years. */
  function YearDays(y: int): int {
    365 * y + y / 4 - y / 100 + y / 400
  }

  lemma DayNumberParts(date: YearMonthDay)
    requires InDomain(date)
    ensures 0 <= MarchYear(date)
    ensures DayNumber(date) + 32044 == DayOfMarchYear(date) + YearDays(MarchYear(date))
  {
  }

  lemma QuotientStep(y: int)
    requires 0 <= y
    ensures (y + 1) / 4 == y / 4 + (if (y + 1) % 4 == 0 then 1 else 0)
    ensures (y + 1) / 100 == y / 100 + (if (y + 1) % 100 == 0 then 1 else 0)
    ensures (y + 1) / 400 == y / 400 + (if (y + 1) % 400 == 0 then 1 else 0)
  {
  }

  lemma LeapNesting(y: int)
    ensures y % 400 == 0 ==> y % 100 == 0
    ensures y % 100 == 0 ==> y % 4 == 0
  {
    Multiple(y, y / 400, 4, 100);
    Multiple(y, y / 100, 25, 4);
  }

  lemma Multiple(y: int, q: int, j: int, k: int)
    requires (j == 4 && k == 100) || (j == 25 && k == 4)
    ensures y == j * k * q ==> y % k == 0
  {
    if y == j * k * q {
      assert j * k * q == k * (j * q);
    }
  }

  lemma YearDaysStep(y: int)
    requires 0 <= y
    ensures YearDays(y + 1) == YearDays(y) + if IsLeap(y + 1) then 366 else 365
  {
    QuotientStep(y);
    LeapNesting(y + 1);
  }

  /** 4800 is a multiple of the 400-year cycle. */
  lemma LeapShift(y: int)
    ensures IsLeap(y) == IsLeap(y - 4800)
  {
    assert y % 400 == (y - 4800) % 400 by { var q := y / 400; assert y - 4800 == 400 * (q - 12) + y % 400; }
    assert y % 100 == (y - 4800) % 100 by { var q := y / 100; assert y - 4800 == 100 * (q - 48) + y % 100; }
    assert y % 4 == (y - 4800) % 4 by { var q := y / 4; assert y - 4800 == 4 * (q - 1200) + y % 4; }
  }

  lemma DayOfMonth(date: YearMonthDay)
    requires ValidDate(date)
    ensures 0 <= DayOfMarchYear(date) < (153 * (MarchMonth(date) + 1) + 2) / 5
    ensures DayOfMarchYear(date) <= if IsLeap(MarchYear(date) + 1) then 365 else 364
  {
    hide IsLeap;
    LeapShift(MarchYear(date) + 1);
  }

  lemma TomorrowInMarchYear(date: YearMonthDay)
    requires ValidDate(date)
    ensures ValidDate(Tomorrow(date))
    ensures var next := Tomorrow(date);
            if date.month == 2 && next.month == 3
            then MarchYear(next) == MarchYear(date) + 1 && DayOfMarchYear(next) == 0
                 && DayOfMarchYear(date) == if IsLeap(MarchYear(date) + 1) then 365 else 364
            else MarchYear(next) == MarchYear(date) && DayOfMarchYear(next) == DayOfMarchYear(date) + 1
  {
    hide IsLeap;
    LeapShift(MarchYear(date) + 1);
  }

  /** The day number follows the calendar. */
  lemma TomorrowIsNextDay(date: YearMonthDay)
    requires InDomain(date)
    ensures InDomain(Tomorrow(date))
    ensures DayNumber(Tomorrow(date)) == DayNumber(date) + 1
  {
    hide JulianDayNumber, YearDays, IsLeap, DayOfMarchYear;
    TomorrowInMarchYear(date);
    DayNumberParts(date);
    DayNumberParts(Tomorrow(date));
    YearDaysStep(MarchYear(date));
  }

  // ---- Round trips ----

  lemma MonthOfYearDay(m: int, e: int)
    requires 0 <= m <= 11 && (153 * m + 2) / 5 <= e < (153 * (m + 1) + 2) / 5
    ensures Div(5 * e + 2, 153) == m && Div(153 * m + 2, 5) == (153 * m + 2) / 5 && Div(m, 10) == if m < 10 then 0 else 1
  {
  }

  lemma YearOfCenturyDay(d: int, e: int)
    requires 0 <= d && 0 <= e <= (if d % 4 == 3 then 365 else 364)
    ensures var c := 365 * d + d / 4 + e; Div(4 * c + 3, 1461) == d && Div(1461 * d, 4) == 365 * d + d / 4
  {
  }

  lemma CenturyOfDay(b: int, c: int)
    requires 0 <= b && 0 <= c <= (if b % 4 == 3 then 36524 else 36523)
    ensures var a := 36524 * b + b / 4 + c; Div(4 * a + 3, 146097) == b && Div(b * 146097, 4) == 36524 * b + b / 4
  {
  }

  /** A March-based year splits into centuries and years the way the leap rule does. */
  lemma SplitYear(y: int, e: int)
    requires 0 <= y && 0 <= e <= if IsLeap(y + 1) then 365 else 364
    ensures var b, d := y / 100, y % 100;
            && 0 <= e <= (if d % 4 == 3 then 365 else 364)
            && 0 <= 365 * d + d / 4 + e <= (if b % 4 == 3 then 36524 else 36523)
            && YearDays(y) == 36524 * b + b / 4 + 365 * d + d / 4
  {
    var b, d := y / 100, y % 100;
    assert y == 100 * b + d;
    SplitQuotients(b, d);
  }

  lemma QuarterAndRest(q: int, r: int)
    requires 0 <= r < 4
    ensures (4 * q + r) / 4 == q && (4 * q + r) % 4 == r
  {
  }

  lemma SplitBy4(b: int, d: int)
    requires 0 <= b && 0 <= d < 100
    ensures (100 * b + d) / 4 == 25 * b + d / 4 && (100 * b + d) % 4 == d % 4
  {
    QuarterAndRest(25 * b + d / 4, d % 4);
  }

  lemma NextBy4(b: int, d: int)
    requires 0 <= b && 0 <= d < 100
    ensures (100 * b + d + 1) % 4 == (d + 1) % 4
  {
    QuarterAndRest(25 * b + (d + 1) / 4, (d + 1) % 4);
  }

  lemma SplitBy100(b: int, d: int)
    requires 0 <= b && 0 <= d < 100
    ensures (100 * b + d + 1) % 100 == 0 <==> d == 99
  {
    if d == 99 {
      assert 100 * b + d + 1 == 100 * (b + 1);
    } else {
      assert (100 * b + d + 1) / 100 == b;
    }
  }

  lemma SplitBy400(b: int, d: int)
    requires 0 <= b && 0 <= d < 100
    ensures (100 * b + d) / 400 == b / 4
  {
    assert 100 * b + d == 400 * (b / 4) + (100 * (b % 4) + d);
  }

  lemma LastOf400(b: int, d: int)
    requires 0 <= b && 0 <= d < 100
    ensures (100 * b + d + 1) % 400 == 0 <==> d == 99 && b % 4 == 3
  {
    var r := 100 * (b % 4) + d + 1;
    assert 100 * b + d + 1 == 400 * (b / 4) + r;
    if r == 400 {
      assert 100 * b + d + 1 == 400 * (b / 4 + 1);
    } else {
      assert (100 * b + d + 1) / 400 == b / 4;
    }
  }

  lemma SplitQuotients(b: int, d: int)
    requires 0 <= b && 0 <= d < 100
    ensures var y := 100 * b + d;
            && (y + 1) % 4 == (d + 1) % 4
            && ((y + 1) % 100 == 0 <==> d == 99)
            && ((y + 1) % 400 == 0 <==> d == 99 && b % 4 == 3)
            && y / 4 == 25 * b + d / 4
            && y / 400 == b / 4
  {
    SplitBy4(b, d);
    NextBy4(b, d);
    SplitBy100(b, d);
    SplitBy400(b, d);
    LastOf400(b, d);
  }

  /** getYearMonthDay undoes getJulianDayNumber. */
  lemma DateRoundTrip(date: YearMonthDay)
    requires InDomain(date)
    ensures FIRST_DAY <= DayNumber(date)
    ensures ToYearMonthDay(DayNumber(date)) == date
  {
    hide JulianDayNumber, YearDays, IsLeap, Div;
    var y, m, e := MarchYear(date), MarchMonth(date), DayOfMarchYear(date);
    DayNumberParts(date);
    DayOfMonth(date);
    SplitYear(y, e);
    var b, d := y / 100, y % 100;
    var c := 365 * d + d / 4 + e;
    CenturyOfDay(b, c);
    YearOfCenturyDay(d, e);
    MonthOfYearDay(m, e);
    assert ToYearMonthDay(DayNumber(date)) == YearMonthDay(b * 100 + d - 4800 + Div(m, 10), m + 3 - 12 * Div(m, 10), date.day);
  }

  lemma FirstDay()
    ensures DayNumber(YearMonthDay(-4800, 3, 1)) == FIRST_DAY
    ensures ToYearMonthDay(FIRST_DAY) == YearMonthDay(-4800, 3, 1)
  {
    var date := YearMonthDay(-4800, 3, 1);
    assert DayNumber(date) == FIRST_DAY by {
      hide JulianDayNumber;
      assert MarchYear(date) == 0 && DayOfMarchYear(date) == 0;
      DayNumberParts(date);
    }
    hide JulianDayNumber, ToYearMonthDay;
    DateRoundTrip(date);
  }

  /** getJulianDayNumber undoes getYearMonthDay, whose results are real dates, and consecutive
      day numbers are consecutive dates: the conversion is a bijection that follows the calendar. */
  lemma {:induction false} DayRoundTrip(n: int)
    requires FIRST_DAY <= n
    ensures InDomain(ToYearMonthDay(n))
    ensures DayNumber(ToYearMonthDay(n)) == n
    ensures ToYearMonthDay(n + 1) == Tomorrow(ToYearMonthDay(n))
    decreases n - FIRST_DAY
  {
    hide ToYearMonthDay, JulianDayNumber;
    if n == FIRST_DAY {
      FirstDay();
    } else {
      DayRoundTrip(n - 1);
      TomorrowIsNextDay(ToYearMonthDay(n - 1));
    }
    TomorrowIsNextDay(ToYearMonthDay(n));
    DateRoundTrip(Tomorrow(ToYearMonthDay(n)));
  }

  // ---- 32-bit int ----

  const LAST_DAY := 536838867

  /** Up to LAST_DAY, and no further, getYearMonthDay computes its first product without overflowing an
      int; the later products and getJulianDayNumber of the resulting year then fit as well. */
  lemma NoIntOverflow(n: int)
    requires FIRST_DAY <= n
    ensures FitsInt(4 * (n + 32044) + 3) <==> n <= LAST_DAY
    ensures n <= LAST_DAY ==>
      var a := n + 32044;
      var b := (4 * a + 3) / 146097;
      var c := a - b * 146097 / 4;
      var d := (4 * c + 3) / 1461;
      && FitsInt(b * 146097) && 0 <= c <= 36524 && 0 <= 1461 * d <= 146099
      && forall y :: 0 <= y <= b * 100 + d + 1 ==> FitsInt(31 + 337 + y * 365 + y / 4)
  {
    var a := n + 32044;
    var b := (4 * a + 3) / 146097;
    assert 146097 * b <= 4 * a + 3 < 146097 * b + 146097;
    var c := a - b * 146097 / 4;
    assert 0 <= c <= 36524;
  }

  // ---- Weekdays ----

  /** 1 January 1970 was a Thursday, 29 February 2000 a Tuesday. */
  lemma KnownDays()
    ensures JulianDayNumber(1970, 1, 1) == 2440588 && WeekDay(2440588) == 4
    ensures JulianDayNumber(2000, 1, 1) == 2451545
    ensures JulianDayNumber(2000, 2, 29) == 2451604 && WeekDay(2451604) == 2
  {
  }

  /** The weekday of a day in the domain is in range exactly when C's remainder is not negative; from
      day -1 on it always is, and then consecutive days have consecutive weekdays. */
  lemma WeekDayRange(n: int)
    requires FIRST_DAY <= n
    ensures 0 <= WeekDay(n) <= 6 <==> n >= -1 || (n + 1) % 7 == 0
    ensures n >= -1 ==> WeekDay(n + 1) == (WeekDay(n) + 1) % 7
    ensures n >= -1 ==> WeekDay(n) == (n + 1) % 7
  {
    if n < -1 {
      var q, r := -(n + 1) / 7, -(n + 1) % 7;
      assert WeekDay(n) == -r;
      assert n + 1 == 7 * -q - r;
    }
  }
}
