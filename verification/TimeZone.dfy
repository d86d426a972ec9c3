/** base/TimeZone.cpp: broken-down UTC time, and conversion to and from local time with a transition table. */
module TimeZone {
  import opened CInt
  import opened Calendar

  const SECONDS_PER_DAY := 24 * 60 * 60
  const JULIAN_DAY_OF_1970_01_01 := JulianDayNumber(1970, 1, 1)

  datatype Zone = Unset | Gmt | Abbreviation(start: int)

  /** struct tm, with C's conventions: year since 1900, month from 0 */
  datatype Tm = Tm(sec: int, min: int, hour: int, mday: int, mon: int, year: int, wday: int, yday: int,
                   isDst: bool, gmtOff: int, zone: Zone)

  const ZERO_TM := Tm(0, 0, 0, 0, 0, 0, 0, 0, false, 0, Unset)

  // ---- UTC ----

  function FillHMS(seconds: nat, utc: Tm): Tm {
    var minutes := seconds / 60;
    utc.(sec := seconds % 60, min := minutes % 60, hour := minutes / 60)
  }

  function ToUtcTime(secondsSinceEpoch: int, yday: bool): Tm {
    var remainder := Mod(secondsSinceEpoch, SECONDS_PER_DAY);
    var quotient := Div(secondsSinceEpoch, SECONDS_PER_DAY);
    var seconds := if remainder < 0 then remainder + SECONDS_PER_DAY else remainder;
    var days := if remainder < 0 then quotient - 1 else quotient;
    SplitDay(secondsSinceEpoch);
    var utc := FillHMS(seconds, ZERO_TM.(zone := Gmt));
    var day := days + JULIAN_DAY_OF_1970_01_01;
    var ymd := ToYearMonthDay(day);
    utc.(year := ymd.year - 1900, mon := ymd.month - 1, mday := ymd.day, wday := WeekDay(day),
         yday := if yday then day - JulianDayNumber(ymd.year, 1, 1) else 0)
  }

  function FromUtcTime(utc: Tm): int {
    var days := JulianDayNumber(utc.year + 1900, utc.mon + 1, utc.mday) - JULIAN_DAY_OF_1970_01_01;
    days * SECONDS_PER_DAY + (utc.hour * 3600 + utc.min * 60 + utc.sec)
  }

  /** The Julian day number of the UTC day that contains second t. */
  function DayOf(t: int): int {
    t / SECONDS_PER_DAY + JULIAN_DAY_OF_1970_01_01
  }

  /** The two corrections for negative counts turn C's division into floor division. */
  lemma SplitDay(t: int)
    ensures var r, q := Mod(t, SECONDS_PER_DAY), Div(t, SECONDS_PER_DAY);
            && (if r < 0 then r + SECONDS_PER_DAY else r) == t % SECONDS_PER_DAY
            && (if r < 0 then q - 1 else q) == t / SECONDS_PER_DAY
  {
    if t < 0 {
      var u := -t;
      assert u == SECONDS_PER_DAY * (u / SECONDS_PER_DAY) + u % SECONDS_PER_DAY;
      assert Mod(t, SECONDS_PER_DAY) == -(u % SECONDS_PER_DAY);
    }
  }

  lemma HMSRoundTrip(seconds: nat)
    requires seconds < SECONDS_PER_DAY
    ensures var utc := FillHMS(seconds, ZERO_TM);
            && 0 <= utc.hour < 24 && 0 <= utc.min < 60 && 0 <= utc.sec < 60
            && utc.hour * 3600 + utc.min * 60 + utc.sec == seconds
  {
  }

  /** fromUtcTime undoes toUtcTime for every second from 1 March -4800 on, negative counts included;
      the time of day is in range and the date is the one the calendar gives for that day. */
  lemma UtcRoundTrip(t: int, yday: bool)
    requires FIRST_DAY <= DayOf(t)
    ensures var utc := ToUtcTime(t, yday);
            && FromUtcTime(utc) == t
            && 0 <= utc.hour < 24 && 0 <= utc.min < 60 && 0 <= utc.sec < 60
            && InDomain(YearMonthDay(utc.year + 1900, utc.mon + 1, utc.mday))
            && (0 <= utc.wday <= 6 <==> DayOf(t) >= -1 || (DayOf(t) + 1) % 7 == 0)
            && (DayOf(t) >= -1 ==> utc.wday == (t / SECONDS_PER_DAY + 4) % 7)
  {
    EpochDay();
    hide JulianDayNumber, ToYearMonthDay, WeekDay, Div;
    if DayOf(t) >= -1 {
      ThursdayCount(t / SECONDS_PER_DAY, DayOf(t));
    }
    SplitDay(t);
    HMSRoundTrip(t % SECONDS_PER_DAY);
    DayRoundTrip(DayOf(t));
    WeekDayRange(DayOf(t));
    assert t == t / SECONDS_PER_DAY * SECONDS_PER_DAY + t % SECONDS_PER_DAY;
  }

  /** The int variables of toUtcTime: from 1 March -4800 up to LAST_DAY, and no further, neither the casts nor the
      conversion of the date overflow. */
  lemma UtcFitsInt(t: int)
    requires FIRST_DAY <= DayOf(t)
    ensures var q, r, n := Div(t, SECONDS_PER_DAY), Mod(t, SECONDS_PER_DAY), DayOf(t);
            n <= LAST_DAY <==>
              && FitsInt(r) && FitsInt(q) && FitsInt(q - 1) && FitsInt(n) && FitsInt(n + 1)
              && FitsInt(4 * (n + 32044) + 3)
  {
    hide JulianDayNumber;
    SplitDay(t);
    NoIntOverflow(DayOf(t));
    EpochDay();
    assert -SECONDS_PER_DAY < Mod(t, SECONDS_PER_DAY) < SECONDS_PER_DAY;
  }

  lemma KnownDates()
    ensures ToYearMonthDay(2451604) == YearMonthDay(2000, 2, 29) && JulianDayNumber(2000, 1, 1) == 2451545
  {
    hide ToYearMonthDay, JulianDayNumber;
    DateRoundTrip(YearMonthDay(2000, 2, 29));
    KnownDays();
  }

  /** 2000-02-29 12:34:56, a Tuesday. */
  lemma KnownSecond()
    ensures ToUtcTime(951827696, true) == Tm(56, 34, 12, 29, 1, 100, 2, 59, false, 0, Gmt)
  {
    hide JulianDayNumber, ToYearMonthDay, WeekDay, Mod, Div;
    EpochDay();
    KnownDates();
    KnownDays();
    SplitDay(951827696);
    assert 951827696 / SECONDS_PER_DAY == 11016 && 951827696 % SECONDS_PER_DAY == 45296;
  }

  lemma ThursdayCount(days: int, n: int)
    requires n == days + 2440588 && n >= -1
    ensures (n + 1) % 7 == (days + 4) % 7
  {
    assert n + 1 == 7 * 348655 + (days + 4);
  }

  lemma EpochDay()
    ensures JULIAN_DAY_OF_1970_01_01 == 2440588
  {
  }

  lemma FillHMSUndoes(hour: int, min: int, sec: int)
    requires 0 <= hour < 24 && 0 <= min < 60 && 0 <= sec < 60
    ensures var seconds := hour * 3600 + min * 60 + sec;
            0 <= seconds < SECONDS_PER_DAY && forall utc :: FillHMS(seconds, utc) == utc.(hour := hour, min := min, sec := sec)
  {
    var seconds := hour * 3600 + min * 60 + sec;
    assert seconds / 60 == hour * 60 + min;
  }

  lemma DayAndSecond(days: int, seconds: int)
    requires 0 <= seconds < SECONDS_PER_DAY
    ensures (days * SECONDS_PER_DAY + seconds) / SECONDS_PER_DAY == days
    ensures (days * SECONDS_PER_DAY + seconds) % SECONDS_PER_DAY == seconds
  {
  }

  /** toUtcTime undoes fromUtcTime on real dates and times of day. */
  lemma UtcFieldsRoundTrip(date: YearMonthDay, hour: int, min: int, sec: int)
    requires InDomain(date) && 0 <= hour < 24 && 0 <= min < 60 && 0 <= sec < 60
    ensures var utc := ZERO_TM.(year := date.year - 1900, mon := date.month - 1, mday := date.day,
                                hour := hour, min := min, sec := sec);
            ToUtcTime(FromUtcTime(utc), false) == utc.(zone := Gmt, wday := WeekDay(DayNumber(date)))
  {
    hide JulianDayNumber, ToYearMonthDay, WeekDay, Div, FillHMS;
    var days := DayNumber(date) - JULIAN_DAY_OF_1970_01_01;
    var seconds := hour * 3600 + min * 60 + sec;
    FillHMSUndoes(hour, min, sec);
    DayAndSecond(days, seconds);
    SplitDay(days * SECONDS_PER_DAY + seconds);
    DateRoundTrip(date);
  }

  /** Days of the year before the given month. */
  function DaysBefore(year: int, month: int): int
    requires 1 <= month
  {
    if month == 1 then 0 else DaysBefore(year, month - 1) + DaysInMonth(year, month - 1)
  }

  lemma {:induction false} MonthOffset(year: int, month: int)
    requires year > -4800 && 1 <= month <= 12
    ensures DayNumber(YearMonthDay(year, month, 1)) == DayNumber(YearMonthDay(year, 1, 1)) + DaysBefore(year, month)
  {
    hide JulianDayNumber, IsLeap;
    if month == 1 {
    } else {
      MonthOffset(year, month - 1);
      NextMonth(year, month - 1);
    }
  }

  lemma DayShift(year: int, month: int, day: int)
    ensures JulianDayNumber(year, month, day) == JulianDayNumber(year, month, 1) + day - 1
  {
  }

  lemma MarchOfFirstYear()
    ensures DayNumber(YearMonthDay(-4800, 3, 1)) == FIRST_DAY + DaysBefore(-4800, 3) - 60
  {
    hide JulianDayNumber, IsLeap, DaysBefore, DaysInMonth;
    FirstDay();
    FirstYearIsLeap();
    DaysBeforeRange(-4800, 3);
  }

  lemma FirstYearIsLeap()
    ensures IsLeap(-4800)
  {
    assert -4800 == 400 * -12;
  }

  lemma NextMonth(year: int, month: int)
    requires InDomain(YearMonthDay(year, month, 1)) && month < 12
    ensures DayNumber(YearMonthDay(year, month + 1, 1)) == DayNumber(YearMonthDay(year, month, 1)) + DaysInMonth(year, month)
  {
    hide JulianDayNumber, IsLeap;
    var days := DaysInMonth(year, month);
    TomorrowIsNextDay(YearMonthDay(year, month, days));
    DayShift(year, month, days);
  }

  lemma {:induction false} DaysBeforeMarch(month: int)
    requires 3 <= month <= 12
    ensures DayNumber(YearMonthDay(-4800, month, 1)) == FIRST_DAY + DaysBefore(-4800, month) - 60
  {
    if month == 3 {
      MarchOfFirstYear();
    } else {
      hide JulianDayNumber, IsLeap;
      DaysBeforeMarch(month - 1);
      NextMonth(-4800, month - 1);
    }
  }

  lemma FirstYearStart()
    ensures JulianDayNumber(-4800, 1, 1) == FIRST_DAY - 59
  {
    assert Div(14 - 1, 12) == 1;
    assert Div(-1, 4) == 0 && Div(-1, 100) == 0 && Div(-1, 400) == 0;
    assert Div(153 * 10 + 2, 5) == 306;
  }

  lemma {:induction false} DaysBeforeRange(year: int, month: int)
    requires 1 <= month <= 12
    ensures DaysBefore(year, month)
         == if month <= 2 then 31 * (month - 1) else (153 * (month - 3) + 2) / 5 + if IsLeap(year) then 60 else 59
    ensures 0 <= DaysBefore(year, month) <= DaysBefore(year, month) + DaysInMonth(year, month) <= 366
  {
    hide IsLeap;
    if month == 1 {
    } else {
      DaysBeforeRange(year, month - 1);
    }
  }

  lemma DayOfYear(date: YearMonthDay)
    requires InDomain(date)
    ensures var before := DaysBefore(date.year, date.month) + date.day - 1;
            var yday := DayNumber(date) - JulianDayNumber(date.year, 1, 1);
            && yday == (if date.year == -4800 then before - 1 else before)
            && 0 <= yday <= 365
  {
    hide JulianDayNumber, DaysInMonth, DaysBefore;
    DayShift(date.year, date.month, date.day);
    DaysBeforeRange(date.year, date.month);
    if date.year > -4800 {
      MonthOffset(date.year, date.month);
    } else {
      DaysBeforeMarch(date.month);
      FirstYearStart();
    }
  }

  /** tm_yday counts the days of the year before the date, except in the year -4800, whose 1 January lies
      before the domain: there the truncating divisions make it one too small. */
  lemma YearDay(t: int)
    requires FIRST_DAY <= DayOf(t)
    ensures var utc := ToUtcTime(t, true);
            && utc.mon + 1 >= 1
            && var before := DaysBefore(utc.year + 1900, utc.mon + 1) + utc.mday - 1;
            && 0 <= utc.yday <= 365
            && utc.yday == (if utc.year + 1900 == -4800 then before - 1 else before)
  {
    hide JulianDayNumber, ToYearMonthDay, WeekDay, Div, DaysInMonth, DaysBefore;
    SplitDay(t);
    DayRoundTrip(DayOf(t));
    DayOfYear(ToYearMonthDay(DayOf(t)));
  }

  // ---- Zones ----

  datatype Transition = Transition(gmtTime: int, localTime: int, localtimeIdx: int)
  datatype Localtime = Localtime(gmtOffset: int, isDst: bool, arrbIdx: int)
  datatype Data = Data(transitions: seq<Transition>, localtimes: seq<Localtime>)

  /** What readTimeZoneFile and the fixed-offset constructor establish. */
  predicate WellFormed(data: Data) {
    && data.localtimes != []
    && forall i :: 0 <= i < |data.transitions| ==>
         var tr := data.transitions[i];
         && 0 <= tr.localtimeIdx < |data.localtimes|
         && tr.localTime == tr.gmtTime + data.localtimes[tr.localtimeIdx].gmtOffset
  }

  /** The time that Comp compares. */
  function Key(tr: Transition, compareGmt: bool): int {
    if compareGmt then tr.gmtTime else tr.localTime
  }

  /** std::lower_bound: the first transition whose key is not below the sentry's. */
  function LowerBound(transitions: seq<Transition>, sentry: Transition, compareGmt: bool): nat {
    if transitions == [] || Key(transitions[0], compareGmt) >= Key(sentry, compareGmt) then 0
    else 1 + LowerBound(transitions[1..], sentry, compareGmt)
  }

  function FindLocaltime(data: Data, sentry: Transition, compareGmt: bool): Localtime
    requires WellFormed(data)
  {
    var transitions := data.transitions;
    if transitions == [] || Key(sentry, compareGmt) < Key(transitions[0], compareGmt) then
      data.localtimes[0]
    else
      LowerBoundRange(transitions, sentry, compareGmt);
      var i := LowerBound(transitions, sentry, compareGmt);
      if i < |transitions| then
        var j := if Key(sentry, compareGmt) != Key(transitions[i], compareGmt) then i - 1 else i;
        data.localtimes[transitions[j].localtimeIdx]
      else
        data.localtimes[transitions[|transitions| - 1].localtimeIdx]
  }

  function ToLocalTime(data: Data, seconds: int): Tm
    requires WellFormed(data)
  {
    var local := FindLocaltime(data, Transition(seconds, 0, 0), true);
    ToUtcTime(seconds + local.gmtOffset, true)
      .(isDst := local.isDst, gmtOff := local.gmtOffset, zone := Abbreviation(local.arrbIdx))
  }

  function FromLocalTime(data: Data, localTm: Tm): int
    requires WellFormed(data)
  {
    var seconds := FromUtcTime(localTm);
    var local := FindLocaltime(data, Transition(0, seconds, 0), false);
    var tryTm := ToLocalTime(data, seconds - local.gmtOffset);
    var adjusted :=
      if localTm.isDst && !tryTm.isDst && tryTm.hour == localTm.hour && tryTm.min == localTm.min
      then seconds - 3600
      else seconds;
    adjusted - local.gmtOffset
  }

  lemma {:induction false} LowerBoundRange(transitions: seq<Transition>, sentry: Transition, compareGmt: bool)
    ensures var i := LowerBound(transitions, sentry, compareGmt);
            && i <= |transitions|
            && (forall j :: 0 <= j < i ==> Key(transitions[j], compareGmt) < Key(sentry, compareGmt))
            && (i < |transitions| ==> Key(transitions[i], compareGmt) >= Key(sentry, compareGmt))
  {
    if transitions == [] || Key(transitions[0], compareGmt) >= Key(sentry, compareGmt) {
    } else {
      LowerBoundRange(transitions[1..], sentry, compareGmt);
      var i := LowerBound(transitions[1..], sentry, compareGmt);
      forall j | 0 <= j < i + 1 ensures Key(transitions[j], compareGmt) < Key(sentry, compareGmt) {
        assert j > 0 ==> transitions[j] == transitions[1..][j - 1];
      }
    }
  }

  /** The type after transition k; the first type counts as the one before transition 0. */
  function TypeAfter(data: Data, k: int): Localtime
    requires WellFormed(data) && -1 <= k < |data.transitions|
  {
    if k < 0 then data.localtimes[0] else data.localtimes[data.transitions[k].localtimeIdx]
  }

  /** How far transition k moves local time forward. */
  function Shift(data: Data, k: int): int
    requires WellFormed(data) && 0 <= k < |data.transitions|
  {
    TypeAfter(data, k).gmtOffset - TypeAfter(data, k - 1).gmtOffset
  }

  /** Transitions are more than twice as far apart as the largest shift. */
  ghost predicate Spaced(data: Data, largest: int)
    requires WellFormed(data)
  {
    && 0 <= largest
    && (forall k :: 0 <= k < |data.transitions| ==> -largest <= Shift(data, k) <= largest)
    && (forall k :: 0 < k < |data.transitions| ==>
          data.transitions[k - 1].gmtTime + 2 * largest < data.transitions[k].gmtTime)
  }

  /** Transition k is the last one at or before `time`, measured in UTC or in local time. */
  ghost predicate Last(data: Data, k: int, time: int, compareGmt: bool) {
    && -1 <= k < |data.transitions|
    && (0 <= k ==> Key(data.transitions[k], compareGmt) <= time)
    && (k + 1 < |data.transitions| ==> time < Key(data.transitions[k + 1], compareGmt))
  }

  lemma LocalGap(data: Data, largest: int, k: int)
    requires WellFormed(data) && Spaced(data, largest) && 0 < k < |data.transitions|
    ensures data.transitions[k - 1].localTime + largest < data.transitions[k].localTime
  {
    assert -largest <= Shift(data, k);
    assert TypeAfter(data, k - 1) == data.localtimes[data.transitions[k - 1].localtimeIdx];
  }

  lemma {:induction false} Increasing(data: Data, largest: int, i: int, j: int, compareGmt: bool)
    requires WellFormed(data) && Spaced(data, largest) && 0 <= i < j < |data.transitions|
    ensures Key(data.transitions[i], compareGmt) < Key(data.transitions[j], compareGmt)
    decreases j
  {
    LocalGap(data, largest, j);
    if i == j - 1 {
    } else {
      Increasing(data, largest, i, j - 1, compareGmt);
    }
  }

  /** The search returns the type after the last transition at or before the sentry. */
  lemma FindsLast(data: Data, largest: int, k: int, sentry: Transition, compareGmt: bool)
    requires WellFormed(data) && Spaced(data, largest) && Last(data, k, Key(sentry, compareGmt), compareGmt)
    ensures FindLocaltime(data, sentry, compareGmt) == TypeAfter(data, k)
  {
    LowerBoundRange(data.transitions, sentry, compareGmt);
    var i := LowerBound(data.transitions, sentry, compareGmt);
    if 0 < k { Increasing(data, largest, 0, k, compareGmt); }
    if i < k { Increasing(data, largest, i, k, compareGmt); }
  }

  /** Second t lies in the earlier pass through the local times that transition k + 1 repeats. */
  ghost predicate RepeatedAfter(data: Data, k: int, t: int)
    requires WellFormed(data) && -1 <= k < |data.transitions|
  {
    && k + 1 < |data.transitions|
    && data.transitions[k + 1].gmtTime + Shift(data, k + 1) <= t
  }

  /** Local time t + offset belongs to the type before transition k + 1, unless that transition repeats it. */
  lemma LocalSide(data: Data, largest: int, k: int, t: int)
    requires WellFormed(data) && Spaced(data, largest) && Last(data, k, t, true)
    ensures var local := t + TypeAfter(data, k).gmtOffset;
            if RepeatedAfter(data, k, t)
            then Last(data, k + 1, local, false) && Last(data, k + 1, t - Shift(data, k + 1), true)
            else Last(data, k, local, false)
  {
    if RepeatedAfter(data, k, t) {
      assert -largest <= Shift(data, k + 1);
      if k + 2 < |data.transitions| { LocalGap(data, largest, k + 2); }
    }
  }

  /** Conversion to local time and back: second t survives the round trip exactly when no backward
      transition repeats its local time later, or that transition goes from daylight to standard time
      and back by 3600 seconds. */
  lemma ZoneRoundTrip(data: Data, largest: int, k: int, t: int)
    requires WellFormed(data) && Spaced(data, largest) && Last(data, k, t, true)
    requires FIRST_DAY <= DayOf(t + TypeAfter(data, k).gmtOffset)
    ensures FromLocalTime(data, ToLocalTime(data, t)) == t <==>
              (RepeatedAfter(data, k, t) ==>
                 TypeAfter(data, k).isDst && !TypeAfter(data, k + 1).isDst && Shift(data, k + 1) == -3600)
  {
    hide FindLocaltime, ToUtcTime, JulianDayNumber, Spaced;
    var local := t + TypeAfter(data, k).gmtOffset;
    LocalSide(data, largest, k, t);
    FindsLast(data, largest, k, Transition(t, 0, 0), true);
    UtcRoundTrip(local, true);
    var j := if RepeatedAfter(data, k, t) then k + 1 else k;
    FindsLast(data, largest, j, Transition(0, local, 0), false);
    FindsLast(data, largest, j, Transition(local - TypeAfter(data, j).gmtOffset, 0, 0), true);
  }

  lemma {:induction false} LastExists(data: Data, n: int, t: int) returns (k: int)
    requires 0 <= n <= |data.transitions|
    ensures -1 <= k < n
    ensures 0 <= k ==> data.transitions[k].gmtTime <= t
    ensures k + 1 < n ==> t < data.transitions[k + 1].gmtTime
  {
    if n == 0 || data.transitions[n - 1].gmtTime <= t {
      k := n - 1;
    } else {
      k := LastExists(data, n - 1, t);
    }
  }

  /** What toLocalTime gives besides: the fields of second t shifted by the offset in force at t, and that offset, its
      daylight flag and its abbreviation. */
  lemma LocalFields(data: Data, largest: int, k: int, t: int)
    requires WellFormed(data) && Spaced(data, largest) && Last(data, k, t, true)
    requires FIRST_DAY <= DayOf(t + TypeAfter(data, k).gmtOffset)
    ensures var tm, local := ToLocalTime(data, t), TypeAfter(data, k);
            && FromUtcTime(tm) == t + local.gmtOffset
            && tm.gmtOff == local.gmtOffset && tm.isDst == local.isDst && tm.zone == Abbreviation(local.arrbIdx)
            && 0 <= tm.hour < 24 && 0 <= tm.min < 60 && 0 <= tm.sec < 60
            && InDomain(YearMonthDay(tm.year + 1900, tm.mon + 1, tm.mday))
  {
    hide FindLocaltime, ToUtcTime, JulianDayNumber, Spaced;
    FindsLast(data, largest, k, Transition(t, 0, 0), true);
    UtcRoundTrip(t + TypeAfter(data, k).gmtOffset, true);
  }

  /** When every backward transition goes from daylight to standard time by 3600 seconds, every second
      survives the round trip, both passes through the repeated hour included. */
  lemma ZoneRoundTripEverySecond(data: Data, largest: int, t: int)
    requires WellFormed(data) && Spaced(data, largest)
    requires forall k :: 0 <= k < |data.transitions| && Shift(data, k) < 0 ==>
               TypeAfter(data, k - 1).isDst && !TypeAfter(data, k).isDst && Shift(data, k) == -3600
    requires forall i :: 0 <= i < |data.localtimes| ==> FIRST_DAY <= DayOf(t + data.localtimes[i].gmtOffset)
    ensures FromLocalTime(data, ToLocalTime(data, t)) == t
  {
    hide FromLocalTime, ToLocalTime;
    var k := LastExists(data, |data.transitions|, t);
    ZoneRoundTrip(data, largest, k, t);
  }

  /** A table whose clock goes back by an hour without a daylight flag: the earlier pass comes back an hour late. */
  lemma RepeatedHourWithoutDst()
    ensures var data := Data([Transition(1000000, 1000000, 1)], [Localtime(3600, false, 0), Localtime(0, false, 0)]);
            && WellFormed(data) && Spaced(data, 3600)
            && FromLocalTime(data, ToLocalTime(data, 999000)) != 999000
  {
    var data := Data([Transition(1000000, 1000000, 1)], [Localtime(3600, false, 0), Localtime(0, false, 0)]);
    assert DayOf(999000 + 3600) >= JULIAN_DAY_OF_1970_01_01 >= FIRST_DAY;
    hide FromLocalTime, ToLocalTime;
    ZoneRoundTrip(data, 3600, -1, 999000);
  }
}
