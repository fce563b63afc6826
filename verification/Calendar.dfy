/**
 Breaking Unix time down into calendar fields (crates/mjolnir-core/src/timestamp.rs).

 The reference is the Gregorian calendar as section 5.7 and appendix C of RFC 3339
 state it: month lengths, and the leap rule by 4, 100 and 400.
 */
module Calendar {
  import opened Arith

  datatype Date = Date(year: int, month: int, day: int)

  const I64_MAX: int := 0x7FFF_FFFF_FFFF_FFFF
  const I64_MIN: int := -0x8000_0000_0000_0000

  // ---- the reference calendar ------------------------------------------------

  predicate IsLeap(year: int) {
    year % 4 == 0 && (year % 100 != 0 || year % 400 == 0)
  }

  function MonthLength(year: int, month: int): int {
    if month == 2 then (if IsLeap(year) then 29 else 28)
    else if month == 4 || month == 6 || month == 9 || month == 11 then 30
    else 31
  }

  predicate ValidDate(d: Date) {
    1 <= d.month <= 12 && 1 <= d.day <= MonthLength(d.year, d.month)
  }

  function NextDate(d: Date): Date {
    if d.day < MonthLength(d.year, d.month) then Date(d.year, d.month, d.day + 1)
    else if d.month < 12 then Date(d.year, d.month + 1, 1)
    else Date(d.year + 1, 1, 1)
  }

  predicate Before(a: Date, b: Date) {
    a.year < b.year || (a.year == b.year && (a.month < b.month || (a.month == b.month && a.day < b.day)))
  }

  // ---- the program -----------------------------------------------------------

  function YearOfEra(doe: int): int {
    (doe - doe / 1460 + doe / 36524 - doe / 146096) / 365
  }

  /** The first day of a March based year of the era. */
  function YearStart(yoe: int): int {
    365 * yoe + yoe / 4 - yoe / 100
  }

  function MonthOf(mp: int): int {
    if mp < 10 then mp + 3 else mp - 9
  }

  /** The date of day `doe` of a 400 year era that starts on a first of March. */
  function CivilInEra(era: int, doe: int): Date {
    var yoe := YearOfEra(doe);
    var y := yoe + era * 400;
    var doy := doe - YearStart(yoe);
    var mp := (5 * doy + 2) / 153;
    var d := doy - (153 * mp + 2) / 5 + 1;
    var m := MonthOf(mp);
    Date(if m <= 2 then y + 1 else y, m, d)
  }

  function CivilFromDays(days: int): Date {
    var z := days + 719_468;
    CivilInEra(z / 146_097, z % 146_097)
  }

  /** The inverse: the day a valid date falls on. */
  function DaysFromCivil(d: Date): int {
    var y := if d.month <= 2 then d.year - 1 else d.year;
    var mp := if d.month <= 2 then d.month + 9 else d.month - 3;
    var doy := (153 * mp + 2) / 5 + d.day - 1;
    (y / 400) * 146_097 + YearStart(y % 400) + doy - 719_468
  }

  // ---- years of an era -------------------------------------------------------

  predicate LongYear(yoe: int) {
    (yoe + 1) % 4 == 0 && ((yoe + 1) % 100 != 0 || yoe == 399)
  }

  function YearDays(yoe: int): int {
    if LongYear(yoe) then 366 else 365
  }

  lemma NextYearStart(yoe: int)
    requires 0 <= yoe < 399
    ensures YearStart(yoe + 1) == YearStart(yoe) + YearDays(yoe)
  {
  }

  /** A year is `n` years into a four year cycle, `q` cycles into century `c` of its era. */
  lemma YearStartByCentury(c: int, q: int, n: int)
    requires 0 <= c < 4 && 0 <= q < 25 && 0 <= n < 4
    ensures YearStart(100 * c + 4 * q + n) == 36524 * c + 1461 * q + 365 * n
    ensures LongYear(100 * c + 4 * q + n) <==> n == 3 && (q < 24 || c == 3)
  {
    var y := 100 * c + 4 * q + n;
    assert y / 4 == 25 * c + q;
    assert y / 100 == c;
    assert (y + 1) % 4 == 0 <==> n == 3;
    assert n == 3 ==> ((y + 1) % 100 == 0 <==> q == 24);
  }

  lemma DivideOut(k: int, s: int, carry: int)
    requires 0 <= s < 2920 && carry == if s >= 1460 then 1 else 0
    ensures (1460 * k + s) / 1460 == k + carry
  {
    DivModUnique(1460 * k + s, 1460, k + carry, s - 1460 * carry);
  }

  /** The two larger divisions count the centuries; the fourth one has a day more. */
  lemma CenturiesTakenOut(c: int, t: int)
    requires 0 <= c < 4 && 0 <= t <= 36524 && (t == 36524 ==> c == 3)
    ensures (36524 * c + t) / 36524 - (36524 * c + t) / 146096 == c
  {
    if t < 36524 {
      DivModUnique(36524 * c + t, 36524, c, t);
      DivModUnique(36524 * c + t, 146096, 0, 36524 * c + t);
    }
  }

  lemma YearsOf365(y: int, rest: int)
    requires 0 <= rest < 365
    ensures (365 * y + rest) / 365 == y
  {
    DivModUnique(365 * y + rest, 365, y, rest);
  }

  /** The divisions by 1460, 36524 and 146096 take out exactly the leap days so far. */
  lemma LeapDaysTakenOut(c: int, q: int, n: int, doy: int)
    requires 0 <= c < 4 && 0 <= q < 25 && 0 <= n < 4
    requires 0 <= doy < YearDays(100 * c + 4 * q + n)
    ensures YearOfEra(YearStart(100 * c + 4 * q + n) + doy) == 100 * c + 4 * q + n
    ensures 0 <= YearStart(100 * c + 4 * q + n) + doy < 146_097
  {
    YearStartByCentury(c, q, n);
    var t := 1461 * q + 365 * n + doy;
    var s := 24 * c + q + 365 * n + doy;
    var carry := if s >= 1460 then 1 else 0;
    DivideOut(25 * c + q, s, carry);
    CenturiesTakenOut(c, t);
    YearsOf365(100 * c + 4 * q + n, doy - carry);
    assert 36524 * c + t == 1460 * (25 * c + q) + s;
  }

  lemma YearOfEraUnique(doe: int, yoe: int)
    requires 0 <= yoe <= 399 && 0 <= doe - YearStart(yoe) < YearDays(yoe)
    ensures 0 <= doe < 146_097 && YearOfEra(doe) == yoe
  {
    var c, rest := yoe / 100, yoe % 100;
    assert yoe == 100 * c + 4 * (rest / 4) + rest % 4;
    LeapDaysTakenOut(c, rest / 4, rest % 4, doe - YearStart(yoe));
  }

  /** As many whole units as fit, up to a cap. */
  lemma CappedDivision(x: int, unit: int, cap: int) returns (q: int)
    requires 0 <= x && 0 < unit && 0 <= cap
    ensures 0 <= q <= cap && 0 <= x - unit * q && (q < cap ==> x - unit * q < unit)
  {
    q := x / unit;
    if q > cap {
      MulMonotone(unit, cap, q);
      q := cap;
    }
  }

  lemma YearOfEraExact(doe: int)
    requires 0 <= doe < 146_097
    ensures 0 <= YearOfEra(doe) <= 399
    ensures 0 <= doe - YearStart(YearOfEra(doe)) < YearDays(YearOfEra(doe))
  {
    var c := CappedDivision(doe, 36524, 3);
    var q := CappedDivision(doe - 36524 * c, 1461, 24);
    var n := CappedDivision(doe - 36524 * c - 1461 * q, 365, 3);
    YearStartByCentury(c, q, n);
    LeapDaysTakenOut(c, q, n, doe - 36524 * c - 1461 * q - 365 * n);
  }

  // ---- months of a March based year -------------------------------------------

  function MonthStart(mp: int): int {
    (153 * mp + 2) / 5
  }

  /** Days in a March based month, in a year with or without a leap day at its end. */
  function MarchMonthLength(mp: int, long: bool): int {
    if mp == 11 then (if long then 29 else 28)
    else if mp == 1 || mp == 3 || mp == 6 || mp == 8 then 30
    else 31
  }

  lemma MonthExact(doy: int, long: bool)
    requires 0 <= doy < if long then 366 else 365
    ensures var mp := (5 * doy + 2) / 153;
            0 <= mp <= 11 && 0 <= doy - MonthStart(mp) < MarchMonthLength(mp, long)
  {
  }

  lemma MonthUnique(mp: int, k: int, long: bool)
    requires 0 <= mp <= 11 && 0 <= k < MarchMonthLength(mp, long)
    ensures (5 * (MonthStart(mp) + k) + 2) / 153 == mp
    ensures 0 <= MonthStart(mp) + k < if long then 366 else 365
  {
  }

  // ---- the leap rule -----------------------------------------------------------

  lemma ModOfShift(x: int, era: int)
    ensures (x + 400 * era) % 400 == x % 400
    ensures (x + 400 * era) % 100 == x % 100
    ensures (x + 400 * era) % 4 == x % 4
  {
    DivModUnique(x + 400 * era, 400, x / 400 + era, x % 400);
    DivModUnique(x + 400 * era, 100, x / 100 + 4 * era, x % 100);
    DivModUnique(x + 400 * era, 4, x / 4 + 100 * era, x % 4);
  }

  lemma LongYearIsLeap(era: int, yoe: int)
    requires 0 <= yoe <= 399
    ensures LongYear(yoe) <==> IsLeap(yoe + 400 * era + 1)
  {
    ModOfShift(yoe + 1, era);
  }

  lemma MarchMonthIsCivil(era: int, yoe: int, mp: int)
    requires 0 <= yoe <= 399 && 0 <= mp <= 11
    ensures var m, y := MonthOf(mp), yoe + 400 * era;
            && 1 <= m <= 12
            && MarchMonthLength(mp, LongYear(yoe)) == MonthLength(if m <= 2 then y + 1 else y, m)
  {
    LongYearIsLeap(era, yoe);
  }

  // ---- the bijection -------------------------------------------------------------

  lemma DaysOfParts(era: int, yoe: int, mp: int, day: int)
    requires 0 <= yoe <= 399 && 0 <= mp <= 11
    ensures var y := yoe + era * 400;
            DaysFromCivil(Date(if mp >= 10 then y + 1 else y, MonthOf(mp), day)) ==
            era * 146_097 + YearStart(yoe) + MonthStart(mp) + day - 1 - 719_468
  {
    DivModUnique(yoe + era * 400, 400, era, yoe);
  }

  /** The March based parts the program finds for a day of the era. */
  lemma PartsOfDay(era: int, doe: int) returns (yoe: int, mp: int, day: int)
    requires 0 <= doe < 146_097
    ensures 0 <= yoe <= 399 && 0 <= mp <= 11 && 1 <= day <= MarchMonthLength(mp, LongYear(yoe))
    ensures YearStart(yoe) + MonthStart(mp) + day - 1 == doe
    ensures CivilInEra(era, doe) ==
            Date(if mp >= 10 then yoe + era * 400 + 1 else yoe + era * 400, MonthOf(mp), day)
  {
    YearOfEraExact(doe);
    yoe := YearOfEra(doe);
    var doy := doe - YearStart(yoe);
    MonthExact(doy, LongYear(yoe));
    mp := (5 * doy + 2) / 153;
    day := doy - MonthStart(mp) + 1;
  }

  lemma CivilInEraIsExact(era: int, doe: int)
    requires 0 <= doe < 146_097
    ensures ValidDate(CivilInEra(era, doe))
    ensures DaysFromCivil(CivilInEra(era, doe)) == era * 146_097 + doe - 719_468
  {
    var yoe, mp, day := PartsOfDay(era, doe);
    MarchMonthIsCivil(era, yoe, mp);
    DaysOfParts(era, yoe, mp, day);
  }

  /** Every day is a valid date, and converting back gives the day. */
  lemma CivilIsValidAndInverts(days: int)
    ensures ValidDate(CivilFromDays(days))
    ensures DaysFromCivil(CivilFromDays(days)) == days
  {
    var z := days + 719_468;
    CivilInEraIsExact(z / 146_097, z % 146_097);
  }

  lemma CivilInEraUnique(era: int, yoe: int, mp: int, day: int)
    requires 0 <= yoe <= 399 && 0 <= mp <= 11 && 1 <= day <= MarchMonthLength(mp, LongYear(yoe))
    ensures var doe := YearStart(yoe) + MonthStart(mp) + day - 1;
            && 0 <= doe < 146_097
            && CivilInEra(era, doe) ==
               Date(if mp >= 10 then yoe + era * 400 + 1 else yoe + era * 400, MonthOf(mp), day)
  {
    MonthUnique(mp, day - 1, LongYear(yoe));
    YearOfEraUnique(YearStart(yoe) + MonthStart(mp) + day - 1, yoe);
  }

  lemma DayInEra(era: int, doe: int)
    requires 0 <= doe < 146_097
    ensures CivilFromDays(era * 146_097 + doe - 719_468) == CivilInEra(era, doe)
  {
    DivModUnique(era * 146_097 + doe, 146_097, era, doe);
  }

  lemma PartsRoundTrip(era: int, yoe: int, mp: int, day: int)
    requires 0 <= yoe <= 399 && 0 <= mp <= 11 && 1 <= day <= MarchMonthLength(mp, LongYear(yoe))
    ensures var d := Date(if mp >= 10 then yoe + era * 400 + 1 else yoe + era * 400, MonthOf(mp), day);
            CivilFromDays(DaysFromCivil(d)) == d
  {
    CivilInEraUnique(era, yoe, mp, day);
    DaysOfParts(era, yoe, mp, day);
    DayInEra(era, YearStart(yoe) + MonthStart(mp) + day - 1);
  }

  /** The March based parts of a valid date. */
  lemma PartsOfDate(d: Date) returns (era: int, yoe: int, mp: int)
    requires ValidDate(d)
    ensures 0 <= yoe <= 399 && 0 <= mp <= 11 && d.day <= MarchMonthLength(mp, LongYear(yoe))
    ensures d == Date(if mp >= 10 then yoe + era * 400 + 1 else yoe + era * 400, MonthOf(mp), d.day)
  {
    var y := if d.month <= 2 then d.year - 1 else d.year;
    mp := if d.month <= 2 then d.month + 9 else d.month - 3;
    era, yoe := y / 400, y % 400;
    MarchMonthIsCivil(era, yoe, mp);
  }

  /** Every valid date is the date of the day it falls on. */
  lemma DaysInvertsCivil(d: Date)
    requires ValidDate(d)
    ensures CivilFromDays(DaysFromCivil(d)) == d
  {
    var era, yoe, mp := PartsOfDate(d);
    PartsRoundTrip(era, yoe, mp, d.day);
  }

  lemma NextMonthStart(mp: int, long: bool)
    requires 0 <= mp < 11
    ensures MonthStart(mp + 1) == MonthStart(mp) + MarchMonthLength(mp, long)
  {
  }

  /** The last day of February is followed by the first day of the next March based year. */
  lemma NextMarch(y: int)
    ensures (y / 400) * 146_097 + YearStart(y % 400) + YearDays(y % 400) ==
            ((y + 1) / 400) * 146_097 + YearStart((y + 1) % 400)
  {
    var era, yoe := y / 400, y % 400;
    if yoe < 399 {
      DivModUnique(y + 1, 400, era, yoe + 1);
      NextYearStart(yoe);
    } else {
      DivModUnique(y + 1, 400, era + 1, 0);
    }
  }

  /** After the last day of a month comes the first of the next. */
  lemma FirstOfNextMonth(d: Date)
    requires ValidDate(d) && d.day == MonthLength(d.year, d.month)
    ensures DaysFromCivil(NextDate(d)) == DaysFromCivil(d) + 1
  {
    var y := if d.month <= 2 then d.year - 1 else d.year;
    var mp := if d.month <= 2 then d.month + 9 else d.month - 3;
    MarchMonthIsCivil(y / 400, y % 400, mp);
    if mp < 11 {
      NextMonthStart(mp, LongYear(y % 400));
    } else {
      NextMarch(y);
    }
  }

  lemma NextDateIsNextDay(d: Date)
    requires ValidDate(d)
    ensures ValidDate(NextDate(d)) && DaysFromCivil(NextDate(d)) == DaysFromCivil(d) + 1
  {
    if d.day == MonthLength(d.year, d.month) {
      FirstOfNextMonth(d);
    }
  }

  /** The day after is always exactly the next date of the Gregorian calendar. */
  lemma NextDayIsNextDate(days: int)
    ensures CivilFromDays(days + 1) == NextDate(CivilFromDays(days))
  {
    CivilIsValidAndInverts(days);
    NextDateIsNextDay(CivilFromDays(days));
    DaysInvertsCivil(NextDate(CivilFromDays(days)));
  }

  lemma EpochIsFirstOfJanuary1970()
    ensures CivilFromDays(0) == Date(1970, 1, 1)
  {
  }

  lemma BeforeNext(a: Date, d: Date)
    requires ValidDate(d) && (a == d || Before(a, d))
    ensures Before(a, NextDate(d))
  {
  }

  /** Anything that follows the calendar day by day is in date order. */
  lemma {:induction false} FollowingTheCalendarIsOrdered(f: int -> Date, a: int, b: int)
    requires forall n :: ValidDate(f(n)) && f(n + 1) == NextDate(f(n))
    requires a < b
    ensures Before(f(a), f(b))
    decreases b - a
  {
    if a < b - 1 {
      FollowingTheCalendarIsOrdered(f, a, b - 1);
    }
    BeforeNext(f(a), f(b - 1));
    assert f(b) == f((b - 1) + 1);
  }

  /** Later days have later dates, so stamps built from them sort in time order. */
  lemma CivilIsOrdered(a: int, b: int)
    requires a < b
    ensures Before(CivilFromDays(a), CivilFromDays(b))
  {
    forall n
      ensures ValidDate(CivilFromDays(n)) && CivilFromDays(n + 1) == NextDate(CivilFromDays(n))
    {
      CivilIsValidAndInverts(n);
      NextDayIsNextDate(n);
    }
    FollowingTheCalendarIsOrdered(CivilFromDays, a, b);
  }

  // ---- whole timestamps ----------------------------------------------------------

  datatype DateTime = DateTime(date: Date, hour: int, minute: int, second: int)

  function ToDateTime(seconds: int): DateTime {
    var days := seconds / 86_400;
    var secsOfDay := seconds % 86_400;
    DateTime(CivilFromDays(days), secsOfDay / 3600, (secsOfDay % 3600) / 60, secsOfDay % 60)
  }

  lemma TimeOfDayInverts(s: int)
    requires 0 <= s < 86_400
    ensures 0 <= s / 3600 < 24 && 0 <= (s % 3600) / 60 < 60 && 0 <= s % 60 < 60
    ensures (s / 3600) * 3600 + ((s % 3600) / 60) * 60 + s % 60 == s
  {
    var h, m := s / 3600, (s % 3600) / 60;
    var sec := s - 3600 * h - 60 * m;
    assert 0 <= sec < 60;
    assert s == 60 * (60 * h + m) + sec;
  }

  /** The fields are in range and determine the second they came from. */
  lemma DateTimeInverts(seconds: int)
    ensures var t := ToDateTime(seconds);
            && ValidDate(t.date) && 0 <= t.hour < 24 && 0 <= t.minute < 60 && 0 <= t.second < 60
            && DaysFromCivil(t.date) * 86_400 + t.hour * 3600 + t.minute * 60 + t.second == seconds
  {
    CivilIsValidAndInverts(seconds / 86_400);
    TimeOfDayInverts(seconds % 86_400);
  }

  // ---- in 64 bits ----------------------------------------------------------------

  /** What is left of a number in 64 bits, two's complement. */
  function WrapI64(x: int): int {
    (x - I64_MIN) % 0x1_0000_0000_0000_0000 + I64_MIN
  }

  /** The conversion with its first addition in 64 bits; nothing after that can wrap. */
  function CivilFromDays64(days: int): Date {
    var z := WrapI64(days + 719_468);
    CivilInEra(z / 146_097, z % 146_097)
  }

  lemma WrapsOnce(x: int)
    requires I64_MIN <= x <= 2 * I64_MAX
    ensures WrapI64(x) == if x <= I64_MAX then x else x - 0x1_0000_0000_0000_0000
  {
  }

  lemma DayOfEraSum(z: int)
    ensures CivilFromDays(z - 719_468) == CivilInEra(z / 146_097, z % 146_097)
  {
  }

  /** Of the values after the first addition only the year grows, and it stays far inside 64 bits. */
  lemma YearFits(z: int)
    requires I64_MIN <= z <= I64_MAX
    ensures I64_MIN <= z / 146_097 * 400 + YearOfEra(z % 146_097) + 1 <= I64_MAX
  {
    YearOfEraExact(z % 146_097);
  }

  /**
   The source calls the conversion exact for the whole range of 64 bit days. Its
   first addition wraps on the last 719468 of them, and there the date is wrong; on
   every other day it is right.
   */
  lemma ExactUnlessItWraps(days: int)
    requires I64_MIN <= days <= I64_MAX
    ensures CivilFromDays64(days) == CivilFromDays(days) <==> days <= I64_MAX - 719_468
  {
    WrapsOnce(days + 719_468);
    if days > I64_MAX - 719_468 {
      var earlier := days - 0x1_0000_0000_0000_0000;
      DayOfEraSum(earlier + 719_468);
      CivilIsOrdered(earlier, days);
    }
  }

  /** No 64 bit count of seconds reaches a day where the addition wraps. */
  lemma SecondsNeverWrap(seconds: int)
    requires I64_MIN <= seconds <= I64_MAX
    ensures CivilFromDays64(seconds / 86_400) == ToDateTime(seconds).date
  {
    ExactUnlessItWraps(seconds / 86_400);
  }
}
