/**
 Civil dates of the proleptic Gregorian calendar as day numbers, both ways, and
 the day-by-day calendar they are compared with.

 `/` and `%` by a positive number are Euclidean here, as `div_euclid` is in the
 program; where the program truncates, the operand is never negative. Machine
 integers are unbounded here.
 */
module CivilDate {

  datatype Date = Date(year: int, month: int, day: int)

  const DAYS_PER_ERA: int := 146_097
  const DAYS_TO_EPOCH: int := 719_468

  // ---------------------------------------------------------------- the program's functions

  function DaysInMonth(y: int, m: int): int {
    if m == 1 || m == 3 || m == 5 || m == 7 || m == 8 || m == 10 || m == 12 then 31
    else if m == 4 || m == 6 || m == 9 || m == 11 then 30
    else if (y % 4 == 0 && y % 100 != 0) || y % 400 == 0 then 29
    else 28
  }

  predicate Valid(date: Date) {
    1 <= date.month <= 12 && 1 <= date.day <= DaysInMonth(date.year, date.month)
  }

  function DaysFromCivil(date: Date): int {
    var y := if date.month <= 2 then date.year - 1 else date.year;
    var era := y / 400;
    var yoe := y - era * 400;
    var mp := (date.month + 9) % 12;
    var doy := (153 * mp + 2) / 5 + date.day - 1;
    var doe := yoe * 365 + yoe / 4 - yoe / 100 + doy;
    era * DAYS_PER_ERA + doe - DAYS_TO_EPOCH
  }

  function YearOfEra(doe: int): int {
    (doe - doe / 1460 + doe / 36524 - doe / 146_096) / 365
  }

  function CivilFromDays(days: int): Date {
    var z := days + DAYS_TO_EPOCH;
    var era := z / DAYS_PER_ERA;
    var doe := z - era * DAYS_PER_ERA;
    var yoe := YearOfEra(doe);
    var y := yoe + era * 400;
    var doy := doe - (365 * yoe + yoe / 4 - yoe / 100);
    var mp := (5 * doy + 2) / 153;
    var d := doy - (153 * mp + 2) / 5 + 1;
    var m := if mp < 10 then mp + 3 else mp - 9;
    Date(y + (if m <= 2 then 1 else 0), m, d)
  }

  // ---------------------------------------------------------------- years of an era

  /** Day of the era on which its year `y` (counted from March) starts. */
  function YearStart(y: int): int {
    365 * y + y / 4 - y / 100
  }

  /** Whether the year of the era that starts in March of year `y` ends with a
      29 February. */
  predicate Long(y: int) {
    (y + 1) % 4 == 0 && ((y + 1) % 100 != 0 || y + 1 == 400)
  }

  function YearLength(y: int): int {
    if Long(y) then 366 else 365
  }

  /** A day of the era as century, four-year cycle, year of the cycle and day. */
  predicate Split(c: int, q: int, r: int, d: int) {
    && 0 <= c <= 3 && 0 <= q <= 24 && 0 <= r <= 3 && 0 <= d <= 365
    && (d == 365 ==> r == 3 && (q == 24 ==> c == 3))
  }

  function DayOfEra(c: int, q: int, r: int, d: int): int {
    36524 * c + 1461 * q + 365 * r + d
  }

  lemma EveryDaySplits(doe: int) returns (c: int, q: int, r: int, d: int)
    requires 0 <= doe < DAYS_PER_ERA
    ensures Split(c, q, r, d) && doe == DayOfEra(c, q, r, d)
  {
    c := if doe / 36524 <= 3 then doe / 36524 else 3;
    var doc := doe - 36524 * c;
    q := doc / 1461;
    var doq := doc - 1461 * q;
    r := if doq / 365 <= 3 then doq / 365 else 3;
    d := doq - 365 * r;
  }

  lemma SplitYearStart(c: int, q: int, r: int, d: int)
    requires Split(c, q, r, d)
    ensures var y := 100 * c + 4 * q + r;
            && 0 <= y < 400 && YearStart(y) == DayOfEra(c, q, r, 0)
            && (Long(y) <==> r == 3 && (q == 24 ==> c == 3))
  {
    var y := 100 * c + 4 * q + r;
    assert y / 4 == 25 * c + q && y / 100 == c;
  }

  lemma SplitYearOfEra(c: int, q: int, r: int, d: int)
    requires Split(c, q, r, d)
    ensures YearOfEra(DayOfEra(c, q, r, d)) == 100 * c + 4 * q + r
  {
    var doe := DayOfEra(c, q, r, d);
    var carry := Carry(c, q, r, d);
    FourYearTerm(c, q, r, d);
    CenturyTerm(c, q, r, d);
    assert doe - doe / 1460 + doe / 36524 - doe / 146_096 == 365 * (100 * c + 4 * q + r) + (d - carry);
    WholeYears(100 * c + 4 * q + r, d - carry);
  }

  function Carry(c: int, q: int, r: int, d: int): int {
    if 24 * c + q + 365 * r + d >= 1460 then 1 else 0
  }

  lemma FourYearTerm(c: int, q: int, r: int, d: int)
    requires Split(c, q, r, d)
    ensures DayOfEra(c, q, r, d) / 1460 == 25 * c + q + Carry(c, q, r, d) && 0 <= d - Carry(c, q, r, d) < 365
  {
    assert DayOfEra(c, q, r, d) == 1460 * (25 * c + q) + (24 * c + q + 365 * r + d);
  }

  lemma CenturyTerm(c: int, q: int, r: int, d: int)
    requires Split(c, q, r, d)
    ensures DayOfEra(c, q, r, d) / 36524 - DayOfEra(c, q, r, d) / 146_096 == c
  {
    assert 0 <= 1461 * q + 365 * r + d <= 36524;
    if c == 3 {
    } else {
      assert 1461 * q + 365 * r + d < 36524;
    }
  }

  lemma WholeYears(y: int, rest: int)
    requires 0 <= rest < 365
    ensures (365 * y + rest) / 365 == y
  {
  }

  /** The closed formula picks the year of the era whose days include `doe`. */
  lemma {:induction false} YearOfEraIsRight(doe: int)
    requires 0 <= doe < DAYS_PER_ERA
    ensures var y := YearOfEra(doe); 0 <= y < 400 && 0 <= doe - YearStart(y) < YearLength(y)
  {
    var c, q, r, d := EveryDaySplits(doe);
    SplitYearStart(c, q, r, d);
    SplitYearOfEra(c, q, r, d);
  }

  /** Years follow each other without gap or overlap. */
  lemma YearsAreAdjacent(y: int)
    requires 0 <= y < 400
    ensures YearStart(y) + YearLength(y) == if y == 399 then DAYS_PER_ERA else YearStart(y + 1)
  {
    NextQuotient4(y);
    NextQuotient100(y);
    assert y % 100 == 99 ==> y % 4 == 3;
  }

  lemma NextQuotient4(y: int)
    ensures (y + 1) / 4 == y / 4 + (if (y + 1) % 4 == 0 then 1 else 0)
  {
  }

  lemma NextQuotient100(y: int)
    ensures (y + 1) / 100 == y / 100 + (if (y + 1) % 100 == 0 then 1 else 0)
  {
  }

  lemma {:induction false} LaterYearsStartLater(y: int, x: int)
    requires 0 <= y < x < 400
    ensures YearStart(y) + YearLength(y) <= YearStart(x)
    decreases x - y
  {
    YearsAreAdjacent(y);
    if y + 1 < x {
      LaterYearsStartLater(y + 1, x);
    }
  }

  /** A year and a day within it determine the formula's answer. */
  lemma YearOfEraUndoes(y: int, doy: int)
    requires 0 <= y < 400 && 0 <= doy < YearLength(y)
    ensures 0 <= YearStart(y) + doy < DAYS_PER_ERA && YearOfEra(YearStart(y) + doy) == y
  {
    YearsAreAdjacent(y);
    if y < 399 {
      LaterYearsStartLater(y, 399);
      YearsAreAdjacent(399);
    }
    var x := YearOfEra(YearStart(y) + doy);
    YearOfEraIsRight(YearStart(y) + doy);
    if x < y { LaterYearsStartLater(x, y); }
    if y < x { LaterYearsStartLater(y, x); }
  }

  // ---------------------------------------------------------------- months of a year

  /** Day of the year (counted from March) on which month `mp` starts. */
  function MonthStart(mp: int): int {
    (153 * mp + 2) / 5
  }

  function MonthOf(mp: int): int {
    if mp < 10 then mp + 3 else mp - 9
  }

  /** Months counted from March are as long as the calendar says. `y` is the year
      that starts in March. */
  lemma MonthLengths(y: int, mp: int)
    requires 0 <= mp <= 11
    ensures var year := if MonthOf(mp) <= 2 then y + 1 else y;
            mp < 11 ==> MonthStart(mp) + DaysInMonth(year, MonthOf(mp)) == MonthStart(mp + 1)
    ensures mp == 11 ==> MonthStart(11) + DaysInMonth(y + 1, 2) == 365 + (if DaysInMonth(y + 1, 2) == 29 then 1 else 0)
  {
    if mp <= 5 { if mp <= 2 { assert mp == 0 || mp == 1 || mp == 2; } else { assert mp == 3 || mp == 4 || mp == 5; } }
    else { if mp <= 8 { assert mp == 6 || mp == 7 || mp == 8; } else { assert mp == 9 || mp == 10 || mp == 11; } }
  }

  lemma MonthOfDay(doy: int)
    requires 0 <= doy <= 365
    ensures var mp := (5 * doy + 2) / 153;
            0 <= mp <= 11 && MonthStart(mp) <= doy && (mp < 11 ==> doy < MonthStart(mp + 1))
  {
  }

  lemma MonthOfDayUndoes(mp: int, doy: int)
    requires 0 <= mp <= 11 && MonthStart(mp) <= doy <= 365 && (mp < 11 ==> doy < MonthStart(mp + 1))
    ensures (5 * doy + 2) / 153 == mp
  {
  }

  lemma LongMeansLeap(era: int, yoe: int)
    requires 0 <= yoe < 400
    ensures Long(yoe) <==> DaysInMonth(yoe + era * 400 + 1, 2) == 29
  {
    SameRemainder4(yoe + 1, 100 * era);
    SameRemainder100(yoe + 1, 4 * era);
    SameRemainder400(yoe + 1, era);
    LongMeansDivides(yoe);
  }

  lemma SameRemainder4(x: int, k: int)
    ensures (x + 4 * k) % 4 == x % 4
  {
  }

  lemma SameRemainder100(x: int, k: int)
    ensures (x + 100 * k) % 100 == x % 100
  {
  }

  lemma SameRemainder400(x: int, k: int)
    ensures (x + 400 * k) % 400 == x % 400
  {
  }

  lemma LongMeansDivides(yoe: int)
    requires 0 <= yoe < 400
    ensures Long(yoe) <==> ((yoe + 1) % 4 == 0 && (yoe + 1) % 100 != 0) || (yoe + 1) % 400 == 0
  {
  }

  // ---------------------------------------------------------------- the two directions

  /** The parts both functions work with. */
  lemma Parts(date: Date) returns (era: int, yoe: int, mp: int, doy: int)
    requires Valid(date)
    ensures 0 <= yoe < 400 && 0 <= mp <= 11 && date.month == MonthOf(mp)
    ensures date.year == yoe + era * 400 + (if date.month <= 2 then 1 else 0)
    ensures doy == MonthStart(mp) + date.day - 1 && 0 <= doy < YearLength(yoe) && (mp < 11 ==> doy < MonthStart(mp + 1))
    ensures DaysFromCivil(date) == era * DAYS_PER_ERA + YearStart(yoe) + doy - DAYS_TO_EPOCH
  {
    var y := if date.month <= 2 then date.year - 1 else date.year;
    era := y / 400;
    yoe := y - era * 400;
    mp := (date.month + 9) % 12;
    doy := MonthStart(mp) + date.day - 1;
    assert mp == if date.month <= 2 then date.month + 9 else date.month - 3;
    DayWithinYear(date, era, yoe, mp);
  }

  lemma DayWithinYear(date: Date, era: int, yoe: int, mp: int)
    requires Valid(date) && 0 <= yoe < 400 && 0 <= mp <= 11 && date.month == MonthOf(mp)
    requires date.year == yoe + era * 400 + (if date.month <= 2 then 1 else 0)
    ensures var doy := MonthStart(mp) + date.day - 1;
            0 <= doy < YearLength(yoe) && (mp < 11 ==> doy < MonthStart(mp + 1))
  {
    MonthLengths(yoe + era * 400, mp);
    LongMeansLeap(era, yoe);
    if mp < 11 { MonthsEnd(mp); }
  }

  lemma MonthsEnd(mp: int)
    requires 0 <= mp < 11
    ensures 0 <= MonthStart(mp) < MonthStart(mp + 1) <= 337
  {
  }

  /** Every valid date maps to a day number and back to itself. */
  lemma {:induction false} CivilRoundTrip(date: Date)
    requires Valid(date)
    ensures CivilFromDays(DaysFromCivil(date)) == date
  {
    var era, yoe, mp, doy := Parts(date);
    YearOfEraUndoes(yoe, doy);
    EraOfDay(era, YearStart(yoe) + doy);
    MonthOfDayUndoes(mp, doy);
    DateOfParts(DaysFromCivil(date), era, yoe, mp, doy);
  }

  lemma EraOfDay(era: int, doe: int)
    requires 0 <= doe < DAYS_PER_ERA
    ensures (era * DAYS_PER_ERA + doe) / DAYS_PER_ERA == era
  {
  }

  lemma DateOfParts(days: int, era: int, yoe: int, mp: int, doy: int)
    requires days + DAYS_TO_EPOCH == era * DAYS_PER_ERA + YearStart(yoe) + doy
    requires (era * DAYS_PER_ERA + (YearStart(yoe) + doy)) / DAYS_PER_ERA == era
    requires YearOfEra(YearStart(yoe) + doy) == yoe && (5 * doy + 2) / 153 == mp
    ensures CivilFromDays(days) ==
            Date(yoe + era * 400 + (if MonthOf(mp) <= 2 then 1 else 0), MonthOf(mp), doy - MonthStart(mp) + 1)
  {
  }

  /** The parts of the date a day number maps to. */
  lemma PartsOfDay(days: int) returns (era: int, yoe: int, mp: int, doy: int)
    ensures 0 <= yoe < 400 && 0 <= mp <= 11 && 0 <= doy < YearLength(yoe)
    ensures MonthStart(mp) <= doy && (mp < 11 ==> doy < MonthStart(mp + 1))
    ensures days + DAYS_TO_EPOCH == era * DAYS_PER_ERA + YearStart(yoe) + doy
    ensures var m := MonthOf(mp);
            CivilFromDays(days) == Date(yoe + era * 400 + (if m <= 2 then 1 else 0), m, doy - MonthStart(mp) + 1)
  {
    var z := days + DAYS_TO_EPOCH;
    era := z / DAYS_PER_ERA;
    var doe := z - era * DAYS_PER_ERA;
    YearOfEraIsRight(doe);
    yoe := YearOfEra(doe);
    doy := doe - YearStart(yoe);
    MonthOfDay(doy);
    mp := (5 * doy + 2) / 153;
  }

  lemma DaysOfParts(era: int, yoe: int, mp: int, doy: int)
    requires 0 <= yoe < 400 && 0 <= mp <= 11
    ensures var m := MonthOf(mp);
            DaysFromCivil(Date(yoe + era * 400 + (if m <= 2 then 1 else 0), m, doy - MonthStart(mp) + 1)) ==
            era * DAYS_PER_ERA + YearStart(yoe) + doy - DAYS_TO_EPOCH
  {
    assert (yoe + era * 400) / 400 == era;
    assert (MonthOf(mp) + 9) % 12 == mp;
  }

  /** Every day number maps to a valid date and back to itself. */
  lemma {:induction false} DaysRoundTrip(days: int)
    ensures Valid(CivilFromDays(days)) && DaysFromCivil(CivilFromDays(days)) == days
  {
    var era, yoe, mp, doy := PartsOfDay(days);
    DaysOfParts(era, yoe, mp, doy);
    PartsAreValid(era, yoe, mp, doy);
  }

  lemma PartsAreValid(era: int, yoe: int, mp: int, doy: int)
    requires 0 <= yoe < 400 && 0 <= mp <= 11 && 0 <= doy < YearLength(yoe)
    requires MonthStart(mp) <= doy && (mp < 11 ==> doy < MonthStart(mp + 1))
    ensures Valid(Date(yoe + era * 400 + (if MonthOf(mp) <= 2 then 1 else 0), MonthOf(mp), doy - MonthStart(mp) + 1))
  {
    MonthLengths(yoe + era * 400, mp);
    LongMeansLeap(era, yoe);
  }

  // ---------------------------------------------------------------- the calendar itself

  /** The day after, as a calendar has it. */
  function NextDay(date: Date): Date {
    if date.day < DaysInMonth(date.year, date.month) then date.(day := date.day + 1)
    else if date.month < 12 then Date(date.year, date.month + 1, 1)
    else Date(date.year + 1, 1, 1)
  }

  /** The month after month `mp` of the year `y` that starts in March. */
  lemma NextMonth(era: int, yoe: int, mp: int)
    requires 0 <= yoe < 400 && 0 <= mp < 11
    ensures var year := yoe + era * 400 + (if MonthOf(mp) <= 2 then 1 else 0);
            NextDay(Date(year, MonthOf(mp), DaysInMonth(year, MonthOf(mp)))) ==
            Date(yoe + era * 400 + (if MonthOf(mp + 1) <= 2 then 1 else 0), MonthOf(mp + 1), 1)
  {
  }

  lemma WithinMonth(date: Date)
    requires Valid(date) && date.day < DaysInMonth(date.year, date.month)
    ensures Valid(NextDay(date)) && DaysFromCivil(NextDay(date)) == DaysFromCivil(date) + 1
  {
  }

  lemma AtMonthEnd(date: Date, era: int, yoe: int, mp: int, doy: int)
    requires Valid(date) && date.day == DaysInMonth(date.year, date.month)
    requires 0 <= yoe < 400 && 0 <= mp < 11 && date.month == MonthOf(mp) && doy == MonthStart(mp) + date.day - 1
    requires date.year == yoe + era * 400 + (if date.month <= 2 then 1 else 0)
    ensures Valid(NextDay(date))
    ensures DaysFromCivil(NextDay(date)) == era * DAYS_PER_ERA + YearStart(yoe) + doy + 1 - DAYS_TO_EPOCH
  {
    NextMonth(era, yoe, mp);
    MonthLengths(yoe + era * 400, mp);
    DaysOfParts(era, yoe, mp + 1, MonthStart(mp + 1));
  }

  lemma DayAfterFebruary(year: int)
    ensures NextDay(Date(year, 2, DaysInMonth(year, 2))) == Date(year, 3, 1)
  {
  }

  lemma YearAfter(era: int, yoe: int)
    requires 0 <= yoe < 400
    ensures var (e, y) := if yoe == 399 then (era + 1, 0) else (era, yoe + 1);
            y + e * 400 == yoe + era * 400 + 1
            && e * DAYS_PER_ERA + YearStart(y) == era * DAYS_PER_ERA + YearStart(yoe) + YearLength(yoe)
  {
    YearsAreAdjacent(yoe);
  }

  lemma MarchFirst(era: int, yoe: int)
    requires 0 <= yoe < 400
    ensures DaysFromCivil(Date(yoe + era * 400 + 1, 3, 1)) ==
            era * DAYS_PER_ERA + YearStart(yoe) + YearLength(yoe) - DAYS_TO_EPOCH
  {
    var (e, y) := if yoe == 399 then (era + 1, 0) else (era, yoe + 1);
    YearAfter(era, yoe);
    DaysOfParts(e, y, 0, 0);
    assert MonthOf(0) == 3 && MonthStart(0) == 0;
  }

  lemma LastDayOfYear(era: int, yoe: int)
    requires 0 <= yoe < 400
    ensures MonthStart(11) + DaysInMonth(yoe + era * 400 + 1, 2) == YearLength(yoe)
  {
    MonthLengths(yoe + era * 400, 11);
    LongMeansLeap(era, yoe);
  }

  lemma AtFebruaryEnd(date: Date, era: int, yoe: int, doy: int)
    requires date.month == 2 && date.day == DaysInMonth(date.year, 2)
    requires 0 <= yoe < 400 && doy == MonthStart(11) + date.day - 1 && date.year == yoe + era * 400 + 1
    ensures NextDay(date) == Date(date.year, 3, 1)
    ensures DaysFromCivil(NextDay(date)) == era * DAYS_PER_ERA + YearStart(yoe) + doy + 1 - DAYS_TO_EPOCH
  {
    DayAfterFebruary(date.year);
    LastDayOfYear(era, yoe);
    MarchFirst(era, yoe);
  }

  lemma MonthEndCounts(date: Date)
    requires Valid(date) && date.day == DaysInMonth(date.year, date.month)
    ensures DaysFromCivil(NextDay(date)) == DaysFromCivil(date) + 1
  {
    var era, yoe, mp, doy := Parts(date);
    if mp < 11 {
      AtMonthEnd(date, era, yoe, mp, doy);
    } else {
      AtFebruaryEnd(date, era, yoe, doy);
    }
  }

  lemma EpochIsZero()
    ensures DaysFromCivil(Date(1970, 1, 1)) == 0
  {
  }

  lemma NextDayIsValid(date: Date)
    requires Valid(date)
    ensures Valid(NextDay(date))
  {
  }

  /** Day numbers count the days of the calendar from 1970-01-01. */
  lemma {:induction false} DaysCountTheCalendar(date: Date)
    requires Valid(date)
    ensures DaysFromCivil(Date(1970, 1, 1)) == 0
    ensures Valid(NextDay(date)) && DaysFromCivil(NextDay(date)) == DaysFromCivil(date) + 1
  {
    EpochIsZero();
    NextDayIsValid(date);
    if date.day < DaysInMonth(date.year, date.month) {
      WithinMonth(date);
    } else {
      MonthEndCounts(date);
    }
  }

  /** Calendar order. */
  predicate Earlier(a: Date, b: Date) {
    || a.year < b.year
    || (a.year == b.year && (a.month < b.month || (a.month == b.month && a.day < b.day)))
  }

  lemma NextDayIsLater(date: Date)
    ensures Earlier(date, NextDay(date))
  {
  }

  lemma NextDayNumber(days: int)
    ensures CivilFromDays(days + 1) == NextDay(CivilFromDays(days))
  {
    DaysRoundTrip(days);
    DateAfter(CivilFromDays(days));
  }

  lemma DateAfter(date: Date)
    requires Valid(date)
    ensures CivilFromDays(DaysFromCivil(date) + 1) == NextDay(date)
  {
    DaysCountTheCalendar(date);
    CivilRoundTrip(NextDay(date));
  }

  lemma {:induction false} DatesFollowDays(m: int, n: int)
    requires m < n
    ensures Earlier(CivilFromDays(m), CivilFromDays(n))
    decreases n - m
  {
    NextDayNumber(m);
    NextDayIsLater(CivilFromDays(m));
    if m + 1 < n {
      DatesFollowDays(m + 1, n);
    }
  }

  /** Valid dates are in calendar order exactly when their day numbers are. */
  lemma {:induction false} OrderOfDates(a: Date, b: Date)
    requires Valid(a) && Valid(b)
    ensures Earlier(a, b) <==> DaysFromCivil(a) < DaysFromCivil(b)
  {
    CivilRoundTrip(a);
    CivilRoundTrip(b);
    if DaysFromCivil(a) < DaysFromCivil(b) {
      DatesFollowDays(DaysFromCivil(a), DaysFromCivil(b));
    } else if DaysFromCivil(b) < DaysFromCivil(a) {
      DatesFollowDays(DaysFromCivil(b), DaysFromCivil(a));
    }
  }
}
