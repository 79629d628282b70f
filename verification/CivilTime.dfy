/**
 * The listing's UTC minute text: constant-time civil-from-days over all integers, against the
 * calendar's own successor rule (leap years as in ISO 8601:2004, section 3.2.1).
 */
module CivilTime {

  datatype Date = Date(year: int, month: int, day: int)

  datatype Stamp = Stamp(date: Date, hour: int, minute: int)

  // ---------------------------------------------------------------------------
  // The calendar
  // ---------------------------------------------------------------------------

  predicate IsLeap(year: int) {
    year % 4 == 0 && (year % 100 != 0 || year % 400 == 0)
  }

  function DaysInMonth(year: int, month: int): int {
    if month == 2 then (if IsLeap(year) then 29 else 28)
    else if month == 4 || month == 6 || month == 9 || month == 11 then 30
    else 31
  }

  predicate ValidDate(date: Date) {
    1 <= date.month <= 12 && 1 <= date.day <= DaysInMonth(date.year, date.month)
  }

  /** The day after, by the calendar alone. */
  function NextDay(date: Date): Date {
    if date.day < DaysInMonth(date.year, date.month) then date.(day := date.day + 1)
    else if date.month < 12 then Date(date.year, date.month + 1, 1)
    else Date(date.year + 1, 1, 1)
  }

  /** Calendar order. */
  predicate Before(a: Date, b: Date) {
    a.year < b.year || (a.year == b.year && (a.month < b.month || (a.month == b.month && a.day < b.day)))
  }

  // ---------------------------------------------------------------------------
  // civil_from_days
  // ---------------------------------------------------------------------------

  const DAYS_TO_MARCH_ERA := 719468
  const DAYS_PER_ERA := 146097

  /** The year of the 400-year era that day-of-era doe falls in. */
  function YearOfEra(doe: int): int {
    (doe - doe / 1460 + doe / 36524 - doe / 146096) / 365
  }

  /** March-based month number from the day of the March-based year. */
  function MonthIndex(doy: int): int {
    (5 * doy + 2) / 153
  }

  function CivilFromDays(days: int): Date {
    var z := days + DAYS_TO_MARCH_ERA;
    var era := z / DAYS_PER_ERA;
    var doe := z - era * DAYS_PER_ERA;
    var yoe := YearOfEra(doe);
    var y := yoe + era * 400;
    var doy := doe - (365 * yoe + yoe / 4 - yoe / 100);
    var mp := MonthIndex(doy);
    var d := doy - (153 * mp + 2) / 5 + 1;
    var m := if mp < 10 then mp + 3 else mp - 9;
    Date(if m <= 2 then y + 1 else y, m, d)
  }

  function FormatMtime(epoch: real): Stamp {
    var seconds := epoch.Floor;
    var days := seconds / 86400;
    var secsOfDay := seconds % 86400;
    var rem := secsOfDay % 3600;
    Stamp(CivilFromDays(days), secsOfDay / 3600, rem / 60)
  }

  // ---------------------------------------------------------------------------
  // The March-based year
  // ---------------------------------------------------------------------------

  /** Days of the era before its March-based year yoe. */
  function YearStart(yoe: int): int {
    365 * yoe + yoe / 4 - yoe / 100 + yoe / 400
  }

  /** Length of the era's March-based year yoe: the leap day closes it. */
  function YearLength(yoe: int): int {
    if IsLeap(yoe + 1) then 366 else 365
  }

  lemma {:induction false} YearStartStep(yoe: int)
    requires 0 <= yoe < 400
    ensures YearStart(yoe + 1) == YearStart(yoe) + YearLength(yoe)
  {
    assert (yoe + 1) / 4 == yoe / 4 + (if (yoe + 1) % 4 == 0 then 1 else 0);
    assert (yoe + 1) / 100 == yoe / 100 + (if (yoe + 1) % 100 == 0 then 1 else 0);
    assert yoe / 400 == 0 && (yoe + 1) / 400 == (if yoe + 1 == 400 then 1 else 0);
    assert (yoe + 1) % 400 == 0 <==> yoe + 1 == 400;
    assert (yoe + 1) % 100 == 0 ==> (yoe + 1) % 4 == 0;
  }

  /** A day of the era, cut into centuries, 4-year cycles, years and days. */
  ghost predicate CutsEra(doe: int, c: int, q: int, k: int, d: int) {
    && doe == 36524 * c + 1461 * q + 365 * k + d
    && 0 <= c <= 3 && 0 <= q <= 24 && 0 <= k <= 3 && 0 <= d <= 365
    && (d == 365 ==> k == 3 && (q == 24 ==> c == 3))
  }

  lemma {:induction false} EraCut(doe: int) returns (c: int, q: int, k: int, d: int)
    requires 0 <= doe < DAYS_PER_ERA
    ensures CutsEra(doe, c, q, k, d)
  {
    c := if doe == 146096 then 3 else doe / 36524;
    var r1 := doe - 36524 * c;
    q := r1 / 1461;
    var r2 := r1 - 1461 * q;
    k := if r2 == 1460 then 3 else r2 / 365;
    d := r2 - 365 * k;
  }

  lemma {:induction false} CutYearStart(c: int, q: int, k: int)
    requires 0 <= c <= 3 && 0 <= q <= 24 && 0 <= k <= 3
    ensures 0 <= 100 * c + 4 * q + k < 400
    ensures YearStart(100 * c + 4 * q + k) == 36524 * c + 1461 * q + 365 * k
  {
    var yoe := 100 * c + 4 * q + k;
    assert yoe / 4 == 25 * c + q;
    assert yoe / 100 == c;
    assert yoe / 400 == 0;
  }

  lemma {:induction false} CutYear(doe: int, c: int, q: int, k: int, d: int)
    requires CutsEra(doe, c, q, k, d)
    ensures YearOfEra(doe) == 100 * c + 4 * q + k
  {
    var yoe := 100 * c + 4 * q + k;
    var t := 24 * c + q + 365 * k + d;
    assert doe == 1460 * (25 * c + q) + t;
    assert doe / 1460 == 25 * c + q + (if t >= 1460 then 1 else 0);
    var n := doe - doe / 1460 + doe / 36524 - doe / 146096;
    if doe == 146096 {
      assert c == 3 && q == 24 && k == 3 && d == 365;
    } else {
      assert doe / 36524 == c;
      assert doe / 146096 == 0;
      assert n == 365 * yoe + d - (if t >= 1460 then 1 else 0);
    }
  }

  lemma {:induction false} CutLength(c: int, q: int, k: int, d: int)
    requires CutsEra(36524 * c + 1461 * q + 365 * k + d, c, q, k, d)
    ensures d < YearLength(100 * c + 4 * q + k)
  {
    var next := 100 * c + 4 * q + k + 1;
    if d == 365 {
      assert next == 4 * (25 * c + q + 1);
      assert next % 4 == 0;
      if q == 24 {
        assert next == 400;
      } else {
        assert next % 100 == 4 * q + 4;
      }
    }
  }

  /** The division formula finds the year whose day range holds doe. */
  lemma {:induction false} YearOfEraBounds(doe: int)
    requires 0 <= doe < DAYS_PER_ERA
    ensures 0 <= YearOfEra(doe) < 400
    ensures YearStart(YearOfEra(doe)) <= doe < YearStart(YearOfEra(doe)) + YearLength(YearOfEra(doe))
  {
    var c, q, k, d := EraCut(doe);
    CutYear(doe, c, q, k, d);
    CutYearStart(c, q, k);
    CutLength(c, q, k, d);
  }

  // ---------------------------------------------------------------------------
  // Months of the March-based year
  // ---------------------------------------------------------------------------

  /** The date of day doy in the March-based year that begins in calendar year y. */
  function DateInYear(y: int, doy: int): Date {
    var mp := MonthIndex(doy);
    var m := if mp < 10 then mp + 3 else mp - 9;
    Date(if m <= 2 then y + 1 else y, m, doy - (153 * mp + 2) / 5 + 1)
  }

  /** Days of the March-based year before its month mp. */
  function MonthStart(mp: int): int {
    (153 * mp + 2) / 5
  }

  lemma {:induction false} MonthBounds(doy: int)
    requires 0 <= doy <= 365
    ensures var mp := MonthIndex(doy);
            0 <= mp <= 11 && MonthStart(mp) <= doy < MonthStart(mp + 1)
  {
    var mp := MonthIndex(doy);
    assert 153 * mp <= 5 * doy + 2 < 153 * mp + 153;
    var s, t := MonthStart(mp), MonthStart(mp + 1);
    assert 5 * s <= 153 * mp + 2 < 5 * s + 5;
    assert 5 * t <= 153 * mp + 155 < 5 * t + 5;
  }

  lemma {:induction false} MonthIndexOf(doy: int, mp: int)
    requires 0 <= doy && 0 <= mp && MonthStart(mp) <= doy < MonthStart(mp + 1)
    ensures MonthIndex(doy) == mp
  {
    var s, t := MonthStart(mp), MonthStart(mp + 1);
    assert 5 * s <= 153 * mp + 2 < 5 * s + 5;
    assert 5 * t <= 153 * mp + 155 < 5 * t + 5;
  }

  /** Every month before the last has its calendar length. */
  lemma {:induction false} MonthLengths(y: int, mp: int)
    requires 0 <= mp <= 10
    ensures MonthStart(mp + 1) - MonthStart(mp) ==
            DaysInMonth(if mp < 10 then y else y + 1, if mp < 10 then mp + 3 else mp - 9)
  {
    assert MonthStart(0) == 0 && MonthStart(1) == 31 && MonthStart(2) == 61 && MonthStart(3) == 92;
    assert MonthStart(4) == 122 && MonthStart(5) == 153 && MonthStart(6) == 184 && MonthStart(7) == 214;
    assert MonthStart(8) == 245 && MonthStart(9) == 275 && MonthStart(10) == 306 && MonthStart(11) == 337;
  }

  lemma {:induction false} DateIsValid(y: int, doy: int)
    requires 0 <= doy < YearLength(y)
    ensures ValidDate(DateInYear(y, doy))
  {
    MonthBounds(doy);
    var mp := MonthIndex(doy);
    if mp <= 10 {
      MonthLengths(y, mp);
    }
  }

  lemma {:induction false} NextInYear(y: int, doy: int)
    requires 0 <= doy && doy + 1 < YearLength(y)
    ensures DateInYear(y, doy + 1) == NextDay(DateInYear(y, doy))
  {
    MonthBounds(doy);
    var mp := MonthIndex(doy);
    if mp == 11 {
      MonthIndexOf(doy + 1, 11);
    } else {
      MonthLengths(y, mp);
      if doy + 1 < MonthStart(mp + 1) {
        MonthIndexOf(doy + 1, mp);
      } else {
        MonthStartsGrow(mp + 1);
        MonthIndexOf(doy + 1, mp + 1);
      }
    }
  }

  lemma {:induction false} MonthStartsGrow(mp: int)
    ensures MonthStart(mp) + 28 < MonthStart(mp + 1)
  {
    var s, t := MonthStart(mp), MonthStart(mp + 1);
    assert 5 * s <= 153 * mp + 2 < 5 * s + 5;
    assert 5 * t <= 153 * mp + 155 < 5 * t + 5;
  }

  lemma {:induction false} NextYear(y: int)
    ensures DateInYear(y + 1, 0) == NextDay(DateInYear(y, YearLength(y) - 1))
  {
    MonthIndexOf(YearLength(y) - 1, 11);
    MonthIndexOf(0, 0);
  }

  // ---------------------------------------------------------------------------
  // All days
  // ---------------------------------------------------------------------------

  lemma {:induction false} Remainder4(a: int, b: int, q: int)
    requires a == b + 4 * q
    ensures a % 4 == b % 4
  {
    assert a == 4 * (b / 4 + q) + b % 4;
  }

  lemma {:induction false} Remainder100(a: int, b: int, q: int)
    requires a == b + 100 * q
    ensures a % 100 == b % 100
  {
    assert a == 100 * (b / 100 + q) + b % 100;
  }

  lemma {:induction false} Remainder400(a: int, b: int, q: int)
    requires a == b + 400 * q
    ensures a % 400 == b % 400
  {
    assert a == 400 * (b / 400 + q) + b % 400;
  }

  lemma {:induction false} LeapRepeats(y: int, era: int)
    ensures IsLeap(y + 400 * era) == IsLeap(y)
  {
    Remainder4(y + 400 * era, y, 100 * era);
    Remainder100(y + 400 * era, y, 4 * era);
    Remainder400(y + 400 * era, y, era);
  }

  /** Where a day is: the day number it has within all eras. */
  function PlaceNumber(era: int, yoe: int, doy: int): int {
    era * DAYS_PER_ERA + YearStart(yoe) + doy
  }

  predicate ValidPlace(era: int, yoe: int, doy: int) {
    0 <= yoe < 400 && 0 <= doy < YearLength(yoe + 400 * era)
  }

  /** Where the computed date sits: an era, a year of it, a day of that year. */
  lemma {:induction false} CivilPlace(days: int) returns (era: int, yoe: int, doy: int)
    ensures days + DAYS_TO_MARCH_ERA == PlaceNumber(era, yoe, doy) && ValidPlace(era, yoe, doy)
    ensures CivilFromDays(days) == DateInYear(yoe + 400 * era, doy)
  {
    var z := days + DAYS_TO_MARCH_ERA;
    era := z / DAYS_PER_ERA;
    var doe := z - era * DAYS_PER_ERA;
    YearOfEraBounds(doe);
    yoe := YearOfEra(doe);
    doy := doe - YearStart(yoe);
    CivilInYear(days, era, yoe, doe);
    LeapRepeats(yoe + 1, era);
  }

  lemma {:induction false} YearStartsGrow(a: int, b: int)
    requires 0 <= a <= b <= 400
    ensures YearStart(a) <= YearStart(b)
    decreases b
  {
    if a < b {
      YearStartStep(b - 1);
      YearStartsGrow(a, b - 1);
    }
  }

  lemma {:induction false} YearDecided(doe: int, yoe: int)
    requires 0 <= yoe < 400 && YearStart(yoe) <= doe < YearStart(yoe) + YearLength(yoe)
    ensures 0 <= doe < DAYS_PER_ERA && YearOfEra(doe) == yoe
  {
    YearStartStep(yoe);
    YearStartsGrow(0, yoe);
    YearStartsGrow(yoe + 1, 400);
    assert YearStart(400) == DAYS_PER_ERA && YearStart(0) == 0;
    YearOfEraBounds(doe);
    var found := YearOfEra(doe);
    YearStartStep(found);
    if found < yoe {
      YearStartsGrow(found + 1, yoe);
    } else if yoe < found {
      YearStartsGrow(yoe + 1, found);
    }
  }

  lemma {:induction false} EraDecided(z: int, era: int, doe: int)
    requires z == era * DAYS_PER_ERA + doe && 0 <= doe < DAYS_PER_ERA
    ensures z / DAYS_PER_ERA == era
  {
  }

  lemma {:induction false} PlaceDecides(days: int, era: int, yoe: int, doy: int)
    requires days + DAYS_TO_MARCH_ERA == PlaceNumber(era, yoe, doy) && ValidPlace(era, yoe, doy)
    ensures CivilFromDays(days) == DateInYear(yoe + 400 * era, doy)
  {
    LeapRepeats(yoe + 1, era);
    var doe := YearStart(yoe) + doy;
    YearDecided(doe, yoe);
    EraDecided(days + DAYS_TO_MARCH_ERA, era, doe);
    CivilInYear(days, era, yoe, doe);
  }

  /** The computed date, once era and year of it are known. */
  lemma {:induction false} CivilInYear(days: int, era: int, yoe: int, doe: int)
    requires days + DAYS_TO_MARCH_ERA == era * DAYS_PER_ERA + doe && (days + DAYS_TO_MARCH_ERA) / DAYS_PER_ERA == era
    requires YearOfEra(doe) == yoe && 0 <= yoe < 400
    ensures CivilFromDays(days) == DateInYear(yoe + 400 * era, doe - YearStart(yoe))
  {
    assert yoe / 400 == 0;
  }

  /** Every day count gives a valid date. */
  lemma {:induction false} CivilIsValid(days: int)
    ensures ValidDate(CivilFromDays(days))
  {
    var era, yoe, doy := CivilPlace(days);
    DateIsValid(yoe + 400 * era, doy);
  }

  /** The first day of the next March-based year follows the last day of this one. */
  lemma {:induction false} NewYearPlace(era: int, yoe: int) returns (era': int, yoe': int)
    requires 0 <= yoe < 400
    ensures ValidPlace(era', yoe', 0) && yoe' + 400 * era' == yoe + 400 * era + 1
    ensures PlaceNumber(era', yoe', 0) == PlaceNumber(era, yoe, YearLength(yoe + 400 * era) - 1) + 1
  {
    LeapRepeats(yoe + 1, era);
    YearStartStep(yoe);
    if yoe + 1 < 400 {
      return era, yoe + 1;
    }
    assert YearStart(400) == DAYS_PER_ERA && YearStart(0) == 0;
    return era + 1, 0;
  }

  /** The place one day later, which is the calendar's next day. */
  lemma {:induction false} NextPlace(era: int, yoe: int, doy: int) returns (era': int, yoe': int, doy': int)
    requires ValidPlace(era, yoe, doy)
    ensures ValidPlace(era', yoe', doy')
    ensures PlaceNumber(era', yoe', doy') == PlaceNumber(era, yoe, doy) + 1
    ensures DateInYear(yoe' + 400 * era', doy') == NextDay(DateInYear(yoe + 400 * era, doy))
  {
    if doy + 1 < YearLength(yoe + 400 * era) {
      NextInYear(yoe + 400 * era, doy);
      return era, yoe, doy + 1;
    }
    NextYear(yoe + 400 * era);
    era', yoe' := NewYearPlace(era, yoe);
    doy' := 0;
  }

  /** One day more is the calendar's next day, for every integer day count. */
  lemma {:induction false} CivilSteps(days: int)
    ensures CivilFromDays(days + 1) == NextDay(CivilFromDays(days))
  {
    var era, yoe, doy := CivilPlace(days);
    var era', yoe', doy' := NextPlace(era, yoe, doy);
    PlaceDecides(days + 1, era', yoe', doy');
  }

  /** The epoch day. */
  lemma {:induction false} CivilEpoch()
    ensures CivilFromDays(0) == Date(1970, 1, 1)
  {
  }

  lemma {:induction false} NextDayIsAfter(date: Date)
    requires ValidDate(date)
    ensures ValidDate(NextDay(date)) && Before(date, NextDay(date))
  {
  }

  /** Later days are later dates, so the map is one-to-one. */
  lemma {:induction false} CivilIncreases(a: int, b: int)
    requires a < b
    ensures Before(CivilFromDays(a), CivilFromDays(b))
  {
    forall day: int ensures Before(CivilFromDays(day), CivilFromDays(day + 1)) {
      DayIsAfter(day);
    }
    StepsIncrease(CivilFromDays, a, b);
  }

  lemma {:induction false} StepsIncrease(dateOf: int -> Date, a: int, b: int)
    requires a < b && forall day :: Before(dateOf(day), dateOf(day + 1))
    ensures Before(dateOf(a), dateOf(b))
    decreases b - a
  {
    assert Before(dateOf(b - 1), dateOf(b - 1 + 1));
    if a < b - 1 {
      StepsIncrease(dateOf, a, b - 1);
      LaterStill(dateOf(a), dateOf(b - 1), dateOf(b));
    }
  }

  lemma {:induction false} DayIsAfter(days: int)
    ensures Before(CivilFromDays(days), CivilFromDays(days + 1))
  {
    CivilIsValid(days);
    CivilSteps(days);
    NextDayIsAfter(CivilFromDays(days));
  }

  lemma {:induction false} LaterStill(a: Date, b: Date, c: Date)
    requires Before(a, b) && Before(b, c)
    ensures Before(a, c)
  {
  }

  // ---------------------------------------------------------------------------
  // The inverse
  // ---------------------------------------------------------------------------

  /** Days before a month of a calendar year, by adding up its months. */
  function DaysBeforeMonth(year: int, month: int): int
    decreases month
  {
    if month <= 1 then 0 else DaysBeforeMonth(year, month - 1) + DaysInMonth(year, month - 1)
  }

  /** Days from 1970-01-01 to 1 January: 365 a year plus the leap days in between. */
  function DaysBeforeYear(year: int): int {
    365 * (year - 1970) + ((year - 1) / 4 - (year - 1) / 100 + (year - 1) / 400) - 477
  }

  function DaysFromCivil(date: Date): int {
    DaysBeforeYear(date.year) + DaysBeforeMonth(date.year, date.month) + date.day - 1
  }

  lemma {:induction false} LeapDays(year: int)
    ensures DaysBeforeYear(year + 1) == DaysBeforeYear(year) + (if IsLeap(year) then 366 else 365)
  {
    assert year / 4 == (year - 1) / 4 + (if year % 4 == 0 then 1 else 0);
    assert year / 100 == (year - 1) / 100 + (if year % 100 == 0 then 1 else 0);
    assert year / 400 == (year - 1) / 400 + (if year % 400 == 0 then 1 else 0);
    assert year % 400 == 0 ==> year % 100 == 0;
    assert year % 100 == 0 ==> year % 4 == 0;
  }

  lemma {:induction false} YearOfMonths(year: int)
    ensures DaysBeforeMonth(year, 12) == (if IsLeap(year) then 335 else 334)
  {
    assert DaysBeforeMonth(year, 3) == 31 + DaysInMonth(year, 2);
    assert DaysBeforeMonth(year, 5) == DaysBeforeMonth(year, 3) + 61;
    assert DaysBeforeMonth(year, 7) == DaysBeforeMonth(year, 5) + 61;
    assert DaysBeforeMonth(year, 9) == DaysBeforeMonth(year, 7) + 62;
    assert DaysBeforeMonth(year, 11) == DaysBeforeMonth(year, 9) + 61;
  }

  /** The inverse count also moves by one with the calendar. */
  lemma {:induction false} DaysFromCivilSteps(date: Date)
    requires ValidDate(date)
    ensures ValidDate(NextDay(date)) && DaysFromCivil(NextDay(date)) == DaysFromCivil(date) + 1
  {
    if date.day == DaysInMonth(date.year, date.month) && date.month == 12 {
      LeapDays(date.year);
      YearOfMonths(date.year);
    }
  }

  lemma {:induction false} CivilAdvances(days: int)
    ensures DaysFromCivil(CivilFromDays(days + 1)) == DaysFromCivil(CivilFromDays(days)) + 1
  {
    CivilIsValid(days);
    CivilSteps(days);
    DaysFromCivilSteps(CivilFromDays(days));
  }

  lemma {:induction false} StepsCount(h: int -> int, n: int)
    requires h(0) == 0 && forall k :: h(k + 1) == h(k) + 1
    ensures h(n) == n
    decreases if n < 0 then -n else n
  {
    if n > 0 {
      StepsCount(h, n - 1);
      assert h(n - 1 + 1) == h(n - 1) + 1;
    } else if n < 0 {
      StepsCount(h, n + 1);
      assert h(n + 1) == h(n) + 1;
    }
  }

  /** The computed date maps back to the same day count, for every integer. */
  lemma {:induction false} CivilRoundTrip(days: int)
    ensures ValidDate(CivilFromDays(days)) && DaysFromCivil(CivilFromDays(days)) == days
  {
    CivilIsValid(days);
    CivilEpoch();
    var h := (n: int) => DaysFromCivil(CivilFromDays(n));
    assert h(0) == 0;
    forall k ensures h(k + 1) == h(k) + 1 {
      CivilAdvances(k);
    }
    StepsCount(h, days);
  }

  /** A valid date is the date of its own day count: the map reaches every date. */
  lemma {:induction false} CivilReaches(date: Date)
    requires ValidDate(date)
    ensures CivilFromDays(DaysFromCivil(date)) == date
  {
    CivilRoundTrip(DaysFromCivil(date));
    DaysFromCivilIsOneToOne(CivilFromDays(DaysFromCivil(date)), date);
  }

  lemma {:induction false} MonthsAddUp(year: int, a: int, b: int)
    requires 1 <= a < b <= 12
    ensures DaysBeforeMonth(year, a) + DaysInMonth(year, a) <= DaysBeforeMonth(year, b)
    decreases b
  {
    if a < b - 1 {
      MonthsAddUp(year, a, b - 1);
    }
  }

  lemma {:induction false} YearsAddUp(a: int, b: int)
    requires a < b
    ensures DaysBeforeYear(a) + (if IsLeap(a) then 366 else 365) <= DaysBeforeYear(b)
    decreases b - a
  {
    LeapDays(b - 1);
    if a < b - 1 {
      YearsAddUp(a, b - 1);
    }
  }

  lemma {:induction false} DayOfYearBounds(date: Date)
    requires ValidDate(date)
    ensures 0 <= DaysBeforeMonth(date.year, date.month) + date.day - 1 < (if IsLeap(date.year) then 366 else 365)
  {
    if date.month > 1 {
      MonthsAddUp(date.year, 1, date.month);
    }
    YearOfMonths(date.year);
    if date.month < 12 {
      MonthsAddUp(date.year, date.month, 12);
    }
  }

  lemma {:induction false} DaysFromCivilIncreases(a: Date, b: Date)
    requires ValidDate(a) && ValidDate(b) && Before(a, b)
    ensures DaysFromCivil(a) < DaysFromCivil(b)
  {
    if a.year < b.year {
      DayOfYearBounds(a);
      DayOfYearBounds(b);
      YearsAddUp(a.year, b.year);
    } else if a.month < b.month {
      MonthsAddUp(a.year, a.month, b.month);
    }
  }

  lemma {:induction false} DaysFromCivilIsOneToOne(a: Date, b: Date)
    requires ValidDate(a) && ValidDate(b) && DaysFromCivil(a) == DaysFromCivil(b)
    ensures a == b
  {
    if Before(a, b) {
      DaysFromCivilIncreases(a, b);
    } else if Before(b, a) {
      DaysFromCivilIncreases(b, a);
    }
  }

  // ---------------------------------------------------------------------------
  // The minute text
  // ---------------------------------------------------------------------------

  /** The stamp names the minute that holds the floored second, in range, for every epoch. */
  lemma {:induction false} FormatMtimeIsTheMinute(epoch: real)
    ensures var s := FormatMtime(epoch);
            && ValidDate(s.date) && 0 <= s.hour < 24 && 0 <= s.minute < 60
            && var start := DaysFromCivil(s.date) * 86400 + s.hour * 3600 + s.minute * 60;
               start as real <= epoch < (start + 60) as real
  {
    var seconds := epoch.Floor;
    var days, secsOfDay := seconds / 86400, seconds % 86400;
    CivilRoundTrip(days);
    MinuteSplit(secsOfDay);
    var start := days * 86400 + secsOfDay / 3600 * 3600 + secsOfDay % 3600 / 60 * 60;
    assert start <= seconds <= start + 59;
  }

  lemma {:induction false} MinuteSplit(secsOfDay: int)
    requires 0 <= secsOfDay < 86400
    ensures var hour, minute := secsOfDay / 3600, secsOfDay % 3600 / 60;
            && 0 <= hour < 24 && 0 <= minute < 60
            && hour * 3600 + minute * 60 <= secsOfDay <= hour * 3600 + minute * 60 + 59
  {
  }
}
