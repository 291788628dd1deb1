/** The civil calendar behind budget periods (`client_budget.rs`).

  `YmdFromDays` follows the chained divisions of the source, with Rust's truncating `/` and the wrapping
  `as i32` cast written out.  The reference calendar beside it is the one of RFC 3339 (month lengths of
  section 5.7, leap years of Appendix C): `IsLeap`, `DaysInMonth`, `Successor` and `DaysFromCivil`. */
module Calendar {
  import opened Decimal

  datatype Civil = Civil(year: int, month: int, day: int)

  // --- Rust arithmetic ---------------------------------------------------------------

  /** Rust's `/` on signed integers: truncation toward zero. */
  function TruncDiv(a: int, b: int): int
    requires b > 0
  {
    if a >= 0 then a / b else -((-a) / b)
  }

  const I32_MIN: int := -0x8000_0000
  const I32_MAX: int := 0x7fff_ffff

  /** Rust's `as i32` on a 64-bit integer: keep the low 32 bits. */
  function AsI32(x: int): int {
    (x - I32_MIN) % 0x1_0000_0000 + I32_MIN
  }

  // --- The algorithm of the source ----------------------------------------------------

  /** `z` is the day count from 0000-03-01; the first branch avoids truncation toward zero. */
  function EraOf(z: int): int {
    TruncDiv(if z >= 0 then z else z - 146_096, 146_097)
  }

  function YearOfEra(doe: int): int
    requires 0 <= doe
  {
    (doe - doe / 1460 + doe / 36_524 - doe / 146_096) / 365
  }

  function DayOfYear(doe: int, yoe: int): int
    requires 0 <= yoe
  {
    doe - (365 * yoe + yoe / 4 - yoe / 100)
  }

  /** Month and day of a day of the year that starts on March 1 of year `y`. */
  function MarchDate(y: int, doy: int): Civil {
    var mp := (5 * doy + 2) / 153;
    var d := doy - (153 * mp + 2) / 5 + 1;
    var m := if mp < 10 then mp + 3 else mp - 9;
    Civil(if m <= 2 then y + 1 else y, m, d)
  }

  function DateOfEra(era: int, doe: int): Civil
    requires 0 <= doe < 146_097
  {
    YearSplits(doe);
    var yoe := YearOfEra(doe);
    MarchDate(yoe + era * 400, DayOfYear(doe, yoe))
  }

  /** The civil date before the final cast of the year to `i32`. */
  function WideYmdFromDays(days: int): Civil {
    var z := days + 719_468;
    var era := EraOf(z);
    EraSplits(z);
    DateOfEra(era, z - era * 146_097)
  }

  function YmdFromDays(days: int): Civil {
    var c := WideYmdFromDays(days);
    Civil(AsI32(c.year), c.month, c.day)
  }

  // --- The reference calendar -----------------------------------------------------------

  predicate IsLeap(y: int) {
    y % 4 == 0 && (y % 100 != 0 || y % 400 == 0)
  }

  function DaysInMonth(y: int, m: int): int {
    if m == 2 then (if IsLeap(y) then 29 else 28)
    else if m == 4 || m == 6 || m == 9 || m == 11 then 30
    else 31
  }

  predicate ValidDate(c: Civil) {
    1 <= c.month <= 12 && 1 <= c.day <= DaysInMonth(c.year, c.month)
  }

  function Successor(c: Civil): Civil {
    if c.day < DaysInMonth(c.year, c.month) then c.(day := c.day + 1)
    else if c.month < 12 then Civil(c.year, c.month + 1, 1)
    else Civil(c.year + 1, 1, 1)
  }

  /** Days from 0000-01-01 to the first day of year `y`. */
  function DaysBeforeYear(y: int): int {
    365 * y + (y + 3) / 4 - (y + 99) / 100 + (y + 399) / 400
  }

  /** Days from January 1 to the first day of month `m`. */
  function DaysBeforeMonth(y: int, m: int): int
    decreases m
  {
    if m <= 1 then 0 else DaysBeforeMonth(y, m - 1) + DaysInMonth(y, m - 1)
  }

  /** The reference inverse: days from 1970-01-01 to `c`. */
  function DaysFromCivil(c: Civil): int {
    DaysBeforeYear(c.year) + DaysBeforeMonth(c.year, c.month) + c.day - 1 - 719_528
  }

  // --- Splitting a day count --------------------------------------------------------------

  lemma EraSplits(z: int)
    ensures 0 <= z - EraOf(z) * 146_097 < 146_097
  {
  }

  /** Century, four-year cycle and day of cycle of a day of the 400-year era. */
  function Century(doe: int): int {
    if doe == 146_096 then 3 else doe / 36_524
  }

  /** The three correction terms leave exactly 365 days for every year of the era. */
  lemma CorrectedDays(doe: int)
    requires 0 <= doe < 146_097
    ensures var c := Century(doe);
            var q := (doe - 36_524 * c) / 1461;
            var s := doe - 36_524 * c - 1461 * q;
            && 0 <= c < 4 && 0 <= q < 25 && 0 <= s <= 1460
            && (s == 1460 ==> q < 24 || c == 3)
            && YearOfEra(doe) == 100 * c + 4 * q + (if s == 1460 then 3 else s / 365)
  {
    var c := Century(doe);
    var r := doe - 36_524 * c;
    var q := r / 1461;
    var s := r - 1461 * q;
    var extra := if q + 24 * c + s >= 1460 then 1 else 0;
    assert doe == 1460 * (q + 25 * c) + (q + 24 * c + s);
    if doe < 146_096 {
      assert doe / 1460 == q + 25 * c + extra;
      assert doe - doe / 1460 + doe / 36_524 == 365 * (100 * c + 4 * q) + (s - extra);
    }
  }

  /** A year of the era by its century, four-year cycle and year of the cycle. */
  lemma YearParts(c: int, q: int, t: int)
    requires 0 <= c < 4 && 0 <= q < 25 && 0 <= t < 4
    ensures var yoe := 100 * c + 4 * q + t;
            && 0 <= yoe < 400 && yoe / 4 == 25 * c + q && yoe / 100 == c
            && ((yoe + 1) % 4 == 0 <==> t == 3) && ((yoe + 1) % 100 == 0 <==> q == 24 && t == 3)
            && (yoe == 399 <==> c == 3 && q == 24 && t == 3)
  {
  }

  predicate LeapEndOfEra(yoe: int) {
    (yoe + 1) % 4 == 0 && ((yoe + 1) % 100 != 0 || yoe == 399)
  }

  lemma DayInCycle(doe: int, c: int, q: int, s: int, t: int)
    requires 0 <= c < 4 && 0 <= q < 25 && 0 <= s <= 1460 && t == if s == 1460 then 3 else s / 365
    requires doe == 36_524 * c + 1461 * q + s
    ensures 0 <= t < 4 && DayOfYear(doe, 100 * c + 4 * q + t) == s - 365 * t
    ensures 0 <= s - 365 * t <= if s == 1460 then 365 else 364
  {
    assert 0 <= t < 4;
    YearParts(c, q, t);
  }

  /** The correction terms find the March-based year that contains the day. */
  lemma YearSplits(doe: int)
    requires 0 <= doe < 146_097
    ensures 0 <= YearOfEra(doe) < 400
    ensures 0 <= DayOfYear(doe, YearOfEra(doe)) <= if LeapEndOfEra(YearOfEra(doe)) then 365 else 364
  {
    hide YearOfEra, DayOfYear, Century;
    CorrectedDays(doe);
    var c := Century(doe);
    var q := (doe - 36_524 * c) / 1461;
    var s := doe - 36_524 * c - 1461 * q;
    var t := if s == 1460 then 3 else s / 365;
    DayInCycle(doe, c, q, s, t);
    YearParts(c, q, t);
  }

  /** Month index and day of month of a day of the March-based year. */
  lemma MonthSplits(doy: int)
    requires 0 <= doy <= 365
    ensures var mp := (5 * doy + 2) / 153;
            var start := (153 * mp + 2) / 5;
            && 0 <= mp < 12
            && start == [0, 31, 61, 92, 122, 153, 184, 214, 245, 275, 306, 337][mp]
            && start <= doy
            && (mp < 11 ==> doy < [31, 61, 92, 122, 153, 184, 214, 245, 275, 306, 337][mp])
  {
  }

  lemma MonthStarts(y: int, m: int)
    requires 1 <= m <= 12
    ensures DaysBeforeMonth(y, m) ==
            [0, 31, 59, 90, 120, 151, 181, 212, 243, 273, 304, 334][m - 1] + (if m > 2 && IsLeap(y) then 1 else 0)
  {
  }

  lemma Every4(y: int)
    ensures (y + 4) / 4 - (y + 3) / 4 == if y % 4 == 0 then 1 else 0
  {
  }

  lemma Every100(y: int)
    ensures (y + 100) / 100 - (y + 99) / 100 == if y % 100 == 0 then 1 else 0
  {
  }

  lemma Every400(y: int)
    ensures (y + 400) / 400 - (y + 399) / 400 == if y % 400 == 0 then 1 else 0
  {
    var q, r := y / 400, y % 400;
    assert (y + 400) / 400 == q + 1;
    assert y + 399 == 400 * q + (r + 399);
  }

  lemma LeapRulesNest(y: int)
    ensures y % 400 == 0 ==> y % 100 == 0
    ensures y % 100 == 0 ==> y % 4 == 0
  {
    Shift100(y % 400, 4 * (y / 400));
    Shift4(y % 100, 25 * (y / 100));
  }

  /** A year of the reference calendar is 365 or 366 days long. */
  lemma YearLength(y: int)
    ensures DaysBeforeYear(y + 1) == DaysBeforeYear(y) + (if IsLeap(y) then 366 else 365)
  {
    Every4(y);
    Every100(y);
    Every400(y);
    LeapRulesNest(y);
  }

  lemma Shift4(a: int, k: int)
    ensures (a + 4 * k) / 4 == a / 4 + k && (a + 4 * k) % 4 == a % 4
  {
  }

  lemma Shift100(a: int, k: int)
    ensures (a + 100 * k) / 100 == a / 100 + k && (a + 100 * k) % 100 == a % 100
  {
  }

  lemma Shift400(a: int, k: int)
    ensures (a + 400 * k) / 400 == a / 400 + k && (a + 400 * k) % 400 == a % 400
  {
  }

  /** The calendar repeats after 400 years. */
  lemma EraShift(y: int, era: int)
    ensures DaysBeforeYear(y + era * 400) == DaysBeforeYear(y) + era * 146_097
    ensures IsLeap(y + era * 400) <==> IsLeap(y)
  {
    Shift4(y + 3, era * 100);
    Shift100(y + 99, era * 4);
    Shift400(y + 399, era);
    Shift4(y, era * 100);
    Shift100(y, era * 4);
    Shift400(y, era);
  }

  /** Days from 1970-01-01 to March 1 of year `y`. */
  function MarchFirst(y: int): int {
    DaysFromCivil(Civil(y, 3, 1))
  }

  lemma RoundUp(n: int)
    requires 0 <= n < 400
    ensures (n + 3) / 4 == n / 4 + (if n % 4 == 0 then 0 else 1)
    ensures (n + 99) / 100 == n / 100 + (if n % 100 == 0 then 0 else 1)
    ensures (n + 399) / 400 == if n == 0 then 0 else 1
    ensures n % 400 == n
  {
  }

  lemma NextYearIsLeap(yoe: int)
    requires 0 <= yoe < 400
    ensures IsLeap(yoe + 1) <==> (yoe + 1) % 4 == 0 && ((yoe + 1) % 100 != 0 || yoe == 399)
  {
  }

  lemma YearStartOfFirstEra(yoe: int)
    requires 0 <= yoe < 400
    ensures DaysBeforeYear(yoe) == 365 * yoe + yoe / 4 - yoe / 100 + (if IsLeap(yoe) then 0 else 1)
  {
    RoundUp(yoe);
  }

  lemma MarchFirstOfFirstEra(yoe: int)
    requires 0 <= yoe < 400
    ensures MarchFirst(yoe) == 365 * yoe + yoe / 4 - yoe / 100 - 719_468
  {
    hide DaysBeforeYear;
    MonthStarts(yoe, 3);
    YearStartOfFirstEra(yoe);
  }

  lemma MarchFirstShifts(y: int, era: int)
    ensures MarchFirst(y + era * 400) == MarchFirst(y) + era * 146_097
  {
    hide DaysBeforeYear;
    EraShift(y, era);
    MonthStarts(y, 3);
    MonthStarts(y + era * 400, 3);
  }

  lemma MarchFirstOfEra(era: int, yoe: int)
    requires 0 <= yoe < 400
    ensures MarchFirst(yoe + era * 400) == era * 146_097 + 365 * yoe + yoe / 4 - yoe / 100 - 719_468
    ensures IsLeap(yoe + era * 400 + 1) <==> LeapEndOfEra(yoe)
  {
    hide DaysBeforeYear, IsLeap, MarchFirst;
    MarchFirstOfFirstEra(yoe);
    NextYearIsLeap(yoe);
    MarchFirstShifts(yoe, era);
    EraShift(yoe + 1, era);
    assert yoe + 1 + era * 400 == yoe + era * 400 + 1;
  }

  // --- The date is the Gregorian date --------------------------------------------------------

  lemma MarchDateIsCivil(y: int, doy: int)
    requires 0 <= doy <= if IsLeap(y + 1) then 365 else 364
    ensures ValidDate(MarchDate(y, doy))
    ensures DaysFromCivil(MarchDate(y, doy)) == MarchFirst(y) + doy
  {
    hide DaysBeforeMonth, DaysBeforeYear;
    var c := MarchDate(y, doy);
    MonthSplits(doy);
    MonthStarts(c.year, c.month);
    MonthStarts(y, 3);
    YearLength(y);
  }

  lemma DateOfEraIsCivil(era: int, doe: int)
    requires 0 <= doe < 146_097
    ensures ValidDate(DateOfEra(era, doe))
    ensures DaysFromCivil(DateOfEra(era, doe)) == era * 146_097 + doe - 719_468
  {
    hide YearOfEra, LeapEndOfEra, ValidDate, DaysFromCivil, MarchDate, MarchFirst, IsLeap;
    var yoe := YearOfEra(doe);
    YearSplits(doe);
    MarchFirstOfEra(era, yoe);
    MarchDateIsCivil(yoe + era * 400, DayOfYear(doe, yoe));
  }

  /** Every day index gets a date that exists, and the reference inverse leads back to the index. */
  lemma WideDateIsCivil(days: int)
    ensures ValidDate(WideYmdFromDays(days))
    ensures DaysFromCivil(WideYmdFromDays(days)) == days
  {
    hide EraOf, DateOfEra, ValidDate, DaysFromCivil;
    var z := days + 719_468;
    EraSplits(z);
    DateOfEraIsCivil(EraOf(z), z - EraOf(z) * 146_097);
  }

  predicate Earlier(a: Civil, b: Civil) {
    a.year < b.year || (a.year == b.year && (a.month < b.month || (a.month == b.month && a.day < b.day)))
  }

  lemma YearStartsGrow(y: int, later: int)
    requires y < later
    ensures DaysBeforeYear(y + 1) <= DaysBeforeYear(later)
    decreases later - y
  {
  }

  lemma DayIsInsideItsMonth(c: Civil)
    requires ValidDate(c)
    ensures var start := DaysBeforeYear(c.year) - 719_528;
            && start + DaysBeforeMonth(c.year, c.month) <= DaysFromCivil(c)
               < start + DaysBeforeMonth(c.year, c.month + 1) <= DaysBeforeYear(c.year + 1) - 719_528
            && start <= DaysFromCivil(c)
  {
    YearLength(c.year);
    MonthStarts(c.year, c.month);
    if c.month < 12 {
      MonthStarts(c.year, c.month + 1);
    }
  }

  lemma MonthStartsGrow(y: int, m: int, later: int)
    requires 1 <= m < later <= 12
    ensures DaysBeforeMonth(y, m + 1) <= DaysBeforeMonth(y, later)
  {
    MonthStarts(y, m + 1);
    MonthStarts(y, later);
  }

  /** Day counts are in the order of the dates. */
  lemma DaysAreOrdered(a: Civil, b: Civil)
    requires ValidDate(a) && ValidDate(b)
    requires Earlier(a, b)
    ensures DaysFromCivil(a) < DaysFromCivil(b)
  {
    hide DaysBeforeYear, DaysBeforeMonth, DaysInMonth;
    DayIsInsideItsMonth(a);
    DayIsInsideItsMonth(b);
    if a.year < b.year {
      YearStartsGrow(a.year, b.year);
    } else if a.month < b.month {
      MonthStartsGrow(a.year, a.month, b.month);
    }
  }

  /** The other half of the inverse: every date that exists is the date of its day count. */
  lemma CivilIsWideDate(c: Civil)
    requires ValidDate(c)
    ensures WideYmdFromDays(DaysFromCivil(c)) == c
  {
    var w := WideYmdFromDays(DaysFromCivil(c));
    WideDateIsCivil(DaysFromCivil(c));
    if Earlier(w, c) {
      DaysAreOrdered(w, c);
    } else if Earlier(c, w) {
      DaysAreOrdered(c, w);
    }
  }

  lemma SuccessorIsNextDay(c: Civil)
    requires ValidDate(c)
    ensures ValidDate(Successor(c))
    ensures DaysFromCivil(Successor(c)) == DaysFromCivil(c) + 1
  {
    YearLength(c.year);
    MonthStarts(c.year, c.month);
    MonthStarts(c.year, 1);
    MonthStarts(c.year + 1, 1);
  }

  /** One more day is the calendar successor, across months, leap days, centuries and eras. */
  lemma NextDayIsSuccessor(days: int)
    ensures WideYmdFromDays(days + 1) == Successor(WideYmdFromDays(days))
  {
    hide WideYmdFromDays, Successor, ValidDate, DaysFromCivil;
    var c := WideYmdFromDays(days);
    WideDateIsCivil(days);
    SuccessorIsNextDay(c);
    CivilIsWideDate(Successor(c));
  }

  lemma DatesAreOrdered(a: int, b: int)
    requires a < b
    ensures Earlier(WideYmdFromDays(a), WideYmdFromDays(b))
  {
    WideDateIsCivil(a);
    WideDateIsCivil(b);
    var ca, cb := WideYmdFromDays(a), WideYmdFromDays(b);
    if Earlier(cb, ca) {
      DaysAreOrdered(cb, ca);
    }
  }

  // --- The cast of the year ----------------------------------------------------------------

  /** -2147483648-01-01 and 2147483647-12-31: the days whose year fits `i32`. */
  const FIRST_DAY: int := -784_353_015_833
  const LAST_DAY: int := 784_351_576_776

  lemma YearFits(days: int)
    ensures FIRST_DAY <= days <= LAST_DAY <==> I32_MIN <= WideYmdFromDays(days).year <= I32_MAX
  {
    var first, last := Civil(I32_MIN, 1, 1), Civil(I32_MAX, 12, 31);
    MonthStarts(I32_MAX, 12);
    assert DaysFromCivil(first) == FIRST_DAY;
    assert DaysFromCivil(last) == LAST_DAY;
    CivilIsWideDate(first);
    CivilIsWideDate(last);
    WideDateIsCivil(days);
    if days < FIRST_DAY {
      DatesAreOrdered(days, FIRST_DAY);
    } else if FIRST_DAY < days {
      DatesAreOrdered(FIRST_DAY, days);
    }
    if days < LAST_DAY {
      DatesAreOrdered(days, LAST_DAY);
    } else if LAST_DAY < days {
      DatesAreOrdered(LAST_DAY, days);
    }
  }

  lemma AsI32IsExact(x: int)
    ensures AsI32(x) == x <==> I32_MIN <= x <= I32_MAX
  {
  }

  lemma CastKeepsDate(days: int)
    ensures YmdFromDays(days) == WideYmdFromDays(days) <==> FIRST_DAY <= days <= LAST_DAY
  {
    YearFits(days);
    AsI32IsExact(WideYmdFromDays(days).year);
  }

  /** Main result: the function computes the Gregorian date of a day index exactly when the year of that date
    fits `i32`; outside the two bounds the cast silently wraps and the date is not the one of that day. */
  lemma YmdIsGregorianIffYearFits(days: int)
    ensures FIRST_DAY <= days <= LAST_DAY
            <==> ValidDate(YmdFromDays(days)) && DaysFromCivil(YmdFromDays(days)) == days
  {
    CastKeepsDate(days);
    WideDateIsCivil(days);
    var c := YmdFromDays(days);
    if ValidDate(c) && DaysFromCivil(c) == days {
      CivilIsWideDate(c);
    }
  }

  /** Its inverse: a date with an `i32` year is the date of the day count the reference calendar gives it. */
  lemma CivilIsYmd(c: Civil)
    requires ValidDate(c) && I32_MIN <= c.year <= I32_MAX
    ensures FIRST_DAY <= DaysFromCivil(c) <= LAST_DAY
    ensures YmdFromDays(DaysFromCivil(c)) == c
  {
    CivilIsWideDate(c);
    YearFits(DaysFromCivil(c));
    CastKeepsDate(DaysFromCivil(c));
  }

  lemma EpochIsDayZero()
    ensures YmdFromDays(0) == Civil(1970, 1, 1)
  {
    var epoch := Civil(1970, 1, 1);
    var days := DaysFromCivil(epoch);
    assert days == 0;
    CivilIsYmd(epoch);
  }

  /** One more day is the calendar successor for the function of the source too, up to the last day. */
  lemma NextYmdIsSuccessor(days: int)
    requires FIRST_DAY <= days < LAST_DAY
    ensures YmdFromDays(days + 1) == Successor(YmdFromDays(days))
  {
    CastKeepsDate(days);
    CastKeepsDate(days + 1);
    NextDayIsSuccessor(days);
  }

  lemma CastOfDate(days: int, c: Civil)
    requires WideYmdFromDays(days) == c
    ensures YmdFromDays(days) == Civil(AsI32(c.year), c.month, c.day)
  {
  }

  /** The cast keeps the low 32 bits, read as two's complement. */
  lemma AsI32KeepsLowBits(x: int)
    ensures -2_147_483_648 <= AsI32(x) <= 2_147_483_647
    ensures (AsI32(x) - x) % 4_294_967_296 == 0
  {
  }

  lemma LastDayWraps(c: Civil)
    requires c == Civil(I32_MAX, 12, 31)
    ensures YmdFromDays(DaysFromCivil(c)) == c
    ensures YmdFromDays(DaysFromCivil(c) + 1) == Civil(I32_MIN, 1, 1)
  {
    CivilIsYmd(c);
    SuccessorIsNextDay(c);
    CivilIsWideDate(Successor(c));
    CastOfDate(DaysFromCivil(c) + 1, Civil(I32_MAX + 1, 1, 1));
  }

  // --- Period keys -----------------------------------------------------------------------------

  datatype BudgetPeriod = Total | Daily | Weekly | Monthly

  const DAY_SECS: int := 86_400

  /** `div_euclid` is Dafny's `/`. */
  function PeriodKeyAt(period: BudgetPeriod, nowUnix: int): int {
    match period
    case Total => 0
    case Daily => nowUnix / DAY_SECS
    case Weekly => nowUnix / DAY_SECS / 7
    case Monthly =>
      var c := YmdFromDays(nowUnix / DAY_SECS);
      c.year * 12 + c.month
  }

  /** The instants whose UTC year fits `i32`. */
  predicate InRange(nowUnix: int) {
    FIRST_DAY <= nowUnix / DAY_SECS <= LAST_DAY
  }

  /** The UTC date of an instant. */
  function DateOf(nowUnix: int): Civil {
    WideYmdFromDays(nowUnix / DAY_SECS)
  }

  lemma MonthlyKeyOfDate(nowUnix: int)
    requires InRange(nowUnix)
    ensures PeriodKeyAt(Monthly, nowUnix) == DateOf(nowUnix).year * 12 + DateOf(nowUnix).month
    ensures 1 <= DateOf(nowUnix).month <= 12
  {
    CastKeepsDate(nowUnix / DAY_SECS);
    WideDateIsCivil(nowUnix / DAY_SECS);
  }

  lemma DayOrder(t1: int, t2: int)
    requires t1 <= t2
    ensures t1 / DAY_SECS <= t2 / DAY_SECS
    ensures t1 / DAY_SECS / 7 <= t2 / DAY_SECS / 7
  {
  }

  /** Total never resets; Daily and Weekly keys count whole days and whole seven-day spans from the epoch. */
  lemma FixedCadences(nowUnix: int)
    ensures PeriodKeyAt(Total, nowUnix) == 0
    ensures var day := PeriodKeyAt(Daily, nowUnix); day * 86_400 <= nowUnix < (day + 1) * 86_400
    ensures var week := PeriodKeyAt(Weekly, nowUnix); week * 604_800 <= nowUnix < (week + 1) * 604_800
  {
  }

  /** Period keys never go back. */
  lemma PeriodKeysAreMonotone(period: BudgetPeriod, t1: int, t2: int)
    requires t1 <= t2
    requires period == Monthly ==> InRange(t1) && InRange(t2)
    ensures PeriodKeyAt(period, t1) <= PeriodKeyAt(period, t2)
  {
    DayOrder(t1, t2);
    if period == Monthly {
      MonthlyKeyOfDate(t1);
      MonthlyKeyOfDate(t2);
      if t1 / DAY_SECS < t2 / DAY_SECS {
        DatesAreOrdered(t1 / DAY_SECS, t2 / DAY_SECS);
      }
    }
  }

  /** The Monthly key is one number for each calendar month and no other. */
  lemma MonthlyKeyIsCalendarMonth(t1: int, t2: int)
    requires InRange(t1) && InRange(t2)
    ensures PeriodKeyAt(Monthly, t1) == PeriodKeyAt(Monthly, t2)
            <==> DateOf(t1).year == DateOf(t2).year && DateOf(t1).month == DateOf(t2).month
  {
    hide PeriodKeyAt, DateOf;
    MonthlyKeyOfDate(t1);
    MonthlyKeyOfDate(t2);
  }

  lemma SuccessorMonth(c: Civil)
    requires ValidDate(c)
    ensures var next := Successor(c);
            next.year * 12 + next.month == c.year * 12 + c.month + if next.day == 1 then 1 else 0
  {
  }

  lemma NextSecond(nowUnix: int)
    ensures (nowUnix + 1) / DAY_SECS
            == if (nowUnix + 1) % DAY_SECS == 0 then nowUnix / DAY_SECS + 1 else nowUnix / DAY_SECS
  {
  }

  /** It rises by exactly one at midnight of the first day of a month, and at no other second. */
  lemma MonthlyKeyStepsAtMonthStart(nowUnix: int)
    requires InRange(nowUnix) && InRange(nowUnix + 1)
    ensures PeriodKeyAt(Monthly, nowUnix + 1) == PeriodKeyAt(Monthly, nowUnix)
            + (if DateOf(nowUnix + 1).day == 1 && (nowUnix + 1) % DAY_SECS == 0 then 1 else 0)
  {
    MonthlyKeyOfDate(nowUnix);
    MonthlyKeyOfDate(nowUnix + 1);
    NextSecond(nowUnix);
    WideDateIsCivil(nowUnix / DAY_SECS);
    NextDayIsSuccessor(nowUnix / DAY_SECS);
    SuccessorMonth(DateOf(nowUnix));
  }

  /** Outside the range of `i32` years the Monthly key is not that of the calendar month, and it is exactly there. */
  lemma MonthlyKeyIsExactIffInRange(nowUnix: int)
    ensures InRange(nowUnix) <==>
            PeriodKeyAt(Monthly, nowUnix) == DateOf(nowUnix).year * 12 + DateOf(nowUnix).month
  {
    YearFits(nowUnix / DAY_SECS);
    AsI32IsExact(DateOf(nowUnix).year);
  }

  /** Days refine weeks and months: one Daily key, one Weekly key and one Monthly key. */
  lemma SameDaySamePeriods(t1: int, t2: int)
    requires PeriodKeyAt(Daily, t1) == PeriodKeyAt(Daily, t2)
    ensures forall period: BudgetPeriod :: PeriodKeyAt(period, t1) == PeriodKeyAt(period, t2)
  {
  }

  // --- Day strings --------------------------------------------------------------------------------

  /** `{y:04}`: the sign counts toward the width. */
  function YearString(y: int): string {
    if y >= 0 then Pad(Dec(y), 4) else "-" + Pad(Dec(-y), 3)
  }

  function DateString(c: Civil): string
    requires 1 <= c.month <= 12 && 1 <= c.day <= 31
  {
    YearString(c.year) + (("-" + Pad(Dec(c.month), 2)) + ("-" + Pad(Dec(c.day), 2)))
  }

  function DayString(days: int): string {
    WideDateIsCivil(days);
    DateString(YmdFromDays(days))
  }

  lemma TwoDigits(n: nat)
    requires n < 100
    ensures |Pad(Dec(n), 2)| == 2 && Value(Pad(Dec(n), 2)) == n
  {
    DecLength(n);
    ValueOfDec(n);
    ValueOfPad(Dec(n), 2);
  }

  lemma PaddedIsInjective(a: nat, b: nat, width: nat)
    requires Pad(Dec(a), width) == Pad(Dec(b), width)
    ensures a == b
  {
    ValueOfPad(Dec(a), width);
    ValueOfPad(Dec(b), width);
    ValueOfDec(a);
    ValueOfDec(b);
  }

  lemma SignShows(a: int, b: int)
    requires a < 0 <= b || b < 0 <= a
    ensures YearString(a)[0] != YearString(b)[0]
  {
  }

  lemma YearStringIsInjective(a: int, b: int)
    requires YearString(a) == YearString(b)
    ensures a == b
  {
    if a >= 0 && b >= 0 {
      PaddedIsInjective(a, b, 4);
    } else if a < 0 && b < 0 {
      assert YearString(a)[1..] == Pad(Dec(-a), 3) && YearString(b)[1..] == Pad(Dec(-b), 3);
      PaddedIsInjective(-a, -b, 3);
    } else {
      SignShows(a, b);
    }
  }

  /** The month and day part of a day string. */
  lemma MonthDayPart(c: Civil)
    requires ValidDate(c)
    ensures |Pad(Dec(c.month), 2)| == |Pad(Dec(c.day), 2)| == 2
    ensures Value(Pad(Dec(c.month), 2)) == c.month && Value(Pad(Dec(c.day), 2)) == c.day
  {
    TwoDigits(c.month);
    TwoDigits(c.day);
  }

  lemma DateStringIsInjective(a: Civil, b: Civil)
    requires ValidDate(a) && ValidDate(b)
    requires DateString(a) == DateString(b)
    ensures a == b
  {
    hide Pad, Dec, YearString;
    MonthDayPart(a);
    MonthDayPart(b);
    var n := |YearString(a.year)|;
    var sa, sb := DateString(a), DateString(b);
    assert |sa| == n + 6 && |sb| == |YearString(b.year)| + 6;
    assert sa[..n] == YearString(a.year) && sb[..n] == YearString(b.year);
    assert sa[n + 1..n + 3] == Pad(Dec(a.month), 2) && sb[n + 1..n + 3] == Pad(Dec(b.month), 2);
    assert sa[n + 4..] == Pad(Dec(a.day), 2) && sb[n + 4..] == Pad(Dec(b.day), 2);
    YearStringIsInjective(a.year, b.year);
  }

  /** Two days of `i32` years never share a day string. */
  lemma DayStringIsInjective(a: int, b: int)
    requires FIRST_DAY <= a <= LAST_DAY && FIRST_DAY <= b <= LAST_DAY
    requires DayString(a) == DayString(b)
    ensures a == b
  {
    YmdIsGregorianIffYearFits(a);
    YmdIsGregorianIffYearFits(b);
    DateStringIsInjective(YmdFromDays(a), YmdFromDays(b));
  }

  /** `y`, `m` and `d` spell the date: decimal, zero padded, at least four characters for the year and two for the
    others, with a minus sign for a year before 0. */
  predicate Spells(y: string, m: string, d: string, c: Civil) {
    && |y| >= 4 && |m| == 2 && |d| == 2
    && (forall i | 0 <= i < 2 :: IsDigit(m[i]) && IsDigit(d[i]))
    && (forall i | 1 <= i < |y| :: IsDigit(y[i]))
    && (if c.year < 0 then y[0] == '-' && Value(y[1..]) == -c.year else IsDigit(y[0]) && Value(y) == c.year)
    && Value(m) == c.month && Value(d) == c.day
  }

  lemma YearStringSpells(y: int)
    ensures |YearString(y)| >= 4 && forall i | 1 <= i < |YearString(y)| :: IsDigit(YearString(y)[i])
    ensures y < 0 ==> YearString(y)[0] == '-' && Value(YearString(y)[1..]) == -y
    ensures y >= 0 ==> IsDigit(YearString(y)[0]) && Value(YearString(y)) == y
    ensures 0 <= y <= 9999 ==> |YearString(y)| == 4
  {
    var n: nat := if y < 0 then -y else y;
    ValueOfDec(n);
    ValueOfPad(Dec(n), 3);
    ValueOfPad(Dec(n), 4);
    DecLength(n);
    if y < 0 {
      assert YearString(y)[1..] == Pad(Dec(n), 3);
    }
  }

  lemma DateStringSpells(c: Civil) returns (y: string, m: string, d: string)
    requires ValidDate(c)
    ensures DateString(c) == y + "-" + m + "-" + d && Spells(y, m, d, c)
    ensures 0 <= c.year <= 9999 ==> |y| == 4
  {
    y, m, d := YearString(c.year), Pad(Dec(c.month), 2), Pad(Dec(c.day), 2);
    YearStringSpells(c.year);
    MonthDayPart(c);
  }

  /** Main result: every day of an `i32` year is rendered as the year, month and day of its Gregorian date. */
  lemma DayStringSpellsDate(days: int) returns (y: string, m: string, d: string, c: Civil)
    requires FIRST_DAY <= days <= LAST_DAY
    ensures ValidDate(c) && DaysFromCivil(c) == days
    ensures DayString(days) == y + "-" + m + "-" + d && Spells(y, m, d, c)
    ensures 0 <= c.year <= 9999 ==> |y| == 4
  {
    hide DateString, Spells, ValidDate;
    c := YmdFromDays(days);
    YmdIsGregorianIffYearFits(days);
    y, m, d := DateStringSpells(c);
  }

  /** 0000-01-01 and 9999-12-31: the dates of RFC 3339. */
  const FIRST_RFC_DAY: int := -719_528
  const LAST_RFC_DAY: int := 2_932_896

  lemma RfcYears(days: int)
    requires FIRST_RFC_DAY <= days <= LAST_RFC_DAY
    ensures ValidDate(YmdFromDays(days)) && DaysFromCivil(YmdFromDays(days)) == days
    ensures 0 <= YmdFromDays(days).year <= 9999
  {
    YmdIsGregorianIffYearFits(days);
    var c, first, last := YmdFromDays(days), Civil(0, 1, 1), Civil(9999, 12, 31);
    MonthStarts(9999, 12);
    assert DaysFromCivil(first) == FIRST_RFC_DAY;
    assert DaysFromCivil(last) == LAST_RFC_DAY;
    if Earlier(c, first) {
      DaysAreOrdered(c, first);
    } else if Earlier(last, c) {
      DaysAreOrdered(last, c);
    }
  }

  lemma FourDigits(y: nat)
    requires y <= 9999
    ensures |YearString(y)| == 4 && Value(YearString(y)) == y
  {
    DecLength(y);
    ValueOfDec(y);
    ValueOfPad(Dec(y), 4);
  }

  /** In the years of RFC 3339 the string is a `full-date`: positions and dashes are fixed. */
  lemma DayStringIsFullDate(days: int)
    requires FIRST_RFC_DAY <= days <= LAST_RFC_DAY
    ensures var s, c := DayString(days), WideYmdFromDays(days);
            && |s| == 10 && s[4] == '-' && s[7] == '-' && Spells(s[..4], s[5..7], s[8..], c)
            && ValidDate(c) && DaysFromCivil(c) == days
  {
    hide DateString, ValidDate, Value;
    RfcYears(days);
    CastKeepsDate(days);
    var c, s := YmdFromDays(days), DayString(days);
    var y, m, d := DateStringSpells(c);
    assert s[..4] == y && s[5..7] == m && s[8..] == d;
  }

  lemma EarlierIsLexLess(a: Civil, b: Civil)
    requires ValidDate(a) && ValidDate(b) && Earlier(a, b)
    requires 0 <= a.year <= 9999 && 0 <= b.year <= 9999
    ensures LexLess(DateString(a), DateString(b))
  {
    FourDigits(a.year);
    FourDigits(b.year);
    MonthDayPart(a);
    MonthDayPart(b);
    var ma, mb := Pad(Dec(a.month), 2), Pad(Dec(b.month), 2);
    var da, db := Pad(Dec(a.day), 2), Pad(Dec(b.day), 2);
    LexLessIsValueOrder(YearString(a.year), YearString(b.year));
    LexLessIsValueOrder(ma, mb);
    LexLessIsValueOrder(da, db);
    LexLessConcat("-", ma, "-", mb);
    LexLessConcat("-", da, "-", db);
    LexLessConcat("-" + ma, "-" + da, "-" + mb, "-" + db);
    LexLessConcat(YearString(a.year), ("-" + ma) + ("-" + da), YearString(b.year), ("-" + mb) + ("-" + db));
  }

  /** An earlier RFC 3339 day has the smaller string. */
  lemma EarlierDayIsLexLess(a: int, b: int)
    requires FIRST_RFC_DAY <= a < b <= LAST_RFC_DAY
    ensures LexLess(DayString(a), DayString(b))
  {
    RfcYears(a);
    RfcYears(b);
    var ca, cb := YmdFromDays(a), YmdFromDays(b);
    if Earlier(cb, ca) {
      DaysAreOrdered(cb, ca);
    }
    EarlierIsLexLess(ca, cb);
  }

  /** Sorting day strings sorts the days. */
  lemma DayStringOrder(a: int, b: int)
    requires FIRST_RFC_DAY <= a <= LAST_RFC_DAY && FIRST_RFC_DAY <= b <= LAST_RFC_DAY
    ensures LexLess(DayString(a), DayString(b)) <==> a < b
  {
    if a < b {
      EarlierDayIsLexLess(a, b);
    } else if b < a {
      EarlierDayIsLexLess(b, a);
      LexLessIsAsymmetric(DayString(b), DayString(a));
    } else if LexLess(DayString(a), DayString(b)) {
      LexLessIsAsymmetric(DayString(a), DayString(b));
    }
  }
}
