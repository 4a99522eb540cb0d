/**
 * Proleptic Gregorian civil time under one fixed UTC offset: the arithmetic
 * that `java.time.LocalDateTime`, `DateTimeFormatter` and ICU's
 * `SimpleDateFormat` perform for the app when the zone never changes its
 * offset. Day numbers count from 1970-01-01 ("epoch days").
 */
module CivilTime {
  import opened Text

  const SecondsPerDay: int := 86400
  const SecondsPerHour: int := 3600
  const SecondsPerMinute: int := 60

  /** A zone offset in seconds east of UTC; `ZoneOffset` allows -18:00..+18:00. */
  type UtcOffset = o: int | -64800 <= o <= 64800

  // ---------------------------------------------------------------- calendar

  predicate IsLeap(y: int) {
    y % 4 == 0 && (y % 100 != 0 || y % 400 == 0)
  }

  function DaysInYear(y: int): int {
    if IsLeap(y) then 366 else 365
  }

  function DaysInMonth(y: int, m: int): int
    requires 1 <= m <= 12
  {
    if m == 2 then (if IsLeap(y) then 29 else 28)
    else if m == 4 || m == 6 || m == 9 || m == 11 then 30
    else 31
  }

  datatype Date = Date(year: int, month: int, day: int)

  predicate ValidDate(d: Date) {
    1 <= d.month <= 12 && 1 <= d.day <= DaysInMonth(d.year, d.month)
  }

  /** Leap years in the years before `y`, up to a constant (floor divisions). */
  function LeapsBefore(y: int): int {
    (y - 1) / 4 - (y - 1) / 100 + (y - 1) / 400
  }

  /** Epoch day of January 1 of year `y`. */
  function DaysBeforeYear(y: int): int {
    365 * (y - 1970) + LeapsBefore(y) - LeapsBefore(1970)
  }

  /** Days of year `y` before the first of month `m` (13 stands for the year's end). */
  function DaysBeforeMonth(y: int, m: int): int
    requires 1 <= m <= 13
  {
    var table := [0, 31, 59, 90, 120, 151, 181, 212, 243, 273, 304, 334, 365];
    table[m - 1] + (if IsLeap(y) && m > 2 then 1 else 0)
  }

  /** Epoch day of a calendar date (`LocalDate.toEpochDay`). */
  function DaysFromCivil(d: Date): int
    requires 1 <= d.month <= 12
  {
    DaysBeforeYear(d.year) + DaysBeforeMonth(d.year, d.month) + d.day - 1
  }

  lemma FloorStep(y: int, n: int)
    requires n > 0
    ensures y / n - (y - 1) / n == if y % n == 0 then 1 else 0
  {
    var q, r := (y - 1) / n, (y - 1) % n;
    assert y - 1 == n * q + r;
    if r == n - 1 {
      assert y == n * (q + 1) + 0;
      DivModUnique(y, n, q + 1, 0);
    } else {
      assert y == n * q + (r + 1);
      DivModUnique(y, n, q, r + 1);
    }
  }

  lemma DivModUnique(y: int, n: int, q: int, r: int)
    requires n > 0 && 0 <= r < n && y == n * q + r
    ensures y / n == q && y % n == r
  {
    var q', r' := y / n, y % n;
    var d := q - q';
    assert n * q - n * q' == n * d;
    assert r' - r == n * d;
    if d >= 1 {
      MulAtLeast(n, d);
    } else if d <= -1 {
      MulAtLeast(n, -d);
    }
  }

  lemma MulAtLeast(n: int, k: int)
    requires n > 0 && k >= 1
    ensures n * k >= n
  {
    assert n * k == n * (k - 1) + n;
  }

  /** Consecutive years are `DaysInYear` apart. */
  lemma DaysBeforeNextYear(y: int)
    ensures DaysBeforeYear(y + 1) == DaysBeforeYear(y) + DaysInYear(y)
  {
    FloorStep(y, 4);
    FloorStep(y, 100);
    FloorStep(y, 400);
  }

  /** Before 1970 years start at least 365 and at most 366 days apart, and after it too. */
  lemma {:induction false} DaysBeforeYearBounds(y: int)
    ensures y >= 1970 ==> 365 * (y - 1970) <= DaysBeforeYear(y) <= 366 * (y - 1970)
    ensures y <= 1970 ==> 366 * (y - 1970) <= DaysBeforeYear(y) <= 365 * (y - 1970)
    decreases if y < 1970 then 1970 - y else y - 1970
  {
    if y > 1970 {
      DaysBeforeYearBounds(y - 1);
      DaysBeforeNextYear(y - 1);
    } else if y < 1970 {
      DaysBeforeYearBounds(y + 1);
      DaysBeforeNextYear(y);
    }
  }

  /** Later years start later. */
  lemma {:induction false} DaysBeforeYearMonotone(a: int, b: int)
    requires a < b
    ensures DaysBeforeYear(a) + DaysInYear(a) <= DaysBeforeYear(b)
    decreases b - a
  {
    DaysBeforeNextYear(a);
    if a + 1 < b {
      DaysBeforeYearMonotone(a + 1, b);
      DaysBeforeNextYear(a + 1);
    }
  }

  /** A year that starts no later than `days`: the search below starts there. */
  function YearGuess(days: int): (y: int)
    ensures DaysBeforeYear(y) <= days
  {
    var k := if days >= 0 then days / 366 else days / 365;
    DaysBeforeYearBounds(1970 + k);
    1970 + k
  }

  /** The year that contains epoch day `days`, searched upward from `y`. */
  function YearFrom(days: int, y: int): (r: int)
    requires DaysBeforeYear(y) <= days
    ensures DaysBeforeYear(r) <= days < DaysBeforeYear(r + 1)
    decreases days - DaysBeforeYear(y)
  {
    DaysBeforeNextYear(y);
    if days < DaysBeforeYear(y + 1) then y else YearFrom(days, y + 1)
  }

  /** The month of year `y` that contains day-of-year `doy` (0-based). */
  function MonthOf(y: int, doy: int): (m: int)
    requires 0 <= doy < DaysInYear(y)
    ensures 1 <= m <= 12
    ensures DaysBeforeMonth(y, m) <= doy < DaysBeforeMonth(y, m + 1)
  {
    if doy < DaysBeforeMonth(y, 2) then 1
    else if doy < DaysBeforeMonth(y, 3) then 2
    else if doy < DaysBeforeMonth(y, 4) then 3
    else if doy < DaysBeforeMonth(y, 5) then 4
    else if doy < DaysBeforeMonth(y, 6) then 5
    else if doy < DaysBeforeMonth(y, 7) then 6
    else if doy < DaysBeforeMonth(y, 8) then 7
    else if doy < DaysBeforeMonth(y, 9) then 8
    else if doy < DaysBeforeMonth(y, 10) then 9
    else if doy < DaysBeforeMonth(y, 11) then 10
    else if doy < DaysBeforeMonth(y, 12) then 11
    else 12
  }

  lemma MonthLengths(y: int, m: int)
    requires 1 <= m <= 12
    ensures DaysBeforeMonth(y, m + 1) == DaysBeforeMonth(y, m) + DaysInMonth(y, m)
  {
  }

  /** The calendar date of an epoch day (`LocalDate.ofEpochDay`). */
  function CivilFromDays(days: int): (d: Date)
    ensures ValidDate(d)
    ensures DaysFromCivil(d) == days
  {
    var y := YearFrom(days, YearGuess(days));
    DaysBeforeNextYear(y);
    var doy := days - DaysBeforeYear(y);
    var m := MonthOf(y, doy);
    MonthLengths(y, m);
    Date(y, m, doy - DaysBeforeMonth(y, m) + 1)
  }

  /** Every valid date is the date of its own epoch day: the two conversions are inverse. */
  lemma CivilRoundTrip(d: Date)
    requires ValidDate(d)
    ensures CivilFromDays(DaysFromCivil(d)) == d
  {
    var n := DaysFromCivil(d);
    var e := CivilFromDays(n);
    YearOfDay(d);
    YearOfDay(e);
    YearUnique(d.year, e.year, n);
    MonthLengths(d.year, d.month);
    MonthLengths(e.year, e.month);
    MonthUnique(d.year, d.month, e.month, n - DaysBeforeYear(d.year));
  }

  /** A valid date's epoch day lies within its own year. */
  lemma YearOfDay(d: Date)
    requires ValidDate(d)
    ensures DaysBeforeYear(d.year) <= DaysFromCivil(d) < DaysBeforeYear(d.year + 1)
  {
    MonthLengths(d.year, d.month);
    MonthBeforeBound(d.year, d.month);
    DaysBeforeNextYear(d.year);
  }

  /** Only one year contains a given epoch day. */
  lemma YearUnique(a: int, b: int, n: int)
    requires DaysBeforeYear(a) <= n < DaysBeforeYear(a + 1)
    requires DaysBeforeYear(b) <= n < DaysBeforeYear(b + 1)
    ensures a == b
  {
    if a < b {
      DaysBeforeYearMonotone(a, b);
      DaysBeforeNextYear(a);
    } else if b < a {
      DaysBeforeYearMonotone(b, a);
      DaysBeforeNextYear(b);
    }
  }

  /** Only one month of a year contains a given day of that year. */
  lemma MonthUnique(y: int, a: int, b: int, doy: int)
    requires 1 <= a <= 12 && 1 <= b <= 12
    requires DaysBeforeMonth(y, a) <= doy < DaysBeforeMonth(y, a + 1)
    requires DaysBeforeMonth(y, b) <= doy < DaysBeforeMonth(y, b + 1)
    ensures a == b
  {
    if a < b {
      MonthMonotone(y, a + 1, b);
    } else if b < a {
      MonthMonotone(y, b + 1, a);
    }
  }

  lemma MonthBeforeBound(y: int, m: int)
    requires 1 <= m <= 12
    ensures DaysBeforeMonth(y, m + 1) <= DaysInYear(y)
  {
  }

  lemma MonthMonotone(y: int, a: int, b: int)
    requires 1 <= a <= b <= 12
    ensures DaysBeforeMonth(y, a) <= DaysBeforeMonth(y, b)
  {
  }

  // ------------------------------------------------- local time at an offset

  /** A `LocalDateTime` truncated to seconds, as an epoch day and a second of that day. */
  datatype LocalTimestamp = LocalTimestamp(epochDay: int, secondOfDay: int)

  predicate ValidLocal(t: LocalTimestamp) {
    0 <= t.secondOfDay < SecondsPerDay
  }

  function Hour(t: LocalTimestamp): int { t.secondOfDay / SecondsPerHour }
  function Minute(t: LocalTimestamp): int { t.secondOfDay % SecondsPerHour / SecondsPerMinute }
  function Second(t: LocalTimestamp): int { t.secondOfDay % SecondsPerMinute }

  /** `LocalDateTime.ofEpochSecond(epochSecond, 0, offset)`: floor division by a day. */
  function ToLocal(epochSecond: int, offset: UtcOffset): (t: LocalTimestamp)
    ensures ValidLocal(t)
    ensures 0 <= Hour(t) < 24 && 0 <= Minute(t) < 60 && 0 <= Second(t) < 60
  {
    var local := epochSecond + offset;
    LocalTimestamp(local / SecondsPerDay, local % SecondsPerDay)
  }

  /** `atZone(zone).toEpochSecond()` for a zone with a fixed offset. */
  function FromLocal(t: LocalTimestamp, offset: UtcOffset): int {
    t.epochDay * SecondsPerDay + t.secondOfDay - offset
  }

  /** Going to local time and back is the identity, and so is the other way round. */
  lemma LocalRoundTrip(epochSecond: int, t: LocalTimestamp, offset: UtcOffset)
    ensures FromLocal(ToLocal(epochSecond, offset), offset) == epochSecond
    ensures ValidLocal(t) ==> ToLocal(FromLocal(t, offset), offset) == t
  {
    if ValidLocal(t) {
      var local := t.epochDay * SecondsPerDay + t.secondOfDay;
      DivModUnique(local, SecondsPerDay, t.epochDay, t.secondOfDay);
    }
  }

  /** `plusDays(n)`: the same time of day, `n` days later. */
  function PlusDays(t: LocalTimestamp, n: int): LocalTimestamp {
    LocalTimestamp(t.epochDay + n, t.secondOfDay)
  }

  /** `withHour(h)`: replaces the hour, keeps minute and second. */
  function WithHour(t: LocalTimestamp, h: int): (r: LocalTimestamp)
    requires ValidLocal(t) && 0 <= h < 24
    ensures ValidLocal(r) && r.epochDay == t.epochDay
    ensures Hour(r) == h && Minute(r) == Minute(t) && Second(r) == Second(t)
  {
    var within := t.secondOfDay % SecondsPerHour;
    var r := LocalTimestamp(t.epochDay, h * SecondsPerHour + within);
    DivModUnique(r.secondOfDay, SecondsPerHour, h, within);
    r
  }

  /** ISO day of week of an epoch day: 1 is Monday, 7 is Sunday; 1970-01-01 was a Thursday. */
  function DayOfWeek(epochDay: int): (dow: int)
    ensures 1 <= dow <= 7
  {
    (epochDay + 3) % 7 + 1
  }

  const Monday: int := 1

  /** `with(TemporalAdjusters.next(DayOfWeek.MONDAY))`. */
  function NextMonday(t: LocalTimestamp): LocalTimestamp {
    var daysDiff := DayOfWeek(t.epochDay) - Monday;
    PlusDays(t, if daysDiff >= 0 then 7 - daysDiff else -daysDiff)
  }

  /** The adjusted day is a Monday, strictly after the day, and no Monday lies in between. */
  lemma NextMondayIsFirstMondayAfter(t: LocalTimestamp)
    ensures var r := NextMonday(t);
            && DayOfWeek(r.epochDay) == Monday
            && t.epochDay < r.epochDay <= t.epochDay + 7
            && r.secondOfDay == t.secondOfDay
            && forall d :: t.epochDay < d < r.epochDay ==> DayOfWeek(d) != Monday
  {
    var r := NextMonday(t);
    var k := r.epochDay - t.epochDay;
    var w := (t.epochDay + 3) % 7;
    assert k == 7 - w;
    DivModUnique(t.epochDay + 3 + k, 7, (t.epochDay + 3) / 7 + 1, 0);
    forall d | t.epochDay < d < r.epochDay
      ensures DayOfWeek(d) != Monday
    {
      var j := d - t.epochDay;
      DivModUnique(d + 3, 7, (t.epochDay + 3) / 7, w + j);
    }
  }

  // ---------------------------------------------------------- date patterns

  /** The date-time fields a pattern reads. */
  datatype Fields = Fields(date: Date, hour: int, minute: int, second: int)

  function FieldsOf(t: LocalTimestamp): (f: Fields)
    requires ValidLocal(t)
    ensures ValidDate(f.date)
    ensures 0 <= f.hour < 24 && 0 <= f.minute < 60 && 0 <= f.second < 60
    ensures DaysFromCivil(f.date) == t.epochDay
    ensures f.hour == Hour(t) && f.minute == Minute(t) && f.second == Second(t)
  {
    Fields(CivilFromDays(t.epochDay), Hour(t), Minute(t), Second(t))
  }

  /** The `y` letters print the year of era: year 0 is 1 BC, year -1 is 2 BC, and so on. */
  function YearOfEra(year: int): (y: nat)
    ensures 1 <= y
  {
    if year >= 1 then year else 1 - year
  }

  /**
   * `yyyy` in `DateTimeFormatter`: at least four digits, with a `+` once the
   * value needs more than four.
   */
  function FourDigitYear(year: int): string {
    var yoe := YearOfEra(year);
    if yoe > 9999 then "+" + NatToString(yoe) else ZeroPad(yoe, 4)
  }

  /** `yyyy-MM-dd HH:mm:ss`, the pattern of a status's end time. */
  function PatternYmdHms(f: Fields): string
    requires ValidDate(f.date)
    requires 0 <= f.hour < 24 && 0 <= f.minute < 60 && 0 <= f.second < 60
  {
    FourDigitYear(f.date.year) + "-" + ZeroPad(f.date.month, 2) + "-" + ZeroPad(f.date.day, 2)
      + " " + ZeroPad(f.hour, 2) + ":" + ZeroPad(f.minute, 2) + ":" + ZeroPad(f.second, 2)
  }

  /**
   * For years 1..9999 the end-time text is 19 characters whose six numeric
   * fields read back as the year, month, day, hour, minute and second.
   */
  lemma PatternYmdHmsReadsBack(f: Fields)
    requires ValidDate(f.date) && 1 <= f.date.year <= 9999
    requires 0 <= f.hour < 24 && 0 <= f.minute < 60 && 0 <= f.second < 60
    ensures var r := PatternYmdHms(f);
            && |r| == 19
            && r[4] == '-' && r[7] == '-' && r[10] == ' ' && r[13] == ':' && r[16] == ':'
            && AllDigits(r[0..4]) && DigitsValue(r[0..4]) == f.date.year
            && AllDigits(r[5..7]) && DigitsValue(r[5..7]) == f.date.month
            && AllDigits(r[8..10]) && DigitsValue(r[8..10]) == f.date.day
            && AllDigits(r[11..13]) && DigitsValue(r[11..13]) == f.hour
            && AllDigits(r[14..16]) && DigitsValue(r[14..16]) == f.minute
            && AllDigits(r[17..19]) && DigitsValue(r[17..19]) == f.second
  {
    var y, mo, d := ZeroPad(f.date.year, 4), ZeroPad(f.date.month, 2), ZeroPad(f.date.day, 2);
    var h, mi, s := ZeroPad(f.hour, 2), ZeroPad(f.minute, 2), ZeroPad(f.second, 2);
    assert Pow10(2) == 100 && Pow10(4) == 10000;
    FixedWidthField(f.date.year, 4);
    FixedWidthField(f.date.month, 2);
    FixedWidthField(f.date.day, 2);
    FixedWidthField(f.hour, 2);
    FixedWidthField(f.minute, 2);
    FixedWidthField(f.second, 2);
    LayoutYmdHms(y, mo, d, h, mi, s);
  }

  /** Text laid out as `yyyy-MM-dd HH:mm:ss`, with digits in every numeric field and a month 1..12. */
  predicate YmdHmsShaped(r: string) {
    && |r| == 19
    && AllDigits(r[0..4]) && AllDigits(r[5..7]) && AllDigits(r[8..10])
    && AllDigits(r[11..13]) && AllDigits(r[14..16]) && AllDigits(r[17..19])
    && 1 <= DigitsValue(r[5..7]) <= 12
  }

  /** Reads a `yyyy-MM-dd HH:mm:ss` text back as a local date-time (years 1..9999). */
  function ParseYmdHms(r: string): LocalTimestamp
    requires YmdHmsShaped(r)
  {
    var date := Date(DigitsValue(r[0..4]), DigitsValue(r[5..7]), DigitsValue(r[8..10]));
    LocalTimestamp(DaysFromCivil(date),
                   DigitsValue(r[11..13]) * SecondsPerHour + DigitsValue(r[14..16]) * SecondsPerMinute + DigitsValue(r[17..19]))
  }

  /** The hour, minute and second recompose the second of the day. */
  lemma ClockFieldsRecompose(t: LocalTimestamp)
    requires ValidLocal(t)
    ensures t.secondOfDay == Hour(t) * SecondsPerHour + Minute(t) * SecondsPerMinute + Second(t)
  {
    var sod := t.secondOfDay;
    var r := sod % SecondsPerHour;
    assert sod == Hour(t) * SecondsPerHour + r;
    assert r == Minute(t) * SecondsPerMinute + r % SecondsPerMinute;
    DivModUnique(sod, SecondsPerMinute, Hour(t) * 60 + Minute(t), r % SecondsPerMinute);
  }

  /** Formatting a local date-time of years 1..9999 and parsing it back is the identity. */
  lemma FormatThenParseYmdHms(t: LocalTimestamp)
    requires ValidLocal(t)
    requires 1 <= FieldsOf(t).date.year <= 9999
    ensures YmdHmsShaped(PatternYmdHms(FieldsOf(t)))
    ensures ParseYmdHms(PatternYmdHms(FieldsOf(t))) == t
  {
    PatternYmdHmsReadsBack(FieldsOf(t));
    ClockFieldsRecompose(t);
  }

  /** Where the fields of `yyyy-MM-dd HH:mm:ss` sit once each has its full width. */
  lemma LayoutYmdHms(y: string, mo: string, d: string, h: string, mi: string, s: string)
    requires |y| == 4 && |mo| == 2 && |d| == 2 && |h| == 2 && |mi| == 2 && |s| == 2
    ensures var r := y + "-" + mo + "-" + d + " " + h + ":" + mi + ":" + s;
            && |r| == 19
            && r[4] == '-' && r[7] == '-' && r[10] == ' ' && r[13] == ':' && r[16] == ':'
            && r[0..4] == y && r[5..7] == mo && r[8..10] == d
            && r[11..13] == h && r[14..16] == mi && r[17..19] == s
  {
    var r := y + "-" + mo + "-" + d + " " + h + ":" + mi + ":" + s;
    assert r[5..7] == mo by { assert r[5] == mo[0] && r[6] == mo[1]; }
    assert r[8..10] == d by { assert r[8] == d[0] && r[9] == d[1]; }
    assert r[11..13] == h by { assert r[11] == h[0] && r[12] == h[1]; }
    assert r[14..16] == mi by { assert r[14] == mi[0] && r[15] == mi[1]; }
    assert r[17..19] == s by { assert r[17] == s[0] && r[18] == s[1]; }
  }

  /** `yy/MM/dd HH:mm`, the pattern of the commute log; `yy` keeps the last two digits. */
  function PatternShort(f: Fields): string
    requires ValidDate(f.date)
    requires 0 <= f.hour < 24 && 0 <= f.minute < 60
  {
    ZeroPad(YearOfEra(f.date.year) % 100, 2) + "/" + ZeroPad(f.date.month, 2) + "/" + ZeroPad(f.date.day, 2)
      + " " + ZeroPad(f.hour, 2) + ":" + ZeroPad(f.minute, 2)
  }

  /**
   * The commute-log text is 14 characters whose five numeric fields read back
   * as the year modulo 100 (of the year of era), month, day, hour and minute.
   */
  lemma PatternShortReadsBack(f: Fields)
    requires ValidDate(f.date)
    requires 0 <= f.hour < 24 && 0 <= f.minute < 60
    ensures var r := PatternShort(f);
            && |r| == 14
            && r[2] == '/' && r[5] == '/' && r[8] == ' ' && r[11] == ':'
            && AllDigits(r[0..2]) && DigitsValue(r[0..2]) == YearOfEra(f.date.year) % 100
            && AllDigits(r[3..5]) && DigitsValue(r[3..5]) == f.date.month
            && AllDigits(r[6..8]) && DigitsValue(r[6..8]) == f.date.day
            && AllDigits(r[9..11]) && DigitsValue(r[9..11]) == f.hour
            && AllDigits(r[12..14]) && DigitsValue(r[12..14]) == f.minute
  {
    assert Pow10(2) == 100;
    FixedWidthField(YearOfEra(f.date.year) % 100, 2);
    FixedWidthField(f.date.month, 2);
    FixedWidthField(f.date.day, 2);
    FixedWidthField(f.hour, 2);
    FixedWidthField(f.minute, 2);
    LayoutShort(ZeroPad(YearOfEra(f.date.year) % 100, 2), ZeroPad(f.date.month, 2), ZeroPad(f.date.day, 2),
                ZeroPad(f.hour, 2), ZeroPad(f.minute, 2));
  }

  /** Where the fields of `yy/MM/dd HH:mm` sit. */
  lemma LayoutShort(y: string, mo: string, d: string, h: string, mi: string)
    requires |y| == 2 && |mo| == 2 && |d| == 2 && |h| == 2 && |mi| == 2
    ensures var r := y + "/" + mo + "/" + d + " " + h + ":" + mi;
            && |r| == 14
            && r[2] == '/' && r[5] == '/' && r[8] == ' ' && r[11] == ':'
            && r[0..2] == y && r[3..5] == mo && r[6..8] == d && r[9..11] == h && r[12..14] == mi
  {
    var r := y + "/" + mo + "/" + d + " " + h + ":" + mi;
    assert r[3..5] == mo by { assert r[3] == mo[0] && r[4] == mo[1]; }
    assert r[6..8] == d by { assert r[6] == d[0] && r[7] == d[1]; }
    assert r[9..11] == h by { assert r[9] == h[0] && r[10] == h[1]; }
    assert r[12..14] == mi by { assert r[12] == mi[0] && r[13] == mi[1]; }
  }

  /** The `h` letters: the hour on a 12-hour clock, where 0 and 12 both read 12. */
  function ClockHour12(hour: int): (h: int)
    requires 0 <= hour < 24
    ensures 1 <= h <= 12
    ensures h % 12 == hour % 12
  {
    if hour % 12 == 0 then 12 else hour % 12
  }

  /** `hh:mm`. */
  function FormatHourMinute12(t: LocalTimestamp): string
    requires ValidLocal(t)
  {
    ZeroPad(ClockHour12(Hour(t)), 2) + ":" + ZeroPad(Minute(t), 2)
  }

  /** `hh:mm` is five characters: a 12-hour clock hour 01..12, a colon, and the minute 00..59. */
  lemma HourMinute12ReadsBack(t: LocalTimestamp)
    requires ValidLocal(t)
    ensures var r := FormatHourMinute12(t);
            && |r| == 5 && r[2] == ':'
            && AllDigits(r[0..2]) && DigitsValue(r[0..2]) == ClockHour12(Hour(t))
            && 1 <= DigitsValue(r[0..2]) <= 12 && DigitsValue(r[0..2]) % 12 == Hour(t) % 12
            && AllDigits(r[3..5]) && DigitsValue(r[3..5]) == Minute(t) && DigitsValue(r[3..5]) < 60
  {
    assert Pow10(2) == 100;
    FixedWidthField(ClockHour12(Hour(t)), 2);
    FixedWidthField(Minute(t), 2);
    var h, m := ZeroPad(ClockHour12(Hour(t)), 2), ZeroPad(Minute(t), 2);
    var r := h + ":" + m;
    assert r[0..2] == h;
    assert r[3..5] == m by { assert r[3] == m[0] && r[4] == m[1]; }
  }

  /** A millisecond instant as `java.util.Date` splits it: whole seconds, floored. */
  function MillisToSeconds(millis: int): int {
    millis / 1000
  }

  /** `LocalDateTime.now()` at a clock reading and a fixed offset, to the second. */
  function Now(millis: int, offset: UtcOffset): (t: LocalTimestamp)
    ensures ValidLocal(t)
  {
    ToLocal(MillisToSeconds(millis), offset)
  }

  /** `plusSeconds(s)`: moves the time of day, carrying whole days into the date. */
  function PlusSeconds(t: LocalTimestamp, s: int): (r: LocalTimestamp)
    ensures ValidLocal(r)
  {
    var total := t.secondOfDay + s;
    LocalTimestamp(t.epochDay + total / SecondsPerDay, total % SecondsPerDay)
  }

  /** `plusMinutes(m)`. */
  function PlusMinutes(t: LocalTimestamp, m: int): (r: LocalTimestamp)
    ensures ValidLocal(r)
  {
    PlusSeconds(t, m * SecondsPerMinute)
  }

  /** Adding seconds to a local time moves its instant by exactly that many seconds. */
  lemma PlusSecondsShiftsInstant(t: LocalTimestamp, s: int, offset: UtcOffset)
    ensures FromLocal(PlusSeconds(t, s), offset) == FromLocal(t, offset) + s
  {
    var total := t.secondOfDay + s;
    assert total / SecondsPerDay * SecondsPerDay + total % SecondsPerDay == total;
  }

  /**
   * `now().plusMinutes(m).atZone(zone).toEpochSecond()` is the current epoch
   * second plus `60 * m`, whatever the offset.
   */
  lemma MinutesFromNow(millis: int, offset: UtcOffset, m: int)
    ensures FromLocal(PlusMinutes(Now(millis, offset), m), offset) == MillisToSeconds(millis) + 60 * m
  {
    PlusSecondsShiftsInstant(Now(millis, offset), m * SecondsPerMinute, offset);
    LocalRoundTrip(MillisToSeconds(millis), Now(millis, offset), offset);
  }
}
