/**
 * Wall-clock timestamps as `java.time.LocalDateTime` holds them (to the
 * nanosecond), the elapsed-time arithmetic behind `Duration.between(..).toMinutes()`,
 * and the `yyyyMMddHHmm` rendering used in ticket ids.
 */
module Clock {
  import opened Text

  datatype LocalDateTime = LocalDateTime(year: int, month: int, day: int, hour: int, minute: int, second: int, nano: int)

  const NANOS_PER_SECOND: int := 1_000_000_000
  const NANOS_PER_MINUTE: int := 60 * NANOS_PER_SECOND

  predicate IsLeapYear(y: int) {
    y % 4 == 0 && (y % 100 != 0 || y % 400 == 0)
  }

  function DaysInMonth(y: int, m: int): (n: int)
    requires 1 <= m <= 12
    ensures 28 <= n <= 31
  {
    if m == 2 then (if IsLeapYear(y) then 29 else 28)
    else if m == 4 || m == 6 || m == 9 || m == 11 then 30
    else 31
  }

  predicate ValidDateTime(t: LocalDateTime) {
    1 <= t.year <= 9999 && 1 <= t.month <= 12 && 1 <= t.day <= DaysInMonth(t.year, t.month) &&
    0 <= t.hour < 24 && 0 <= t.minute < 60 && 0 <= t.second < 60 && 0 <= t.nano < NANOS_PER_SECOND
  }

  /** A calendar date and time of day, years 1 to 9999. */
  type DateTime = t: LocalDateTime | ValidDateTime(t) witness LocalDateTime(1970, 1, 1, 0, 0, 0, 0)

  /** Days of the months before month m of year y. */
  function DaysBeforeMonth(y: int, m: int): (n: int)
    requires 1 <= m <= 13
    ensures n >= 28 * (m - 1)
  {
    if m == 1 then 0 else DaysBeforeMonth(y, m - 1) + DaysInMonth(y, m - 1)
  }

  /** Days of the years before year y (proleptic Gregorian calendar, from year 1). */
  function DaysBeforeYear(y: int): int {
    var p := y - 1;
    365 * p + p / 4 - p / 100 + p / 400
  }

  /** Days from 0001-01-01 to the date of t. */
  function EpochDay(t: DateTime): int {
    DaysBeforeYear(t.year) + DaysBeforeMonth(t.year, t.month) + t.day - 1
  }

  /** Seconds from 0001-01-01T00:00:00 to t. */
  function EpochSecond(t: DateTime): int {
    EpochDay(t) * 86400 + t.hour * 3600 + t.minute * 60 + t.second
  }

  /** Nanoseconds from 0001-01-01T00:00:00 to t. */
  function EpochNano(t: DateTime): int {
    EpochSecond(t) * NANOS_PER_SECOND + t.nano
  }

  /** Java's `/` on integers: the quotient rounded toward zero. */
  function JavaDiv(a: int, b: int): int
    requires b > 0
  {
    if a >= 0 then a / b else -((-a) / b)
  }

  /** Java's `%` on integers: the remainder takes the sign of the dividend. */
  function JavaRem(a: int, b: int): int
    requires b > 0
  {
    a - JavaDiv(a, b) * b
  }

  /**
   * `Duration.between(from, to).toMinutes()`. The duration keeps its seconds
   * rounded down, with the nanoseconds as a non-negative remainder, and
   * `toMinutes` divides those seconds by 60 toward zero. So for a forward
   * interval the minutes are the whole minutes in it, fractions of a second
   * included.
   */
  function ElapsedMinutes(from: DateTime, to: DateTime): (m: int)
    ensures var d := EpochNano(to) - EpochNano(from);
      d >= 0 ==> NANOS_PER_MINUTE * m <= d < NANOS_PER_MINUTE * m + NANOS_PER_MINUTE
  {
    var d := EpochNano(to) - EpochNano(from);
    WholeMinutes(d);
    JavaDiv(d / NANOS_PER_SECOND, 60)
  }

  /** Whole seconds, then whole minutes of those, of a forward interval are its whole minutes. */
  lemma WholeMinutes(d: int)
    ensures d >= 0 ==> NANOS_PER_MINUTE * JavaDiv(d / NANOS_PER_SECOND, 60) <= d
    ensures d >= 0 ==> d < NANOS_PER_MINUTE * JavaDiv(d / NANOS_PER_SECOND, 60) + NANOS_PER_MINUTE
  {
    if d >= 0 {
      var s := d / NANOS_PER_SECOND;
      assert NANOS_PER_SECOND * s <= d < NANOS_PER_SECOND * s + NANOS_PER_SECOND;
      var m := s / 60;
      assert 60 * m <= s < 60 * m + 60;
      assert JavaDiv(s, 60) == m;
    }
  }

  /** The year has 365 days, or 366 in a leap year. */
  lemma YearLength(y: int)
    ensures DaysBeforeYear(y + 1) - DaysBeforeYear(y) == if IsLeapYear(y) then 366 else 365
    ensures DaysBeforeMonth(y, 13) == if IsLeapYear(y) then 366 else 365
  {
    LeapDayCount(y);
    MonthTotal(y);
  }

  lemma LeapDayCount(y: int)
    ensures DaysBeforeYear(y + 1) - DaysBeforeYear(y) == if IsLeapYear(y) then 366 else 365
  {
    var p := y - 1;
    DivStep(p, 4);
    DivStep(p, 100);
    DivStep(p, 400);
  }

  lemma DivStep(p: int, k: int)
    requires k == 4 || k == 100 || k == 400
    ensures (p + 1) / k - p / k == if (p + 1) % k == 0 then 1 else 0
  {
  }

  lemma MonthTotal(y: int)
    ensures DaysBeforeMonth(y, 13) == if IsLeapYear(y) then 366 else 365
  {
    var feb := DaysInMonth(y, 2);
    assert DaysBeforeMonth(y, 2) == 31;
    assert DaysBeforeMonth(y, 3) == 31 + feb;
    assert DaysBeforeMonth(y, 4) == 62 + feb;
    assert DaysBeforeMonth(y, 5) == 92 + feb;
    assert DaysBeforeMonth(y, 6) == 123 + feb;
    assert DaysBeforeMonth(y, 7) == 153 + feb;
    assert DaysBeforeMonth(y, 8) == 184 + feb;
    assert DaysBeforeMonth(y, 9) == 215 + feb;
    assert DaysBeforeMonth(y, 10) == 245 + feb;
    assert DaysBeforeMonth(y, 11) == 276 + feb;
    assert DaysBeforeMonth(y, 12) == 306 + feb;
    assert DaysBeforeMonth(y, 13) == 337 + feb;
  }

  /** Within a year, the days before a later month cover every day of an earlier one. */
  lemma {:induction false} DaysBeforeMonthGrows(y: int, m: int, m': int)
    requires 1 <= m < m' <= 13
    ensures DaysBeforeMonth(y, m) + DaysInMonth(y, m) <= DaysBeforeMonth(y, m')
  {
    if m' > m + 1 {
      DaysBeforeMonthGrows(y, m, m' - 1);
    }
  }

  lemma {:induction false} DaysBeforeYearGrows(y: int, y': int)
    requires y < y'
    ensures DaysBeforeYear(y) + DaysBeforeMonth(y, 13) <= DaysBeforeYear(y')
    decreases y' - y
  {
    YearLength(y);
    if y' > y + 1 {
      DaysBeforeYearGrows(y + 1, y');
      YearLength(y + 1);
    }
  }

  /** Chronological order: t comes strictly before t' on the calendar and clock. */
  predicate Before(t: DateTime, t': DateTime) {
    t.year < t'.year ||
    (t.year == t'.year && (t.month < t'.month ||
    (t.month == t'.month && (t.day < t'.day ||
    (t.day == t'.day && (t.hour < t'.hour ||
    (t.hour == t'.hour && (t.minute < t'.minute ||
    (t.minute == t'.minute && (t.second < t'.second ||
    (t.second == t'.second && t.nano < t'.nano)))))))))))
  }

  lemma EpochDayMonotone(t: DateTime, t': DateTime)
    requires t.year < t'.year || (t.year == t'.year && (t.month < t'.month || (t.month == t'.month && t.day < t'.day)))
    ensures EpochDay(t) < EpochDay(t')
  {
    if t.year < t'.year {
      DaysBeforeYearGrows(t.year, t'.year);
      DaysBeforeMonthGrows(t.year, t.month, 13);
    } else if t.month < t'.month {
      DaysBeforeMonthGrows(t.year, t.month, t'.month);
    }
  }

  /** The second count respects chronological order, up to the second. */
  lemma EpochSecondMonotone(t: DateTime, t': DateTime)
    requires Before(t, t')
    ensures EpochSecond(t) <= EpochSecond(t')
    ensures EpochSecond(t) == EpochSecond(t') ==> t.nano < t'.nano
  {
    if t.year < t'.year || (t.year == t'.year && (t.month < t'.month || (t.month == t'.month && t.day < t'.day))) {
      EpochDayMonotone(t, t');
    }
  }

  /** The nanosecond count respects chronological order. */
  lemma EpochNanoMonotone(t: DateTime, t': DateTime)
    requires Before(t, t')
    ensures EpochNano(t) < EpochNano(t')
  {
    EpochSecondMonotone(t, t');
    if EpochSecond(t) < EpochSecond(t') {
      assert EpochNano(t) < (EpochSecond(t) + 1) * NANOS_PER_SECOND <= EpochNano(t');
    }
  }

  /** Whole seconds, rounded down, keep the order of nanosecond counts. */
  lemma SecondsMonotone(a: int, b: int)
    requires a <= b
    ensures a / NANOS_PER_SECOND <= b / NANOS_PER_SECOND
  {
    var qa, qb := a / NANOS_PER_SECOND, b / NANOS_PER_SECOND;
    assert NANOS_PER_SECOND * qa <= a && b < NANOS_PER_SECOND * qb + NANOS_PER_SECOND;
  }

  lemma DivMonotone(a: nat, b: nat)
    requires a <= b
    ensures a / 60 <= b / 60
  {
    var qa, qb := a / 60, b / 60;
    assert 60 * qa <= a && b < 60 * qb + 60;
  }

  lemma JavaDivMonotone(a: int, b: int)
    requires a <= b
    ensures JavaDiv(a, 60) <= JavaDiv(b, 60)
  {
    if a >= 0 {
      DivMonotone(a, b);
    } else if b < 0 {
      DivMonotone(-b, -a);
    }
  }

  /** The minutes elapsed since a fixed start never decrease as the end moves later. */
  lemma ElapsedMinutesMonotone(from: DateTime, to: DateTime, to': DateTime)
    requires Before(to, to')
    ensures ElapsedMinutes(from, to) <= ElapsedMinutes(from, to')
  {
    var d, d' := EpochNano(to) - EpochNano(from), EpochNano(to') - EpochNano(from);
    EpochNanoMonotone(to, to');
    SecondsMonotone(d, d');
    JavaDivMonotone(d / NANOS_PER_SECOND, d' / NANOS_PER_SECOND);
  }

  /** `yyyyMMddHHmm`: year, month, day, hour and minute, zero-padded to a fixed width. */
  function FormatMinute(t: DateTime): (s: string)
    ensures |s| == 12
  {
    assert Pow10(2) == 100 && Pow10(4) == 10000;
    PadDigits(t.year, 4) + PadDigits(t.month, 2) + PadDigits(t.day, 2) +
    PadDigits(t.hour, 2) + PadDigits(t.minute, 2)
  }

  /** The date-time cut back to its minute: seconds and nanoseconds zero. */
  function ToMinute(t: DateTime): LocalDateTime {
    t.(second := 0, nano := 0)
  }

  /** Reads a `yyyyMMddHHmm` text back; the seconds are not in it. */
  function ParseMinute(s: string): LocalDateTime
    requires |s| == 12
  {
    LocalDateTime(ParseDigits(s[..4]), ParseDigits(s[4..6]), ParseDigits(s[6..8]),
                  ParseDigits(s[8..10]), ParseDigits(s[10..]), 0, 0)
  }

  /** Formatting keeps everything but the seconds: parsing recovers the minute exactly. */
  lemma FormatMinuteRoundTrip(t: DateTime)
    ensures ParseMinute(FormatMinute(t)) == ToMinute(t)
  {
    assert Pow10(2) == 100 && Pow10(4) == 10000;
    var s := FormatMinute(t);
    assert s[..4] == PadDigits(t.year, 4);
    assert s[4..6] == PadDigits(t.month, 2);
    assert s[6..8] == PadDigits(t.day, 2);
    assert s[8..10] == PadDigits(t.hour, 2);
    assert s[10..] == PadDigits(t.minute, 2);
    ParsePadDigits(t.year, 4);
    ParsePadDigits(t.month, 2);
    ParsePadDigits(t.day, 2);
    ParsePadDigits(t.hour, 2);
    ParsePadDigits(t.minute, 2);
  }
}
