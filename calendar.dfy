/**
 * The part of JavaScript's `Date` the resolver uses, in one fixed time zone.
 *
 * An instant is a calendar day (year, month 0..11, day of month) and a millisecond of
 * that day. Setters follow the roll-over of ECMAScript's MakeDay / MakeTime: a day of
 * month outside the month, a month outside 0..11 or an hour outside 0..23 carries into
 * the neighbouring month, year or day. Days are counted from 1970-01-01 (a Thursday)
 * by `DayNumber`; weekdays are numbered with Sunday = 0, as `getDay()` does.
 */
module Calendar {

  const MsPerSecond: int := 1000
  const MsPerMinute: int := 60000
  const MsPerHour: int := 3600000
  const MsPerDay: int := 86400000

  predicate IsLeapYear(y: int) {
    y % 4 == 0 && (y % 100 != 0 || y % 400 == 0)
  }

  function DaysInYear(y: int): int {
    if IsLeapYear(y) then 366 else 365
  }

  function DaysInMonth(y: int, m: int): (n: int)
    requires 0 <= m < 12
    ensures 28 <= n <= 31
  {
    if m == 1 then (if IsLeapYear(y) then 29 else 28)
    else if m == 3 || m == 5 || m == 8 || m == 10 then 30
    else 31
  }

  /** Days of year `y` before the first day of month `m`. */
  function DaysBeforeMonth(y: int, m: int): int
    requires 0 <= m <= 12
  {
    if m == 0 then 0 else DaysBeforeMonth(y, m - 1) + DaysInMonth(y, m - 1)
  }

  lemma WholeYear(y: int)
    ensures DaysBeforeMonth(y, 12) == DaysInYear(y)
  {
    var feb := DaysInMonth(y, 1);
    assert DaysBeforeMonth(y, 1) == 31;
    assert DaysBeforeMonth(y, 2) == 31 + feb;
    assert DaysBeforeMonth(y, 3) == 62 + feb;
    assert DaysBeforeMonth(y, 4) == 92 + feb;
    assert DaysBeforeMonth(y, 5) == 123 + feb;
    assert DaysBeforeMonth(y, 6) == 153 + feb;
    assert DaysBeforeMonth(y, 7) == 184 + feb;
    assert DaysBeforeMonth(y, 8) == 215 + feb;
    assert DaysBeforeMonth(y, 9) == 245 + feb;
    assert DaysBeforeMonth(y, 10) == 276 + feb;
    assert DaysBeforeMonth(y, 11) == 306 + feb;
  }

  /** Days from 1970-01-01 to the first day of year `y` (negative before 1970). */
  function DaysBeforeYear(y: int): int
    decreases if y < 1970 then 1970 - y else y - 1970
  {
    if y == 1970 then 0
    else if y > 1970 then DaysBeforeYear(y - 1) + DaysInYear(y - 1)
    else DaysBeforeYear(y + 1) - DaysInYear(y)
  }

  lemma YearStep(y: int)
    ensures DaysBeforeYear(y + 1) == DaysBeforeYear(y) + DaysInYear(y)
  {
  }

  /** The day number of (y, m, d); `d` may lie outside the month. */
  function DayNumber(y: int, m: int, d: int): int
    requires 0 <= m < 12
  {
    DaysBeforeYear(y) + DaysBeforeMonth(y, m) + d - 1
  }

  datatype CivilDate = CivilDate(year: int, month: int, day: int)

  predicate ValidDate(c: CivilDate) {
    0 <= c.month < 12 && 1 <= c.day <= DaysInMonth(c.year, c.month)
  }

  function DayOf(c: CivilDate): int
    requires 0 <= c.month < 12
  {
    DayNumber(c.year, c.month, c.day)
  }

  /**
   * MakeDay's roll-over: the valid date that names the same day as (y, m, d).
   * The ensures clause is what the recursion has to establish month by month.
   */
  function Normalize(y: int, m: int, d: int): (c: CivilDate)
    requires 0 <= m < 12
    ensures ValidDate(c)
    ensures DayOf(c) == DayNumber(y, m, d)
    decreases if d < 1 then 100 - d else d
  {
    if d < 1 then
      if m == 0 then
        WholeYear(y - 1);
        YearStep(y - 1);
        Normalize(y - 1, 11, d + 31)
      else
        Normalize(y, m - 1, d + DaysInMonth(y, m - 1))
    else if d > DaysInMonth(y, m) then
      if m == 11 then
        WholeYear(y);
        YearStep(y);
        Normalize(y + 1, 0, d - 31)
      else
        Normalize(y, m + 1, d - DaysInMonth(y, m))
    else
      CivilDate(y, m, d)
  }

  lemma NormalizeValid(c: CivilDate)
    requires ValidDate(c)
    ensures Normalize(c.year, c.month, c.day) == c
  {
  }

  /** A valid day is determined by its day number. */
  lemma {:induction false} DayOfInjective(a: CivilDate, b: CivilDate)
    requires ValidDate(a) && ValidDate(b) && DayOf(a) == DayOf(b)
    ensures a == b
  {
    if a.year < b.year {
      YearsApart(a, b);
    } else if b.year < a.year {
      YearsApart(b, a);
    } else if a.month < b.month {
      MonthsApart(a.year, a.month, b.month);
    } else if b.month < a.month {
      MonthsApart(a.year, b.month, a.month);
    }
  }

  lemma {:induction false} MonthsApart(y: int, m: int, n: int)
    requires 0 <= m < n <= 12
    ensures DaysBeforeMonth(y, n) >= DaysBeforeMonth(y, m) + DaysInMonth(y, m)
    decreases n - m
  {
    if n > m + 1 {
      MonthsApart(y, m, n - 1);
    }
  }

  lemma {:induction false} MonthsNonNegative(y: int, m: int)
    requires 0 <= m <= 12
    ensures DaysBeforeMonth(y, m) >= 0
  {
    if m > 0 {
      MonthsNonNegative(y, m - 1);
    }
  }

  lemma {:induction false} YearsBefore(y: int, z: int)
    requires y < z
    ensures DaysBeforeYear(z) >= DaysBeforeYear(y) + DaysInYear(y)
    decreases z - y
  {
    YearStep(y);
    if z > y + 1 {
      YearsBefore(y + 1, z);
      YearStep(y + 1);
    }
  }

  lemma YearsApart(a: CivilDate, b: CivilDate)
    requires ValidDate(a) && ValidDate(b) && a.year < b.year
    ensures DayOf(a) < DayOf(b)
  {
    YearsBefore(a.year, b.year);
    WholeYear(a.year);
    MonthsApart(a.year, a.month, 12);
    MonthsNonNegative(b.year, b.month);
  }

  /** `getDay()`: 0 = Sunday .. 6 = Saturday; day 0 (1970-01-01) was a Thursday. */
  function Weekday(c: CivilDate): (w: int)
    requires 0 <= c.month < 12
    ensures 0 <= w < 7
  {
    (DayOf(c) + 4) % 7
  }

  datatype Instant = Instant(date: CivilDate, ms: int)

  predicate ValidInstant(t: Instant) {
    ValidDate(t.date) && 0 <= t.ms < MsPerDay
  }

  /** The time value: milliseconds since 1970-01-01T00:00:00.000 in the model's zone. */
  function Epoch(t: Instant): int
    requires 0 <= t.date.month < 12
  {
    DayOf(t.date) * MsPerDay + t.ms
  }

  function Hours(t: Instant): int { t.ms / MsPerHour }
  function Minutes(t: Instant): int { (t.ms / MsPerMinute) % 60 }
  function Seconds(t: Instant): int { (t.ms / MsPerSecond) % 60 }
  function Millis(t: Instant): int { t.ms % MsPerSecond }

  lemma ClockParts(t: Instant)
    requires ValidInstant(t)
    ensures 0 <= Hours(t) < 24 && 0 <= Minutes(t) < 60 && 0 <= Seconds(t) < 60 && 0 <= Millis(t) < 1000
    ensures Hours(t) * MsPerHour + Minutes(t) * MsPerMinute + Seconds(t) * MsPerSecond + Millis(t) == t.ms
  {
  }

  /** MakeDate(Day(t), time): `time` milliseconds after the start of `t`'s day, carrying whole days. */
  function WithTime(t: Instant, time: int): (r: Instant)
    requires ValidInstant(t)
    ensures ValidInstant(r)
    ensures Epoch(r) == DayOf(t.date) * MsPerDay + time
  {
    var d := Normalize(t.date.year, t.date.month, t.date.day + time / MsPerDay);
    Instant(d, time % MsPerDay)
  }

  /** `setDate(d)` */
  function WithDate(t: Instant, d: int): (r: Instant)
    requires ValidInstant(t)
    ensures ValidInstant(r)
  {
    Instant(Normalize(t.date.year, t.date.month, d), t.ms)
  }

  /** `setMonth(m)`: keeps the day of month, which may roll into the following month. */
  function WithMonth(t: Instant, m: int): (r: Instant)
    requires ValidInstant(t)
    ensures ValidInstant(r)
  {
    Instant(Normalize(t.date.year + m / 12, m % 12, t.date.day), t.ms)
  }

  /** `setFullYear(y)`: keeps month and day of month (29 February may roll to 1 March). */
  function WithFullYear(t: Instant, y: int): (r: Instant)
    requires ValidInstant(t)
    ensures ValidInstant(r)
  {
    Instant(Normalize(y, t.date.month, t.date.day), t.ms)
  }

  /** `setHours(h)`: keeps minutes, seconds and milliseconds. */
  function WithHours(t: Instant, h: int): (r: Instant)
    requires ValidInstant(t)
    ensures ValidInstant(r)
  {
    WithTime(t, h * MsPerHour + Minutes(t) * MsPerMinute + Seconds(t) * MsPerSecond + Millis(t))
  }

  /** `setMinutes(mi)`: keeps hours, seconds and milliseconds. */
  function WithMinutes(t: Instant, mi: int): (r: Instant)
    requires ValidInstant(t)
    ensures ValidInstant(r)
  {
    WithTime(t, Hours(t) * MsPerHour + mi * MsPerMinute + Seconds(t) * MsPerSecond + Millis(t))
  }

  /** `setHours(h, mi, s, ms)` */
  function WithClock(t: Instant, h: int, mi: int, s: int, ms: int): (r: Instant)
    requires ValidInstant(t)
    ensures ValidInstant(r)
  {
    WithTime(t, h * MsPerHour + mi * MsPerMinute + s * MsPerSecond + ms)
  }

  /** Moving the day of month by `k` moves the day number by `k` and keeps the clock. */
  lemma ShiftDays(t: Instant, k: int)
    requires ValidInstant(t)
    ensures DayOf(WithDate(t, t.date.day + k).date) == DayOf(t.date) + k
    ensures WithDate(t, t.date.day + k).ms == t.ms
  {
  }

  /** Adding `delta` hours or minutes through the setters moves the time value by exactly that much. */
  lemma ShiftClock(t: Instant, delta: int)
    requires ValidInstant(t)
    ensures Epoch(WithHours(t, Hours(t) + delta)) == Epoch(t) + delta * MsPerHour
    ensures Epoch(WithMinutes(t, Minutes(t) + delta)) == Epoch(t) + delta * MsPerMinute
  {
    ClockParts(t);
  }

  /** Euclidean division by `d` of `q * d + r` with `0 <= r < d`. */
  lemma DivModUnique(q: int, r: int, d: int)
    requires d > 0 && 0 <= r < d
    ensures (q * d + r) / d == q && (q * d + r) % d == r
  {
    var x := q * d + r;
    var k := q - x / d;
    assert k * d == x % d - r by {
      assert x == (x / d) * d + x % d;
      assert k * d == q * d - (x / d) * d;
    }
    MultipleBounds(k, d);
  }

  /** A non-zero multiple of a positive `d` is at least `d` away from zero. */
  lemma MultipleBounds(k: int, d: int)
    requires d > 0
    ensures k >= 1 ==> k * d >= d
    ensures k <= -1 ==> k * d <= -d
  {
    if k >= 1 {
      assert k * d == (k - 1) * d + d;
      assert (k - 1) * d >= 0;
    } else if k <= -1 {
      assert k * d == (k + 1) * d - d;
      assert (k + 1) * d <= 0;
    }
  }

  /** The milliseconds of an in-range clock read back as its hour, minute, second and millisecond. */
  lemma ClockOfTime(h: int, mi: int, s: int, ms: int)
    requires 0 <= h < 24 && 0 <= mi < 60 && 0 <= s < 60 && 0 <= ms < 1000
    ensures var t := Instant(CivilDate(1970, 0, 1), h * MsPerHour + mi * MsPerMinute + s * MsPerSecond + ms);
      Hours(t) == h && Minutes(t) == mi && Seconds(t) == s && Millis(t) == ms
  {
    var time := h * MsPerHour + mi * MsPerMinute + s * MsPerSecond + ms;
    var sec := h * 3600 + mi * 60 + s;
    var min := h * 60 + mi;
    assert time == sec * 1000 + ms;
    DivModUnique(sec, ms, 1000);
    assert sec == min * 60 + s;
    DivModUnique(min, s, 60);
    assert time == min * 60000 + (s * 1000 + ms);
    DivModUnique(min, s * 1000 + ms, 60000);
    DivModUnique(h, mi, 60);
    assert time == h * 3600000 + (mi * 60000 + s * 1000 + ms);
    DivModUnique(h, mi * 60000 + s * 1000 + ms, 3600000);
  }

  /** An in-range clock stays within its day. */
  lemma ClockInDay(t: Instant, h: int, mi: int, s: int, ms: int)
    requires ValidInstant(t)
    requires 0 <= h < 24 && 0 <= mi < 60 && 0 <= s < 60 && 0 <= ms < 1000
    ensures WithClock(t, h, mi, s, ms) == Instant(t.date, h * MsPerHour + mi * MsPerMinute + s * MsPerSecond + ms)
  {
    var time := h * MsPerHour + mi * MsPerMinute + s * MsPerSecond + ms;
    assert 0 <= time < MsPerDay;
    DivModUnique(0, time, MsPerDay);
    NormalizeValid(t.date);
  }

  /** Setting an in-range clock keeps the day and reads back the same fields. */
  lemma SetClockFields(t: Instant, h: int, mi: int, s: int, ms: int)
    requires ValidInstant(t)
    requires 0 <= h < 24 && 0 <= mi < 60 && 0 <= s < 60 && 0 <= ms < 1000
    ensures WithClock(t, h, mi, s, ms).date == t.date
    ensures WithClock(t, h, mi, s, ms).ms == h * MsPerHour + mi * MsPerMinute + s * MsPerSecond + ms
    ensures Hours(WithClock(t, h, mi, s, ms)) == h && Minutes(WithClock(t, h, mi, s, ms)) == mi
    ensures Seconds(WithClock(t, h, mi, s, ms)) == s && Millis(WithClock(t, h, mi, s, ms)) == ms
  {
    ClockInDay(t, h, mi, s, ms);
    ClockOfTime(h, mi, s, ms);
  }

  /** Moving `k` days moves the weekday by `k`, modulo 7. */
  lemma WeekdayShift(t: Instant, k: int)
    requires ValidInstant(t)
    ensures Weekday(WithDate(t, t.date.day + k).date) == (Weekday(t.date) + k) % 7
  {
    ShiftDays(t, k);
    var d4 := DayOf(t.date) + 4;
    var w := d4 % 7;
    assert d4 == 7 * (d4 / 7) + w;
    assert w + k == 7 * ((w + k) / 7) + (w + k) % 7;
    assert d4 + k == (d4 / 7 + (w + k) / 7) * 7 + (w + k) % 7;
    DivModUnique(d4 / 7 + (w + k) / 7, (w + k) % 7, 7);
  }

  /** `setHours(h)` with an hour of the day keeps the day, the minutes, the seconds and the milliseconds. */
  lemma SetHoursFields(t: Instant, h: int)
    requires ValidInstant(t) && 0 <= h < 24
    ensures WithHours(t, h).date == t.date && Hours(WithHours(t, h)) == h
    ensures Minutes(WithHours(t, h)) == Minutes(t) && Seconds(WithHours(t, h)) == Seconds(t) && Millis(WithHours(t, h)) == Millis(t)
  {
    ClockParts(t);
    assert WithHours(t, h) == WithClock(t, h, Minutes(t), Seconds(t), Millis(t));
    SetClockFields(t, h, Minutes(t), Seconds(t), Millis(t));
  }

  /** `setMinutes(mi)` with a minute of the hour keeps the day, the hour, the seconds and the milliseconds. */
  lemma SetMinutesFields(t: Instant, mi: int)
    requires ValidInstant(t) && 0 <= mi < 60
    ensures WithMinutes(t, mi).date == t.date && Minutes(WithMinutes(t, mi)) == mi
    ensures Hours(WithMinutes(t, mi)) == Hours(t) && Seconds(WithMinutes(t, mi)) == Seconds(t) && Millis(WithMinutes(t, mi)) == Millis(t)
  {
    ClockParts(t);
    assert WithMinutes(t, mi) == WithClock(t, Hours(t), mi, Seconds(t), Millis(t));
    SetClockFields(t, Hours(t), mi, Seconds(t), Millis(t));
  }

  /** `setMonth(m)` carries whole years and keeps the day of month when that month has it. */
  lemma SetMonthFits(t: Instant, m: int)
    requires ValidInstant(t) && t.date.day <= DaysInMonth(t.date.year + m / 12, m % 12)
    ensures WithMonth(t, m) == Instant(CivilDate(t.date.year + m / 12, m % 12, t.date.day), t.ms)
  {
    NormalizeValid(CivilDate(t.date.year + m / 12, m % 12, t.date.day));
  }

  /** `setFullYear(y)` keeps month and day when that year has the day (all but 29 February). */
  lemma SetFullYearFits(t: Instant, y: int)
    requires ValidInstant(t) && t.date.day <= DaysInMonth(y, t.date.month)
    ensures WithFullYear(t, y) == Instant(CivilDate(y, t.date.month, t.date.day), t.ms)
  {
    NormalizeValid(CivilDate(y, t.date.month, t.date.day));
  }

  /**
   * The mutable `Date` object: one time value, changed in place by its setters.
   * Each setter's new value is the pure function of the old value named in its contract.
   */
  class JsDate {
    var value: Instant

    ghost predicate Valid()
      reads this
    {
      ValidInstant(value)
    }

    constructor (now: Instant)
      requires ValidInstant(now)
      ensures Valid() && value == now
    {
      value := now;
    }

    function GetDate(): int
      reads this
    {
      value.date.day
    }

    function GetMonth(): int
      reads this
    {
      value.date.month
    }

    function GetFullYear(): int
      reads this
    {
      value.date.year
    }

    function GetDay(): (w: int)
      reads this
      requires Valid()
      ensures 0 <= w < 7
    {
      Weekday(value.date)
    }

    function GetHours(): int
      reads this
    {
      Hours(value)
    }

    function GetMinutes(): int
      reads this
    {
      Minutes(value)
    }

    method SetDate(d: int)
      requires Valid()
      modifies this
      ensures Valid() && value == WithDate(old(value), d)
    {
      value := WithDate(value, d);
    }

    method SetMonth(m: int)
      requires Valid()
      modifies this
      ensures Valid() && value == WithMonth(old(value), m)
    {
      value := WithMonth(value, m);
    }

    method SetFullYear(y: int)
      requires Valid()
      modifies this
      ensures Valid() && value == WithFullYear(old(value), y)
    {
      value := WithFullYear(value, y);
    }

    method SetHours(h: int)
      requires Valid()
      modifies this
      ensures Valid() && value == WithHours(old(value), h)
    {
      value := WithHours(value, h);
    }

    method SetMinutes(mi: int)
      requires Valid()
      modifies this
      ensures Valid() && value == WithMinutes(old(value), mi)
    {
      value := WithMinutes(value, mi);
    }

    method SetClock(h: int, mi: int, s: int, ms: int)
      requires Valid()
      modifies this
      ensures Valid() && value == WithClock(old(value), h, mi, s, ms)
    {
      value := WithClock(value, h, mi, s, ms);
    }
  }
}
