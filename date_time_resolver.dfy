/**
 * `DateTimeResolver.resolveFromPatterns`: folds a list of pattern records into one
 * mutable date that starts at the current time, tracking whether a date and a time
 * were given, and moves a date-only result to the end of its day.
 *
 * The resolver reads its own record shape (`pattern.hour`, `pattern.ampm`,
 * `specific_day`, ...), which is not the shape the matcher emits; it is modelled as
 * written. The current time is the parameter `now`, and the ISO string returned by
 * `toISOString()` is represented by the instant itself.
 */
module DateTimeResolver {
  import opened Wrappers
  import opened Calendar

  /** `this.dayNames`: index 0 is Sunday, as for `getDay()`. */
  const DayNames: seq<string> := ["sunday", "monday", "tuesday", "wednesday", "thursday", "friday", "saturday"]

  /**
   * The fields of a pattern record that the resolver reads. A string field that is
   * absent reads as "" (it then equals none of the literals it is compared with, and
   * `indexOf` finds no day name for it); an absent `minute` reads as 0, as
   * `pattern.minute || 0` does. `day` is a weekday name for the weekday records and
   * `dayOfMonth` is the numeric `day` of a `specific_date` record.
   */
  datatype Pattern = Pattern(
    kind: string,
    relativeDay: string,
    day: string,
    dayOfMonth: int,
    year: int,
    month: int,
    unit: string,
    amount: int,
    hour: int,
    minute: int,
    ampm: string,
    relative: string)

  /** `names.indexOf(x)`: the first index holding `x`, or -1. */
  function IndexOf(names: seq<string>, x: string): (i: int)
    ensures -1 <= i < |names|
    ensures 0 <= i ==> names[i] == x && forall j | 0 <= j < i :: names[j] != x
    ensures i == -1 <==> x !in names
  {
    if names == [] then -1
    else if names[0] == x then 0
    else
      var k := IndexOf(names[1..], x);
      if k == -1 then -1 else k + 1
  }

  /** `(dayIndex - date.getDay() + 7) % 7`; the left operand is positive, so JavaScript's `%` agrees with Dafny's. */
  function DayDiff(dayIndex: int, weekday: int): int {
    (dayIndex - weekday + 7) % 7
  }

  /** `date.setDate(date.getDate() + k)` */
  function AddDays(t: Instant, k: int): (r: Instant)
    requires ValidInstant(t)
    ensures ValidInstant(r)
  {
    WithDate(t, t.date.day + k)
  }

  /** The named-weekday records: move forward to the weekday `name` has in `names`, by `extra` more days; an unknown name moves nothing. */
  function ToNamedDay(names: seq<string>, t: Instant, name: string, extra: int): (r: Instant)
    requires ValidInstant(t) && |names| == 7
    ensures ValidInstant(r)
  {
    var dayIndex := IndexOf(names, name);
    if dayIndex != -1 then AddDays(t, DayDiff(dayIndex, Weekday(t.date)) + extra) else t
  }

  /** The `relative_specific_day` record's extra week: +7 for "next", -7 for "last". */
  function RelativeWeeks(relative: string): int {
    if relative == "next" then 7 else if relative == "last" then -7 else 0
  }

  /** The `relative_day` record: "tomorrow" and "yesterday" move one day; anything else stays. */
  function RelativeDayMove(t: Instant, relativeDay: string): (r: Instant)
    requires ValidInstant(t)
    ensures ValidInstant(r)
  {
    if relativeDay == "tomorrow" then AddDays(t, 1)
    else if relativeDay == "yesterday" then AddDays(t, -1)
    else t
  }

  /** The `specific_date` record: year, then month (1-based in the record), then day of month. */
  function SpecificDateMove(t: Instant, year: int, month: int, day: int): (r: Instant)
    requires ValidInstant(t)
    ensures ValidInstant(r)
  {
    WithDate(WithMonth(WithFullYear(t, year), month - 1), day)
  }

  /** The `relative_time` record: only the "hour" and "minute" units move the clock. */
  function RelativeTimeMove(t: Instant, unit: string, amount: int): (r: Instant)
    requires ValidInstant(t)
    ensures ValidInstant(r)
  {
    if unit == "hour" then WithHours(t, Hours(t) + amount)
    else if unit == "minute" then WithMinutes(t, Minutes(t) + amount)
    else t
  }

  /** The `specific_time` record: hour, minute, then the meridiem corrections. */
  function SetTime(t: Instant, hour: int, minute: int, ampm: string): (r: Instant)
    requires ValidInstant(t)
    ensures ValidInstant(r)
  {
    var t1 := WithMinutes(WithHours(t, hour), minute);
    var t2 := if ampm == "pm" && hour < 12 then WithHours(t1, Hours(t1) + 12) else t1;
    if ampm == "am" && hour == 12 then WithHours(t2, 0) else t2
  }

  /** The `relative_date` record: days, weeks, months or years; another unit moves nothing. */
  function RelativeDateMove(t: Instant, unit: string, amount: int): (r: Instant)
    requires ValidInstant(t)
    ensures ValidInstant(r)
  {
    if unit == "day" then AddDays(t, amount)
    else if unit == "week" then AddDays(t, amount * 7)
    else if unit == "month" then WithMonth(t, t.date.month + amount)
    else if unit == "year" then WithFullYear(t, t.date.year + amount)
    else t
  }

  /** A `relative_date` record in months or years sets that field forward by the amount. */
  lemma RelativeDateUnit(t: Instant, unit: string, amount: int)
    requires ValidInstant(t) && unit in {"month", "year"}
    ensures unit == "month" ==> RelativeDateMove(t, unit, amount) == WithMonth(t, t.date.month + amount)
    ensures unit == "year" ==> RelativeDateMove(t, unit, amount) == WithFullYear(t, t.date.year + amount)
  {
  }

  /** The resolver's loop state: the date and the two flags. */
  datatype State = State(date: Instant, hasDate: bool, hasTime: bool)

  /** One iteration of the loop. */
  function Step(s: State, p: Pattern): (r: State)
    requires ValidInstant(s.date)
    ensures ValidInstant(r.date)
  {
    var t := s.date;
    if p.kind == "relative_day" then State(RelativeDayMove(t, p.relativeDay), true, s.hasTime)
    else if p.kind == "specific_day" then State(ToNamedDay(DayNames, t, p.day, 0), true, s.hasTime)
    else if p.kind == "specific_date" then State(SpecificDateMove(t, p.year, p.month, p.dayOfMonth), true, s.hasTime)
    else if p.kind == "relative_time" then State(RelativeTimeMove(t, p.unit, p.amount), s.hasDate, true)
    else if p.kind == "specific_time" then State(SetTime(t, p.hour, p.minute, p.ampm), s.hasDate, true)
    else if p.kind == "relative_specific_day" then State(ToNamedDay(DayNames, t, p.day, RelativeWeeks(p.relative)), true, s.hasTime)
    else if p.kind == "relative_date" then State(RelativeDateMove(t, p.unit, p.amount), true, s.hasTime)
    else if p.kind == "this_day" then State(ToNamedDay(DayNames, t, p.day, 0), true, s.hasTime)
    else s
  }

  /** The loop over the records, in list order. */
  function Fold(s: State, ps: seq<Pattern>): (r: State)
    requires ValidInstant(s.date)
    ensures ValidInstant(r.date)
  {
    if ps == [] then s else Step(Fold(s, ps[..|ps| - 1]), ps[|ps| - 1])
  }

  /** The post-pass: a date without a time ends at 23:59:59.999. */
  function Finish(s: State): (t: Instant)
    requires ValidInstant(s.date)
    ensures ValidInstant(t)
  {
    if s.hasDate && !s.hasTime then WithClock(s.date, 23, 59, 59, 999) else s.date
  }

  /**
   * What `resolveFromPatterns(input, patterns)` returns when the clock reads `now`: a missing
   * argument is `None`, as is the `null` result.
   */
  function Resolve(now: Instant, ps: Option<seq<Pattern>>): (r: Option<Instant>)
    requires ValidInstant(now)
    ensures r.None? <==> ps.None? || ps == Some([])
  {
    match ps
    case None => None
    case Some(list) => if list == [] then None else Some(Finish(Fold(State(now, false, false), list)))
  }

  // ---------------------------------------------------------------- properties of one record

  /** "tomorrow" and "yesterday" move the day by one; any other word moves nothing. */
  lemma RelativeDayEffect(t: Instant, relativeDay: string)
    requires ValidInstant(t)
    ensures RelativeDayMove(t, relativeDay).ms == t.ms
    ensures DayOf(RelativeDayMove(t, relativeDay).date) == DayOf(t.date)
              + (if relativeDay == "tomorrow" then 1 else if relativeDay == "yesterday" then -1 else 0)
  {
    ShiftDays(t, 1);
    ShiftDays(t, -1);
  }

  /**
   * A known day name moves forward `DayDiff` days (0 to 6) plus `extra`, onto the named
   * weekday when `extra` is a whole number of weeks; an unknown name moves nothing.
   */
  lemma NamedDayEffect(names: seq<string>, t: Instant, name: string, extra: int)
    requires ValidInstant(t) && |names| == 7
    ensures name !in names ==> ToNamedDay(names, t, name, extra) == t
    ensures name in names ==>
      var r := ToNamedDay(names, t, name, extra);
      var diff := DayDiff(IndexOf(names, name), Weekday(t.date));
      && 0 <= diff < 7
      && DayOf(r.date) == DayOf(t.date) + diff + extra
      && r.ms == t.ms
      && (extra % 7 == 0 ==> names[Weekday(r.date)] == name)
  {
    if name in names {
      var idx := IndexOf(names, name);
      var w := Weekday(t.date);
      var k := DayDiff(idx, w) + extra;
      assert ToNamedDay(names, t, name, extra) == WithDate(t, t.date.day + k);
      ShiftDays(t, k);
      WeekdayShift(t, k);
      DayDiffLands(idx, w, extra);
      if extra % 7 == 0 {
        var r := WithDate(t, t.date.day + k);
        assert Weekday(r.date) == (w + k) % 7 == idx;
      }
    }
  }

  /** The day difference lies in a week and, with whole weeks added, reaches the named weekday. */
  lemma DayDiffLands(idx: int, w: int, extra: int)
    requires 0 <= idx < 7 && 0 <= w < 7
    ensures 0 <= DayDiff(idx, w) < 7
    ensures extra % 7 == 0 ==> (w + (DayDiff(idx, w) + extra)) % 7 == idx
  {
    var diff := DayDiff(idx, w);
    var b := (idx - w + 7) / 7;
    assert idx - w + 7 == 7 * b + diff;
    if extra % 7 == 0 {
      assert extra == 7 * (extra / 7);
      assert w + (diff + extra) == (1 - b + extra / 7) * 7 + idx;
      DivModUnique(1 - b + extra / 7, idx, 7);
    }
  }

  /** `specific_day` and `this_day` land on the named weekday 0 to 6 days ahead; an unknown name moves nothing. */
  lemma NamedWeekdayEffect(names: seq<string>, t: Instant, name: string)
    requires ValidInstant(t) && |names| == 7
    ensures name !in names ==> ToNamedDay(names, t, name, 0) == t
    ensures name in names ==>
      var r := ToNamedDay(names, t, name, 0);
      && names[Weekday(r.date)] == name
      && DayOf(t.date) <= DayOf(r.date) <= DayOf(t.date) + 6
      && r.ms == t.ms
  {
    NamedDayEffect(names, t, name, 0);
  }

  /** `relative_specific_day` lands on the named weekday: 7 to 13 days ahead for "next", 1 to 7 back for "last", else 0 to 6 ahead. */
  lemma RelativeWeekdayEffect(names: seq<string>, t: Instant, name: string, relative: string)
    requires ValidInstant(t) && |names| == 7
    ensures name !in names ==> ToNamedDay(names, t, name, RelativeWeeks(relative)) == t
    ensures name in names ==>
      var r := ToNamedDay(names, t, name, RelativeWeeks(relative));
      var delta := DayOf(r.date) - DayOf(t.date);
      && names[Weekday(r.date)] == name
      && r.ms == t.ms
      && (relative == "next" ==> 7 <= delta <= 13)
      && (relative == "last" ==> -7 <= delta <= -1)
      && (relative != "next" && relative != "last" ==> 0 <= delta <= 6)
  {
    var extra := RelativeWeeks(relative);
    assert extra % 7 == 0;
    NamedDayEffect(names, t, name, extra);
  }

  /**
   * `specific_time` with an hour of the day and a minute of the hour: the hour after the
   * meridiem correction, the minute, and the day, seconds and milliseconds kept.
   */
  lemma SpecificTimeEffect(t: Instant, hour: int, minute: int, ampm: string)
    requires ValidInstant(t) && 0 <= hour < 24 && 0 <= minute < 60
    ensures var r := SetTime(t, hour, minute, ampm);
      && r.date == t.date
      && Hours(r) == (if ampm == "pm" && hour < 12 then hour + 12
                      else if ampm == "am" && hour == 12 then 0
                      else hour)
      && Minutes(r) == minute
      && Seconds(r) == Seconds(t) && Millis(r) == Millis(t)
  {
    var t0 := WithHours(t, hour);
    SetHoursFields(t, hour);
    var t1 := WithMinutes(t0, minute);
    SetMinutesFields(t0, minute);
    if ampm == "pm" && hour < 12 {
      SetHoursFields(t1, Hours(t1) + 12);
    } else if ampm == "am" && hour == 12 {
      SetHoursFields(t1, 0);
    }
  }

  /** `relative_time` moves the clock by whole hours or minutes; another unit moves nothing. */
  lemma RelativeTimeEffect(t: Instant, unit: string, amount: int)
    requires ValidInstant(t)
    ensures Epoch(RelativeTimeMove(t, unit, amount)) == Epoch(t)
              + (if unit == "hour" then amount * MsPerHour
                 else if unit == "minute" then amount * MsPerMinute
                 else 0)
  {
    ShiftClock(t, amount);
  }

  /** `relative_date` adds days, weeks, months or years; another unit moves nothing. */
  lemma RelativeDateEffect(t: Instant, unit: string, amount: int)
    requires ValidInstant(t)
    ensures var r := RelativeDateMove(t, unit, amount);
      && (unit == "day" ==> DayOf(r.date) == DayOf(t.date) + amount && r.ms == t.ms)
      && (unit == "week" ==> DayOf(r.date) == DayOf(t.date) + amount * 7 && r.ms == t.ms)
      && (unit == "month" ==> r == WithMonth(t, t.date.month + amount))
      && (unit == "year" ==> r == WithFullYear(t, t.date.year + amount))
      && (unit !in ["day", "week", "month", "year"] ==> r == t)
  {
    if unit == "day" {
      ShiftDays(t, amount);
    } else if unit == "week" {
      assert RelativeDateMove(t, unit, amount) == WithDate(t, t.date.day + amount * 7);
      ShiftDays(t, amount * 7);
    } else if unit != "month" && unit != "year" {
      assert RelativeDateMove(t, unit, amount) == t;
    }
  }

  /**
   * `specific_date` sets year, month (1-based in the record) and day, and keeps the clock,
   * when neither the current day of month nor the record's day overflows a month on the way.
   */
  lemma SpecificDateEffect(t: Instant, year: int, month: int, day: int)
    requires ValidInstant(t) && ValidDate(CivilDate(year, month - 1, day))
    requires t.date.day <= DaysInMonth(year, t.date.month)
    requires t.date.day <= DaysInMonth(year, month - 1)
    ensures SpecificDateMove(t, year, month, day) == Instant(CivilDate(year, month - 1, day), t.ms)
  {
    SetFullYearFits(t, year);
    var t1 := Instant(CivilDate(year, t.date.month, t.date.day), t.ms);
    assert WithFullYear(t, year) == t1;
    DivModUnique(0, month - 1, 12);
    SetMonthFits(t1, month - 1);
    var t2 := Instant(CivilDate(year, month - 1, t.date.day), t.ms);
    assert WithMonth(t1, month - 1) == t2;
    NormalizeValid(CivilDate(year, month - 1, day));
    assert WithDate(t2, day) == Instant(CivilDate(year, month - 1, day), t.ms);
  }

  /** A record of a type the resolver does not list changes nothing. */
  predicate Listed(kind: string) {
    kind in ["relative_day", "specific_day", "specific_date", "relative_time",
             "specific_time", "relative_specific_day", "relative_date", "this_day"]
  }

  predicate DateKind(kind: string) {
    kind in ["relative_day", "specific_day", "specific_date", "relative_specific_day", "relative_date", "this_day"]
  }

  predicate TimeKind(kind: string) {
    kind in ["relative_time", "specific_time"]
  }

  // ---------------------------------------------------------------- properties of the loop

  /** Records apply in list order: the fold over `a + b` is the fold over `b` from the fold over `a`. */
  lemma {:induction false} FoldAppend(s: State, a: seq<Pattern>, b: seq<Pattern>)
    requires ValidInstant(s.date)
    ensures Fold(s, a + b) == Fold(Fold(s, a), b)
  {
    if b == [] {
      assert a + b == a;
    } else {
      var n := |b| - 1;
      assert (a + b)[..|a + b| - 1] == a + b[..n];
      FoldAppend(s, a, b[..n]);
    }
  }

  /** After the loop, `hasDate` is set exactly when some record is of a date kind, and `hasTime` when some is of a time kind. */
  lemma {:induction false} FoldFlags(s: State, ps: seq<Pattern>)
    requires ValidInstant(s.date)
    ensures Fold(s, ps).hasDate <==> s.hasDate || exists i | 0 <= i < |ps| :: DateKind(ps[i].kind)
    ensures Fold(s, ps).hasTime <==> s.hasTime || exists i | 0 <= i < |ps| :: TimeKind(ps[i].kind)
  {
    if ps != [] {
      var n := |ps| - 1;
      var prev := Fold(s, ps[..n]);
      FoldFlags(s, ps[..n]);
      assert forall i | 0 <= i < n :: ps[..n][i] == ps[i];
      StepFlags(prev, ps[n]);
      assert Fold(s, ps) == Step(prev, ps[n]);
    }
  }

  /** One record sets `hasDate` exactly when it is of a date kind and `hasTime` when it is of a time kind. */
  lemma StepFlags(s: State, p: Pattern)
    requires ValidInstant(s.date)
    ensures Step(s, p).hasDate == (s.hasDate || DateKind(p.kind))
    ensures Step(s, p).hasTime == (s.hasTime || TimeKind(p.kind))
  {
  }

  /** Records of unlisted types leave the date and both flags as they were. */
  lemma {:induction false} FoldUnlisted(s: State, ps: seq<Pattern>)
    requires ValidInstant(s.date)
    requires forall i | 0 <= i < |ps| :: !Listed(ps[i].kind)
    ensures Fold(s, ps) == s
  {
    if ps != [] {
      var n := |ps| - 1;
      assert forall i | 0 <= i < n :: ps[..n][i] == ps[i];
      FoldUnlisted(s, ps[..n]);
      StepUnlisted(s, ps[n]);
    }
  }

  /** A record of an unlisted type is skipped. */
  lemma StepUnlisted(s: State, p: Pattern)
    requires ValidInstant(s.date) && !Listed(p.kind)
    ensures Step(s, p) == s
  {
  }

  /** The post-pass: a date-only result ends at 23:59:59.999 of its day; otherwise the folded date is returned. */
  lemma FinishEffect(s: State)
    requires ValidInstant(s.date)
    ensures s.hasDate && !s.hasTime ==>
      var t := Finish(s);
      t.date == s.date.date && Hours(t) == 23 && Minutes(t) == 59 && Seconds(t) == 59 && Millis(t) == 999
    ensures !(s.hasDate && !s.hasTime) ==> Finish(s) == s.date
  {
    SetClockFields(s.date, 23, 59, 59, 999);
  }

  /** An empty list gives `null`; a list without date or time records returns the current time unchanged. */
  lemma ResolveCurrentTime(now: Instant, ps: seq<Pattern>)
    requires ValidInstant(now)
    ensures Resolve(now, None) == None
    ensures ps == [] ==> Resolve(now, Some(ps)) == None
    ensures ps != [] && (forall i | 0 <= i < |ps| :: !Listed(ps[i].kind)) ==> Resolve(now, Some(ps)) == Some(now)
  {
    if ps != [] && forall i | 0 <= i < |ps| :: !Listed(ps[i].kind) {
      FoldUnlisted(State(now, false, false), ps);
    }
  }

  // ---------------------------------------------------------------- the resolver object

  class DateTimeResolver {
    const dayNames: seq<string>

    constructor ()
      ensures dayNames == DayNames
    {
      dayNames := DayNames;
    }

    /** The `relative_day` branch. */
    method MoveRelativeDay(date: JsDate, relativeDay: string)
      requires date.Valid()
      modifies date
      ensures date.Valid() && date.value == RelativeDayMove(old(date.value), relativeDay)
    {
      if relativeDay == "tomorrow" {
        date.SetDate(date.GetDate() + 1);
      } else if relativeDay == "yesterday" {
        date.SetDate(date.GetDate() - 1);
      }
    }

    /** The `specific_day` and `this_day` branches. */
    method MoveToWeekday(date: JsDate, day: string)
      requires |dayNames| == 7 && date.Valid()
      modifies date
      ensures date.Valid() && date.value == ToNamedDay(dayNames, old(date.value), day, 0)
    {
      var dayIndex := IndexOf(dayNames, day);
      if dayIndex != -1 {
        ghost var t := date.value;
        var dayDiff := DayDiff(dayIndex, date.GetDay());
        date.SetDate(date.GetDate() + dayDiff);
        assert date.value == AddDays(t, dayDiff + 0);
      }
    }

    /** The `relative_specific_day` branch: the same move, a week later for "next" and a week earlier for "last". */
    method MoveToRelativeWeekday(date: JsDate, day: string, relative: string)
      requires |dayNames| == 7 && date.Valid()
      modifies date
      ensures date.Valid() && date.value == ToNamedDay(dayNames, old(date.value), day, RelativeWeeks(relative))
    {
      var dayIndex := IndexOf(dayNames, day);
      if dayIndex != -1 {
        ghost var t := date.value;
        var dayDiff := DayDiff(dayIndex, date.GetDay());
        ghost var base := dayDiff;
        if relative == "next" {
          dayDiff := dayDiff + 7;
        } else if relative == "last" {
          dayDiff := dayDiff - 7;
        }
        assert dayDiff == base + RelativeWeeks(relative);
        date.SetDate(date.GetDate() + dayDiff);
        assert date.value == AddDays(t, dayDiff);
      }
    }

    /** The `specific_date` branch. */
    method MoveToDate(date: JsDate, year: int, month: int, day: int)
      requires date.Valid()
      modifies date
      ensures date.Valid() && date.value == SpecificDateMove(old(date.value), year, month, day)
    {
      date.SetFullYear(year);
      date.SetMonth(month - 1);
      date.SetDate(day);
    }

    /** The `relative_time` branch. */
    method MoveClock(date: JsDate, unit: string, amount: int)
      requires date.Valid()
      modifies date
      ensures date.Valid() && date.value == RelativeTimeMove(old(date.value), unit, amount)
    {
      if unit == "hour" {
        date.SetHours(date.GetHours() + amount);
      } else if unit == "minute" {
        date.SetMinutes(date.GetMinutes() + amount);
      }
    }

    /** The `specific_time` branch. */
    method SetClockTime(date: JsDate, hour: int, minute: int, ampm: string)
      requires date.Valid()
      modifies date
      ensures date.Valid() && date.value == SetTime(old(date.value), hour, minute, ampm)
    {
      date.SetHours(hour);
      date.SetMinutes(minute);
      if ampm == "pm" && hour < 12 {
        date.SetHours(date.GetHours() + 12);
      }
      if ampm == "am" && hour == 12 {
        date.SetHours(0);
      }
    }

    /** `date.setDate(date.getDate() + k)` */
    method AdvanceDays(date: JsDate, k: int)
      requires date.Valid()
      modifies date
      ensures date.Valid() && date.value == AddDays(old(date.value), k)
    {
      date.SetDate(date.GetDate() + k);
    }

    /** `date.setMonth(date.getMonth() + k)` */
    method AdvanceMonths(date: JsDate, k: int)
      requires date.Valid()
      modifies date
      ensures date.Valid() && date.value == WithMonth(old(date.value), old(date.value).date.month + k)
    {
      date.SetMonth(date.GetMonth() + k);
    }

    /** `date.setFullYear(date.getFullYear() + k)` */
    method AdvanceYears(date: JsDate, k: int)
      requires date.Valid()
      modifies date
      ensures date.Valid() && date.value == WithFullYear(old(date.value), old(date.value).date.year + k)
    {
      date.SetFullYear(date.GetFullYear() + k);
    }

    /** The `relative_date` branch. */
    method MoveDate(date: JsDate, unit: string, amount: int)
      requires date.Valid()
      modifies date
      ensures date.Valid() && date.value == RelativeDateMove(old(date.value), unit, amount)
    {
      ghost var t := date.value;
      if unit == "day" {
        AdvanceDays(date, amount);
      } else if unit == "week" {
        AdvanceDays(date, amount * 7);
      } else if unit == "month" {
        AdvanceMonths(date, amount);
        RelativeDateUnit(t, unit, amount);
      } else if unit == "year" {
        AdvanceYears(date, amount);
        RelativeDateUnit(t, unit, amount);
      }
    }

    /** The body of the loop: one record applied to the date and the flags. */
    method Apply(date: JsDate, pattern: Pattern, hasDate0: bool, hasTime0: bool) returns (hasDate: bool, hasTime: bool)
      requires dayNames == DayNames && date.Valid()
      modifies date
      ensures date.Valid()
      ensures State(date.value, hasDate, hasTime) == Step(State(old(date.value), hasDate0, hasTime0), pattern)
    {
      hasDate, hasTime := hasDate0, hasTime0;
      if pattern.kind == "relative_day" {
        hasDate := true;
        MoveRelativeDay(date, pattern.relativeDay);
      } else if pattern.kind == "specific_day" {
        hasDate := true;
        MoveToWeekday(date, pattern.day);
      } else if pattern.kind == "specific_date" {
        hasDate := true;
        MoveToDate(date, pattern.year, pattern.month, pattern.dayOfMonth);
      } else if pattern.kind == "relative_time" {
        hasTime := true;
        MoveClock(date, pattern.unit, pattern.amount);
      } else if pattern.kind == "specific_time" {
        hasTime := true;
        SetClockTime(date, pattern.hour, pattern.minute, pattern.ampm);
      } else if pattern.kind == "relative_specific_day" {
        hasDate := true;
        MoveToRelativeWeekday(date, pattern.day, pattern.relative);
      } else if pattern.kind == "relative_date" {
        hasDate := true;
        MoveDate(date, pattern.unit, pattern.amount);
      } else if pattern.kind == "this_day" {
        hasDate := true;
        MoveToWeekday(date, pattern.day);
      }
    }

    /** `resolveFromPatterns(input, patterns)`, with `new Date()` reading `now`. */
    method ResolveFromPatterns(input: string, arg: Option<seq<Pattern>>, now: Instant) returns (result: Option<Instant>)
      requires dayNames == DayNames && ValidInstant(now)
      ensures result == Resolve(now, arg)
      ensures result.None? <==> arg.None? || arg == Some([])
    {
      if arg.None? || |arg.value| == 0 {
        return None;
      }
      var patterns := arg.value;
      var date := new JsDate(now);
      var hasDate := false;
      var hasTime := false;
      for i := 0 to |patterns|
        invariant date.Valid()
        invariant State(date.value, hasDate, hasTime) == Fold(State(now, false, false), patterns[..i])
      {
        assert patterns[..i + 1][..i] == patterns[..i];
        hasDate, hasTime := Apply(date, patterns[i], hasDate, hasTime);
      }
      assert patterns[..|patterns|] == patterns;
      if hasDate && !hasTime {
        date.SetClock(23, 59, 59, 999);
      }
      return Some(date.value);
    }
  }
}
