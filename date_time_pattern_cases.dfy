/**
 * The matcher's behaviour on concrete phrases: the handlers on the captures of the
 * phrases its own tests use, and the record kinds for recognisers that match what
 * the regexes match on those phrases.
 */
module DateTimePatternCases {
  import opened Wrappers
  import opened Text
  import opened DateTimePatterns

  lemma ContainsAnyWitness(s: string, words: seq<string>, k: nat, i: nat)
    requires k < |words| && OccursAt(s, words[k], i)
    ensures ContainsAny(s, words)
  {
    assert i <= |s|;
  }

  /** "day", "morning" and "evening" recur daily. */
  lemma DailyUnits()
    ensures FrequencyOf("day") == Daily && FrequencyOf("morning") == Daily && FrequencyOf("evening") == Daily
  {
    var daily := ["day", "morning", "evening"];
    ContainsAnyWitness("day", daily, 0, 0);
    ContainsAnyWitness("morning", daily, 1, 0);
    ContainsAnyWitness("evening", daily, 2, 0);
  }

  /**
   * A weekday unit ("every friday") is caught by the "day" test before the weekday
   * test and comes out daily.
   */
  lemma WeekdayUnitsDaily(t: string)
    requires t in WeekdayNames
    ensures FrequencyOf(t) == Daily
  {
    assert t[|t| - 3..] == "day";
    ContainsAnyWitness(t, ["day", "morning", "evening"], 0, |t| - 3);
  }

  /** "week" recurs weekly. */
  lemma WeekUnit()
    ensures FrequencyOf("week") == Weekly
  {
    var daily := ["day", "morning", "evening"];
    forall k | 0 <= k < 3
      ensures !Contains("week", daily[k])
    {
      Absent("week", daily[k]);
    }
    ContainsAnyWitness("week", ["week"] + WeekdayNames, 0, 0);
  }

  /** "month" recurs monthly. */
  lemma MonthUnit()
    ensures FrequencyOf("month") == Monthly
  {
    var daily := ["day", "morning", "evening"];
    forall k | 0 <= k < 3
      ensures !Contains("month", daily[k])
    {
      Absent("month", daily[k]);
    }
    var weekly := ["week"] + WeekdayNames;
    forall k | 0 <= k < |weekly|
      ensures !Contains("month", weekly[k])
    {
      Absent("month", weekly[k]);
    }
  }

  /** No weekday name contains "morning" or "evening". */
  lemma WeekdayNoTimeOfDay(t: string)
    requires t in WeekdayNames
    ensures !ContainsAny(t, ["morning", "evening"])
  {
    var times := ["morning", "evening"];
    forall j | 0 <= j < 2
      ensures !Contains(t, times[j])
    {
      if |times[j]| > |t| {
        Absent(t, times[j]);
      } else {
        AbsentPair(t, times[j]);
      }
    }
  }

  /** Neither "morning" nor "evening" contains a weekday name, since each of those ends in "day". */
  lemma TimeOfDayNoWeekday(t: string)
    requires t == "morning" || t == "evening"
    ensures !ContainsAny(t, WeekdayNames)
  {
    Absent(t, "day");
    forall k | 0 <= k < |WeekdayNames|
      ensures !Contains(t, WeekdayNames[k])
    {
      var w := WeekdayNames[k];
      assert OccursAt(w, "day", |w| - 3);
      if i: nat :| i <= |t| && OccursAt(t, w, i) {
        OccursWithin(t, w, "day", i, |w| - 3);
      }
    }
  }

  /** A weekday unit names its day and no time of day: "every friday" has day "friday". */
  lemma RecurringWeekdayFields(m: Captures, t: string)
    requires Group(m, 1) == Some(t) && t in WeekdayNames
    ensures RecurringHandler(m).day == Some(t)
    ensures RecurringHandler(m).timeContext == None
  {
    WeekdayLower(t);
    WeekdayNoTimeOfDay(t);
  }

  /** A weekday name is lower case and is among the weekday names. */
  lemma WeekdayLower(t: string)
    requires t in WeekdayNames
    ensures ToLower(t) == t && ContainsAny(t, WeekdayNames)
  {
    var k :| 0 <= k < |WeekdayNames| && WeekdayNames[k] == t;
    ContainsAnyWitness(t, WeekdayNames, k, 0);
    LowerFixed(t);
  }

  /** "morning" and "evening" name a time of day and no weekday, and recur daily. */
  lemma RecurringTimeOfDayFields(m: Captures, t: string)
    requires Group(m, 1) == Some(t) && (t == "morning" || t == "evening")
    ensures RecurringHandler(m).day == None
    ensures RecurringHandler(m).timeContext == Some(t)
    ensures RecurringHandler(m).frequency == Daily
  {
    DailyUnits();
    TimeOfDayLower(t);
    TimeOfDayNoWeekday(t);
  }

  /** "morning" and "evening" are lower case and name a time of day. */
  lemma TimeOfDayLower(t: string)
    requires t == "morning" || t == "evening"
    ensures ToLower(t) == t && ContainsAny(t, ["morning", "evening"])
  {
    ContainsAnyWitness(t, ["morning", "evening"], if t == "morning" then 0 else 1, 0);
    LowerFixed(t);
  }

  /** The units "day", "week" and "month" name neither a weekday nor a time of day. */
  lemma RecurringPlainFields(m: Captures, t: string)
    requires Group(m, 1) == Some(t) && (t == "day" || t == "week" || t == "month")
    ensures RecurringHandler(m).day == None
    ensures RecurringHandler(m).timeContext == None
  {
    forall k | 0 <= k < |WeekdayNames|
      ensures !Contains(t, WeekdayNames[k])
    {
      Absent(t, WeekdayNames[k]);
    }
    var times := ["morning", "evening"];
    forall j | 0 <= j < 2
      ensures !Contains(t, times[j])
    {
      Absent(t, times[j]);
    }
  }

  lemma BusinessWord()
    ensures StripSpaces("business") == "business"
  {
    var w := "business";
    assert forall i | 0 <= i < |w| :: 'a' <= w[i] <= 'z';
    StripLetters(w);
  }

  lemma DayWord()
    ensures StripSpaces("day") == "day"
  {
    StripLetters("day");
  }

  /**
   * "business day" in any letter case and with any run of white space between the
   * words is reported as "businessday".
   */
  lemma BusinessDayNormalised(m: Captures, a: string, w: string, b: string)
    requires Group(m, 1) == Some(a + w + b)
    requires ToLower(a) == "business" && ToLower(b) == "day"
    requires forall i | 0 <= i < |w| :: IsSpace(w[i])
    ensures DayTypeHandler(m).dayType == "businessday"
  {
    var g := a + w + b;
    assert Req(m, 1) == g;
    LowerStripThree(a, w, b);
    StripLoweredSpaces(w);
    BusinessWord();
    DayWord();
    assert StripSpaces(ToLower(g)) == "business" + [] + "day";
    BusinessDayWord();
  }

  lemma BusinessDayWord()
    ensures "business" + [] + "day" == "businessday"
  {
  }

  /** Clock times as the clock rule's handler reads them. */
  lemma ClockTimeExamples()
    // "3pm", "2:30pm", "9:30am"
    ensures ClockTimeHandler([Some("3pm"), Some("3"), None, Some("pm")]) == TimeP(Clock(15, 0))
    ensures ClockTimeHandler([Some("2:30pm"), Some("2"), Some("30"), Some("pm")]) == TimeP(Clock(14, 30))
    ensures ClockTimeHandler([Some("9:30am"), Some("9"), Some("30"), Some("am")]) == TimeP(Clock(9, 30))
  {
    assert Meridiem("pm") == "pm" && Meridiem("am") == "am";
    ParseOneDigit("3");
    ParseOneDigit("2");
    ParseOneDigit("9");
    ParseTwoDigits("30");
  }

  /** Twelve o'clock in the dotted and upper-case meridiem forms: "12 a.m." is midnight. */
  lemma TwelveAm()
    ensures ClockTimeHandler([Some("12 a.m."), Some("12"), None, Some("a.m.")]) == TimeP(Clock(0, 0))
  {
    assert Meridiem("a.m.") == "am.";
    ParseTwoDigits("12");
  }

  /** "12 P.M." is noon. */
  lemma TwelvePm()
    ensures ClockTimeHandler([Some("12 P.M."), Some("12"), None, Some("P.M.")]) == TimeP(Clock(12, 0))
  {
    assert Meridiem("P.M.") == "pm.";
    ParseTwoDigits("12");
  }

  /** "11:45 p.m." is 23:45. */
  lemma ElevenFortyFivePm()
    ensures ClockTimeHandler([Some("11:45 p.m."), Some("11"), Some("45"), Some("p.m.")]) == TimeP(Clock(23, 45))
  {
    assert Meridiem("p.m.") == "pm.";
    ParseTwoDigits("11");
    ParseTwoDigits("45");
  }

  /** "noon" and "Midnight". */
  lemma NoonMidnightExamples()
    ensures NoonMidnightHandler([Some("noon"), Some("noon")]) == TimeP(Clock(12, 0))
    ensures NoonMidnightHandler([Some("Midnight"), Some("Midnight")]) == TimeP(Clock(0, 0))
  {
    assert ToLower("noon") == "noon" && ToLower("Midnight") == "midnight";
  }

  /** "between 2pm and 4pm" is 14:00 to 16:00. */
  lemma BetweenTwoAndFour()
    ensures TimeRangeHandler([Some("between 2pm and 4pm"), Some("2"), None, Some("pm"), Some("4"), None, Some("pm")])
         == TimeRangeP(Clock(14, 0), Clock(16, 0))
  {
    assert ToLower("pm") == "pm";
    ParseOneDigit("2");
    ParseOneDigit("4");
  }

  /** "from 9 to 5" keeps bare hours as written. */
  lemma FromNineToFive()
    ensures TimeRangeHandler([Some("from 9 to 5"), Some("9"), None, None, Some("5"), None, None])
         == TimeRangeP(Clock(9, 0), Clock(5, 0))
  {
    ParseOneDigit("9");
    ParseOneDigit("5");
  }

  // ---------------------------------------------------------------- the matcher's test phrases

  /**
   * "client meeting next week tuesday between 2pm and 4pm": the range wins over the
   * clock time "2pm", and the week-day phrase follows it.
   */
  lemma NextWeekTuesdayBetween(rec: Recogniser, input: string)
    requires input != ""
    requires rec(RelativeWeekDayRe, input).Some? && rec(ClockTimeRe, input).Some? && rec(TimeRangeRe, input).Some? && rec(NamedWeekdayRe, input).Some?
    requires rec(RelativeDayRe, input).None? && rec(EndOfPeriodRe, input).None? && rec(BusinessDayRe, input).None?
    requires rec(RecurringRe, input).None? && rec(MonthlyRe, input).None? && rec(NoonMidnightRe, input).None?
    requires rec(RelativeTimeRe, input).None? && rec(WeekdayWeekendRe, input).None? && rec(EndOfWeekRe, input).None?
    ensures Fired(rec, input) == [Catalogue[7], Catalogue[1]]
    ensures Kinds(MatchAll(rec, input)) == [TimeRange, RelativeWeekDay]
  {
    var f := true;
    CatalogueOrder(rec, input);
    assert SecondStep(rec, input, Catalogue[0], f) == [];
    assert SecondStep(rec, input, Catalogue[1], f) == [Catalogue[1]];
    assert SecondStep(rec, input, Catalogue[2], f) == [];
    assert SecondStep(rec, input, Catalogue[3], f) == [];
    assert SecondStep(rec, input, Catalogue[4], f) == [];
    assert SecondStep(rec, input, Catalogue[5], f) == [];
    assert SecondStep(rec, input, Catalogue[6], f) == [];
    assert SecondStep(rec, input, Catalogue[7], f) == [];
    assert SecondStep(rec, input, Catalogue[8], f) == [];
    assert SecondStep(rec, input, Catalogue[9], f) == [];
    assert SecondStep(rec, input, Catalogue[10], f) == [];
    MatchAllRecords(rec, input);
    assert RuleKinds([Catalogue[7], Catalogue[1]]) == [TimeRange, RelativeWeekDay];
  }

  /**
   * "submit report by end of next week": "next week" also matches the week-day rule,
   * which the "end of week" phrase suppresses.
   */
  lemma EndOfNextWeek(rec: Recogniser, input: string)
    requires input != ""
    requires rec(RelativeWeekDayRe, input).Some? && rec(EndOfPeriodRe, input).Some? && rec(EndOfWeekRe, input).Some?
    requires rec(RelativeDayRe, input).None? && rec(BusinessDayRe, input).None? && rec(ClockTimeRe, input).None?
    requires rec(RecurringRe, input).None? && rec(MonthlyRe, input).None? && rec(TimeRangeRe, input).None?
    requires rec(NoonMidnightRe, input).None? && rec(RelativeTimeRe, input).None? && rec(WeekdayWeekendRe, input).None?
    requires rec(NamedWeekdayRe, input).None?
    ensures Fired(rec, input) == [Catalogue[2]]
    ensures Kinds(MatchAll(rec, input)) == [RelativeWeek]
  {
    var f := false;
    CatalogueOrder(rec, input);
    assert SecondStep(rec, input, Catalogue[0], f) == [];
    assert SecondStep(rec, input, Catalogue[1], f) == [];
    assert SecondStep(rec, input, Catalogue[2], f) == [Catalogue[2]];
    assert SecondStep(rec, input, Catalogue[3], f) == [];
    assert SecondStep(rec, input, Catalogue[4], f) == [];
    assert SecondStep(rec, input, Catalogue[5], f) == [];
    assert SecondStep(rec, input, Catalogue[6], f) == [];
    assert SecondStep(rec, input, Catalogue[7], f) == [];
    assert SecondStep(rec, input, Catalogue[8], f) == [];
    assert SecondStep(rec, input, Catalogue[9], f) == [];
    assert SecondStep(rec, input, Catalogue[10], f) == [];
    MatchAllRecords(rec, input);
    assert RuleKinds([Catalogue[2]]) == [RelativeWeek];
  }

  /**
   * "monthly report on the last friday": "last friday" also matches the week-day rule,
   * which the monthly phrase suppresses.
   */
  lemma MonthlyLastFriday(rec: Recogniser, input: string)
    requires input != ""
    requires rec(MonthlyRe, input).Some? && rec(RelativeWeekDayRe, input).Some? && rec(NamedWeekdayRe, input).Some?
    requires rec(RelativeDayRe, input).None? && rec(EndOfPeriodRe, input).None? && rec(BusinessDayRe, input).None?
    requires rec(ClockTimeRe, input).None? && rec(RecurringRe, input).None? && rec(TimeRangeRe, input).None?
    requires rec(NoonMidnightRe, input).None? && rec(RelativeTimeRe, input).None? && rec(WeekdayWeekendRe, input).None?
    requires rec(EndOfWeekRe, input).None?
    ensures Fired(rec, input) == [Catalogue[6]]
    ensures Kinds(MatchAll(rec, input)) == [Recurring]
  {
    var f := false;
    CatalogueOrder(rec, input);
    assert SecondStep(rec, input, Catalogue[0], f) == [];
    assert SecondStep(rec, input, Catalogue[1], f) == [];
    assert SecondStep(rec, input, Catalogue[2], f) == [];
    assert SecondStep(rec, input, Catalogue[3], f) == [];
    assert SecondStep(rec, input, Catalogue[4], f) == [];
    assert SecondStep(rec, input, Catalogue[5], f) == [];
    assert SecondStep(rec, input, Catalogue[6], f) == [Catalogue[6]];
    assert SecondStep(rec, input, Catalogue[7], f) == [];
    assert SecondStep(rec, input, Catalogue[8], f) == [];
    assert SecondStep(rec, input, Catalogue[9], f) == [];
    assert SecondStep(rec, input, Catalogue[10], f) == [];
    MatchAllRecords(rec, input);
    assert RuleKinds([Catalogue[6]]) == [Recurring];
  }

  /** "meeting tomorrow at 3pm": both records, in catalogue order. */
  lemma TomorrowAtThree(rec: Recogniser, input: string)
    requires input != ""
    requires rec(RelativeDayRe, input).Some? && rec(ClockTimeRe, input).Some?
    requires rec(RelativeWeekDayRe, input).None? && rec(EndOfPeriodRe, input).None? && rec(BusinessDayRe, input).None?
    requires rec(RecurringRe, input).None? && rec(MonthlyRe, input).None? && rec(TimeRangeRe, input).None?
    requires rec(NoonMidnightRe, input).None? && rec(RelativeTimeRe, input).None? && rec(WeekdayWeekendRe, input).None?
    requires rec(EndOfWeekRe, input).None? && rec(NamedWeekdayRe, input).None?
    ensures Fired(rec, input) == [Catalogue[0], Catalogue[4]]
    ensures Kinds(MatchAll(rec, input)) == [RelativeDay, SpecificTime]
  {
    var f := false;
    CatalogueOrder(rec, input);
    assert SecondStep(rec, input, Catalogue[0], f) == [Catalogue[0]];
    assert SecondStep(rec, input, Catalogue[1], f) == [];
    assert SecondStep(rec, input, Catalogue[2], f) == [];
    assert SecondStep(rec, input, Catalogue[3], f) == [];
    assert SecondStep(rec, input, Catalogue[4], f) == [Catalogue[4]];
    assert SecondStep(rec, input, Catalogue[5], f) == [];
    assert SecondStep(rec, input, Catalogue[6], f) == [];
    assert SecondStep(rec, input, Catalogue[7], f) == [];
    assert SecondStep(rec, input, Catalogue[8], f) == [];
    assert SecondStep(rec, input, Catalogue[9], f) == [];
    assert SecondStep(rec, input, Catalogue[10], f) == [];
    MatchAllRecords(rec, input);
    assert RuleKinds([Catalogue[0], Catalogue[4]]) == [RelativeDay, SpecificTime];
  }

  /** "team lunch every tuesday and thursday at noon": the recurrence, then the time. */
  lemma EveryTuesdayAtNoon(rec: Recogniser, input: string)
    requires input != ""
    requires rec(RecurringRe, input).Some? && rec(NoonMidnightRe, input).Some?
    requires rec(RelativeDayRe, input).None? && rec(RelativeWeekDayRe, input).None? && rec(EndOfPeriodRe, input).None?
    requires rec(BusinessDayRe, input).None? && rec(ClockTimeRe, input).None? && rec(MonthlyRe, input).None?
    requires rec(TimeRangeRe, input).None? && rec(RelativeTimeRe, input).None? && rec(WeekdayWeekendRe, input).None?
    requires rec(EndOfWeekRe, input).None? && rec(NamedWeekdayRe, input).None?
    ensures Fired(rec, input) == [Catalogue[5], Catalogue[8]]
    ensures Kinds(MatchAll(rec, input)) == [Recurring, SpecificTime]
  {
    var f := false;
    CatalogueOrder(rec, input);
    assert SecondStep(rec, input, Catalogue[0], f) == [];
    assert SecondStep(rec, input, Catalogue[1], f) == [];
    assert SecondStep(rec, input, Catalogue[2], f) == [];
    assert SecondStep(rec, input, Catalogue[3], f) == [];
    assert SecondStep(rec, input, Catalogue[4], f) == [];
    assert SecondStep(rec, input, Catalogue[5], f) == [Catalogue[5]];
    assert SecondStep(rec, input, Catalogue[6], f) == [];
    assert SecondStep(rec, input, Catalogue[7], f) == [];
    assert SecondStep(rec, input, Catalogue[8], f) == [Catalogue[8]];
    assert SecondStep(rec, input, Catalogue[9], f) == [];
    assert SecondStep(rec, input, Catalogue[10], f) == [];
    MatchAllRecords(rec, input);
    assert RuleKinds([Catalogue[5], Catalogue[8]]) == [Recurring, SpecificTime];
  }
}
