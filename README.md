# 2do_backend core, modelled in Dafny

This is a model of the parts of the 2do task backend that carry logic, with proofs about them:

- **Matcher.** The temporal-phrase matcher `DateTimePatterns.matchPattern` has eleven catalogue rules, two passes, three suppression rules, the rule handlers and a memo table.
- **Resolver.** The date resolver `DateTimeResolver.resolveFromPatterns` folds the records into one mutable `Date` and has an end-of-day post-pass.
- **Feedback analytics.** This covers error categorisation, grouping of failed logs into buckets, the rates, the insights and the recommendations.
- **Task helpers.** These are `findRelatedTasks` and `getCategoryDistribution`.
- **Notification list.** This is the in-memory list in `server.js`: storing, mark-read and clear.
- **Parsing-log model.** This covers its validators, `getSafeData`, the redaction `anonymizeText` and the `beforeValidate` hook.

Modules:

| module | file | models |
|---|---|---|
| `Wrappers` | wrappers.dfy | `Option` |
| `Text` | text.dfy | the JavaScript string operations used: `toLowerCase` (ASCII), `includes`, `replace(/\s+/g, "")`, `replace(".", "")`, `startsWith`, `parseInt` on digits |
| `Calendar` | calendar.dfy | the `Date` getters and setters with their roll-over, in one fixed time zone, and a mutable `JsDate` class |
| `DateTimePatterns` | date_time_patterns.dfy | the catalogue, the handlers, the two passes and the memo table (class `DateTimePatterns`) |
| `DateTimePatternCases` | date_time_pattern_cases.dfy | the handlers and the record kinds on the phrases of utils/DateTimePatternTests.js |
| `DateTimeResolver` | date_time_resolver.dfy | the record fold, as specification functions and as the imperative class |
| `FeedbackProcessor` | feedback_processor.dfy | the analytics, as specification functions and as the imperative class |
| `TaskPatternAnalysis` | task_pattern_analysis.dfy | keyword search and tag distribution |
| `Server` | server.dfy | the notification list (class `NotificationStore`) |
| `TaskParsingLog` | task_parsing_log.dfy | validators, redaction, `getSafeData`, the hook (class `LogRecord`) |

Modelling choices:

- **Clock.** In the resolver and the notification list, `new Date()` and `Date.now()` are parameters (`now`), and so is the ISO timestamp string. The analysis timestamp of `analyzeLogs` is left out.
- **Resolver output.** The resolver returns the instant itself, standing for its `toISOString()` text.
- **Matcher regexes.** The matcher's regular expressions are abstract. A `Recogniser` function stands for the non-global `input.match(regex)` and returns the capture array. Every matcher lemma holds for every recogniser.
- **Redaction regexes.** `anonymizeText` is the exception. Its three expressions (email, 3-3-4 phone number, whole-word name in any case) are written out as recognisers. Each follows the leftmost match, with the backtracking the JavaScript engine performs.
- **SHA-256.** The digest is a parameter `sha256Hex` of the hook.
- **Numbers.** The feedback ratios are exact `real`s. The distribution's percentage rounds the exact ratio, with halves up; floating-point error is not modelled.

Where the code and its tests disagree, the model follows the code:

- **Metadata fixture.** The test fixture's metadata names the model "gemini-1.5-flash" (tests/TaskParsingLog.test.js:38). The validator allows only the three GPT models (models/TaskParsingLog.js:130-137), so that fixture is rejected (`MetadataFixtureFails`).
- **input_hash.** The first create test expects the given `input_hash` to be kept (tests/TaskParsingLog.test.js:48). The hook overwrites it with the digest whenever `anonymized_input` is truthy (models/TaskParsingLog.js:150-154), and the model does the same (`LogRecord.BeforeValidate`).
- **Record shapes.** The resolver reads its own record shape: `pattern.hour`, `pattern.ampm`, and the types `specific_day`, `relative_specific_day`, `relative_date`, `this_day`. This is not what the matcher emits; for example, the matcher's `time.hour` is nested. Each module models its own file as written, and no bridge between them is invented.
- **Frequency.** The matcher's frequency test is case-sensitive and tests "day" first (utils/DateTimePatterns.js:65). So "every friday" recurs daily (`WeekdayUnitsDaily`), although the test at utils/DateTimePatternTests.js:38-40 calls it a weekly meeting. That test checks only the record types.

## Model

| member | source | states |
|---|---|---|
| Text.ToLower | utils/DateTimePatterns.js:10 | lower-casing keeps the length |
| Text.ToLowerNoUpper | utils/DateTimePatterns.js:10 | no upper-case letter survives lower-casing |
| Text.ToLowerAt | utils/DateTimePatterns.js:10 | each character is lowered on its own, in place |
| Text.LowerFixed | utils/DateTimePatterns.js:65-79 | a string without upper-case letters is its own lower case |
| Text.StripSpaces | utils/DateTimePatterns.js:40 | `replace(/\s+/g, "")` is no longer than its input |
| Text.StripSpacesNoSpace | utils/DateTimePatterns.js:40 | no white space survives stripping |
| Text.StripNoSpaces | utils/DateTimePatterns.js:40 | a string without white space comes back unchanged |
| Text.StripSpacesAppend | utils/DateTimePatterns.js:40 | stripping distributes over concatenation, so the other characters keep their order |
| Text.RemoveFirstLength | utils/DateTimePatterns.js:50 | `replace(".", "")` removes exactly one character when the string has a dot, and none otherwise |
| Text.ParseTwoDigits | utils/DateTimePatterns.js:48-49 | `parseInt` of one or two digits is their decimal value |
| Text.Absent | utils/DateTimePatterns.js:65-79 | `includes` is false for a longer pattern, or for one whose first letter is missing |
| Calendar.Normalize | utils/DateTimeResolver.js:27 | a day of month outside its month rolls into a valid date with the same day number, as `setDate` does |
| Calendar.DayOfInjective | utils/DateTimeResolver.js:27 | a valid date is determined by its day number |
| Calendar.Weekday | utils/DateTimeResolver.js:35 | `getDay()` lies in 0..6 |
| Calendar.ShiftDays | utils/DateTimeResolver.js:27-29 | `setDate(getDate() + k)` moves the day number by exactly k and keeps the clock |
| Calendar.WeekdayShift | utils/DateTimeResolver.js:35-36 | moving k days moves the weekday by k modulo 7 |
| Calendar.ShiftClock | utils/DateTimeResolver.js:45-49 | adding hours or minutes through the setters moves the time value by exactly that many milliseconds, across day boundaries |
| Calendar.SetClockFields | utils/DateTimeResolver.js:95 | `setHours(23, 59, 59, 999)` keeps the day and reads back those four fields |
| Calendar.SetHoursFields | utils/DateTimeResolver.js:52 | `setHours(h)` for an hour of the day keeps the day, the minutes, the seconds and the milliseconds |
| Calendar.SetMinutesFields | utils/DateTimeResolver.js:53 | `setMinutes(m)` for a minute of the hour keeps the day, the hour, the seconds and the milliseconds |
| Calendar.SetMonthFits | utils/DateTimeResolver.js:41 | `setMonth(m)` carries whole years and keeps the day when the target month has it |
| Calendar.SetFullYearFits | utils/DateTimeResolver.js:40 | `setFullYear(y)` keeps month and day when the year has that day |
| Calendar.JsDate.SetDate | utils/DateTimeResolver.js:27 | the new value is `WithDate` of the old one |
| Calendar.JsDate.SetMonth | utils/DateTimeResolver.js:79 | the new value is `WithMonth` of the old one |
| Calendar.JsDate.SetFullYear | utils/DateTimeResolver.js:81 | the new value is `WithFullYear` of the old one |
| Calendar.JsDate.SetHours | utils/DateTimeResolver.js:46 | the new value is `WithHours` of the old one |
| Calendar.JsDate.SetMinutes | utils/DateTimeResolver.js:48 | the new value is `WithMinutes` of the old one |
| Calendar.JsDate.SetClock | utils/DateTimeResolver.js:95 | the new value is `WithClock` of the old one |
| DateTimePatterns.DateTimePatterns.MatchPattern | utils/DateTimePatterns.js:153-224 | returns the two passes' result; empty input gives [] and writes no memo entry; a memoised input returns the stored list; otherwise the result is stored under the input; every memo entry stays what the passes compute for its key |
| DateTimePatterns.DateTimePatterns.RunPasses | utils/DateTimePatterns.js:162-220 | the first loop's records followed by the second loop's are exactly the matcher's result for the input |
| DateTimePatterns.DateTimePatterns.FindTimeRanges | utils/DateTimePatterns.js:166-177 | the first loop pushes exactly the records of the matching time-range rules, in catalogue order |
| DateTimePatterns.DateTimePatterns.FindOthers | utils/DateTimePatterns.js:180-220 | the second loop pushes exactly the records of the second pass: no time range, no clock time once a range was found, the three suppressions |
| DateTimePatterns.DateTimePatterns.constructor | utils/DateTimePatterns.js:2-151 | the rule list is the catalogue and the memo table is empty |
| DateTimePatterns.FirstPassRules | utils/DateTimePatterns.js:166-177 | a rule is in the first pass iff it is a visited time-range rule whose regex matches |
| DateTimePatterns.SecondPassRules | utils/DateTimePatterns.js:180-220 | a rule is in the second pass iff it is visited, is not a time range, is not a clock time after a range, matches and is not suppressed |
| DateTimePatterns.PassesBound | utils/DateTimePatterns.js:166-185 | each rule contributes at most one record: the passes are no longer than the rules visited |
| DateTimePatterns.MatchAllBound | utils/DateTimePatterns.js:4-150 | at most 11 records, one per catalogue rule |
| DateTimePatterns.CatalogueKinds | utils/DateTimePatterns.js:4-150 | the catalogue's rule types by position, e.g. the time range is rule 7 and the two clock-time rules are 4 and 8 |
| DateTimePatterns.FirstPassCatalogue | utils/DateTimePatterns.js:166-177 | the first pass over the catalogue is the time-range rule when its regex matched, else nothing |
| DateTimePatterns.CatalogueOrder | utils/DateTimePatterns.js:162-223 | the output is the time range, if matched, then one slot per rule in catalogue order, each kept by the second-pass test |
| DateTimePatterns.MatchAllRecords | utils/DateTimePatterns.js:171-174 | record i is `{type, ...handler(match)}` of the i-th rule that fired, and the record types are the fired rules' types |
| DateTimePatterns.RecordKinds | utils/DateTimePatterns.js:214-217 | each record carries the type of the rule that emitted it |
| DateTimePatterns.FiredRules | utils/DateTimePatterns.js:162-220 | a rule fires iff it is the matching time range or the second pass keeps it |
| DateTimePatterns.RecordOrigin | utils/DateTimePatterns.js:171-174 | every output record comes from a catalogue rule that fired |
| DateTimePatterns.RecordOfFired | utils/DateTimePatterns.js:214-217 | a fired rule's record is in the output |
| DateTimePatterns.HasKindFired | utils/DateTimePatterns.js:162-223 | the output has a record of a type iff a rule of that type fired |
| DateTimePatterns.TimeRangeFirst | utils/DateTimePatterns.js:166-177 | a time range comes first, there is at most one, and it is there iff its regex matched a non-empty input |
| DateTimePatterns.RangeExcludesClockTime | utils/DateTimePatterns.js:181-184 | with a time range present, no `specific_time` record appears |
| DateTimePatterns.KindPresence | utils/DateTimePatterns.js:180-220 | any other type is present iff the second pass keeps a rule of that type |
| DateTimePatterns.RelativeDayPresence | utils/DateTimePatterns.js:180-186 | `relative_day` is present iff its regex matches a non-empty input |
| DateTimePatterns.SpecificTimePresence | utils/DateTimePatterns.js:183 | a clock time is present iff a clock-time rule matches and the time range does not |
| DateTimePatterns.RelativeWeekDayPresence | utils/DateTimePatterns.js:188-213 | `relative_week_day` is present iff its regex matches and neither the "end of week" nor the monthly phrase does |
| DateTimePatterns.RelativeWeekPresence | utils/DateTimePatterns.js:197-204 | `relative_week` is present iff its regex matches and no "next/last/this/coming [week] weekday" phrase does |
| DateTimePatterns.EndOfWeekSuppressesWeekDay | utils/DateTimePatterns.js:188-195 | an "end of [the] [next] week" phrase suppresses `relative_week_day` |
| DateTimePatterns.NamedWeekdaySuppressesWeek | utils/DateTimePatterns.js:197-204 | a named weekday phrase suppresses `relative_week` |
| DateTimePatterns.MonthlySuppressesWeekDay | utils/DateTimePatterns.js:206-213 | the monthly phrase suppresses `relative_week_day` |
| DateTimePatterns.MonthlyRecord | utils/DateTimePatterns.js:85-95 | a monthly phrase always yields its recurring record: monthly, its lower-cased day, position defaulting to "last" |
| DateTimePatterns.RelativeWeekRecords | utils/DateTimePatterns.js:29-33 | every `relative_week` record has position "end" and modifier "next" |
| DateTimePatterns.RelativeWeekDayRecords | utils/DateTimePatterns.js:18-22 | every `relative_week_day` record names a day starting "next " |
| DateTimePatterns.RelativeWeekDayStartsNext | utils/DateTimePatterns.js:19-21 | the handler rewrites last/this/coming to "next week …" or "next …" |
| DateTimePatterns.ConvertHourTwelveHourClock | utils/DateTimePatterns.js:48-52 | hours 1..12 with pm become 13..23 and 12, with am 1..11 and 0; without a meridiem the hour is kept |
| DateTimePatterns.MeridiemFirstLetter | utils/DateTimePatterns.js:50-52 | the clock handler tests the meridiem's first letter in either case and dotted form |
| DateTimePatterns.ConvertHour | utils/DateTimePatterns.js:51-52 | the pm/am corrections map an hour of the day to an hour of the day |
| DateTimePatterns.RelativeDayHandler | utils/DateTimePatterns.js:9-11 | computes `relative_day`: the first capture in lower case |
| DateTimePatterns.RelativeWeekDayHandler | utils/DateTimePatterns.js:18-22 | computes `relative_day`: "next week " and the first capture, else "next " and the second capture or "week", in lower case |
| DateTimePatterns.EndOfPeriodHandler | utils/DateTimePatterns.js:29-33 | computes the period in lower case without white space, with position "end" and modifier "next" |
| DateTimePatterns.DayTypeHandler | utils/DateTimePatterns.js:39-41 | computes `day_type`: the capture in lower case without white space; the weekday/weekend rule uses the same handler |
| DateTimePatterns.ClockTimeHandler | utils/DateTimePatterns.js:47-56 | computes `time`: the parsed hour after the meridiem corrections, and the minutes or 0 |
| DateTimePatterns.FrequencyOf | utils/DateTimePatterns.js:65-71 | computes the frequency: daily when the unit contains day, morning or evening, else weekly when it contains week or a weekday name, else monthly; the tests are case-sensitive |
| DateTimePatterns.RecurringHandler | utils/DateTimePatterns.js:63-82 | computes `recurrence`: the frequency, `day` for a weekday unit, `timeContext` for morning or evening, `additionalDay` from the second capture |
| DateTimePatterns.MonthlyHandler | utils/DateTimePatterns.js:89-95 | computes the monthly recurrence with the lower-cased day and position, the position defaulting to "last" |
| DateTimePatterns.RangeBound | utils/DateTimePatterns.js:103-111 | computes `parseTime`: the parsed hour after the pm/am corrections, and the minutes or 0 |
| DateTimePatterns.TimeRangeHandler | utils/DateTimePatterns.js:112-117 | computes the range's start from captures 1-3 and its end from captures 4-6 |
| DateTimePatterns.NoonMidnightHandler | utils/DateTimePatterns.js:124-129 | computes 12:00 for noon and 0:00 otherwise |
| DateTimePatterns.RelativeTimeHandler | utils/DateTimePatterns.js:135-140 | computes the parsed amount and the lower-cased unit |
| DateTimePatterns.Handle | utils/DateTimePatterns.js:4-150 | computes the handler of each catalogue rule on its captures |
| DateTimePatterns.Fire | utils/DateTimePatterns.js:171-174 | computes `{type, ...handler(match)}` for one rule |
| DateTimePatterns.FirstPass | utils/DateTimePatterns.js:166-177 | computes the rules the first loop emits: the visited time-range rules whose regex matches |
| DateTimePatterns.Suppressed | utils/DateTimePatterns.js:187-213 | holds for the three skips: end-of-week and monthly phrases for `relative_week_day`, named weekdays for `relative_week` |
| DateTimePatterns.SecondPass | utils/DateTimePatterns.js:180-220 | computes the rules the second loop emits: considered, matched and not suppressed |
| DateTimePatterns.Fired | utils/DateTimePatterns.js:153-220 | computes the rules that fire: none for empty input, else the first pass followed by the second pass |
| DateTimePatterns.Records | utils/DateTimePatterns.js:171-217 | one record per fired rule |
| DateTimePatterns.MatchAll | utils/DateTimePatterns.js:162-223 | computes the result without a memo entry: the record of each fired rule, in firing order |
| DateTimePatternCases.DailyUnits | utils/DateTimePatterns.js:65-66 | "day", "morning" and "evening" recur daily |
| DateTimePatternCases.WeekdayUnitsDaily | utils/DateTimePatterns.js:65 | every weekday name contains "day", so recurs daily |
| DateTimePatternCases.WeekUnit | utils/DateTimePatterns.js:67-70 | "week" recurs weekly |
| DateTimePatternCases.MonthUnit | utils/DateTimePatterns.js:71 | "month" recurs monthly |
| DateTimePatternCases.RecurringWeekdayFields | utils/DateTimePatterns.js:72-79 | a weekday unit sets `day` to that weekday and no `timeContext` |
| DateTimePatternCases.RecurringTimeOfDayFields | utils/DateTimePatterns.js:65-79 | "morning"/"evening" set `timeContext`, no `day`, and recur daily |
| DateTimePatternCases.RecurringPlainFields | utils/DateTimePatterns.js:72-79 | "day", "week" and "month" set neither `day` nor `timeContext` |
| DateTimePatternCases.BusinessDayNormalised | utils/DateTimePatterns.js:37-41 | "business day" in any case with any white space between becomes "businessday" |
| DateTimePatternCases.ClockTimeExamples | utils/DateTimePatterns.js:47-56 | 3pm is 15:00, 2:30pm is 14:30, 9:30am is 9:30 |
| DateTimePatternCases.TwelveAm | utils/DateTimePatterns.js:50-52 | "12 a.m." is 0:00 |
| DateTimePatternCases.TwelvePm | utils/DateTimePatterns.js:50-52 | "12 P.M." is 12:00 |
| DateTimePatternCases.ElevenFortyFivePm | utils/DateTimePatterns.js:47-56 | "11:45 p.m." is 23:45 |
| DateTimePatternCases.NoonMidnightExamples | utils/DateTimePatterns.js:124-129 | noon is 12:00 and midnight 0:00 |
| DateTimePatternCases.BetweenTwoAndFour | utils/DateTimePatterns.js:102-117 | "between 2pm and 4pm" is 14:00 to 16:00 |
| DateTimePatternCases.FromNineToFive | utils/DateTimePatterns.js:103-110 | range bounds without a meridiem are unchanged |
| DateTimePatternCases.NextWeekTuesdayBetween | utils/DateTimePatternTests.js:78-82 | the range comes first and suppresses the clock time "2pm"; the week-day record follows |
| DateTimePatternCases.EndOfNextWeek | utils/DateTimePatternTests.js:25-29 | only `relative_week`: the week-day match is suppressed |
| DateTimePatternCases.MonthlyLastFriday | utils/DateTimePatternTests.js:42-46 | only `recurring`: "last friday" is suppressed by the monthly phrase |
| DateTimePatternCases.TomorrowAtThree | utils/DateTimePatternTests.js:10-14 | `relative_day` then `specific_time`, in catalogue order |
| DateTimePatternCases.EveryTuesdayAtNoon | utils/DateTimePatternTests.js:73-77 | `recurring` then `specific_time` |
| DateTimeResolver.IndexOf | utils/DateTimeResolver.js:33 | `indexOf` gives the first index holding the name, and -1 iff it is absent |
| DateTimeResolver.AddDays | utils/DateTimeResolver.js:27 | `setDate(getDate() + k)` gives a valid date |
| DateTimeResolver.RelativeDayMove | utils/DateTimeResolver.js:24-30 | the `relative_day` branch gives a valid date |
| DateTimeResolver.ToNamedDay | utils/DateTimeResolver.js:31-37 | the named-weekday move gives a valid date |
| DateTimeResolver.RelativeWeeks | utils/DateTimeResolver.js:65-69 | computes the extra days: 7 for "next", -7 for "last", else 0 |
| DateTimeResolver.SpecificDateMove | utils/DateTimeResolver.js:38-42 | `setFullYear`, `setMonth(month - 1)` and `setDate` in that order give a valid date |
| DateTimeResolver.RelativeTimeMove | utils/DateTimeResolver.js:43-49 | the `relative_time` branch gives a valid date |
| DateTimeResolver.SetTime | utils/DateTimeResolver.js:50-59 | the four setter calls of the `specific_time` branch give a valid date |
| DateTimeResolver.RelativeDateMove | utils/DateTimeResolver.js:72-82 | the `relative_date` branch gives a valid date |
| DateTimeResolver.Step | utils/DateTimeResolver.js:24-90 | one loop iteration keeps the date valid |
| DateTimeResolver.Fold | utils/DateTimeResolver.js:23-91 | the loop over the records, in list order, keeps the date valid |
| DateTimeResolver.Finish | utils/DateTimeResolver.js:94-96 | the end-of-day post-pass keeps the date valid |
| DateTimeResolver.Resolve | utils/DateTimeResolver.js:14-98 | null iff the argument is missing or the list is empty; otherwise the post-pass of the fold from the current time with both flags unset |
| DateTimeResolver.RelativeDayEffect | utils/DateTimeResolver.js:24-30 | tomorrow adds one day, yesterday subtracts one, anything else moves nothing; the clock is kept |
| DateTimeResolver.NamedDayEffect | utils/DateTimeResolver.js:60-71 | a known name moves forward 0..6 days plus the extra, onto the named weekday for whole weeks; an unknown name moves nothing |
| DateTimeResolver.DayDiffLands | utils/DateTimeResolver.js:35 | `(dayIndex - getDay() + 7) % 7` lies in 0..6 and, with whole weeks added, reaches the named weekday |
| DateTimeResolver.NamedWeekdayEffect | utils/DateTimeResolver.js:31-37 | `specific_day` and `this_day` land on the named weekday 0..6 days ahead (Sunday = 0); an unknown name moves nothing |
| DateTimeResolver.RelativeWeekdayEffect | utils/DateTimeResolver.js:60-71 | "next" lands 7..13 days ahead, "last" 1..7 back, otherwise 0..6 ahead, on the named weekday |
| DateTimeResolver.SpecificTimeEffect | utils/DateTimeResolver.js:50-59 | the hour after the pm/am corrections, the minute, and the day, seconds and milliseconds kept |
| DateTimeResolver.RelativeTimeEffect | utils/DateTimeResolver.js:43-49 | only hours and minutes move the time value, by exactly that amount |
| DateTimeResolver.RelativeDateEffect | utils/DateTimeResolver.js:72-82 | days and weeks move the day number by amount and 7×amount; months and years follow `setMonth`/`setFullYear`; another unit moves nothing |
| DateTimeResolver.SpecificDateEffect | utils/DateTimeResolver.js:38-42 | year, 1-based month and day are set and the clock kept, when no month overflow happens on the way |
| DateTimeResolver.StepFlags | utils/DateTimeResolver.js:23-91 | one record sets `hasDate` iff it is of a date type and `hasTime` iff of a time type |
| DateTimeResolver.FoldFlags | utils/DateTimeResolver.js:20-23 | after the loop, each flag is set iff some record is of its kind |
| DateTimeResolver.FoldAppend | utils/DateTimeResolver.js:23 | records apply in list order |
| DateTimeResolver.StepUnlisted | utils/DateTimeResolver.js:23-91 | a record of an unlisted type changes nothing |
| DateTimeResolver.FoldUnlisted | utils/DateTimeResolver.js:23-91 | records of unlisted types leave date and flags as they were |
| DateTimeResolver.FinishEffect | utils/DateTimeResolver.js:94-96 | date without time gives 23:59:59.999 of that day; otherwise the date is untouched |
| DateTimeResolver.ResolveCurrentTime | utils/DateTimeResolver.js:15-19 | a missing argument or an empty list gives null; only unlisted records give the current time unchanged |
| DateTimeResolver.DateTimeResolver.ResolveFromPatterns | utils/DateTimeResolver.js:14-99 | the loop computes the fold and the post-pass; null iff the argument is missing or the list is empty |
| DateTimeResolver.DateTimeResolver.Apply | utils/DateTimeResolver.js:24-90 | one loop body is one `Step` on the date and the flags |
| DateTimeResolver.DateTimeResolver.MoveRelativeDay | utils/DateTimeResolver.js:24-30 | the date becomes `RelativeDayMove` of the old date |
| DateTimeResolver.DateTimeResolver.MoveToWeekday | utils/DateTimeResolver.js:31-37 | the date becomes the named-weekday move without an extra week |
| DateTimeResolver.DateTimeResolver.MoveToDate | utils/DateTimeResolver.js:38-42 | the date becomes `SpecificDateMove` of the old date |
| DateTimeResolver.DateTimeResolver.MoveClock | utils/DateTimeResolver.js:43-49 | the date becomes `RelativeTimeMove` of the old date |
| DateTimeResolver.DateTimeResolver.MoveDate | utils/DateTimeResolver.js:72-82 | the date becomes `RelativeDateMove` of the old date |
| DateTimeResolver.DateTimeResolver.AdvanceDays | utils/DateTimeResolver.js:75 | `setDate(getDate() + k)` makes the date `AddDays` of the old one |
| DateTimeResolver.DateTimeResolver.AdvanceMonths | utils/DateTimeResolver.js:79 | `setMonth(getMonth() + k)` makes the date `WithMonth` of the old one |
| DateTimeResolver.DateTimeResolver.AdvanceYears | utils/DateTimeResolver.js:81 | `setFullYear(getFullYear() + k)` makes the date `WithFullYear` of the old one |
| DateTimeResolver.DateTimeResolver.MoveToRelativeWeekday | utils/DateTimeResolver.js:62-70 | the date becomes the named-weekday move with the extra week |
| DateTimeResolver.DateTimeResolver.SetClockTime | utils/DateTimeResolver.js:52-59 | the date becomes `SetTime` of the old date |
| DateTimeResolver.DateTimeResolver.constructor | utils/DateTimeResolver.js:2-12 | `dayNames` runs from Sunday to Saturday |
| FeedbackProcessor.Categorize | utils/FeedbackProcessor.js:133-145 | "Unknown Error" iff the error is absent or the empty string |
| FeedbackProcessor.CategorizeStringOrObject | utils/FeedbackProcessor.js:136 | a string and an object with that message categorise alike |
| FeedbackProcessor.CategorizeEmpty | utils/FeedbackProcessor.js:134-136 | "" is Unknown Error, an object with an empty message is Other Error |
| FeedbackProcessor.CategorizeDateFirst | utils/FeedbackProcessor.js:139-140 | a message with both "date" and "time" is a date error |
| FeedbackProcessor.CategorizeCaseSensitive | utils/FeedbackProcessor.js:139-142 | "INVALID DATE" is Other Error |
| FeedbackProcessor.CategoryNamesDistinct | utils/FeedbackProcessor.js:134-144 | distinct categories have distinct key strings |
| FeedbackProcessor.Category | utils/FeedbackProcessor.js:102-105 | computes a log's category from its errors |
| FeedbackProcessor.Entries | utils/FeedbackProcessor.js:100-121 | one entry (category, time, input) per failed log |
| FeedbackProcessor.Keys | utils/FeedbackProcessor.js:107-113 | computes the categories in order of first appearance |
| FeedbackProcessor.Accumulated | utils/FeedbackProcessor.js:115-122 | computes a category's bucket: its count, its summed time and its first three inputs |
| FeedbackProcessor.Averaged | utils/FeedbackProcessor.js:126-128 | computes the bucket with its time divided by its count |
| FeedbackProcessor.Grouped | utils/FeedbackProcessor.js:100-128 | computes the keys and, for each, the averaged bucket |
| FeedbackProcessor.PatternsOf | utils/FeedbackProcessor.js:97-131 | computes `analyzeErrorPatterns`: the grouping of the failed logs' entries |
| FeedbackProcessor.GroupingProperties | utils/FeedbackProcessor.js:100-116 | the keys are distinct and exactly the buckets; every failed log's category has a bucket; the counts sum to the number of failed logs |
| FeedbackProcessor.CountsSum | utils/FeedbackProcessor.js:107-115 | the per-category counts over the keys sum to the number of entries |
| FeedbackProcessor.KeysDistinct | utils/FeedbackProcessor.js:107-113 | each category is a key at most once |
| FeedbackProcessor.InputsCounted | utils/FeedbackProcessor.js:115-122 | a category has as many inputs as it has logs |
| FeedbackProcessor.AveragedGroups | utils/FeedbackProcessor.js:126-128 | averaging the summed buckets of exactly the keys gives the grouping |
| FeedbackProcessor.BucketContents | utils/FeedbackProcessor.js:115-128 | a bucket counts its category's logs, keeps their first three inputs in input order, and holds their average time (missing time counted as 0) |
| FeedbackProcessor.KeysMembership | utils/FeedbackProcessor.js:107-113 | a category is a key iff some failed log has it |
| FeedbackProcessor.AccumulateStep | utils/FeedbackProcessor.js:115-122 | one more log changes only its bucket: count + 1, time added, input kept while fewer than three are |
| FeedbackProcessor.Failed | utils/FeedbackProcessor.js:38 | there are total minus successful failed logs, and none of them succeeded |
| FeedbackProcessor.FailedMembers | utils/FeedbackProcessor.js:38 | the failed logs are exactly the unsuccessful ones |
| FeedbackProcessor.CountSuccessful | utils/FeedbackProcessor.js:31-33 | the successful logs are at most all logs |
| FeedbackProcessor.SuccessRate | utils/FeedbackProcessor.js:34 | computes successful / total, and 0 for an empty window |
| FeedbackProcessor.ErrorRate | utils/FeedbackProcessor.js:35 | computes one minus the success rate |
| FeedbackProcessor.AvgConfidence | utils/FeedbackProcessor.js:70-76 | computes the successful logs' summed confidence (missing counted as 0) over their number, and 0 when there are none |
| FeedbackProcessor.RateProperties | utils/FeedbackProcessor.js:30-35 | success rate in [0,1]; empty window has error rate 1; error rate > 0.2 iff five times the failures exceeds the total |
| FeedbackProcessor.InsightsOfKind | utils/FeedbackProcessor.js:151-183 | warning iff sample < 100, critical iff error rate > 0.2, and the pattern insights |
| FeedbackProcessor.PatternInsights | utils/FeedbackProcessor.js:171-183 | computes one pattern insight per key, in key order, whose count exceeds a tenth of the sample |
| FeedbackProcessor.Insights | utils/FeedbackProcessor.js:147-186 | computes the warning when the sample is under 100, then the critical insight when the error rate exceeds 0.2, then the pattern insights |
| FeedbackProcessor.WarningFirst | utils/FeedbackProcessor.js:151-157 | the small-sample warning comes first |
| FeedbackProcessor.FrequentPatternsReported | utils/FeedbackProcessor.js:171-183 | a bucket's pattern insight is there iff its count exceeds a tenth of the sample |
| FeedbackProcessor.PatternInsightFor | utils/FeedbackProcessor.js:171-183 | the same for any list of distinct keys |
| FeedbackProcessor.CriticalReported | utils/FeedbackProcessor.js:160-168 | an error rate over 0.2 always yields the critical insight |
| FeedbackProcessor.RecommendationsProperties | utils/FeedbackProcessor.js:191-217 | one recommendation per acted-on insight, in order; its priority follows the insight type; a pattern recommendation's details are the handling advice for that insight's message |
| FeedbackProcessor.ActionableMembers | utils/FeedbackProcessor.js:192-217 | the acted-on insights are exactly the critical, pattern and warning ones |
| FeedbackProcessor.Actionable | utils/FeedbackProcessor.js:191-217 | the acted-on insights are no more than the insights |
| FeedbackProcessor.RecommendationFor | utils/FeedbackProcessor.js:192-217 | computes high for critical, medium with the advice for the message for a pattern, low for a warning, none otherwise |
| FeedbackProcessor.Recommendations | utils/FeedbackProcessor.js:188-221 | computes the recommendations of the insights, in order |
| FeedbackProcessor.AnalysisOf | utils/FeedbackProcessor.js:29-90 | computes the metrics, error patterns, insights and recommendations of a window's logs |
| FeedbackProcessor.EmptyWindow | utils/FeedbackProcessor.js:30-89 | no logs: sample 0, success 0, error rate 1, insights warning then critical, recommendations low then high |
| FeedbackProcessor.AllFailed | utils/FeedbackProcessor.js:30-48 | a non-empty window where every log failed is always critical |
| FeedbackProcessor.FeedbackProcessor.AddFailedLog | utils/FeedbackProcessor.js:100-122 | one more log: its category joins the keys if it is new, and every bucket stays the accumulation of the logs seen so far |
| FeedbackProcessor.FeedbackProcessor.GroupByCategory | utils/FeedbackProcessor.js:100-123 | the keys are the categories in order of first appearance, and each bucket holds its category's count, first three inputs and summed time |
| FeedbackProcessor.FeedbackProcessor.AverageBuckets | utils/FeedbackProcessor.js:126-128 | every key keeps its bucket, with the time divided by the count |
| FeedbackProcessor.FeedbackProcessor.AnalyzeErrorPatterns | utils/FeedbackProcessor.js:97-131 | the result is `PatternsOf(failedLogs)` |
| FeedbackProcessor.FeedbackProcessor.GenerateInsights | utils/FeedbackProcessor.js:147-186 | the loop's insights are `Insights(...)` |
| FeedbackProcessor.FeedbackProcessor.GenerateRecommendations | utils/FeedbackProcessor.js:188-221 | the loop's recommendations are `Recommendations(insights)` |
| FeedbackProcessor.FeedbackProcessor.AnalyzeLogs | utils/FeedbackProcessor.js:18-95 | the analysis of the window's logs: metrics, patterns, insights, recommendations |
| FeedbackProcessor.FeedbackProcessor.constructor | utils/FeedbackProcessor.js:10-16 | thresholds 100, 0.2 and 0.7 |
| TaskPatternAnalysis.Fields | utils/taskPatternAnalysis.js:19 | `split(/\s+/)` gives at least one piece, none holding white space |
| TaskPatternAnalysis.FieldsContent | utils/taskPatternAnalysis.js:19 | the pieces put together are the input without its white space |
| TaskPatternAnalysis.LongWords | utils/taskPatternAnalysis.js:20 | exactly the words over three characters are kept |
| TaskPatternAnalysis.SearchWords | utils/taskPatternAnalysis.js:17-20 | computes the lower-cased input's pieces longer than three characters |
| TaskPatternAnalysis.Matching | utils/taskPatternAnalysis.js:23-27 | computes the tasks whose title and description mention a search word |
| TaskPatternAnalysis.LastThree | utils/taskPatternAnalysis.js:28 | computes `slice(-3)` |
| TaskPatternAnalysis.RelatedTasks | utils/taskPatternAnalysis.js:14-29 | `findRelatedTasks` returns at most three tasks |
| TaskPatternAnalysis.SearchWordsShape | utils/taskPatternAnalysis.js:17-20 | a search word is lower case, over three characters, without white space |
| TaskPatternAnalysis.MatchingExact | utils/taskPatternAnalysis.js:23-27 | the matching tasks are the tasks at increasing indices, listed iff the task mentions a search word |
| TaskPatternAnalysis.MatchingSound | utils/taskPatternAnalysis.js:24-27 | each matching task is a task that mentions a search word |
| TaskPatternAnalysis.RelatedTasksProperties | utils/taskPatternAnalysis.js:14-29 | [] for empty input, no tasks or no long word; otherwise the last three matching tasks in order, each mentioning a search word |
| TaskPatternAnalysis.LastThreeSuffix | utils/taskPatternAnalysis.js:28 | `slice(-3)` is the last min(3, n) elements |
| TaskPatternAnalysis.TalliesProperties | utils/taskPatternAnalysis.js:39-46 | one tally per distinct tag, each holding its number of occurrences |
| TaskPatternAnalysis.AllTags | utils/taskPatternAnalysis.js:41-46 | computes every task's tags in order, a missing list counting as none |
| TaskPatternAnalysis.Tallies | utils/taskPatternAnalysis.js:39-46 | computes the map's entries: each tag in first-appearance order with its count |
| TaskPatternAnalysis.SortByCount | utils/taskPatternAnalysis.js:49 | computes the stable sort by count, largest first |
| TaskPatternAnalysis.Shares | utils/taskPatternAnalysis.js:50-54 | each tally becomes its category, its count and its rounded percentage, in order |
| TaskPatternAnalysis.Distribution | utils/taskPatternAnalysis.js:36-55 | computes `getCategoryDistribution`: [] for no tasks, else the sorted tallies with their percentages |
| TaskPatternAnalysis.SortByCountProperties | utils/taskPatternAnalysis.js:49 | the sort orders by count descending, is a permutation, and is stable |
| TaskPatternAnalysis.Percentage | utils/taskPatternAnalysis.js:53 | the exact percentage `count * 100 / total`, rounded to the nearest whole number with halves up |
| TaskPatternAnalysis.DistributionProperties | utils/taskPatternAnalysis.js:36-55 | [] for no tasks; else one row per distinct tag with its count (duplicates included), sorted descending, and its rounded percentage |
| TaskPatternAnalysis.CountStep | utils/taskPatternAnalysis.js:44 | `set(c, (get(c) \|\| 0) + 1)` counts one more tag |
| TaskPatternAnalysis.CountCategories | utils/taskPatternAnalysis.js:39-46 | the map's keys are the tags in first-appearance order and its values their occurrence counts |
| TaskPatternAnalysis.GetCategoryDistribution | utils/taskPatternAnalysis.js:36-55 | the result is `Distribution(tasks)` |
| Server.KeepNewest | server.js:134-136 | the list is cut to at most 100 |
| Server.FindIndex | server.js:275 | `find` gives the first entry with the id, or none when no entry has it |
| Server.PriorityOf | server.js:130 | computes the payload's priority, or "normal" when it is absent or empty |
| Server.Fresh | server.js:123-131 | computes the new unread entry |
| Server.Stored | server.js:121-136 | a stored type puts the fresh entry first and keeps the list within 100 |
| Server.MarkedRead | server.js:275-284 | marking read keeps the list's length |
| Server.StoredProperties | server.js:112-136 | other types leave the list unchanged; a stored type puts a fresh unread entry (priority "normal" by default) in front, keeps the rest in order and drops the oldest beyond 100 |
| Server.StoredBounded | server.js:134-136 | the list never exceeds 100 |
| Server.MarkedReadProperties | server.js:275-284 | same length; an unknown id changes nothing; a known id sets `read` on its first entry only |
| Server.NotificationStore.BroadcastNotification | server.js:103-137 | the list becomes `Stored(...)` and stays within 100 |
| Server.NotificationStore.MarkRead | server.js:273-295 | an unparsable id gives not-found and no change; a parsed id marks its first entry read (none for an unknown id) and returns that entry, or not-found |
| Server.NotificationStore.Clear | server.js:297-303 | the list is empty afterwards |
| Server.NotificationStore.constructor | server.js:47-48 | the list starts empty |
| TaskParsingLog.Missing | models/TaskParsingLog.js:115 | a key is reported iff it is required and absent |
| TaskParsingLog.MissingOrder | models/TaskParsingLog.js:109-119 | nothing missing iff every key is present; with none present all are reported in order |
| TaskParsingLog.HasRequiredFields | models/TaskParsingLog.js:75-81 | a failure is the task/temporal error |
| TaskParsingLog.FieldsPassIff | models/TaskParsingLog.js:76 | passes iff `task` and `temporal` are both truthy |
| TaskParsingLog.FieldsFixture | models/TaskParsingLog.js:75-81 | the tests' parsed output passes; without `task`, or with a null one, it fails |
| TaskParsingLog.HasRequiredMetrics | models/TaskParsingLog.js:109-119 | passes iff all three metrics are present; otherwise reports exactly the absent ones |
| TaskParsingLog.MetricsFixturePasses | models/TaskParsingLog.js:109-119 | the tests' metrics pass |
| TaskParsingLog.MetricsFixtureFails | tests/TaskParsingLog.test.js:74-87 | `{invalid_metric: 123}` is missing all three, in order |
| TaskParsingLog.HasRequiredMetadata | models/TaskParsingLog.js:128-138 | missing keys are reported first; with all present it passes iff the model is one of the three allowed, else it reports the model |
| TaskParsingLog.MetadataMissingFirst | tests/TaskParsingLog.test.js:89-101 | `{llm_model: "invalid-model"}` fails for its two missing keys before the model is checked |
| TaskParsingLog.MetadataFixtureFails | tests/TaskParsingLog.test.js:37-41 | the tests' "gemini-1.5-flash" metadata fails as an invalid model |
| TaskParsingLog.MetadataPasses | models/TaskParsingLog.js:128-138 | an allowed model with both versions passes |
| TaskParsingLog.Run | models/TaskParsingLog.js:9 | a character-class run is maximal |
| TaskParsingLog.MatchAt | models/TaskParsingLog.js:8-20 | a match is never empty and fits in the text |
| TaskParsingLog.EmailAt | models/TaskParsingLog.js:9 | computes where an email match starting at a position ends, if there is one |
| TaskParsingLog.PhoneAt | models/TaskParsingLog.js:14 | computes where a phone-number match starting at a position ends, if there is one |
| TaskParsingLog.NameAt | models/TaskParsingLog.js:19 | computes where a whole-word, case-insensitive name match starting at a position ends, if there is one |
| TaskParsingLog.Replace | models/TaskParsingLog.js:8-11 | computes a global `replace` of one expression's leftmost matches by its token |
| TaskParsingLog.ReplaceNames | models/TaskParsingLog.js:17-21 | computes the name replacements, one name after another |
| TaskParsingLog.Anonymized | models/TaskParsingLog.js:6-24 | computes `anonymizeText`: emails, then phone numbers, then each name |
| TaskParsingLog.Find | models/TaskParsingLog.js:8-20 | a global search finds the leftmost match from its start, or reports none anywhere |
| TaskParsingLog.FindLeftmost | models/TaskParsingLog.js:8-20 | a match with none before it is what the search finds |
| TaskParsingLog.ReplaceNothing | models/TaskParsingLog.js:8-20 | a text without a match is unchanged |
| TaskParsingLog.ReplaceOnce | models/TaskParsingLog.js:8-20 | a single match is replaced by the token |
| TaskParsingLog.EmailSpan | models/TaskParsingLog.js:9 | local part, `@`, domain with a final dot and two or more letters: the email expression matches up to the domain's end |
| TaskParsingLog.PhoneDashed | models/TaskParsingLog.js:14 | a dashed 3-3-4 number set off from word characters matches |
| TaskParsingLog.NameCaseInsensitive | models/TaskParsingLog.js:19 | a name matches in any letter case |
| TaskParsingLog.AnonymizeText | models/TaskParsingLog.js:6-24 | the method's loop over the names computes `Anonymized`: emails, then phone numbers, then each name |
| TaskParsingLog.AnonymizedHasNoNames | models/TaskParsingLog.js:17-21 | no whole-word john, david, susan, mike or sarah, in any case, survives |
| TaskParsingLog.AnonymizedUnchanged | models/TaskParsingLog.js:6-24 | a text with no email, phone number or name comes back unchanged |
| TaskParsingLog.AnonymizeTestInput | tests/TaskParsingLog.test.js:127-136 | "meeting with john@email.com at 123-456-7890" becomes "meeting with [EMAIL] at [PHONE]" |
| TaskParsingLog.LogRecord.GetSafeData | models/TaskParsingLog.js:48-52 | `input_hash` is dropped and every other attribute kept with its value |
| TaskParsingLog.LogRecord.BeforeValidate | models/TaskParsingLog.js:148-159 | a truthy string input: hash of the original text, then the redacted text; a falsy one: nothing changes; a truthy non-string: throws before any change |
| TaskParsingLog.LogRecord.constructor | models/TaskParsingLog.js:55-176 | the instance holds the given attributes |

## Left out

- The HTTP layer of server.js is not modelled: routes, CORS, JSON responses, the Gemini calls and their error mapping, and the Pusher trigger. These are network I/O. The mark-read and clear broadcasts are modelled only for what they store, which is nothing.
- `Server.NotificationStore.MarkRead`: `parseInt(id)` is not modelled. The caller passes the parsed id, with `None` for NaN.
- `Server.NotificationStore.BroadcastNotification`: `Date.now()` and `toISOString()` are parameters.
- The notification that mark-read returns is a copy of the updated entry; JavaScript's shared object reference is not modelled.
- `DateTimePatterns.DateTimePatterns.MatchPattern`: a memo hit returns the stored list as a value. In JavaScript it is the same array object that an earlier call returned (utils/DateTimePatterns.js:158-160 and 222), so a caller that mutates that array changes later results. This aliasing is not modelled.
- The general regular-expression engine is not modelled. The matcher's eleven rules and two suppression patterns are abstract recognisers. Their lemmas hold for every recogniser, not only the one the regexes define.
- The regex tests on concrete phrases (`DateTimePatternCases.NextWeekTuesdayBetween` and the others) take as preconditions which regexes match the phrase. These match facts are not derived from the regexes.
- `TaskParsingLog.AnonymizedHasNoNames`: no matching result is proved for the email and phone expressions. The model does not prove that no email or phone number survives redaction. The email and phone replacements are proved only through `AnonymizeTestInput` and the generic replace lemmas.
- Letter case is ASCII only, and strings are sequences of characters, not UTF-16 code units.
- JavaScript `Date` is modelled in one fixed time zone. The ±8.64e15 ms range limit and the NaN date are not modelled.
- `toISOString()` is represented by the instant.
- `getCommonTaskTimes` and `getPreferredDays` (utils/taskPatternAnalysis.js) are left out: they depend on `toLocaleTimeString` and host-locale Date parsing.
- Floating point is not modelled. The feedback rates are exact rationals, and `toFixed` and the `details` text are kept as the numbers they format.
- `TaskPatternAnalysis.Percentage`: it rounds the exact rational `count * 100 / total`, with halves up. JavaScript computes `count / total * 100` in floating point before `Math.round` (utils/taskPatternAnalysis.js:53). This can differ at a half: 29 of 200 is 14.499999999999998 in JavaScript, which rounds to 14, while the model gives 15.
- The `timestamp: new Date()` field of the `analyzeLogs` result (utils/FeedbackProcessor.js:80) is not modelled; `FeedbackProcessor.AnalysisOf` and `FeedbackProcessor.FeedbackProcessor.AnalyzeLogs` return the rest of the result.
- The `errors` value in the feedback analytics is null, a string, or an object with a string `message`. Other shapes are not modelled.
- The database is left out: the `findAll` query, `TaskParsingLog.analyzePatterns` (raw SQL), `console` output, and the `setInterval` schedule in `startScheduledAnalysis`.
- The SHA-256 digest is a parameter of `TaskParsingLog.LogRecord.BeforeValidate`; the hash computation is not modelled.
- The validators are modelled for JSON-object values only. When Sequelize runs validators (null values, defaults) is not modelled.
- JSON numbers are kept as their printed text.
- utils/notifications.js, the LLM handlers and the migrations are not part of this model.
- The resolver's `input` argument is unused by the source and has no role in the model.
