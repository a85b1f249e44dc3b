/**
 * The temporal-phrase matcher of utils/DateTimePatterns.js.
 *
 * The regular expressions are not modelled: a `Recogniser` stands for JavaScript's
 * non-global `input.match(regex)` and returns the match array (index 0 is the whole
 * match, `None` is a group that did not take part). Everything the matcher does around
 * the regexes -- the catalogue order, the two passes, the three suppression rules, the
 * handlers and the memo table -- is modelled concretely, and every lemma here holds for
 * every recogniser.
 */
module DateTimePatterns {
  import opened Wrappers
  import opened Text

  /** The catalogue's regular expressions, and the two only used to suppress a rule. */
  datatype Regex =
    | RelativeDayRe      // today | tomorrow | yesterday
    | RelativeWeekDayRe  // next|last|this|coming [week['s]] <weekday>
    | EndOfPeriodRe      // [by] end of [the] [next] week|month|year
    | BusinessDayRe      // [by] [end of] [the] business day
    | ClockTimeRe        // H[:MM] am|pm|a.m.|p.m.
    | RecurringRe        // [weekly] every|each <unit> [and <weekday>]
    | MonthlyRe          // monthly ... [first|last|Nth] <weekday>
    | TimeRangeRe        // between|from H[:MM][am|pm] to|and|- H[:MM][am|pm]
    | NoonMidnightRe     // noon | midnight
    | RelativeTimeRe     // in N minute|hour|day|week|month[s]
    | WeekdayWeekendRe   // [by] [end of] weekday|weekend
    | EndOfWeekRe        // [by] end of [the] [next] week
    | NamedWeekdayRe     // next|last|this|coming [week] <weekday>

  /** A record's `type`. */
  datatype Kind = RelativeDay | RelativeWeekDay | RelativeWeek | DayType | SpecificTime | Recurring | TimeRange | RelativeTime

  function TypeName(k: Kind): string {
    match k
    case RelativeDay => "relative_day"
    case RelativeWeekDay => "relative_week_day"
    case RelativeWeek => "relative_week"
    case DayType => "day_type"
    case SpecificTime => "specific_time"
    case Recurring => "recurring"
    case TimeRange => "time_range"
    case RelativeTime => "relative_time"
  }

  /** A JavaScript match array: element i is capture group i. */
  type Captures = seq<Option<string>>

  /** `input.match(regex)` for a non-global regex: the first match, or none. */
  type Recogniser = (Regex, string) -> Option<Captures>

  /** The handler attached to a rule (the two day-type rules share one body). */
  datatype Handler =
    | RelativeDayH | RelativeWeekDayH | EndOfPeriodH | DayTypeH | ClockTimeH
    | RecurringH | MonthlyH | TimeRangeH | NoonMidnightH | RelativeTimeH

  /** A catalogue entry `{ regex, type, handler }`. */
  datatype Rule = Rule(regex: Regex, kind: Kind, handler: Handler)

  /** The ordered rule list built by the constructor. */
  const Catalogue: seq<Rule> := [
    Rule(RelativeDayRe, RelativeDay, RelativeDayH),
    Rule(RelativeWeekDayRe, RelativeWeekDay, RelativeWeekDayH),
    Rule(EndOfPeriodRe, RelativeWeek, EndOfPeriodH),
    Rule(BusinessDayRe, DayType, DayTypeH),
    Rule(ClockTimeRe, SpecificTime, ClockTimeH),
    Rule(RecurringRe, Recurring, RecurringH),
    Rule(MonthlyRe, Recurring, MonthlyH),
    Rule(TimeRangeRe, TimeRange, TimeRangeH),
    Rule(NoonMidnightRe, SpecificTime, NoonMidnightH),
    Rule(RelativeTimeRe, RelativeTime, RelativeTimeH),
    Rule(WeekdayWeekendRe, DayType, DayTypeH)
  ]

  datatype Clock = Clock(hour: int, minute: int)

  datatype Frequency = Daily | Weekly | Monthly

  /** The fields a handler spreads into its record, one variant per shape. */
  datatype Payload =
    | RelativeDayP(relativeDay: string)
    | PeriodP(relativePeriod: string, position: string, modifier: string)
    | DayTypeP(dayType: string)
    | TimeP(time: Clock)
    | RecurrenceP(frequency: Frequency, day: Option<string>, timeContext: Option<string>, additionalDay: Option<string>)
    | MonthlyP(frequency: Frequency, monthlyDay: string, position: string)
    | TimeRangeP(start: Clock, end: Clock)
    | RelativeTimeP(amount: int, unit: string)

  /** `{ type: kind, ...payload }` */
  datatype MatchRecord = MatchRecord(kind: Kind, payload: Payload)

  // ---------------------------------------------------------------- handlers

  /** `match[i]`; an index past the array reads as `undefined`. */
  function Group(m: Captures, i: nat): Option<string> {
    if i < |m| then m[i] else None
  }

  /** JavaScript truthiness of a group: present and not empty. */
  predicate Truthy(g: Option<string>) {
    g.Some? && g.value != ""
  }

  /**
   * A group every match of its regex fills. (Reading a missing one would throw in
   * JavaScript; no match array of these regexes lacks it.)
   */
  function Req(m: Captures, i: nat): string {
    Group(m, i).GetOr("")
  }

  const WeekdayNames: seq<string> := ["monday", "tuesday", "wednesday", "thursday", "friday", "saturday", "sunday"]

  predicate ContainsAny(s: string, words: seq<string>) {
    exists i | 0 <= i < |words| :: Contains(s, words[i])
  }

  /**
   * The 12-hour adjustment shared by the clock and range handlers: afternoon adds 12
   * below noon, then morning turns 12 into 0.
   */
  function ConvertHour(hour: int, pm: bool, am: bool): (r: int)
    ensures 0 <= hour < 24 ==> 0 <= r < 24
  {
    var h := if pm && hour < 12 then hour + 12 else hour;
    if am && h == 12 then 0 else h
  }

  function RelativeDayHandler(m: Captures): Payload {
    RelativeDayP(ToLower(Req(m, 1)))
  }

  function RelativeWeekDayHandler(m: Captures): Payload {
    var g1, g2 := Group(m, 1), Group(m, 2);
    RelativeDayP(ToLower(
      if Truthy(g1) then "next week " + g1.value
      else "next " + (if Truthy(g2) then g2.value else "week")))
  }

  function EndOfPeriodHandler(m: Captures): Payload {
    PeriodP(StripSpaces(ToLower(Req(m, 1))), "end", "next")
  }

  function DayTypeHandler(m: Captures): Payload {
    DayTypeP(StripSpaces(ToLower(Req(m, 1))))
  }

  /** The meridiem with its first "." removed, as `replace(".", "")` does. */
  function Meridiem(s: string): string {
    RemoveFirst(ToLower(s), '.')
  }

  function ClockTimeHandler(m: Captures): Payload {
    var hours := ParseInt(Req(m, 1));
    var minutes := if Truthy(Group(m, 2)) then ParseInt(Req(m, 2)) else 0;
    var meridiem := Meridiem(Req(m, 3));
    TimeP(Clock(ConvertHour(hours, StartsWith(meridiem, "p"), StartsWith(meridiem, "a")), minutes))
  }

  function FrequencyOf(unit: string): Frequency {
    if ContainsAny(unit, ["day", "morning", "evening"]) then Daily
    else if ContainsAny(unit, ["week"] + WeekdayNames) then Weekly
    else Monthly
  }

  /** The `recurrence` object; the tests on `match[1]` are case-sensitive. */
  function RecurringHandler(m: Captures): Payload {
    var unit := Req(m, 1);
    var extra := Group(m, 2);
    RecurrenceP(
      FrequencyOf(unit),
      if ContainsAny(unit, WeekdayNames) then Some(ToLower(unit)) else None,
      if ContainsAny(unit, ["morning", "evening"]) then Some(ToLower(unit)) else None,
      if Truthy(extra) then Some(ToLower(extra.value)) else None)
  }

  function MonthlyHandler(m: Captures): Payload {
    var position := Group(m, 1);
    MonthlyP(Monthly, ToLower(Req(m, 2)), if Truthy(position) then ToLower(position.value) else "last")
  }

  /** `parseTime(hour, minute, meridiem)` of the range handler. */
  function RangeBound(hour: string, minute: Option<string>, meridiem: Option<string>): Clock {
    var h := ParseInt(hour);
    var mi := if Truthy(minute) then ParseInt(minute.value) else 0;
    var pm := Truthy(meridiem) && ToLower(meridiem.value) == "pm";
    var am := Truthy(meridiem) && ToLower(meridiem.value) == "am";
    Clock(ConvertHour(h, pm, am), mi)
  }

  function TimeRangeHandler(m: Captures): Payload {
    TimeRangeP(RangeBound(Req(m, 1), Group(m, 2), Group(m, 3)), RangeBound(Req(m, 4), Group(m, 5), Group(m, 6)))
  }

  function NoonMidnightHandler(m: Captures): Payload {
    TimeP(Clock(if ToLower(Req(m, 1)) == "noon" then 12 else 0, 0))
  }

  function RelativeTimeHandler(m: Captures): Payload {
    RelativeTimeP(ParseInt(Req(m, 1)), ToLower(Req(m, 2)))
  }

  function Handle(h: Handler, m: Captures): Payload {
    match h
    case RelativeDayH => RelativeDayHandler(m)
    case RelativeWeekDayH => RelativeWeekDayHandler(m)
    case EndOfPeriodH => EndOfPeriodHandler(m)
    case DayTypeH => DayTypeHandler(m)
    case ClockTimeH => ClockTimeHandler(m)
    case RecurringH => RecurringHandler(m)
    case MonthlyH => MonthlyHandler(m)
    case TimeRangeH => TimeRangeHandler(m)
    case NoonMidnightH => NoonMidnightHandler(m)
    case RelativeTimeH => RelativeTimeHandler(m)
  }

  /** `{ type: pattern.type, ...pattern.handler(match) }` */
  function Fire(r: Rule, m: Captures): MatchRecord {
    MatchRecord(r.kind, Handle(r.handler, m))
  }

  /** The record rule `r` produces from its match on `input`. */
  function Emitted(rec: Recogniser, input: string, r: Rule): MatchRecord {
    Fire(r, rec(r.regex, input).GetOr([]))
  }

  // ---------------------------------------------------------------- the two passes

  /** The first loop's test: a time-range rule whose regex matches. */
  predicate FiresFirst(rec: Recogniser, input: string, r: Rule) {
    r.kind == TimeRange && rec(r.regex, input).Some?
  }

  /** The rules whose records the first loop pushes after visiting the first `k` catalogue rules. */
  function FirstPass(rec: Recogniser, input: string, k: nat): seq<Rule>
    requires k <= |Catalogue|
  {
    if k == 0 then []
    else FirstPass(rec, input, k - 1) + (if FiresFirst(rec, input, Catalogue[k - 1]) then [Catalogue[k - 1]] else [])
  }

  /** A rule of this kind is skipped although its own regex matched. */
  predicate Suppressed(rec: Recogniser, input: string, k: Kind) {
    || (k == RelativeWeekDay && rec(EndOfWeekRe, input).Some?)
    || (k == RelativeWeek && rec(NamedWeekdayRe, input).Some?)
    // the monthly test (DateTimePatterns.js:209) is the very regex of the monthly rule
    || (k == RelativeWeekDay && rec(MonthlyRe, input).Some?)
  }

  /** The second loop's guard: every rule but time ranges, and no clock time once a range was found. */
  predicate Considered(k: Kind, rangeFound: bool) {
    k != TimeRange && (!rangeFound || k != SpecificTime)
  }

  /** The second loop pushes rule `r`'s record. */
  predicate FiresSecond(rec: Recogniser, input: string, r: Rule, rangeFound: bool) {
    Considered(r.kind, rangeFound) && rec(r.regex, input).Some? && !Suppressed(rec, input, r.kind)
  }

  /** Rule `r`'s slot in the second loop: the rule itself when it fires. */
  function SecondStep(rec: Recogniser, input: string, r: Rule, rangeFound: bool): seq<Rule> {
    if FiresSecond(rec, input, r, rangeFound) then [r] else []
  }

  /** The rules whose records the second loop pushes after visiting the first `k` catalogue rules. */
  function SecondPass(rec: Recogniser, input: string, rangeFound: bool, k: nat): seq<Rule>
    requires k <= |Catalogue|
  {
    if k == 0 then []
    else SecondPass(rec, input, rangeFound, k - 1) + SecondStep(rec, input, Catalogue[k - 1], rangeFound)
  }

  /** The rules that fire on `input`, in the order their records are pushed. */
  function Fired(rec: Recogniser, input: string): seq<Rule> {
    if input == "" then []
    else
      var first := FirstPass(rec, input, |Catalogue|);
      first + SecondPass(rec, input, first != [], |Catalogue|)
  }

  /** The records of a sequence of rules. */
  function Records(rec: Recogniser, input: string, rs: seq<Rule>): (out: seq<MatchRecord>)
    ensures |out| == |rs|
  {
    if rs == [] then [] else Records(rec, input, rs[..|rs| - 1]) + [Emitted(rec, input, rs[|rs| - 1])]
  }

  /** What `matchPattern(input)` computes when its memo table has no entry for `input`. */
  function MatchAll(rec: Recogniser, input: string): seq<MatchRecord> {
    Records(rec, input, Fired(rec, input))
  }

  /** A rule whose regex matched emits its handler's record on the captures. */
  lemma EmittedMatch(rec: Recogniser, input: string, r: Rule, m: Captures)
    requires rec(r.regex, input) == Some(m)
    ensures Emitted(rec, input, r) == Fire(r, m)
  {
  }

  lemma RecordsSnoc(rec: Recogniser, input: string, rs: seq<Rule>, r: Rule)
    ensures Records(rec, input, rs + [r]) == Records(rec, input, rs) + [Emitted(rec, input, r)]
  {
    assert (rs + [r])[..|rs|] == rs;
  }

  lemma {:induction false} RecordsAppend(rec: Recogniser, input: string, a: seq<Rule>, b: seq<Rule>)
    ensures Records(rec, input, a + b) == Records(rec, input, a) + Records(rec, input, b)
  {
    if b == [] {
      assert a + b == a;
    } else {
      var n := |b| - 1;
      assert a + b == (a + b[..n]) + [b[n]];
      assert b == b[..n] + [b[n]];
      RecordsAppend(rec, input, a, b[..n]);
      RecordsSnoc(rec, input, a + b[..n], b[n]);
      RecordsSnoc(rec, input, b[..n], b[n]);
    }
  }

  /** Record `i` is the record of rule `i`. */
  lemma {:induction false} RecordsAt(rec: Recogniser, input: string, rs: seq<Rule>, i: nat)
    requires i < |rs|
    ensures Records(rec, input, rs)[i] == Emitted(rec, input, rs[i])
  {
    var n := |rs| - 1;
    if i < n {
      RecordsAt(rec, input, rs[..n], i);
    }
  }

  // ---------------------------------------------------------------- properties of the passes

  /** Some record of `rs` has type `k`. */
  predicate HasKind(rs: seq<MatchRecord>, k: Kind) {
    exists i | 0 <= i < |rs| :: rs[i].kind == k
  }

  /** Some rule of type `k` fires on `input`. */
  predicate Reports(rec: Recogniser, input: string, k: Kind) {
    exists r | r in Fired(rec, input) :: r.kind == k
  }

  /** The record kinds, in order. */
  function Kinds(rs: seq<MatchRecord>): (ks: seq<Kind>)
    ensures |ks| == |rs|
  {
    if rs == [] then [] else Kinds(rs[..|rs| - 1]) + [rs[|rs| - 1].kind]
  }

  /** The rule kinds, in order. */
  function RuleKinds(rs: seq<Rule>): (ks: seq<Kind>)
    ensures |ks| == |rs|
  {
    if rs == [] then [] else RuleKinds(rs[..|rs| - 1]) + [rs[|rs| - 1].kind]
  }

  /** A record has the type of the rule that emitted it, so the output kinds are the fired rules' kinds. */
  lemma {:induction false} RecordKinds(rec: Recogniser, input: string, rs: seq<Rule>)
    ensures Kinds(Records(rec, input, rs)) == RuleKinds(rs)
  {
    if rs != [] {
      var n := |rs| - 1;
      RecordKinds(rec, input, rs[..n]);
      var out := Records(rec, input, rs);
      assert out[..n] == Records(rec, input, rs[..n]);
    }
  }

  /** Each rule fires at most once, so the passes are no longer than the rules visited. */
  lemma {:induction false} PassesBound(rec: Recogniser, input: string, rangeFound: bool, k: nat)
    requires k <= |Catalogue|
    ensures |FirstPass(rec, input, k)| + |SecondPass(rec, input, rangeFound, k)| <= k
  {
    if k > 0 {
      PassesBound(rec, input, rangeFound, k - 1);
    }
  }

  /** The first pass keeps exactly the matching time-range rules among those visited. */
  lemma {:induction false} FirstPassRules(rec: Recogniser, input: string, k: nat)
    requires k <= |Catalogue|
    ensures forall r :: r in FirstPass(rec, input, k) <==>
      (exists j | 0 <= j < k :: Catalogue[j] == r) && FiresFirst(rec, input, r)
  {
    if k > 0 {
      FirstPassRules(rec, input, k - 1);
    }
  }

  /**
   * The second pass keeps exactly the visited rules that are not time ranges, not clock
   * times once a range was found, match, and are not suppressed.
   */
  lemma {:induction false} SecondPassRules(rec: Recogniser, input: string, rangeFound: bool, k: nat)
    requires k <= |Catalogue|
    ensures forall r :: r in SecondPass(rec, input, rangeFound, k) <==>
      (exists j | 0 <= j < k :: Catalogue[j] == r) && FiresSecond(rec, input, r, rangeFound)
  {
    if k > 0 {
      SecondPassRules(rec, input, rangeFound, k - 1);
    }
  }

  /** A catalogue rule the second loop skips leaves its pass unchanged. */
  lemma SkipStep(rec: Recogniser, input: string, rangeFound: bool, k: nat)
    requires k < |Catalogue| && !FiresSecond(rec, input, Catalogue[k], rangeFound)
    ensures SecondPass(rec, input, rangeFound, k + 1) == SecondPass(rec, input, rangeFound, k)
  {
  }

  /** A catalogue rule the second loop keeps is appended to its pass. */
  lemma KeepStep(rec: Recogniser, input: string, rangeFound: bool, k: nat)
    requires k < |Catalogue| && FiresSecond(rec, input, Catalogue[k], rangeFound)
    ensures SecondPass(rec, input, rangeFound, k + 1) == SecondPass(rec, input, rangeFound, k) + [Catalogue[k]]
  {
  }

  /** A rule the second pass keeps adds its handler's record to the records so far. */
  lemma KeepRecords(rec: Recogniser, input: string, rangeFound: bool, k: nat, m: Captures)
    requires k < |Catalogue| && FiresSecond(rec, input, Catalogue[k], rangeFound)
    requires rec(Catalogue[k].regex, input) == Some(m)
    ensures Records(rec, input, SecondPass(rec, input, rangeFound, k + 1))
         == Records(rec, input, SecondPass(rec, input, rangeFound, k)) + [Fire(Catalogue[k], m)]
  {
    KeepStep(rec, input, rangeFound, k);
    RecordsSnoc(rec, input, SecondPass(rec, input, rangeFound, k), Catalogue[k]);
    EmittedMatch(rec, input, Catalogue[k], m);
  }

  /** The catalogue rules of each kind. */
  lemma CatalogueKinds(j: nat)
    requires j < |Catalogue|
    ensures Catalogue[j].kind == RelativeDay <==> j == 0
    ensures Catalogue[j].kind == RelativeWeekDay <==> j == 1
    ensures Catalogue[j].kind == RelativeWeek <==> j == 2
    ensures Catalogue[j].kind == DayType <==> j == 3 || j == 10
    ensures Catalogue[j].kind == SpecificTime <==> j == 4 || j == 8
    ensures Catalogue[j].kind == Recurring <==> j == 5 || j == 6
    ensures Catalogue[j].kind == TimeRange <==> j == 7
    ensures Catalogue[j].kind == RelativeTime <==> j == 9
  {
  }

  /** The first pass over the catalogue is the time-range rule, if its regex matched. */
  lemma FirstPassCatalogue(rec: Recogniser, input: string)
    ensures FirstPass(rec, input, |Catalogue|) == if rec(TimeRangeRe, input).Some? then [Catalogue[7]] else []
  {
    assert FirstPass(rec, input, 1) == [];
    assert FirstPass(rec, input, 2) == [];
    assert FirstPass(rec, input, 3) == [];
    assert FirstPass(rec, input, 4) == [];
    assert FirstPass(rec, input, 5) == [];
    assert FirstPass(rec, input, 6) == [];
    assert FirstPass(rec, input, 7) == [];
    assert FirstPass(rec, input, 8) == if rec(TimeRangeRe, input).Some? then [Catalogue[7]] else [];
    assert FirstPass(rec, input, 9) == if rec(TimeRangeRe, input).Some? then [Catalogue[7]] else [];
    assert FirstPass(rec, input, 10) == if rec(TimeRangeRe, input).Some? then [Catalogue[7]] else [];
    assert FirstPass(rec, input, 11) == if rec(TimeRangeRe, input).Some? then [Catalogue[7]] else [];
  }

  /** The second pass over the catalogue spelled out: one slot per rule, in catalogue order. */
  lemma SecondPassCatalogue(rec: Recogniser, input: string, f: bool)
    ensures SecondPass(rec, input, f, |Catalogue|)
      == SecondStep(rec, input, Catalogue[0], f) + SecondStep(rec, input, Catalogue[1], f) + SecondStep(rec, input, Catalogue[2], f)
       + SecondStep(rec, input, Catalogue[3], f) + SecondStep(rec, input, Catalogue[4], f) + SecondStep(rec, input, Catalogue[5], f)
       + SecondStep(rec, input, Catalogue[6], f) + SecondStep(rec, input, Catalogue[7], f) + SecondStep(rec, input, Catalogue[8], f)
       + SecondStep(rec, input, Catalogue[9], f) + SecondStep(rec, input, Catalogue[10], f)
  {
    assert SecondPass(rec, input, f, 1) == SecondStep(rec, input, Catalogue[0], f);
    assert SecondPass(rec, input, f, 2) == SecondStep(rec, input, Catalogue[0], f) + SecondStep(rec, input, Catalogue[1], f);
    assert SecondPass(rec, input, f, 3) == SecondStep(rec, input, Catalogue[0], f) + SecondStep(rec, input, Catalogue[1], f) + SecondStep(rec, input, Catalogue[2], f);
    assert SecondPass(rec, input, f, 4) == SecondStep(rec, input, Catalogue[0], f) + SecondStep(rec, input, Catalogue[1], f) + SecondStep(rec, input, Catalogue[2], f) + SecondStep(rec, input, Catalogue[3], f);
    assert SecondPass(rec, input, f, 5) == SecondStep(rec, input, Catalogue[0], f) + SecondStep(rec, input, Catalogue[1], f) + SecondStep(rec, input, Catalogue[2], f) + SecondStep(rec, input, Catalogue[3], f) + SecondStep(rec, input, Catalogue[4], f);
    assert SecondPass(rec, input, f, 6) == SecondStep(rec, input, Catalogue[0], f) + SecondStep(rec, input, Catalogue[1], f) + SecondStep(rec, input, Catalogue[2], f) + SecondStep(rec, input, Catalogue[3], f) + SecondStep(rec, input, Catalogue[4], f) + SecondStep(rec, input, Catalogue[5], f);
    assert SecondPass(rec, input, f, 7) == SecondStep(rec, input, Catalogue[0], f) + SecondStep(rec, input, Catalogue[1], f) + SecondStep(rec, input, Catalogue[2], f) + SecondStep(rec, input, Catalogue[3], f) + SecondStep(rec, input, Catalogue[4], f) + SecondStep(rec, input, Catalogue[5], f) + SecondStep(rec, input, Catalogue[6], f);
    assert SecondPass(rec, input, f, 8) == SecondStep(rec, input, Catalogue[0], f) + SecondStep(rec, input, Catalogue[1], f) + SecondStep(rec, input, Catalogue[2], f) + SecondStep(rec, input, Catalogue[3], f) + SecondStep(rec, input, Catalogue[4], f) + SecondStep(rec, input, Catalogue[5], f) + SecondStep(rec, input, Catalogue[6], f) + SecondStep(rec, input, Catalogue[7], f);
    assert SecondPass(rec, input, f, 9) == SecondStep(rec, input, Catalogue[0], f) + SecondStep(rec, input, Catalogue[1], f) + SecondStep(rec, input, Catalogue[2], f) + SecondStep(rec, input, Catalogue[3], f) + SecondStep(rec, input, Catalogue[4], f) + SecondStep(rec, input, Catalogue[5], f) + SecondStep(rec, input, Catalogue[6], f) + SecondStep(rec, input, Catalogue[7], f) + SecondStep(rec, input, Catalogue[8], f);
    assert SecondPass(rec, input, f, 10) == SecondStep(rec, input, Catalogue[0], f) + SecondStep(rec, input, Catalogue[1], f) + SecondStep(rec, input, Catalogue[2], f) + SecondStep(rec, input, Catalogue[3], f) + SecondStep(rec, input, Catalogue[4], f) + SecondStep(rec, input, Catalogue[5], f) + SecondStep(rec, input, Catalogue[6], f) + SecondStep(rec, input, Catalogue[7], f) + SecondStep(rec, input, Catalogue[8], f) + SecondStep(rec, input, Catalogue[9], f);
    assert SecondPass(rec, input, f, 11) == SecondStep(rec, input, Catalogue[0], f) + SecondStep(rec, input, Catalogue[1], f) + SecondStep(rec, input, Catalogue[2], f) + SecondStep(rec, input, Catalogue[3], f) + SecondStep(rec, input, Catalogue[4], f) + SecondStep(rec, input, Catalogue[5], f) + SecondStep(rec, input, Catalogue[6], f) + SecondStep(rec, input, Catalogue[7], f) + SecondStep(rec, input, Catalogue[8], f) + SecondStep(rec, input, Catalogue[9], f) + SecondStep(rec, input, Catalogue[10], f);
  }

  /**
   * The output order: the time-range rule (if its regex matched) first, then one slot
   * per catalogue rule in catalogue order, each holding its rule when the second pass
   * keeps it; record i is the record of the i-th of these rules.
   */
  lemma CatalogueOrder(rec: Recogniser, input: string)
    requires input != ""
    ensures var f := rec(TimeRangeRe, input).Some?;
      Fired(rec, input)
      == (if f then [Catalogue[7]] else [])
         + (SecondStep(rec, input, Catalogue[0], f) + SecondStep(rec, input, Catalogue[1], f) + SecondStep(rec, input, Catalogue[2], f)
            + SecondStep(rec, input, Catalogue[3], f) + SecondStep(rec, input, Catalogue[4], f) + SecondStep(rec, input, Catalogue[5], f)
            + SecondStep(rec, input, Catalogue[6], f) + SecondStep(rec, input, Catalogue[7], f) + SecondStep(rec, input, Catalogue[8], f)
            + SecondStep(rec, input, Catalogue[9], f) + SecondStep(rec, input, Catalogue[10], f))
  {
    FirstPassCatalogue(rec, input);
    SecondPassCatalogue(rec, input, rec(TimeRangeRe, input).Some?);
  }

  /** Record i of the output is the record of the i-th rule that fired. */
  lemma MatchAllRecords(rec: Recogniser, input: string)
    ensures |MatchAll(rec, input)| == |Fired(rec, input)|
    ensures forall i | 0 <= i < |Fired(rec, input)| :: MatchAll(rec, input)[i] == Emitted(rec, input, Fired(rec, input)[i])
    ensures Kinds(MatchAll(rec, input)) == RuleKinds(Fired(rec, input))
  {
    forall i | 0 <= i < |Fired(rec, input)|
      ensures MatchAll(rec, input)[i] == Emitted(rec, input, Fired(rec, input)[i])
    {
      RecordsAt(rec, input, Fired(rec, input), i);
    }
    RecordKinds(rec, input, Fired(rec, input));
  }

  /** At most one record per catalogue rule. */
  lemma MatchAllBound(rec: Recogniser, input: string)
    ensures |MatchAll(rec, input)| <= |Catalogue|
  {
    if input != "" {
      PassesBound(rec, input, FirstPass(rec, input, |Catalogue|) != [], |Catalogue|);
    }
  }

  /**
   * A rule fires exactly when it is the matching time-range rule, or the second pass
   * keeps it (with the range test of the first pass).
   */
  lemma FiredRules(rec: Recogniser, input: string)
    ensures forall r :: r in Fired(rec, input) <==>
      && input != ""
      && (exists j | 0 <= j < |Catalogue| :: Catalogue[j] == r)
      && (FiresFirst(rec, input, r) || FiresSecond(rec, input, r, rec(TimeRangeRe, input).Some?))
  {
    if input != "" {
      FirstPassCatalogue(rec, input);
      FirstPassRules(rec, input, |Catalogue|);
      SecondPassRules(rec, input, rec(TimeRangeRe, input).Some?, |Catalogue|);
    }
  }

  /** Every output record comes from a catalogue rule that fired. */
  lemma RecordOrigin(rec: Recogniser, input: string, x: MatchRecord) returns (r: Rule)
    requires x in MatchAll(rec, input)
    ensures r in Fired(rec, input) && r in Catalogue && x == Emitted(rec, input, r)
  {
    var rs := Fired(rec, input);
    var i :| 0 <= i < |rs| && MatchAll(rec, input)[i] == x;
    RecordsAt(rec, input, rs, i);
    r := rs[i];
    FiredRules(rec, input);
  }

  /** A fired rule's record is in the output. */
  lemma RecordOfFired(rec: Recogniser, input: string, r: Rule)
    requires r in Fired(rec, input)
    ensures Emitted(rec, input, r) in MatchAll(rec, input)
  {
    var rs := Fired(rec, input);
    var i :| 0 <= i < |rs| && rs[i] == r;
    RecordsAt(rec, input, rs, i);
  }

  /** The output holds a record of kind `k` exactly when a rule of kind `k` fired. */
  lemma HasKindFired(rec: Recogniser, input: string, k: Kind)
    ensures HasKind(MatchAll(rec, input), k) <==> Reports(rec, input, k)
  {
    var rs := Fired(rec, input);
    var out := MatchAll(rec, input);
    if HasKind(out, k) {
      var i :| 0 <= i < |out| && out[i].kind == k;
      RecordsAt(rec, input, rs, i);
      assert rs[i] in rs;
    }
    if Reports(rec, input, k) {
      var r :| r in rs && r.kind == k;
      var i :| 0 <= i < |rs| && rs[i] == r;
      RecordsAt(rec, input, rs, i);
    }
  }

  /** A time range comes first, there is at most one, and it is there exactly when its regex matched. */
  lemma TimeRangeFirst(rec: Recogniser, input: string)
    ensures forall i | 0 <= i < |Fired(rec, input)| :: Fired(rec, input)[i].kind == TimeRange ==> i == 0
    ensures Reports(rec, input, TimeRange) <==> input != "" && rec(TimeRangeRe, input).Some?
  {
    var rs := Fired(rec, input);
    if input != "" {
      FirstPassCatalogue(rec, input);
      var first := FirstPass(rec, input, |Catalogue|);
      var second := SecondPass(rec, input, first != [], |Catalogue|);
      SecondPassRules(rec, input, first != [], |Catalogue|);
      assert rs == first + second;
      forall i | 0 <= i < |rs|
        ensures rs[i].kind == TimeRange ==> i == 0 && first != []
      {
        if i >= |first| {
          assert rs[i] in second;
        }
      }
      if rec(TimeRangeRe, input).Some? {
        assert rs[0] == Catalogue[7];
      }
    }
  }

  /** A matched time range shuts out every clock-time rule. */
  lemma RangeExcludesClockTime(rec: Recogniser, input: string)
    requires Reports(rec, input, TimeRange)
    ensures !Reports(rec, input, SpecificTime)
  {
    TimeRangeFirst(rec, input);
    FiredRules(rec, input);
  }

  /**
   * A rule of kind `k` (any kind but time ranges) fires exactly when some catalogue
   * rule of that kind is kept by the second pass.
   */
  lemma KindPresence(rec: Recogniser, input: string, k: Kind)
    requires k != TimeRange
    ensures Reports(rec, input, k) <==>
      input != "" && exists j | 0 <= j < |Catalogue| ::
        Catalogue[j].kind == k && FiresSecond(rec, input, Catalogue[j], rec(TimeRangeRe, input).Some?)
  {
    FiredRules(rec, input);
    if Reports(rec, input, k) {
      var r :| r in Fired(rec, input) && r.kind == k;
      var j :| 0 <= j < |Catalogue| && Catalogue[j] == r;
    }
  }

  /** A `relative_day` record is produced exactly when the relative-day regex matches. */
  lemma RelativeDayPresence(rec: Recogniser, input: string)
    ensures Reports(rec, input, RelativeDay) <==> input != "" && rec(RelativeDayRe, input).Some?
  {
    KindPresence(rec, input, RelativeDay);
    forall j | 0 <= j < |Catalogue| {
      CatalogueKinds(j);
    }
    var f := rec(TimeRangeRe, input).Some?;
    assert Catalogue[0] == Rule(RelativeDayRe, RelativeDay, RelativeDayH);
    if input != "" && rec(RelativeDayRe, input).Some? {
      assert FiresSecond(rec, input, Catalogue[0], f);
    }
  }

  /**
   * A clock time (the H:MM am/pm rule or noon/midnight) is reported exactly when one of
   * them matches and no time range does.
   */
  lemma SpecificTimePresence(rec: Recogniser, input: string)
    ensures Reports(rec, input, SpecificTime) <==>
      && input != ""
      && rec(TimeRangeRe, input).None?
      && (rec(ClockTimeRe, input).Some? || rec(NoonMidnightRe, input).Some?)
  {
    KindPresence(rec, input, SpecificTime);
    forall j | 0 <= j < |Catalogue| {
      CatalogueKinds(j);
    }
    var f := rec(TimeRangeRe, input).Some?;
    assert Catalogue[4] == Rule(ClockTimeRe, SpecificTime, ClockTimeH);
    assert Catalogue[8] == Rule(NoonMidnightRe, SpecificTime, NoonMidnightH);
    if input != "" && !f && rec(ClockTimeRe, input).Some? {
      assert FiresSecond(rec, input, Catalogue[4], f);
    }
    if input != "" && !f && rec(NoonMidnightRe, input).Some? {
      assert FiresSecond(rec, input, Catalogue[8], f);
    }
  }

  /**
   * A `relative_week_day` record is produced exactly when its regex matches and neither
   * an "end of week" phrase nor a monthly phrase is present.
   */
  lemma RelativeWeekDayPresence(rec: Recogniser, input: string)
    ensures Reports(rec, input, RelativeWeekDay) <==>
      && input != ""
      && rec(RelativeWeekDayRe, input).Some?
      && rec(EndOfWeekRe, input).None?
      && rec(MonthlyRe, input).None?
  {
    KindPresence(rec, input, RelativeWeekDay);
    forall j | 0 <= j < |Catalogue| {
      CatalogueKinds(j);
    }
    var f := rec(TimeRangeRe, input).Some?;
    assert Catalogue[1] == Rule(RelativeWeekDayRe, RelativeWeekDay, RelativeWeekDayH);
    if input != "" && rec(RelativeWeekDayRe, input).Some? && rec(EndOfWeekRe, input).None? && rec(MonthlyRe, input).None? {
      assert FiresSecond(rec, input, Catalogue[1], f);
    }
  }

  /**
   * A `relative_week` record is produced exactly when the end-of-period regex matches
   * and no named weekday does.
   */
  lemma RelativeWeekPresence(rec: Recogniser, input: string)
    ensures Reports(rec, input, RelativeWeek) <==>
      input != "" && rec(EndOfPeriodRe, input).Some? && rec(NamedWeekdayRe, input).None?
  {
    KindPresence(rec, input, RelativeWeek);
    forall j | 0 <= j < |Catalogue| {
      CatalogueKinds(j);
    }
    var f := rec(TimeRangeRe, input).Some?;
    assert Catalogue[2] == Rule(EndOfPeriodRe, RelativeWeek, EndOfPeriodH);
    if input != "" && rec(EndOfPeriodRe, input).Some? && rec(NamedWeekdayRe, input).None? {
      assert FiresSecond(rec, input, Catalogue[2], f);
    }
  }

  /** An "end of week" phrase suppresses the relative-week-day rule. */
  lemma EndOfWeekSuppressesWeekDay(rec: Recogniser, input: string)
    requires rec(EndOfWeekRe, input).Some?
    ensures !Reports(rec, input, RelativeWeekDay)
  {
    RelativeWeekDayPresence(rec, input);
  }

  /** A named weekday suppresses the end-of-period rule. */
  lemma NamedWeekdaySuppressesWeek(rec: Recogniser, input: string)
    requires rec(NamedWeekdayRe, input).Some?
    ensures !Reports(rec, input, RelativeWeek)
  {
    RelativeWeekPresence(rec, input);
  }

  /** A monthly phrase suppresses the relative-week-day rule. */
  lemma MonthlySuppressesWeekDay(rec: Recogniser, input: string)
    requires rec(MonthlyRe, input).Some?
    ensures !Reports(rec, input, RelativeWeekDay)
  {
    RelativeWeekDayPresence(rec, input);
  }

  /**
   * A monthly phrase always yields its `recurring` record, whose position defaults to
   * "last" when the phrase names none.
   */
  lemma MonthlyRecord(rec: Recogniser, input: string, m: Captures)
    requires input != "" && rec(MonthlyRe, input) == Some(m)
    ensures MatchRecord(Recurring, MonthlyP(Monthly, ToLower(Req(m, 2)),
              if Truthy(Group(m, 1)) then ToLower(Group(m, 1).value) else "last")) in MatchAll(rec, input)
  {
    MonthlyFires(rec, input);
    RecordOfFired(rec, input, Catalogue[6]);
    MonthlyEmitted(rec, input, m);
  }

  lemma MonthlyFires(rec: Recogniser, input: string)
    requires input != "" && rec(MonthlyRe, input).Some?
    ensures Catalogue[6] in Fired(rec, input)
  {
    var r := Catalogue[6];
    assert r == Rule(MonthlyRe, Recurring, MonthlyH);
    FiredRules(rec, input);
    assert FiresSecond(rec, input, r, rec(TimeRangeRe, input).Some?);
  }

  lemma MonthlyEmitted(rec: Recogniser, input: string, m: Captures)
    requires rec(MonthlyRe, input) == Some(m)
    ensures Emitted(rec, input, Catalogue[6]) == MatchRecord(Recurring, MonthlyP(Monthly, ToLower(Req(m, 2)),
              if Truthy(Group(m, 1)) then ToLower(Group(m, 1).value) else "last"))
  {
    var r := Catalogue[6];
    assert r == Rule(MonthlyRe, Recurring, MonthlyH);
    EmittedMatch(rec, input, r, m);
  }

  /** Every `relative_week` record is an "end of next" period. */
  lemma RelativeWeekRecords(rec: Recogniser, input: string)
    ensures forall x | x in MatchAll(rec, input) && x.kind == RelativeWeek ::
      x.payload.PeriodP? && x.payload.position == "end" && x.payload.modifier == "next"
  {
    forall x | x in MatchAll(rec, input) && x.kind == RelativeWeek
      ensures x.payload.PeriodP? && x.payload.position == "end" && x.payload.modifier == "next"
    {
      var r := RecordOrigin(rec, input, x);
      var j :| 0 <= j < |Catalogue| && Catalogue[j] == r;
      CatalogueKinds(j);
    }
  }

  /** Every `relative_week_day` record names a day starting with "next ". */
  lemma RelativeWeekDayRecords(rec: Recogniser, input: string)
    ensures forall x | x in MatchAll(rec, input) && x.kind == RelativeWeekDay ::
      x.payload.RelativeDayP? && StartsWith(x.payload.relativeDay, "next ")
  {
    forall x | x in MatchAll(rec, input) && x.kind == RelativeWeekDay
      ensures x.payload.RelativeDayP? && StartsWith(x.payload.relativeDay, "next ")
    {
      var r := RecordOrigin(rec, input, x);
      var j :| 0 <= j < |Catalogue| && Catalogue[j] == r;
      CatalogueKinds(j);
      RelativeWeekDayStartsNext(rec(RelativeWeekDayRe, input).GetOr([]));
    }
  }

  // ---------------------------------------------------------------- properties of the handlers

  /** The relative-week-day handler always produces "next week", "next week <day>" or "next <day>". */
  lemma RelativeWeekDayStartsNext(m: Captures)
    ensures StartsWith(RelativeWeekDayHandler(m).relativeDay, "next ")
  {
    var g1, g2 := Group(m, 1), Group(m, 2);
    var raw := if Truthy(g1) then "next week " + g1.value else "next " + (if Truthy(g2) then g2.value else "week");
    var rest := if Truthy(g1) then "week " + g1.value else if Truthy(g2) then g2.value else "week";
    assert raw == "next " + rest;
    ToLowerAppend("next ", rest);
    assert ToLower("next ") == "next ";
  }

  /**
   * The 12-hour clock: hours 1..12 with "pm" become 13..23 and 12, with "am" 1..11 and 0;
   * without a meridiem the hour is kept.
   */
  lemma ConvertHourTwelveHourClock(h: int)
    ensures 1 <= h <= 12 ==> ConvertHour(h, true, false) == h % 12 + 12
    ensures 1 <= h <= 12 ==> ConvertHour(h, false, true) == h % 12
    ensures ConvertHour(h, false, false) == h
  {
  }

  /** The clock handler tests the meridiem's first letter, whichever case and dotted form it takes. */
  lemma MeridiemFirstLetter(s: string)
    requires s != [] && s[0] != '.'
    ensures StartsWith(Meridiem(s), "p") <==> LowerChar(s[0]) == 'p'
    ensures StartsWith(Meridiem(s), "a") <==> LowerChar(s[0]) == 'a'
  {
    ToLowerAt(s, 0);
    var l := ToLower(s);
    assert l[0] != '.';
    assert RemoveFirst(l, '.') == [l[0]] + RemoveFirst(l[1..], '.');
  }

  // ---------------------------------------------------------------- the memoising matcher

  /** The `DateTimePatterns` object: its rule list and its memo table. */
  class DateTimePatterns {
    const recognise: Recogniser
    const patterns: seq<Rule>
    var patternCache: map<string, seq<MatchRecord>>

    /** Every memo entry is what the two passes compute for its key. */
    ghost predicate Valid()
      reads this
    {
      && patterns == Catalogue
      && forall s | s in patternCache :: patternCache[s] == MatchAll(recognise, s)
    }

    constructor (recognise: Recogniser)
      ensures Valid()
      ensures this.recognise == recognise && patternCache == map[]
    {
      this.recognise := recognise;
      patterns := Catalogue;
      patternCache := map[];
    }

    /** The first loop: the time-range rules, in catalogue order. */
    method FindTimeRanges(input: string) returns (matches: seq<MatchRecord>)
      requires patterns == Catalogue
      ensures matches == Records(recognise, input, FirstPass(recognise, input, |Catalogue|))
    {
      matches := [];
      for i := 0 to |patterns|
        invariant matches == Records(recognise, input, FirstPass(recognise, input, i))
      {
        var pattern := patterns[i];
        ghost var before := FirstPass(recognise, input, i);
        assert FirstPass(recognise, input, i + 1)
            == before + (if FiresFirst(recognise, input, pattern) then [pattern] else []);
        if pattern.kind == TimeRange {
          var m := recognise(pattern.regex, input);
          if m.Some? {
            EmittedMatch(recognise, input, pattern, m.value);
            RecordsSnoc(recognise, input, before, pattern);
            matches := matches + [Fire(pattern, m.value)];
          } else {
            assert FirstPass(recognise, input, i + 1) == before;
          }
        } else {
          assert FirstPass(recognise, input, i + 1) == before;
        }
      }
    }

    /** The second loop: every other rule, no clock time after a range, and the three suppressions. */
    method FindOthers(input: string, timeRangeFound: bool) returns (matches: seq<MatchRecord>)
      requires patterns == Catalogue
      ensures matches == Records(recognise, input, SecondPass(recognise, input, timeRangeFound, |Catalogue|))
    {
      matches := [];
      for i := 0 to |patterns|
        invariant matches == Records(recognise, input, SecondPass(recognise, input, timeRangeFound, i))
      {
        var pattern := patterns[i];
        if pattern.kind != TimeRange && (!timeRangeFound || pattern.kind != SpecificTime) {
          var m := recognise(pattern.regex, input);
          if m.Some? {
            if pattern.kind == RelativeWeekDay && recognise(EndOfWeekRe, input).Some? {
              SkipStep(recognise, input, timeRangeFound, i);
              continue;
            }
            if pattern.kind == RelativeWeek && recognise(NamedWeekdayRe, input).Some? {
              SkipStep(recognise, input, timeRangeFound, i);
              continue;
            }
            if pattern.kind == RelativeWeekDay && recognise(MonthlyRe, input).Some? {
              SkipStep(recognise, input, timeRangeFound, i);
              continue;
            }
            KeepRecords(recognise, input, timeRangeFound, i, m.value);
            matches := matches + [Fire(pattern, m.value)];
          } else {
            SkipStep(recognise, input, timeRangeFound, i);
          }
        } else {
          SkipStep(recognise, input, timeRangeFound, i);
        }
      }
    }

    /** The two passes of `matchPattern` on an input that is neither empty nor memoised. */
    method RunPasses(input: string) returns (matches: seq<MatchRecord>)
      requires patterns == Catalogue && input != ""
      ensures matches == MatchAll(recognise, input)
    {
      var ranges := FindTimeRanges(input);
      var first := FirstPass(recognise, input, |Catalogue|);
      assert ranges != [] <==> first != [];
      var others := FindOthers(input, ranges != []);
      RecordsAppend(recognise, input, first, SecondPass(recognise, input, first != [], |Catalogue|));
      matches := ranges + others;
    }

    /** `matchPattern(input)`: the memoised result of the two passes. */
    method MatchPattern(input: string) returns (matches: seq<MatchRecord>)
      requires Valid()
      modifies this
      ensures Valid()
      ensures matches == MatchAll(recognise, input)
      ensures input == "" ==> matches == []
      ensures input in old(patternCache) ==> matches == old(patternCache)[input]
      ensures patternCache == if input == "" then old(patternCache) else old(patternCache)[input := matches]
    {
      if input == "" {
        return [];
      }
      if input in patternCache {
        return patternCache[input];
      }
      matches := RunPasses(input);
      patternCache := patternCache[input := matches];
    }
  }
}
