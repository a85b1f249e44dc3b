/**
 * `FeedbackProcessor`: the analytics over the parsing logs of one time window. The
 * logs are a parameter (the database query that fetches them is not modelled); the
 * floating-point ratios are exact `real`s; the details text that `toFixed` formats is
 * kept as the numbers it would format.
 */
module FeedbackProcessor {
  import opened Wrappers
  import opened Text

  /**
   * A log's `errors` value: absent (`null`/`undefined`), a string, or an object whose
   * `message` is tested. The empty string is falsy, like an absent value.
   */
  datatype ErrorValue = Missing | Str(text: string) | Obj(message: string)

  /**
   * The fields of a parsing log the analysis reads. `processingTimeMs` is
   * `metrics.processing_time_ms` and `confidence` is `parsed_output.confidence`, each
   * read as 0 when absent (`|| 0`).
   */
  datatype Log = Log(
    success: bool,
    errors: ErrorValue,
    processingTimeMs: real,
    anonymizedInput: Option<string>,
    confidence: real)

  /** The categories `categorizeError` returns; `CategoryName` is the string used as the key. */
  datatype ErrorCategory = UnknownError | DateParsingError | TimeParsingError | FormatError | InvalidInput | OtherError

  function CategoryName(c: ErrorCategory): string {
    match c
    case UnknownError => "Unknown Error"
    case DateParsingError => "Date Parsing Error"
    case TimeParsingError => "Time Parsing Error"
    case FormatError => "Format Error"
    case InvalidInput => "Invalid Input"
    case OtherError => "Other Error"
  }

  /** Distinct categories have distinct key strings, so the categories stand for the keys. */
  lemma CategoryNamesDistinct(a: ErrorCategory, b: ErrorCategory)
    requires a != b
    ensures CategoryName(a) != CategoryName(b)
  {
  }

  /** `categorizeError(error)`: ordered, case-sensitive substring tests on the message. */
  function Categorize(e: ErrorValue): (c: ErrorCategory)
    ensures c == UnknownError <==> e.Missing? || e == Str("")
  {
    if e.Missing? || e == Str("") then UnknownError
    else
      var msg := if e.Str? then e.text else e.message;
      if Contains(msg, "date") then DateParsingError
      else if Contains(msg, "time") then TimeParsingError
      else if Contains(msg, "format") then FormatError
      else if Contains(msg, "invalid") then InvalidInput
      else OtherError
  }

  /** A non-empty string and an object with that message fall in the same category. */
  lemma CategorizeStringOrObject(msg: string)
    requires msg != ""
    ensures Categorize(Str(msg)) == Categorize(Obj(msg))
  {
  }

  /** The empty string is falsy, but an object with an empty message is not: it is tested and matches nothing. */
  lemma CategorizeEmpty()
    ensures Categorize(Str("")) == UnknownError
    ensures Categorize(Obj("")) == OtherError
  {
    Absent("", "date");
    Absent("", "time");
    Absent("", "format");
    Absent("", "invalid");
  }

  /** "date" is tested before "time": a message with both is a date error. */
  lemma CategorizeDateFirst(msg: string)
    requires Contains(msg, "date") && Contains(msg, "time")
    ensures Categorize(Str(msg)) == DateParsingError
  {
  }

  /** The tests are case-sensitive: an upper-case message matches none of them. */
  lemma CategorizeCaseSensitive()
    ensures Categorize(Str("INVALID DATE")) == OtherError
  {
    var m := "INVALID DATE";
    Absent(m, "date");
    Absent(m, "time");
    Absent(m, "format");
    Absent(m, "invalid");
  }

  function Category(l: Log): ErrorCategory {
    Categorize(l.errors)
  }

  // ---------------------------------------------------------------- grouping

  /** What the grouping loop reads of one failed log: its category, its processing time and its anonymised input. */
  datatype Entry = Entry(category: ErrorCategory, time: real, input: Option<string>)

  function EntryOf(l: Log): Entry {
    Entry(Category(l), l.processingTimeMs, l.anonymizedInput)
  }

  function Entries(logs: seq<Log>): (es: seq<Entry>)
    ensures |es| == |logs|
  {
    if logs == [] then [] else Entries(logs[..|logs| - 1]) + [EntryOf(logs[|logs| - 1])]
  }

  lemma {:induction false} EntriesAt(logs: seq<Log>, i: nat)
    requires i < |logs|
    ensures Entries(logs)[i] == EntryOf(logs[i])
  {
    var n := |logs| - 1;
    if i < n {
      EntriesAt(logs[..n], i);
    }
  }

  /** One entry of the `patterns` object: the count, the examples kept, and the summed (later averaged) time. */
  datatype Bucket = Bucket(count: nat, examples: seq<Option<string>>, avgProcessingTime: real)

  /** The `patterns` object: its keys (as categories) in insertion order and its values. */
  datatype ErrorPatterns = ErrorPatterns(keys: seq<ErrorCategory>, buckets: map<ErrorCategory, Bucket>)

  predicate Distinct(keys: seq<ErrorCategory>) {
    forall i, j | 0 <= i < j < |keys| :: keys[i] != keys[j]
  }

  /** The keys are distinct and are exactly the object's properties. */
  ghost predicate WellFormed(p: ErrorPatterns) {
    Distinct(p.keys) && forall c :: c in p.buckets <==> c in p.keys
  }

  /** Every key names a bucket: what iterating the object's entries needs. */
  predicate HasBuckets(p: ErrorPatterns) {
    forall c | c in p.keys :: c in p.buckets
  }

  /** The categories of `es`, each once, in order of first appearance. */
  function Keys(es: seq<Entry>): seq<ErrorCategory> {
    if es == [] then []
    else
      var ks := Keys(es[..|es| - 1]);
      var c := es[|es| - 1].category;
      if c in ks then ks else ks + [c]
  }

  /** How many of `es` fall in category `c`. */
  function CountOf(es: seq<Entry>, c: ErrorCategory): nat {
    if es == [] then 0
    else CountOf(es[..|es| - 1], c) + (if es[|es| - 1].category == c then 1 else 0)
  }

  /** The summed processing time of the entries in category `c`. */
  function TimeOf(es: seq<Entry>, c: ErrorCategory): real {
    if es == [] then 0.0
    else TimeOf(es[..|es| - 1], c) + (if es[|es| - 1].category == c then es[|es| - 1].time else 0.0)
  }

  /** The anonymised inputs of the entries in category `c`, in input order. */
  function InputsOf(es: seq<Entry>, c: ErrorCategory): seq<Option<string>> {
    if es == [] then []
    else InputsOf(es[..|es| - 1], c) + (if es[|es| - 1].category == c then [es[|es| - 1].input] else [])
  }

  function FirstThree<T>(s: seq<T>): seq<T> {
    if |s| <= 3 then s else s[..3]
  }

  /** The bucket of `c` after the grouping loop: the time is still the sum. */
  function Accumulated(es: seq<Entry>, c: ErrorCategory): Bucket {
    Bucket(CountOf(es, c), FirstThree(InputsOf(es, c)), TimeOf(es, c))
  }

  /** The bucket after the averaging loop (a category that has a bucket has a positive count). */
  function Averaged(b: Bucket): Bucket {
    b.(avgProcessingTime := if b.count == 0 then b.avgProcessingTime else b.avgProcessingTime / b.count as real)
  }

  function Grouped(es: seq<Entry>): ErrorPatterns {
    ErrorPatterns(Keys(es), map c | c in Keys(es) :: Averaged(Accumulated(es, c)))
  }

  /** What `analyzeErrorPatterns(failedLogs)` returns. */
  function PatternsOf(logs: seq<Log>): ErrorPatterns {
    Grouped(Entries(logs))
  }

  lemma {:induction false} KeysMembership(es: seq<Entry>, c: ErrorCategory)
    ensures c in Keys(es) <==> exists i | 0 <= i < |es| :: es[i].category == c
  {
    if es != [] {
      var n := |es| - 1;
      KeysMembership(es[..n], c);
      assert forall i | 0 <= i < n :: es[..n][i] == es[i];
      if es[n].category == c {
        assert c in Keys(es);
      }
    }
  }

  lemma {:induction false} KeysDistinct(es: seq<Entry>)
    ensures Distinct(Keys(es))
  {
    if es != [] {
      KeysDistinct(es[..|es| - 1]);
    }
  }

  /** A category with no entry has an empty bucket. */
  lemma {:induction false} AbsentCategory(es: seq<Entry>, c: ErrorCategory)
    requires c !in Keys(es)
    ensures Accumulated(es, c) == Bucket(0, [], 0.0)
  {
    if es != [] {
      var n := |es| - 1;
      assert c !in Keys(es[..n]);
      AbsentCategory(es[..n], c);
    }
  }

  lemma {:induction false} InputsCounted(es: seq<Entry>, c: ErrorCategory)
    ensures |InputsOf(es, c)| == CountOf(es, c)
  {
    if es != [] {
      InputsCounted(es[..|es| - 1], c);
    }
  }

  /** Every category the loop records has at least one entry. */
  lemma {:induction false} PresentCategory(es: seq<Entry>, c: ErrorCategory)
    requires c in Keys(es)
    ensures CountOf(es, c) > 0
  {
    var n := |es| - 1;
    if es[n].category != c {
      assert c in Keys(es[..n]);
      PresentCategory(es[..n], c);
    }
  }

  /** One more entry changes only its own category's bucket: count + 1, its time added, its input kept if fewer than three are. */
  lemma AccumulateStep(es: seq<Entry>, x: Entry, c: ErrorCategory)
    ensures var b := Accumulated(es, c);
      Accumulated(es + [x], c) ==
        if x.category == c then
          Bucket(b.count + 1, if |b.examples| < 3 then b.examples + [x.input] else b.examples, b.avgProcessingTime + x.time)
        else b
  {
    assert (es + [x])[..|es|] == es;
    var s := InputsOf(es, c);
    if |s| >= 3 {
      assert (s + [x.input])[..3] == s[..3];
    }
  }

  /** Storing the updated bucket of the new entry's category keeps every bucket accumulated. */
  lemma BucketStep(es: seq<Entry>, e: Entry, buckets: map<ErrorCategory, Bucket>, b: Bucket)
    requires forall c | c in buckets :: buckets[c] == Accumulated(es, c)
    requires b == Accumulated(es + [e], e.category)
    ensures forall c | c in buckets[e.category := b] :: buckets[e.category := b][c] == Accumulated(es + [e], c)
  {
    forall c | c in buckets[e.category := b]
      ensures buckets[e.category := b][c] == Accumulated(es + [e], c)
    {
      if c != e.category {
        AccumulateStep(es, e, c);
      }
    }
  }

  lemma KeysStep(es: seq<Entry>, x: Entry)
    ensures Keys(es + [x]) == if x.category in Keys(es) then Keys(es) else Keys(es) + [x.category]
  {
    assert (es + [x])[..|es|] == es;
  }

  /** The sum of the counts of the buckets named by `keys`. */
  function SumCounts(p: ErrorPatterns, keys: seq<ErrorCategory>): int
    requires forall c | c in keys :: c in p.buckets
  {
    if keys == [] then 0 else SumCounts(p, keys[..|keys| - 1]) + p.buckets[keys[|keys| - 1]].count
  }

  function SumCountOf(es: seq<Entry>, keys: seq<ErrorCategory>): int {
    if keys == [] then 0 else SumCountOf(es, keys[..|keys| - 1]) + CountOf(es, keys[|keys| - 1])
  }

  lemma {:induction false} SumCountStep(es: seq<Entry>, x: Entry, keys: seq<ErrorCategory>)
    requires Distinct(keys)
    ensures SumCountOf(es + [x], keys) == SumCountOf(es, keys) + (if x.category in keys then 1 else 0)
  {
    assert (es + [x])[..|es|] == es;
    if keys != [] {
      var n := |keys| - 1;
      SumCountStep(es, x, keys[..n]);
      assert x.category in keys <==> x.category in keys[..n] || x.category == keys[n];
    }
  }

  lemma SumCountNew(es: seq<Entry>, keys: seq<ErrorCategory>, c: ErrorCategory)
    requires c !in Keys(es)
    ensures SumCountOf(es, keys + [c]) == SumCountOf(es, keys)
  {
    assert (keys + [c])[..|keys|] == keys;
    AbsentCategory(es, c);
  }

  /** Every entry is counted in exactly one bucket: the counts add up to the number of entries. */
  lemma {:induction false} CountsSum(es: seq<Entry>)
    ensures SumCountOf(es, Keys(es)) == |es|
  {
    if es != [] {
      var n := |es| - 1;
      var prev := es[..n];
      var x := es[n];
      assert es == prev + [x];
      CountsSum(prev);
      KeysDistinct(es);
      KeysStep(prev, x);
      if x.category in Keys(prev) {
        SumCountStep(prev, x, Keys(prev));
      } else {
        SumCountStep(prev, x, Keys(prev) + [x.category]);
        SumCountNew(prev, Keys(prev), x.category);
      }
    }
  }

  lemma {:induction false} SumCountsAgree(es: seq<Entry>, keys: seq<ErrorCategory>)
    requires forall c | c in keys :: c in Keys(es)
    ensures SumCounts(Grouped(es), keys) == SumCountOf(es, keys)
  {
    if keys != [] {
      SumCountsAgree(es, keys[..|keys| - 1]);
    }
  }

  /** Each bucket counts its category's logs, keeps the first three of their inputs in input order, and holds their average time. */
  lemma BucketContents(es: seq<Entry>, c: ErrorCategory)
    requires c in Keys(es)
    ensures var b := Grouped(es).buckets[c];
      && b.count == CountOf(es, c) > 0
      && |b.examples| == (if b.count < 3 then b.count else 3)
      && b.examples == InputsOf(es, c)[..|b.examples|]
      && b.avgProcessingTime == TimeOf(es, c) / b.count as real
  {
    var a := Accumulated(es, c);
    var b := Grouped(es).buckets[c];
    assert b == Averaged(a);
    PresentCategory(es, c);
    InputsCounted(es, c);
    FirstThreePrefix(InputsOf(es, c));
    assert b.count == a.count && a.avgProcessingTime == TimeOf(es, c);
  }

  lemma FirstThreePrefix<T>(s: seq<T>)
    ensures |FirstThree(s)| == (if |s| < 3 then |s| else 3)
    ensures FirstThree(s) == s[..|FirstThree(s)|]
  {
  }

  /** Averaging the summed buckets of `es` gives `Grouped(es)`. */
  lemma AveragedGroups(es: seq<Entry>, summed: map<ErrorCategory, Bucket>, buckets: map<ErrorCategory, Bucket>)
    requires forall c :: c in summed <==> c in Keys(es)
    requires forall c | c in summed :: summed[c] == Accumulated(es, c)
    requires forall c :: c in buckets <==> c in Keys(es)
    requires forall c | c in Keys(es) :: buckets[c] == Averaged(summed[c])
    ensures ErrorPatterns(Keys(es), buckets) == Grouped(es)
  {
  }

  /**
   * The grouping's promises: the keys are distinct and name exactly the buckets, every
   * failed log lands in the bucket of its category, and the counts add up to the number
   * of failed logs.
   */
  lemma GroupingProperties(logs: seq<Log>)
    ensures WellFormed(PatternsOf(logs))
    ensures forall i | 0 <= i < |logs| :: Category(logs[i]) in PatternsOf(logs).buckets
    ensures SumCounts(PatternsOf(logs), PatternsOf(logs).keys) == |logs|
  {
    var es := Entries(logs);
    KeysDistinct(es);
    forall i | 0 <= i < |logs|
      ensures Category(logs[i]) in Keys(es)
    {
      EntriesAt(logs, i);
      KeysMembership(es, es[i].category);
    }
    CountsSum(es);
    SumCountsAgree(es, Keys(es));
  }

  // ---------------------------------------------------------------- rates

  function CountSuccessful(logs: seq<Log>): (n: nat)
    ensures n <= |logs|
  {
    if logs == [] then 0 else CountSuccessful(logs[..|logs| - 1]) + (if logs[|logs| - 1].success then 1 else 0)
  }

  /** `logs.filter(log => !log.parsing_success)` */
  function Failed(logs: seq<Log>): (f: seq<Log>)
    ensures |f| == |logs| - CountSuccessful(logs)
    ensures forall i | 0 <= i < |f| :: !f[i].success
  {
    if logs == [] then [] else Failed(logs[..|logs| - 1]) + (if logs[|logs| - 1].success then [] else [logs[|logs| - 1]])
  }

  /** The failed logs are exactly the unsuccessful ones. */
  lemma {:induction false} FailedMembers(logs: seq<Log>)
    ensures forall x :: x in Failed(logs) <==> x in logs && !x.success
  {
    if logs != [] {
      FailedMembers(logs[..|logs| - 1]);
      assert logs == logs[..|logs| - 1] + [logs[|logs| - 1]];
    }
  }

  function SumConfidence(logs: seq<Log>): real {
    if logs == [] then 0.0 else SumConfidence(logs[..|logs| - 1]) + (if logs[|logs| - 1].success then logs[|logs| - 1].confidence else 0.0)
  }

  /** `totalLogs > 0 ? successfulLogs / totalLogs : 0` */
  function SuccessRate(total: nat, successful: nat): real {
    if total > 0 then successful as real / total as real else 0.0
  }

  /** `1 - successRate` */
  function ErrorRate(total: nat, successful: nat): real {
    1.0 - SuccessRate(total, successful)
  }

  /** The success rate is a fraction, and the error rate exceeds 0.2 exactly when more than a fifth of a non-empty window failed; an empty window has error rate 1. */
  lemma RateProperties(total: nat, successful: nat)
    requires successful <= total
    ensures 0.0 <= SuccessRate(total, successful) <= 1.0
    ensures total == 0 ==> ErrorRate(total, successful) == 1.0
    ensures total > 0 ==> (ErrorRate(total, successful) > 0.2 <==> 5 * (total - successful) > total)
  {
    if total > 0 {
      var t := total as real;
      var s := successful as real;
      FractionBounds(s, t);
      ErrorShare(s, t);
      assert (5 * (total - successful)) as real == 5.0 * (t - s);
    }
  }

  lemma ErrorShare(s: real, t: real)
    requires 0.0 <= s <= t && t > 0.0
    ensures 1.0 - s / t > 0.2 <==> 5.0 * (t - s) > t
  {
    var r := s / t;
    assert r * t == s;
    ScaleCompare(1.0 - r, 0.2, t);
    assert (1.0 - r) * t == t - r * t;
  }

  lemma FractionBounds(s: real, t: real)
    requires 0.0 <= s <= t && t > 0.0
    ensures 0.0 <= s / t <= 1.0
  {
    var r := s / t;
    assert r * t == s;
    if r < 0.0 {
      ScaleCompare(0.0, r, t);
    }
    if r > 1.0 {
      ScaleCompare(r, 1.0, t);
    }
  }

  lemma ScaleCompare(x: real, y: real, t: real)
    requires t > 0.0
    ensures x > y <==> x * t > y * t
  {
    assert x * t - y * t == (x - y) * t;
    if x > y {
      assert (x - y) * t > 0.0;
    } else {
      assert (y - x) * t >= 0.0;
    }
  }

  /** `sum / successfulLogs || 0`: 0/0 is NaN, which `|| 0` turns into 0. */
  function AvgConfidence(logs: seq<Log>): real {
    var n := CountSuccessful(logs);
    if n == 0 then 0.0 else SumConfidence(logs) / n as real
  }

  // ---------------------------------------------------------------- insights and recommendations

  /** An insight's `type`: the three that `generateInsights` emits, or any other string. */
  datatype InsightType = Warning | Critical | PatternType | OtherType(name: string)

  /** An insight's `message`; `MessageText` gives the string. */
  datatype InsightMessage = SmallSampleSize | HighErrorRateDetected | FrequentErrorPattern(pattern: ErrorCategory) | OtherMessage(text: string)

  function MessageText(m: InsightMessage): string {
    match m
    case SmallSampleSize => "Small sample size - results may not be statistically significant"
    case HighErrorRateDetected => "High error rate detected"
    case FrequentErrorPattern(c) => "Frequent error pattern: " + CategoryName(c)
    case OtherMessage(text) => text
  }

  /** The numbers the `details` texts format. */
  datatype Details = NoDetails | FailingShare(errorRate: real) | PatternStats(count: nat, avgProcessingTime: real)

  datatype Insight = Insight(kind: InsightType, message: InsightMessage, details: Details)

  const MinSampleSize: nat := 100
  const ErrorRateThreshold: real := 0.2

  function SmallSample(): Insight {
    Insight(Warning, SmallSampleSize, NoDetails)
  }

  function HighErrorRate(errorRate: real): Insight {
    Insight(Critical, HighErrorRateDetected, FailingShare(errorRate))
  }

  function FrequentPattern(c: ErrorCategory, b: Bucket): Insight {
    Insight(PatternType, FrequentErrorPattern(c), PatternStats(b.count, b.avgProcessingTime))
  }

  /** A bucket is frequent when its count exceeds a tenth of the sample. */
  predicate Frequent(b: Bucket, sampleSize: nat) {
    b.count as real > sampleSize as real * 0.1
  }

  /** The pattern insights for `keys`, in key order. */
  function PatternInsights(p: ErrorPatterns, keys: seq<ErrorCategory>, sampleSize: nat): seq<Insight>
    requires forall c | c in keys :: c in p.buckets
  {
    if keys == [] then []
    else
      var k := keys[|keys| - 1];
      PatternInsights(p, keys[..|keys| - 1], sampleSize) + (if Frequent(p.buckets[k], sampleSize) then [FrequentPattern(k, p.buckets[k])] else [])
  }

  lemma AppendAssoc<T>(a: seq<T>, b: seq<T>, c: seq<T>)
    ensures (a + b) + c == a + (b + c)
  {
  }

  lemma PatternInsightsStep(p: ErrorPatterns, keys: seq<ErrorCategory>, i: nat, sampleSize: nat)
    requires forall c | c in keys :: c in p.buckets
    requires i < |keys|
    ensures var b := p.buckets[keys[i]];
      PatternInsights(p, keys[..i + 1], sampleSize) ==
        PatternInsights(p, keys[..i], sampleSize) + (if Frequent(b, sampleSize) then [FrequentPattern(keys[i], b)] else [])
  {
    assert keys[..i + 1][..i] == keys[..i];
  }

  /** What `generateInsights({errorRate, errorPatterns, sampleSize})` returns. */
  function Insights(errorRate: real, p: ErrorPatterns, sampleSize: nat): seq<Insight>
    requires HasBuckets(p)
  {
    SampleWarning(sampleSize) + RateAlert(errorRate) + PatternInsights(p, p.keys, sampleSize)
  }

  /** The warning of a sample under `MinSampleSize`. */
  function SampleWarning(sampleSize: nat): seq<Insight> {
    if sampleSize < MinSampleSize then [SmallSample()] else []
  }

  /** The critical insight of an error rate over `ErrorRateThreshold`. */
  function RateAlert(errorRate: real): seq<Insight> {
    if errorRate > ErrorRateThreshold then [HighErrorRate(errorRate)] else []
  }

  /** The insights of one type, in order. */
  function OfKind(ins: seq<Insight>, kind: InsightType): seq<Insight> {
    if ins == [] then [] else OfKind(ins[..|ins| - 1], kind) + (if ins[|ins| - 1].kind == kind then [ins[|ins| - 1]] else [])
  }

  lemma {:induction false} OfKindAppend(a: seq<Insight>, b: seq<Insight>, kind: InsightType)
    ensures OfKind(a + b, kind) == OfKind(a, kind) + OfKind(b, kind)
  {
    if b == [] {
      assert a + b == a;
    } else {
      var n := |b| - 1;
      assert (a + b)[..|a + b| - 1] == a + b[..n];
      OfKindAppend(a, b[..n], kind);
    }
  }

  lemma OfKindSingle(x: Insight, kind: InsightType)
    ensures OfKind([x], kind) == if x.kind == kind then [x] else []
  {
    assert [x][..0] == [];
  }

  /** The pattern insights are all of type "pattern". */
  lemma {:induction false} PatternInsightsKind(p: ErrorPatterns, keys: seq<ErrorCategory>, sampleSize: nat, kind: InsightType)
    requires forall c | c in keys :: c in p.buckets
    ensures OfKind(PatternInsights(p, keys, sampleSize), kind) == if kind == PatternType then PatternInsights(p, keys, sampleSize) else []
  {
    if keys != [] {
      var n := |keys| - 1;
      var k := keys[n];
      PatternInsightsKind(p, keys[..n], sampleSize, kind);
      var rest := if Frequent(p.buckets[k], sampleSize) then [FrequentPattern(k, p.buckets[k])] else [];
      OfKindAppend(PatternInsights(p, keys[..n], sampleSize), rest, kind);
      if rest != [] {
        OfKindSingle(rest[0], kind);
      }
    }
  }

  lemma {:induction false} PatternInsightsAbsent(p: ErrorPatterns, keys: seq<ErrorCategory>, sampleSize: nat, k: ErrorCategory)
    requires forall c | c in keys :: c in p.buckets
    requires k !in keys && k in p.buckets
    ensures FrequentPattern(k, p.buckets[k]) !in PatternInsights(p, keys, sampleSize)
  {
    if keys != [] {
      PatternInsightsAbsent(p, keys[..|keys| - 1], sampleSize, k);
    }
  }

  /** A key's pattern insight appears exactly when its bucket is frequent. */
  lemma {:induction false} PatternInsightFor(p: ErrorPatterns, keys: seq<ErrorCategory>, sampleSize: nat, k: ErrorCategory)
    requires forall c | c in keys :: c in p.buckets
    requires Distinct(keys) && k in keys
    ensures FrequentPattern(k, p.buckets[k]) in PatternInsights(p, keys, sampleSize) <==> Frequent(p.buckets[k], sampleSize)
  {
    var n := |keys| - 1;
    if k != keys[n] {
      PatternInsightFor(p, keys[..n], sampleSize, k);
    } else {
      assert k !in keys[..n];
      PatternInsightsAbsent(p, keys[..n], sampleSize, k);
    }
  }

  /**
   * The insights of each type: the warning iff the sample is under 100, the critical
   * insight iff the error rate exceeds 0.2, and the pattern insights.
   */
  lemma InsightsOfKind(errorRate: real, p: ErrorPatterns, sampleSize: nat, kind: InsightType)
    requires HasBuckets(p)
    ensures OfKind(Insights(errorRate, p, sampleSize), kind) ==
      (if sampleSize < 100 && kind == Warning then [SmallSample()] else [])
      + (if errorRate > 0.2 && kind == Critical then [HighErrorRate(errorRate)] else [])
      + (if kind == PatternType then PatternInsights(p, p.keys, sampleSize) else [])
  {
    var w, c, ps := SampleWarning(sampleSize), RateAlert(errorRate), PatternInsights(p, p.keys, sampleSize);
    OfKindAppend(w + c, ps, kind);
    OfKindAppend(w, c, kind);
    PatternInsightsKind(p, p.keys, sampleSize, kind);
    SampleWarningKind(sampleSize, kind);
    RateAlertKind(errorRate, kind);
  }

  lemma SampleWarningKind(sampleSize: nat, kind: InsightType)
    ensures OfKind(SampleWarning(sampleSize), kind) == if sampleSize < 100 && kind == Warning then [SmallSample()] else []
  {
    OfKindSingle(SmallSample(), kind);
  }

  lemma RateAlertKind(errorRate: real, kind: InsightType)
    ensures OfKind(RateAlert(errorRate), kind) == if errorRate > 0.2 && kind == Critical then [HighErrorRate(errorRate)] else []
  {
    OfKindSingle(HighErrorRate(errorRate), kind);
  }

  /** The small-sample warning, when there is one, comes first. */
  lemma WarningFirst(errorRate: real, p: ErrorPatterns, sampleSize: nat)
    requires HasBuckets(p) && sampleSize < 100
    ensures Insights(errorRate, p, sampleSize)[0] == SmallSample()
  {
    var rest := RateAlert(errorRate) + PatternInsights(p, p.keys, sampleSize);
    AppendAssoc(SampleWarning(sampleSize), RateAlert(errorRate), PatternInsights(p, p.keys, sampleSize));
    assert Insights(errorRate, p, sampleSize) == [SmallSample()] + rest;
  }

  /** One pattern insight per frequent bucket, and none for the others. */
  lemma FrequentPatternsReported(errorRate: real, p: ErrorPatterns, sampleSize: nat, k: ErrorCategory)
    requires WellFormed(p) && k in p.keys
    ensures FrequentPattern(k, p.buckets[k]) in Insights(errorRate, p, sampleSize) <==> Frequent(p.buckets[k], sampleSize)
  {
    PatternInsightFor(p, p.keys, sampleSize, k);
    var head := SampleWarning(sampleSize) + RateAlert(errorRate);
    assert Insights(errorRate, p, sampleSize) == head + PatternInsights(p, p.keys, sampleSize);
  }

  datatype Priority = High | Medium | Low

  /** A recommendation's `action`; `ActionText` gives the string. */
  datatype Action = ReviewPatterns | AddPatternRule | CollectMoreData

  /** A recommendation's `details`; `AdviceText` gives the string. */
  datatype Advice = NeedsRefinement | HandlingFor(message: InsightMessage) | KeepMonitoring

  function PriorityText(p: Priority): string {
    match p
    case High => "high"
    case Medium => "medium"
    case Low => "low"
  }

  function ActionText(a: Action): string {
    match a
    case ReviewPatterns => "Review and update parsing patterns"
    case AddPatternRule => "Add new pattern recognition rule"
    case CollectMoreData => "Collect more data"
  }

  function AdviceText(d: Advice): string {
    match d
    case NeedsRefinement => "High error rate indicates need for immediate pattern refinement"
    case HandlingFor(m) => "Consider adding specific handling for: " + MessageText(m)
    case KeepMonitoring => "Continue monitoring to establish reliable patterns"
  }

  datatype Recommendation = Recommendation(priority: Priority, action: Action, details: Advice)

  /** The `switch` on `insight.type`: critical, pattern and warning insights each give a recommendation. */
  function RecommendationFor(i: Insight): Option<Recommendation> {
    match i.kind
    case Critical => Some(Recommendation(High, ReviewPatterns, NeedsRefinement))
    case PatternType => Some(Recommendation(Medium, AddPatternRule, HandlingFor(i.message)))
    case Warning => Some(Recommendation(Low, CollectMoreData, KeepMonitoring))
    case OtherType(_) => None
  }

  /** What `generateRecommendations(insights)` returns. */
  function Recommendations(ins: seq<Insight>): seq<Recommendation> {
    if ins == [] then []
    else
      var r := RecommendationFor(ins[|ins| - 1]);
      Recommendations(ins[..|ins| - 1]) + (if r.Some? then [r.value] else [])
  }

  /** The insights that `generateRecommendations` acts on. */
  function Actionable(ins: seq<Insight>): (a: seq<Insight>)
    ensures |a| <= |ins|
  {
    if ins == [] then []
    else
      var i := ins[|ins| - 1];
      Actionable(ins[..|ins| - 1]) + (if i.kind.OtherType? then [] else [i])
  }

  /** The insights acted on are exactly those of a critical, pattern or warning type. */
  lemma {:induction false} ActionableMembers(ins: seq<Insight>)
    ensures forall x :: x in Actionable(ins) <==> x in ins && !x.kind.OtherType?
  {
    if ins != [] {
      ActionableMembers(ins[..|ins| - 1]);
      assert ins == ins[..|ins| - 1] + [ins[|ins| - 1]];
    }
  }

  function PriorityOf(kind: InsightType): Priority {
    match kind
    case Critical => High
    case PatternType => Medium
    case _ => Low
  }

  /**
   * One recommendation per actionable insight, in insight order, with the priority of
   * its type; a pattern recommendation names its insight's message; other insights are dropped.
   */
  lemma {:induction false} RecommendationsProperties(ins: seq<Insight>)
    ensures |Recommendations(ins)| == |Actionable(ins)|
    ensures forall i | 0 <= i < |Actionable(ins)| ::
      && Recommendations(ins)[i].priority == PriorityOf(Actionable(ins)[i].kind)
      && (Actionable(ins)[i].kind == PatternType ==> Recommendations(ins)[i].details == HandlingFor(Actionable(ins)[i].message))
  {
    if ins != [] {
      RecommendationsProperties(ins[..|ins| - 1]);
    }
  }

  // ---------------------------------------------------------------- the whole analysis

  datatype Metrics = Metrics(sampleSize: nat, successRate: real, errorRate: real, avgConfidence: real)

  datatype Analysis = Analysis(metrics: Metrics, errorPatterns: ErrorPatterns, insights: seq<Insight>, recommendations: seq<Recommendation>)

  /** What `analyzeLogs` returns for the logs of its window, without the timestamp. */
  function AnalysisOf(logs: seq<Log>): Analysis {
    var total := |logs|;
    var successful := CountSuccessful(logs);
    var patterns := PatternsOf(Failed(logs));
    GroupingProperties(Failed(logs));
    var insights := Insights(ErrorRate(total, successful), patterns, total);
    Analysis(Metrics(total, SuccessRate(total, successful), ErrorRate(total, successful), AvgConfidence(logs)),
             patterns, insights, Recommendations(insights))
  }

  /** An empty window reports a small sample and a high error rate, and recommends collecting data, then reviewing the patterns. */
  lemma EmptyWindow()
    ensures AnalysisOf([]).metrics == Metrics(0, 0.0, 1.0, 0.0)
    ensures AnalysisOf([]).insights == [SmallSample(), HighErrorRate(1.0)]
    ensures |AnalysisOf([]).recommendations| == 2
    ensures AnalysisOf([]).recommendations[0].priority == Low
    ensures AnalysisOf([]).recommendations[1].priority == High
  {
    var p := PatternsOf([]);
    assert p.keys == [];
    var ins := [SmallSample(), HighErrorRate(1.0)];
    assert Insights(1.0, p, 0) == ins;
    RecommendationsProperties(ins);
    assert ins[..1] == [SmallSample()];
    assert Actionable(ins[..1]) == [SmallSample()];
  }

  /** A window where every log failed is always critical. */
  lemma AllFailed(logs: seq<Log>)
    requires logs != [] && forall i | 0 <= i < |logs| :: !logs[i].success
    ensures HighErrorRate(1.0) in AnalysisOf(logs).insights
  {
    NoneSuccessful(logs);
    assert ErrorRate(|logs|, 0) == 1.0;
    GroupingProperties(Failed(logs));
    CriticalReported(1.0, PatternsOf(Failed(logs)), |logs|);
  }

  /** An error rate over the threshold always yields the critical insight. */
  lemma CriticalReported(errorRate: real, p: ErrorPatterns, sampleSize: nat)
    requires HasBuckets(p) && errorRate > 0.2
    ensures HighErrorRate(errorRate) in Insights(errorRate, p, sampleSize)
  {
    var w := SampleWarning(sampleSize);
    var h := HighErrorRate(errorRate);
    assert Insights(errorRate, p, sampleSize) == (w + [h]) + PatternInsights(p, p.keys, sampleSize);
    assert (w + [h])[|w|] == h;
  }

  lemma {:induction false} NoneSuccessful(logs: seq<Log>)
    requires forall i | 0 <= i < |logs| :: !logs[i].success
    ensures CountSuccessful(logs) == 0
  {
    if logs != [] {
      var n := |logs| - 1;
      assert forall i | 0 <= i < n :: logs[..n][i] == logs[i];
      NoneSuccessful(logs[..n]);
    }
  }

  // ---------------------------------------------------------------- the processor object

  /** The processor: its thresholds are constants; its methods change nothing but their results. */
  class FeedbackProcessor {
    const minSampleSize: nat
    const errorRateThreshold: real
    const confidenceThreshold: real

    constructor ()
      ensures minSampleSize == MinSampleSize && errorRateThreshold == ErrorRateThreshold && confidenceThreshold == 0.7
    {
      minSampleSize := MinSampleSize;
      errorRateThreshold := ErrorRateThreshold;
      confidenceThreshold := 0.7;
    }

    /** One iteration of the grouping loop: the log's category gets a bucket, if new, which then counts the log. */
    method AddFailedLog(keys0: seq<ErrorCategory>, buckets0: map<ErrorCategory, Bucket>, log: Log, ghost es: seq<Entry>)
      returns (keys: seq<ErrorCategory>, buckets: map<ErrorCategory, Bucket>)
      requires keys0 == Keys(es)
      requires forall c :: c in buckets0 <==> c in keys0
      requires forall c | c in buckets0 :: buckets0[c] == Accumulated(es, c)
      ensures keys == Keys(es + [EntryOf(log)])
      ensures forall c :: c in buckets <==> c in keys
      ensures forall c | c in buckets :: buckets[c] == Accumulated(es + [EntryOf(log)], c)
    {
      keys, buckets := keys0, buckets0;
      var errorType := Categorize(log.errors);
      ghost var e := Entry(errorType, log.processingTimeMs, log.anonymizedInput);
      assert e == EntryOf(log);
      KeysStep(es, e);
      if errorType !in buckets {
        AbsentCategory(es, errorType);
        buckets := buckets[errorType := Bucket(0, [], 0.0)];
        keys := keys + [errorType];
      }
      AccumulateStep(es, e, errorType);
      var b := buckets[errorType];
      b := b.(count := b.count + 1, avgProcessingTime := b.avgProcessingTime + log.processingTimeMs);
      if |b.examples| < 3 {
        b := b.(examples := b.examples + [log.anonymizedInput]);
      }
      BucketStep(es, e, buckets, b);
      buckets := buckets[errorType := b];
    }

    /** The first loop of `analyzeErrorPatterns`: one bucket per category, in order of first appearance, with the times summed. */
    method GroupByCategory(failedLogs: seq<Log>) returns (keys: seq<ErrorCategory>, buckets: map<ErrorCategory, Bucket>)
      ensures keys == Keys(Entries(failedLogs))
      ensures forall c :: c in buckets <==> c in keys
      ensures forall c | c in buckets :: buckets[c] == Accumulated(Entries(failedLogs), c)
    {
      keys := [];
      buckets := map[];
      for i := 0 to |failedLogs|
        invariant keys == Keys(Entries(failedLogs[..i]))
        invariant forall c :: c in buckets <==> c in keys
        invariant forall c | c in buckets :: buckets[c] == Accumulated(Entries(failedLogs[..i]), c)
      {
        assert failedLogs[..i + 1][..i] == failedLogs[..i];
        assert Entries(failedLogs[..i + 1]) == Entries(failedLogs[..i]) + [EntryOf(failedLogs[i])];
        keys, buckets := AddFailedLog(keys, buckets, failedLogs[i], Entries(failedLogs[..i]));
      }
      assert failedLogs[..|failedLogs|] == failedLogs;
    }

    /** The second loop of `analyzeErrorPatterns`: each bucket's summed time divided by its count, in place. */
    method AverageBuckets(keys: seq<ErrorCategory>, summed: map<ErrorCategory, Bucket>) returns (buckets: map<ErrorCategory, Bucket>)
      requires Distinct(keys)
      requires forall c :: c in summed <==> c in keys
      requires forall c | c in summed :: summed[c].count > 0
      ensures forall c :: c in buckets <==> c in keys
      ensures forall c | c in keys :: buckets[c] == Averaged(summed[c])
    {
      buckets := summed;
      for j := 0 to |keys|
        invariant forall c :: c in buckets <==> c in keys
        invariant forall c | c in keys[..j] :: buckets[c] == Averaged(summed[c])
        invariant forall c | c in keys[j..] :: buckets[c] == summed[c]
      {
        var pattern := buckets[keys[j]];
        pattern := pattern.(avgProcessingTime := pattern.avgProcessingTime / pattern.count as real);
        assert keys[j] !in keys[..j];
        assert forall c | c in keys[j + 1..] :: c in keys[j..] && c != keys[j];
        buckets := buckets[keys[j] := pattern];
      }
      assert keys[..|keys|] == keys;
    }

    /** `analyzeErrorPatterns(failedLogs)`: group, then average. */
    method AnalyzeErrorPatterns(failedLogs: seq<Log>) returns (patterns: ErrorPatterns)
      ensures patterns == PatternsOf(failedLogs)
    {
      var keys, summed := GroupByCategory(failedLogs);
      ghost var es := Entries(failedLogs);
      KeysDistinct(es);
      forall c | c in summed
        ensures summed[c].count > 0
      {
        PresentCategory(es, c);
      }
      var buckets := AverageBuckets(keys, summed);
      patterns := ErrorPatterns(keys, buckets);
      AveragedGroups(es, summed, buckets);
    }

    /** `generateInsights({errorRate, errorPatterns, sampleSize})` */
    method GenerateInsights(errorRate: real, errorPatterns: ErrorPatterns, sampleSize: nat) returns (insights: seq<Insight>)
      requires minSampleSize == MinSampleSize && errorRateThreshold == ErrorRateThreshold
      requires HasBuckets(errorPatterns)
      ensures insights == Insights(errorRate, errorPatterns, sampleSize)
    {
      insights := [];
      if sampleSize < minSampleSize {
        insights := insights + [SmallSample()];
      }
      if errorRate > errorRateThreshold {
        insights := insights + [HighErrorRate(errorRate)];
      }
      ghost var head := insights;
      assert head == SampleWarning(sampleSize) + RateAlert(errorRate);
      var keys := errorPatterns.keys;
      for i := 0 to |keys|
        invariant insights == head + PatternInsights(errorPatterns, keys[..i], sampleSize)
      {
        var pattern := keys[i];
        var info := errorPatterns.buckets[pattern];
        PatternInsightsStep(errorPatterns, keys, i, sampleSize);
        if info.count as real > sampleSize as real * 0.1 {
          insights := insights + [FrequentPattern(pattern, info)];
          AppendAssoc(head, PatternInsights(errorPatterns, keys[..i], sampleSize), [FrequentPattern(pattern, info)]);
        }
      }
      assert keys[..|keys|] == keys;
    }

    /** `generateRecommendations(insights)` */
    method GenerateRecommendations(insights: seq<Insight>) returns (recommendations: seq<Recommendation>)
      ensures recommendations == Recommendations(insights)
    {
      recommendations := [];
      for i := 0 to |insights|
        invariant recommendations == Recommendations(insights[..i])
      {
        assert insights[..i + 1][..i] == insights[..i];
        var insight := insights[i];
        match insight.kind {
          case Critical =>
            recommendations := recommendations + [Recommendation(High, ReviewPatterns, NeedsRefinement)];
          case PatternType =>
            recommendations := recommendations + [Recommendation(Medium, AddPatternRule, HandlingFor(insight.message))];
          case Warning =>
            recommendations := recommendations + [Recommendation(Low, CollectMoreData, KeepMonitoring)];
          case OtherType(_) =>
        }
      }
      assert insights[..|insights|] == insights;
    }

    /** `analyzeLogs` over the logs of its window. */
    method AnalyzeLogs(logs: seq<Log>) returns (analysis: Analysis)
      requires minSampleSize == MinSampleSize && errorRateThreshold == ErrorRateThreshold
      ensures analysis == AnalysisOf(logs)
    {
      var totalLogs := |logs|;
      var successfulLogs := CountSuccessful(logs);
      var successRate := SuccessRate(totalLogs, successfulLogs);
      var errorRate := 1.0 - successRate;
      var failedLogs := Failed(logs);
      var errorPatterns := AnalyzeErrorPatterns(failedLogs);
      GroupingProperties(failedLogs);
      var insights := GenerateInsights(errorRate, errorPatterns, totalLogs);
      var recommendations := GenerateRecommendations(insights);
      analysis := Analysis(Metrics(totalLogs, successRate, errorRate, AvgConfidence(logs)), errorPatterns, insights, recommendations);
    }
  }
}
