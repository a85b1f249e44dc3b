/**
 * `taskPatternAnalysis`: the keyword search for related tasks and the tag frequency
 * table. The tasks are a parameter (the database model is not consulted by these two).
 */
module TaskPatternAnalysis {
  import opened Wrappers
  import opened Text

  /** The task fields the two helpers read; an absent description or tag list is `None`. */
  datatype Task = Task(title: string, description: Option<string>, tags: Option<seq<string>>)

  // ---------------------------------------------------------------- findRelatedTasks

  /** The length of the leading run of non-space characters. */
  function FieldLength(s: string): (n: nat)
    ensures n <= |s|
    ensures forall i | 0 <= i < n :: !IsSpace(s[i])
    ensures n < |s| ==> IsSpace(s[n])
  {
    if s == [] || IsSpace(s[0]) then 0 else 1 + FieldLength(s[1..])
  }

  /** The length of the leading run of white space. */
  function SpaceRunLength(s: string): (n: nat)
    ensures n <= |s|
    ensures forall i | 0 <= i < n :: IsSpace(s[i])
    ensures n < |s| ==> !IsSpace(s[n])
  {
    if s != [] && IsSpace(s[0]) then 1 + SpaceRunLength(s[1..]) else 0
  }

  /**
   * `s.split(/\s+/)`: the pieces between runs of white space; a leading or trailing run
   * gives an empty first or last piece, and the empty string gives one empty piece.
   */
  function Fields(s: string): (fs: seq<string>)
    ensures |fs| > 0
    ensures forall k | 0 <= k < |fs| :: forall i | 0 <= i < |fs[k]| :: !IsSpace(fs[k][i])
    decreases |s|
  {
    var n := FieldLength(s);
    if n == |s| then [s]
    else
      var rest := s[n..];
      [s[..n]] + Fields(rest[SpaceRunLength(rest)..])
  }

  function Concat(fs: seq<string>): string {
    if fs == [] then "" else fs[0] + Concat(fs[1..])
  }

  /** Splitting loses only the white space: the pieces, put back together, are `s` without it. */
  lemma {:induction false} FieldsContent(s: string)
    ensures Concat(Fields(s)) == StripSpaces(s)
    decreases |s|
  {
    var n := FieldLength(s);
    var field := s[..n];
    if n == |s| {
      assert Fields(s) == [s];
      ConcatCons(s, []);
      StripNoSpaces(s);
    } else {
      var rest := s[n..];
      var m := SpaceRunLength(rest);
      var tail := rest[m..];
      assert Concat(Fields(s)) == field + Concat(Fields(tail)) by {
        assert Fields(s) == [field] + Fields(tail);
        ConcatCons(field, Fields(tail));
      }
      assert StripSpaces(s) == field + StripSpaces(tail) by {
        SplitStrip(s, n, m);
      }
      FieldsContent(tail);
    }
  }

  /** A field, then a run of white space, then the rest: stripping keeps the field and strips the rest. */
  lemma SplitStrip(s: string, n: nat, m: nat)
    requires n + m <= |s|
    requires forall i | 0 <= i < n :: !IsSpace(s[i])
    requires forall i | n <= i < n + m :: IsSpace(s[i])
    ensures StripSpaces(s) == s[..n] + StripSpaces(s[n + m..])
  {
    var rest := s[n..];
    var field, gap, tail := s[..n], rest[..m], rest[m..];
    StripNoSpaces(field);
    StripAllSpaces(gap);
    assert rest == gap + tail;
    assert s == field + rest;
    assert tail == s[n + m..];
    StripSpacesAppend(gap, tail);
    StripSpacesAppend(field, rest);
    assert StripSpaces(rest) == StripSpaces(tail);
  }

  lemma ConcatCons(a: string, fs: seq<string>)
    ensures Concat([a] + fs) == a + Concat(fs)
  {
    assert ([a] + fs)[1..] == fs;
  }

  /** `.filter((word) => word.length > 3)` */
  function LongWords(ws: seq<string>): (r: seq<string>)
    ensures forall k | 0 <= k < |r| :: |r[k]| > 3 && r[k] in ws
    ensures forall w | w in ws && |w| > 3 :: w in r
  {
    if ws == [] then [] else (if |ws[0]| > 3 then [ws[0]] else []) + LongWords(ws[1..])
  }

  /** The search words of `input`: its lower-cased pieces longer than three characters. */
  function SearchWords(input: string): seq<string> {
    LongWords(Fields(ToLower(input)))
  }

  /** The lower-cased text a task is searched in: title, a space, then the description or "". */
  function TaskText(t: Task): string {
    ToLower(t.title + " " + t.description.GetOr(""))
  }

  /** `words.some((word) => taskText.includes(word))` */
  predicate Related(t: Task, words: seq<string>) {
    exists k | 0 <= k < |words| :: Contains(TaskText(t), words[k])
  }

  /** The tasks that mention a search word, in task order. */
  function Matching(tasks: seq<Task>, words: seq<string>): (r: seq<Task>)
    ensures |r| <= |tasks|
  {
    if tasks == [] then []
    else
      var t := tasks[|tasks| - 1];
      Matching(tasks[..|tasks| - 1], words) + (if Related(t, words) then [t] else [])
  }

  /** The indices of the tasks that mention a search word, in increasing order. */
  function MatchingIndices(tasks: seq<Task>, words: seq<string>): (idx: seq<nat>)
    ensures forall k | 0 <= k < |idx| :: idx[k] < |tasks|
  {
    if tasks == [] then []
    else
      var n := |tasks| - 1;
      MatchingIndices(tasks[..n], words) + (if Related(tasks[n], words) then [n] else [])
  }

  /** `.slice(-3)`: the last three elements, or all of them when there are fewer. */
  function LastThree<T>(s: seq<T>): seq<T> {
    if |s| <= 3 then s else s[|s| - 3..]
  }

  /** What `findRelatedTasks(tasks, input)` resolves to; "" stands for every falsy input. */
  function RelatedTasks(tasks: seq<Task>, input: string): (r: seq<Task>)
    ensures |r| <= 3
  {
    if input == "" || tasks == [] then []
    else
      var words := SearchWords(input);
      if words == [] then [] else LastThree(Matching(tasks, words))
  }

  /**
   * The matching tasks are exactly the tasks at the indices of the related ones, in task
   * order: the indices increase, and an index is listed iff its task mentions a search word.
   */
  lemma {:induction false} MatchingExact(tasks: seq<Task>, words: seq<string>)
    ensures var idx := MatchingIndices(tasks, words);
      && |idx| == |Matching(tasks, words)|
      && (forall k | 0 <= k < |idx| :: Matching(tasks, words)[k] == tasks[idx[k]])
      && (forall k, l | 0 <= k < l < |idx| :: idx[k] < idx[l])
      && (forall i | 0 <= i < |tasks| :: i in idx <==> Related(tasks[i], words))
  {
    if tasks != [] {
      var n := |tasks| - 1;
      MatchingExact(tasks[..n], words);
      assert forall i | 0 <= i < n :: tasks[..n][i] == tasks[i];
    }
  }

  /**
   * `findRelatedTasks`: nothing for an empty input, an empty task list or an input without
   * a word over three characters; otherwise the last three of the matching tasks, each of
   * which mentions a search word.
   */
  lemma RelatedTasksProperties(tasks: seq<Task>, input: string)
    ensures input == "" || tasks == [] || SearchWords(input) == [] ==> RelatedTasks(tasks, input) == []
    ensures |RelatedTasks(tasks, input)| <= 3
    ensures input != "" && tasks != [] && SearchWords(input) != [] ==>
      var m := Matching(tasks, SearchWords(input));
      RelatedTasks(tasks, input) == m[|m| - |RelatedTasks(tasks, input)|..]
      && |RelatedTasks(tasks, input)| == (if |m| < 3 then |m| else 3)
    ensures forall k | 0 <= k < |RelatedTasks(tasks, input)| ::
      RelatedTasks(tasks, input)[k] in tasks && Related(RelatedTasks(tasks, input)[k], SearchWords(input))
  {
    if input != "" && tasks != [] && SearchWords(input) != [] {
      var words := SearchWords(input);
      var m := Matching(tasks, words);
      MatchingSound(tasks, words);
      LastThreeSuffix(m);
      var r := RelatedTasks(tasks, input);
      assert r == LastThree(m);
      forall k | 0 <= k < |r|
        ensures r[k] in tasks && Related(r[k], words)
      {
        assert r[k] in LastThree(m);
      }
    }
  }

  /** Every matching task is one of the tasks and mentions a search word. */
  lemma {:induction false} MatchingSound(tasks: seq<Task>, words: seq<string>)
    ensures forall t | t in Matching(tasks, words) :: t in tasks && Related(t, words)
  {
    if tasks != [] {
      var n := |tasks| - 1;
      MatchingSound(tasks[..n], words);
      assert forall t | t in tasks[..n] :: t in tasks;
    }
  }

  lemma LastThreeSuffix<T>(s: seq<T>)
    ensures |LastThree(s)| == (if |s| < 3 then |s| else 3)
    ensures LastThree(s) == s[|s| - |LastThree(s)|..]
    ensures forall x | x in LastThree(s) :: x in s
  {
  }

  /** A search word is a lower-case piece of the input with no white space and over three characters. */
  lemma SearchWordsShape(input: string)
    ensures forall k | 0 <= k < |SearchWords(input)| ::
      var w := SearchWords(input)[k];
      |w| > 3 && w in Fields(ToLower(input)) && forall i | 0 <= i < |w| :: !IsSpace(w[i])
  {
  }

  // ---------------------------------------------------------------- getCategoryDistribution

  /** `task.tags || []` */
  function TagsOf(t: Task): seq<string> {
    t.tags.GetOr([])
  }

  /** Every tag of every task, in order. */
  function AllTags(tasks: seq<Task>): seq<string> {
    if tasks == [] then [] else AllTags(tasks[..|tasks| - 1]) + TagsOf(tasks[|tasks| - 1])
  }

  /** How many times `c` occurs in `s`. */
  function Occurrences(s: seq<string>, c: string): nat {
    if s == [] then 0 else Occurrences(s[..|s| - 1], c) + (if s[|s| - 1] == c then 1 else 0)
  }

  /** The elements of `s`, each once, in order of first appearance: a Map's key order. */
  function FirstAppearance(s: seq<string>): seq<string> {
    if s == [] then []
    else
      var ks := FirstAppearance(s[..|s| - 1]);
      if s[|s| - 1] in ks then ks else ks + [s[|s| - 1]]
  }

  predicate DistinctStrings(s: seq<string>) {
    forall i, j | 0 <= i < j < |s| :: s[i] != s[j]
  }

  lemma {:induction false} FirstAppearanceProperties(s: seq<string>)
    ensures DistinctStrings(FirstAppearance(s))
    ensures forall c :: c in FirstAppearance(s) <==> c in s
  {
    if s != [] {
      FirstAppearanceProperties(s[..|s| - 1]);
      assert s == s[..|s| - 1] + [s[|s| - 1]];
    }
  }

  lemma {:induction false} OccurrencesPositive(s: seq<string>, c: string)
    ensures Occurrences(s, c) > 0 <==> c in s
  {
    if s != [] {
      OccurrencesPositive(s[..|s| - 1], c);
      assert s == s[..|s| - 1] + [s[|s| - 1]];
    }
  }

  /** One entry of `categoryMap`. */
  datatype Tally = Tally(category: string, count: nat)

  /** `Array.from(categoryMap.entries())` once every tag is counted. */
  function Tallies(s: seq<string>): seq<Tally> {
    var ks := FirstAppearance(s);
    seq(|ks|, i requires 0 <= i < |ks| => Tally(ks[i], Occurrences(s, ks[i])))
  }

  /** Sorted by count, largest first. */
  predicate SortedByCount(s: seq<Tally>) {
    forall i, j | 0 <= i < j < |s| :: s[i].count >= s[j].count
  }

  /** Places `x` after every entry whose count is at least its own. */
  function Insert(s: seq<Tally>, x: Tally): seq<Tally> {
    if s == [] then [x]
    else if s[0].count >= x.count then [s[0]] + Insert(s[1..], x)
    else [x] + s
  }

  /** `.sort(([, a], [, b]) => b - a)`: a stable sort, largest count first. */
  function SortByCount(s: seq<Tally>): seq<Tally> {
    if s == [] then [] else Insert(SortByCount(s[..|s| - 1]), s[|s| - 1])
  }

  /** The entries with count `k`, in order. */
  function WithCount(s: seq<Tally>, k: nat): seq<Tally> {
    if s == [] then [] else WithCount(s[..|s| - 1], k) + (if s[|s| - 1].count == k then [s[|s| - 1]] else [])
  }

  lemma {:induction false} InsertElements(s: seq<Tally>, x: Tally)
    ensures multiset(Insert(s, x)) == multiset(s) + multiset{x}
    ensures |Insert(s, x)| == |s| + 1
    ensures forall y | y in Insert(s, x) :: y in s || y == x
  {
    if s != [] && s[0].count >= x.count {
      InsertElements(s[1..], x);
      assert s == [s[0]] + s[1..];
    }
  }

  lemma {:induction false} InsertSorted(s: seq<Tally>, x: Tally)
    requires SortedByCount(s)
    ensures SortedByCount(Insert(s, x))
  {
    if s != [] && s[0].count >= x.count {
      var rest := Insert(s[1..], x);
      InsertSorted(s[1..], x);
      InsertElements(s[1..], x);
      forall y | y in rest
        ensures y.count <= s[0].count
      {
        if y != x {
          var i :| 1 <= i < |s| && s[i] == y;
        }
      }
      assert Insert(s, x) == [s[0]] + rest;
      SortedCons(s[0], rest);
    }
  }

  lemma SortedCons(a: Tally, rest: seq<Tally>)
    requires SortedByCount(rest)
    requires forall y | y in rest :: y.count <= a.count
    ensures SortedByCount([a] + rest)
  {
    forall i, j | 0 <= i < j < |[a] + rest|
      ensures ([a] + rest)[i].count >= ([a] + rest)[j].count
    {
      if i == 0 {
        assert ([a] + rest)[j] in rest;
      }
    }
  }

  lemma {:induction false} WithCountNone(s: seq<Tally>, k: nat)
    requires forall i | 0 <= i < |s| :: s[i].count < k
    ensures WithCount(s, k) == []
  {
    if s != [] {
      WithCountNone(s[..|s| - 1], k);
    }
  }

  lemma {:induction false} WithCountFront(x: Tally, s: seq<Tally>, k: nat)
    ensures WithCount([x] + s, k) == (if x.count == k then [x] else []) + WithCount(s, k)
  {
    if s == [] {
      assert [x] + s == [x];
      assert [x][..0] == [];
    } else {
      var n := |s| - 1;
      assert ([x] + s)[..|s|] == [x] + s[..n];
      WithCountFront(x, s[..n], k);
    }
  }

  /** Inserting `x` puts it after every earlier entry of its count. */
  lemma {:induction false} InsertStable(s: seq<Tally>, x: Tally, k: nat)
    requires SortedByCount(s)
    ensures WithCount(Insert(s, x), k) == WithCount(s, k) + (if x.count == k then [x] else [])
  {
    if s == [] {
      assert Insert(s, x) == [x];
      assert [x][..0] == [];
    } else if s[0].count >= x.count {
      InsertStable(s[1..], x, k);
      InsertStableBehind(s, x, k);
    } else {
      InsertStableAhead(s, x, k);
    }
  }

  /** `x` goes behind the first entry, which keeps its place. */
  lemma InsertStableBehind(s: seq<Tally>, x: Tally, k: nat)
    requires s != [] && s[0].count >= x.count
    requires WithCount(Insert(s[1..], x), k) == WithCount(s[1..], k) + (if x.count == k then [x] else [])
    ensures WithCount(Insert(s, x), k) == WithCount(s, k) + (if x.count == k then [x] else [])
  {
    var head: seq<Tally> := if s[0].count == k then [s[0]] else [];
    var tail: seq<Tally> := if x.count == k then [x] else [];
    assert Insert(s, x) == [s[0]] + Insert(s[1..], x);
    WithCountFront(s[0], Insert(s[1..], x), k);
    assert s == [s[0]] + s[1..];
    WithCountFront(s[0], s[1..], k);
    AppendAssoc(head, WithCount(s[1..], k), tail);
  }

  /** `x` goes in front of entries that all have smaller counts. */
  lemma InsertStableAhead(s: seq<Tally>, x: Tally, k: nat)
    requires SortedByCount(s) && s != [] && s[0].count < x.count
    ensures WithCount(Insert(s, x), k) == WithCount(s, k) + (if x.count == k then [x] else [])
  {
    assert Insert(s, x) == [x] + s;
    WithCountFront(x, s, k);
    if x.count == k {
      WithCountNone(s, k);
    }
  }

  lemma AppendAssoc<T>(a: seq<T>, b: seq<T>, c: seq<T>)
    ensures (a + b) + c == a + (b + c)
  {
  }

  /**
   * The sort orders by count, largest first, keeps every entry (a permutation), and is
   * stable: the entries of any one count keep their order.
   */
  lemma {:induction false} SortByCountProperties(s: seq<Tally>)
    ensures SortedByCount(SortByCount(s))
    ensures multiset(SortByCount(s)) == multiset(s)
    ensures forall k: nat :: WithCount(SortByCount(s), k) == WithCount(s, k)
  {
    if s != [] {
      var n := |s| - 1;
      SortByCountProperties(s[..n]);
      InsertSorted(SortByCount(s[..n]), s[n]);
      InsertElements(SortByCount(s[..n]), s[n]);
      forall k: nat
        ensures WithCount(SortByCount(s), k) == WithCount(s, k)
      {
        InsertStable(SortByCount(s[..n]), s[n], k);
      }
      assert s == s[..n] + [s[n]];
    }
  }

  /** One row of the result. */
  datatype CategoryShare = CategoryShare(category: string, count: nat, percentage: nat)

  /** `Math.round((count / total) * 100)` in exact arithmetic: halves round up. */
  function Percentage(count: nat, total: nat): (p: nat)
    requires total > 0
    ensures 2 * total * p <= 200 * count + total < 2 * total * (p + 1)
  {
    var q := (200 * count + total) / (2 * total);
    DivBounds(200 * count + total, 2 * total);
    q
  }

  lemma DivBounds(a: nat, b: nat)
    requires b > 0
    ensures b * (a / b) <= a < b * (a / b + 1)
  {
    assert a == b * (a / b) + a % b;
  }

  function Shares(ts: seq<Tally>, total: nat): (r: seq<CategoryShare>)
    requires total > 0
    ensures |r| == |ts|
    ensures forall i | 0 <= i < |r| :: r[i] == CategoryShare(ts[i].category, ts[i].count, Percentage(ts[i].count, total))
  {
    seq(|ts|, i requires 0 <= i < |ts| => CategoryShare(ts[i].category, ts[i].count, Percentage(ts[i].count, total)))
  }

  /** What `getCategoryDistribution(tasks)` resolves to. */
  function Distribution(tasks: seq<Task>): seq<CategoryShare> {
    if tasks == [] then [] else Shares(SortByCount(Tallies(AllTags(tasks))), |tasks|)
  }

  lemma {:induction false} TalliesProperties(s: seq<string>)
    ensures forall t: Tally :: t in Tallies(s) <==> t.category in s && t.count == Occurrences(s, t.category)
    ensures |Tallies(s)| == |FirstAppearance(s)|
    ensures forall i, j | 0 <= i < j < |Tallies(s)| :: Tallies(s)[i].category != Tallies(s)[j].category
  {
    FirstAppearanceProperties(s);
    var ks := FirstAppearance(s);
    forall t: Tally | t.category in s && t.count == Occurrences(s, t.category)
      ensures t in Tallies(s)
    {
      var i :| 0 <= i < |ks| && ks[i] == t.category;
      assert Tallies(s)[i] == t;
    }
  }

  /** Equal multisets of entries with distinct categories: the categories stay distinct. */
  lemma PermutationDistinct(a: seq<Tally>, b: seq<Tally>)
    requires multiset(a) == multiset(b)
    requires forall x, y | x in b && y in b && x.category == y.category :: x == y
    requires forall i, j | 0 <= i < j < |b| :: b[i] != b[j]
    ensures forall i, j | 0 <= i < j < |a| :: a[i].category != a[j].category
  {
    forall i, j | 0 <= i < j < |a|
      ensures a[i].category != a[j].category
    {
      if a[i].category == a[j].category {
        assert a[i] in multiset(b) && a[j] in multiset(b);
        assert a[i] == a[j];
        TwoCopies(a, i, j);
        OneCopy(b, a[i]);
        assert false;
      }
    }
  }

  lemma TwoCopies(a: seq<Tally>, i: nat, j: nat)
    requires i < j < |a| && a[i] == a[j]
    ensures multiset(a)[a[i]] >= 2
  {
    assert a == a[..i] + [a[i]] + a[i + 1..j] + [a[j]] + a[j + 1..];
  }

  lemma {:induction false} OneCopy(b: seq<Tally>, x: Tally)
    requires forall i, j | 0 <= i < j < |b| :: b[i] != b[j]
    ensures multiset(b)[x] <= 1
  {
    if b != [] {
      var n := |b| - 1;
      OneCopy(b[..n], x);
      assert b == b[..n] + [b[n]];
      if b[n] == x {
        assert x !in b[..n];
      }
    }
  }

  /**
   * `getCategoryDistribution`: nothing for no tasks; otherwise one row per distinct tag,
   * whose count is the number of occurrences of that tag across all tag lists (duplicates
   * included), ordered by count with the largest first, ties in order of first appearance,
   * and whose percentage is the count per hundred tasks rounded half up.
   */
  lemma DistributionProperties(tasks: seq<Task>)
    ensures tasks == [] ==> Distribution(tasks) == []
    ensures tasks != [] ==>
      var r := Distribution(tasks);
      var tags := AllTags(tasks);
      && (forall c :: c in tags <==> exists i | 0 <= i < |r| :: r[i].category == c)
      && (forall i | 0 <= i < |r| :: r[i].count == Occurrences(tags, r[i].category))
      && (forall i, j | 0 <= i < j < |r| :: r[i].category != r[j].category)
      && (forall i, j | 0 <= i < j < |r| :: r[i].count >= r[j].count)
      && (forall i | 0 <= i < |r| :: r[i].percentage == Percentage(r[i].count, |tasks|))
  {
    if tasks != [] {
      var tags := AllTags(tasks);
      var sorted := SortByCount(Tallies(tags));
      SortByCountProperties(Tallies(tags));
      SortedCover(tags);
      SortedCounts(tags);
      SortedDistinct(tags);
    }
  }

  /** Every sorted entry is an entry of the tally. */
  lemma SortedFromTallies(tags: seq<string>)
    ensures forall t | t in SortByCount(Tallies(tags)) :: t in Tallies(tags)
  {
    SortByCountProperties(Tallies(tags));
    forall t | t in SortByCount(Tallies(tags))
      ensures t in Tallies(tags)
    {
      assert t in multiset(SortByCount(Tallies(tags)));
    }
  }

  /** The sorted entries name exactly the tags. */
  lemma SortedCover(tags: seq<string>)
    ensures var sorted := SortByCount(Tallies(tags));
      forall c :: c in tags <==> exists i | 0 <= i < |sorted| :: sorted[i].category == c
  {
    var ts := Tallies(tags);
    var sorted := SortByCount(ts);
    SortByCountProperties(ts);
    TalliesProperties(tags);
    SortedFromTallies(tags);
    forall c | c in tags
      ensures exists i | 0 <= i < |sorted| :: sorted[i].category == c
    {
      var t := Tally(c, Occurrences(tags, c));
      assert t in multiset(ts);
      var i :| 0 <= i < |sorted| && sorted[i] == t;
    }
    forall i | 0 <= i < |sorted|
      ensures sorted[i].category in tags
    {
      assert sorted[i] in sorted;
    }
  }

  /** Each sorted entry holds its tag's number of occurrences. */
  lemma SortedCounts(tags: seq<string>)
    ensures var sorted := SortByCount(Tallies(tags));
      forall i | 0 <= i < |sorted| :: sorted[i].count == Occurrences(tags, sorted[i].category)
  {
    var sorted := SortByCount(Tallies(tags));
    TalliesProperties(tags);
    SortedFromTallies(tags);
    forall i | 0 <= i < |sorted|
      ensures sorted[i].count == Occurrences(tags, sorted[i].category)
    {
      assert sorted[i] in sorted;
    }
  }

  /** No tag is listed twice. */
  lemma SortedDistinct(tags: seq<string>)
    ensures var sorted := SortByCount(Tallies(tags));
      forall i, j | 0 <= i < j < |sorted| :: sorted[i].category != sorted[j].category
  {
    var ts := Tallies(tags);
    SortByCountProperties(ts);
    TalliesProperties(tags);
    forall i, j | 0 <= i < j < |ts|
      ensures ts[i] != ts[j]
    {
    }
    PermutationDistinct(SortByCount(ts), ts);
  }

  /** `categoryMap` after counting the tags `s`: its keys in insertion order and its values. */
  ghost predicate Counted(keys: seq<string>, counts: map<string, nat>, s: seq<string>) {
    && keys == FirstAppearance(s)
    && (forall c :: c in counts <==> c in keys)
    && (forall c | c in counts :: counts[c] == Occurrences(s, c))
  }

  /** `categoryMap.set(category, (categoryMap.get(category) || 0) + 1)` counts one more tag. */
  lemma CountStep(keys: seq<string>, counts: map<string, nat>, s: seq<string>, x: string)
    requires Counted(keys, counts, s)
    ensures Counted(if x in counts then keys else keys + [x], counts[x := (if x in counts then counts[x] else 0) + 1], s + [x])
  {
    assert (s + [x])[..|s|] == s;
    FirstAppearanceProperties(s);
    OccurrencesPositive(s, x);
  }

  /** The tag counts as `categoryMap` holds them: its keys in insertion order and its values. */
  method CountCategories(tasks: seq<Task>) returns (keys: seq<string>, counts: map<string, nat>)
    ensures keys == FirstAppearance(AllTags(tasks))
    ensures forall c :: c in counts <==> c in keys
    ensures forall c | c in counts :: counts[c] == Occurrences(AllTags(tasks), c)
  {
    keys := [];
    counts := map[];
    for i := 0 to |tasks|
      invariant Counted(keys, counts, AllTags(tasks[..i]))
    {
      var categories := TagsOf(tasks[i]);
      ghost var before := AllTags(tasks[..i]);
      assert tasks[..i + 1][..i] == tasks[..i];
      assert before + categories[..|categories|] == AllTags(tasks[..i + 1]);
      assert before + categories[..0] == before;
      for j := 0 to |categories|
        invariant Counted(keys, counts, before + categories[..j])
      {
        var category := categories[j];
        assert before + categories[..j + 1] == (before + categories[..j]) + [category];
        CountStep(keys, counts, before + categories[..j], category);
        var n := if category in counts then counts[category] else 0;
        if category !in counts {
          keys := keys + [category];
        }
        counts := counts[category := n + 1];
      }
    }
    assert tasks[..|tasks|] == tasks;
  }

  /** `getCategoryDistribution(tasks)` */
  method GetCategoryDistribution(tasks: seq<Task>) returns (r: seq<CategoryShare>)
    ensures r == Distribution(tasks)
  {
    if |tasks| == 0 {
      return [];
    }
    var keys, counts := CountCategories(tasks);
    var entries := seq(|keys|, i requires 0 <= i < |keys| => Tally(keys[i], counts[keys[i]]));
    assert entries == Tallies(AllTags(tasks));
    r := Shares(SortByCount(entries), |tasks|);
  }
}
