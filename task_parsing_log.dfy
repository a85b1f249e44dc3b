/**
 * The parsing-log record: the validators of its JSON attributes, `getSafeData`, the
 * redaction `anonymizeText` applies, and the `beforeValidate` hook that hashes and then
 * redacts the input. The three regular expressions of `anonymizeText` are written out
 * as recognisers with the matching JavaScript's backtracking engine performs; SHA-256 is
 * a parameter.
 */
module TaskParsingLog {
  import opened Wrappers
  import opened Text

  // ---------------------------------------------------------------- JSON values

  /** A JSONB attribute value. A number is kept as the text JavaScript prints for it. */
  datatype Json =
    | JNull
    | JBool(b: bool)
    | JNum(text: string)
    | JStr(s: string)
    | JArr(items: seq<Json>)
    | JObj(fields: map<string, Json>)

  /** A JSON object: the value a validator receives, and the record's attributes. */
  type Object = map<string, Json>

  /** JavaScript truthiness of a JSON value. */
  predicate Truthy(j: Json) {
    match j
    case JNull => false
    case JBool(b) => b
    case JNum(t) => t != "0" && t != "-0" && t != "NaN"
    case JStr(s) => s != ""
    case JArr(_) => true
    case JObj(_) => true
  }

  /** `!!value[key]`: a missing key reads as `undefined`, which is falsy. */
  predicate Has(value: Object, key: string) {
    key in value && Truthy(value[key])
  }

  /** How a template literal renders a JSON value. */
  function Display(j: Json): string {
    match j
    case JNull => "null"
    case JBool(b) => if b then "true" else "false"
    case JNum(t) => t
    case JStr(s) => s
    case JArr(items) => Join(seq(|items|, i requires 0 <= i < |items| => if items[i].JNull? then "" else Display(items[i])), ",")
    case JObj(_) => "[object Object]"
  }

  // ---------------------------------------------------------------- validators

  /** Why a validator throws. */
  datatype ValidationError =
    | MissingTaskOrTemporal
    | MissingMetrics(absent: seq<string>)
    | MissingMetadata(absent: seq<string>)
    | InvalidModel(model: Json)

  /** The message of the `Error` the validator throws. */
  function Message(e: ValidationError): string {
    match e
    case MissingTaskOrTemporal => "parsed_output must contain task and temporal objects"
    case MissingMetrics(m) => "Missing required metrics: " + Join(m, ", ")
    case MissingMetadata(m) => "Missing required metadata: " + Join(m, ", ")
    case InvalidModel(model) => "Invalid LLM model: " + Display(model)
  }

  const RequiredMetrics: seq<string> := ["processing_time_ms", "llm_latency_ms", "pattern_match_confidence"]
  const RequiredMetadata: seq<string> := ["llm_model", "prompt_version", "pattern_version"]
  const ValidModels: seq<string> := ["gpt-4o-mini", "gpt-3.5-turbo", "gpt-4-turbo"]

  /** `required.filter((field) => !(field in value))` */
  function Missing(required: seq<string>, value: Object): (r: seq<string>)
    ensures forall f :: f in r <==> f in required && f !in value
    ensures |r| <= |required|
  {
    if required == [] then []
    else (if required[0] in value then [] else [required[0]]) + Missing(required[1..], value)
  }

  /** The keys that `Missing` reports keep the order of `required`. */
  lemma {:induction false} MissingOrder(required: seq<string>, value: Object)
    ensures Missing(required, value) == [] <==> forall f | f in required :: f in value
    ensures (forall f | f in required :: f !in value) ==> Missing(required, value) == required
  {
    if required != [] {
      MissingOrder(required[1..], value);
      if forall f | f in required :: f !in value {
        assert required == [required[0]] + required[1..];
      }
    }
  }

  /** `hasRequiredFields` on `parsed_output`: `None` when it passes. */
  function HasRequiredFields(value: Object): (r: Option<ValidationError>)
    ensures r.Some? ==> r.value == MissingTaskOrTemporal
  {
    if !Has(value, "task") || !Has(value, "temporal") then Some(MissingTaskOrTemporal) else None
  }

  /** `hasRequiredMetrics` on `metrics`. */
  function HasRequiredMetrics(value: Object): (r: Option<ValidationError>)
    ensures r.None? <==> forall f | f in RequiredMetrics :: f in value
    ensures r.Some? ==>
      && r.value.MissingMetrics? && r.value.absent != []
      && forall f :: f in r.value.absent <==> f in RequiredMetrics && f !in value
  {
    MissingOrder(RequiredMetrics, value);
    var missing := Missing(RequiredMetrics, value);
    if |missing| > 0 then Some(MissingMetrics(missing)) else None
  }

  /** `validModels.includes(model)`: only a string can equal a listed name. */
  predicate IsValidModel(model: Json) {
    model.JStr? && model.s in ValidModels
  }

  /** `hasRequiredMetadata` on `metadata`: the missing keys are reported before the model. */
  function HasRequiredMetadata(value: Object): (r: Option<ValidationError>)
    ensures (exists f | f in RequiredMetadata :: f !in value) ==>
      r.Some? && r.value.MissingMetadata? && r.value.absent != []
      && forall f :: f in r.value.absent <==> f in RequiredMetadata && f !in value
    ensures (forall f | f in RequiredMetadata :: f in value) ==>
      (r.None? <==> IsValidModel(value["llm_model"]))
      && (r.Some? ==> r == Some(InvalidModel(value["llm_model"])))
  {
    MissingOrder(RequiredMetadata, value);
    var missing := Missing(RequiredMetadata, value);
    if |missing| > 0 then Some(MissingMetadata(missing))
    else if !IsValidModel(value["llm_model"]) then Some(InvalidModel(value["llm_model"]))
    else None
  }

  /** The `parsed_output` check passes exactly when `task` and `temporal` are both truthy. */
  lemma FieldsPassIff(value: Object)
    ensures HasRequiredFields(value).None? <==> Has(value, "task") && Has(value, "temporal")
    ensures "task" !in value || "temporal" !in value ==> HasRequiredFields(value).Some?
  {
  }

  /** The tests' `parsed_output` passes; without `task` it fails. */
  lemma FieldsFixture()
    ensures HasRequiredFields(map["task" := JObj(map["title" := JStr("meeting")]), "temporal" := JObj(map["date_type" := JStr("relative")])]).None?
    ensures HasRequiredFields(map["temporal" := JObj(map["date_type" := JStr("relative")])]) == Some(MissingTaskOrTemporal)
    ensures HasRequiredFields(map["task" := JNull, "temporal" := JObj(map[])]) == Some(MissingTaskOrTemporal)
  {
  }

  /** The tests' metrics pass. */
  lemma MetricsFixturePasses()
    ensures HasRequiredMetrics(map["processing_time_ms" := JNum("1000"), "llm_latency_ms" := JNum("800"), "pattern_match_confidence" := JNum("0.95")]).None?
  {
  }

  /** `{invalid_metric: 123}` lacks all three metrics, which are reported in order. */
  lemma MetricsFixtureFails()
    ensures HasRequiredMetrics(map["invalid_metric" := JNum("123")]) == Some(MissingMetrics(RequiredMetrics))
  {
    MissingOrder(RequiredMetrics, map["invalid_metric" := JNum("123")]);
  }

  /** The tests' metadata names "gemini-1.5-flash", which is not an allowed model. */
  lemma MetadataFixtureFails()
    ensures var v := map["llm_model" := JStr("gemini-1.5-flash"), "prompt_version" := JStr("1.0"), "pattern_version" := JStr("1.0")];
      HasRequiredMetadata(v) == Some(InvalidModel(JStr("gemini-1.5-flash")))
  {
  }

  /** `{llm_model: "invalid-model"}` fails for its two missing keys before its model is looked at. */
  lemma MetadataMissingFirst()
    ensures HasRequiredMetadata(map["llm_model" := JStr("invalid-model")]) == Some(MissingMetadata(["prompt_version", "pattern_version"]))
  {
    var w: Object := map["llm_model" := JStr("invalid-model")];
    assert RequiredMetadata[1..] == ["prompt_version", "pattern_version"];
    assert RequiredMetadata[1..][1..] == ["pattern_version"];
    assert Missing([], w) == [];
    assert Missing(["pattern_version"], w) == ["pattern_version"];
    assert Missing(["prompt_version", "pattern_version"], w) == ["prompt_version", "pattern_version"];
    assert RequiredMetadata[0] in w;
    assert Missing(RequiredMetadata, w) == Missing(RequiredMetadata[1..], w);
  }

  /** An allowed model with both versions passes. */
  lemma MetadataPasses()
    ensures HasRequiredMetadata(map["llm_model" := JStr("gpt-4o-mini"), "prompt_version" := JStr("1.0"), "pattern_version" := JStr("1.0")]).None?
  {
  }

  // ---------------------------------------------------------------- recognisers

  /** The character classes the email expression is built from. */
  datatype CharClass = LocalPart | DomainPart | Letters

  predicate InClass(k: CharClass, c: char) {
    match k
    case LocalPart => IsAsciiLetter(c) || IsDigit(c) || c == '.' || c == '_' || c == '%' || c == '+' || c == '-'
    case DomainPart => IsAsciiLetter(c) || IsDigit(c) || c == '.' || c == '-'
    case Letters => IsAsciiLetter(c)
  }

  /** The length of the longest run of `k` characters starting at `i`. */
  function Run(s: string, i: nat, k: CharClass): (n: nat)
    requires i <= |s|
    ensures i + n <= |s|
    ensures forall j | i <= j < i + n :: InClass(k, s[j])
    ensures i + n == |s| || !InClass(k, s[i + n])
    decreases |s| - i
  {
    if i < |s| && InClass(k, s[i]) then 1 + Run(s, i + 1, k) else 0
  }

  /**
   * Backtracking of `[a-zA-Z0-9.-]+\.[a-zA-Z]{2,}` over the domain run that starts at
   * `d`: dots are tried from the right, below `p`, and the first one with a character
   * before it and two letters or more after it ends the match after those letters.
   */
  function TopLevel(s: string, d: nat, p: nat): (r: Option<nat>)
    requires d <= p <= |s|
    ensures r.Some? ==> d + 3 < r.value + 1 <= |s| + 1
    decreases p
  {
    if p <= d + 1 then None
    else
      var q := p - 1;
      if s[q] == '.' && Run(s, q + 1, Letters) >= 2 then Some(q + 1 + Run(s, q + 1, Letters))
      else TopLevel(s, d, q)
  }

  /**
   * Where `[a-zA-Z0-9._%+-]+@[a-zA-Z0-9.-]+\.[a-zA-Z]{2,}` ends when tried at `i`. The
   * local part cannot stop early, since `@` is not one of its characters.
   */
  function EmailAt(s: string, i: nat): (r: Option<nat>)
    requires i <= |s|
  {
    var a := Run(s, i, LocalPart);
    if a == 0 || i + a == |s| || s[i + a] != '@' then None
    else
      var d := i + a + 1;
      TopLevel(s, d, d + Run(s, d, DomainPart))
  }

  /** `i + n` characters fit and the `n` from `i` are digits. */
  predicate DigitsAt(s: string, i: nat, n: nat) {
    i + n <= |s| && forall j | i <= j < i + n :: IsDigit(s[j])
  }

  /** `[-.]?`: the separator is taken when there is one, since skipping it leaves a non-digit. */
  function Separator(s: string, i: nat): (j: nat)
    requires i <= |s|
    ensures i <= j <= |s|
  {
    if i < |s| && (s[i] == '-' || s[i] == '.') then i + 1 else i
  }

  /** Where `\b\d{3}[-.]?\d{3}[-.]?\d{4}\b` ends when tried at `i`. */
  function PhoneAt(s: string, i: nat): (r: Option<nat>)
    requires i <= |s|
  {
    if i > 0 && IsWordChar(s[i - 1]) then None
    else if !DigitsAt(s, i, 3) then None
    else
      var j := Separator(s, i + 3);
      if !DigitsAt(s, j, 3) then None
      else
        var k := Separator(s, j + 3);
        if !DigitsAt(s, k, 4) || (k + 4 < |s| && IsWordChar(s[k + 4])) then None
        else Some(k + 4)
  }

  /**
   * Where `new RegExp("\\b" + name + "\\b", "gi")` ends when tried at `i`, for a name of
   * lower-case letters: the flag `i` folds ASCII letters only.
   */
  function NameAt(s: string, name: string, i: nat): (r: Option<nat>)
    requires i <= |s|
  {
    var e := i + |name|;
    if e <= |s| && FoldsTo(s, i, name) && (i == 0 || !IsWordChar(s[i - 1])) && (e == |s| || !IsWordChar(s[e]))
    then Some(e) else None
  }

  /** The characters from `i` equal `name` once ASCII letters are lower-cased. */
  predicate FoldsTo(s: string, i: nat, name: string) {
    i + |name| <= |s| && forall k | 0 <= k < |name| :: LowerChar(s[i + k]) == name[k]
  }

  /** The expressions `anonymizeText` replaces. */
  datatype Pattern = Email | Phone | Name(name: string)

  /** A name of the list is lower-case ASCII letters, at least one. */
  predicate LowerWord(name: string) {
    name != [] && forall i | 0 <= i < |name| :: 'a' <= name[i] <= 'z'
  }

  predicate Searchable(p: Pattern) {
    p.Name? ==> LowerWord(p.name)
  }

  /** Where pattern `p` ends when tried at `i`; a match is never empty. */
  function MatchAt(p: Pattern, s: string, i: nat): (r: Option<nat>)
    requires i <= |s| && Searchable(p)
    ensures r.Some? ==> i < r.value <= |s|
  {
    match p
    case Email => EmailAt(s, i)
    case Phone => PhoneAt(s, i)
    case Name(n) => NameAt(s, n, i)
  }

  /** Where pattern `p` ends when tried at each index of `s`, up to and including `|s|`. */
  function Matches(p: Pattern, s: string): (t: seq<Option<nat>>)
    requires Searchable(p)
    ensures |t| == |s| + 1 && forall i | 0 <= i <= |s| :: t[i] == MatchAt(p, s, i)
  {
    seq(|s| + 1, i requires 0 <= i <= |s| => MatchAt(p, s, i))
  }

  /** The first index from `from` at which `t` has an entry. */
  function FirstFrom(t: seq<Option<nat>>, from: nat): (r: Option<nat>)
    requires from <= |t|
    ensures r.Some? ==> from <= r.value < |t| && t[r.value].Some? && forall i | from <= i < r.value :: t[i].None?
    ensures r.None? ==> forall i | from <= i < |t| :: t[i].None?
    decreases |t| - from
  {
    if from == |t| then None
    else if t[from].Some? then Some(from)
    else FirstFrom(t, from + 1)
  }

  /** The match a global search from `from` finds: the leftmost one. */
  function Find(p: Pattern, s: string, from: nat): (r: Option<(nat, nat)>)
    requires from <= |s| && Searchable(p)
    ensures r.Some? ==> from <= r.value.0 < r.value.1 <= |s| && MatchAt(p, s, r.value.0) == Some(r.value.1)
    ensures r.Some? ==> forall i | from <= i < r.value.0 :: MatchAt(p, s, i).None?
    ensures r.None? ==> forall i | from <= i <= |s| :: MatchAt(p, s, i).None?
  {
    var t := Matches(p, s);
    match FirstFrom(t, from)
    case None => None
    case Some(i) => Some((i, t[i].value))
  }

  /** `s.slice(from).replace(p, token)` for a global `p`: each match, left to right. */
  function ReplaceFrom(p: Pattern, s: string, token: string, from: nat): string
    requires from <= |s| && Searchable(p)
    decreases |s| - from
  {
    match Find(p, s, from)
    case None => s[from..]
    case Some((a, b)) => s[from..a] + token + ReplaceFrom(p, s, token, b)
  }

  function Token(p: Pattern): string {
    match p
    case Email => "[EMAIL]"
    case Phone => "[PHONE]"
    case Name(_) => "[NAME]"
  }

  /** `s.replace(p, token)` */
  function Replace(p: Pattern, s: string): string
    requires Searchable(p)
  {
    ReplaceFrom(p, s, Token(p), 0)
  }

  const CommonNames: seq<string> := ["john", "david", "susan", "mike", "sarah"]

  lemma CommonNamesSearchable()
    ensures forall n | n in CommonNames :: LowerWord(n)
  {
  }

  /** The names of `names`, in order, each replaced by `[NAME]`. */
  function ReplaceNames(s: string, names: seq<string>): string
    requires forall n | n in names :: LowerWord(n)
  {
    if names == [] then s
    else Replace(Name(names[|names| - 1]), ReplaceNames(s, names[..|names| - 1]))
  }

  /** What `anonymizeText(text)` returns: emails, then phone numbers, then the five names. */
  function Anonymized(text: string): string {
    CommonNamesSearchable();
    ReplaceNames(Replace(Phone, Replace(Email, text)), CommonNames)
  }

  /** `anonymizeText(text)` */
  method AnonymizeText(text: string) returns (r: string)
    ensures r == Anonymized(text)
  {
    CommonNamesSearchable();
    r := Replace(Email, text);
    r := Replace(Phone, r);
    ghost var redacted := r;
    for k := 0 to |CommonNames|
      invariant r == ReplaceNames(redacted, CommonNames[..k])
    {
      assert CommonNames[..k + 1][..k] == CommonNames[..k];
      r := Replace(Name(CommonNames[k]), r);
    }
    assert CommonNames[..|CommonNames|] == CommonNames;
  }

  // ---------------------------------------------------------------- what redaction does

  /** A search finds what is there: the leftmost match from `from`, or none. */
  lemma FindLeftmost(p: Pattern, s: string, from: nat, k: nat, e: nat)
    requires from <= k <= |s| && Searchable(p)
    requires MatchAt(p, s, k) == Some(e)
    requires forall i | from <= i < k :: MatchAt(p, s, i).None?
    ensures Find(p, s, from) == Some((k, e))
  {
    var r := Find(p, s, from);
    assert r.Some?;
    assert !(r.value.0 < k);
    assert !(k < r.value.0);
  }

  /** A text in which the pattern matches nowhere is left as it is. */
  lemma ReplaceNothing(p: Pattern, s: string)
    requires Searchable(p)
    requires forall i | 0 <= i <= |s| :: MatchAt(p, s, i).None?
    ensures Replace(p, s) == s
  {
    assert Find(p, s, 0).None?;
  }

  /** A text in which the pattern matches once, from `a` to `b`, has that one match replaced. */
  lemma ReplaceOnce(p: Pattern, s: string, a: nat, b: nat)
    requires Searchable(p) && a < b <= |s|
    requires MatchAt(p, s, a) == Some(b)
    requires forall i | 0 <= i < a :: MatchAt(p, s, i).None?
    requires forall i | b <= i <= |s| :: MatchAt(p, s, i).None?
    ensures Replace(p, s) == s[..a] + Token(p) + s[b..]
  {
    FindLeftmost(p, s, 0, a, b);
    assert Find(p, s, b).None?;
    var t := Token(p);
    assert ReplaceFrom(p, s, t, b) == s[b..];
    assert ReplaceFrom(p, s, t, 0) == s[0..a] + t + ReplaceFrom(p, s, t, b);
  }

  /** A name with a letter that no character of `s` folds to does not occur in `s`. */
  lemma NameAbsent(s: string, name: string, c: char)
    requires LowerWord(name) && c in name
    requires forall i | 0 <= i < |s| :: LowerChar(s[i]) != c
    ensures forall i | 0 <= i <= |s| :: NameAt(s, name, i).None?
  {
    var k :| 0 <= k < |name| && name[k] == c;
    forall i | 0 <= i <= |s|
      ensures !FoldsTo(s, i, name)
    {
      if i + |name| <= |s| {
        assert LowerChar(s[i + k]) != name[k];
      }
    }
  }

  /** Names that occur nowhere in `s` leave it as it is. */
  lemma {:induction false} NamesAbsent(s: string, names: seq<string>)
    requires forall n | n in names :: LowerWord(n)
    requires forall n, i | n in names && 0 <= i <= |s| :: NameAt(s, n, i).None?
    ensures ReplaceNames(s, names) == s
  {
    if names != [] {
      var init := names[..|names| - 1];
      assert forall n | n in init :: n in names;
      NamesAbsent(s, init);
      ReplaceNothing(Name(names[|names| - 1]), s);
    }
  }

  /** A text with no email, no phone number and none of the five names comes back as it is. */
  lemma AnonymizedUnchanged(text: string)
    requires forall i | 0 <= i <= |text| :: EmailAt(text, i).None? && PhoneAt(text, i).None?
    requires forall n, i | n in CommonNames && 0 <= i <= |text| :: NameAt(text, n, i).None?
    ensures Anonymized(text) == text
  {
    CommonNamesSearchable();
    ReplaceNothing(Email, text);
    ReplaceNothing(Phone, text);
    NamesAbsent(text, CommonNames);
  }

  /** No whole-word occurrence of `name`, in any letter case, is left in `s`. */
  predicate NoName(s: string, name: string) {
    forall i | 0 <= i <= |s| :: NameAt(s, name, i).None?
  }

  /** Every character of an occurrence of a name is a word character. */
  lemma FoldedLetter(s: string, i: nat, name: string, k: nat)
    requires LowerWord(name) && FoldsTo(s, i, name) && k < |name|
    ensures IsWordChar(s[i + k])
  {
    assert LowerChar(s[i + k]) == name[k];
  }

  /** A whole-word occurrence in `[NAME]` can only be the four letters between the brackets. */
  lemma TokenOccurrence(name: string, i: nat)
    requires LowerWord(name) && i <= 6
    ensures NameAt("[NAME]", name, i).Some? ==> i == 1 && |name| == 4
  {
    var t := "[NAME]";
    if NameAt(t, name, i).Some? {
      FoldedLetter(t, i, name, 0);
      FoldedLetter(t, i, name, |name| - 1);
    }
  }

  /** The four letters between the brackets fold to `name` and nothing else. */
  lemma TokenLetters(name: string)
    requires LowerWord(name)
    ensures |name| == 4 && FoldsTo("[NAME]", 1, name) ==> name == "name"
  {
    var t := "[NAME]";
    if |name| == 4 && FoldsTo(t, 1, name) {
      forall k | 0 <= k < 4
        ensures name[k] == "name"[k]
      {
        assert LowerChar(t[1 + k]) == name[k];
      }
    }
  }

  /** Only `name` itself would occur, as a whole word, in `[NAME]`. */
  lemma TokenHasNoName(name: string)
    requires LowerWord(name) && name != "name"
    ensures NoName("[NAME]", name)
  {
    TokenLetters(name);
    forall i | 0 <= i <= 6
      ensures NameAt("[NAME]", name, i).None?
    {
      TokenOccurrence(name, i);
    }
  }

  /**
   * A stretch of `s` from `from` to `a` that holds no occurrence in `s` holds none by
   * itself either, when it starts at the text's start or at a non-word character and
   * ends at the text's end or after a non-word character.
   */
  lemma SegmentHasNoName(s: string, name: string, from: nat, a: nat)
    requires LowerWord(name) && from <= a <= |s|
    requires from == 0 || from == |s| || !IsWordChar(s[from])
    requires a == |s| || a == from || !IsWordChar(s[a - 1])
    requires forall i | from <= i < a :: NameAt(s, name, i).None?
    ensures NoName(s[from..a], name)
  {
    var g := s[from..a];
    forall j | 0 <= j <= |g|
      ensures NameAt(g, name, j).None?
    {
      var e := j + |name|;
      if e <= |g| && FoldsTo(g, j, name) {
        assert FoldsTo(s, from + j, name) by {
          forall k | 0 <= k < |name|
            ensures LowerChar(s[from + j + k]) == name[k]
          {
            assert g[j + k] == s[from + j + k];
          }
        }
        FoldedLetter(s, from + j, name, 0);
        FoldedLetter(s, from + j, name, |name| - 1);
        assert NameAt(s, name, from + j).None?;
        if j > 0 {
          assert g[j - 1] == s[from + j - 1];
        }
        if e < |g| {
          assert g[e] == s[from + e];
        }
      }
    }
  }

  /** Two texts without the name, joined where one side is not a word character, are still without it. */
  lemma JoinHasNoName(x: string, y: string, name: string)
    requires LowerWord(name) && NoName(x, name) && NoName(y, name)
    requires x == [] || y == [] || !IsWordChar(x[|x| - 1]) || !IsWordChar(y[0])
    ensures NoName(x + y, name)
  {
    var xy := x + y;
    forall i | 0 <= i <= |xy| && FoldsTo(xy, i, name) && (i == 0 || !IsWordChar(xy[i - 1]))
      ensures i + |name| < |xy| && IsWordChar(xy[i + |name|])
    {
      var e := i + |name|;
      if e <= |x| {
        forall k | 0 <= k < |name|
          ensures LowerChar(x[i + k]) == name[k]
        {
          assert x[i + k] == xy[i + k];
        }
        assert NameAt(x, name, i).None?;
        if e < |x| {
          assert x[e] == xy[e];
        }
      } else if i >= |x| {
        forall k | 0 <= k < |name|
          ensures LowerChar(y[i - |x| + k]) == name[k]
        {
          assert y[i - |x| + k] == xy[i + k];
        }
        assert NameAt(y, name, i - |x|).None?;
        if i > |x| {
          assert y[i - |x| - 1] == xy[i - 1];
        }
        if e < |xy| {
          assert y[e - |x|] == xy[e];
        }
      } else {
        assert xy[|x| - 1] == x[|x| - 1] && xy[|x|] == y[0];
        FoldedLetter(xy, i, name, |x| - 1 - i);
        FoldedLetter(xy, i, name, |x| - i);
        assert false;
      }
    }
  }

  /** A replacement token between two texts without the name brings none in. */
  lemma TokenJoinHasNoName(x: string, y: string, name: string)
    requires LowerWord(name) && name != "name" && NoName(x, name) && NoName(y, name)
    ensures NoName(x + "[NAME]" + y, name)
  {
    TokenHasNoName(name);
    JoinHasNoName(x, "[NAME]", name);
    JoinHasNoName(x + "[NAME]", y, name);
    assert (x + "[NAME]")[|x| + 5] == ']';
  }

  /** What a search for a name finds is an occurrence of it. */
  lemma FoundName(s: string, m: string, from: nat, a: nat, b: nat)
    requires LowerWord(m) && from <= |s|
    requires Find(Name(m), s, from) == Some((a, b))
    ensures from <= a < b <= |s| && NameAt(s, m, a) == Some(b)
    ensures (a == 0 || !IsWordChar(s[a - 1])) && (b == |s| || !IsWordChar(s[b]))
  {
    assert MatchAt(Name(m), s, a) == Some(b);
  }

  /** The text before the next match of `m` holds no whole-word `name`. */
  lemma BeforeMatchHasNoName(s: string, m: string, name: string, from: nat, a: nat, b: nat)
    requires LowerWord(m) && LowerWord(name) && from <= |s|
    requires from == 0 || from == |s| || !IsWordChar(s[from])
    requires name == m || forall i | from <= i <= |s| :: NameAt(s, name, i).None?
    requires Find(Name(m), s, from) == Some((a, b))
    ensures NoName(s[from..a], name)
    ensures b == |s| || !IsWordChar(s[b])
  {
    FoundName(s, m, from, a, b);
    forall i | from <= i < a
      ensures NameAt(s, name, i).None?
    {
      assert MatchAt(Name(m), s, i).None?;
    }
    SegmentHasNoName(s, name, from, a);
  }

  /** The text after the last match of `m` holds no whole-word `name`. */
  lemma AfterMatchesHasNoName(s: string, m: string, name: string, from: nat)
    requires LowerWord(m) && LowerWord(name) && from <= |s|
    requires from == 0 || from == |s| || !IsWordChar(s[from])
    requires name == m || forall i | from <= i <= |s| :: NameAt(s, name, i).None?
    requires Find(Name(m), s, from).None?
    ensures NoName(s[from..], name)
  {
    forall i | from <= i < |s|
      ensures NameAt(s, name, i).None?
    {
      assert MatchAt(Name(m), s, i).None?;
    }
    SegmentHasNoName(s, name, from, |s|);
    assert s[from..|s|] == s[from..];
  }

  /**
   * Replacing `m` leaves no whole-word `name` behind from `from` on: neither `m` itself
   * nor a name already absent, since `[NAME]` brackets each replacement.
   */
  lemma {:induction false} ReplaceLeavesNoName(s: string, m: string, name: string, from: nat)
    requires LowerWord(m) && LowerWord(name) && name != "name" && from <= |s|
    requires from == 0 || from == |s| || !IsWordChar(s[from])
    requires name == m || forall i | from <= i <= |s| :: NameAt(s, name, i).None?
    ensures NoName(ReplaceFrom(Name(m), s, "[NAME]", from), name)
    decreases |s| - from
  {
    match Find(Name(m), s, from)
    case None =>
      AfterMatchesHasNoName(s, m, name, from);
    case Some((a, b)) =>
      BeforeMatchHasNoName(s, m, name, from, a, b);
      ReplaceLeavesNoName(s, m, name, b);
      TokenJoinHasNoName(s[from..a], ReplaceFrom(Name(m), s, "[NAME]", b), name);
  }

  /** After `ReplaceNames`, none of the names is left as a whole word, in any letter case. */
  lemma {:induction false} NamesGone(s: string, names: seq<string>)
    requires forall n | n in names :: LowerWord(n) && n != "name"
    ensures forall n | n in names :: NoName(ReplaceNames(s, names), n)
  {
    if names != [] {
      var init, last := names[..|names| - 1], names[|names| - 1];
      assert forall n | n in init :: n in names;
      NamesGone(s, init);
      var inner := ReplaceNames(s, init);
      forall n | n in names
        ensures NoName(ReplaceNames(s, names), n)
      {
        if n != last {
          assert n in init;
        }
        ReplaceLeavesNoName(inner, last, n, 0);
      }
    }
  }

  /** `anonymizeText` leaves none of john, david, susan, mike and sarah as a whole word, in any letter case. */
  lemma AnonymizedHasNoNames(text: string)
    ensures forall n | n in CommonNames :: NoName(Anonymized(text), n)
  {
    CommonNamesSearchable();
    NamesGone(Replace(Phone, Replace(Email, text)), CommonNames);
  }

  /** `NameAt` reads the text through `ToLower` only: a name is found in any letter case. */
  lemma NameCaseInsensitive(s: string, t: string, name: string, i: nat)
    requires LowerWord(name) && i <= |s| && ToLower(s) == ToLower(t)
    ensures NameAt(s, name, i) == NameAt(t, name, i)
  {
    assert |s| == |t|;
    forall j | 0 <= j < |s|
      ensures LowerChar(s[j]) == LowerChar(t[j]) && (IsWordChar(s[j]) <==> IsWordChar(t[j]))
    {
      ToLowerAt(s, j);
      ToLowerAt(t, j);
    }
  }

  /** The email expression cannot match from `i` when no `@` comes before the next character outside its local part. */
  lemma EmailStops(s: string, i: nat, k: nat)
    requires i <= k <= |s|
    requires forall j | i <= j < k :: s[j] != '@'
    requires k == |s| || (!InClass(LocalPart, s[k]) && s[k] != '@')
    ensures EmailAt(s, i).None?
  {
    var a := Run(s, i, LocalPart);
    assert i + a <= k;
  }

  /** The phone expression cannot match from `i` when the character there is not a digit. */
  lemma PhoneStops(s: string, i: nat)
    requires i <= |s|
    requires i == |s| || !IsDigit(s[i])
    ensures PhoneAt(s, i).None?
  {
  }

  /** The tests' input, `meeting with john@email.com at 123-456-7890`, and its redacted forms. */
  const TestInput: string := "meeting with " + "john@email.com" + " at 123-456-7890"
  const EmailRedacted: string := "meeting with " + "[EMAIL]" + " at 123-456-7890"
  const TestRedacted: string := "meeting with [EMAIL] at " + "[PHONE]"

  /** The run of `k` characters from `i` is `n` long when the `n` characters are of class `k` and the next is not. */
  lemma RunExact(s: string, i: nat, n: nat, k: CharClass)
    requires i + n <= |s|
    requires forall j | i <= j < i + n :: InClass(k, s[j])
    requires i + n == |s| || !InClass(k, s[i + n])
    ensures Run(s, i, k) == n
  {
    var r := Run(s, i, k);
    assert !(r < n);
    assert !(n < r);
  }

  /** Dots are tried from the right: letters after the last dot are passed over. */
  lemma {:induction false} TopLevelSkip(s: string, d: nat, q: nat, m: nat)
    requires d < q < m <= |s|
    requires forall j | q < j < m :: s[j] != '.'
    ensures TopLevel(s, d, m) == TopLevel(s, d, q + 1)
    decreases m
  {
    if m > q + 1 {
      TopLevelSkip(s, d, q, m - 1);
    }
  }

  /**
   * The email expression tried at `i` matches up to `e` when a local part runs from `i`
   * to an `@`, and the domain run after it ends at `e` with a dot and two letters or more.
   */
  lemma EmailSpan(s: string, i: nat, at: nat, q: nat, e: nat)
    requires i < at < q < e <= |s| && at + 1 < q && q + 2 < e
    requires forall j | i <= j < at :: InClass(LocalPart, s[j])
    requires s[at] == '@'
    requires forall j | at < j < e :: InClass(DomainPart, s[j])
    requires e == |s| || !InClass(DomainPart, s[e])
    requires s[q] == '.' && forall j | q < j < e :: InClass(Letters, s[j])
    ensures EmailAt(s, i) == Some(e)
  {
    RunExact(s, i, at - i, LocalPart);
    DomainTo(s, at + 1, q, e);
  }

  /** A domain run from `d` to `e` whose last dot, at `q`, has two letters or more after it ends there. */
  lemma DomainTo(s: string, d: nat, q: nat, e: nat)
    requires d < q && q + 2 < e <= |s|
    requires forall j | d <= j < e :: InClass(DomainPart, s[j])
    requires e == |s| || !InClass(DomainPart, s[e])
    requires s[q] == '.' && forall j | q < j < e :: InClass(Letters, s[j])
    ensures TopLevel(s, d, d + Run(s, d, DomainPart)) == Some(e)
  {
    RunExact(s, d, e - d, DomainPart);
    RunExact(s, q + 1, e - q - 1, Letters);
    TopLevelSkip(s, d, q, e);
  }

  /** In the tests' input the email expression first matches `john@email.com`. */
  lemma TestEmailAt(s: string)
    requires s == TestInput
    ensures EmailAt(s, 13) == Some(27)
  {
    EmailSpan(s, 13, 17, 23, 27);
  }

  lemma TestEmailNowhereElse(s: string)
    requires s == TestInput
    ensures forall i | 0 <= i < 13 :: MatchAt(Email, s, i).None?
    ensures forall i | 27 <= i <= |s| :: MatchAt(Email, s, i).None?
  {
    forall i | 0 <= i < 13
      ensures EmailAt(s, i).None?
    {
      EmailStops(s, i, 12);
    }
    forall i | 27 <= i <= |s|
      ensures EmailAt(s, i).None?
    {
      EmailStops(s, i, |s|);
    }
  }

  /** The email step replaces `john@email.com` in the tests' input. */
  lemma TestEmail(s: string)
    requires s == TestInput
    ensures Replace(Email, s) == s[..13] + "[EMAIL]" + s[27..]
  {
    TestEmailAt(s);
    TestEmailNowhereElse(s);
    ReplaceOnce(Email, s, 13, 27);
  }

  /** Replacing the middle of three pieces. */
  lemma Splice(a: string, b: string, c: string, t: string)
    ensures (a + b + c)[..|a|] + t + (a + b + c)[|a| + |b|..] == a + t + c
  {
    assert (a + b + c)[..|a|] == a;
    assert (a + b + c)[|a| + |b|..] == c;
  }

  lemma TestEmailText()
    ensures TestInput[..13] + "[EMAIL]" + TestInput[27..] == EmailRedacted
  {
    Splice("meeting with ", "john@email.com", " at 123-456-7890", "[EMAIL]");
  }

  lemma TestPhoneText()
    ensures EmailRedacted[..24] + "[PHONE]" == TestRedacted
  {
    assert EmailRedacted == "meeting with [EMAIL] at " + "123-456-7890" + "";
    Splice("meeting with [EMAIL] at ", "123-456-7890", "", "[PHONE]");
    assert EmailRedacted[24 + 12..] == "";
    assert TestRedacted + "" == TestRedacted;
  }

  /** A 3-3-4 number with dashes, set off from word characters, matches the phone expression. */
  lemma PhoneDashed(s: string, i: nat)
    requires i + 12 <= |s| && (i == 0 || !IsWordChar(s[i - 1]))
    requires DigitsAt(s, i, 3) && s[i + 3] == '-' && DigitsAt(s, i + 4, 3) && s[i + 7] == '-' && DigitsAt(s, i + 8, 4)
    requires i + 12 == |s| || !IsWordChar(s[i + 12])
    ensures PhoneAt(s, i) == Some(i + 12)
  {
  }

  /** The phone step replaces `123-456-7890`. */
  lemma TestPhone(s: string)
    requires s == EmailRedacted
    ensures Replace(Phone, s) == s[..24] + "[PHONE]"
  {
    PhoneDashed(s, 24);
    TestNoDigitsBefore(s);
    PhoneStops(s, 36);
    ReplaceOnce(Phone, s, 24, 36);
  }

  lemma TestNoDigitsBefore(s: string)
    requires s == EmailRedacted
    ensures forall i | 0 <= i < 24 :: MatchAt(Phone, s, i).None?
  {
    forall i | 0 <= i < 24
      ensures PhoneAt(s, i).None?
    {
      PhoneStops(s, i);
    }
  }

  /** None of the five names occurs in `meeting with [EMAIL] at [PHONE]`. */
  lemma TestNames(s: string)
    requires s == TestRedacted
    ensures ReplaceNames(s, CommonNames) == s
  {
    CommonNamesSearchable();
    TestLacks(s, 'j');
    NameAbsent(s, "john", 'j');
    TestLacks(s, 'd');
    NameAbsent(s, "david", 'd');
    TestLacks(s, 's');
    NameAbsent(s, "susan", 's');
    TestLacks(s, 'k');
    NameAbsent(s, "mike", 'k');
    NameAbsent(s, "sarah", 's');
    NamesAbsent(s, CommonNames);
  }

  /** The letters `j`, `d`, `s` and `k` occur in `meeting with [EMAIL] at [PHONE]` in neither case. */
  lemma TestLacks(s: string, c: char)
    requires s == TestRedacted && c in "jdsk"
    ensures forall i | 0 <= i < |s| :: LowerChar(s[i]) != c
  {
  }

  /**
   * The tests' input `meeting with john@email.com at 123-456-7890` becomes
   * `meeting with [EMAIL] at [PHONE]`: the email goes first, so the `john` inside it
   * is not reported as a name.
   */
  lemma AnonymizeTestInput()
    ensures Anonymized(TestInput) == TestRedacted
  {
    TestEmail(TestInput);
    TestEmailText();
    TestPhone(EmailRedacted);
    TestPhoneText();
    TestNames(TestRedacted);
  }

  // ---------------------------------------------------------------- the record

  /** A parsing-log instance, with its attribute values by column name. */
  class LogRecord {
    var dataValues: Object

    constructor (values: Object)
      ensures dataValues == values
    {
      dataValues := values;
    }

    /** `getSafeData()`: every attribute except `input_hash`, each with its value. */
    function GetSafeData(): (r: Object)
      reads this
      ensures "input_hash" !in r
      ensures forall k | k != "input_hash" :: (k in r <==> k in dataValues) && (k in r ==> r[k] == dataValues[k])
    {
      dataValues - {"input_hash"}
    }

    /**
     * The `beforeValidate` hook, with `sha256Hex` for the hex SHA-256 digest. When
     * `anonymized_input` is truthy, `input_hash` becomes the digest of the text as it
     * arrived, and only then is the text redacted; otherwise nothing changes. A truthy
     * value that is not a string makes the hash update throw (`thrown`) before any
     * assignment.
     */
    method BeforeValidate(sha256Hex: string -> string) returns (thrown: bool)
      modifies this
      ensures var v := old(dataValues);
        if "anonymized_input" in v && Truthy(v["anonymized_input"]) then
          if v["anonymized_input"].JStr? then
            var text := v["anonymized_input"].s;
            && !thrown
            && dataValues == v["input_hash" := JStr(sha256Hex(text))]["anonymized_input" := JStr(Anonymized(text))]
          else thrown && dataValues == v
        else !thrown && dataValues == v
    {
      thrown := false;
      if "anonymized_input" in dataValues && Truthy(dataValues["anonymized_input"]) {
        match dataValues["anonymized_input"]
        case JStr(text) =>
          dataValues := dataValues["input_hash" := JStr(sha256Hex(text))];
          var redacted := AnonymizeText(text);
          dataValues := dataValues["anonymized_input" := JStr(redacted)];
        case _ =>
          thrown := true;
      }
    }
  }
}
