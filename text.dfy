/**
 * The JavaScript string operations the core relies on, over `string` (`seq<char>`).
 * Letter case is ASCII only: every string the handlers lower-case was captured by a
 * rule whose alternatives are ASCII words.
 */
module Text {

  /** The characters JavaScript's `\s` class matches. */
  predicate IsSpace(c: char) {
    || c == ' ' || c == '\t' || c == '\n' || c == '\r' || c == '\U{B}' || c == '\U{C}'
    || c == '\U{A0}' || c == '\U{1680}' || ('\U{2000}' <= c <= '\U{200A}')
    || c == '\U{2028}' || c == '\U{2029}' || c == '\U{202F}' || c == '\U{205F}'
    || c == '\U{3000}' || c == '\U{FEFF}'
  }

  predicate IsDigit(c: char) {
    '0' <= c <= '9'
  }

  predicate IsAsciiLetter(c: char) {
    ('a' <= c <= 'z') || ('A' <= c <= 'Z')
  }

  /** The characters of `\w`, used by the `\b` word boundary. */
  predicate IsWordChar(c: char) {
    IsAsciiLetter(c) || IsDigit(c) || c == '_'
  }

  function LowerChar(c: char): char {
    if 'A' <= c <= 'Z' then (c as int + 32) as char else c
  }

  /** `s.toLowerCase()` */
  function ToLower(s: string): (r: string)
    ensures |r| == |s|
  {
    if s == [] then [] else [LowerChar(s[0])] + ToLower(s[1..])
  }

  lemma {:induction false} ToLowerAppend(a: string, b: string)
    ensures ToLower(a + b) == ToLower(a) + ToLower(b)
  {
    if a != [] {
      assert (a + b)[1..] == a[1..] + b;
      ToLowerAppend(a[1..], b);
    } else {
      assert a + b == b;
    }
  }

  lemma {:induction false} ToLowerAt(s: string, i: nat)
    requires i < |s|
    ensures ToLower(s)[i] == LowerChar(s[i])
  {
    if i > 0 {
      ToLowerAt(s[1..], i - 1);
    }
  }

  /** No upper-case letter survives lower-casing. */
  lemma ToLowerNoUpper(s: string)
    ensures forall i | 0 <= i < |ToLower(s)| :: !('A' <= ToLower(s)[i] <= 'Z')
  {
    forall i | 0 <= i < |ToLower(s)|
      ensures !('A' <= ToLower(s)[i] <= 'Z')
    {
      ToLowerAt(s, i);
    }
  }

  /** `p` occurs in `s` at index `i`. */
  predicate OccursAt(s: string, p: string, i: nat) {
    i + |p| <= |s| && s[i..i + |p|] == p
  }

  /** `s.includes(p)`, and equally `s.match(/p/)` being non-null for a literal `p`. */
  predicate Contains(s: string, p: string) {
    exists i: nat | i <= |s| :: OccursAt(s, p, i)
  }

  /** `p` cannot occur in `s` when it is longer, or when its first character is nowhere in `s`. */
  lemma Absent(s: string, p: string)
    requires p != [] && (|p| > |s| || forall i | 0 <= i < |s| :: s[i] != p[0])
    ensures !Contains(s, p)
  {
    forall i: nat | i <= |s|
      ensures !OccursAt(s, p, i)
    {
      if i + |p| <= |s| {
        assert s[i..i + |p|][0] == s[i];
      }
    }
  }

  /** `s.startsWith(p)` */
  predicate StartsWith(s: string, p: string) {
    |p| <= |s| && s[..|p|] == p
  }

  /** `s.replace(/\s+/g, "")`: every whitespace character removed. */
  function StripSpaces(s: string): (r: string)
    ensures |r| <= |s|
  {
    if s == [] then [] else (if IsSpace(s[0]) then [] else [s[0]]) + StripSpaces(s[1..])
  }

  lemma {:induction false} StripSpacesAppend(a: string, b: string)
    ensures StripSpaces(a + b) == StripSpaces(a) + StripSpaces(b)
  {
    if a != [] {
      assert (a + b)[1..] == a[1..] + b;
      StripSpacesAppend(a[1..], b);
    } else {
      assert a + b == b;
    }
  }

  /** No white space survives stripping. */
  lemma {:induction false} StripSpacesNoSpace(s: string)
    ensures forall i | 0 <= i < |StripSpaces(s)| :: !IsSpace(StripSpaces(s)[i])
  {
    if s != [] {
      StripSpacesNoSpace(s[1..]);
    }
  }

  lemma {:induction false} StripAllSpaces(s: string)
    requires forall i | 0 <= i < |s| :: IsSpace(s[i])
    ensures StripSpaces(s) == []
  {
    if s != [] {
      assert forall i | 0 <= i < |s[1..]| :: s[1..][i] == s[i + 1];
      StripAllSpaces(s[1..]);
    }
  }

  lemma {:induction false} StripNoSpaces(s: string)
    requires forall i | 0 <= i < |s| :: !IsSpace(s[i])
    ensures StripSpaces(s) == s
  {
    if s != [] {
      assert forall i | 0 <= i < |s[1..]| :: s[1..][i] == s[i + 1];
      StripNoSpaces(s[1..]);
      assert s == [s[0]] + s[1..];
    }
  }

  /** A string without upper-case letters is its own lower case. */
  lemma LowerFixed(s: string)
    requires forall i | 0 <= i < |s| :: !('A' <= s[i] <= 'Z')
    ensures ToLower(s) == s
  {
    forall i | 0 <= i < |s|
      ensures ToLower(s)[i] == s[i]
    {
      ToLowerAt(s, i);
    }
  }

  /** `p` cannot occur in `s` when no two neighbouring characters of `s` are the first two of `p`. */
  lemma AbsentPair(s: string, p: string)
    requires |p| >= 2 && forall i | 0 <= i < |s| - 1 :: !(s[i] == p[0] && s[i + 1] == p[1])
    ensures !Contains(s, p)
  {
    forall i: nat | i <= |s|
      ensures !OccursAt(s, p, i)
    {
      if i + |p| <= |s| {
        assert s[i..i + |p|][0] == s[i] && s[i..i + |p|][1] == s[i + 1];
      }
    }
  }

  /** An occurrence of `q` inside an occurrence of `p` is an occurrence of `q`. */
  lemma OccursWithin(s: string, p: string, q: string, i: nat, j: nat)
    requires OccursAt(s, p, i) && OccursAt(p, q, j)
    ensures OccursAt(s, q, i + j)
  {
    forall k | 0 <= k < |q|
      ensures s[i + j + k] == q[k]
    {
      assert s[i..i + |p|][j + k] == p[j + k] == p[j..j + |q|][k];
    }
    assert s[i + j..i + j + |q|] == q;
  }

  lemma LetterNotSpace(c: char)
    requires IsAsciiLetter(c)
    ensures !IsSpace(c)
  {
  }

  /** A word of ASCII letters has no white space to strip. */
  lemma StripLetters(s: string)
    requires forall i | 0 <= i < |s| :: IsAsciiLetter(s[i])
    ensures StripSpaces(s) == s
  {
    forall i | 0 <= i < |s|
      ensures !IsSpace(s[i])
    {
      LetterNotSpace(s[i]);
    }
    StripNoSpaces(s);
  }

  /** `s.replace(".", "")`: a string pattern replaces its first occurrence only. */
  function RemoveFirst(s: string, c: char): (r: string)
    ensures |r| <= |s|
  {
    if s == [] then [] else if s[0] == c then s[1..] else [s[0]] + RemoveFirst(s[1..], c)
  }

  /** Exactly one character goes when `c` occurs, and none otherwise. */
  lemma {:induction false} RemoveFirstLength(s: string, c: char)
    ensures c in s ==> |RemoveFirst(s, c)| == |s| - 1
    ensures c !in s ==> RemoveFirst(s, c) == s
  {
    if s != [] && s[0] != c {
      RemoveFirstLength(s[1..], c);
      assert s == [s[0]] + s[1..];
    }
  }

  /** The leading run of decimal digits of `s`. */
  function LeadingDigits(s: string): (r: string)
    ensures |r| <= |s|
  {
    if s != [] && IsDigit(s[0]) then [s[0]] + LeadingDigits(s[1..]) else []
  }

  function DigitsValue(d: string): nat {
    if d == [] then 0
    else DigitsValue(d[..|d| - 1]) * 10 + (if IsDigit(d[|d| - 1]) then d[|d| - 1] as int - '0' as int else 0)
  }

  /**
   * `parseInt(s)` for the digit strings the rules capture (`\d{1,2}`, `\d+`).
   * A string without a leading digit gives 0 here, where JavaScript gives NaN.
   */
  function ParseInt(s: string): nat {
    DigitsValue(LeadingDigits(s))
  }

  lemma ParseOneDigit(s: string)
    requires |s| == 1 && IsDigit(s[0])
    ensures ParseInt(s) == s[0] as int - '0' as int
  {
    assert s[1..] == [];
    assert LeadingDigits(s[1..]) == [];
    assert [s[0]] + [] == s;
    assert LeadingDigits(s) == s;
    assert s[..0] == [];
    assert DigitsValue(s) == DigitsValue([]) * 10 + (s[0] as int - '0' as int);
  }

  lemma ParseTwoDigits(s: string)
    requires |s| == 2 && IsDigit(s[0]) && IsDigit(s[1])
    ensures ParseInt(s) == (s[0] as int - '0' as int) * 10 + (s[1] as int - '0' as int)
  {
    var t := s[1..];
    assert |t| == 1 && t[0] == s[1];
    assert t[1..] == [];
    assert LeadingDigits(t[1..]) == [];
    assert LeadingDigits(t) == [s[1]];
    assert [s[0]] + [s[1]] == s;
    assert LeadingDigits(s) == s;
    assert s[..1] == [s[0]];
    assert [s[0]][..0] == [];
    assert DigitsValue([s[0]]) == DigitsValue([]) * 10 + (s[0] as int - '0' as int);
    assert DigitsValue(s) == DigitsValue([s[0]]) * 10 + (s[1] as int - '0' as int);
  }

  /** Lower-casing and white-space stripping distribute over a three-part concatenation. */
  lemma LowerStripThree(a: string, w: string, b: string)
    ensures StripSpaces(ToLower(a + w + b)) == StripSpaces(ToLower(a)) + StripSpaces(ToLower(w)) + StripSpaces(ToLower(b))
  {
    ToLowerAppend(a + w, b);
    ToLowerAppend(a, w);
    StripSpacesAppend(ToLower(a) + ToLower(w), ToLower(b));
    StripSpacesAppend(ToLower(a), ToLower(w));
  }

  lemma SpaceUnchanged(c: char)
    requires IsSpace(c)
    ensures LowerChar(c) == c
  {
  }

  /** White space survives lower-casing and is stripped entirely. */
  lemma StripLoweredSpaces(w: string)
    requires forall i | 0 <= i < |w| :: IsSpace(w[i])
    ensures StripSpaces(ToLower(w)) == []
  {
    forall i | 0 <= i < |w|
      ensures ToLower(w)[i] == w[i]
    {
      ToLowerAt(w, i);
      SpaceUnchanged(w[i]);
    }
    assert ToLower(w) == w;
    StripAllSpaces(w);
  }

  /** `parts.join(sep)` */
  function Join(parts: seq<string>, sep: string): string {
    if parts == [] then "" else if |parts| == 1 then parts[0] else parts[0] + sep + Join(parts[1..], sep)
  }
}
