/** The JavaScript string operations the client relies on, on `seq<char>`:
    first-occurrence search and replace, `split`, prefix tests, ASCII case
    mapping and the `\w` character class of regular expressions. */
module JsText {

  /** `\w` in a JavaScript regular expression: `[A-Za-z0-9_]`. */
  predicate IsWord(c: char) {
    ('a' <= c <= 'z') || ('A' <= c <= 'Z') || ('0' <= c <= '9') || c == '_'
  }

  predicate IsDigit(c: char) { '0' <= c <= '9' }

  predicate IsLetter(c: char) { ('a' <= c <= 'z') || ('A' <= c <= 'Z') }

  predicate AllWord(s: string) { forall i :: 0 <= i < |s| ==> IsWord(s[i]) }

  /** `/^\d+$/`: a non-empty run of decimal digits. */
  predicate IsNumeric(s: string) {
    |s| > 0 && forall i :: 0 <= i < |s| ==> IsDigit(s[i])
  }

  /** `String.prototype.trim` removes exactly these characters. */
  predicate IsJsWhitespace(c: char) {
    c == ' ' || c == '\t' || c == '\n' || c == '\r' || c == '\U{B}' || c == '\U{C}'
    || c == '\U{A0}' || c == '\U{1680}' || ('\U{2000}' <= c <= '\U{200A}')
    || c == '\U{2028}' || c == '\U{2029}' || c == '\U{202F}' || c == '\U{205F}'
    || c == '\U{3000}' || c == '\U{FEFF}'
  }

  /** `s.trim() === ''`. */
  predicate IsBlank(s: string) { forall i :: 0 <= i < |s| ==> IsJsWhitespace(s[i]) }

  function ToLowerChar(c: char): char {
    if 'A' <= c <= 'Z' then (c as int + 32) as char else c
  }

  function ToUpperChar(c: char): char {
    if 'a' <= c <= 'z' then (c as int - 32) as char else c
  }

  /** `toLowerCase`, restricted to ASCII letters. */
  function Lower(s: string): (r: string)
    ensures |r| == |s|
    ensures forall i :: 0 <= i < |s| ==> r[i] == ToLowerChar(s[i])
  {
    if s == [] then [] else [ToLowerChar(s[0])] + Lower(s[1..])
  }

  predicate StartsWith(s: string, p: string) {
    |p| <= |s| && s[..|p|] == p
  }

  predicate EndsWith(s: string, p: string) {
    |p| <= |s| && s[|s| - |p|..] == p
  }

  /** `p` occurs in `s` at position `i`. */
  predicate OccursAt(s: string, p: string, i: int) {
    0 <= i && i + |p| <= |s| && s[i..i + |p|] == p
  }

  /** `s.indexOf(p)`: the first position where `p` occurs, or -1. */
  function IndexOf(s: string, p: string): (r: int)
    ensures -1 <= r <= |s|
    ensures r >= 0 ==> OccursAt(s, p, r)
    ensures r >= 0 ==> forall j :: 0 <= j < r ==> !OccursAt(s, p, j)
    ensures r == -1 ==> forall j :: 0 <= j <= |s| ==> !OccursAt(s, p, j)
    decreases |s|
  {
    if StartsWith(s, p) then 0
    else if |s| == 0 then -1
    else
      var r := IndexOf(s[1..], p);
      ShiftOccurrence(s, p);
      assert !OccursAt(s, p, 0);
      if r < 0 then -1 else r + 1
  }

  /** An occurrence in `s[1..]` is an occurrence in `s` one place further on. */
  lemma ShiftOccurrence(s: string, p: string)
    requires |s| > 0
    ensures forall j :: 1 <= j <= |s| ==> (OccursAt(s, p, j) <==> OccursAt(s[1..], p, j - 1))
  {
    forall j | 1 <= j <= |s|
      ensures OccursAt(s, p, j) <==> OccursAt(s[1..], p, j - 1)
    {
      if j + |p| <= |s| {
        assert s[1..][j - 1..j - 1 + |p|] == s[j..j + |p|];
      }
    }
  }

  /** `s.includes(p)`. */
  predicate Contains(s: string, p: string) {
    IndexOf(s, p) >= 0
  }

  lemma ContainsIff(s: string, p: string)
    ensures Contains(s, p) <==> exists j :: OccursAt(s, p, j)
  {
    if Contains(s, p) {
      assert OccursAt(s, p, IndexOf(s, p));
    }
  }

  /** A pattern that holds a character `s` lacks does not occur in `s`. */
  lemma {:induction false} NotContainsMissingChar(s: string, p: string, k: nat)
    requires k < |p|
    requires forall i :: 0 <= i < |s| ==> s[i] != p[k]
    ensures !Contains(s, p)
  {
    forall j ensures !OccursAt(s, p, j) {
      if 0 <= j && j + |p| <= |s| {
        assert s[j..j + |p|][k] == s[j + k];
      }
    }
    ContainsIff(s, p);
  }

  /** `s.replace(p, r)` with a string pattern: only the first occurrence is replaced. */
  function ReplaceFirst(s: string, p: string, r: string): (t: string)
    ensures !Contains(s, p) ==> t == s
    ensures Contains(s, p) ==>
      t == s[..IndexOf(s, p)] + r + s[IndexOf(s, p) + |p|..]
  {
    var i := IndexOf(s, p);
    if i < 0 then s else s[..i] + r + s[i + |p|..]
  }

  lemma ReplaceFirstAbsent(s: string, p: string, r: string)
    requires !Contains(s, p)
    ensures ReplaceFirst(s, p, r) == s
  {
  }

  /** `s.split(sep)` for a non-empty separator. */
  function Split(s: string, sep: string): (parts: seq<string>)
    requires |sep| > 0
    ensures |parts| >= 1
    ensures !Contains(s, sep) ==> parts == [s]
    ensures Contains(s, sep) ==> parts[0] == s[..IndexOf(s, sep)] && |parts| >= 2
    ensures forall i :: 0 <= i < |parts| ==> |parts[i]| <= |s|
    ensures |parts| >= 2 ==> forall i :: 0 <= i < |parts| ==> |parts[i]| < |s|
    decreases |s|
  {
    var i := IndexOf(s, sep);
    if i < 0 then [s] else [s[..i]] + Split(s[i + |sep|..], sep)
  }

  /** The text before the first `sep`, i.e. `s.split(sep)[0]`. */
  function Before(s: string, sep: string): (r: string)
    requires |sep| > 0
    ensures r == Split(s, sep)[0]
    ensures !Contains(s, sep) ==> r == s
    ensures Contains(s, sep) ==> r == s[..IndexOf(s, sep)] && !Contains(r, sep)
  {
    var i := IndexOf(s, sep);
    if i < 0 then s
    else
      var r := s[..i];
      assert forall j :: 0 <= j <= |r| ==> (OccursAt(r, sep, j) ==> OccursAt(s, sep, j)) by {
        forall j | 0 <= j <= |r| && OccursAt(r, sep, j) ensures OccursAt(s, sep, j) {
          assert r[j..j + |sep|] == s[j..j + |sep|];
        }
      }
      r
  }

  /** `s.lastIndexOf(c)` for a single character, or -1. */
  function LastIndexOf(s: string, c: char): (r: int)
    ensures -1 <= r < |s|
    ensures r >= 0 ==> s[r] == c && forall j :: r < j < |s| ==> s[j] != c
    ensures r == -1 ==> forall j :: 0 <= j < |s| ==> s[j] != c
  {
    if |s| == 0 then -1
    else if s[|s| - 1] == c then |s| - 1
    else LastIndexOf(s[..|s| - 1], c)
  }

  /** `s.split(sep).pop()` for a one-character separator: the text after the last `sep`. */
  function AfterLast(s: string, c: char): (r: string)
    ensures !(exists j :: 0 <= j < |s| && s[j] == c) ==> r == s
    ensures forall j :: 0 <= j < |r| ==> r[j] != c
    ensures |r| <= |s|
    ensures (exists j :: 0 <= j < |s| && s[j] == c) ==> |r| < |s|
  {
    var i := LastIndexOf(s, c);
    if i < 0 then s else s[i + 1..]
  }

  /** Removes every leading `@`: `s.replace(/^@+/, '')`. */
  function StripLeadingAts(s: string): (r: string)
    ensures |r| <= |s| && s[|s| - |r|..] == r
    ensures r == [] || r[0] != '@'
    ensures (s == [] || s[0] != '@') ==> r == s
  {
    if |s| > 0 && s[0] == '@' then StripLeadingAts(s[1..]) else s
  }

  /** `c` occurs at most once in `s`. */
  predicate AtMostOnce(s: string, c: char) {
    forall j, k :: 0 <= j < |s| && 0 <= k < |s| && s[j] == c && s[k] == c ==> j == k
  }

  /** A pattern that holds `c` twice does not occur in a text that holds it at most once. */
  lemma NotContainsTwice(s: string, p: string, c: char, m: nat)
    requires 0 < m < |p| && p[0] == c && p[m] == c
    requires AtMostOnce(s, c)
    ensures !Contains(s, p)
  {
    forall j ensures !OccursAt(s, p, j) {
      if 0 <= j && j + |p| <= |s| {
        assert s[j..j + |p|][0] == s[j];
        assert s[j..j + |p|][m] == s[j + m];
      }
    }
    ContainsIff(s, p);
  }

  /** The first occurrence is the one with no occurrence before it. */
  lemma IndexOfIs(s: string, p: string, i: int)
    requires OccursAt(s, p, i)
    requires forall j :: 0 <= j < i ==> !OccursAt(s, p, j)
    ensures IndexOf(s, p) == i
  {
  }

  /** Concatenation regroups freely; stated once so proofs can cite it. */
  lemma ConcatAssoc(x: string, y: string, z: string)
    ensures x + (y + z) == (x + y) + z
  {
  }
}
