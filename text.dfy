/**
 * String operations shared by the JavaScript and Python code of the system:
 * trimming, substring search, splitting on a separator, joining, `str.replace`,
 * ASCII lower-casing and decimal digit strings.
 */
module Text {
  import opened Options

  /** ASCII whitespace, the characters JavaScript `trim`, the regular-expression class `\s`
      and Python `strip` have in common. */
  predicate IsWhitespace(c: char) {
    c == ' ' || c == '\t' || c == '\n' || c == '\r' || c == '\U{B}' || c == '\U{C}'
  }

  /** The characters a regular-expression `.` does not match. */
  predicate IsLineTerminator(c: char) {
    c == '\n' || c == '\r' || c == '\U{2028}' || c == '\U{2029}'
  }

  predicate IsDigit(c: char) {
    '0' <= c <= '9'
  }

  predicate NoLineTerminator(s: string) {
    forall k :: 0 <= k < |s| ==> !IsLineTerminator(s[k])
  }

  predicate AllDigits(s: string) {
    forall k :: 0 <= k < |s| ==> IsDigit(s[k])
  }

  /** A string with no whitespace at either end. */
  predicate IsTrimmed(s: string) {
    |s| == 0 || (!IsWhitespace(s[0]) && !IsWhitespace(s[|s| - 1]))
  }

  // ---------------------------------------------------------------- trimming

  function TrimStart(s: string): (r: string)
    ensures |r| <= |s| && r == s[|s| - |r|..]
    ensures |r| > 0 ==> !IsWhitespace(r[0])
    ensures forall k :: 0 <= k < |s| - |r| ==> IsWhitespace(s[k])
  {
    if |s| > 0 && IsWhitespace(s[0]) then TrimStart(s[1..]) else s
  }

  function TrimEnd(s: string): (r: string)
    ensures |r| <= |s| && r == s[..|r|]
    ensures |r| > 0 ==> !IsWhitespace(r[|r| - 1])
    ensures forall k :: |r| <= k < |s| ==> IsWhitespace(s[k])
  {
    if |s| > 0 && IsWhitespace(s[|s| - 1]) then TrimEnd(s[..|s| - 1]) else s
  }

  /** JavaScript `trim()` and Python `strip()`: the string without its leading and
      trailing whitespace. */
  function Trim(s: string): (r: string)
    ensures IsTrimmed(r)
    ensures IsTrimmed(s) ==> r == s
    ensures |r| <= |s|
    ensures |r| > 0 ==> exists i {:trigger s[i..]} :: 0 <= i && i + |r| <= |s| && r == s[i..i + |r|]
  {
    var t := TrimStart(s);
    var r := TrimEnd(t);
    PrefixOfSuffix(s, t, r);
    r
  }

  /** A prefix of a suffix of `s` is a slice of `s`. */
  lemma PrefixOfSuffix(s: string, t: string, r: string)
    requires |t| <= |s| && t == s[|s| - |t|..]
    requires |r| <= |t| && r == t[..|r|]
    ensures r == s[|s| - |t|..|s| - |t| + |r|]
  {
    assert forall k :: 0 <= k < |r| ==> r[k] == t[k] == s[|s| - |t| + k];
  }

  lemma TrimOfNonEmptyIsNonEmpty(s: string)
    requires exists k :: 0 <= k < |s| && !IsWhitespace(s[k])
    ensures |Trim(s)| > 0
  {
    var k :| 0 <= k < |s| && !IsWhitespace(s[k]);
    var t := TrimStart(s);
    assert |t| > 0;
    assert !IsWhitespace(t[0]);
  }

  // ---------------------------------------------------------------- length

  /** A character beyond the Basic Multilingual Plane, which UTF-16 writes as two units. */
  predicate IsAstral(c: char) {
    c as int > 0xFFFF
  }

  /** JavaScript's `s.length`: the number of UTF-16 code units, one per character of the
      Basic Multilingual Plane and two per character beyond it. */
  function Utf16Length(s: string): (n: nat)
    ensures |s| <= n <= 2 * |s|
    ensures n == |s| <==> forall k :: 0 <= k < |s| ==> !IsAstral(s[k])
  {
    if |s| == 0 then 0
    else
      var front := s[..|s| - 1];
      assert forall k :: 0 <= k < |front| ==> front[k] == s[k];
      Utf16Length(front) + if IsAstral(s[|s| - 1]) then 2 else 1
  }

  // ---------------------------------------------------------------- search

  /** The string `t` occurs in `s` starting at position `i`. */
  predicate OccursAt(s: string, t: string, i: int) {
    0 <= i && i + |t| <= |s| && s[i..i + |t|] == t
  }

  /** The leftmost occurrence of `t` in `s` at or after position `from`. */
  function IndexOfFrom(s: string, t: string, from: nat): (r: Option<nat>)
    decreases |s| - from
    ensures r.Some? ==> from <= r.value && OccursAt(s, t, r.value)
    ensures r.Some? ==> forall k :: from <= k < r.value ==> !OccursAt(s, t, k)
    ensures r.None? ==> forall k :: from <= k ==> !OccursAt(s, t, k)
  {
    if from + |t| > |s| then None
    else if s[from..from + |t|] == t then Some(from)
    else IndexOfFrom(s, t, from + 1)
  }

  function IndexOf(s: string, t: string): (r: Option<nat>)
    ensures r.Some? ==> OccursAt(s, t, r.value) && forall k :: k < r.value ==> !OccursAt(s, t, k)
    ensures r.None? ==> forall k :: !OccursAt(s, t, k)
  {
    IndexOfFrom(s, t, 0)
  }

  /** JavaScript `includes` and Python `in` on strings. */
  predicate Contains(s: string, t: string) {
    IndexOf(s, t).Some?
  }

  lemma ContainsAt(s: string, t: string, i: nat)
    requires OccursAt(s, t, i)
    ensures Contains(s, t)
  {
  }

  /** A text that contains `t` contains every character of `t`. */
  lemma ContainsChars(s: string, t: string, c: char)
    requires Contains(s, t) && c in t
    ensures c in s
  {
    var i := IndexOf(s, t).value;
    var k :| 0 <= k < |t| && t[k] == c;
    assert s[i + k] == t[k];
  }

  /** A string without the character `c` contains no text that has `c`. */
  lemma NotContainsForMissingChar(s: string, t: string, c: char)
    requires c in t && c !in s
    ensures !Contains(s, t)
  {
  }

  lemma ContainsInPrefix(s: string, t: string, extra: string)
    requires Contains(s, t)
    ensures Contains(s + extra, t)
  {
    var i := IndexOf(s, t).value;
    assert (s + extra)[i..i + |t|] == s[i..i + |t|];
    ContainsAt(s + extra, t, i);
  }

  lemma ContainsInSuffix(s: string, t: string, extra: string)
    requires Contains(s, t)
    ensures Contains(extra + s, t)
  {
    var i := IndexOf(s, t).value;
    assert (extra + s)[|extra| + i..|extra| + i + |t|] == s[i..i + |t|];
    ContainsAt(extra + s, t, |extra| + i);
  }

  // ---------------------------------------------------------------- split and join

  /** Python `sep.join(parts)` and JavaScript `parts.join(sep)`. */
  function Join(parts: seq<string>, sep: string): string {
    if |parts| == 0 then ""
    else if |parts| == 1 then parts[0]
    else parts[0] + sep + Join(parts[1..], sep)
  }

  /** JavaScript `s.split(c)` and Python `s.split(c)` for a one-character separator. */
  function Split(s: string, sep: char): (parts: seq<string>)
    ensures |parts| >= 1
    ensures forall k :: 0 <= k < |parts| ==> sep !in parts[k]
  {
    if |s| == 0 then [""]
    else
      var rest := Split(s[1..], sep);
      if s[0] == sep then [""] + rest else [[s[0]] + rest[0]] + rest[1..]
  }

  /** The lines of a text, as `text.split("\n")`. */
  function Lines(s: string): (lines: seq<string>)
    ensures |lines| >= 1
  {
    Split(s, '\n')
  }

  /** Splitting undoes joining: the parts of a text are joined back into it. */
  lemma {:induction false} JoinSplit(s: string, sep: char)
    ensures Join(Split(s, sep), [sep]) == s
    decreases |s|
  {
    if |s| > 0 {
      var rest := Split(s[1..], sep);
      JoinSplit(s[1..], sep);
      if s[0] == sep {
        assert Split(s, sep) == [""] + rest;
        assert ([""] + rest)[1..] == rest;
      } else {
        var parts := [[s[0]] + rest[0]] + rest[1..];
        assert Split(s, sep) == parts;
        if |rest| == 1 {
          assert Join(parts, [sep]) == [s[0]] + rest[0];
        } else {
          assert parts[1..] == rest[1..];
          assert Join(parts, [sep]) == [s[0]] + rest[0] + [sep] + Join(rest[1..], [sep]);
        }
        assert s == [s[0]] + s[1..];
      }
    }
  }

  /** Joining undoes splitting: text written as lines is read back as those lines. */
  lemma {:induction false} SplitJoin(parts: seq<string>, sep: char)
    requires |parts| >= 1
    requires forall k :: 0 <= k < |parts| ==> sep !in parts[k]
    ensures Split(Join(parts, [sep]), sep) == parts
    decreases |Join(parts, [sep])|, |parts|
  {
    var s := Join(parts, [sep]);
    if |parts[0]| > 0 {
      var first := parts[0];
      var shorter := [first[1..]] + parts[1..];
      assert shorter[1..] == parts[1..];
      assert s == [first[0]] + Join(shorter, [sep]);
      assert s[1..] == Join(shorter, [sep]);
      assert sep !in first[1..];
      forall k | 0 <= k < |shorter| ensures sep !in shorter[k] {
        if k > 0 { assert shorter[k] == parts[k]; }
      }
      SplitJoin(shorter, sep);
      assert first == [first[0]] + first[1..];
      assert parts == [[first[0]] + first[1..]] + parts[1..];
    } else if |parts| > 1 {
      assert s == [sep] + Join(parts[1..], [sep]);
      assert s[1..] == Join(parts[1..], [sep]);
      SplitJoin(parts[1..], sep);
      assert parts == [""] + parts[1..];
    }
  }

  // ---------------------------------------------------------------- Python split on a text separator

  /** `s.split(sep)[0]`: the text before the first occurrence of `sep`, or all of `s`. */
  function PartBefore(s: string, sep: string): (r: string)
    requires |sep| > 0
    ensures IndexOf(s, sep).None? ==> r == s
    ensures IndexOf(s, sep).Some? ==> r == s[..IndexOf(s, sep).value] && !Contains(r, sep)
  {
    match IndexOf(s, sep)
    case None => s
    case Some(i) =>
      var r := s[..i];
      assert forall k :: OccursAt(r, sep, k) ==> OccursAt(s, sep, k) by {
        forall k | OccursAt(r, sep, k) ensures OccursAt(s, sep, k) {
          assert s[k..k + |sep|] == r[k..k + |sep|];
        }
      }
      r
  }

  /** `s.split(sep)[1]` when it exists: the text between the first occurrence of `sep`
      and the next one (or the end of `s`). */
  function PartAfter(s: string, sep: string): (r: Option<string>)
    requires |sep| > 0
    ensures r.Some? <==> Contains(s, sep)
    ensures r.Some? ==>
              var start := IndexOf(s, sep).value + |sep|;
              && start + |r.value| <= |s| && r.value == s[start..start + |r.value|]
              && (start + |r.value| == |s| || OccursAt(s, sep, start + |r.value|))
              && (forall k :: start <= k < start + |r.value| ==> !OccursAt(s, sep, k))
              && !Contains(r.value, sep)
  {
    match IndexOf(s, sep)
    case None => None
    case Some(i) =>
      var start := i + |sep|;
      match IndexOfFrom(s, sep, start)
      case None =>
        var r := s[start..];
        NoOccurrenceInside(s, sep, start, |s|);
        Some(r)
      case Some(j) =>
        var r := s[start..j];
        NoOccurrenceInside(s, sep, start, j);
        Some(r)
  }

  /** A non-empty sequence is its front with its last element appended. */
  lemma FrontAndLast<T>(s: seq<T>)
    requires |s| > 0
    ensures s == s[..|s| - 1] + [s[|s| - 1]]
  {
  }

  /** A slice of a slice is a slice of the whole. */
  lemma SliceOfSlice(s: string, from: nat, to: nat, i: nat, j: nat)
    requires from <= to <= |s| && i <= j <= to - from
    ensures s[from..to][i..j] == s[from + i..from + j]
  {
    assert forall m :: 0 <= m < j - i ==> s[from..to][i..j][m] == s[from + i..from + j][m];
  }

  /** A stretch of `s` where no occurrence of `t` starts contains no `t`. */
  lemma NoOccurrenceInside(s: string, t: string, from: nat, to: nat)
    requires |t| > 0 && from <= to <= |s|
    requires forall k :: from <= k < to ==> !OccursAt(s, t, k)
    ensures !Contains(s[from..to], t)
  {
    var r := s[from..to];
    if Contains(r, t) {
      var k := IndexOf(r, t).value;
      assert OccursAt(r, t, k);
      assert from + k + |t| <= to;
      SliceOfSlice(s, from, to, k, k + |t|);
      assert OccursAt(s, t, from + k);
      assert false;
    }
  }

  /** With `t` occurring only at position `i` of `s`, the text after it up to the end is the
      second part. */
  lemma PartAfterSingle(r: string, t: string, a: string)
    requires |t| > 0
    requires forall k :: OccursAt(r + t + a, t, k) ==> k == |r|
    ensures PartBefore(r + t + a, t) == r
    ensures PartAfter(r + t + a, t) == Some(a)
  {
    var s := r + t + a;
    assert s[|r|..|r| + |t|] == t;
    assert OccursAt(s, t, |r|);
    assert IndexOf(s, t) == Some(|r|);
    assert s[..|r|] == r;
    assert IndexOfFrom(s, t, |r| + |t|) == None;
    assert s[|r| + |t|..] == a;
  }

  /** Splitting on a separator that first occurs after `a`: `a` is the first part. */
  lemma SplitAfterFirst(a: string, sep: char, rest: string)
    requires sep !in a
    ensures Split(a + [sep] + rest, sep) == [a] + Split(rest, sep)
    decreases |a|
  {
    var s := a + [sep] + rest;
    if |a| == 0 {
      assert s[1..] == rest;
    } else {
      assert s[1..] == a[1..] + [sep] + rest;
      SplitAfterFirst(a[1..], sep, rest);
      assert a == [a[0]] + a[1..];
    }
  }

  /** A text without the separator is a single part. */
  lemma SplitNone(a: string, sep: char)
    requires sep !in a
    ensures Split(a, sep) == [a]
    decreases |a|
  {
    if |a| > 0 {
      SplitNone(a[1..], sep);
      assert a == [a[0]] + a[1..];
    }
  }

  /** A text with the separator has at least two parts. */
  lemma SplitHasSecond(s: string, sep: char)
    requires sep in s
    ensures |Split(s, sep)| >= 2
    decreases |s|
  {
    if s[0] != sep {
      SplitHasSecond(s[1..], sep);
    }
  }

  /** Python `s.replace(pattern, replacement)`: every non-overlapping occurrence, left to right. */
  function ReplaceAll(s: string, pattern: string, replacement: string): (r: string)
    requires |pattern| > 0
    ensures !Contains(s, pattern) ==> r == s
    ensures |replacement| <= |pattern| ==> |r| <= |s|
    decreases |s|
  {
    match IndexOf(s, pattern)
    case None => s
    case Some(i) => s[..i] + replacement + ReplaceAll(s[i + |pattern|..], pattern, replacement)
  }

  // ---------------------------------------------------------------- case and digits

  function ToLowerChar(c: char): (r: char)
    ensures IsWhitespace(r) <==> IsWhitespace(c)
  {
    if 'A' <= c <= 'Z' then (c as int - 'A' as int + 'a' as int) as char else c
  }

  /** `toLowerCase()` on ASCII letters. */
  function ToLower(s: string): (r: string)
    ensures |r| == |s|
    ensures forall k :: 0 <= k < |s| ==> r[k] == ToLowerChar(s[k])
  {
    if |s| == 0 then "" else [ToLowerChar(s[0])] + ToLower(s[1..])
  }

  function DigitValue(c: char): nat
    requires IsDigit(c)
  {
    c as int - '0' as int
  }

  function DigitChar(d: nat): (c: char)
    requires d < 10
    ensures IsDigit(c) && DigitValue(c) == d
  {
    ('0' as int + d) as char
  }

  /** The number a string of decimal digits denotes. */
  function DigitsValue(s: string): nat
    requires AllDigits(s)
  {
    if |s| == 0 then 0 else DigitsValue(s[..|s| - 1]) * 10 + DigitValue(s[|s| - 1])
  }

  /** The decimal representation of a natural number, as `String(n)` writes it. */
  function NatToString(n: nat): (s: string)
    ensures |s| >= 1 && AllDigits(s)
  {
    if n < 10 then [DigitChar(n)] else NatToString(n / 10) + [DigitChar(n % 10)]
  }

  /** Reading back a written number gives the number. */
  lemma {:induction false} NatToStringRoundTrip(n: nat)
    ensures DigitsValue(NatToString(n)) == n
  {
    if n >= 10 {
      NatToStringRoundTrip(n / 10);
      var s := NatToString(n);
      assert s[..|s| - 1] == NatToString(n / 10);
    }
  }
}
