/**
 * The quality report tab (frontend/components/analysis/quality-report.tsx): reading the key
 * figures out of the report text the data analyst writes, and reading back its list of all
 * columns with their types.
 */
module QualityReport {
  import opened Options
  import opened Text
  import opened JsValues
  import opened VisualizationAnalyzer
  import opened Orchestrator
  import opened Search

  // ---------------------------------------------------------------- key figures

  /** The three numbers of "T (N numeric, X text)", as the digit strings matched. */
  datatype Counts = Counts(total: string, numeric: string, text: string)

  /** The figures found; `None` where the report has no line for one. */
  datatype Metrics = Metrics(
    rows: Option<string>,
    counts: Option<Counts>,
    missing: Option<string>,
    correlations: Option<string>,
    outliers: Option<string>)

  const NoMetrics := Metrics(None, None, None, None, None)

  const RowsKey := "Total Rows:"
  const ColumnsKey := "Total Columns:"
  const MissingKey := "Missing:"
  const CorrelationsKey := "Correlations:"
  const OutliersKey := "Outliers:"

  /** `line.split(':')[1].trim()`: the stripped text between the first colon and the next. */
  function FieldAfterColon(line: string): (v: string)
    requires ':' in line
    ensures IsTrimmed(v)
  {
    SplitHasSecond(line, ':');
    Trim(Split(line, ':')[1])
  }

  /** The field of a line holding `key` (which ends in a colon), or `None`. */
  function KeyedField(line: string, key: string): (v: Option<string>)
    requires |key| > 0 && key[|key| - 1] == ':'
    ensures v.Some? <==> Contains(line, key)
  {
    if Contains(line, key) then
      ContainsChars(line, key, ':');
      Some(FieldAfterColon(line))
    else None
  }

  function RowsIn(line: string): Option<string> {
    KeyedField(line, RowsKey)
  }

  function MissingIn(line: string): Option<string> {
    KeyedField(line, MissingKey)
  }

  function CorrelationsIn(line: string): Option<string> {
    KeyedField(line, CorrelationsKey)
  }

  function OutliersIn(line: string): Option<string> {
    KeyedField(line, OutliersKey)
  }

  /** One `(\d+)` of the expression at `i` and the literal text `sep` after it: where the
      digits end and the text after `sep` begins. */
  function RunThen(s: string, i: nat, sep: string): (r: Option<(nat, nat)>)
    requires i <= |s|
    ensures r.Some? ==> i < r.value.0 && r.value.1 == r.value.0 + |sep| <= |s|
  {
    var j := i + DigitRun(s, i);
    if j == i || !OccursAt(s, sep, j) then None else Some((j, j + |sep|))
  }

  /** Three `(\d+)` groups at `i`, each followed by its literal text. */
  function ThreeRuns(s: string, i: nat, sep1: string, sep2: string, sep3: string): Option<Counts>
    requires i <= |s|
  {
    var r1 := RunThen(s, i, sep1);
    if r1.None? then None
    else
      var r2 := RunThen(s, r1.value.1, sep2);
      if r2.None? then None
      else
        var r3 := RunThen(s, r2.value.1, sep3);
        if r3.None? then None
        else Some(Counts(s[i..r1.value.0], s[r1.value.1..r2.value.0], s[r2.value.1..r3.value.0]))
  }

  const OpenText := " ("
  const NumericText := " numeric, "
  const CloseText := " text)"

  /** The regular expression `(\d+) \((\d+) numeric, (\d+) text\)` tried at position `i`: each
      `\d+` takes the whole run of digits, as no shorter run could be followed by the text
      after it. */
  function CountsAt(s: string, i: nat): Option<Counts> {
    if i > |s| then None else ThreeRuns(s, i, OpenText, NumericText, CloseText)
  }

  /** `line.match(...)`: the groups of the leftmost match. */
  function CountsMatch(s: string): Option<Counts> {
    match FirstAt(s, 0, CountsAt)
    case Some(k) => CountsAt(s, k)
    case None => None
  }

  /** The three counts of a line holding "Total Columns:" whose expression matches. */
  function CountsIn(line: string): Option<Counts> {
    if Contains(line, ColumnsKey) then CountsMatch(line) else None
  }

  /** A newer finding replaces the older one; no finding keeps it. */
  function Latest<T>(found: Option<T>, before: Option<T>): (r: Option<T>)
    ensures r.Some? <==> found.Some? || before.Some?
  {
    if found.Some? then found else before
  }

  /** The `forEach` body on one line: every key the line holds sets its figure. */
  function Step(m: Metrics, line: string): Metrics {
    Metrics(
      Latest(RowsIn(line), m.rows),
      Latest(CountsIn(line), m.counts),
      Latest(MissingIn(line), m.missing),
      Latest(CorrelationsIn(line), m.correlations),
      Latest(OutliersIn(line), m.outliers))
  }

  /** The figures after the lines in order. */
  function Parse(lines: seq<string>): Metrics {
    if |lines| == 0 then NoMetrics else Step(Parse(lines[..|lines| - 1]), lines[|lines| - 1])
  }

  /** `filter(line => line.trim())`: the lines with something besides whitespace. */
  function NonBlank(lines: seq<string>): (kept: seq<string>)
    ensures |kept| <= |lines|
    ensures forall k :: 0 <= k < |kept| ==> Trim(kept[k]) != "" && kept[k] in lines
    ensures forall l :: l in lines && Trim(l) != "" ==> l in kept
  {
    if |lines| == 0 then []
    else
      var front, last := lines[..|lines| - 1], lines[|lines| - 1];
      assert forall l :: l in lines ==> l in front || l == last;
      NonBlank(front) + (if Trim(last) != "" then [last] else [])
  }

  /** `parseQualityMetrics`: the figures after the non-blank lines, in order. */
  method ParseQualityMetrics(reportText: string) returns (m: Metrics)
    ensures m == Parse(NonBlank(Lines(reportText)))
  {
    var lines := NonBlank(Lines(reportText));
    m := NoMetrics;
    for i := 0 to |lines|
      invariant m == Parse(lines[..i])
    {
      assert lines[..i + 1][..i] == lines[..i];
      m := Step(m, lines[i]);
    }
    assert lines[..|lines|] == lines;
  }

  /** The last finding of one extractor over the lines. */
  function LastFound<T>(lines: seq<string>, extract: string -> Option<T>): (r: Option<T>)
    ensures r.None? <==> forall k :: 0 <= k < |lines| ==> extract(lines[k]).None?
  {
    if |lines| == 0 then None
    else Latest(extract(lines[|lines| - 1]), LastFound(lines[..|lines| - 1], extract))
  }

  /** Every figure is decided on its own: it is the last value its key gave. */
  lemma {:induction false} ParseFieldwise(lines: seq<string>)
    ensures Parse(lines) == Metrics(
              LastFound(lines, RowsIn),
              LastFound(lines, CountsIn),
              LastFound(lines, MissingIn),
              LastFound(lines, CorrelationsIn),
              LastFound(lines, OutliersIn))
  {
    if |lines| > 0 {
      ParseFieldwise(lines[..|lines| - 1]);
    }
  }

  /** The last line that gives a value decides it: later lines without the key change nothing. */
  lemma {:induction false} LastFoundIs<T>(lines: seq<string>, extract: string -> Option<T>, k: nat)
    requires k < |lines| && extract(lines[k]).Some?
    requires forall j :: k < j < |lines| ==> extract(lines[j]).None?
    ensures LastFound(lines, extract) == extract(lines[k])
  {
    if k < |lines| - 1 {
      LastFoundIs(lines[..|lines| - 1], extract, k);
    }
  }

  /** A line of nothing but whitespace holds no key, as every key has a colon. */
  lemma BlankHoldsNoKey(line: string, key: string)
    requires Trim(line) == "" && ':' in key
    ensures !Contains(line, key)
  {
    if Contains(line, key) {
      ContainsChars(line, key, ':');
      var k :| 0 <= k < |line| && line[k] == ':';
      TrimOfNonEmptyIsNonEmpty(line);
    }
  }

  /** A blank line leaves the figures as they are. */
  lemma BlankStep(m: Metrics, line: string)
    requires Trim(line) == ""
    ensures Step(m, line) == m
  {
    assert RowsKey[|RowsKey| - 1] == ':';
    assert ColumnsKey[|ColumnsKey| - 1] == ':';
    assert MissingKey[|MissingKey| - 1] == ':';
    assert CorrelationsKey[|CorrelationsKey| - 1] == ':';
    assert OutliersKey[|OutliersKey| - 1] == ':';
    BlankHoldsNoKey(line, RowsKey);
    BlankHoldsNoKey(line, ColumnsKey);
    BlankHoldsNoKey(line, MissingKey);
    BlankHoldsNoKey(line, CorrelationsKey);
    BlankHoldsNoKey(line, OutliersKey);
  }

  /** Dropping the blank lines first does not change the figures. */
  lemma {:induction false} BlankLinesIgnored(lines: seq<string>)
    ensures Parse(NonBlank(lines)) == Parse(lines)
  {
    if |lines| > 0 {
      var last := lines[|lines| - 1];
      var front := lines[..|lines| - 1];
      BlankLinesIgnored(front);
      assert Parse(lines) == Step(Parse(front), last);
      if Trim(last) == "" {
        assert NonBlank(lines) == NonBlank(front);
        BlankStep(Parse(front), last);
      } else {
        var kept := NonBlank(front) + [last];
        assert NonBlank(lines) == kept;
        assert kept[..|kept| - 1] == NonBlank(front);
        assert Parse(kept) == Step(Parse(NonBlank(front)), last);
      }
    }
  }

  // ---------------------------------------------------------------- figures as the analyst writes them

  /** Stripping a text with one space in front gives the text, when it has no whitespace at
      its ends. */
  lemma TrimLeadingSpace(v: string)
    requires IsTrimmed(v)
    ensures Trim(" " + v) == v
  {
    var s := " " + v;
    assert s[1..] == v;
    var t := TrimStart(s);
    if |v| > 0 {
      assert |t| == |v|;
    }
    assert t == v;
  }

  /** A line "- Key: value" whose value has no colon and no outer whitespace gives the value. */
  lemma KeyedLineRoundTrip(key: string, value: string)
    requires |key| > 0 && key[|key| - 1] == ':' && ':' !in key[..|key| - 1]
    requires ':' !in value && IsTrimmed(value)
    ensures KeyedField("- " + key + " " + value, key) == Some(value)
  {
    var line := "- " + key + " " + value;
    assert line[2..2 + |key|] == key;
    ContainsAt(line, key, 2);
    var a := "- " + key[..|key| - 1];
    var rest := " " + value;
    assert key == key[..|key| - 1] + [':'];
    assert line == a + [':'] + rest;
    SplitAfterFirst(a, ':', rest);
    SplitNone(rest, ':');
    TrimLeadingSpace(value);
  }

  /** The rows line of the analyst's report gives back the row count it was written from. */
  lemma RowsLineRoundTrip(rows: nat)
    ensures RowsIn("- Total Rows: " + NatToString(rows)) == Some(NatToString(rows))
  {
    var d := NatToString(rows);
    assert "- Total Rows: " + d == "- " + RowsKey + " " + d;
    assert RowsKey[..|RowsKey| - 1] == "Total Rows";
    assert IsTrimmed(d) && ':' !in d;
    KeyedLineRoundTrip(RowsKey, d);
  }

  /** A run of digits followed by a non-digit, or by the end, is the whole run. */
  lemma {:induction false} DigitRunOf(s: string, i: nat, d: string)
    requires i + |d| <= |s| && s[i..i + |d|] == d && AllDigits(d)
    requires i + |d| == |s| || !IsDigit(s[i + |d|])
    ensures DigitRun(s, i) == |d|
    decreases |d|
  {
    if |d| > 0 {
      assert s[i + 1..i + 1 + |d[1..]|] == d[1..];
      DigitRunOf(s, i + 1, d[1..]);
    }
  }

  /** The digits `d` at `i` followed by `sep`: the group is `d`. */
  lemma RunThenAt(s: string, i: nat, d: string, sep: string)
    requires |d| > 0 && AllDigits(d) && |sep| > 0 && !IsDigit(sep[0])
    requires OccursAt(s, d, i) && OccursAt(s, sep, i + |d|)
    ensures RunThen(s, i, sep) == Some((i + |d|, i + |d| + |sep|))
  {
    assert s[i + |d|] == sep[0];
    DigitRunOf(s, i, d);
  }

  /** The three groups, found where the digit strings and texts lie. */
  lemma ThreeRunsAt(s: string, i: nat, a: string, sep1: string, b: string, sep2: string, c: string, sep3: string)
    requires |a| > 0 && AllDigits(a) && |b| > 0 && AllDigits(b) && |c| > 0 && AllDigits(c)
    requires |sep1| > 0 && !IsDigit(sep1[0]) && |sep2| > 0 && !IsDigit(sep2[0])
    requires |sep3| > 0 && !IsDigit(sep3[0])
    requires OccursAt(s, a, i) && OccursAt(s, sep1, i + |a|)
    requires OccursAt(s, b, i + |a| + |sep1|) && OccursAt(s, sep2, i + |a| + |sep1| + |b|)
    requires OccursAt(s, c, i + |a| + |sep1| + |b| + |sep2|)
    requires OccursAt(s, sep3, i + |a| + |sep1| + |b| + |sep2| + |c|)
    ensures ThreeRuns(s, i, sep1, sep2, sep3) == Some(Counts(a, b, c))
  {
    var i2 := i + |a| + |sep1|;
    var i3 := i2 + |b| + |sep2|;
    RunThenAt(s, i, a, sep1);
    RunThenAt(s, i2, b, sep2);
    RunThenAt(s, i3, c, sep3);
    ThreeRunsFound(s, i, sep1, sep2, sep3, a, i2, b, i3, c);
  }

  /** The groups, once each run and its text are found. */
  lemma ThreeRunsFound(s: string, i: nat, sep1: string, sep2: string, sep3: string,
                       a: string, i2: nat, b: string, i3: nat, c: string)
    requires OccursAt(s, a, i) && OccursAt(s, b, i2) && OccursAt(s, c, i3)
    requires RunThen(s, i, sep1) == Some((i + |a|, i2))
    requires RunThen(s, i2, sep2) == Some((i2 + |b|, i3))
    requires RunThen(s, i3, sep3).Some? && RunThen(s, i3, sep3).value.0 == i3 + |c|
    ensures ThreeRuns(s, i, sep1, sep2, sep3) == Some(Counts(a, b, c))
  {
  }

  /** The counts as the analyst writes them: "T (N numeric, X text)". */
  function CountsText(total: string, numeric: string, text: string): string {
    total + OpenText + numeric + NumericText + text + CloseText
  }

  /** The column counts line of the analyst's report gives back the three counts it was
      written from. */
  lemma CountsLineRoundTrip(total: nat, numeric: nat, text: nat)
    ensures CountsIn("- Total Columns: " + CountsText(NatToString(total), NatToString(numeric), NatToString(text)))
            == Some(Counts(NatToString(total), NatToString(numeric), NatToString(text)))
  {
    ColumnsPrefix();
    CountsLineOf("- Total Columns: ", NatToString(total), NatToString(numeric), NatToString(text));
  }

  /** The text the analyst writes before the counts holds the key and no digit. */
  lemma ColumnsPrefix()
    ensures Contains("- Total Columns: ", ColumnsKey)
    ensures forall m :: 0 <= m < |"- Total Columns: "| ==> !IsDigit("- Total Columns: "[m])
  {
    assert "- Total Columns: "[2..2 + |ColumnsKey|] == ColumnsKey;
    ContainsAt("- Total Columns: ", ColumnsKey, 2);
    ColumnsPrefixNoDigit();
  }

  lemma ColumnsPrefixNoDigit()
    ensures forall m :: 0 <= m < |"- Total Columns: "| ==> !IsDigit("- Total Columns: "[m])
  {
    var p := "- Total Columns: ";
    forall m | 0 <= m < |p| ensures !IsDigit(p[m]) {
      if m < 8 {
        assert p[..8] == "- Total ";
        assert p[m] == p[..8][m];
      } else {
        assert p[8..] == "Columns: ";
        assert p[m] == p[8..][m - 8];
      }
    }
  }

  /** After a text with the key and no digit, the counts are read back. */
  lemma CountsLineOf(pre: string, a: string, b: string, c: string)
    requires Contains(pre, ColumnsKey) && forall m :: 0 <= m < |pre| ==> !IsDigit(pre[m])
    requires |a| > 0 && AllDigits(a) && |b| > 0 && AllDigits(b) && |c| > 0 && AllDigits(c)
    ensures CountsIn(pre + CountsText(a, b, c)) == Some(Counts(a, b, c))
  {
    var rest := CountsText(a, b, c);
    var s := pre + rest;
    ContainsInPrefix(pre, ColumnsKey, rest);
    CountsTextAt(pre, a, b, c);
    assert forall m :: 0 <= m < |pre| ==> CountsAt(s, m).None? by {
      NoDigitPrefix(pre, rest);
      NoCountsBeforeDigits(s, |pre|);
    }
    FirstAtIs(s, |pre|, CountsAt);
  }

  /** The counts as the analyst writes them are found where they start. */
  lemma CountsTextAt(pre: string, a: string, b: string, c: string)
    requires |a| > 0 && AllDigits(a) && |b| > 0 && AllDigits(b) && |c| > 0 && AllDigits(c)
    ensures CountsAt(pre + CountsText(a, b, c), |pre|) == Some(Counts(a, b, c))
  {
    var s := pre + CountsText(a, b, c);
    assert OpenText[0] == ' ' && NumericText[0] == ' ' && CloseText[0] == ' ';
    SevenParts(s, pre, a, OpenText, b, NumericText, c, CloseText);
    ThreeRunsAt(s, |pre|, a, OpenText, b, NumericText, c, CloseText);
  }

  /** A prefix without digits stays one in front of any text. */
  lemma NoDigitPrefix(pre: string, rest: string)
    requires forall m :: 0 <= m < |pre| ==> !IsDigit(pre[m])
    ensures forall m :: 0 <= m < |pre| ==> !IsDigit((pre + rest)[m])
  {
  }

  /** The expression cannot match where no digit starts it. */
  lemma NoCountsBeforeDigits(s: string, k: nat)
    requires k <= |s| && forall m :: 0 <= m < k ==> !IsDigit(s[m])
    ensures forall m :: 0 <= m < k ==> CountsAt(s, m).None?
  {
    forall m | 0 <= m < k ensures CountsAt(s, m).None? {
      assert DigitRun(s, m) == 0;
    }
  }

  /** Where each of seven concatenated parts lies. */
  lemma SevenParts(s: string, p: string, a: string, x: string, b: string, y: string, c: string, z: string)
    requires s == p + (a + x + b + y + c + z)
    ensures |s| == |p| + |a| + |x| + |b| + |y| + |c| + |z|
    ensures s[|p|..|p| + |a|] == a
    ensures s[|p| + |a|..|p| + |a| + |x|] == x
    ensures s[|p| + |a| + |x|..|p| + |a| + |x| + |b|] == b
    ensures s[|p| + |a| + |x| + |b|..|p| + |a| + |x| + |b| + |y|] == y
    ensures s[|p| + |a| + |x| + |b| + |y|..|p| + |a| + |x| + |b| + |y| + |c|] == c
    ensures s[|p| + |a| + |x| + |b| + |y| + |c|..] == z
    ensures OccursAt(s, a, |p|) && OccursAt(s, x, |p| + |a|) && OccursAt(s, b, |p| + |a| + |x|)
    ensures OccursAt(s, y, |p| + |a| + |x| + |b|) && OccursAt(s, c, |p| + |a| + |x| + |b| + |y|)
    ensures OccursAt(s, z, |p| + |a| + |x| + |b| + |y| + |c|)
  {
  }

  // ---------------------------------------------------------------- column list

  const AllColumnsMarker := "**All Columns:**"
  const ItemText := "- "
  const TypeOpenText := " ("

  predicate CloseAt(s: string, k: nat) {
    k < |s| && s[k] == ')'
  }

  predicate TypeOpenAt(s: string, k: nat) {
    OccursAt(s, TypeOpenText, k)
  }

  /** The text opening the type is a space and then `(`. */
  lemma TypeOpenChars(s: string, k: nat)
    requires TypeOpenAt(s, k)
    ensures k + 1 < |s| && s[k] == ' ' && s[k + 1] == '('
  {
    assert s[k..k + 2][0] == s[k] && s[k..k + 2][1] == s[k + 1];
  }

  /** `(.+) \((.+)\)` matched from `j` with the name ending at `e` and the closing
      parenthesis at `m`. */
  predicate GroupsMatch(s: string, j: nat, e: nat, m: nat) {
    j < e && e + 3 <= m < |s| && TypeOpenAt(s, e) && s[m] == ')' &&
    forall k :: j <= k < m ==> !IsLineTerminator(s[k])
  }

  /** The match the two greedy groups settle on from `j`: of all the ways to match, the one
      with the longest name, and for that name the longest type. */
  function GroupsAt(s: string, j: nat): (g: Option<(nat, nat)>)
    requires j <= |s|
    ensures g.Some? ==> GroupsMatch(s, j, g.value.0, g.value.1)
    ensures g.Some? ==> forall e: nat, m: nat :: GroupsMatch(s, j, e, m) ==>
                          e < g.value.0 || (e == g.value.0 && m <= g.value.1)
    ensures g.None? ==> forall e: nat, m: nat :: !GroupsMatch(s, j, e, m)
  {
    var r := LineEnd(s, j);
    var close := LastAt(s, j + 4, r, CloseAt);
    assert forall e: nat, m: nat :: GroupsMatch(s, j, e, m) ==> j + 4 <= m < r && CloseAt(s, m) by {
      forall e: nat, m: nat | GroupsMatch(s, j, e, m) ensures m < r {
        BeforeLineEnd(s, j, m);
      }
    }
    if close.None? then None
    else
      var m := close.value;
      var open := LastAt(s, j + 1, m - 2, TypeOpenAt);
      if open.None? then None else Some((open.value, m))
  }

  /** The expression `- (.+) \((.+)\)` tried at position `i`: the name and the type. */
  function ColumnAt(s: string, i: nat): Option<Column> {
    if i + 2 <= |s| && OccursAt(s, ItemText, i) then
      match GroupsAt(s, i + 2)
      case Some(g) => Some(Column(s[i + 2..g.0], s[g.0 + 2..g.1]))
      case None => None
    else None
  }

  /** `l.match(...)`: the column of the leftmost match, or `null`. */
  function ColumnMatch(line: string): Option<Column> {
    match FirstAt(line, 0, ColumnAt)
    case Some(k) => ColumnAt(line, k)
    case None => None
  }

  /** `l.trim().startsWith('-')`. */
  predicate IsItem(line: string) {
    |Trim(line)| > 0 && Trim(line)[0] == '-'
  }

  /** The column list below the heading: every item line that matches, in order. */
  function ColumnsOf(lines: seq<string>): (cols: seq<Column>)
    ensures |cols| <= |lines|
  {
    if |lines| == 0 then []
    else
      var first := if IsItem(lines[0]) && ColumnMatch(lines[0]).Some? then [ColumnMatch(lines[0]).value] else [];
      first + ColumnsOf(lines[1..])
  }

  /** The test of `findIndex`: the line holds the heading. */
  predicate IsHeading(line: string) {
    Contains(line, AllColumnsMarker)
  }

  /** `extractColumns`: nothing without the heading, else the columns listed after it. */
  function ExtractColumns(reportText: string): seq<Column>
  {
    var lines := Lines(reportText);
    match FindIndex(lines, IsHeading, 0)
    case None => []
    case Some(k) => ColumnsOf(lines[k + 1..])
  }

  /** The analyst's line for one column reads back as that column, whatever the name holds
      besides line breaks, as long as the type has no space. */
  lemma ColumnLineMatch(name: string, kind: string)
    requires |name| > 0 && NoLineTerminator(name)
    requires |kind| > 0 && NoLineTerminator(kind) && ' ' !in kind
    ensures ColumnMatch("  - " + name + TypeOpenText + kind + ")") == Some(Column(name, kind))
  {
    var l := "  - " + name + TypeOpenText + kind + ")";
    var n := |name|;
    assert |l| == n + |kind| + 7;
    assert l[0] == ' ' && l[1] == ' ' && l[2..4] == ItemText;
    assert l[4..4 + n] == name && l[4 + n..6 + n] == TypeOpenText;
    assert l[6 + n..|l| - 1] == kind && l[|l| - 1] == ')';
    ItemLineMatch(l, name, kind);
  }

  /** The same, stated on the positions of the parts of the line. */
  lemma ItemLineMatch(l: string, name: string, kind: string)
    requires |name| > 0 && NoLineTerminator(name)
    requires |kind| > 0 && NoLineTerminator(kind) && ' ' !in kind
    requires |l| == |name| + |kind| + 7
    requires l[0] == ' ' && l[1] == ' ' && l[2..4] == ItemText
    requires l[4..4 + |name|] == name && l[4 + |name|..6 + |name|] == TypeOpenText
    requires l[6 + |name|..|l| - 1] == kind && l[|l| - 1] == ')'
    ensures ColumnMatch(l) == Some(Column(name, kind))
  {
    ItemGroups(l, name, kind);
    assert !OccursAt(l, ItemText, 0) && !OccursAt(l, ItemText, 1) && OccursAt(l, ItemText, 2);
    FirstAtIs(l, 2, ColumnAt);
  }

  /** The two groups of such a line are its name and its type. */
  lemma ItemGroups(l: string, name: string, kind: string)
    requires |name| > 0 && NoLineTerminator(name)
    requires |kind| > 0 && NoLineTerminator(kind) && ' ' !in kind
    requires |l| == |name| + |kind| + 7
    requires l[4..4 + |name|] == name && l[4 + |name|..6 + |name|] == TypeOpenText
    requires l[6 + |name|..|l| - 1] == kind && l[|l| - 1] == ')'
    ensures GroupsAt(l, 4) == Some((4 + |name|, |l| - 1))
  {
    var n := |name|;
    var m := |l| - 1;
    assert forall k :: 4 <= k < 4 + n ==> l[k] == name[k - 4];
    assert forall k :: 6 + n <= k < m ==> l[k] == kind[k - 6 - n];
    assert forall k :: 6 + n <= k < m ==> l[k] != ' ';
    assert l[5 + n] == '(';
    assert GroupsMatch(l, 4, 4 + n, m);
    var g := GroupsAt(l, 4);
    assert g.Some?;
    TypeOpenChars(l, g.value.0);
    assert g.value.0 == 4 + n;
  }

  /** `l.trim().startsWith('-')` holds for the analyst's column lines. */
  lemma ColumnLineIsItem(name: string, kind: string)
    ensures IsItem("  - " + name + TypeOpenText + kind + ")")
  {
    var l := "  - " + name + TypeOpenText + kind + ")";
    var t := TrimStart(l);
    assert l[0] == ' ' && l[1] == ' ' && l[2] == '-' && l[|l| - 1] == ')';
    assert |t| == |l| - 2 by {
      assert !(|l| - |t| > 2);
      assert !(|l| - |t| < 2);
    }
    assert t[0] == '-' && t[|t| - 1] == ')';
    assert TrimEnd(t) == t;
  }

  /** The items of a list of matching item lines are their columns, in order. */
  lemma {:induction false} ColumnsOfItems(lines: seq<string>, cols: seq<Column>)
    requires |lines| == |cols|
    requires forall i :: 0 <= i < |lines| ==> IsItem(lines[i]) && ColumnMatch(lines[i]) == Some(cols[i])
    ensures ColumnsOf(lines) == cols
  {
    if |lines| > 0 {
      ColumnsOfItems(lines[1..], cols[1..]);
      assert cols == [cols[0]] + cols[1..];
    }
  }

  /** One line of the analyst's column list: a single line, an item, and its column. */
  lemma ColumnLineReadBack(col: string, numeric: seq<string>)
    requires |col| > 0 && NoLineTerminator(col)
    ensures '\n' !in ColumnLine(col, numeric) && IsItem(ColumnLine(col, numeric))
    ensures ColumnMatch(ColumnLine(col, numeric)) == Some(Column(col, ColumnType(col, numeric)))
  {
    var kind := ColumnType(col, numeric);
    var line := ColumnLine(col, numeric);
    assert line == "  - " + col + TypeOpenText + kind + ")";
    assert ' ' !in kind by {
      assert kind == "numeric" || kind == "text";
    }
    assert '\n' !in line by {
      assert forall k :: 0 <= k < |col| ==> line[4 + k] == col[k];
      assert forall k :: 4 + |col| <= k < |line| ==> line[k] in " (numerictx)";
    }
    ColumnLineMatch(col, kind);
    ColumnLineIsItem(col, kind);
  }

  /** `ColumnLineReadBack` for every line of the analyst's column list. */
  lemma ColumnLinesReadBack(columns: seq<string>, numeric: seq<string>, items: seq<string>, cols: seq<Column>)
    requires forall i :: 0 <= i < |columns| ==> |columns[i]| > 0 && NoLineTerminator(columns[i])
    requires |items| == |columns| && |cols| == |columns|
    requires forall i :: 0 <= i < |columns| ==> items[i] == ColumnLine(columns[i], numeric)
    requires forall i :: 0 <= i < |columns| ==> cols[i] == Column(columns[i], ColumnType(columns[i], numeric))
    ensures forall i :: 0 <= i < |items| ==> '\n' !in items[i] && IsItem(items[i]) && ColumnMatch(items[i]) == Some(cols[i])
  {
    forall i | 0 <= i < |items|
      ensures '\n' !in items[i] && IsItem(items[i]) && ColumnMatch(items[i]) == Some(cols[i])
    {
      ColumnLineReadBack(columns[i], numeric);
    }
  }

  /** The lines after the first heading are the ones read as the column list. */
  lemma {:induction false} ExtractAfterHeading(head: seq<string>, heading: string, items: seq<string>)
    requires forall k :: 0 <= k < |head| ==> '\n' !in head[k] && !IsHeading(head[k])
    requires '\n' !in heading && IsHeading(heading)
    requires forall i :: 0 <= i < |items| ==> '\n' !in items[i]
    ensures ExtractColumns(Join(head + [heading] + items, "\n")) == ColumnsOf(items)
  {
    var parts := head + [heading] + items;
    var text := Join(parts, "\n");
    assert Lines(text) == parts by {
      forall k | 0 <= k < |parts| ensures '\n' !in parts[k] {
        if |head| < k {
          assert parts[k] == items[k - |head| - 1];
        }
      }
      SplitJoin(parts, '\n');
    }
    FindIndexIs(parts, IsHeading, |head|);
    ExtractColumnsAt(text, |head|);
    assert parts[|head| + 1..] == items;
  }

  /** Where the heading is found, the columns are read from the lines after it. */
  lemma ExtractColumnsAt(text: string, k: nat)
    requires FindIndex(Lines(text), IsHeading, 0) == Some(k)
    ensures ExtractColumns(text) == ColumnsOf(Lines(text)[k + 1..])
  {
  }

  /** The heading the analyst writes is one line and is found as the heading. */
  lemma MarkerIsHeading()
    ensures '\n' !in AllColumnsMarker && IsHeading(AllColumnsMarker)
  {
    assert OccursAt(AllColumnsMarker, AllColumnsMarker, 0);
  }

  /** The column list the analyst writes: one `ColumnLine` per column. */
  function ColumnLines(columns: seq<string>, numeric: seq<string>): (items: seq<string>)
    ensures |items| == |columns|
    ensures forall i :: 0 <= i < |columns| ==> items[i] == ColumnLine(columns[i], numeric)
  {
    seq(|columns|, i requires 0 <= i < |columns| => ColumnLine(columns[i], numeric))
  }

  /** Each column with the type the analyst assigned it. */
  function TypedColumns(columns: seq<string>, numeric: seq<string>): (cols: seq<Column>)
    ensures |cols| == |columns|
    ensures forall i :: 0 <= i < |columns| ==> cols[i] == Column(columns[i], ColumnType(columns[i], numeric))
  {
    seq(|columns|, i requires 0 <= i < |columns| => Column(columns[i], ColumnType(columns[i], numeric)))
  }

  /** A report holding the heading and then the analyst's column lines gives back every
      column with the type the analyst assigned it. */
  lemma ExtractColumnsRoundTrip(head: seq<string>, columns: seq<string>, numeric: seq<string>)
    requires forall k :: 0 <= k < |head| ==> '\n' !in head[k] && !Contains(head[k], AllColumnsMarker)
    requires forall i :: 0 <= i < |columns| ==> |columns[i]| > 0 && NoLineTerminator(columns[i])
    ensures ExtractColumns(Join(head + [AllColumnsMarker] + ColumnLines(columns, numeric), "\n"))
            == TypedColumns(columns, numeric)
  {
    var items, cols := ColumnLines(columns, numeric), TypedColumns(columns, numeric);
    ColumnLinesReadBack(columns, numeric, items, cols);
    MarkerIsHeading();
    ExtractAfterHeading(head, AllColumnsMarker, items);
    ColumnsOfItems(items, cols);
  }
}
