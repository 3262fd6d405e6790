/**
 * What both meeting screens (components/meeting-agent/meeting-agent-client.tsx and
 * frontend/components/meeting-agent/meeting-view-client.tsx) share when they read the meeting
 * agent's text: the time-first agenda heading "HH:MM-HH:MM (N min) **Title**" and the split of
 * the research into its four sections.
 */
module MeetingText {
  import opened Options
  import opened Text
  import opened JsValues
  import opened Search

  // ---------------------------------------------------------------- pieces of the headings

  /** Where the run `\s*` that starts at `j` ends. */
  function SpaceEnd(s: string, j: nat): (r: nat)
    requires j <= |s|
    ensures j <= r <= |s|
    ensures forall k :: j <= k < r ==> IsWhitespace(s[k])
    ensures r == |s| || !IsWhitespace(s[r])
    decreases |s| - j
  {
    if j < |s| && IsWhitespace(s[j]) then SpaceEnd(s, j + 1) else j
  }

  /** `n` digits at `i`. */
  predicate DigitsAt(s: string, i: nat, n: nat) {
    i + n <= |s| && forall k :: i <= k < i + n ==> IsDigit(s[k])
  }

  /** A clock time as `\d{1,2}:\d{2}` matches it: one or two hour digits, a colon, two digits. */
  predicate IsClock(t: string) {
    (|t| == 5 && DigitsAt(t, 0, 2) && t[2] == ':' && DigitsAt(t, 3, 2)) ||
    (|t| == 4 && DigitsAt(t, 0, 1) && t[1] == ':' && DigitsAt(t, 2, 2))
  }

  /** `\d{1,2}:\d{2}` at `i`: where the clock time ends. Two hour digits are tried first; the
      one-digit form needs a colon where the two-digit form has a digit, so at most one fits
      and no later failure can make the other one match. */
  function ClockAt(s: string, i: nat): (r: Option<nat>)
    ensures r.Some? ==> i < r.value <= |s| && IsClock(s[i..r.value])
  {
    if DigitsAt(s, i, 2) && i + 5 <= |s| && s[i + 2] == ':' && DigitsAt(s, i + 3, 2) then
      assert DigitsAt(s[i..i + 5], 0, 2) && DigitsAt(s[i..i + 5], 3, 2);
      Some(i + 5)
    else if DigitsAt(s, i, 1) && i + 4 <= |s| && s[i + 1] == ':' && DigitsAt(s, i + 2, 2) then
      assert DigitsAt(s[i..i + 4], 0, 1) && DigitsAt(s[i..i + 4], 2, 2);
      Some(i + 4)
    else None
  }

  /** `(\d{1,2}:\d{2})-(\d{1,2}:\d{2})` at `i`: where the first time ends (at the dash) and
      where the second ends. */
  function RangeAt(s: string, i: nat): (r: Option<(nat, nat)>)
    ensures r.Some? ==> i < r.value.0 < r.value.1 <= |s| && s[r.value.0] == '-'
    ensures r.Some? ==> IsClock(s[i..r.value.0]) && IsClock(s[r.value.0 + 1..r.value.1])
  {
    match ClockAt(s, i)
    case None => None
    case Some(a) =>
      if a < |s| && s[a] == '-' then
        match ClockAt(s, a + 1)
        case None => None
        case Some(b) => Some((a, b))
      else None
  }

  const MinText := "min)"

  /** `\((\d+)\s*min\)` at `q`: where the digits end and where the match ends. The digits
      take their whole run, as neither a space nor `m` is a digit. */
  function DurationAt(s: string, q: nat): (r: Option<(nat, nat)>)
    ensures r.Some? ==> q + 1 < r.value.0 && r.value.0 + 4 <= r.value.1 <= |s| && s[q] == '('
    ensures r.Some? ==> DigitsAt(s, q + 1, r.value.0 - q - 1)
  {
    if q < |s| && s[q] == '(' then
      var d := q + 1 + DigitRun(s, q + 1);
      var w := SpaceEnd(s, d);
      if d > q + 1 && OccursAt(s, MinText, w) then Some((d, w + 4)) else None
    else None
  }

  const BoldText := "**"

  predicate BoldAt(s: string, k: nat) {
    OccursAt(s, BoldText, k)
  }

  /** A heading's parts as the groups matched them: the two times, the minutes and the title
      before trimming. */
  datatype Heading = Heading(start: string, end: string, minutes: string, title: string)

  /** `(.+?)\*\*` from `t`: the shortest non-empty title on the line that bold text closes. */
  function TitleEnd(s: string, t: nat): (e: Option<nat>)
    requires t <= |s|
    ensures e.Some? ==> t < e.value && BoldAt(s, e.value) && NoLineTerminator(s[t..e.value])
    ensures e.Some? ==> forall k :: t < k < e.value ==> !BoldAt(s, k)
  {
    var r := LineEnd(s, t);
    var e := FirstIn(s, t + 1, r, BoldAt);
    if e.Some? then
      var title := s[t..e.value];
      assert forall k :: 0 <= k < |title| ==> title[k] == s[t + k];
      e
    else None
  }

  /** The digits of a run are a number's digits. */
  lemma DigitsSlice(s: string, i: nat, n: nat)
    requires DigitsAt(s, i, n)
    ensures AllDigits(s[i..i + n])
  {
    var t := s[i..i + n];
    forall k | 0 <= k < n ensures IsDigit(t[k]) {
      assert t[k] == s[i + k];
    }
  }

  /** `\s*\*\*(.+?)\*\*` from `c`: where the title starts and ends. */
  function TitleAfter(s: string, c: nat): (r: Option<(nat, nat)>)
    requires c <= |s|
    ensures r.Some? ==> c + 2 <= r.value.0 < r.value.1 <= |s|
    ensures r.Some? ==> NoLineTerminator(s[r.value.0..r.value.1])
  {
    var v := SpaceEnd(s, c);
    if BoldAt(s, v) then
      match TitleEnd(s, v + 2)
      case Some(e) => Some((v + 2, e))
      case None => None
    else None
  }

  /** `\s*\((\d+)\s*min\)\s*\*\*(.+?)\*\*` from `b`: the minutes and the title. */
  function MinutesAndTitle(s: string, b: nat): (r: Option<(string, string)>)
    requires b <= |s|
    ensures r.Some? ==> |r.value.0| > 0 && AllDigits(r.value.0)
    ensures r.Some? ==> |r.value.1| > 0 && NoLineTerminator(r.value.1)
  {
    var w := SpaceEnd(s, b);
    var duration := DurationAt(s, w);
    if duration.None? then None
    else
      var title := TitleAfter(s, duration.value.1);
      if title.None? then None
      else
        DigitsSlice(s, w + 1, duration.value.0 - w - 1);
        Some((s[w + 1..duration.value.0], s[title.value.0..title.value.1]))
  }

  /** `(\d{1,2}:\d{2})-(\d{1,2}:\d{2})\s*\((\d+)\s*min\)\s*\*\*(.+?)\*\*` tried at `i`. */
  function TimeFirstAt(s: string, i: nat): (h: Option<Heading>)
    ensures h.Some? ==> IsClock(h.value.start) && IsClock(h.value.end)
    ensures h.Some? ==> |h.value.minutes| > 0 && AllDigits(h.value.minutes)
    ensures h.Some? ==> |h.value.title| > 0 && NoLineTerminator(h.value.title)
  {
    match RangeAt(s, i)
    case None => None
    case Some((a, b)) =>
      match MinutesAndTitle(s, b)
      case None => None
      case Some((minutes, title)) => Some(Heading(s[i..a], s[a + 1..b], minutes, title))
  }

  /** `trimmed.match(...)` with the time-first expression: the groups of the leftmost match. */
  function TimeFirstMatch(s: string): Option<Heading> {
    match FirstAt(s, 0, TimeFirstAt)
    case Some(k) => TimeFirstAt(s, k)
    case None => None
  }

  // ---------------------------------------------------------------- reading back a heading

  /** A clock time at `i` is matched whole. */
  lemma ClockAtOf(s: string, i: nat, c: string)
    requires IsClock(c) && i + |c| <= |s| && s[i..i + |c|] == c
    ensures ClockAt(s, i) == Some(i + |c|)
  {
    var w := s[i..i + |c|];
    assert s[i] == w[0] && s[i + 1] == w[1] && s[i + 2] == w[2] && s[i + 3] == w[3];
    if |c| == 5 {
      assert s[i + 4] == w[4];
      assert DigitsAt(s, i, 2) && DigitsAt(s, i + 3, 2);
    } else {
      assert !DigitsAt(s, i, 2);
      assert DigitsAt(s, i, 1) && DigitsAt(s, i + 2, 2);
    }
  }

  /** Two clock times joined by a dash at `i` are matched whole. */
  lemma RangeAtOf(s: string, i: nat, c1: string, c2: string)
    requires IsClock(c1) && IsClock(c2)
    requires i + |c1| + 1 + |c2| <= |s|
    requires s[i..i + |c1|] == c1 && s[i + |c1|] == '-'
    requires s[i + |c1| + 1..i + |c1| + 1 + |c2|] == c2
    ensures RangeAt(s, i) == Some((i + |c1|, i + |c1| + 1 + |c2|))
  {
    ClockAtOf(s, i, c1);
    ClockAtOf(s, i + |c1| + 1, c2);
  }

  /** "(N min)" at `q`, with one space before `min`, is matched whole. */
  lemma DurationAtOf(s: string, q: nat, m: string)
    requires |m| > 0 && AllDigits(m)
    requires q + |m| + 6 <= |s| && s[q] == '(' && s[q + 1..q + 1 + |m|] == m
    requires s[q + 1 + |m|] == ' ' && OccursAt(s, MinText, q + 2 + |m|)
    ensures DurationAt(s, q) == Some((q + 1 + |m|, q + 6 + |m|))
  {
    var d := q + 1 + |m|;
    assert forall k :: q + 1 <= k < d ==> s[k] == m[k - q - 1];
    assert DigitRun(s, q + 1) == |m| by {
      assert !IsDigit(s[d]);
    }
    assert s[d + 1] == 'm' by {
      assert s[d + 1..d + 5] == MinText;
    }
    assert SpaceEnd(s, d) == d + 1 by {
      assert SpaceEnd(s, d + 1) == d + 1;
    }
  }

  /** A title without a star or a line break, closed by bold text, is matched whole. */
  lemma TitleEndOf(s: string, t: nat, title: string)
    requires |title| > 0 && NoLineTerminator(title) && '*' !in title
    requires t + |title| <= |s| && s[t..t + |title|] == title && BoldAt(s, t + |title|)
    ensures TitleEnd(s, t) == Some(t + |title|)
  {
    var e := t + |title|;
    assert forall k :: t <= k < e ==> s[k] == title[k - t];
    assert s[e] == '*' by {
      assert s[e..e + 2] == BoldText;
    }
    assert e < LineEnd(s, t) by {
      var r := LineEnd(s, t);
      assert r < |s| ==> IsLineTerminator(s[r]);
      assert !(r <= e);
    }
    forall k | t + 1 <= k < e ensures !BoldAt(s, k) {
      assert s[k] == title[k - t] && s[k] != '*';
      assert k + 2 <= |s| ==> s[k..k + 2][0] == s[k];
      assert BoldText[0] == '*';
    }
    FirstInIs(s, t + 1, LineEnd(s, t), BoldAt, e);
  }

  /** " (N min) **title**" from `b` gives back the minutes and the title, stated on where
      each part of the expression stops. */
  lemma MinutesAndTitleOf(s: string, b: nat, d: nat, c: nat, t: nat, e: nat, minutes: string, title: string)
    requires b + 2 <= d <= c <= |s|
    requires SpaceEnd(s, b) == b + 1 && DurationAt(s, b + 1) == Some((d, c))
    requires TitleAfter(s, c) == Some((t, e))
    requires s[b + 2..d] == minutes && s[t..e] == title
    ensures MinutesAndTitle(s, b) == Some((minutes, title))
  {
  }

  /** "**title**" after a space at `c` gives the title's place. */
  lemma TitleAfterOf(s: string, c: nat, e: nat)
    requires c + 3 <= e <= |s|
    requires SpaceEnd(s, c) == c + 1 && BoldAt(s, c + 1) && TitleEnd(s, c + 3) == Some(e)
    ensures TitleAfter(s, c) == Some((c + 3, e))
  {
  }

  /** The spaces around " (N min) **" end where the next part begins. */
  lemma SpacesOf(s: string, b: nat, d: nat)
    requires d + 8 <= |s| && b < d
    requires s[b] == ' ' && s[b + 1] == '(' && s[d + 5] == ' ' && BoldAt(s, d + 6)
    ensures SpaceEnd(s, b) == b + 1 && SpaceEnd(s, d + 5) == d + 6
  {
    assert SpaceEnd(s, b + 1) == b + 1;
    assert s[d + 6] == '*' by {
      assert s[d + 6..d + 8] == BoldText;
    }
    assert SpaceEnd(s, d + 6) == d + 6;
  }

  /** A heading laid out from position 0 as "start-end (N min) **title**" is read back into
      its parts. */
  lemma HeadingAtOf(s: string, start: string, end: string, minutes: string, title: string)
    requires IsClock(start) && IsClock(end) && |minutes| > 0 && AllDigits(minutes)
    requires |title| > 0 && NoLineTerminator(title) && '*' !in title
    requires |s| == |start| + |end| + |minutes| + |title| + 13
    requires s[..|start|] == start && s[|start|] == '-'
    requires s[|start| + 1..|start| + 1 + |end|] == end
    requires MinutesAndTitle(s, |start| + 1 + |end|) == Some((minutes, title))
    ensures TimeFirstAt(s, 0) == Some(Heading(start, end, minutes, title))
  {
    RangeAtOf(s, 0, start, end);
  }

  const MinutesCloseText := " min) **"

  /** The agenda heading as the meeting agent is told to write it:
      "HH:MM-HH:MM (N min) **Title**". */
  function HeadingLine(start: string, end: string, minutes: string, title: string): string {
    start + "-" + end + " (" + minutes + MinutesCloseText + title + BoldText
  }

  /** Where each part of a heading line sits. */
  lemma HeadingLineLayout(start: string, end: string, minutes: string, title: string)
    ensures var s := HeadingLine(start, end, minutes, title);
            var b := |start| + 1 + |end|;
            var d := b + 2 + |minutes|;
            var e := d + 8 + |title|;
            |s| == e + 2 && s[..|start|] == start && s[|start|] == '-' && s[|start| + 1..b] == end &&
            s[b] == ' ' && s[b + 1] == '(' && s[b + 2..d] == minutes && s[d] == ' ' &&
            OccursAt(s, MinText, d + 1) && s[d + 5] == ' ' && BoldAt(s, d + 6) &&
            s[d + 8..e] == title && BoldAt(s, e)
  {
    var s := HeadingLine(start, end, minutes, title);
    var b := |start| + 1 + |end|;
    var d := b + 2 + |minutes|;
    var e := d + 8 + |title|;
    var tail := MinutesCloseText + title + BoldText;
    assert s == start + "-" + end + " (" + minutes + tail;
    assert s[d..] == tail;
    assert tail[1..5] == MinText && tail[6..8] == BoldText;
    assert s[d + 1..d + 5] == tail[1..5];
    assert s[d + 6..d + 8] == tail[6..8];
    assert s[e..e + 2] == tail[8 + |title|..];
  }

  /** The heading the meeting agent writes is read back into its parts. */
  lemma HeadingLineRoundTrip(start: string, end: string, minutes: string, title: string)
    requires IsClock(start) && IsClock(end) && |minutes| > 0 && AllDigits(minutes)
    requires |title| > 0 && NoLineTerminator(title) && '*' !in title
    ensures TimeFirstMatch(HeadingLine(start, end, minutes, title)) == Some(Heading(start, end, minutes, title))
  {
    HeadingLineLayout(start, end, minutes, title);
    HeadingOfLayout(HeadingLine(start, end, minutes, title), start, end, minutes, title);
  }

  /** A line laid out as a heading is matched from its first character. */
  lemma HeadingOfLayout(s: string, start: string, end: string, minutes: string, title: string)
    requires IsClock(start) && IsClock(end) && |minutes| > 0 && AllDigits(minutes)
    requires |title| > 0 && NoLineTerminator(title) && '*' !in title
    requires var b := |start| + 1 + |end|;
             var d := b + 2 + |minutes|;
             var e := d + 8 + |title|;
             |s| == e + 2 && s[..|start|] == start && s[|start|] == '-' && s[|start| + 1..b] == end &&
             s[b] == ' ' && s[b + 1] == '(' && s[b + 2..d] == minutes && s[d] == ' ' &&
             OccursAt(s, MinText, d + 1) && s[d + 5] == ' ' && BoldAt(s, d + 6) &&
             s[d + 8..e] == title && BoldAt(s, e)
    ensures TimeFirstMatch(s) == Some(Heading(start, end, minutes, title))
  {
    var b := |start| + 1 + |end|;
    var d := b + 2 + |minutes|;
    var e := d + 8 + |title|;
    SpacesOf(s, b, d);
    DurationAtOf(s, b + 1, minutes);
    TitleEndOf(s, d + 8, title);
    TitleAfterOf(s, d + 5, e);
    MinutesAndTitleOf(s, b, d, d + 5, d + 8, e, minutes, title);
    HeadingAtOf(s, start, end, minutes, title);
    FirstAtIs(s, 0, TimeFirstAt);
  }

  /** A clock time holds only digits and a colon. */
  lemma ClockChars(t: string)
    requires IsClock(t)
    ensures forall k :: 0 <= k < |t| ==> IsDigit(t[k]) || t[k] == ':'
  {
  }

  /** A heading line is one line. */
  lemma HeadingLineNoBreak(start: string, end: string, minutes: string, title: string)
    requires IsClock(start) && IsClock(end) && AllDigits(minutes) && NoLineTerminator(title)
    ensures '\n' !in HeadingLine(start, end, minutes, title)
  {
    ClockChars(start);
    ClockChars(end);
    assert '\n' !in start && '\n' !in end && '\n' !in minutes && '\n' !in title;
  }

  /** Points written as "- " lines. */
  function BulletLines(points: seq<string>): (lines: seq<string>)
    ensures |lines| == |points|
  {
    seq(|points|, i requires 0 <= i < |points| => "- " + points[i])
  }

  /** The lines of a heading and bulleted points, joined into a text, are read back. */
  lemma CardLines(start: string, end: string, minutes: string, title: string, points: seq<string>)
    requires IsClock(start) && IsClock(end) && AllDigits(minutes) && NoLineTerminator(title)
    requires forall i :: 0 <= i < |points| ==> '\n' !in points[i]
    ensures var lines := [HeadingLine(start, end, minutes, title)] + BulletLines(points);
            var text := Join(lines, "\n");
            text != "" && Lines(text) == lines
  {
    var lines := [HeadingLine(start, end, minutes, title)] + BulletLines(points);
    var text := Join(lines, "\n");
    HeadingLineNoBreak(start, end, minutes, title);
    forall k | 1 <= k < |lines| ensures '\n' !in lines[k] {
      assert lines[k] == "- " + points[k - 1];
    }
    SplitJoin(lines, '\n');
    assert HeadingLine(start, end, minutes, title) != "" by {
      HeadingLineLayout(start, end, minutes, title);
    }
    assert Lines("") == [""];
  }

  // ---------------------------------------------------------------- research sections

  /** The four sections of the research. */
  datatype Section = IndustryTrends | BestPractices | Challenges | Recommendations

  /** The key each section has in the object the parser returns. */
  function SectionName(k: Section): string {
    match k
    case IndustryTrends => "Industry Trends"
    case BestPractices => "Best Practices"
    case Challenges => "Challenges"
    case Recommendations => "Recommendations"
  }

  /** The research split by section: the object with its four keys, which the parser only
      ever appends to. */
  datatype Sections = Sections(
    trends: seq<string>,
    practices: seq<string>,
    challenges: seq<string>,
    recommendations: seq<string>)
  {
    /** `sections[key]`. */
    function Get(k: Section): seq<string> {
      match k
      case IndustryTrends => trends
      case BestPractices => practices
      case Challenges => challenges
      case Recommendations => recommendations
    }

    /** `sections[key].push(p)`: that section grows by `p` and no other changes. */
    function Push(k: Section, p: string): (r: Sections)
      ensures r.Get(k) == Get(k) + [p]
      ensures forall j :: j != k ==> r.Get(j) == Get(j)
    {
      match k
      case IndustryTrends => this.(trends := trends + [p])
      case BestPractices => this.(practices := practices + [p])
      case Challenges => this.(challenges := challenges + [p])
      case Recommendations => this.(recommendations := recommendations + [p])
    }

    /** The object as the page receives it: exactly the four keys. */
    function ToMap(): (m: map<string, seq<string>>)
      ensures m.Keys == {"Industry Trends", "Best Practices", "Challenges", "Recommendations"}
      ensures forall k :: SectionName(k) in m && m[SectionName(k)] == Get(k)
    {
      map[SectionName(IndustryTrends) := trends, SectionName(BestPractices) := practices,
          SectionName(Challenges) := challenges, SectionName(Recommendations) := recommendations]
    }
  }

  /** The four sections, all empty. */
  const EmptySections := Sections([], [], [], [])

  /** The heading tests in order: the words a line may hold, and the section they name. */
  const HeadingRules: seq<(seq<string>, Section)> := [
    (["Industry Trends", "Trends"], IndustryTrends),
    (["Best Practices", "Practices"], BestPractices),
    (["Challenge", "Risk"], Challenges),
    (["Recommendation", "Action"], Recommendations)
  ]

  /** The section of the first rule one of whose words the line holds. */
  function FirstRule(line: string, rules: seq<(seq<string>, Section)>): (k: Option<Section>)
    ensures k.Some? ==> exists i :: 0 <= i < |rules| && rules[i].1 == k.value
    ensures k.None? ==> forall i, w :: 0 <= i < |rules| && w in rules[i].0 ==> !Contains(line, w)
  {
    if |rules| == 0 then None
    else if exists w :: w in rules[0].0 && Contains(line, w) then Some(rules[0].1)
    else
      var k := FirstRule(line, rules[1..]);
      assert k.Some? ==> exists i :: 1 <= i < |rules| && rules[i].1 == k.value by {
        if k.Some? {
          var i :| 0 <= i < |rules[1..]| && rules[1..][i].1 == k.value;
          assert rules[i + 1].1 == k.value;
        }
      }
      k
  }

  /** The heading cascade: a line names the section of the first test it passes. */
  function SectionOf(line: string): Option<Section> {
    FirstRule(line, HeadingRules)
  }

  /** The characters of `[•\-*]`. */
  predicate IsMarker(c: char) {
    c == '\U{2022}' || c == '-' || c == '*'
  }

  /** A line kept as a research point: not blank, and holding a bullet, a dash or a star
      anywhere. */
  predicate IsResearchPoint(line: string) {
    Trim(line) != "" && ('\U{2022}' in line || '-' in line || '*' in line)
  }

  /** The stored point: the line without a leading marker and the spaces after it (the
      expression `^[•\-*]\s*` replaced by nothing), trimmed. */
  function ResearchPoint(line: string): (p: string)
    ensures IsTrimmed(p)
  {
    Trim(if |line| > 0 && IsMarker(line[0]) then line[SpaceEnd(line, 1)..] else line)
  }

  /** What one research line is to the parser. */
  datatype ResearchLine = SectionHeading(section: Section) | Point(text: string) | Ignored

  /** The tests of the `forEach` body, in order: a heading first, then a point. */
  function ClassifyResearch(line: string): ResearchLine {
    match SectionOf(line)
    case Some(k) => SectionHeading(k)
    case None => if IsResearchPoint(line) then Point(ResearchPoint(line)) else Ignored
  }

  /** The section being filled (none before the first heading) and the sections so far. */
  datatype ResearchState = ResearchState(section: Option<Section>, sections: Sections)

  /** The `forEach` body on one classified line. A point before any heading is dropped. */
  function ResearchStep(st: ResearchState, c: ResearchLine): ResearchState {
    match c
    case SectionHeading(k) => st.(section := Some(k))
    case Point(p) =>
      if st.section.Some? then st.(sections := st.sections.Push(st.section.value, p)) else st
    case Ignored => st
  }

  /** The state after the classified lines in order. */
  function ResearchScan(cs: seq<ResearchLine>): ResearchState {
    if |cs| == 0 then ResearchState(None, EmptySections)
    else ResearchStep(ResearchScan(cs[..|cs| - 1]), cs[|cs| - 1])
  }

  /** Every line classified. */
  function ClassifyAll(lines: seq<string>): (cs: seq<ResearchLine>)
    ensures |cs| == |lines|
    ensures forall i :: 0 <= i < |lines| ==> cs[i] == ClassifyResearch(lines[i])
  {
    seq(|lines|, i requires 0 <= i < |lines| => ClassifyResearch(lines[i]))
  }

  /** The sections `parseResearchSections` returns for a research text. */
  function Research(text: string): Sections {
    ResearchScan(ClassifyAll(Lines(text))).sections
  }

  /** The loop of `parseResearchSections` over the lines of the research text. The test
      `sections[currentSection]` always passes once a heading was seen, as every section
      starts out as an (empty, truthy) array. */
  method ResearchSections(text: string) returns (sections: Sections)
    ensures sections == Research(text)
  {
    var lines := Lines(text);
    var cs := ClassifyAll(lines);
    sections := EmptySections;
    var current: Option<Section> := None;
    for i := 0 to |lines|
      invariant ResearchState(current, sections) == ResearchScan(cs[..i])
    {
      assert cs[..i + 1][..i] == cs[..i];
      var line := lines[i];
      var k := SectionOf(line);
      if k.Some? {
        current := k;
      } else if IsResearchPoint(line) && current.Some? {
        sections := sections.Push(current.value, ResearchPoint(line));
      }
    }
    assert cs[..|lines|] == cs;
  }

  /** The points among classified lines, in order. */
  function PointsOf(cs: seq<ResearchLine>): (ps: seq<string>)
    ensures |ps| <= |cs|
  {
    if |cs| == 0 then []
    else PointsOf(cs[..|cs| - 1]) + (if cs[|cs| - 1].Point? then [cs[|cs| - 1].text] else [])
  }

  /** Lines before the first heading are dropped: with no heading the sections stay empty. */
  lemma {:induction false} NoHeadingNoPoints(cs: seq<ResearchLine>)
    requires forall k :: 0 <= k < |cs| ==> !cs[k].SectionHeading?
    ensures ResearchScan(cs) == ResearchState(None, EmptySections)
  {
    if |cs| > 0 {
      NoHeadingNoPoints(cs[..|cs| - 1]);
    }
  }

  /** The state after one more line is one more step. */
  lemma ScanSnoc(cs: seq<ResearchLine>, c: ResearchLine)
    ensures ResearchScan(cs + [c]) == ResearchStep(ResearchScan(cs), c)
  {
    assert (cs + [c])[..|cs|] == cs;
  }

  /** A heading line is never stored: after it, its section gets exactly the points of the
      lines up to the next heading, and no other section changes. */
  lemma {:induction false} SectionCollects(pre: seq<ResearchLine>, k: Section, body: seq<ResearchLine>)
    requires forall i :: 0 <= i < |body| ==> !body[i].SectionHeading?
    ensures var after := ResearchScan(pre + [SectionHeading(k)] + body);
            var before := ResearchScan(pre).sections;
            after.section == Some(k) &&
            after.sections.Get(k) == before.Get(k) + PointsOf(body) &&
            forall j :: j != k ==> after.sections.Get(j) == before.Get(j)
  {
    if |body| == 0 {
      assert pre + [SectionHeading(k)] + body == pre + [SectionHeading(k)];
      ScanSnoc(pre, SectionHeading(k));
    } else {
      var n := |body|;
      var last := body[n - 1];
      var rest := pre + [SectionHeading(k)] + body[..n - 1];
      assert pre + [SectionHeading(k)] + body == rest + [last];
      assert body[..n - 1] == body[..n][..n - 1];
      SectionCollects(pre, k, body[..n - 1]);
      ScanSnoc(rest, last);
      assert PointsOf(body) == PointsOf(body[..n - 1]) + (if last.Point? then [last.text] else []);
    }
  }

  // ---------------------------------------------------------------- the agenda

  /** One agenda card: "start-end", "N min", the trimmed title and its discussion points. */
  datatype AgendaItem = AgendaItem(time: string, duration: string, title: string, points: seq<string>)

  /** The card a heading opens, with no points yet. */
  function ItemOf(h: Heading): (item: AgendaItem)
    ensures item.time == h.start + "-" + h.end && item.duration == h.minutes + " min"
    ensures item.title == Trim(h.title) && item.points == []
  {
    AgendaItem(h.start + "-" + h.end, h.minutes + " min", Trim(h.title), [])
  }

  /** What a parser makes of one agenda line: a heading, a discussion point it keeps, or
      nothing. */
  datatype AgendaLine = ItemHeading(heading: Heading) | ItemPoint(text: string) | Other

  /** The cards pushed so far and `currentItem`. */
  datatype AgendaState = AgendaState(items: seq<AgendaItem>, current: Option<AgendaItem>)

  /** The card under construction, pushed after the others. */
  function Flushed(st: AgendaState): seq<AgendaItem> {
    if st.current.Some? then st.items + [st.current.value] else st.items
  }

  /** The loop body on one classified line: a heading pushes the open card and opens its
      own; a point goes to the open card, and is dropped when there is none. */
  function AgendaStep(st: AgendaState, c: AgendaLine): AgendaState {
    match c
    case ItemHeading(h) => AgendaState(Flushed(st), Some(ItemOf(h)))
    case ItemPoint(p) =>
      if st.current.Some? then
        st.(current := Some(st.current.value.(points := st.current.value.points + [p])))
      else st
    case Other => st
  }

  /** The state after the classified lines in order. */
  function AgendaScan(cs: seq<AgendaLine>): AgendaState {
    if |cs| == 0 then AgendaState([], None)
    else AgendaStep(AgendaScan(cs[..|cs| - 1]), cs[|cs| - 1])
  }

  /** The cards a parser returns: those pushed in the loop and then the last one. */
  function Agenda(cs: seq<AgendaLine>): seq<AgendaItem> {
    Flushed(AgendaScan(cs))
  }

  /** The headings among classified lines, in order. */
  function HeadingsOf(cs: seq<AgendaLine>): (hs: seq<Heading>)
    ensures |hs| <= |cs|
  {
    if |cs| == 0 then []
    else HeadingsOf(cs[..|cs| - 1]) + (if cs[|cs| - 1].ItemHeading? then [cs[|cs| - 1].heading] else [])
  }

  /** The points among classified lines, in order. */
  function ItemPointsOf(cs: seq<AgendaLine>): (ps: seq<string>)
    ensures |ps| <= |cs|
  {
    if |cs| == 0 then []
    else ItemPointsOf(cs[..|cs| - 1]) + (if cs[|cs| - 1].ItemPoint? then [cs[|cs| - 1].text] else [])
  }

  /** A card without its points. */
  function Bare(item: AgendaItem): AgendaItem {
    item.(points := [])
  }

  /** The state after one more line is one more step. */
  lemma AgendaScanSnoc(cs: seq<AgendaLine>, c: AgendaLine)
    ensures AgendaScan(cs + [c]) == AgendaStep(AgendaScan(cs), c)
  {
    assert (cs + [c])[..|cs|] == cs;
  }

  /** There is exactly one card per heading, in the order of the headings, each carrying
      its heading's time, duration and trimmed title. */
  lemma {:induction false} OneItemPerHeading(cs: seq<AgendaLine>)
    ensures |Agenda(cs)| == |HeadingsOf(cs)|
    ensures forall i :: 0 <= i < |Agenda(cs)| ==> Bare(Agenda(cs)[i]) == ItemOf(HeadingsOf(cs)[i])
  {
    if |cs| > 0 {
      var pre := cs[..|cs| - 1];
      var c := cs[|cs| - 1];
      OneItemPerHeading(pre);
      var before := Agenda(pre);
      var after := Agenda(cs);
      var st := AgendaScan(pre);
      assert AgendaScan(cs) == AgendaStep(st, c);
      match c
      case ItemHeading(h) =>
        assert HeadingsOf(cs) == HeadingsOf(pre) + [h];
        assert after == before + [ItemOf(h)];
      case ItemPoint(p) =>
        assert HeadingsOf(cs) == HeadingsOf(pre);
        if st.current.Some? {
          assert after == st.items + [st.current.value.(points := st.current.value.points + [p])];
          assert Bare(after[|after| - 1]) == Bare(before[|before| - 1]);
        }
      case Other =>
        assert HeadingsOf(cs) == HeadingsOf(pre);
    }
  }

  /** Points before the first heading are dropped: with no heading there are no cards. */
  lemma {:induction false} NoHeadingNoItems(cs: seq<AgendaLine>)
    requires forall k :: 0 <= k < |cs| ==> !cs[k].ItemHeading?
    ensures AgendaScan(cs) == AgendaState([], None) && Agenda(cs) == []
  {
    if |cs| > 0 {
      NoHeadingNoItems(cs[..|cs| - 1]);
    }
  }

  /** A heading followed by lines without a heading makes one card after the earlier ones,
      holding exactly the points of those lines, in order. */
  lemma {:induction false} ItemCollects(pre: seq<AgendaLine>, h: Heading, body: seq<AgendaLine>)
    requires forall i :: 0 <= i < |body| ==> !body[i].ItemHeading?
    ensures AgendaScan(pre + [ItemHeading(h)] + body) ==
              AgendaState(Agenda(pre), Some(ItemOf(h).(points := ItemPointsOf(body))))
    ensures Agenda(pre + [ItemHeading(h)] + body) == Agenda(pre) + [ItemOf(h).(points := ItemPointsOf(body))]
  {
    if |body| == 0 {
      assert pre + [ItemHeading(h)] + body == pre + [ItemHeading(h)];
      AgendaScanSnoc(pre, ItemHeading(h));
    } else {
      var n := |body|;
      var last := body[n - 1];
      var rest := pre + [ItemHeading(h)] + body[..n - 1];
      assert pre + [ItemHeading(h)] + body == rest + [last];
      assert body[..n - 1] == body[..n][..n - 1];
      ItemCollects(pre, h, body[..n - 1]);
      AgendaScanSnoc(rest, last);
      var open := ItemOf(h).(points := ItemPointsOf(body[..n - 1]));
      assert AgendaScan(rest) == AgendaState(Agenda(pre), Some(open));
      if last.ItemPoint? {
        assert ItemPointsOf(body) == ItemPointsOf(body[..n - 1]) + [last.text];
        assert open.(points := open.points + [last.text]) == ItemOf(h).(points := ItemPointsOf(body));
      } else {
        assert ItemPointsOf(body) == ItemPointsOf(body[..n - 1]);
      }
    }
  }

  /** A heading followed by lines without one makes a single card holding their points. */
  lemma SingleItem(h: Heading, body: seq<AgendaLine>)
    requires forall i :: 0 <= i < |body| ==> !body[i].ItemHeading?
    ensures Agenda([ItemHeading(h)] + body) == [ItemOf(h).(points := ItemPointsOf(body))]
  {
    var item := ItemOf(h).(points := ItemPointsOf(body));
    ItemCollects([], h, body);
    assert [] + [ItemHeading(h)] + body == [ItemHeading(h)] + body;
    assert Agenda([]) == [];
    assert Agenda([]) + [item] == [item];
  }

  /** The points of lines that are all points are those points, in order. */
  lemma {:induction false} ItemPointsOfPoints(ps: seq<string>)
    ensures ItemPointsOf(seq(|ps|, i requires 0 <= i < |ps| => ItemPoint(ps[i]))) == ps
  {
    if |ps| > 0 {
      var n := |ps|;
      var cs := seq(n, i requires 0 <= i < n => ItemPoint(ps[i]));
      ItemPointsOfPoints(ps[..n - 1]);
      assert cs[..n - 1] == seq(n - 1, i requires 0 <= i < n - 1 => ItemPoint(ps[..n - 1][i]));
      assert ps == ps[..n - 1] + [ps[n - 1]];
    }
  }

  // ---------------------------------------------------------------- discussion points

  /** `^[\U{2022}\-*]\s+`: where the bullet and the whitespace after it end. */
  function BulletEnd(t: string): (r: Option<nat>)
    ensures r.Some? ==> 2 <= r.value <= |t| && IsMarker(t[0])
    ensures r.Some? ==> forall k :: 1 <= k < r.value ==> IsWhitespace(t[k])
    ensures r.Some? ==> r.value == |t| || !IsWhitespace(t[r.value])
    ensures r.None? ==> |t| < 2 || !IsMarker(t[0]) || !IsWhitespace(t[1])
  {
    if |t| > 0 && IsMarker(t[0]) && SpaceEnd(t, 1) > 1 then Some(SpaceEnd(t, 1)) else None
  }

  /** `t.replace(/^[\U{2022}\-*]\s+/, "")`: the text after a leading bullet, or `t`. */
  function StripBullet(t: string): (r: string)
    ensures BulletEnd(t).Some? ==> r == t[BulletEnd(t).value..]
    ensures BulletEnd(t).None? ==> r == t
  {
    match BulletEnd(t)
    case Some(k) => t[k..]
    case None => t
  }

  /** A point written "- text" loses exactly its bullet and the space. */
  lemma StripBulletOf(p: string)
    requires |p| > 0 && !IsWhitespace(p[0])
    ensures BulletEnd("- " + p) == Some(2) && StripBullet("- " + p) == p
  {
    var t := "- " + p;
    assert t[2] == p[0];
    assert SpaceEnd(t, 2) == 2;
    assert t[2..] == p;
  }

  /** A clock time needs a colon: a line without one holds no time-first heading. */
  lemma NoColonNoRange(s: string, i: nat)
    requires ':' !in s
    ensures RangeAt(s, i).None?
  {
  }

  /** A line without a colon is no time-first heading. */
  lemma NoColonNoHeading(s: string)
    requires ':' !in s
    ensures TimeFirstMatch(s).None?
  {
    forall i: nat ensures TimeFirstAt(s, i).None? {
      NoColonNoRange(s, i);
    }
  }

  /** A duration ends with its closing parenthesis. */
  lemma DurationEndsWithParen(s: string, q: nat)
    requires DurationAt(s, q).Some?
    ensures s[DurationAt(s, q).value.1 - 1] == ')'
  {
    var c := DurationAt(s, q).value.1;
    assert s[c - 4..c] == MinText;
  }

  /** Nothing follows a duration that closes the line, so no title can. */
  lemma NoTitleAfterLastParen(s: string, b: nat)
    requires b <= |s|
    requires forall k :: 0 <= k < |s| - 1 ==> s[k] != ')'
    ensures MinutesAndTitle(s, b).None?
  {
    var w := SpaceEnd(s, b);
    if DurationAt(s, w).Some? {
      DurationEndsWithParen(s, w);
      assert DurationAt(s, w).value.1 == |s|;
      assert TitleAfter(s, |s|).None? by {
        assert SpaceEnd(s, |s|) == |s|;
      }
    }
  }

  /** A time-first heading needs bold text after its duration: a line whose only closing
      parenthesis is its last character holds none. */
  lemma ParenLastNoHeading(s: string)
    requires forall k :: 0 <= k < |s| - 1 ==> s[k] != ')'
    ensures TimeFirstMatch(s).None?
  {
    forall i: nat ensures TimeFirstAt(s, i).None? {
      var r := RangeAt(s, i);
      if r.Some? {
        NoTitleAfterLastParen(s, r.value.1);
      }
    }
  }
}
