/**
 * The page that shows a saved meeting (frontend/components/meeting-agent/meeting-view-client.tsx):
 * its agenda parser, which knows only the time-first heading and bulleted points, its research
 * parser, and the file names its exports are saved under.
 */
module MeetingViewClient {
  import opened Options
  import opened Text
  import opened Search
  import opened MeetingText
  import MeetingAgentClient

  // ---------------------------------------------------------------- the agenda

  /** A trimmed line that is no heading: a point when it opens with a bullet and something
      is left after it. */
  function ViewPointOrOther(t: string): (c: AgendaLine)
    ensures c.ItemPoint? ==> |c.text| > 0 && IsTrimmed(c.text)
  {
    if BulletEnd(t).Some? && Trim(StripBullet(t)) != "" then ItemPoint(Trim(StripBullet(t))) else Other
  }

  /** One line as this page reads it, after trimming: a time-first heading, else a bulleted
      point. */
  function ClassifyLine(line: string): AgendaLine {
    var t := Trim(line);
    var timeMatch := TimeFirstMatch(t);
    if timeMatch.Some? then ItemHeading(timeMatch.value) else ViewPointOrOther(t)
  }

  /** Every line classified, in order. */
  function ClassifyLines(lines: seq<string>): (cs: seq<AgendaLine>)
    ensures |cs| == |lines|
  {
    if |lines| == 0 then [] else ClassifyLines(lines[..|lines| - 1]) + [ClassifyLine(lines[|lines| - 1])]
  }

  /** Classifying one more line appends its classification. */
  lemma ClassifyLinesSnoc(lines: seq<string>, i: nat)
    requires i < |lines|
    ensures ClassifyLines(lines[..i + 1]) == ClassifyLines(lines[..i]) + [ClassifyLine(lines[i])]
  {
    assert lines[..i + 1][..i] == lines[..i];
  }

  /** The cards `parseAgendaItems` of this page returns. */
  function AgendaOf(agendaText: string): seq<AgendaItem> {
    Agenda(ClassifyLines(Lines(agendaText)))
  }

  /** The body of the loop of `parseAgendaItems` on one line. */
  method ReadAgendaLine(items: seq<AgendaItem>, currentItem: Option<AgendaItem>, line: string)
    returns (items': seq<AgendaItem>, currentItem': Option<AgendaItem>)
    ensures AgendaState(items', currentItem') ==
              AgendaStep(AgendaState(items, currentItem), ClassifyLine(line))
  {
    items', currentItem' := items, currentItem;
    match ClassifyLine(line) {
      case ItemHeading(h) =>
        if currentItem'.Some? {
          items' := items' + [currentItem'.value];
        }
        currentItem' := Some(ItemOf(h));
      case ItemPoint(point) =>
        if currentItem'.Some? {
          currentItem' := Some(currentItem'.value.(points := currentItem'.value.points + [point]));
        }
      case Other =>
    }
  }

  /** `parseAgendaItems` of this page: the loop over the lines with the card under
      construction, and the last card pushed after it. */
  method ParseAgendaItems(agendaText: string) returns (items: seq<AgendaItem>)
    ensures items == AgendaOf(agendaText)
  {
    var lines := Lines(agendaText);
    items := [];
    var currentItem: Option<AgendaItem> := None;
    for i := 0 to |lines|
      invariant AgendaState(items, currentItem) == AgendaScan(ClassifyLines(lines[..i]))
    {
      ClassifyLinesSnoc(lines, i);
      AgendaScanSnoc(ClassifyLines(lines[..i]), ClassifyLine(lines[i]));
      items, currentItem := ReadAgendaLine(items, currentItem, lines[i]);
    }
    if currentItem.Some? {
      items := items + [currentItem.value];
    }
    assert lines[..|lines|] == lines;
  }

  /** `parseResearchSections` of this page: the shared section split, with no guard. */
  method ParseResearchSections(researchText: string) returns (sections: Sections)
    ensures sections == Research(researchText)
  {
    sections := ResearchSections(researchText);
  }

  // ---------------------------------------------------------------- properties of the agenda

  /** The test `if (point)` never fails: after a bullet and its whitespace, a trimmed line
      always has something left, and it is already trimmed. */
  lemma BulletLeavesText(t: string)
    requires IsTrimmed(t) && BulletEnd(t).Some?
    ensures StripBullet(t) != "" && Trim(StripBullet(t)) == StripBullet(t)
    ensures ViewPointOrOther(t) == ItemPoint(StripBullet(t))
  {
    var k := BulletEnd(t).value;
    assert k < |t| by {
      assert !IsWhitespace(t[|t| - 1]);
    }
    var r := t[k..];
    assert r[0] == t[k] && r[|r| - 1] == t[|t| - 1];
  }

  /** A point written "- text" is kept whole. */
  lemma BulletPointRead(p: string)
    requires IsTrimmed(p) && |p| > 0 && ':' !in p
    ensures ClassifyLine("- " + p) == ItemPoint(p)
  {
    var t := "- " + p;
    assert IsTrimmed(t) by {
      assert t[|t| - 1] == p[|p| - 1];
    }
    assert ':' !in t by {
      assert forall k :: 2 <= k < |t| ==> t[k] == p[k - 2];
    }
    NoColonNoHeading(t);
    StripBulletOf(p);
    assert ViewPointOrOther(t) == ItemPoint(p);
    assert Trim(t) == t;
  }

  /** A time-first heading as the meeting agent writes it opens a card. */
  lemma TimeFirstHeadingRead(start: string, end: string, minutes: string, title: string)
    requires IsClock(start) && IsClock(end) && |minutes| > 0 && AllDigits(minutes)
    requires |title| > 0 && NoLineTerminator(title) && '*' !in title
    ensures ClassifyLine(HeadingLine(start, end, minutes, title)) == ItemHeading(Heading(start, end, minutes, title))
  {
    var s := HeadingLine(start, end, minutes, title);
    HeadingLineLayout(start, end, minutes, title);
    assert IsTrimmed(s) by {
      assert s[0] == start[0] && IsDigit(start[0]);
      assert s[|s| - 1] == '*' by {
        assert s[|s| - 2..] == BoldText;
      }
    }
    assert Trim(s) == s;
    HeadingLineRoundTrip(start, end, minutes, title);
  }

  /** Lines classified one by one as `cs` are classified as `cs` together. */
  lemma {:induction false} ClassifyLinesAre(lines: seq<string>, cs: seq<AgendaLine>)
    requires |cs| == |lines|
    requires forall i {:trigger ClassifyLine(lines[i])} :: 0 <= i < |lines| ==> ClassifyLine(lines[i]) == cs[i]
    ensures ClassifyLines(lines) == cs
  {
    if |lines| > 0 {
      var n := |lines| - 1;
      ClassifyLinesAre(lines[..n], cs[..n]);
      FrontAndLast(cs);
    }
  }

  /** Each line of a heading and bulleted points is read as what it was written as. */
  lemma CardClassified(start: string, end: string, minutes: string, title: string, points: seq<string>)
    requires IsClock(start) && IsClock(end) && |minutes| > 0 && AllDigits(minutes)
    requires |title| > 0 && NoLineTerminator(title) && '*' !in title
    requires forall i :: 0 <= i < |points| ==> IsTrimmed(points[i]) && |points[i]| > 0 && ':' !in points[i]
    ensures ClassifyLines([HeadingLine(start, end, minutes, title)] + BulletLines(points)) ==
              [ItemHeading(Heading(start, end, minutes, title))] +
              seq(|points|, i requires 0 <= i < |points| => ItemPoint(points[i]))
  {
    var lines := [HeadingLine(start, end, minutes, title)] + BulletLines(points);
    var cs := [ItemHeading(Heading(start, end, minutes, title))] +
              seq(|points|, i requires 0 <= i < |points| => ItemPoint(points[i]));
    forall i | 0 <= i < |lines| ensures ClassifyLine(lines[i]) == cs[i] {
      if i == 0 {
        assert lines[i] == HeadingLine(start, end, minutes, title);
        assert cs[i] == ItemHeading(Heading(start, end, minutes, title));
        TimeFirstHeadingRead(start, end, minutes, title);
      } else {
        assert lines[i] == "- " + points[i - 1];
        assert cs[i] == ItemPoint(points[i - 1]);
        BulletPointRead(points[i - 1]);
      }
    }
    ClassifyLinesAre(lines, cs);
  }

  /** An agenda written as a time-first heading and bulleted points is read back as one
      card holding those points. */
  lemma CardRoundTrip(start: string, end: string, minutes: string, title: string, points: seq<string>)
    requires IsClock(start) && IsClock(end) && |minutes| > 0 && AllDigits(minutes)
    requires |title| > 0 && NoLineTerminator(title) && '*' !in title
    requires forall i :: 0 <= i < |points| ==>
               IsTrimmed(points[i]) && |points[i]| > 0 && ':' !in points[i] && '\n' !in points[i]
    ensures AgendaOf(Join([HeadingLine(start, end, minutes, title)] + BulletLines(points), "\n")) ==
              [AgendaItem(start + "-" + end, minutes + " min", Trim(title), points)]
  {
    var body := seq(|points|, i requires 0 <= i < |points| => ItemPoint(points[i]));
    CardLines(start, end, minutes, title, points);
    CardClassified(start, end, minutes, title, points);
    SingleItem(Heading(start, end, minutes, title), body);
    ItemPointsOfPoints(points);
  }

  /** On the format the meeting agent is prompted with, a time-first heading and bulleted
      points, this page shows the same card as the meeting screen. */
  lemma AgreesWithAgentScreen(start: string, end: string, minutes: string, title: string, points: seq<string>)
    requires IsClock(start) && IsClock(end) && |minutes| > 0 && AllDigits(minutes)
    requires |title| > 0 && NoLineTerminator(title) && '*' !in title
    requires forall i :: 0 <= i < |points| ==> MeetingAgentClient.PlainPoint(points[i])
    ensures var text := Join([HeadingLine(start, end, minutes, title)] + BulletLines(points), "\n");
            AgendaOf(text) == MeetingAgentClient.AgendaOf(Some(text))
  {
    MeetingAgentClient.CardRoundTrip(start, end, minutes, title, points);
    CardRoundTrip(start, end, minutes, title, points);
  }

  /** The title-first heading, which the meeting screen reads, is not a heading here: the line
      is dropped (and so are the points under it, until the next time-first heading). */
  lemma TitleFirstDropped(title: string, start: string, end: string, minutes: string)
    requires IsClock(start) && IsClock(end) && |minutes| > 0 && AllDigits(minutes)
    requires |title| > 0 && NoLineTerminator(title) && '*' !in title && ')' !in title
    ensures ClassifyLine(MeetingAgentClient.TitleFirstLine(title, start, end, minutes)) == Other
    ensures MeetingAgentClient.ClassifyLine(MeetingAgentClient.TitleFirstLine(title, start, end, minutes)) ==
              ItemHeading(Heading(start, end, minutes, title))
  {
    TitleFirstIsOther(title, start, end, minutes);
    MeetingAgentClient.TitleFirstHeadingRead(title, start, end, minutes);
  }

  /** This page's reading of the title-first heading. */
  lemma TitleFirstIsOther(title: string, start: string, end: string, minutes: string)
    requires IsClock(start) && IsClock(end) && |minutes| > 0 && AllDigits(minutes)
    requires |title| > 0 && NoLineTerminator(title) && '*' !in title && ')' !in title
    ensures ClassifyLine(MeetingAgentClient.TitleFirstLine(title, start, end, minutes)) == Other
  {
    var s := MeetingAgentClient.TitleFirstLine(title, start, end, minutes);
    MeetingAgentClient.TitleFirstLayout(title, start, end, minutes);
    assert s[..2] == BoldText;
    assert s[0] == '*' && s[1] == '*';
    assert IsTrimmed(s) by {
      assert s[|s| - 1] == ')' by {
        assert s[|s| - 4..] == MinText;
      }
    }
    assert Trim(s) == s;
    MeetingAgentClient.TitleFirstParens(title, start, end, minutes);
    ParenLastNoHeading(s);
    assert BulletEnd(s).None?;
  }

  // ---------------------------------------------------------------- export file names

  /** `replace(/\s+/g, "-")`: each run of whitespace becomes one dash. */
  function DashSpaces(s: string): (r: string)
    ensures forall k :: 0 <= k < |r| ==> !IsWhitespace(r[k])
    ensures |r| <= |s|
    decreases |s|
  {
    if |s| == 0 then ""
    else if IsWhitespace(s[0]) then "-" + DashSpaces(s[SpaceEnd(s, 0)..])
    else [s[0]] + DashSpaces(s[1..])
  }

  /** The topic as it appears in an export's file name:
      `topic.replace(/\s+/g, "-").toLowerCase()`. */
  function Slug(topic: string): (r: string)
    ensures |r| <= |topic|
    ensures forall k :: 0 <= k < |r| ==> !IsWhitespace(r[k])
  {
    ToLower(DashSpaces(topic))
  }

  /** The PDF and Word exports: "meeting-<slug>.<extension>". */
  function ExportName(topic: string, extension: string): string {
    "meeting-" + Slug(topic) + "." + extension
  }

  /** The JSON export, stamped with the time of the export in milliseconds. */
  function JsonExportName(topic: string, now: nat): string {
    "meeting-" + Slug(topic) + "-" + NatToString(now) + ".json"
  }

  /** Text without whitespace passes through unchanged. */
  lemma {:induction false} DashSpacesKeepsWords(s: string)
    requires forall k :: 0 <= k < |s| ==> !IsWhitespace(s[k])
    ensures DashSpaces(s) == s
  {
    if |s| > 0 {
      DashSpacesKeepsWords(s[1..]);
    }
  }

  /** A word at the front is kept as it is. */
  lemma {:induction false} DashSpacesWordFirst(w: string, rest: string)
    requires forall k :: 0 <= k < |w| ==> !IsWhitespace(w[k])
    ensures DashSpaces(w + rest) == w + DashSpaces(rest)
  {
    if |w| > 0 {
      var s := w + rest;
      assert s[0] == w[0] && !IsWhitespace(s[0]);
      assert s[1..] == w[1..] + rest;
      assert DashSpaces(s) == [w[0]] + DashSpaces(w[1..] + rest);
      DashSpacesWordFirst(w[1..], rest);
      calc {
        DashSpaces(s);
        [w[0]] + (w[1..] + DashSpaces(rest));
        { assert w == [w[0]] + w[1..]; }
        w + DashSpaces(rest);
      }
    } else {
      assert w + rest == rest;
    }
  }

  /** A word of the topic. */
  predicate IsWord(w: string) {
    |w| > 0 && forall k :: 0 <= k < |w| ==> !IsWhitespace(w[k])
  }

  /** Words separated by single spaces come out separated by dashes. */
  lemma {:induction false} DashSpacesJoin(words: seq<string>)
    requires forall i :: 0 <= i < |words| ==> IsWord(words[i])
    ensures DashSpaces(Join(words, " ")) == Join(words, "-")
  {
    if |words| == 1 {
      DashSpacesKeepsWords(words[0]);
    } else if |words| > 1 {
      var rest := Join(words[1..], " ");
      var spaced := " " + rest;
      DashSpacesJoin(words[1..]);
      assert words[0] + " " + rest == words[0] + spaced;
      DashSpacesWordFirst(words[0], spaced);
      JoinStartsWithFirst(words[1..], " ");
      assert spaced[1] == rest[0] == words[1][0];
      assert !IsWhitespace(words[1][0]);
      assert SpaceEnd(spaced, 1) == 1;
      assert SpaceEnd(spaced, 0) == 1;
      assert spaced[1..] == rest;
      assert DashSpaces(spaced) == "-" + DashSpaces(rest);
    }
  }

  /** A join of non-empty parts starts with the first part. */
  lemma JoinStartsWithFirst(parts: seq<string>, sep: string)
    requires |parts| > 0 && |parts[0]| > 0
    ensures |Join(parts, sep)| > 0 && Join(parts, sep)[0] == parts[0][0]
  {
  }

  /** Lower-casing twice is lower-casing once. */
  lemma {:induction false} ToLowerIdempotent(s: string)
    ensures ToLower(ToLower(s)) == ToLower(s)
  {
    var once := ToLower(s);
    forall k | 0 <= k < |s| ensures ToLower(once)[k] == once[k] {
      var c := s[k];
      assert 'A' <= c <= 'Z' ==> !('A' <= ToLowerChar(c) <= 'Z');
    }
  }

  /** A slug is its own slug: exporting under a slugged topic names the file the same. */
  lemma SlugIdempotent(topic: string)
    ensures Slug(Slug(topic)) == Slug(topic)
  {
    var d := DashSpaces(topic);
    var r := ToLower(d);
    DashSpacesKeepsWords(r);
    ToLowerIdempotent(d);
  }

  /** A topic of words separated by single spaces becomes its lower-cased words joined by
      dashes. */
  lemma SlugOfWords(words: seq<string>)
    requires forall i :: 0 <= i < |words| ==> IsWord(words[i])
    ensures Slug(Join(words, " ")) == ToLower(Join(words, "-"))
  {
    DashSpacesJoin(words);
  }

  /** The export names of a topic of words separated by single spaces: "meeting-", the
      lower-cased words joined by dashes, then the extension (or the time stamp and ".json"). */
  lemma ExportNamesOfWords(words: seq<string>, extension: string, now: nat)
    requires forall i :: 0 <= i < |words| ==> IsWord(words[i])
    ensures ExportName(Join(words, " "), extension) ==
              "meeting-" + ToLower(Join(words, "-")) + "." + extension
    ensures JsonExportName(Join(words, " "), now) ==
              "meeting-" + ToLower(Join(words, "-")) + "-" + NatToString(now) + ".json"
  {
    SlugOfWords(words);
  }

  /** No export name holds whitespace, whatever the topic, as long as the extension holds none. */
  lemma ExportNamesHaveNoWhitespace(topic: string, extension: string, now: nat)
    requires forall k :: 0 <= k < |extension| ==> !IsWhitespace(extension[k])
    ensures var name := ExportName(topic, extension);
            forall k :: 0 <= k < |name| ==> !IsWhitespace(name[k])
    ensures var name := JsonExportName(topic, now);
            forall k :: 0 <= k < |name| ==> !IsWhitespace(name[k])
  {
  }
}
