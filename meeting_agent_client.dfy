/**
 * The meeting screen that shows a fresh result of the meeting agent
 * (components/meeting-agent/meeting-agent-client.tsx): its agenda parser, which knows a
 * time-first and a title-first heading and both bulleted and numbered points, and its
 * research parser.
 */
module MeetingAgentClient {
  import opened Options
  import opened Text
  import opened JsValues
  import opened Search
  import opened MeetingText

  // ---------------------------------------------------------------- the title-first heading

  /** `\((\d+)\s*min\)` matches at `q`. */
  predicate DurationFound(s: string, q: nat) {
    DurationAt(s, q).Some?
  }

  /** `.*?\((\d+)\s*min\)` from `b`: the first place on the line where the duration matches. */
  function DurationFrom(s: string, b: nat): (q: Option<nat>)
    requires b <= |s|
    ensures q.Some? ==> b <= q.value && DurationAt(s, q.value).Some?
  {
    FirstIn(s, b, LineEnd(s, b), DurationFound)
  }

  /** The minutes that `.*?\((\d+)\s*min\)` from `b` captures. */
  function MinutesFrom(s: string, b: nat): (m: Option<string>)
    requires b <= |s|
    ensures m.Some? ==> |m.value| > 0 && AllDigits(m.value)
  {
    var q := DurationFrom(s, b);
    if q.None? then None
    else
      var d := DurationAt(s, q.value).value.0;
      DigitsSlice(s, q.value + 1, d - q.value - 1);
      Some(s[q.value + 1..d])
  }

  /** `(\d{1,2}:\d{2})-(\d{1,2}:\d{2}).*?\((\d+)\s*min\)` matches at `p`. */
  predicate TailAt(s: string, p: nat) {
    RangeAt(s, p).Some? && DurationFrom(s, RangeAt(s, p).value.1).Some?
  }

  /** `.*?` followed by the times and the duration, from `j`: where the times start. */
  function TailFrom(s: string, j: nat): (p: Option<nat>)
    requires j <= |s|
    ensures p.Some? ==> j <= p.value && TailAt(s, p.value)
  {
    FirstIn(s, j, LineEnd(s, j), TailAt)
  }

  /** The start time, end time and minutes that the rest of the expression captures from `j`. */
  function TailGroups(s: string, j: nat): (g: Option<(string, string, string)>)
    requires j <= |s|
    ensures g.Some? ==> IsClock(g.value.0) && IsClock(g.value.1)
    ensures g.Some? ==> |g.value.2| > 0 && AllDigits(g.value.2)
  {
    var p := TailFrom(s, j);
    if p.None? then None
    else
      var range := RangeAt(s, p.value).value;
      var minutes := MinutesFrom(s, range.1);
      if minutes.None? then None
      else Some((s[p.value..range.0], s[range.0 + 1..range.1], minutes.value))
  }

  /** The title may close at `e`: bold text there, and the rest of the expression after it. */
  predicate TitleCloseAt(s: string, e: nat) {
    BoldAt(s, e) && TailFrom(s, e + 2).Some?
  }

  /** `\*\*(.+?)\*\*` at `i` followed by the rest: where the lazy title ends, which is the
      first closing bold text on the line after which the rest matches. */
  function TitleClose(s: string, i: nat): (e: Option<nat>)
    requires i + 2 <= |s|
    ensures e.Some? ==> i + 3 <= e.value && TitleCloseAt(s, e.value)
    ensures e.Some? ==> NoLineTerminator(s[i + 2..e.value])
  {
    var e := FirstIn(s, i + 3, LineEnd(s, i + 2), TitleCloseAt);
    if e.Some? then
      LineEndSlice(s, i + 2, e.value);
      e
    else None
  }

  /** `\*\*(.+?)\*\*.*?(\d{1,2}:\d{2})-(\d{1,2}:\d{2}).*?\((\d+)\s*min\)` tried at `i`. */
  function TitleFirstAt(s: string, i: nat): (h: Option<Heading>)
    ensures h.Some? ==> IsClock(h.value.start) && IsClock(h.value.end)
    ensures h.Some? ==> |h.value.minutes| > 0 && AllDigits(h.value.minutes)
    ensures h.Some? ==> |h.value.title| > 0 && NoLineTerminator(h.value.title)
  {
    if BoldAt(s, i) then
      var e := TitleClose(s, i);
      if e.None? then None
      else
        var g := TailGroups(s, e.value + 2);
        if g.None? then None
        else Some(Heading(g.value.0, g.value.1, g.value.2, s[i + 2..e.value]))
    else None
  }

  /** `line.match(...)` with the title-first expression: the groups of the leftmost match. */
  function TitleFirstMatch(s: string): Option<Heading> {
    match FirstAt(s, 0, TitleFirstAt)
    case Some(k) => TitleFirstAt(s, k)
    case None => None
  }

  // ---------------------------------------------------------------- reading back a title-first heading

  /** No clock time starts at a character that is not a digit. */
  lemma NoRangeAt(s: string, k: nat)
    requires k < |s| && !IsDigit(s[k])
    ensures RangeAt(s, k).None?
  {
  }

  /** " (N min)" at `b` is the first duration from `b`. */
  lemma DurationFromOf(s: string, b: nat, minutes: string)
    requires |minutes| > 0 && AllDigits(minutes)
    requires var d := b + 2 + |minutes|;
             d + 5 <= |s| && s[b] == ' ' && s[b + 1] == '(' && s[b + 2..d] == minutes &&
             s[d] == ' ' && OccursAt(s, MinText, d + 1)
    ensures DurationFrom(s, b) == Some(b + 1)
    ensures DurationAt(s, b + 1) == Some((b + 2 + |minutes|, b + 7 + |minutes|))
  {
    DurationAtOf(s, b + 1, minutes);
    BeforeLineEnd(s, b, b + 1);
    FirstInIs(s, b, LineEnd(s, b), DurationFound, b + 1);
  }

  /** " (N min)" at `b` gives back the minutes. */
  lemma MinutesFromOf(s: string, b: nat, minutes: string)
    requires |minutes| > 0 && AllDigits(minutes)
    requires var d := b + 2 + |minutes|;
             d + 5 <= |s| && s[b] == ' ' && s[b + 1] == '(' && s[b + 2..d] == minutes &&
             s[d] == ' ' && OccursAt(s, MinText, d + 1)
    ensures DurationFrom(s, b).Some? && MinutesFrom(s, b) == Some(minutes)
  {
    DurationFromOf(s, b, minutes);
  }

  /** Clock times at `p`, after characters that are neither digits nor line breaks, are the
      first place from `j` where the rest matches. */
  lemma TailFromOf(s: string, j: nat, p: nat)
    requires j <= p < |s| && IsDigit(s[p]) && TailAt(s, p)
    requires forall k :: j <= k < p ==> !IsDigit(s[k]) && !IsLineTerminator(s[k])
    ensures TailFrom(s, j) == Some(p)
  {
    BeforeLineEnd(s, j, p);
    forall m | j <= m < p ensures !TailAt(s, m) {
      NoRangeAt(s, m);
    }
    FirstInIs(s, j, LineEnd(s, j), TailAt, p);
  }

  /** The times and "(N min)" laid out from `p` are the first place the rest matches after
      the characters from `j`, and give back the three groups. */
  lemma TailGroupsOf(s: string, j: nat, p: nat, start: string, end: string, minutes: string)
    requires IsClock(start) && IsClock(end) && |minutes| > 0 && AllDigits(minutes)
    requires j <= p && p + |start| + |end| + |minutes| + 8 <= |s|
    requires forall k :: j <= k < p ==> !IsDigit(s[k]) && !IsLineTerminator(s[k])
    requires var a := p + |start|;
             var b := a + 1 + |end|;
             var d := b + 2 + |minutes|;
             s[p..a] == start && s[a] == '-' && s[a + 1..b] == end && s[b] == ' ' &&
             s[b + 1] == '(' && s[b + 2..d] == minutes && s[d] == ' ' && OccursAt(s, MinText, d + 1)
    ensures TailFrom(s, j) == Some(p)
    ensures TailGroups(s, j) == Some((start, end, minutes))
  {
    var a := p + |start|;
    var b := a + 1 + |end|;
    RangeAtOf(s, p, start, end);
    MinutesFromOf(s, b, minutes);
    assert IsDigit(s[p]) by {
      assert s[p] == start[0];
    }
    TailFromOf(s, j, p);
  }

  /** "**title**" from 0, followed by a rest that matches from `e + 2`, closes at `e`. */
  lemma TitleCloseOf(s: string, title: string)
    requires |title| > 0 && NoLineTerminator(title) && '*' !in title
    requires |title| + 4 <= |s| && s[2..2 + |title|] == title && BoldAt(s, 2 + |title|)
    requires TailFrom(s, 4 + |title|).Some?
    ensures TitleClose(s, 0) == Some(2 + |title|)
  {
    var e := 2 + |title|;
    assert s[e] == '*' by {
      assert s[e..e + 2] == BoldText;
    }
    assert forall k :: 2 <= k < e ==> !IsLineTerminator(s[k]) by {
      forall k | 2 <= k < e ensures !IsLineTerminator(s[k]) {
        assert s[k] == s[2..e][k - 2];
      }
    }
    BeforeLineEnd(s, 2, e);
    forall m | 3 <= m < e ensures !TitleCloseAt(s, m) {
      assert s[m] == s[2..e][m - 2] && s[m] != '*';
      assert m + 2 <= |s| ==> s[m..m + 2][0] == s[m];
      assert BoldText[0] == '*';
    }
    FirstInIs(s, 3, LineEnd(s, 2), TitleCloseAt, e);
  }

  /** The title-first heading "**Title** - HH:MM-HH:MM (N min)" as the prompt shows it. */
  function TitleFirstLine(title: string, start: string, end: string, minutes: string): string {
    BoldText + title + TitleCloseText + TimesText(start, end, minutes)
  }

  const TitleCloseText := "** - "

  /** The times and the duration that end a title-first heading. */
  function TimesText(start: string, end: string, minutes: string): string {
    start + "-" + end + " (" + minutes + " min)"
  }

  /** Where each part of the times and duration sits. */
  lemma TimesLayout(start: string, end: string, minutes: string)
    ensures var r := TimesText(start, end, minutes);
            var a := |start|;
            var b := a + 1 + |end|;
            var d := b + 2 + |minutes|;
            |r| == d + 5 && r[..a] == start && r[a] == '-' && r[a + 1..b] == end && r[b] == ' ' &&
            r[b + 1] == '(' && r[b + 2..d] == minutes && r[d] == ' ' && r[d + 1..d + 5] == MinText
  {
    var r := TimesText(start, end, minutes);
    var b := |start| + 1 + |end|;
    var tail := " (" + minutes + " min)";
    assert r == start + "-" + end + tail;
    assert r[b..] == tail;
    assert tail[3 + |minutes|..] == MinText;
  }

  /** A slice of a suffix is a slice of the whole, shifted. */
  lemma SliceShift(s: string, r: string, o: nat, x: nat, y: nat)
    requires o <= |s| && s[o..] == r && x <= y <= |r|
    ensures s[o + x..o + y] == r[x..y]
  {
    assert s[o + x..o + y] == s[o..][x..y];
  }

  /** Where each part of a title-first heading sits. */
  lemma TitleFirstLayout(title: string, start: string, end: string, minutes: string)
    ensures var s := TitleFirstLine(title, start, end, minutes);
            var e := 2 + |title|;
            var p := e + 5;
            var a := p + |start|;
            var b := a + 1 + |end|;
            var d := b + 2 + |minutes|;
            |s| == d + 5 && BoldAt(s, 0) && s[2..e] == title && BoldAt(s, e) &&
            s[e + 2] == ' ' && s[e + 3] == '-' && s[e + 4] == ' ' &&
            s[p..a] == start && s[a] == '-' && s[a + 1..b] == end && s[b] == ' ' &&
            s[b + 1] == '(' && s[b + 2..d] == minutes && s[d] == ' ' && OccursAt(s, MinText, d + 1)
  {
    TitleFirstHead(title, start, end, minutes);
    ShiftedTimes(TitleFirstLine(title, start, end, minutes), 2 + |title| + 5, start, end, minutes);
  }

  /** The bold title and the text closing it, then the times. */
  lemma TitleFirstHead(title: string, start: string, end: string, minutes: string)
    ensures var s := TitleFirstLine(title, start, end, minutes);
            var e := 2 + |title|;
            var p := e + 5;
            p <= |s| && BoldAt(s, 0) && s[2..e] == title && BoldAt(s, e) &&
            s[e + 2] == ' ' && s[e + 3] == '-' && s[e + 4] == ' ' && s[p..] == TimesText(start, end, minutes)
  {
    var s := TitleFirstLine(title, start, end, minutes);
    var r := TimesText(start, end, minutes);
    var e := 2 + |title|;
    var p := e + 5;
    assert s[..2] == BoldText && s[2..e] == title && s[e..p] == TitleCloseText && s[p..] == r by {
      assert s == BoldText + title + TitleCloseText + r;
    }
    assert s[e..e + 2] == TitleCloseText[..2];
  }

  /** The times text laid out from position `p` of a line. */
  lemma ShiftedTimes(s: string, p: nat, start: string, end: string, minutes: string)
    requires p <= |s| && s[p..] == TimesText(start, end, minutes)
    ensures var a := p + |start|;
            var b := a + 1 + |end|;
            var d := b + 2 + |minutes|;
            |s| == d + 5 && s[p..a] == start && s[a] == '-' && s[a + 1..b] == end && s[b] == ' ' &&
            s[b + 1] == '(' && s[b + 2..d] == minutes && s[d] == ' ' && OccursAt(s, MinText, d + 1)
  {
    var r := TimesText(start, end, minutes);
    TimesLayout(start, end, minutes);
    var a := |start|;
    var b := a + 1 + |end|;
    var d := b + 2 + |minutes|;
    assert s[p + a] == r[a] && s[p + b] == r[b] && s[p + b + 1] == r[b + 1] && s[p + d] == r[d];
    SliceShift(s, r, p, 0, a);
    SliceShift(s, r, p, a + 1, b);
    SliceShift(s, r, p, b + 2, d);
    SliceShift(s, r, p, d + 1, d + 5);
  }

  /** The groups at 0 are the title up to where it closes and the groups of the rest. */
  lemma TitleFirstAtOf(s: string, e: nat, h: Heading)
    requires 2 <= e <= |s| && BoldAt(s, 0) && TitleClose(s, 0) == Some(e) && s[2..e] == h.title
    requires TailGroups(s, e + 2) == Some((h.start, h.end, h.minutes))
    ensures TitleFirstAt(s, 0) == Some(h)
  {
  }

  /** A line laid out as a title-first heading is matched from its first character. */
  lemma TitleFirstOfLayout(s: string, title: string, start: string, end: string, minutes: string)
    requires IsClock(start) && IsClock(end) && |minutes| > 0 && AllDigits(minutes)
    requires |title| > 0 && NoLineTerminator(title) && '*' !in title
    requires var e := 2 + |title|;
             var p := e + 5;
             var a := p + |start|;
             var b := a + 1 + |end|;
             var d := b + 2 + |minutes|;
             |s| == d + 5 && BoldAt(s, 0) && s[2..e] == title && BoldAt(s, e) &&
             s[e + 2] == ' ' && s[e + 3] == '-' && s[e + 4] == ' ' &&
             s[p..a] == start && s[a] == '-' && s[a + 1..b] == end && s[b] == ' ' &&
             s[b + 1] == '(' && s[b + 2..d] == minutes && s[d] == ' ' && OccursAt(s, MinText, d + 1)
    ensures TitleFirstMatch(s) == Some(Heading(start, end, minutes, title))
  {
    var e := 2 + |title|;
    assert TailFrom(s, e + 2).Some? && TailGroups(s, e + 2) == Some((start, end, minutes)) by {
      assert s[e + 2] == ' ' && s[e + 3] == '-' && s[e + 4] == ' ';
      TailGroupsOf(s, e + 2, e + 5, start, end, minutes);
    }
    assert TitleClose(s, 0) == Some(e) by {
      TitleCloseOf(s, title);
    }
    TitleFirstAtOf(s, e, Heading(start, end, minutes, title));
    FirstAtIs(s, 0, TitleFirstAt);
  }

  /** The title-first heading is read back into its parts. */
  lemma TitleFirstRoundTrip(title: string, start: string, end: string, minutes: string)
    requires IsClock(start) && IsClock(end) && |minutes| > 0 && AllDigits(minutes)
    requires |title| > 0 && NoLineTerminator(title) && '*' !in title
    ensures TitleFirstMatch(TitleFirstLine(title, start, end, minutes)) == Some(Heading(start, end, minutes, title))
  {
    TitleFirstLayout(title, start, end, minutes);
    TitleFirstOfLayout(TitleFirstLine(title, start, end, minutes), title, start, end, minutes);
  }

  // ---------------------------------------------------------------- discussion points

  /** `^\d+\.\s+`: where the number, its dot and the whitespace after them end. The digits
      take their whole run, as a dot is not a digit. */
  function NumberEnd(t: string): (r: Option<nat>)
    ensures r.Some? ==> 3 <= r.value <= |t| && IsDigit(t[0])
    ensures r.Some? ==> r.value == |t| || !IsWhitespace(t[r.value])
  {
    var d := DigitRun(t, 0);
    if d > 0 && d < |t| && t[d] == '.' && SpaceEnd(t, d + 1) > d + 1 then Some(SpaceEnd(t, d + 1))
    else None
  }

  /** `t.replace(/^\d+\.\s+/, "")`. */
  function StripNumber(t: string): (r: string)
    ensures NumberEnd(t).Some? ==> r == t[NumberEnd(t).value..]
    ensures NumberEnd(t).None? ==> r == t
  {
    match NumberEnd(t)
    case Some(k) => t[k..]
    case None => t
  }

  /** A trimmed line that opens with a bullet or a number. */
  predicate IsPointLine(t: string) {
    BulletEnd(t).Some? || NumberEnd(t).Some?
  }

  /** The point a bullet or numbered line holds: the bullet removed, then a number, then the
      text trimmed. */
  function AgendaPoint(t: string): (p: string)
    ensures IsTrimmed(p) && |p| <= |t|
  {
    Trim(StripNumber(StripBullet(t)))
  }

  /** A point is kept when its `length`, in UTF-16 code units, is above three. */
  const MinPointLength := 3

  // ---------------------------------------------------------------- the agenda

  /** One line as this screen reads it, after trimming: a time-first heading, else a
      title-first heading, else a long enough bullet or numbered point. */
  function ClassifyLine(line: string): (c: AgendaLine)
    ensures c.ItemPoint? ==> Utf16Length(c.text) > MinPointLength && IsTrimmed(c.text)
  {
    var t := Trim(line);
    var timeFirst := TimeFirstMatch(t);
    if timeFirst.Some? then ItemHeading(timeFirst.value)
    else
      var titleFirst := TitleFirstMatch(t);
      if titleFirst.Some? then ItemHeading(titleFirst.value)
      else PointOrOther(t)
  }

  /** A trimmed line that is no heading: a point when it opens with a bullet or a number and
      holds more than three UTF-16 code units after them. */
  function PointOrOther(t: string): (c: AgendaLine)
    ensures c.ItemPoint? ==> Utf16Length(c.text) > MinPointLength && IsTrimmed(c.text)
  {
    if IsPointLine(t) && Utf16Length(AgendaPoint(t)) > MinPointLength then ItemPoint(AgendaPoint(t)) else Other
  }

  /** Every line classified, in order. */
  function ClassifyLines(lines: seq<string>): (cs: seq<AgendaLine>)
    ensures |cs| == |lines|
  {
    if |lines| == 0 then [] else ClassifyLines(lines[..|lines| - 1]) + [ClassifyLine(lines[|lines| - 1])]
  }

  /** Classifying one more line appends its classification. */
  lemma ClassifyLinesSnoc(lines: seq<string>, i: nat)
    requires i < |lines|
    ensures ClassifyLines(lines[..i + 1]) == ClassifyLines(lines[..i]) + [ClassifyLine(lines[i])]
  {
    assert lines[..i + 1][..i] == lines[..i];
  }

  /** The cards `parseAgendaItems` returns: none for a missing or empty text. */
  function AgendaOf(agendaText: Option<string>): seq<AgendaItem> {
    if agendaText.None? || agendaText.value == "" then []
    else Agenda(ClassifyLines(Lines(agendaText.value)))
  }

  /** The body of the loop of `parseAgendaItems` on one line: the cards pushed so far and
      the card under construction, updated. */
  method ReadAgendaLine(items: seq<AgendaItem>, currentItem: Option<AgendaItem>, rawLine: string)
    returns (items': seq<AgendaItem>, currentItem': Option<AgendaItem>)
    ensures AgendaState(items', currentItem') ==
              AgendaStep(AgendaState(items, currentItem), ClassifyLine(rawLine))
  {
    items', currentItem' := items, currentItem;
    match ClassifyLine(rawLine) {
      case ItemHeading(h) =>
        if currentItem'.Some? {
          items' := items' + [currentItem'.value];
        }
        currentItem' := Some(ItemOf(h));
      case ItemPoint(point) =>
        if currentItem'.Some? {
          currentItem' := Some(currentItem'.value.(points := currentItem'.value.points + [point]));
        }
      case Other =>
    }
  }

  /** A line without a colon holds neither heading, as both need clock times. */
  lemma NoColonNoTitleFirst(s: string)
    requires ':' !in s
    ensures TitleFirstMatch(s).None?
  {
    forall i: nat ensures TitleFirstAt(s, i).None? {
      if BoldAt(s, i) && TitleClose(s, i).Some? {
        var e := TitleClose(s, i).value;
        NoColonNoRange(s, TailFrom(s, e + 2).value);
      }
    }
  }

  /** A point written "- text", with text that is no heading and does not open with a
      digit, is kept whole when it is longer than three UTF-16 code units. */
  lemma BulletPointRead(p: string)
    requires IsTrimmed(p) && Utf16Length(p) > MinPointLength && ':' !in p && !IsDigit(p[0])
    ensures ClassifyLine("- " + p) == ItemPoint(p)
  {
    var t := "- " + p;
    assert IsTrimmed(t) by {
      assert t[|t| - 1] == p[|p| - 1];
    }
    assert ':' !in t by {
      assert forall k :: 2 <= k < |t| ==> t[k] == p[k - 2];
    }
    NoColonNoHeading(t);
    NoColonNoTitleFirst(t);
    StripBulletOf(p);
    assert StripNumber(p) == p by {
      assert DigitRun(p, 0) == 0;
    }
    assert AgendaPoint(t) == p;
    assert PointOrOther(t) == ItemPoint(p);
    assert Trim(t) == t;
  }

  /** "N. text" opens with a number and no bullet, and loses exactly "N. ". */
  lemma NumberPrefixOf(num: string, p: string)
    requires |num| > 0 && AllDigits(num) && IsTrimmed(p) && |p| > 0 && ':' !in p
    ensures var t := num + ". " + p;
            BulletEnd(t).None? && NumberEnd(t) == Some(|num| + 2) && StripNumber(t) == p
  {
    var t := num + ". " + p;
    var d := |num|;
    assert t[..d] == num && t[d] == '.' && t[d + 1] == ' ' && t[d + 2..] == p;
    assert BulletEnd(t).None? by {
      assert t[0] == num[0];
    }
    assert DigitRun(t, 0) == d by {
      assert forall k :: 0 <= k < d ==> t[k] == num[k];
    }
    assert SpaceEnd(t, d + 2) == d + 2 by {
      assert t[d + 2] == p[0];
    }
  }

  /** "N. text" is trimmed and holds a colon only where the text does. */
  lemma NumberedLineShape(num: string, p: string)
    requires |num| > 0 && AllDigits(num) && IsTrimmed(p) && |p| > 0 && ':' !in p
    ensures IsTrimmed(num + ". " + p) && ':' !in num + ". " + p
  {
    var t := num + ". " + p;
    var d := |num|;
    assert t[0] == num[0] && t[|t| - 1] == p[|p| - 1];
    assert forall k :: 0 <= k < d ==> t[k] == num[k];
    assert forall k :: d + 2 <= k < |t| ==> t[k] == p[k - d - 2];
  }

  /** A point written "N. text" loses its number, under the same conditions. */
  lemma NumberedPointRead(n: nat, p: string)
    requires IsTrimmed(p) && Utf16Length(p) > MinPointLength && ':' !in p && !IsDigit(p[0])
    ensures ClassifyLine(NatToString(n) + ". " + p) == ItemPoint(p)
  {
    var num := NatToString(n);
    var t := num + ". " + p;
    NumberPrefixOf(num, p);
    NumberedLineShape(num, p);
    NoColonNoHeading(t);
    NoColonNoTitleFirst(t);
    assert StripNumber(p) == p by {
      assert DigitRun(p, 0) == 0;
    }
    assert AgendaPoint(t) == p;
    assert PointOrOther(t) == ItemPoint(p);
    assert Trim(t) == t;
  }

  /** Two characters beyond the Basic Multilingual Plane make a point of length 4: "- 😀😀"
      is kept, though it holds only two characters. */
  lemma AstralPointKept()
    ensures ClassifyLine("- \U{1F600}\U{1F600}") == ItemPoint("\U{1F600}\U{1F600}")
  {
    var c := '\U{1F600}';
    var p := [c, c];
    assert IsAstral(c);
    assert Utf16Length(p) == 4 by {
      assert p[..1] == [c];
      assert [c][..0] == [];
    }
    assert IsTrimmed(p) && ':' !in p && !IsDigit(p[0]);
    BulletPointRead(p);
    assert "- " + p == "- \U{1F600}\U{1F600}";
  }

  /** A time-first heading as the meeting agent writes it opens a card. */
  lemma TimeFirstHeadingRead(start: string, end: string, minutes: string, title: string)
    requires IsClock(start) && IsClock(end) && |minutes| > 0 && AllDigits(minutes)
    requires |title| > 0 && NoLineTerminator(title) && '*' !in title
    ensures ClassifyLine(HeadingLine(start, end, minutes, title)) == ItemHeading(Heading(start, end, minutes, title))
  {
    var s := HeadingLine(start, end, minutes, title);
    HeadingLineLayout(start, end, minutes, title);
    assert IsTrimmed(s) by {
      assert s[0] == start[0] && IsDigit(start[0]);
      assert s[|s| - 1] == '*' by {
        assert s[|s| - 2..] == BoldText;
      }
    }
    assert Trim(s) == s;
    HeadingLineRoundTrip(start, end, minutes, title);
  }

  /** In a title-first heading whose title has no closing parenthesis, the only one is the
      last character. */
  lemma TitleFirstParens(title: string, start: string, end: string, minutes: string)
    requires IsClock(start) && IsClock(end) && AllDigits(minutes) && ')' !in title
    ensures var s := TitleFirstLine(title, start, end, minutes);
            forall k :: 0 <= k < |s| - 1 ==> s[k] != ')'
  {
    var s := TitleFirstLine(title, start, end, minutes);
    var front := BoldText + title + TitleCloseText + start + "-" + end + " (" + minutes + " min";
    assert s == front + ")";
    assert ')' !in start && ')' !in end && ')' !in minutes by {
      assert forall k :: 0 <= k < |start| ==> IsDigit(start[k]) || start[k] == ':';
      assert forall k :: 0 <= k < |end| ==> IsDigit(end[k]) || end[k] == ':';
    }
    assert ')' !in front;
    forall k | 0 <= k < |s| - 1 ensures s[k] != ')' {
      assert s[k] == front[k];
    }
  }

  /** The title-first heading opens a card of its own, when its title has no closing
      parenthesis (otherwise the time-first expression, tried first, could match inside). */
  lemma TitleFirstHeadingRead(title: string, start: string, end: string, minutes: string)
    requires IsClock(start) && IsClock(end) && |minutes| > 0 && AllDigits(minutes)
    requires |title| > 0 && NoLineTerminator(title) && '*' !in title && ')' !in title
    ensures ClassifyLine(TitleFirstLine(title, start, end, minutes)) == ItemHeading(Heading(start, end, minutes, title))
  {
    var s := TitleFirstLine(title, start, end, minutes);
    TitleFirstLayout(title, start, end, minutes);
    assert IsTrimmed(s) by {
      assert s[0] == '*' by {
        assert s[..2] == BoldText;
      }
      assert s[|s| - 1] == ')' by {
        assert s[|s| - 4..] == MinText;
      }
    }
    assert Trim(s) == s;
    TitleFirstParens(title, start, end, minutes);
    ParenLastNoHeading(s);
    TitleFirstRoundTrip(title, start, end, minutes);
  }

  /** `parseAgendaItems`: the loop over the lines with the card under construction, and the
      last card pushed after it. */
  method ParseAgendaItems(agendaText: Option<string>) returns (items: seq<AgendaItem>)
    ensures items == AgendaOf(agendaText)
  {
    if agendaText.None? || agendaText.value == "" {
      return [];
    }
    var lines := Lines(agendaText.value);
    items := [];
    var currentItem: Option<AgendaItem> := None;
    for i := 0 to |lines|
      invariant AgendaState(items, currentItem) == AgendaScan(ClassifyLines(lines[..i]))
    {
      ClassifyLinesSnoc(lines, i);
      AgendaScanSnoc(ClassifyLines(lines[..i]), ClassifyLine(lines[i]));
      items, currentItem := ReadAgendaLine(items, currentItem, lines[i]);
    }
    if currentItem.Some? {
      items := items + [currentItem.value];
    }
    assert lines[..|lines|] == lines;
  }

  /** A point this screen keeps whole when written after a bullet. */
  predicate PlainPoint(p: string) {
    IsTrimmed(p) && Utf16Length(p) > MinPointLength && ':' !in p && !IsDigit(p[0]) && '\n' !in p
  }

  /** Lines classified one by one as `cs` are classified as `cs` together. */
  lemma {:induction false} ClassifyLinesAre(lines: seq<string>, cs: seq<AgendaLine>)
    requires |cs| == |lines|
    requires forall i {:trigger ClassifyLine(lines[i])} :: 0 <= i < |lines| ==> ClassifyLine(lines[i]) == cs[i]
    ensures ClassifyLines(lines) == cs
  {
    if |lines| > 0 {
      var n := |lines| - 1;
      ClassifyLinesAre(lines[..n], cs[..n]);
      FrontAndLast(cs);
    }
  }

  /** Each line of a heading and bulleted points is read as what it was written as. */
  lemma CardClassified(start: string, end: string, minutes: string, title: string, points: seq<string>)
    requires IsClock(start) && IsClock(end) && |minutes| > 0 && AllDigits(minutes)
    requires |title| > 0 && NoLineTerminator(title) && '*' !in title
    requires forall i :: 0 <= i < |points| ==> PlainPoint(points[i])
    ensures ClassifyLines([HeadingLine(start, end, minutes, title)] + BulletLines(points)) ==
              [ItemHeading(Heading(start, end, minutes, title))] +
              seq(|points|, i requires 0 <= i < |points| => ItemPoint(points[i]))
  {
    var lines := [HeadingLine(start, end, minutes, title)] + BulletLines(points);
    var cs := [ItemHeading(Heading(start, end, minutes, title))] +
              seq(|points|, i requires 0 <= i < |points| => ItemPoint(points[i]));
    forall i | 0 <= i < |lines| ensures ClassifyLine(lines[i]) == cs[i] {
      if i == 0 {
        assert lines[i] == HeadingLine(start, end, minutes, title);
        assert cs[i] == ItemHeading(Heading(start, end, minutes, title));
        TimeFirstHeadingRead(start, end, minutes, title);
      } else {
        assert lines[i] == "- " + points[i - 1];
        assert cs[i] == ItemPoint(points[i - 1]);
        BulletPointRead(points[i - 1]);
      }
    }
    ClassifyLinesAre(lines, cs);
  }

  /** An agenda written as a time-first heading and bulleted points is read back as one
      card holding those points. */
  lemma CardRoundTrip(start: string, end: string, minutes: string, title: string, points: seq<string>)
    requires IsClock(start) && IsClock(end) && |minutes| > 0 && AllDigits(minutes)
    requires |title| > 0 && NoLineTerminator(title) && '*' !in title
    requires forall i :: 0 <= i < |points| ==> PlainPoint(points[i])
    ensures AgendaOf(Some(Join([HeadingLine(start, end, minutes, title)] + BulletLines(points), "\n"))) ==
              [AgendaItem(start + "-" + end, minutes + " min", Trim(title), points)]
  {
    var lines := [HeadingLine(start, end, minutes, title)] + BulletLines(points);
    var body := seq(|points|, i requires 0 <= i < |points| => ItemPoint(points[i]));
    CardLines(start, end, minutes, title, points);
    CardClassified(start, end, minutes, title, points);
    SingleItem(Heading(start, end, minutes, title), body);
    ItemPointsOfPoints(points);
  }

  /** `parseResearchSections`: the four empty sections for a missing or empty text. */
  method ParseResearchSections(researchText: Option<string>) returns (sections: Sections)
    ensures researchText.None? || researchText.value == "" ==> sections == EmptySections
    ensures researchText.Some? && researchText.value != "" ==> sections == Research(researchText.value)
  {
    if researchText.None? || researchText.value == "" {
      return EmptySections;
    }
    sections := ResearchSections(researchText.value);
  }
}
