/**
 * The LangGraph orchestrator (backend/agents/orchestrator.py): the state the agents share and
 * update in place, the router, the meeting agent's split of the model's reply into research
 * and agenda, the column list the data analyst writes, and the report writer's delegation.
 * The model's replies are inputs; the pandas statistics of the analyst are not modelled.
 */
module Orchestrator {
  import opened Options
  import opened Text

  /** A finished agent's output dictionary. */
  type Output = map<string, string>

  /** The shared state dictionary; the fields the modelled agents read or write. */
  class AgentState {
    var messages: seq<string>
    var taskType: string
    var nextAgent: string
    var delegateTo: Option<string>
    /** `None` while the key is absent from the dictionary. */
    var collaborationResults: Option<map<string, Output>>
    var finalOutput: Option<Output>

    /** The state a request starts from: a task type, no messages, no results yet. */
    constructor (taskType: string)
      ensures this.taskType == taskType && messages == [] && nextAgent == ""
      ensures delegateTo == None && collaborationResults == None && finalOutput == None
    {
      this.taskType := taskType;
      messages := [];
      nextAgent := "";
      delegateTo := None;
      collaborationResults := None;
      finalOutput := None;
    }
  }

  // ---------------------------------------------------------------- router

  const RoutingMap: map<string, string> := map[
    "meeting" := "meeting_agent",
    "data_analysis" := "data_analyst_agent",
    "data_quality" := "quality_agent",
    "statistical" := "data_analyst_agent",
    "correlation" := "data_analyst_agent",
    "outliers" := "data_analyst_agent",
    "report" := "report_writer_agent",
    "chat" := "data_analyst_agent"
  ]

  const DefaultAgent := "data_analyst_agent"

  /** `routing_map.get(task_type, "data_analyst_agent")`: meetings go to the meeting agent,
      quality checks to the quality agent, reports to the report writer, and every other task
      type, known or not, to the data analyst. */
  function Route(taskType: string): (agent: string)
    ensures agent == "meeting_agent" <==> taskType == "meeting"
    ensures agent == "quality_agent" <==> taskType == "data_quality"
    ensures agent == "report_writer_agent" <==> taskType == "report"
    ensures agent == DefaultAgent <==> taskType != "meeting" && taskType != "data_quality" && taskType != "report"
  {
    if taskType in RoutingMap then RoutingMap[taskType] else DefaultAgent
  }

  /** The system message the router appends. */
  function RoutingMessage(agent: string, taskType: string): string {
    "\U{1F3AF} Routing to " + agent + " for " + taskType
  }

  /** `router_agent`: creates the collaboration results when absent, picks the next agent,
      clears any delegation and appends one routing message. */
  method RouterAgent(state: AgentState)
    modifies state
    ensures state.nextAgent == Route(state.taskType) && state.delegateTo == None
    ensures state.messages == old(state.messages) + [RoutingMessage(state.nextAgent, state.taskType)]
    ensures state.collaborationResults ==
              if old(state.collaborationResults).None? then Some(map[]) else old(state.collaborationResults)
    ensures state.taskType == old(state.taskType) && state.finalOutput == old(state.finalOutput)
  {
    var taskType := state.taskType;
    if state.collaborationResults.None? {
      state.collaborationResults := Some(map[]);
    }
    var nextAgent := if taskType in RoutingMap then RoutingMap[taskType] else DefaultAgent;
    state.nextAgent := nextAgent;
    state.delegateTo := None;
    state.messages := state.messages + [RoutingMessage(nextAgent, taskType)];
  }

  // ---------------------------------------------------------------- meeting agent

  const AgendaMarker := "**AGENDA:**"
  const ResearchMarker := "**RESEARCH:**"
  const PlainAgendaMarker := "AGENDA:"
  const PlainResearchMarker := "RESEARCH:"

  /** The model's reply to the meeting prompt, or the exception the call raised. */
  datatype LlmReply = Reply(content: string) | Failure(error: string)

  /** The two texts the meeting agent cuts the reply into. */
  datatype MeetingSplit = MeetingSplit(research: string, agenda: string)

  /** A line the fallback takes for the first agenda line. */
  predicate HasTimeMarker(line: string) {
    Contains(line, "09:00") || Contains(line, "10:00") || Contains(line, "11:00")
  }

  /** Where the fallback's `found_agenda` flag turns on: the first line with a time marker,
      or past the end. */
  function AgendaStart(lines: seq<string>): (k: nat)
    ensures k <= |lines|
    ensures forall i :: 0 <= i < k ==> !HasTimeMarker(lines[i])
    ensures k < |lines| ==> HasTimeMarker(lines[k])
  {
    if |lines| == 0 || HasTimeMarker(lines[0]) then 0 else 1 + AgendaStart(lines[1..])
  }

  /** The fallback loop: lines before the first time marker go to research, that line and
      all after it to agenda. */
  method FallbackSplit(lines: seq<string>) returns (researchLines: seq<string>, agendaLines: seq<string>)
    ensures researchLines + agendaLines == lines
    ensures researchLines == lines[..AgendaStart(lines)]
    ensures forall i :: 0 <= i < |researchLines| ==> !HasTimeMarker(researchLines[i])
    ensures |agendaLines| > 0 ==> HasTimeMarker(agendaLines[0])
  {
    ghost var k := AgendaStart(lines);
    researchLines, agendaLines := [], [];
    var foundAgenda := false;
    for i := 0 to |lines|
      invariant foundAgenda <==> k < i
      invariant !foundAgenda ==> i <= k && researchLines == lines[..i] && agendaLines == []
      invariant foundAgenda ==> researchLines == lines[..k] && agendaLines == lines[k..i]
    {
      if !foundAgenda && HasTimeMarker(lines[i]) {
        foundAgenda := true;
      }
      if foundAgenda {
        agendaLines := agendaLines + [lines[i]];
      } else {
        researchLines := researchLines + [lines[i]];
      }
    }
    assert lines == lines[..k] + lines[k..];
  }

  /** The research text of the fallback: the lines before the agenda, joined, without either
      research heading. */
  function FallbackResearch(lines: seq<string>): string {
    Trim(ReplaceAll(ReplaceAll(Join(lines, "\n"), ResearchMarker, ""), PlainResearchMarker, ""))
  }

  /** The first case: cut at the bold agenda heading; the research loses its bold heading. */
  function BoldSplit(content: string): MeetingSplit
    requires Contains(content, AgendaMarker)
  {
    MeetingSplit(Trim(ReplaceAll(PartBefore(content, AgendaMarker), ResearchMarker, "")),
                 Trim(PartAfter(content, AgendaMarker).value))
  }

  /** The second case: cut at the plain agenda heading; the research loses the plain research
      heading, then the bold one. */
  function PlainSplit(content: string): MeetingSplit
    requires Contains(content, PlainAgendaMarker)
  {
    MeetingSplit(Trim(ReplaceAll(ReplaceAll(PartBefore(content, PlainAgendaMarker), PlainResearchMarker, ""),
                                 ResearchMarker, "")),
                 Trim(PartAfter(content, PlainAgendaMarker).value))
  }

  /** The last case: cut the lines at the first time marker. */
  function TimeSplit(content: string): MeetingSplit {
    var lines := Lines(content);
    var k := AgendaStart(lines);
    MeetingSplit(FallbackResearch(lines[..k]), Trim(Join(lines[k..], "\n")))
  }

  /** The three-way split of `meeting_agent`: on the bold agenda heading, else on the plain
      headings, else on the first line with a time marker. Both parts come out stripped. */
  function SplitContent(content: string): (s: MeetingSplit)
    ensures IsTrimmed(s.research) && IsTrimmed(s.agenda)
  {
    if Contains(content, AgendaMarker) then BoldSplit(content)
    else if Contains(content, PlainAgendaMarker) && Contains(content, PlainResearchMarker) then PlainSplit(content)
    else TimeSplit(content)
  }

  const AgendaPlaceholder := "Meeting agenda not properly generated. Please try again."
  const ResearchPlaceholder := "Research not properly generated. Please try again."

  /** A part shorter than 50 characters is replaced by its placeholder. */
  function OrPlaceholder(text: string, placeholder: string): string {
    if |text| < 50 then placeholder else text
  }

  /** The `final_output` the meeting agent stores: on a reply both parts, each at least 50
      characters long; on a failure the two error texts. */
  function MeetingOutput(reply: LlmReply): (out: Output)
    ensures out.Keys == {"agenda", "research"}
    ensures reply.Reply? ==> |out["agenda"]| >= 50 && |out["research"]| >= 50
    ensures reply.Failure? ==>
              && out["agenda"] == "Error generating agenda: " + reply.error
              && out["research"] == "Error generating research: " + reply.error
  {
    match reply
    case Reply(content) =>
      var s := SplitContent(content);
      map["agenda" := OrPlaceholder(s.agenda, AgendaPlaceholder),
          "research" := OrPlaceholder(s.research, ResearchPlaceholder)]
    case Failure(e) =>
      map["agenda" := "Error generating agenda: " + e, "research" := "Error generating research: " + e]
  }

  /** The three-way split as `meeting_agent` runs it, the last case by the line loop. */
  method SplitReply(content: string) returns (split: MeetingSplit)
    ensures split == SplitContent(content)
    ensures IsTrimmed(split.research) && IsTrimmed(split.agenda)
  {
    if Contains(content, AgendaMarker) {
      split := BoldSplit(content);
    } else if Contains(content, PlainAgendaMarker) && Contains(content, PlainResearchMarker) {
      split := PlainSplit(content);
    } else {
      var researchLines, agendaLines := FallbackSplit(Lines(content));
      split := MeetingSplit(FallbackResearch(researchLines), Trim(Join(agendaLines, "\n")));
    }
  }

  /** `meeting_agent`: stores the output and ends the run, on both paths. */
  method MeetingAgent(state: AgentState, reply: LlmReply)
    modifies state
    ensures state.finalOutput == Some(MeetingOutput(reply)) && state.nextAgent == "end"
    ensures state.messages == old(state.messages) && state.taskType == old(state.taskType)
    ensures state.delegateTo == old(state.delegateTo)
    ensures state.collaborationResults == old(state.collaborationResults)
  {
    match reply {
      case Reply(content) =>
        var split := SplitReply(content);
        var agenda, research := split.agenda, split.research;
        if |agenda| < 50 {
          agenda := AgendaPlaceholder;
        }
        if |research| < 50 {
          research := ResearchPlaceholder;
        }
        state.finalOutput := Some(map["agenda" := agenda, "research" := research]);
      case Failure(e) =>
        state.finalOutput := Some(map["agenda" := "Error generating agenda: " + e,
                                      "research" := "Error generating research: " + e]);
    }
    state.nextAgent := "end";
  }

  /** With the bold agenda heading first at `i` and next at `j` (or absent after `i`), the
      agenda is the stripped text between the two and the research the text before `i`
      without the research heading. */
  lemma AgendaBetweenMarkers(content: string, i: nat, j: nat)
    requires OccursAt(content, AgendaMarker, i)
    requires forall k :: 0 <= k < i ==> !OccursAt(content, AgendaMarker, k)
    requires i + |AgendaMarker| <= j <= |content|
    requires j == |content| || OccursAt(content, AgendaMarker, j)
    requires forall k :: i + |AgendaMarker| <= k < j ==> !OccursAt(content, AgendaMarker, k)
    ensures SplitContent(content) ==
              MeetingSplit(Trim(ReplaceAll(content[..i], ResearchMarker, "")),
                           Trim(content[i + |AgendaMarker|..j]))
  {
    ContainsAt(content, AgendaMarker, i);
    BoldPartsAt(content, i, j);
  }

  /** The two parts of the bold split, located by the heading's first two occurrences. */
  lemma BoldPartsAt(content: string, i: nat, j: nat)
    requires OccursAt(content, AgendaMarker, i)
    requires forall k :: 0 <= k < i ==> !OccursAt(content, AgendaMarker, k)
    requires i + |AgendaMarker| <= j <= |content|
    requires j == |content| || OccursAt(content, AgendaMarker, j)
    requires forall k :: i + |AgendaMarker| <= k < j ==> !OccursAt(content, AgendaMarker, k)
    ensures Contains(content, AgendaMarker)
    ensures PartBefore(content, AgendaMarker) == content[..i]
    ensures PartAfter(content, AgendaMarker) == Some(content[i + |AgendaMarker|..j])
  {
    ContainsAt(content, AgendaMarker, i);
    var first := IndexOf(content, AgendaMarker).value;
    if first < i {
      assert false;
    } else if first > i {
      assert false;
    }
    var start := i + |AgendaMarker|;
    var a := PartAfter(content, AgendaMarker).value;
    if start + |a| < j {
      assert false;
    } else if start + |a| > j {
      assert false;
    }
  }

  /** Long enough parts are stored as split. */
  lemma KeptWhenLong(content: string)
    requires |SplitContent(content).agenda| >= 50 && |SplitContent(content).research| >= 50
    ensures MeetingOutput(Reply(content)) ==
              map["agenda" := SplitContent(content).agenda, "research" := SplitContent(content).research]
  {
  }

  /** The bold split of "**RESEARCH:** r **AGENDA:** a" with the agenda heading only once. */
  lemma BoldSplitOfPromptFormat(r: string, a: string)
    requires !Contains(r, ResearchMarker)
    requires forall k :: OccursAt(ResearchMarker + r + AgendaMarker + a, AgendaMarker, k) ==>
                           k == |ResearchMarker| + |r|
    ensures Contains(ResearchMarker + r + AgendaMarker + a, AgendaMarker)
    ensures BoldSplit(ResearchMarker + r + AgendaMarker + a) == MeetingSplit(Trim(r), Trim(a))
  {
    var before := ResearchMarker + r;
    PartAfterSingle(before, AgendaMarker, a);
    ContainsAt(before + AgendaMarker + a, AgendaMarker, |before|);
    assert before[..|ResearchMarker|] == ResearchMarker;
    assert OccursAt(before, ResearchMarker, 0);
    assert IndexOf(before, ResearchMarker) == Some(0);
    assert before[|ResearchMarker|..] == r;
    assert ReplaceAll(before, ResearchMarker, "") == r;
  }

  /** The reply in the prompted format "**RESEARCH:** r **AGENDA:** a", with the agenda heading
      only once and long enough parts, yields exactly the stripped `r` and `a`. */
  lemma PromptFormatRoundTrip(r: string, a: string)
    requires !Contains(r, ResearchMarker)
    requires forall k :: OccursAt(ResearchMarker + r + AgendaMarker + a, AgendaMarker, k) ==>
                           k == |ResearchMarker| + |r|
    requires |Trim(r)| >= 50 && |Trim(a)| >= 50
    ensures MeetingOutput(Reply(ResearchMarker + r + AgendaMarker + a)) ==
              map["agenda" := Trim(a), "research" := Trim(r)]
  {
    var content := ResearchMarker + r + AgendaMarker + a;
    BoldSplitOfPromptFormat(r, a);
    assert SplitContent(content) == MeetingSplit(Trim(r), Trim(a));
    KeptWhenLong(content);
  }

  /** The plain agenda heading is part of the bold one. */
  lemma BoldHasPlain(s: string)
    requires Contains(s, AgendaMarker)
    ensures Contains(s, PlainAgendaMarker)
  {
    var i := IndexOf(s, AgendaMarker).value;
    var w := s[i..i + 11];
    assert w == AgendaMarker;
    assert AgendaMarker[2..9] == PlainAgendaMarker;
    SliceOfSlice(s, i, i + 11, 2, 9);
    ContainsAt(s, PlainAgendaMarker, i + 2);
  }

  /** Lines without line breaks, joined, are cut at the first line with a time marker. */
  lemma TimeSplitOfLines(before: seq<string>, after: seq<string>)
    requires forall k :: 0 <= k < |before + after| ==> '\n' !in (before + after)[k]
    requires |before + after| > 0
    requires forall k :: 0 <= k < |before| ==> !HasTimeMarker(before[k])
    requires |after| > 0 ==> HasTimeMarker(after[0])
    ensures TimeSplit(Join(before + after, "\n")) == MeetingSplit(FallbackResearch(before), Trim(Join(after, "\n")))
  {
    var lines := before + after;
    SplitJoin(lines, '\n');
    assert Lines(Join(lines, "\n")) == lines;
    assert forall i :: 0 <= i < |before| ==> lines[i] == before[i];
    assert |before| < |lines| ==> lines[|before|] == after[0];
    AgendaStartIs(lines, |before|);
    assert lines[..|before|] == before && lines[|before|..] == after;
  }

  /** The first line with a time marker is where the agenda starts. */
  lemma AgendaStartIs(lines: seq<string>, n: nat)
    requires n <= |lines|
    requires forall i :: 0 <= i < n ==> !HasTimeMarker(lines[i])
    requires n < |lines| ==> HasTimeMarker(lines[n])
    ensures AgendaStart(lines) == n
  {
    var k := AgendaStart(lines);
    if k < n {
      assert false;
    } else if n < k {
      assert false;
    }
  }

  /** A reply without any agenda heading is cut at its first line with a time marker: the
      lines before it make the research and the rest, that line first, the agenda. */
  lemma FallbackRoundTrip(before: seq<string>, after: seq<string>)
    requires forall k :: 0 <= k < |before + after| ==> '\n' !in (before + after)[k]
    requires |before + after| > 0
    requires forall k :: 0 <= k < |before| ==> !HasTimeMarker(before[k])
    requires |after| > 0 ==> HasTimeMarker(after[0])
    requires !Contains(Join(before + after, "\n"), PlainAgendaMarker)
    ensures SplitContent(Join(before + after, "\n")) ==
              MeetingSplit(FallbackResearch(before), Trim(Join(after, "\n")))
  {
    var content := Join(before + after, "\n");
    if Contains(content, AgendaMarker) {
      BoldHasPlain(content);
    }
    TimeSplitOfLines(before, after);
  }

  // ---------------------------------------------------------------- data analyst: column list

  /** The type the column list gives a column. */
  function ColumnType(col: string, numeric: seq<string>): (t: string)
    ensures t == "numeric" <==> col in numeric
    ensures t == "text" <==> col !in numeric
  {
    if col in numeric then "numeric" else "text"
  }

  /** One line of the "all columns" list. */
  function ColumnLine(col: string, numeric: seq<string>): string {
    "  - " + col + " (" + ColumnType(col, numeric) + ")"
  }

  /** The loop building `all_cols_list`: one line per frame column, in frame order. */
  method AllColumnsList(columns: seq<string>, numeric: seq<string>) returns (lines: seq<string>)
    ensures |lines| == |columns|
    ensures forall i :: 0 <= i < |columns| ==> lines[i] == ColumnLine(columns[i], numeric)
  {
    lines := [];
    for i := 0 to |columns|
      invariant |lines| == i
      invariant forall k :: 0 <= k < i ==> lines[k] == ColumnLine(columns[k], numeric)
    {
      lines := lines + [ColumnLine(columns[i], numeric)];
    }
  }

  // ---------------------------------------------------------------- report writer

  /** `collab.get("data_analysis")` is truthy: present and not an empty dictionary. */
  predicate HasAnalysis(collab: Option<map<string, Output>>) {
    collab.Some? && "data_analysis" in collab.value && |collab.value["data_analysis"]| > 0
  }

  /** `report_writer_agent`: without an analysis to report on it delegates to the data analyst
      and leaves the output alone; with one it stores the model's report and ends the run. */
  method ReportWriterAgent(state: AgentState, reply: string)
    modifies state
    ensures !HasAnalysis(old(state.collaborationResults)) ==>
              && state.delegateTo == Some(DefaultAgent)
              && state.finalOutput == old(state.finalOutput)
              && state.nextAgent == old(state.nextAgent)
    ensures HasAnalysis(old(state.collaborationResults)) ==>
              && state.finalOutput == Some(map["report" := reply])
              && state.nextAgent == "end"
              && state.delegateTo == old(state.delegateTo)
    ensures state.messages == old(state.messages) && state.taskType == old(state.taskType)
    ensures state.collaborationResults == old(state.collaborationResults)
  {
    if !HasAnalysis(state.collaborationResults) {
      state.delegateTo := Some(DefaultAgent);
      return;
    }
    state.finalOutput := Some(map["report" := reply]);
    state.nextAgent := "end";
  }
}
