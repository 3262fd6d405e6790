/**
 * The meeting-only variant of the orchestrator (backend/agents/orchestrator_meeting_only.py):
 * the same state and routing table, and a meeting agent that cuts the reply at the bold
 * agenda heading only, with no fallback and no placeholders.
 */
module MeetingOnlyOrchestrator {
  import opened Options
  import opened Text
  import opened Orchestrator

  /** This file's own copy of the routing table. */
  const MeetingOnlyRoutingMap: map<string, string> := map[
    "meeting" := "meeting_agent",
    "data_analysis" := "data_analyst_agent",
    "data_quality" := "quality_agent",
    "statistical" := "data_analyst_agent",
    "correlation" := "data_analyst_agent",
    "outliers" := "data_analyst_agent",
    "report" := "report_writer_agent",
    "chat" := "data_analyst_agent"
  ]

  /** `router_agent` of this variant: the same decisions as the main router, one message. */
  method MeetingOnlyRouterAgent(state: AgentState)
    modifies state
    ensures state.nextAgent == Route(state.taskType) && state.delegateTo == None
    ensures state.messages == old(state.messages) + [RoutingMessage(state.nextAgent, state.taskType)]
    ensures state.collaborationResults ==
              if old(state.collaborationResults).None? then Some(map[]) else old(state.collaborationResults)
    ensures state.taskType == old(state.taskType) && state.finalOutput == old(state.finalOutput)
  {
    var taskType := state.taskType;
    if state.collaborationResults.None? {
      state.collaborationResults := Some(map[]);
    }
    var nextAgent := if taskType in MeetingOnlyRoutingMap then MeetingOnlyRoutingMap[taskType] else DefaultAgent;
    assert MeetingOnlyRoutingMap == RoutingMap;
    state.nextAgent := nextAgent;
    state.delegateTo := None;
    state.messages := state.messages + [RoutingMessage(nextAgent, taskType)];
  }

  const NoAgenda := "See research above"

  /** The split of this variant: research is everything before the first bold agenda heading
      without the bold research heading; agenda is the text up to the next bold heading, or
      a pointer to the research when there is no heading. */
  function MarkerSplit(content: string): (s: MeetingSplit)
    ensures !Contains(content, AgendaMarker) ==>
              s.agenda == NoAgenda && s.research == Trim(ReplaceAll(content, ResearchMarker, ""))
    ensures Contains(content, AgendaMarker) ==> s == BoldSplit(content)
  {
    var research := Trim(ReplaceAll(PartBefore(content, AgendaMarker), ResearchMarker, ""));
    match PartAfter(content, AgendaMarker)
    case Some(after) => MeetingSplit(research, Trim(after))
    case None => MeetingSplit(research, NoAgenda)
  }

  /** The output stored: the two parts, or the same error text twice. */
  function MeetingOnlyOutput(reply: LlmReply): (out: Output)
    ensures out.Keys == {"agenda", "research"}
    ensures reply.Failure? ==> out["agenda"] == out["research"] == "Error: " + reply.error
  {
    match reply
    case Reply(content) =>
      var s := MarkerSplit(content);
      map["agenda" := s.agenda, "research" := s.research]
    case Failure(e) =>
      map["agenda" := "Error: " + e, "research" := "Error: " + e]
  }

  /** `meeting_agent` of this variant: stores the output and ends the run on both paths. */
  method MeetingOnlyAgent(state: AgentState, reply: LlmReply)
    modifies state
    ensures state.finalOutput == Some(MeetingOnlyOutput(reply)) && state.nextAgent == "end"
    ensures state.messages == old(state.messages) && state.taskType == old(state.taskType)
    ensures state.delegateTo == old(state.delegateTo)
    ensures state.collaborationResults == old(state.collaborationResults)
  {
    match reply {
      case Reply(content) =>
        var s := MarkerSplit(content);
        state.finalOutput := Some(map["agenda" := s.agenda, "research" := s.research]);
      case Failure(e) =>
        state.finalOutput := Some(map["agenda" := "Error: " + e, "research" := "Error: " + e]);
    }
    state.nextAgent := "end";
  }

  /** Where both agents find the bold heading they cut the reply identically; the main agent
      then only swaps in its placeholders for short parts. */
  lemma {:induction false} AgreesWithMainSplit(content: string)
    requires Contains(content, AgendaMarker)
    requires |MarkerSplit(content).agenda| >= 50 && |MarkerSplit(content).research| >= 50
    ensures MeetingOnlyOutput(Reply(content)) == MeetingOutput(Reply(content))
  {
    assert MarkerSplit(content) == SplitContent(content);
    KeptWhenLong(content);
  }

  /** The prompted format "**RESEARCH:** r **AGENDA:** a", with the agenda heading only once,
      yields exactly the stripped `r` and `a`. */
  lemma {:induction false} MeetingOnlyRoundTrip(r: string, a: string)
    requires !Contains(r, ResearchMarker)
    requires forall k :: OccursAt(ResearchMarker + r + AgendaMarker + a, AgendaMarker, k) ==>
                           k == |ResearchMarker| + |r|
    ensures MeetingOnlyOutput(Reply(ResearchMarker + r + AgendaMarker + a)) ==
              map["agenda" := Trim(a), "research" := Trim(r)]
  {
    BoldSplitOfPromptFormat(r, a);
  }
}
