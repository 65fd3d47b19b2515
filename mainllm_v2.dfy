/**
 * The second entry point: the graph is built from the agent configuration
 * (math, weather and flight search), and the supervisor is the shared one whose
 * menu also offers a conversation agent.
 */
module MainLlmV2 {
  import opened Text
  import opened SupervisorAgent
  import opened Workflow
  import opened Executor
  import opened GraphBuilder
  import PyDict

  /** The keys of the agent configuration, in order. */
  const AgentConfigKeys: seq<string> := ["math_agent", "weather_agent", "flight_search_agent"]

  /** The keys `route_after_supervisor` can return besides the end. */
  const Routable: seq<string> := ["math_agent", "weather_agent", "flight_search_agent"]

  lemma ConfigKeysValid()
    ensures PyDict.Distinct(AgentConfigKeys)
    ensures SupervisorName !in AgentConfigKeys && End !in AgentConfigKeys
    ensures SupervisorName !in Routable
  {
    assert |SupervisorName| == 10 && |End| == 7;
  }

  /** `create_supervisor_graph`: the supervisor, one node per configured agent,
      START to the supervisor, the supervisor's edge map over the configuration
      keys plus the end, and an edge back from each agent. */
  method CreateSupervisorGraph() returns (g: Graph)
    ensures BuiltFrom(g, AgentsMenu, Routable, AgentConfigKeys)
    ensures IsSupervisorGraph(g, AgentsMenu, Routable) && WellFormed(g)
  {
    ConfigKeysValid();
    g := BuildSupervisorGraph(AgentsMenu, Routable, AgentConfigKeys);
    BuiltIsSupervisorGraph(g, AgentsMenu, Routable, AgentConfigKeys);
    BuiltWellFormed(g, AgentsMenu, Routable, AgentConfigKeys);
  }

  /** The supervisor accepts "conversation_agent", but no such agent is configured
      and the router does not return it: a reply naming it ends the run. */
  lemma ConversationReplyEnds(replies: Replies, work: Agents, j: nat)
    requires replies(j) == "conversation_agent"
    ensures Normalize(replies(j), AgentsMenu) == "conversation_agent"
    ensures !NamesAgent(Live(replies, work), AgentsMenu, Routable, j)
  {
    OffRouteReplyEnds(replies, work, Routable, j);
  }

  /** A reply naming the flight-search agent runs it. */
  lemma FlightSearchReply(replies: Replies, work: Agents, j: nat)
    requires replies(j) == "flight_search_agent"
    ensures Dispatch(Live(replies, work), AgentsMenu, Routable, j) == "flight_search_agent"
  {
    OffRouteReplyEnds(replies, work, Routable, j);
  }
}
