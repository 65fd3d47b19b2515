/**
 * The first entry point: a supervisor that routes between a math agent and a
 * weather agent. A flight-search agent node is defined beside them but never
 * added to the graph.
 */
module MainLlm {
  import opened Wrappers
  import opened Text
  import opened SupervisorAgent
  import opened Workflow
  import opened Executor
  import opened GraphBuilder

  const MathAgent: string := "math_agent"
  const WeatherAgent: string := "weather_agent"
  const FlightSearchAgent: string := "flight_search_agent"

  /** The keys `route_after_supervisor` can return besides the end. */
  const Routable: seq<string> := [MathAgent, WeatherAgent]

  /** The edge map of the supervisor: each agent key to its node, the end key to END. */
  const RoutePaths: map<string, Target> :=
    map[MathAgent := ToNode(MathAgent), WeatherAgent := ToNode(WeatherAgent), End := ToEnd]

  /** The node and key names are pairwise distinct. */
  lemma NamesDistinct()
    ensures MathAgent != SupervisorName && WeatherAgent != SupervisorName && MathAgent != WeatherAgent
    ensures MathAgent != End && WeatherAgent != End && SupervisorName != End
  {
    assert MathAgent[0] != SupervisorName[0] && MathAgent[0] != WeatherAgent[0] && MathAgent[0] != End[0];
    assert |WeatherAgent| != |SupervisorName| && |WeatherAgent| != |End| && |SupervisorName| != |End|;
  }

  /** The graph `create_supervisor_graph` compiles. */
  const SupervisorGraph: Graph :=
    Graph(map[SupervisorName := SupervisorKind(MainLlmMenu), MathAgent := AgentKind(MathAgent), WeatherAgent := AgentKind(WeatherAgent)],
          {SupervisorName},
          map[SupervisorName := Branch(AfterSupervisor(Routable), RoutePaths), MathAgent := AgentBranch, WeatherAgent := AgentBranch])

  /** It is the graph the registry-driven builders produce for the two agents. */
  lemma SupervisorGraphBuilt()
    ensures BuiltFrom(SupervisorGraph, MainLlmMenu, Routable, Routable)
  {
    NamesDistinct();
    var g := SupervisorGraph;
    assert g.branches[SupervisorName].paths == SupervisorPaths(Routable);
  }

  /** That graph is a supervisor graph over the menu, and well formed. */
  lemma SupervisorGraphShape()
    ensures IsSupervisorGraph(SupervisorGraph, MainLlmMenu, Routable)
    ensures WellFormed(SupervisorGraph)
  {
    NamesDistinct();
    SupervisorGraphBuilt();
    BuiltIsSupervisorGraph(SupervisorGraph, MainLlmMenu, Routable, Routable);
    BuiltWellFormed(SupervisorGraph, MainLlmMenu, Routable, Routable);
  }

  /** `create_supervisor_graph`: three nodes, START to the supervisor, the
      supervisor's conditional edge and one conditional edge back from each agent. */
  method CreateSupervisorGraph() returns (g: Graph)
    ensures g == SupervisorGraph
    ensures IsSupervisorGraph(g, MainLlmMenu, Routable) && WellFormed(g)
    ensures g.entry == {SupervisorName} && g.nodes.Keys == {SupervisorName, MathAgent, WeatherAgent}
  {
    NamesDistinct();
    var workflow := new StateGraph();
    workflow.AddNode(SupervisorName, SupervisorKind(MainLlmMenu));
    workflow.AddNode(MathAgent, AgentKind(MathAgent));
    workflow.AddNode(WeatherAgent, AgentKind(WeatherAgent));
    workflow.AddStartEdge(SupervisorName);
    workflow.AddConditionalEdges(SupervisorName, AfterSupervisor(Routable), RoutePaths);
    workflow.AddConditionalEdges(MathAgent, AfterAgent, AgentBranch.paths);
    workflow.AddConditionalEdges(WeatherAgent, AfterAgent, AgentBranch.paths);
    SupervisorGraphBuilt();
    BuiltCompiles(SupervisorGraph, MainLlmMenu, Routable, Routable);
    assert Graph(workflow.nodes, workflow.entry, workflow.branches) == SupervisorGraph;
    var compiled := workflow.Compile();
    g := compiled.value;
    SupervisorGraphShape();
  }

  /** Every routable key is on the supervisor's menu, and "finish" is not routable. */
  lemma RoutableOnMenu()
    ensures forall r :: r in Routable ==> r in MainLlmMenu
    ensures "finish" !in Routable
  {
  }

  /** With the live supervisor, a reply that is an agent name up to case and
      surrounding whitespace runs that agent; any other reply ends the run. */
  lemma ReplyDecides(replies: Replies, work: Agents, j: nat)
    ensures var c := Lower(Strip(replies(j)));
            Dispatch(Live(replies, work), MainLlmMenu, Routable, j) == if c in Routable then c else End
  {
    RoutableOnMenu();
    LiveDispatch(replies, work, MainLlmMenu, Routable, j);
  }

  /** The flight-search agent is not part of this graph: naming it ends the run. */
  lemma FlightSearchUnreachable(g: Graph, replies: Replies, work: Agents, j: nat)
    requires g == SupervisorGraph
    requires replies(j) == FlightSearchAgent
    ensures FlightSearchAgent !in g.nodes
    ensures !NamesAgent(Live(replies, work), MainLlmMenu, Routable, j)
  {
    ReplyDecides(replies, work, j);
    TokenHasNoPadding(FlightSearchAgent, AgentsMenu);
    AgentsMenuLowerCase();
    assert FlightSearchAgent in AgentsMenu;
  }

  /** The reply "math_agent" sends the run to the math agent. */
  lemma MathReply(replies: Replies, work: Agents, j: nat)
    requires replies(j) == MathAgent
    ensures Dispatch(Live(replies, work), MainLlmMenu, Routable, j) == MathAgent
  {
    ReplyDecides(replies, work, j);
    TokenHasNoPadding(MathAgent, MainLlmMenu);
    AgentsMenuLowerCase();
    assert MathAgent in MainLlmMenu;
  }

  /** The reply "FINISH" ends the run. */
  lemma FinishReply(replies: Replies, work: Agents, j: nat)
    requires replies(j) == Fallback
    ensures !NamesAgent(Live(replies, work), MainLlmMenu, Routable, j)
  {
    ReplyDecides(replies, work, j);
    StripUnpadded(Fallback);
    MissingNextIsFinish();
  }

  /** A query the supervisor sends to the math agent and then finishes: the
      supervisor, the math agent and the supervisor run, and the conversation is
      the query followed by what the math agent added. */
  lemma MathThenFinish(g: Graph, query: string, env: Env)
    requires IsSupervisorGraph(g, MainLlmMenu, Routable) && SetsNext(env)
    requires Dispatch(env, MainLlmMenu, Routable, 0) == MathAgent
    requires !NamesAgent(env, MainLlmMenu, Routable, 1)
    ensures var r := Run(g, SupervisorName, InitialState(query), env, 0, RecursionLimit);
            && r == Completed([SupervisorName, MathAgent, SupervisorName], r.final)
            && r.final.messages == [Message(Human, query)] + env.work(MathAgent, [Message(Human, query)])
  {
    var s := InitialState(query);
    RunRound(g, MainLlmMenu, Routable, s, env, 0, RecursionLimit);
    var t := Apply(s, env.supervise(env.replies(0), MainLlmMenu));
    var u := AfterRound(s, env, MainLlmMenu, 0, MathAgent);
    AgentReturnsToSupervisor(t, env.work(MathAgent, t.messages));
    SupervisorRound(g, MainLlmMenu, Routable, u, env, 1);
  }
}
