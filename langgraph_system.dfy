/**
 * The class-based entry point: a registry of agents kept on the object, and a
 * graph built from it whose supervisor routes to the math and weather agents.
 */
module LanggraphSystem {
  import opened Wrappers
  import opened Text
  import opened SupervisorAgent
  import opened Workflow
  import opened Executor
  import opened GraphBuilder
  import PyDict

  const WeatherAgentName: string := "weather_agent"
  const MathAgentName: string := "math_agent"

  /** The keys the supervisor's routing lambda can return besides the end. */
  const Routable: seq<string> := [MathAgentName, WeatherAgentName]

  /** The agent classes the registry instantiates. */
  datatype AgentClass = WeatherAgentClass | MathAgentClass

  /** One registry entry: the agent object (known by its class) and its node. */
  datatype AgentEntry = AgentEntry(agent: AgentClass, node: NodeKind)

  lemma NamesDistinct()
    ensures WeatherAgentName != MathAgentName
    ensures SupervisorName != WeatherAgentName && SupervisorName != MathAgentName
    ensures End != WeatherAgentName && End != MathAgentName && SupervisorName !in Routable
  {
    assert WeatherAgentName[0] != MathAgentName[0] && WeatherAgentName[0] != SupervisorName[0];
    assert MathAgentName[0] != SupervisorName[0] && |End| != |WeatherAgentName| && |End| != |MathAgentName|;
  }

  class LanggraphMultiAgentSystem {
    var modelManager: string
    var memoryManager: Option<string>
    var agents: map<string, AgentEntry>
    /** The registry's keys in insertion order, the order `items()` yields them. */
    var order: seq<string>
    var graph: Option<Graph>

    /** Every registered name appears once in the order, and each entry's node
        runs the agent registered under that name. */
    predicate Valid()
      reads this
    {
      && PyDict.Distinct(order)
      && (set n | n in order) == agents.Keys
      && forall n :: n in agents ==> agents[n].node == AgentKind(n)
    }

    /** `_get_agent_node(func, agent_name)`: the node looks its agent up by name
        when it runs, so the class passed in plays no part. */
    function GetAgentNode(func: AgentClass, agentName: string): (node: NodeKind)
      ensures node.AgentKind? && node.agent == agentName
    {
      AgentKind(agentName)
    }

    /** Whatever class is passed in, running the node invokes the agent
        registered under `agentName` on the conversation so far, appends what it
        returns and hands back to the supervisor; in a valid registry every
        entry's node is such a node. */
    lemma AgentNodeRuns(func: AgentClass, agentName: string, s: AgentState, env: Env, asked: nat)
      ensures RunNode(GetAgentNode(func, agentName), s, env, asked)
              == (Apply(s, AgentUpdate(env.work(agentName, s.messages))), asked)
      ensures Valid() && agentName in agents ==>
                RunNode(agents[agentName].node, s, env, asked) == RunNode(GetAgentNode(func, agentName), s, env, asked)
    {
    }

    /** `__init__`: the weather agent, then the math agent, and no graph yet. */
    constructor(modelManager: string, memoryManager: Option<string>)
      ensures Valid()
      ensures this.modelManager == modelManager && this.memoryManager == memoryManager
      ensures order == [WeatherAgentName, MathAgentName]
      ensures agents == map[WeatherAgentName := AgentEntry(WeatherAgentClass, AgentKind(WeatherAgentName)),
                            MathAgentName := AgentEntry(MathAgentClass, AgentKind(MathAgentName))]
      ensures graph == None
    {
      this.modelManager := modelManager;
      this.memoryManager := memoryManager;
      graph := None;
      agents := map[];
      new;
      NamesDistinct();
      agents := map[WeatherAgentName := AgentEntry(WeatherAgentClass, GetAgentNode(WeatherAgentClass, WeatherAgentName)),
                    MathAgentName := AgentEntry(MathAgentClass, GetAgentNode(MathAgentClass, MathAgentName))];
      order := [WeatherAgentName, MathAgentName];
    }

    /** `create_supervisor_graph`: the supervisor, one node per registered agent in
        registry order, START to the supervisor, the supervisor's edge map over the
        registered names plus the end, an edge back from each agent, and the entry
        point set to the supervisor once more. The object is not changed. */
    method CreateSupervisorGraph() returns (g: Graph)
      requires Valid() && SupervisorName !in agents && End !in agents
      ensures BuiltFrom(g, AgentsMenu, Routable, order)
      ensures (forall r :: r in Routable ==> r in agents) ==> IsSupervisorGraph(g, AgentsMenu, Routable) && WellFormed(g)
    {
      var workflow := new StateGraph();
      workflow.AddNode(SupervisorName, SupervisorKind(AgentsMenu));
      AddAgentNodes(workflow, order);
      workflow.AddStartEdge(SupervisorName);
      workflow.AddConditionalEdges(SupervisorName, AfterSupervisor(Routable), SupervisorPaths(order));
      AddAgentEdges(workflow, order);
      workflow.AddStartEdge(SupervisorName);
      NamesDistinct();
      BuiltCompiles(Graph(workflow.nodes, workflow.entry, workflow.branches), AgentsMenu, Routable, order);
      var compiled := workflow.Compile();
      g := compiled.value;
      BuiltIsSupervisorGraph(g, AgentsMenu, Routable, order);
      BuiltWellFormed(g, AgentsMenu, Routable, order);
    }
  }

  /** The shared supervisor accepts "flight_search_agent", but this graph's router
      does not return it: a reply naming it ends the run. */
  lemma FlightSearchReplyEnds(replies: Replies, work: Agents, j: nat)
    requires replies(j) == "flight_search_agent"
    ensures Normalize(replies(j), AgentsMenu) == "flight_search_agent"
    ensures !NamesAgent(Live(replies, work), AgentsMenu, Routable, j)
  {
    OffRouteReplyEnds(replies, work, Routable, j);
  }
}
