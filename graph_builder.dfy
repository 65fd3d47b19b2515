/**
 * The graph both registry-driven entry points build: a supervisor node, one
 * node per registered agent added in registry order, START to the supervisor,
 * the supervisor's conditional edge with one path per registered agent plus
 * the end, and an edge back from every agent.
 */
module GraphBuilder {
  import opened PyDict
  import opened SupervisorAgent
  import opened Workflow
  import opened Executor

  /** The supervisor's edge map `{**{name: name for name in names}, "__end__": END}`. */
  function SupervisorPaths(names: seq<string>): (paths: map<string, Target>)
    ensures paths.Keys == {End} + (set n | n in names)
    ensures paths[End] == ToEnd
    ensures forall n :: n in names && n != End ==> paths[n] == ToNode(n)
  {
    (map n | n in names :: ToNode(n))[End := ToEnd]
  }

  /** The graph the registry-driven builders compile, for a menu, the keys the
      supervisor's router returns, and the registered agent names. */
  predicate BuiltFrom(g: Graph, menu: seq<string>, routable: seq<string>, names: seq<string>) {
    && g.entry == {SupervisorName}
    && g.nodes.Keys == {SupervisorName} + (set n | n in names)
    && g.branches.Keys == g.nodes.Keys
    && g.nodes[SupervisorName] == SupervisorKind(menu)
    && g.branches[SupervisorName] == Branch(AfterSupervisor(routable), SupervisorPaths(names))
    && forall n :: n in names ==> g.nodes[n] == AgentKind(n) && g.branches[n] == AgentBranch
  }

  /** The loop `for agent_name in registry: add_node(agent_name, <agent node>)`. */
  method AddAgentNodes(workflow: StateGraph, names: seq<string>)
    requires Distinct(names)
    requires forall n :: n in names ==> n !in workflow.nodes && n != End
    modifies workflow
    ensures workflow.nodes.Keys == old(workflow.nodes).Keys + (set n | n in names)
    ensures forall n :: n in old(workflow.nodes) ==> workflow.nodes[n] == old(workflow.nodes)[n]
    ensures forall n :: n in names ==> workflow.nodes[n] == AgentKind(n)
    ensures workflow.entry == old(workflow.entry) && workflow.branches == old(workflow.branches)
  {
    ghost var before := workflow.nodes;
    var i := 0;
    while i < |names|
      invariant 0 <= i <= |names|
      invariant workflow.nodes.Keys == before.Keys + (set n | n in names[..i])
      invariant forall n :: n in before ==> workflow.nodes[n] == before[n]
      invariant forall k :: 0 <= k < i ==> workflow.nodes[names[k]] == AgentKind(names[k])
      invariant workflow.entry == old(workflow.entry) && workflow.branches == old(workflow.branches)
    {
      assert names[i] !in names[..i] by {
        forall k | 0 <= k < i ensures names[k] != names[i] { }
      }
      workflow.AddNode(names[i], AgentKind(names[i]));
      assert names[..i + 1] == names[..i] + [names[i]];
      i := i + 1;
    }
    assert names[..i] == names;
    forall n | n in names
      ensures workflow.nodes[n] == AgentKind(n)
    {
      var k :| 0 <= k < |names| && names[k] == n;
    }
  }

  /** The loop `for agent_name in registry: add_conditional_edges(agent_name, route_after_agent, ...)`. */
  method AddAgentEdges(workflow: StateGraph, names: seq<string>)
    modifies workflow
    ensures workflow.branches.Keys == old(workflow.branches).Keys + (set n | n in names)
    ensures forall n :: n in old(workflow.branches) && n !in names ==> workflow.branches[n] == old(workflow.branches)[n]
    ensures forall n :: n in names ==> workflow.branches[n] == AgentBranch
    ensures workflow.nodes == old(workflow.nodes) && workflow.entry == old(workflow.entry)
  {
    ghost var before := workflow.branches;
    var i := 0;
    while i < |names|
      invariant 0 <= i <= |names|
      invariant workflow.branches.Keys == before.Keys + (set n | n in names[..i])
      invariant forall n :: n in before && n !in names[..i] ==> workflow.branches[n] == before[n]
      invariant forall n :: n in names[..i] ==> workflow.branches[n] == AgentBranch
      invariant workflow.nodes == old(workflow.nodes) && workflow.entry == old(workflow.entry)
    {
      workflow.AddConditionalEdges(names[i], AfterAgent, AgentBranch.paths);
      assert names[..i + 1] == names[..i] + [names[i]];
      i := i + 1;
    }
    assert names[..i] == names;
  }

  /** Building and compiling the graph for a registry of agents. */
  method BuildSupervisorGraph(menu: seq<string>, routable: seq<string>, names: seq<string>) returns (g: Graph)
    requires Distinct(names) && SupervisorName !in names && End !in names
    ensures BuiltFrom(g, menu, routable, names)
  {
    var workflow := new StateGraph();
    workflow.AddNode(SupervisorName, SupervisorKind(menu));
    AddAgentNodes(workflow, names);
    workflow.AddStartEdge(SupervisorName);
    workflow.AddConditionalEdges(SupervisorName, AfterSupervisor(routable), SupervisorPaths(names));
    AddAgentEdges(workflow, names);
    BuiltCompiles(Graph(workflow.nodes, workflow.entry, workflow.branches), menu, routable, names);
    var compiled := workflow.Compile();
    g := compiled.value;
  }

  /** `compile()` accepts the built graph, whatever the router returns: its
      one START edge and every edge of its maps meet declared nodes. */
  lemma BuiltCompiles(g: Graph, menu: seq<string>, routable: seq<string>, names: seq<string>)
    requires BuiltFrom(g, menu, routable, names) && End !in names
    ensures Compilable(g)
  {
    forall n, k | n in g.branches && k in g.branches[n].paths && g.branches[n].paths[k].ToNode?
      ensures g.branches[n].paths[k].name in g.nodes
    {
      if n != SupervisorName {
        assert g.branches[n] == AgentBranch;
      } else {
        assert k != End && k in names;
      }
    }
  }

  /** The built graph is a supervisor graph exactly when every key the router
      can return names a registered agent. */
  lemma BuiltIsSupervisorGraph(g: Graph, menu: seq<string>, routable: seq<string>, names: seq<string>)
    requires BuiltFrom(g, menu, routable, names)
    requires SupervisorName !in names && End !in names && SupervisorName !in routable
    ensures IsSupervisorGraph(g, menu, routable) <==> forall r :: r in routable ==> r in names
  {
    if forall r :: r in routable ==> r in names {
      assert End in g.branches[SupervisorName].paths;
    }
  }

  /** The built graph is well formed exactly when every key the router can
      return has an edge. */
  lemma BuiltWellFormed(g: Graph, menu: seq<string>, routable: seq<string>, names: seq<string>)
    requires BuiltFrom(g, menu, routable, names)
    requires SupervisorName !in names && End !in names
    ensures WellFormed(g) <==> forall r :: r in routable ==> r in names || r == End
  {
    var paths := g.branches[SupervisorName].paths;
    if forall r :: r in routable ==> r in names || r == End {
      forall n | n in g.branches
        ensures RoutesCovered(g.branches[n])
      {
        if n != SupervisorName {
          assert g.branches[n] == AgentBranch;
        }
      }
      forall n, k | n in g.branches && k in g.branches[n].paths && g.branches[n].paths[k].ToNode?
        ensures g.branches[n].paths[k].name in g.nodes
      {
        if n != SupervisorName {
          assert g.branches[n] == AgentBranch;
        } else {
          assert k != End && k in names;
        }
      }
    } else {
      var r :| r in routable && r !in names && r != End;
      assert r !in paths;
      assert !RoutesCovered(g.branches[SupervisorName]);
    }
  }

  /** A reply the router sends to an agent that was never registered has no
      edge: the run stops there with an error instead of ending normally. */
  lemma UnregisteredAgentFails(g: Graph, menu: seq<string>, routable: seq<string>, names: seq<string>,
                               s: AgentState, env: Env, asked: nat, fuel: nat)
    requires BuiltFrom(g, menu, routable, names) && SetsNext(env)
    requires fuel > 0
    requires NamesAgent(env, menu, routable, asked) && Dispatch(env, menu, routable, asked) !in names
    ensures Run(g, SupervisorName, s, env, asked, fuel) == Invalid([SupervisorName], Dispatch(env, menu, routable, asked))
  {
    var t := Apply(s, env.supervise(env.replies(asked), menu));
    assert RouteBy(g.branches[SupervisorName].router, t) == Dispatch(env, menu, routable, asked);
  }

  /** With the shared supervisor, a reply that is on its menu but is not a key
      the router returns passes the supervisor unchanged and then ends the run;
      any routable reply runs its agent. */
  lemma OffRouteReplyEnds(replies: Replies, work: Agents, routable: seq<string>, j: nat)
    requires forall r :: r in routable ==> r in AgentsMenu
    requires "finish" !in routable
    requires replies(j) in AgentsMenu
    ensures Normalize(replies(j), AgentsMenu) == replies(j)
    ensures NamesAgent(Live(replies, work), AgentsMenu, routable, j) <==> replies(j) in routable
    ensures replies(j) in routable ==> Dispatch(Live(replies, work), AgentsMenu, routable, j) == replies(j)
  {
    LiveDispatch(replies, work, AgentsMenu, routable, j);
    TokenHasNoPadding(replies(j), AgentsMenu);
    AgentsMenuLowerCase();
  }
}
