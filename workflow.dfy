/**
 * The pieces every variant of the supervisor graph is built from: the shared
 * state (a message list plus the `next` field), the updates nodes return, the two
 * routing functions read after a node runs, and the graph builder the variants
 * fill in step by step before compiling it.
 */
module Workflow {
  import opened Wrappers
  import opened Text

  /** Name of the supervisor node, and the value agents write into `next`. */
  const SupervisorName: string := "supervisor"
  /** The routing key for the end of the graph. */
  const End: string := "__end__"
  /** What the routes read when `next` is missing: `state.get("next", "FINISH")`. */
  const MissingNext: string := "FINISH"

  datatype Role = Human | Ai | Tool
  datatype Message = Message(role: Role, content: string)

  /** The graph's state: the conversation and the routing field `next`
      (absent until the supervisor first runs). */
  datatype AgentState = AgentState(messages: seq<Message>, next: Option<string>)

  /** The dictionary a node returns: the keys it sets, each optional. */
  datatype Update = Update(messages: Option<seq<Message>>, next: Option<string>)

  function InitialState(query: string): AgentState {
    AgentState([Message(Human, query)], None)
  }

  /** Merging a node's update into the state: new messages are appended, a new
      `next` replaces the old one, keys the node leaves out keep their value. */
  function Apply(s: AgentState, u: Update): (t: AgentState)
    ensures s.messages <= t.messages
    ensures u.messages.Some? ==> t.messages == s.messages + u.messages.value
    ensures u.messages.None? ==> t.messages == s.messages
    ensures u.next.Some? ==> t.next == u.next
    ensures u.next.None? ==> t.next == s.next
  {
    AgentState(
      if u.messages.Some? then s.messages + u.messages.value else s.messages,
      if u.next.Some? then u.next else s.next)
  }

  /** Every agent node returns its agent's messages and `next = "supervisor"`. */
  function AgentUpdate(result: seq<Message>): Update {
    Update(Some(result), Some(SupervisorName))
  }

  /** The conditional route read after the supervisor: the lower-cased `next` if
      it names a routable agent, the end of the graph otherwise. */
  function RouteAfterSupervisor(next: Option<string>, routable: seq<string>): (key: string)
    ensures key in routable || key == End
  {
    var n := Lower(next.GetOr(MissingNext));
    if n in routable then n else End
  }

  /** The conditional route read after an agent: back to the supervisor if `next`
      says so, the end of the graph otherwise. */
  function RouteAfterAgent(next: Option<string>): (key: string)
    ensures key == SupervisorName || key == End
  {
    if Lower(next.GetOr(MissingNext)) == SupervisorName then SupervisorName else End
  }

  lemma SupervisorIsLowerCase()
    ensures Lower(SupervisorName) == SupervisorName
  {
  }

  lemma MissingNextIsFinish()
    ensures Lower(MissingNext) == "finish"
  {
  }

  /** A missing `next` ends the run from the supervisor (if "finish" is not
      routable) and from every agent. */
  lemma MissingNextEnds(routable: seq<string>)
    requires "finish" !in routable
    ensures RouteAfterSupervisor(None, routable) == End
    ensures RouteAfterAgent(None) == End
  {
    MissingNextIsFinish();
  }

  /** Whatever an agent returned, the state after it routes back to the supervisor. */
  lemma AgentReturnsToSupervisor(s: AgentState, result: seq<Message>)
    ensures Apply(s, AgentUpdate(result)).messages == s.messages + result
    ensures RouteAfterAgent(Apply(s, AgentUpdate(result)).next) == SupervisorName
  {
    SupervisorIsLowerCase();
  }

  /** Where a routing key leads. */
  datatype Target = ToNode(name: string) | ToEnd

  /** What a node does when it runs. `AgentKind(a)` invokes the agent `a`. */
  datatype NodeKind = SupervisorKind(menu: seq<string>) | AgentKind(agent: string)

  /** Which routing function a conditional edge calls. */
  datatype Router = AfterSupervisor(routable: seq<string>) | AfterAgent

  function RouteBy(router: Router, s: AgentState): string {
    match router
    case AfterSupervisor(routable) => RouteAfterSupervisor(s.next, routable)
    case AfterAgent => RouteAfterAgent(s.next)
  }

  /** A conditional edge: its routing function and its map from keys to targets. */
  datatype Branch = Branch(router: Router, paths: map<string, Target>)

  /** The edge map every agent gets: back to the supervisor, or the end. */
  const AgentBranch: Branch :=
    Branch(AfterAgent, map[SupervisorName := ToNode(SupervisorName), End := ToEnd])

  /** The compiled graph: nodes by name, the nodes reached from START, and the
      conditional edge leaving each node. */
  datatype Graph = Graph(nodes: map<string, NodeKind>, entry: set<string>, branches: map<string, Branch>)

  /** Every key a routing function can return is a key of its edge map. */
  predicate RoutesCovered(b: Branch) {
    match b.router
    case AfterSupervisor(routable) =>
      End in b.paths && forall r :: r in routable ==> r in b.paths
    case AfterAgent =>
      SupervisorName in b.paths && End in b.paths
  }

  /** Every edge starts and ends at a declared node, and every routing result has an edge. */
  predicate WellFormed(g: Graph) {
    && g.entry <= g.nodes.Keys
    && g.branches.Keys <= g.nodes.Keys
    && (forall n :: n in g.branches ==> RoutesCovered(g.branches[n]))
    && (forall n, k :: n in g.branches && k in g.branches[n].paths && g.branches[n].paths[k].ToNode? ==>
          g.branches[n].paths[k].name in g.nodes)
  }

  /** What `compile()` checks: there is an edge from START, every edge starts at
      a declared node, and every edge ends at a declared node or the end. Whether
      every routing key has an edge is only found out when the graph runs. */
  predicate Compilable(g: Graph) {
    && g.entry != {}
    && g.entry <= g.nodes.Keys
    && g.branches.Keys <= g.nodes.Keys
    && (forall n, k :: n in g.branches && k in g.branches[n].paths && g.branches[n].paths[k].ToNode? ==>
          g.branches[n].paths[k].name in g.nodes)
  }

  /** The `ValueError` `compile()` raises for a graph it refuses. */
  datatype CompileError = InvalidGraph

  /** A well-formed graph with an entry compiles, and a graph that compiles is
      well formed exactly when every routing result has an edge. */
  lemma CompilableWellFormed(g: Graph)
    ensures WellFormed(g) && g.entry != {} ==> Compilable(g)
    ensures Compilable(g) ==> (WellFormed(g) <==> forall n :: n in g.branches ==> RoutesCovered(g.branches[n]))
  {
  }

  /** The graph builder the source fills in with `add_node`, `add_edge(START, ...)`
      and `add_conditional_edges` before compiling it. */
  class StateGraph {
    var nodes: map<string, NodeKind>
    var entry: set<string>
    var branches: map<string, Branch>

    constructor()
      ensures nodes == map[] && entry == {} && branches == map[]
    {
      nodes := map[];
      entry := {};
      branches := map[];
    }

    /** `add_node`; the builder refuses a name already in use, and the reserved end key. */
    method AddNode(name: string, kind: NodeKind)
      requires name !in nodes && name != End
      modifies this
      ensures nodes == old(nodes)[name := kind]
      ensures entry == old(entry) && branches == old(branches)
    {
      nodes := nodes[name := kind];
    }

    /** `add_edge(START, target)` and `set_entry_point(target)`: both add the same edge. */
    method AddStartEdge(target: string)
      modifies this
      ensures entry == old(entry) + {target}
      ensures nodes == old(nodes) && branches == old(branches)
    {
      entry := entry + {target};
    }

    /** `add_conditional_edges(source, router, paths)`. */
    method AddConditionalEdges(source: string, router: Router, paths: map<string, Target>)
      modifies this
      ensures branches == old(branches)[source := Branch(router, paths)]
      ensures nodes == old(nodes) && entry == old(entry)
    {
      branches := branches[source := Branch(router, paths)];
    }

    /** `compile()`: it refuses a builder without an edge from START and one
        with an edge from or to an undeclared node; otherwise it gives the graph
        with the builder's nodes and edges. */
    function Compile(): (r: Result<Graph, CompileError>)
      reads this
      ensures r.Success? <==> Compilable(Graph(nodes, entry, branches))
      ensures r.Success? ==> r.value.nodes == nodes && r.value.entry == entry && r.value.branches == branches
    {
      var g := Graph(nodes, entry, branches);
      if Compilable(g) then Success(g) else Failure(InvalidGraph)
    }
  }
}
