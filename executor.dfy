/**
 * Running a compiled supervisor graph on one query. Nodes are callables, as in
 * LangGraph: the environment holds the supervisor's node function, the LLM
 * behind it as a script of replies (`replies(i)` is its answer to the i-th
 * call) and each agent as a function from the conversation so far to the
 * messages it adds. `fuel` is the graph's recursion limit: the number of node
 * executions allowed before the run is abandoned.
 */
module Executor {
  import opened Wrappers
  import opened Text
  import opened SupervisorAgent
  import opened Workflow

  /** The recursion limit `mainllm.py` and `mainllmv2.py` pass in their run
      configuration. */
  const RecursionLimit: nat := 100

  type Replies = nat -> string
  type Agents = (string, seq<Message>) -> seq<Message>

  /** The callables a run needs: the supervisor's node function (applied to the
      LLM's reply and the menu), the LLM's replies and the agents. */
  datatype Env = Env(supervise: (string, seq<string>) -> Update, replies: Replies, work: Agents)

  /** The environment of a real run: the supervisor node is `SupervisorNode`. */
  function Live(replies: Replies, work: Agents): (env: Env)
    ensures env.supervise == SupervisorNode && env.replies == replies && env.work == work
    ensures SetsNext(env)
  {
    Env(SupervisorNode, replies, work)
  }

  /** A supervisor node function always sets `next` and leaves the messages alone. */
  ghost predicate SetsNext(env: Env) {
    forall reply, menu :: env.supervise(reply, menu).messages.None? && env.supervise(reply, menu).next.Some?
  }

  /** Running one node: its update, and the number of supervisor replies used so far. */
  function RunNode(kind: NodeKind, s: AgentState, env: Env, asked: nat): (AgentState, nat) {
    match kind
    case SupervisorKind(menu) =>
      (Apply(s, env.supervise(env.replies(asked), menu)), asked + 1)
    case AgentKind(agent) =>
      (Apply(s, AgentUpdate(env.work(agent, s.messages))), asked)
  }

  /** The outcome of one step of the graph. */
  datatype StepResult =
    | Continue(node: string, state: AgentState, asked: nat)   // go on at `node`
    | Stop(state: AgentState)                                // the route led to the end
    | Stuck(key: string)                                     // no node, or no edge for the routing key

  function Step(g: Graph, node: string, s: AgentState, env: Env, asked: nat): StepResult {
    if node !in g.nodes then Stuck(node)
    else
      var (t, asked') := RunNode(g.nodes[node], s, env, asked);
      if node !in g.branches then Stop(t)
      else
        var b := g.branches[node];
        var key := RouteBy(b.router, t);
        if key !in b.paths then Stuck(key)
        else match b.paths[key]
          case ToEnd => Stop(t)
          case ToNode(n) => Continue(n, t, asked')
  }

  /** A run: the nodes executed, in order, and how it ended. */
  datatype RunResult =
    | Completed(trace: seq<string>, final: AgentState)
    | LimitReached(trace: seq<string>)
    | Invalid(trace: seq<string>, key: string)

  function WithPrefix(p: seq<string>, r: RunResult): RunResult {
    match r
    case Completed(t, f) => Completed(p + t, f)
    case LimitReached(t) => LimitReached(p + t)
    case Invalid(t, k) => Invalid(p + t, k)
  }

  function Run(g: Graph, node: string, s: AgentState, env: Env, asked: nat, fuel: nat): RunResult
    decreases fuel
  {
    if fuel == 0 then LimitReached([])
    else match Step(g, node, s, env, asked)
      case Stuck(key) => Invalid(if node in g.nodes then [node] else [], key)
      case Stop(t) => Completed([node], t)
      case Continue(n, t, asked') => WithPrefix([node], Run(g, n, t, env, asked', fuel - 1))
  }

  lemma WithPrefixTrace(p: seq<string>, r: RunResult)
    ensures WithPrefix(p, r).trace == p + r.trace
    ensures WithPrefix(p, r).Completed? == r.Completed?
    ensures WithPrefix(p, r).Invalid? == r.Invalid?
  {
  }

  lemma WithPrefixTwice(p: seq<string>, q: seq<string>, r: RunResult)
    ensures WithPrefix(p, WithPrefix(q, r)) == WithPrefix(p + q, r)
  {
    match r
    case Completed(t, f) => assert p + (q + t) == (p + q) + t;
    case LimitReached(t) => assert p + (q + t) == (p + q) + t;
    case Invalid(t, k) => assert p + (q + t) == (p + q) + t;
  }

  /** A run never executes more nodes than the recursion limit allows. */
  lemma {:induction false} RunWithinLimit(g: Graph, node: string, s: AgentState, env: Env, asked: nat, fuel: nat)
    ensures |Run(g, node, s, env, asked, fuel).trace| <= fuel
    decreases fuel
  {
    if fuel > 0 {
      match Step(g, node, s, env, asked)
      case Stuck(_) =>
      case Stop(_) =>
      case Continue(n, t, asked') => RunWithinLimit(g, n, t, env, asked', fuel - 1);
    }
  }

  /** No step drops or reorders messages: a completed run's conversation extends the input. */
  lemma {:induction false} RunAppendsOnly(g: Graph, node: string, s: AgentState, env: Env, asked: nat, fuel: nat)
    ensures Run(g, node, s, env, asked, fuel).Completed? ==>
              s.messages <= Run(g, node, s, env, asked, fuel).final.messages
    decreases fuel
  {
    if fuel > 0 && node in g.nodes {
      match Step(g, node, s, env, asked)
      case Stuck(_) =>
      case Stop(_) =>
      case Continue(n, t, asked') => RunAppendsOnly(g, n, t, env, asked', fuel - 1);
    }
  }

  /* ------------------------------------------------------- supervisor graphs */

  /** The shape all three variants build: a supervisor with the given menu whose
      edge sends each routable name to the agent node of that name and everything
      else to the end, and agents whose edges lead back to the supervisor. */
  predicate IsSupervisorGraph(g: Graph, menu: seq<string>, routable: seq<string>) {
    && SupervisorName in g.nodes && g.nodes[SupervisorName] == SupervisorKind(menu)
    && SupervisorName in g.branches && g.branches[SupervisorName].router == AfterSupervisor(routable)
    && End in g.branches[SupervisorName].paths && g.branches[SupervisorName].paths[End] == ToEnd
    && SupervisorName !in routable
    && forall r :: r in routable ==>
         && r in g.branches[SupervisorName].paths && g.branches[SupervisorName].paths[r] == ToNode(r)
         && r in g.nodes && g.nodes[r] == AgentKind(r)
         && r in g.branches && g.branches[r] == AgentBranch
  }

  /** Where the supervisor sends the run after its j-th call: an agent name or the end. */
  function Dispatch(env: Env, menu: seq<string>, routable: seq<string>, j: nat): (key: string)
    ensures key in routable || key == End
  {
    RouteAfterSupervisor(env.supervise(env.replies(j), menu).next, routable)
  }

  /** Whether the supervisor's j-th call names an agent. */
  predicate NamesAgent(env: Env, menu: seq<string>, routable: seq<string>, j: nat) {
    Dispatch(env, menu, routable, j) != End
  }

  /** With the live supervisor, the run goes on at the agent named by the
      stripped, lower-cased reply when that name is routable, and ends otherwise;
      the fallback, and "finish" in any case, both end it. */
  lemma LiveDispatch(replies: Replies, work: Agents, menu: seq<string>, routable: seq<string>, j: nat)
    requires forall r :: r in routable ==> r in menu
    requires "finish" !in routable
    ensures var c := Lower(Strip(replies(j)));
            Dispatch(Live(replies, work), menu, routable, j) == if c in routable then c else End
  {
    var c := Lower(Strip(replies(j)));
    if c in menu {
      LowerIdempotent(Strip(replies(j)));
    } else {
      MissingNextIsFinish();
    }
  }

  /** The reference run, computed from the supervisor's decisions alone: the
      supervisor, then the agent it names, then the supervisor again, until a
      decision dispatches to the end or the limit is used up. */
  function ExpectedTrace(env: Env, menu: seq<string>, routable: seq<string>, asked: nat, fuel: nat): (t: seq<string>)
    decreases fuel
  {
    if fuel == 0 then []
    else if !NamesAgent(env, menu, routable, asked) || fuel == 1 then [SupervisorName]
    else [SupervisorName, Dispatch(env, menu, routable, asked)] + ExpectedTrace(env, menu, routable, asked + 1, fuel - 2)
  }

  /** Whether the reference run reaches a decision that dispatches to the end. */
  predicate ExpectedEnds(env: Env, menu: seq<string>, routable: seq<string>, asked: nat, fuel: nat)
    decreases fuel
  {
    fuel > 0 &&
    (!NamesAgent(env, menu, routable, asked) || (fuel >= 3 && ExpectedEnds(env, menu, routable, asked + 1, fuel - 2)))
  }

  /** The state after the supervisor and one agent. */
  function AfterRound(s: AgentState, env: Env, menu: seq<string>, asked: nat, agent: string): AgentState {
    var t := Apply(s, env.supervise(env.replies(asked), menu));
    Apply(t, AgentUpdate(env.work(agent, t.messages)))
  }

  /** One supervisor step followed by one agent step, in a supervisor graph. */
  lemma SupervisorRound(g: Graph, menu: seq<string>, routable: seq<string>, s: AgentState, env: Env, asked: nat)
    requires IsSupervisorGraph(g, menu, routable) && SetsNext(env)
    ensures var d := Dispatch(env, menu, routable, asked);
            var t := Apply(s, env.supervise(env.replies(asked), menu));
            && (d == End ==> Step(g, SupervisorName, s, env, asked) == Stop(t))
            && (d != End ==> Step(g, SupervisorName, s, env, asked) == Continue(d, t, asked + 1))
            && (d != End ==>
                  Step(g, d, t, env, asked + 1) ==
                  Continue(SupervisorName, AfterRound(s, env, menu, asked, d), asked + 1))
  {
    var d := Dispatch(env, menu, routable, asked);
    var t := Apply(s, env.supervise(env.replies(asked), menu));
    assert RouteBy(g.branches[SupervisorName].router, t) == d;
    if d != End {
      var u := Apply(t, AgentUpdate(env.work(d, t.messages)));
      AgentReturnsToSupervisor(t, env.work(d, t.messages));
      assert RouteBy(g.branches[d].router, u) == SupervisorName;
      assert AgentBranch.paths[SupervisorName] == ToNode(SupervisorName);
    }
  }

  /** A full round in a supervisor graph: the supervisor names an agent, the
      agent runs, and the run goes on at the supervisor with two fewer steps left. */
  lemma RunRound(g: Graph, menu: seq<string>, routable: seq<string>, s: AgentState, env: Env, asked: nat, fuel: nat)
    requires IsSupervisorGraph(g, menu, routable) && SetsNext(env) && fuel >= 2
    requires NamesAgent(env, menu, routable, asked)
    ensures Run(g, SupervisorName, s, env, asked, fuel) ==
              WithPrefix([SupervisorName, Dispatch(env, menu, routable, asked)],
                         Run(g, SupervisorName, AfterRound(s, env, menu, asked, Dispatch(env, menu, routable, asked)), env, asked + 1, fuel - 2))
  {
    var d := Dispatch(env, menu, routable, asked);
    SupervisorRound(g, menu, routable, s, env, asked);
    WithPrefixTwice([SupervisorName], [d], Run(g, SupervisorName, AfterRound(s, env, menu, asked, d), env, asked + 1, fuel - 2));
  }

  /** In a supervisor graph the run is exactly the reference run: which agents run,
      and in which order, depends on the supervisor's decisions alone, never on what
      the agents answer; it completes exactly when the reference run ends, and it
      never meets a routing key without an edge. */
  lemma {:induction false} RunFollowsReplies(g: Graph, menu: seq<string>, routable: seq<string>, s: AgentState,
                                             env: Env, asked: nat, fuel: nat)
    requires IsSupervisorGraph(g, menu, routable) && SetsNext(env)
    ensures Run(g, SupervisorName, s, env, asked, fuel).trace == ExpectedTrace(env, menu, routable, asked, fuel)
    ensures Run(g, SupervisorName, s, env, asked, fuel).Completed? <==> ExpectedEnds(env, menu, routable, asked, fuel)
    ensures !Run(g, SupervisorName, s, env, asked, fuel).Invalid?
    decreases fuel
  {
    if fuel > 0 {
      SupervisorRound(g, menu, routable, s, env, asked);
      if NamesAgent(env, menu, routable, asked) {
        var d := Dispatch(env, menu, routable, asked);
        if fuel == 1 {
          var t := Apply(s, env.supervise(env.replies(asked), menu));
          assert Run(g, d, t, env, asked + 1, 0) == LimitReached([]);
        } else {
          var u := AfterRound(s, env, menu, asked, d);
          RunRound(g, menu, routable, s, env, asked, fuel);
          RunFollowsReplies(g, menu, routable, u, env, asked + 1, fuel - 2);
          WithPrefixTrace([SupervisorName, d], Run(g, SupervisorName, u, env, asked + 1, fuel - 2));
        }
      }
    }
  }

  /** The run the leading decisions prescribe when the decision after the first
      `n` ends it: supervisor and named agent alternately, then the supervisor. */
  function LeadingTrace(env: Env, menu: seq<string>, routable: seq<string>, asked: nat, n: nat): (t: seq<string>)
    ensures |t| == 2 * n + 1
    decreases n
  {
    if n == 0 then [SupervisorName]
    else [SupervisorName, Dispatch(env, menu, routable, asked)] + LeadingTrace(env, menu, routable, asked + 1, n - 1)
  }

  /** Position `2i` of that trace is the supervisor and position `2i + 1` the
      agent named by the supervisor's i-th decision. */
  lemma {:induction false} LeadingTraceAt(env: Env, menu: seq<string>, routable: seq<string>, asked: nat, n: nat, i: nat)
    requires i <= n
    ensures LeadingTrace(env, menu, routable, asked, n)[2 * i] == SupervisorName
    ensures i < n ==> LeadingTrace(env, menu, routable, asked, n)[2 * i + 1] == Dispatch(env, menu, routable, asked + i)
    decreases n
  {
    if i > 0 {
      LeadingTraceAt(env, menu, routable, asked + 1, n - 1, i - 1);
    }
  }

  /** When the first `n` decisions name agents and the next one does not, and the
      limit leaves room, the reference run ends along the leading trace. */
  lemma {:induction false} ExpectedTraceOfLeadingReplies(env: Env, menu: seq<string>, routable: seq<string>,
                                                         asked: nat, n: nat, fuel: nat)
    requires forall j :: asked <= j < asked + n ==> NamesAgent(env, menu, routable, j)
    requires !NamesAgent(env, menu, routable, asked + n)
    requires fuel >= 2 * n + 1
    ensures ExpectedEnds(env, menu, routable, asked, fuel)
    ensures ExpectedTrace(env, menu, routable, asked, fuel) == LeadingTrace(env, menu, routable, asked, n)
    decreases n
  {
    if n > 0 {
      assert NamesAgent(env, menu, routable, asked);
      ExpectedTraceOfLeadingReplies(env, menu, routable, asked + 1, n - 1, fuel - 2);
    }
  }

  /** A supervisor that keeps naming agents runs into the recursion limit after
      exactly `fuel` node executions. */
  lemma {:induction false} EndlessDispatchHitsLimit(env: Env, menu: seq<string>, routable: seq<string>, asked: nat, fuel: nat)
    requires forall j :: asked <= j ==> NamesAgent(env, menu, routable, j)
    ensures !ExpectedEnds(env, menu, routable, asked, fuel)
    ensures |ExpectedTrace(env, menu, routable, asked, fuel)| == fuel
    decreases fuel
  {
    if fuel > 0 {
      assert NamesAgent(env, menu, routable, asked);
    }
    if fuel >= 2 {
      EndlessDispatchHitsLimit(env, menu, routable, asked + 1, fuel - 2);
    }
  }

  /* ------------------------------------------------------------- streaming */

  /** One more node of a run, as the streaming loop takes it. */
  lemma RunUnfold(g: Graph, node: string, s: AgentState, env: Env, asked: nat, fuel: nat, trace: seq<string>)
    requires fuel > 0
    ensures match Step(g, node, s, env, asked)
            case Stuck(key) =>
              WithPrefix(trace, Run(g, node, s, env, asked, fuel)) == Invalid(trace + (if node in g.nodes then [node] else []), key)
            case Stop(t) =>
              WithPrefix(trace, Run(g, node, s, env, asked, fuel)) == Completed(trace + [node], t)
            case Continue(n, t, asked') =>
              WithPrefix(trace, Run(g, node, s, env, asked, fuel)) == WithPrefix(trace + [node], Run(g, n, t, env, asked', fuel - 1))
  {
    match Step(g, node, s, env, asked)
    case Stuck(_) =>
    case Stop(_) =>
    case Continue(n, t, asked') => WithPrefixTwice(trace, [node], Run(g, n, t, env, asked', fuel - 1));
  }

  /** Streaming a run (`graph.stream`): each event is the state after one more
      node, and the value returned is the last event together with how the run
      ended. The result is the run the graph semantics prescribes. */
  method Stream(g: Graph, s: AgentState, env: Env, fuel: nat) returns (event: AgentState, result: RunResult)
    requires g.entry == {SupervisorName}
    ensures result == Run(g, SupervisorName, s, env, 0, fuel)
    ensures result.Completed? ==> event == result.final
  {
    event := s;
    var node := SupervisorName;
    var asked: nat := 0;
    var trace: seq<string> := [];
    var left: nat := fuel;
    ghost var whole := Run(g, SupervisorName, event, env, 0, fuel);
    assert whole == WithPrefix([], whole);
    while left > 0
      invariant whole == WithPrefix(trace, Run(g, node, event, env, asked, left))
      decreases left
    {
      RunUnfold(g, node, event, env, asked, left, trace);
      var step := Step(g, node, event, env, asked);
      match step {
        case Stuck(key) =>
          result := Invalid(trace + (if node in g.nodes then [node] else []), key);
          return;
        case Stop(t) =>
          event := t;
          result := Completed(trace + [node], t);
          return;
        case Continue(n, t, asked') =>
          trace := trace + [node];
          node, event, asked, left := n, t, asked', left - 1;
      }
    }
    result := LimitReached(trace);
  }

  /** Running the system on one query: the graph streams from the initial state
      with the live supervisor, and the last event of a completed run is the
      answer. When the limit is used up or a routing key has no edge, LangGraph
      raises instead; the `LimitReached` and `Invalid` results stand for that
      error, and the event returned beside them is not a value the source returns. */
  method RunMultiAgentSystem(g: Graph, query: string, replies: Replies, work: Agents, fuel: nat)
    returns (event: AgentState, result: RunResult)
    requires g.entry == {SupervisorName}
    ensures result == Run(g, SupervisorName, InitialState(query), Live(replies, work), 0, fuel)
    ensures result.Completed? ==> event == result.final
  {
    event, result := Stream(g, InitialState(query), Live(replies, work), fuel);
  }
}
