/**
 * `build_graph` (graph/graph_builder.py): the transition table the pipeline
 * runs on, built by successive calls on a builder, and the compiled pipeline
 * that owns one instance of each agent and runs START, the router, the task
 * node the state's type selects, and END.
 */
module Graph {
  import opened Wrappers
  import opened PipelineState
  import opened Outcome
  import opened Router
  import opened Icd10Agent
  import opened SoapAgent
  import opened ImageAgent

  /** The nodes of the graph: START, END, the router and one node per task. */
  datatype Node = Start | RouterNode | TaskNode(task: Task) | End

  /**
   * The table the builder is meant to hold: START goes to the router, the
   * router goes to the node named by the state's type, every task node goes to END.
   */
  function Successor(n: Node, kind: Option<Task>): Option<Node>
  {
    match n
    case Start => Some(RouterNode)
    case RouterNode => if kind.Some? then Some(TaskNode(kind.value)) else None
    case TaskNode(_) => Some(End)
    case End => None
  }

  /** `StateGraph`: the nodes, plain edges and conditional edges added so far. */
  class StateGraph {
    var nodes: set<Node>
    var edges: map<Node, Node>
    var branches: map<Node, map<Option<Task>, Node>>

    constructor()
      ensures nodes == {} && edges == map[] && branches == map[]
    {
      nodes := {};
      edges := map[];
      branches := map[];
    }

    /** `add_node(name, action)`. */
    method AddNode(n: Node)
      modifies this
      ensures nodes == old(nodes) + {n} && edges == old(edges) && branches == old(branches)
    {
      nodes := nodes + {n};
    }

    /** `add_edge(source, target)`. */
    method AddEdge(source: Node, target: Node)
      modifies this
      ensures edges == old(edges)[source := target] && nodes == old(nodes) && branches == old(branches)
    {
      edges := edges[source := target];
    }

    /** `add_conditional_edges(source, lambda s: s.type, table)`. */
    method AddConditionalEdges(source: Node, table: map<Option<Task>, Node>)
      modifies this
      ensures branches == old(branches)[source := table] && nodes == old(nodes) && edges == old(edges)
    {
      branches := branches[source := table];
    }

    /** The node that follows `n` when the state's type is `kind`; None when no edge applies. */
    function Next(n: Node, kind: Option<Task>): Option<Node>
      reads this
    {
      if n in edges then Some(edges[n])
      else if n in branches && kind in branches[n] then Some(branches[n][kind])
      else None
    }
  }

  /** `build_graph`'s table: four nodes, and the builder answers exactly as `Successor`. */
  method BuildGraph() returns (g: StateGraph)
    ensures fresh(g)
    ensures g.nodes == {RouterNode, TaskNode(ICD10), TaskNode(SOAP), TaskNode(ImageAnalysis)}
    ensures forall n, kind :: g.Next(n, kind) == Successor(n, kind)
  {
    g := new StateGraph();
    g.AddNode(RouterNode);
    g.AddNode(TaskNode(ICD10));
    g.AddNode(TaskNode(SOAP));
    g.AddNode(TaskNode(ImageAnalysis));
    g.AddEdge(Start, RouterNode);
    var table := map[
      Some(ICD10) := TaskNode(ICD10),
      Some(SOAP) := TaskNode(SOAP),
      Some(ImageAnalysis) := TaskNode(ImageAnalysis)];
    g.AddConditionalEdges(RouterNode, table);
    g.AddEdge(TaskNode(ICD10), End);
    g.AddEdge(TaskNode(SOAP), End);
    g.AddEdge(TaskNode(ImageAnalysis), End);
    assert g.branches == map[RouterNode := table];
    assert g.edges == map[Start := RouterNode, TaskNode(ICD10) := End, TaskNode(SOAP) := End,
      TaskNode(ImageAnalysis) := End];
    forall n, kind
      ensures g.Next(n, kind) == Successor(n, kind)
    {
      if n.TaskNode? {
        match n.task
        case ICD10 => assert n == TaskNode(ICD10);
        case SOAP => assert n == TaskNode(SOAP);
        case ImageAnalysis => assert n == TaskNode(ImageAnalysis);
      } else if n == RouterNode && kind.Some? {
        match kind.value
        case ICD10 => assert kind == Some(ICD10);
        case SOAP => assert kind == Some(SOAP);
        case ImageAnalysis => assert kind == Some(ImageAnalysis);
      }
    }
  }

  /** How far a node lies from START. */
  function Rank(n: Node): nat
  {
    match n
    case Start => 0
    case RouterNode => 1
    case TaskNode(_) => 2
    case End => 3
  }

  /** Every transition moves one step further from START, so the graph has no cycle. */
  lemma SuccessorAdvances(n: Node, kind: Option<Task>)
    ensures Successor(n, kind).Some? ==> Rank(Successor(n, kind).value) == Rank(n) + 1
  {
  }

  /** The nodes visited from `n` on, the state's type being `kind` when the router is left. */
  function Walk(n: Node, kind: Option<Task>): (w: seq<Node>)
    decreases 3 - Rank(n)
    ensures |w| >= 1 && w[0] == n
  {
    match Successor(n, kind)
    case Some(m) => SuccessorAdvances(n, kind); [n] + Walk(m, kind)
    case None => [n]
  }

  /** Along a walk each node lies one step further from START than the one before. */
  lemma {:induction false} WalkRanks(n: Node, kind: Option<Task>)
    ensures forall i | 0 <= i < |Walk(n, kind)| :: Rank(Walk(n, kind)[i]) == Rank(n) + i
    decreases 3 - Rank(n)
  {
    match Successor(n, kind)
    case Some(m) =>
      SuccessorAdvances(n, kind);
      WalkRanks(m, kind);
      assert forall i | 1 <= i < |Walk(n, kind)| :: Walk(n, kind)[i] == Walk(m, kind)[i - 1];
    case None =>
  }

  /** No node runs twice in one invocation. */
  lemma NoNodeTwice(n: Node, kind: Option<Task>)
    ensures forall i, j | 0 <= i < j < |Walk(n, kind)| :: Walk(n, kind)[i] != Walk(n, kind)[j]
  {
    WalkRanks(n, kind);
  }

  /**
   * A run starts at the router, then runs the one task node the type names
   * and ends; with no type the router's state is where the run stops.
   */
  lemma Runs(t: Task)
    ensures Walk(Start, Some(t)) == [Start, RouterNode, TaskNode(t), End]
    ensures Walk(Start, None) == [Start, RouterNode]
  {
  }

  /**
   * After the router, the next node depends on the state's type only, through
   * the three-entry table; None has no entry.
   */
  lemma RouterTable(kind: Option<Task>)
    ensures Successor(RouterNode, kind).Some? <==> kind.Some?
    ensures kind.Some? ==> Successor(RouterNode, kind) == Some(TaskNode(kind.value))
    ensures forall t | t != RouterNode && t != End :: Successor(t, kind).Some?
  {
  }

  /** What one task node makes of the state the router left. */
  function TaskOutcome(t: Task, routed: Snapshot, generate: Generator): Result<Snapshot, string>
  {
    match t
    case ICD10 =>
      (match TaskResult(generate(ICD10PromptFor(routed.entries)))
       case Success(v) => Success(Snapshot(Some(ICD10), routed.entries, JsonResult(v), None))
       case Failure(e) => Success(routed.(error := Some(e))))
    case SOAP =>
      (match TaskResult(generate(SOAPPromptFor(routed.entries)))
       case Success(v) => Success(Snapshot(Some(SOAP), routed.entries, JsonResult(v), None))
       case Failure(e) => Failure(e))
    case ImageAnalysis =>
      (match TaskResult(generate(ImagePromptFor(routed.entries)))
       case Success(v) => Success(Snapshot(Some(ImageAnalysis), routed.entries, JsonResult(v), None))
       case Failure(e) => Failure(e))
  }

  /** The router's state after `run`, as values: the same state with the error set, or the dispatched state. */
  function Routed(before: Snapshot, name: string): Snapshot
  {
    match Route(before.entries, name)
    case Unknown(message) => before.(error := Some(message))
    case Dispatch(t, entries) => Snapshot(Some(t), entries, LabelText(name), None)
  }

  /** The rest of a run once the router's model has answered `name`, normalised. */
  function AfterRouter(before: Snapshot, name: string, generate: Generator): Result<Snapshot, string>
  {
    var routed := Routed(before, name);
    if routed.kind.Some? then TaskOutcome(routed.kind.value, routed, generate)
    else Success(routed)
  }

  /**
   * `graph.invoke(state)`: the final state, or the exception that escaped.
   * The router runs, the task node its type selects runs, and its state is the output.
   */
  function Expected(before: Snapshot, generate: Generator): Result<Snapshot, string>
  {
    var reply := generate(RouterPromptFor(before.entries));
    if reply.Failure? then Failure(reply.error)
    else AfterRouter(before, NormalizeLabel(reply.value), generate)
  }

  /** An exception from the router's model call escapes `invoke`. */
  lemma RouterFailureEscapes(before: Snapshot, generate: Generator)
    requires generate(RouterPromptFor(before.entries)).Failure?
    ensures Expected(before, generate) == Failure(generate(RouterPromptFor(before.entries)).error)
  {
  }

  /**
   * An unknown label on a fresh state stops the run at the router: the
   * output is the input state with the router's message as its error.
   */
  lemma UnknownLabelStops(before: Snapshot, name: string, generate: Generator)
    requires before.kind == None && TaskOf(name) == None
    ensures AfterRouter(before, name, generate) ==
      Success(before.(error := Some("Unknown response from RouterAgent: " + name)))
  {
  }

  /**
   * A known label runs exactly the task it names, on the payload the router
   * prepared, and the task's outcome is the output.
   */
  lemma KnownLabelDispatches(before: Snapshot, generate: Generator, t: Task)
    ensures AfterRouter(before, TaskName(t), generate) ==
      TaskOutcome(t, Snapshot(Some(t), Prepared(before.entries, t), LabelText(TaskName(t)), None), generate)
  {
    TaskNames(t, TaskName(t));
  }

  /**
   * The states a run on a fresh state can end in: a task's result with no
   * error; the router's error with no type and no result; or, for ICD-10
   * only, the agent's error merged over the router's state, which keeps the
   * router's label as its result. Only SOAP and image-analysis failures escape.
   */
  lemma TerminalStates(before: Snapshot, name: string, generate: Generator)
    requires before.kind == None && before.result == NoOutput && before.error == None
    ensures AfterRouter(before, name, generate).Success? ==>
      var out := AfterRouter(before, name, generate).value;
      || (out.kind.Some? && out.result.JsonResult? && out.error == None)
      || (out.kind == None && out.result == NoOutput && out.error.Some?)
      || (out.kind == Some(ICD10) && out.result == LabelText("icd10") && out.error.Some?)
    ensures AfterRouter(before, name, generate).Failure? ==> name in {"soap", "image_analysis"}
  {
    match TaskOf(name)
    case Some(t) =>
      assert Routed(before, name) == Snapshot(Some(t), Prepared(before.entries, t), LabelText(name), None);
    case None =>
  }

  /** The compiled graph: the agents are built once, with one model, and reused on every invocation. */
  class Pipeline {
    const generate: Generator
    const graph: StateGraph
    const router: RouterAgent
    const icd10: ICD10Agent
    const soap: SoapGeneratorAgent
    const image: ImageAnalyzerAgent

    /** The table and every agent answer as specified, all with the pipeline's model. */
    ghost predicate Valid()
      reads this, graph
    {
      && (forall n, kind :: graph.Next(n, kind) == Successor(n, kind))
      && router.generate == generate && icd10.generate == generate
      && soap.generate == generate && image.generate == generate
    }

    /** `build_graph()` followed by `compile()`. */
    constructor(generate: Generator)
      ensures this.generate == generate && Valid()
    {
      this.generate := generate;
      router := new RouterAgent(generate);
      icd10 := new ICD10Agent(generate);
      soap := new SoapGeneratorAgent(generate);
      image := new ImageAnalyzerAgent(generate);
      var g := BuildGraph();
      graph := g;
    }

    /**
     * `invoke`: runs the router on `state`, which it updates in place, then
     * the task node the table picks for the state the router returns.
     */
    method Invoke(state: State) returns (out: Result<Snapshot, string>)
      requires Valid()
      modifies state, state.payload
      ensures out == Expected(old(state.Snap()), generate)
    {
      ghost var before := state.Snap();
      var routed := router.Run(state);
      if routed.Failure? {
        return Failure(routed.error);
      }
      ghost var name := NormalizeLabel(generate(RouterPromptFor(before.entries)).value);
      assert routed.value.Snap() == Routed(before, name);
      out := RunTask(routed.value);
    }

    /** The step after the router: the node the table picks for the state's type runs on it; no node, no step. */
    method RunTask(s: State) returns (out: Result<Snapshot, string>)
      requires Valid()
      ensures s.kind.None? ==> out == Success(s.Snap())
      ensures s.kind.Some? ==> out == TaskOutcome(s.kind.value, s.Snap(), generate)
    {
      var next := graph.Next(RouterNode, s.kind);
      if next.None? {
        return Success(s.Snap());
      }
      match next.value {
        case TaskNode(ICD10) =>
          var r := icd10.Run(s);
          match r {
            case Whole(f) => return Success(f.Snap());
            case Partial(p, e) => return Success(Snapshot(s.kind, p.entries, s.result, Some(e)));
          }
        case TaskNode(SOAP) =>
          var r := soap.Run(s);
          if r.Failure? {
            return Failure(r.error);
          }
          return Success(r.value.Snap());
        case TaskNode(ImageAnalysis) =>
          var r := image.Run(s);
          if r.Failure? {
            return Failure(r.error);
          }
          return Success(r.value.Snap());
      }
    }
  }
}
