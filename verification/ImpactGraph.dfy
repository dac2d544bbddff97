/** The repository graph, the allowed impact steps, and true distances (`lou/repository/traversal.py`). */
module ImpactGraph {
  import opened Common
  import opened Sorting

  type NodeId = string

  datatype NodeType = File | Function | Class | Test | Endpoint | DatabaseTable | LoadScenario | Other

  datatype EdgeType = Calls | TestedBy | ReadsFrom | WritesTo | ServesEndpoint | ValidatedBy | Defines | Imports

  datatype NodeData = NodeData(nodeType: NodeType, key: string, path: Option<string>, confidence: real, changed: bool)

  datatype Edge = Edge(source: NodeId, target: NodeId, edgeType: EdgeType, confidence: real)

  /** A directed multigraph; `order` is the order its nodes were added in. */
  datatype Graph = Graph(order: seq<NodeId>, nodes: map<NodeId, NodeData>, edges: seq<Edge>)

  /** What the graph library keeps true: one entry per node, edges only between nodes. */
  ghost predicate WellFormed(g: Graph) {
    && Distinct(g.order)
    && (forall id :: id in g.order <==> id in g.nodes)
    && forall e :: e in g.edges ==> e.source in g.nodes && e.target in g.nodes
  }

  datatype Step = Step(target: NodeId, edgeType: EdgeType, confidence: real)

  function NameOf(t: EdgeType): string {
    match t
    case Calls => "CALLS"
    case TestedBy => "TESTED_BY"
    case ReadsFrom => "READS_FROM"
    case WritesTo => "WRITES_TO"
    case ServesEndpoint => "SERVES_ENDPOINT"
    case ValidatedBy => "VALIDATED_BY"
    case Defines => "DEFINES"
    case Imports => "IMPORTS"
  }

  predicate StepLeq(a: Step, b: Step) {
    if a.target == b.target then StringLeq(NameOf(a.edgeType), NameOf(b.edgeType)) else StringLeq(a.target, b.target)
  }

  /** The step an edge allows from `id`, seen from its source or, for calls, from its target. */
  function OutStep(g: Graph, id: NodeId, e: Edge): seq<Step>
    requires id in g.nodes
  {
    if e.source != id then []
    else if g.nodes[id].nodeType in {Function, Class} then
      (if e.edgeType in {Calls, TestedBy, ReadsFrom, WritesTo, ServesEndpoint}
       then [Step(e.target, e.edgeType, e.confidence)] else [])
    else if g.nodes[id].nodeType == Endpoint && e.edgeType == ValidatedBy then
      [Step(e.target, e.edgeType, e.confidence)]
    else []
  }

  function InStep(g: Graph, id: NodeId, e: Edge): seq<Step>
    requires id in g.nodes
  {
    if e.target == id && g.nodes[id].nodeType in {Function, Class} && e.edgeType == Calls
    then [Step(e.source, e.edgeType, e.confidence)] else []
  }

  function OutSteps(g: Graph, id: NodeId, edges: seq<Edge>): (steps: seq<Step>)
    requires id in g.nodes
    ensures forall s :: s in steps ==> exists e :: e in edges && s in OutStep(g, id, e)
  {
    if edges == [] then [] else OutSteps(g, id, edges[..|edges| - 1]) + OutStep(g, id, edges[|edges| - 1])
  }

  function InSteps(g: Graph, id: NodeId, edges: seq<Edge>): (steps: seq<Step>)
    requires id in g.nodes
    ensures forall s :: s in steps ==> exists e :: e in edges && s in InStep(g, id, e)
  {
    if edges == [] then [] else InSteps(g, id, edges[..|edges| - 1]) + InStep(g, id, edges[|edges| - 1])
  }

  /** `_next_steps`. */
  function NextSteps(g: Graph, id: NodeId): seq<Step>
    requires id in g.nodes
  {
    Sort(OutSteps(g, id, g.edges) + InSteps(g, id, g.edges), StepLeq)
  }

  /** The edge lets impact spread from `id` by this step: out of a function or class along a call, a test, a read, a
      write or a served endpoint, out of an endpoint to what validates it, or against a call into a function or
      class. */
  predicate Allows(g: Graph, id: NodeId, e: Edge, s: Step)
    requires id in g.nodes
  {
    var code := g.nodes[id].nodeType == Function || g.nodes[id].nodeType == Class;
    && s.edgeType == e.edgeType && s.confidence == e.confidence
    && (|| (e.source == id && e.target == s.target
            && (|| (code && e.edgeType in {Calls, TestedBy, ReadsFrom, WritesTo, ServesEndpoint})
                || (g.nodes[id].nodeType == Endpoint && e.edgeType == ValidatedBy)))
        || (e.target == id && e.source == s.target && code && e.edgeType == Calls))
  }

  predicate IsStep(g: Graph, id: NodeId, s: Step)
    requires id in g.nodes
  {
    exists e :: e in g.edges && Allows(g, id, e, s)
  }

  lemma {:induction false} OutStepsComplete(g: Graph, id: NodeId, edges: seq<Edge>)
    requires id in g.nodes
    ensures forall e, s :: e in edges && s in OutStep(g, id, e) ==> s in OutSteps(g, id, edges)
  {
    if edges != [] {
      OutStepsComplete(g, id, edges[..|edges| - 1]);
      assert edges == edges[..|edges| - 1] + [edges[|edges| - 1]];
    }
  }

  lemma {:induction false} InStepsComplete(g: Graph, id: NodeId, edges: seq<Edge>)
    requires id in g.nodes
    ensures forall e, s :: e in edges && s in InStep(g, id, e) ==> s in InSteps(g, id, edges)
  {
    if edges != [] {
      InStepsComplete(g, id, edges[..|edges| - 1]);
      assert edges == edges[..|edges| - 1] + [edges[|edges| - 1]];
    }
  }

  lemma AllowsIff(g: Graph, id: NodeId, e: Edge, s: Step)
    requires id in g.nodes
    ensures Allows(g, id, e, s) <==> s in OutStep(g, id, e) || s in InStep(g, id, e)
  {
  }

  /** `_next_steps` returns exactly the steps some edge of the graph allows, by target and edge type. */
  lemma NextStepsIff(g: Graph, id: NodeId)
    requires id in g.nodes
    ensures forall s :: s in NextSteps(g, id) <==> IsStep(g, id, s)
    ensures SortedBy(NextSteps(g, id), StepLeq)
  {
    var steps := OutSteps(g, id, g.edges) + InSteps(g, id, g.edges);
    SortKeepsMembers(steps, StepLeq);
    OutStepsComplete(g, id, g.edges);
    InStepsComplete(g, id, g.edges);
    forall s ensures s in steps <==> IsStep(g, id, s) {
      forall e | e in g.edges ensures Allows(g, id, e, s) <==> s in OutStep(g, id, e) || s in InStep(g, id, e) {
        AllowsIff(g, id, e, s);
      }
    }
    StepsAreOrdered();
    SortSorts(steps, StepLeq);
  }

  lemma StepsAreOrdered()
    ensures TotalPreorder(StepLeq)
  {
    forall x, y ensures StepLeq(x, y) || StepLeq(y, x) {
      StringTotal(x.target, y.target);
      StringTotal(NameOf(x.edgeType), NameOf(y.edgeType));
    }
    forall x, y, z | StepLeq(x, y) && StepLeq(y, z) ensures StepLeq(x, z) {
      StringTotal(x.target, y.target);
      StringTotal(y.target, z.target);
      StringTransitive(x.target, y.target, z.target);
      if x.target == y.target == z.target {
        StringTransitive(NameOf(x.edgeType), NameOf(y.edgeType), NameOf(z.edgeType));
      }
    }
  }

  lemma StepsStayInGraph(g: Graph, id: NodeId)
    requires WellFormed(g) && id in g.nodes
    ensures forall s :: IsStep(g, id, s) ==> s.target in g.nodes
  {
  }

  // ----- distances

  function Starts(g: Graph): set<NodeId> {
    set id | id in g.nodes && g.nodes[id].changed
  }

  ghost predicate StepsTo(g: Graph, u: NodeId, v: NodeId)
    requires u in g.nodes
  {
    exists s :: IsStep(g, u, s) && s.target == v
  }

  /** The nodes within `n` allowed steps of a changed node. */
  ghost function Within(g: Graph, n: nat): set<NodeId> {
    if n == 0 then Starts(g)
    else
      var before := Within(g, n - 1);
      before + set v | v in g.nodes && exists u :: u in before && u in g.nodes && StepsTo(g, u, v)
  }

  lemma {:induction false} WithinGrows(g: Graph, m: nat, n: nat)
    requires m <= n
    ensures Within(g, m) <= Within(g, n)
  {
    hide StepsTo;
    if m < n {
      WithinGrows(g, m, n - 1);
    }
  }

  ghost predicate AtDistance(g: Graph, v: NodeId, d: nat) {
    v in Within(g, d) && (d > 0 ==> v !in Within(g, d - 1))
  }

  lemma DistanceIsLeast(g: Graph, v: NodeId, d: nat, k: nat)
    requires AtDistance(g, v, d) && v in Within(g, k)
    ensures d <= k
  {
    hide StepsTo;
    if k < d {
      WithinGrows(g, k, d - 1);
    }
  }

  /** The node a walk from `start` ends at. */
  function EndOf(start: NodeId, walk: seq<Step>): NodeId {
    if walk == [] then start else walk[|walk| - 1].target
  }

  /** A sequence of allowed steps, each from where the one before ended. */
  predicate IsWalk(g: Graph, start: NodeId, walk: seq<Step>) {
    walk == [] ||
    (var before := walk[..|walk| - 1];
     IsWalk(g, start, before) && EndOf(start, before) in g.nodes
     && IsStep(g, EndOf(start, before), walk[|walk| - 1]))
  }

  /** A walk from a changed node cannot end farther away than it is long, so distances are real. */
  lemma {:induction false} WalksStayWithin(g: Graph, start: NodeId, walk: seq<Step>)
    requires WellFormed(g) && start in Starts(g) && IsWalk(g, start, walk)
    ensures EndOf(start, walk) in Within(g, |walk|)
  {
    if walk != [] {
      var before := walk[..|walk| - 1];
      WalksStayWithin(g, start, before);
      StepsStayInGraph(g, EndOf(start, before));
      assert StepsTo(g, EndOf(start, before), EndOf(start, walk));
    }
  }

  function EdgePath(walk: seq<Step>): (path: seq<EdgeType>)
    ensures |path| == |walk| && forall i :: 0 <= i < |walk| ==> path[i] == walk[i].edgeType
  {
    if walk == [] then [] else EdgePath(walk[..|walk| - 1]) + [walk[|walk| - 1].edgeType]
  }

  /** The least confidence along a walk from a start of confidence `from`. */
  function Weakest(from: real, walk: seq<Step>): (least: real)
    ensures least <= from && forall i :: 0 <= i < |walk| ==> least <= walk[i].confidence
    ensures least == from || exists i :: 0 <= i < |walk| && least == walk[i].confidence
  {
    if walk == [] then from else Min(Weakest(from, walk[..|walk| - 1]), walk[|walk| - 1].confidence)
  }
}
