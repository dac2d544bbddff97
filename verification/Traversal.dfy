/** `traverse_repository_impact`: breadth-first search under a depth and a node cap. */
module Traversal {
  import opened Common
  import opened Sorting
  import opened ImpactGraph
  import Scoring

  datatype Limits = Limits(maxDepth: nat, maxNodes: nat)

  datatype ImpactNode = ImpactNode(nodeId: NodeId, nodeType: NodeType, key: string, path: Option<string>,
                                   distance: nat, edgePath: seq<EdgeType>, confidence: real)

  /** `_impact_node`; a start takes the node's own confidence. */
  function NodeFor(g: Graph, id: NodeId, distance: nat, edgePath: seq<EdgeType>, confidence: Option<real>): ImpactNode
    requires id in g.nodes
  {
    var data := g.nodes[id];
    ImpactNode(id, data.nodeType, data.key, data.path, distance, edgePath,
               if confidence.Some? then confidence.value else data.confidence)
  }

  predicate NodeLeq(a: ImpactNode, b: ImpactNode) {
    a.distance < b.distance || (a.distance == b.distance && StringLeq(a.nodeId, b.nodeId))
  }

  // ----- what a reached node certifies

  /** A real walk from a changed node explains the distance, the edge path and the confidence. */
  ghost predicate ExplainedBy(g: Graph, node: ImpactNode, start: NodeId, walk: seq<Step>) {
    && start in Starts(g) && IsWalk(g, start, walk) && EndOf(start, walk) == node.nodeId
    && |walk| == node.distance && EdgePath(walk) == node.edgePath
    && node.confidence == Weakest(g.nodes[start].confidence, walk)
  }

  ghost predicate Explained(g: Graph, node: ImpactNode) {
    exists start, walk :: ExplainedBy(g, node, start, walk)
  }

  ghost predicate Exact(g: Graph, node: ImpactNode) {
    && node.nodeId in g.nodes
    && node.nodeType == g.nodes[node.nodeId].nodeType && node.key == g.nodes[node.nodeId].key
    && node.path == g.nodes[node.nodeId].path
    && AtDistance(g, node.nodeId, node.distance) && Explained(g, node)
  }

  /** No walk from any changed node reaches the node in fewer steps than its distance. */
  lemma NoShorterWalk(g: Graph, node: ImpactNode, start: NodeId, walk: seq<Step>)
    requires WellFormed(g) && Exact(g, node)
    requires start in Starts(g) && IsWalk(g, start, walk) && EndOf(start, walk) == node.nodeId
    ensures node.distance <= |walk|
  {
    hide IsStep, StepsTo;
    WalksStayWithin(g, start, walk);
    DistanceIsLeast(g, node.nodeId, node.distance, |walk|);
  }

  lemma StartIsExact(g: Graph, id: NodeId)
    requires id in Starts(g)
    ensures Exact(g, NodeFor(g, id, 0, [], None))
  {
    assert ExplainedBy(g, NodeFor(g, id, 0, [], None), id, []);
  }

  function NextNode(g: Graph, current: ImpactNode, step: Step): ImpactNode
    requires step.target in g.nodes
  {
    NodeFor(g, step.target, current.distance + 1, current.edgePath + [step.edgeType],
            Some(Min(current.confidence, step.confidence)))
  }

  lemma NextIsExact(g: Graph, current: ImpactNode, step: Step)
    requires WellFormed(g) && Exact(g, current) && IsStep(g, current.nodeId, step)
    requires step.target in g.nodes && step.target !in Within(g, current.distance)
    ensures Exact(g, NextNode(g, current, step))
  {
    hide IsStep, StepsTo, Within, Explained;
    NextIsExplained(g, current, step);
    StepReaches(g, current.nodeId, step, current.distance);
  }

  lemma NextIsExplained(g: Graph, current: ImpactNode, step: Step)
    requires Explained(g, current) && current.nodeId in g.nodes && step.target in g.nodes
    requires IsStep(g, current.nodeId, step)
    ensures Explained(g, NextNode(g, current, step))
  {
    hide IsStep, Starts;
    var start, walk :| ExplainedBy(g, current, start, walk);
    var longer := walk + [step];
    assert longer[..|walk|] == walk;
    assert ExplainedBy(g, NextNode(g, current, step), start, longer);
  }

  lemma StepReaches(g: Graph, u: NodeId, step: Step, n: nat)
    requires WellFormed(g) && u in g.nodes && u in Within(g, n) && IsStep(g, u, step)
    ensures step.target in g.nodes && step.target in Within(g, n + 1)
  {
    StepsStayInGraph(g, u);
    hide IsStep;
    assert StepsTo(g, u, step.target);
  }

  // ----- the search state

  /** `reached` in insertion order, and the queue. */
  ghost predicate Coherent(g: Graph, limits: Limits, found: seq<NodeId>, reached: map<NodeId, ImpactNode>,
                           pending: seq<ImpactNode>)
  {
    && Distinct(found) && (forall id :: id in found <==> id in reached)
    && |found| <= limits.maxNodes
    && (forall id :: id in reached ==>
        reached[id].nodeId == id && Exact(g, reached[id]) && reached[id].distance <= limits.maxDepth)
    && forall i :: 0 <= i < |pending| ==> pending[i].nodeId in reached && reached[pending[i].nodeId] == pending[i]
  }

  /** The queue is ordered by distance and spans at most two levels, starting at `level`. */
  ghost predicate Layered(pending: seq<ImpactNode>, level: nat) {
    && (forall i :: 0 <= i < |pending| ==> level <= pending[i].distance <= level + 1)
    && forall i, j :: 0 <= i < j < |pending| ==> pending[i].distance <= pending[j].distance
  }

  /** Every step out of `u` leads to a reached node. */
  ghost predicate Expanded(g: Graph, u: NodeId, ids: set<NodeId>)
    requires u in g.nodes
  {
    forall s :: IsStep(g, u, s) ==> s.target in ids
  }

  /** All changed nodes are reached and every node that left the queue was fully expanded. */
  ghost predicate Complete(g: Graph, limits: Limits, reached: map<NodeId, ImpactNode>, pending: seq<ImpactNode>) {
    && Starts(g) <= reached.Keys
    && forall id :: id in reached && id in g.nodes && reached[id] !in pending && reached[id].distance < limits.maxDepth
         ==> Expanded(g, id, reached.Keys)
  }

  /** The node cap was hit: it is full, something within depth is missing, and nothing missing is closer
      than anything reached. */
  ghost predicate CutOff(g: Graph, limits: Limits, reached: map<NodeId, ImpactNode>) {
    && |reached| == limits.maxNodes
    && (exists v :: v in Within(g, limits.maxDepth) && v !in reached)
    && forall u, k: nat, id :: u in Within(g, k) && u !in reached && id in reached ==> reached[id].distance <= k
  }

  /** A node closer than everything still queued was expanded, so its steps lead to reached nodes. */
  lemma NextIsReached(g: Graph, limits: Limits, found: seq<NodeId>, reached: map<NodeId, ImpactNode>,
                      pending: seq<ImpactNode>, k: nat, u: NodeId, v: NodeId)
    requires Coherent(g, limits, found, reached, pending) && Complete(g, limits, reached, pending)
    requires k < limits.maxDepth && forall i :: 0 <= i < |pending| ==> k < pending[i].distance
    requires u in Within(g, k) && u in reached && u in g.nodes && StepsTo(g, u, v)
    ensures v in reached
  {
    hide IsStep, Exact, Within;
    ReachedDistance(g, reached, u, k);
    assert Expanded(g, u, reached.Keys);
  }

  /** Nodes closer than everything still queued are all reached. */
  lemma {:induction false} CloserNodesReached(g: Graph, limits: Limits, found: seq<NodeId>,
                                              reached: map<NodeId, ImpactNode>, pending: seq<ImpactNode>, k: nat)
    requires WellFormed(g) && Coherent(g, limits, found, reached, pending) && Complete(g, limits, reached, pending)
    requires k <= limits.maxDepth && forall i :: 0 <= i < |pending| ==> k <= pending[i].distance
    ensures Within(g, k) <= reached.Keys
  {
    hide IsStep, StepsTo, Coherent, Complete, WellFormed;
    if k == 0 {
      StartsReached(g, limits, reached, pending);
    } else {
      CloserNodesReached(g, limits, found, reached, pending, k - 1);
      forall v | v in Within(g, k) && v !in Within(g, k - 1) ensures v in reached {
        var u :| u in Within(g, k - 1) && u in g.nodes && StepsTo(g, u, v);
        NextIsReached(g, limits, found, reached, pending, k - 1, u, v);
      }
    }
  }

  lemma StartsReached(g: Graph, limits: Limits, reached: map<NodeId, ImpactNode>, pending: seq<ImpactNode>)
    requires Complete(g, limits, reached, pending)
    ensures Within(g, 0) <= reached.Keys
  {
  }

  lemma ReachedDistance(g: Graph, reached: map<NodeId, ImpactNode>, u: NodeId, k: nat)
    requires u in reached && reached[u].nodeId == u && Exact(g, reached[u]) && u in Within(g, k)
    ensures reached[u].distance <= k
  {
    DistanceIsLeast(g, u, reached[u].distance, k);
  }

  lemma {:induction false} KeyCount(found: seq<NodeId>, reached: map<NodeId, ImpactNode>)
    requires Distinct(found) && forall id :: id in found <==> id in reached
    ensures |found| == |reached|
  {
    var ids := set id | id in found;
    assert ids == reached.Keys;
    DistinctSize(found);
  }

  lemma {:induction false} DistinctSize(xs: seq<NodeId>)
    requires Distinct(xs)
    ensures |set x | x in xs| == |xs|
  {
    if xs != [] {
      DistinctSize(xs[1..]);
      assert (set x | x in xs) == {xs[0]} + (set x | x in xs[1..]);
    }
  }

  /** Hitting the cap while expanding level `level`, when everything closer or level with it is reached. */
  lemma CapIsCutOff(g: Graph, limits: Limits, reached: map<NodeId, ImpactNode>, level: nat, missing: NodeId)
    requires |reached| == limits.maxNodes && Within(g, level) <= reached.Keys
    requires forall id :: id in reached ==> reached[id].distance <= level + 1
    requires missing in Within(g, limits.maxDepth) && missing !in reached
    ensures CutOff(g, limits, reached)
  {
    hide StepsTo;
    forall u, k: nat, id | u in Within(g, k) && u !in reached && id in reached ensures reached[id].distance <= k {
      if k <= level {
        WithinGrows(g, k, level);
      }
    }
  }

  // ----- expanding one node

  lemma AddKeepsCoherent(g: Graph, limits: Limits, found: seq<NodeId>, reached: map<NodeId, ImpactNode>,
                         pending: seq<ImpactNode>, next: ImpactNode)
    requires Coherent(g, limits, found, reached, pending) && next.nodeId !in reached && |found| < limits.maxNodes
    requires Exact(g, next) && next.distance <= limits.maxDepth
    ensures Coherent(g, limits, found + [next.nodeId], reached[next.nodeId := next], pending + [next])
  {
    hide Exact;
  }

  lemma AddKeepsLayered(pending: seq<ImpactNode>, next: ImpactNode, level: nat)
    requires Layered(pending, level) && next.distance == level + 1
    ensures Layered(pending + [next], level)
  {
  }

  /** Add the unreached targets of `steps`, in order, while the cap allows. */
  method Expand(g: Graph, limits: Limits, current: ImpactNode, found0: seq<NodeId>, reached0: map<NodeId, ImpactNode>,
                rest: seq<ImpactNode>, truncated0: bool)
    returns (found: seq<NodeId>, reached: map<NodeId, ImpactNode>, pending: seq<ImpactNode>, truncated: bool)
    requires WellFormed(g) && Coherent(g, limits, found0, reached0, [current] + rest)
    requires Layered(rest, current.distance) && current.distance < limits.maxDepth
    requires forall id :: id in reached0 ==> reached0[id].distance <= current.distance + 1
    requires if truncated0 then CutOff(g, limits, reached0) else Complete(g, limits, reached0, [current] + rest)
    ensures Coherent(g, limits, found, reached, pending) && Layered(pending, current.distance)
    ensures forall id :: id in reached ==> reached[id].distance <= current.distance + 1
    ensures if truncated then CutOff(g, limits, reached) else Complete(g, limits, reached, pending)
    ensures |found| - |found0| == |pending| - |rest|
  {
    hide NextSteps, IsStep, Exact, AtDistance, StepsTo, CutOff, Coherent, Layered, Complete, NodeFor, Within;
    found, reached, pending, truncated := found0, reached0, rest, truncated0;
    var level := current.distance;
    Dequeue(g, limits, current, found0, reached0, rest);
    ExactIsNode(g, current);
    if !truncated0 {
      QueueIsAhead(current, rest);
      CloserNodesReached(g, limits, found0, reached0, [current] + rest, level);
    }
    var steps := NextSteps(g, current.nodeId);
    StepsAre(g, current.nodeId);
    for i := 0 to |steps|
      invariant Coherent(g, limits, found, reached, pending) && Layered(pending, level)
      invariant current.nodeId in reached && reached[current.nodeId] == current
      invariant forall id :: id in reached ==> reached[id].distance <= level + 1
      invariant |found| - |found0| == |pending| - |rest|
      invariant truncated ==> CutOff(g, limits, reached)
      invariant !truncated ==> Complete(g, limits, reached, [current] + pending) && Within(g, level) <= reached.Keys
      invariant !truncated ==> forall k :: 0 <= k < i ==> steps[k].target in reached
    {
      var step := steps[i];
      StepReachesFrom(g, current, step);
      CoherentCount(g, limits, found, reached, pending);
      if step.target !in reached {
        if |found| >= limits.maxNodes {
          if !truncated {
            WithinGrows(g, level + 1, limits.maxDepth);
            CapIsCutOff(g, limits, reached, level, step.target);
          }
          truncated := true;
        } else {
          CutOffIsFull(g, limits, reached);
          var next := NextNode(g, current, step);
          NextIsExact(g, current, step);
          NextNodeFields(g, current, step);
          AddKeepsCoherent(g, limits, found, reached, pending, next);
          AddKeepsLayered(pending, next, level);
          AddKeepsComplete(g, limits, reached, [current] + pending, next);
          assert [current] + pending + [next] == [current] + (pending + [next]);
          reached := reached[step.target := next];
          found := found + [step.target];
          pending := pending + [next];
        }
      }
    }
    CoherentCount(g, limits, found, reached, pending);
    if !truncated {
      assert Expanded(g, current.nodeId, reached.Keys);
      ExpandedIsComplete(g, limits, reached, current, pending);
    }
  }

  lemma StepsAre(g: Graph, id: NodeId)
    requires id in g.nodes
    ensures forall s :: s in NextSteps(g, id) <==> IsStep(g, id, s)
  {
    hide NextSteps, IsStep;
    NextStepsIff(g, id);
  }

  lemma QueueIsAhead(current: ImpactNode, rest: seq<ImpactNode>)
    requires Layered(rest, current.distance)
    ensures forall i :: 0 <= i < |[current] + rest| ==> current.distance <= ([current] + rest)[i].distance
  {
  }

  lemma NextNodeFields(g: Graph, current: ImpactNode, step: Step)
    requires step.target in g.nodes
    ensures NextNode(g, current, step).nodeId == step.target
            && NextNode(g, current, step).distance == current.distance + 1
  {
  }

  lemma CoherentCount(g: Graph, limits: Limits, found: seq<NodeId>, reached: map<NodeId, ImpactNode>,
                      pending: seq<ImpactNode>)
    requires Coherent(g, limits, found, reached, pending)
    ensures |found| == |reached| <= limits.maxNodes
    ensures forall id :: id in reached ==> reached[id].nodeId == id
  {
    hide Exact;
    KeyCount(found, reached);
  }

  lemma CutOffIsFull(g: Graph, limits: Limits, reached: map<NodeId, ImpactNode>)
    ensures CutOff(g, limits, reached) ==> |reached| == limits.maxNodes
  {
  }

  lemma ExpandedIsComplete(g: Graph, limits: Limits, reached: map<NodeId, ImpactNode>, current: ImpactNode,
                           pending: seq<ImpactNode>)
    requires Complete(g, limits, reached, [current] + pending) && current.nodeId in g.nodes
    requires Expanded(g, current.nodeId, reached.Keys)
    requires forall id :: id in reached && reached[id] == current ==> id == current.nodeId
    ensures Complete(g, limits, reached, pending)
  {
    hide IsStep;
    forall id | id in reached && id in g.nodes && reached[id] !in pending && reached[id].distance < limits.maxDepth
      ensures Expanded(g, id, reached.Keys)
    {
      if reached[id] != current {
        assert reached[id] !in [current] + pending;
      }
    }
  }

  lemma Dequeue(g: Graph, limits: Limits, current: ImpactNode, found: seq<NodeId>, reached: map<NodeId, ImpactNode>,
                rest: seq<ImpactNode>)
    requires Coherent(g, limits, found, reached, [current] + rest)
    ensures Coherent(g, limits, found, reached, rest) && Exact(g, current)
    ensures current.nodeId in reached && reached[current.nodeId] == current && current.distance <= limits.maxDepth
  {
    hide Exact;
    var pending := [current] + rest;
    assert pending[0] == current;
    assert forall i :: 0 <= i < |rest| ==> rest[i] == pending[i + 1];
  }

  lemma ExactIsNode(g: Graph, node: ImpactNode)
    requires Exact(g, node)
    ensures node.nodeId in g.nodes && node.nodeId in Within(g, node.distance)
  {
  }

  lemma StepReachesFrom(g: Graph, current: ImpactNode, step: Step)
    requires WellFormed(g) && Exact(g, current) && current.nodeId in g.nodes && IsStep(g, current.nodeId, step)
    ensures step.target in g.nodes && step.target in Within(g, current.distance + 1)
  {
    StepReaches(g, current.nodeId, step, current.distance);
  }

  lemma AddKeepsComplete(g: Graph, limits: Limits, reached: map<NodeId, ImpactNode>, pending: seq<ImpactNode>,
                         next: ImpactNode)
    requires next.nodeId !in reached && Complete(g, limits, reached, pending)
    ensures Complete(g, limits, reached[next.nodeId := next], pending + [next])
  {
    hide IsStep;
    var more := reached[next.nodeId := next];
    forall id | id in more && id in g.nodes && more[id] !in pending + [next] && more[id].distance < limits.maxDepth
      ensures Expanded(g, id, more.Keys)
    {
      assert next in pending + [next];
      assert more[id] !in pending;
      assert Expanded(g, id, reached.Keys);
    }
  }

  // ----- the whole traversal

  /** Every node is exact, within depth, listed once, and nearest first. */
  ghost predicate ExactlyPlaced(g: Graph, limits: Limits, nodes: seq<ImpactNode>) {
    && (forall n :: n in nodes ==> Exact(g, n) && n.distance <= limits.maxDepth)
    && forall i, j :: 0 <= i < j < |nodes| ==> nodes[i].nodeId != nodes[j].nodeId && NodeLeq(nodes[i], nodes[j])
  }

  /** Nothing left out within depth is closer than anything returned. */
  ghost predicate NothingCloserMissing(g: Graph, limits: Limits, nodes: seq<ImpactNode>) {
    forall u, k: nat, n :: k <= limits.maxDepth && u in Within(g, k) && n in nodes && !Returned(nodes, u)
      ==> n.distance <= k
  }

  /** The limit is reported exactly when it was needed; otherwise the result is the whole neighbourhood. */
  ghost predicate LimitIsHonest(g: Graph, limits: Limits, nodes: seq<ImpactNode>, truncated: bool) {
    && (truncated <==> |Within(g, limits.maxDepth)| > limits.maxNodes)
    && |nodes| <= limits.maxNodes
    && (truncated ==> |nodes| == limits.maxNodes)
    && (!truncated ==> forall v :: v in Within(g, limits.maxDepth) <==> Returned(nodes, v))
  }

  /** What the traversal promises, truncated or not. */
  ghost predicate Answers(g: Graph, limits: Limits, nodes: seq<ImpactNode>, truncated: bool) {
    && ExactlyPlaced(g, limits, nodes) && NothingCloserMissing(g, limits, nodes)
    && LimitIsHonest(g, limits, nodes, truncated)
  }

  /** A changed node reaches this one by a walk that allows this many steps. */
  ghost predicate Reaches(g: Graph, start: NodeId, walk: seq<Step>, id: NodeId, steps: nat) {
    && start in g.nodes && g.nodes[start].changed && IsWalk(g, start, walk) && EndOf(start, walk) == id
    && |walk| <= steps
  }

  /** Unless it was cut off, a traversal returns exactly what some changed node reaches within the depth. */
  lemma ReturnedIff(g: Graph, limits: Limits, nodes: seq<ImpactNode>, id: NodeId)
    requires WellFormed(g) && Answers(g, limits, nodes, false) && id in g.nodes
    ensures Returned(nodes, id) <==> exists start, walk :: Reaches(g, start, walk, id, limits.maxDepth)
  {
    hide IsStep, StepsTo, NodeLeq, IsWalk, AtDistance;
    if Returned(nodes, id) {
      var n :| n in nodes && n.nodeId == id;
      assert Exact(g, n);
      var start, walk :| ExplainedBy(g, n, start, walk);
      assert Reaches(g, start, walk, id, limits.maxDepth);
    }
    if start, walk :| Reaches(g, start, walk, id, limits.maxDepth) {
      WalksStayWithin(g, start, walk);
      WithinGrows(g, |walk|, limits.maxDepth);
    }
  }

  predicate Returned(nodes: seq<ImpactNode>, id: NodeId) {
    exists n :: n in nodes && n.nodeId == id
  }

  /** The loop over the changed nodes, in sorted order. */
  method Seed(g: Graph, limits: Limits, starts: seq<NodeId>)
    returns (found: seq<NodeId>, reached: map<NodeId, ImpactNode>, pending: seq<ImpactNode>, truncated: bool)
    requires WellFormed(g) && limits.maxNodes > 0
    requires Distinct(starts) && forall id :: id in starts <==> id in Starts(g)
    ensures Coherent(g, limits, found, reached, pending) && Layered(pending, 0)
    ensures forall id :: id in reached ==> reached[id].distance == 0
    ensures if truncated then CutOff(g, limits, reached) else Complete(g, limits, reached, pending)
  {
    hide IsStep, Exact, AtDistance, StepsTo;
    found, reached, pending, truncated := [], map[], [], false;
    for i := 0 to |starts|
      invariant Coherent(g, limits, found, reached, pending) && Layered(pending, 0)
      invariant forall id :: id in reached ==> reached[id].distance == 0 && reached[id] in pending && id in starts[..i]
      invariant forall id :: id in starts[..i] ==> id in reached
    {
      KeyCount(found, reached);
      if |found| >= limits.maxNodes {
        truncated := true;
        WithinGrows(g, 0, limits.maxDepth);
        assert starts[i] in Starts(g) && starts[i] !in reached;
        return;
      }
      var id := starts[i];
      assert id in Starts(g);
      var node := NodeFor(g, id, 0, [], None);
      StartIsExact(g, id);
      AddKeepsCoherent(g, limits, found, reached, pending, node);
      reached := reached[id := node];
      found := found + [id];
      pending := pending + [node];
    }
  }

  /** The queue loop. */
  method Search(g: Graph, limits: Limits, found0: seq<NodeId>, reached0: map<NodeId, ImpactNode>,
                pending0: seq<ImpactNode>, truncated0: bool)
    returns (found: seq<NodeId>, reached: map<NodeId, ImpactNode>, truncated: bool)
    requires WellFormed(g) && Coherent(g, limits, found0, reached0, pending0) && Layered(pending0, 0)
    requires forall id :: id in reached0 ==> reached0[id].distance == 0
    requires if truncated0 then CutOff(g, limits, reached0) else Complete(g, limits, reached0, pending0)
    ensures Coherent(g, limits, found, reached, [])
    ensures if truncated then CutOff(g, limits, reached) else Complete(g, limits, reached, [])
  {
    hide IsStep, Exact, AtDistance, StepsTo;
    found, reached, truncated := found0, reached0, truncated0;
    var pending := pending0;
    ghost var level := 0;
    while pending != []
      invariant Coherent(g, limits, found, reached, pending) && Layered(pending, level)
      invariant forall id :: id in reached ==> reached[id].distance <= level + 1
      invariant if truncated then CutOff(g, limits, reached) else Complete(g, limits, reached, pending)
      decreases limits.maxNodes - |found| + |pending|
    {
      var current, rest := pending[0], pending[1..];
      assert pending == [current] + rest;
      Dequeue(g, limits, current, found, reached, rest);
      level := current.distance;
      if current.distance >= limits.maxDepth {
        SkipKeepsComplete(g, limits, reached, current, rest);
        pending := rest;
      } else {
        found, reached, pending, truncated := Expand(g, limits, current, found, reached, rest, truncated);
      }
    }
  }

  lemma SkipKeepsComplete(g: Graph, limits: Limits, reached: map<NodeId, ImpactNode>, current: ImpactNode,
                          rest: seq<ImpactNode>)
    requires current.distance >= limits.maxDepth
    ensures Complete(g, limits, reached, [current] + rest) ==> Complete(g, limits, reached, rest)
  {
    hide IsStep;
    if Complete(g, limits, reached, [current] + rest) {
      forall id | id in reached && id in g.nodes && reached[id] !in rest && reached[id].distance < limits.maxDepth
        ensures Expanded(g, id, reached.Keys)
      {
        assert reached[id] !in [current] + rest;
      }
    }
  }

  function Listed(found: seq<NodeId>, reached: map<NodeId, ImpactNode>): seq<ImpactNode>
    requires forall id :: id in found ==> id in reached
  {
    seq(|found|, i requires 0 <= i < |found| => reached[found[i]])
  }

  // ----- from the search state to the answer

  lemma NodeLeqTotal()
    ensures TotalPreorder(NodeLeq)
  {
    forall x, y ensures NodeLeq(x, y) || NodeLeq(y, x) {
      StringTotal(x.nodeId, y.nodeId);
    }
    forall x, y, z | NodeLeq(x, y) && NodeLeq(y, z) ensures NodeLeq(x, z) {
      if x.distance == y.distance == z.distance {
        StringTransitive(x.nodeId, y.nodeId, z.nodeId);
      }
    }
  }

  /** The returned sequence holds exactly the reached nodes, nearest first. */
  ghost predicate Lists(nodes: seq<ImpactNode>, reached: map<NodeId, ImpactNode>) {
    && |nodes| == |reached|
    && (forall n :: n in nodes ==> n.nodeId in reached && reached[n.nodeId] == n)
    && (forall id :: id in reached ==> reached[id] in nodes)
    && Distinct(nodes) && SortedBy(nodes, NodeLeq)
  }

  lemma ReturnedIffReached(nodes: seq<ImpactNode>, reached: map<NodeId, ImpactNode>)
    requires Lists(nodes, reached) && forall id :: id in reached ==> reached[id].nodeId == id
    ensures forall u :: Returned(nodes, u) <==> u in reached
  {
    hide NodeLeq;
    forall u | u in reached ensures Returned(nodes, u) {
      assert reached[u] in nodes && reached[u].nodeId == u;
    }
  }

  lemma ListedMembers(found: seq<NodeId>, reached: map<NodeId, ImpactNode>)
    requires Distinct(found) && (forall id :: id in found <==> id in reached)
    requires forall id :: id in reached ==> reached[id].nodeId == id
    ensures var listed := Listed(found, reached);
            && Distinct(listed) && (forall n :: n in listed ==> n.nodeId in reached && reached[n.nodeId] == n)
            && forall id :: id in reached ==> reached[id] in listed
  {
    var listed := Listed(found, reached);
    assert forall i :: 0 <= i < |listed| ==> listed[i].nodeId == found[i];
    forall id | id in reached ensures reached[id] in listed {
      var i :| 0 <= i < |found| && found[i] == id;
      assert listed[i] == reached[id];
    }
  }

  lemma SortedListing(found: seq<NodeId>, reached: map<NodeId, ImpactNode>)
    requires Distinct(found) && (forall id :: id in found <==> id in reached)
    requires forall id :: id in reached ==> reached[id].nodeId == id
    ensures Lists(Sort(Listed(found, reached), NodeLeq), reached)
  {
    hide NodeLeq;
    var listed := Listed(found, reached);
    KeyCount(found, reached);
    ListedMembers(found, reached);
    hide Listed;
    SortLists(listed, reached);
  }

  lemma SortLists(listed: seq<ImpactNode>, reached: map<NodeId, ImpactNode>)
    requires |listed| == |reached| && Distinct(listed)
    requires forall n :: n in listed ==> n.nodeId in reached && reached[n.nodeId] == n
    requires forall id :: id in reached ==> reached[id] in listed
    ensures Lists(Sort(listed, NodeLeq), reached)
  {
    hide Sort, NodeLeq, TotalPreorder;
    SortKeepsDistinct(listed, NodeLeq);
    SortKeepsMembers(listed, NodeLeq);
    NodeLeqTotal();
    SortSorts(listed, NodeLeq);
  }

  lemma ReachedIsWithin(g: Graph, limits: Limits, found: seq<NodeId>, reached: map<NodeId, ImpactNode>)
    requires Coherent(g, limits, found, reached, [])
    ensures reached.Keys <= Within(g, limits.maxDepth)
  {
    hide StepsTo;
    forall id | id in reached ensures id in Within(g, limits.maxDepth) {
      ExactIsNode(g, reached[id]);
      WithinGrows(g, reached[id].distance, limits.maxDepth);
    }
  }

  lemma ProperSubset(a: set<NodeId>, b: set<NodeId>, x: NodeId)
    requires a <= b && x in b && x !in a
    ensures |a| < |b|
  {
    Scoring.Subsets(a, b - {x});
  }

  lemma AllPlaced(g: Graph, limits: Limits, found: seq<NodeId>, reached: map<NodeId, ImpactNode>,
                  nodes: seq<ImpactNode>)
    requires Coherent(g, limits, found, reached, []) && Lists(nodes, reached)
    ensures ExactlyPlaced(g, limits, nodes)
  {
    hide Exact, NodeLeq;
    forall i, j | 0 <= i < j < |nodes| ensures nodes[i].nodeId != nodes[j].nodeId && NodeLeq(nodes[i], nodes[j]) {
      assert nodes[i] in nodes && nodes[j] in nodes;
    }
  }

  /** Without the cap everything within depth is reached; with it, the neighbourhood is larger. */
  lemma ReachedOrCut(g: Graph, limits: Limits, found: seq<NodeId>, reached: map<NodeId, ImpactNode>, truncated: bool)
    requires WellFormed(g) && Coherent(g, limits, found, reached, [])
    requires if truncated then CutOff(g, limits, reached) else Complete(g, limits, reached, [])
    ensures truncated <==> |Within(g, limits.maxDepth)| > limits.maxNodes
    ensures |reached| <= limits.maxNodes && (truncated ==> |reached| == limits.maxNodes)
    ensures !truncated ==> reached.Keys == Within(g, limits.maxDepth)
  {
    hide IsStep, Exact, AtDistance, StepsTo, Within;
    CoherentCount(g, limits, found, reached, []);
    ReachedIsWithin(g, limits, found, reached);
    if truncated {
      var v :| v in Within(g, limits.maxDepth) && v !in reached;
      ProperSubset(reached.Keys, Within(g, limits.maxDepth), v);
    } else {
      CloserNodesReached(g, limits, found, reached, [], limits.maxDepth);
      assert reached.Keys == Within(g, limits.maxDepth);
    }
  }

  lemma NothingCloser(g: Graph, limits: Limits, reached: map<NodeId, ImpactNode>, truncated: bool,
                      nodes: seq<ImpactNode>)
    requires Lists(nodes, reached) && forall u :: Returned(nodes, u) <==> u in reached
    requires if truncated then CutOff(g, limits, reached) else reached.Keys == Within(g, limits.maxDepth)
    ensures NothingCloserMissing(g, limits, nodes)
  {
    hide NodeLeq, StepsTo, Returned;
    forall u, k: nat, n | k <= limits.maxDepth && u in Within(g, k) && n in nodes && !Returned(nodes, u)
      ensures n.distance <= k
    {
      WithinGrows(g, k, limits.maxDepth);
      assert reached[n.nodeId] == n;
    }
  }

  lemma AnswerFromState(g: Graph, limits: Limits, found: seq<NodeId>, reached: map<NodeId, ImpactNode>,
                        truncated: bool, nodes: seq<ImpactNode>)
    requires WellFormed(g) && Coherent(g, limits, found, reached, []) && Lists(nodes, reached)
    requires if truncated then CutOff(g, limits, reached) else Complete(g, limits, reached, [])
    ensures Answers(g, limits, nodes, truncated)
  {
    hide IsStep, Exact, AtDistance, StepsTo, NodeLeq, Complete, CutOff, Within, ExactlyPlaced, NothingCloserMissing;
    CoherentCount(g, limits, found, reached, []);
    AllPlaced(g, limits, found, reached, nodes);
    ReturnedIffReached(nodes, reached);
    ReachedOrCut(g, limits, found, reached, truncated);
    NothingCloser(g, limits, reached, truncated, nodes);
  }

  function ChangedIn(g: Graph, order: seq<NodeId>): (ids: seq<NodeId>)
    requires forall id :: id in order ==> id in g.nodes
    requires Distinct(order)
    ensures Distinct(ids) && forall id :: id in ids <==> id in order && g.nodes[id].changed
  {
    if order == [] then []
    else
      var n := |order| - 1;
      var before := ChangedIn(g, order[..n]);
      assert order == order[..n] + [order[n]] && order[n] !in order[..n];
      if g.nodes[order[n]].changed then before + [order[n]] else before
  }

  /** `traverse_repository_impact`. Without a changed node the result is empty and says so. */
  method Traverse(g: Graph, limits: Limits) returns (nodes: seq<ImpactNode>, truncated: bool, noChangedNodes: bool)
    requires WellFormed(g) && limits.maxNodes > 0
    ensures Answers(g, limits, nodes, truncated)
    ensures noChangedNodes <==> forall id :: id in g.nodes ==> !g.nodes[id].changed
  {
    hide IsStep, Exact, AtDistance, StepsTo, NodeLeq;
    var changed := ChangedIn(g, g.order);
    var starts := Sort(changed, StringLeq);
    SortKeepsMembers(changed, StringLeq);
    SortKeepsDistinct(changed, StringLeq);
    assert forall id :: id in starts <==> id in Starts(g);
    var found: seq<NodeId>, reached: map<NodeId, ImpactNode>, pending: seq<ImpactNode>;
    found, reached, pending, truncated := Seed(g, limits, starts);
    noChangedNodes := starts == [];
    assert noChangedNodes || starts[0] in Starts(g);
    found, reached, truncated := Search(g, limits, found, reached, pending, truncated);
    nodes := Sort(Listed(found, reached), NodeLeq);
    SortedListing(found, reached);
    AnswerFromState(g, limits, found, reached, truncated, nodes);
  }
}
