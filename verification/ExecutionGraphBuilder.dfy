/** Turning an execution plan into a graph: residency nodes, a barrier, and the compute node behind it. */
module ExecutionGraphBuilders {
  import opened Digraph
  import opened ExecutionGraphs
  import opened ModelTypes

  datatype ExecutionMode = ModeCpu | ModeVulkan | ModeCuda | ModeHybrid | ModeUnsupported

  datatype ExecutionStrategy =
    | AUTO | FULL_RESIDENT | PARTIAL_RESIDENT | STREAMING
    | MEMORY_PRESSURE | CPU_FALLBACK | ACCELERATOR_OFFLOAD | HYBRID

  datatype ModelExecutionPlan = ModelExecutionPlan(viable: bool, mode: ExecutionMode, residency: ExecutionStrategy)

  datatype NodeKind = Residency(region: ModelRegion, target: ResidencyTarget) | Synchronization | Compute

  type Node = ExecutionNode<NodeKind>

  function ComputeResource(mode: ExecutionMode): ExecutionResource {
    match mode
    case ModeVulkan => VULKAN
    case ModeCuda => CUDA
    case _ => CPU
  }

  predicate Supported(plan: ModelExecutionPlan) {
    plan.viable && plan.mode != ModeUnsupported
    && plan.residency != MEMORY_PRESSURE && plan.residency != ACCELERATOR_OFFLOAD
  }

  /** Whole-model residency goes to the compute device; every other strategy loads to RAM. */
  function ResidencyNode(plan: ModelExecutionPlan, id: NodeId, region: ModelRegion): Node {
    var device := ComputeResource(plan.mode);
    if (plan.residency == FULL_RESIDENT || plan.residency == AUTO) && device != CPU
    then ExecutionNode(id, device, Residency(region, TargetAccelerator))
    else ExecutionNode(id, RAM, Residency(region, TargetRam))
  }

  /** The regions that get a residency node: all of them, or none when streaming. */
  function Preloaded(plan: ModelExecutionPlan, regions: seq<ModelRegion>): seq<ModelRegion> {
    if plan.residency == STREAMING then [] else regions
  }

  type Nodes = map<NodeId, Node>

  /** One residency node for each region, under consecutive ids from `first`. */
  function WithResidency(nodes: Nodes, plan: ModelExecutionPlan, regions: seq<ModelRegion>, first: NodeId): Nodes {
    if regions == [] then nodes
    else
      var last := |regions| - 1;
      WithResidency(nodes, plan, regions[..last], first)
        [first + last := ResidencyNode(plan, first + last, regions[last])]
  }

  /** What a supported plan adds: the residency nodes, then the barrier, then the compute node. */
  function WithPlan(nodes: Nodes, plan: ModelExecutionPlan, regions: seq<ModelRegion>, first: NodeId): Nodes {
    var n := first + |regions|;
    WithResidency(nodes, plan, regions, first)
      [n := ExecutionNode(n, NONE, Synchronization)]
      [n + 1 := ExecutionNode(n + 1, ComputeResource(plan.mode), Compute)]
  }

  /**
   * Node by node what a plan adds: a residency node for each region, none when streaming; on the
   * plan's own accelerator for whole-model residency, otherwise in RAM; then the barrier on nothing,
   * and the compute node on the plan's device.
   */
  predicate LaidOut(nodes: Nodes, plan: ModelExecutionPlan, regions: seq<ModelRegion>, first: NodeId) {
    var n := if plan.residency == STREAMING then 0 else |regions|;
    var whole := plan.residency == FULL_RESIDENT || plan.residency == AUTO;
    && (forall id :: first <= id < first + n ==>
          && id in nodes && nodes[id].id == id
          && nodes[id].resource == (if whole && plan.mode == ModeVulkan then VULKAN
                                    else if whole && plan.mode == ModeCuda then CUDA
                                    else RAM)
          && nodes[id].tag == Residency(regions[id - first],
               if whole && (plan.mode == ModeVulkan || plan.mode == ModeCuda) then TargetAccelerator else TargetRam))
    && first + n in nodes && nodes[first + n] == ExecutionNode(first + n, NONE, Synchronization)
    && first + n + 1 in nodes && nodes[first + n + 1].id == first + n + 1 && nodes[first + n + 1].tag == Compute
    && nodes[first + n + 1].resource ==
         (if plan.mode == ModeVulkan then VULKAN else if plan.mode == ModeCuda then CUDA else CPU)
  }

  lemma PlanIsLaidOut(nodes: Nodes, plan: ModelExecutionPlan, regions: seq<ModelRegion>, first: NodeId)
    ensures LaidOut(WithPlan(nodes, plan, Preloaded(plan, regions), first), plan, regions, first)
  {
    var preloaded := Preloaded(plan, regions);
    forall id | first <= id < first + |preloaded|
      ensures id in WithResidency(nodes, plan, preloaded, first)
      ensures WithResidency(nodes, plan, preloaded, first)[id] == ResidencyNode(plan, id, preloaded[id - first])
    {
      ResidencyNodeOf(nodes, plan, preloaded, first, id);
    }
    hide WithResidency;
  }

  /** Node by node: region i under id first + i, nothing else new, nothing else changed. */
  lemma {:induction false} ResidencyNodeOf(nodes: Nodes, plan: ModelExecutionPlan, regions: seq<ModelRegion>,
                                           first: NodeId, id: NodeId)
    ensures var after := WithResidency(nodes, plan, regions, first);
      if first <= id < first + |regions|
      then id in after && after[id] == ResidencyNode(plan, id, regions[id - first])
      else (id in after <==> id in nodes) && (id in nodes ==> after[id] == nodes[id])
    decreases |regions|
  {
    if regions != [] {
      ResidencyNodeOf(nodes, plan, regions[..|regions| - 1], first, id);
    }
  }

  predicate NewEdge(n: nat, first: NodeId, u: NodeId, v: NodeId) {
    (first <= u < first + n && v == first + n) || (u == first + n && v == first + n + 1)
  }

  /** Fresh nodes that only lead from residency to barrier to compute close no cycle. */
  lemma {:induction false} FreshEdgesStayBehind(g: Graph, h: Graph, n: nat, first: NodeId, w: seq<NodeId>, u: NodeId,
                                                v: NodeId)
    requires forall x, y {:trigger Edge(h, x, y)} :: Edge(h, x, y) <==> Edge(g, x, y) || NewEdge(n, first, x, y)
    requires Closed(g) && forall x :: x in g ==> x < first || x > first + n + 1
    requires IsWalk(h, w, u, v)
    ensures u in g ==> IsWalk(g, w, u, v) && v in g
    ensures u !in g ==> first <= u < v <= first + n + 1 && v !in g
    decreases |w|
  {
    var x := w[1];
    assert Edge(h, w[0], w[1]);
    assert Edge(g, u, x) ==> x in g;
    if |w| > 2 {
      var rest := w[1..];
      assert IsWalk(h, rest, x, v);
      FreshEdgesStayBehind(g, h, n, first, rest, x, v);
      if u in g {
        forall i, j | 0 <= i < |w| && 0 <= j < |w| && j == i + 1
          ensures Edge(g, w[i], w[j])
        {
          if i > 0 {
            assert Edge(g, rest[i - 1], rest[j - 1]);
          }
        }
      }
    }
  }

  lemma FreshCycle(g: Graph, h: Graph, n: nat, first: NodeId)
    requires forall x, y {:trigger Edge(h, x, y)} :: Edge(h, x, y) <==> Edge(g, x, y) || NewEdge(n, first, x, y)
    requires Closed(g) && forall x :: x in g ==> x < first || x > first + n + 1
    ensures HasCycle(h) <==> HasCycle(g)
  {
    if u, w :| IsWalk(h, w, u, u) {
      FreshEdgesStayBehind(g, h, n, first, w, u, u);
      assert Reaches(g, u, u);
    }
    if u, w :| IsWalk(g, w, u, u) {
      forall i, j | 0 <= i < |w| && 0 <= j < |w| && j == i + 1
        ensures Edge(h, w[i], w[j])
      {
        assert Edge(g, w[i], w[j]);
      }
      assert IsWalk(h, w, u, u);
      assert Reaches(h, u, u);
    }
  }

  class ExecutionGraphBuilder {
    var nextId: NodeId

    constructor ()
      ensures nextId == 1
    {
      nextId := 1;
    }

    /** Built graphs: the old graph, the new nodes, and exactly the new edges; valid when that has no cycle. */
    method Build(plan: ModelExecutionPlan, regions: seq<ModelRegion>,
                 graph: ExecutionGraph<NodeKind>) returns (ok: bool)
      requires graph.Valid()
      modifies this, graph
      ensures graph.Valid()
      ensures !Supported(plan) ==>
        !ok && nextId == old(nextId) && graph.nodes == old(graph.nodes) && graph.adj == old(graph.adj)
      ensures Supported(plan) ==>
        var preloaded := Preloaded(plan, regions);
        var n := |preloaded|;
        && nextId == old(nextId) + n + 2
        && graph.nodes == WithPlan(old(graph.nodes), plan, preloaded, old(nextId))
        && (forall u, v {:trigger Edge(graph.adj, u, v)} ::
              Edge(graph.adj, u, v) <==> old(Edge(graph.adj, u, v)) || NewEdge(n, old(nextId), u, v))
        && (ok <==> !HasCycle(graph.adj))
      ensures Supported(plan) && (forall id :: id in old(graph.nodes) ==> id < old(nextId)) ==>
        (ok <==> !HasCycle(old(graph.adj)))
      ensures nextId > old(nextId) <==>
        && plan.viable && plan.mode != ModeUnsupported
        && plan.residency != MEMORY_PRESSURE && plan.residency != ACCELERATOR_OFFLOAD
      ensures nextId > old(nextId) ==> LaidOut(graph.nodes, plan, regions, old(nextId))
    {
      hide ExecutionGraph.Valid, Edge, HasCycle, Closed, IsTopological, WithPlan, NewEdge, LaidOut, Preloaded;
      if !Supported(plan) {
        return false;
      }
      ghost var first, before := nextId, graph.adj;
      graph.ValidIsClosed();
      AddPlan(plan, Preloaded(plan, regions), graph);
      ghost var rank;
      ok, rank := graph.Validate();
      PlanIsLaidOut(old(graph.nodes), plan, regions, first);
      if forall id :: id in old(graph.nodes) ==> id < first {
        FreshCycle(before, graph.adj, |Preloaded(plan, regions)|, first);
      }
    }

    /** Residency nodes, the barrier behind all of them, and the compute node behind the barrier. */
    method AddPlan(plan: ModelExecutionPlan, regions: seq<ModelRegion>, graph: ExecutionGraph<NodeKind>)
      requires graph.Valid()
      modifies this, graph
      ensures graph.Valid() && nextId == old(nextId) + |regions| + 2
      ensures graph.nodes == WithPlan(old(graph.nodes), plan, regions, old(nextId))
      ensures forall u, v {:trigger Edge(graph.adj, u, v)} ::
        Edge(graph.adj, u, v) <==> old(Edge(graph.adj, u, v)) || NewEdge(|regions|, old(nextId), u, v)
    {
      hide ExecutionGraph.Valid, Edge, WithResidency, NewEdge;
      ghost var first := nextId;
      var ids := AddResidencyNodes(plan, regions, graph);
      var syncId := AddFresh(ExecutionNode(nextId, NONE, Synchronization), graph);
      ResidencyIdsAreNodes(old(graph.nodes), plan, regions, first, ids, graph.nodes);
      JoinAll(ids, syncId, graph);
      var computeId := AddFresh(ExecutionNode(nextId, ComputeResource(plan.mode), Compute), graph);
      var linked := graph.AddDependency(syncId, computeId);
      EdgesOfIds(ids, first, syncId);
    }

    lemma ResidencyIdsAreNodes(nodes: Nodes, plan: ModelExecutionPlan, regions: seq<ModelRegion>, first: NodeId,
                               ids: seq<NodeId>, after: Nodes)
      requires |ids| == |regions| && forall i :: 0 <= i < |ids| ==> ids[i] == first + i
      requires forall id :: id in WithResidency(nodes, plan, regions, first) ==> id in after
      ensures forall id :: id in ids ==> id in after
    {
      forall id | id in ids
        ensures id in after
      {
        ResidencyNodeOf(nodes, plan, regions, first, id);
      }
    }

    lemma EdgesOfIds(ids: seq<NodeId>, first: NodeId, syncId: NodeId)
      requires syncId == first + |ids| && forall i :: 0 <= i < |ids| ==> ids[i] == first + i
      ensures forall u, v ::
        NewEdge(|ids|, first, u, v) <==> (u in ids && v == syncId) || (u == syncId && v == syncId + 1)
    {
      forall u | first <= u < first + |ids|
        ensures u in ids
      {
        assert ids[u - first] == u;
      }
    }

    /** An edge from every listed node to one node. */
    method JoinAll(ids: seq<NodeId>, target: NodeId, graph: ExecutionGraph<NodeKind>)
      requires graph.Valid() && target in graph.nodes && forall id :: id in ids ==> id in graph.nodes
      modifies graph
      ensures graph.Valid() && graph.nodes == old(graph.nodes)
      ensures forall u, v {:trigger Edge(graph.adj, u, v)} ::
        Edge(graph.adj, u, v) <==> old(Edge(graph.adj, u, v)) || (u in ids && v == target)
    {
      hide ExecutionGraph.Valid, Edge;
      var i := 0;
      while i < |ids|
        invariant 0 <= i <= |ids|
        invariant graph.Valid() && graph.nodes == old(graph.nodes)
        invariant forall u, v {:trigger Edge(graph.adj, u, v)} ::
          Edge(graph.adj, u, v) <==> old(Edge(graph.adj, u, v)) || (u in ids[..i] && v == target)
      {
        var ok := graph.AddDependency(ids[i], target);
        assert forall u :: u in ids[..i + 1] <==> u in ids[..i] || u == ids[i];
        i := i + 1;
      }
      assert ids[..i] == ids;
    }

    /** Add a node under the next id. */
    method AddFresh(node: Node, graph: ExecutionGraph<NodeKind>) returns (id: NodeId)
      requires graph.Valid() && node.id == nextId
      modifies this, graph
      ensures graph.Valid() && id == old(nextId) && nextId == old(nextId) + 1
      ensures graph.nodes == old(graph.nodes)[id := node]
      ensures forall u, v {:trigger Edge(graph.adj, u, v)} :: Edge(graph.adj, u, v) <==> old(Edge(graph.adj, u, v))
    {
      nextId := nextId + 1;
      id := graph.AddNode(Some(node));
    }

    method AddResidencyNodes(plan: ModelExecutionPlan, regions: seq<ModelRegion>, graph: ExecutionGraph<NodeKind>)
      returns (ids: seq<NodeId>)
      requires graph.Valid()
      modifies this, graph
      ensures graph.Valid() && nextId == old(nextId) + |regions|
      ensures |ids| == |regions| && forall i :: 0 <= i < |ids| ==> ids[i] == old(nextId) + i
      ensures graph.nodes == WithResidency(old(graph.nodes), plan, regions, old(nextId))
      ensures forall u, v {:trigger Edge(graph.adj, u, v)} :: Edge(graph.adj, u, v) <==> old(Edge(graph.adj, u, v))
    {
      hide ExecutionGraph.Valid, Edge;
      ids := [];
      ghost var first := nextId;
      var i := 0;
      while i < |regions|
        invariant 0 <= i <= |regions|
        invariant graph.Valid() && nextId == first + i
        invariant |ids| == i && forall k :: 0 <= k < i ==> ids[k] == first + k
        invariant graph.nodes == WithResidency(old(graph.nodes), plan, regions[..i], first)
        invariant forall u, v {:trigger Edge(graph.adj, u, v)} :: Edge(graph.adj, u, v) <==> old(Edge(graph.adj, u, v))
      {
        var id := AddFresh(ResidencyNode(plan, nextId, regions[i]), graph);
        ids := ids + [id];
        assert regions[..i + 1][..i] == regions[..i];
        i := i + 1;
      }
      assert regions[..i] == regions;
    }
  }
}
