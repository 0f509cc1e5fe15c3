/** A plan from end to end: built into a graph, then executed. */
module GraphExecution {
  import opened Digraph
  import opened ModelTypes
  import opened ExecutionGraphs
  import opened ExecutionGraphBuilders
  import opened SchedulerModel
  import opened SchedulerRuns
  import opened SchedulerOutcome
  import opened ExecutionGraphSchedulers

  /** h is g with the edges of a plan with n residency nodes, under fresh ids from `first`. */
  ghost predicate Extends(g: Graph, h: Graph, n: nat, first: NodeId) {
    && Closed(g) && (forall x :: x in g ==> x < first)
    && forall x, y {:trigger Edge(h, x, y)} :: Edge(h, x, y) <==> Edge(g, x, y) || NewEdge(n, first, x, y)
  }

  /** The proper ancestors of the compute node are the residency nodes and the barrier. */
  lemma BeforeCompute(g: Graph, h: Graph, n: nat, first: NodeId, a: NodeId)
    requires Extends(g, h, n, first)
    ensures Reaches(h, a, first + n + 1) <==> first <= a <= first + n
  {
    var barrier, compute := first + n, first + n + 1;
    if first <= a <= barrier {
      assert NewEdge(n, first, barrier, compute);
      EdgeReaches(h, barrier, compute);
      if a < barrier {
        assert NewEdge(n, first, a, barrier);
        EdgeReaches(h, a, barrier);
        ReachesTransitive(h, a, barrier, compute);
      }
    }
    if w :| IsWalk(h, w, a, compute) {
      FreshEdgesStayBehind(g, h, n, first, w, a, compute);
    }
  }

  /** All that the compute node waits for succeeds. */
  ghost predicate AllReady(good: set<NodeId>, n: nat, first: NodeId) {
    forall a: NodeId :: first <= a <= first + n ==> a in good
  }

  lemma ComputeVerdict(g: Graph, h: Graph, n: nat, first: NodeId, good: set<NodeId>)
    requires Extends(g, h, n, first)
    ensures Verdict(h, good, first + n + 1) ==
      if !AllReady(good, n, first) then BLOCKED else if first + n + 1 in good then COMPLETED else FAILED
  {
    hide Reaches, Extends;
    var compute := first + n + 1;
    if AncestorsIn(h, good, compute) {
      forall a: NodeId | first <= a <= first + n
        ensures a in good
      {
        BeforeCompute(g, h, n, first, a);
      }
    }
    if AllReady(good, n, first) {
      forall a | Reaches(h, a, compute)
        ensures a in good
      {
        BeforeCompute(g, h, n, first, a);
      }
    }
  }

  /** After each of the first k events: a compute node that has started has all its residency nodes behind it. */
  ghost predicate Waits(p: Plan, es: seq<Event>, k: nat, n: nat, first: NodeId)
    requires WellFormed(p) && k <= |es|
  {
    && ValidRun(p, Initial(p), es[..k])
    && var state := Run(p, Initial(p), es[..k]).state;
       first + n + 1 in state && Started(state[first + n + 1]) ==>
         forall r: NodeId :: first <= r < first + n ==> r in state && state[r] == COMPLETED
  }

  /** At every point of every run of a built graph the compute node waits for every residency node. */
  lemma ComputeAfterResidency(p: Plan, g: Graph, es: seq<Event>, k: nat, n: nat, first: NodeId)
    requires WellFormed(p) && ValidRun(p, Initial(p), es) && k <= |es|
    requires Extends(g, p.adj, n, first)
    ensures Waits(p, es, k, n, first)
  {
    hide Reaches, Extends, Invariant;
    PrefixIsRun(p, Initial(p), es, k);
    InitialInvariant(p);
    RunKeeps(p, Initial(p), es[..k]);
    var s := Run(p, Initial(p), es[..k]);
    if first + n + 1 in s.state && Started(s.state[first + n + 1]) {
      forall r: NodeId | first <= r < first + n
        ensures r in s.state && s.state[r] == COMPLETED
      {
        BeforeCompute(g, p.adj, n, first, r);
        AncestorsCompleted(p, s, r, first + n + 1);
      }
    }
  }

  /**
   * Build a plan into an acyclic graph and execute it. Exactly the supported plans are built. At every
   * point of the execution the compute node has started only if every residency node has completed;
   * without cancellation it ends as its own outcome says if everything before it succeeds, and
   * blocked otherwise.
   */
  method ExecutePlan(builder: ExecutionGraphBuilder, plan: ModelExecutionPlan, regions: seq<ModelRegion>,
                     graph: ExecutionGraph<NodeKind>, good: set<NodeId>, context: ExecutionGraphContext)
    returns (built: bool, result: ExecutionGraphResult, ghost es: seq<Event>, ghost end: Progress)
    requires graph.Valid() && !HasCycle(graph.adj) && forall id :: id in graph.nodes ==> id < builder.nextId
    modifies builder, graph, context
    ensures graph.Valid() && (built <==> Supported(plan))
    ensures built ==> Follows(PlanOf(graph), good, es, end) && Quiescent(end) && result.finalState == end.state
    ensures built ==> forall k :: 0 <= k <= |es| ==>
      Waits(PlanOf(graph), es, k, |Preloaded(plan, regions)|, old(builder.nextId))
    ensures built && !end.cancelled ==>
      var n, first := |Preloaded(plan, regions)|, old(builder.nextId);
      && first + n + 1 in result.finalState
      && result.finalState[first + n + 1] ==
           if !AllReady(good, n, first) then BLOCKED else if first + n + 1 in good then COMPLETED else FAILED
  {
    hide HasCycle, Follows, Quiescent, Verdict, AllReady, Waits, Extends, Preloaded, Supported, ApartAt, Accountable,
      Final, ExecutionGraph.Valid;
    ghost var before, n, first := graph.adj, |Preloaded(plan, regions)|, builder.nextId;
    es, end, result := [], Progress(map[], map[], map[], false), ExecutionGraphResult(false, InvalidGraph, map[]);
    built := BuildPlan(builder, plan, regions, graph);
    if built {
      result, es, end := Execute(graph, good, context);
      EveryPointWaits(PlanOf(graph), before, good, es, end, n, first);
      ComputeVerdict(before, graph.adj, n, first, good);
    }
  }

  /** The graph of a supported plan: the old one, and what the plan adds behind it. */
  method BuildPlan(builder: ExecutionGraphBuilder, plan: ModelExecutionPlan, regions: seq<ModelRegion>,
                   graph: ExecutionGraph<NodeKind>) returns (built: bool)
    requires graph.Valid() && !HasCycle(graph.adj) && forall id :: id in graph.nodes ==> id < builder.nextId
    modifies builder, graph
    ensures graph.Valid() && (built <==> Supported(plan))
    ensures built ==>
      var n, first := |Preloaded(plan, regions)|, old(builder.nextId);
      !HasCycle(graph.adj) && Extends(old(graph.adj), graph.adj, n, first) && first + n + 1 in graph.nodes
  {
    hide HasCycle, NewEdge, Edge, Closed, WithPlan, Preloaded, Supported, LaidOut;
    graph.ValidIsClosed();
    hide ExecutionGraph.Valid;
    built := builder.Build(plan, regions, graph);
    if built {
      PlanHasCompute(old(graph.nodes), plan, Preloaded(plan, regions), old(builder.nextId));
    }
  }

  lemma PlanHasCompute(nodes: Nodes, plan: ModelExecutionPlan, regions: seq<ModelRegion>, first: NodeId)
    ensures first + |regions| + 1 in WithPlan(nodes, plan, regions, first)
  {
  }

  lemma EveryPointWaits(p: Plan, g: Graph, good: set<NodeId>, es: seq<Event>, s: Progress, n: nat, first: NodeId)
    requires Follows(p, good, es, s) && Extends(g, p.adj, n, first)
    ensures forall k :: 0 <= k <= |es| ==> Waits(p, es, k, n, first)
  {
    hide Waits, Extends;
    forall k | 0 <= k <= |es|
      ensures Waits(p, es, k, n, first)
    {
      ComputeAfterResidency(p, g, es, k, n, first);
    }
  }
}
