/** The graph of execution nodes: construction with mirrored adjacency lists, and cycle detection. */
module ExecutionGraphs {
  import opened Digraph
  import opened ModelTypes

  datatype ExecutionResource = CPU | VULKAN | CUDA | NPU | RAM | SSD | NONE

  /** A node as the scheduler sees it; `tag` stands for whatever the node does when it executes. */
  datatype ExecutionNode<T> = ExecutionNode(id: NodeId, resource: ExecutionResource, tag: T)

  const UNVISITED := 0
  const VISITING := 1
  const VISITED := 2

  /**
   * The visit states of the depth-first search: `visiting` is its call stack, and nodes are
   * numbered as they finish.
   */
  ghost predicate Coloured(g: Graph, state: map<NodeId, int>, visiting: set<NodeId>, finished: map<NodeId, nat>) {
    && visiting !! finished.Keys
    && state.Keys == g.Keys
    && (forall u :: u in g ==>
          state[u] == if u in finished then VISITED else if u in visiting then VISITING else UNVISITED)
    && Numbered(g, finished, |finished|)
  }

  /** The numbers given out so far are below n and fall along every edge. */
  ghost predicate Numbered(g: Graph, finished: map<NodeId, nat>, n: nat) {
    && (forall u :: u in finished ==> u in g && finished[u] < n)
    && Descends(g, finished)
  }

  lemma EnterNode(g: Graph, state: map<NodeId, int>, visiting: set<NodeId>, finished: map<NodeId, nat>, id: NodeId)
    requires Coloured(g, state, visiting, finished) && id in g && state[id] == UNVISITED
    ensures Coloured(g, state[id := VISITING], visiting + {id}, finished)
  {
  }

  lemma EnterShrinks(g: Graph, visiting: set<NodeId>, finished: map<NodeId, nat>, id: NodeId)
    requires id in g && id !in visiting && id !in finished
    ensures |g.Keys - (visiting + {id}) - finished.Keys| < |g.Keys - visiting - finished.Keys|
  {
    ShrinksCardinality(g.Keys - (visiting + {id}) - finished.Keys, g.Keys - visiting - finished.Keys, id);
  }

  lemma FinishNode(g: Graph, state: map<NodeId, int>, visiting: set<NodeId>, finished: map<NodeId, nat>, id: NodeId)
    requires Coloured(g, state, visiting + {id}, finished) && id !in visiting && id in g
    requires forall v :: Edge(g, id, v) ==> v in finished
    ensures Coloured(g, state[id := VISITED], visiting, finished[id := |finished|])
  {
  }

  ghost predicate AllReach(g: Graph, us: set<NodeId>, v: NodeId) {
    forall u {:trigger Reaches(g, u, v)} :: u in us ==> Reaches(g, u, v)
  }

  lemma AllReachNext(g: Graph, us: set<NodeId>, id: NodeId, next: NodeId)
    requires AllReach(g, us, id) && Edge(g, id, next)
    ensures AllReach(g, us + {id}, next)
  {
    EdgeReaches(g, id, next);
    forall u | u in us
      ensures Reaches(g, u, next)
    {
      ReachesTransitive(g, u, id, next);
    }
  }

  /** Visit everything reachable from `id`; every node on the call stack reaches `id`. */
  method Dfs(g: Graph, id: NodeId, state0: map<NodeId, int>,
             ghost visiting: set<NodeId>, ghost finished0: map<NodeId, nat>)
    returns (cycle: bool, state: map<NodeId, int>, ghost finished: map<NodeId, nat>)
    requires Closed(g) && Coloured(g, state0, visiting, finished0)
    requires id in g && state0[id] == UNVISITED
    requires AllReach(g, visiting, id)
    ensures cycle ==> HasCycle(g)
    ensures !cycle ==> Coloured(g, state, visiting, finished)
    ensures !cycle ==> id in finished && forall u :: u in finished0 ==> u in finished
    decreases |g.Keys - visiting - finished0.Keys|
  {
    EnterNode(g, state0, visiting, finished0, id);
    EnterShrinks(g, visiting, finished0, id);
    state, finished := state0[id := VISITING], finished0;
    ghost var onPath := visiting + {id};
    var rest := g[id];
    while rest != []
      invariant Coloured(g, state, onPath, finished)
      invariant forall u :: u in finished0 ==> u in finished
      invariant forall v :: v in rest ==> Edge(g, id, v)
      invariant forall v :: Edge(g, id, v) ==> v in rest || v in finished
      decreases |rest|
    {
      var next := rest[0];
      rest := rest[1..];
      AllReachNext(g, visiting, id, next);
      if state[next] == VISITING {
        assert Reaches(g, next, next);
        return true, state, finished;
      }
      if state[next] == UNVISITED {
        SubsetCardinality(g.Keys - onPath - finished.Keys, g.Keys - onPath - finished0.Keys);
        cycle, state, finished := Dfs(g, next, state, onPath, finished);
        if cycle {
          return;
        }
      }
    }
    FinishNode(g, state, visiting, finished, id);
    state, finished := state[id := VISITED], finished[id := |finished|];
    return false, state, finished;
  }

  class ExecutionGraph<T> {
    var nodes: map<NodeId, ExecutionNode<T>>
    var adj: Graph
    var revAdj: Graph

    /** Both adjacency lists cover exactly the nodes, hold no duplicates, and mirror each other. */
    ghost predicate Valid()
      reads this
    {
      && adj.Keys == nodes.Keys
      && revAdj.Keys == nodes.Keys
      && (forall u :: u in nodes ==> nodes[u].id == u)
      && (forall u, v :: Edge(adj, u, v) <==> Edge(revAdj, v, u))
      && (forall u :: u in adj ==> NoDuplicates(adj[u]))
      && (forall u :: u in revAdj ==> NoDuplicates(revAdj[u]))
    }

    constructor ()
      ensures Valid() && nodes == map[]
    {
      nodes, adj, revAdj := map[], map[], map[];
    }

    /** A repeated id replaces the node and keeps its edges. */
    method AddNode(node: Option<ExecutionNode<T>>) returns (id: NodeId)
      requires Valid()
      modifies this
      ensures Valid()
      ensures node.None? ==> id == 0 && nodes == old(nodes)
      ensures node.Some? ==> id == node.value.id && nodes == old(nodes)[id := node.value]
      ensures forall u, v :: Edge(adj, u, v) <==> old(Edge(adj, u, v))
      ensures node.Some? ==> adj == (if id in old(adj) then old(adj) else old(adj)[id := []])
    {
      if node.None? {
        return 0;
      }
      id := node.value.id;
      nodes := nodes[id := node.value];
      if id !in adj {
        adj := adj[id := []];
      }
      if id !in revAdj {
        revAdj := revAdj[id := []];
      }
      assert forall u, v :: Edge(adj, u, v) <==> old(Edge(adj, u, v));
      assert forall u, v :: Edge(revAdj, u, v) <==> old(Edge(revAdj, u, v));
    }

    method AddDependency(predecessor: NodeId, successor: NodeId) returns (ok: bool)
      requires Valid()
      modifies this
      ensures Valid() && nodes == old(nodes)
      ensures ok <==> predecessor in nodes && successor in nodes
      ensures forall u, v :: Edge(adj, u, v) <==> old(Edge(adj, u, v)) || (ok && u == predecessor && v == successor)
    {
      if predecessor !in nodes || successor !in nodes {
        return false;
      }
      if successor !in adj[predecessor] {
        adj := adj[predecessor := adj[predecessor] + [successor]];
      }
      if predecessor !in revAdj[successor] {
        revAdj := revAdj[successor := revAdj[successor] + [predecessor]];
      }
      assert forall u, v :: Edge(adj, u, v) <==> old(Edge(adj, u, v)) || (u == predecessor && v == successor);
      assert forall u, v :: Edge(revAdj, u, v) <==> old(Edge(revAdj, u, v)) || (u == successor && v == predecessor);
      return true;
    }

    lemma ValidIsClosed()
      requires Valid()
      ensures Closed(adj) && adj.Keys == nodes.Keys
    {
      forall u, v | Edge(adj, u, v)
        ensures v in adj
      {
        assert Edge(revAdj, v, u);
      }
    }

    /** Cycle detection is exact; without a cycle the reverse finishing order is topological. */
    method DetectCycle() returns (cycle: bool, ghost rank: map<NodeId, nat>)
      requires Valid()
      ensures cycle <==> HasCycle(adj)
      ensures !cycle ==> IsTopological(adj, rank)
    {
      ValidIsClosed();
      var state := map u | u in nodes :: UNVISITED;
      rank := map[];
      var todo := nodes.Keys;
      while todo != {}
        invariant Coloured(adj, state, {}, rank)
        invariant todo <= nodes.Keys
        invariant nodes.Keys - todo <= rank.Keys
        decreases |todo|
      {
        var u :| u in todo;
        if state[u] == UNVISITED {
          cycle, state, rank := Dfs(adj, u, state, {}, rank);
          if cycle {
            return;
          }
        }
        todo := todo - {u};
      }
      TopologicalIsAcyclic(adj, rank);
      return false, rank;
    }

    method Validate() returns (ok: bool, ghost rank: map<NodeId, nat>)
      requires Valid()
      ensures ok <==> !HasCycle(adj)
      ensures ok ==> IsTopological(adj, rank)
    {
      if nodes == map[] {
        rank := map[];
        assert IsTopological(adj, rank);
        TopologicalIsAcyclic(adj, rank);
        return true, rank;
      }
      var cycle;
      cycle, rank := DetectCycle();
      return !cycle, rank;
    }
  }

  lemma ShrinksCardinality(a: set<NodeId>, b: set<NodeId>, x: NodeId)
    requires a <= b - {x} && x in b
    ensures |a| < |b|
  {
    var rest := b - {x};
    assert |rest| == |b| - 1;
    SubsetCardinality(a, rest);
  }

  lemma {:induction false} SubsetCardinality(a: set<NodeId>, b: set<NodeId>)
    requires a <= b
    ensures |a| <= |b|
  {
    if a != {} {
      var x :| x in a;
      SubsetCardinality(a - {x}, b - {x});
    }
  }
}
