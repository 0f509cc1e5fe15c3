/** Finite directed graphs as successor lists: walks, reachability, cycles and topological orders. */
module Digraph {

  type NodeId = nat
  type Graph = map<NodeId, seq<NodeId>>

  ghost predicate Closed(g: Graph) {
    forall u, v :: Edge(g, u, v) ==> v in g
  }

  ghost predicate Edge(g: Graph, u: NodeId, v: NodeId) {
    u in g && v in g[u]
  }

  ghost predicate Chain(g: Graph, p: seq<NodeId>) {
    forall i, j :: 0 <= i < |p| && 0 <= j < |p| && j == i + 1 ==> Edge(g, p[i], p[j])
  }

  /** A walk follows at least one edge. */
  ghost predicate IsWalk(g: Graph, p: seq<NodeId>, u: NodeId, v: NodeId) {
    && |p| >= 2
    && p[0] == u
    && p[|p| - 1] == v
    && Chain(g, p)
  }

  /** v is a proper descendant of u. */
  ghost predicate Reaches(g: Graph, u: NodeId, v: NodeId) {
    exists p :: IsWalk(g, p, u, v)
  }

  ghost predicate HasCycle(g: Graph) {
    exists u :: Reaches(g, u, u)
  }

  lemma EdgeReaches(g: Graph, u: NodeId, v: NodeId)
    requires Edge(g, u, v)
    ensures Reaches(g, u, v)
  {
    assert IsWalk(g, [u, v], u, v);
  }

  lemma ReachesTransitive(g: Graph, u: NodeId, v: NodeId, w: NodeId)
    requires Reaches(g, u, v) && Reaches(g, v, w)
    ensures Reaches(g, u, w)
  {
    var p :| IsWalk(g, p, u, v);
    var q :| IsWalk(g, q, v, w);
    var r := p + q[1..];
    forall i, j | 0 <= i < |r| && 0 <= j < |r| && j == i + 1
      ensures Edge(g, r[i], r[j])
    {
      if i >= |p| - 1 {
        assert r[i] == q[i - (|p| - 1)] && r[j] == q[j - (|p| - 1)];
      }
    }
    assert IsWalk(g, r, u, w);
  }

  /** The last edge of a walk: a proper ancestor of w is a predecessor of w or a proper ancestor of one. */
  lemma ReachesLastEdge(g: Graph, u: NodeId, w: NodeId) returns (v: NodeId)
    requires Reaches(g, u, w)
    ensures Edge(g, v, w) && (v == u || Reaches(g, u, v))
  {
    var p :| IsWalk(g, p, u, w);
    v := p[|p| - 2];
    if |p| > 2 {
      assert IsWalk(g, p[..|p| - 1], u, v);
    }
  }

  ghost predicate NoDuplicates<T>(s: seq<T>) {
    forall i, j :: 0 <= i < j < |s| ==> s[i] != s[j]
  }

  /** Numbers that fall along every edge out of a numbered node. */
  ghost predicate Descends(g: Graph, rank: map<NodeId, nat>) {
    forall u, v :: u in rank && Edge(g, u, v) ==> v in rank && rank[v] < rank[u]
  }

  /** Every node is numbered above all its successors: counting down is a topological order. */
  ghost predicate IsTopological(g: Graph, rank: map<NodeId, nat>) {
    rank.Keys == g.Keys && Descends(g, rank)
  }

  lemma {:induction false} WalkDescends(g: Graph, rank: map<NodeId, nat>, p: seq<NodeId>, u: NodeId, v: NodeId)
    requires IsTopological(g, rank) && IsWalk(g, p, u, v)
    ensures u in rank && v in rank && rank[v] < rank[u]
    decreases |p|
  {
    assert Edge(g, p[0], p[1]);
    if |p| > 2 {
      assert IsWalk(g, p[1..], p[1], v);
      WalkDescends(g, rank, p[1..], p[1], v);
    }
  }

  lemma ReachesDescends(g: Graph, rank: map<NodeId, nat>, u: NodeId, v: NodeId)
    requires IsTopological(g, rank) && Reaches(g, u, v)
    ensures u in rank && v in rank && rank[v] < rank[u]
  {
    var p :| IsWalk(g, p, u, v);
    WalkDescends(g, rank, p, u, v);
  }

  lemma TopologicalIsAcyclic(g: Graph, rank: map<NodeId, nat>)
    requires IsTopological(g, rank)
    ensures !HasCycle(g)
  {
    forall u | Reaches(g, u, u)
      ensures false
    {
      ReachesDescends(g, rank, u, u);
    }
  }
}
