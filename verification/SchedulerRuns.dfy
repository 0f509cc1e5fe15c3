/** Every event keeps the scheduler's invariant, every run is bounded, and where runs end is decided by the graph. */
module SchedulerRuns {
  import opened Digraph
  import opened ExecutionGraphs
  import opened SchedulerModel

  // ---------------------------------------------------------------------------------------------
  // Counters
  // ---------------------------------------------------------------------------------------------

  /** An event that completes nothing leaves every count as it was. */
  lemma CountedKept(p: Plan, s: Progress, t: Progress)
    requires WellFormed(p) && Shape(p, s) && Shape(p, t) && Counted(p, s)
    requires t.inDegree == s.inDegree
    requires forall u {:trigger t.state[u]} :: u in p.adj ==> (t.state[u] == COMPLETED <==> s.state[u] == COMPLETED)
    ensures Counted(p, t)
  {
    forall n | n in p.adj
      ensures t.inDegree[n] == Pending(p.rev[n], t.state)
    {
      PendingSame(p.rev[n], s.state, t.state);
    }
  }

  lemma CountedSucceed(p: Plan, s: Progress, n: NodeId)
    requires WellFormed(p) && Shape(p, s) && Counted(p, s) && Enabled(p, s, Succeed(n))
    ensures Shape(p, Apply(p, s, Succeed(n))) && Counted(p, Apply(p, s, Succeed(n)))
  {
    var t := Apply(p, s, Succeed(n));
    ApplyShape(p, s, Succeed(n));
    forall v | v in p.adj
      ensures t.inDegree[v] == Pending(p.rev[v], t.state)
    {
      PendingDrops(p.rev[v], s.state, t.state, n);
      assert Edge(p.adj, n, v) <==> Edge(p.rev, v, n);
      assert s.inDegree[v] == Pending(p.rev[v], s.state);
    }
  }

  /** The running nodes of each resource when one node starts, or stops, running. */
  lemma ExclusiveStart(p: Plan, s: Progress, t: Progress, n: NodeId)
    requires Shape(p, s) && Shape(p, t) && Exclusive(p, s) && n in s.state
    requires s.state[n] != RUNNING && t.state[n] == RUNNING
    requires forall u {:trigger t.state[u]} :: u in s.state && u != n ==>
      (t.state[u] == RUNNING <==> s.state[u] == RUNNING)
    requires t.active == s.active[p.resource[n] := Count(s.active, p.resource[n]) + 1]
    requires Available(s.active, p.resource[n])
    ensures Exclusive(p, t)
  {
    forall r
      ensures Count(t.active, r) == |RunningOn(p, t.state, r)| && (!Shared(r) ==> Count(t.active, r) <= 1)
    {
      assert Count(s.active, r) == |RunningOn(p, s.state, r)|;
      RunningStart(p, s.state, t.state, n, r);
    }
  }

  lemma RunningStart(p: Plan, a: States, b: States, n: NodeId, r: ExecutionResource)
    requires a.Keys == b.Keys == p.resource.Keys && n in a && a[n] != RUNNING && b[n] == RUNNING
    requires forall u {:trigger b[u]} :: u in a && u != n ==> (b[u] == RUNNING <==> a[u] == RUNNING)
    ensures |RunningOn(p, b, r)| == |RunningOn(p, a, r)| + if r == p.resource[n] then 1 else 0
  {
    assert RunningOn(p, b, r) == RunningOn(p, a, r) + if r == p.resource[n] then {n} else {};
  }

  lemma ExclusiveStop(p: Plan, s: Progress, t: Progress, n: NodeId)
    requires Shape(p, s) && Shape(p, t) && Exclusive(p, s) && n in s.state
    requires s.state[n] == RUNNING && t.state[n] != RUNNING
    requires forall u {:trigger t.state[u]} :: u in s.state && u != n ==>
      (t.state[u] == RUNNING <==> s.state[u] == RUNNING)
    requires t.active == s.active[p.resource[n] := Count(s.active, p.resource[n]) - 1]
    ensures Exclusive(p, t)
  {
    forall r
      ensures Count(t.active, r) == |RunningOn(p, t.state, r)| && (!Shared(r) ==> Count(t.active, r) <= 1)
    {
      var before := RunningOn(p, s.state, r);
      assert Count(s.active, r) == |before|;
      assert RunningOn(p, t.state, r) == if r == p.resource[n] then before - {n} else before;
    }
  }

  lemma ExclusiveKept(p: Plan, s: Progress, t: Progress)
    requires Shape(p, s) && Shape(p, t) && Exclusive(p, s) && t.active == s.active
    requires forall u {:trigger t.state[u]} :: u in s.state ==> (t.state[u] == RUNNING <==> s.state[u] == RUNNING)
    ensures Exclusive(p, t)
  {
    forall r
      ensures Count(t.active, r) == |RunningOn(p, t.state, r)| && (!Shared(r) ==> Count(t.active, r) <= 1)
    {
      assert Count(s.active, r) == |RunningOn(p, s.state, r)|;
      assert RunningOn(p, t.state, r) == RunningOn(p, s.state, r);
    }
  }

  // ---------------------------------------------------------------------------------------------
  // The four events keep the invariant
  // ---------------------------------------------------------------------------------------------

  /** A node behind one that has not completed has not started. */
  lemma SuccessorWaits(p: Plan, s: Progress, u: NodeId, v: NodeId)
    requires WellFormed(p) && Invariant(p, s) && Edge(p.adj, u, v) && s.state[u] != COMPLETED
    ensures v in s.state && (s.state[v] == CREATED || Stopped(s.state[v]))
  {
    assert Edge(p.rev, v, u);
    assert s.state[v] != SKIPPED;
  }

  lemma DispatchEdges(p: Plan, s: Progress, n: NodeId)
    requires WellFormed(p) && Invariant(p, s) && Enabled(p, s, Dispatch(n))
    ensures var t := Apply(p, s, Dispatch(n)); Shape(p, t) && Ordered(p, t) && Contained(p, t) && Flagged(t)
  {
    hide Counted, Exclusive;
    assert s.state[n] == READY;
  }

  lemma DispatchCounted(p: Plan, s: Progress, n: NodeId)
    requires WellFormed(p) && Shape(p, s) && Counted(p, s) && Enabled(p, s, Dispatch(n))
    ensures var t := Apply(p, s, Dispatch(n)); Shape(p, t) && Counted(p, t)
  {
    CountedKept(p, s, Apply(p, s, Dispatch(n)));
  }

  lemma DispatchKeeps(p: Plan, s: Progress, n: NodeId)
    requires WellFormed(p) && Invariant(p, s) && Enabled(p, s, Dispatch(n))
    ensures Invariant(p, Apply(p, s, Dispatch(n)))
  {
    hide Counted, Ordered, Contained, Flagged, WellFormed;
    var t := Apply(p, s, Dispatch(n));
    DispatchEdges(p, s, n);
    DispatchCounted(p, s, n);
    ExclusiveStart(p, s, t, n);
  }

  lemma SucceedEdge(p: Plan, s: Progress, n: NodeId, u: NodeId, v: NodeId)
    requires WellFormed(p) && Invariant(p, s) && Enabled(p, s, Succeed(n)) && Edge(p.adj, u, v) && v in s.state
    ensures var t := Apply(p, s, Succeed(n));
            && u in t.state
            && (t.state[v] == READY || Started(t.state[v]) ==> t.state[u] == COMPLETED)
            && (Dead(t.state[u]) ==> Stopped(t.state[v]))
  {
    hide Exclusive, Counted;
    var t := Apply(p, s, Succeed(n));
    assert Edge(p.rev, v, u);
    if s.state[u] != COMPLETED {
      SuccessorWaits(p, s, u, v);
    }
    if t.state[v] == READY && s.state[v] == CREATED {
      CountedSucceed(p, s, n);
      assert t.inDegree[v] == 0;
      PendingZero(p.rev[v], t.state);
    }
  }

  lemma SucceedNode(p: Plan, s: Progress, n: NodeId, v: NodeId)
    requires WellFormed(p) && Invariant(p, s) && Enabled(p, s, Succeed(n)) && v in s.state
    ensures var t := Apply(p, s, Succeed(n));
            && (t.state[v] == CREATED ==> t.inDegree[v] != 0)
            && t.state[v] != SKIPPED
            && (t.cancelled ==> !Open(t.state[v]))
            && (!t.cancelled ==> t.state[v] != CANCELLED)
  {
    assert s.state[v] != SKIPPED;
  }

  lemma SucceedKeeps(p: Plan, s: Progress, n: NodeId)
    requires WellFormed(p) && Invariant(p, s) && Enabled(p, s, Succeed(n))
    ensures Invariant(p, Apply(p, s, Succeed(n)))
  {
    var t := Apply(p, s, Succeed(n));
    CountedSucceed(p, s, n);
    SucceedStops(p, s, n);
    EdgesAndNodes(p, t) by {
      forall u, v | Edge(p.adj, u, v) && v in t.state { SucceedEdge(p, s, n, u, v); }
      forall v | v in t.state { SucceedNode(p, s, n, v); }
    }
  }

  lemma SucceedStops(p: Plan, s: Progress, n: NodeId)
    requires WellFormed(p) && Shape(p, s) && Exclusive(p, s) && Enabled(p, s, Succeed(n))
    ensures var t := Apply(p, s, Succeed(n)); Shape(p, t) && Exclusive(p, t)
  {
    hide Exclusive, RunningOn, WellFormed;
    ExclusiveStop(p, s, Apply(p, s, Succeed(n)), n);
  }

  /** The edge and node conditions of the invariant, collected. */
  lemma EdgesAndNodes(p: Plan, t: Progress)
    requires WellFormed(p) && Shape(p, t)
    requires forall u, v {:trigger Edge(p.adj, u, v)} :: Edge(p.adj, u, v) && v in t.state ==>
      && u in t.state
      && (t.state[v] == READY || Started(t.state[v]) ==> t.state[u] == COMPLETED)
      && (Dead(t.state[u]) ==> Stopped(t.state[v]))
    requires forall v {:trigger t.state[v]} :: v in t.state ==>
      && (t.state[v] == CREATED ==> t.inDegree[v] != 0)
      && t.state[v] != SKIPPED
      && (t.cancelled ==> !Open(t.state[v]))
      && (!t.cancelled ==> t.state[v] != CANCELLED)
    ensures Ordered(p, t) && Contained(p, t) && Flagged(t)
  {
    forall u, v | Edge(p.adj, u, v)
      ensures v in t.state
    {
      assert Edge(p.rev, v, u);
    }
  }

  /** What was waiting behind a failed node is blocked; nothing behind it had started. */
  lemma FailKeeps(p: Plan, s: Progress, n: NodeId)
    requires WellFormed(p) && Invariant(p, s) && Enabled(p, s, Fail(n))
    ensures Invariant(p, Apply(p, s, Fail(n)))
  {
    var t := Apply(p, s, Fail(n));
    FailCounted(p, s, n);
    FailStops(p, s, n);
    EdgesAndNodes(p, t) by {
      forall u, v | Edge(p.adj, u, v) && v in t.state { FailEdge(p, s, n, u, v); }
      forall v | v in t.state { FailNode(p, s, n, v); }
    }
  }

  lemma FailCounted(p: Plan, s: Progress, n: NodeId)
    requires WellFormed(p) && Shape(p, s) && Counted(p, s) && Enabled(p, s, Fail(n))
    ensures var t := Apply(p, s, Fail(n)); Shape(p, t) && Counted(p, t)
  {
    hide Reaches, Pending, WellFormed;
    CountedKept(p, s, Apply(p, s, Fail(n)));
  }

  lemma FailStops(p: Plan, s: Progress, n: NodeId)
    requires Shape(p, s) && Exclusive(p, s) && Enabled(p, s, Fail(n))
    ensures var t := Apply(p, s, Fail(n)); Shape(p, t) && Exclusive(p, t)
  {
    hide Reaches, Exclusive, RunningOn;
    ExclusiveStop(p, s, Apply(p, s, Fail(n)), n);
  }

  lemma FailNode(p: Plan, s: Progress, n: NodeId, v: NodeId)
    requires WellFormed(p) && Invariant(p, s) && Enabled(p, s, Fail(n)) && v in s.state
    ensures var t := Apply(p, s, Fail(n));
            && (t.state[v] == CREATED ==> t.inDegree[v] != 0)
            && t.state[v] != SKIPPED
            && (t.cancelled ==> !Open(t.state[v]))
            && (!t.cancelled ==> t.state[v] != CANCELLED)
  {
    assert s.state[v] != SKIPPED;
  }

  lemma FailEdge(p: Plan, s: Progress, n: NodeId, u: NodeId, v: NodeId)
    requires WellFormed(p) && Invariant(p, s) && Enabled(p, s, Fail(n)) && Edge(p.adj, u, v) && v in s.state
    ensures var t := Blocking(p.adj, s.state[n := FAILED], n);
            && u in t
            && (t[v] == READY || Started(t[v]) ==> t[u] == COMPLETED)
            && (Dead(t[u]) ==> Stopped(t[v]))
  {
    assert Edge(p.rev, v, u);
    if s.state[u] == COMPLETED {
    } else {
      SuccessorWaits(p, s, u, v);
      if u == n {
        EdgeReaches(p.adj, n, v);
      } else if Open(s.state[u]) && Reaches(p.adj, n, u) {
        EdgeReaches(p.adj, u, v);
        ReachesTransitive(p.adj, n, u, v);
      }
    }
  }

  lemma CancelKeeps(p: Plan, s: Progress)
    requires WellFormed(p) && Invariant(p, s) && Enabled(p, s, Cancel)
    ensures Invariant(p, Apply(p, s, Cancel))
  {
    hide Pending, RunningOn;
    var t := Apply(p, s, Cancel);
    CountedKept(p, s, t);
    ExclusiveKept(p, s, t);
    forall u, v | Edge(p.adj, u, v) && v in t.state
      ensures u in t.state && (t.state[v] == READY || Started(t.state[v]) ==> t.state[u] == COMPLETED)
      ensures Dead(t.state[u]) ==> Stopped(t.state[v])
    {
      assert Edge(p.rev, v, u);
      if s.state[u] != COMPLETED {
        SuccessorWaits(p, s, u, v);
      }
    }
    forall v | v in t.state
      ensures t.state[v] != SKIPPED && !Open(t.state[v])
    {
      assert s.state[v] != SKIPPED;
    }
  }

  lemma EventKeeps(p: Plan, s: Progress, e: Event)
    requires WellFormed(p) && Invariant(p, s) && Enabled(p, s, e)
    ensures Invariant(p, Apply(p, s, e))
  {
    match e
    case Dispatch(n) => DispatchKeeps(p, s, n);
    case Succeed(n) => SucceedKeeps(p, s, n);
    case Fail(n) => FailKeeps(p, s, n);
    case Cancel => CancelKeeps(p, s);
  }

  /** Scheduler safety: every run, of any events in any order, keeps the invariant. */
  lemma {:induction false} RunKeeps(p: Plan, s: Progress, es: seq<Event>)
    requires WellFormed(p) && Invariant(p, s) && ValidRun(p, s, es)
    ensures Invariant(p, Run(p, s, es))
    decreases |es|
  {
    if es != [] {
      EventKeeps(p, s, es[0]);
      RunKeeps(p, Apply(p, s, es[0]), es[1..]);
    }
  }
}
