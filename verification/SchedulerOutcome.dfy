/** How runs of the scheduler end: always, never stuck, and with a result that no schedule can change. */
module SchedulerOutcome {
  import opened Digraph
  import opened ExecutionGraphs
  import opened SchedulerModel
  import opened SchedulerRuns

  ghost predicate Quiescent(s: Progress) {
    forall n {:trigger s.state[n]} :: n in s.state ==> !Open(s.state[n]) && s.state[n] != RUNNING
  }

  // ---------------------------------------------------------------------------------------------
  // Runs are bounded
  // ---------------------------------------------------------------------------------------------

  function OpenNodes(state: States): set<NodeId> {
    set n | n in state && Open(state[n])
  }

  function Unfinished(state: States): set<NodeId> {
    set n | n in state && (Open(state[n]) || state[n] == RUNNING)
  }

  function Work(s: Progress): nat {
    |OpenNodes(s.state)| + |Unfinished(s.state)| + if s.cancelled then 0 else 1
  }

  lemma WorkBound(s: Progress, t: Progress, open: set<NodeId>, unfinished: set<NodeId>)
    requires OpenNodes(t.state) <= open && Unfinished(t.state) <= unfinished
    requires |open| + |unfinished| + (if t.cancelled then 0 else 1) < Work(s)
    ensures Work(t) < Work(s)
  {
    SubsetCardinality(OpenNodes(t.state), open);
    SubsetCardinality(Unfinished(t.state), unfinished);
  }

  lemma EventShrinksWork(p: Plan, s: Progress, e: Event)
    requires Shape(p, s) && Enabled(p, s, e)
    ensures Work(Apply(p, s, e)) < Work(s)
  {
    hide Reaches;
    EventOnlyCloses(p, s, e);
    var t := Apply(p, s, e);
    var open, unfinished := OpenNodes(s.state), Unfinished(s.state);
    hide Apply, Enabled, Shape, OpenNodes, Unfinished;
    match e
    case Dispatch(n) => WorkBound(s, t, open - {n}, unfinished);
    case Succeed(n) => WorkBound(s, t, open, unfinished - {n});
    case Fail(n) => WorkBound(s, t, open, unfinished - {n});
    case Cancel => WorkBound(s, t, open, unfinished);
  }

  /** No event opens a node, and each closes one or cancels. */
  lemma EventOnlyCloses(p: Plan, s: Progress, e: Event)
    requires Shape(p, s) && Enabled(p, s, e)
    ensures var t := Apply(p, s, e);
      var open, unfinished := OpenNodes(s.state), Unfinished(s.state);
      match e
      case Dispatch(n) =>
        n in open && t.cancelled == s.cancelled
        && OpenNodes(t.state) <= open - {n} && Unfinished(t.state) <= unfinished
      case Succeed(n) =>
        n in unfinished && t.cancelled == s.cancelled
        && OpenNodes(t.state) <= open && Unfinished(t.state) <= unfinished - {n}
      case Fail(n) =>
        n in unfinished && t.cancelled == s.cancelled
        && OpenNodes(t.state) <= open && Unfinished(t.state) <= unfinished - {n}
      case Cancel =>
        !s.cancelled && t.cancelled && OpenNodes(t.state) <= open && Unfinished(t.state) <= unfinished
  {
    hide Reaches;
  }

  /** No run has more than two events for each node and one cancellation. */
  lemma {:induction false} RunsAreBounded(p: Plan, s: Progress, es: seq<Event>)
    requires Shape(p, s) && ValidRun(p, s, es)
    ensures |es| + Work(Run(p, s, es)) <= Work(s)
    ensures |es| <= 2 * |s.state| + 1
    decreases |es|
  {
    SubsetCardinality(OpenNodes(s.state), s.state.Keys);
    SubsetCardinality(Unfinished(s.state), s.state.Keys);
    if es != [] {
      EventShrinksWork(p, s, es[0]);
      RunsAreBounded(p, Apply(p, s, es[0]), es[1..]);
    }
  }

  // ---------------------------------------------------------------------------------------------
  // Runs do not get stuck
  // ---------------------------------------------------------------------------------------------

  lemma {:induction false} HighestRanked(rank: map<NodeId, nat>, us: set<NodeId>) returns (n: NodeId)
    requires us <= rank.Keys && us != {}
    ensures n in us && forall u :: u in us ==> rank[u] <= rank[n]
    decreases |us|
  {
    n :| n in us;
    if us != {n} {
      var m := HighestRanked(rank, us - {n});
      n := if rank[n] < rank[m] then m else n;
    }
  }

  lemma {:induction false} PendingWitness(preds: seq<NodeId>, state: States) returns (u: NodeId)
    requires Pending(preds, state) != 0
    ensures u in preds && !(u in state && state[u] == COMPLETED)
  {
    u := preds[0];
    if u in state && state[u] == COMPLETED {
      u := PendingWitness(preds[1..], state);
    }
  }

  /** When nothing is ready or running, a waiting node waits for another waiting node. */
  lemma WaitingForWaiting(p: Plan, s: Progress, n: NodeId) returns (u: NodeId)
    requires WellFormed(p) && Invariant(p, s) && n in s.state && s.state[n] == CREATED
    requires forall m {:trigger s.state[m]} :: m in s.state ==> s.state[m] != RUNNING && s.state[m] != READY
    ensures Edge(p.adj, u, n) && u in s.state && s.state[u] == CREATED
  {
    assert s.inDegree[n] == Pending(p.rev[n], s.state);
    u := PendingWitness(p.rev[n], s.state);
    assert Edge(p.rev, n, u) && Edge(p.adj, u, n);
    assert s.state[u] != SKIPPED;
  }

  /** While a node is unfinished, something is running or something ready can be dispatched. */
  lemma NeverStuck(p: Plan, rank: map<NodeId, nat>, s: Progress) returns (e: Event)
    requires WellFormed(p) && Invariant(p, s) && IsTopological(p.adj, rank) && !Quiescent(s)
    ensures Enabled(p, s, e) && (e.Dispatch? || e.Succeed?)
  {
    if n :| n in s.state && s.state[n] == RUNNING {
      e := Succeed(n);
    } else if n :| n in s.state && s.state[n] == READY {
      e := Dispatch(n);
      assert RunningOn(p, s.state, p.resource[n]) == {};
      assert Count(s.active, p.resource[n]) == 0;
    } else {
      var n :| n in s.state && Open(s.state[n]);
      var waiting := set m | m in s.state && s.state[m] == CREATED;
      assert n in waiting;
      var first := HighestRanked(rank, waiting);
      var u := WaitingForWaiting(p, s, first);
      assert false;
    }
  }

  // ---------------------------------------------------------------------------------------------
  // Schedule independence
  // ---------------------------------------------------------------------------------------------

  /** All proper ancestors of n are among the nodes whose execution succeeds. */
  ghost predicate AncestorsIn(g: Graph, good: set<NodeId>, n: NodeId) {
    forall a {:trigger Reaches(g, a, n)} :: Reaches(g, a, n) ==> a in good
  }

  /** The state a node ends in, read off the graph and the outcomes alone. */
  ghost function Verdict(g: Graph, good: set<NodeId>, n: NodeId): NodeState {
    if !AncestorsIn(g, good, n) then BLOCKED
    else if n in good then COMPLETED
    else FAILED
  }

  /** Nodes succeed or fail as `good` says. */
  ghost predicate Obeys(e: Event, good: set<NodeId>) {
    match e
    case Succeed(n) => n in good
    case Fail(n) => n !in good
    case _ => true
  }

  ghost predicate OnTrack(p: Plan, good: set<NodeId>, s: Progress)
    requires Shape(p, s)
  {
    !s.cancelled ==> forall n {:trigger s.state[n]} :: n in s.state ==>
      && (s.state[n] == READY || s.state[n] == RUNNING ==> AncestorsIn(p.adj, good, n))
      && (s.state[n] in {COMPLETED, FAILED, BLOCKED} ==> s.state[n] == Verdict(p.adj, good, n))
  }

  lemma ReadyOnTrack(p: Plan, good: set<NodeId>, s: Progress, n: NodeId)
    requires WellFormed(p) && Shape(p, s) && n in s.state
    requires forall u {:trigger Edge(p.adj, u, n)} :: Edge(p.adj, u, n) ==> u in good && AncestorsIn(p.adj, good, u)
    ensures AncestorsIn(p.adj, good, n)
  {
    forall a | Reaches(p.adj, a, n)
      ensures a in good
    {
      var u := ReachesLastEdge(p.adj, a, n);
    }
  }

  lemma InitialOnTrack(p: Plan, good: set<NodeId>)
    requires WellFormed(p)
    ensures OnTrack(p, good, Initial(p))
  {
    var s := Initial(p);
    forall n | n in s.state && s.state[n] == READY
      ensures AncestorsIn(p.adj, good, n)
    {
      assert forall u {:trigger Edge(p.adj, u, n)} :: Edge(p.adj, u, n) <==> Edge(p.rev, n, u);
      ReadyOnTrack(p, good, s, n);
    }
  }

  lemma SucceedOnTrack(p: Plan, good: set<NodeId>, s: Progress, n: NodeId)
    requires WellFormed(p) && Invariant(p, s) && OnTrack(p, good, s) && Enabled(p, s, Succeed(n)) && n in good
    ensures Shape(p, Apply(p, s, Succeed(n))) && OnTrack(p, good, Apply(p, s, Succeed(n)))
  {
    InvariantShape(p, s);
    ApplyShape(p, s, Succeed(n));
    SucceedState(p, s, n);
    var t := Apply(p, s, Succeed(n));
    hide WellFormed, Invariant, AncestorsIn, Verdict, Apply;
    if !s.cancelled {
      forall v | v in t.state
        ensures t.state[v] == READY || t.state[v] == RUNNING ==> AncestorsIn(p.adj, good, v)
        ensures t.state[v] in {COMPLETED, FAILED, BLOCKED} ==> t.state[v] == Verdict(p.adj, good, v)
      {
        if v == n {
          Judged(p, good, n);
        } else if s.state[v] == CREATED && t.state[v] == READY {
          ReleasedOnTrack(p, good, s, n, v);
        }
      }
    }
  }

  /** A success completes its node, and otherwise only readies nodes that wait. */
  lemma SucceedState(p: Plan, s: Progress, n: NodeId)
    requires Shape(p, s) && Enabled(p, s, Succeed(n))
    ensures var t := Apply(p, s, Succeed(n));
      && t.cancelled == s.cancelled && t.state.Keys == s.state.Keys && t.state[n] == COMPLETED
      && forall v {:trigger t.state[v]} :: v in t.state && v != n ==>
           t.state[v] == s.state[v] || (s.state[v] == CREATED && t.state[v] == READY)
  {
  }

  lemma Judged(p: Plan, good: set<NodeId>, n: NodeId)
    requires AncestorsIn(p.adj, good, n) && n in good
    ensures Verdict(p.adj, good, n) == COMPLETED
  {
  }

  /** A node that a success releases has only predecessors that completed as the outcomes say. */
  lemma ReleasedOnTrack(p: Plan, good: set<NodeId>, s: Progress, n: NodeId, v: NodeId)
    requires WellFormed(p) && Invariant(p, s) && OnTrack(p, good, s) && Enabled(p, s, Succeed(n)) && n in good
    requires v in s.state && !s.cancelled
    requires Readied(p.adj[n], s.state[n := COMPLETED], Lowered(p.adj[n], s.inDegree))[v] == READY
    ensures AncestorsIn(p.adj, good, v)
  {
    hide AncestorsIn, Contained, Exclusive, Flagged, Counted;
    forall u | Edge(p.adj, u, v)
      ensures u in good && AncestorsIn(p.adj, good, u)
    {
      SucceedEdge(p, s, n, u, v);
      assert s.state[n] == RUNNING;
      assert s.state[u] == COMPLETED || u == n;
    }
    ReadyOnTrack(p, good, s, v);
  }

  lemma EventOnTrack(p: Plan, good: set<NodeId>, s: Progress, e: Event)
    requires WellFormed(p) && Invariant(p, s) && OnTrack(p, good, s) && Enabled(p, s, e) && Obeys(e, good)
    ensures Shape(p, Apply(p, s, e)) && OnTrack(p, good, Apply(p, s, e))
  {
    hide WellFormed, Counted, Ordered, Contained, Exclusive, Flagged;
    ApplyShape(p, s, e);
    match e
    case Dispatch(n) => assert s.state[n] == READY;
    case Succeed(n) => SucceedOnTrack(p, good, s, n);
    case Fail(n) => assert s.state[n] == RUNNING;
    case Cancel =>
  }

  lemma {:induction false} RunOnTrack(p: Plan, good: set<NodeId>, s: Progress, es: seq<Event>)
    requires WellFormed(p) && Invariant(p, s) && OnTrack(p, good, s)
    requires ValidRun(p, s, es) && forall e :: e in es ==> Obeys(e, good)
    ensures OnTrack(p, good, Run(p, s, es))
    decreases |es|
  {
    if es != [] {
      EventKeeps(p, s, es[0]);
      EventOnTrack(p, good, s, es[0]);
      RunOnTrack(p, good, Apply(p, s, es[0]), es[1..]);
    }
  }

  lemma AtRest(p: Plan, good: set<NodeId>, t: Progress)
    requires WellFormed(p) && Invariant(p, t) && OnTrack(p, good, t) && Quiescent(t) && !t.cancelled
    ensures t.state == map n | n in p.adj :: Verdict(p.adj, good, n)
  {
    hide Invariant, OnTrack, Verdict;
    InvariantShape(p, t);
    forall n | n in p.adj
      ensures t.state[n] == Verdict(p.adj, good, n)
    {
      EndsAsJudged(p, good, t, n);
    }
  }

  lemma EndsAsJudged(p: Plan, good: set<NodeId>, t: Progress, n: NodeId)
    requires WellFormed(p) && Invariant(p, t) && OnTrack(p, good, t) && Quiescent(t) && !t.cancelled && n in p.adj
    ensures n in t.state && t.state[n] == Verdict(p.adj, good, n)
  {
    hide Reaches;
    assert t.state[n] != SKIPPED;
  }

  lemma InvariantShape(p: Plan, t: Progress)
    requires WellFormed(p) && Invariant(p, t)
    ensures Shape(p, t)
  {
  }

  /**
   * Schedule independence: with the outcome of every node fixed and no cancellation, every
   * interleaving that comes to rest ends in the one state map that the graph determines.
   */
  lemma ScheduleIndependence(p: Plan, good: set<NodeId>, es: seq<Event>)
    requires WellFormed(p) && ValidRun(p, Initial(p), es)
    requires forall e :: e in es ==> Obeys(e, good)
    requires Quiescent(Run(p, Initial(p), es)) && !Run(p, Initial(p), es).cancelled
    ensures Run(p, Initial(p), es).state == map n | n in p.adj :: Verdict(p.adj, good, n)
  {
    InitialInvariant(p);
    InitialOnTrack(p, good);
    RunKeeps(p, Initial(p), es);
    RunOnTrack(p, good, Initial(p), es);
    AtRest(p, good, Run(p, Initial(p), es));
  }

  lemma RunPrepend(p: Plan, s: Progress, e: Event, es: seq<Event>)
    requires Shape(p, s) && Enabled(p, s, e) && Shape(p, Apply(p, s, e)) && ValidRun(p, Apply(p, s, e), es)
    ensures ValidRun(p, s, [e] + es) && Run(p, s, [e] + es) == Run(p, Apply(p, s, e), es)
  {
    assert ([e] + es)[1..] == es;
  }

  lemma ObedientEvent(p: Plan, rank: map<NodeId, nat>, good: set<NodeId>, s: Progress) returns (e: Event)
    requires WellFormed(p) && Invariant(p, s) && IsTopological(p.adj, rank) && !Quiescent(s)
    ensures Enabled(p, s, e) && Obeys(e, good)
    ensures Invariant(p, Apply(p, s, e)) && Work(Apply(p, s, e)) < Work(s) && Apply(p, s, e).cancelled == s.cancelled
  {
    e := NeverStuck(p, rank, s);
    if e.Succeed? && e.id !in good {
      e := Fail(e.id);
    }
    Progresses(p, s, e);
  }

  lemma Progresses(p: Plan, s: Progress, e: Event)
    requires WellFormed(p) && Invariant(p, s) && Enabled(p, s, e)
    ensures Invariant(p, Apply(p, s, e)) && Work(Apply(p, s, e)) < Work(s)
    ensures !e.Cancel? ==> Apply(p, s, e).cancelled == s.cancelled
  {
    EventKeeps(p, s, e);
    EventShrinksWork(p, s, e);
  }

  /** Every run of an acyclic graph can be carried on, whatever the outcomes, until it comes to rest. */
  lemma RunsFinish(p: Plan, rank: map<NodeId, nat>, good: set<NodeId>, s: Progress) returns (es: seq<Event>)
    requires WellFormed(p) && Invariant(p, s) && IsTopological(p.adj, rank)
    ensures ValidRun(p, s, es) && Quiescent(Run(p, s, es))
    ensures Run(p, s, es).cancelled == s.cancelled && forall e :: e in es ==> Obeys(e, good)
    decreases Work(s)
  {
    if Quiescent(s) {
      es := [];
    } else {
      var e := ObedientEvent(p, rank, good, s);
      var rest := RunsFinish(p, rank, good, Apply(p, s, e));
      RunPrepend(p, s, e, rest);
      es := [e] + rest;
    }
  }

  lemma {:induction false} WalkCompleted(p: Plan, s: Progress, w: seq<NodeId>, a: NodeId, n: NodeId)
    requires WellFormed(p) && Invariant(p, s) && n in s.state
    requires (s.state[n] == READY || Started(s.state[n])) && IsWalk(p.adj, w, a, n)
    ensures a in s.state && s.state[a] == COMPLETED
    decreases |w|
  {
    var u := w[|w| - 2];
    assert Edge(p.adj, u, n);
    if |w| > 2 {
      assert IsWalk(p.adj, w[..|w| - 1], a, u);
      WalkCompleted(p, s, w[..|w| - 1], a, u);
    }
  }

  /**
   * Scheduler safety in the words of its documentation: at any point of any run, with failures and
   * cancellation at any moment, a node is ready or started only when all its proper ancestors have
   * completed, its in-degree counts its unfinished predecessors, no exclusive resource runs two
   * nodes, and everything behind a failed, blocked or cancelled node is blocked or cancelled.
   */
  lemma SafeAtEveryPoint(p: Plan, es: seq<Event>)
    requires WellFormed(p) && ValidRun(p, Initial(p), es)
    ensures var s := Run(p, Initial(p), es);
      && (forall a, n :: n in s.state && (s.state[n] == READY || Started(s.state[n])) && Reaches(p.adj, a, n) ==>
            a in s.state && s.state[a] == COMPLETED)
      && (forall n :: n in p.adj ==> s.inDegree[n] == Pending(p.rev[n], s.state))
      && (forall m, n :: m in s.state && n in s.state && s.state[m] == RUNNING && s.state[n] == RUNNING && m != n ==>
            p.resource[m] != p.resource[n] || p.resource[n] == CPU || p.resource[n] == NONE)
      && (forall a, n :: a in s.state && Dead(s.state[a]) && Reaches(p.adj, a, n) ==>
            n in s.state && Stopped(s.state[n]))
  {
    var s := Run(p, Initial(p), es);
    InitialInvariant(p);
    RunKeeps(p, Initial(p), es);
    hide Invariant, Reaches;
    forall a, n | n in s.state && (s.state[n] == READY || Started(s.state[n])) && Reaches(p.adj, a, n)
      ensures a in s.state && s.state[a] == COMPLETED
    {
      AncestorsCompleted(p, s, a, n);
    }
    forall n | n in p.adj
      ensures s.inDegree[n] == Pending(p.rev[n], s.state)
    {
      InDegreeCounts(p, s, n);
    }
    forall m, n | m in s.state && n in s.state && s.state[m] == RUNNING && s.state[n] == RUNNING && m != n
      ensures p.resource[m] != p.resource[n] || p.resource[n] == CPU || p.resource[n] == NONE
    {
      NoTwoOnOneResource(p, s, m, n);
    }
    forall a, n | a in s.state && Dead(s.state[a]) && Reaches(p.adj, a, n)
      ensures n in s.state && Stopped(s.state[n])
    {
      DescendantsStopped(p, s, a, n);
    }
  }

  lemma InDegreeCounts(p: Plan, s: Progress, n: NodeId)
    requires WellFormed(p) && Invariant(p, s) && n in p.adj
    ensures s.inDegree[n] == Pending(p.rev[n], s.state)
  {
  }

  lemma NoTwoOnOneResource(p: Plan, s: Progress, m: NodeId, n: NodeId)
    requires WellFormed(p) && Invariant(p, s) && m in s.state && n in s.state && m != n
    requires s.state[m] == RUNNING && s.state[n] == RUNNING
    ensures p.resource[m] != p.resource[n] || p.resource[n] == CPU || p.resource[n] == NONE
  {
    var r := p.resource[n];
    assert Count(s.active, r) == |RunningOn(p, s.state, r)|;
    if p.resource[m] == r {
      assert |{m, n}| == 2;
      SubsetCardinality({m, n}, RunningOn(p, s.state, r));
    }
  }

  /** A resource that a node would have to wait for: neither the CPU nor none, and a running node holds it. */
  ghost predicate Held(p: Plan, state: States, r: ExecutionResource)
    requires p.resource.Keys == state.Keys
  {
    r != CPU && r != NONE && exists m {:trigger state[m]} :: m in state && state[m] == RUNNING && p.resource[m] == r
  }

  /** A ready node can be dispatched exactly if nobody holds its resource. */
  lemma DispatchableIff(p: Plan, s: Progress, n: NodeId)
    requires WellFormed(p) && Invariant(p, s) && !s.cancelled && n in s.state && s.state[n] == READY
    ensures Enabled(p, s, Dispatch(n)) <==> !Held(p, s.state, p.resource[n])
  {
    AvailableIff(p, s, p.resource[n]);
  }

  lemma AvailableIff(p: Plan, s: Progress, r: ExecutionResource)
    requires WellFormed(p) && Invariant(p, s)
    ensures Available(s.active, r) <==> !Held(p, s.state, r)
  {
    var running := RunningOn(p, s.state, r);
    assert Count(s.active, r) == |running|;
    if m :| m in s.state && s.state[m] == RUNNING && p.resource[m] == r {
      assert m in running;
    } else {
      assert running == {};
    }
  }

  // ---------------------------------------------------------------------------------------------
  // Where the states come from
  // ---------------------------------------------------------------------------------------------

  /**
   * Nodes end as their outcomes say, cancelled or not, and a blocked node is behind a failed one. Only
   * a cancelled run has cancelled nodes, and none of its nodes still waits.
   */
  ghost predicate Accountable(p: Plan, good: set<NodeId>, s: Progress)
    requires Shape(p, s)
  {
    && (forall n {:trigger s.state[n]} :: n in s.state && s.state[n] == COMPLETED ==> n in good)
    && (forall n {:trigger s.state[n]} :: n in s.state && s.state[n] == FAILED ==> n !in good)
    && (forall n {:trigger s.state[n]} :: n in s.state && s.state[n] == BLOCKED ==> Blamed(p, s.state, n))
    && CancelledAlike(s)
  }

  /** Only a cancelled run has cancelled nodes, and none of its nodes still waits. */
  ghost predicate CancelledAlike(s: Progress) {
    forall n {:trigger s.state[n]} :: n in s.state ==>
      && s.state[n] != SKIPPED
      && (s.state[n] == CANCELLED ==> s.cancelled)
      && (s.cancelled ==> s.state[n] != CREATED && s.state[n] != READY)
  }

  lemma EventCancelledAlike(p: Plan, s: Progress, e: Event)
    requires Shape(p, s) && CancelledAlike(s) && Enabled(p, s, e)
    ensures CancelledAlike(Apply(p, s, e))
  {
    hide Reaches;
  }

  /** At rest every node has one of the final states. */
  ghost predicate Final(state: States, cancelled: bool) {
    forall n {:trigger state[n]} :: n in state ==>
      state[n] == COMPLETED || state[n] == FAILED || state[n] == BLOCKED || (state[n] == CANCELLED && cancelled)
  }

  lemma RestIsFinal(p: Plan, good: set<NodeId>, s: Progress)
    requires Shape(p, s) && Accountable(p, good, s) && Quiescent(s)
    ensures Final(s.state, s.cancelled)
  {
  }

  ghost predicate Blamed(p: Plan, state: States, n: NodeId) {
    exists a {:trigger Reaches(p.adj, a, n)} :: a in state && state[a] == FAILED && Reaches(p.adj, a, n)
  }

  lemma EventAccountable(p: Plan, good: set<NodeId>, s: Progress, e: Event)
    requires Shape(p, s) && Accountable(p, good, s) && Enabled(p, s, e) && Obeys(e, good)
    ensures Shape(p, Apply(p, s, e)) && Accountable(p, good, Apply(p, s, e))
  {
    hide Reaches, Blamed, CancelledAlike;
    ApplyShape(p, s, e);
    EventCancelledAlike(p, s, e);
    var t := Apply(p, s, e);
    forall n | n in t.state && t.state[n] == BLOCKED
      ensures Blamed(p, t.state, n)
    {
      if s.state[n] == BLOCKED {
        StillBlamed(p, s, e, n);
      } else {
        NewlyBlamed(p, s, e, n);
      }
    }
  }

  lemma StillBlamed(p: Plan, s: Progress, e: Event, n: NodeId)
    requires Shape(p, s) && Enabled(p, s, e) && Blamed(p, s.state, n)
    ensures Blamed(p, Apply(p, s, e).state, n)
  {
    hide Reaches;
    var a :| a in s.state && s.state[a] == FAILED && Reaches(p.adj, a, n);
    assert Apply(p, s, e).state[a] == FAILED;
  }

  lemma NewlyBlamed(p: Plan, s: Progress, e: Event, n: NodeId)
    requires Shape(p, s) && Enabled(p, s, e) && n in s.state && s.state[n] != BLOCKED
    requires n in Apply(p, s, e).state && Apply(p, s, e).state[n] == BLOCKED
    ensures Blamed(p, Apply(p, s, e).state, n)
  {
    hide Reaches;
    var t := Apply(p, s, e);
    assert t.state[e.id] == FAILED && Reaches(p.adj, e.id, n);
  }

  lemma {:induction false} RunAccountable(p: Plan, good: set<NodeId>, s: Progress, es: seq<Event>)
    requires Shape(p, s) && Accountable(p, good, s) && ValidRun(p, s, es) && forall e :: e in es ==> Obeys(e, good)
    ensures Accountable(p, good, Run(p, s, es))
    decreases |es|
  {
    hide Accountable;
    if es != [] {
      EventAccountable(p, good, s, es[0]);
      RunAccountable(p, good, Apply(p, s, es[0]), es[1..]);
    }
  }

  /** In every run, failures and cancellation included. */
  lemma RunsAreAccountable(p: Plan, good: set<NodeId>, es: seq<Event>)
    requires WellFormed(p) && ValidRun(p, Initial(p), es) && forall e :: e in es ==> Obeys(e, good)
    ensures Accountable(p, good, Run(p, Initial(p), es))
  {
    RunAccountable(p, good, Initial(p), es);
  }

  lemma AncestorsCompleted(p: Plan, s: Progress, a: NodeId, n: NodeId)
    requires WellFormed(p) && Invariant(p, s) && Reaches(p.adj, a, n)
    requires n in s.state && (s.state[n] == READY || Started(s.state[n]))
    ensures a in s.state && s.state[a] == COMPLETED
  {
    var w :| IsWalk(p.adj, w, a, n);
    WalkCompleted(p, s, w, a, n);
  }

  lemma DescendantsStopped(p: Plan, s: Progress, a: NodeId, n: NodeId)
    requires WellFormed(p) && Invariant(p, s) && Reaches(p.adj, a, n) && a in s.state && Dead(s.state[a])
    ensures n in s.state && Stopped(s.state[n])
  {
    var w :| IsWalk(p.adj, w, a, n);
    WalkStopped(p, s, w, a, n);
  }

  lemma {:induction false} WalkStopped(p: Plan, s: Progress, w: seq<NodeId>, a: NodeId, n: NodeId)
    requires WellFormed(p) && Invariant(p, s) && a in s.state && Dead(s.state[a]) && IsWalk(p.adj, w, a, n)
    ensures n in s.state && Stopped(s.state[n])
    decreases |w|
  {
    var u := w[|w| - 2];
    assert Edge(p.adj, u, n);
    if |w| > 2 {
      assert IsWalk(p.adj, w[..|w| - 1], a, u);
      WalkStopped(p, s, w[..|w| - 1], a, u);
    }
  }
}
