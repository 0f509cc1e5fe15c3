/**
 * The scheduler's `execute` loop, proved to produce a run of the transition system that comes to
 * rest. Tasks run asynchronously: each is given an arbitrary number of polls before it is done,
 * and the cancellation flag may be raised between any two reads.
 */
module ExecutionGraphSchedulers {
  import opened Digraph
  import opened ExecutionGraphs
  import opened SchedulerModel
  import opened SchedulerRuns
  import opened SchedulerOutcome

  // ---------------------------------------------------------------------------------------------
  // Failure propagation
  // ---------------------------------------------------------------------------------------------

  ghost predicate OpenWalk(g: Graph, state: States, w: seq<NodeId>, u: NodeId, v: NodeId) {
    && IsWalk(g, w, u, v)
    && forall i :: 1 <= i < |w| ==> w[i] in state && Open(state[w[i]])
  }

  /** v can be reached from u through nodes that are still waiting. */
  ghost predicate OpenReaches(g: Graph, state: States, u: NodeId, v: NodeId) {
    exists w :: OpenWalk(g, state, w, u, v)
  }

  lemma OpenEdge(g: Graph, state: States, u: NodeId, v: NodeId)
    requires Edge(g, u, v) && v in state && Open(state[v])
    ensures OpenReaches(g, state, u, v)
  {
    assert OpenWalk(g, state, [u, v], u, v);
  }

  lemma OpenReachesNext(g: Graph, state: States, u: NodeId, v: NodeId, next: NodeId)
    requires OpenReaches(g, state, u, v) && Edge(g, v, next) && next in state && Open(state[next])
    ensures OpenReaches(g, state, u, next)
  {
    var w :| OpenWalk(g, state, w, u, v);
    var x := w + [next];
    forall i, j | 0 <= i < |x| && 0 <= j < |x| && j == i + 1
      ensures Edge(g, x[i], x[j])
    {
      if j < |w| {
        assert Edge(g, w[i], w[j]);
      }
    }
    assert OpenWalk(g, state, x, u, next);
  }

  lemma OpenReachesLast(g: Graph, state: States, u: NodeId, v: NodeId)
    requires OpenReaches(g, state, u, v)
    ensures v in state && Open(state[v]) && Reaches(g, u, v)
  {
    var w :| OpenWalk(g, state, w, u, v);
    assert IsWalk(g, w, u, v);
  }

  lemma {:induction false} ClosedUnderOpenWalks(g: Graph, state: States, blocked: set<NodeId>, w: seq<NodeId>,
                                                u: NodeId, v: NodeId)
    requires forall x, y {:trigger Edge(g, x, y)} ::
      (x == u || x in blocked) && Edge(g, x, y) && y in state && Open(state[y]) ==> y in blocked
    requires OpenWalk(g, state, w, u, v)
    ensures v in blocked
    decreases |w|
  {
    var x := w[|w| - 2];
    assert Edge(g, x, v);
    if |w| > 2 {
      var front := w[..|w| - 1];
      assert OpenWalk(g, state, front, u, x);
      ClosedUnderOpenWalks(g, state, blocked, front, u, x);
    }
  }

  function Blocked(state: States, blocked: set<NodeId>): States {
    map u | u in state :: if u in blocked then BLOCKED else state[u]
  }

  /** The queue holds successors of the failed node or of blocked nodes, and none is missed. */
  ghost predicate Frontier(g: Graph, state: States, failed: NodeId, blocked: set<NodeId>, queue: seq<NodeId>) {
    && (forall u :: u in blocked ==> OpenReaches(g, state, failed, u))
    && (forall v :: v in queue ==> exists u :: (u == failed || u in blocked) && Edge(g, u, v))
    && (forall u, v {:trigger Edge(g, u, v)} ::
          (u == failed || u in blocked) && Edge(g, u, v) && v in state && Open(state[v]) ==>
          v in blocked || v in queue)
  }

  lemma FrontierSkip(g: Graph, state: States, failed: NodeId, blocked: set<NodeId>, queue: seq<NodeId>)
    requires Frontier(g, state, failed, blocked, queue) && queue != []
    requires queue[0] in blocked || !(queue[0] in state && Open(state[queue[0]]))
    ensures Frontier(g, state, failed, blocked, queue[1..])
  {
    assert forall v :: v in queue <==> v == queue[0] || v in queue[1..];
  }

  lemma FrontierBlock(g: Graph, state: States, failed: NodeId, blocked: set<NodeId>, queue: seq<NodeId>)
    requires Frontier(g, state, failed, blocked, queue) && queue != [] && queue[0] in g
    requires queue[0] in state && Open(state[queue[0]])
    ensures Frontier(g, state, failed, blocked + {queue[0]}, queue[1..] + g[queue[0]])
  {
    var curr, rest := queue[0], queue[1..] + g[queue[0]];
    assert forall v :: v in queue <==> v == curr || v in queue[1..];
    assert forall v :: v in rest <==> v in queue[1..] || v in g[curr];
    assert curr in queue;
    var u :| (u == failed || u in blocked) && Edge(g, u, curr);
    if u == failed {
      OpenEdge(g, state, failed, curr);
    } else {
      OpenReachesNext(g, state, failed, u, curr);
    }
    forall v | v in rest
      ensures exists x :: (x == failed || x in blocked + {curr}) && Edge(g, x, v)
    {
      if v in g[curr] {
        assert Edge(g, curr, v);
      }
    }
  }

  /** Breadth-first propagation blocks exactly the waiting nodes that waiting nodes lead to. */
  method FailDependentNodes(g: Graph, failed: NodeId, tracker: States) returns (state: States)
    requires Closed(g) && tracker.Keys == g.Keys && failed in g
    ensures state.Keys == tracker.Keys
    ensures forall u {:trigger state[u]} :: u in state ==>
      state[u] == if OpenReaches(g, tracker, failed, u) then BLOCKED else tracker[u]
  {
    state := tracker;
    ghost var blocked: set<NodeId> := {};
    var queue := g[failed];
    while queue != []
      invariant state == Blocked(tracker, blocked) && blocked <= tracker.Keys
      invariant Frontier(g, tracker, failed, blocked, queue)
      decreases |tracker.Keys - blocked|, |queue|
    {
      var curr := queue[0];
      assert curr in g by {
        assert curr in queue;
        var u :| (u == failed || u in blocked) && Edge(g, u, curr);
      }
      if Open(state[curr]) {
        FrontierBlock(g, tracker, failed, blocked, queue);
        state := state[curr := BLOCKED];
        ShrinksCardinality(tracker.Keys - (blocked + {curr}), tracker.Keys - blocked, curr);
        blocked := blocked + {curr};
        queue := queue[1..] + g[curr];
      } else {
        FrontierSkip(g, tracker, failed, blocked, queue);
        queue := queue[1..];
      }
    }
    forall u | u in state
      ensures u in blocked <==> OpenReaches(g, tracker, failed, u)
    {
      if w :| OpenWalk(g, tracker, w, failed, u) {
        ClosedUnderOpenWalks(g, tracker, blocked, w, failed, u);
      }
    }
  }

  /** Behind an unfinished node everything is waiting or stopped already. */
  lemma {:induction false} DescendantWaits(p: Plan, s: Progress, w: seq<NodeId>, u: NodeId, v: NodeId)
    requires WellFormed(p) && Invariant(p, s) && IsWalk(p.adj, w, u, v) && u in s.state && s.state[u] != COMPLETED
    ensures v in s.state && (s.state[v] == CREATED || Stopped(s.state[v]))
    decreases |w|
  {
    var x := w[|w| - 2];
    assert Edge(p.adj, x, v);
    if |w| > 2 {
      assert IsWalk(p.adj, w[..|w| - 1], u, x);
      DescendantWaits(p, s, w[..|w| - 1], u, x);
    }
    SuccessorWaits(p, s, x, v);
  }

  /** Behind a running node the search cannot be cut short: a waiting node has only waiting nodes before it. */
  lemma {:induction false} WalksStayOpen(p: Plan, s: Progress, w: seq<NodeId>, u: NodeId, v: NodeId)
    requires WellFormed(p) && Invariant(p, s) && IsWalk(p.adj, w, u, v) && u in s.state && s.state[u] == RUNNING
    requires v in s.state && Open(s.state[v])
    ensures OpenReaches(p.adj, s.state, u, v)
    decreases |w|
  {
    var x := w[|w| - 2];
    assert Edge(p.adj, x, v);
    if |w| == 2 {
      OpenEdge(p.adj, s.state, u, v);
    } else {
      var front := w[..|w| - 1];
      assert IsWalk(p.adj, front, u, x);
      DescendantWaits(p, s, front, u, x);
      assert s.state[x] == CREATED;
      WalksStayOpen(p, s, front, u, x);
      OpenReachesNext(p.adj, s.state, u, x, v);
    }
  }

  lemma {:induction false} OpenWalksAgree(g: Graph, a: States, b: States, w: seq<NodeId>, u: NodeId, v: NodeId)
    requires OpenWalk(g, a, w, u, v)
    requires forall x :: x in a && Open(a[x]) ==> x in b && Open(b[x])
    ensures OpenReaches(g, b, u, v)
  {
    assert OpenWalk(g, b, w, u, v);
  }

  /** Failure propagation is exact: the search blocks precisely the waiting descendants of the failed node. */
  lemma PropagationIsExact(p: Plan, s: Progress, n: NodeId, u: NodeId)
    requires WellFormed(p) && Invariant(p, s) && Enabled(p, s, Fail(n)) && u in s.state
    ensures OpenReaches(p.adj, s.state[n := FAILED], n, u) <==> Open(s.state[u]) && Reaches(p.adj, n, u)
  {
    var failed := s.state[n := FAILED];
    if OpenReaches(p.adj, failed, n, u) {
      OpenReachesLast(p.adj, failed, n, u);
    }
    if Open(s.state[u]) && Reaches(p.adj, n, u) {
      var w :| IsWalk(p.adj, w, n, u);
      WalksStayOpen(p, s, w, n, u);
      var x :| OpenWalk(p.adj, s.state, x, n, u);
      OpenWalksAgree(p.adj, s.state, failed, x, n, u);
    }
  }

  // ---------------------------------------------------------------------------------------------
  // The loop
  // ---------------------------------------------------------------------------------------------

  /** The services a node executes with; only the cancellation flag, which others may raise, matters here. */
  class ExecutionGraphContext {
    var cancelFlag: bool

    constructor ()
      ensures !cancelFlag
    {
      cancelFlag := false;
    }

    method IsCancelled() returns (cancelled: bool)
      modifies this
      ensures cancelled == cancelFlag
      ensures old(cancelFlag) ==> cancelFlag
    {
      if !cancelFlag {
        cancelFlag := *;
      }
      return cancelFlag;
    }
  }

  datatype ResultError = NoError | InvalidGraph | ExecutionCancelled | NotAllCompleted

  datatype ExecutionGraphResult = ExecutionGraphResult(success: bool, error: ResultError, finalState: States)

  /** Node id to the number of polls left before its future is ready. */
  type Tasks = map<NodeId, nat>

  /** The events so far form a run of the transition system that led to this progress. */
  ghost predicate Follows(p: Plan, good: set<NodeId>, es: seq<Event>, s: Progress) {
    && WellFormed(p)
    && ValidRun(p, Initial(p), es)
    && Run(p, Initial(p), es) == s
    && Invariant(p, s)
    && (forall e :: e in es ==> Obeys(e, good))
  }

  lemma FollowsStart(p: Plan, good: set<NodeId>)
    requires WellFormed(p)
    ensures Follows(p, good, [], Initial(p))
  {
    InitialInvariant(p);
  }

  lemma FollowsNext(p: Plan, good: set<NodeId>, es: seq<Event>, s: Progress, e: Event)
    requires Follows(p, good, es, s) && Enabled(p, s, e) && Obeys(e, good)
    ensures Follows(p, good, es + [e], Apply(p, s, e)) && Work(Apply(p, s, e)) < Work(s)
  {
    RunExtend(p, Initial(p), es, e);
    Progresses(p, s, e);
  }

  lemma FollowsFacts(p: Plan, good: set<NodeId>, es: seq<Event>, s: Progress)
    requires Follows(p, good, es, s)
    ensures WellFormed(p) && Invariant(p, s) && Shape(p, s)
  {
  }

  ghost predicate TasksMatch(s: Progress, tasks: Tasks) {
    forall n {:trigger n in tasks} :: n in tasks <==> n in s.state && s.state[n] == RUNNING
  }

  /** Lower the in-degree of every successor; those that reach zero while waiting become ready. */
  method ReleaseSuccessors(succs: seq<NodeId>, state0: States, inDegree0: map<NodeId, int>)
    returns (state: States, inDegree: map<NodeId, int>)
    requires NoDuplicates(succs) && state0.Keys == inDegree0.Keys
    requires forall u :: u in succs ==> u in state0
    ensures inDegree == Lowered(succs, inDegree0)
    ensures state == Readied(succs, state0, inDegree)
  {
    state, inDegree := state0, inDegree0;
    var i := 0;
    while i < |succs|
      invariant 0 <= i <= |succs|
      invariant inDegree == Lowered(succs[..i], inDegree0)
      invariant state == Readied(succs[..i], state0, inDegree)
    {
      var succ := succs[i];
      assert succ !in succs[..i];
      assert forall u :: u in succs[..i + 1] <==> u == succ || u in succs[..i];
      inDegree := inDegree[succ := inDegree[succ] - 1];
      if inDegree[succ] == 0 && state[succ] == CREATED {
        state := state[succ := READY];
      }
      i := i + 1;
    }
    assert succs[..i] == succs;
  }

  /**
   * Collect the result of a finished task: complete the node and release its successors, or fail it and
   * block its descendants.
   */
  method Collect(p: Plan, good: set<NodeId>, id: NodeId, s: Progress) returns (t: Progress)
    requires WellFormed(p) && Invariant(p, s)
    requires id in s.state && s.state[id] == RUNNING
    ensures t == Apply(p, s, if id in good then Succeed(id) else Fail(id))
  {
    hide Counted, Ordered, Contained, Exclusive, Flagged;
    var active := s.active[p.resource[id] := Count(s.active, p.resource[id]) - 1];
    PlanIsClosed(p);
    if id in good {
      assert forall u :: u in p.adj[id] ==> Edge(p.adj, id, u);
      var state, inDegree := ReleaseSuccessors(p.adj[id], s.state[id := COMPLETED], s.inDegree);
      t := s.(state := state, inDegree := inDegree, active := active);
    } else {
      var state := FailDependentNodes(p.adj, id, s.state[id := FAILED]);
      PropagationBlocks(p, s, id, state);
      t := s.(state := state, active := active);
    }
  }

  lemma PropagationBlocks(p: Plan, s: Progress, n: NodeId, state: States)
    requires WellFormed(p) && Invariant(p, s) && Enabled(p, s, Fail(n)) && state.Keys == s.state.Keys
    requires var failed := s.state[n := FAILED];
      forall u {:trigger state[u]} :: u in state ==>
        state[u] == if OpenReaches(p.adj, failed, n, u) then BLOCKED else failed[u]
    ensures state == Blocking(p.adj, s.state[n := FAILED], n)
  {
    forall u | u in s.state
      ensures state[u] == Blocking(p.adj, s.state[n := FAILED], n)[u]
    {
      PropagationIsExact(p, s, n, u);
    }
  }

  lemma PlanIsClosed(p: Plan)
    requires WellFormed(p)
    ensures Closed(p.adj)
  {
    forall u, v | Edge(p.adj, u, v)
      ensures v in p.adj
    {
      assert Edge(p.rev, v, u);
    }
  }

  lemma SucceedFrame(p: Plan, id: NodeId, s: Progress)
    requires Shape(p, s) && id in s.state && s.state[id] == RUNNING
    ensures var t := Apply(p, s, Succeed(id));
      && t.state.Keys == s.state.Keys
      && t.cancelled == s.cancelled
      && (forall n {:trigger t.state[n]} :: n in s.state ==>
            (t.state[n] == RUNNING <==> n != id && s.state[n] == RUNNING))
      && (forall n {:trigger t.state[n]} :: n in s.state && s.state[n] == FAILED ==> t.state[n] == FAILED)
  {
  }

  lemma FailFrame(p: Plan, id: NodeId, s: Progress)
    requires Shape(p, s) && id in s.state && s.state[id] == RUNNING
    ensures var t := Apply(p, s, Fail(id));
      && t.state.Keys == s.state.Keys
      && t.cancelled == s.cancelled
      && (forall n {:trigger t.state[n]} :: n in s.state ==>
            (t.state[n] == RUNNING <==> n != id && s.state[n] == RUNNING))
      && (forall n {:trigger t.state[n]} :: n in s.state && s.state[n] == FAILED ==> t.state[n] == FAILED)
      && t.state[id] == FAILED
  {
  }

  /** Only the collected node stops running, and what has failed stays failed. */
  lemma CollectFrame(p: Plan, good: set<NodeId>, id: NodeId, s: Progress)
    requires Shape(p, s) && id in s.state && s.state[id] == RUNNING
    ensures var t := Apply(p, s, if id in good then Succeed(id) else Fail(id));
      && t.state.Keys == s.state.Keys
      && t.cancelled == s.cancelled
      && (forall n {:trigger t.state[n]} :: n in s.state ==>
            (t.state[n] == RUNNING <==> n != id && s.state[n] == RUNNING))
      && (forall n {:trigger t.state[n]} :: n in s.state && s.state[n] == FAILED ==> t.state[n] == FAILED)
      && (id !in good ==> t.state[id] == FAILED)
  {
    hide Apply;
    if id in good {
      SucceedFrame(p, id, s);
    } else {
      FailFrame(p, id, s);
    }
  }

  ghost predicate SomeFailed(s: Progress) {
    exists n :: n in s.state && s.state[n] == FAILED
  }

  lemma FollowsCollect(p: Plan, good: set<NodeId>, id: NodeId, es: seq<Event>, s: Progress, t: Progress, tasks: Tasks)
    returns (es': seq<Event>)
    requires Follows(p, good, es, s) && TasksMatch(s, tasks) && id in tasks
    requires t == Apply(p, s, if id in good then Succeed(id) else Fail(id))
    ensures Follows(p, good, es', t) && Work(t) < Work(s)
  {
    FollowsNext(p, good, es, s, if id in good then Succeed(id) else Fail(id));
    es' := es + [if id in good then Succeed(id) else Fail(id)];
  }

  lemma TasksCollect(p: Plan, good: set<NodeId>, id: NodeId, es: seq<Event>, s: Progress, t: Progress, tasks: Tasks)
    requires Follows(p, good, es, s) && TasksMatch(s, tasks) && id in tasks
    requires t == Apply(p, s, if id in good then Succeed(id) else Fail(id))
    ensures TasksMatch(t, tasks - {id}) && t.cancelled == s.cancelled
    ensures SomeFailed(s) || id !in good ==> SomeFailed(t)
  {
    hide Follows, Invariant, WellFormed, Apply;
    assert s.state[id] == RUNNING by { FollowsFacts(p, good, es, s); assert id in tasks; }
    FollowsFacts(p, good, es, s);
    CollectFrame(p, good, id, s);
    if n :| n in s.state && s.state[n] == FAILED {
      assert t.state[n] == FAILED;
    }
  }

  /** Collect one finished task and forget its future. */
  method Finish(p: Plan, good: set<NodeId>, id: NodeId, s: Progress, tasks: Tasks, ghost es: seq<Event>)
    returns (t: Progress, left: Tasks, ghost es': seq<Event>)
    requires Follows(p, good, es, s) && TasksMatch(s, tasks) && id in tasks
    ensures Follows(p, good, es', t) && TasksMatch(t, left)
    ensures left == tasks - {id} && Work(t) < Work(s) && t.cancelled == s.cancelled
    ensures SomeFailed(s) || id !in good ==> SomeFailed(t)
  {
    hide Follows, Invariant, WellFormed, Apply, Work, SomeFailed;
    FollowsFacts(p, good, es, s);
    t := Collect(p, good, id, s);
    left := tasks - {id};
    TasksCollect(p, good, id, es, s, t, tasks);
    es' := FollowsCollect(p, good, id, es, s, t, tasks);
  }

  /** The tasks after a pass in which none was ready: every future has been polled once more. */
  ghost predicate PolledOnce(before: Tasks, after: Tasks, todo: set<NodeId>) {
    && after.Keys == before.Keys
    && forall n {:trigger after[n]} :: n in after ==>
         if n in todo then after[n] == before[n] else before[n] > 0 && after[n] == before[n] - 1
  }

  lemma StillOutstanding(s: Progress, tasks: Tasks, id: NodeId, polls: nat)
    requires TasksMatch(s, tasks) && id in tasks
    ensures TasksMatch(s, tasks[id := polls])
  {
  }

  /** One pass over the outstanding futures, collecting those that are ready. */
  method PollTasks(p: Plan, good: set<NodeId>, s0: Progress, tasks0: Tasks, ghost es0: seq<Event>)
    returns (s: Progress, tasks: Tasks, finished: bool, failed: bool, ghost es: seq<Event>)
    requires Follows(p, good, es0, s0) && TasksMatch(s0, tasks0)
    ensures Follows(p, good, es, s) && TasksMatch(s, tasks) && s.cancelled == s0.cancelled
    ensures finished ==> Work(s) < Work(s0)
    ensures !finished ==> s == s0 && es == es0 && PolledOnce(tasks0, tasks, {})
    ensures SomeFailed(s0) || failed ==> SomeFailed(s)
  {
    hide Follows, TasksMatch, Work, SomeFailed;
    s, tasks, finished, failed, es := s0, tasks0, false, false, es0;
    var todo := tasks.Keys;
    while todo != {}
      invariant Follows(p, good, es, s) && TasksMatch(s, tasks) && s.cancelled == s0.cancelled
      invariant todo <= tasks.Keys
      invariant finished ==> Work(s) < Work(s0)
      invariant !finished ==> s == s0 && es == es0 && PolledOnce(tasks0, tasks, todo)
      invariant SomeFailed(s0) || failed ==> SomeFailed(s)
      decreases |todo|
    {
      var id :| id in todo;
      todo := todo - {id};
      if tasks[id] == 0 {
        s, tasks, es := Finish(p, good, id, s, tasks, es);
        finished, failed := true, failed || id !in good;
      } else {
        StillOutstanding(s, tasks, id, tasks[id] - 1);
        tasks := tasks[id := tasks[id] - 1];
      }
    }
  }

  /** Poll until at least one task has finished. */
  method AwaitCompletion(p: Plan, good: set<NodeId>, s0: Progress, tasks0: Tasks, ghost es0: seq<Event>)
    returns (s: Progress, tasks: Tasks, failed: bool, ghost es: seq<Event>)
    requires Follows(p, good, es0, s0) && TasksMatch(s0, tasks0) && tasks0 != map[]
    ensures Follows(p, good, es, s) && TasksMatch(s, tasks) && s.cancelled == s0.cancelled
    ensures Work(s) < Work(s0)
    ensures SomeFailed(s0) || failed ==> SomeFailed(s)
  {
    hide Follows, TasksMatch, Work, SomeFailed;
    s, tasks, failed, es := s0, tasks0, false, es0;
    ghost var watched :| watched in tasks;
    var finished := false;
    while !finished && tasks != map[]
      invariant Follows(p, good, es, s) && TasksMatch(s, tasks) && s.cancelled == s0.cancelled
      invariant finished ==> Work(s) < Work(s0)
      invariant !finished ==> s == s0 && watched in tasks
      invariant SomeFailed(s0) || failed ==> SomeFailed(s)
      decreases if finished then 0 else 1, if watched in tasks then tasks[watched] else 0
    {
      s, tasks, finished, failed, es := PollTasks(p, good, s, tasks, es);
    }
  }

  /** Start every ready node whose resource is free, unless cancelled. */
  method DispatchReady(p: Plan, good: set<NodeId>, s0: Progress, tasks0: Tasks, context: ExecutionGraphContext,
                       ghost es0: seq<Event>)
    returns (s: Progress, tasks: Tasks, ghost es: seq<Event>)
    requires Follows(p, good, es0, s0) && TasksMatch(s0, tasks0) && (s0.cancelled ==> context.cancelFlag)
    modifies context
    ensures Follows(p, good, es, s) && TasksMatch(s, tasks) && s.cancelled == s0.cancelled
    ensures old(context.cancelFlag) ==> context.cancelFlag
    ensures Work(s) < Work(s0) || (s == s0 && tasks == tasks0)
    ensures s.state.Keys == p.resource.Keys
    ensures !context.cancelFlag ==> AllWait(p, s.state, {})
    ensures SomeFailed(s0) ==> SomeFailed(s)
  {
    hide Follows, TasksMatch, Work, SomeFailed, AllWait;
    FollowsKeys(p, good, es0, s0);
    s, tasks, es := s0, tasks0, es0;
    var todo := s.state.Keys;
    NothingWaitsYet(p, s.state);
    while todo != {}
      invariant Follows(p, good, es, s) && TasksMatch(s, tasks) && s.cancelled == s0.cancelled
      invariant old(context.cancelFlag) ==> context.cancelFlag
      invariant todo <= s.state.Keys == p.resource.Keys
      invariant Work(s) < Work(s0) || (s == s0 && tasks == tasks0)
      invariant !context.cancelFlag ==> AllWait(p, s.state, todo)
      invariant SomeFailed(s0) ==> SomeFailed(s)
      decreases todo
    {
      var id :| id in todo;
      assert todo - {id} + {id} == todo;
      todo := todo - {id};
      s, tasks, es := DispatchIfFree(p, good, s, tasks, context, es, id, todo);
    }
  }

  /** Start one node if it is ready, its resource is free, and the execution is not cancelled. */
  method DispatchIfFree(p: Plan, good: set<NodeId>, s0: Progress, tasks0: Tasks, context: ExecutionGraphContext,
                        ghost es0: seq<Event>, id: NodeId, ghost todo: set<NodeId>)
    returns (s: Progress, tasks: Tasks, ghost es: seq<Event>)
    requires Follows(p, good, es0, s0) && TasksMatch(s0, tasks0)
    requires id in s0.state && id !in todo && p.resource.Keys == s0.state.Keys
    modifies context
    ensures Follows(p, good, es, s) && TasksMatch(s, tasks) && s.cancelled == s0.cancelled
    ensures s.state.Keys == s0.state.Keys
    ensures old(context.cancelFlag) ==> context.cancelFlag
    ensures Work(s) < Work(s0) || (s == s0 && tasks == tasks0)
    ensures !context.cancelFlag && AllWait(p, s0.state, todo + {id}) ==> AllWait(p, s.state, todo)
    ensures SomeFailed(s0) ==> SomeFailed(s)
  {
    hide Follows, TasksMatch, Work, SomeFailed, Held, Invariant, WellFormed, Available, AllWait;
    s, tasks, es := s0, tasks0, es0;
    SkippedWaits(p, s.state, todo, id);
    if s.state[id] != READY {
      return;
    }
    FollowsAvailable(p, good, es, s, p.resource[id]);
    var cancelled := context.IsCancelled();
    if !cancelled && Available(s.active, p.resource[id]) {
      var polls: nat := *;
      es := StartTask(p, good, es, s, tasks, id, polls);
      StartedWaits(p, s.state, todo, id);
      s := s.(state := s.state[id := RUNNING],
              active := s.active[p.resource[id] := Count(s.active, p.resource[id]) + 1]);
      tasks := tasks[id := polls];
    }
  }

  lemma FollowsKeys(p: Plan, good: set<NodeId>, es: seq<Event>, s: Progress)
    requires Follows(p, good, es, s)
    ensures s.state.Keys == p.resource.Keys
  {
  }

  lemma FollowsAvailable(p: Plan, good: set<NodeId>, es: seq<Event>, s: Progress, r: ExecutionResource)
    requires Follows(p, good, es, s) && p.resource.Keys == s.state.Keys
    ensures Available(s.active, r) <==> !Held(p, s.state, r)
  {
    AvailableIff(p, s, r);
  }

  /** Every node that is ready, outside `todo`, waits for a node that holds its resource. */
  ghost predicate AllWait(p: Plan, state: States, todo: set<NodeId>)
    requires p.resource.Keys == state.Keys
  {
    forall n {:trigger state[n]} :: n in state && n !in todo && state[n] == READY ==> Held(p, state, p.resource[n])
  }

  lemma NothingWaitsYet(p: Plan, state: States)
    requires p.resource.Keys == state.Keys
    ensures AllWait(p, state, state.Keys)
  {
  }

  lemma SkippedWaits(p: Plan, state: States, todo: set<NodeId>, id: NodeId)
    requires p.resource.Keys == state.Keys && id in state
    ensures AllWait(p, state, todo + {id}) && (state[id] == READY ==> Held(p, state, p.resource[id])) ==>
      AllWait(p, state, todo)
  {
    hide Held;
  }

  /** Starting one more node frees nothing. */
  lemma StartedWaits(p: Plan, state: States, todo: set<NodeId>, id: NodeId)
    requires p.resource.Keys == state.Keys && id in state && id !in todo
    ensures AllWait(p, state, todo + {id}) ==> AllWait(p, state[id := RUNNING], todo)
  {
    hide Held;
    forall r | Held(p, state, r)
      ensures Held(p, state[id := RUNNING], r)
    {
      StaysHeld(p, state, id, r);
    }
  }

  lemma StaysHeld(p: Plan, state: States, id: NodeId, r: ExecutionResource)
    requires p.resource.Keys == state.Keys && id in state && Held(p, state, r)
    ensures Held(p, state[id := RUNNING], r)
  {
    var m :| m in state && state[m] == RUNNING && p.resource[m] == r;
    assert state[id := RUNNING][m] == RUNNING;
  }

  lemma StartTask(p: Plan, good: set<NodeId>, es: seq<Event>, s: Progress, tasks: Tasks, id: NodeId, polls: nat)
    returns (es': seq<Event>)
    requires Follows(p, good, es, s) && TasksMatch(s, tasks)
    requires id in s.state && s.state[id] == READY && id in p.resource && Available(s.active, p.resource[id])
    ensures var t := s.(state := s.state[id := RUNNING],
                        active := s.active[p.resource[id] := Count(s.active, p.resource[id]) + 1]);
      && Follows(p, good, es', t) && TasksMatch(t, tasks[id := polls])
      && Work(t) < Work(s) && (SomeFailed(s) ==> SomeFailed(t))
  {
    hide Follows, Invariant, WellFormed, Work;
    FollowsFacts(p, good, es, s);
    assert !s.cancelled by { StillOpen(p, s, id); }
    FollowsNext(p, good, es, s, Dispatch(id));
    es' := es + [Dispatch(id)];
    if n :| n in s.state && s.state[n] == FAILED {
      assert Apply(p, s, Dispatch(id)).state[n] == FAILED;
    }
  }

  lemma StillOpen(p: Plan, s: Progress, id: NodeId)
    requires WellFormed(p) && Invariant(p, s) && id in s.state && s.state[id] == READY
    ensures !s.cancelled
  {
  }

  /** With no task outstanding nobody holds a resource, so nobody waits for one. */
  lemma IdleLeavesNothing(p: Plan, s: Progress, tasks: Tasks)
    requires TasksMatch(s, tasks) && tasks == map[] && p.resource.Keys == s.state.Keys && AllWait(p, s.state, {})
    ensures forall n {:trigger s.state[n]} :: n in s.state ==> s.state[n] != READY
  {
    NothingRunning(s, tasks);
  }

  /** Mark everything still waiting as cancelled. */
  method CancelWaiting(state0: States) returns (state: States)
    ensures state == Cancelling(state0)
  {
    state := state0;
    var todo := state0.Keys;
    while todo != {}
      invariant todo <= state0.Keys && state.Keys == state0.Keys
      invariant forall n {:trigger state[n]} :: n in state0 ==>
        state[n] == if n !in todo && Open(state0[n]) then CANCELLED else state0[n]
      decreases |todo|
    {
      var id :| id in todo;
      if state[id] == READY || state[id] == CREATED {
        state := state[id := CANCELLED];
      }
      todo := todo - {id};
    }
  }

  lemma CancelFrame(p: Plan, good: set<NodeId>, es: seq<Event>, s: Progress, tasks: Tasks) returns (es': seq<Event>)
    requires Follows(p, good, es, s) && TasksMatch(s, tasks)
    ensures var t := s.(state := Cancelling(s.state), cancelled := true);
      && Follows(p, good, es', t) && TasksMatch(t, tasks)
      && (if s.cancelled then t == s else Work(t) < Work(s))
      && (SomeFailed(s) ==> SomeFailed(t))
  {
    hide Follows, Invariant, WellFormed, Work;
    FollowsFacts(p, good, es, s);
    var t := s.(state := Cancelling(s.state), cancelled := true);
    if n :| n in s.state && s.state[n] == FAILED {
      assert t.state[n] == FAILED;
    }
    if s.cancelled {
      CancelledTwice(p, s);
      es' := es;
    } else {
      FollowsNext(p, good, es, s, Cancel);
      es' := es + [Cancel];
    }
  }

  lemma CancelledTwice(p: Plan, s: Progress)
    requires WellFormed(p) && Invariant(p, s) && s.cancelled
    ensures Cancelling(s.state) == s.state
  {
  }

  function PlanOf<T>(graph: ExecutionGraph<T>): Plan
    reads graph
    requires graph.Valid()
  {
    Plan(graph.adj, graph.revAdj, map n | n in graph.nodes :: graph.nodes[n].resource)
  }

  ghost predicate AllCompleted(s: Progress) {
    forall n {:trigger s.state[n]} :: n in s.state ==> s.state[n] == COMPLETED
  }

  lemma RestsWithoutReady(p: Plan, good: set<NodeId>, rank: map<NodeId, nat>, es: seq<Event>, s: Progress)
    requires Follows(p, good, es, s) && IsTopological(p.adj, rank)
    requires forall n {:trigger s.state[n]} :: n in s.state ==> s.state[n] != READY && s.state[n] != RUNNING
    ensures Quiescent(s)
  {
    hide Follows, Invariant, WellFormed;
    FollowsFacts(p, good, es, s);
    if !Quiescent(s) {
      var e := NeverStuck(p, rank, s);
      assert false;
    }
  }

  lemma NothingReadyAfterCancel(p: Plan, good: set<NodeId>, es: seq<Event>, s: Progress)
    requires Follows(p, good, es, s) && s.cancelled
    ensures forall n {:trigger s.state[n]} :: n in s.state ==> s.state[n] != READY
  {
  }

  lemma NothingRunning(s: Progress, tasks: Tasks)
    requires TasksMatch(s, tasks) && tasks == map[]
    ensures forall n {:trigger s.state[n]} :: n in s.state ==> s.state[n] != RUNNING
  {
    forall n | n in s.state
      ensures s.state[n] != RUNNING
    {
      assert n !in tasks;
    }
  }

  /**
   * Execute the graph. `good` is the set of nodes whose execution reports success. The ghost
   * results are the run that was performed and the progress it ended in.
   */
  method Execute<T>(graph: ExecutionGraph<T>, good: set<NodeId>, context: ExecutionGraphContext)
    returns (result: ExecutionGraphResult, ghost es: seq<Event>, ghost end: Progress)
    requires graph.Valid()
    modifies context
    ensures HasCycle(graph.adj) ==> result == ExecutionGraphResult(false, InvalidGraph, map[])
    ensures !HasCycle(graph.adj) ==> Follows(PlanOf(graph), good, es, end) && Quiescent(end)
    ensures !HasCycle(graph.adj) ==> result.finalState == end.state
    ensures !HasCycle(graph.adj) ==> (result.success <==> !end.cancelled && AllCompleted(end))
    ensures !HasCycle(graph.adj) ==> (result.error == ExecutionCancelled <==> end.cancelled)
    ensures !HasCycle(graph.adj) ==> (result.error == NoError <==> result.success) && result.error != InvalidGraph
    ensures !HasCycle(graph.adj) ==> forall k :: 0 <= k <= |es| ==> ApartAt(graph, es, k)
    ensures !HasCycle(graph.adj) ==> Accountable(PlanOf(graph), good, end)
    ensures Final(result.finalState, end.cancelled)
    ensures !HasCycle(graph.adj) && end.cancelled ==> context.cancelFlag
    ensures !HasCycle(graph.adj) && !end.cancelled ==>
      result.finalState == map n | n in graph.nodes :: Verdict(graph.adj, good, n)
  {
    var valid; ghost var rank;
    valid, rank := graph.Validate();
    es, end := [], Progress(map[], map[], map[], false);
    if !valid {
      return ExecutionGraphResult(false, InvalidGraph, map[]), es, end;
    }
    var p := PlanOf(graph);
    var s;
    s, es, result := RunLoop(p, good, context, rank);
    end := s;
    FollowsIsDetermined(p, good, es, s);
    RunsAreAccountable(p, good, es);
    RestIsFinal(p, good, s);
    hide Accountable, Final, Quiescent;
    forall k | 0 <= k <= |es|
      ensures ApartAt(graph, es, k)
    {
      FollowsApart(graph, good, es, s, k);
    }
  }

  /** After the first k events: of two nodes that run on one resource, the resource is the CPU or none. */
  ghost predicate ApartAt<T>(graph: ExecutionGraph<T>, es: seq<Event>, k: nat)
    reads graph
    requires graph.Valid() && k <= |es|
  {
    && WellFormed(PlanOf(graph)) && ValidRun(PlanOf(graph), Initial(PlanOf(graph)), es[..k])
    && var state := Run(PlanOf(graph), Initial(PlanOf(graph)), es[..k]).state;
       && state.Keys == graph.nodes.Keys
       && forall m, n :: m in state && n in state && m != n && state[m] == RUNNING && state[n] == RUNNING ==>
            var r := graph.nodes[n].resource; graph.nodes[m].resource != r || r == CPU || r == NONE
  }

  lemma FollowsApart<T>(graph: ExecutionGraph<T>, good: set<NodeId>, es: seq<Event>, s: Progress, k: nat)
    requires graph.Valid() && Follows(PlanOf(graph), good, es, s) && k <= |es|
    ensures ApartAt(graph, es, k)
  {
    var p := PlanOf(graph);
    PrefixIsRun(p, Initial(p), es, k);
    SafeAtEveryPoint(p, es[..k]);
  }

  lemma FollowsIsDetermined(p: Plan, good: set<NodeId>, es: seq<Event>, s: Progress)
    requires Follows(p, good, es, s) && Quiescent(s)
    ensures !s.cancelled ==> s.state == map n | n in p.adj :: Verdict(p.adj, good, n)
  {
    if !s.cancelled {
      ScheduleIndependence(p, good, es);
    }
  }

  method RunLoop(p: Plan, good: set<NodeId>, context: ExecutionGraphContext, ghost rank: map<NodeId, nat>)
    returns (s: Progress, ghost es: seq<Event>, result: ExecutionGraphResult)
    requires WellFormed(p) && IsTopological(p.adj, rank)
    modifies context
    ensures Follows(p, good, es, s) && Quiescent(s) && (s.cancelled ==> context.cancelFlag)
    ensures result.finalState == s.state
    ensures result.success <==> !s.cancelled && AllCompleted(s)
    ensures result.error == ExecutionCancelled <==> s.cancelled
    ensures result.error != InvalidGraph && (result.error == NoError <==> result.success)
  {
    s := Initial(p);
    es := [];
    FollowsStart(p, good);
    var tasks: Tasks := map[];
    InitiallyIdle(p);
    hide Follows, Invariant, WellFormed, TasksMatch, Work, SomeFailed, Quiescent, AllCompleted, IsTopological, AllWait;
    var overallSuccess, error, active := true, NoError, true;
    while active
      invariant Follows(p, good, es, s) && TasksMatch(s, tasks)
      invariant s.cancelled ==> context.cancelFlag
      invariant !active ==> Quiescent(s)
      invariant overallSuccess ==> !s.cancelled
      invariant !overallSuccess ==> s.cancelled || SomeFailed(s)
      invariant error == if s.cancelled then ExecutionCancelled else NoError
      decreases Work(s), if context.cancelFlag then 0 else 1, if active then 1 else 0
    {
      var cancelled := context.IsCancelled();
      if cancelled {
        overallSuccess, error := false, ExecutionCancelled;
        es := CancelFrame(p, good, es, s, tasks);
        var state := CancelWaiting(s.state);
        s := s.(state := state, cancelled := true);
        NothingReadyAfterCancel(p, good, es, s);
      }
      s, tasks, es := DispatchReady(p, good, s, tasks, context, es);
      active := false;
      if tasks != map[] {
        active := true;
        var failed;
        s, tasks, failed, es := AwaitCompletion(p, good, s, tasks, es);
        if failed {
          overallSuccess := false;
        }
      } else {
        NothingRunning(s, tasks);
        if !context.cancelFlag {
          IdleLeavesNothing(p, s, tasks);
        }
      }
      if exists n | n in s.state :: s.state[n] == READY || s.state[n] == RUNNING {
        active := true;
      } else {
        RestsWithoutReady(p, good, rank, es, s);
      }
    }
    result := Conclude(p, good, s, es, overallSuccess, error);
  }

  lemma InitiallyIdle(p: Plan)
    requires p.rev.Keys == p.adj.Keys
    ensures TasksMatch(Initial(p), map[])
  {
  }

  /** Anything that did not finish fails the execution. */
  method Conclude(p: Plan, good: set<NodeId>, s: Progress, ghost es: seq<Event>, overallSuccess0: bool,
                  error0: ResultError)
    returns (result: ExecutionGraphResult)
    requires Follows(p, good, es, s)
    requires overallSuccess0 ==> !s.cancelled
    requires !overallSuccess0 ==> s.cancelled || SomeFailed(s)
    requires error0 == if s.cancelled then ExecutionCancelled else NoError
    ensures result.finalState == s.state
    ensures result.success <==> !s.cancelled && AllCompleted(s)
    ensures result.error == ExecutionCancelled <==> s.cancelled
    ensures result.error != InvalidGraph && (result.error == NoError <==> result.success)
  {
    hide Follows, Invariant, WellFormed;
    var overallSuccess, error := overallSuccess0, error0;
    if exists n | n in s.state :: s.state[n] != COMPLETED && s.state[n] != SKIPPED && s.state[n] != CANCELLED {
      overallSuccess := false;
      if error == NoError {
        error := NotAllCompleted;
      }
    }
    FollowsFlagged(p, good, es, s);
    result := ExecutionGraphResult(overallSuccess, error, s.state);
  }

  lemma FollowsFlagged(p: Plan, good: set<NodeId>, es: seq<Event>, s: Progress)
    requires Follows(p, good, es, s)
    ensures Flagged(s)
  {
  }
}
