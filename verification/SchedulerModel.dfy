/**
 * The scheduler as a transition system: which states the nodes of a graph can be in, the events
 * that change them, what every run keeps, where every run ends, and that every run ends.
 */
module SchedulerModel {
  import opened Digraph
  import opened ExecutionGraphs

  datatype NodeState = CREATED | READY | RUNNING | COMPLETED | FAILED | CANCELLED | BLOCKED | SKIPPED

  /** What the scheduler reads of a graph. */
  datatype Plan = Plan(adj: Graph, rev: Graph, resource: map<NodeId, ExecutionResource>)

  ghost predicate WellFormed(p: Plan) {
    && p.rev.Keys == p.adj.Keys
    && p.resource.Keys == p.adj.Keys
    && (forall u, v {:trigger Edge(p.adj, u, v)} {:trigger Edge(p.rev, v, u)} ::
          Edge(p.adj, u, v) <==> Edge(p.rev, v, u))
    && (forall u {:trigger p.adj[u]} :: u in p.adj ==> NoDuplicates(p.adj[u]))
    && (forall u {:trigger p.rev[u]} :: u in p.rev ==> NoDuplicates(p.rev[u]))
  }

  type States = map<NodeId, NodeState>

  datatype Progress = Progress(
    state: States,
    inDegree: map<NodeId, int>,
    active: map<ExecutionResource, int>,
    cancelled: bool)

  predicate Open(s: NodeState) { s == CREATED || s == READY }
  predicate Started(s: NodeState) { s == RUNNING || s == COMPLETED || s == FAILED }
  predicate Stopped(s: NodeState) { s == BLOCKED || s == CANCELLED }
  predicate Dead(s: NodeState) { s == FAILED || Stopped(s) }

  predicate Shared(r: ExecutionResource) { r == NONE || r == CPU }

  function Count(active: map<ExecutionResource, int>, r: ExecutionResource): int {
    if r in active then active[r] else 0
  }

  predicate Available(active: map<ExecutionResource, int>, r: ExecutionResource) {
    Shared(r) || Count(active, r) <= 0
  }

  // ---------------------------------------------------------------------------------------------
  // Events
  // ---------------------------------------------------------------------------------------------

  datatype Event = Dispatch(id: NodeId) | Succeed(id: NodeId) | Fail(id: NodeId) | Cancel

  function Initial(p: Plan): Progress
    requires p.rev.Keys == p.adj.Keys
  {
    Progress(map u | u in p.adj :: if |p.rev[u]| == 0 then READY else CREATED,
             map u | u in p.adj :: |p.rev[u]|,
             map[], false)
  }

  ghost predicate Shape(p: Plan, s: Progress) {
    && s.state.Keys == p.adj.Keys
    && s.inDegree.Keys == p.adj.Keys
    && p.resource.Keys == p.adj.Keys
  }

  ghost predicate Enabled(p: Plan, s: Progress, e: Event)
    requires Shape(p, s)
  {
    match e
    case Dispatch(n) => n in s.state && s.state[n] == READY && !s.cancelled && Available(s.active, p.resource[n])
    case Succeed(n) => n in s.state && s.state[n] == RUNNING
    case Fail(n) => n in s.state && s.state[n] == RUNNING
    case Cancel => !s.cancelled
  }

  /** What one successful predecessor changes: a count for every successor, and readiness at zero. */
  function Lowered(succs: seq<NodeId>, inDegree: map<NodeId, int>): map<NodeId, int> {
    map u | u in inDegree :: if u in succs then inDegree[u] - 1 else inDegree[u]
  }

  function Readied(succs: seq<NodeId>, state: States, lowered: map<NodeId, int>): States
    requires lowered.Keys == state.Keys
  {
    map u | u in state :: if u in succs && lowered[u] == 0 && state[u] == CREATED then READY else state[u]
  }

  ghost function Blocking(adj: Graph, state: States, failed: NodeId): States {
    map u | u in state :: if Open(state[u]) && Reaches(adj, failed, u) then BLOCKED else state[u]
  }

  function Cancelling(state: States): States {
    map u | u in state :: if Open(state[u]) then CANCELLED else state[u]
  }

  ghost function Apply(p: Plan, s: Progress, e: Event): Progress
    requires Shape(p, s) && Enabled(p, s, e)
  {
    match e
    case Dispatch(n) =>
      var r := p.resource[n];
      s.(state := s.state[n := RUNNING], active := s.active[r := Count(s.active, r) + 1])
    case Succeed(n) =>
      var r := p.resource[n];
      var lowered := Lowered(p.adj[n], s.inDegree);
      s.(state := Readied(p.adj[n], s.state[n := COMPLETED], lowered), inDegree := lowered,
         active := s.active[r := Count(s.active, r) - 1])
    case Fail(n) =>
      var r := p.resource[n];
      s.(state := Blocking(p.adj, s.state[n := FAILED], n), active := s.active[r := Count(s.active, r) - 1])
    case Cancel => s.(state := Cancelling(s.state), cancelled := true)
  }

  lemma ApplyShape(p: Plan, s: Progress, e: Event)
    requires Shape(p, s) && Enabled(p, s, e)
    ensures Shape(p, Apply(p, s, e))
  {
  }

  /** A run: every event is enabled when it happens. */
  ghost predicate ValidRun(p: Plan, s: Progress, es: seq<Event>)
    requires Shape(p, s)
    decreases |es|
  {
    es == [] ||
    (Enabled(p, s, es[0]) && Shape(p, Apply(p, s, es[0])) && ValidRun(p, Apply(p, s, es[0]), es[1..]))
  }

  ghost function Run(p: Plan, s: Progress, es: seq<Event>): (t: Progress)
    requires Shape(p, s) && ValidRun(p, s, es)
    ensures Shape(p, t)
    decreases |es|
  {
    if es == [] then s else Run(p, Apply(p, s, es[0]), es[1..])
  }

  lemma {:induction false} RunExtend(p: Plan, s: Progress, es: seq<Event>, e: Event)
    requires Shape(p, s) && ValidRun(p, s, es) && Enabled(p, Run(p, s, es), e)
    ensures ValidRun(p, s, es + [e]) && Run(p, s, es + [e]) == Apply(p, Run(p, s, es), e)
    decreases |es|
  {
    var es' := es + [e];
    if es == [] {
      ApplyShape(p, s, e);
      assert es'[1..] == [];
    } else {
      assert es'[1..] == es[1..] + [e];
      RunExtend(p, Apply(p, s, es[0]), es[1..], e);
    }
  }

  lemma {:induction false} PrefixIsRun(p: Plan, s: Progress, es: seq<Event>, k: nat)
    requires Shape(p, s) && ValidRun(p, s, es) && k <= |es|
    ensures ValidRun(p, s, es[..k])
    decreases |es|
  {
    if k > 0 {
      assert es[..k][1..] == es[1..][..k - 1];
      PrefixIsRun(p, Apply(p, s, es[0]), es[1..], k - 1);
    }
  }

  // ---------------------------------------------------------------------------------------------
  // What every run keeps
  // ---------------------------------------------------------------------------------------------

  function Pending(preds: seq<NodeId>, state: States): nat {
    if preds == [] then 0
    else (if preds[0] in state && state[preds[0]] == COMPLETED then 0 else 1) + Pending(preds[1..], state)
  }

  /** `in_degree` counts the predecessors that have not completed. */
  ghost predicate Counted(p: Plan, s: Progress)
    requires Shape(p, s) && p.rev.Keys == p.adj.Keys
  {
    forall n {:trigger s.inDegree[n]} :: n in p.adj ==> s.inDegree[n] == Pending(p.rev[n], s.state)
  }

  /** A node is ready or started only after all its predecessors completed; it waits only while one has not. */
  ghost predicate Ordered(p: Plan, s: Progress)
    requires Shape(p, s)
  {
    && (forall u, v {:trigger Edge(p.adj, u, v)} :: Edge(p.adj, u, v) && v in s.state ==>
          u in s.state && (s.state[v] == READY || Started(s.state[v]) ==> s.state[u] == COMPLETED))
    && (forall n {:trigger s.state[n]} :: n in s.state && s.state[n] == CREATED ==> s.inDegree[n] != 0)
  }

  /** Nothing behind a failed, blocked or cancelled node can ever run. */
  ghost predicate Contained(p: Plan, s: Progress)
    requires Shape(p, s)
  {
    forall u, v {:trigger Edge(p.adj, u, v)} :: Edge(p.adj, u, v) && Dead(s.state[u]) ==>
      v in s.state && Stopped(s.state[v])
  }

  ghost function RunningOn(p: Plan, state: States, r: ExecutionResource): set<NodeId>
    requires p.resource.Keys == state.Keys
  {
    set n | n in state && state[n] == RUNNING && p.resource[n] == r
  }

  /** Each resource counter is the number of running nodes, at most one on an exclusive resource. */
  ghost predicate Exclusive(p: Plan, s: Progress)
    requires Shape(p, s)
  {
    forall r {:trigger Count(s.active, r)} ::
      Count(s.active, r) == |RunningOn(p, s.state, r)| && (!Shared(r) ==> Count(s.active, r) <= 1)
  }

  ghost predicate Flagged(s: Progress) {
    forall n {:trigger s.state[n]} :: n in s.state ==>
      && s.state[n] != SKIPPED
      && (s.cancelled ==> !Open(s.state[n]))
      && (!s.cancelled ==> s.state[n] != CANCELLED)
  }

  ghost predicate Invariant(p: Plan, s: Progress)
    requires WellFormed(p)
  {
    Shape(p, s) && Counted(p, s) && Ordered(p, s) && Contained(p, s) && Exclusive(p, s) && Flagged(s)
  }

  lemma {:induction false} PendingZero(preds: seq<NodeId>, state: States)
    ensures Pending(preds, state) == 0 <==> forall u :: u in preds ==> u in state && state[u] == COMPLETED
  {
    if preds != [] {
      PendingZero(preds[1..], state);
      assert forall u :: u in preds <==> u == preds[0] || u in preds[1..];
    }
  }

  lemma {:induction false} PendingSame(preds: seq<NodeId>, a: States, b: States)
    requires forall u :: u in preds ==> (u in a && a[u] == COMPLETED <==> u in b && b[u] == COMPLETED)
    ensures Pending(preds, a) == Pending(preds, b)
  {
    if preds != [] {
      assert preds[0] in preds;
      PendingSame(preds[1..], a, b);
    }
  }

  lemma {:induction false} PendingDrops(preds: seq<NodeId>, a: States, b: States, n: NodeId)
    requires NoDuplicates(preds)
    requires n in a && a[n] != COMPLETED && n in b && b[n] == COMPLETED
    requires forall u :: u in preds && u != n ==> (u in a && a[u] == COMPLETED <==> u in b && b[u] == COMPLETED)
    ensures Pending(preds, b) == Pending(preds, a) - if n in preds then 1 else 0
  {
    if preds != [] {
      assert preds[0] in preds;
      if preds[0] == n {
        assert n !in preds[1..];
        PendingSame(preds[1..], a, b);
      } else {
        PendingDrops(preds[1..], a, b, n);
      }
    }
  }

  lemma {:induction false} AllPending(preds: seq<NodeId>, state: States)
    requires forall u :: u in state ==> state[u] != COMPLETED
    ensures Pending(preds, state) == |preds|
  {
    if preds != [] {
      AllPending(preds[1..], state);
    }
  }

  lemma InitialInvariant(p: Plan)
    requires WellFormed(p)
    ensures Invariant(p, Initial(p))
  {
    var s := Initial(p);
    forall n | n in p.adj
      ensures s.inDegree[n] == Pending(p.rev[n], s.state)
    {
      AllPending(p.rev[n], s.state);
    }
    forall u, v | Edge(p.adj, u, v) && v in s.state
      ensures u in s.state && s.state[v] == CREATED
    {
      assert Edge(p.rev, v, u);
    }
    forall r
      ensures RunningOn(p, s.state, r) == {}
    {
    }
  }
}
