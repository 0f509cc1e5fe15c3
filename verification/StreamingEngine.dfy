/**
 * Loading, promoting and evicting as threads that take turns: each step is one access to the residency
 * table or to the memory of a resource.
 */
module StreamingEngine {
  import opened ResourceResidencyManagers

  /** Where a thread stands. */
  datatype Actor =
    | LoadBegin(id: nat)
    | LoadAllocate(id: nat)
    | LoadRead(id: nat)
    | LoadCheckWarm(id: nat)
    | LoadCheckHot(id: nat)
    | PromoteBegin(id: nat, moves: bool)
    | PromoteMove(id: nat, moves: bool)
    | PromoteCheck(id: nat)
    | EvictLook(id: nat, target: Residency)
    | EvictBegin(id: nat, target: Residency, current: Residency)
    | EvictWork(id: nat, target: Residency, current: Residency)
    | Close(id: nat, from: Residency, to: Residency, result: bool)
    | Done(id: nat, result: bool)
  {
    /** A thread starts with one of the three operations. */
    predicate Starts() { LoadBegin? || PromoteBegin? || EvictLook? }

    /** Between a successful begin and its closing transition a thread owns the resource. */
    predicate Owns() { LoadAllocate? || LoadRead? || PromoteMove? || EvictWork? || Close? }

    /** The state an owner put the resource in. */
    function Holding(): Residency
      requires Owns()
    {
      if Close? then from else if EvictWork? then Evicting else Loading
    }

    /** Whether the resource has its memory while this owner is at work. */
    predicate HasMemory()
      requires Owns()
    {
      match this
      case LoadAllocate(_) => false
      case LoadRead(_) => true
      case PromoteMove(_, _) => true
      case EvictWork(_, _, current) => current.Resident()
      case Close(_, _, to, _) => to.Resident()
    }

    /** What an owner may be about to do. */
    predicate Sound() {
      match this
      case EvictWork(_, _, current) => !current.InProgress()
      case Close(_, from, to, _) => from.InProgress() && !to.InProgress()
      case _ => true
    }
  }

  /** The table, the resources whose memory block is valid, and the threads. */
  datatype State = State(states: Table, blocks: set<nat>, actors: map<nat, Actor>)

  datatype Event = Spawn(a: nat, actor: Actor) | Act(a: nat, good: bool)

  predicate Possible(s: State, e: Event) {
    match e
    case Spawn(a, actor) => a !in s.actors && actor.Starts()
    case Act(a, _) => a in s.actors && !s.actors[a].Done?
  }

  /** Thread a goes on as `actor`. */
  function Goes(s: State, a: nat, actor: Actor): State {
    s.(actors := s.actors[a := actor])
  }

  /** A compare-and-set, and where the thread goes on either way. */
  function Tries(s: State, a: nat, id: nat, from: Residency, to: Residency, then_: Actor, else_: Actor): State {
    var (states, ok) := Exchanged(s.states, id, from, to);
    State(states, s.blocks, s.actors[a := if ok then then_ else else_])
  }

  /** One step of a thread; `good` says whether an allocation or a transfer works out. */
  function Step(s: State, a: nat, good: bool): State
    requires a in s.actors
  {
    match s.actors[a]
    case LoadBegin(id) => Tries(s, a, id, Disk, Loading, LoadAllocate(id), LoadCheckWarm(id))
    case LoadAllocate(id) =>
      if good then Goes(s, a, LoadRead(id)).(blocks := s.blocks + {id}) else Goes(s, a, Close(id, Loading, Disk, false))
    case LoadRead(id) => Goes(s, a, Close(id, Loading, Warm, true))
    case LoadCheckWarm(id) => Goes(s, a, if StateOf(s.states, id).Warm? then Done(id, true) else LoadCheckHot(id))
    case LoadCheckHot(id) => Goes(s, a, Done(id, StateOf(s.states, id).Hot?))
    case PromoteBegin(id, moves) => Tries(s, a, id, Warm, Loading, PromoteMove(id, moves), PromoteCheck(id))
    case PromoteMove(id, moves) =>
      Goes(s, a, if moves && !good then Close(id, Loading, Warm, false) else Close(id, Loading, Hot, true))
    case PromoteCheck(id) => Goes(s, a, Done(id, StateOf(s.states, id).Hot?))
    case EvictLook(id, target) =>
      Goes(s, a, if StateOf(s.states, id) == target then Done(id, true)
                 else EvictBegin(id, target, StateOf(s.states, id)))
    case EvictBegin(id, target, current) =>
      Tries(s, a, id, current, Evicting, EvictWork(id, target, current), Done(id, false))
    case EvictWork(id, target, current) =>
      if current.Hot? && target.Warm? then Goes(s, a, Close(id, Evicting, Warm, true))
      else if current.Resident() && target.Disk? then
        Goes(s, a, Close(id, Evicting, Disk, true)).(blocks := s.blocks - {id})
      else Goes(s, a, Close(id, Evicting, current, false))
    case Close(id, from, to, result) => Tries(s, a, id, from, to, Done(id, result), Done(id, result))
    case Done(_, _) => s
  }

  function Apply(s: State, e: Event): State
    requires Possible(s, e)
  {
    match e
    case Spawn(a, actor) => Goes(s, a, actor)
    case Act(a, good) => Step(s, a, good)
  }

  // ---------------------------------------------------------------------------------------------
  // The protocol
  // ---------------------------------------------------------------------------------------------

  predicate OwnerOf(s: State, a: nat, id: nat) {
    a in s.actors && s.actors[a].Owns() && s.actors[a].id == id
  }

  /** No two threads own the same resource. */
  ghost predicate Exclusive(s: State) {
    forall a, b, id {:trigger OwnerOf(s, a, id), OwnerOf(s, b, id)} :: OwnerOf(s, a, id) && OwnerOf(s, b, id) ==> a == b
  }

  /** An owner finds the resource as it left it. */
  ghost predicate Faithful(s: State) {
    forall a, id {:trigger OwnerOf(s, a, id)} :: OwnerOf(s, a, id) ==>
      && s.actors[a].Sound()
      && s.actors[a].Holding().InProgress()
      && StateOf(s.states, id) == s.actors[a].Holding()
      && (id in s.blocks <==> s.actors[a].HasMemory())
  }

  ghost predicate Owned(s: State, id: nat) {
    exists a :: OwnerOf(s, a, id)
  }

  /** A resource in progress has an owner; any other has memory exactly when it is warm or hot. */
  ghost predicate Settled(s: State) {
    forall id: nat {:trigger StateOf(s.states, id)} ::
      if StateOf(s.states, id).InProgress() then Owned(s, id) else id in s.blocks <==> StateOf(s.states, id).Resident()
  }

  ghost predicate Invariant(s: State) {
    Exclusive(s) && Faithful(s) && Settled(s)
  }

  /** An evictor takes a resource away from a transition that is under way. */
  predicate Hijacks(s: State, e: Event) {
    && e.Act? && e.a in s.actors && s.actors[e.a].EvictBegin?
    && s.actors[e.a].current.InProgress()
    && StateOf(s.states, s.actors[e.a].id) == s.actors[e.a].current
  }

  /** Nothing loaded and nobody at work. */
  const EMPTY := State(map[], {}, map[])

  lemma EmptyIsSettled()
    ensures Invariant(EMPTY)
  {
  }

  /** A resource is owned exactly when it is in progress, and by one thread only. */
  lemma OwnedIffInProgress(s: State, id: nat)
    requires Invariant(s)
    ensures StateOf(s.states, id).InProgress() <==> Owned(s, id)
    ensures forall a, b :: OwnerOf(s, a, id) && OwnerOf(s, b, id) ==> a == b
  {
  }

  /** A closing transition never fails. */
  lemma ClosingSucceeds(s: State, a: nat)
    requires Invariant(s) && a in s.actors && s.actors[a].Close?
    ensures var c := s.actors[a]; Exchanged(s.states, c.id, c.from, c.to).1
  {
    assert OwnerOf(s, a, s.actors[a].id);
  }

  // ---------------------------------------------------------------------------------------------
  // What a step keeps
  // ---------------------------------------------------------------------------------------------

  /** Only thread a moved, and only resource id was touched. */
  ghost predicate Local(s: State, s': State, a: nat, id: nat) {
    && a in s'.actors && s'.actors[a].id == id && (a in s.actors ==> s.actors[a].id == id)
    && (forall b {:trigger b in s'.actors} {:trigger s'.actors[b]} :: b != a ==>
          (b in s'.actors <==> b in s.actors) && (b in s.actors ==> s'.actors[b] == s.actors[b]))
    && (forall j {:trigger StateOf(s'.states, j)} :: j != id ==> StateOf(s'.states, j) == StateOf(s.states, j))
    && (forall j {:trigger j in s'.blocks} :: j != id ==> (j in s'.blocks <==> j in s.blocks))
  }

  lemma OthersKeepOwning(s: State, s': State, a: nat, id: nat)
    requires Local(s, s', a, id)
    ensures forall b, j {:trigger OwnerOf(s', b, j)} :: b != a || j != id ==> (OwnerOf(s', b, j) <==> OwnerOf(s, b, j))
    ensures forall j {:trigger Owned(s', j)} :: j != id ==> (Owned(s', j) <==> Owned(s, j))
  {
    forall j | j != id ensures Owned(s', j) <==> Owned(s, j) {
      if Owned(s, j) {
        var b :| OwnerOf(s, b, j);
        assert OwnerOf(s', b, j);
      }
      if Owned(s', j) {
        var b :| OwnerOf(s', b, j);
        assert OwnerOf(s, b, j);
      }
    }
  }

  /** A thread that owns nothing moves on and touches nothing. */
  lemma BystanderKeeps(s: State, s': State, a: nat, id: nat)
    requires Invariant(s) && Local(s, s', a, id) && !OwnerOf(s, a, id) && !s'.actors[a].Owns()
    requires s'.states == s.states && s'.blocks == s.blocks
    ensures Invariant(s')
  {
    OthersKeepOwning(s, s', a, id);
    if Owned(s, id) {
      var b :| OwnerOf(s, b, id);
      assert OwnerOf(s', b, id);
    }
  }

  /** A thread takes a resource that nobody owns. */
  lemma TakingKeeps(s: State, s': State, a: nat, id: nat)
    requires Invariant(s) && Local(s, s', a, id) && !StateOf(s.states, id).InProgress()
    requires s'.actors[a].Owns() && s'.actors[a].Sound() && s'.actors[a].Holding().InProgress()
    requires StateOf(s'.states, id) == s'.actors[a].Holding()
    requires id in s'.blocks <==> s'.actors[a].HasMemory()
    ensures Invariant(s')
  {
    OthersKeepOwning(s, s', a, id);
    assert OwnerOf(s', a, id);
    assert forall b {:trigger OwnerOf(s, b, id)} :: !OwnerOf(s, b, id);
  }

  /** An owner works on, with the resource in the same state. */
  lemma WorkingKeeps(s: State, s': State, a: nat, id: nat)
    requires Invariant(s) && Local(s, s', a, id) && OwnerOf(s, a, id)
    requires s'.actors[a].Owns() && s'.actors[a].Sound() && s'.actors[a].Holding() == s.actors[a].Holding()
    requires s'.states == s.states
    requires id in s'.blocks <==> s'.actors[a].HasMemory()
    ensures Invariant(s')
  {
    OthersKeepOwning(s, s', a, id);
    assert OwnerOf(s', a, id);
    assert forall b {:trigger OwnerOf(s, b, id)} :: OwnerOf(s, b, id) ==> b == a;
  }

  /** An owner lets go and leaves the resource settled. */
  lemma ClosingKeeps(s: State, s': State, a: nat, id: nat)
    requires Invariant(s) && Local(s, s', a, id) && OwnerOf(s, a, id) && !s'.actors[a].Owns()
    requires !StateOf(s'.states, id).InProgress()
    requires id in s'.blocks <==> StateOf(s'.states, id).Resident()
    ensures Invariant(s')
  {
    OthersKeepOwning(s, s', a, id);
    assert forall b {:trigger OwnerOf(s, b, id)} :: OwnerOf(s, b, id) ==> b == a;
  }

  /** A thread that begins on a resource in progress makes it owned twice. */
  lemma HijackBreaks(s: State, e: Event)
    requires Invariant(s) && Possible(s, e) && Hijacks(s, e)
    ensures !Exclusive(Apply(s, e))
  {
    var a, s' := e.a, Apply(s, e);
    var id := s.actors[a].id;
    assert StateOf(s.states, id).InProgress();
    var b :| OwnerOf(s, b, id);
    assert OwnerOf(s', b, id) && OwnerOf(s', a, id) && a != b;
  }

  /** Every step is local. */
  lemma StepIsLocal(s: State, a: nat, good: bool)
    requires a in s.actors
    ensures Local(s, Step(s, a, good), a, s.actors[a].id)
  {
  }

  lemma BeginKeeps(s: State, a: nat, good: bool)
    requires Invariant(s) && a in s.actors && !Hijacks(s, Act(a, good))
    requires s.actors[a].LoadBegin? || s.actors[a].PromoteBegin? || s.actors[a].EvictBegin?
    ensures Invariant(Step(s, a, good))
  {
    var x, s' := s.actors[a], Step(s, a, good);
    StepIsLocal(s, a, good);
    hide Invariant, Local;
    if s'.actors[a].Owns() {
      assert Invariant(s);
      SettledMemory(s, x.id);
      TakingKeeps(s, s', a, x.id);
    } else {
      BystanderKeeps(s, s', a, x.id);
    }
  }

  lemma SettledMemory(s: State, id: nat)
    requires Invariant(s) && !StateOf(s.states, id).InProgress()
    ensures id in s.blocks <==> StateOf(s.states, id).Resident()
  {
  }

  lemma OwnerFinds(s: State, a: nat)
    requires Invariant(s) && a in s.actors && s.actors[a].Owns()
    ensures OwnerOf(s, a, s.actors[a].id) && s.actors[a].Sound() && s.actors[a].Holding().InProgress()
    ensures StateOf(s.states, s.actors[a].id) == s.actors[a].Holding()
    ensures s.actors[a].id in s.blocks <==> s.actors[a].HasMemory()
  {
    assert OwnerOf(s, a, s.actors[a].id);
  }

  lemma OwnerKeeps(s: State, a: nat, good: bool)
    requires Invariant(s) && a in s.actors && s.actors[a].Owns()
    ensures Invariant(Step(s, a, good))
  {
    var x, s' := s.actors[a], Step(s, a, good);
    StepIsLocal(s, a, good);
    OwnerFinds(s, a);
    hide Invariant, Local;
    if x.Close? {
      ClosingKeeps(s, s', a, x.id);
    } else {
      WorkingKeeps(s, s', a, x.id);
    }
  }

  lemma LookKeeps(s: State, a: nat, good: bool)
    requires Invariant(s) && a in s.actors
    requires s.actors[a].LoadCheckWarm? || s.actors[a].LoadCheckHot? ||
             s.actors[a].PromoteCheck? || s.actors[a].EvictLook?
    ensures Invariant(Step(s, a, good))
  {
    StepIsLocal(s, a, good);
    hide Invariant, Local;
    BystanderKeeps(s, Step(s, a, good), a, s.actors[a].id);
  }

  /** The exact condition: a step keeps the protocol if and only if it is not an evictor taking over a transition. */
  lemma StepKeepsIff(s: State, e: Event)
    requires Invariant(s) && Possible(s, e)
    ensures Invariant(Apply(s, e)) <==> !Hijacks(s, e)
  {
    if Hijacks(s, e) {
      HijackBreaks(s, e);
    } else if e.Spawn? {
      BystanderKeeps(s, Apply(s, e), e.a, e.actor.id);
    } else {
      var x := s.actors[e.a];
      hide Invariant, Step;
      if x.Owns() {
        OwnerKeeps(s, e.a, e.good);
      } else if x.LoadBegin? || x.PromoteBegin? || x.EvictBegin? {
        BeginKeeps(s, e.a, e.good);
      } else {
        LookKeeps(s, e.a, e.good);
      }
    }
  }

  // ---------------------------------------------------------------------------------------------
  // Whole runs
  // ---------------------------------------------------------------------------------------------

  predicate ValidRun(s: State, events: seq<Event>)
    decreases |events|
  {
    events == [] || (Possible(s, events[0]) && ValidRun(Apply(s, events[0]), events[1..]))
  }

  function Run(s: State, events: seq<Event>): State
    requires ValidRun(s, events)
    decreases |events|
  {
    if events == [] then s else Run(Apply(s, events[0]), events[1..])
  }

  /** The protocol holds at every point of a run. */
  ghost predicate HoldsThroughout(s: State, events: seq<Event>)
    requires ValidRun(s, events)
    decreases |events|
  {
    Invariant(s) && (events == [] || HoldsThroughout(Apply(s, events[0]), events[1..]))
  }

  /** Some step of the run takes over a transition. */
  predicate HijacksSomewhere(s: State, events: seq<Event>)
    requires ValidRun(s, events)
    decreases |events|
  {
    events != [] && (Hijacks(s, events[0]) || HijacksSomewhere(Apply(s, events[0]), events[1..]))
  }

  /** For any number of loaders, promoters and evictors: the protocol holds throughout iff nothing is taken over. */
  lemma {:induction false} ProtocolIff(s: State, events: seq<Event>)
    requires Invariant(s) && ValidRun(s, events)
    ensures HoldsThroughout(s, events) <==> !HijacksSomewhere(s, events)
    decreases |events|
  {
    hide Invariant, Apply, Hijacks, Possible;
    if events != [] {
      StepKeepsIff(s, events[0]);
      if Invariant(Apply(s, events[0])) {
        ProtocolIff(Apply(s, events[0]), events[1..]);
      } else if events[1..] != [] {
      }
    }
  }

  lemma {:induction false} EndHolds(s: State, events: seq<Event>)
    requires ValidRun(s, events) && HoldsThroughout(s, events)
    ensures Invariant(Run(s, events))
    decreases |events|
  {
    hide Invariant, Apply, Possible;
    if events != [] {
      EndHolds(Apply(s, events[0]), events[1..]);
    }
  }

  predicate Idle(s: State) {
    forall a :: a in s.actors ==> s.actors[a].Done?
  }

  /** When all threads are done, every resource is at rest, and has memory exactly when it is warm or hot. */
  lemma IdleIsSettled(events: seq<Event>, id: nat)
    requires ValidRun(EMPTY, events) && !HijacksSomewhere(EMPTY, events) && Idle(Run(EMPTY, events))
    ensures var s := Run(EMPTY, events);
      !StateOf(s.states, id).InProgress() && (id in s.blocks <==> StateOf(s.states, id).Resident())
  {
    hide Run, HijacksSomewhere, ValidRun, HoldsThroughout;
    EmptyIsSettled();
    ProtocolIff(EMPTY, events);
    EndHolds(EMPTY, events);
    var s := Run(EMPTY, events);
    OwnedIffInProgress(s, id);
    SettledAt(s, id);
  }

  lemma SettledAt(s: State, id: nat)
    requires Invariant(s)
    ensures StateOf(s.states, id).InProgress() || (id in s.blocks <==> StateOf(s.states, id).Resident())
  {
  }

  // ---------------------------------------------------------------------------------------------
  // A takeover
  // ---------------------------------------------------------------------------------------------

  /** A loader has begun; an evictor looks, finds the resource loading, and is about to begin. */
  const LOOKED := State(map[7 := Loading], {}, map[0 := LoadAllocate(7), 1 := EvictBegin(7, Disk, Loading)])

  /** Both own the resource. */
  const TAKEN := State(map[7 := Evicting], {7}, map[0 := LoadRead(7), 1 := EvictWork(7, Disk, Loading)])

  const STRANDED := State(map[7 := Loading], {7}, map[0 := Done(7, true), 1 := Done(7, false)])

  const LOOKING := [Spawn(0, LoadBegin(7)), Act(0, true), Spawn(1, EvictLook(7, Disk)), Act(1, true)]
  const TAKING := [Act(0, true), Act(1, true)]
  const CLOSING := [Act(0, true), Act(0, true), Act(1, true), Act(1, true)]

  lemma TwoSteps(s: State, e: Event, e': Event)
    requires Possible(s, e) && Possible(Apply(s, e), e')
    ensures ValidRun(s, [e, e']) && Run(s, [e, e']) == Apply(Apply(s, e), e')
    ensures Hijacks(Apply(s, e), e') ==> HijacksSomewhere(s, [e, e'])
  {
    hide Apply, Possible, Hijacks;
    var s', rest := Apply(s, e), [e'];
    assert [e, e'][1..] == rest && rest[1..] == [];
    assert ValidRun(Apply(s', e'), rest[1..]) && Run(Apply(s', e'), rest[1..]) == Apply(s', e');
    assert ValidRun(s', rest) && Run(s', rest) == Apply(s', e');
  }

  lemma LookingRun()
    ensures ValidRun(EMPTY, LOOKING) && Run(EMPTY, LOOKING) == LOOKED
  {
    var s2 := State(map[7 := Loading], {}, map[0 := LoadAllocate(7)]);
    TwoSteps(EMPTY, LOOKING[0], LOOKING[1]);
    TwoSteps(s2, LOOKING[2], LOOKING[3]);
    assert Apply(Apply(EMPTY, LOOKING[0]), LOOKING[1]) == s2;
    assert Apply(Apply(s2, LOOKING[2]), LOOKING[3]) == LOOKED;
    hide ValidRun, Run, Apply;
    RunAppend(EMPTY, [LOOKING[0], LOOKING[1]], [LOOKING[2], LOOKING[3]]);
    assert [LOOKING[0], LOOKING[1]] + [LOOKING[2], LOOKING[3]] == LOOKING;
  }

  lemma TakingRun()
    ensures ValidRun(LOOKED, TAKING) && Run(LOOKED, TAKING) == TAKEN && HijacksSomewhere(LOOKED, TAKING)
  {
    TwoSteps(LOOKED, TAKING[0], TAKING[1]);
    assert Apply(Apply(LOOKED, TAKING[0]), TAKING[1]) == TAKEN;
  }

  lemma ClosingRun()
    ensures ValidRun(TAKEN, CLOSING) && Run(TAKEN, CLOSING) == STRANDED
  {
    var s2 := State(map[7 := Evicting], {7}, map[0 := Done(7, true), 1 := EvictWork(7, Disk, Loading)]);
    TwoSteps(TAKEN, CLOSING[0], CLOSING[1]);
    TwoSteps(s2, CLOSING[2], CLOSING[3]);
    assert Apply(Apply(TAKEN, CLOSING[0]), CLOSING[1]) == s2;
    assert Apply(Apply(s2, CLOSING[2]), CLOSING[3]) == STRANDED;
    hide ValidRun, Run, Apply;
    RunAppend(TAKEN, [CLOSING[0], CLOSING[1]], [CLOSING[2], CLOSING[3]]);
    assert [CLOSING[0], CLOSING[1]] + [CLOSING[2], CLOSING[3]] == CLOSING;
  }

  lemma {:induction false} RunAppend(s: State, a: seq<Event>, b: seq<Event>)
    requires ValidRun(s, a) && ValidRun(Run(s, a), b)
    ensures ValidRun(s, a + b) && Run(s, a + b) == Run(Run(s, a), b)
    ensures HijacksSomewhere(s, a) || HijacksSomewhere(Run(s, a), b) ==> HijacksSomewhere(s, a + b)
    decreases |a|
  {
    hide Apply, Possible, Hijacks;
    if a == [] {
      assert a + b == b;
    } else {
      assert (a + b)[1..] == a[1..] + b;
      RunAppend(Apply(s, a[0]), a[1..], b);
    }
  }

  /** The takeover strands the resource: both threads are done, yet it is still loading, with its memory. */
  lemma TakeoverStrands()
    ensures var events := LOOKING + (TAKING + CLOSING);
      && ValidRun(EMPTY, events) && HijacksSomewhere(EMPTY, events) && Run(EMPTY, events) == STRANDED
    ensures Idle(STRANDED) && StateOf(STRANDED.states, 7) == Loading && 7 in STRANDED.blocks
  {
    hide ValidRun, Run, HijacksSomewhere;
    LookingRun();
    TakingRun();
    ClosingRun();
    RunAppend(LOOKED, TAKING, CLOSING);
    RunAppend(EMPTY, LOOKING, TAKING + CLOSING);
  }
}
