/** What loading, promoting and evicting leave behind when they report success, and when they do not. */
module StreamingOutcome {
  import opened ResourceResidencyManagers
  import opened StreamingEngine

  /** What an operation is for. */
  predicate Achieved(start: Actor, r: Residency)
    requires start.Starts()
  {
    match start
    case LoadBegin(_) => r == Warm || r == Hot
    case PromoteBegin(_, _) => r == Hot
    case EvictLook(_, target) => r == target
  }

  /** Where a failed attempt that had begun puts the resource back. */
  predicate PutBack(start: Actor, r: Residency)
    requires start.Starts()
  {
    match start
    case LoadBegin(_) => r == Disk
    case PromoteBegin(_, _) => r == Warm
    case EvictLook(_, _) => r != Loading && r != Evicting
  }

  /** A thread that set out with `start` may have come as far as x. */
  predicate OnTheWay(start: Actor, x: Actor)
    requires start.Starts()
  {
    && x.id == start.id
    && match x
       case LoadBegin(_) => start.LoadBegin?
       case LoadAllocate(_) => start.LoadBegin?
       case LoadRead(_) => start.LoadBegin?
       case LoadCheckWarm(_) => start.LoadBegin?
       case LoadCheckHot(_) => start.LoadBegin?
       case PromoteBegin(_, _) => start.PromoteBegin?
       case PromoteMove(_, _) => start.PromoteBegin?
       case PromoteCheck(_) => start.PromoteBegin?
       case EvictLook(_, target) => start.EvictLook? && target == start.target
       case EvictBegin(_, target, _) => start.EvictLook? && target == start.target
       case EvictWork(_, target, _) => start.EvictLook? && target == start.target
       case Close(_, _, to, result) => if result then to == Target(start) else PutBack(start, to)
       case Done(_, _) => true
  }

  /** The state an operation closes to when it succeeds. */
  function Target(start: Actor): Residency
    requires start.Starts()
  {
    match start
    case LoadBegin(_) => Warm
    case PromoteBegin(_, _) => Hot
    case EvictLook(_, target) => target
  }

  /** A step takes a thread further on its way. */
  lemma StepStaysOnTheWay(s: State, a: nat, good: bool, start: Actor)
    requires start.Starts() && a in s.actors && OnTheWay(start, s.actors[a])
    requires Invariant(s)
    ensures OnTheWay(start, Step(s, a, good).actors[a])
  {
    if s.actors[a].Owns() {
      OwnerFinds(s, a);
    }
    hide Invariant;
  }

  /**
   * The step with which a thread reports success leaves the resource as the operation promises, and
   * the step with which it gives up what it had begun puts the resource back.
   */
  lemma ReportIsTrue(s: State, a: nat, good: bool, start: Actor)
    requires start.Starts() && a in s.actors && OnTheWay(start, s.actors[a]) && !s.actors[a].Done?
    requires Invariant(s)
    ensures var s', id := Step(s, a, good), start.id;
      s'.actors[a].Done? ==>
        && (s'.actors[a].result ==> Achieved(start, StateOf(s'.states, id)))
        && (s.actors[a].Owns() && !s'.actors[a].result ==> PutBack(start, StateOf(s'.states, id)))
  {
    if s.actors[a].Close? {
      ClosingSucceeds(s, a);
    }
    hide Invariant;
  }

  lemma {:induction false} RunStaysOnTheWay(s: State, events: seq<Event>, a: nat, start: Actor)
    requires ValidRun(s, events) && Invariant(s) && !HijacksSomewhere(s, events)
    requires start.Starts() && a in s.actors && OnTheWay(start, s.actors[a])
    ensures var s' := Run(s, events);
      Invariant(s') && a in s'.actors && OnTheWay(start, s'.actors[a])
    decreases |events|
  {
    hide Invariant, Hijacks, OnTheWay, Step;
    if events != [] {
      var e := events[0];
      StepKeepsIff(s, e);
      if e.Act? {
        StepIsLocal(s, e.a, e.good);
      }
      if e.Act? && e.a == a {
        StepStaysOnTheWay(s, a, e.good, start);
      }
      RunStaysOnTheWay(Apply(s, e), events[1..], a, start);
    }
  }

  /**
   * A thread that set out to load, promote or evict, after any run without takeovers: when its next
   * step reports success the resource is then warm or hot, hot, or where it was to be evicted to.
   */
  lemma ReportsAreTrue(s: State, events: seq<Event>, a: nat, good: bool, start: Actor)
    requires Invariant(s) && start.Starts() && a !in s.actors
    requires ValidRun(s, [Spawn(a, start)] + events) && !HijacksSomewhere(s, [Spawn(a, start)] + events)
    ensures var s' := Run(s, [Spawn(a, start)] + events);
      && a in s'.actors
      && var s'' := Step(s', a, good);
        !s'.actors[a].Done? && s''.actors[a].Done? && s''.actors[a].result ==>
          Achieved(start, StateOf(s''.states, start.id))
  {
    var all := [Spawn(a, start)] + events;
    assert all[1..] == events;
    StepKeepsIff(s, all[0]);
    var spawned := Apply(s, all[0]);
    assert OnTheWay(start, spawned.actors[a]);
    hide Invariant, OnTheWay, Step, Hijacks, Achieved;
    RunStaysOnTheWay(spawned, events, a, start);
    var s' := Run(s, all);
    if !s'.actors[a].Done? {
      ReportIsTrue(s', a, good, start);
    }
  }
}
