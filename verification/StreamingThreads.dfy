/** The loaders, promoters and evictors at work on the residency table itself, through its own methods. */
module StreamingThreads {
  import opened ResourceResidencyManagers
  import opened StreamingEngine

  class StreamingThreads {
    const manager: ResourceResidencyManager
    var blocks: set<nat>
    var actors: map<nat, Actor>

    function View(): State
      reads this, manager
    {
      State(manager.states, blocks, actors)
    }

    constructor ()
      ensures View() == EMPTY && fresh(manager)
    {
      manager := new ResourceResidencyManager();
      blocks, actors := {}, map[];
    }

    /** Try to begin a transition, and go on one way or the other. */
    method Begin(id: nat, from: Residency, to: Residency, then_: Actor, else_: Actor) returns (next: Actor)
      modifies manager
      ensures (manager.states, next) ==
        var (states, ok) := Exchanged(old(manager.states), id, from, to); (states, if ok then then_ else else_)
    {
      var ok := manager.TryBeginTransition(id, from, to);
      SwappedIsExchanged(old(manager.states), manager.states, id, from, to, ok);
      next := if ok then then_ else else_;
    }

    method Look(id: nat) returns (r: Residency)
      ensures r == StateOf(manager.states, id)
    {
      r := manager.GetResidency(id);
      assert Exchanged(manager.states, id, StateOf(manager.states, id), Disk).1;
    }

    /** Thread a takes its next step; `good` says whether an allocation or a transfer works out. */
    method Act(a: nat, good: bool)
      requires a in actors && !actors[a].Done?
      modifies this, manager
      ensures View() == Step(old(View()), a, good)
    {
      var next: Actor;
      match actors[a] {
        case LoadBegin(id) =>
          next := Begin(id, Disk, Loading, LoadAllocate(id), LoadCheckWarm(id));
        case LoadAllocate(id) =>
          next := if good then LoadRead(id) else Close(id, Loading, Disk, false);
          if good {
            blocks := blocks + {id};
          }
        case LoadRead(id) =>
          next := Close(id, Loading, Warm, true);
        case LoadCheckWarm(id) =>
          var r := Look(id);
          next := if r == Warm then Done(id, true) else LoadCheckHot(id);
        case LoadCheckHot(id) =>
          var r := Look(id);
          next := Done(id, r == Hot);
        case PromoteBegin(id, moves) =>
          next := Begin(id, Warm, Loading, PromoteMove(id, moves), PromoteCheck(id));
        case PromoteMove(id, moves) =>
          next := if moves && !good then Close(id, Loading, Warm, false) else Close(id, Loading, Hot, true);
        case PromoteCheck(id) =>
          var r := Look(id);
          next := Done(id, r == Hot);
        case EvictLook(id, target) =>
          var current := Look(id);
          next := if current == target then Done(id, true) else EvictBegin(id, target, current);
        case EvictBegin(id, target, current) =>
          next := Begin(id, current, Evicting, EvictWork(id, target, current), Done(id, false));
        case EvictWork(id, target, current) =>
          if current == Hot && target == Warm {
            next := Close(id, Evicting, Warm, true);
          } else if (current == Hot || current == Warm) && target == Disk {
            blocks := blocks - {id};
            next := Close(id, Evicting, Disk, true);
          } else {
            next := Close(id, Evicting, current, false);
          }
        case Close(id, from, to, result) =>
          var ok := manager.Transition(id, from, to);
          SwappedIsExchanged(old(manager.states), manager.states, id, from, to, ok);
          next := Done(id, result);
      }
      actors := actors[a := next];
    }

    method Happen(e: Event)
      requires Possible(View(), e)
      modifies this, manager
      ensures View() == Apply(old(View()), e)
    {
      hide Step;
      match e
      case Spawn(a, actor) => actors := actors[a := actor];
      case Act(a, good) => Act(a, good);
    }

    /**
     * Any interleaving of threads on the table: the protocol holds at every point exactly if no evictor
     * takes over a transition; and then, with all threads done, every resource is at rest and has its
     * memory exactly when the table says so.
     */
    method Play(events: seq<Event>)
      requires Invariant(View()) && ValidRun(View(), events)
      modifies this, manager
      ensures View() == Run(old(View()), events)
      ensures HoldsThroughout(old(View()), events) <==> !HijacksSomewhere(old(View()), events)
      ensures !HijacksSomewhere(old(View()), events) ==> Invariant(View())
      ensures !HijacksSomewhere(old(View()), events) && Idle(View()) ==>
        forall id: nat :: !StateOf(manager.states, id).InProgress()
                          && (id in blocks <==> StateOf(manager.states, id).Resident())
    {
      hide Invariant, Apply, Possible, Hijacks, HijacksSomewhere, HoldsThroughout;
      ProtocolIff(View(), events);
      if HoldsThroughout(View(), events) {
        EndHolds(View(), events);
      }
      var i := 0;
      while i < |events|
        invariant 0 <= i <= |events|
        invariant ValidRun(View(), events[i..]) && Run(View(), events[i..]) == Run(old(View()), events)
      {
        assert events[i..][1..] == events[i + 1..];
        Happen(events[i]);
        i := i + 1;
      }
      if Invariant(View()) && Idle(View()) {
        RestIsSettled(View());
      }
    }
  }

  lemma RestIsSettled(s: State)
    requires Invariant(s) && Idle(s)
    ensures forall id: nat :: !StateOf(s.states, id).InProgress()
                              && (id in s.blocks <==> StateOf(s.states, id).Resident())
  {
    forall id: nat
      ensures !StateOf(s.states, id).InProgress() && (id in s.blocks <==> StateOf(s.states, id).Resident())
    {
      OwnedIffInProgress(s, id);
      SettledAt(s, id);
    }
  }
}
