/** The residency table and its compare-and-set primitives. */
module ResourceResidencyManagers {

  datatype Residency = Disk | Loading | Warm | Hot | Evicting
  {
    /** A transition is under way. */
    predicate InProgress() { Loading? || Evicting? }

    /** The resource has memory. */
    predicate Resident() { Warm? || Hot? }
  }

  type Table = map<nat, Residency>

  /** A resource that was never mentioned is on disk. */
  function StateOf(states: Table, id: nat): Residency {
    if id in states then states[id] else Disk
  }

  /** Compare and set: the new table, and whether the state was the expected one. */
  function Exchanged(states: Table, id: nat, from: Residency, to: Residency): (Table, bool) {
    if StateOf(states, id) == from then (states[id := to], true) else (states, false)
  }

  /** What an exchange of `from` for `to` means: it succeeds exactly in state `from`, and only id's state changes. */
  ghost predicate Swapped(before: Table, after: Table, id: nat, from: Residency, to: Residency, ok: bool) {
    && (ok <==> StateOf(before, id) == from)
    && (ok ==> StateOf(after, id) == to && after.Keys == before.Keys + {id})
    && (!ok ==> after == before)
    && (forall other {:trigger StateOf(after, other)} ::
          other != id ==> StateOf(after, other) == StateOf(before, other))
  }

  /** That is all there is to an exchange. */
  lemma SwappedIsExchanged(before: Table, after: Table, id: nat, from: Residency, to: Residency, ok: bool)
    ensures Swapped(before, after, id, from, to, ok) <==> (after, ok) == Exchanged(before, id, from, to)
  {
    if Swapped(before, after, id, from, to, ok) && ok {
      forall j | j in after && j != id
        ensures after[j] == before[j]
      {
        assert StateOf(after, j) == StateOf(before, j);
      }
      assert after == before[id := to];
    }
  }

  /** Attempts that are made one after the other, and the table they leave. */
  datatype Attempt = Attempt(id: nat, from: Residency, to: Residency)

  function After(states: Table, attempts: seq<Attempt>): Table
    decreases |attempts|
  {
    if attempts == [] then states else
      var a := attempts[0]; After(Exchanged(states, a.id, a.from, a.to).0, attempts[1..])
  }

  predicate Succeeds(states: Table, attempts: seq<Attempt>, k: nat)
    requires k < |attempts|
  {
    var a := attempts[k];
    Exchanged(After(states, attempts[..k]), a.id, a.from, a.to).1
  }

  /**
   * A claim is exclusive: of any number of threads that try to take one resource out of the state it
   * is in, each for another state, exactly the first succeeds.
   */
  lemma {:induction false} FirstComerWins(states: Table, attempts: seq<Attempt>, id: nat, k: nat)
    requires k < |attempts|
    requires forall a :: a in attempts ==> a.id == id && a.from == StateOf(states, id) && a.to != a.from
    ensures Succeeds(states, attempts, k) <==> k == 0
    ensures StateOf(After(states, attempts[..k]), id) == if k == 0 then StateOf(states, id) else attempts[0].to
  {
    if k > 0 {
      var a := attempts[0];
      assert a in attempts && attempts[..k][0] == a && attempts[..k][1..] == attempts[1..][..k - 1];
      LateComersLose(Exchanged(states, id, a.from, a.to).0, attempts[1..], id, k - 1);
    }
  }

  lemma {:induction false} LateComersLose(states: Table, attempts: seq<Attempt>, id: nat, k: nat)
    requires k < |attempts|
    requires forall a :: a in attempts ==> a.id == id && a.from != StateOf(states, id)
    ensures !Succeeds(states, attempts, k) && After(states, attempts[..k]) == states
  {
    assert attempts[k] in attempts;
    if k > 0 {
      assert attempts[0] in attempts;
      assert attempts[..k][1..] == attempts[1..][..k - 1] && attempts[..k][0] == attempts[0];
      LateComersLose(states, attempts[1..], id, k - 1);
    }
  }

  class ResourceResidencyManager {
    var states: Table

    constructor ()
      ensures states == map[]
    {
      states := map[];
    }

    /** The one state that an exchange could leave now. */
    method GetResidency(id: nat) returns (r: Residency)
      ensures forall from, to {:trigger Exchanged(states, id, from, to)} ::
        Exchanged(states, id, from, to).1 <==> from == r
    {
      r := if id in states then states[id] else Disk;
    }

    method Transition(id: nat, from: Residency, to: Residency) returns (ok: bool)
      modifies this
      ensures Swapped(old(states), states, id, from, to, ok)
    {
      var current := if id in states then states[id] else Disk;
      if current != from {
        return false;
      }
      states := states[id := to];
      return true;
    }

    method TryBeginTransition(id: nat, expected: Residency, inProgress: Residency) returns (ok: bool)
      modifies this
      ensures Swapped(old(states), states, id, expected, inProgress, ok)
    {
      var current := if id in states then states[id] else Disk;
      if current == expected {
        states := states[id := inProgress];
        return true;
      }
      return false;
    }
  }
}
