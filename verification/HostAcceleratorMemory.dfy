/** The host stand-in for accelerator memory: an allocator with byte accounting over opaque blocks. */
module HostAcceleratorMemories {
  import opened ModelTypes
  import opened ResidencyModel

  datatype DeviceError = NoError | ZeroSize | BudgetExceeded | HostAllocationFailed | UploadRejected

  class HostAcceleratorMemory {
    const capacity: U64
    var used: U64
    var failNextUpload: bool
    var lastError: DeviceError
    var allocs: map<Ptr, nat>
    var memory: map<Ptr, seq<Byte>>

    ghost function View(): Device
      reads this
    {
      Device(capacity, used, allocs, memory)
    }

    ghost predicate Valid()
      reads this
    {
      DeviceOk(View())
    }

    constructor (capacity: U64)
      ensures Valid() && this.capacity == capacity && used == 0 && !failNextUpload
    {
      this.capacity := capacity;
      used, failNextUpload, lastError := 0, false, NoError;
      allocs, memory := map[], map[];
    }

    function Available(): U64
      reads this
    {
      if capacity > used then capacity - used else 0
    }

    /**
     * A fresh block, or null. The sum that the budget check compares wraps at 64 bits; the host
     * cannot hold more live bytes than it can address, so a block it grants never makes it wrap.
     */
    method Allocate(bytes: U64) returns (p: Ptr)
      requires Valid()
      modifies this
      ensures Valid() && failNextUpload == old(failNextUpload)
      ensures p == 0 ==> View() == old(View())
      ensures p == 0 ==> lastError == ZeroSize || lastError == BudgetExceeded || lastError == HostAllocationFailed
      ensures p == 0 && lastError == ZeroSize ==> bytes == 0
      ensures p == 0 && lastError == BudgetExceeded ==> used + bytes > capacity
      ensures p != 0 ==> bytes > 0 && p !in old(allocs) && used == old(used) + bytes
      ensures p != 0 ==> allocs == old(allocs)[p := bytes] && p in memory && memory == old(memory)[p := memory[p]]
    {
      if bytes == 0 {
        lastError := ZeroSize;
        return 0;
      }
      if Add64(used, bytes) > capacity {
        lastError := BudgetExceeded;
        return 0;
      }
      var granted := *;
      if !granted || used + bytes >= TWO_64 {
        lastError := HostAllocationFailed;
        return 0;
      }
      p := FreshPtr(allocs.Keys);
      var contents: seq<Byte> := seq(bytes, i => 0);
      AllocatedOk(View(), p, bytes, contents);
      allocs := allocs[p := bytes];
      memory := memory[p := contents];
      used := used + bytes;
      lastError := NoError;
    }

    method Release(p: Ptr)
      requires Valid()
      modifies this
      ensures Valid() && failNextUpload == old(failNextUpload) && lastError == old(lastError)
      ensures p !in old(allocs) ==> View() == old(View())
      ensures p in old(allocs) ==> old(allocs[p]) <= old(used) && View() == Released(old(View()), p)
    {
      if p !in allocs {
        return;
      }
      ReleasedOk(View(), p);
      used := used - allocs[p];
      allocs := allocs - {p};
      memory := memory - {p};
    }

    method Upload(source: Option<seq<Byte>>, destination: Ptr, bytes: nat) returns (ok: bool)
      requires Valid()
      requires source.Some? ==> bytes <= |source.value|
      modifies this
      ensures Valid() && used == old(used) && allocs == old(allocs)
      ensures ok ==> source.Some? && destination in allocs && bytes <= allocs[destination]
      ensures ok ==> memory == old(memory)[destination := source.value[..bytes] + old(memory)[destination][bytes..]]
      ensures !ok ==> memory == old(memory) && lastError == UploadRejected
    {
      if failNextUpload {
        failNextUpload := false;
        lastError := UploadRejected;
        return false;
      }
      if source.None? || destination !in allocs || bytes > allocs[destination] {
        lastError := UploadRejected;
        return false;
      }
      memory := memory[destination := source.value[..bytes] + memory[destination][bytes..]];
      lastError := NoError;
      return true;
    }
  }

  /** Any address that is not null and not in use. */
  method FreshPtr(inUse: set<Ptr>) returns (p: Ptr)
    ensures p != 0 && p !in inUse
  {
    FreshExists(inUse);
    p :| p != 0 && p !in inUse;
  }

  lemma FreshExists(inUse: set<Ptr>)
    ensures exists p: Ptr :: p != 0 && p !in inUse
  {
    var bound := Above(inUse);
  }

  lemma {:induction false} Above(s: set<Ptr>) returns (bound: Ptr)
    ensures bound != 0 && bound !in s && forall p :: p in s ==> p < bound
    decreases |s|
  {
    bound := 1;
    if s != {} {
      var p :| p in s;
      var rest := Above(s - {p});
      bound := if rest <= p then p + 1 else rest;
      assert forall q :: q in s <==> q == p || q in s - {p};
    }
  }
}
