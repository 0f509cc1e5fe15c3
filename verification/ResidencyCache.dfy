/** The residency cache as a value: its invariant, and what loads, uploads, evictions and demotions do to it. */
module ResidencyCache {
  import opened ModelTypes
  import opened Totals
  import opened ResidencyModel

  /** The byte counters with their high-water marks, and the event counters this model keeps. */
  datatype Telemetry = Telemetry(
    ramBytes: nat,
    acceleratorBytes: nat,
    peakRamBytes: nat,
    peakAcceleratorBytes: nat,
    evictionCount: nat,
    transferFailures: nat)

  const NO_DEVICE := Device(0, 0, map[], map[])

  /** Everything an eviction of one record changes. */
  lemma EvictKeeps(file: seq<Byte>, records: Records, dev: Device, ram: nat, accel: nat, budget: U64, foreign: nat,
                   id: U64)
    requires DeviceOk(dev) && Coherent(file, records, dev) && Accounted(records, ram, accel, budget, dev, foreign)
    requires id in records
    ensures RamWeight(records[id]) <= ram && AccelWeight(records[id]) <= accel
    ensures records[id].accel != 0 ==>
      records[id].accel in dev.allocs && dev.allocs[records[id].accel] == records[id].region.size
    ensures
      var p := records[id].accel;
      var dev' := if p != 0 && dev.allocs[p] <= dev.used then Released(dev, p) else dev;
      && DeviceOk(dev') && Coherent(file, records - {id}, dev')
      && Accounted(records - {id}, ram - RamWeight(records[id]), accel - AccelWeight(records[id]), budget,
                   dev', foreign)
  {
    var rec := records[id];
    assert RecordOk(file, id, rec, dev);
    TotalsOf(records, id);
    CoherentRemove(file, records, dev, id);
    if rec.accel != 0 {
      ReleasedOk(dev, rec.accel);
      ReleaseForgotten(file, records, dev, id);
    }
  }

  lemma ReleaseForgotten(file: seq<Byte>, records: Records, dev: Device, id: U64)
    requires DeviceOk(dev) && Coherent(file, records, dev) && id in records && records[id].accel in dev.allocs
    requires records[id].accel != 0 && dev.allocs[records[id].accel] <= dev.used
    ensures Coherent(file, records - {id}, Released(dev, records[id].accel))
  {
    hide RecordOk;
    CoherentRemove(file, records, dev, id);
    CoherentDevice(file, records - {id}, dev, Released(dev, records[id].accel));
  }

  lemma RecordOf(file: seq<Byte>, records: Records, dev: Device, id: U64)
    requires Coherent(file, records, dev) && id in records
    ensures RecordOk(file, id, records[id], dev)
  {
  }

  lemma BlockOf(file: seq<Byte>, records: Records, dev: Device, id: U64)
    requires DeviceOk(dev) && Coherent(file, records, dev) && id in records && OnDevice(records[id])
    ensures records[id].accel != 0 && records[id].accel in dev.allocs
    ensures dev.allocs[records[id].accel] == records[id].region.size <= dev.used
  {
    RecordOf(file, records, dev, id);
    ReleasedOk(dev, records[id].accel);
  }

  lemma DemoteCoherent(file: seq<Byte>, records: Records, dev: Device, id: U64)
    requires DeviceOk(dev) && Coherent(file, records, dev) && id in records && OnDevice(records[id])
    requires records[id].accel != 0 && records[id].accel in dev.allocs && dev.allocs[records[id].accel] <= dev.used
    ensures Coherent(file, records[id := Demoted(records[id])], Released(dev, records[id].accel))
  {
    hide Coherent;
    var rec, dev' := records[id], Released(dev, records[id].accel);
    RecordOf(file, records, dev, id);
    ReleaseForgotten(file, records, dev, id);
    CoherentSet(file, records - {id}, dev', id, Demoted(rec));
    assert (records - {id})[id := Demoted(rec)] == records[id := Demoted(rec)];
  }

  /** Everything a demotion of one record changes. */
  lemma DemoteKeeps(file: seq<Byte>, records: Records, dev: Device, ram: nat, accel: nat, budget: U64, foreign: nat,
                    id: U64)
    requires DeviceOk(dev) && Coherent(file, records, dev) && Accounted(records, ram, accel, budget, dev, foreign)
    requires id in records && OnDevice(records[id])
    ensures records[id].accel != 0 && records[id].accel in dev.allocs
    ensures dev.allocs[records[id].accel] == records[id].region.size
    ensures dev.allocs[records[id].accel] <= dev.used && records[id].region.size <= accel
    ensures var dev' := Released(dev, records[id].accel); var records' := records[id := Demoted(records[id])];
      && DeviceOk(dev') && Coherent(file, records', dev')
      && Accounted(records', ram, accel - records[id].region.size, budget, dev', foreign)
  {
    hide Coherent, DeviceOk, RamTotal, AccelTotal;
    BlockOf(file, records, dev, id);
    ReleasedOk(dev, records[id].accel);
    DemoteCoherent(file, records, dev, id);
    TotalsOf(records, id);
    TotalsSet(records, id, Demoted(records[id]));
  }

  /** Everything a load into RAM changes. */
  lemma LoadKeeps(file: seq<Byte>, records: Records, dev: Device, ram: nat, accel: nat, budget: U64, foreign: nat,
                  id: U64, rec: Record)
    requires Coherent(file, records, dev) && Accounted(records, ram, accel, budget, dev, foreign)
    requires id in records && !InRam(records[id]) && records[id].region == rec.region
    requires RecordOk(file, id, rec, dev) && rec.state == RESIDENT_IN_RAM && ram + rec.region.size <= budget
    ensures Coherent(file, records[id := rec], dev)
    ensures Accounted(records[id := rec], ram + rec.region.size, accel, budget, dev, foreign)
  {
    assert RecordOk(file, id, records[id], dev);
    CoherentSet(file, records, dev, id, rec);
    TotalsOf(records, id);
    TotalsSet(records, id, rec);
  }

  /** A change that moves no bytes: time stamps, pins, marks, and the error state of an absent record. */
  lemma TouchKeeps(file: seq<Byte>, records: Records, dev: Device, ram: nat, accel: nat, budget: U64, foreign: nat,
                   id: U64, rec: Record)
    requires Coherent(file, records, dev) && Accounted(records, ram, accel, budget, dev, foreign)
    requires RecordOk(file, id, rec, dev)
    requires if id in records
             then rec.ram == records[id].ram && rec.accel == records[id].accel && rec.region == records[id].region
             else rec.ram == None && rec.accel == 0
    ensures Coherent(file, records[id := rec], dev)
    ensures Accounted(records[id := rec], ram, accel, budget, dev, foreign)
  {
    if id in records {
      TotalsOf(records, id);
    } else {
      assert records - {id} == records;
    }
    TotalsSet(records, id, rec);
    CoherentSet(file, records, dev, id, rec);
  }

  lemma UploadCoherent(file: seq<Byte>, records: Records, dev: Device, id: U64, p: Ptr, dev': Device)
    requires Coherent(file, records, dev)
    requires id in records && records[id].state == RESIDENT_IN_RAM
    requires p != 0 && p !in dev.allocs && InFile(file, records[id].region)
    requires dev' == Allocated(dev, p, records[id].region.size, Slice(file, records[id].region))
    ensures Coherent(file, records[id := records[id].(accel := p, state := RESIDENT_IN_ACCELERATOR)], dev')
  {
    hide Coherent;
    RecordOf(file, records, dev, id);
    NewBlockIsUnshared(file, records, dev, id, p);
    DeviceGrows(file, records, dev, dev');
    CoherentSet(file, records, dev', id, records[id].(accel := p, state := RESIDENT_IN_ACCELERATOR));
  }

  /** Everything an upload changes. */
  lemma UploadKeeps(file: seq<Byte>, records: Records, dev: Device, ram: nat, accel: nat, budget: U64, foreign: nat,
                    id: U64, p: Ptr, dev': Device)
    requires Coherent(file, records, dev) && Accounted(records, ram, accel, budget, dev, foreign)
    requires id in records && records[id].state == RESIDENT_IN_RAM
    requires p != 0 && p !in dev.allocs && InFile(file, records[id].region)
    requires dev' == Allocated(dev, p, records[id].region.size, Slice(file, records[id].region))
    ensures var rec := records[id].(accel := p, state := RESIDENT_IN_ACCELERATOR);
      && Coherent(file, records[id := rec], dev')
      && Accounted(records[id := rec], ram, accel + rec.region.size, budget, dev', foreign)
  {
    hide RamTotal, AccelTotal, Slice;
    UploadCoherent(file, records, dev, id, p, dev');
    NoBlockYet(file, records, dev, id);
    hide Coherent;
    TotalsOf(records, id);
    TotalsSet(records, id, records[id].(accel := p, state := RESIDENT_IN_ACCELERATOR));
  }

  lemma NoBlockYet(file: seq<Byte>, records: Records, dev: Device, id: U64)
    requires Coherent(file, records, dev) && id in records && records[id].state == RESIDENT_IN_RAM
    ensures records[id].accel == 0 && records[id].ram.Some?
  {
    RecordOf(file, records, dev, id);
  }

  lemma DeviceGrows(file: seq<Byte>, records: Records, dev: Device, dev': Device)
    requires Coherent(file, records, dev)
    requires forall p :: p in dev.allocs ==> p in dev'.allocs && dev'.allocs[p] == dev.allocs[p]
    requires forall p :: p in dev.allocs && p in dev.memory ==> p in dev'.memory && dev'.memory[p] == dev.memory[p]
    ensures Coherent(file, records, dev')
  {
    CoherentDevice(file, records, dev, dev');
  }

  lemma NewBlockIsUnshared(file: seq<Byte>, records: Records, dev: Device, id: U64, p: Ptr)
    requires Coherent(file, records, dev) && p != 0 && p !in dev.allocs
    ensures forall j {:trigger records[j]} :: j in records ==> records[j].accel != p
  {
    forall j | j in records
      ensures records[j].accel != p
    {
      assert RecordOk(file, j, records[j], dev);
    }
  }

  // ---------------------------------------------------------------------------------------------
  // How much eviction can free
  // ---------------------------------------------------------------------------------------------

  /** What is left when `victims` went, of either kind. */
  ghost function Left(records: Records, target: ResidencyTarget, victims: seq<U64>): Records {
    if target == TargetRam then Without(records, victims) else WithDemoted(records, victims)
  }

  /** As long as record 0 itself never goes, everything that goes was used no later. */
  lemma VictimsAreAhead(records: Records, target: ResidencyTarget, skip: U64, victims: seq<U64>)
    requires LruOrder(records, target, skip, victims) && 0 !in victims
    requires forall v :: v in victims ==> v in records && v != skip && Evictable(records[v], target)
    ensures forall v :: v in victims ==> Ahead(records, target, skip, true, v)
  {
    forall v | v in victims
      ensures Ahead(records, target, skip, true, v)
    {
      var k :| 0 <= k < |victims| && victims[k] == v;
      var left := Left(records, target, victims[..k]);
      assert IsLru(left, target, skip, v);
      if ZeroIsVictim(records, target, skip) {
        assert 0 in left && left[0] == records[0];
        assert left[v].lastUsed == records[v].lastUsed;
      }
    }
  }

  /** What eviction does not get to stays. */
  lemma OutOfReachStays(records: Records, target: ResidencyTarget, skip: U64, victims: seq<U64>)
    requires LruOrder(records, target, skip, victims) && 0 !in victims
    requires forall v :: v in victims ==> v in records && v != skip && Evictable(records[v], target)
    ensures RamTotal(OutOfReach(records, target, skip, true)) <= RamTotal(Left(records, target, victims))
    ensures AccelTotal(OutOfReach(records, target, skip, true)) <= AccelTotal(Left(records, target, victims))
  {
    VictimsAreAhead(records, target, skip, victims);
    hide LruOrder, Ahead;
    var kept, left := OutOfReach(records, target, skip, true), Left(records, target, victims);
    TotalMonotone(RamWeights(kept), RamWeights(left));
    TotalMonotone(AccelWeights(kept), AccelWeights(left));
  }

  /** With no victim left, or record 0 the next, all that was strictly ahead has gone. */
  lemma StuckIsOutOfReach(records: Records, target: ResidencyTarget, skip: U64, victims: seq<U64>, id: U64)
    requires var left := Left(records, target, victims);
      NoneEvictable(left, target, skip) || IsLru(left, target, skip, 0)
    requires id in Left(records, target, victims) && Ahead(records, target, skip, false, id)
    ensures target == TargetAccelerator && id in victims
  {
    var left := Left(records, target, victims);
    assert id !in victims ==> left[id] == records[id];
    assert 0 in left && 0 !in victims ==> left[0] == records[0];
  }

  lemma StuckRam(records: Records, skip: U64, victims: seq<U64>)
    requires var left := Without(records, victims);
      NoneEvictable(left, TargetRam, skip) || IsLru(left, TargetRam, skip, 0)
    ensures RamTotal(Without(records, victims)) <= RamTotal(OutOfReach(records, TargetRam, skip, false))
  {
    var left, kept := Without(records, victims), OutOfReach(records, TargetRam, skip, false);
    forall id | id in left
      ensures id in kept
    {
      if Ahead(records, TargetRam, skip, false, id) {
        StuckIsOutOfReach(records, TargetRam, skip, victims, id);
      }
    }
    TotalMonotone(RamWeights(left), RamWeights(kept));
  }

  lemma StuckDevice(records: Records, skip: U64, victims: seq<U64>)
    requires var left := WithDemoted(records, victims);
      NoneEvictable(left, TargetAccelerator, skip) || IsLru(left, TargetAccelerator, skip, 0)
    ensures AccelTotal(WithDemoted(records, victims)) <= AccelTotal(OutOfReach(records, TargetAccelerator, skip, false))
  {
    var left, kept := WithDemoted(records, victims), OutOfReach(records, TargetAccelerator, skip, false);
    forall id | id in left && id !in kept
      ensures id in victims
    {
      StuckIsOutOfReach(records, TargetAccelerator, skip, victims, id);
    }
    TotalMonotone(AccelWeights(left), AccelWeights(kept));
  }

  lemma LruOrderExtend(records: Records, target: ResidencyTarget, skip: U64, victims: seq<U64>, v: U64)
    requires LruOrder(records, target, skip, victims)
    requires if target == TargetRam then IsLru(Without(records, victims), target, skip, v)
             else IsLru(WithDemoted(records, victims), target, skip, v)
    ensures LruOrder(records, target, skip, victims + [v])
  {
    hide IsLru;
    var longer := victims + [v];
    forall k | 0 <= k < |longer|
      ensures longer[..k] == victims[..k]
    {
    }
    assert victims[..|victims|] == victims;
  }

  // ---------------------------------------------------------------------------------------------
  // The cache as a value
  // ---------------------------------------------------------------------------------------------

  /** The invariant of a manager at rest. */
  ghost predicate CacheOk(file: seq<Byte>, records: Records, t: Telemetry, budget: U64, dev: Device, foreign: nat) {
    && DeviceOk(dev)
    && Coherent(file, records, dev)
    && Accounted(records, t.ramBytes, t.acceleratorBytes, budget, dev, foreign)
    && t.ramBytes <= t.peakRamBytes <= budget
    && t.acceleratorBytes <= t.peakAcceleratorBytes <= dev.capacity
  }

  /** Saturating subtraction. */
  function Less(bytes: nat, size: nat): nat {
    if bytes >= size then bytes - size else 0
  }

  function ReleasedBytes(t: Telemetry, rec: Record): Telemetry {
    if rec.accel != 0 then t.(acceleratorBytes := Less(t.acceleratorBytes, rec.region.size)) else t
  }

  function EvictedTelemetry(t: Telemetry, rec: Record): Telemetry {
    var u := ReleasedBytes(t, rec);
    u.(ramBytes := if rec.ram.Some? then Less(u.ramBytes, rec.region.size) else u.ramBytes,
       evictionCount := u.evictionCount + 1)
  }

  function DemotedTelemetry(t: Telemetry, rec: Record): Telemetry {
    var u := ReleasedBytes(t, rec);
    u.(evictionCount := u.evictionCount + 1)
  }

  function LoadedTelemetry(t: Telemetry, size: nat): (u: Telemetry)
    ensures u.ramBytes <= u.peakRamBytes && t.peakRamBytes <= u.peakRamBytes
    ensures u.peakRamBytes == t.peakRamBytes || u.peakRamBytes == u.ramBytes
  {
    var ram := t.ramBytes + size;
    t.(ramBytes := ram, peakRamBytes := if ram > t.peakRamBytes then ram else t.peakRamBytes)
  }

  function UploadedTelemetry(t: Telemetry, size: nat): (u: Telemetry)
    ensures u.acceleratorBytes <= u.peakAcceleratorBytes && t.peakAcceleratorBytes <= u.peakAcceleratorBytes
    ensures u.peakAcceleratorBytes == t.peakAcceleratorBytes || u.peakAcceleratorBytes == u.acceleratorBytes
  {
    var accel := t.acceleratorBytes + size;
    t.(acceleratorBytes := accel,
       peakAcceleratorBytes := if accel > t.peakAcceleratorBytes then accel else t.peakAcceleratorBytes)
  }

  function DeviceWithout(dev: Device, p: Ptr): Device {
    if p != 0 && p in dev.allocs && dev.allocs[p] <= dev.used then Released(dev, p) else dev
  }

  lemma CacheEvict(file: seq<Byte>, records: Records, t: Telemetry, budget: U64, dev: Device, foreign: nat, id: U64)
    requires CacheOk(file, records, t, budget, dev, foreign) && id in records
    ensures CacheOk(file, records - {id}, EvictedTelemetry(t, records[id]), budget,
                    DeviceWithout(dev, records[id].accel), foreign)
    ensures records[id].refs == 0 && !records[id].transferring && records[id].region.id == id
    ensures records[id].accel != 0 ==> records[id].accel in dev.allocs
  {
    RecordOf(file, records, dev, id);
    EvictKeeps(file, records, dev, t.ramBytes, t.acceleratorBytes, budget, foreign, id);
  }

  lemma CacheDemote(file: seq<Byte>, records: Records, t: Telemetry, budget: U64, dev: Device, foreign: nat, id: U64)
    requires CacheOk(file, records, t, budget, dev, foreign) && id in records && OnDevice(records[id])
    ensures records[id].accel != 0 && records[id].accel in dev.allocs
    ensures CacheOk(file, records[id := Demoted(records[id])], DemotedTelemetry(t, records[id]), budget,
                    DeviceWithout(dev, records[id].accel), foreign)
  {
    DemoteKeeps(file, records, dev, t.ramBytes, t.acceleratorBytes, budget, foreign, id);
  }

  lemma CacheLoad(file: seq<Byte>, records: Records, t: Telemetry, budget: U64, dev: Device, foreign: nat, id: U64)
    requires CacheOk(file, records, t, budget, dev, foreign) && id in records && !InRam(records[id])
    requires InFile(file, records[id].region) && t.ramBytes + records[id].region.size <= budget
    ensures CacheOk(file,
                    records[id := records[id].(ram := Some(Slice(file, records[id].region)), state := RESIDENT_IN_RAM)],
                    LoadedTelemetry(t, records[id].region.size), budget, dev, foreign)
  {
    RecordOf(file, records, dev, id);
    LoadKeeps(file, records, dev, t.ramBytes, t.acceleratorBytes, budget, foreign, id,
              records[id].(ram := Some(Slice(file, records[id].region)), state := RESIDENT_IN_RAM));
  }

  lemma CacheUpload(file: seq<Byte>, records: Records, t: Telemetry, budget: U64, dev: Device, foreign: nat, id: U64,
                    p: Ptr, dev': Device)
    requires CacheOk(file, records, t, budget, dev, foreign) && id in records && records[id].state == RESIDENT_IN_RAM
    requires p != 0 && p !in dev.allocs && InFile(file, records[id].region)
    requires dev.used + records[id].region.size <= dev.capacity
    requires dev' == Allocated(dev, p, records[id].region.size, Slice(file, records[id].region))
    ensures CacheOk(file, records[id := records[id].(accel := p, state := RESIDENT_IN_ACCELERATOR)],
                    UploadedTelemetry(t, records[id].region.size), budget, dev', foreign)
  {
    AllocatedOk(dev, p, records[id].region.size, Slice(file, records[id].region));
    UploadKeeps(file, records, dev, t.ramBytes, t.acceleratorBytes, budget, foreign, id, p, dev');
    hide Coherent, RamTotal, AccelTotal;
  }

  /** A change that moves no bytes. */
  ghost predicate Retouched(before: Record, after: Record) {
    && after.region == before.region && after.ram == before.ram && after.accel == before.accel
    && after.refs == before.refs && after.transferring == before.transferring
    && (after.state == before.state || (!InRam(before) && (after.state == ERROR || after.state == NOT_RESIDENT)))
  }

  lemma CacheTouch(file: seq<Byte>, records: Records, t: Telemetry, budget: U64, dev: Device, foreign: nat, id: U64,
                   rec: Record)
    requires CacheOk(file, records, t, budget, dev, foreign) && id in records && Retouched(records[id], rec)
    ensures CacheOk(file, records[id := rec], t, budget, dev, foreign)
  {
    RecordOf(file, records, dev, id);
    TouchKeeps(file, records, dev, t.ramBytes, t.acceleratorBytes, budget, foreign, id, rec);
  }

  function NewRecord(region: ModelRegion): Record {
    Record(region, NOT_RESIDENT, None, 0, 0, 0, 0, false, false)
  }

  lemma CacheCreate(file: seq<Byte>, records: Records, t: Telemetry, budget: U64, dev: Device, foreign: nat,
                    region: ModelRegion)
    requires CacheOk(file, records, t, budget, dev, foreign) && region.id !in records && region.size > 0
    ensures CacheOk(file, records[region.id := NewRecord(region)], t, budget, dev, foreign)
  {
    TouchKeeps(file, records, dev, t.ramBytes, t.acceleratorBytes, budget, foreign, region.id, NewRecord(region));
  }

  /** Failures are counted and change nothing else. */
  lemma CacheFailure(file: seq<Byte>, records: Records, t: Telemetry, budget: U64, dev: Device, foreign: nat,
                     failures: nat)
    requires CacheOk(file, records, t, budget, dev, foreign)
    ensures CacheOk(file, records, t.(transferFailures := failures), budget, dev, foreign)
  {
  }

  lemma CacheLoadFails(file: seq<Byte>, records: Records, t: Telemetry, budget: U64, dev: Device, foreign: nat, id: U64)
    requires CacheOk(file, records, t, budget, dev, foreign) && id in records && !InRam(records[id])
    ensures CacheOk(file, records[id := records[id].(state := ERROR)],
                    t.(transferFailures := t.transferFailures + 1), budget, dev, foreign)
  {
    CacheTouch(file, records, t, budget, dev, foreign, id, records[id].(state := ERROR));
    CacheFailure(file, records[id := records[id].(state := ERROR)], t, budget, dev, foreign, t.transferFailures + 1);
  }

  // ---------------------------------------------------------------------------------------------
  // Calls, pins, and the eviction loops
  // ---------------------------------------------------------------------------------------------

  datatype Call =
    | EnsureResident(region: ModelRegion, target: ResidencyTarget, cancelLoad: bool, cancelUpload: bool)
    | Prefetch(region: ModelRegion, target: ResidencyTarget, cancelLoad: bool, cancelUpload: bool)
    | Pin(id: U64)
    | Unpin(id: U64)
    | Evict(id: U64)
    | ReleaseAll
    | EnablePrefetch(enabled: bool)
    | FailNextUpload

  /** How many pins a pinned record has after a call. */
  function Repinned(pins: nat, call: Call, id: U64): nat {
    if call == ReleaseAll then 0
    else if call == Pin(id) then pins + 1
    else if call == Unpin(id) && pins > 0 then pins - 1
    else pins
  }

  function PinsAfter(pins: nat, calls: seq<Call>, id: U64): nat {
    if calls == [] then pins
    else
      var last := |calls| - 1;
      Repinned(PinsAfter(pins, calls[..last], id), calls[last], id)
  }

  /** A record with so many pins is never without one. */
  ghost predicate StaysPinned(pins: nat, calls: seq<Call>, id: U64) {
    forall k {:trigger calls[..k]} :: 0 <= k <= |calls| ==> PinsAfter(pins, calls[..k], id) > 0
  }

  /** A record that stays pinned keeps every byte it holds, and its pins are counted. */
  ghost predicate KeepsPinned(before: Records, after: Records, id: U64, calls: seq<Call>) {
    id in before && StaysPinned(before[id].pins, calls, id) ==>
      && id in after && after[id].pins == PinsAfter(before[id].pins, calls, id)
      && after[id].region == before[id].region
      && (InRam(before[id]) ==> InRam(after[id]) && after[id].ram == before[id].ram)
      && (OnDevice(before[id]) ==> OnDevice(after[id]) && after[id].accel == before[id].accel)
  }

  lemma KeepsPinnedItself(records: Records)
    ensures forall id {:trigger KeepsPinned(records, records, id, [])} :: KeepsPinned(records, records, id, [])
  {
  }

  lemma PinsAfterOne(pins: nat, call: Call, id: U64)
    ensures PinsAfter(pins, [call], id) == Repinned(pins, call, id)
    ensures StaysPinned(pins, [call], id) <==> pins > 0 && Repinned(pins, call, id) > 0
  {
    assert [call][..0] == [] && [call][..1] == [call];
    assert PinsAfter(pins, [call][..0], id) == pins;
  }

  lemma PinsAfterMore(pins: nat, calls: seq<Call>, call: Call, id: U64)
    requires StaysPinned(pins, calls + [call], id)
    ensures StaysPinned(pins, calls, id) && StaysPinned(PinsAfter(pins, calls, id), [call], id)
    ensures PinsAfter(pins, calls + [call], id) == PinsAfter(PinsAfter(pins, calls, id), [call], id)
  {
    var more, n := calls + [call], |calls|;
    assert forall k :: 0 <= k <= n ==> more[..k] == calls[..k];
    assert more[..n] == calls && calls[..n] == calls && more[..n + 1] == more;
    PinsAfterOne(PinsAfter(pins, calls, id), call, id);
  }

  lemma KeepsPinnedNext(a: Records, b: Records, c: Records, id: U64, calls: seq<Call>, call: Call)
    requires KeepsPinned(a, b, id, calls) && KeepsPinned(b, c, id, [call])
    ensures KeepsPinned(a, c, id, calls + [call])
  {
    hide StaysPinned, PinsAfter;
    if id in a && StaysPinned(a[id].pins, calls + [call], id) {
      PinsAfterMore(a[id].pins, calls, call, id);
    }
  }

  /** What one call does to a record that is pinned before and after it. */
  lemma KeepsPinnedOnce(before: Records, after: Records, id: U64, call: Call)
    requires id in before && before[id].pins > 0 && Repinned(before[id].pins, call, id) > 0 ==>
      && id in after && after[id].pins == Repinned(before[id].pins, call, id)
      && after[id].region == before[id].region
      && (InRam(before[id]) ==> InRam(after[id]) && after[id].ram == before[id].ram)
      && (OnDevice(before[id]) ==> OnDevice(after[id]) && after[id].accel == before[id].accel)
    ensures KeepsPinned(before, after, id, [call])
  {
    if id in before {
      PinsAfterOne(before[id].pins, call, id);
    }
  }

  lemma BroughtKeepsPinned(before: Records, after: Records, region: ModelRegion, call: Call)
    requires call.EnsureResident? || call.Prefetch?
    requires after == before ||
      (Spares(before, after, {region.id}) && region.id in after
        && (region.id in before ==> Improves(before[region.id], after[region.id])))
    ensures forall id {:trigger KeepsPinned(before, after, id, [call])} :: KeepsPinned(before, after, id, [call])
  {
    forall id {:trigger KeepsPinned(before, after, id, [call])}
      ensures KeepsPinned(before, after, id, [call])
    {
      KeepsPinnedOnce(before, after, id, call);
    }
  }

  /** Calls that change nothing but the pins of a record, or drop what is not pinned. */
  lemma PinCallKeeps(before: Records, after: Records, call: Call)
    requires match call
      case Pin(id) => after == if id in before then before[id := Pinned(before[id], before[id].pins + 1)] else before
      case Unpin(id) =>
        after == if id in before && before[id].pins > 0
                 then before[id := Pinned(before[id], before[id].pins - 1)] else before
      case Evict(id) => after == before || (after == before - {id} && (id in before ==> before[id].pins == 0))
      case ReleaseAll => true
      case _ => after == before
    ensures forall id {:trigger KeepsPinned(before, after, id, [call])} :: KeepsPinned(before, after, id, [call])
  {
    forall id {:trigger KeepsPinned(before, after, id, [call])}
      ensures KeepsPinned(before, after, id, [call])
    {
      KeepsPinnedOnce(before, after, id, call);
    }
  }

  function Pinned(rec: Record, pins: nat): Record {
    rec.(pins := pins)
  }

  lemma DeviceOf(file: seq<Byte>, records: Records, t: Telemetry, budget: U64, dev: Device, foreign: nat)
    requires CacheOk(file, records, t, budget, dev, foreign)
    ensures DeviceOk(dev)
  {
  }

  lemma CacheCleared(file: seq<Byte>, t: Telemetry, budget: U64, dev: Device, foreign: nat, u: Telemetry)
    requires CacheOk(file, map[], t, budget, dev, foreign)
    requires u.peakRamBytes == t.peakRamBytes && u.peakAcceleratorBytes == t.peakAcceleratorBytes
    ensures CacheOk(file, map[], u.(ramBytes := 0, acceleratorBytes := 0), budget, dev, foreign)
    ensures dev.used == foreign
  {
    assert RamWeights(map[]) == map[] && AccelWeights(map[]) == map[];
  }

  /** No other region has come with this region's id. */
  predicate Answers(records: Records, region: ModelRegion) {
    region.id in records ==> records[region.id].region == region
  }

  lemma CreatedSpares(before: Records, region: ModelRegion)
    ensures Spares(before, if region.id in before then before else before[region.id := NewRecord(region)], {region.id})
  {
  }

  lemma CreatedThenBrought(before: Records, created: Records, after: Records, region: ModelRegion)
    requires created == if region.id in before then before else before[region.id := NewRecord(region)]
    requires Spares(created, after, {region.id}) && region.id in after && Improves(created[region.id], after[region.id])
    ensures Spares(before, after, {region.id})
    ensures region.id in before ==> Improves(before[region.id], after[region.id])
    ensures region.id !in before ==> after[region.id].region == region && after[region.id].pins == 0
    ensures after[region.id].region == region <==> Answers(before, region)
  {
    CreatedSpares(before, region);
    SparesTransitive(before, created, after, {region.id});
  }

  lemma TouchedAfter(before: Records, brought: Records, after: Records, id: U64)
    requires Spares(before, brought, {id}) && id in brought
    requires exists t: nat, prefetched :: after == brought[id := brought[id].(lastUsed := t, prefetched := prefetched)]
    ensures Spares(before, after, {id}) && id in after
    ensures after[id].region == brought[id].region && after[id].pins == brought[id].pins
    ensures after[id].state == brought[id].state
    ensures id in before && Improves(before[id], brought[id]) ==> Improves(before[id], after[id])
  {
  }

  /** A record that is brought in keeps its identity and whatever it already held. */
  ghost predicate Improves(before: Record, after: Record) {
    && after.region == before.region && after.pins == before.pins
    && (InRam(before) ==> InRam(after) && after.ram == before.ram)
    && (OnDevice(before) ==> OnDevice(after) && after.accel == before.accel)
  }

  lemma SparesItself(records: Records, id: U64)
    ensures Spares(records, records, {id})
  {
  }

  lemma LoadImproves(file: seq<Byte>, before: Record, after: Record, ok: bool)
    requires !InRam(before)
    requires ok ==> InFile(file, before.region) && after == InRamNow(file, before)
    requires !ok ==> after == before || after == before.(state := ERROR)
    ensures Improves(before, after) && (ok ==> InRam(after) && !OnDevice(after))
  {
  }

  lemma UploadImproves(before: Record, loaded: Record, after: Record)
    requires Improves(before, loaded) && loaded.state == RESIDENT_IN_RAM
    requires after == loaded || exists p :: after == OnDeviceNow(loaded, p)
    ensures Improves(before, after) && (after != loaded ==> OnDevice(after))
  {
  }

  function OnDeviceNow(rec: Record, p: Ptr): Record {
    rec.(accel := p, state := RESIDENT_IN_ACCELERATOR)
  }

  lemma SetTwice(records: Records, id: U64, first: Record, second: Record)
    ensures records[id := first][id := second] == records[id := second]
  {
  }

  function InRamNow(file: seq<Byte>, rec: Record): Record
    requires InFile(file, rec.region)
  {
    rec.(ram := Some(Slice(file, rec.region)), state := RESIDENT_IN_RAM)
  }

  lemma EvictedSpares(before: Records, victims: seq<U64>, id: U64)
    requires id in before
    requires Victims(before, TargetRam, id, victims)
    ensures Spares(before, Without(before, victims), {id})
    ensures id in Without(before, victims) && Without(before, victims)[id] == before[id]
    ensures EvictsFairly(before, Without(before, victims), id)
  {
    var after := Without(before, victims);
    forall v, w {:trigger before[v], after[w]} |
      v in before && v !in after && v != id && w in after && w != id && Idle(after[w]) && InRam(after[w])
      ensures before[v].lastUsed <= after[w].lastUsed
    {
      var k :| 0 <= k < |victims| && victims[k] == v;
      assert IsLru(Without(before, victims[..k]), TargetRam, id, v);
      assert Without(before, victims[..k])[w] == before[w];
    }
  }

  lemma DemotedSpares(before: Records, victims: seq<U64>, id: U64)
    requires id in before
    requires Victims(before, TargetAccelerator, id, victims)
    ensures Spares(before, WithDemoted(before, victims), {id})
    ensures id in WithDemoted(before, victims) && WithDemoted(before, victims)[id] == before[id]
    ensures DemotesFairly(before, WithDemoted(before, victims), id)
  {
    var after := WithDemoted(before, victims);
    forall v, w {:trigger before[v], after[w]} |
      v in before && v != id && OnDevice(before[v]) && !OnDevice(after[v])
      && w in after && w != id && Idle(after[w]) && OnDevice(after[w])
      ensures before[v].lastUsed <= after[w].lastUsed
    {
      var k :| 0 <= k < |victims| && victims[k] == v;
      assert IsLru(WithDemoted(before, victims[..k]), TargetAccelerator, id, v);
      assert w !in victims && WithDemoted(before, victims[..k])[w] == before[w];
    }
  }

  lemma OwnIsSpared(before: Records, after: Records, id: U64, rec: Record)
    requires Spares(before, after, {id})
    ensures Spares(before, after[id := rec], {id})
    ensures EvictsFairly(before, after, id) ==> EvictsFairly(before, after[id := rec], id)
    ensures DemotesFairly(before, after, id) && id in after ==> DemotesFairly(before, after[id := rec], id)
  {
  }

  /** A record that is created, and then changed again, has no part in what is fair to the others. */
  lemma FairAsCreated(before: Records, created: Records, brought: Records, after: Records, id: U64)
    requires Fair(created, brought, id) && id in brought && id in after
    requires created - {id} == before - {id} && after - {id} == brought - {id}
    ensures Fair(before, after, id)
  {
    hide Idle, InRam, OnDevice, Demoted, Fair;
    var mid := FairMiddle(created, brought, id);
    EvictsFairlyBut(before, created, mid, id);
    DemotesFairlyBut(mid, brought, after, id);
    FairIfEvicted(before, mid, after, id);
  }

  lemma FairMiddle(before: Records, after: Records, id: U64) returns (mid: Records)
    requires Fair(before, after, id)
    ensures EvictsFairly(before, mid, id) && DemotesFairly(mid, after, id)
  {
    hide EvictsFairly, DemotesFairly;
    mid :| EvictsFairly(before, mid, id) && DemotesFairly(mid, after, id);
  }

  lemma EvictsFairlyBut(before: Records, created: Records, after: Records, id: U64)
    requires EvictsFairly(created, after, id) && created - {id} == before - {id}
    ensures EvictsFairly(before, after, id)
  {
    hide Idle, InRam;
    SameBut(created, before, id);
    forall v, w {:trigger before[v], after[w]} |
      v in before && v !in after && v != id && w in after && w != id && Idle(after[w]) && InRam(after[w])
      ensures before[v].lastUsed <= after[w].lastUsed
    {
      assert created[v] == before[v];
    }
  }

  lemma SameBut(a: Records, b: Records, id: U64)
    requires a - {id} == b - {id}
    ensures forall j {:trigger b[j]} {:trigger a[j]} {:trigger j in a} {:trigger j in b} ::
      j != id ==> (j in a <==> j in b) && (j in a ==> a[j] == b[j])
  {
    forall j | j != id
      ensures (j in a <==> j in b) && (j in a ==> a[j] == b[j])
    {
      assert j in a - {id} <==> j in b - {id};
      assert j in a ==> (a - {id})[j] == a[j];
      assert j in b ==> (b - {id})[j] == b[j];
    }
  }

  lemma DemotesFairlyBut(before: Records, brought: Records, after: Records, id: U64)
    requires DemotesFairly(before, brought, id) && id in brought && id in after && after - {id} == brought - {id}
    ensures DemotesFairly(before, after, id)
  {
    hide Idle, OnDevice, Demoted;
    SameBut(after, brought, id);
    assert after.Keys == before.Keys;
    forall v, w {:trigger before[v], after[w]} |
      v in before && v != id && OnDevice(before[v]) && !OnDevice(after[v])
      && w in after && w != id && Idle(after[w]) && OnDevice(after[w])
      ensures before[v].lastUsed <= after[w].lastUsed
    {
      assert brought[w] == after[w] && brought[v] == after[v];
    }
  }

  /** Bringing a record in is fair to the others and stamps none. */
  lemma BroughtFairly(before: Records, created: Records, after: Records, region: ModelRegion)
    requires created == if region.id in before then before else before[region.id := NewRecord(region)]
    requires Fair(created, after, region.id) && region.id in after && region.id in created
    requires after[region.id].lastUsed == created[region.id].lastUsed
    ensures Fair(before, after, region.id)
    ensures forall clock :: Restamped(before, after, region.id, false, clock)
  {
    hide Fair, Restamped;
    FairAsCreated(before, created, after, after, region.id);
    FairKeepsStamps(before, after, region.id);
  }

  lemma UsedFairly(before: Records, brought: Records, after: Records, id: U64, clock: nat)
    requires Fair(before, brought, id) && Restamped(before, brought, id, false, clock) && id in brought
    requires exists prefetched :: after == brought[id := brought[id].(lastUsed := clock, prefetched := prefetched)]
    ensures Fair(before, after, id) && Restamped(before, after, id, true, clock)
  {
    hide Fair;
    FairAsCreated(before, before, brought, after, id);
  }

  lemma NothingRestamped(records: Records, id: U64)
    ensures forall clock :: Restamped(records, records, id, false, clock)
    ensures id in records ==> Improves(records[id], records[id])
  {
  }

  /** A prefetch that finds its region where it is wanted. */
  predicate Hit(records: Records, region: ModelRegion, target: ResidencyTarget) {
    region.id in records && Resident(records[region.id], target)
  }

  lemma FairIfEvicted(before: Records, mid: Records, after: Records, id: U64)
    requires EvictsFairly(before, mid, id) && DemotesFairly(mid, after, id)
    ensures Fair(before, after, id)
  {
  }

  // ---------------------------------------------------------------------------------------------
  // Stamps
  // ---------------------------------------------------------------------------------------------

  /** No record is stamped with a time to come. */
  ghost predicate Stamped(records: Records, clock: nat) {
    forall id {:trigger records[id]} :: id in records ==> records[id].lastUsed <= clock
  }

  /** The one record that was used carries the present time; the others keep their stamps, new ones have none. */
  ghost predicate Restamped(before: Records, after: Records, id: U64, used: bool, clock: nat) {
    forall j {:trigger after[j]} :: j in after ==>
      after[j].lastUsed == if j == id && used then clock else if j in before then before[j].lastUsed else 0
  }

  lemma FairKeepsStamps(before: Records, after: Records, id: U64)
    requires Fair(before, after, id)
    requires id in after ==> after[id].lastUsed == if id in before then before[id].lastUsed else 0
    ensures forall clock :: Restamped(before, after, id, false, clock)
  {
    var mid: Records :| EvictsFairly(before, mid, id) && DemotesFairly(mid, after, id);
    forall j | j in after && j != id
      ensures j in before && after[j].lastUsed == before[j].lastUsed
    {
      assert j in mid && mid[j] == before[j];
    }
  }

  // ---------------------------------------------------------------------------------------------
  // Uses over sequences of calls
  // ---------------------------------------------------------------------------------------------

  /** A call that succeeds in making a region resident uses it; a prefetch that finds it resident does not. */
  predicate Uses(call: Call, ok: bool, before: Records, id: U64) {
    match call
    case EnsureResident(region, _, _, _) => ok && region.id == id
    case Prefetch(region, target, _, _) => ok && region.id == id && !Hit(before, region, target)
    case _ => false
  }

  /** One call as it happened, and when it was over. */
  datatype Moment = Moment(call: Call, ok: bool, before: Records, after: Records, time: nat)
  {
    /** The region the call was about. */
    function Own(): U64 {
      match call
      case EnsureResident(region, _, _, _) => region.id
      case Prefetch(region, _, _, _) => region.id
      case Pin(id) => id
      case Unpin(id) => id
      case Evict(id) => id
      case _ => 0
    }

    predicate Brings() { call.EnsureResident? || call.Prefetch? }

    /** Stamps are the times of uses, and only the least recently used make room. */
    ghost predicate Lawful() {
      && (forall j {:trigger after[j]} :: j in after ==>
            after[j].lastUsed ==
              if Uses(call, ok, before, j) then time else if j in before then before[j].lastUsed else 0)
      && (Brings() ==> after == before || Fair(before, after, Own()))
    }
  }

  /** What a sequence of calls leaves. */
  function End(start: Records, trace: seq<Moment>): Records {
    if trace == [] then start else trace[|trace| - 1].after
  }

  ghost predicate Traced(start: Records, trace: seq<Moment>)
    decreases |trace|
  {
    trace == [] ||
    var n := |trace| - 1;
    Traced(start, trace[..n]) && trace[n].before == End(start, trace[..n]) && trace[n].Lawful()
  }

  /** When a region was last used; the stamp it started with, if it was not used, and none for a new one. */
  function LastUse(start: Records, trace: seq<Moment>, id: U64): nat {
    if trace == [] then if id in start then start[id].lastUsed else 0
    else
      var n := |trace| - 1;
      if Uses(trace[n].call, trace[n].ok, trace[n].before, id) then trace[n].time
      else if id in trace[n].before then LastUse(start, trace[..n], id)
      else 0
  }

  lemma {:induction false} StampIsLastUse(start: Records, trace: seq<Moment>, id: U64)
    requires Traced(start, trace) && id in End(start, trace)
    ensures End(start, trace)[id].lastUsed == LastUse(start, trace, id)
    decreases |trace|
  {
    hide Uses, Fair;
    if trace != [] {
      var n := |trace| - 1;
      if id in trace[n].before {
        StampIsLastUse(start, trace[..n], id);
      }
    }
  }

  /**
   * The law of eviction over sequences of calls: whatever a call takes to make room, the record itself or
   * its device copy, was last used no later than anything idle of the same kind that stays.
   */
  lemma TakenWereUsedNoLater(start: Records, trace: seq<Moment>, m: Moment, v: U64, w: U64)
    requires Traced(start, trace + [m]) && m.Brings() && v != m.Own() && w != m.Own()
    requires v in m.before && w in m.after && m.after[w].pins == m.after[w].refs == 0 && !m.after[w].transferring
    requires (v !in m.after && InRam(m.after[w])) ||
      (v in m.after && OnDevice(m.before[v]) && !OnDevice(m.after[v]) && OnDevice(m.after[w]))
    ensures w in m.before && LastUse(start, trace, v) <= LastUse(start, trace, w)
  {
    var all := trace + [m];
    assert all[..|trace|] == trace && all[|trace|] == m;
    hide Fair, Uses;
    FairToAll(m.before, m.after, m.Own(), v, w);
    StampIsLastUse(start, trace, v);
    StampIsLastUse(start, trace, w);
  }

  lemma RestampedIsLawful(m: Moment, used: bool)
    requires m.Brings() && Restamped(m.before, m.after, m.Own(), used, m.time)
    requires used <==> Uses(m.call, m.ok, m.before, m.Own())
    requires m.after == m.before || Fair(m.before, m.after, m.Own())
    ensures m.Lawful()
  {
    hide Fair;
  }

  /** Calls that bring nothing in stamp nothing. */
  lemma OthersAreLawful(m: Moment)
    requires !m.Brings() && forall j :: j in m.after ==> j in m.before && m.after[j].lastUsed == m.before[j].lastUsed
    ensures m.Lawful()
  {
  }

  lemma LawfulIsStamped(m: Moment, was: nat)
    requires m.Lawful() && Stamped(m.before, was) && was <= m.time
    ensures Stamped(m.after, m.time)
  {
    hide Fair, Uses;
  }

  function OnDeviceIds(records: Records): set<U64> {
    set id | id in records && OnDevice(records[id])
  }

  /** The victims of an eviction for a target: each evictable, none of them record 0, least recently used first. */
  ghost predicate Victims(before: Records, target: ResidencyTarget, skip: U64, victims: seq<U64>) {
    && 0 !in victims
    && (forall v :: v in victims ==> v in before && v != skip && Evictable(before[v], target))
    && LruOrder(before, target, skip, victims)
  }

  /** With these records on it the device has `needed` bytes free. */
  ghost predicate FitsDevice(records: Records, needed: U64, capacity: nat, foreign: nat) {
    foreign + AccelTotal(records) + needed <= capacity
  }

  /** Where a demotion loop that started from `before` stands. */
  ghost predicate Demoting(before: Records, now: Records, skip: U64, victims: seq<U64>, needed: U64, capacity: nat,
                           foreign: nat) {
    && Victims(before, TargetAccelerator, skip, victims)
    && now == WithDemoted(before, victims)
    && (|victims| > 0 ==> !FitsDevice(WithDemoted(before, victims[..|victims| - 1]), needed, capacity, foreign))
  }

  lemma DemotingStart(before: Records, skip: U64, needed: U64, capacity: nat, foreign: nat)
    ensures Demoting(before, before, skip, [], needed, capacity, foreign)
    ensures Victims(before, TargetAccelerator, skip, []) && WithDemoted(before, []) == before
  {
    assert WithDemoted(before, []) == before;
  }

  lemma DemoteVictimIn(before: Records, victims: seq<U64>, skip: U64, v: U64)
    requires IsLru(WithDemoted(before, victims), TargetAccelerator, skip, v)
    ensures v in WithDemoted(before, victims) && OnDevice(WithDemoted(before, victims)[v]) && v != skip
    ensures v in before && v !in victims && WithDemoted(before, victims)[v] == before[v]
    ensures Evictable(before[v], TargetAccelerator)
  {
  }

  lemma DemoteShrinks(records: Records, v: U64)
    requires v in records && OnDevice(records[v])
    ensures |OnDeviceIds(records[v := Demoted(records[v])])| < |OnDeviceIds(records)|
  {
    assert OnDeviceIds(records[v := Demoted(records[v])]) == OnDeviceIds(records) - {v};
  }

  lemma DemotingNext(before: Records, now: Records, skip: U64, victims: seq<U64>, needed: U64, capacity: nat,
                     foreign: nat, v: U64)
    requires Demoting(before, now, skip, victims, needed, capacity, foreign)
    requires IsLru(now, TargetAccelerator, skip, v) && v != 0
    requires !FitsDevice(now, needed, capacity, foreign)
    ensures v in now && OnDevice(now[v])
    ensures Demoting(before, now[v := Demoted(now[v])], skip, victims + [v], needed, capacity, foreign)
    ensures |OnDeviceIds(now[v := Demoted(now[v])])| < |OnDeviceIds(now)|
  {
    DemoteVictimIn(before, victims, skip, v);
    DemoteShrinks(now, v);
    hide AccelTotal, LruOrder, WithDemoted, IsLru, OnDeviceIds, FitsDevice;
    LruOrderExtend(before, TargetAccelerator, skip, victims, v);
    WithoutOneMore(before, victims, v);
    assert (victims + [v])[..|victims|] == victims;
  }

  /** The demotion loop is over; it made room exactly if what it does not get to leaves room. */
  lemma DemotingOver(before: Records, now: Records, skip: U64, victims: seq<U64>, needed: U64, capacity: nat,
                     foreign: nat)
    requires Demoting(before, now, skip, victims, needed, capacity, foreign)
    requires FitsDevice(now, needed, capacity, foreign)
      || NoneEvictable(now, TargetAccelerator, skip) || IsLru(now, TargetAccelerator, skip, 0)
    ensures Victims(before, TargetAccelerator, skip, victims) && now == WithDemoted(before, victims)
    ensures |victims| > 0 ==> !FitsDevice(WithDemoted(before, victims[..|victims| - 1]), needed, capacity, foreign)
    ensures FitsDevice(now, needed, capacity, foreign) ==>
      FitsDevice(OutOfReach(before, TargetAccelerator, skip, true), needed, capacity, foreign)
    ensures FitsDevice(OutOfReach(before, TargetAccelerator, skip, false), needed, capacity, foreign) ==>
      FitsDevice(now, needed, capacity, foreign)
    ensures ZeroIsUntied(before, TargetAccelerator, skip) ==>
      (FitsDevice(now, needed, capacity, foreign) <==>
       FitsDevice(OutOfReach(before, TargetAccelerator, skip, false), needed, capacity, foreign))
    ensures !ZeroIsVictim(before, TargetAccelerator, skip) ==>
      (FitsDevice(now, needed, capacity, foreign) <==>
       FitsDevice(Unevictable(before, TargetAccelerator, skip), needed, capacity, foreign))
  {
    hide AccelTotal, LruOrder, WithDemoted, IsLru, NoneEvictable, ZeroIsVictim, ZeroIsUntied, OutOfReach, Unevictable;
    OutOfReachStays(before, TargetAccelerator, skip, victims);
    ReachIsExact(before, TargetAccelerator, skip);
    if !FitsDevice(now, needed, capacity, foreign) {
      StuckDevice(before, skip, victims);
    }
  }

  // ---------------------------------------------------------------------------------------------
  // The eviction loops as values
  // ---------------------------------------------------------------------------------------------

  /** Where an eviction loop that started from `before` stands. */
  ghost predicate Evicting(before: Records, now: Records, skip: U64, victims: seq<U64>, needed: U64, budget: U64) {
    && Victims(before, TargetRam, skip, victims)
    && now == Without(before, victims)
    && (|victims| > 0 ==> Exceeds(before, victims[..|victims| - 1], needed, budget))
  }

  /** With these records in RAM the budget has `needed` bytes left. */
  ghost predicate FitsRam(records: Records, needed: U64, budget: U64) {
    RamTotal(records) + needed <= budget
  }

  /** With these victims gone the bytes do not fit yet, and their sum with what is needed did not wrap. */
  ghost predicate Exceeds(before: Records, victims: seq<U64>, needed: U64, budget: U64) {
    RamTotal(before) + needed < TWO_64 && !FitsRam(Without(before, victims), needed, budget)
  }

  lemma EvictingStart(before: Records, skip: U64, needed: U64, budget: U64)
    ensures Evicting(before, before, skip, [], needed, budget)
  {
    assert Without(before, []) == before;
  }

  lemma WithoutShrinks(before: Records, victims: seq<U64>)
    ensures RamTotal(Without(before, victims)) <= RamTotal(before)
  {
    TotalMonotone(RamWeights(Without(before, victims)), RamWeights(before));
  }

  /** A sum that wraps passes the budget test at once, so a loop that goes on has not wrapped. */
  lemma GoingOn(before: Records, now: Records, skip: U64, victims: seq<U64>, needed: U64, budget: U64)
    requires Evicting(before, now, skip, victims, needed, budget)
    requires RamTotal(now) <= budget && Add64(RamTotal(now), needed) > budget
    ensures Exceeds(before, victims, needed, budget)
  {
    hide RamTotal, Victims;
    if victims == [] {
      assert Without(before, []) == before;
    }
    WithoutShrinks(before, victims);
  }

  lemma EvictingNext(before: Records, now: Records, skip: U64, victims: seq<U64>, needed: U64, budget: U64, v: U64)
    requires Evicting(before, now, skip, victims, needed, budget) && IsLru(now, TargetRam, skip, v) && v != 0
    requires RamTotal(now) <= budget && Add64(RamTotal(now), needed) > budget
    ensures Evicting(before, now - {v}, skip, victims + [v], needed, budget)
  {
    hide RamTotal, Without, LruOrder, IsLru, Exceeds, Add64;
    GoingOn(before, now, skip, victims, needed, budget);
    VictimIn(before, victims, skip, v);
    LruOrderExtend(before, TargetRam, skip, victims, v);
    WithoutOneMore(before, victims, v);
    assert (victims + [v])[..|victims|] == victims;
  }

  lemma VictimIn(before: Records, victims: seq<U64>, skip: U64, v: U64)
    requires IsLru(Without(before, victims), TargetRam, skip, v)
    ensures v in before && Without(before, victims)[v] == before[v] && v != skip && Evictable(before[v], TargetRam)
  {
  }

  /**
   * The eviction loop is over. A sum that wrapped passed at once; otherwise it made room exactly if
   * what it does not get to leaves room.
   */
  lemma EvictingOver(before: Records, now: Records, skip: U64, victims: seq<U64>, needed: U64, budget: U64, ok: bool)
    requires Evicting(before, now, skip, victims, needed, budget) && RamTotal(now) <= budget
    requires ok <==> Add64(RamTotal(now), needed) <= budget
    requires !ok ==> NoneEvictable(now, TargetRam, skip) || IsLru(now, TargetRam, skip, 0)
    ensures Victims(before, TargetRam, skip, victims) && now == Without(before, victims)
    ensures |victims| > 0 ==> Exceeds(before, victims[..|victims| - 1], needed, budget)
    ensures RamTotal(before) + needed >= TWO_64 ==> ok && victims == []
    ensures RamTotal(before) + needed < TWO_64 && ok ==>
      FitsRam(OutOfReach(before, TargetRam, skip, true), needed, budget)
    ensures FitsRam(OutOfReach(before, TargetRam, skip, false), needed, budget) ==> ok
    ensures RamTotal(before) + needed < TWO_64 && ZeroIsUntied(before, TargetRam, skip) ==>
      (ok <==> FitsRam(OutOfReach(before, TargetRam, skip, false), needed, budget))
    ensures RamTotal(before) + needed < TWO_64 && !ZeroIsVictim(before, TargetRam, skip) ==>
      (ok <==> FitsRam(Unevictable(before, TargetRam, skip), needed, budget))
  {
    hide RamTotal, LruOrder, Without, IsLru, NoneEvictable, ZeroIsVictim, ZeroIsUntied, OutOfReach, Unevictable;
    OutOfReachStays(before, TargetRam, skip, victims);
    ReachIsExact(before, TargetRam, skip);
    if ok {
      WithoutShrinks(before, victims);
      Add64Exact(RamTotal(now), needed);
    } else {
      GoingOn(before, now, skip, victims, needed, budget);
      StuckRam(before, skip, victims);
    }
  }

  /** A full cache in which record 0 is the older of two records that may be evicted. */
  function OldestIsZero(file: seq<Byte>): Records
    requires |file| == 2
  {
    map[0 := Record(ModelRegion(0, 0, 1), RESIDENT_IN_RAM, Some(file[0..1]), 0, 0, 0, 1, false, false),
        5 := Record(ModelRegion(5, 1, 1), RESIDENT_IN_RAM, Some(file[1..2]), 0, 0, 0, 2, false, false)]
  }

  /**
   * With id 0 in use eviction can give up although it could make all the room there is: this cache
   * keeps every invariant, everything in it may be evicted, and nothing of it is in reach.
   */
  lemma ZeroIdHidesVictims(file: seq<Byte>)
    requires |file| == 2
    ensures CacheOk(file, OldestIsZero(file), Telemetry(2, 0, 2, 0, 0, 0), 2, NO_DEVICE, 0)
    ensures HeldUpByZero(OldestIsZero(file), TargetRam, 9)
    ensures RamTotal(Unevictable(OldestIsZero(file), TargetRam, 9)) == 0
  {
    hide Coherent, RamTotal, AccelTotal, OldestIsZero, HeldUpByZero, Unevictable;
    OldestIsZeroOk(file);
    OldestIsZeroHeldUp(file);
    NothingUnevictable(OldestIsZero(file));
    assert Total<Ptr>(map[]) == 0;
  }

  lemma OldestIsZeroHeldUp(file: seq<Byte>)
    requires |file| == 2
    ensures HeldUpByZero(OldestIsZero(file), TargetRam, 9)
    ensures forall id {:trigger OldestIsZero(file)[id]} ::
      id in OldestIsZero(file) ==> id != 9 && Evictable(OldestIsZero(file)[id], TargetRam)
  {
    assert OldestIsZero(file).Keys == {0, 5};
  }

  lemma NothingUnevictable(records: Records)
    requires forall id {:trigger records[id]} :: id in records ==> id != 9 && Evictable(records[id], TargetRam)
    ensures RamTotal(Unevictable(records, TargetRam, 9)) == 0
  {
    TotalMonotone(RamWeights(Unevictable(records, TargetRam, 9)), map[]);
  }

  lemma OldestIsZeroOk(file: seq<Byte>)
    requires |file| == 2
    ensures Coherent(file, OldestIsZero(file), NO_DEVICE)
    ensures RamTotal(OldestIsZero(file)) == 2 && AccelTotal(OldestIsZero(file)) == 0
  {
    var records := OldestIsZero(file);
    assert Slice(file, records[0].region) == file[0..1] && Slice(file, records[5].region) == file[1..2];
    TotalsOf(records, 0);
    TotalsOf(records - {0}, 5);
    assert records - {0} - {5} == map[];
    assert RamWeights(map[]) == map[] && AccelWeights(map[]) == map[];
  }

  /** Record 0 may be evicted, and before any other. */
  ghost predicate HeldUpByZero(records: Records, target: ResidencyTarget, skip: U64) {
    && ZeroIsVictim(records, target, skip)
    && forall id {:trigger records[id]} :: id in records && id != 0 && id != skip && Evictable(records[id], target) ==>
         records[0].lastUsed < records[id].lastUsed
  }

  lemma NothingInReach(records: Records, target: ResidencyTarget, skip: U64, victims: seq<U64>)
    requires HeldUpByZero(records, target, skip) && Victims(records, target, skip, victims)
    ensures OutOfReach(records, target, skip, true) == records
    ensures Without(records, victims) == records && WithDemoted(records, victims) == records
  {
    VictimsAreAhead(records, target, skip, victims);
  }

  lemma VictimOf(records: Records, target: ResidencyTarget, skip: U64, victim: U64)
    requires IsLru(records, target, skip, victim)
    ensures victim in records && victim != skip && records[victim].pins == 0
    ensures Evictable(records[victim], target)
  {
  }

  lemma WithoutOneMore(records: Records, victims: seq<U64>, victim: U64)
    ensures Without(records, victims + [victim]) == Without(records, victims) - {victim}
    ensures WithDemoted(records, victims + [victim]) ==
      if victim in records then WithDemoted(records, victims)[victim := Demoted(records[victim])]
      else WithDemoted(records, victims)
  {
    assert forall v :: v in victims + [victim] <==> v in victims || v == victim;
  }
}
