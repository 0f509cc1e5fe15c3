/**
 * The residency manager: a two-level cache, file to RAM to accelerator, with byte budgets, pins and
 * least-recently-used eviction. Each public method holds the manager's lock throughout, so a run
 * is a sequence of calls. Reads, host allocations and cancellation fail as they please.
 */
module ModelResidencyManagers {
  import opened ModelTypes
  import opened Totals
  import opened ResidencyModel
  import opened ResidencyCache
  import opened HostAcceleratorMemories

  class ModelResidencyManager {
    const file: seq<Byte>
    const budget: U64
    const accelerator: HostAcceleratorMemory?
    ghost const foreign: nat
    var records: Records
    var telemetry: Telemetry
    var prefetchEnabled: bool
    var clock: nat

    ghost function Dev(): Device
      reads this, accelerator
    {
      if accelerator == null then NO_DEVICE else accelerator.View()
    }

    ghost function Capacity(): U64 {
      if accelerator == null then 0 else accelerator.capacity
    }

    ghost predicate Valid()
      reads this, accelerator
    {
      CacheOk(file, records, telemetry, budget, Dev(), foreign)
    }

    constructor (file: seq<Byte>, budget: U64, accelerator: HostAcceleratorMemory?)
      requires accelerator != null ==> accelerator.Valid()
      ensures Valid() && records == map[]
      ensures this.file == file && this.budget == budget && this.accelerator == accelerator
    {
      this.file, this.budget, this.accelerator := file, budget, accelerator;
      this.foreign := if accelerator == null then 0 else accelerator.used;
      records, prefetchEnabled, clock := map[], true, 0;
      telemetry := Telemetry(0, 0, 0, 0, 0, 0);
      new;
      assert RamWeights(map[]) == map[] && AccelWeights(map[]) == map[];
    }

    /** The logical clock never goes back; two readings may agree. */
    method Now() returns (t: nat)
      modifies this`clock
      ensures t == clock >= old(clock)
    {
      t :| t >= clock;
      clock := t;
    }

    /** Id 0 doubles as "no victim", so the answer 0 is ambiguous exactly when a record has that id. */
    method PickLru(target: ResidencyTarget, skip: U64) returns (victim: U64)
      ensures victim != 0 ==> IsLru(records, target, skip, victim)
      ensures victim == 0 ==> NoneEvictable(records, target, skip) || IsLru(records, target, skip, 0)
    {
      victim := 0;
      var oldest, found := 0, false;
      var todo := records.Keys;
      while todo != {}
        invariant todo <= records.Keys
        invariant found ==> victim in records && victim != skip && Evictable(records[victim], target)
        invariant found ==> oldest == records[victim].lastUsed
        invariant found ==> forall j {:trigger records[j]} ::
          j in records && j !in todo && j != skip && Evictable(records[j], target) ==> oldest <= records[j].lastUsed
        invariant !found ==> victim == 0
        invariant !found ==> forall j {:trigger records[j]} :: j in records && j !in todo ==>
          j == skip || !Evictable(records[j], target)
        decreases |todo|
      {
        var id :| id in todo;
        todo := todo - {id};
        if id != skip && Evictable(records[id], target) {
          if !found || records[id].lastUsed < oldest {
            oldest, victim, found := records[id].lastUsed, id, true;
          }
        }
      }
    }

    /** Give a record's device block back. */
    method ReleaseBlock(rec: Record)
      requires DeviceOk(Dev()) && (rec.accel != 0 ==> rec.accel in Dev().allocs)
      modifies this`telemetry, accelerator
      ensures telemetry == ReleasedBytes(old(telemetry), rec)
      ensures Dev() == DeviceWithout(old(Dev()), rec.accel)
    {
      if rec.accel != 0 && accelerator != null {
        telemetry := telemetry.(acceleratorBytes := Less(telemetry.acceleratorBytes, rec.region.size));
        accelerator.Release(rec.accel);
      }
    }

    /** Drop a record with all its bytes, unless it is pinned. */
    method EvictLocked(id: U64) returns (ok: bool)
      requires Valid()
      modifies this`records, this`telemetry, accelerator
      ensures Valid()
      ensures ok <==> id !in old(records) || old(records[id]).pins == 0
      ensures records == if ok then old(records) - {id} else old(records)
      ensures !ok || id !in old(records) ==> telemetry == old(telemetry) && Dev() == old(Dev())
      ensures ok && id in old(records) ==> telemetry == EvictedTelemetry(old(telemetry), old(records[id]))
    {
      if id !in records {
        return true;
      }
      var rec := records[id];
      CacheEvict(file, records, telemetry, budget, Dev(), foreign, id);
      if rec.pins > 0 || rec.refs > 0 || rec.transferring {
        return false;
      }
      ValidDevice();
      hide CacheOk;
      ReleaseBlock(rec);
      if rec.ram.Some? {
        telemetry := telemetry.(ramBytes := Less(telemetry.ramBytes, rec.region.size));
      }
      telemetry := telemetry.(evictionCount := telemetry.evictionCount + 1);
      records := records - {id};
      return true;
    }

    lemma ValidDevice()
      requires Valid()
      ensures DeviceOk(Dev()) && Dev().used <= Dev().capacity == Capacity()
      ensures telemetry.ramBytes == RamTotal(records) && telemetry.ramBytes <= budget
      ensures telemetry.acceleratorBytes == AccelTotal(records) && Dev().used == foreign + AccelTotal(records)
    {
    }

    lemma RoomOnDevice(needed: U64)
      requires Valid() && accelerator != null
      ensures accelerator.Available() >= needed <==> FitsDevice(records, needed, Capacity(), foreign)
    {
      ValidDevice();
    }

    lemma ValidRecord(id: U64)
      requires Valid() && id in records
      ensures RecordOk(file, id, records[id], Dev())
    {
      RecordOf(file, records, Dev(), id);
    }

    /**
     * Evict in least-recently-used order until `needed` more bytes fit the RAM budget, and no more
     * than it must. A sum that wraps at 64 bits passes at once. Otherwise it fails exactly when what
     * it does not get to leaves no room: the records it may not evict and, if record 0 is evictable
     * itself, record 0 and all records used after it. Of records used at the same time as record 0
     * either may come first, hence two bounds; without such records they are one.
     */
    method MakeRamRoom(needed: U64, skip: U64) returns (ok: bool, ghost victims: seq<U64>)
      requires Valid()
      modifies this`records, this`telemetry, accelerator
      ensures Valid() && telemetry.ramBytes == RamTotal(records)
      ensures Victims(old(records), TargetRam, skip, victims) && records == Without(old(records), victims)
      ensures ok <==> Add64(telemetry.ramBytes, needed) <= budget
      ensures |victims| > 0 ==> Exceeds(old(records), victims[..|victims| - 1], needed, budget)
      ensures old(telemetry).ramBytes + needed >= TWO_64 ==> ok && victims == []
      ensures old(telemetry).ramBytes + needed < TWO_64 && ok ==>
        FitsRam(OutOfReach(old(records), TargetRam, skip, true), needed, budget)
      ensures FitsRam(OutOfReach(old(records), TargetRam, skip, false), needed, budget) ==> ok
      ensures old(telemetry).ramBytes + needed < TWO_64 && ZeroIsUntied(old(records), TargetRam, skip) ==>
        (ok <==> FitsRam(OutOfReach(old(records), TargetRam, skip, false), needed, budget))
      ensures old(telemetry).ramBytes + needed < TWO_64 && !ZeroIsVictim(old(records), TargetRam, skip) ==>
        (ok <==> FitsRam(Unevictable(old(records), TargetRam, skip), needed, budget))
      ensures !ok ==> NoneEvictable(records, TargetRam, skip) || IsLru(records, TargetRam, skip, 0)
    {
      victims, ok := [], true;
      ValidDevice();
      EvictingStart(records, skip, needed, budget);
      hide CacheOk, RamTotal, AccelTotal, DeviceOk, IsLru, NoneEvictable, Evicting, Without, Unevictable, Evictable,
        Add64, Victims, Exceeds, OutOfReach, ZeroIsVictim, ZeroIsUntied, EvictedTelemetry, LruOrder, Total, FitsRam;
      while Add64(telemetry.ramBytes, needed) > budget
        invariant ok && Valid() && telemetry.ramBytes == RamTotal(records) && telemetry.ramBytes <= budget
        invariant Evicting(old(records), records, skip, victims, needed, budget)
        decreases records.Keys
      {
        var victim := PickLru(TargetRam, skip);
        if victim == 0 {
          ok := false;
          break;
        }
        VictimOf(records, TargetRam, skip, victim);
        EvictingNext(old(records), records, skip, victims, needed, budget, victim);
        var evicted := EvictLocked(victim);
        victims := victims + [victim];
        ValidDevice();
      }
      EvictingOver(old(records), records, skip, victims, needed, budget, ok);
    }

    /**
     * Demote in least-recently-used order until the device has `needed` bytes free, and no more than
     * it must. Victims keep their RAM copies. It fails exactly when what it does not get to leaves no
     * room, with the same two bounds. Without an accelerator there is nothing to do.
     */
    method MakeAccelRoom(needed: U64, skip: U64) returns (ok: bool, ghost victims: seq<U64>)
      requires Valid()
      modifies this`records, this`telemetry, accelerator
      ensures Valid()
      ensures Victims(old(records), TargetAccelerator, skip, victims) && records == WithDemoted(old(records), victims)
      ensures accelerator == null ==> ok && victims == []
      ensures accelerator != null ==> (ok <==> FitsDevice(records, needed, Capacity(), foreign))
      ensures accelerator != null && |victims| > 0 ==>
        !FitsDevice(WithDemoted(old(records), victims[..|victims| - 1]), needed, Capacity(), foreign)
      ensures accelerator != null && ok ==>
        FitsDevice(OutOfReach(old(records), TargetAccelerator, skip, true), needed, Capacity(), foreign)
      ensures FitsDevice(OutOfReach(old(records), TargetAccelerator, skip, false), needed, Capacity(), foreign) ==> ok
      ensures accelerator != null && ZeroIsUntied(old(records), TargetAccelerator, skip) ==>
        (ok <==> FitsDevice(OutOfReach(old(records), TargetAccelerator, skip, false), needed, Capacity(), foreign))
      ensures accelerator != null && !ZeroIsVictim(old(records), TargetAccelerator, skip) ==>
        (ok <==> FitsDevice(Unevictable(old(records), TargetAccelerator, skip), needed, Capacity(), foreign))
      ensures !ok ==> NoneEvictable(records, TargetAccelerator, skip) || IsLru(records, TargetAccelerator, skip, 0)
    {
      victims, ok := [], true;
      DemotingStart(records, skip, needed, Capacity(), foreign);
      hide CacheOk, RamTotal, AccelTotal, DeviceOk, IsLru, NoneEvictable, Demoting, WithDemoted, Unevictable, Evictable,
        OnDeviceIds, Demoted, DemotedTelemetry, Victims, OutOfReach, ZeroIsVictim, ZeroIsUntied, Resident, LruOrder,
        Total, FitsDevice;
      if accelerator == null {
        return;
      }
      RoomOnDevice(needed);
      while accelerator.Available() < needed
        invariant ok && Valid()
        invariant (accelerator.Available() >= needed <==> FitsDevice(records, needed, Capacity(), foreign))
        invariant Demoting(old(records), records, skip, victims, needed, Capacity(), foreign)
        decreases |OnDeviceIds(records)|
      {
        var victim := PickLru(TargetAccelerator, skip);
        if victim == 0 {
          ok := false;
          break;
        }
        VictimOf(records, TargetAccelerator, skip, victim);
        DemotingNext(old(records), records, skip, victims, needed, Capacity(), foreign, victim);
        Demote(victim);
        victims := victims + [victim];
        RoomOnDevice(needed);
      }
      DemotingOver(old(records), records, skip, victims, needed, Capacity(), foreign);
    }

    /** Take a record's device copy away; its RAM copy stays. */
    method Demote(id: U64)
      requires Valid() && id in records && OnDevice(records[id])
      modifies this`records, this`telemetry, accelerator
      ensures Valid() && records == old(records)[id := Demoted(old(records)[id])]
      ensures telemetry == DemotedTelemetry(old(telemetry), old(records)[id])
    {
      var rec := records[id];
      ValidDevice();
      CacheDemote(file, records, telemetry, budget, Dev(), foreign, id);
      hide CacheOk, DeviceOk;
      if rec.accel != 0 {
        ReleaseBlock(rec);
        telemetry := telemetry.(evictionCount := telemetry.evictionCount + 1);
        records := records[id := rec.(accel := 0, state := RESIDENT_IN_RAM)];
      }
    }

    /** A read succeeds only inside the file, and then delivers exactly those bytes. */
    method ReadFile(region: ModelRegion) returns (ok: bool, data: seq<Byte>)
      ensures ok ==> InFile(file, region) && data == Slice(file, region)
    {
      ok := *;
      data := [];
      if region.offset > |file| || region.size > |file| - region.offset {
        ok := false;
      }
      if ok {
        data := file[region.offset..region.offset + region.size];
      }
    }

    /**
     * A host buffer, if the host grants one, filled by a read. The host cannot hold more live bytes than
     * it can address.
     */
    method ReadIntoBuffer(region: ModelRegion) returns (ok: bool, data: seq<Byte>)
      ensures ok ==> InFile(file, region) && data == Slice(file, region) && telemetry.ramBytes + region.size < TWO_64
    {
      var granted := *;
      if !granted || telemetry.ramBytes + region.size >= TWO_64 {
        return false, [];
      }
      ok, data := ReadFile(region);
    }

    /** Read a region into a fresh buffer; the room for it has been made. */
    method FetchIntoRam(id: U64) returns (ok: bool)
      requires Valid() && id in records && !InRam(records[id])
      requires Add64(telemetry.ramBytes, records[id].region.size) <= budget
      modifies this`records, this`telemetry
      ensures Valid()
      ensures ok ==>
        InFile(file, old(records[id]).region) && records == old(records)[id := InRamNow(file, old(records[id]))]
      ensures !ok ==> records == old(records)[id := old(records[id]).(state := ERROR)]
    {
      var rec := records[id];
      ghost var before, t := records, telemetry;
      Add64Exact(t.ramBytes, rec.region.size);
      hide CacheOk, RamTotal, AccelTotal, DeviceOk, Slice, Add64, InFile, InRam, LoadedTelemetry;
      records := records[id := rec.(state := LOADING_TO_RAM, transferring := true)];
      var data;
      ok, data := ReadIntoBuffer(rec.region);
      if ok {
        SetTwice(before, id, records[id], InRamNow(file, rec));
        records := records[id := rec.(ram := Some(data), state := RESIDENT_IN_RAM)];
        telemetry := LoadedTelemetry(telemetry, rec.region.size);
        CacheLoad(file, before, t, budget, Dev(), foreign, id);
      } else {
        SetTwice(before, id, records[id], rec.(state := ERROR));
        records := records[id := rec.(state := ERROR)];
        telemetry := telemetry.(transferFailures := telemetry.transferFailures + 1);
        CacheLoadFails(file, before, t, budget, Dev(), foreign, id);
      }
    }

    method LoadToRam(id: U64, cancel: bool) returns (ok: bool)
      requires Valid() && id in records && !InRam(records[id])
      modifies this`records, this`telemetry, accelerator
      ensures Valid() && Spares(old(records), records, {id}) && id in records
      ensures EvictsFairly(old(records), records, id)
      ensures ok ==> InFile(file, old(records[id]).region) && records[id] == InRamNow(file, old(records[id]))
      ensures !ok ==> records[id] == old(records[id]) || records[id] == old(records[id]).(state := ERROR)
    {
      if cancel {
        NothingTaken(records, id, records[id]);
        return false;
      }
      ghost var before := records;
      var room, victims := MakeRamRoom(records[id].region.size, id);
      EvictedSpares(before, victims, id);
      hide CacheOk, Without, LruOrder, RamTotal, Unevictable, Evictable, Spares, EvictsFairly, DemotesFairly;
      if !room {
        return false;
      }
      ghost var evicted := records;
      ok := FetchIntoRam(id);
      OwnIsSpared(before, evicted, id, records[id]);
    }

    /** A fresh device block holding these bytes, or null with the device as it was. */
    method StoreOnDevice(source: seq<Byte>) returns (p: Ptr)
      requires accelerator != null && accelerator.Valid() && |source| < TWO_64
      modifies accelerator
      ensures p == 0 ==> Dev() == old(Dev())
      ensures p != 0 ==> p !in old(Dev()).allocs && Dev() == Allocated(old(Dev()), p, |source|, source)
      ensures p != 0 ==> Dev().used <= Dev().capacity
      ensures p == 0 && accelerator.lastError == BudgetExceeded ==> Dev().used + |source| > Dev().capacity
    {
      hide Total;
      p := accelerator.Allocate(|source|);
      if p != 0 {
        ghost var dev := Dev();
        var ok := accelerator.Upload(Some(source), p, |source|);
        if ok {
          assert source[..|source|] + dev.memory[p][|source|..] == source;
        } else {
          accelerator.Release(p);
          assert dev.allocs - {p} == old(Dev()).allocs;
          p := 0;
        }
      }
    }

    /** Copy a record's RAM bytes into a fresh device block; the room for it has been made. */
    method CopyToDevice(id: U64) returns (ok: bool)
      requires Valid() && accelerator != null && id in records && records[id].state == RESIDENT_IN_RAM
      requires Dev().used + records[id].region.size <= Dev().capacity
      modifies this`records, this`telemetry, accelerator
      ensures Valid()
      ensures ok ==> exists p :: p != 0 && records == old(records)[id := OnDeviceNow(old(records[id]), p)]
      ensures !ok ==> records == old(records)
      ensures !ok ==> accelerator.lastError != BudgetExceeded
    {
      var rec := records[id];
      ValidRecord(id);
      ValidDevice();
      ghost var before, t, dev := records, telemetry, Dev();
      CacheFailure(file, records, telemetry, budget, Dev(), foreign, telemetry.transferFailures + 1);
      hide CacheOk, DeviceOk, RamTotal, AccelTotal, Slice;
      records := records[id := rec.(state := LOADING_TO_ACCELERATOR, transferring := true)];
      var p := StoreOnDevice(rec.ram.value);
      if p == 0 {
        SetTwice(before, id, records[id], rec);
        records := records[id := rec];
        telemetry := telemetry.(transferFailures := telemetry.transferFailures + 1);
        assert before[id := rec] == before;
        return false;
      }
      SetTwice(before, id, records[id], OnDeviceNow(rec, p));
      records := records[id := OnDeviceNow(rec, p)];
      telemetry := UploadedTelemetry(telemetry, rec.region.size);
      CacheUpload(file, before, t, budget, dev, foreign, id, p, Dev());
      return true;
    }

    method UploadLocked(id: U64, cancel: bool) returns (ok: bool)
      requires Valid() && id in records && records[id].state == RESIDENT_IN_RAM
      modifies this`records, this`telemetry, accelerator
      ensures Valid() && Spares(old(records), records, {id}) && id in records
      ensures DemotesFairly(old(records), records, id)
      ensures ok ==> exists p :: p != 0 && records[id] == OnDeviceNow(old(records[id]), p)
      ensures !ok ==> records[id] == old(records[id])
    {
      if accelerator == null || records[id].ram.None? {
        CacheFailure(file, records, telemetry, budget, Dev(), foreign, telemetry.transferFailures + 1);
        telemetry := telemetry.(transferFailures := telemetry.transferFailures + 1);
        NothingTaken(records, id, records[id]);
        return false;
      }
      if cancel {
        NothingTaken(records, id, records[id]);
        return false;
      }
      ghost var before := records;
      var room, victims := MakeAccelRoom(records[id].region.size, id);
      DemotedSpares(before, victims, id);
      hide CacheOk, WithDemoted, LruOrder, AccelTotal, Unevictable, Evictable, Spares, OnDeviceNow, EvictsFairly,
        DemotesFairly;
      if !room {
        return false;
      }
      ghost var demoted := records;
      ok := CopyToDevice(id);
      OwnIsSpared(before, demoted, id, records[id]);
    }

    /** The record for a region; an id keeps the region it first came with. */
    method GetOrCreate(region: ModelRegion)
      requires Valid() && region.size > 0
      modifies this`records
      ensures Valid() && region.id in records
      ensures records ==
        if region.id in old(records) then old(records) else old(records)[region.id := NewRecord(region)]
    {
      if region.id !in records {
        CacheCreate(file, records, telemetry, budget, Dev(), foreign, region);
        hide CacheOk;
        records := records[region.id := NewRecord(region)];
      }
    }

    /** Stamp a record with the present time. */
    method Touch(id: U64, prefetched: bool)
      requires Valid() && id in records
      modifies this`records, this`clock
      ensures Valid()
      ensures clock >= old(clock)
      ensures records == old(records)[id := old(records[id]).(lastUsed := clock, prefetched := prefetched)]
    {
      var t := Now();
      CacheTouch(file, records, telemetry, budget, Dev(), foreign, id,
                 records[id].(lastUsed := t, prefetched := prefetched));
      hide CacheOk;
      records := records[id := records[id].(lastUsed := t, prefetched := prefetched)];
    }

    /**
     * The two steps behind ensureResident and prefetch: load to RAM unless there already, then
     * upload if the accelerator was asked for and the record is not there yet.
     */
    method Bring(id: U64, target: ResidencyTarget, cancelLoad: bool, cancelUpload: bool) returns (ok: bool)
      requires Valid() && id in records
      modifies this`records, this`telemetry, accelerator
      ensures Valid() && Spares(old(records), records, {id}) && id in records
      ensures Improves(old(records[id]), records[id])
      ensures ok ==> Resident(records[id], target)
      ensures Resident(old(records[id]), target) ==> ok
      ensures Fair(old(records), records, id) && records[id].lastUsed == old(records[id]).lastUsed
    {
      ghost var before := records;
      SparesItself(before, id);
      NothingTaken(before, id, before[id]);
      hide CacheOk, Spares, EvictsFairly, DemotesFairly, Fair;
      ok := true;
      if !InRam(records[id]) {
        ok := LoadToRam(id, cancelLoad);
        LoadImproves(file, before[id], records[id], ok);
        NothingTaken(records, id, records[id]);
        FairIfEvicted(before, records, records, id);
        if !ok {
          return false;
        }
      } else {
        FairIfEvicted(before, before, before, id);
      }
      if target == TargetAccelerator && !OnDevice(records[id]) {
        ghost var loaded := records;
        ok := UploadLocked(id, cancelUpload);
        UploadImproves(before[id], loaded[id], records[id]);
        SparesTransitive(before, loaded, records, {id});
        FairIfEvicted(before, loaded, records, id);
      }
    }

    // ------------------------------------------------------------------------- public operations

    /**
     * On success the record under the region's id is resident at the target, with the bytes the file
     * has for that record. It is the region's own record exactly if no other region came with the
     * same id before. Whatever the outcome, pinned records keep all they hold and the region's own
     * record loses nothing.
     */
    method EnsureResident(region: ModelRegion, target: ResidencyTarget, cancelLoad: bool,
                          cancelUpload: bool) returns (ok: bool)
      requires Valid()
      modifies this`records, this`telemetry, this`clock, accelerator
      ensures Valid()
      ensures region.size == 0 ==> !ok && records == old(records)
      ensures region.size > 0 ==> region.id in records && Spares(old(records), records, {region.id})
      ensures region.size > 0 && region.id in old(records) ==> Improves(old(records)[region.id], records[region.id])
      ensures region.size > 0 && region.id !in old(records) ==>
        records[region.id].region == region && records[region.id].pins == 0
      ensures ok ==> Resident(records[region.id], target) && Delivered(region.id, target)
      ensures ok ==> (records[region.id].region == region <==> Answers(old(records), region))
      ensures ok && Answers(old(records), region) ==>
        InFile(file, region) && records[region.id].ram == Some(Slice(file, region))
      ensures region.size > 0 && region.id in old(records) && Resident(old(records)[region.id], target) ==> ok
      ensures clock >= old(clock) && Restamped(old(records), records, region.id, ok, clock)
      ensures region.size > 0 ==> Fair(old(records), records, region.id)
    {
      hide CacheOk, Spares, Improves, RecordOk, Fair, Restamped, InFile, Slice;
      if region.size == 0 {
        NothingRestamped(records, region.id);
        return false;
      }
      var id := region.id;
      GetOrCreate(region);
      CreatedSpares(old(records), region);
      ghost var created := records;
      if records[id].transferring {
        assert false by { NotTransferring(id); }
        return false;
      }
      ok := Bring(id, target, cancelLoad, cancelUpload);
      CreatedThenBrought(old(records), created, records, region);
      ghost var brought := records;
      BroughtFairly(old(records), created, brought, region);
      if ok {
        Touch(id, records[id].prefetched);
        TouchedAfter(old(records), brought, records, id);
        UsedFairly(old(records), brought, records, id, clock);
        ValidDelivered(id, target);
      }
    }

    method Prefetch(region: ModelRegion, target: ResidencyTarget, cancelLoad: bool,
                    cancelUpload: bool) returns (ok: bool)
      requires Valid()
      modifies this`records, this`telemetry, this`clock, accelerator
      ensures Valid()
      ensures region.size == 0 || !prefetchEnabled ==> !ok && records == old(records)
      ensures region.size > 0 && prefetchEnabled ==> region.id in records && Spares(old(records), records, {region.id})
      ensures region.size > 0 && prefetchEnabled && region.id in old(records) ==>
        Improves(old(records)[region.id], records[region.id])
      ensures ok ==> Resident(records[region.id], target) && Delivered(region.id, target)
      ensures ok ==> (records[region.id].region == region <==> Answers(old(records), region))
      ensures ok && Answers(old(records), region) ==>
        InFile(file, region) && records[region.id].ram == Some(Slice(file, region))
      ensures region.size > 0 && prefetchEnabled && region.id in old(records) ==>
        (Resident(old(records)[region.id], target) ==> ok)
      ensures clock >= old(clock)
      ensures Restamped(old(records), records, region.id, ok && !Hit(old(records), region, target), clock)
      ensures records == old(records) || Fair(old(records), records, region.id)
    {
      hide CacheOk, Spares, Improves, RecordOk, Fair, Restamped, InFile, Slice;
      if !prefetchEnabled || region.size == 0 {
        NothingRestamped(records, region.id);
        return false;
      }
      var id := region.id;
      GetOrCreate(region);
      CreatedSpares(old(records), region);
      ghost var created := records;
      NothingRestamped(records, id);
      if Resident(records[id], target) {
        ValidDelivered(id, target);
        return true;
      }
      ok := Bring(id, target, cancelLoad, cancelUpload);
      CreatedThenBrought(old(records), created, records, region);
      ghost var brought := records;
      BroughtFairly(old(records), created, brought, region);
      if ok {
        Touch(id, true);
        TouchedAfter(old(records), brought, records, id);
        UsedFairly(old(records), brought, records, id, clock);
        ValidDelivered(id, target);
      }
    }

    /** What a record resident at a target holds: the file's bytes in RAM and, on the device, there too. */
    ghost predicate Delivered(id: U64, target: ResidencyTarget)
      reads this, accelerator
    {
      && id in records && InFile(file, records[id].region)
      && records[id].ram == Some(Slice(file, records[id].region))
      && (target == TargetAccelerator ==>
            && records[id].accel != 0 && records[id].accel in Dev().memory
            && Dev().memory[records[id].accel] == Slice(file, records[id].region))
    }

    lemma ValidDelivered(id: U64, target: ResidencyTarget)
      requires Valid() && id in records && Resident(records[id], target)
      ensures Delivered(id, target)
    {
      ValidRecord(id);
    }

    lemma NotTransferring(id: U64)
      requires Valid() && id in records
      ensures !records[id].transferring
    {
      ValidRecord(id);
    }

    lemma TouchedIsValid(id: U64, rec: Record)
      requires Valid() && id in records && Retouched(records[id], rec)
      ensures CacheOk(file, records[id := rec], telemetry, budget, Dev(), foreign)
    {
      CacheTouch(file, records, telemetry, budget, Dev(), foreign, id, rec);
    }

    method Pin(id: U64)
      requires Valid()
      modifies this`records
      ensures Valid()
      ensures records ==
        if id in old(records) then old(records)[id := old(records)[id].(pins := old(records)[id].pins + 1)]
        else old(records)
    {
      if id in records {
        var rec := records[id].(pins := records[id].pins + 1);
        TouchedIsValid(id, rec);
        hide CacheOk;
        records := records[id := rec];
      }
    }

    method Unpin(id: U64)
      requires Valid()
      modifies this`records
      ensures Valid()
      ensures records == if id in old(records) && old(records)[id].pins > 0
                         then old(records)[id := old(records)[id].(pins := old(records)[id].pins - 1)] else old(records)
    {
      if id in records && records[id].pins > 0 {
        var rec := records[id].(pins := records[id].pins - 1);
        TouchedIsValid(id, rec);
        hide CacheOk;
        records := records[id := rec];
      }
    }

    /** The answer is honest: a region reported resident is there, byte for byte. */
    method IsResident(id: U64, target: ResidencyTarget) returns (resident: bool)
      requires Valid()
      ensures resident <==>
        id in records && records[id].ram.Some? && (target == TargetAccelerator ==> records[id].accel != 0)
      ensures resident ==> Delivered(id, target)
    {
      if id !in records {
        return false;
      }
      resident := Resident(records[id], target);
      ValidRecord(id);
      if resident {
        ValidDelivered(id, target);
      }
    }

    method RamPointer(id: U64) returns (bytes: Option<seq<Byte>>)
      requires Valid()
      ensures bytes.Some? <==> id in records && InRam(records[id])
      ensures bytes.Some? ==> InFile(file, records[id].region) && bytes.value == Slice(file, records[id].region)
    {
      if id !in records || !InRam(records[id]) {
        return None;
      }
      ValidDelivered(id, TargetRam);
      return records[id].ram;
    }

    method Evict(id: U64) returns (ok: bool)
      requires Valid()
      modifies this`records, this`telemetry, accelerator
      ensures Valid()
      ensures ok <==> id !in old(records) || old(records[id]).pins == 0
      ensures records == if ok then old(records) - {id} else old(records)
    {
      ok := EvictLocked(id);
    }

    /** Give everything back, pinned or not; the device is left with what belongs to others. */
    method ReleaseAll()
      requires Valid()
      modifies this`records, this`telemetry, accelerator
      ensures Valid() && records == map[]
      ensures telemetry.ramBytes == 0 && telemetry.acceleratorBytes == 0 && Dev().used == foreign
    {
      ghost var left, t := records, telemetry;
      var todo := records.Keys;
      while todo != {}
        invariant CacheOk(file, left, t, budget, Dev(), foreign)
        invariant todo == left.Keys && todo <= records.Keys
        invariant forall id :: id in left ==> records[id] == left[id]
        invariant telemetry == old(telemetry)
        invariant t.peakRamBytes == telemetry.peakRamBytes && t.peakAcceleratorBytes == telemetry.peakAcceleratorBytes
        decreases |todo|
      {
        var id :| id in todo;
        var rec := records[id];
        CacheEvict(file, left, t, budget, Dev(), foreign, id);
        DeviceOf(file, left, t, budget, Dev(), foreign);
        hide CacheOk;
        if rec.accel != 0 && accelerator != null {
          accelerator.Release(rec.accel);
        }
        records := records[id := rec.(accel := 0, ram := None, state := NOT_RESIDENT)];
        left, t := left - {id}, EvictedTelemetry(t, rec);
        todo := todo - {id};
      }
      CacheCleared(file, t, budget, Dev(), foreign, telemetry);
      records := map[];
      telemetry := telemetry.(ramBytes := 0, acceleratorBytes := 0);
    }

    // -------------------------------------------------------------------------------------- runs

    method Perform(call: Call) returns (ok: bool)
      requires Valid()
      modifies this, accelerator
      ensures Valid() && clock >= old(clock)
      ensures forall id {:trigger KeepsPinned(old(records), records, id, [call])} ::
        KeepsPinned(old(records), records, id, [call])
      ensures Moment(call, ok, old(records), records, clock).Lawful()
    {
      hide CacheOk, Spares, Improves, KeepsPinned, Fair, Restamped, Moment.Lawful;
      ghost var before := records;
      ok := true;
      match call {
        case EnsureResident(region, target, cancelLoad, cancelUpload) =>
          ok := EnsureResident(region, target, cancelLoad, cancelUpload);
          BroughtKeepsPinned(before, records, region, call);
          RestampedIsLawful(Moment(call, ok, before, records, clock), ok);
        case Prefetch(region, target, cancelLoad, cancelUpload) =>
          ok := Prefetch(region, target, cancelLoad, cancelUpload);
          BroughtKeepsPinned(before, records, region, call);
          RestampedIsLawful(Moment(call, ok, before, records, clock), ok && !Hit(before, region, target));
        case _ =>
          ok := PerformOther(call);
      }
    }

    /** The calls that bring nothing in. */
    method PerformOther(call: Call) returns (ok: bool)
      requires Valid() && !call.EnsureResident? && !call.Prefetch?
      modifies this, accelerator
      ensures Valid() && clock == old(clock)
      ensures forall id {:trigger KeepsPinned(old(records), records, id, [call])} ::
        KeepsPinned(old(records), records, id, [call])
      ensures Moment(call, ok, old(records), records, clock).Lawful()
    {
      hide CacheOk, KeepsPinned, Moment.Lawful;
      ghost var before := records;
      ok := true;
      match call {
        case Pin(id) =>
          Pin(id);
        case Unpin(id) =>
          Unpin(id);
        case Evict(id) =>
          ok := Evict(id);
        case ReleaseAll =>
          ReleaseAll();
        case EnablePrefetch(enabled) =>
          prefetchEnabled := enabled;
        case FailNextUpload =>
          if accelerator != null {
            accelerator.failNextUpload := true;
          }
      }
      PinCallKeeps(before, records, call);
      OthersAreLawful(Moment(call, ok, before, records, clock));
    }

    /**
     * Any sequence of calls, with any failures: the cache stays coherent and accounted, and a record
     * whose pins, counted over the calls, never run out keeps every byte it holds at every level. The
     * stamps are the times of the last successful uses, and none lies in the future.
     */
    method PerformAll(calls: seq<Call>) returns (ghost trace: seq<Moment>)
      requires Valid()
      modifies this, accelerator
      ensures Valid() && clock >= old(clock)
      ensures forall id {:trigger KeepsPinned(old(records), records, id, calls)} ::
        KeepsPinned(old(records), records, id, calls)
      ensures |trace| == |calls| && forall i :: 0 <= i < |calls| ==> trace[i].call == calls[i]
      ensures Traced(old(records), trace) && End(old(records), trace) == records
      ensures forall id :: id in records ==> records[id].lastUsed == LastUse(old(records), trace, id)
      ensures Stamped(old(records), old(clock)) ==> Stamped(records, clock)
    {
      hide CacheOk, KeepsPinned, Moment.Lawful, Stamped, LastUse;
      var i := 0;
      trace := [];
      KeepsPinnedItself(records);
      assert calls[..0] == [];
      while i < |calls|
        invariant 0 <= i <= |calls|
        invariant Valid() && clock >= old(clock)
        invariant forall id {:trigger KeepsPinned(old(records), records, id, calls[..i])} ::
          KeepsPinned(old(records), records, id, calls[..i])
        invariant |trace| == i && forall k :: 0 <= k < i ==> trace[k].call == calls[k]
        invariant Traced(old(records), trace) && End(old(records), trace) == records
        invariant Stamped(old(records), old(clock)) ==> Stamped(records, clock)
      {
        ghost var before, was := records, clock;
        var ok := Perform(calls[i]);
        assert calls[..i + 1] == calls[..i] + [calls[i]];
        forall id {:trigger KeepsPinned(old(records), records, id, calls[..i + 1])}
          ensures KeepsPinned(old(records), records, id, calls[..i + 1])
        {
          KeepsPinnedNext(old(records), before, records, id, calls[..i], calls[i]);
        }
        ghost var m := Moment(calls[i], ok, before, records, clock);
        if Stamped(before, was) {
          LawfulIsStamped(m, was);
        }
        assert (trace + [m])[..i] == trace;
        trace := trace + [m];
        i := i + 1;
      }
      assert calls[..i] == calls;
      forall id | id in records
        ensures records[id].lastUsed == LastUse(old(records), trace, id)
      {
        StampIsLastUse(old(records), trace, id);
      }
    }
  }

  /** Eviction gives up, with the cache as it was, although evicting what it may would make room. */
  method GivesUpAtZero(m: ModelResidencyManager, needed: U64, skip: U64) returns (ok: bool)
    requires m.Valid() && HeldUpByZero(m.records, TargetRam, skip)
    requires m.budget < m.telemetry.ramBytes + needed < TWO_64
    modifies m`records, m`telemetry, m.accelerator
    ensures !ok && m.records == old(m.records) && m.Valid()
  {
    hide CacheOk, HeldUpByZero, Victims, OutOfReach, Unevictable, Without, WithDemoted, RamTotal, FitsDevice,
      NoneEvictable,
      IsLru, Exceeds, ZeroIsVictim, AccelTotal, DeviceOk;
    m.ValidDevice();
    ghost var victims;
    ok, victims := m.MakeRamRoom(needed, skip);
    NothingInReach(old(m.records), TargetRam, skip, victims);
  }

  /** The device's turn: here too eviction gives up at once. */
  method GivesUpAtZeroOnDevice(m: ModelResidencyManager, needed: U64, skip: U64) returns (ok: bool)
    requires m.Valid() && m.accelerator != null && HeldUpByZero(m.records, TargetAccelerator, skip)
    requires m.accelerator.Available() < needed
    modifies m`records, m`telemetry, m.accelerator
    ensures !ok && m.records == old(m.records) && m.Valid()
  {
    hide CacheOk, HeldUpByZero, Victims, OutOfReach, Unevictable, Without, WithDemoted, RamTotal, FitsDevice,
      NoneEvictable,
      IsLru, Exceeds, ZeroIsVictim, AccelTotal, DeviceOk;
    m.RoomOnDevice(needed);
    ghost var victims;
    ok, victims := m.MakeAccelRoom(needed, skip);
    NothingInReach(old(m.records), TargetAccelerator, skip, victims);
  }

  /** A second region under a cached id is reported resident, and its record holds the bytes of the first. */
  method ReusedId(m: ModelResidencyManager, first: ModelRegion, second: ModelRegion) returns (ok: bool)
    requires m.Valid() && first.id in m.records && m.records[first.id].region == first && InRam(m.records[first.id])
    requires second.id == first.id && second != first && second.size > 0
    modifies m`records, m`telemetry, m`clock, m.accelerator
    ensures ok && second.id in m.records && m.records[second.id].region == first
    ensures InFile(m.file, first) && m.records[second.id].ram == Some(Slice(m.file, first))
  {
    ok := m.EnsureResident(second, TargetRam, false, false);
  }
}
