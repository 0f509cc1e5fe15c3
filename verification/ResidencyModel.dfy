/**
 * What a model residency cache promises: every record agrees with the file it caches and with its
 * own state, and the byte counters are sums over the records.
 */
module ResidencyModel {
  import opened ModelTypes
  import opened Totals

  /** An address; 0 is the null pointer. */
  type Ptr = nat

  datatype ResidencyState =
    | NOT_RESIDENT | LOADING_TO_RAM | RESIDENT_IN_RAM | LOADING_TO_ACCELERATOR
    | RESIDENT_IN_ACCELERATOR | EVICTING | ERROR

  datatype Record = Record(
    region: ModelRegion,
    state: ResidencyState,
    ram: Option<seq<Byte>>,
    accel: Ptr,
    refs: nat,
    pins: nat,
    lastUsed: nat,
    transferring: bool,
    prefetched: bool)

  type Records = map<U64, Record>

  /** The accelerator's allocator: live blocks with their sizes and contents. */
  datatype Device = Device(capacity: nat, used: nat, allocs: map<Ptr, nat>, memory: map<Ptr, seq<Byte>>)

  ghost predicate DeviceOk(dev: Device) {
    && dev.used == Total(dev.allocs)
    && dev.used <= dev.capacity < TWO_64
    && dev.memory.Keys == dev.allocs.Keys
    && 0 !in dev.allocs
    && (forall p :: p in dev.allocs ==> |dev.memory[p]| == dev.allocs[p])
  }

  predicate InFile(file: seq<Byte>, region: ModelRegion) {
    region.offset + region.size <= |file|
  }

  function Slice(file: seq<Byte>, region: ModelRegion): seq<Byte>
    requires InFile(file, region)
  {
    file[region.offset..region.offset + region.size]
  }

  predicate InRam(rec: Record) {
    rec.state == RESIDENT_IN_RAM || rec.state == RESIDENT_IN_ACCELERATOR
  }

  predicate OnDevice(rec: Record) {
    rec.state == RESIDENT_IN_ACCELERATOR
  }

  predicate Resident(rec: Record, target: ResidencyTarget) {
    if target == TargetRam then InRam(rec) else OnDevice(rec)
  }

  /** A record at rest: state, buffers and the file agree. */
  ghost predicate RecordOk(file: seq<Byte>, id: U64, rec: Record, dev: Device) {
    && rec.region.id == id
    && rec.region.size > 0
    && rec.refs == 0
    && !rec.transferring
    && (InRam(rec) ==> InFile(file, rec.region) && rec.ram == Some(Slice(file, rec.region)))
    && (!InRam(rec) ==> rec.ram == None && (rec.state == NOT_RESIDENT || rec.state == ERROR))
    && (OnDevice(rec) ==>
          rec.accel in dev.allocs && dev.allocs[rec.accel] == rec.region.size
          && rec.accel in dev.memory && dev.memory[rec.accel] == Slice(file, rec.region))
    && (rec.accel != 0 <==> OnDevice(rec))
  }

  ghost predicate Coherent(file: seq<Byte>, records: Records, dev: Device) {
    && (forall id {:trigger records[id]} :: id in records ==> RecordOk(file, id, records[id], dev))
    && (forall i, j {:trigger records[i].accel, records[j].accel} ::
          i in records && j in records && i != j && records[i].accel != 0 ==>
          records[i].accel != records[j].accel)
  }

  function RamWeight(rec: Record): nat {
    if rec.ram.Some? then rec.region.size else 0
  }

  function AccelWeight(rec: Record): nat {
    if rec.accel != 0 then rec.region.size else 0
  }

  function RamWeights(records: Records): map<U64, nat> {
    map id | id in records :: RamWeight(records[id])
  }

  function AccelWeights(records: Records): map<U64, nat> {
    map id | id in records :: AccelWeight(records[id])
  }

  ghost function RamTotal(records: Records): nat {
    Total(RamWeights(records))
  }

  ghost function AccelTotal(records: Records): nat {
    Total(AccelWeights(records))
  }

  /**
   * Counters are sums over the records, within the budget and the capacity; `foreign` bytes of the
   * device belong to others.
   */
  ghost predicate Accounted(records: Records, ramBytes: nat, accelBytes: nat, budget: U64, dev: Device, foreign: nat) {
    && ramBytes == RamTotal(records)
    && accelBytes == AccelTotal(records)
    && ramBytes <= budget
    && dev.used == foreign + accelBytes
  }

  // ---------------------------------------------------------------------------------------------
  // Changing one record
  // ---------------------------------------------------------------------------------------------

  lemma TotalsOf(records: Records, id: U64)
    requires id in records
    ensures RamTotal(records) == RamWeight(records[id]) + RamTotal(records - {id})
    ensures AccelTotal(records) == AccelWeight(records[id]) + AccelTotal(records - {id})
  {
    TotalRemove(RamWeights(records), id);
    TotalRemove(AccelWeights(records), id);
    assert RamWeights(records) - {id} == RamWeights(records - {id});
    assert AccelWeights(records) - {id} == AccelWeights(records - {id});
  }

  lemma TotalsSet(records: Records, id: U64, rec: Record)
    ensures RamTotal(records[id := rec]) == RamWeight(rec) + RamTotal(records - {id})
    ensures AccelTotal(records[id := rec]) == AccelWeight(rec) + AccelTotal(records - {id})
  {
    TotalsOf(records[id := rec], id);
    assert records[id := rec] - {id} == records - {id};
  }

  /** A record may change as long as it stays right and takes no other record's block. */
  lemma CoherentSet(file: seq<Byte>, records: Records, dev: Device, id: U64, rec: Record)
    requires Coherent(file, records, dev) && RecordOk(file, id, rec, dev)
    requires rec.accel != 0 ==> forall j :: j in records && j != id ==> records[j].accel != rec.accel
    ensures Coherent(file, records[id := rec], dev)
  {
    hide RecordOk;
  }

  lemma CoherentRemove(file: seq<Byte>, records: Records, dev: Device, id: U64)
    requires Coherent(file, records, dev)
    ensures Coherent(file, records - {id}, dev)
  {
    hide RecordOk;
  }

  /** Blocks that no record points to may come and go. */
  lemma CoherentDevice(file: seq<Byte>, records: Records, dev: Device, dev': Device)
    requires Coherent(file, records, dev)
    requires forall id {:trigger records[id]} :: id in records && records[id].accel != 0 ==>
      var p := records[id].accel;
      && p in dev.allocs && p in dev.memory ==>
        p in dev'.allocs && dev'.allocs[p] == dev.allocs[p] && p in dev'.memory && dev'.memory[p] == dev.memory[p]
    ensures Coherent(file, records, dev')
  {
    forall id | id in records
      ensures RecordOk(file, id, records[id], dev')
    {
      assert RecordOk(file, id, records[id], dev);
    }
  }

  // ---------------------------------------------------------------------------------------------
  // The device
  // ---------------------------------------------------------------------------------------------

  function Allocated(dev: Device, p: Ptr, bytes: nat, contents: seq<Byte>): Device {
    dev.(used := dev.used + bytes, allocs := dev.allocs[p := bytes], memory := dev.memory[p := contents])
  }

  function Released(dev: Device, p: Ptr): Device
    requires p in dev.allocs && dev.allocs[p] <= dev.used
  {
    dev.(used := dev.used - dev.allocs[p], allocs := dev.allocs - {p}, memory := dev.memory - {p})
  }

  lemma AllocatedOk(dev: Device, p: Ptr, bytes: nat, contents: seq<Byte>)
    requires DeviceOk(dev) && p !in dev.allocs && p != 0 && |contents| == bytes && dev.used + bytes <= dev.capacity
    ensures DeviceOk(Allocated(dev, p, bytes, contents))
  {
    TotalUpdate(dev.allocs, p, bytes);
    assert dev.allocs - {p} == dev.allocs;
  }

  lemma ReleasedOk(dev: Device, p: Ptr)
    requires DeviceOk(dev) && p in dev.allocs
    ensures dev.allocs[p] <= dev.used && DeviceOk(Released(dev, p))
  {
    TotalRemove(dev.allocs, p);
  }

  // ---------------------------------------------------------------------------------------------
  // Eviction
  // ---------------------------------------------------------------------------------------------

  predicate Evictable(rec: Record, target: ResidencyTarget) {
    rec.pins == 0 && rec.refs == 0 && !rec.transferring && Resident(rec, target)
  }

  /** A least recently used record among those that may be evicted. */
  ghost predicate IsLru(records: Records, target: ResidencyTarget, skip: U64, id: U64) {
    && id in records && id != skip && Evictable(records[id], target)
    && forall j {:trigger records[j]} :: j in records && j != skip && Evictable(records[j], target) ==>
         records[id].lastUsed <= records[j].lastUsed
  }

  ghost predicate NoneEvictable(records: Records, target: ResidencyTarget, skip: U64) {
    forall j {:trigger records[j]} :: j in records ==> j == skip || !Evictable(records[j], target)
  }

  function Elements<T>(s: seq<T>): set<T> {
    set x | x in s
  }

  /** What is left when the first victims have been evicted. */
  function Without(records: Records, victims: seq<U64>): Records {
    records - Elements(victims)
  }

  function Demoted(rec: Record): Record {
    rec.(accel := 0, state := RESIDENT_IN_RAM)
  }

  /** What is left when the victims have lost their device copies only. */
  function WithDemoted(records: Records, victims: seq<U64>): Records {
    map id | id in records :: if id in victims then Demoted(records[id]) else records[id]
  }

  /** Each victim was least recently used when its turn came. */
  ghost predicate LruOrder(records: Records, target: ResidencyTarget, skip: U64, victims: seq<U64>) {
    forall k {:trigger victims[k]} :: 0 <= k < |victims| ==>
      if target == TargetRam then IsLru(Without(records, victims[..k]), target, skip, victims[k])
      else IsLru(WithDemoted(records, victims[..k]), target, skip, victims[k])
  }

  /** The records that eviction can never touch. */
  function Unevictable(records: Records, target: ResidencyTarget, skip: U64): Records {
    map id | id in records && (id == skip || !Evictable(records[id], target)) :: records[id]
  }

  /** Record 0 may be evicted; but when it is chosen, its id reads as "no victim". */
  predicate ZeroIsVictim(records: Records, target: ResidencyTarget, skip: U64) {
    0 in records && skip != 0 && Evictable(records[0], target)
  }

  /** Evictable, and used before record 0 if that one is evictable too; `ties` lets equal stamps in. */
  predicate Ahead(records: Records, target: ResidencyTarget, skip: U64, ties: bool, id: U64) {
    && id in records && id != skip && Evictable(records[id], target)
    && (ZeroIsVictim(records, target, skip) ==>
          id != 0
          && (records[id].lastUsed < records[0].lastUsed || (ties && records[id].lastUsed == records[0].lastUsed)))
  }

  /** The records eviction does not get to: those it may not touch, and those behind an evictable record 0. */
  function OutOfReach(records: Records, target: ResidencyTarget, skip: U64, ties: bool): Records {
    map id | id in records && !Ahead(records, target, skip, ties, id) :: records[id]
  }

  /** No record that may be evicted has the stamp of record 0. */
  ghost predicate ZeroIsUntied(records: Records, target: ResidencyTarget, skip: U64) {
    0 in records ==> forall id {:trigger records[id]} ::
      id in records && id != 0 && id != skip && Evictable(records[id], target) ==>
        records[id].lastUsed != records[0].lastUsed
  }

  lemma ReachIsExact(records: Records, target: ResidencyTarget, skip: U64)
    ensures !ZeroIsVictim(records, target, skip) ==>
      forall ties :: OutOfReach(records, target, skip, ties) == Unevictable(records, target, skip)
    ensures ZeroIsUntied(records, target, skip) ==>
      OutOfReach(records, target, skip, true) == OutOfReach(records, target, skip, false)
  {
  }

  /**
   * What an operation may do to records other than its own: evict or demote unpinned ones, and
   * nothing else. Pinned records keep everything.
   */
  ghost predicate Spares(before: Records, after: Records, own: set<U64>) {
    && (forall j {:trigger after[j]} :: j in after && j !in own ==>
          j in before && (after[j] == before[j] || (before[j].pins == 0 && after[j] == Demoted(before[j]))))
    && (forall j {:trigger before[j]} ::
          j in before && j !in own && before[j].pins > 0 ==> j in after && after[j] == before[j])
  }

  lemma SparesTransitive(a: Records, b: Records, c: Records, own: set<U64>)
    requires Spares(a, b, own) && Spares(b, c, own)
    ensures Spares(a, c, own)
  {
  }

  /** A record that eviction may take bytes from. */
  predicate Idle(rec: Record) {
    rec.pins == 0 && rec.refs == 0 && !rec.transferring
  }

  /** Records went, none of them used later than an idle one with RAM bytes that stayed; the rest is as it was. */
  ghost predicate EvictsFairly(before: Records, after: Records, own: U64) {
    && (forall j {:trigger after[j]} :: j in after && j != own ==> j in before && after[j] == before[j])
    && (forall v, w {:trigger before[v], after[w]} ::
          v in before && v !in after && v != own && w in after && w != own && Idle(after[w]) && InRam(after[w]) ==>
            before[v].lastUsed <= after[w].lastUsed)
  }

  /** Device copies went, none of them used later than an idle one that stayed; the rest is as it was. */
  ghost predicate DemotesFairly(before: Records, after: Records, own: U64) {
    && after.Keys == before.Keys
    && (forall j {:trigger after[j]} :: j in after && j != own ==>
          after[j] == before[j] || (OnDevice(before[j]) && after[j] == Demoted(before[j])))
    && (forall v, w {:trigger before[v], after[w]} ::
          v in before && v != own && OnDevice(before[v]) && !OnDevice(after[v])
          && w in after && w != own && Idle(after[w]) && OnDevice(after[w]) ==>
            before[v].lastUsed <= after[w].lastUsed)
  }

  /** First some records go, then some device copies. */
  ghost predicate Fair(before: Records, after: Records, own: U64) {
    exists mid: Records :: EvictsFairly(before, mid, own) && DemotesFairly(mid, after, own)
  }

  /** What fairness means for a pair of records, whichever way bytes were taken. */
  lemma FairToAll(before: Records, after: Records, own: U64, v: U64, w: U64)
    requires Fair(before, after, own) && v in before && v != own && w in after && w != own && after[w].pins == 0
    requires after[w].refs == 0 && !after[w].transferring
    ensures w in before && after[w].lastUsed == before[w].lastUsed
    ensures v !in after && InRam(after[w]) ==> before[v].lastUsed <= after[w].lastUsed
    ensures v in after && OnDevice(before[v]) && !OnDevice(after[v]) && OnDevice(after[w]) ==>
      before[v].lastUsed <= after[w].lastUsed
  {
    var mid: Records :| EvictsFairly(before, mid, own) && DemotesFairly(mid, after, own);
    assert w in mid && mid[w] == before[w] && after[w].lastUsed == mid[w].lastUsed;
    if v in after {
      assert mid[v] == before[v];
    } else {
      assert v !in mid;
      assert Idle(mid[w]) && (InRam(after[w]) ==> InRam(mid[w]));
    }
  }

  lemma NothingTaken(records: Records, own: U64, rec: Record)
    ensures EvictsFairly(records, records, own) && DemotesFairly(records, records, own)
    ensures EvictsFairly(records, records[own := rec], own)
    ensures own in records ==> DemotesFairly(records, records[own := rec], own)
  {
  }
}
