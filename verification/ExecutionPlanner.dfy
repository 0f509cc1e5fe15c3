/** Choosing an execution mode, a residency strategy and an engine for a model. */
module ExecutionPlanners {
  import opened ModelTypes

  datatype Mode = Cpu | Vulkan | Cuda | Hybrid | Unsupported

  datatype Strategy = Auto | FullResident | PartialResident | Streaming | CpuFallback

  datatype Device = Device(usable: bool, capacity: U64)

  /** The devices of a report that the planner looks for; a missing one is not usable. */
  datatype Report = Report(cpu: Device, vulkan: Device, cuda: Device, streamingFeasible: bool)

  /** An engine: its place among the sorted keys, whether it may run the workload, and its backends. */
  datatype Candidate = Candidate(key: nat, eligible: bool, cpu: bool, vulkan: bool, cuda: bool)

  datatype Config = Config(accelerator: bool, partial: bool, streaming: bool, cpuFallback: bool)

  /** What is planned for: a known format, the memory the model needs when that is known, and the engines. */
  datatype Request = Request(formatKnown: bool, memory: Option<U64>, engines: seq<Candidate>, config: Config)

  datatype Plan = Plan(viable: bool, executable: bool, mode: Mode, residency: Strategy,
                       engine: Option<Candidate>, budget: nat)

  const UNSUPPORTED := Plan(false, false, Unsupported, Auto, None, 0)

  // ---------------------------------------------------------------------------------------------
  // Conditions
  // ---------------------------------------------------------------------------------------------

  predicate HasBackend(c: Candidate, mode: Mode) {
    match mode
    case Cpu => c.cpu
    case Vulkan => c.vulkan
    case Cuda => c.cuda
    case Hybrid => c.cpu && (c.vulkan || c.cuda)
    case Unsupported => false
  }

  predicate Runs(c: Candidate, mode: Mode) {
    c.eligible && HasBackend(c, mode)
  }

  predicate HasEngine(engines: seq<Candidate>, mode: Mode) {
    exists c :: c in engines && Runs(c, mode)
  }

  /** The first engine, by key, of those that run in a mode. */
  predicate FirstFor(engines: seq<Candidate>, e: Candidate, mode: Mode) {
    e in engines && Runs(e, mode) && forall c :: c in engines && Runs(c, mode) ==> e.key <= c.key
  }

  predicate MemoryKnown(r: Request) {
    r.memory.Some? && r.memory.value > 0
  }

  predicate Fits(d: Device, bytes: nat) {
    d.usable && d.capacity >= bytes
  }

  const PERCENT := 15

  /** The 64-bit products that compare a capacity with a model. */
  function Hundredfold(bytes: U64): U64 {
    bytes * 100 % TWO_64
  }

  function Threshold(bytes: U64): U64 {
    bytes * PERCENT % TWO_64
  }

  /** At least 15 percent of the model, as 64-bit arithmetic compares it. */
  predicate Partly(d: Device, bytes: U64) {
    d.usable && 0 < d.capacity < bytes && Hundredfold(d.capacity) >= Threshold(bytes)
  }

  /** An accelerator can hold the model, or enough of it. */
  predicate Accelerates(r: Request, d: Device, mode: Mode)
    requires MemoryKnown(r)
  {
    && r.config.accelerator && HasEngine(r.engines, mode)
    && (Fits(d, r.memory.value) || (r.config.partial && Partly(d, r.memory.value)))
  }

  predicate Plannable(r: Request) {
    && (r.config.accelerator || r.config.partial || r.config.streaming || r.config.cpuFallback)
    && r.formatKnown && MemoryKnown(r)
  }

  /** A plan for streaming, which is never executable, is preferred to the fallback. */
  predicate StreamingShadows(r: Request, report: Report) {
    && r.config.streaming && report.streamingFeasible && r.config.accelerator
    && (report.vulkan.usable || report.cuda.usable)
  }

  /** When a request can be executed. */
  predicate CanExecute(r: Request, report: Report) {
    && Plannable(r)
    && (|| Accelerates(r, report.cuda, Cuda)
        || Accelerates(r, report.vulkan, Vulkan)
        || (&& r.config.cpuFallback && Fits(report.cpu, r.memory.value) && HasEngine(r.engines, Cpu)
            && !StreamingShadows(r, report)))
  }

  function DeviceFor(report: Report, backend: Mode): Device {
    match backend
    case Cuda => report.cuda
    case Vulkan => report.vulkan
    case _ => report.cpu
  }

  /** Whether a model can be run this way on this backend. */
  predicate Feasible(r: Request, report: Report, residency: Strategy, backend: Mode)
    requires MemoryKnown(r)
  {
    var d, bytes := DeviceFor(report, backend), r.memory.value;
    match residency
    case Auto => false
    case FullResident =>
      (backend.Cuda? || backend.Vulkan?) && r.config.accelerator && Fits(d, bytes) && HasEngine(r.engines, backend)
    case PartialResident =>
      && (backend.Cuda? || backend.Vulkan?) && r.config.accelerator && r.config.partial && Partly(d, bytes)
      && HasEngine(r.engines, backend)
    case Streaming =>
      && backend == (if report.vulkan.usable then Vulkan else Cuda) && StreamingShadows(r, report)
      && (HasEngine(r.engines, Cuda) || HasEngine(r.engines, Vulkan) || HasEngine(r.engines, Cpu))
    case CpuFallback => backend.Cpu? && r.config.cpuFallback && Fits(d, bytes) && HasEngine(r.engines, Cpu)
  }

  /** The order of preference: the lower the better. */
  function Place(residency: Strategy, backend: Mode): nat {
    match residency
    case FullResident => if backend.Cuda? then 0 else 1
    case PartialResident => if backend.Cuda? then 2 else 3
    case Streaming => 4
    case _ => 5
  }

  /** Of all that is feasible, the most preferred. */
  ghost predicate Best(r: Request, report: Report, residency: Strategy, backend: Mode)
    requires MemoryKnown(r)
  {
    && Feasible(r, report, residency, backend)
    && forall s, b {:trigger Feasible(r, report, s, b)} ::
         Feasible(r, report, s, b) ==> Place(residency, backend) <= Place(s, b)
  }

  /** Everything but full residency on an accelerator or the CPU shares the work between the two. */
  function ModeOf(residency: Strategy, backend: Mode): Mode {
    if residency.FullResident? || residency.CpuFallback? then backend else Hybrid
  }

  // ---------------------------------------------------------------------------------------------
  // The decision
  // ---------------------------------------------------------------------------------------------

  /** The eligible engine with a backend whose key comes first. */
  method SelectEngine(engines: seq<Candidate>, mode: Mode) returns (best: Option<Candidate>)
    ensures best.Some? <==> HasEngine(engines, mode)
    ensures best.Some? ==> FirstFor(engines, best.value, mode)
  {
    best := None;
    var i := 0;
    while i < |engines|
      invariant 0 <= i <= |engines|
      invariant best.None? ==> forall k :: 0 <= k < i ==> !Runs(engines[k], mode)
      invariant best.Some? ==> best.value in engines && Runs(best.value, mode)
      invariant best.Some? ==> forall k :: 0 <= k < i && Runs(engines[k], mode) ==> best.value.key <= engines[k].key
    {
      var c := engines[i];
      if Runs(c, mode) && (best.None? || c.key < best.value.key) {
        best := Some(c);
      }
      i := i + 1;
    }
    if best.None? {
      forall c | c in engines ensures !Runs(c, mode) {
        var k :| 0 <= k < |engines| && engines[k] == c;
      }
    }
  }

  datatype Choice = Choice(mode: Mode, residency: Strategy, engineMode: Mode, budget: nat, executable: bool)

  method TryFull(r: Request, d: Device, mode: Mode, chosen: Option<Choice>) returns (c: Option<Choice>)
    requires MemoryKnown(r)
    ensures chosen.Some? ==> c == chosen
    ensures chosen.None? ==> c == if r.config.accelerator && Fits(d, r.memory.value) && HasEngine(r.engines, mode)
                                  then Some(Choice(mode, FullResident, mode, d.capacity, true)) else None
  {
    c := chosen;
    if chosen.Some? || !r.config.accelerator || !Fits(d, r.memory.value) {
      return;
    }
    var engine := SelectEngine(r.engines, mode);
    if engine.None? {
      return;
    }
    c := Some(Choice(mode, FullResident, mode, d.capacity, true));
  }

  method TryPartial(r: Request, d: Device, mode: Mode, chosen: Option<Choice>) returns (c: Option<Choice>)
    requires MemoryKnown(r)
    ensures chosen.Some? ==> c == chosen
    ensures chosen.None? ==>
      c == if r.config.accelerator && r.config.partial && Partly(d, r.memory.value) && HasEngine(r.engines, mode)
           then Some(Choice(Hybrid, PartialResident, mode, d.capacity, true)) else None
  {
    c := chosen;
    if chosen.Some? || !r.config.accelerator || !r.config.partial || !Partly(d, r.memory.value) {
      return;
    }
    var engine := SelectEngine(r.engines, mode);
    if engine.None? {
      return;
    }
    c := Some(Choice(Hybrid, PartialResident, mode, d.capacity, true));
  }

  /** Full residency first, CUDA before Vulkan; then partial; then streaming; then the CPU. */
  method Choose(r: Request, report: Report) returns (choice: Option<Choice>)
    requires Plannable(r)
    ensures choice.Some? ==> Best(r, report, choice.value.residency, choice.value.engineMode)
    ensures choice.None? ==> forall residency, backend :: !Feasible(r, report, residency, backend)
    ensures choice.Some? ==> var c := choice.value;
      && c.mode == ModeOf(c.residency, c.engineMode) && c.budget == DeviceFor(report, c.engineMode).capacity
      && (c.executable <==> !c.residency.Streaming?)
    ensures choice.Some? && choice.value.executable <==> CanExecute(r, report)
  {
    choice := TryFull(r, report.cuda, Cuda, None);
    choice := TryFull(r, report.vulkan, Vulkan, choice);
    choice := TryPartial(r, report.cuda, Cuda, choice);
    choice := TryPartial(r, report.vulkan, Vulkan, choice);
    if choice.None? && StreamingShadows(r, report) {
      var engine := SelectEngine(r.engines, Hybrid);
      if engine.None? {
        engine := SelectEngine(r.engines, Vulkan);
      }
      if engine.None? {
        engine := SelectEngine(r.engines, Cuda);
      }
      if engine.None? {
        engine := SelectEngine(r.engines, Cpu);
      }
      if engine.Some? {
        var mode := if report.vulkan.usable then Vulkan else Cuda;
        var device := if report.vulkan.usable then report.vulkan else report.cuda;
        choice := Some(Choice(Hybrid, Streaming, mode, device.capacity, false));
      }
    }
    if choice.None? && r.config.cpuFallback && Fits(report.cpu, r.memory.value) {
      var engine := SelectEngine(r.engines, Cpu);
      if engine.Some? {
        choice := Some(Choice(Cpu, CpuFallback, Cpu, report.cpu.capacity, true));
      }
    }
  }

  /** What a plan that can be carried out promises about its backend, device and engine. */
  ghost predicate Carries(r: Request, report: Report, plan: Plan, backend: Mode)
    requires MemoryKnown(r)
  {
    && Best(r, report, plan.residency, backend)
    && plan.mode == ModeOf(plan.residency, backend) && plan.budget == DeviceFor(report, backend).capacity
    && plan.engine.Some?
    && (FirstFor(r.engines, plan.engine.value, backend)
        || (plan.residency.Streaming? && !HasEngine(r.engines, backend)
            && FirstFor(r.engines, plan.engine.value, Hybrid)))
  }

  /** What each strategy is planned on: switches, devices, amounts and the engine's backends. */
  predicate Grounded(r: Request, report: Report, plan: Plan)
    requires MemoryKnown(r) && plan.engine.Some?
  {
    var bytes, config, e := r.memory.value, r.config, plan.engine.value;
    && e in r.engines && e.eligible
    && match plan.residency
       case FullResident =>
         && config.accelerator
         && (|| (plan.mode == Cuda && report.cuda.usable && report.cuda.capacity >= bytes && e.cuda)
             || (plan.mode == Vulkan && report.vulkan.usable && report.vulkan.capacity >= bytes && e.vulkan))
       case PartialResident =>
         && config.accelerator && config.partial && plan.mode == Hybrid
         && plan.budget * 100 % TWO_64 >= bytes * 15 % TWO_64 && 0 < plan.budget < bytes
         && (|| (report.cuda.usable && plan.budget == report.cuda.capacity && e.cuda)
             || (report.vulkan.usable && plan.budget == report.vulkan.capacity && e.vulkan))
       case Streaming =>
         && config.accelerator && config.streaming && report.streamingFeasible && plan.mode == Hybrid
         && (|| (report.vulkan.usable && plan.budget == report.vulkan.capacity)
             || (!report.vulkan.usable && report.cuda.usable && plan.budget == report.cuda.capacity))
         && (e.vulkan || e.cuda)
       case CpuFallback =>
         config.cpuFallback && plan.mode == Cpu && report.cpu.usable && report.cpu.capacity >= bytes && e.cpu
       case Auto => false
  }

  /** The order of preference: a whole model before a part of it, that before streaming, and CUDA before Vulkan. */
  predicate Ranked(r: Request, report: Report, plan: Plan)
    requires MemoryKnown(r)
  {
    var bytes := r.memory.value;
    var cuda := r.config.accelerator && report.cuda.usable && exists e :: e in r.engines && e.eligible && e.cuda;
    var vulkan := r.config.accelerator && report.vulkan.usable && exists e :: e in r.engines && e.eligible && e.vulkan;
    && (cuda && report.cuda.capacity >= bytes ==> plan.residency == FullResident && plan.mode == Cuda)
    && (vulkan && report.vulkan.capacity >= bytes ==> plan.residency == FullResident)
    && (cuda && r.config.partial && report.cuda.capacity > 0
        && report.cuda.capacity * 100 % TWO_64 >= bytes * 15 % TWO_64 ==>
          plan.residency == FullResident || (plan.residency == PartialResident && plan.budget == report.cuda.capacity))
    && (vulkan && r.config.partial && report.vulkan.capacity > 0
        && report.vulkan.capacity * 100 % TWO_64 >= bytes * 15 % TWO_64 ==>
          plan.residency == FullResident || plan.residency == PartialResident)
    && (plan.residency == CpuFallback ==>
          !(r.config.accelerator && r.config.streaming && report.streamingFeasible
            && (report.vulkan.usable || report.cuda.usable)))
  }

  lemma BestIsRanked(r: Request, report: Report, plan: Plan, backend: Mode)
    requires Plannable(r) && Carries(r, report, plan, backend)
    ensures Ranked(r, report, plan)
  {
    if e :| e in r.engines && e.eligible && e.cuda {
      assert Runs(e, Cuda) && HasEngine(r.engines, Cuda);
      assert Feasible(r, report, FullResident, Cuda) ==> Place(plan.residency, backend) == 0;
      assert Feasible(r, report, PartialResident, Cuda) ==> Place(plan.residency, backend) <= 2;
    }
    if e :| e in r.engines && e.eligible && e.vulkan {
      assert Runs(e, Vulkan) && HasEngine(r.engines, Vulkan);
      assert Feasible(r, report, FullResident, Vulkan) ==> Place(plan.residency, backend) <= 1;
      assert Feasible(r, report, PartialResident, Vulkan) ==> Place(plan.residency, backend) <= 3;
    }
    if plan.residency.CpuFallback? {
      assert !Feasible(r, report, Streaming, if report.vulkan.usable then Vulkan else Cuda);
    }
  }

  /** When a request can be executed, switch by switch and amount by amount. */
  lemma ExecutableMeans(r: Request, report: Report)
    ensures CanExecute(r, report) <==>
      && r.formatKnown && r.memory.Some? && r.memory.value > 0
      && var bytes, config := r.memory.value, r.config;
        || (&& config.accelerator && report.cuda.usable && (exists e :: e in r.engines && e.eligible && e.cuda)
            && (report.cuda.capacity >= bytes
                || (config.partial && report.cuda.capacity > 0
                    && report.cuda.capacity * 100 % TWO_64 >= bytes * 15 % TWO_64)))
        || (&& config.accelerator && report.vulkan.usable && (exists e :: e in r.engines && e.eligible && e.vulkan)
            && (report.vulkan.capacity >= bytes
                || (config.partial && report.vulkan.capacity > 0
                    && report.vulkan.capacity * 100 % TWO_64 >= bytes * 15 % TWO_64)))
        || (&& config.cpuFallback && report.cpu.usable && report.cpu.capacity >= bytes
            && (exists e :: e in r.engines && e.eligible && e.cpu)
            && !(config.accelerator && config.streaming && report.streamingFeasible
                 && (report.vulkan.usable || report.cuda.usable)))
  {
    if e :| e in r.engines && e.eligible && e.cuda {
      assert Runs(e, Cuda);
    }
    if e :| e in r.engines && e.eligible && e.vulkan {
      assert Runs(e, Vulkan);
    }
    if e :| e in r.engines && e.eligible && e.cpu {
      assert Runs(e, Cpu);
    }
  }

  /**
   * The plan is the most preferred of all that is feasible, with the memory of its own device and the
   * first engine for its own backend. It is executable exactly when something executable is not
   * shadowed by streaming, and viable unless nothing is feasible or streaming finds no engine.
   */
  method MakePlan(r: Request, report: Report) returns (plan: Plan)
    ensures plan.executable <==> CanExecute(r, report)
    ensures plan.viable ==> Plannable(r) && exists backend :: Carries(r, report, plan, backend)
    ensures plan.viable ==> r.formatKnown && Grounded(r, report, plan) && Ranked(r, report, plan)
    ensures plan.viable <==>
      && Plannable(r)
      && exists s, b :: Best(r, report, s, b) && (HasEngine(r.engines, b) || HasEngine(r.engines, Hybrid))
    ensures plan.executable <==> plan.viable && !plan.residency.Streaming?
  {
    if !Plannable(r) {
      return UNSUPPORTED;
    }
    var any := AnyEligible(r.engines);
    if !any {
      return UNSUPPORTED;
    }
    var choice := Choose(r, report);
    if choice.None? {
      return UNSUPPORTED;
    }
    var c := choice.value;
    var engine := SelectEngine(r.engines, c.engineMode);
    if engine.None? && c.mode.Hybrid? {
      engine := SelectEngine(r.engines, Hybrid);
    }
    if engine.None? {
      return UNSUPPORTED;
    }
    plan := Plan(true, c.executable, c.mode, c.residency, engine, c.budget);
    assert Carries(r, report, plan, c.engineMode);
    BestIsRanked(r, report, plan, c.engineMode);
  }

  method AnyEligible(engines: seq<Candidate>) returns (any: bool)
    ensures any <==> exists c :: c in engines && c.eligible
  {
    any := false;
    var i := 0;
    while i < |engines|
      invariant 0 <= i <= |engines|
      invariant any <==> exists k :: 0 <= k < i && engines[k].eligible
    {
      any := any || engines[i].eligible;
      i := i + 1;
    }
    if any {
      var k :| 0 <= k < |engines| && engines[k].eligible;
      assert engines[k] in engines;
    }
  }

  // ---------------------------------------------------------------------------------------------
  // More memory
  // ---------------------------------------------------------------------------------------------

  predicate Grown(d: Device, d': Device) {
    d'.usable == d.usable && d'.capacity >= d.capacity
  }

  /** The same report with at least as much memory on every device. */
  predicate MoreMemory(a: Report, b: Report) {
    Grown(a.cpu, b.cpu) && Grown(a.vulkan, b.vulkan) && Grown(a.cuda, b.cuda)
    && a.streamingFeasible == b.streamingFeasible
  }

  /**
   * Whether the comparison can turn around for a model of this size: some smaller capacity is large
   * enough to wrap, and the model's own product is not above every multiple of four.
   */
  predicate Wraps(bytes: U64) {
    && bytes > 0 && (bytes - 1) * 100 >= TWO_64
    && Threshold(bytes) <= TWO_64 - 4
  }

  /** The requests for which partial residency can be planned at all, for a model of such a size. */
  predicate MayLose(r: Request) {
    && Plannable(r) && r.config.accelerator && r.config.partial
    && (HasEngine(r.engines, Cuda) || HasEngine(r.engines, Vulkan))
    && Wraps(r.memory.value)
  }

  lemma GrownStillHelps(d: Device, d': Device, bytes: U64)
    requires Grown(d, d') && bytes > 0 && !Wraps(bytes)
    ensures Fits(d, bytes) ==> Fits(d', bytes)
    ensures Partly(d, bytes) ==> Fits(d', bytes) || Partly(d', bytes)
  {
    hide Hundredfold, Threshold;
    if d'.capacity < bytes {
      if d'.capacity * 100 < TWO_64 {
        HundredfoldGrows(d.capacity, d'.capacity);
      }
      HundredfoldBelow(d.capacity);
    }
  }

  lemma HundredfoldGrows(c: U64, c': U64)
    requires c <= c' && c' * 100 < TWO_64
    ensures Hundredfold(c) <= Hundredfold(c')
  {
  }

  /** The product is a multiple of four. */
  lemma HundredfoldBelow(c: U64)
    ensures Hundredfold(c) <= TWO_64 - 4
  {
    var k := c * 100 / TWO_64;
    assert Hundredfold(c) == 4 * (25 * c - k * (TWO_64 / 4));
  }

  /** A capacity at which one more byte wraps the product from above the model's to below it. */
  lemma Crossing(bytes: U64) returns (c: U64)
    requires Wraps(bytes)
    ensures 0 < c && c + 1 < bytes
    ensures Hundredfold(c + 1) < Threshold(bytes) <= Hundredfold(c)
  {
    var t := Threshold(bytes);
    var k := bytes * PERCENT / TWO_64;
    assert bytes * PERCENT == k * TWO_64 + t && k < PERCENT;
    assert t > 0 by { ThresholdIsPositive(bytes, k); }
    if 84 < t <= TWO_64 - 16 {
      c := 184467440737095516;
    } else if t > TWO_64 - 16 {
      c := 3504881374004814807;
    } else if t > 4 {
      c := 1106804644422573096;
    } else {
      c := 0x4000_0000_0000_0000 - 1;
      assert k >= 11 by { SmallThreshold(bytes, k, t); }
    }
  }

  lemma ThresholdIsPositive(bytes: nat, k: nat)
    requires 0 < bytes < TWO_64 && k < PERCENT
    ensures bytes * PERCENT != k * TWO_64
  {
    assert k * TWO_64 == k * 1229782938247303441 * PERCENT + k;
  }

  lemma SmallThreshold(bytes: nat, k: nat, t: nat)
    requires 0 < bytes && bytes * PERCENT == k * TWO_64 + t && k < PERCENT && 0 < t <= 4
    ensures k >= 11
  {
    assert k * TWO_64 + t == k * 1229782938247303441 * PERCENT + (k + t);
  }

  /** A report with one device. */
  function Only(mode: Mode, capacity: U64): Report {
    var absent, device := Device(false, 0), Device(true, capacity);
    Report(absent, if mode.Vulkan? then device else absent, if mode.Cuda? then device else absent, false)
  }

  lemma OnlyExecutes(r: Request, mode: Mode, capacity: U64)
    requires MayLose(r) && (mode.Cuda? || mode.Vulkan?) && HasEngine(r.engines, mode) && 0 < capacity < r.memory.value
    ensures CanExecute(r, Only(mode, capacity)) <==> Hundredfold(capacity) >= Threshold(r.memory.value)
  {
    hide HasEngine;
  }

  /**
   * Adding memory to any device never turns an executable plan into one that is not: exactly when
   * partial residency is out of the question or the model's size cannot make the comparison turn.
   */
  lemma MoreMemoryKeepsExecutable(r: Request)
    ensures (forall a, b :: MoreMemory(a, b) && CanExecute(r, a) ==> CanExecute(r, b)) <==> !MayLose(r)
  {
    if MayLose(r) {
      var mode := if HasEngine(r.engines, Cuda) then Cuda else Vulkan;
      var c := Crossing(r.memory.value);
      OnlyExecutes(r, mode, c);
      OnlyExecutes(r, mode, c + 1);
      assert MoreMemory(Only(mode, c), Only(mode, c + 1));
    } else {
      forall a, b | MoreMemory(a, b) && CanExecute(r, a)
        ensures CanExecute(r, b)
      {
        StillExecutes(r, a, b);
      }
    }
  }

  lemma StillExecutes(r: Request, a: Report, b: Report)
    requires !MayLose(r) && MoreMemory(a, b) && CanExecute(r, a)
    ensures CanExecute(r, b)
  {
    hide HasEngine, Wraps;
    if !Wraps(r.memory.value) {
      GrownStillHelps(a.cuda, b.cuda, r.memory.value);
      GrownStillHelps(a.vulkan, b.vulkan, r.memory.value);
    }
  }

  /** A model of 2^61 bytes, on a CUDA device alone. */
  const HUGE := Request(true, Some(0x2000_0000_0000_0000),
                        [Candidate(0, true, false, false, true)], Config(true, true, false, false))

  /** Where the comparison wraps, one more byte of memory loses the plan. */
  lemma WrapLosesThePlan()
    ensures var c := 184467440737095516;
      && MoreMemory(Only(Cuda, c), Only(Cuda, c + 1))
      && CanExecute(HUGE, Only(Cuda, c)) && !CanExecute(HUGE, Only(Cuda, c + 1))
  {
    assert HUGE.engines[0] in HUGE.engines && Runs(HUGE.engines[0], Cuda);
    assert HasEngine(HUGE.engines, Cuda);
    assert !HasEngine(HUGE.engines, Vulkan);
  }

  // ---------------------------------------------------------------------------------------------
  // Layers on the accelerator
  // ---------------------------------------------------------------------------------------------

  /** How many layers a partly resident model keeps on the accelerator. */
  function PartialLayers(layers: nat, capacity: U64, bytes: U64): nat {
    if layers == 0 || bytes == 0 then 0
    else
      var share := layers * capacity % TWO_64 / bytes;
      var atLeastOne := if share == 0 then 1 else share;
      var notAll := if atLeastOne >= layers then layers - 1 else atLeastOne;
      if notAll == 0 then 1 else notAll
  }

  /** At least one layer and, of several, not all; and no more than the memory holds in proportion. */
  lemma PartialLayersBounds(layers: nat, capacity: U64, bytes: U64)
    requires 0 < layers && 0 < bytes
    ensures var n := PartialLayers(layers, capacity, bytes);
      && 1 <= n && (layers > 1 ==> n < layers)
      && (n > 1 ==> n * bytes <= layers * capacity)
  {
    var x := layers * capacity % TWO_64;
    assert x <= layers * capacity by {
      assert layers * capacity >= 0;
    }
    assert x == x / bytes * bytes + x % bytes;
    var n := PartialLayers(layers, capacity, bytes);
    if n > 1 {
      assert n <= x / bytes;
      assert n * bytes <= x / bytes * bytes;
    }
  }
}
