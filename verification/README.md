# HeteroAccel in Dafny

A verification project beside the HeteroAccel runtime. It models six parts of it and proves what they
promise, over all inputs, all runs and all interleavings.

1. **Execution graph and scheduler** (`Digraph`, `ExecutionGraph`, `ExecutionGraphBuilder`,
   `SchedulerModel`, `SchedulerRuns`, `SchedulerOutcome`, `ExecutionGraphScheduler`, `GraphExecution`). The scheduler is a
   transition system over node states, with dispatch, success, failure and cancellation as events, and
   the scheduling loop is proved to perform its runs.
2. **Model residency cache** (`ResidencyModel`, `ResidencyCache`, `Totals`, `HostAcceleratorMemory`,
   `ModelResidencyManager`). Two cache levels over a file, with budgets, pins and least-recently-used
   victims. Reads, uploads, host allocations and cancellation fail as they please.
3. **Byte-level BPE tokenizer** (`Utf8`, `ByteTables`, `PreTokenizer`, `PreTokenizerLaws`, `Bpe`, `TokenizerSpec`,
   `HydroXLTokenizer`). `PreTokenizerLaws` tells the cuts of a text by its characters.
4. **Incremental decoding** (`TransformerMath`, `RotaryLaws`, `TransformerLaws`, `KvLayout`, `Decoding`,
   `Incremental`, `DecodingAgreement`, `HydroXLOps`, `CausalAttention`, `HydroXLKVCache`, `HydroXLForwardPass`). Floats
   are real numbers, and the elementary functions are parameters about which nothing is assumed unless a
   lemma says so. The two files of laws say what each operator means by an equation that is not its definition.
5. **GGUF files and quantised tensors** (`LittleEndian`, `GgufValues`, `GgufFormat`, `GgufRoundTrip`,
   `GgufTensors`, `GgufTruncation`, `GGUFLoader`, `QuantFormats`, `QuantPacking`, `HydroXLDequant`,
   `ParallelDequant`, `HydroXLModel`). From the bytes of a file to the elements of a tensor.
6. **Planner and streaming protocol** (`ExecutionPlanner`, `ResourceResidencyManager`,
   `StreamingEngine`, `StreamingOutcome`, `StreamingThreads`).

`ModelTypes` and `Arithmetic` hold what several parts share. Code that changes things step by step is written as classes
and methods with loops; each is proved against a function or a transition system, and the promises are
proved about those. `dafny verify dfyconfig.toml` checks the whole project.

Where the promise does not hold for the code as it is, the code is kept, a lemma gives an input that
shows it, and the exact condition is proved, save for the order of merges:

- The cache writer is position-major and the attention reader head-major. `DecodingAgreement.AgreesIff`
  says that token-by-token decoding is right for all models of a shape exactly with one key/value head or
  one position; `WitnessDisagrees` gives a model and a token for every other shape.
- The per-byte fallback of the tokenizer maps bytes that are mapped already, and drops bytes without a
  symbol. `DecodeEncode` says what comes back for every vocabulary and, for those with all 256 byte
  symbols, exactly which texts survive; without them losses may cancel (`LossesCancel`), so that nothing
  simpler than the returned bytes decides it.
- Region id 0 doubles as "no victim": eviction stops at region 0 once that is the oldest
  (`GivesUpAtZero`). `MakeRamRoom` and `MakeAccelRoom` say exactly what it then gets to.
- A region id names the region it first came with, and a default region has id 0. `EnsureResident` and
  `Prefetch` deliver the region that was asked for exactly if no other came before under its id
  (`ReusedId`).
- `evict` may begin while a load is under way. `ProtocolIff` says that this is the one thing that breaks
  the protocol.
- Merging all occurrences of a pair at once is byte-pair encoding if no merge ranks before those that make
  its symbols (`SweepRefinesSingle`), and can differ otherwise (`SweepDiffersUnstratified`). That order is
  sufficient only (`OrderIsNotNeeded`): whether a merge out of order shows depends on which symbols texts
  ever form and on whether later merges bring the two together again, so no exact condition on the table
  is given.
- Skipping an array does not notice the end of the file. `CutFile` says for every cut of every file whether
  it still opens (`TruncatedFileIsAccepted`).
- The bounds check of a cache write adds in 64 bits. `CheckIsSafeIff` says when it keeps the copy inside the
  array, and `CheckIsOverrun` is a write that leaves it.
- Sizes wrap at 64 bits. `AllocatableIff` (with `OversizeWraps`), `BytesExactIff` (with `ProductWraps` and
  `RoundingWraps`) and `MoreMemoryKeepsExecutable` (with `WrapLosesThePlan`) say exactly where that
  matters.
- `src/hydroxl/HydroXLDequant.cpp:294-295` describes the fifth bit of element j + 16 as bit j + 12 of the
  field; the code takes bit j + 16, as the shift by j + 12 leaves it in place 4. The model follows the
  code.
- `src/hydroxl/HydroXLOps.cpp:83` describes neighbours as the pairs that are rotated; the code rotates
  elements i and i + half, as `RotaryLaws.AxesTurn` says.
- A contraction compares characters by their lowest byte (`src/hydroxl/HydroXLTokenizer.cpp:209-216`), so that
  U+0173 behind an apostrophe counts as the letter s; `PreTokenizerLaws.Low` says so, and `CutIff` follows.

## Model

| member | source | states |
|---|---|---|
| `SchedulerOutcome.ScheduleIndependence` | src/execution/ExecutionGraphScheduler.cpp:77-158 | with every node's outcome fixed and no cancellation, all runs that come to rest end in the same states: COMPLETED iff the node and all its ancestors succeed, FAILED iff it fails behind successes only, BLOCKED iff a proper ancestor fails |
| `SchedulerRuns.RunKeeps` | src/execution/ExecutionGraphScheduler.cpp:77-158 | every run of dispatches, successes, failures and cancellation, in any order, keeps the scheduler's invariant |
| `SchedulerOutcome.SafeAtEveryPoint` | src/execution/ExecutionGraphScheduler.cpp:16-158 | at every point of every run: a ready or started node has only completed ancestors, `in_degree` counts the unfinished predecessors, two running nodes on one resource are on the CPU or on none, and everything behind a failed, blocked or cancelled node is blocked or cancelled |
| `SchedulerRuns.DispatchKeeps` | src/execution/ExecutionGraphScheduler.cpp:91-107 | starting a ready node on a free resource keeps the invariant |
| `SchedulerRuns.SucceedKeeps` | src/execution/ExecutionGraphScheduler.cpp:121-136 | a completion with its decrements and releases keeps the invariant |
| `SchedulerRuns.FailKeeps` | src/execution/ExecutionGraphScheduler.cpp:136-141 | a failure with its propagation keeps the invariant, although nodes behind it may be stopped already |
| `SchedulerRuns.CancelKeeps` | src/execution/ExecutionGraphScheduler.cpp:79-88 | cancellation at any moment keeps the invariant |
| `SchedulerOutcome.RunsAreBounded` | src/execution/ExecutionGraphScheduler.cpp:77-158 | no run is longer than two events for each node and one cancellation |
| `SchedulerOutcome.NeverStuck` | src/execution/ExecutionGraphScheduler.cpp:77-158 | on an acyclic graph, while a node is unfinished something is running or something ready can be dispatched |
| `SchedulerOutcome.RunsFinish` | src/execution/ExecutionGraphScheduler.cpp:77-158 | every run of an acyclic graph can be carried on to rest whatever the outcomes are |
| `SchedulerOutcome.NoTwoOnOneResource` | src/execution/ExecutionGraphScheduler.cpp:16-30 | two running nodes are on different resources, or their resource is the CPU or none |
| `SchedulerOutcome.DispatchableIff` | src/execution/ExecutionGraphScheduler.cpp:22-29 | without cancellation a ready node can be dispatched if and only if its resource is the CPU or none, or no running node is on it |
| `SchedulerOutcome.RunsAreAccountable` | src/execution/ExecutionGraphScheduler.cpp:32-158 | in every run, cancelled or not: what completed reports success, what failed reports failure, what is blocked is behind something that failed; only a cancelled run has cancelled nodes, and none of its nodes waits any more |
| `SchedulerOutcome.AncestorsCompleted` | src/execution/ExecutionGraphScheduler.cpp:121-136 | all proper ancestors of a ready or started node have completed, through walks of any length |
| `SchedulerOutcome.DescendantsStopped` | src/execution/ExecutionGraphScheduler.cpp:32-48 | all proper descendants of a failed, blocked or cancelled node are blocked or cancelled |
| `SchedulerModel.InitialInvariant` | src/execution/ExecutionGraphScheduler.cpp:59-68 | the states and in-degrees set up before the loop meet the invariant |
| `ExecutionGraphSchedulers.FailDependentNodes` | src/execution/ExecutionGraphScheduler.cpp:32-48 | the queue-driven search terminates and blocks exactly the waiting nodes it can reach through waiting nodes; everything else is unchanged |
| `ExecutionGraphSchedulers.PropagationIsExact` | src/execution/ExecutionGraphScheduler.cpp:32-48 | in every reachable state that search blocks precisely the waiting descendants of the failed node, although it stops at nodes blocked or cancelled before |
| `ExecutionGraphSchedulers.ReleaseSuccessors` | src/execution/ExecutionGraphScheduler.cpp:129-135 | the loop over the successors lowers each count once and readies exactly the waiting nodes that reach zero |
| `ExecutionGraphSchedulers.Collect` | src/execution/ExecutionGraphScheduler.cpp:117-142 | collecting a finished task is one success or one failure event of the transition system |
| `ExecutionGraphSchedulers.PollTasks` | src/execution/ExecutionGraphScheduler.cpp:115-147 | a pass over the futures collects the ready ones and is a sequence of such events |
| `ExecutionGraphSchedulers.AwaitCompletion` | src/execution/ExecutionGraphScheduler.cpp:112-148 | polling ends, with at least one task collected |
| `ExecutionGraphSchedulers.DispatchReady` | src/execution/ExecutionGraphScheduler.cpp:91-107 | the dispatch pass is a sequence of dispatch events; every node it leaves ready waits for a running node on its own resource, which is neither the CPU nor none; with no task outstanding and no cancellation it leaves nothing ready |
| `ExecutionGraphSchedulers.Execute` | src/execution/ExecutionGraphScheduler.cpp:50-190 | terminates on every valid graph; a cyclic graph is refused; otherwise the run it performs is at rest, after each of its events two nodes running on one resource are on the CPU or on none, every node ends completed, failed, blocked or, if the run was cancelled, cancelled, as the outcomes say; the error says cancelled exactly for a cancelled run, and success means exactly that all nodes completed and no cancellation was observed; without cancellation the final states are those the graph and the outcomes determine |
| `ExecutionGraphs.Dfs` | src/execution/ExecutionGraph.cpp:106-123 | the three-colour search terminates; it reports a cycle only when there is one, and otherwise numbers what it finished so that numbers fall along every edge |
| `ExecutionGraphs.ExecutionGraph.DetectCycle` | src/execution/ExecutionGraph.cpp:87-104 | true if and only if the graph has a directed cycle, self-loops included; otherwise the finishing order is topological |
| `ExecutionGraphs.ExecutionGraph.AddNode` | src/execution/ExecutionGraph.cpp:9-22 | keeps the mirrored adjacency lists; a repeated id replaces the node and keeps its edges; a null node changes nothing |
| `ExecutionGraphs.ExecutionGraph.AddDependency` | src/execution/ExecutionGraph.cpp:24-39 | adds exactly the one edge, refused for unknown ids, with both adjacency lists still mirrored |
| `ExecutionGraphs.ExecutionGraph.Validate` | src/execution/ExecutionGraph.cpp:41-56 | succeeds exactly on acyclic graphs |
| `Digraph.TopologicalIsAcyclic` | src/execution/ExecutionGraph.cpp:87-123 | numbers that fall along every edge exclude cycles |
| `ExecutionGraphBuilders.ExecutionGraphBuilder.Build` | src/execution/ExecutionGraphBuilder.cpp:11-83 | adds nodes exactly for a viable plan of a supported mode and strategy: a residency node for each region on the plan's accelerator or in RAM, the barrier and the compute node on the plan's device, with exactly their edges; succeeds iff the resulting graph is acyclic, which for fresh ids means iff the given graph was |
| `ExecutionGraphBuilders.PlanIsLaidOut` | src/execution/ExecutionGraphBuilder.cpp:28-82 | each added node with its resource and its task, mode by mode and strategy by strategy |
| `ExecutionGraphBuilders.FreshCycle` | src/execution/ExecutionGraphBuilder.cpp:69-82 | the added nodes close no cycle: the new graph has one iff the old graph had |
| `GraphExecution.ExecutePlan` | src/execution/ExecutionGraphBuilder.cpp:11-83 | building a plan and executing the graph, end to end: exactly the supported plans are built into an acyclic graph; at every point of the execution the compute node has started only after every residency node completed; without cancellation it ends as its own outcome says if all before it succeed, and blocked otherwise |
| `GraphExecution.ComputeAfterResidency` | src/execution/ExecutionGraphBuilder.cpp:69-82 | at every point of every run of a graph extended by a plan, the compute node waits for every residency node |
| `GraphExecution.ComputeVerdict` | src/execution/ExecutionGraphBuilder.cpp:69-82 | what the compute node ends as depends on the residency nodes, the barrier and itself alone, whatever else the graph holds |
| `ModelResidencyManagers.ModelResidencyManager.PerformAll` | src/model/ModelResidencyManager.cpp:38-185 | any sequence of calls with any failures of reads, uploads, allocations and cancellation keeps the cache coherent with the file, its counters equal to the sums over the records and within their budgets; a region whose pins, counted over the calls, never run out keeps every byte it holds at both levels, and has exactly that many pins at the end; the stamp of every record is the time of its last use among the calls |
| `ResidencyCache.TakenWereUsedNoLater` | src/model/ModelResidencyManager.cpp:361-428 | over any sequence of calls: whatever record or device copy is taken to make room, its last use is not after that of any idle region of the same kind that stays |
| `ResidencyCache.StampIsLastUse` | src/model/ModelResidencyManager.cpp:38-124 | a record's stamp is the time of its last successful use, where a use is an `ensureResident` that succeeds or a prefetch that loads |
| `ResidencyModel.FairToAll` | src/model/ModelResidencyManager.cpp:361-428 | victim by victim: what goes was used no later than what could have gone and stays |
| `ModelResidencyManagers.ModelResidencyManager.Perform` | src/model/ModelResidencyManager.cpp:38-185 | one such call, and the moment it adds to the history |
| `ModelResidencyManagers.ModelResidencyManager.EnsureResident` | src/model/ModelResidencyManager.cpp:38-85 | on success the record under the region's id is resident at the target with the file's bytes for that record; it is the region itself, with its own bytes, if and only if no other region came with that id; a region that is resident already always succeeds; a success, found or loaded, stamps the record with the present time and no other record; what was taken for it was used no later than what stays; whatever happens, pinned regions and the region itself lose nothing they held |
| `ModelResidencyManagers.ReusedId` | src/model/ModelResidencyManager.cpp:211-221 | where it fails: a second region under a cached id succeeds, and its record holds the first region's bytes |
| `ModelResidencyManagers.ModelResidencyManager.Prefetch` | src/model/ModelResidencyManager.cpp:87-124 | the same for prefetching, with the same exact condition on the id; a prefetch that loads stamps its record, one that finds it does not; it does nothing when disabled |
| `ModelResidencyManagers.ModelResidencyManager.Bring` | src/model/ModelResidencyManager.cpp:56-82 | load to RAM unless there, then upload if asked: success means resident at the target, failure loses nothing |
| `ModelResidencyManagers.ModelResidencyManager.LoadToRam` | src/model/ModelResidencyManager.cpp:223-271 | on success the record holds exactly the file slice in RAM; on failure it is unchanged or marked as an error |
| `ModelResidencyManagers.ModelResidencyManager.FetchIntoRam` | src/model/ModelResidencyManager.cpp:233-270 | with the room made, the read delivers the slice and both counters follow |
| `ModelResidencyManagers.ModelResidencyManager.UploadLocked` | src/model/ModelResidencyManager.cpp:273-329 | on success the device block holds the RAM bytes of the record |
| `ModelResidencyManagers.ModelResidencyManager.CopyToDevice` | src/model/ModelResidencyManager.cpp:290-327 | after the room was made the device never refuses for its budget |
| `ModelResidencyManagers.ModelResidencyManager.MakeRamRoom` | src/model/ModelResidencyManager.cpp:361-374 | victims go in least-recently-used order, none of them is region 0, and one fewer would not have sufficed; a sum that wraps passes at once; otherwise it fails iff what it may not evict and the request exceed the budget, or, where region 0 may be evicted itself, iff region 0 and all used after it do as well (of equal stamps either may come first) |
| `ModelResidencyManagers.ModelResidencyManager.MakeAccelRoom` | src/model/ModelResidencyManager.cpp:376-399 | terminates; nothing to do without an accelerator; victims in least-recently-used order keep their RAM copies; success means exactly that the device has the room, and it fails exactly under the same condition |
| `ModelResidencyManagers.ModelResidencyManager.PickLru` | src/model/ModelResidencyManager.cpp:401-428 | the least recently used evictable region; the answer 0 is ambiguous exactly when a region has id 0 |
| `ModelResidencyManagers.GivesUpAtZero` | src/model/ModelResidencyManager.cpp:364-367 | a failing call for every cache in which region 0 is the oldest evictable one: no room is made and nothing evicted |
| `ModelResidencyManagers.GivesUpAtZeroOnDevice` | src/model/ModelResidencyManager.cpp:379-383 | the same on the device |
| `ResidencyCache.ZeroIdHidesVictims` | src/model/ModelResidencyManager.cpp:364-367 | such a cache: coherent, full, and although everything in it may be evicted, nothing of it is in reach |
| `ResidencyModel.ReachIsExact` | src/model/ModelResidencyManager.cpp:401-428 | if region 0 may not be evicted, everything evictable is in reach; if no other evictable region has its stamp, the two bounds are one |
| `ResidencyCache.VictimsAreAhead` | src/model/ModelResidencyManager.cpp:401-428 | whatever is evicted was used no later than an evictable region 0 |
| `ModelResidencyManagers.ModelResidencyManager.EvictLocked` | src/model/ModelResidencyManager.cpp:331-359 | drops the record and both copies, refused exactly for a pinned record; the counters fall by its size |
| `ModelResidencyManagers.ModelResidencyManager.Demote` | src/model/ModelResidencyManager.cpp:376-399 | gives up the device copy and keeps the RAM copy with its contents |
| `ModelResidencyManagers.ModelResidencyManager.Evict` | src/model/ModelResidencyManager.cpp:167-170 | succeeds iff the region is unknown or unpinned, and then removes it and nothing else |
| `ModelResidencyManagers.ModelResidencyManager.ReleaseAll` | src/model/ModelResidencyManager.cpp:172-186 | gives everything back, pinned or not; both counters are zero and the device holds only what others allocated |
| `ModelResidencyManagers.ModelResidencyManager.Pin` | src/model/ModelResidencyManager.cpp:126-130 | adds one pin to a known region |
| `ModelResidencyManagers.ModelResidencyManager.Unpin` | src/model/ModelResidencyManager.cpp:132-136 | takes one pin away, never below zero |
| `ModelResidencyManagers.ModelResidencyManager.IsResident` | src/model/ModelResidencyManager.cpp:138-148 | true exactly for a record with its bytes in RAM and, when the device is asked about, a block there; and then both hold the file's bytes |
| `ModelResidencyManagers.ModelResidencyManager.RamPointer` | src/model/ModelResidencyManager.cpp:157-165 | a pointer is given exactly for a region in RAM, and shows the file slice |
| `ResidencyCache.CacheEvict` | src/model/ModelResidencyManager.cpp:331-359 | an eviction keeps coherence and accounting; the saturating subtractions never saturate |
| `ResidencyCache.CacheDemote` | src/model/ModelResidencyManager.cpp:388-397 | so does a demotion |
| `ResidencyCache.CacheLoad` | src/model/ModelResidencyManager.cpp:255-270 | so does a load that fits the budget |
| `ResidencyCache.CacheUpload` | src/model/ModelResidencyManager.cpp:304-327 | so does an upload into a fresh block |
| `HostAcceleratorMemories.HostAcceleratorMemory.Allocate` | src/model/HostAcceleratorMemory.cpp:25-44 | a fresh block within the capacity, or null with nothing changed and a reason that holds; `used_` stays the sum of the blocks |
| `HostAcceleratorMemories.HostAcceleratorMemory.Release` | src/model/HostAcceleratorMemory.cpp:46-53 | gives a known block's bytes back; an unknown pointer changes nothing |
| `HostAcceleratorMemories.HostAcceleratorMemory.Upload` | src/model/HostAcceleratorMemory.cpp:55-70 | writes the bytes into the front of a large enough block, or changes nothing |
| `Utf8.DecodeEncoded` | src/hydroxl/HydroXLTokenizer.cpp:24-63 | whatever follows, decoding an encoded code point gives it back with its length (section 3 of RFC 3629) |
| `Utf8.EncodedMarkers` | src/hydroxl/HydroXLTokenizer.cpp:24-63 | how many bytes a code point takes, and the marker bits each begins with (section 3 of RFC 3629) |
| `ByteTables.CodePointsDiffer` | src/hydroxl/HydroXLTokenizer.cpp:99-115 | no two bytes share a code point |
| `ByteTables.CodePointIs` | src/hydroxl/HydroXLTokenizer.cpp:99-115 | the table entry by entry: printable bytes are themselves, the control characters and the space follow from U+0100, 127 to 160 from U+0121, and 173 is U+0143 |
| `ByteTables.UnmapMapped` | src/hydroxl/HydroXLTokenizer.cpp:99-115 | mapping all bytes of a text to symbols and back loses nothing |
| `HydroXLTokenizers.HydroXLTokenizer.BuildByteTables` | src/hydroxl/HydroXLTokenizer.cpp:96-117 | the loop fills both tables so that they invert each other |
| `PreTokenizer.PreTokenize` | src/hydroxl/HydroXLTokenizer.cpp:194-335 | the loop yields the pieces the rules define; where those are cut in the bytes of any text is `PreTokenizerLaws.CutIff` |
| `PreTokenizerLaws.CutIff` | src/hydroxl/HydroXLTokenizer.cpp:194-335 | in every text a piece ends before a character if and only if the characters around it say so, read backwards in character literals: letters are cut behind contractions only, digits behind three, a space never from its letter, marks never from marks or newlines, white space behind its last newline and before its last blank |
| `PreTokenizerLaws.CutsAreBetweenCharacters` | src/hydroxl/HydroXLTokenizer.cpp:194-335 | no cut falls inside a character |
| `PreTokenizerLaws.WordsStayWhole` | src/hydroxl/HydroXLTokenizer.cpp:223-244 | a cut before a letter is not behind a space, and behind a letter only if a contraction, spelled out, ends there |
| `PreTokenizerLaws.DigitsAreCutInThrees` | src/hydroxl/HydroXLTokenizer.cpp:252-262 | digits are cut from one another exactly behind three that are a piece |
| `PreTokenizerLaws.DigitPieces` | src/hydroxl/HydroXLTokenizer.cpp:252-262 | every piece that begins with a digit is one to three digits |
| `PreTokenizer.NextCut` | src/hydroxl/HydroXLTokenizer.cpp:200-331 | one round of the rules, in their order, ends the piece where they say; on characters this is what `PreTokenizerLaws.CutIff` follows |
| `PreTokenizer.PiecesPartition` | src/hydroxl/HydroXLTokenizer.cpp:194-335 | the pieces joined are the text, and none is empty |
| `PreTokenizer.RulesAreExhaustive` | src/hydroxl/HydroXLTokenizer.cpp:328-331 | the catch-all rule is never needed |
| `Bpe.SweepRefinesSingle` | src/hydroxl/HydroXLTokenizer.cpp:354-388 | merging all occurrences of the best pair left to right ends as merging one leftmost best pair at a time, whenever merges that use a merged symbol rank after the merges that make it |
| `HydroXLTokenizers.HydroXLTokenizer.PieceMergesOneByOne` | src/hydroxl/HydroXLTokenizer.cpp:340-388 | on a loaded tokenizer whose merges are in that order, every piece ends with the symbols byte-pair encoding defines |
| `Bpe.SweepDiffersUnstratified` | src/hydroxl/HydroXLTokenizer.cpp:354-388 | without that order, which is sufficient, the two can differ: two merges and a text of four letters |
| `TokenizerSpec.OrderIsNotNeeded` | src/hydroxl/HydroXLTokenizer.cpp:354-388 | it is not necessary: a table out of order on which the two agree for every text |
| `Bpe.BpeKeepsText` | src/hydroxl/HydroXLTokenizer.cpp:374-387 | merging never changes what the symbols spell |
| `Bpe.BpeIsFinished` | src/hydroxl/HydroXLTokenizer.cpp:354-388 | merging ends with no two neighbours in the merge table |
| `Bpe.BpeSymbols` | src/hydroxl/HydroXLTokenizer.cpp:374-387 | every final symbol was there at first or is the result of a merge in the table |
| `Bpe.KeyInjective` | src/hydroxl/HydroXLTokenizer.cpp:360-364 | a merge key names its two symbols |
| `HydroXLTokenizers.HydroXLTokenizer.FindBest` | src/hydroxl/HydroXLTokenizer.cpp:355-371 | the scan finds the leftmost pair of the lowest rank |
| `HydroXLTokenizers.HydroXLTokenizer.Sweep` | src/hydroxl/HydroXLTokenizer.cpp:374-387 | the sweep replaces every occurrence, left to right |
| `HydroXLTokenizers.HydroXLTokenizer.BpePiece` | src/hydroxl/HydroXLTokenizer.cpp:340-407 | the ids of the final symbols of a piece, with the per-byte fallback |
| `HydroXLTokenizers.HydroXLTokenizer.LoadFromGGUF` | src/hydroxl/HydroXLTokenizer.cpp:122-189 | loads exactly the files with the supported model, a vocabulary, and merges of exactly one space each; a repeated entry keeps its last position; on failure the tokenizer stays unloaded |
| `HydroXLTokenizers.SpecialIdIs` | src/hydroxl/HydroXLTokenizer.cpp:175-180 | a special id is -1 when absent, and otherwise the number the file gives, read as signed 32 bits, whatever integer type it has |
| `TokenizerSpec.OneSpaceIsKey` | src/hydroxl/HydroXLTokenizer.cpp:156-161 | an accepted merge is exactly two symbols with one space between them |
| `HydroXLTokenizers.HydroXLTokenizer.Encode` | src/hydroxl/HydroXLTokenizer.cpp:420-431 | nothing when unloaded; otherwise BOS if asked for and known, then the ids of all pieces, whose cuts `PreTokenizerLaws.CutIff` gives |
| `HydroXLTokenizers.HydroXLTokenizer.Decode` | src/hydroxl/HydroXLTokenizer.cpp:441-476 | nothing when unloaded; otherwise the spelled symbols mapped back byte by byte, without out-of-range and skipped special ids |
| `TokenizerSpec.SkippingLeavesOut` | src/hydroxl/HydroXLTokenizer.cpp:446-458 | skipping special tokens is decoding without the control (3) and unused (5) ones |
| `HydroXLTokenizers.HydroXLTokenizer.DecodeEncode` | src/hydroxl/HydroXLTokenizer.cpp:340-476 | what decoding an encoding returns, on every loaded tokenizer: for a known symbol its text, for an unknown one those of its mapped bytes that are known; the text comes back if every symbol does; if the vocabulary has every byte symbol, exactly if each final symbol is in it or plain ASCII |
| `HydroXLTokenizers.HydroXLTokenizer.DecodeEncodeClosed` | src/hydroxl/HydroXLTokenizer.cpp:340-476 | with every byte symbol and every merge result in the vocabulary, every byte string comes back |
| `TokenizerSpec.RoundTripIff` | src/hydroxl/HydroXLTokenizer.cpp:390-406 | the same, on the tables |
| `TokenizerSpec.FallbackLosesText` | src/hydroxl/HydroXLTokenizer.cpp:394-401 | a vocabulary of the bytes alone and one merge: the text " a" does not come back |
| `TokenizerSpec.LossesCancel` | src/hydroxl/HydroXLTokenizer.cpp:394-401 | without all byte symbols two losses can cancel: a vocabulary, two merges and a text of two final symbols, neither of which comes back, and the text does |
| `DecodingAgreement.AgreesIff` | src/hydroxl/HydroXLForwardPass.cpp:68-164 | for any elementary functions that divide, take roots and exponentiate as those of the reals do: token-by-token logits equal those of the whole prefix computed from scratch, for all models of a cache shape and all token lists, if and only if the shape has one key/value head or one position |
| `DecodingAgreement.WitnessDisagrees` | src/hydroxl/HydroXLForwardPass.cpp:68-164 | for every shape with more of both, a model that passes the loader's checks on its sizes and one token whose logits differ; its embedding is as long as the shape's keys |
| `DecodingAgreement.IncrementalIsFromScratch` | src/hydroxl/HydroXLForwardPass.cpp:68-164 | for such a shape, after a reset, every token list gives the logits of a causal pass over the whole prefix |
| `Incremental.StepIsFromScratch` | src/hydroxl/HydroXLForwardPass.cpp:68-164 | one step over a cache that holds the prefix gives the from-scratch logits of the longer prefix and leaves a cache that holds it |
| `Decoding.PassIsCausal` | src/hydroxl/HydroXLOps.cpp:231-245 | from scratch, what is computed for a prefix does not depend on the tokens behind it |
| `KvLayout.LayoutsAgreeIff` | src/hydroxl/HydroXLKVCache.cpp:61-68 | writer and reader index every element alike if and only if there is one head or one position |
| `KvLayout.ReadsBackIff` | src/hydroxl/HydroXLOps.cpp:218-222 | attention sees every written vector, cut into heads, if and only if there is one head or one position |
| `KvLayout.SecondHeadIsLost` | src/hydroxl/HydroXLOps.cpp:218-222 | with more of both, a second head of ones written at the first position reads back a zero |
| `KvLayout.StoredWrite` | src/hydroxl/HydroXLKVCache.cpp:54-70 | writing one position changes that position and no other |
| `HydroXLKVCaches.HydroXLKVCache.WriteKV` | src/hydroxl/HydroXLKVCache.cpp:54-70 | stores one position of one layer at its 64-bit offset and touches nothing else; refused exactly for an unallocated cache, an unknown layer, a position out of range, or a failed bounds check, which last never happens where the layer size did not wrap; it demands only that a check that passes keeps the copy inside the array |
| `HydroXLKVCaches.CheckIsSafeIff` | src/hydroxl/HydroXLKVCache.cpp:61-65 | for every shape and position: the bounds check keeps the copy inside the array if and only if its 64-bit sum does not wrap or wraps to more than the array holds |
| `HydroXLKVCaches.CheckIsOverrun` | src/hydroxl/HydroXLKVCache.cpp:61-68 | a shape that can be allocated and a position where the check passes and the copy leaves the array |
| `HydroXLKVCaches.WrappedSumIsRefused` | src/hydroxl/HydroXLKVCache.cpp:61-65 | a shape and a position where the sum wraps and the check refuses all the same |
| `HydroXLKVCaches.WrappedIsReadOutside` | src/hydroxl/HydroXLOps.cpp:218-222 | where the layer size of a cache wraps, the second head begins 2^32 elements or more into the layer, and behind it, unless the arrays take 2^64 bytes or more |
| `HydroXLKVCaches.WrappedIsReadInside` | src/hydroxl/HydroXLOps.cpp:218-222 | such a shape: the second head begins inside an array of 2^61 elements |
| `HydroXLKVCaches.HydroXLKVCache.Allocate` | src/hydroxl/HydroXLKVCache.cpp:12-39 | accepts exactly the shapes whose size, in 64-bit arithmetic, is within 4 GiB, and starts from zeros |
| `HydroXLKVCaches.HydroXLKVCache.Reset` | src/hydroxl/HydroXLKVCache.cpp:47-52 | every layer is zero again and the shape stays |
| `HydroXLKVCaches.HydroXLKVCache.AdvanceSeq` | src/hydroxl/HydroXLKVCache.cpp:72-76 | counts one position, up to the maximum |
| `HydroXLKVCaches.AllocatableIff` | src/hydroxl/HydroXLKVCache.cpp:17-20 | for every shape: the check decides as the 4 GiB limit does if and only if the true size fits 64 bits or wraps to something over the limit |
| `HydroXLKVCaches.FourGibibytes` | src/hydroxl/HydroXLKVCache.cpp:17-20 | a cache of one layer, head and position is allowed exactly up to 2^29 elements each of keys and values |
| `HydroXLKVCaches.CacheBytesWrap` | src/hydroxl/HydroXLKVCache.cpp:17-20 | the size the check sees is the true size modulo 2^64 |
| `HydroXLKVCaches.OversizeWraps` | src/hydroxl/HydroXLKVCache.cpp:17-20 | a shape of 2^64 elements passes the check, because its size wraps to zero |
| `HydroXLOps.RowProduct` | src/hydroxl/HydroXLOps.cpp:44-62 | four accumulators and a tail give the dot product |
| `HydroXLOps.MatVecInto` | src/hydroxl/HydroXLOps.cpp:40-64 | every output is the dot product of its row; empty shapes are refused |
| `TransformerLaws.MatVecIsLinear` | src/hydroxl/HydroXLOps.cpp:40-64 | sums go to sums and multiples to multiples |
| `TransformerLaws.ColumnOfAxis` | src/hydroxl/HydroXLOps.cpp:40-64 | an axis goes to its column; with linearity that is the product |
| `HydroXLOps.RmsNormInto` | src/hydroxl/HydroXLOps.cpp:19-34 | each element scaled by the inverse root mean square and its weight |
| `TransformerLaws.NormalisedMeanSquare` | src/hydroxl/HydroXLOps.cpp:19-34 | without weights, the mean square after normalising times that before it plus eps is that before it; weights scale each element |
| `TransformerLaws.InverseRmsInverts` | src/hydroxl/HydroXLOps.cpp:24-28 | the scale is positive, and its square times the mean square plus eps is one |
| `HydroXLOps.EmbedLookup` | src/hydroxl/HydroXLOps.cpp:69-78 | the token's row, refused exactly for a token out of range |
| `HydroXLOps.RopeApply` | src/hydroxl/HydroXLOps.cpp:87-129 | each head of queries and keys is rotated pair by pair in place, as the laws of `RotaryLaws` describe; an odd or empty head and an empty set of heads are refused and change nothing |
| `HydroXLOps.RotateHeadAt` | src/hydroxl/HydroXLOps.cpp:97-111 | in-place rotation of one head, in which each pair is read before it is overwritten |
| `RotaryLaws.ScoresAreRelative` | src/hydroxl/HydroXLOps.cpp:87-129 | the dot product of a query head turned at p with a key head turned at p' is a function of the heads and p - p' alone, for any functions with the addition formulas |
| `RotaryLaws.RotatedDot` | src/hydroxl/HydroXLOps.cpp:97-111 | the same for two heads on their own |
| `RotaryLaws.RotationKeepsLength` | src/hydroxl/HydroXLOps.cpp:97-111 | turning a head keeps its sum of squares |
| `RotaryLaws.StartIsUnturned` | src/hydroxl/HydroXLOps.cpp:97-111 | position 0 changes nothing |
| `RotaryLaws.AxesTurn` | src/hydroxl/HydroXLOps.cpp:99-110 | the pair of elements i and i + half turns by pos / base^(2i / headDim): (1, 0) goes to (cos a, sin a) and (0, 1) to (-sin a, cos a) |
| `RotaryLaws.HeadTurns` | src/hydroxl/HydroXLOps.cpp:95-111 | every head turns on its own |
| `HydroXLOps.SwigluInto` | src/hydroxl/HydroXLOps.cpp:144-150 | pointwise gate activation times the other branch |
| `TransformerLaws.SiluTimesGate` | src/hydroxl/HydroXLOps.cpp:134-150 | silu(g) times 1 + exp(-g) is g |
| `HydroXLOps.ResidualAdd` | src/hydroxl/HydroXLOps.cpp:155-159 | in-place sum |
| `HydroXLOps.SoftmaxInPlace` | src/hydroxl/HydroXLOps.cpp:164-175 | the softmax of the first n elements in place, the rest untouched |
| `TransformerMath.SoftmaxIsAverage` | src/hydroxl/HydroXLOps.cpp:164-175 | softmax weights are positive and sum to one wherever exp is positive |
| `TransformerLaws.SoftmaxRatios` | src/hydroxl/HydroXLOps.cpp:164-175 | they are to one another as the exponentials of the scores, where sums become products |
| `CausalAttention.CausalAttentionInto` | src/hydroxl/HydroXLOps.cpp:186-247 | grouped-query attention over exactly the rows the reader's layout shows, refused exactly for empty shapes, unequal groups or too long a sequence |
| `TransformerLaws.BlockAttends` | src/hydroxl/HydroXLOps.cpp:186-247 | one layer told without its operators: each head mixes the values of its group, which is that of as many consecutive heads as there are to a key/value head, by weights that sum to one and go with the exponentials of the dot products over the root of the head size |
| `TransformerLaws.GroupIsInterval` | src/hydroxl/HydroXLOps.cpp:212-216 | head h reads key/value head g exactly if h is among the g-th group of consecutive heads |
| `TransformerLaws.ScaleIsRoot` | src/hydroxl/HydroXLForwardPass.cpp:44 | the scale is positive, and its square times the head size is one |
| `TransformerLaws.AttentionAverages` | src/hydroxl/HydroXLOps.cpp:186-247 | a head whose group holds one vector everywhere returns it |
| `CausalAttention.ScoreHead` | src/hydroxl/HydroXLOps.cpp:219-229 | the score loop against the cache rows of one head |
| `CausalAttention.MixHead` | src/hydroxl/HydroXLOps.cpp:235-244 | the accumulation over positions is the weighted sum of the values |
| `HydroXLForwardPasses.HydroXLForwardPass.Forward` | src/hydroxl/HydroXLForwardPass.cpp:21-167 | succeeds exactly when attached, loaded and allocated, for a known token and position, equal groups and a layer size that did not wrap; logits and new cache are those of one step; a bad token or position leaves the cache alone; any other failure leaves exactly the first layer's key and value of the position behind, or nothing where the bounds check refused them |
| `HydroXLForwardPasses.RunLayer` | src/hydroxl/HydroXLForwardPass.cpp:69-154 | one layer over the scratch buffers and the cache is one layer of the step |
| `TransformerLaws.ProjectionsAreOwn` | src/hydroxl/HydroXLForwardPass.cpp:76-99 | at position 0 and without biases, query, key and value are the products of the normalised vector with their own weights |
| `TransformerLaws.BiasesAreAdded` | src/hydroxl/HydroXLForwardPass.cpp:82-96 | with weights of zero they are their own biases |
| `TransformerLaws.ResidualsCarry` | src/hydroxl/HydroXLForwardPass.cpp:122-154 | a layer whose output and down projections are zero returns its input |
| `TransformerLaws.GateAndUp` | src/hydroxl/HydroXLForwardPass.cpp:131-154 | in one dimension, what feeding forward adds times 1 + exp(-gate) is down times gate times up |
| `HydroXLForwardPasses.BuffersAreExact` | src/hydroxl/HydroXLForwardPass.cpp:46-58 | with the head size the loader computes and equal groups, the 32-bit sizes of the scratch vectors never wrap |
| `HydroXLForwardPasses.Prefill` | src/hydroxl/HydroXLEngine.cpp:223-273 | reset and feed the prompt: succeeds exactly for a prompt that is not empty, fits, has known tokens only and is not cancelled before any of them, with equal groups and a layer size that did not wrap; then the logits are the incremental ones, and the from-scratch ones when the layouts agree |
| `GgufRoundTrip.EntriesComeBack` | src/hydroxl/GGUFLoader.cpp:244-259 | metadata entries within the limits, wherever they stand in a file, are read back as the map they mean, and exactly their bytes are consumed |
| `GgufRoundTrip.ArrayComesBack` | src/hydroxl/GGUFLoader.cpp:119-220 | arrays nested to any depth are kept or skipped in exactly their own length |
| `GgufRoundTrip.ValueComesBack` | src/hydroxl/GGUFLoader.cpp:222-242 | every scalar, string and array is read back as what is kept of it |
| `GgufFormat.TypesAre` | src/hydroxl/GGUFLoader.cpp:222-242 | which of the thirteen type codes are numbers, how wide the narrow ones are, and what is kept of each |
| `GgufFormat.WideTypesAre` | src/hydroxl/GGUFLoader.cpp:222-242 | the same for 32 and 64 bits |
| `GgufRoundTrip.StringComesBack` | src/hydroxl/GGUFLoader.cpp:104-117 | strings come back up to a mebibyte and are refused beyond |
| `GgufRoundTrip.SignedComesBack` | src/hydroxl/GGUFLoader.cpp:222-242 | a signed number written in two's complement on one, two, four or eight bytes is kept as that number |
| `GgufRoundTrip.SignedItemsComeBack` | src/hydroxl/GGUFLoader.cpp:119-220 | so are the items of an array of 32-bit signed numbers |
| `GgufFormat.LastEntryWins` | src/hydroxl/GGUFLoader.cpp:256 | each key ends with the value of its last entry |
| `GgufTruncation.CutFile` | src/hydroxl/GGUFLoader.cpp:21-72 | a file within the limits cut to any length: it opens if and only if its data offset fits 64 bits and, with tensors, lies inside what is left or, without tensors, nothing is missing from its front but the end of a skipped array that comes last; and then it opens as the whole file would |
| `GgufTruncation.EntriesCut` | src/hydroxl/GGUFLoader.cpp:244-259 | metadata cut short, wherever it stands: refused, or read as if nothing were missing, exactly by whether more than that end is missing |
| `GgufTruncation.ArrayCut` | src/hydroxl/GGUFLoader.cpp:119-220 | the same for one array, nested to any depth |
| `GgufTruncation.TensorsCut` | src/hydroxl/GGUFLoader.cpp:261-378 | descriptors cut short are always refused |
| `GgufTruncation.TensorsEndInside` | src/hydroxl/GGUFLoader.cpp:261-378 | in any file, descriptors that are read at all end inside it |
| `GgufTruncation.TensorsNeedTheFront` | src/hydroxl/GGUFLoader.cpp:51-72 | any file that opens and declares a tensor holds its whole front and its data offset |
| `GgufTruncation.TruncatedFileIsAccepted` | src/hydroxl/GGUFLoader.cpp:209-219 | a file of 53 bytes, one skipped array and no tensors, opens with its last five bytes missing, at a position behind its end; with six missing it does not |
| `GGUFLoaders.GGUFLoader.ParseKV` | src/hydroxl/GGUFLoader.cpp:244-259 | the loop reads exactly what the format function reads, failure included |
| `GGUFLoaders.GGUFLoader.ReadArray` | src/hydroxl/GGUFLoader.cpp:119-220 | the recursive reader terminates and agrees with the format function |
| `GGUFLoaders.GGUFLoader.ReadString` | src/hydroxl/GGUFLoader.cpp:104-117 | length prefix, limit, and bytes; failure exactly where the format function fails |
| `GGUFLoaders.GGUFLoader.ReadValue` | src/hydroxl/GGUFLoader.cpp:222-242 | every type code, and refusal of unknown ones |
| `GgufTensors.FileComesBack` | src/hydroxl/GGUFLoader.cpp:21-72 | a whole file is read back: header, metadata, descriptors, and the data offset at the next aligned byte; refused exactly when tensors are declared and that byte is not inside the file |
| `GgufTensors.TensorComesBack` | src/hydroxl/GGUFLoader.cpp:261-378 | a tensor descriptor within the limits is read back |
| `GgufTensors.GuardIsExact` | src/hydroxl/GGUFLoader.cpp:297-301 | the division guard refuses a dimension exactly when the product leaves 64 bits |
| `GgufTensors.BytesExactIff` | src/hydroxl/GGUFLoader.cpp:322-368 | the computed size of a quantised tensor is its true size if and only if neither the rounding nor the product wraps; the blocks are those of `HydroXLModels.BlocksAreFields` |
| `GgufTensors.ProductWraps` | src/hydroxl/GGUFLoader.cpp:322-368 | a shape within the limits whose byte product wraps |
| `GgufTensors.RoundingWraps` | src/hydroxl/GGUFLoader.cpp:322-368 | a shape within the limits whose rounding wraps: 2^64 - 1 elements in no bytes |
| `GgufTensors.PaddedIsFirstMultiple` | src/hydroxl/GGUFLoader.cpp:51-57 | the data offset is the first multiple of the alignment that is not before the position |
| `GgufTensors.AlignmentIs` | src/hydroxl/GGUFLoader.cpp:46-49 | the alignment is what the metadata says, or 32 where it says nothing or zero |
| `GgufTensors.HeaderSpells` | src/hydroxl/GGUFLoader.cpp:74-102 | a file begins with the letters GGUF and its version, lowest byte first |
| `GGUFLoaders.GGUFLoader.ParseTensors` | src/hydroxl/GGUFLoader.cpp:261-378 | the loop reads exactly what the format function reads; the sizes it computes are those the decoders need (`HydroXLModels.DiskIsDecoderIff`) |
| `GGUFLoaders.GGUFLoader.ParseDims` | src/hydroxl/GGUFLoader.cpp:283-302 | the dimension loop, its limits, and an element count that never wraps |
| `GGUFLoaders.GGUFLoader.Open` | src/hydroxl/GGUFLoader.cpp:21-72 | opening is reading the header, the entries and the descriptors, or failing where one of them fails |
| `GGUFLoaders.GGUFLoader.ReadTensorData` | src/hydroxl/GGUFLoader.cpp:439-460 | succeeds if and only if the loader is open and the tensor is not empty, fits the buffer and lies inside the file, and then gives exactly its bytes |
| `HydroXLModels.LoadTensor` | src/hydroxl/HydroXLModel.cpp:56-206 | from descriptor to elements: succeeds if and only if the first descriptor with the name has the expected number of elements, a type that is decoded, whole blocks, room in memory, and its bytes inside the file; and then every block of those bytes is decoded, or every float copied |
| `HydroXLModels.LoadDescribed` | src/hydroxl/HydroXLModel.cpp:64-206 | the same behind the descriptor |
| `HydroXLModels.DiskIsDecoderIff` | src/hydroxl/GGUFLoader.cpp:322-368 | for every type with a decoder: whole blocks have, by the loader's size, exactly the bytes the decoder reads, if and only if those fit 64 bits |
| `HydroXLModels.DiskIsDecoder` | src/hydroxl/GGUFLoader.cpp:322-368 | which they do for every number of elements but with F16 and Q8_0, and there for all that can be allocated |
| `HydroXLModels.BlocksAreFields` | src/hydroxl/GGUFLoader.cpp:330-368 | every block is as long as its fields together: scales, minimums, high bits, quants and sums |
| `HydroXLModels.NumbersAreWide` | src/hydroxl/GGUFLoader.cpp:323-329 | four bytes for a float and two for a half, or refused beyond 64 bits |
| `HydroXLModels.PassesIff` | src/hydroxl/HydroXLModel.cpp:89-107 | for whole blocks of a decoded type the check on the least number of bytes never refuses what the others accept |
| `HydroXLModels.HalvesLoad` | src/hydroxl/HydroXLDequant.cpp:254-287 | half-precision numbers written lowest byte first load, each in its place |
| `HydroXLModels.SinglesLoad` | src/hydroxl/HydroXLModel.cpp:121-124 | so do single-precision numbers |
| `HydroXLModels.CountElements` | src/hydroxl/HydroXLModel.cpp:70-82 | the product of the dimensions, refused exactly for a zero or beyond 64 bits |
| `HydroXLModels.OpenedIsParsed` | src/hydroxl/GGUFLoader.cpp:261-378 | after opening, every descriptor has the size its shape and type give |
| `HydroXLDequant.DequantQ4KBlock` | src/hydroxl/HydroXLDequant.cpp:85-109 | the pointer walk writes every element of a block with its random-access value, and nothing else |
| `HydroXLDequant.DequantQ3KBlock` | src/hydroxl/HydroXLDequant.cpp:175-222 | the same, with the moving shift and mask |
| `HydroXLDequant.DequantQ6KBlock` | src/hydroxl/HydroXLDequant.cpp:385-410 | the same, four elements a round |
| `HydroXLDequant.DequantQ50Block` | src/hydroxl/HydroXLDequant.cpp:302-321 | the same, two elements a round |
| `HydroXLDequant.DequantQ51Block` | src/hydroxl/HydroXLDequant.cpp:341-362 | the same with a minimum |
| `HydroXLDequant.DequantQ80Block` | src/hydroxl/HydroXLDequant.cpp:234-243 | the same, one signed byte for an element |
| `HydroXLDequant.UnpackedIsBytewise` | src/hydroxl/HydroXLDequant.cpp:186-194 | unpacking four 6-bit scales at a time in a word is unpacking each byte on its own |
| `HydroXLDequant.FifthBits` | src/hydroxl/HydroXLDequant.cpp:312-313 | both shifts move the right bit of the field to the place of the fifth bit |
| `QuantPacking.Q4KComesBack` | src/hydroxl/HydroXLDequant.cpp:60-109 | a block written from scales, minimums and 4-bit quants decodes to scale times quant less minimum, group by group |
| `QuantPacking.Q3KComesBack` | src/hydroxl/HydroXLDequant.cpp:163-222 | a block written from 6-bit scales and 3-bit quants decodes to (scale - 32) times (quant - 4) |
| `QuantPacking.Q6KComesBack` | src/hydroxl/HydroXLDequant.cpp:370-410 | a block written from signed scales and 6-bit quants decodes to scale times (quant - 32) |
| `QuantPacking.Q50ComesBack` | src/hydroxl/HydroXLDequant.cpp:289-321 | a block written from 5-bit quants decodes to scale times (quant - 16) |
| `QuantPacking.Q51ComesBack` | src/hydroxl/HydroXLDequant.cpp:323-362 | a block written from 5-bit quants and a minimum decodes to scale times quant plus minimum |
| `QuantPacking.Q80ComesBack` | src/hydroxl/HydroXLDequant.cpp:230-243 | a block written from signed bytes decodes to scale times byte |
| `QuantPacking.ScaleMinUnpacks` | src/hydroxl/HydroXLDequant.cpp:74-83 | unpacking the packed scales and minimums of Q4_K gives each of them back |
| `QuantPacking.ScalesUnpack` | src/hydroxl/HydroXLDequant.cpp:186-194 | unpacking the packed scales of Q3_K gives each of them back |
| `ParallelDequant.ChunksPartition` | src/hydroxl/HydroXLDequant.cpp:133-147 | for every block count and thread count each block is in exactly one chunk |
| `ParallelDequant.ChunkWritersAreUnique` | src/hydroxl/HydroXLDequant.cpp:136-150 | every element has exactly one thread that writes it |
| `ParallelDequant.DecodersDecode` | src/hydroxl/HydroXLDequant.cpp:132-154 | the decoders on any number of threads, interleaved store by store in any way, end with every block decoded |
| `ParallelDequant.DecodersAreSequential` | src/hydroxl/HydroXLDequant.cpp:132-154 | the same for any values the stores write: the threads end with the output of a single loop |
| `ParallelDequant.ThreadWritesChunk` | src/hydroxl/HydroXLDequant.cpp:136-150 | the stores of a thread are the elements of its chunk, each once |
| `ParallelDequant.PlacesPermute` | src/hydroxl/HydroXLDequant.cpp:85-410 | each block decoder stores to every place of its block exactly once |
| `ParallelDequant.DecodeBlock` | src/hydroxl/HydroXLDequant.cpp:132-154 | a block is decoded in its place, nothing else changes, and the stores it makes are the recorded ones, in order |
| `ParallelDequant.ThreadsAreSequential` | src/hydroxl/HydroXLDequant.cpp:132-154 | the same for any lists of stores that cover the chunks |
| `ParallelDequant.InterleavingIsSequential` | src/hydroxl/HydroXLDequant.cpp:132-154 | whatever the schedule, once the threads are done every covered element has its value |
| `ParallelDequant.DecodeChunks` | src/hydroxl/HydroXLDequant.cpp:133-153 | whichever thread moves next, block by block, all blocks are decoded, nothing behind them is touched, and each thread makes exactly its own stores |
| `ParallelDequant.Dequantise` | src/hydroxl/HydroXLDequant.cpp:115-156 | refused exactly for no elements or a partial block; otherwise every block is decoded, on one thread or on up to four, also for F16 |
| `StreamingEngine.ProtocolIff` | src/model/StreamingEngine.cpp:13-93 | for any number of interleaved loaders, promoters and evictors: the protocol holds at every point of a run if and only if no evictor begins on a resource that is in progress |
| `StreamingEngine.StepKeepsIff` | src/model/StreamingEngine.cpp:68-73 | a step keeps the protocol if and only if it is not such a takeover |
| `StreamingEngine.OwnedIffInProgress` | src/model/ResourceResidencyManager.cpp:33-43 | a resource is LOADING or EVICTING exactly when a thread owns it, and by one thread only |
| `StreamingEngine.ClosingSucceeds` | src/model/ResourceResidencyManager.cpp:15-26 | an owner's closing transition never fails |
| `StreamingEngine.IdleIsSettled` | src/model/StreamingEngine.cpp:13-93 | after a run without takeover, with all threads done, every resource is at rest and has a valid block iff it is WARM or HOT |
| `StreamingOutcome.ReportsAreTrue` | src/model/StreamingEngine.cpp:13-93 | over any run without takeovers: when a thread reports success its resource is WARM or HOT after loading, HOT after promoting, and at its target after evicting |
| `StreamingOutcome.ReportIsTrue` | src/model/StreamingEngine.cpp:13-93 | the step that reports; and one that gives up what it had begun puts the resource back to DISK, to WARM, or to rest |
| `StreamingEngine.TakeoverStrands` | src/model/StreamingEngine.cpp:67-93 | a run of one loader and one evictor that ends with both done and the resource still LOADING, with its block |
| `StreamingThreads.StreamingThreads.Play` | src/model/StreamingEngine.cpp:13-93 | any interleaving of loaders, promoters and evictors on the residency table, through its own methods: it is a run of the protocol, so the protocol holds at every point if and only if nothing is taken over; and then, with all threads done, every resource is at rest and has its block iff the table says WARM or HOT |
| `StreamingThreads.StreamingThreads.Act` | src/model/StreamingEngine.cpp:13-93 | the next step of a thread, with the calls the source makes, is one step of the protocol |
| `ResourceResidencyManagers.SwappedIsExchanged` | src/model/ResourceResidencyManager.cpp:15-43 | what both exchanges promise is exactly the exchange the protocol steps by |
| `ResourceResidencyManagers.FirstComerWins` | src/model/ResourceResidencyManager.cpp:33-43 | of any number of attempts to take a resource out of the state it is in, exactly the first succeeds |
| `ResourceResidencyManagers.ResourceResidencyManager.TryBeginTransition` | src/model/ResourceResidencyManager.cpp:33-43 | succeeds exactly in the expected state, and then the resource is in progress; failure changes nothing, and no other resource ever changes |
| `ResourceResidencyManagers.ResourceResidencyManager.Transition` | src/model/ResourceResidencyManager.cpp:15-26 | succeeds exactly in the state it starts from, moves that resource alone, and changes nothing otherwise |
| `ResourceResidencyManagers.ResourceResidencyManager.GetResidency` | src/model/ResourceResidencyManager.cpp:6-13 | the one state that an exchange on the resource could leave now |
| `ExecutionPlanners.MakePlan` | src/planner/ExecutionPlanner.cpp:152-402 | the plan is the most preferred of all that is feasible, with the memory of its own device and the first eligible engine for its own backend; what it is planned on holds, switch by switch: streaming only where it is reported feasible; executable exactly when an accelerator fits the model wholly or in part, or the CPU fallback applies and no streaming plan shadows it; viable unless nothing is feasible or streaming finds no engine |
| `ExecutionPlanners.ExecutableMeans` | src/planner/ExecutionPlanner.cpp:152-402 | when a plan is executable, in terms of switches, capacities, 15 percent and engines alone |
| `ExecutionPlanners.BestIsRanked` | src/planner/ExecutionPlanner.cpp:305-366 | the order of preference: a whole model before a part of it, CUDA before Vulkan, and streaming before the CPU |
| `ExecutionPlanners.Choose` | src/planner/ExecutionPlanner.cpp:305-366 | the order of the tries finds the most preferred feasible way, or none when there is none; whether it can be executed does not depend on the order, except that streaming shadows the fallback |
| `ExecutionPlanners.SelectEngine` | src/planner/ExecutionPlanner.cpp:74-83 | the eligible engine with the backend whose key comes first |
| `ExecutionPlanners.MoreMemoryKeepsExecutable` | src/planner/ExecutionPlanner.cpp:244-251 | for every request: more memory on any device never turns an executable plan into one that is not, if and only if partial residency is out of the question or the model's size keeps the 64-bit comparison from turning around |
| `ExecutionPlanners.Crossing` | src/planner/ExecutionPlanner.cpp:247-251 | for every other size, a capacity at which one more byte turns it around |
| `ExecutionPlanners.WrapLosesThePlan` | src/planner/ExecutionPlanner.cpp:247-251 | where that product wraps, one more byte of memory loses the plan |
| `ExecutionPlanners.PartialLayersBounds` | src/planner/ExecutionPlanner.cpp:85-95 | at least one layer, of several never all, and no more than memory holds in proportion |

## Left out

- Vulkan, CUDA, DXGI and system detection, shaders, the llama.cpp engines, the SDKs, the command line and the plug-in interface: calls into code outside the repository; where they matter, outcomes are arbitrary.
- Clocks: `last_used` is a logical clock that may stand still; millisecond and bandwidth figures are dropped.
- Counters of the residency manager for prefetches, bytes read, stalls and reference counts, and the text of error messages.
- Exceptions thrown by node execution, and running out of memory outside the residency manager.
- Node telemetry and failure reasons of the scheduler. Map iteration is in arbitrary order, which covers the sorted order of the source.
- The wait for a future: each task finishes after some number of polls, chosen arbitrarily when it starts; a task that never finishes is not modelled.
- `MemoryManager`, `MemoryPool` and `EvictionPolicy`: in the streaming protocol a transfer may fail and leaves the block valid, an allocation may fail, and two threads never touch one block at the same instant.
- The resource object of the streaming protocol is one for each id.
- Single-precision rounding and the bit-level conversion from half precision: real numbers, and the conversion is a parameter.
- Null pointers: the model's buffers are always there.
- `HydroXLForwardPasses.Prefill`: sampling and generation behind the prompt are not modelled.
- `HydroXLKVCaches.HydroXLKVCache.WriteKV`: what happens when its bounds check lets a copy leave the array is not modelled; `CheckIsSafeIff` says exactly when that is.
- `HydroXLForwardPasses.HydroXLForwardPass.Forward`: steps that would leave a vector or an array are not modelled: those that get as far as attention in a cache whose layer size wrapped (see `WrappedIsReadOutside`), and those of a model whose vector sizes wrap at 32 bits, which by `BuffersAreExact` takes unequal groups.
- Hyperparameters are unbounded numbers where the source has 32 bits; of what follows from loading them, `Model.Shaped` states the head size (`src/hydroxl/HydroXLModel.cpp:49`) and the tensor sizes.
- `setResidency`, by which registering a resource puts it on disk whatever its state was: the streaming protocol starts from an empty table.
- Scratch buffers of the forward pass are allocated together when one does not fit; the source resizes each on its own.
- `ParallelDequant.Dequantise`: threads take turns block by block; turns store by store are in `ParallelDequant.DecodersAreSequential`, on the lists of stores the decoders are proved to make.
- `GGUFLoaders.GGUFLoader.Open`: the file is a sequence of bytes that can be read; opening it and device errors are left out. What a front means that no writer within the limits produces is what the reading functions of `GgufFormat` and `GgufTensors` say.
- `PreTokenizerLaws.CutIff`: texts are code points below 2^21 in UTF-8; where bytes that encode no text are cut is what the rules of `PreTokenizer` say, for which `PiecesPartition` holds all the same.
- `HydroXLModels.LoadTensor`: an allocation that throws is a failure; the reusable buffer for raw bytes is a value, and error messages are dropped.
- Planner texts, warnings, reasons, confidence and context limits; engine keys are ordered numbers.
- `EngineOrchestrator`, `DeviceSelector`, `PerfProfile`, `MemoryEstimator`, `CapabilityAnalyzer`: straight-line scoring, which would add only easy members.
