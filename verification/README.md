# Verified models of the simulator's state machines

The simulator is a set of small machines that pass packets to each other and update counters, rings and
tables in place once a cycle: an out-of-order core, cache levels with a speculative array beside the normal
one, a DRAM controller, prefetchers, replacement policies, a page table and a branch predictor. This project
models those machines in Dafny and proves what every run of them keeps.

Each machine comes in two forms. A module of functions on values says what one step does; lemmas prove
invariants of those functions over whole runs, conservation and ordering laws, exact conditions and
termination. A class keeps the state as the simulator does, in arrays, rings and counters changed by loops,
and every method is proved equal to its function, with the simulator's own sanity checks proved where they
stand. What each function does is stated a second time without naming it, slot by slot and request by request, in
lemmas whose names end in `Exactly`; laws over whole runs are built on those.

| files | machine |
|---|---|
| `FirstMin`, `Numbers` | the first-minimum scan that the DRAM queues and the miss registers share; bits as numbers, increasing lists |
| `DramModel`, `DramInvariant`, `DramDrain`, `DramConservation`, `DramTiming`, `DramModes`, `DramController` | DRAM controller: FR-FCFS scheduling, rows and latencies, read and write modes, drain, conservation |
| `RobModel`, `RobInvariant`, `RobSteps`, `RobOnce`, `RobProgress`, `RobCore`, `RobCycle` | reorder buffer: register dependences, the two ready rings, when instructions start, complete and retire |
| `StoreModel`, `StoreOrder`, `StoreIssue`, `StoreQueue` | stores from trace read to retirement: order queue and store queue |
| `CacheSet`, `LruOrder`, `CacheModel`, `CacheInvariant`, `CacheProvenance`, `CacheService`, `CacheFlags`, `CacheEffects`, `CacheRequests`, `CacheFills`, `CacheTiming`, `CacheCycles`, `CacheRuns`, `PacketRing`, `CacheLevel` | one cache level with speculative array, miss registers, commit queue |
| `FastSet` | the small-list and bit-set hybrid set |
| `SppModel`, `SppLearning`, `SppLookahead`, `SppPaths`, `SppAccuracy`, `SppFilter`, `SppTables`, `SppHistory`, `SppTargets` | signature path prefetcher |
| `Kpcp`, `KpcpLearning`, `KpcpPaths` | KPCP prefetcher |
| `PerceptronModel`, `Perceptron` | hashed perceptron branch predictor |
| `PageTable`, `PageRuns` | virtual to physical page maps |
| `Rrip` | SRRIP and DRRIP replacement |

What the proofs found beside the expected laws:

- The timestamp victim is the first strictly younger block, not the youngest. A younger speculative fill can
  therefore change which lines an older instruction still finds. `CacheSet` gives the exact condition, a
  concrete run, and the ordering law that holds while the condition does not arise.
- A speculative read never changes which lines the normal array holds, but a hit moves their recency order.
- A commit drops the line it promotes over, dirty or not; fills, writebacks and page swaps never lose a dirty
  line. A store can also be lost before its line is dirty: when it misses in L1D and merges with the register of
  a load, the fill leaves the line clean. `CacheRuns` has a run for each.
- A demand request that merges with a prefetch takes over its register and drops its upward fill flags; the level
  that asked is then never answered. `CacheFlags` says exactly when, over whole runs.
- The signature path prefetcher stays within its 32-place queues exactly while its global accuracy is at most
  103 percent, for every hash and table size, and its lookahead ends exactly up to 107. The counters keep the
  accuracy at 100 exactly until they are first halved; afterwards a run of accesses reaches 104.
- The store order queue never overflows exactly when no instruction has more than three destinations; with four,
  as in the cloudsuite traces, it does, and the sanity check lets the first store too many pass.
- Between arrivals the DRAM mode switches at most once more than there are requests.
- A line of an SRRIP set that was just hit outlives two full rounds of misses over the other ways.
- `join` of the hybrid set stays inside its storage exactly when its bound is below 512.
- The DRAM queues drain exactly when no waiting request carries the sentinel cycle.
- A demand on a line with remainder 0 enters an empty slot of the prefetch filter, and the line is then not
  prefetched; no other demand does that. `SppFilter` reads slots and counters off the history of accesses.
- From every valid state in which no instruction has more stores than the store queue has slots, all stores can
  leave; an older instruction with more of them never issues.

Run `dafny verify dfyconfig.toml` in this directory to check everything.

## Model

| member | source | states |
|---|---|---|
| `FirstMin.FindIsFirstMin` | `src/dram_controller.cc:606-643` | The scan finds the lowest index of the smallest cycle below UINT64_MAX, or the size of the buffer when there is none |
| `DramInvariant.PickIsFrFcfs` | `src/dram_controller.cc:129-225` | schedule() takes the oldest request whose row is open, and only when there is none the oldest request of any idle bank; among equals the lowest slot |
| `DramInvariant.PickIsEligible` | `src/dram_controller.cc:129-225` | What is picked is live, unscheduled, and its bank is idle |
| `DramInvariant.ScheduleKeeps` | `src/dram_controller.cc:129-301` | Scheduling keeps the one-to-one match between working banks and scheduled slots of the active queue, and the counters |
| `DramInvariant.ProcessIsSane` | `src/dram_controller.cc:303-348` | The slot process() works on is scheduled and is exactly the one its bank remembers: the sanity checks cannot fire |
| `DramInvariant.ProcessKeeps` | `src/dram_controller.cc:303-463` | Completing a request, or waiting for the data bus, keeps the invariant |
| `DramInvariant.ResetCancelsAll` | `src/dram_controller.cc:6-67` | The reset cancels everything in the queue that loses the turn, brings its counter to 0 and every bank to idle, and leaves the other queue's slots and counter alone |
| `DramInvariant.SwitchModeShape` | `src/dram_controller.cc:69-95` | A mode switch leaves nothing scheduled in either queue, both counters 0, every bank idle and the bus delayed; occupancies stay |
| `DramInvariant.SwitchModeKeeps` | `src/dram_controller.cc:69-95` | Switching between reads and writes keeps the invariant |
| `DramInvariant.AddRqKeeps` | `src/dram_controller.cc:466-550` | A read arriving keeps addresses distinct and occupancy equal to the live slots |
| `DramInvariant.AddWqKeeps` | `src/dram_controller.cc:552-598` | A write arriving keeps the same |
| `DramInvariant.EveryRunIsValid` | `src/dram_controller.cc:6-598` | Over every run of arrivals and cycles: a bank works iff exactly one scheduled slot of the active queue decodes to it and sits at its request index, the other queue has nothing scheduled, scheduled_reads/scheduled_writes are the true counts |
| `DramDrain.SwitchSettles` | `src/dram_controller.cc:69-95` | Right after a switch nothing is scheduled and the condition to switch back does not hold |
| `DramDrain.SwitchNeedsCompletion` | `src/dram_controller.cc:69-127` | A cycle without arrivals after which a switch is due has completed a request |
| `DramDrain.SwitchesAreBounded` | `src/dram_controller.cc:69-127` | Without arrivals the mode switches at most once more often than there are requests, however long the clock runs |
| `DramDrain.Progress` | `src/dram_controller.cc:69-127` | While requests remain, every cycle at the horizon lowers the rank 4 * occupancy + pending stages, cancelled requests included |
| `DramDrain.Drains` | `src/dram_controller.cc:69-127` | Once arrivals stop, both queues are empty from an explicit cycle computed from the state on |
| `DramDrain.NeverServed` | `src/dram_controller.cc:129-150` | A request whose event cycle is UINT64_MAX is never chosen, however long the clock runs |
| `DramDrain.DrainsExactlyWhenTimed` | `src/dram_controller.cc:69-464` | The channel drains iff no waiting request carries the sentinel cycle |
| `DramConservation.CycleConserves` | `src/dram_controller.cc:69-464` | One cycle keeps, for every answer, times given plus times owed |
| `DramConservation.ArrivalAccounts` | `src/dram_controller.cc:466-550` | An arrival adds exactly what it calls for: answered at once before warm-up or from the write queue, merged, or stored; dropped when the queue is full |
| `DramConservation.EveryRunBalances` | `src/dram_controller.cc:6-598` | Over every run, across any number of mode switches, each answer has been given exactly as often as it fell due, counting those still owed |
| `DramConservation.EveryReadIsAnswered` | `src/dram_controller.cc:6-598` | After any run, letting the clock go on to the drain bound leaves every accepted read answered exactly as often as it was due |
| `DramController.PacketQueue.UpdateScheduleCycle` | `src/dram_controller.cc:606-643` | The scanning loop stores the first minimum over waiting requests |
| `DramController.PacketQueue.UpdateProcessCycle` | `src/dram_controller.cc:645-673` | The scanning loop stores the first minimum over scheduled requests |
| `DramController.PacketQueue.CheckDramQueue` | `src/dram_controller.cc:675-708` | The first slot of an address, or -1 exactly when none holds it |
| `DramController.MemoryController.PickRequest` | `src/dram_controller.cc:129-225` | Both passes of the search find the request the FR-FCFS rule names |
| `DramController.MemoryController.Schedule` | `src/dram_controller.cc:129-301` | Bank, slot and counters end in exactly the specified state |
| `DramController.MemoryController.Process` | `src/dram_controller.cc:303-463` | Completion or bus wait in place, with the bank's request index proved equal to the slot |
| `DramController.MemoryController.ResetRemainRequests` | `src/dram_controller.cc:6-67` | The cancelling loop, with both zero checks proved |
| `DramController.MemoryController.Operate` | `src/dram_controller.cc:69-127` | One cycle of the controller is the specified step and keeps the invariant |
| `DramController.MemoryController.AddRq` | `src/dram_controller.cc:466-550` | A read is answered, merged, stored or dropped as specified; the result is the merged slot or -1 |
| `DramController.MemoryController.AddWq` | `src/dram_controller.cc:552-598` | A write merges, is stored or is dropped |
| `RobInvariant.NoEarlyStart` | `src/ooo_cpu.cc:983-1178` | No instruction starts, or is ready to, before the youngest earlier writer of each of its operands has completed |
| `RobInvariant.OldestIsNotBlocked` | `src/ooo_cpu.cc:1122-1204` | The oldest uncompleted scheduled instruction has nothing to wait for and is running, in a ready ring, or a memory instruction with its registers ready |
| `RobSteps.ProducerIsYoungest` | `src/ooo_cpu.cc:1025-1120` | The backward walk links each source to the youngest earlier writer that has not completed |
| `RobSteps.LastWriterIsProducer` | `src/ooo_cpu.cc:1025-1120` | An uncompleted last writer is the one linked |
| `RobSteps.InsertKeeps` | `src/ooo_cpu.cc:440-477` | Dispatch keeps the invariant |
| `RobSteps.ScheduleKeeps` | `src/ooo_cpu.cc:983-1120` | Scheduling keeps num_reg_dependent equal to the number of source slots linked to uncompleted older producers |
| `RobSteps.IssueRte0Keeps` | `src/ooo_cpu.cc:1122-1160` | Starting from RTE0 keeps the invariant |
| `RobSteps.IssueRte1Keeps` | `src/ooo_cpu.cc:1140-1178` | Starting from RTE1 keeps the invariant |
| `RobSteps.CompleteKeeps` | `src/ooo_cpu.cc:1938-2046` | Completion releases every recorded consumer and puts each that has nothing left to wait for into a ring, once |
| `RobSteps.ReleasedOpen` | `src/ooo_cpu.cc:1999-2046` | Releasing a producer closes exactly the source slots that were linked to it |
| `RobSteps.RetireKeeps` | `src/ooo_cpu.cc:2560-2668` | Retirement keeps the invariant |
| `RobSteps.EveryReachableStateIsValid` | `src/ooo_cpu.cc:983-2046` | Every state the pipeline reaches satisfies the whole invariant |
| `RobOnce.StepEnters` | `src/ooo_cpu.cc:1122-1204` | Having entered a ready ring is never undone before retirement, and changes exactly with a push |
| `RobOnce.EntersExactlyOnce` | `src/ooo_cpu.cc:983-2046` | Over every run until it retires, a non-memory instruction is pushed into RTE0 or RTE1 at most once, exactly once by the time it has started, and never again |
| `RobSteps.RingsHaveRoom` | `src/ooo_cpu.cc:2013-2044` | The rings together hold at most one slot per instruction, so a push always finds an empty place |
| `RobCore.ReadyRing.Push` | `src/ooo_cpu.cc:2013-2044` | A push takes the free place at the tail and appends to the queue the ring stands for |
| `RobCore.ReadyRing.Pop` | `src/ooo_cpu.cc:1122-1178` | A pop frees the head and leaves the rest in order |
| `RobCore.O3Core.AddToRob` | `src/ooo_cpu.cc:440-477` | The instruction takes the tail entry of the reorder buffer |
| `RobCore.O3Core.RegRawDependency` | `src/ooo_cpu.cc:1084-1120` | One producer and one consumer are linked as specified, at most once for each source |
| `RobCore.O3Core.RegDependency` | `src/ooo_cpu.cc:1025-1082` | The nested backward loops over the ring link exactly the specified producers |
| `RobCore.O3Core.DoScheduling` | `src/ooo_cpu.cc:983-1023` | Scheduling, with dependency search and entry into RTE0 when nothing is open |
| `RobCore.O3Core.ExecuteInstruction` | `src/ooo_cpu.cc:1122-1178` | Both rings are issued from the head, up to the execution width |
| `RobCore.O3Core.RegRawRelease` | `src/ooo_cpu.cc:1999-2046` | The release loop wakes exactly the specified consumers |
| `RobCore.O3Core.CompleteExecution` | `src/ooo_cpu.cc:1938-1997` | Completion in place is the specified step |
| `RobCore.O3Core.UpdateRob` | `src/ooo_cpu.cc:2060-2093` | The sweep from the head completes what is due |
| `RobCore.O3Core.RetireRob` | `src/ooo_cpu.cc:2560-2668` | Completed instructions leave from the head, in order, up to the retire width |
| `StoreOrder.StoresAreSorted` | `src/ooo_cpu.cc:247-261` | Stores in flight are sorted by instruction, then by destination |
| `StoreOrder.NextIsHere` | `src/ooo_cpu.cc:1311-1341` | When the order queue names an instruction, its next store is the first one not yet in the store queue |
| `StoreOrder.AddStoresKeeps` | `src/ooo_cpu.cc:1287-1344` | check_and_add_lsq keeps the order whatever instruction it is called for |
| `StoreOrder.ReleaseFromHead` | `src/ooo_cpu.cc:2625-2648` | The slot freed at retirement is always the head of the store queue, and what is sent are the instruction's own stores |
| `StoreOrder.RetireKeeps` | `src/ooo_cpu.cc:2560-2668` | Retirement keeps ring contents and order |
| `StoreOrder.StepKeeps` | `src/ooo_cpu.cc:1287-1624` | Every step keeps the ring equal to the oldest stores in flight, oldest at the head |
| `StoreOrder.StoresLeaveInProgramOrder` | `src/ooo_cpu.cc:247-2648` | Over every run, stores written and then stores in flight are exactly the stores read, in program order: none lost, doubled or reordered |
| `StoreOrder.StaSufficesExactly` | `src/ooo_cpu.cc:247-261` | Over all runs that respect the fetch, decode and reorder buffers, the order queue has a place for every waiting store iff no instruction has more than three destinations |
| `StoreOrder.StaOverflows` | `src/ooo_cpu.cc:247-261` | With four destinations, as in cloudsuite traces, a run from the empty machine that fills the reorder buffer needs more places than the order queue has |
| `StoreQueue.OrderQueue.Push` | `src/ooo_cpu.cc:247-261` | A push appends at a free place; on a full queue it passes the sanity check and overwrites the oldest store; the push after that fails the check |
| `StoreQueue.StoreBuffers.ReadFromTrace` | `src/ooo_cpu.cc:247-261` | Every used destination joins the order queue in order while they fit; one too many silently replaces the oldest waiting store, and exactly two or more too many stop at the sanity check |
| `StoreQueue.StoreBuffers.AddStoreQueue` | `src/ooo_cpu.cc:1563-1615` | The store takes the tail slot, proved empty, and leaves the order queue |
| `StoreQueue.StoreBuffers.CheckAndAddLsq` | `src/ooo_cpu.cc:1311-1344` | The loop over destinations queues what it may; the result is 0 exactly when every store is queued |
| `StoreQueue.StoreBuffers.DoMemoryScheduling` | `src/ooo_cpu.cc:1266-1285` | An instruction issues only with all its loads and stores queued |
| `StoreQueue.StoreBuffers.WriteStores` | `src/ooo_cpu.cc:2576-2623` | What retirement sends are the contents of the instruction's slots |
| `StoreQueue.StoreBuffers.ReleaseSlots` | `src/ooo_cpu.cc:2625-2648` | Each slot freed is proved to be the head |
| `StoreQueue.StoreBuffers.RetireOldest` | `src/ooo_cpu.cc:2560-2668` | One round of retirement is the specified step |
| `CacheSet.AdmittedExactly` | `replacement/timestamp_replacement.cc:3-59` | A speculative fill is admitted iff fewer than all ways hold valid blocks no younger than it |
| `CacheSet.VictimIsYounger` | `replacement/timestamp_replacement.cc:29-46` | The victim is a free way or a strictly younger block |
| `CacheSet.AdmissionIgnoresYounger` | `replacement/timestamp_replacement.cc:3-59` | Admission depends only on blocks no younger than the fill, wherever they sit |
| `CacheSet.YoungerFillIsInvisible` | `replacement/timestamp_replacement.cc:3-59` | A fill changes nothing that strictly older instructions can see |
| `CacheSet.OlderFillIsUndisturbedExactly` | `replacement/timestamp_replacement.cc:29-46` | Younger blocks influence what an older fill leaves visible at timestamp t iff the first strictly younger block is visible at t although a block invisible at t could have gone |
| `CacheSet.YoungerFillsLeaveNoTrace` | `replacement/timestamp_replacement.cc:3-59` | Over every run of fills: while no fill up to t evicts a block visible at t, the set looks up to t as if the younger fills had never happened |
| `CacheSet.YoungerFillMattersToOlder` | `replacement/timestamp_replacement.cc:29-46` | Without that proviso it fails: a concrete run of three fills in two ways, because the first strictly younger block goes and not the youngest |
| `LruOrder.TouchKeeps` | `replacement/base_replacement.cc:73-81` | lru_update keeps the lru fields a permutation of 0 .. ways - 1 |
| `LruOrder.VictimExists` | `replacement/base_replacement.cc:23-71` | lru_victim always finds a way: its assert is unreachable |
| `LruOrder.RankIsRecency` | `replacement/base_replacement.cc:73-81` | Over the whole history of lru_update calls, one way ranks before another iff it was touched later |
| `LruOrder.VictimIsLeastRecent` | `replacement/base_replacement.cc:23-71` | With all ways valid the victim is the way whose last touch lies furthest back |
| `CacheInvariant.CandidateIsFirst` | `src/cache.cc:2044-2086` | The register handle_fill works on holds data, at the smallest cycle, and no such register with a lower index |
| `CacheInvariant.AddKeeps` | `src/cache.cc:2137-2161` | A new register goes to a free place, keeps live addresses distinct and occupancy equal to the live count |
| `CacheInvariant.RemoveKeeps` | `src/cache.cc:357-366` | Freeing a register keeps the same, and its address is gone |
| `CacheInvariant.MergeKeeps` | `src/cache.cc:927-1022` | Merging, and a demand request taking over a prefetch, changes neither address nor whether and when data came |
| `CacheInvariant.FillKeeps` | `src/cache.cc:6-371` | handle_fill keeps the invariant |
| `CacheInvariant.WriteKeeps` | `src/cache.cc:373-684` | handle_writeback keeps the invariant |
| `CacheInvariant.ReadKeeps` | `src/cache.cc:686-1083` | handle_read keeps the invariant |
| `CacheInvariant.PrefetchKeeps` | `src/cache.cc:1085-1320` | handle_prefetch keeps the invariant |
| `CacheInvariant.CommitKeeps` | `src/cache.cc:2195-2284` | commit_blocks keeps the invariant, recency order included |
| `CacheInvariant.EveryRunIsValid` | `src/cache.cc:6-2351` | Over every run: live miss registers have distinct addresses, occupancy counts them, the cached candidate is the first minimum, recency orders are permutations, live read and prefetch queue addresses and commit queue keys are distinct |
| `CacheProvenance.SpeculationKeepsLines` | `src/cache.cc:686-1083` | Only a fill for a request that is not speculative, a write, a commit or a page swap can change which lines the normal array holds |
| `CacheProvenance.SpeculativeReadIsInvisibleExactly` | `src/cache.cc:747-755` | A read that hits the normal array leaves it untouched iff the line already was the most recent of its set: speculation moves the recency order |
| `CacheProvenance.RunExplained` | `src/cache.cc:6-2351` | Over every run each block of the normal array, by line and timestamp, goes back to a request that was not speculative, or to a speculative one and a commit message of the line at least as young; each speculative block to a speculative request with its timestamp |
| `CacheProvenance.UncommittedLinesStayHidden` | `src/cache.cc:6-2351` | A line that only speculative requests asked for, never covered by a commit message, is nowhere in the normal array |
| `CacheProvenance.BlockLeavesExactly` | `src/cache.cc:278-369` | One step removes a speculative block iff it is a strictly older speculative fill of its set that picks its way, or a commit or squash of its line, at least as young, that finds it |
| `CacheProvenance.BlocksLeaveExactly` | `src/cache.cc:278-2284` | Over every run a speculative block stays in place throughout iff no such fill, commit or squash happens |
| `CacheProvenance.DirtyLinesAreLostExactly` | `src/cache.cc:2226-2256` | A dirty line neither stays nor is written back iff a commit promotes another line over it |
| `CacheRuns.DirtyLineIsLost` | `src/cache.cc:2226-2256` | A run from the empty cache after which a commit loses a dirty line |
| `CacheService.RefusedFillReturns` | `src/cache.cc:278-368` | A speculative fill is refused iff its set is full of blocks no younger; it then comes back as exactly one completed register of its address, with its waiters, and nothing else changes |
| `CacheService.NoFillStarves` | `src/cache.cc:6-371` | Over every run with room for writebacks below, a register with data is tried after no more other fills than registers due no later, however often refused fills come back |
| `CacheService.BlockedFillHoldsUpAll` | `src/cache.cc:112-166` | With the write queue below full, a normal fill in front does nothing iff its victim is dirty, and holds up every other fill |
| `CacheFlags.StepHolds` | `src/cache.cc:927-1022` | One step: a fill_l1i or fill_l1d flag is held afterwards iff the step brings it, or it was held and is not taken from the last request that carried it |
| `CacheFlags.FlagsAreLostExactly` | `src/cache.cc:6-1996` | Over every run: a flag still waits or is part of an answer given since, unless a demand request without it took over the prefetch register that carried it last, or that prefetch was handed to the level below; without later requests for it exactly then it is gone |
| `CacheRuns.FlagIsLost` | `src/cache.cc:1013-1022` | A run from the empty cache in which the flag of a prefetch for L1D is overtaken by a demand from L1I; on every continuation without a new request, L1D is never answered |
| `CacheService.NoLoadIsLost` | `src/cache.cc:686-1083` | Over every run of a cache the core talks to, each accepted load waits in the read queue or the register of its line, or its answer has gone out |
| `CacheService.MessagesKeepTheirOrder` | `src/cache.cc:2195-2351` | Commit messages handed on and then those waiting are exactly those taken, in order; duplicates and messages at a full queue are dropped |
| `CacheEffects.ReadIsServedExactly` | `src/cache.cc:686-1083` | A due read is answered iff its line is in the normal array, or in the speculative one from an instruction no younger; otherwise it waits or its line has a register |
| `CacheEffects.WriteIsRecorded` | `src/cache.cc:373-684` | A write that leaves the queue has left its line dirty in its set, or after a miss in L1D a register, whose fill marks the line dirty iff there was no register or one of a prefetch or another store |
| `CacheRuns.StoreIsLost` | `src/cache.cc:464-498` | A run from the empty L1D in which a store merges with the register of a load and is lost: its line ends clean and no write waits |
| `CacheEffects.NormalFillInstalls` | `src/cache.cc:168-356` | A normal fill leaves its line in the set, most recent, and frees the register |
| `CacheEffects.SpeculativeFillIsVisible` | `src/cache.cc:278-358` | An admitted speculative fill makes its line visible to exactly its own and younger instructions |
| `CacheEffects.CommitMovesTheLine` | `src/cache.cc:2214-2262` | A commit moves one visible copy, clean, to the normal array; a squash removes it; otherwise neither array changes |
| `PacketRing.Ring.CheckQueue` | `src/block.cc:3-93` | The place of the oldest matching packet, or -1 iff none matches, also when head equals tail and the ring is full |
| `PacketRing.Ring.Push` | `src/block.cc:95-118` | Appends to the queue the ring stands for; the place was free |
| `PacketRing.Ring.Pop` | `src/block.cc:120-145` | Removes the oldest packet and clears its place |
| `CacheLevel.Cache.CheckHit` | `src/cache.cc:1442-1477` | The first way of the set with the line, or -1 |
| `CacheLevel.Cache.CheckSpecHit` | `src/cache.cc:1479-1518` | The first way with the line from an instruction no younger, or -1 |
| `CacheLevel.Cache.FindTimestampVictim` | `replacement/timestamp_replacement.cc:3-59` | The two scanning loops find the specified victim, or the number of ways when the fill is refused |
| `CacheLevel.Cache.FindLruVictim` | `replacement/base_replacement.cc:23-71` | The two scanning loops find the specified victim; the assert after them is proved unreachable |
| `CacheLevel.Cache.LruUpdate` | `replacement/base_replacement.cc:73-81` | The loop over the ways in place is the specified touch |
| `CacheLevel.Cache.CheckMshr` | `src/cache.cc:2088-2135` | The first register with the address, or -1 iff there is none |
| `CacheLevel.Cache.UpdateFillCycle` | `src/cache.cc:2044-2086` | The scan stores the first minimum over registers with data |
| `CacheLevel.Cache.HandleFill` | `src/cache.cc:6-371` | handle_fill in place is the specified step and keeps the invariant |
| `CacheLevel.Cache.HandleWriteback` | `src/cache.cc:373-684` | handle_writeback in place is the specified step and keeps the invariant |
| `CacheLevel.Cache.HandleRead` | `src/cache.cc:686-1083` | One round of handle_read is the specified step and keeps the invariant |
| `CacheLevel.Cache.HandlePrefetch` | `src/cache.cc:1085-1320` | One round of handle_prefetch is the specified step and keeps the invariant |
| `CacheLevel.Cache.ReturnData` | `src/cache.cc:1998-2042` | Returned data completes the register of its address |
| `CacheLevel.Cache.CommitBlocks` | `src/cache.cc:2195-2284` | Up to four messages a cycle, in order, each moving or squashing one line; the packets are proved speculative |
| `CacheLevel.Cache.AddRead` | `src/cache.cc:1587-1747` | Answered by a waiting write, merged, refused at a full queue, or queued, with the matching result code |
| `CacheLevel.Cache.AddWrite` | `src/cache.cc:1749-1803` | Merged or queued |
| `CacheLevel.Cache.AddPrefetch` | `src/cache.cc:1883-1996` | Answered, merged, refused or queued |
| `CacheLevel.Cache.AddCommit` | `src/cache.cc:2286-2351` | Merged, refused or queued, with the matching result code |
| `CacheLevel.Cache.InvalidateEntry` | `src/cache.cc:1520-1585` | Takes the first matching way out of the normal array |
| `CacheLevel.Cache.Operate` | `src/cache.cc:1322-1330` | One cycle: fill, write, reads, commits, and prefetches in the read slots left over, with room below looked at afresh by each stage and round |
| `CacheInvariant.CycleIsARun` | `src/cache.cc:1322-1330` | A cycle is a run of exactly these steps: one fill, one write, as many reads as allowed, four messages, and, when a prefetch waits, as many prefetches as reads were left over |
| `FastSet.LoadAfterStore` | `inc/set.h:26-33` | A 16-bit value stored in the shared bits reads back unchanged |
| `FastSet.InsertedIsUnion` | `inc/set.h:55-72` | Sorted insertion keeps the list strictly increasing and adds exactly the one element |
| `FastSet.JoinCoversExactly` | `inc/set.h:221-227` | The words join combines cover all elements below n; they lie inside the storage iff n < 512 |
| `FastSet.Set.InsertSmall` | `inc/set.h:55-72` | The shifting loop performs sorted insertion in place |
| `FastSet.Set.SearchSmall` | `inc/set.h:89-120` | Linear and binary search decide membership |
| `FastSet.Set.SmallToBit` | `inc/set.h:124-134` | The storage holds afterwards exactly the bits of the values it held, although both share it |
| `FastSet.Set.Insert` | `inc/set.h:147-171` | insert adds one element, across the switch at thirteen values |
| `FastSet.Set.Search` | `inc/set.h:175-193` | search decides membership in both forms |
| `FastSet.Set.Join` | `inc/set.h:198-228` | join is set union for elements below n < 512 |
| `FastSet.Set.Expand` | `inc/set.h:232-264` | expand lists exactly the members, strictly increasing, and returns their number |
| `SppModel.UpdateKeeps` | `prefetcher/spp_dev.l2c_pref:269-329` | update_pattern keeps sum(c_delta) < c_sig <= 15 in every touched set |
| `SppModel.VictimExists` | `prefetcher/spp_dev.l2c_pref:294-327` | The search for a victim way always succeeds |
| `SppModel.SharesAreLimited` | `prefetcher/spp_dev.l2c_pref:340-343` | With accuracy up to 103 the shares of a set reach at most 96 percent, up to 100 at most 93 |
| `SppLookahead.RoundSpends` | `prefetcher/spp_dev.l2c_pref:57-116` | A round that queues candidates strictly lowers the path confidence, and pays for every place it takes |
| `SppLookahead.PlacesAreLimited` | `prefetcher/spp_dev.l2c_pref:57-116` | Whatever the tables and wherever signatures hash: at most 26 places are ever taken, at least one a round, with confidences below 100 |
| `SppLookahead.LookaheadEnds` | `prefetcher/spp_dev.l2c_pref:57-116` | With accuracy up to 103 the do-while ends within 27 rounds |
| `SppLookahead.LookaheadEndsExactly` | `prefetcher/spp_dev.l2c_pref:57-116` | For every hash and table size: the do-while ends for all trained tables iff the accuracy is at most 107 |
| `SppLookahead.QueueSufficesExactly` | `prefetcher/spp_dev.l2c_pref:57-116` | For every hash and table size: the 32-place queues suffice for all trained tables iff the accuracy is at most 103 |
| `SppLookahead.HotIsReachable` | `prefetcher/spp_dev.l2c_pref:269-329` | The set that overruns the queues above that limit arises from fifteen updates with one delta |
| `SppAccuracy.UsedWereIssued` | `prefetcher/spp_dev.l2c_pref:66-86` | Until the counters are halved, used prefetches and those waiting for their use together never exceed those issued |
| `SppAccuracy.BoundHoldsExactly` | `prefetcher/spp_dev.l2c_pref:66-86` | Over all runs of accesses and fills in which at most k prefetches pass the filter, the accuracy is at most 100 iff k is at most 1023, that is, iff the counters were never halved |
| `SppAccuracy.AccuracyOutrunsTheQueues` | `prefetcher/spp_dev.l2c_pref:66-86` | A run of accesses, each demand before its prefetches and each fill with its eviction, reaches accuracy 104, past the limit for every hash |
| `SppTables.RecordedKeeps` | `prefetcher/spp_dev.l2c_pref:465-516` | Confidences below 100 leave a victim in the history register, so its assert is unreachable |
| `SppTables.Prefetcher.UpdatePattern` | `prefetcher/spp_dev.l2c_pref:269-329` | update_pattern in place is the specified update and keeps every set trained and in page |
| `SppTables.Prefetcher.ReadPattern` | `prefetcher/spp_dev.l2c_pref:331-373` | read_pattern queues exactly the ways that pass the threshold and finds the best |
| `SppTables.Prefetcher.UpdateEntry` | `prefetcher/spp_dev.l2c_pref:465-516` | A matching entry is refreshed, else the first of least confidence replaced; the assert fires iff there is neither, and never while confidences stay below 100 |
| `SppTables.Prefetcher.Lookahead` | `prefetcher/spp_dev.l2c_pref:48-116` | For every accuracy the loop stops: with exactly the specified candidates, each asked of the filter or remembered, at a write past the queues, or at the history register's assert; up to accuracy 103 always the first, within 26 places |
| `Kpcp.LearnKeeps` | `inc/kpcp.h:327-407` | L2_PT_update keeps sum(c_delta) <= c_sig < 16, and unused ways count nothing; a home for the delta always exists |
| `Kpcp.AdvanceIsSound` | `prefetcher/kpcp.l2c_pref:226-311` | With MAX_CONF at most 99 each lookahead round strictly lowers the path confidence and keeps the queue sound |
| `Kpcp.LookaheadIsSafe` | `prefetcher/kpcp.l2c_pref:144-314` | The lookahead ends, num_pf never exceeds 32, no queued delta is 0 and every prefetch stays in the page |
| `Kpcp.Prefetcher.PtUpdate` | `inc/kpcp.h:327-407` | L2_PT_update in place is the specified update |
| `Kpcp.Prefetcher.PfCheck` | `prefetcher/kpcp.l2c_pref:144-314` | PF_check leaves the specified candidates in the buffer; the asserts on zero deltas are unreachable |
| `PageTable.NoSharing` | `src/main.cc:383-584` | Two virtual pages never share a physical page |
| `PageTable.TouchKeeps` | `src/main.cc:383-584` | Every translation, swaps included, keeps the maps inverse to each other, allocated_pages equal to their size and num_adjacent_page at most 512 |
| `PageTable.EveryRunKeepsTheMaps` | `src/main.cc:383-584` | The same over every run, whatever pages are drawn |
| `PageTable.TranslationsMoveExactly` | `src/main.cc:410-470` | A page loses its translation iff memory is full, the new page is unknown, and it is the first page of the table |
| `PageTable.AddressesStayApart` | `src/main.cc:553-577` | Offsets survive; two addresses meet iff page and offset agree |
| `PageTable.Pager.VaToPa` | `src/main.cc:383-584` | va_to_pa is the specified translation |
| `PageTable.Pager.PlacePage` | `src/main.cc:476-546` | The drawing loop ends at a free page; the unsigned decrement never leaves a wrapped value |
| `PerceptronModel.PushIsOneBranch` | `branch/hashed_perceptron.bpred:182-195` | After each branch bit k of word i is the outcome 12i + k branches ago |
| `PerceptronModel.IndexIsFoldedHistory` | `branch/hashed_perceptron.bpred:129-162` | Each index bit is the PC bit XOR the parity of exactly the n most recent outcomes in its residue class mod 12 |
| `PerceptronModel.OlderOutcomesDoNotMatter` | `branch/hashed_perceptron.bpred:129-162` | Histories that agree on the n most recent outcomes give the same index |
| `PerceptronModel.TrainingMovesTheSum` | `branch/hashed_perceptron.bpred:203-215` | Training moves the sum towards the outcome by exactly the number of weights not saturated |
| `PerceptronModel.MispredictionTeaches` | `branch/hashed_perceptron.bpred:203-215` | After a misprediction the sum always moves |
| `PerceptronModel.AdjustKeeps` | `branch/hashed_perceptron.bpred:217-240` | theta stays at least 0 and tc within the training speed |
| `Perceptron.Predictor.PredictBranch` | `branch/hashed_perceptron.bpred:122-174` | Indices and sum are those of the folded history; the prediction is the sign of the sum |
| `Perceptron.Predictor.LastBranchResult` | `branch/hashed_perceptron.bpred:176-242` | History, weights and threshold after a branch: 18 * theta + tc moves by one with each misprediction and weak correct prediction; no other weight changes, and all stay in -128 .. 127 |
| `Rrip.AgeingKeepsOrder` | `replacement/srrip.llc_repl:22-36` | Ageing shifts every way of the set by the same amount, stays in 0 .. 3 and keeps the victim |
| `Rrip.OneInThirtyTwo` | `replacement/drrip.llc_repl:81-105` | Exactly one in 32 consecutive BIP insertions is near |
| `Rrip.Intervals.FindVictim` | `replacement/srrip.llc_repl:19-36` | The unbounded loop ends; it returns the first way of maximal old interval and ages all ways equally |
| `Rrip.ScanResistance` | `replacement/srrip.llc_repl:19-68` | Among lines not used since they came, a line outlives as many misses in a row as its interval leaves rounds and lines stand at the maximum; for the first way exactly that many |
| `Rrip.PromotedOutlivesTwoRounds` | `replacement/srrip.llc_repl:19-68` | A line just hit outlives two full rounds of misses over the other ways |
| `Rrip.Intervals.Replace` | `replacement/srrip.llc_repl:19-68` | A miss, victim search and insertion in place, is the step of the scan lemmas |
| `Rrip.Intervals.UpdateDrrip` | `replacement/drrip.llc_repl:65-108` | Insertion by set duelling; PSEL stays in 0 .. 1023 and bip_counter below 32 |
| `DramTiming.DueExactly` | `src/dram_controller.cc:129-301` | Scheduling gives exactly one slot and its bank the cycle now + tCAS where the bank's open row was the row of the address, and now + tRP + tRCD + tCAS otherwise |
| `DramTiming.NextIsRowHit` | `src/dram_controller.cc:129-301` | Over every run: the next request to the same row of a bank, with no other request to the bank and no switch between, is due tCAS after it gets the bank |
| `DramTiming.SwitchKeepsRowsExactly` | `src/dram_controller.cc:6-67` | After a switch a bank that was working has its row open iff the column access had begun, tCAS before its cycle; an idle bank keeps its row |
| `DramTiming.CompletionsAreApart` | `src/dram_controller.cc:303-463` | Over every run two completions lie at least the bus time apart: the data bus serves one request at a time |
| `DramTiming.DueCompletesExactly` | `src/dram_controller.cc:303-463` | The request in front completes iff its cycle, its bank and the bus have come; while only the bus is busy its bank waits for the bus |
| `DramModes.SwitchesExactly` | `src/dram_controller.cc:69-95` | A cycle turns to writes iff 56 wait, or any with no read left; and back iff no write is left, or reads wait and fewer than 48 writes do |
| `DramModes.WritesComeInBursts` | `src/dram_controller.cc:69-127` | Over every run, whatever arrives: with w writes waiting the channel writes on for w - 48 cycles |
| `DramModes.ReadsGoFirst` | `src/dram_controller.cc:69-127` | Over every run: with reads waiting the channel reads on for as many cycles as there are reads, while fewer than 56 writes have gathered |
| `DramModes.DecodersAreExact` | `src/dram_controller.cc:710-777` | Bank, column and row together are the address: no two line addresses of 26 bits share all three |
| `RobProgress.CompletesExactly` | `src/ooo_cpu.cc:1938-1997` | One visit completes an instruction iff it runs, its cycle has come and, for a memory instruction, no operation is outstanding |
| `RobProgress.CompletedAfterReturns` | `src/ooo_cpu.cc:1938-1997` | Over every run: a memory instruction dispatched with k operations is completed only after k of them returned |
| `RobProgress.CompletesNoEarlier` | `src/ooo_cpu.cc:1122-1204` | Over every run: an instruction is completed no earlier than the execution latency after it started |
| `RobProgress.StartsNoEarlier` | `src/ooo_cpu.cc:983-1178` | Over every run: an instruction starts no earlier than the scheduling latency after it was scheduled |
| `RobProgress.MemoryStartsExactly` | `src/ooo_cpu.cc:1266-1285` | A memory instruction starts iff it is scheduled, its registers are ready and it was not running |
| `RobCycle.SweepCompletesExactly` | `src/ooo_cpu.cc:2060-2093` | The sweep of a cycle completes exactly the live instructions that run, are due and have no operation outstanding |
| `RobCycle.ExecuteExactly` | `src/ooo_cpu.cc:1122-1178` | A cycle starts exactly the leading entries of the two rings that are due, RTE0 first, up to the execution width together, with the latency added |
| `RobCycle.RetireExactly` | `src/ooo_cpu.cc:2560-2668` | A cycle retires exactly the completed instructions in front, up to the width, and changes no other |
| `StoreIssue.QueuedExactly` | `src/ooo_cpu.cc:1287-1344` | Once everything older is queued, check_and_add_lsq takes exactly the stores there is room for; before that none |
| `StoreIssue.IssuesExactly` | `src/ooo_cpu.cc:1266-1285` | An instruction issues iff its loads are queued and every store of it is; nothing else is issued or completed |
| `StoreIssue.OldestIssuesExactly` | `src/ooo_cpu.cc:1266-1344` | The oldest instruction issues, whatever is queued, iff the store queue can hold all its stores at once |
| `StoreIssue.CompletesExactly` | `src/ooo_cpu.cc:1938-1997` | Exactly an issued instruction completes |
| `StoreIssue.AllStoresCanLeave` | `src/ooo_cpu.cc:1266-2668` | From every valid state in which no instruction has more stores than the queue, a run without further reads writes all stores in flight, in order, and leaves nothing behind |
| `CacheCycles.NoFillStarvesOverCycles` | `src/cache.cc:1322-1330` | Over every run of whole cycles, with anything arriving between them: once data has returned, its fill is tried within as many cycles as there are registers due no later, and one |
| `CacheCycles.CyclePassesMessages` | `src/cache.cc:2195-2284` | A cycle passes on exactly the first four messages that wait, or all of fewer |
| `CacheRequests.WriteHitExactly` | `src/cache.cc:373-438` | A due write that hits marks the first copy dirty and makes it most recent unless it is a writeback; all else stays |
| `CacheRequests.ReadHitExactly` | `src/cache.cc:686-800` | A due read that hits is answered and makes the first copy most recent; all else stays |
| `CacheRequests.PrefetchHitExactly` | `src/cache.cc:1085-1165` | A due prefetch that hits is answered and makes the first copy most recent; all else stays |
| `CacheRequests.MissStallsExactly` | `src/cache.cc:876-926` | A miss waits iff its line has no register and none is free, or the level below is full |
| `CacheRequests.ReadMissExactly` | `src/cache.cc:860-1083` | A due read that misses has a register for its line afterwards, or waits under that condition; only the last level looks below |
| `CacheRequests.PrefetchMissExactly` | `src/cache.cc:1165-1320` | A due prefetch that misses waits, passes by when meant for a level further down, or has a register |
| `CacheRequests.StoreMissExactly` | `src/cache.cc:438-545` | A due store that misses in L1D waits iff its line has no register and none is free |
| `CacheRequests.MergesExactly` | `src/cache.cc:927-1022` | A register serves both requests: flags and waiters of either, the nearer fill level, the same data and cycle; a demand takes over that of a prefetch |
| `CacheRequests.ReadArrivesExactly` | `src/cache.cc:1587-1747` | Answered by the first write of its line with its data, merged into the first read, refused at a full queue, or last in the queue one latency away |
| `CacheRequests.PrefetchArrivesExactly` | `src/cache.cc:1883-1996` | The same for a prefetch, merging flags and the nearer level |
| `CacheRequests.WriteArrivesExactly` | `src/cache.cc:1749-1803` | A write or message behind one of its line is dropped, a message also at a full queue; any other is last in its queue |
| `CacheFills.NormalFillExactly` | `src/cache.cc:112-366` | Held up iff the line replaced is dirty and there is no room below; else the least recent or first free way holds the line, most recent, dirty iff a store in L1D, what was dirty is written back, and the register is free |
| `CacheFills.WritebackMissExactly` | `src/cache.cc:545-684` | A write that misses below L1D is installed dirty in that way, under the same condition |
| `CacheFills.SpeculativeFillExactly` | `src/cache.cc:278-369` | The line goes to the first free way, else the first younger block, in its place in the order; with neither the arrays stay; the normal array always does |
| `CacheFills.CommitExactly` | `src/cache.cc:2195-2284` | The first visible copy is dropped; a commit writes it, clean, over the first free or least recent normal way and writes nothing back |
| `CacheFills.InvalidatedExactly` | `src/cache.cc:1520-1585` | Exactly the first copy leaves the normal array |
| `CacheTiming.NothingIsHandledEarly` | `src/cache.cc:6-1996` | Over every run: as long as everything that waits or arrives is due at cycle v or later, one latency after it came, no handler does anything before v |
| `SppLearning.UpdateExactly` | `prefetcher/spp_dev.l2c_pref:269-329` | Exactly one way changes: on a hit the way with the delta gains one, on a miss the first way of the smallest count gets the delta with count 0; all counts are halved when c_sig passes 15 |
| `SppLearning.ForgottenExactly` | `prefetcher/spp_dev.l2c_pref:294-308` | A delta is forgotten iff another one not held arrives and its way is the first of the smallest count |
| `SppLearning.CountedDeltaSurvives` | `prefetcher/spp_dev.l2c_pref:269-329` | Over every run of misses: a delta counted more often than some other way survives, its count only halved with c_sig, while something is left of it |
| `SppLearning.HitsAreCounted` | `prefetcher/spp_dev.l2c_pref:269-292` | Over every run of hits: each count grows by exactly the occurrences of its delta until c_sig passes 15 |
| `SppPaths.OnlyFourDeltasCount` | `prefetcher/spp_dev.l2c_pref:104-107` | A signature is made of the codes of the last four deltas |
| `SppPaths.FourthLastDeltaCounts` | `prefetcher/spp_dev.l2c_pref:104-107` | Of the fourth last exactly the three lowest bits are left |
| `SppPaths.RoundExactly` | `prefetcher/spp_dev.l2c_pref:331-373` | A round lists exactly the ways that pass, in way order, and follows the first of the most confident; it is the last iff none passes |
| `SppPaths.LookaheadFollowsItsPath` | `prefetcher/spp_dev.l2c_pref:57-116` | After any number of rounds the signature is that of the deltas followed, one a level, each the leader at its place |
| `SppHistory.CheckEntry` | `prefetcher/spp_dev.l2c_pref:518-531` | The first of the most confident entries with the offset, or the number of entries |
| `SppHistory.RecordedExactly` | `prefetcher/spp_dev.l2c_pref:465-516` | Exactly one entry changes: the one of this offset, else the first of least confidence |
| `SppHistory.RecordedIsFound` | `prefetcher/spp_dev.l2c_pref:465-531` | Round trip: check_entry finds what was recorded last for an offset; any other offset keeps what it had unless its entry was the one replaced |
| `SppFilter.PassesExactly` | `prefetcher/spp_dev.l2c_pref:375-402` | Over every run: a prefetch passes iff its line is not the one that the accesses left in its slot |
| `SppFilter.CountersAreHistory` | `prefetcher/spp_dev.l2c_pref:66-86` | Over every run, halving included: prefetches issued and used are those the history of accesses gives, slots aside |
| `KpcpLearning.LearnExactly` | `inc/kpcp.h:327-407` | All counts are halved when c_sig reaches 16; then exactly one way changes: a hit adds one, a miss gives the first unused way, else the first of the smallest count, to the delta with count 0 |
| `KpcpLearning.NothingForgottenWhileFree` | `inc/kpcp.h:327-407` | Over every run: as many updates as there are free ways forget nothing |
| `KpcpLearning.CountedDeltaSurvives` | `inc/kpcp.h:327-407` | Over every run of misses: a counted delta survives while some other way counts nothing and something is left of its count |
| `KpcpPaths.SignatureIsNeverZero` | `inc/kpcp.h:105-123` | A delta other than 0 never leads to signature 0 |
| `KpcpPaths.OpeningExactly` | `prefetcher/kpcp.l2c_pref:144-225` | The first level queues exactly the ways that pass and stay in the page, in way order |
| `KpcpPaths.AdvanceExactly` | `prefetcher/kpcp.l2c_pref:226-311` | A round follows the first way of the largest count among those that pass and queues where it leads, inside the page and not the block itself; else the loop ends |
| `KpcpPaths.QueueIsPath` | `prefetcher/kpcp.l2c_pref:144-314` | What is queued after the first level are exactly the places touched by a path of steps, each the delta of the way that leads in its set |
| `PageRuns.AllocateExactly` | `src/main.cc:476-546` | The new page gets the neighbour of the previous one while a run lasts and it is free, else the first free draw, which begins a new run |
| `PageRuns.RunsAreConsecutive` | `src/main.cc:476-546` | Over every run of new pages that a run of neighbours covers, they get consecutive physical pages, whatever is drawn |
| `PageRuns.QueueIsLastArrivals` | `src/main.cc:460-530` | Over every run the page queue holds the pages that came last, in order, as many as memory has room for |
| `PerceptronModel.AdjustMovesByOne` | `branch/hashed_perceptron.bpred:217-240` | 18 * theta + tc rises by one after a misprediction, falls by one after a weak correct prediction, and else stays |
| `PerceptronModel.ThresholdBalances` | `branch/hashed_perceptron.bpred:217-240` | Over every run 18 * theta + tc is its start plus mispredictions minus weak correct predictions |
| `Rrip.SelectorBalances` | `replacement/drrip.llc_repl:81-105` | Over every run of misses PSEL is its start plus the misses of SRRIP leaders minus those of BIP leaders, but for those that find it at its end |
| `Rrip.FollowersFollow` | `replacement/drrip.llc_repl:81-105` | A follower inserts as a BIP leader would iff PSEL is above 511, and does not move it |
| `SppPaths.SignAndSize` | `prefetcher/spp_dev.l2c_pref:104-106` | A delta is coded by its size and a sign bit: no two deltas have the same code |
| `SppPaths.LastDeltaCounts` | `prefetcher/spp_dev.l2c_pref:104-107` | Deltas with different codes lead to different signatures |
| `SppLearning.UpdateKeepsDistinct` | `prefetcher/spp_dev.l2c_pref:269-329` | No delta is ever held twice in a set |
| `CacheRequests.DataReturnsExactly` | `src/cache.cc:1998-2042` | Returned data completes exactly the register of its line, with the data sent, one latency after it came |
| `DramModes.WriteIsStored` | `src/dram_controller.cc:552-598` | A write of a new address takes the first empty slot as it is, and is dropped at a full queue |
| `KpcpPaths.OpenExactly` | `prefetcher/kpcp.l2c_pref:144-225` | The path starts along the first way of the largest count among those that pass, with its delta and share; without one it ends at once |
| `DramModes.ResultsExactly` | `src/dram_controller.cc:466-598` | add_rq and add_wq return the slot of the same address already waiting, or -1; a read answered by a write gets -1 |
| `SppTargets.AsksExactly` | `prefetcher/spp_dev.l2c_pref:57-92` | The filter is asked about exactly the candidates inside the page, in order, each at its own block |
| `SppTargets.CrossingIsFound` | `prefetcher/spp_dev.l2c_pref:84-92` | At the first access to the next page check_entry finds, for its block, the candidate that left the page there last |
| `SppTargets.BaseFollowsPath` | `prefetcher/spp_dev.l2c_pref:97-108` | After any number of rounds base_addr is the accessed block moved by all deltas followed, in 64-bit arithmetic, and the signature is theirs |
| `SppTables.Prefetcher.IssueCandidates` | `prefetcher/spp_dev.l2c_pref:57-92` | The loop asks the filter and updates the history register as specified, candidate by candidate |
| `SppTargets.TargetIsBlock` | `prefetcher/spp_dev.l2c_pref:65-67` | A delta counts blocks: the target is the start of the block that many places on |
| `DramModes.BeginsWithReads` | `src/dram_controller.cc:69-95` | The channel begins with reads; no arrival alone turns it |
| `RobProgress.NoOperandsNoWait` | `src/ooo_cpu.cc:983-1023` | An instruction whose operands are all unused is ready when scheduled |
| `KpcpPaths.SamePageExactly` | `prefetcher/kpcp.l2c_pref:135-142` | A prefetch stays in the page iff its block lies in the page of 64 blocks of the access |

## Left out

General:

- Trace reading, statistics, printing, heartbeat and warm-up bookkeeping; multi-core indexing (one clock, one core).
- Cycle counters are unbounded numbers that stay below UINT64_MAX; nothing is said about a clock that wraps.
- Prefetcher hooks called from the caches do nothing, as in the `no` prefetchers; LLC bypass code is not compiled in.
- Random draws are inputs: the pages drawn by the page table, and which sets lead in DRRIP.

DRAM controller:

- One channel and one rank, as in the default configuration; row-buffer and congestion statistics.
- DramConservation.ArrivalAccounts: a read arriving at a full read queue is dropped silently by the code, and so owes nothing here.

Reorder buffer:

- `ROB.next_fetch[1]` is never written, so the window loop of `schedule_instruction` always sees limit 0; the loop and its counters are left out, and scheduling is modelled for any instruction in program order.
- The link goes to the youngest uncompleted writer, which may be older than a completed youngest one; modelled as the code has it.
- Dependence sets are mathematical sets in the core; `FastSet` proves that the hybrid set is one.
- Fetch, decode and branch resolution; the in-flight counters that only guard `update_rob`; memory instructions are present but their address translation and cache traffic are events.
- Stalling at retirement on a full L1D write queue, and the commit messages sent there.

Stores:

- Loads appear only as a parameter of memory scheduling; store translation, the RTS rings and store-to-load forwarding are left out.
- Room in the L1D write queue at retirement is assumed.
- StoreQueue.StoreBuffers.ReadFromTrace: nothing is said about the machine once its order queue has been overwritten.

Cache level:

- The three TLBs, which share the code but answer with page numbers. The last level takes the LRU policy for its victims; RRIP policies are modelled on their own in `Rrip`.
- Each `served` entry stands for one answer; whether it goes to the processed queue or to the upper instruction or data cache is not modelled, nor is a full processed queue.
- Requests sent to the level below are the packets just put into a register; that its read queue has room is not part of this model.
- CacheService.NoLoadIsLost: covers the waiters of a cache fed by the core with one kind of request; mixed instruction and data waiters in one register are left out.
- CacheFlags.FlagsAreLostExactly: a write that merges on arrival with one already waiting adds nothing and so brings no flag.
- CacheLevel.Cache.CommitBlocks: the messages handed on are recorded in `passed`; their arrival in the next level is that level's own `AddCommit`.
- `used` and `prefetch` bits and prefetcher metadata in blocks feed statistics only.
- A speculative set count of 0, which switches the speculative array off.
- Swapping a page out invalidates normal lines only, as in the code; speculative copies of it stay.

Prefetchers:

- `get_hash` is a parameter: results hold for every hash into the table. The signature tables and their LRU are left out.
- SppTables.Prefetcher.Lookahead: says nothing about what follows a write past the queues; what the filter then lets pass is modelled in `SppAccuracy` and `SppFilter`.
- SppLookahead.LookaheadEndsExactly: confidences are unbounded numbers; where they would outgrow 32 bits the queues have long been left.
- SppAccuracy.BoundHoldsExactly: takes filter quotients and remainders as inputs in place of hashed addresses, and which candidates are confident enough as given.
- The KPCP history register is not compiled in; its bitmap filter and accuracy counters are left out, MAX_CONF being a parameter up to 99.

Others:

- SHiP: its victim loop is the one in `Rrip`; the sampler and its counters add only bounds.
- PageTable: cache invalidation at a swap is an event of the cache model; `page_queue` follows the code, although its front need not be the page swapped out.
- Simple branch predictors (bimodal, gshare), next-line and stride prefetchers.
