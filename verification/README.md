# SimpleScalar scheduling, caching and tracing, verified

A Dafny model of the stateful parts of a SimpleScalar tree with its course extensions, with proofs of what they are for.

- **Tomasulo scheduler** (`TomasuloModel`, `TomasuloInvariant`, `TomasuloTheorems`, `TomasuloArbitration`, `TomasuloTiming`, `Tomasulo`). A cycle-stepped out-of-order pipeline: a 16-entry queue, 5 + 3 reservation stations, 3 + 1 units, one common data bus and a map table. `Tomasulo.Pipeline` is the program, over arrays updated in place by five stage methods and their in-place sorts; `TomasuloModel` gives each stage as a function on states. An instruction pointer is the instruction's index in the trace, 0 being NULL. The theorems are about every state of every run: hazards, order, conservation, arbitration, exact timing told by opcode flags and cycle numbers, and the exact condition under which the loop ends.
- **Set-associative cache** (`CacheModel`, `CacheInvariant`, `CacheTransparency`, `CacheReplacement`, `CacheAccounting`, `CacheCheck`, `CacheSets`, `CacheMachine`, `StridePrefetcher`, `StrideRuns`). `CacheMachine.CacheUnit` has the last-block shortcut, per-set doubly linked way lists and hash chains of `cache.c`, with block pointers as indices into a set's contiguous allocation and -1 as NULL. Each operation equals a function of `CacheModel`, where a set is just the list of its lines in way order; transparency, recency, accounting and prefetching are proved there.
- **Paged memory** (`MemoryModel`, `MemoryTheorems`, `PageRecency`, `Memory`). The inverted page table with move-to-front buckets and pages allocated on first write refines a flat byte map, and its buckets list pages by last use.
- **External I/O traces** (`Exo`, `SyscallTrace`, `SyscallReplay`, `SyscallFaults`, `SyscallBlobs`, `Eio`, `Checkpoint`, `EioTerms`). Recording a system call as blobs and registers, replaying it, and dumping and restoring architected state.
- **Number text** (`IntegerText`, `NumeralText`), **return-address stack** (`ReturnStack`), **two-level predictor** (`TwoLevelPredictor`), **instruction trace** (`InstrTrace`).

`Arithmetic`, `NatSets` and `FlatMemory` hold what several modules use: words and division, finite sets, and the flat byte map.

## Conditions and findings

- The scheduler assumes of its trace what the source needs: register numbers inside the map table (a negative or zero one names none), and no trap as the last entry, past which `fetch` would run. Entry 0 of the trace is the slot the simulator leaves unused. Instructions that use neither unit and are not control are allowed, as the code lets them pass.
- The comment at `tomasulo.c:252` says that stores have no output register. The loop's end needs less, and exactly this: every result that somebody waits for comes from an instruction that can reach the bus (`Drainable`). `EndsIffDrainable` proves both directions, and `StoreWithOutputNeverEnds` gives a one-instruction trace on which the loop runs for ever.
- `cache_access` compares the block address with `last_tagset` before it looks at `last_blk`, and both are reset to 0 and NULL (`cache.c:352-353`, `838-839`, `767`). An access to block 0 while there is no last block would follow NULL, so `CacheUnit.Access` requires a last block or a nonzero block number, and no more; `CacheMachine.Safe` is that condition for whole programs, and the prefetching methods state it for the block they fetch.
- The span check at `cache.c:761` wraps at 32 bits. In the last block of the address space only accesses that end at the top pass, and an oversized access that ends at the top passes too (`CheckIsNotFit`); for aligned accesses the check means fitting the block exactly when access and block both end at the top or neither does (`AcceptedFits`).
- With the next-line prefetcher and a single set that is not LRU with two ways, the demanded block can be evicted by its own prefetch: `NextLineCanEvict` is an input, and `NextLineOneSet` says exactly when, in terms of the cache before the access.
- Three equal strides always settle a stride entry. Two settle it exactly when the entry was in the initial phase or already had that stride (`TwoStridesSettle`); an entry of another stride that is steady, transient or without a prediction is not settled by two (`TwoStridesDoNotSettle`).
- The comment at `bpred.c:719-722` hopes that resetting the top of the return-address stack undoes a wrong path. It does for every frame the wrong path neither popped nor came round to (`SquashKeepsFrame`), and a squashed return and call destroy the top frame (`SquashCanCorrupt`). Exactly: a slot is restored if and only if no squashed call landed on it or the last one to do so pushed the address that was there (`SquashExactly`).
- The trace recorder notes an access before it knows whether it faults: a faulting read by what its buffer holds, a faulting write by bytes that are never stored. A replay repeats a call whose accesses do not fault (`RecordThenReplay`), which holds of the one-byte accesses that `mem_bcopy` and `mem_strcpy` make (`memory.c:295-361`); for other calls `ReplayWithFaults` says exactly when, and `FaultingWriteReplays` is one that it does not repeat.
- `-9223372036854775808` prints and parses back to the right value, but `myatosq` reports ERANGE for it.

## Model

| member | source | states |
|---|---|---|
| TomasuloTheorems.RawDependencesRespected | simplesim-3.0d-assig3/tomasulo.c:327-340 | In every state of every run, an instruction that has started did so strictly after the bus cycle of the latest earlier writer of each register it reads, whatever the trace. |
| TomasuloTheorems.EndsIffDrainable | simplesim-3.0d-assig3/tomasulo.c:593-608 | The main loop ends if and only if every result that a station or the final map table waits for comes from an instruction that can reach the bus. |
| TomasuloTheorems.ExitsInTime | simplesim-3.0d-assig3/tomasulo.c:593-608 | On such traces the loop leaves within the sum of 9 cycles per integer or memory instruction, 11 per floating-point one and 2 per control one, so within 11 per instruction. |
| TomasuloTheorems.DoneMeansDrainable | simplesim-3.0d-assig3/tomasulo.c:139-148 | If the emptiness test ever succeeds the trace was drainable: the other direction of the exact condition. |
| TomasuloTheorems.ResultsOnBusSuffice | simplesim-3.0d-assig3/tomasulo.c:250-252 | The rule the source relies on, that only bus writers name output registers, implies the exact condition. |
| TomasuloTheorems.StoreWithOutputNeverEnds | simplesim-3.0d-assig3/tomasulo.c:258-269 | A one-instruction trace, a store with an output register, on which the loop never ends: its map table entry is never cleared. |
| TomasuloTheorems.WorkBound | simplesim-3.0d-assig3/tomasulo.c:594-608 | While the test has not succeeded, the work left after n cycles plus n is at most the total demand: every cycle makes progress. |
| TomasuloTheorems.OneCycleEach | simplesim-3.0d-assig3/tomasulo.c:506-550 | and no run ends in fewer cycles than the trace has non-trap instructions. |
| TomasuloTheorems.DoneMeansComplete | simplesim-3.0d-assig3/tomasulo.c:111-150 | The emptiness test, which never looks at the fetch index, succeeds after a cycle only when the whole trace was fetched and every non-trap instruction has finished. |
| TomasuloTheorems.FetchedWhenEmpty | simplesim-3.0d-assig3/tomasulo.c:537-550 | A queue that is empty at a cycle end means that nothing is left to fetch. |
| TomasuloTheorems.OnePlaceEach | simplesim-3.0d-assig3/tomasulo.c:111-150 | At every cycle end a non-trap instruction is in exactly one of: unfetched, queued, in a station, in a station and a unit, on the bus, finished. |
| TomasuloTheorems.StageTiming | simplesim-3.0d-assig3/tomasulo.c:214-420 | Dispatch, issue and execute cycles increase strictly; a result goes over the bus at least 5 cycles after execution starts for integer operations, loads and stores and 7 for floating-point operations, and stores never do. The kinds are read off the opcode flags. |
| TomasuloTiming.ResultTiming | simplesim-3.0d-assig3/tomasulo.c:214-301 | and from that cycle on, in each cycle, either the result has gone over the bus or an older one goes in this very cycle: the exact timing of the bus in every run. |
| TomasuloTiming.StartTiming | simplesim-3.0d-assig3/tomasulo.c:313-420 | At every cycle end an issued instruction whose operands were all broadcast in earlier cycles has started, or exactly three others (one for floating point) of its kind are executing. |
| TomasuloTiming.IssueTiming | simplesim-3.0d-assig3/tomasulo.c:430-496 | In every cycle the oldest queued instruction is issued, or leaves at once if it uses no unit, unless all five (three for floating point) stations of its kind are taken. |
| TomasuloTiming.DispatchTiming | simplesim-3.0d-assig3/tomasulo.c:506-550 | In a cycle before which all older instructions have been dispatched the next one is dispatched, unless sixteen wait in the queue at its end. |
| TomasuloTiming.Capacities | simplesim-3.0d-assig3/tomasulo.c:26-34 | At no cycle end are more than three (one) executing or more than five (three) stationed. |
| TomasuloTiming.StoreLeaves | simplesim-3.0d-assig3/tomasulo.c:258-298 | A store that has started leaves its station and unit exactly five cycles later, however busy the bus is. |
| TomasuloTheorems.InOrderFrontEnd | simplesim-3.0d-assig3/tomasulo.c:430-550 | Dispatch and issue follow program order with at most one instruction a cycle: when an instruction has been dispatched or issued, every older one that ever is has been already, in an earlier cycle. No two instructions share a bus cycle. |
| TomasuloArbitration.RunsAreFair | simplesim-3.0d-assig3/tomasulo.c:239-269 | Every state of every run records only fair grants: whenever an instruction got a unit or the bus, each older contender of its kind had got it before, got it with it, or was held up by a late operand or by its latency. |
| TomasuloArbitration.OldestStartsFirst | simplesim-3.0d-assig3/tomasulo.c:342-365 | Of two instructions of one kind the younger starts first only while the older still waits for a producer or has not been issued. |
| TomasuloArbitration.OldestWritesFirst | simplesim-3.0d-assig3/tomasulo.c:239-269 | Of two finished results the bus takes the older first. |
| TomasuloInvariant.Reachable | simplesim-3.0d-assig3/tomasulo.c:593-608 | The full invariant (queue, places, stage stamps, map table, waits, read-after-write safety) holds in every state of every run. |
| TomasuloInvariant.RetireInv | simplesim-3.0d-assig3/tomasulo.c:160-203 | Broadcasting the bus keeps the invariant: the map table still names the youngest writer whose result is pending, and no wake-up is lost. |
| TomasuloInvariant.ToBusInv | simplesim-3.0d-assig3/tomasulo.c:214-301 | The bus stage keeps the invariant. |
| TomasuloInvariant.GrantInv | simplesim-3.0d-assig3/tomasulo.c:313-420 | Starting the oldest resolved instructions on free units keeps the invariant, read-after-write safety included. |
| TomasuloInvariant.ToIssueInv | simplesim-3.0d-assig3/tomasulo.c:430-496 | Issue and renaming keep the invariant, also for a producer that goes over the bus in the same cycle. |
| TomasuloInvariant.ToDispatchInv | simplesim-3.0d-assig3/tomasulo.c:506-550 | Fetching past traps into the queue keeps the invariant. |
| Tomasulo.Pipeline.CDBToRetire | simplesim-3.0d-assig3/tomasulo.c:160-203 | In place, exactly the stage of the model: the broadcast, over the station arrays and the map table. |
| Tomasulo.Pipeline.ExecuteToCDB | simplesim-3.0d-assig3/tomasulo.c:214-301 | In place, exactly the stage of the model: gathering finished instructions, sorting them in place, selecting the bus writer and all finished stores, and clearing their slots. |
| Tomasulo.Pipeline.IssueToExecute | simplesim-3.0d-assig3/tomasulo.c:313-420 | In place, exactly the stage of the model: gathering resolved instructions, sorting them in place and giving them the first free units, for both kinds. |
| Tomasulo.Pipeline.DispatchToIssue | simplesim-3.0d-assig3/tomasulo.c:430-496 | In place, exactly the stage of the model: the station search, the hazard, the renaming through the map table and the removal from the queue. |
| Tomasulo.Pipeline.Fetch | simplesim-3.0d-assig3/tomasulo.c:506-526 | In place, exactly the stage of the model: reading the chunked trace, the skip over traps and the shift of the queue array. |
| Tomasulo.Pipeline.FetchToDispatch | simplesim-3.0d-assig3/tomasulo.c:537-550 | In place, exactly the stage of the model: the guards around a fetch and the dispatch stamp. |
| Tomasulo.Pipeline.IsSimulationDone | simplesim-3.0d-assig3/tomasulo.c:111-150 | True exactly when queue, stations, units, bus and map table are all empty. |
| Tomasulo.Pipeline.RunTomasulo | simplesim-3.0d-assig3/tomasulo.c:562-609 | Terminates on every drainable trace, in the state after the first cycle at which the emptiness test holds, and returns one more than that number of cycles, within both bounds. |
| Tomasulo.SortOldestFirst | simplesim-3.0d-assig3/tomasulo.c:239-248 | The exchange sort leaves the same instructions in ascending order of index. |
| Tomasulo.GrantUnits | simplesim-3.0d-assig3/tomasulo.c:325-366 | The units gain exactly the oldest resolved instructions, as many as there are free units, and these are stamped with the cycle. |
| Tomasulo.Pick | simplesim-3.0d-assig3/tomasulo.c:254-269 | Of the finished instructions in age order, the bus gets the first that is not a store; it and all the stores are listed for clearing, and nothing else. |
| InstrTrace.Trace.Put | simplesim-3.0d-assig3/instr.c:51-66 | Appends one entry to the flat trace the chunks stand for, starting a chunk when all are full. |
| InstrTrace.Trace.Get | simplesim-3.0d-assig3/instr.c:69-79 | Returns the entry of the flat trace at the index, or the zeroed slot when the index is in the last chunk past the recorded entries; only an index past all chunks is excluded, on which the source asserts. |
| InstrTrace.FlatAt | simplesim-3.0d-assig3/instr.c:69-79 | Entry j of chunk k is entry k * 1000000 + j of the trace. |
| InstrTrace.FlatAppend | simplesim-3.0d-assig3/instr.c:51-66 | Filling the last chunk and starting a new one both append to the flat trace. |
| CacheMachine.ServeAndFlush | simplesim-3.0d-assig4/cache.c:733-1081 | A new data cache with both indices, the last-block shortcut and linked lists serves any program that does not access block 0 while there is no last block, and is flushed: every answer, and every byte left in the next level, is that of a flat zero-initialised memory. |
| CacheMachine.CacheUnit.constructor | simplesim-3.0d-assig4/cache.c:261-412 | Builds an empty cache: all blocks invalid, way lists and hash chains consistent, no last block. |
| CacheMachine.CacheUnit.Access | simplesim-3.0d-assig4/cache.c:733-1000 | An access, by shortcut, hash chain or way list, has exactly the effect and the output of a search of the abstract way list; afterwards there is a last block exactly when the access hit. |
| CacheMachine.CacheUnit.HitAccess | simplesim-3.0d-assig4/cache.c:905-1000 | The slow and the fast hit handler have the same effect: data, dirty bit, way order, counters and the last block. |
| CacheMachine.CacheUnit.MissAccess | simplesim-3.0d-assig4/cache.c:799-885 | A miss replaces the victim, writes it back if dirty, fills, counts, and forgets the last block. |
| CacheMachine.CacheUnit.Probe | simplesim-3.0d-assig4/cache.c:1006-1042 | True exactly when the next access to the block counts as a hit. |
| CacheMachine.CacheUnit.Flush | simplesim-3.0d-assig4/cache.c:1046-1081 | The loops over sets and way lists write back and invalidate exactly as the model, in list order. |
| CacheMachine.CacheUnit.FlushAddr | simplesim-3.0d-assig4/cache.c:1086-1140 | A block that is present is invalidated, written back if dirty and moved to the tail; an absent one changes nothing. |
| CacheMachine.CacheUnit.Demand | simplesim-3.0d-assig4/cache.c:580-707 | An access by a program, with prefetching off or by next line; the recursion is one prefetch deep. |
| CacheMachine.CacheUnit.DemandStride | simplesim-3.0d-assig4/cache.c:660-681 | An access by a program with the stride prefetcher: the table row is updated and the block of the address it wants is brought in if absent. |
| CacheMachine.CacheUnit.Serve | simplesim-3.0d-assig4/cache.c:733-1140 | Over any sequence of accesses and flushes the machine gives the answers and reaches the state of the model. |
| CacheMachine.MissEffect | simplesim-3.0d-assig4/cache.c:799-885 | On a miss the block read after the write-back is the block that was in the next level before it: the victim is never the block asked for. |
| CacheSets.CacheSet.SearchWays | simplesim-3.0d-assig4/cache.c:789-797 | The walk along the way list finds the valid block with the tag, if there is one. |
| CacheSets.CacheSet.SearchChain | simplesim-3.0d-assig4/cache.c:774-787 | The walk along one hash chain finds the same block. |
| CacheSets.CacheSet.ChainHoldsTag | simplesim-3.0d-assig4/cache.c:774-787 | Every valid block with a tag is on the chain the tag hashes to. |
| CacheSets.CacheSet.Evict | simplesim-3.0d-assig4/cache.c:818-835 | Takes the tail, moved to the head, or the drawn block, and unhashes it. |
| CacheSets.CacheSet.Install | simplesim-3.0d-assig4/cache.c:872-895 | Fills the slot and hashes it under its new tag. |
| CacheSets.CacheSet.Promote | simplesim-3.0d-assig4/cache.c:931-936 | Moves a block to the head of the way order and nothing else. |
| CacheSets.WayList.MoveToHead | simplesim-3.0d-assig4/cache.c:193-257 | The doubly linked list becomes the same list with the block in front; it stays a permutation of the blocks with mirrored links. |
| CacheSets.WayList.MoveToTail | simplesim-3.0d-assig4/cache.c:193-257 | Likewise with the block at the end. |
| CacheSets.FrontLinked | simplesim-3.0d-assig4/cache.c:193-246 | The pointer updates of the move to the head turn the links of one order into those of the other. |
| CacheSets.BackLinked | simplesim-3.0d-assig4/cache.c:193-254 | Likewise for the tail. |
| CacheSets.HashChains.Link | simplesim-3.0d-assig4/cache.c:177-186 | Puts a block at the front of one chain; no block is on two chains or twice on one. |
| CacheSets.HashChains.Unlink | simplesim-3.0d-assig4/cache.c:144-173 | Takes a block out of its chain and leaves every other chain alone. |
| CacheSets.UnlinkChained | simplesim-3.0d-assig4/cache.c:144-173 | Splicing out one block keeps all chains acyclic, disjoint and complete. |
| CacheModel.BlockNumberParts | simplesim-3.0d-assig4/cache.c:61-70 | The block address built from a tag and a set has that tag and that set. |
| CacheInvariant.ApplyOk | simplesim-3.0d-assig4/cache.c:733-1140 | Every operation keeps each set a permutation of its blocks in which no two valid blocks share a tag. |
| CacheInvariant.FindAfterMiss | simplesim-3.0d-assig4/cache.c:818-895 | After a miss the new tag is found with its fill, the victim's tag is gone, and every other tag is found as before. |
| CacheTransparency.TransparentCache | simplesim-3.0d-assig4/cache.c:733-1081 | With data blocks and no prefetching, every read of any sequence of accesses and flushes returns what a flat memory holds, and after a flush the next level equals the flat memory. |
| CacheTransparency.RunsLikeFlatMemory | simplesim-3.0d-assig4/cache.c:733-1081 | The same from any cache that represents a flat memory. |
| CacheTransparency.LookasideLogical | simplesim-3.0d-assig4/cache.c:733-1000 | An access changes the contents of its own block only, and only when it writes. |
| CacheTransparency.FlushLogical | simplesim-3.0d-assig4/cache.c:1046-1081 | A flush changes no block's contents, leaves nothing cached, and makes the next level alone hold them. |
| CacheTransparency.FlushWritesEachDirtyBlockOnce | simplesim-3.0d-assig4/cache.c:1062-1075 | The blocks a flush hands to the next level for writing are exactly those that were valid and dirty, each once, and the write-back counter grows by their number. |
| CacheTransparency.FlushBlockStores | simplesim-3.0d-assig4/cache.c:1086-1140 | Flushing one block changes no block's contents, leaves the flushed block uncached, and makes the next level hold what the program sees in it. |
| CacheReplacement.LruIsRecencyStack | simplesim-3.0d-assig4/cache.c:817-822 | Under LRU the valid blocks of a set, from the head on, are exactly the last associativity-many distinct tags used in it, latest first. |
| CacheReplacement.RecentByLastUse | simplesim-3.0d-assig4/cache.c:931-936 | The recency stack used as reference lists tags in decreasing order of last use. |
| CacheReplacement.RecentMembers | simplesim-3.0d-assig4/cache.c:931-936 | and holds exactly the tags that were used. |
| CacheReplacement.WiderHoldsMore | simplesim-3.0d-assig4/cache.c:817-822 | With equal sets and block size, what an LRU cache holds a wider one holds too, after every history. |
| CacheReplacement.WiderHitsMore | simplesim-3.0d-assig4/cache.c:905-919 | so the wider one counts at least as many hits. |
| CacheReplacement.ValidBlocksAccounted | simplesim-3.0d-assig4/cache.c:801-850 | For every policy and any mix of accesses, prefetches and flushes, valid blocks are misses plus prefetch misses less replacements less invalidations. |
| CacheReplacement.RunTails | simplesim-3.0d-assig4/cache.c:1120-1139 | Under LRU and FIFO, after any sequence of operations on a new cache, the invalid blocks of a set form the tail of its way list, |
| CacheReplacement.ReplacesOnlyFullSets | simplesim-3.0d-assig4/cache.c:817-850 | so a valid block is replaced only when its whole set is valid. |
| CacheReplacement.NextLineRunKeepsBoth | simplesim-3.0d-assig4/cache.c:580-588 | With the next-line prefetcher, after every demand access of any run the block and its successor are both resident, if there are two sets or LRU with two ways. |
| CacheReplacement.NextLineOneSet | simplesim-3.0d-assig4/cache.c:580-588 | With one set, on the cache before the access: the demanded block is resident afterwards exactly when the successor is present and is not evicted by the access itself, or the slot the demanded block ends in is not the next victim, which depends on the policy, the associativity, where it was found and the draw. |
| CacheReplacement.NextLineCanEvict | simplesim-3.0d-assig4/cache.c:580-588 | An access whose block is gone afterwards: a direct-mapped cache of one block that reads block 1 and prefetches block 2. |
| CacheReplacement.NextLineRunNeverHits | simplesim-3.0d-assig4/cache.c:584-587 | Prefetch hits stay 0: each prefetch follows a probe that failed. |
| CacheReplacement.Survives | simplesim-3.0d-assig4/cache.c:818-895 | A resident block is lost by an access exactly when it is the victim of a miss in its own set. |
| CacheAccounting.WritebacksExactly | simplesim-3.0d-assig4/cache.c:841-868 | Since the cache was created, under every policy and over any accesses, prefetches and flushes, a block has been written back exactly as often as it left the cache after having been written there, and the write-back counter is the number of those writes. |
| CacheAccounting.CountersExactly | simplesim-3.0d-assig4/cache.c:799-968 | Over any operations the counters of hits, misses, read hits, read misses, prefetch hits and prefetch misses are the numbers of accesses of those kinds that found or did not find their block. |
| CacheAccounting.NextBlockExactly | simplesim-3.0d-assig4/cache.c:580-588 | The next-line prefetcher asks for the following block, and for block 0 after the last of the address space. |
| CacheCheck.AcceptedExactly | simplesim-3.0d-assig4/cache.c:753-762 | The size, alignment and span checks, in 32-bit arithmetic, accept an access exactly when it is aligned and either fits a block that does not end at the top of the address space or itself ends exactly there. |
| CacheCheck.AcceptedFits | simplesim-3.0d-assig4/cache.c:753-762 | For an aligned access, acceptance means fitting the block exactly when the access and the block both end at the top of the address space or neither does. |
| CacheCheck.CheckIsNotFit | simplesim-3.0d-assig4/cache.c:758-762 | Two accesses at the top on which the check is not the property: a fitting one rejected, an oversized one let through. |
| StridePrefetcher.StrideConverges | simplesim-3.0d-assig4/cache.c:529-576 | An instruction that shares its row with no other has, after three equal strides from any state, a steady entry with that stride, and each further access wants exactly the next address. |
| StridePrefetcher.ThreeStridesSettle | simplesim-3.0d-assig4/cache.c:529-573 | Three equal deltas settle an entry from every state, |
| StridePrefetcher.TwoStridesSettle | simplesim-3.0d-assig4/cache.c:535-573 | and two settle it exactly when it was in the initial phase or already had that stride, |
| StridePrefetcher.TwoStridesDoNotSettle | simplesim-3.0d-assig4/cache.c:535-573 | so in each of the other three phases there is an entry that two do not settle. |
| StridePrefetcher.DeltaExactly | simplesim-3.0d-assig4/cache.c:529-535 | The stride computed from two addresses is the one signed 32-bit number that leads from the earlier to the later modulo 2 to the 32. |
| StridePrefetcher.MissesForgiven | simplesim-3.0d-assig4/cache.c:555-562 | After an unshared instruction has settled at a stride, accesses that break it are forgiven as long as no two in a row do: each one, the broken ones included, asks for its own address plus that stride, and the row is steady again as soon as the stride is met. |
| StridePrefetcher.AsksNothingExactly | simplesim-3.0d-assig4/cache.c:535-572 | Once the stride is lost, and until it settles again, an access asks for nothing exactly when its step differs from the step before, and else for the next address at that step. |
| StridePrefetcher.RowTakenOver | simplesim-3.0d-assig4/cache.c:529-532 | An instruction that takes a row over from another starts afresh, whatever the row went through. |
| StrideRuns.StrideRunFetchesNext | simplesim-3.0d-assig4/cache.c:660-681 | In any run from a new cache and table, after an access by an instruction that shares its row with no other and has kept its stride for three steps, the block of the next address at that stride is in the cache, |
| StrideRuns.ConvergedAccessHits | simplesim-3.0d-assig4/cache.c:660-681 | so if that address is asked for next, the access counts as a hit and not as a miss. |
| StridePrefetcher.SlotReplays | simplesim-3.0d-assig4/cache.c:669-673 | An unshared row depends on its own instruction's accesses only. |
| StridePrefetcher.Table.Observe | simplesim-3.0d-assig4/cache.c:660-681 | The in-place update is the next state of the table, and the result is the address to prefetch for. |
| MemoryTheorems.PagedRefinesFlat | simplesim-3.0d-assig3/memory.c:141-219 | Every access of a run from an initialised memory is answered as a flat zero-initialised byte map answers it, which decides faults by division of 4096 and of the address by the size; the page count is the number of entries, never decreases, and reads leave it alone. |
| MemoryTheorems.StepRefines | simplesim-3.0d-assig3/memory.c:141-219 | One access, from any valid page table that agrees with a flat map. |
| MemoryTheorems.FaultsExactly | simplesim-3.0d-assig3/memory.c:149-155 | An access of a positive size succeeds exactly when the size divides 4096 and the address; it is an access fault when the size does not divide 4096 and an alignment fault when only the address is no multiple. Size 0 passes at address 0 only. |
| MemoryTheorems.WriteThenRead | simplesim-3.0d-assig3/memory.c:141-219 | A write whose size divides 4096 and its address is read back by the next access of that size there, in particular every aligned byte, half word, word and quad word. |
| PageRecency.BucketsByRecency | simplesim-3.0d-assig3/memory.c:78-135 | After any run a bucket lists exactly the pages written so far, in decreasing order of their last use by any access, and the page count is the number of pages written. |
| PageRecency.LookupsExactly | simplesim-3.0d-assig3/memory.h:119-164 | The lookups and first-level misses of one more access after any run: none when it is refused or empty; one of each per byte for a read of a page never written; otherwise two lookups per byte and one miss, or none when no page of the same bucket was used later. |
| MemoryTheorems.LocateOk | simplesim-3.0d-assig3/memory.c:78-106 | A lookup, with its move to the front, changes no translation and keeps one entry per page. |
| MemoryTheorems.ToFrontTranslates | simplesim-3.0d-assig3/memory.c:94-100 | Moving an entry to the front of its bucket translates every tag as before. |
| MemoryTheorems.WriteOk | simplesim-3.0d-assig3/memory.h:133-164 | A byte write changes that byte and no other, maps its page and no other, and counts a page exactly when it was unmapped. |
| MemoryTheorems.ReadOk | simplesim-3.0d-assig3/memory.h:151-154 | A byte read changes no byte and allocates nothing. |
| MemoryTheorems.WithinPage | simplesim-3.0d-assig3/memory.c:149-155 | An access that passes the checks lies in one page, so its address cannot wrap. |
| MemoryModel.PageAddressParts | simplesim-3.0d-assig3/memory.h:105-116 | The page address built from a tag and a bucket, plus an offset, has that tag, bucket and offset. |
| Memory.PageTable.Translate | simplesim-3.0d-assig3/memory.c:78-106 | The bucket walk returns the page and leaves exactly the bucket with the entry in front, and counts the miss. |
| Memory.PageTable.Page | simplesim-3.0d-assig3/memory.h:119-127 | The head test and the slow path together. |
| Memory.PageTable.AllocatePage | simplesim-3.0d-assig3/memory.c:111-135 | A zero page at the front of its bucket, one page more. |
| Memory.PageTable.ReadByte | simplesim-3.0d-assig3/memory.h:151-154 | The byte of the mapped page, or 0. |
| Memory.PageTable.WriteByte | simplesim-3.0d-assig3/memory.h:162-164 | Allocates on first write and stores the byte. |
| Memory.PageTable.MemAccess | simplesim-3.0d-assig3/memory.c:141-219 | The checks and the copy loops: fault, bytes and whole new page table as the model has them. |
| SyscallReplay.RecordThenReplay | simplesim-3.0d-assig3/eio.c:568-629 | Replaying a recorded call from the state it was recorded in passes every check and ends in the very same memory (page table order and counters included), registers and break point. |
| SyscallReplay.ReplaysExactly | simplesim-3.0d-assig3/eio.c:648-807 | A replay passes exactly when the call is not exit and instruction count, PC, the six input registers and every recorded input byte are as recorded, and then stores exactly the recorded outputs. |
| EioTerms.AcceptedExactly | simplesim-3.0d-assig3/eio.c:648-807 | Whatever term is offered as a transaction, whoever wrote it: it is accepted exactly when the call is not exit, the term is a list of the six right kinds with exactly six input and six output registers and well-formed memory records, and its counts, PC, input registers and input bytes are the machine's; the outcome is then told element by element. |
| EioTerms.RestoredExactly | simplesim-3.0d-assig3/eio.c:307-463 | Whatever terms are offered as a checkpoint: they are accepted exactly when they begin with such a header and as many pages follow as it says, and each field of the machine comes from its own place. |
| SyscallReplay.ChangedInputRejected | simplesim-3.0d-assig3/eio.c:691-735 | One different input register or one different byte that the call read is a fatal mismatch, unless the different register makes it an exit call, which is executed for real. |
| SyscallTrace.RecordsEverything | simplesim-3.0d-assig3/eio.c:489-565 | Recording fails exactly when a read follows a write; otherwise the call runs as without recording, and the blobs flatten to its reads and its writes, byte by byte in order, faulting accesses included. |
| SyscallReplay.RerecordingKeepsCells | simplesim-3.0d-assig3/eio.c:594-602 | Tracing a replay writes a transaction with the same bytes at the same places, however the blobs are cut this time, and the same memory. |
| SyscallFaults.ReplayWithFaults | simplesim-3.0d-assig3/eio.c:489-807 | For calls whose accesses may fault: the replay from the recorded state passes exactly when the buffers of the faulting reads match memory, and then the byte at an address ends as in the call exactly when the last write there did not fault or would have written what is there. |
| SyscallFaults.FaultingWriteReplays | simplesim-3.0d-assig3/eio.c:527-563 | A misaligned write, which changes nothing when the call is made, is stored by its replay. |
| SyscallTrace.AddCells | simplesim-3.0d-assig3/eio.c:530-558 | Coalescing loses nothing, adds nothing and never lets a blob outgrow its allocation. |
| SyscallBlobs.CopyInBlobs | simplesim-3.0d-assig3/eio.c:530-558 | Copying n bytes into memory one by one is recorded as the bytes cut into blobs of 256 from the first address on, and nothing else: adjacent accesses are coalesced for as long as the allocation lasts. |
| SyscallBlobs.CopyOutBlobs | simplesim-3.0d-assig3/eio.c:530-558 | Likewise a copy out of memory, with the bytes found there. |
| SyscallTrace.RunIsTouchStore | simplesim-3.0d-assig3/eio.c:720-801 | A call with accesses of any size leaves the memory that its byte-by-byte replay leaves. |
| SyscallReplay.CheckInputsExactly | simplesim-3.0d-assig3/eio.c:707-735 | The input comparison succeeds exactly when the memory holds every recorded byte. |
| SyscallReplay.CheckRegistersExactly | simplesim-3.0d-assig3/eio.c:691-705 | The register comparison succeeds exactly when registers 2 to 7 are as recorded. |
| SyscallReplay.SetRegistersExactly | simplesim-3.0d-assig3/eio.c:765-779 | Registers 2 to 7 become the recorded ones, the others stay. |
| Eio.Tracer.Trace | simplesim-3.0d-assig3/eio.c:489-565 | The tracing accessor over the page table: records, coalesces and performs the access, faulting or not, or stops on a read after a write. |
| Eio.Tracer.WriteTrace | simplesim-3.0d-assig3/eio.c:568-629 | Runs the accesses of a call through the recorder and returns its transaction. |
| Eio.ReadTrace | simplesim-3.0d-assig3/eio.c:636-807 | The exit test and the loops over registers, records and bytes: the outcome, the new memory and the reason of failure of the model. |
| Exo.RegisterRoundTrip | simplesim-3.0d-assig3/target-pisa/pisa.h:499-541 | A signed register survives the trip through a 64-bit term. |
| Checkpoint.CheckpointRoundTrip | simplesim-3.0d-assig3/eio.c:208-463 | Reading a written checkpoint into an initialised memory gives back the file pointer, all registers and loader variables, the same byte at every address and the same page count, and leaves the rest of the file alone. |
| Checkpoint.CheckpointThenReplay | simplesim-3.0d-assig3/eio.c:307-807 | A machine restored from a checkpoint replays the next recorded call as the original machine made it, to the same registers, break point and bytes. |
| Checkpoint.PagesRoundTrip | simplesim-3.0d-assig3/eio.c:287-299 | The page dump and its byte-by-byte reload give every address its byte, the same mapped pages and the same count. |
| Checkpoint.ReplayOnSameBytes | simplesim-3.0d-assig3/eio.c:636-807 | Replay depends on the bytes in memory, not on the order of the page table. |
| Checkpoint.PageTermsCount | simplesim-3.0d-assig3/memory.h:140-142 | The page iterator visits as many pages as the table has entries. |
| Checkpoint.PageCountRoundTrip | simplesim-3.0d-assig3/eio.c:383-383 | The page count survives the cast to int, because a bucket has at most 32 entries. |
| Checkpoint.WriteCheckpoint | simplesim-3.0d-assig3/eio.c:208-303 | The nested loops print exactly the header and the pages in bucket order. |
| Checkpoint.ReadCheckpoint | simplesim-3.0d-assig3/eio.c:307-463 | The reader accepts exactly the files with this shape and reaches the model's memory. |
| IntegerText.SignedRoundTrip | simplesim-3.0d-assig3/misc.c:547-892 | Every 64-bit signed value printed with any padding parses back, in base 10 or 0, to itself and uses up the whole string; errno is ERANGE exactly for the least value. |
| IntegerText.UnsignedRoundTrip | simplesim-3.0d-assig3/misc.c:591-985 | Likewise for every unsigned value, without exception. |
| IntegerText.FormatSigned | simplesim-3.0d-assig3/misc.c:547-589 | The digit buffer, the split last digit of the least value and the padding produce the specified text. |
| IntegerText.FormatUnsigned | simplesim-3.0d-assig3/misc.c:591-603 | Likewise for unsigned values with the high bit set. |
| IntegerText.LowDigit | simplesim-3.0d-assig3/misc.c:400-413 | Quotient and remainder by ten of a 64-bit pattern with the high bit set, computed in signed arithmetic. |
| IntegerText.Develop | simplesim-3.0d-assig3/misc.c:572-588 | The digit loop writes the decimal digits in front of the end of the buffer and stays inside it. |
| IntegerText.WrappedDigit | simplesim-3.0d-assig3/misc.c:579-586 | The 32-bit wrap-around in the digit computation cancels. |
| IntegerText.ParseSigned | simplesim-3.0d-assig3/misc.c:788-892 | The scanner with its cutoff test returns the meaning of the text: value or saturated value, end pointer and errno. |
| IntegerText.ParseUnsigned | simplesim-3.0d-assig3/misc.c:895-985 | Likewise without a sign. |
| IntegerText.Accumulate | simplesim-3.0d-assig3/misc.c:839-863 | The loop never exceeds the bound and notices an overflow exactly when the digits stand for more than the bound. |
| IntegerText.DigitsValue | simplesim-3.0d-assig3/misc.c:572-588 | The digits printed for a number stand for that number. |
| NumeralText.SignedNumeral | simplesim-3.0d-assig3/misc.c:788-892 | Blanks, a sign, a hexadecimal prefix and digits in any base from 2 to 36, upper or lower case, followed by anything that is no further digit: the value is that of the digits with the sign, the end is behind them, and beyond the 64-bit range it is the bound with ERANGE. Base 0 means 16 after an unsigned prefix and 10 otherwise. |
| NumeralText.UnsignedNumeral | simplesim-3.0d-assig3/misc.c:895-985 | Likewise without a sign. |
| NumeralText.NothingToConvert | simplesim-3.0d-assig3/misc.c:788-892 | A text without a number gives 0 with the end at its start and errno as it was; an empty text is a panic. |
| NumeralText.PanicsExactly | simplesim-3.0d-assig3/misc.c:788-985 | A text that is not all blanks is a panic exactly in a base that is neither 0 nor from 2 to 36. |
| NumeralText.PrintedField | simplesim-3.0d-assig3/misc.c:694-741 | A printed field is the sign and the digits without a leading zero, filled up to the width and never beyond it, with blanks in front of the sign or zeroes behind it. |
| ReturnStack.MatchingReturnPredicted | simplesim-3.0d-assig4/bpred.c:647-666 | A return is predicted as the address after its matching call whenever the nesting from that call on never exceeded the stack size, whatever came before. |
| ReturnStack.OneDeeperIsLost | simplesim-3.0d-assig4/bpred.c:647-666 | One frame more and the return goes to the innermost call's address instead: the bound is exact. |
| ReturnStack.PredictsLastAtDepth | simplesim-3.0d-assig4/bpred.c:647-666 | In any run the prediction is the address after the last call made at the same depth modulo the size. |
| ReturnStack.SquashKeepsFrame | simplesim-3.0d-assig4/bpred.c:719-734 | After a squashed speculative stretch and the reset of the top, a frame is as it was whenever the stretch neither returned out of it nor nested deep enough to come round to it. |
| ReturnStack.SquashExactly | simplesim-3.0d-assig4/bpred.c:719-734 | After the recovery a slot of the stack holds what it held before the squashed stretch exactly when no call of the stretch landed on it, or the last one that did pushed the very address that was there. |
| ReturnStack.SquashedPrediction | simplesim-3.0d-assig4/bpred.c:719-734 | so the next return is predicted as before the stretch exactly under that condition on the top slot. |
| ReturnStack.SquashCanCorrupt | simplesim-3.0d-assig4/bpred.c:719-734 | The reset is not enough in general: a squashed return and call overwrite the top frame. |
| ReturnStack.RetStack.Squash | simplesim-3.0d-assig4/bpred.c:640-733 | Lookups down the wrong path followed by the recovery, in place. |
| ReturnStack.RetStack.Lookup | simplesim-3.0d-assig4/bpred.c:647-666 | The push and pop in place. |
| TwoLevelPredictor.AtMost128 | cbp4-assign2/predictor.cc:38-59 | A branch with its own history entry and counters whose outcome is a function of its last six outcomes is mispredicted at most 128 times, in a run of any length. |
| TwoLevelPredictor.Conserved | cbp4-assign2/predictor.cc:52-59 | Mispredictions so far plus what the counters can still cost stay equal to the cost at the start. |
| TwoLevelPredictor.HistoryIsWindow | cbp4-assign2/predictor.cc:44-59 | The masked history register is the last six outcomes. |
| TwoLevelPredictor.TwoOutcomesDecide | cbp4-assign2/predictor.cc:44-59 | An unshared branch that did the same twice in a row after its present six-outcome history is predicted to do it again, whatever came before; one that was never seen after it is predicted not taken. |
| TwoLevelPredictor.OneOutcomeForgiven | cbp4-assign2/predictor.cc:44-59 | After three equal outcomes one different outcome does not change the prediction. |
| TwoLevelPredictor.TwoPerChange | cbp4-assign2/predictor.cc:44-59 | In every run, whatever its outcomes, an unshared branch is mispredicted at most twice for every time it does not repeat what it did the last time after the same history. |
| TwoLevelPredictor.Predictor.UpdatePredictor | cbp4-assign2/predictor.cc:52-59 | The tables in place become the updated tables. |
| TwoLevelPredictor.Predictor.Simulate | cbp4-assign2/predictor.cc:44-59 | A run of predictions and updates ends in the tables of the run and counts its mispredictions. |

## Left out

- Latencies returned by `blk_access_fn`, bus clamping and `ready` times in `cache.c`: timing statistics that change no decision.
- The open-ended prefetcher (type 2): it draws and mixes heuristics without a stated guarantee; `Legal` excludes it.
- Random replacement draws and `get_PC` are parameters. `usize` user data is not part of this model.
- `CACHE_BCOPY`: the switch on sizes and the word loop are one slice of the block's bytes.
- Data blocks together with prefetching: the source passes a NULL buffer to a prefetch; `Legal` rules the pair out.
- CacheMachine.CacheUnit.Access: takes block number and offset; the shifts and masks of the address macros are division and remainder by powers of two, and the checks before them are in `CacheCheck`.
- CacheReplacement.LruIsRecencyStack: for runs of accesses without flushes or prefetches, as the property only makes sense there.
- Block pointers are indices and the sets are separate objects; the one `calloc` that holds all blocks, and the pointer arithmetic into it, are not modelled.
- Page table buckets are sequences in an array and pages are values: relinking of `mem_pte_t` nodes and the host addresses of pages are not modelled. `mem_access` with a negative size, typed accessors, byte swapping, `mem_dump` and the string and block copies are left out.
- InstrTrace.Trace.Put: chunks are sequences in a field, not linked nodes; the order of the walk and the chunk boundaries are kept.
- EXO text: printing and reading a term back is the identity, `exo_chain` is append, and files are sequences of terms. Header checks, fast-forwarding and the redirected program output are left out.
- Eio.ReadTrace: an exit call, which the source runs for real and does not return from, ends the replay with a reason of its own.
- SyscallReplay.RecordThenReplay: for calls whose accesses do not fault, as `ReplayWithFaults` treats the others; a call is its list of memory accesses, its registers 2 to 7 and its break point; what the operating system does is arbitrary.
- Checkpoint.ReadCheckpoint: the reasons of rejection are fewer than the source's messages; the floating-point registers are their integer words.
- `IntegerText`: `%ld` and `%lu` with width and zero padding, and parsing with base 0 or 2 to 36; hexadecimal and octal printing, strings, precision and floating point are left out. A NULL or empty string is a panic, as in the source.
- ReturnStack.MatchingReturnPredicted: for lookups without a squash in between, which the lemmas about squashing treat; the direction predictors and the branch target buffer of `bpred.c` are not part of this model.
- TwoLevelPredictor.AtMost128: for a branch that shares neither its history entry nor its table of counters; a shared entry or counter is trained by other branches too, and nothing is claimed for it. The two-bit and the open-ended predictor of `predictor.cc` are left out.
- Bit tricks are modelled by what they compute: `n & (n - 1)` as the power-of-two test, masks and shifts as remainder and division.
- Counters are unbounded integers; addresses, registers, strides, digit arithmetic and 64-bit parsing have their widths.
- DLite, options, statistics printing, the functional simulators and their instruction semantics, `eventq.c`, `resource.c`, `range.c`, `ptrace.c`, loaders and `libexo` text: user interface, or list and hash code that would repeat what is proved here.
