# ChampSim: verified models of the simulator's interacting state machines

ChampSim steps an out-of-order core, its caches, page table walkers and DRAM one cycle at a
time. Each of these is a queue or table with an `operate()` step, and each relies on facts that
no single step states: that a lookup always finds its entry, that nothing is lost or answered
twice, that a name still means what it meant. This project models those steps branch by branch
and proves such facts for every run.

`dafny verify dfyconfig.toml` checks everything.

## How it is built

Every component comes in three layers.

- A **step model**: datatypes and functions that follow the source function by function, with
  the same comparisons, constants, scan orders and early exits (`Core`, `DramChannel`, `Caches`,
  `Channels`, `VirtualMemory`, `PageTableWalker`, `RegisterAllocation`, `LoadStoreQueue`,
  `FrontEnd`).
- An **invariant** and one preservation lemma for each step, and over them the run theorems
  (`Renaming`, `LoadStoreInvariant`, `PipelineOrder`, `CoreInvariant`, `CoreRuns`,
  `MemoryTiming`, `StoreWrites`, `PipelineTiming`, `Assertions`; `DramInvariant`, `DramRuns`,
  `DramTiming`, `DramScheduling`; `CacheInvariant`, `CacheDiscipline`, `CacheRuns`,
  `CacheRequests`, `CacheWrites`, `LostWrites`, `CacheTiming`, `ChannelRuns`, `VirtualAnswers`,
  `VirtualAliases`; `VirtualMemoryRuns`, `PageTableWalkerRuns`, `PageTableWalkerAnswers`,
  `PageTableWalkerTiming`, `SmallTables`).
- A **class** with the fields of the source's object, whose methods update them in place with
  the source's loops and are proved to take exactly the step of the model (`Allocators`, `Cpu`,
  `DramObject`, `ChannelObjects`, `CacheObjects`, `VirtualMemoryObject`,
  `PageTableWalkerObject`). `LruTables` and `FoldedHistory` are such classes with their own
  specifications, a recency list and a bit history.

Bit-level code is modelled on natural numbers with shifts, masks and exclusive or (`Bits`,
`Folding`), and slices, clamped extents and splices are built from those (`AddressSlices`).

Some fields exist only in the model: logs of what was retired, answered or transmitted, of the
stores the L1D took, of the requests a cache's lower level took, and of what happened to written
blocks; tokens that name accepted requests; the architectural names that renaming overwrites,
and which instructions were read during warmup; when and how often a bank began a refresh, when
it last took a packet, and the row it then held; and when a walk's last read returned. They are
written, never read, by the modelled steps.

Standard algorithms called with comparators that are no strict weak order (`max_element` in the
forwarding search, `min_element` over banks and DRAM queues, `minmax_element` in the LRU table)
are modelled as the scans they are, and proved to pick what is meant anyway.

## What the environment decides

Time does not run backwards, and warmup only ever ends. What a run leaves open is quantified
over: the delivered instructions, branch prediction, hits in the decoded instruction buffer, what
the L1I and L1D accept and return, and L1D bandwidth; the requests that arrive, what a lower
level accepts and in which order it answers (each forwarded request that wants a response once),
victims, prefetches, translations, and how the tag bandwidth is shared; the shuffle of the page
pool, what other walkers do to virtual memory, and what a paging-structure cache hit returns
among everything ever filled into it for that prefix.

The register file has at most 256 registers, because the scheduler's guard looks up physical
names in the 256-entry alias table. A DRAM channel has at least two banks in all, because with
one the swizzle loop does not advance. A walker has at least one paging-structure cache, and the
page table levels fit an address.

## What the code does that one might not expect

- The guard in `schedule_instruction` is evaluated on entries that are already renamed, so it
  counts unmapped physical names (src/ooo_cpu.cc:433). The proofs hold for it as it is.
- The bound of the swizzle loop is the row's upper end in the address, not its size; this is why
  the last partial segment is folded in too (src/dram_controller.cc:577).
- A load that waits on a store finishes with that store, whether or not its own instruction has
  executed; the instruction still completes only after it has (src/ooo_cpu.cc:586-602).
- A hit in a paging-structure cache starts the walk at the entry of its own level and so reads
  that entry a second time (src/ptw.cc:59-68). A walk from level L makes L + 1 reads either way.
- `lru_table::fill` compares the tag of the largest block without looking whether it is in use.
  That is harmless, because the block is unused only when all are (inc/msl/lru_table.h:148).
- `do_collision_for` looks only at the first entry with the address; if that one is in the other
  address space, duplicates are kept (src/channel.cc:39-41). So a queue ends up with one request
  for each block only if those for one block agree about their space (`CheckCollisionDistinct`;
  `MixedSpacesKeepDuplicates` is a queue where they do not). Where every channel receives requests
  of one space only, it always does (`OneRequestPerBlock`). Generated systems are of that kind:
  every channel has one sender (config/instantiation_file.py:121-122, 158-199), and the core sends
  untranslated requests only (src/ooo_cpu.cc:832, 842), caches and walkers translated ones only
  (inc/channel.h:54, src/ptw.cc:111).
- Misses merge by physical block and keep the virtual address of the later one unless that is a
  prefetch (src/cache.cc:128, `MergeKeepsBlock`), but the core matches its loads by virtual block
  (src/ooo_cpu.cc:690-694). That works because translations give each virtual block a physical
  block of its own (`AnswersCarryVirtualBlocks`); where they do not, a load can stay without its
  answer (`AliasLosesBlock`).
- A write that misses in a cache matching full addresses, such as the default L1D
  (inc/defaults.hpp:78), waits in an MSHR of type WRITE. A miss of another type but prefetch that
  merges with it takes its place (src/cache.cc:128, `MergeKeepsWrite`), so the block is filled
  clean and its data is never written back (`LoadOvertakesWrite` is a run). A block is dirty
  exactly when its last write has been neither overtaken in this way nor written back
  (`DirtyIsExact`); caches of the other kind lose no write (`NothingIsOvertaken`).
- The watermarks of a DRAM write queue with one slot are both 0, so an idle channel turns the bus
  around every cycle (src/dram_controller.cc:218-228, `OneWriteFlaps`). From two slots on, the
  direction after a cycle is one that fits what waits (`DirectionFollowsDemand`).
- A walk that hits in a paging-structure cache reads from the first page table page of the cached
  entry's page, whatever slot that entry's own table is in (src/ptw.cc:64-68). Where page table
  pages are smaller than a page it reads a wrong entry unless the slot is the first
  (`HitStartsAtItsEntry`): already the first request of a new walker, when it comes again
  (`SmallTablesMisread`, `NewWalkersMisread`).
- A refresh that becomes due while a bank still owes one is one with it, and one that becomes due
  during a refresh starts it again (src/dram_controller.cc:190-200, `RefreshesAddUp`).
- A DRAM request takes its virtual address from the physical one (src/dram_controller.cc:527).

## Model

| member | source | states |
|---|---|---|
| CoreRuns.PipelineDeliversExactlyOnce | src/ooo_cpu.cc:285-425 | at every point of every run, retired, ROB, dispatch, the merge by program order of the two decode buffers, fetch buffer and input queue, in this order, are exactly the delivered instructions, with their memory operands and, once read, the registers they were delivered with: none if read during warmup, else the same sources, and the same destinations in order but for the stack pointer (6), which stays exactly in a branch, an instruction with a memory operand, and one that reads only 6, 25 and 26; every buffer keeps its capacity |
| CoreRuns.ReadFlagIsOfItsCycle | src/ooo_cpu.cc:106-123 | the record of which instructions were read during warmup is that of the cycles that read them |
| CoreRuns.RenamingPreservesDataflow | src/register_allocator.cc:16-70 | each source of a scheduled, unretired instruction names a live register recorded for the architectural register it was delivered with and for the youngest program-order writer ever delivered before it: one of that writer's destinations while it is in flight, else the committed mapping; it has executed only after that writer completed |
| CoreRuns.RegistersConserved | src/register_allocator.cc:5-70 | the free queue, the committed mappings and the destinations in flight partition the register file without duplicates |
| CoreRuns.FrontendNamesYoungest | src/register_allocator.cc:16-43 | the frontend alias table names the last destination of the youngest scheduled writer in the ROB, or else the committed mapping |
| CoreRuns.MemoryOperationsAccounted | src/ooo_cpu.cc:508-602 | for each ROB entry, finished operations plus live loads plus unissued stores are its memory operations; a completed entry has none left |
| CoreRuns.FinishFindsItsInstruction | src/ooo_cpu.cc:809-827 | between cycles, the search for the instruction of any live load or unissued store finds it in the ROB with an operation left |
| CoreRuns.DependentsAreWaiting | src/ooo_cpu.cc:586-602 | between cycles, each slot an unissued store is to release holds a load that waits on that store |
| Assertions.NoAssertionFails | src/ooo_cpu.cc:508-602 | in every cycle of every run, no assertion of do_memory_scheduling, do_finish_store or LSQ_ENTRY::finish fails at any of its calls |
| Assertions.ReleaseSound | src/ooo_cpu.cc:594-601 | while a store releases its loads, each slot holds a load that waits on it and whose instruction has an operation left |
| Assertions.ScheduleLoadsSound | src/ooo_cpu.cc:508-530 | while loads enter, a slot is free, a forwarded load has an operation to finish, and a store waited on is older |
| Cpu.O3Cpu.FinishOperation | src/ooo_cpu.cc:809-827 | finish in place, with the source's assertions checked where they stand |
| Cpu.O3Cpu.DoFinishStore | src/ooo_cpu.cc:586-602 | do_finish_store in place, with its assertions |
| Cpu.O3Cpu.DoScheduleLoad | src/ooo_cpu.cc:510-537 | one load enters in place, with its assertions |
| CoreRuns.ForwardingIsExact | src/ooo_cpu.cc:510-539 | a live load waits exactly when an older store to its address is queued, then on the youngest one, which alone lists its slot, once |
| CoreRuns.StoresStayPartitioned | src/ooo_cpu.cc:555-566 | the store queue stays in program order with the issued stores as a prefix, which partition_point needs |
| MemoryTiming.MemoryWaitsForExecution | src/ooo_cpu.cc:484-506 | on every run the queue entries of an instruction are ready exactly when it has executed, and then at its own time; no load is sent and no store finishes before that, so with RenamingPreservesDataflow not before the sources are there |
| StoreWrites.StoresAreWrittenInOrder | src/ooo_cpu.cc:547-573 | on every run the writes the L1D has taken are a prefix of those of the retired instructions in program order, and the store queue holds the rest of these and then all of the ROB's: none before its instruction retires, out of order, twice, lost or to another address |
| PipelineTiming.StagesTakeTheirTime | src/ooo_cpu.cc:35-50 | in every cycle of every run instructions move only when their time has come, in order and within each width; each stage sets the time of the next; dispatch stops only at an entry that is not ready or finds no place; the decoded instruction buffer is checked for exactly the next entries within the fetch width; reading ends after an instruction that stops it |
| PipelineTiming.CompletesOldest | src/ooo_cpu.cc:632-658 | exactly the oldest entries that have executed, whose time has come and whose memory operations are done are completed, within the width |
| PipelineTiming.ExecutesOldest | src/ooo_cpu.cc:467-506 | exactly the oldest scheduled entries whose time has come and whose sources are all valid are executed, within the width |
| CoreRuns.ScheduledIsAPrefix | src/ooo_cpu.cc:427-449 | scheduling is in program order in every reachable state |
| CoreRuns.HeadIsNeverStarved | src/ooo_cpu.cc:431-437 | a ready ROB head passes the guard and is renamed whenever the file holds the mapped registers and its operands together |
| CoreRuns.Reachable | src/ooo_cpu.cc:35-69 | the whole invariant of the core holds after any number of cycles |
| CoreInvariant.OperateKeeps | src/ooo_cpu.cc:35-50 | one cycle of all stages keeps it |
| CoreInvariant.ScheduleFromKeeps | src/ooo_cpu.cc:427-464 | the scheduling pass keeps renaming, queues and program order |
| CoreInvariant.DispatchOneKeeps | src/ooo_cpu.cc:411-422 | dispatching the oldest buffered instruction keeps the invariant and moves no other |
| Renaming.ResolvedIsRecorded | src/register_allocator.cc:16-43 | the register a name resolves to is recorded for that name and its youngest writer, and is valid exactly when that writer is committed or completed |
| Renaming.Dataflow | src/register_allocator.cc:16-70 | what naming a source means for the register it names, in any state that satisfies the invariant |
| Renaming.RetireHeadKeeps | src/register_allocator.cc:51-70 | committing the oldest instruction's destinations and freeing what they replace keeps conservation, resolution and the records |
| Renaming.RenameSrcKeeps | src/register_allocator.cc:28-43 | mapping a source that has no register yet keeps the invariant for everything in flight |
| Renaming.ScheduleInstrKeeps | src/ooo_cpu.cc:451-464 | renaming the next instruction in order keeps it |
| Renaming.HeadPassesGuard | src/ooo_cpu.cc:433-437 | for an unscheduled head the guard holds if and only if mapped registers, unmapped sources and destinations fit the file |
| Renaming.RegistersAddUp | src/register_allocator.cc:5-70 | the counts of free, mapped and in-flight registers add up to the file |
| LoadStoreInvariant.ForwardFromFindsYoungest | src/ooo_cpu.cc:517-519 | the max_element scan finds the youngest store to the address whenever there is one |
| LoadStoreInvariant.OperateLsqKeeps | src/ooo_cpu.cc:547-584 | finishing stores, completing stores and issuing loads keep accounting and forwarding; what is finished, what leaves and which loads are sent is stated entry by entry: the oldest that may, within the widths |
| LoadStoreInvariant.DispatchKeeps | src/ooo_cpu.cc:508-545 | entering an instruction's loads and stores keeps them |
| LoadStoreInvariant.ReturnKeeps | src/ooo_cpu.cc:690-701 | a slot is emptied if and only if its load was issued and its block is among those returned; the rest stays, and accounting and forwarding are kept |
| PipelineOrder.DecodeTakesOldest | src/ooo_cpu.cc:340-366 | what the three loops of decode take from both buffers is the oldest of them, in program order |
| PipelineOrder.PromoteKeepsOrder | src/ooo_cpu.cc:300-320 | splitting a fetched window over two buffers keeps program order as seen through their merge |
| Allocators.RegisterAllocator.constructor | src/register_allocator.cc:5-14 | every register free, nothing mapped |
| Allocators.RegisterAllocator.RenameDestRegister | src/register_allocator.cc:16-26 | the new state and name of the specification, on the arrays in place |
| Allocators.RegisterAllocator.RenameSrcRegister | src/register_allocator.cc:28-43 | the same for a source, which allocates when it is unmapped |
| Allocators.RegisterAllocator.RetireDestRegister | src/register_allocator.cc:51-64 | commits the mapping and recycles the register it replaces |
| Allocators.RegisterAllocator.CountUnallocated | src/ooo_cpu.cc:433-434 | counts the sources without a mapping |
| Cpu.O3Cpu.Operate | src/ooo_cpu.cc:35-50 | the object's cycle takes the step of the model and keeps the invariant |
| Cpu.O3Cpu.RetireRob | src/ooo_cpu.cc:706-730 | the in-place loops commit exactly the completed prefix within the width |
| Cpu.O3Cpu.ScheduleInstruction | src/ooo_cpu.cc:427-449 | the search stops at the first entry whose names do not fit |
| Cpu.O3Cpu.ExecuteInstruction | src/ooo_cpu.cc:467-506 | executes ready entries in order and marks their memory operations ready |
| Cpu.O3Cpu.CompleteInflightInstruction | src/ooo_cpu.cc:632-658 | completes entries whose memory operations are done |
| Cpu.O3Cpu.OperateLoadStoreQueue | src/ooo_cpu.cc:547-584 | the queue step on the slots in place |
| Cpu.O3Cpu.DispatchInstruction | src/ooo_cpu.cc:406-425 | dispatches while ROB, load slots and store queue have room |
| Cpu.TakeFromBoth | src/ooo_cpu.cc:340-352 | the first decode loop computes the specified cursor |
| DramAddress.AddressOfLocation | src/dram_controller.cc:571-614 | the address map loses no address: the coordinates determine it, the hashes being undone by the row |
| DramAddress.LocationOfAddress | src/dram_controller.cc:571-614 | every in-range combination of coordinates has exactly the address that maps to it |
| DramAddress.LocateInRange | src/dram_controller.cc:584-614 | all coordinates stay within their fields |
| DramAddress.SwizzleBits | src/dram_controller.cc:571-582 | the loop terminates and folds every row bit into the field, the last partial segment included |
| DramAddress.LookUp | src/dram_controller.cc:584-614 | the getters, through the loop they share, give the location that the map assigns |
| DramAddress.EachRowBitInOneHash | src/dram_controller.cc:592-609 | flipping a row bit flips exactly one bit of exactly one of the bankgroup and bank hashes |
| DramAddress.ChannelHash | src/dram_controller.cc:584-590 | the channel is hashed with the parity of the whole row |
| DramAddress.CollisionIsSameBlock | src/dram_controller.cc:433-438 | two addresses collide if and only if all their coordinates but the offset agree |
| DramAddress.BankIndexIsInjective | src/dram_controller.cc:316-329 | bank indices stay in range, and are equal if and only if rank, bankgroup and bank are |
| Folding.FoldBit | src/dram_controller.cc:571-582 | bit k of a fold is the parity of the bits in its residue class |
| AddressSlices.MakeContiguousExtentSet | inc/extent_set.h:53-69 | partial sums give adjacent extents of the requested sizes |
| AddressSlices.ComposeFields | inc/extent_set.h:24-27 | splitting by a contiguous extent set is undone by composing, for all sizes |
| AddressSlices.FieldsCompose | inc/extent_set.h:24-27 | and composing is undone by splitting |
| AddressSlices.PartValue | inc/extent.h:157-171 | clamping a relative extent never changes the selected value |
| AddressSlices.SliceOfValue | inc/address.h:271-273 | moving through the 64-bit word loses no selected bit, and bits below the slice are zero |
| AddressSlices.SpliceBelow | inc/address.h:609-627 | splicing a lower neighbour puts it below |
| AddressSlices.SpliceInto | inc/address.h:609-627 | splicing into an address replaces only the window |
| Bits.Lg2 | inc/msl/bits.h:31-39 | the loop finds the highest power of two, and 0 for 0 |
| DramRuns.BanksMatchPackets | src/dram_controller.cc:359-381 | valid banks and scheduled packets correspond one to one by bank index, and all but the one on the bus belong to the current mode |
| DramRuns.OneEntryPerBlock | src/dram_controller.cc:440-509 | no two entries of a queue share a block at the end of a cycle |
| DramRuns.RefreshIsRespected | src/dram_controller.cc:175-213 | a bank under refresh owns no packet, one that owns a packet began its last refresh at least tRFC ago, and a refresh is owed only by a busy bank |
| DramRuns.NoRefreshIsLost | src/dram_controller.cc:175-213 | in every cycle of every run, a bank's refresh that is due or still owed is begun, exactly once, or stays owed, and no other is begun; one is due tREF after the last was |
| DramRuns.RefreshesAddUp | src/dram_controller.cc:175-213 | over every run the refreshes a bank has begun and the one it may owe are as many as became due while it owed none |
| DramInvariant.ServiceKeeps | src/dram_controller.cc:359-381 | servicing starts only idle banks and leaves those that owe a refresh untouched |
| DramRuns.BusIsNeverShared | src/dram_controller.cc:258-314 | transfers do not overlap, a direction change leaves the turn-around time, and a bankgroup waits out return time and stall after each issue |
| DramTiming.TransfersWaitForTheirRow | src/dram_controller.cc:359-381 | on every run a transfer starts no earlier than tCAS after its packet was serviced if its row was open then, tRCD + tCAS if none was, and tRP + tRCD + tCAS if another was; and it is for that packet, in its bankgroup |
| DramTiming.BanksAreReadyInTime | src/dram_controller.cc:359-381 | a bank that works off the bus is ready at exactly that time and knows whether it hit; an open row is that of the last packet serviced, and none from before the last finished refresh |
| DramTiming.RowsAreHeld | src/dram_controller.cc:175-242 | in every cycle of every run a bank loses its row only when a refresh ends or a direction change finds it ready within tCAS; it stays on the bus until it is ready, and under refresh until its time |
| DramScheduling.DirectionFollowsDemand | src/dram_controller.cc:215-256 | in every cycle of every run the direction changes just when it does not fit what waits, and with room for two writes it fits afterwards, so that no switch is undone before something arrives or leaves |
| DramScheduling.OneWriteFlaps | src/dram_controller.cc:215-256 | with room for one write only, every cycle in which none waits changes it |
| DramScheduling.BestPacketIsServiced | src/dram_controller.cc:332-381 | in every cycle of every run one packet of the direction, as good as any by free bank and age, is serviced just when it is ready and its bank is free and not under refresh, and nothing else changes |
| DramScheduling.BusIsNeverIdle | src/dram_controller.cc:258-290 | in every cycle of every run a bus that is free and past its turn-around time takes the packet of the bank ready longest, if any is ready |
| DramScheduling.ReadsSeeQueuedWrites | src/dram_controller.cc:462-479 | in every cycle of every run a read that comes to its check while a write to its block waits is answered at once and leaves the queue |
| DramRuns.ReadsAreAnsweredOnce | src/dram_controller.cc:154-173 | every accepted read with a return target is in exactly one read-queue entry until exactly one response to that target carries it |
| DramRuns.HoldersServe | src/dram_controller.cc:462-509 | whatever holds or answers a read is for its block and return queue and wakes all its instructions |
| DramRuns.MinPacketIsBest | src/dram_controller.cc:332-357 | the scan picks a pending packet if there is one, with a free bank if there is one, and the oldest of those |
| DramRuns.MinBankIsBest | src/dram_controller.cc:262-264 | the scan picks a valid bank if there is one, and none that is ready later than another |
| DramRuns.Reachable | src/dram_controller.cc:118-152 | the invariant of the channel holds after any number of cycles, warmup first |
| DramInvariant.ResetBanksKeep | src/dram_controller.cc:228-242 | a mode switch takes every bank but the active one back from its packet and leaves none dangling |
| DramInvariant.PopulateBus | src/dram_controller.cc:258-290 | a new transfer respects every earlier one |
| DramInvariant.CheckReadsKeep | src/dram_controller.cc:462-509 | forwarding and both merges conserve reads |
| DramObject.Channel.Operate | src/dram_controller.cc:118-152 | the object's cycle takes the step of the model and keeps the invariant |
| DramObject.Channel.SwapMode | src/dram_controller.cc:215-256 | mode, bus time, banks and packets change as specified |
| DramObject.Channel.NextPacket | src/dram_controller.cc:332-357 | the in-place scan returns the specified slot |
| Channels.CheckCollisionKeeps | src/channel.cc:72-115 | every request that wants a response stays in its channel or moves into one answer, through all merges and forwards |
| Channels.ForwardsDistinctExactly | src/channel.cc:88-115 | a read or prefetch queue ends up with one request for each block if and only if the entries checked before were and the requests no write answers agree, block by block, about their address space |
| Channels.CheckMergesDistinct | src/channel.cc:77-86 | the same for the write queue, where no write answers |
| Channels.CheckCollisionDistinct | src/channel.cc:72-115 | the three queues of a channel end up with one request for each block if and only if, as they are before the checks, the entries checked before were and the requests no write answers agree about their space |
| ChannelRuns.OneRequestPerBlock | src/channel.cc:72-115 | on every run in which each channel receives one address space, every queue holds one request for each block after each cycle's checks and when the cycle ends |
| Channels.MixedSpacesKeepDuplicates | src/channel.cc:33-48 | a write queue with mixed address spaces that keeps duplicates |
| ChannelObjects.ChannelQueues.CheckCollisions | src/channel.cc:72-115 | the loops over the queues, with their erasures, conserve requests in place |
| ChannelObjects.ChannelQueues.AddRq | src/channel.cc:118-151 | a full queue refuses and is unchanged, another takes the packet last |
| ChannelObjects.ChannelQueues.AddWq | src/channel.cc:118-151 | the same for the write queue |
| ChannelObjects.ChannelQueues.AddPq | src/channel.cc:118-151 | the same for the prefetch queue |
| CacheRuns.RequestsAreAnsweredOnce | src/cache.cc:467-578 | every accepted request that wants a response is in exactly one place until exactly one response to its channel answers it |
| CacheRuns.AnswersCoverRequests | src/cache.cc:118-150 | every response goes to the channel of each request it answers, wakes all its instructions, and is for its physical block if the request arrived translated |
| VirtualAnswers.AnswersCarryVirtualBlocks | src/cache.cc:118-150 | if it arrived untranslated, as the core's do, the response carries a virtual address in the block asked for, given that translations give each virtual block a physical one of its own |
| VirtualAnswers.MergeV | src/cache.cc:128 | merging keeps a virtual address that all merged requests share |
| VirtualAnswers.MergeKeepsBlock | src/cache.cc:128 | a merge keeps the earlier virtual block if and only if the later miss is a prefetch or the blocks are one, and the later block if and only if it is not a prefetch or they are one |
| VirtualAliases.AliasLosesBlock | src/cache.cc:118-150 | for any two aliases and any page, a run in which the core loads from both, their pages are translated to that page and nothing else happens; its one answer answers both loads with the address of the second, so the first one's block is in none |
| VirtualAliases.SomeRunLosesBlock | src/cache.cc:118-150 | every cache with room for two lookups and a miss has such loads and such a run, whatever the size of a page |
| VirtualAliases.AliasRunsAreNotUnderstood | src/cache.cc:118-150 | no assignment of physical blocks to virtual ones meets the condition of AnswersCarryVirtualBlocks in such a run |
| CacheRuns.MissesAreDisciplined | src/cache.cc:662-685 | never more MSHRs than MSHR_SIZE, one for each block, returned ones first in the order they become ready |
| CacheRequests.EachMissHasOneRequest | src/cache.cc:352-424 | on every run and for every block, of the requests the lower level has taken that want a response (all but those of local prefetches that skip the fill) as many are unanswered as misses wait for the block: one or none |
| CacheRequests.ReturnsFindTheirMiss | src/cache.cc:662-672 | so a returned block finds a miss that waits for it, as finish_packet asserts, if and only if the lower level has taken more requests for it than it has answered |
| CacheRuns.BlocksAreInOnePlace | src/cache.cc:553-566 | with full-address matching no block is in two ways and no resident block has an MSHR |
| CacheRuns.OperateInv | src/cache.cc:467-578 | one cycle keeps the invariant |
| CacheRuns.ReadyMissesAreFilled | src/cache.cc:494-502 | on every run a miss that is ready when a cycle comes to its fills is filled and answered in it, unless fills use the whole bandwidth or an earlier one meets a dirty victim that the lower level does not take |
| CacheWrites.WrittenDataIsKept | src/cache.cc:152-164 | on every run a block to which nothing has happened since it was written is in a dirty way or waits as a write, and what is dirty has been written; a dirty block that leaves its way is written back |
| CacheWrites.DirtyIsExact | src/cache.cc:118-164 | in a cache that matches full addresses a block is dirty, in a way or waiting, if and only if the last thing that happened to its data was that it was written: it has since been neither written back nor overtaken by another miss |
| CacheWrites.NothingIsOvertaken | src/cache.cc:426-442 | in any other cache a block that has been written stays dirty until it is written back, unless its fill bypasses the cache, which the source asserts that no write does |
| CacheWrites.MergeKeepsWrite | src/cache.cc:128 | a merged miss is a write if and only if the later one is, or is a prefetch and the earlier one is |
| LostWrites.LoadOvertakesWrite | src/cache.cc:118-164 | for every address and every such cache with room, a run in which a load follows a write to it and the block is no longer dirty, so that the write is lost |
| CacheTiming.CachesTakeTheirTime | src/cache.cc:481-566 | in every cycle of every run a block leaves only a full set, a lookup takes the hit latency, a miss the fill latency from the return of its own block, a write the fill latency from its miss, none of them in warmup, and no untranslated lookup starts when the stash is full |
| CacheDiscipline.FinishPacketMisses | src/cache.cc:662-685 | a returned block finds its MSHR, and the swap keeps the discipline |
| CacheDiscipline.TagChecksPlaced | src/cache.cc:553-566 | hits before misses keep every block in one place |
| CacheDiscipline.FillFromPlaced | src/cache.cc:186-257 | so do fills, whatever the victims |
| CacheInvariant.MergeOk | src/cache.cc:118-150 | a merged MSHR answers for both of its parts |
| CacheInvariant.HandleMissesPlaces | src/cache.cc:352-442 | handling misses moves each request once |
| CacheInvariant.CheckChannelsKeep | src/cache.cc:477-479 | resolving the collisions of all upper levels conserves requests |
| CacheObjects.CacheUnit.HandleFill | src/cache.cc:186-270 | fills or, when a dirty victim cannot be written back, changes nothing |
| CacheObjects.CacheUnit.TryHit | src/cache.cc:272-325 | answers and updates the block on a hit, changes nothing on a miss |
| CacheObjects.CacheUnit.HandleOneMiss | src/cache.cc:352-424 | merges, allocates or refuses as specified |
| CacheObjects.CacheUnit.OperateOnce | src/cache.cc:481-578 | the object's cycle after the collision checks takes the step of the model |
| VirtualMemoryRuns.TranslationsAreInjective | src/vmem.cc:107-123 | until the pool is exhausted, two translations give one frame if and only if cpu and page agree |
| VirtualMemoryRuns.EntriesAreExact | src/vmem.cc:125-155 | and two page table entries are at one address if and only if cpu, level and the bits above the level's shift agree, also with page table pages smaller than a page |
| VirtualMemoryRuns.DataAndTablesApart | src/vmem.cc:95-155 | data frames never hold page table entries |
| VirtualMemoryRuns.AllRecorded | src/vmem.cc:107-155 | every answer ever given stays what a later call would give, refills included |
| VirtualMemory.FramesAreAddresses | src/vmem.cc:57-68 | the pool starts above page 0 and fits the address space |
| VirtualMemory.AddTableKeeps | src/vmem.cc:129-140 | the cursor over sub-page slots never reuses one |
| VirtualMemory.KeyAndOffset | src/vmem.cc:76-87 | the table key and the offset together are the page number above the level's shift |
| VirtualMemoryObject.Memory.Translate | src/vmem.cc:107-123 | the object's maps and pool change as specified, and stay valid |
| VirtualMemoryObject.Memory.PageTableEntry | src/vmem.cc:125-155 | the same for page table entries |
| VirtualMemoryObject.PopulatePages | src/vmem.cc:57-68 | the loop lists the frames from 1 MiB up |
| PageTableWalkerRuns.WalksAreConserved | src/ptw.cc:122-223 | every accepted walk is in exactly one of MSHR, finished, completed and answered |
| PageTableWalkerRuns.WalksDescend | src/ptw.cc:83-120 | a walk from level L sends one read for each level down to 0 and answers after L + 1 |
| PageTableWalkerTiming.ReadsReturnByBlock | src/ptw.cc:183-223 | in every cycle of every run a walk stops waiting for its read if and only if an address of its block returns |
| PageTableWalkerTiming.StepsTakeTheirTime | src/ptw.cc:183-207 | in every cycle of every run an answer given or a next read sent has waited the penalty if and only if its step created what it needed, and the latency outside warmup; what is not due stays, and no due answer stays while bandwidth is left |
| PageTableWalkerTiming.WalksStartLowest | src/ptw.cc:56-81 | in every cycle of every run each accepted request starts at the lowest level that a cache gives for it, or else at the root |
| PageTableWalkerRuns.AnswersAreTranslations | src/ptw.cc:199-210 | every answer is the translation va_to_pa gives, without a fault |
| PageTableWalkerAnswers.AnswersServeTheirRequests | src/ptw.cc:122-142 | every answer carries the request its token names, with its return queues and instructions, and the translation of that request's address |
| PageTableWalkerRuns.HitStartsAtItsEntry | src/ptw.cc:56-81 | in every cycle of every run, with caches for levels N + 1 down to 2, as built by default, or any lower ones, a hit starts the walk at the entry get_pte_pa gives for its level if and only if the page table page is the first in its page, so always with page-sized ones |
| PageTableWalkerRuns.HitAtItsEntry | src/ptw.cc:56-81 | the same in any state that satisfies the invariant |
| SmallTables.SmallTablesMisread | src/ptw.cc:56-81 | whenever the next page table page is not the first in its page, a run in which a request that hits reads an address other than its entry |
| SmallTables.NewWalkersMisread | src/ptw.cc:56-81 | with page table pages smaller than a page and no cache for the top level, that run exists in every new system, for every first request |
| PageTableWalkerRuns.FillOneKeeps | src/ptw.cc:83-100 | a finished step indexes the paging-structure caches in range and fills the entry of its level |
| PageTableWalker.PsclIndex | src/ptw.cc:93-94 | the cache index of a level is in range |
| PageTableWalkerObject.Walker.Operate | src/ptw.cc:122-181 | the object's cycle takes the step of the model and keeps the invariant |
| LruTables.LruTable.Fill | inc/msl/lru_table.h:141-154 | overwrites the matching entry, else an unused way, else exactly the least recently used: the set's recency list changes as specified, no other does |
| LruTables.LruTable.CheckHit | inc/msl/lru_table.h:128-139 | hits exactly when the tag is listed, and moves it to the front |
| LruTables.LruTable.Invalidate | inc/msl/lru_table.h:156-166 | removes exactly the tag |
| LruTables.FillRefines | inc/msl/lru_table.h:141-154 | writing the chosen way refines a fill of the recency list and keeps tags and stamps distinct |
| LruTables.MinMaxElement | inc/msl/lru_table.h:114-126 | the pairwise scan finds extreme blocks although the comparator calls unused blocks smaller than each other |
| LruTables.Survives | inc/msl/lru_table.h:128-154 | a block just used survives any ways - 1 fills of other tags |
| FoldedHistory.FoldedShiftRegister.PushBack | branch/hashed_perceptron/folded_shift_register.h:72-97 | the packed words with carried bits stay the newest bits of everything pushed |
| FoldedHistory.FoldedShiftRegister.Value | branch/hashed_perceptron/folded_shift_register.h:55-70 | bit j is the parity of the newest bits at positions congruent to j modulo the word length |
| FoldedHistory.ShiftPacked | branch/hashed_perceptron/folded_shift_register.h:72-92 | the multi-word shift is one shift of the packed number but for the bit carried out |
| Folding.FoldedTwice | branch/hashed_perceptron/folded_shift_register.h:55-70 | folding by a multiple and then by the word length is folding by the word length |

## Left out

- Trace reading, printing, statistics, heartbeat and deadlock reports, and the configuration scripts: input, output and code generation.
- Which translations a cache issues, and the prefetch bit of a way, which only statistics and prefetchers read.
- Branch prediction, the fetch resume time, the decoded instruction buffer and the grouping of fetches by block: arbitrary decisions of the environment in the model.
- `reset_frontend_RAT`: it has no caller.
- Wrap-around of 64-bit counters and times: identifiers, stamps and times are unbounded.
- Instruction pointers, address space identifiers, prefetch metadata and data values: carried along, never interpreted.
- A register name outside the file: the source's checked access would throw, the model leaves the file unchanged; by RegistersConserved and RenamingPreservesDataflow it does not happen.
- `MEMORY_CONTROLLER::initiate_requests`: arrivals reach one channel directly; which channel an address names is modelled, the loop over upper levels is not.
- The data bus statistics and bandwidth buckets: they influence nothing.
- Full bankgroup stall after an already delayed transfer: the next transfer is spaced from the issue time, as the source does.
- The division of tag bandwidth among queues: any prefix of each queue that may be translated can start.
- CacheObjects.CacheUnit.OperateOnce: its channels are values, so the collision checks of src/channel.cc are proved on the channel object and in CacheRuns, not through shared references.
- Unique residency in caches that treat writebacks as fills: the source does not give it.
- Replacement and prefetch modules, `invalidate_entry`: victims are arbitrary and nothing is invalidated from outside.
- The order that `std::partition` leaves in the walker's MSHR: modelled as stable; the results do not depend on it.
- The replacement inside the walker's paging-structure caches: a hit may give anything ever filled for the prefix, which covers what `LruTables` keeps.
- A walker without paging-structure caches, whose level-0 extent is outside the page number.
- LruTables.LruTable.constructor: does not check that the number of sets is a power of two, because nothing depends on it; set indices are not negative.
- The splice of three or more slices.
