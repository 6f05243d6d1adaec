# A verified model of the game's core algorithms

This project models the hard parts of a Terraria-like game in Dafny and proves what
they are for. `dafny verify dfyconfig.toml` checks everything.

## How it is organised

Lock-free code is modelled as a state machine whose steps are single accesses of shared
memory; a run is any interleaving of the steps of any number of threads, under sequential
consistency. Fields marked in the comments as read by no operation are auxiliary. Code that
works alone on its fields is modelled as classes and loops, proved against functions whose
properties are then proved as lemmas.

| files | what they model |
|---|---|
| `DequeueTickets` | the dequeue ticket protocol of the vendored concurrent queue |
| `NodeFreeList` | its reference-counted free list |
| `BlockRing` | the block ring and block index of one explicit producer, with block reuse and index doubling |
| `BlockReuse` | its blocks under any number of consumers: lookup, flags and reuse, access by access |
| `LightField`, `LightRelaxation`, `TileMapShade`, `LightDecay` | light propagation: what the field should be, the worklist invariant, the loops over the arrays, the closed form |
| `EpochReclamation` | epoch-based reclamation |
| `PackedPointer`, `TaggedPool` | the tagged free-list pool and its packed head word |
| `MpscQueue` | the linked queue with many producers and one consumer |
| `ChaseField`, `ChaseSearch` | the path search of chasing NPCs |
| `HashBuckets`, `LinkedHashMap`, `SlimLinkedHashMap` | the bucketed hash map, the linked hash map on top of it, and the one without buckets |
| `SendSlices`, `SendRuns`, `SendCloses` | send buffers cut from recycled chunks: the classes; all interleavings of several threads; and what depends on who closes which buffer |
| `PacketFraming`, `PacketSession` | packet framing over the receive buffer |
| `ViewList` | view lists and the packets that mirror them |
| `PackedRefCount` | intrusive reference counts packed above the deleter |
| `CollisionTracking` | Enter, Stay and Exit callbacks |
| `TerrainHeight`, `Inventory` | the terrain height bound, and stacking of items |
| `MachineWords`, `Options` | 64-bit words with wrap-around; optional values |

## Where a promise does not hold everywhere

Each of these is stated with the exact condition under which the code keeps the promise,
and with a run from the start, or an input, that breaks it.

- Epoch reclamation does not protect the very first section (its epoch 0 is also the idle
  mark; of 2^64 sections it is the only one, `StartsInOrder`), nor a thread whose index is the number of threads (the arrays have a place for it,
  the scans stop before it): `EpochReclamation.SectionSafeIffProtected`. Runs:
  `FirstSectionIsExposed`, `UnscannedIsExposed`.
- The tagged pool may hand a held block out again when a positive multiple of 2^19 swaps lies
  between a load and its swap: `TaggedPool.FullRingIsStale`; otherwise it never does,
  `NoDoubleAllocation`, `FoundAgain`. Run: `StaleFromStart`.
- The 16-bit reference count deletes early from 65537 owners on:
  `PackedRefCount.DropDeletesIff`. Run: `CrowdIsDeletedEarly`.
- An assignment of a smart pointer drops what it held before it reads its source; a source
  inside the object dropped is read after the deletion if that was the last owner:
  `PackedRefCount.SourceDeletedIff`. Run: `InnerSourceIsDeleted`. No assignment of the
  repository has such a source.
- A send buffer may be closed only by the thread that opened it, and once; otherwise slices
  overlap: `SendCloses.ApartIffOwn`. Runs: `ForeignCloseOverwritten`, `TwiceClosed`. The call
  sites in the repository close on the opening thread (ClientNetwork/func.cpp:31-35).
- A comparison of `dequeue` answers right exactly for counters less than 2^63 apart
  (`MachineWords.CircularLessExact`); every run with fewer than 2^63 elements and tickets
  keeps them there (`DequeueTickets.BoundedRunsAreTimely`). What a later comparison does:
  `LateGivesUp`.
- The framing loop does not end on a packet of size 0: `PacketFraming.ReturnsIffAdvances`.
  Input: `ZerosNeverReturn`.
- A solid light source that no other light reaches stays dark, because solid cells are not
  queued at the start: `LightDecay.BestDecayIff`. Input: `LoneSolidEmitterIsDark`. The
  repository's one glowing tile is not solid, `NoSolidLampsIsBestDecay`.
- The collision map's key is the right collider's id alone, so two left colliders against
  one right one confuse each other: `CollisionTracking.WrittenWorksIff`. Input:
  `WrittenConfuses`. The 64-bit expression itself would do: `PackedWorks`.
- A target found at the moment the search queue becomes empty is treated as not found: the
  NPC stays (`ChaseSearch.ChaseSearch.ExecuteAI`). Input: `StaysBesideTarget`.
- `try_pop_single` answers false exactly while the next value's producer has not stored its
  link: `MpscQueue.FalseMeansPending`. Run, with a later enqueue completed:
  `FalseBehindCompleted`.
- `AddItemToInventory` drops the remainder it computes; `Inventory.RemainderIff` says exactly
  when there is one, and how large. Input: `FullSlotsRefuse`.

## Readings of the source

- The light levels of tiles are 0 or 32, as in the tile list.
- The dequeue comparisons are made on 64-bit words. The results are about runs in which the
  second comparison of `dequeue` meets counters less than 2^63 apart; every run with fewer
  than 2^63 enqueues and tickets is one.
- In `NodeFreeList` fewer than 2^31 - 2 threads take part.
- The tag of the pool is kept by the shift of a 64-bit word, so it counts modulo 2^19.
- `AtomicMemoryPool.hpp` and `AtomicNonTemplate.cpp` hold the same code; one model serves both.
- In the path search costs are 16-bit in the queue and in the cost array; the model stops
  with the outcome Overflow where a cost would reach 65536. The two timers are the numbers of
  rounds of the search and of steps of the walk that the caller grants; the drop to the
  ground is modelled down to row 0, and answers None where it would look below the world.
- A collision key's initialiser names no member of its union, so it initialises the first,
  the pair of 32-bit fields, on a machine that keeps the low half first: `WrittenKey`. (A
  compiler may refuse the narrowing; one that takes the 64-bit field gives `PackedKey`.) The
  manager is proved for every key function.
- The framing loop and the two loops of a chase take the number of rounds they are observed
  for, since nothing else bounds them.
- A thread in `Close` of a send buffer holds a shared pointer to it, so nobody else drops the
  last one meanwhile; the chunk's own assertions stop a thread where they fail.
- In `BlockReuse` a consumer claims only indices below the tail, as `DequeueTickets` proves of
  the tickets, and the producer gives a call up where the block index is full.
- Objects in a collision group keep their death flag during one call.
- While a thread assigns one smart pointer to another no other thread changes the source
  handle, as any C++ caller must ensure.
- Floats of the terrain are taken as reals; the permutation table may be any table of 257
  entries.

## Model

| member | source | states |
|---|---|---|
| `MachineWords.CircularLessExact` | Server/ServerCore/concurrentqueue.h:334-341 | `circular_less_than` on wrapped 64-bit words answers as `<` does on the counters themselves, in both directions, exactly for counters in the window where their difference fits |
| `DequeueTickets.TicketSafety` | Server/ServerCore/concurrentqueue.h:1794-1890 | on every interleaved run of one producer and any number of consumers the head never passes the tail, the overcommit never passes the optimistic count, at rest their difference is the head, and every index below the head is claimed by exactly one consumer |
| `DequeueTickets.PassingBound` | Server/ServerCore/concurrentqueue.h:1818-1841 | ranking the tickets that pass the second comparison by size: there are never more of them than elements |
| `DequeueTickets.InvBounds` | Server/ServerCore/concurrentqueue.h:1818-1841 | passing tickets, and so claimed indices, never outnumber the enqueued elements |
| `DequeueTickets.ClaimIsBelowTail` | Server/ServerCore/concurrentqueue.h:1830-1841 | at the step of the `headIndex.fetch_add` the index obtained is below the tail, is unclaimed and goes to this consumer alone |
| `DequeueTickets.RestBalance` | Server/ServerCore/concurrentqueue.h:1798-1886 | with every consumer outside `dequeue`, optimistic count minus overcommit equals the head index |
| `DequeueTickets.SoloDequeue` | Server/ServerCore/concurrentqueue.h:1794-1890 | from rest, an undisturbed `dequeue` takes the element at the head exactly when there is one: the overcommit corrections leave no element unreachable |
| `DequeueTickets.NextCount` | Server/ServerCore/concurrentqueue.h:1794-1890 | every step of every thread keeps the counter invariant, including the two comparisons on wrapped words |
| `DequeueTickets.BoundedRunsAreTimely` | Server/ServerCore/concurrentqueue.h:1818-1820 | with fewer than 2^63 elements enqueued and tickets drawn, every run of steps is one the results speak of: the window of the comparisons is derived, not assumed |
| `DequeueTickets.LateGivesUp` | Server/ServerCore/concurrentqueue.h:1818-1820 | beyond: if the tail runs ahead of a ticket by at least 2^63 and less than 2^64 before it is compared, the consumer gives up although its element is there |
| `DequeueTickets.NothingBlocks` | Server/ServerCore/concurrentqueue.h:1794-1890 | no operation gets stuck: the producer and each consumer can always take the next step |
| `NodeFreeList.FreeListSafety` | Server/ServerCore/concurrentqueue.h:1291-1391 | on every run of concurrent `add` and `try_get` no node has two holders, the list is a finite chain without repetition and apart from the held nodes, and the low bits of a node's word count its readers plus the list's, adder's or taker's reference |
| `NodeFreeList.ReferencedNextIsStable` | Server/ServerCore/concurrentqueue.h:1322-1331 | while a thread counts as reader of a node no step changes its `freeListNext` |
| `NodeFreeList.TakeInstallsSuccessor` | Server/ServerCore/concurrentqueue.h:1330-1331 | when the head compare-and-swap of `try_get` is about to succeed, the successor loaded earlier is still the true successor |
| `NodeFreeList.WinningTake` | Server/ServerCore/concurrentqueue.h:1331-1338 | the winning swap takes the first node, installs its successor, hands the node to one thread, and the asserted bit is clear |
| `NodeFreeList.NothingLostAtRest` | Server/ServerCore/concurrentqueue.h:1300-1378 | with no thread inside the operations every node is on the list (word 1) or held (word 0): none is lost to a failed add |
| `NodeFreeList.SoloTryGet` | Server/ServerCore/concurrentqueue.h:1313-1378 | from rest, an undisturbed `try_get` takes the first node exactly when there is one, and else changes nothing |
| `NodeFreeList.EmptyOnlyOnNullHead` | Server/ServerCore/concurrentqueue.h:1313-1378 | on every run `try_get` comes back without a node only if during the call it has read a null head |
| `NodeFreeList.WordOfNode` | Server/ServerCore/concurrentqueue.h:1323-1345 | the reference bits of a node equal the number of threads between raising and lowering its count, plus one for the list, its adder or its taker |
| `NodeFreeList.NextInv` | Server/ServerCore/concurrentqueue.h:1291-1391 | every single access of every thread keeps the free-list invariant |
| `NodeFreeList.NothingBlocks` | Server/ServerCore/concurrentqueue.h:1291-1391 | no operation gets stuck: on every run each thread can take its next access or begin |
| `BlockRing.ExplicitProducer.Enqueue` | Server/ServerCore/concurrentqueue.h:1691-1791 | the queue's contents gain the element at the end, or nothing changes; it fails only when an allocation fails or the address space is used up; and no block is added as long as the elements fit into the blocks there are |
| `BlockRing.ExplicitProducer.Dequeue` | Server/ServerCore/concurrentqueue.h:1794-1890 | what comes out, through ticket and block index lookup, is the element enqueued first, and the rest of the contents stays |
| `BlockRing.ExplicitProducer.TakeElement` | Server/ServerCore/concurrentqueue.h:1846-1878 | the block found through the index holds the element at the claimed index; it is moved out and its empty flag set, and the structure stays valid |
| `BlockRing.LookupFinds` | Server/ServerCore/concurrentqueue.h:1846-1855 | the signed, wrap-around offset computation in `dequeue` lands on the entry of the very block the index was written to, for every live index of every reachable index ring |
| `BlockRing.BlockOffsetExact` | Server/ServerCore/concurrentqueue.h:1852-1854 | the offset in blocks, computed on 64-bit words with C++ division, is the true signed number of blocks |
| `BlockRing.ExplicitProducer.StartBlock` | Server/ServerCore/concurrentqueue.h:1695-1778 | at the end of a block the block ahead is used again exactly if it is all dequeued, else one is inserted; it is published, and everything agrees for one more element |
| `BlockRing.ExplicitProducer.ReuseBlock` | Server/ServerCore/concurrentqueue.h:1699-1703 | reusing the block ahead rotates the circle of blocks and gives up only dequeued elements |
| `BlockRing.ExplicitProducer.InsertBlock` | Server/ServerCore/concurrentqueue.h:1735-1751 | a new block is linked into the circle after the tail |
| `BlockRing.ExplicitProducer.PublishBlock` | Server/ServerCore/concurrentqueue.h:1774-1778 | the index entry written for the newest block completes the index |
| `BlockRing.PublishedIndex` | Server/ServerCore/concurrentqueue.h:1774-1778 | overwriting one index slot keeps every live block findable |
| `BlockRing.ExplicitProducer.NewBlockIndex` | Server/ServerCore/concurrentqueue.h:2187-2224 | doubling the block index keeps every live block findable, and a failed allocation changes nothing |
| `BlockRing.CopyEntries` | Server/ServerCore/concurrentqueue.h:2202-2209 | the copying loop moves the used entries, oldest first, to the front of the larger index |
| `BlockRing.CopiedIndex` | Server/ServerCore/concurrentqueue.h:2202-2221 | looking a block up in the doubled index gives what the old index gave |
| `BlockRing.ExplicitProducer.IsEmpty` | Server/ServerCore/concurrentqueue.h:1411-1424 | `is_empty` answers whether every slot's empty flag is set |
| `BlockRing.ExplicitProducer.ResetEmpty` | Server/ServerCore/concurrentqueue.h:1493-1500 | `reset_empty` clears all flags of one block and touches no other |
| `BlockRing.OldestBlock` | Server/ServerCore/concurrentqueue.h:1699-1703 | all flags of the block ahead of the tail are set exactly when all its elements have been dequeued, and that block is the oldest |
| `BlockReuse.TakesItsOwn` | Server/ServerCore/concurrentqueue.h:1841-1878 | on every interleaving of the producer, scanning, clearing and using blocks again, with any number of consumers between their claim and the set of the empty flag: each consumer's lookup leads to the block its index was put into, the element moved out is the one enqueued under that index, nobody else holds the index, and its flag is not set yet, as the source asserts |
| `BlockReuse.LookupFinds` | Server/ServerCore/concurrentqueue.h:1846-1855 | front, base and entry may be read at different times, with starts of other blocks in between: the entry read is still that of the claimed index |
| `BlockReuse.ReuseMeetsNobody` | Server/ServerCore/concurrentqueue.h:1699-1703 | while a block is cleared and entered into the index no consumer has an index of it, and none of it is still to be claimed |
| `BlockReuse.InsertsOnlyIfNotDone` | Server/ServerCore/concurrentqueue.h:1699-1735 | the producer turns to a new block only if the block ahead is not all dequeued when it looks |
| `BlockReuse.LogStays` | Server/ServerCore/concurrentqueue.h:1785-1790 | which element an index stands for never changes |
| `BlockReuse.NextInv` | Server/ServerCore/concurrentqueue.h:1411-1500 | every access of the producer and of the consumers keeps the invariant, flags being read, cleared and set one by one |
| `BlockReuse.NothingBlocks` | Server/ServerCore/concurrentqueue.h:1691-1890 | no operation gets stuck: the producer goes on, or gives the call up where it needs a new block, and so does every consumer |
| `TileMapShade.TileMapShade.BuildLightLevelMap` | Terraria-Replica/TRTileMapShade.cpp:34-37 | after a full build every cell of every map has exactly the best level any path of light brings, within 0 and 32 |
| `TileMapShade.TileMapShade.InvalidateLightLevelMap` | Terraria-Replica/TRTileMapShade.cpp:39-136 | after a recomputation every cell of the clipped window is exact given the levels around it, no other cell changes but glowing ring cells, and the redraw buffer receives exactly the changed cells of the window; for every window whose ring lies on the map |
| `TileMapShade.ValidIffOnMap` | Terraria-Replica/TRTileMapShade.cpp:39-64 | the windows taken are exactly those for which every cell the ring loops queue is on the map; for any other the worklist loop reads a tile that is not there |
| `TileMapShade.ClipIsWindow` | Terraria-Replica/TRTileMapShade.cpp:39-48 | the window recomputed consists of the cells of the one asked for that lie on the map |
| `TileMapShade.TileMapShade.Propagate` | Terraria-Replica/TRTileMapShade.cpp:79-122 | the worklist loop ends, whatever it starts from, with an empty worklist and its invariant intact; the measure is total gap, then queue length |
| `TileMapShade.TileMapShade.Expand` | Terraria-Replica/TRTileMapShade.cpp:96-121 | expanding one popped cell either lowers the total gap or adds nothing to the queue, and restores the invariant |
| `TileMapShade.TileMapShade.Relax` | Terraria-Replica/TRTileMapShade.cpp:98-120 | one direction, with its window, open-air and level tests, keeps the invariant; skipping open-air neighbours loses nothing |
| `TileMapShade.TileMapShade.PushRing` | Terraria-Replica/TRTileMapShade.cpp:50-64 | the worklist starts with exactly the cells around the clipped window that lie on the map |
| `TileMapShade.TileMapShade.ClearWindow` | Terraria-Replica/TRTileMapShade.cpp:66-77 | the window is saved and darkened, and its non-solid cells are queued |
| `TileMapShade.TileMapShade.CollectChanges` | Terraria-Replica/TRTileMapShade.cpp:124-135 | the redraw buffer gains each cell whose level differs from before, once, and the saved levels become the new ones |
| `TileMapShade.TileMapShade.SetLightLevel` | Terraria-Replica/TRTileMapShade.cpp:147-154 | a write outside the map does nothing, one inside changes one cell |
| `TileMapShade.TileMapShade.ShadeElement` | Terraria-Replica/TRTileMapShade.cpp:164-168 | the index of a drawn element is half the level, rounded down, and below 16 |
| `LightRelaxation.EmptyIsExact` | Terraria-Replica/TRTileMapShade.cpp:79-122 | when the worklist is empty every level is the maximum over all paths, from the invariant alone and so for any queue order |
| `LightRelaxation.ExactIsUnique` | Terraria-Replica/TRTileMapShade.cpp:79-122 | two exact levels of one cell are equal: the result does not depend on the order of the queue |
| `LightRelaxation.PathBound` | Terraria-Replica/TRTileMapShade.cpp:96-121 | with an empty worklist no path brings more light to its end than the level there |
| `LightRelaxation.Raise` | Terraria-Replica/TRTileMapShade.cpp:116-120 | raising a neighbour and queueing it keeps the worklist invariant |
| `LightRelaxation.Skip` | Terraria-Replica/TRTileMapShade.cpp:101-117 | each of the skipped directions keeps the worklist invariant |
| `LightDecay.LightSpreads` | Terraria-Replica/TRTileMapShade.cpp:79-122 | a build without a word of paths: every level is from 0 to 32, open air and glowing tiles that are not solid have 32, and a neighbour has at least the light less 4 out of a solid tile, less 1 from in front of a wall, less nothing in open air |
| `LightDecay.LightComesFrom` | Terraria-Replica/TRTileMapShade.cpp:79-122 | and no light comes from nowhere: a lit cell that is no source has a neighbour whose light, less what it loses, is just its own |
| `LightDecay.LevelHasPath` | Terraria-Replica/TRTileMapShade.cpp:88-120 | every lit cell's level is 32 less the decay (0 leaving open air, 1 a walled cell, 4 a solid one) of some path from a source |
| `LightDecay.BestDecayIff` | Terraria-Replica/TRTileMapShade.cpp:72-75 | a build gives every cell the maximum, over all paths from a source, of 32 less the decay, floored at 0, if and only if each solid source of the map is reached by light from a source that is queued at the start: a condition on the map alone |
| `LightDecay.NoSolidLampsIsBestDecay` | Terraria-Replica/TRTileMapShade.cpp:66-122 | in particular for every map whose glowing tiles are not solid, as in the game |
| `LightDecay.LitIffRelit` | Terraria-Replica/TRTileMapShade.cpp:88-120 | after a build a cell is lit if and only if some path of the map brings light to it, whatever the levels were before |
| `LightDecay.DominatesIffNoDarkEmitter` | Terraria-Replica/TRTileMapShade.cpp:72-75 | step on the way: the field is at least 32 less the decay along every path from a source if and only if no source is left dark |
| `LightDecay.DarkEmitterIsSolid` | Terraria-Replica/TRTileMapShade.cpp:72-75 | only a solid source can stay dark |
| `LightDecay.LoneSolidEmitterIsDark` | Terraria-Replica/TRTileMapShade.cpp:72-75 | a concrete map on which a solid source does stay dark |
| `EpochReclamation.GracePeriod` | Server/ServerCore/EBR.hpp:40-90 | on every interleaved run, when `GetNewNode` hands a removed node out again no protected section holds a reference to it, and every protected section open when `RemoveNode` was called for it has ended |
| `EpochReclamation.StartsInOrder` | Server/ServerCore/EBR.hpp:40-48 | on every run the k-th `Start` gets epoch k, counted from 0 around a ring of 2^64: one section in 2^64 has the idle mark |
| `EpochReclamation.EpochIsStored` | Server/ServerCore/EBR.hpp:40-48 | the epoch fetched is the one stored in the thread's counter |
| `EpochReclamation.CallsEnd` | Server/ServerCore/EBR.hpp:60-91 | `RemoveNode` and `GetNewNode` read one counter after the other and are then over: the node is on the list, or the front node or a new one has been handed out |
| `EpochReclamation.SectionSafeIffProtected` | Server/ServerCore/EBR.hpp:40-90 | for a removal about to begin in any reachable or merely valid state, the other threads standing anywhere and no node retired before waiting for the largest epoch there is, some continuation reuses the node under a section that still reads it if and only if the section's epoch is 0 (the first `Start`, the idle mark) or its thread is beyond the scanned counters |
| `EpochReclamation.UnprotectedIsExposed` | Server/ServerCore/EBR.hpp:75-91 | for every unprotected section the run that takes its node away is constructed: the other sections end, remove, scan, hand out the nodes retired before, scan, reuse |
| `EpochReclamation.FirstSectionIsExposed` | Server/ServerCore/EBR.hpp:40-91 | from the initial state of two threads: the run in which the first section ever loses its node |
| `EpochReclamation.UnscannedIsExposed` | Server/ServerCore/EBR.hpp:40-58 | from the initial state: the run in which a thread past the scanned counters loses its node |
| `EpochReclamation.ReuseMeetsNoReader` | Server/ServerCore/EBR.hpp:60-64 | at the reuse step the minimum scan has passed every protected section open since the removal |
| `EpochReclamation.NothingBlocks` | Server/ServerCore/EBR.hpp:40-90 | no operation ever gets stuck: on every run each thread can take its next step |
| `EpochReclamation.RetiredOnce` | Server/ServerCore/EBR.hpp:66-73 | a node is retired exactly if it is on some thread's free list, and then it is on one list, once |
| `EpochReclamation.NextInv` | Server/ServerCore/EBR.hpp:40-90 | every step keeps the invariant, the scans reading one counter per step and `Start` made of two steps |
| `PackedPointer.RoundTrip` | Server/ServerCore/AtomicMemoryPool.hpp:34-45 | pack and unpack undo each other exactly for 43-bit pointers and 19-bit tags |
| `PackedPointer.PackUnpacked` | Server/ServerCore/AtomicMemoryPool.hpp:34-45 | a word is rebuilt from its parts exactly when its two unused bits are 0 |
| `PackedPointer.NextTag` | Server/ServerCore/AtomicMemoryPool.hpp:110-112 | each swap moves the tag one on around a ring of 2^19 and installs the whole pointer |
| `TaggedPool.NoDoubleAllocation` | Server/ServerCore/AtomicMemoryPool.hpp:99-136 | on every interleaving in which no positive multiple of 2^19 swaps lies between a load of the head and its taking swap, `allocate` returns the top block, which nobody holds, or an address new to the pool; no other step makes a block held |
| `TaggedPool.FoundAgain` | Server/ServerCore/AtomicMemoryPool.hpp:110-115 | that condition is exact: a taking swap that finds the word it expects has a multiple of 2^19 swaps behind it since its load, so the condition leaves out just those that find an outdated word |
| `TaggedPool.WinningTake` | Server/ServerCore/AtomicMemoryPool.hpp:110-116 | a taking swap that succeeds in time finds the head unchanged since the load and installs the true successor |
| `TaggedPool.ChainIsAcyclic` | Server/ServerCore/AtomicMemoryPool.hpp:99-136 | on every such run no block stands at two heights of the free list, and none on the list is held |
| `TaggedPool.FullRingIsStale` | Server/ServerCore/AtomicMemoryPool.hpp:106-115 | it is needed: after exactly 2^19 swaps a swap succeeds with an outdated successor and makes a held block the head (from every valid state with three free blocks) |
| `TaggedPool.StaleFromStart` | Server/ServerCore/AtomicMemoryPool.hpp:47-116 | and it happens: from every freshly initialised pool of three blocks and two threads the run is constructed |
| `TaggedPool.NothingBlocks` | Server/ServerCore/AtomicMemoryPool.hpp:99-136 | no operation gets stuck: each thread can take its next step, and a swap succeeds whenever it finds the word it expects |
| `TaggedPool.RecordedOnce` | Server/ServerCore/AtomicMemoryPool.hpp:62-73 | each block from the general allocator is recorded in the list under poolTop exactly once, and nothing else is |
| `TaggedPool.ReadsOnlyBlocks` | Server/ServerCore/AtomicMemoryPool.hpp:111-111 | the link `allocate` reads is always that of an address that is or was a block |
| `TaggedPool.Initialize` | Server/ServerCore/AtomicMemoryPool.hpp:47-60 | the initial loop links the blocks in address order, ends with null, sets the head, and writes nothing else |
| `TaggedPool.InitInv` | Server/ServerCore/AtomicNonTemplate.cpp:22-35 | the memory `initialize` leaves is a valid start of the protocol, in the untyped copy as well |
| `TaggedPool.NextInv` | Server/ServerCore/AtomicNonTemplate.cpp:72-109 | every step keeps the pool invariant; the untyped copy takes the same steps |
| `MpscQueue.Fifo` | Server/ServerCore/MPSCQueue.hpp:44-140 | on every interleaving of many producers and one consumer the delivered values are a prefix of the values in the order of the tail swings: nothing lost, repeated or reordered |
| `MpscQueue.MemorySafe` | Server/ServerCore/MPSCQueue.hpp:44-73 | no step touches a freed node, each link is stored once by the producer that swung the tail off it, and no node is freed while a producer will still write it, although freed addresses may be handed out again at once |
| `MpscQueue.FalseMeansPending` | Server/ServerCore/MPSCQueue.hpp:59-73 | `try_pop_single` answers false exactly if everything has been delivered or the producer of the next value has not stored its link yet |
| `MpscQueue.FalseBehindCompleted` | Server/ServerCore/MPSCQueue.hpp:44-73 | from the initial state: the run in which the answer is false although a later enqueue has completed |
| `MpscQueue.EmptyIsExact` | Server/ServerCore/MPSCQueue.hpp:138-140 | between the consumer's calls `empty_single` is true exactly if every enqueued value has been delivered |
| `MpscQueue.NothingBlocks` | Server/ServerCore/MPSCQueue.hpp:44-140 | no operation gets stuck: producers and the consumer can always take their next step |
| `MpscQueue.FlushIsPops` | Server/ServerCore/MPSCQueue.hpp:122-137 | undisturbed, `try_flush_single` delivers the same values and leaves the same queue as `try_pop_single` called until it answers false |
| `MpscQueue.NextInv` | Server/ServerCore/MPSCQueue.hpp:44-140 | every step keeps the queue's invariant: each link of the chain is stored or exactly one producer is about to store it |
| `ChaseSearch.ChaseSearch.ExecuteAI` | Server/AIComponent.cpp:16-145 | found means the target is reachable, exhausted means it is not; the search pops a legitimate sequence of least entries; the walk back begins at the target if it was found, at the tile of a least queued entry if the clock stopped the search, and at the start if nothing is queued; it follows the parents that those pops left, as far as the second timer grants; the tile chosen and the place above the ground follow from it |
| `ChaseSearch.ChaseSearch.StaysBesideTarget` | Server/AIComponent.cpp:104-110 | an input: in a world of two open tiles side by side the target is found, and the NPC stays beside it |
| `ChaseSearch.ChaseSearch.NextRound` | Server/AIComponent.cpp:67-103 | one round pops a least entry and skips it, ends the search, or expands it, keeping the invariant and lowering the measure |
| `ChaseSearch.ChaseSearch.StepBack` | Server/AIComponent.cpp:106-140 | from the goal to the tile chosen and the place of the NPC: walk, last tile but one, drop to the ground |
| `ChaseSearch.ChaseSearch.DropToGround` | Server/AIComponent.cpp:132-140 | the loop down to the ground ends where the drop does, and says when it would look below the world |
| `ChaseField.WholeWalk` | Server/AIComponent.cpp:112-140 | given time for the whole walk, the tile chosen is the start or an open neighbour of it, and the NPC is put at most one column aside, above the ground below its start |
| `ChaseField.DropIsGround` | Server/AIComponent.cpp:132-140 | the tile the drop ends at is solid or three down, with only open tiles above it; it looks below the world exactly if the tiles down to row 0 are open and fewer than three |
| `ChaseField.TwoTilesEnd` | Server/AIComponent.cpp:67-106 | every search of that world that is not stopped finds the target with the queue empty |
| `ChaseField.CostOfMove` | Server/AIComponent.cpp:54-103 | what a move costs: 1 per axis, 500 if y grows, and the distance left along both axes |
| `ChaseField.ExpansionIs` | Server/AIComponent.cpp:85-103 | expanding a tile gives a neighbour that can be entered, and is cheaper this way, just this cost, a queue entry and this parent, and leaves every other neighbour as it was |
| `ChaseField.ParentTrailFollows` | Server/AIComponent.cpp:118-124 | each tile of the walk back is followed by its parent |
| `ChaseSearch.ChaseSearch.RunSearch` | Server/AIComponent.cpp:67-104 | the search loop terminates for every map; if the queue empties no 8-connected open path exists, and every tile met has a parent |
| `ChaseSearch.ChaseSearch.Expand` | Server/AIComponent.cpp:85-103 | expanding a tile in eight directions lowers the total of costs or adds nothing, and leaves it expanded |
| `ChaseSearch.ChaseSearch.Relax` | Server/AIComponent.cpp:85-103 | one direction, with its bounds, solidity and cost tests, keeps the search invariant unless a cost leaves 16 bits |
| `ChaseSearch.ChaseSearch.WalkBack` | Server/AIComponent.cpp:112-125 | the walk along the parents collects the parent trail to the start, or as much of it as the second timer grants, and says where it stands |
| `ChaseField.TrailIsKnown` | Server/AIComponent.cpp:67-104 | with an empty queue every tile with a trail from the start has been met, and the target has not |
| `ChaseField.EmplaceInv` | Server/AIComponent.cpp:92-102 | writing cost, queue entry and parent keeps the invariant: lazy deletion, strictly falling parents, the start never overwritten |
| `ChaseField.StaleInv` | Server/AIComponent.cpp:75-77 | dropping a popped entry dearer than its tile's best cost keeps the invariant |
| `ChaseField.FreshInv` | Server/AIComponent.cpp:73-85 | a popped entry that is not outdated is its tile's best one |
| `ChaseField.FrontIsNeighbours` | Server/AIComponent.cpp:54-63 | the eight table entries are exactly the eight neighbours |
| `ChaseField.ParentTrailIsTrail` | Server/AIComponent.cpp:118-124 | following parents from any tile met gives legal moves back to the start, costs falling strictly |
| `ChaseField.StartInv` | Server/AIComponent.cpp:40-52 | the state the search is set up in satisfies the invariant |
| `HashBuckets.ConcurrentHashMap.Find` | Server/ServerCore/ConcurrentHash.hpp:130-149 | a walk of the key's bucket finds exactly the map's entry |
| `HashBuckets.ConcurrentHashMap.EmplaceUnsafe` | Server/ServerCore/ConcurrentHash.hpp:294-300 | a new key is put in front of its bucket and added to the map; an old one keeps its value |
| `HashBuckets.ConcurrentHashMap.ExtractUnsafe` | Server/ServerCore/ConcurrentHash.hpp:229-253 | the key's entry is returned and removed, all other entries stay, and the nodes stay linked |
| `HashBuckets.ConcurrentHashMap.EraseUnsafe` | Server/ServerCore/ConcurrentHash.hpp:207-228 | the key's entry, if any, is removed and nothing else |
| `HashBuckets.ConcurrentHashMap.ClearUnsafe` | Server/ServerCore/ConcurrentHash.hpp:261-264 | every bucket and the map are emptied |
| `HashBuckets.ConcurrentHashMap.Unlink` | Server/ServerCore/ConcurrentHash.hpp:214-222 | storing the successor in the predecessor, or in the bucket, unlinks just the one node |
| `LinkedHashMap.LinkedHashMap.AddItem` | Server/ServerCore/LinkedHashMap.hpp:13-21 | list, position map and buckets gain a new key at the end together, or nothing changes for a present one |
| `LinkedHashMap.LinkedHashMap.EraseItem` | Server/ServerCore/LinkedHashMap.hpp:74-86 | all three lose the key together; the answer says whether it was there |
| `LinkedHashMap.LinkedHashMap.ExtractItem` | Server/ServerCore/LinkedHashMap.hpp:113-124 | all three lose the key together and its value is returned |
| `LinkedHashMap.LinkedHashMap.SwapElement` | Server/ServerCore/LinkedHashMap.hpp:139-145 | two present keys exchange their places in the list and every key keeps its own value |
| `LinkedHashMap.LinkedHashMap.ClearUnsafe` | Server/ServerCore/LinkedHashMap.hpp:154-159 | all three are emptied |
| `LinkedHashMap.LinkedHashMap.FindItem` | Server/ServerCore/LinkedHashMap.hpp:36-40 | lookup through the buckets gives the map's value |
| `LinkedHashMap.LinkedHashMap.FindItemUnsafe` | Server/ServerCore/LinkedHashMap.hpp:41-51 | lookup through position map and list gives the same value as the buckets |
| `LinkedHashMap.RunAgrees` | Server/ServerCore/LinkedHashMap.hpp:13-159 | after any calls the list holds exactly the keys of the map, each once |
| `LinkedHashMap.InsertionOrder` | Server/ServerCore/LinkedHashMap.hpp:13-159 | after any calls without swaps the list is in the order in which its keys were added |
| `LinkedHashMap.ExchangedKeys` | Server/ServerCore/LinkedHashMap.hpp:139-145 | a swap keeps the keys, each once, and a second swap undoes it |
| `LinkedHashMap.RemovedAt` | Server/ServerCore/LinkedHashMap.hpp:74-86 | removing a key closes the gap and keeps the order of the others |
| `SlimLinkedHashMap.SlimLinkedHashMap.AddItem` | Server/ServerCore/SlimLinkedHashMap.hpp:12-18 | without the buckets: list and position map gain a new key at the end together, as the linked hash map does, or nothing changes |
| `SlimLinkedHashMap.SlimLinkedHashMap.FindItemUnsafe` | Server/ServerCore/SlimLinkedHashMap.hpp:19-29 | lookup through position map and list gives the map's value |
| `SlimLinkedHashMap.SlimLinkedHashMap.EraseItem` | Server/ServerCore/SlimLinkedHashMap.hpp:52-63 | both lose the key together; the answer says whether it was there |
| `SlimLinkedHashMap.SlimLinkedHashMap.ExtractItem` | Server/ServerCore/SlimLinkedHashMap.hpp:90-103 | both lose the key together and its value is returned |
| `SlimLinkedHashMap.SlimLinkedHashMap.SwapElement` | Server/ServerCore/SlimLinkedHashMap.hpp:121-127 | two present keys exchange their places and keep their values |
| `SlimLinkedHashMap.SlimLinkedHashMap.ClearUnsafe` | Server/ServerCore/SlimLinkedHashMap.hpp:136-140 | both are emptied |
| `SendSlices.SendBufferMgr.LiveBuffersApart` | ClientNetwork/SendBuffer.cpp:19-24 | in every valid state of the manager no two live buffers overlap, and a closed one still holds the bytes it was closed with (of runs, see `SendRuns`) |
| `SendSlices.SendBufferMgr.Open` | ClientNetwork/SendBufferMgr.cpp:18-31 | undisturbed: a new live buffer of the wanted size, at the bump pointer of the thread's chunk if it fits there, else at the front of another chunk, popped and reset; every live buffer stays live |
| `SendSlices.SendBufferMgr.NextChunk` | ClientNetwork/SendBufferMgr.cpp:24-28 | undisturbed: replacing a full chunk, its return to the pool included, touches no live buffer and leaves an empty chunk |
| `SendSlices.SendBufferMgr.FirstChunk` | ClientNetwork/SendBufferMgr.cpp:20-22 | a thread's first chunk, popped but not reset, is not open: its last buffers are gone |
| `SendSlices.SendBufferMgr.Pop` | ClientNetwork/SendBufferMgr.cpp:40-52 | the last pooled chunk, which has no live buffer, or a new one |
| `SendSlices.SendBufferMgr.PushGlobal` | ClientNetwork/SendBufferMgr.cpp:54-57 | a chunk nobody holds any more goes back into the pool once |
| `SendSlices.SendBufferMgr.DropHand` | ClientNetwork/SendBufferMgr.cpp:26-26 | letting the old chunk go calls the deleter exactly if no buffer keeps the chunk |
| `SendSlices.SendBufferMgr.DropBuffer` | ClientNetwork/SendBuffer.cpp:15-17 | the last buffer, closed or not, on a chunk no thread holds calls the deleter |
| `SendSlices.SendBufferMgr.ResetCurrent` | ClientNetwork/SendBufferChunk.h:18-22 | `Reset` happens only on a chunk without live buffers |
| `SendSlices.SendBufferMgr.OpenCurrent` | ClientNetwork/SendBufferChunk.cpp:15-23 | a slice is cut at the bump pointer, within the chunk and apart from every live buffer |
| `SendSlices.SendBufferMgr.CloseBuffer` | ClientNetwork/SendBuffer.cpp:19-24 | closing fixes the bytes written and moves the bump pointer past them, never past the chunk's size |
| `SendSlices.SendBufferMgr.WriteBuffer` | ClientNetwork/SendBufferChunk.h:32-32 | writing an open buffer changes no closed one |
| `SendSlices.OnePlace` | ClientNetwork/SendBufferMgr.cpp:33-57 | a chunk is in exactly one state: pooled without live buffers, on its way there, current for one thread, in one thread's hand, or kept by live buffers alone |
| `SendSlices.CloseSlice` | ClientNetwork/SendBufferChunk.h:24-29 | on one chunk: after closing, all written ranges are still disjoint and below the used size |
| `SendRuns.OneState` | ClientNetwork/SendBufferMgr.cpp:33-57 | on every interleaving of any number of threads opening, writing, closing and dropping buffers, whoever closes them, each access of a shared field, of the pool or of a shared pointer a step: each chunk is in exactly one state, and is on its way to the pool exactly while one thread is about to push it |
| `SendRuns.ResetIsSafe` | ClientNetwork/SendBufferChunk.h:18-22 | on every run both stores of `Reset` meet a chunk without live buffers |
| `SendRuns.NextInv` | ClientNetwork/SendBufferMgr.cpp:18-57 | every access of every thread, in `Open`, `Close`, `Reset` and the deleter, keeps the invariant of the chunks' places, whoever closes what |
| `SendRuns.NothingBlocks` | ClientNetwork/SendBufferMgr.cpp:18-57 | but for the assertions of the source, and for a slice that would end beyond its chunk, no thread gets stuck |
| `SendCloses.ApartIffOwn` | ClientNetwork/SendBufferChunk.h:24-29 | for every rule saying whose buffers who may close and whether twice: on all runs no two live buffers share bytes or are both open on a chunk, and closed ones hold the bytes they were closed with, if and only if the rule lets every thread close only the buffers it opened, each once |
| `SendCloses.LiveApart` | ClientNetwork/SendBufferMgr.cpp:18-57 | under such a rule, over every run from the start, with `Close` taken apart into its stores to `m_writeSize`, `m_bOpen` and `m_usedSize`: live buffers are apart and closed ones intact |
| `SendCloses.ClosedStays` | ClientNetwork/SendBuffer.cpp:19-24 | under such a rule the size and the bytes a buffer was closed with never change |
| `SendCloses.AssertionsHold` | ClientNetwork/SendBufferChunk.cpp:15-23 | under such a rule the chunk's assertions hold when they are met, slices fit into the chunk, and no addition to the used size is lost |
| `SendCloses.CheckFailsOnlyWhileOpen` | ClientNetwork/SendBufferMgr.cpp:18-31 | if besides buffers are closed before they are dropped, the assertion of the manager's `Open` fails only for a thread that has not closed its own last buffer; never for a first chunk, though it is not reset |
| `SendCloses.NextTight` | ClientNetwork/SendBufferChunk.h:14-33 | every access of every thread keeps, with the places, the slices and what each thread relies on of its chunk's fields between its accesses |
| `SendCloses.ForeignCloseOverwritten` | ClientNetwork/SendBufferChunk.h:24-29 | a run, no assertion failing: another thread closes a buffer, the opener opens the next one between the stores to `m_bOpen` and `m_usedSize`, and what it writes changes the closed buffer's bytes |
| `SendCloses.TwiceClosed` | ClientNetwork/SendBufferChunk.h:24-29 | a run: a thread closes a buffer a second time while its next one is open, and the one after that starts in the same place |
| `PacketFraming.ChunkingIsIrrelevant` | ClientNetwork/PacketSession.cpp:14-45 | for every stream without packets of size 0 and every way of splitting it into receives, the same packets are dispatched in the same order and the same bytes are left |
| `PacketFraming.ParseResumes` | ClientNetwork/PacketSession.cpp:14-45 | parsing a stream is parsing a part of it and going on from what is left |
| `PacketFraming.WireParses` | ClientNetwork/PacketHeader.h:1-8 | a round trip: any packets written one after the other, size and id low byte first, with part of another one behind them, are read back as just those packets, in order, and that part is left |
| `PacketFraming.EncodedIsPacket` | ClientNetwork/PacketSession.cpp:19-42 | a written packet is recognised, with its size and id, whatever follows it: a heart-beat by its id, any other whole |
| `PacketFraming.UnfinishedIsNoPacket` | ClientNetwork/PacketSession.cpp:19-29 | no proper part of a written packet is taken for one |
| `PacketFraming.RestIsShort` | ClientNetwork/PacketSession.cpp:19-29 | the bytes left over are fewer than 65536 and hold no complete packet |
| `PacketFraming.ReturnsIffAdvances` | ClientNetwork/PacketSession.cpp:17-42 | the framing loop ends if and only if no packet it meets has size 0 |
| `PacketFraming.ZerosNeverReturn` | ClientNetwork/PacketSession.cpp:17-42 | four zero bytes: after any number of rounds the loop stands where it began |
| `PacketFraming.StoppedParses` | ClientNetwork/PacketSession.cpp:17-42 | a loop that has returned has met no packet of size 0, and has dispatched and consumed just what parsing its bytes gives |
| `PacketSession.PacketSession.ProcessRecv` | ClientNetwork/RecvBuffer.h:18-40 | one receive of any bytes: write, parse, read and compact. If unread and new bytes together are packets as they are written to the wire and part of one more, just these packets are handled, in order, and that part stays. Whenever it returns, no packet of size 0 was there, the session has moved to what parsing the joined bytes gives, fewer than 65536 bytes are unread and at least one full buffer size is free; and it returns, given as many rounds as bytes, if no packet has size 0 |
| `PacketSession.PacketSession.OnRecv` | ClientNetwork/PacketSession.cpp:14-45 | the loop, on any bytes, dispatches the complete packets in order, and stops or is still running where the rounds of the definition are |
| `PacketSession.PacketSession.Frame` | ClientNetwork/PacketSession.cpp:19-29 | the header of the packet at a position is read from the buffer as the framing reads it (see `WireParses`), and a packet is taken only if it is there in full |
| `PacketSession.RecvBuffer.Clear` | ClientNetwork/RecvBuffer.cpp:17-33 | compaction keeps the unread bytes and frees as much as it can, whenever its copy regions are disjoint |
| `PacketSession.RecvBuffer.RegionsDisjoint` | ClientNetwork/RecvBuffer.cpp:17-33 | they are for fewer unread bytes than one buffer size, which the session always keeps |
| `PacketSession.RecvBuffer.OnRead` | ClientNetwork/RecvBuffer.h:18-26 | reading past the data is refused, otherwise the front of the data is consumed |
| `PacketSession.RecvBuffer.OnWrite` | ClientNetwork/RecvBuffer.h:27-35 | writing past the capacity is refused, otherwise the write position moves |
| `ViewList.MoveBroadcaster.BroadcastMove` | Server/ServerCore/MoveBroadcaster.cpp:17-164 | whatever the thread-local set holds: the new view list is, for a session, every other near entity of any sector, and for an NPC every other near session; each session near or departed is sent one packet, in, move or out; the mover's packets bring its mirror from the old view list to the new one with each change once; and the bits returned say whether no session and no NPC is near |
| `ViewList.CandidatesAreListed` | Server/ServerCore/MoveBroadcaster.cpp:62-86 | the candidates are the entities of all sectors for a session, and the sessions of all sectors for an NPC |
| `ViewList.MoveBroadcaster.Collect` | Server/ServerCore/MoveBroadcaster.cpp:86-97 | near candidates are added to the thread's set, and the state bits say which kinds were seen |
| `ViewList.MoveBroadcaster.Arrive` | Server/ServerCore/MoveBroadcaster.cpp:99-135 | stale entries are dropped, and near entities are met, once each |
| `ViewList.MoveBroadcaster.Depart` | Server/ServerCore/MoveBroadcaster.cpp:138-156 | exactly the entities that are no longer near are parted from, once each |
| `ViewList.MoveBroadcaster.Meet` | Server/ServerCore/MoveBroadcaster.cpp:106-128 | a new entity is announced both ways, a known one gets the move packet |
| `ViewList.MoveBroadcaster.Part` | Server/ServerCore/MoveBroadcaster.cpp:141-150 | a departed entity and the mover are told, and it leaves the view list |
| `ViewList.Finished` | Server/ServerCore/MoveBroadcaster.cpp:158-161 | every session told is asked to send once for its packet |
| `ViewList.MirrorResumes` | Server/ServerCore/MoveBroadcaster.cpp:101-156 | the mirror of the packets of several calls is that of the later ones on top of the earlier ones, so the invariant over calls is that all packets together give the view list |
| `PackedRefCount.CountIsOwners` | Server/ServerCore/RefCountable.h:23-35 | on every interleaving of copy, move, assignment, adoption, swap and drop with at most 65536 owners the upper 16 bits are the number of owning handles modulo 65536, the deleter bits never change, and the deleter is called at most once, not while there is an owner |
| `PackedRefCount.AssignmentTakes` | Server/ServerCore/RefCountable.h:60-78 | an assignment leaves the target with what the source had; the source keeps it, or after a move has nothing |
| `PackedRefCount.HandlesHold` | Server/ServerCore/RefCountable.h:43-128 | what each step makes of the handles: a copy shares, a move passes on, a swap exchanges, and nobody else's changes |
| `PackedRefCount.ClearingEmpties` | Server/ServerCore/RefCountable.h:43-128 | a `reset` leaves nothing |
| `PackedRefCount.DeletedAtRest` | Server/ServerCore/RefCountable.cpp:7-17 | at rest an object has been deleted once if nobody owns it, and not at all otherwise |
| `PackedRefCount.NoUseAfterDelete` | Server/ServerCore/RefCountable.cpp:7-17 | for handles that lie outside the counted objects: no count is ever taken or dropped on a deleted object, and the deleter called is the object's own |
| `PackedRefCount.SourceDeletedIff` | Server/ServerCore/RefCountable.h:60-66 | for a handle inside an object: the source an assignment reads lies in a deleted object if and only if it lies in the object the assignment has just dropped and the target was that object's last owner |
| `PackedRefCount.InnerSourceIsDeleted` | Server/ServerCore/RefCountable.h:60-66 | from the start: the run in which an assignment from a handle inside the object dropped reads it after the deletion |
| `PackedRefCount.NothingBlocks` | Server/ServerCore/RefCountable.h:43-128 | an assignment or drop once begun can always go on |
| `PackedRefCount.DropDeletesIff` | Server/ServerCore/RefCountable.cpp:9-15 | a drop calls the deleter exactly if the number of owners is 1 more than a multiple of 65536: safe up to 65536 owners, premature at 65537 |
| `PackedRefCount.CrowdIsDeletedEarly` | Server/ServerCore/RefCountable.cpp:7-17 | from the start: the run of 65537 owners whose first drop deletes the object under the others |
| `PackedRefCount.CountUp` | Server/ServerCore/RefCountable.h:24-24 | `IncRef` counts up around a ring of 2^16 and leaves the deleter alone |
| `PackedRefCount.CountDown` | Server/ServerCore/RefCountable.cpp:9-9 | `DecRef` counts down around the ring and leaves the deleter alone |
| `PackedRefCount.NextInv` | Server/ServerCore/RefCountable.h:43-128 | every step of every thread keeps the invariant, an assignment being a drop, a possible deletion, and a copy or move |
| `CollisionTracking.WrittenWorksIff` | TermProjectGameFrameWork/CCollisionMgr.h:7-14 | the key as it is built: the initialiser of the union goes to its first member, so the key is the right id alone. For every order of visits, over any number of updates, the callbacks of all pairs come in blocks of Enter, Stays, Exit, whatever overlaps and whoever is dead at each visit, if and only if each right collider is paired with at most one left one |
| `CollisionTracking.WrittenConfuses` | TermProjectGameFrameWork/CCollisionMgr.cpp:122-177 | an input: two left colliders against one right one; the second pair leaves without having entered, and its counter reads -1 |
| `CollisionTracking.BlocksIffUnshared` | TermProjectGameFrameWork/CCollisionMgr.cpp:119-177 | for any key function: blocks, whatever overlaps and whoever is dead at each visit, if and only if no two visited pairs share a key |
| `CollisionTracking.UnsharedWorks` | TermProjectGameFrameWork/CCollisionMgr.cpp:119-177 | for any key and any visits whose pairs do not share keys, dead members included: all callbacks are blocks, the true entries are the visited pairs inside a block, and every counter equals the number of touching pairs that mention its collider |
| `CollisionTracking.VisitCalls` | TermProjectGameFrameWork/CCollisionMgr.cpp:130-177 | each visit makes exactly one callback or none: Stay if the pair touched at its last visit, touches again and both are alive; Exit if it touched and no longer does or one is dead; Enter if it did not and now does |
| `CollisionTracking.InsideIsTouched` | TermProjectGameFrameWork/CCollisionMgr.cpp:130-177 | a pair is inside a block exactly if at its last visit it touched and both were alive |
| `CollisionTracking.PackedWorks` | TermProjectGameFrameWork/CCollisionMgr.cpp:122-125 | with the 64-bit expression itself as the key, as intended, no two pairs of 32-bit ids share one |
| `CollisionTracking.KeysDiffer` | TermProjectGameFrameWork/CCollisionMgr.cpp:122-125 | the expression is injective on pairs of 32-bit ids; what the union holds of it is the right id |
| `CollisionTracking.CCollisionMgr.CollisionUpdateGroup` | TermProjectGameFrameWork/CCollisionMgr.cpp:97-180 | both loops visit just the pairs of different objects with colliders, in order, and the map and the counters are what those visits make of them, whatever the key |
| `CollisionTracking.CCollisionMgr.UpdateRow` | TermProjectGameFrameWork/CCollisionMgr.cpp:110-179 | one row of the loops |
| `CollisionTracking.CCollisionMgr.VisitPair` | TermProjectGameFrameWork/CCollisionMgr.cpp:119-177 | one visit, with its overlap and death tests, calls back and updates the entry as its case demands |
| `CollisionTracking.CCollisionMgr.InBlocks` | TermProjectGameFrameWork/CCollisionMgr.cpp:97-180 | as long as no two visited pairs have shared a key, all callbacks are blocks and each counter is the number of touching pairs |
| `CollisionTracking.UpdateSettles` | TermProjectGameFrameWork/CCollisionMgr.cpp:97-180 | after an update whose pairs do not share keys each visited pair's entry says whether it touches now, and pairs with a dead member have none left |
| `CollisionTracking.CountIsTouching` | TermProjectGameFrameWork/CCollider.cpp:53-63 | callbacks in blocks keep every counter, up at Enter and down at Exit, at the number of touching pairs that mention its collider |
| `CollisionTracking.CCollisionMgr.Meet` | TermProjectGameFrameWork/CCollider.cpp:53-57 | entering counts both colliders up, as the callbacks so far say |
| `CollisionTracking.CCollisionMgr.Leave` | TermProjectGameFrameWork/CCollider.cpp:59-63 | leaving counts both down |
| `TerrainHeight.HeightBound` | Server/TRWorldGenerationProcess.cpp:8-16 | for every seed and column the height is within 15 of the map height less 64 |
| `TerrainHeight.HeightIsNearest` | Server/TRWorldGenerationProcess.cpp:10-15 | the height is within a half of height - 64 plus 16 times the four octaves, sampled 50 columns to the unit from the last ten bits of the seed on |
| `TerrainHeight.RoundIsNearest` | Server/CustomMath.hpp:34-37 | rounding is to the nearest, odd, and halves go away from zero |
| `TerrainHeight.NextSeedIsShifted` | Server/TRWorldGenerationProcess.cpp:10-14 | the next seed's terrain is this one's, 50 columns on |
| `TerrainHeight.NoiseOnLattice` | Server/PerlinNoise.hpp:13-19 | noise is 0 at lattice points, and half way between two of them the half difference of their gradients |
| `TerrainHeight.GenerateWorld` | Server/TRWorldGenerationProcess.cpp:8-22 | each column is filled up to its height, the nearest whole number to 64 below the top plus 16 times the noise at its place, its ten top tiles of the second kind, and nothing else is written |
| `TerrainHeight.NoiseBound` | Server/PerlinNoise.hpp:13-19 | one-dimensional noise stays within 1, for every table |
| `TerrainHeight.NoiseBoundIsMet` | Server/PerlinNoise.hpp:13-19 | the bound of 1 is met half way between opposite gradients |
| `TerrainHeight.Fbm` | Server/PerlinNoise.hpp:68-78 | the octave loop computes the octave sum and stays below 1 for every octave count, by 2^-n |
| `TerrainHeight.OctavesNest` | Server/PerlinNoise.hpp:68-78 | n+1 octaves are half the noise plus half of n octaves at twice the scale |
| `TerrainHeight.OctavesBound` | Server/PerlinNoise.hpp:68-78 | the sum of n octaves is at most 1 - 2^-n in size |
| `TerrainHeight.FadeKeepsSides` | Server/PerlinNoise.hpp:115-118 | Fade is below 1/2 exactly left of 1/2 |
| `TerrainHeight.FadeRange` | Server/PerlinNoise.hpp:115-118 | Fade maps [0, 1] to [0, 1] |
| `Inventory.AddItemToInventory` | Terraria-Replica/TRWorld.cpp:472-483 | the loop over the containers puts the stack in as the filling function says |
| `Inventory.FillingConserves` | Terraria-Replica/TRWorld.cpp:472-483 | of every item, slots and remainder together hold what slots and stack held |
| `Inventory.FillingFits` | Terraria-Replica/TRItemStack.cpp:37-49 | no stack exceeds its maximum |
| `Inventory.RemainderIff` | Terraria-Replica/TRWorld.cpp:472-483 | a remainder is left if and only if no slot is blank and the stacks of the item cannot take it all; it is what they cannot take, and they are all full |
| `Inventory.FullSlotsRefuse` | Terraria-Replica/TRWorld.cpp:472-483 | an input: full slots of the item, however many, give the whole stack back |
| `Inventory.FillingKeepsOthers` | Terraria-Replica/TRWorld.cpp:478-479 | stacks of other items are left alone |
| `Inventory.StackUp` | Terraria-Replica/TRItemStack.cpp:37-49 | a stack takes what fits, the rest is returned, nothing is lost |
| `Inventory.Apply` | Terraria-Replica/TRItemStack.cpp:51-69 | two stacks of one item merge: the item and the total stay, the slot never exceeds the maximum, and a rest remains only if the slot is full; anything else, blank or of another item, changes places |
| `Inventory.ExchangedTwice` | Terraria-Replica/TRItemStack.cpp:67-68 | two exchanges undo each other |
| `Inventory.FillingInOrder` | Terraria-Replica/TRWorld.cpp:472-483 | slots are filled in order: one changes only if those before it can take no more |
| `Inventory.AddStack` | Terraria-Replica/TRItemStack.cpp:71-77 | a stack used up becomes blank, otherwise it is cut off at the maximum |
| `Inventory.TRItemContainer.ApplyStack` | Terraria-Replica/TRItemContainer.cpp:24-29 | the held stack and the one given back: merged or exchanged in the same way |

## Left out

- C++ memory orders and fences: all steps are sequentially consistent.
- Sockets, completion ports, drawing, sound, the database and the scripts: I/O and foreign calls.
- Bulk operations, implicit producers, exceptions of element constructors, and growth of the block index while consumers look blocks up (`BlockRing` has it with one call at a time), in the vendored queue.
- The requisition of recycled blocks in `BlockRing`: a new block may come with any flags, which are reset; where it comes from is not modelled.
- `checkAndResetIfNeeded` of the pools, and destructors and `reset` of all lock-free structures: they assume that no other thread runs.
- `EpochReclamation`: `RemoveNode` destroys the object before the grace period begins; the model speaks of the node's reuse, not of the destructor that readers may race with. `Clear` at the end is not modelled.
- Partial light recomputation against a full rebuild: one call is exact inside its window given the levels around it.
- Optimal paths: the cost array stores cost plus distance and is used again as cost, so only reachability and descent are claimed.
- The concurrent paths of the hash map (find then insert under races, erase under locks): the claims are for one thread.
- Deletion of unlinked hash nodes and of queue nodes beyond marking their address free.
- Chunks of a thread that ends, and the manager's destructor, in `SendSlices`; a shared pointer's count is modelled by who holds it.
- SendSlices.SendBufferMgr.Open: one uninterrupted call, with a size up to the chunk size and a closed last buffer, which the source asserts; `SendRuns` has the interleavings, a thread stopping where an assertion fails.
- PacketSession.PacketSession.ProcessRecv: the network writes no more than the free size it was offered, and a session that has been closed receives nothing; the handlers themselves are not modelled.
- PacketSession.RecvBuffer.Clear: overlapping copy regions, for which the source's copy is undefined; `RegionsDisjoint` shows that the session never has them.
- TileMapShade.TileMapShade.InvalidateLightLevelMap: windows that lie beside the map, whose ring cells have no tile and which the source dereferences all the same (`ValidIffOnMap`).
- ViewList.MoveBroadcaster.BroadcastMove: one call at a time; the reference counts taken while copying the sector lists, the sector locks and sending itself are not modelled. `Sector` and `Session` are not part of this model.
- `ReleaseViewList` sets a list to none; the broadcast is proved for that state too.
- PackedRefCount.NoUseAfterDelete: the handles inside a deleted object are not dropped with it, so chains of deletions are not followed.
- `S_ptr::release` (it gives a count up on purpose) and the locks of `AtomicS_ptr`.
- Entries of pairs that are no longer visited because an object left its group, in `CollisionTracking`: they stay as they are; counters are unbounded integers.
- Two- and three-dimensional noise, the other steps of world generation, and rounding of floats.
- Getters, registries, singletons and component plumbing: they would only add easy members.
