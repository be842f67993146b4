# A verified model of BaM's storage stack and of the GIDS data loader

BaM lets GPU threads read and write NVMe drives through a software page cache, without the
CPU. GIDS builds a graph-learning data loader on it. This project models the parts of that
stack whose correctness rests on protocols, invariants or index arithmetic, and proves what
they promise.

`dafny verify dfyconfig.toml` checks the whole project.

## The parts

**Page cache** (`StateWord`, `PageCache`, `PageCacheInvariant`, `PageCacheRefinement`,
`PageCacheRequests`, `PageCacheProgress`, `PageCacheSearch`, `AddressMap`, `CachedArray`,
`FindSlot`, `Coalesce`). A page has one 32-bit state word: VALID,
BUSY, DIRTY and a 29-bit pin count. Threads pin, load, evict and write back pages with single
atomic operations on these words, on one lock for each cache slot, and on a translation from
slots to pages. `PageCache` is the protocol as a transition system over any number of threads,
one atomic operation or memory access a step. Its steps keep an inductive invariant
(`StepKeepsInv`), from which the main results follow for every run: the cache is a flat array
(`StepRefinesFlatArray`, `ReadsReturnLastWrite`); what a caller loads from the page it asked
for is what some caller last stored there (`LoadReturnsLastStored`, and, in the element indices
of a kernel, `SeqReadReturnsLastSeqWrite`, whatever other arrays share the cache); only pages
that somebody asked to write are ever written to disk; a pinned page is never evicted, slots are owned by one page, pins are conserved, and no interleaving ends in a deadlock
(`EveryRunCanGoIdle`). The protocol relies on a global address packing that can be undone and on
pages that share no disk blocks; `AddressMap` proves both from the actual arithmetic, and
`CachedArray` follows an array index down to controller, block and byte (`StoredInjective`,
`DiskIsLinear`). `FindSlot` is the slot search as a method, and `PageCacheSearch` the same search
in the protocol, run by one thread from whatever the others left: either ends within
`2 * n_pages - 1` tickets. `Coalesce` shows that a warp makes one call for each page.

**Parallel queue pair** (`Ring`, `NvmeQueue`, `NvmeQueueInvariant`, `NvmeQueueSteps`,
`NvmeQueueTheorems`, `NvmeQueueProgress`, `NvmeQueueIdentifiers`). Threads take tickets for submission slots, and whichever thread holds the
tail or head lock advances the ring for all, guided by marks. The model is a transition system
of threads and of a controller that fetches in order and completes in any order, as sections
4.1 and 4.6 of NVM Express 1.3 say. The results: the controller fetches exactly the
commands that callers asked for, in ticket order; a slot is rewritten only after the controller reported it fetched,
and never by two threads; a thread is given the completion of its own command, once; the
completion queue head passes only consumed entries; the modular walk over submission slots
recovers the controller's unbounded head and passes every slot once; and every run can be
continued until all issued commands are completed and received, so that it never deadlocks
(`SomethingMoves`, `EveryRunCanFinish`). Command identifiers are locked exactly while somebody
uses them, and `get_cid` finds a free one.

**Scatter lists** (`Prp`, `PrpTables`). What `nvm_cmd_data` and the page cache's constructor
write is what a controller reads when it walks PRP entries as section 4.3 of NVM Express 1.3
says.

**Host ring and admin client** (`HostRing`, `AdminQueue`). The host's rings, their full test and
default identifiers, and the synchronous `execute_command` over them.

**Broadcast tables** (`Bcast`). The table-doubling loops of `CalcBcastOff` compute row-major
broadcasting.

**GIDS batches** (`Gids`). The window buffer and accumulator of `fetch_feature` lose, repeat and
reorder no batch.

**Kernel list** (`KernelList`). The module's doubly linked list on the heap.

`Arith` holds the nonlinear arithmetic the others share, `Wrappers` an option type.

## Where the code keeps less than it seems to promise

- `nvm_cmd_data` with too few PRP entries returns a count, and its command should transfer that
  many pages. That fails exactly when the last list has room for only two entries: the
  controller then takes a list's address for a page (`NvmCmdData`,
  `CutShortListIsTakenForAPage`). The function accepts such a list, but its entries fill only 16
  bytes; the pages of a real NVMe controller hold at least 512 entries, so none produces one.
- The full test of the host ring is right for every head and tail exactly when the queue size
  divides 65536 (`FullTestIsExact`; a ring of 100 entries is a counterexample).
- `find_range` compares the index with a range's count, not with its end, so a range is found for
  exactly its own indices only when it starts at index 0 (`CoversItsIndicesIffStartsAtZero`).
- After an admin command times out, the next successful call returns the completion of an
  earlier command. With a controller that completes in order, a call returns its own completion
  exactly when no earlier command is still in the ring (`ExecuteCommand`).
- `CalcBcastOff`'s tables have length `out_len` exactly when no output axis is empty.
- The comment on `nvm_prp_list` cites section 4.4 of the NVMe specification for the list layout;
  the layout is that of section 4.3, which the model follows.

## Assumptions

Atomic operations are sequentially consistent. A page has fewer than 2^29 pins; `max_range` is a
power of two, range ids are below it, ranges occupy disjoint blocks, elements do not straddle
pages. `compare_exchange_weak` does not fail spuriously. At most 2^32 commands are enqueued on a
queue, so that 32-bit tickets and positions stand for unbounded ones. A scan pass of `cq_poll`
and the copy of one command or completion are single steps. In the third shape of the PRP
tables the lists take up less than 4 GiB, because their total size is a 32-bit number. Queue
doorbells are mapped. Tensor shapes fit in `int`.

## Model

| member | source | states |
|---|---|---|
| StateWord.DecodeEncode | bam/include/page_cache.h:57-70 | a state word taken apart into flags and count is recovered from its 32-bit number |
| StateWord.EncodeDecode | bam/include/page_cache.h:57-70 | every 32-bit number is the encoding of one word |
| StateWord.FlagAtomicsAreThirtyTwoBit | bam/include/page_cache.h:1139-1179 | the flag atomics on the word taken apart set, clear and flip the bits of the 32-bit number |
| StateWord.CountAtomicsAreThirtyTwoBit | bam/include/page_cache.h:1132 | adding and subtracting pins is 32-bit addition, spilling into the flags where the sum leaves 29 bits |
| StateWord.AddKeepsFlagsIffNoOverflow | bam/include/page_cache.h:1132 | pinning disturbs no flag exactly when the count stays below 2^29 |
| StateWord.SubKeepsFlagsIffNoBorrow | bam/include/page_cache.h:1091-1094 | unpinning disturbs no flag exactly when no more pins are taken than are there |
| PageCacheInvariant.InitInv | bam/include/page_cache.h:756-763 | a cold cache meets the protocol's invariant |
| PageCacheInvariant.StepKeepsInv | bam/include/page_cache.h:1119-1224 | every step of every thread, in every state that meets the invariant, keeps it |
| PageCacheInvariant.ClearKeeps | bam/include/page_cache.h:1849-1896 | evicting a clean, unpinned page keeps the invariant: its content is on disk, and its slot is free for one page |
| PageCacheInvariant.ClaimPinnedKeeps | bam/include/page_cache.h:1845-1885 | an evictor that finds pins after setting BUSY gives the page back unharmed |
| PageCacheInvariant.WriteBackKeeps | bam/include/page_cache.h:1849-1874 | a write-back to one replica keeps the invariant, although the replicas differ meanwhile |
| PageCacheInvariant.FillKeeps | bam/include/page_cache.h:1150-1161 | a miss fills its slot with the page's own content, whichever replica it reads |
| PageCacheInvariant.PublishKeeps | bam/include/page_cache.h:1163-1173 | turning BUSY into VALID publishes a slot that holds the page's content and backs no other page |
| PageCacheRefinement.StepRefinesFlatArray | bam/include/page_cache.h:1539-1609 | every step is a read of the flat array, a write to it, or leaves it as it is |
| PageCacheRefinement.RunInv | bam/include/page_cache.h:1119-1224 | the invariant holds in every state of every interleaving |
| PageCacheRefinement.FlatIsLastWrite | bam/include/page_cache.h:1539-1609 | the array that a state stands for is the initial one with the run's writes applied |
| PageCacheRefinement.ReadsReturnLastWrite | bam/include/page_cache.h:1539-1609 | in every run a read returns the last value written to its place |
| PageCacheRefinement.OnlyClearEvicts | bam/include/page_cache.h:1840-1896 | a page stays VALID in its slot, and the slot's translation names it, through every step but the evictor's fetch_and |
| PageCacheRefinement.EvictionStartsUnpinned | bam/include/page_cache.h:1841-1850 | a thread begins to evict a page only by a claim that finds the page VALID in the slot, without pins and with BUSY clear |
| PageCacheRefinement.EvictorFoundNoPins | bam/include/page_cache.h:1841-1896 | in every run, whoever is about to take a page out of its slot claimed it earlier, without pins and not BUSY, and has been evicting it ever since |
| PageCacheRefinement.SettledPageStays | bam/include/page_cache.h:1132-1195 | no step of another thread evicts a page that a thread has settled on |
| PageCacheRefinement.PinnedPageIsNeverEvicted | bam/include/page_cache.h:1132-1195 | over any stretch of a run in which a thread keeps its settled page, the page stays valid in its slot |
| PageCacheRefinement.SlotsAreInjective | bam/include/page_cache.h:1139-1179 | each valid page is named by the translation of its slot, and two valid pages never share a slot |
| PageCacheRefinement.UnlockedSlotIsBacked | bam/include/page_cache.h:1816-1896 | an unlocked slot that is not FREE names a page that is valid in it, or is being loaded into it by the one owner of its BUSY bit |
| PageCacheRefinement.CountIsSumOfPins | bam/include/page_cache.h:1132 | the low 29 bits are the sum of the outstanding pins |
| PageCacheRefinement.PublishFindsBusyNotValid | bam/include/page_cache.h:1173 | the exclusive or at the end of a miss always meets BUSY set and VALID clear |
| PageCacheRefinement.ClaimFollowsProbe | bam/include/page_cache.h:1841-1846 | a search sets BUSY on the page in its slot only after a look that found it without pins and not BUSY |
| PageCacheRequests.ThreadWorksForItsRequest | bam/include/page_cache.h:1119-1224 | in every run a thread is idle exactly if its caller has no request open, and otherwise works on that request's page, count and mode |
| PageCacheRequests.AccessIsAsRequested | bam/include/page_cache.h:1539-1609 | every load and store is on the page that its caller asked for, and a store only under a request to write |
| PageCacheRequests.LoadReturnsLastStored | bam/include/page_cache.h:1539-1609 | in every run a load returns what callers last stored at that place of the requested page, or what the disk held at the start |
| PageCacheRequests.DirtyOnlyUnderWrite | bam/include/page_cache.h:1136-1179 | a page becomes dirty only under a request to write it |
| PageCacheRequests.WrittenBackIsDirty | bam/include/page_cache.h:1849-1874 | only dirty pages are written back |
| PageCacheRequests.DiskChangesOnlyByWriteBack | bam/include/page_cache.h:1849-1874 | a step that changes the disk writes the slot of a dirty, valid page to a block of that page |
| PageCacheRequests.OnlyReadStaysOnDisk | bam/include/page_cache.h:1119-1224 | a page that nobody asks to write is never dirty, and its blocks stay as they were |
| PageCacheSearch.OneTurn | bam/include/page_cache.h:1796-1925 | a turn of the search takes its slot exactly if the slot can be taken, and otherwise leaves everything but the ticket as it was, whatever other threads are doing |
| PageCacheSearch.EveryTurnHasItsTicket | bam/include/page_cache.h:1800-1812 | every slot that a search looks at is that of a new ticket |
| PageCacheSearch.SearchEnds | bam/include/page_cache.h:1796-1925 | from any reachable state in which some slot can be taken, a search run alone takes one within 2n-1 tickets, n if the 32-bit ticket does not wrap |
| PageCacheProgress.RunLocksHeld | bam/include/page_cache.h:1816-1896 | in every reachable state a slot lock that is taken has a holder |
| PageCacheProgress.Straight | bam/include/page_cache.h:1119-1224 | outside its three waits a thread's own step always brings it nearer to the end of its call |
| PageCacheProgress.WaitStep | bam/include/page_cache.h:1119-1195 | a thread whose page is not BUSY finds the page or goes to look for a slot, in spite of the races it may lose on the way |
| PageCacheProgress.RestingSlots | bam/include/page_cache.h:1816-1896 | when all threads wait, every slot is free or holds an unpinned page that is not BUSY |
| PageCacheProgress.SeekStep | bam/include/page_cache.h:1796-1896 | where every slot can be taken, a search comes nearer to taking one with each step |
| PageCacheProgress.EveryRunCanGoIdle | bam/include/page_cache.h:1091-1224 | every run, with however many threads and few slots, can be continued without a new request until every thread has had and released its page, and no pin, BUSY bit or slot lock is left |
| CachedArray.PlaceIsCached | bam/include/page_cache.h:1060-1072 | every element of an array lies on a page that the cache serves, inside the page |
| CachedArray.StoredInjective | bam/include/page_cache.h:556-582 | from index to controller, block and byte: no two elements, and no two replicas of one, share a byte on disk |
| CachedArray.DiskIsLinear | bam/include/page_cache.h:556-582 | the array lies on disk element after element: replicated, on every controller from the range's first page on; striped, page by page over the controllers in turn |
| CachedArray.PlaceOfInjective | bam/include/page_cache.h:1060-1072 | different array indices live at different places of different or equal pages |
| CachedArray.LastStoreIsLastStored | bam/include/page_cache.h:1579-1609 | the last `seq_write` to an index is the last store to its place, also when other arrays and raw accesses use the cache |
| CachedArray.SeqReadReturnsLastSeqWrite | bam/include/page_cache.h:1539-1609 | in every run, whatever else goes through the cache, a caller that asks for the page of index i and loads its element gets the last value that `seq_write` stored at i, or before that the value on every replica on disk |
| AddressMap.GlobalAddressInverts | bam/include/page_cache.h:1074-1079 | range and page are recovered from the 64-bit global address exactly when the page number fits above the range bits |
| AddressMap.PackedAddress | bam/include/page_cache.h:1074-1079 | a page number that fits is packed above the range ids: the address is page * max_range + range (page * 2 with a single range) |
| AddressMap.BackingIsLinear | bam/include/page_cache.h:556-582 | replicated, a page is at its own place from the range's start on every controller; striped, counting through the controllers block by block gives the page number |
| AddressMap.ExtentIsTight | bam/include/page_cache.h:556-569 | the last page of a range is in the last block of its extent |
| AddressMap.BackingPageInExtent | bam/include/page_cache.h:556-569 | a page's blocks lie in its range's extent, striped or replicated |
| AddressMap.BackingInjective | bam/include/page_cache.h:556-582 | within a range a controller and a block belong to one page and one replica |
| AddressMap.GeometryIsValid | bam/include/page_cache.h:684-731 | the address arithmetic meets all that the protocol relies on: write-back goes where a later miss reads, and pages share no blocks |
| AddressMap.RangeOfIsFirst | bam/include/page_cache.h:1318-1329 | the range found is the first that covers the index |
| AddressMap.FindRange | bam/include/page_cache.h:1318-1329 | the loop finds that range, or -1 exactly when none covers the index |
| AddressMap.CoversItsIndicesIffStartsAtZero | bam/include/page_cache.h:1322 | the test accepts exactly the range's indices if and only if the range starts at 0 or is empty |
| AddressMap.ElementFits | bam/include/page_cache.h:1060-1072 | an element lies within one page, on an element boundary |
| AddressMap.PlacesDiffer | bam/include/page_cache.h:1060-1072 | page and subindex together determine the index |
| FindSlot.AllMet | bam/include/page_cache.h:1802 | as many consecutive tickets as there are slots meet every slot |
| FindSlot.Slots.Try | bam/include/page_cache.h:1796-1925 | one turn takes its slot exactly when the slot is free or its page unpinned and not busy; otherwise it changes nothing |
| FindSlot.Slots.FindSlot | bam/include/page_cache.h:1796-1925 | run alone with a takeable slot, the search ends within 2n-1 tickets (n if the ticket does not wrap), evicts only an unpinned page, and writes it back if and only if it was dirty |
| Coalesce.SameWishSameMaster | bam/include/page_cache.h:1349-1352 | lanes that want the same page of the same array have one master, the lowest of them |
| Coalesce.OneCallPerPage | bam/include/page_cache.h:1348-1365 | a warp makes exactly one call for each page of each array that its lanes want, with one pin for each lane that wants it, dirty if and only if one of them writes |
| Coalesce.CountsSumToActiveLanes | bam/include/page_cache.h:1348-1365 | the counts of a warp's calls of acquire_page add up to its active lanes |
| Coalesce.EachLaneIsServedOnce | bam/include/page_cache.h:1348-1365 | each lane is served by exactly one call, for its page and array, dirty if and only if a lane of its group writes |
| NvmeQueueInvariant.SqStepKeeps | bam/include/nvm_parallel_queue.h:168-330 | every step of sq_enqueue keeps turnstile, marks, queue memory and doorbell in order |
| NvmeQueueInvariant.SqStepSpares | bam/include/nvm_parallel_queue.h:168-330 | no step of one thread in sq_enqueue disturbs another there |
| NvmeQueueInvariant.ExchangeKeeps | bam/include/nvm_parallel_queue.h:60-80 | clearing the mark at the tail advances the tail over that mark's own ticket, whose command is in its slot |
| NvmeQueueInvariant.TurnstileMoves | bam/include/nvm_parallel_queue.h:112-118 | advancing a slot's turnstile for one ticket keeps the meaning of it for all other tickets |
| NvmeQueueInvariant.SqHeadStepKeeps | bam/include/nvm_parallel_queue.h:83-123 | the walk and the addition move the head from the old report to the one of the last swept completion |
| NvmeQueueInvariant.CqStepKeeps | bam/include/nvm_parallel_queue.h:425-535 | every step of cq_dequeue keeps head marks, position locks and doorbell in order |
| NvmeQueueInvariant.CqStepSpares | bam/include/nvm_parallel_queue.h:425-535 | no step of one thread in cq_dequeue disturbs another there |
| NvmeQueueInvariant.EarlierTicketsDone | bam/include/nvm_parallel_queue.h:175-217 | a ticket that the turnstile lets in finds every earlier ticket of its slot done and passed |
| NvmeQueueSteps.PhaseTellsPosted | bam/include/nvm_parallel_queue.h:385-412 | an entry near the head with the phase of its round is the completion posted there in that round, never a stale one |
| NvmeQueueSteps.PollFindsOwn | bam/include/nvm_parallel_queue.h:379-422 | what a scan finds is the completion of the thread's own command |
| NvmeQueueSteps.FetchIsCovered | bam/include/nvm_parallel_queue.h:296-310 | the doorbell differs from the controller's head exactly when it is ahead, and then the next slot holds its ticket's command |
| NvmeQueueSteps.RoomIsSeen | bam/include/nvm_parallel_queue.h:474-488 | the completion queue's doorbell shows a full queue exactly when it is full |
| NvmeQueueSteps.ThreadStepKeeps | bam/include/nvm_parallel_queue.h:168-535 | every step of every thread is defined and keeps the shared invariant and its own |
| NvmeQueueSteps.ThreadStepSpares | bam/include/nvm_parallel_queue.h:168-535 | every step of a thread keeps what any other thread relies on |
| NvmeQueueSteps.InitInv | bam/src/queue.cpp:12-40 | an empty queue pair meets the invariant |
| NvmeQueueSteps.StepKeepsInv | bam/include/nvm_parallel_queue.h:35-535 | every step of any thread or of the controller keeps the queue pair's invariant |
| NvmeQueueTheorems.RunInv | bam/include/nvm_parallel_queue.h:35-535 | the invariant holds in every state of every run |
| NvmeQueueTheorems.StepsAreDefined | bam/include/nvm_parallel_queue.h:168-535 | in every reachable state every thread's next step is defined |
| NvmeQueueTheorems.CompletionMatches | bam/include/nvm_parallel_queue.h:379-422 | in every reachable state the entry that cq_poll gives a thread is the only completion its command ever gets, and nobody else waits for it |
| NvmeQueueTheorems.PollFindsExactlyWhenPosted | bam/include/nvm_parallel_queue.h:379-422 | unless a head update is under way, cq_poll finds the completion exactly when it has been posted |
| NvmeQueueTheorems.ReceivedOnce | bam/include/nvm_parallel_queue.h:379-535 | over a run no command's completion is received twice |
| NvmeQueueTheorems.HeadPassesOnlyConsumed | bam/include/nvm_parallel_queue.h:83-100 | the completion queue's head passes only completions whose threads have found them |
| NvmeQueueTheorems.ControllerOverwritesOnlyConsumed | bam/include/nvm_parallel_queue.h:474-488 | a completion is overwritten only after its thread has found it |
| NvmeQueueTheorems.IdentifiersInFlightDiffer | bam/include/nvm_parallel_queue.h:35-57 | two commands that are issued and not completed have different identifiers |
| NvmeQueueTheorems.TurnstileCounts | bam/include/nvm_parallel_queue.h:175-217 | every slot has a current ticket, and `tickets[pos]` is twice that ticket's round plus the number of the round's two increments that are done |
| NvmeQueueTheorems.SlotReusedAfterFetch | bam/include/nvm_parallel_queue.h:175-217 | a slot is rewritten only after its producer is done and a completion has reported its command fetched |
| NvmeQueueTheorems.WritersHaveOwnSlots | bam/include/nvm_parallel_queue.h:239-259 | two threads never write the same slot at once |
| NvmeQueueTheorems.IssuedAreAsked | bam/include/nvm_parallel_queue.h:168-260 | over every run the issued commands are those that callers asked for, in order |
| NvmeQueueTheorems.OwnCommandIsAsked | bam/include/nvm_parallel_queue.h:168-535 | the command that a thread waits for is the one it came with, and it has worked on no other since |
| NvmeQueueTheorems.DoorbellSafety | bam/include/nvm_parallel_queue.h:60-80 | in every reachable state the fetched commands are the first of those that callers asked for, in order, the ring holds at most qs-1, and every slot the doorbell covers holds its ticket's command |
| NvmeQueueTheorems.FetchTakesNextTicket | bam/include/nvm_parallel_queue.h:296-310 | the controller fetches exactly when the doorbell is ahead, and then the next ticket's command |
| NvmeQueueTheorems.LeavesOnlyBehindTail | bam/include/nvm_parallel_queue.h:278-327 | a thread leaves sq_enqueue only when the tail, and with the lock free the doorbell, has passed its ticket |
| NvmeQueueTheorems.MarkGoneIffPassed | bam/include/nvm_parallel_queue.h:278-323 | once set, a thread's tail mark is gone if and only if the tail has passed its ticket |
| NvmeQueueTheorems.PassedProducerLeaves | bam/include/nvm_parallel_queue.h:278-327 | a thread whose ticket the tail has passed leaves without the tail lock, even if others keep it |
| NvmeQueueTheorems.PassedConsumerLeaves | bam/include/nvm_parallel_queue.h:440-500 | likewise a thread whose completion the head has passed goes on to its last wait |
| NvmeQueueTheorems.HeadIsTheReportedOne | bam/include/nvm_parallel_queue.h:101-122 | with the head lock free, the submission queue's head is the one the last passed completion reports |
| NvmeQueueTheorems.WalkEndsAtReportedHead | bam/include/nvm_parallel_queue.h:107-119 | the walk over ring positions moves exactly as far as the reported unbounded head |
| NvmeQueueTheorems.EverySlotPassedOnce | bam/include/nvm_parallel_queue.h:107-119 | over a run the head mover advances the turnstile of every ticket once, in ticket order |
| NvmeQueueTheorems.WaitTestIsExact | bam/include/nvm_parallel_queue.h:504-532 | across 32-bit wraparound the wait ends exactly when the head has passed the entry |
| NvmeQueueTheorems.WaitTestMissesWrap | bam/include/nvm_parallel_queue.h:504-532 | a head a whole 2^32 further on would not be noticed, so the bound is tight |
| NvmeQueueTheorems.FoundNearHead | bam/include/nvm_parallel_queue.h:379-422 | the head that a thread later compares with is the one its scan started from, less than a round behind the entry found |
| NvmeQueueTheorems.AwaitEndsWhenPassed | bam/include/nvm_parallel_queue.h:504-532 | in every reachable state the last wait ends exactly if the head has passed the thread's entry, on 32-bit counters too unless the head has moved on by 2^32 since the scan |
| NvmeQueueIdentifiers.CidHeldIffUsed | bam/include/nvm_parallel_queue.h:35-57 | in every reachable state an identifier is locked if and only if some thread is using it, and one thread at most does |
| NvmeQueueIdentifiers.FreedExactlyByPut | bam/include/nvm_parallel_queue.h:55-57 | an identifier is freed by exactly the steps in which the thread that uses it puts it back |
| NvmeQueueIdentifiers.SomeCidIsFree | bam/include/nvm_parallel_queue.h:35-52 | with no more threads than identifiers, a thread that looks for one has one to find |
| NvmeQueueIdentifiers.GetCidEnds | bam/include/nvm_parallel_queue.h:35-52 | get_cid run alone finds a free identifier within as many tickets as there are identifiers, and changes nothing else |
| NvmeQueueProgress.StepKeepsPeopled | bam/include/nvm_parallel_queue.h:168-535 | every command not yet passed has a thread that serves it, every lock and slot lock that is held has a holder, and every fetched command is in progress or completed |
| NvmeQueueProgress.OldestIsTakenUp | bam/include/nvm_parallel_queue.h:425-535 | while a completion waits at the head, its thread or one in its way can go on |
| NvmeQueueProgress.NextTicketMoves | bam/include/nvm_parallel_queue.h:175-330 | when nothing else can move, the thread of the first ticket ahead of the tail finds its turnstile open or can move the tail |
| NvmeQueueProgress.SomethingMoves | bam/include/nvm_parallel_queue.h:168-535 | freedom from deadlock: while a thread is inside sq_enqueue, cq_poll or cq_dequeue, some step of a thread or of the controller does more than spin |
| NvmeQueueProgress.UsefulStepIsNearer | bam/include/nvm_parallel_queue.h:168-535 | each such step brings the completion of all issued commands nearer, so there is no livelock among them |
| NvmeQueueProgress.EveryRunCanFinish | bam/include/nvm_parallel_queue.h:168-535 | every run can be continued, without another command, until every issued command is fetched, completed and received |
| Ring.PosIsMod | bam/include/nvm_parallel_queue.h:28-31 | slot, round and phase of a counter are its remainder, quotient and the quotient's parity |
| Prp.NvmPrpList | bam/include/nvm_cmd.h:114-154 | the pages that fit are written, one fewer when they do not all fit, and the rest of the list stays |
| Prp.NvmPrpListChain | bam/include/nvm_cmd.h:163-185 | the exact contents of all lists afterwards, and the number of pages written |
| Prp.CountIsWhatFits | bam/include/nvm_cmd.h:163-185 | all pages are written if they fit the chain, else as many as fit beside the reserved entry |
| Prp.WalkReadsBack | bam/include/nvm_cmd.h:163-185 | a controller's walk of the chain reads back the pages, for any number of lists and pages that fit |
| Prp.WalkTakesPointerForPage | bam/include/nvm_cmd.h:163-185 | cut short at a last list of two entries, the walk of two or more lists goes wrong |
| Prp.ChainReadBackExactly | bam/include/nvm_cmd.h:163-185 | the walk yields the written pages if and only if all fit, or there is one list, or the last list holds three |
| Prp.ClearSelectorsClearsTwoFields | bam/include/nvm_cmd.h:67-75 | setting the data pointer clears two fields of the first word and keeps opcode and identifier |
| Prp.NvmCmdDataPtr | bam/include/nvm_cmd.h:67-75 | the pointers split over four words are recovered from them |
| Prp.NvmCmdData | bam/include/nvm_cmd.h:194-225 | the transfer described by PRP1, PRP2 and the lists is the first pages in order, as many as returned, if and only if it is not cut short at a last list of two entries |
| Prp.CutShortListIsTakenForAPage | bam/include/nvm_cmd.h:194-225 | four pages and one list of two entries: the controller takes the list for the second page |
| PrpTables.PopulateHandle | bam/src/dma.cpp:125-148 | each controller page's bus address is that of its place in the buffer's own pages |
| PrpTables.SameImage | bam/src/dma.cpp:125-148 | both page sizes give every byte of the buffer the same bus address |
| PrpTables.Tables.Small | bam/include/page_cache.h:778-801 | slots no larger than a controller page are parts of one |
| PrpTables.Tables.Double | bam/include/page_cache.h:803-823 | slots of two controller pages are pairs of them |
| PrpTables.Tables.Large | bam/include/page_cache.h:825-866 | larger slots have a list of their own with their other pages in order |
| PrpTables.SmallSlot | bam/include/page_cache.h:778-801 | in the first shape the controller finds every byte of a slot at its bus address |
| PrpTables.DoubleSlot | bam/include/page_cache.h:803-823 | so it does in the second shape |
| PrpTables.LargeSlot | bam/include/page_cache.h:825-866 | so it does in the third shape |
| PrpTables.Build | bam/include/page_cache.h:769-867 | the constructor refuses exactly the unusable sizes; otherwise the pages walked for slot i are the bus image of the bytes at base_addr + i * page_size |
| PrpTables.SlotsNeverOverlap | bam/include/page_cache.h:1104-1109 | transfers for different slots never touch the same byte |
| Bcast.UseBcast | dgl/src/bcast.cc:18-26 | broadcasting is needed exactly for operations that are no copies on operands of different feature shapes |
| Bcast.OffsetIsBroadcast | dgl/src/bcast.cc:58-76 | the table entry at an output index's row-major position is the operand's row-major position of that index with broadcast axes zeroed |
| Bcast.PositionsAreCovered | dgl/src/bcast.cc:47-78 | every entry of a table is the position of an output index |
| Bcast.OffsetIdentity | dgl/src/bcast.cc:79-87 | on equal shapes the loops would give the identity |
| Bcast.AppendAxis | dgl/src/bcast.cc:58-73 | one axis of the table-doubling loop |
| Bcast.Tables | dgl/src/bcast.cc:45-78 | the loops' tables for any shapes; their length is out_len exactly when no output axis is empty |
| Bcast.EqualShapes | dgl/src/bcast.cc:79-87 | without broadcasting, axes and output length agree with what the loops would compute, also for dot |
| Bcast.CompatibleExactly | dgl/src/bcast.cc:49-73 | shapes are compatible exactly if, aligned from the last axis, each two axes are equal or one of them is 1, and the output axis is then the other one |
| Bcast.CalcBcastOff | dgl/src/bcast.cc:36-90 | for compatible shapes both operands are read at the broadcast position of every output index, whichever branch is taken, in units of the reduce axis for dot |
| HostRing.FullTestIsExact | bam/include/nvm_queue.h:66-70 | the full test is right for every head and tail if and only if the size divides 65536 |
| HostRing.FullTestMissesFullRing | bam/include/nvm_queue.h:66-70 | a ring of 100 entries that is full passes for one that is not |
| HostRing.CidsRepeatEveryTwoRounds | bam/include/nvm_util.h:227 | the default identifier of the n-th enqueue is n modulo 2 * qs, so two are equal exactly a multiple of 2 * qs apart |
| HostRing.SubmissionQueue.Enqueue | bam/include/nvm_queue.h:64-83 | a bounded queue of qs-1: refuses exactly when full, else hands out a slot that is not in use |
| HostRing.SubmissionQueue.Submit | bam/include/nvm_queue.h:233-252 | afterwards a mapped doorbell shows the ring position after all commands enqueued so far; without one nothing changes |
| HostRing.SubmissionQueue.Update | bam/include/nvm_queue.h:260-267 | the oldest command leaves |
| HostRing.CompletionQueue.Poll | bam/include/nvm_queue.h:156-174 | the entry at the head, exactly if it carries the current phase |
| HostRing.CompletionQueue.Dequeue | bam/include/nvm_queue.h:189-204 | the entry is taken and the head advances, turning the phase at the end of the ring |
| HostRing.CompletionQueue.Update | bam/include/nvm_queue.h:279-286 | afterwards a mapped doorbell shows the ring position of the first completion not taken; without one nothing changes |
| AdminQueue.OwnCompletion | bam/src/rpc.cpp:271-322 | if the ring was empty before a call, the next completion is that of the call's command, in whatever order the controller works |
| AdminQueue.Admin.DequeueBlock | bam/src/queue.cpp:54-67 | returns the next posted completion or, when time is up, none |
| AdminQueue.Admin.ExecuteCommand | bam/src/rpc.cpp:271-322 | EAGAIN exactly when qs-1 commands are in the ring; a timeout leaves one more; a result is the next posted completion, and with no backlog the command's own |
| AdminQueue.Admin.Run | bam/src/rpc.cpp:271-322 | in a timeout-free run the n-th result answers the n-th command, and both rings end empty and in phase with the controller |
| Gids.PrefetchIsExact | GIDS/GIDS_Setup/GIDS/GIDS.py:278-304 | a part is prefetched, with its own nodes, at its own offset and in its turn, exactly if the graph is homogeneous or the part is not empty |
| Gids.FeaturesAreOwn | GIDS/GIDS_Setup/GIDS/GIDS.py:391-420 | every part's feature rows are those of its own nodes, at its own offset |
| Gids.Loader.WindowBuffering | GIDS/GIDS_Setup/GIDS/GIDS.py:278-304 | exactly the batch's prefetches are issued |
| Gids.Loader.FillWb | GIDS/GIDS_Setup/GIDS/GIDS.py:308-313 | batches drawn to fill the window are kept, also when the sampler ends on the way |
| Gids.Loader.Accumulate | GIDS/GIDS_Setup/GIDS/GIDS.py:355-374 | the fewest batches that bring enough accesses are counted |
| Gids.Loader.ReadMerged | GIDS/GIDS_Setup/GIDS/GIDS.py:434-446 | the tensors waiting are those of the first batches waiting, in order |
| Gids.Loader.FetchFeature | GIDS/GIDS_Setup/GIDS/GIDS.py:323-528 | a call returns the oldest batch with its own features or ends with the sampler; batches returned and waiting are the batches drawn; each was prefetched once when windowing is on |
| Gids.Loader.Epoch | GIDS/GIDS_Setup/GIDS/GIDS.py:323-528 | over a whole epoch the batches returned followed by those left waiting are those that waited before followed by the epoch's, in order |
| KernelList.Unlinked | bam/module/list.c:21-34 | joining a node's neighbours and leaving it out makes a circle of the rest, in both directions |
| KernelList.Linked | bam/module/list.c:38-52 | a new last node makes a circle with the others, in both directions |
| KernelList.List.Insert | bam/module/list.c:38-52 | the element comes last, and nothing else moves |
| KernelList.ListRemove | bam/module/list.c:21-34 | an element leaves its list and the others keep their order; null, a node in no list and a list's head change nothing |
| KernelList.List.Next | bam/module/list.h:51-52 | the next element, or none after the last |
| KernelList.List.Forward | bam/module/list.h:51-52 | following list_next meets the elements in order |
| KernelList.ClearMapList | bam/module/pci.c:284-300 | the list ends empty and the count is its old length |

## Left out

- `bam_ptr`, `bam_ptr_tlb` and `tlb`: they index `pages` by slot number instead of page number, so the page they hand out is not the one that is pinned.
- `__flush`: it takes no BUSY bit and is meant for a quiescent cache.
- The atomic-add path of the array: a step of its own kind on an element, not modelled beside load and store.
- Weak memory orders, back-off, statistics counters, device allocation and mapping of registers.
- `enqueue_second`'s ordering between its command and the eviction counter; here it is the second command under a kept identifier, and `read_data` is one completed read.
- `access_data`, `poll_async`, `sq_dequeue` and `move_head_sq`: never called, or called without the output pointers they need.
- A thread that stalls inside a scan of `cq_poll` for two whole rounds would see an old phase as current; a scan is one step here.
- The page cache and parallel queue protocols are transition systems over values rather than classes, because their point is the interleaving of threads; the spin loops become states with a step back.
- AdminQueue.Admin.ExecuteCommand: time is a script of what the controller does before each further poll; cache flushes and fences are left out.
- The relaxed loads before a lock is tried, the fence that `move_tail` makes of the submission queue's head lock, and the completion queue's tail counter, which nothing reads.
- Fairness: that every waiting thread is served under a given scheduler. What does not depend on scheduling is proved: from every reachable state both protocols can be run to the end, and the slot search run alone ends.
- NvmeQueueProgress.EveryRunCanFinish: a thread in `get_cid` has no command yet and may be left there; that it finds an identifier is `GetCidEnds` and `SomeCidIsFree`.
- Prp.NvmPrpList: a list of no entries is given no pages, because it would make the source's counter wrap.
- Prp.NvmPrpListChain: the lists of a chain have at least two entries; with one entry a list holds only the address of the next, and a chain's walk makes no progress in it.
- Prp.NvmCmdData: addresses are whole pages; the host build's early return for no pages is modelled; the device build needs at least one page.
- Bcast.CalcBcastOff: products are unbounded where the source uses 32-bit `int` for the output length; a dot without broadcasting needs a nonzero reduce axis, by which the source divides.
- Gids.Loader.FetchFeature: the tuple form of a batch, and the copies to the device; tensors are described by what is read into them.
- KernelList.ListRemove: spin locks are left out.
- The tables' unit of DMA is a byte address; pinning of host memory and the reference counts of mappings are left out.
- The reference counts in `dma.cpp` and `ctrl.cpp`, controller reset, error strings, chunk sizes and logarithms: each is a few independent assignments or a table, and no protocol, invariant or index arithmetic rests on it.
- `ix_feature_store.cpp`: its file index and file offset do not form one mapping for more than one file.
- Training scripts, models, samplers, dataset loaders and launch tools.
