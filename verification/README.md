# A verified model of HeMem's tier manager

This Dafny project models the user-space tiered memory manager of this repository and proves what its parts promise.
`dafny verify dfyconfig.toml` checks all of it.  Nothing here is executed.

DRAM and NVM are two tiers of page frames.  Every frame has a descriptor, which is on one of eight queues: free, mapped,
or requested to move.  Requests pass mapped pages to request lists, a migration thread serves these in batches, faults
and `mmap` take free pages, and `munmap` takes pages out of an index from virtual addresses to descriptors.

The sizes of the tiers, the batch size, the number of copy threads and the hash function are parameters throughout; the
page sizes of `AddressSpace.dfy` are those of `hemem.h`.

| file | about |
|---|---|
| `Basics.dfy` | the machine word, frames, sequences without repetition, sums over threads |
| `Fifo.dfy` | the intrusive queues of `fifo.c`, on the heap |
| `TierSpec.dfy` | what `pebs.c` does to queues, counters and descriptors, as functions on values |
| `TierManager.dfy` | `pebs.c` as it runs, a class over the queues of `Fifo.dfy`, proved to do what `TierSpec.dfy` says |
| `Requesting.dfy` | the loops of the requests, round by round, and what a random request picks |
| `Draining.dfy` | batches compose, so draining does not depend on the batch size; what the assertions need on the way |
| `RoundTrip.dfy`, `RepeatedTrips.dfy` | all pages down and up again, once and any number of times |
| `FrameOwnership.dfy` | exactly when the frames keep their owners |
| `PageTables.dfy` | what descriptors mean to the application: when present pages keep frames of their own, which batches the data path may be given, and that it leaves the page table the descriptors say |
| `TierProtocol.dfy`, `TierLedger.dfy` | all interleavings of requests, faults, populate, munmap and migration |
| `Undisturbed.dfy` | with no other thread between, batches, requests and mappings of the interleaved model are those of `TierSpec.dfy`, and munmap takes back what populate has counted |
| `TierRuns.dfy` | addresses over runs; runs on which the code goes wrong |
| `MigrationPath.dfy` | the data path: flag, write-protect, copy, remap, unflag, beside readers and writers |
| `ParallelCopy.dfy` | the copy threads of the build without DMA |
| `AddressSpace.dfy` | populate, munmap and the rounding of lengths |
| `Bits.dfy`, `StableSorting.dfy`, `AppOrder.dfy`, `Buckets.dfy`, `Uthash.dfy` | the hash table of `uthash.h`: buckets and their doubling, the app-order list, its sort and in-order insertion, and the page index as a finite map |

The main results are these.

- **Migration hides itself.**  Whatever the interleaving, the application's reads and writes are a history of plain
  memory (`MigrationPath.Hidden`): just the operations each thread issues, once each and in the order of issue, less at
  most the last, which it still has in hand (`MigrationPath.EachOnceInOrder`) and can always carry out once the batch is
  over (`MigrationPath.NeverLost`). In the end the page table is the one the descriptors say
  (`PageTables.TableFollowsDescriptors`).
- **Ownership and assertions.**  In every run from `pebs_init` a step fails an assertion, divides by zero, follows a
  NULL, writes outside a device or removes what is not in the index exactly when it is one of the hazards the code
  leaves to chance (`TierLedger.FromTheStart`); until then each descriptor is on one queue or with one thread, with the
  flags its place says, and every present page lies inside the device of its tier. The hazards are a random request on a
  counter of zero; one that turns a list which others have emptied meanwhile (`TierRuns.TwoRequesters` is such a run);
  both tiers used up; an unaligned or already indexed address; a page that two threads unmap at once
  (`TierRuns.UnmapTwice`); a write fault for a page that is out of the index (`TierRuns.UnmappedThenWritten`, and by
  `TierRuns.WriteFaultsFind` only after an munmap); more requested pages than free ones; and a free descriptor whose
  offset lies outside the device it is used for. The last can happen to the smaller device only, and so never with tiers
  of one size (`TierLedger.OnlyTheSmaller`).
- **The interleaved steps are the sequential code.**  When no other thread comes between, the steps of a batch, of a
  request in sequence or at random, and of a mapping in either tier do what `TierSpec` says, exactly when they come upon
  no hazard (`Undisturbed.UndisturbedBatch`, `UndisturbedRequest`, `UndisturbedRandom`, `UndisturbedMapping`).
- **How often the driver's trip can be made.**  A freed descriptor keeps its own offset, and so brings NVM offsets to
  the free list of DRAM. With M of D DRAM pages mapped and N NVM pages, k round trips pass all their assertions, in
  whatever orders they ask for the pages, if and only if D = N or (k + 1) M is at most twice the smaller of D and N
  (`RepeatedTrips.TripsPass`). The driver maps half of DRAM and makes one trip; its fourth would abort
  (`RepeatedTrips.HalfOfDram`). `RoundTrip.UpAsserts` is the condition of a single trip from any state.
- **Frame ownership fails, exactly when.**  For the same reason a non-empty batch keeps frames and descriptors one to
  one if and only if it goes across tiers and takes just the offsets it vacates (`FrameOwnership.BatchOwned`). Present
  pages can come to share a frame: populate then clears a live one (`PageTables.PopulateSharesAFrame`), and draining
  within a tier, with the repository's batches of one, copies one live page over another
  (`PageTables.DrainSharesAFrame`). `PageTables.MappedSeparate`, `PageTables.BatchSeparate` and
  `PageTables.DrainSeparate` say exactly when they do not.
- **Counters.**  Requests, populate, batches and whole passes keep every counter at the length of its queue, and the
  handler of missing faults never does (`TierSpec.HandedCounters`, `MappedCounters`, `Draining.PassCounters`); populate
  and the munmap of its address give all eight back (`Undisturbed.UnmapUncounts`). Under interleaving request counters
  never run ahead of their lists, tiers keep their sums, and `get_total_mmap` is the number of indexed pages for pages
  mapped through populate.
- **The copy threads** serve the requests that are made, each once, one after the other (`ParallelCopy.AllReturned`),
  bring every call to its return (`ParallelCopy.CanReturn`), and serve a request whole if and only if the number of
  threads divides the length.
- **The hash table** refines a finite map through doublings and the freeing of the table, `HASH_FSCK` passes exactly
  when the table is sound, an add doubles the buckets exactly when it fills its own, and `HASH_SRT` is the one stable
  sort.

Points of the code the model keeps as they are: a freed descriptor is written its own offset back (`pebs.c:353`, read at
`pebs.c:348`); `hemem_migrate_dram` and `hemem_migrate_nvm` move within a tier and count no migration;
`handle_missing_fault` moves a page without counting it, and `hemem_munmap` counts a page without moving it, so that two
present pages can have one address (`TierRuns.AddressTwice`).

Assumptions of the concurrent models: the migration thread reads a counter once per batch (the code reads it twice,
`pebs.c:313`); a counter update is atomic, whichever of the two locks guards it; a faulted page gets its address and its
index entry together with its enqueueing; a lookup that takes no lock sees the index between two locked operations;
write-protection, unmapping and remapping are in force when the kernel call returns, and the DMA call returns when every
listed range is copied.

## Model

| member | source | states |
|---|---|---|
| Fifo.Page.constructor | pebs.c:490-495 | a new descriptor has its offset and tier, is not present, and stands on no list |
| Fifo.FifoList.Enqueue | fifo.c:7-25 | the queue becomes its old contents followed by the entry, links, back-pointers, both ends and numentries all right; every other queue of the shared pool keeps its contents and its links |
| Fifo.FifoList.Dequeue | fifo.c:27-52 | returns the oldest entry, unlinked, and leaves the rest in order, or NULL on an empty queue; every other queue is as it was |
| Fifo.FifoList.Remove | fifo.c:54-87 | takes the page out from whatever position it has and keeps the others in order; an empty list is left alone; every other queue is as it was |
| Fifo.FifoList.NextPage | fifo.c:89-100 | NULL gives the oldest page, a page the one enqueued after it, the newest NULL |
| Fifo.FifoList.Walk | fifo.c:89-100 | following next_page visits every page once, in dequeue order, and stops |
| TierSpec.InitKeeps | pebs.c:482-514 | after initialisation every descriptor is on exactly one free list, with the flags of its tier |
| TierSpec.InitInfo | pebs.c:489-514 | descriptor i of a tier owns the frame at i pages, is not present, and belongs to that tier |
| TierSpec.InitCounters | pebs.c:489-514 | the counters begin as the lengths of the queues |
| TierSpec.AlwaysSurvives | pebs.c:122-127 | exactly when a random request for n pages gets through for all choice sequences, enqueueing no NULL and dividing by no zero: when neither counter nor list is shorter than n, or the counter is one ahead of the list |
| TierSpec.PicksPermute | pebs.c:120-138 | whatever the random numbers of a request that gets through, the pages it picks and those it leaves are the list rearranged |
| TierSpec.RandomRequestedKeeps | pebs.c:209-227 | a random request that gets through hands over as many different pages as asked, or all there are, loses and duplicates none, and keeps queues and flags in step |
| TierSpec.RequestedKeeps | pebs.c:140-154 | a request in sequence loses and duplicates no page and keeps queues and flags in step |
| TierSpec.HandedCounters | pebs.c:131-136 | a request of either kind keeps every counter at the length of its queue |
| Requesting.PickAt | pebs.c:122-131 | a round takes the page at place rand modulo the counter modulo the length, counted from the page next in turn, and the next round begins behind it |
| Requesting.ZerosInSequence | pebs.c:122-131 | rounds that pass over nothing pick the first pages in their order |
| Requesting.RandomIsSequence | pebs.c:118-156 | with such rounds a random request is the request in sequence |
| TierSpec.MappedKeeps | pebs.c:439-468 | allocation moves one page from a free list to the mmap list of its tier and keeps queues and flags in step |
| TierSpec.PopulatedKeeps | hemem.c:330-392 | the same for a populated page, whose counters move too |
| TierSpec.MappedInfo | pebs.c:439-468 | a page of DRAM as long as one is free, at its address, with the frame it had and no migrations; no other descriptor changes |
| TierSpec.MappedCounters | hemem.c:385-389 | populate keeps every counter at the length of its queue; the handler of missing faults leaves two of them wrong |
| TierSpec.BatchInfo | pebs.c:343-358 | after a batch page i has the offset of free descriptor i and the new tier, a freed descriptor differs only in its flags (it keeps its own offset), and no other descriptor has changed |
| TierSpec.BatchFlags | pebs.c:352-358 | after a batch every page's tier and present flags are those of the queue it stands on |
| TierSpec.BatchCountsMoves | hemem.c:776-776 | DRAM to NVM counts one migration down and none up for each page of the batch, NVM to DRAM one up and none down, a batch within a tier neither; addresses stay |
| TierSpec.BatchKeeps | pebs.c:312-339 | a batch, within a tier or across, loses and duplicates no descriptor and keeps queues and flags in step |
| Draining.BatchAdd | pebs.c:341-370 | two batches of m and n pages leave the state one batch of m + n pages would |
| Draining.AbleNext | pebs.c:341-342 | a batch lowers the counter by the number of pages it moved and leaves enough free pages for the next |
| Draining.DrainQueueEmpties | pebs.c:341-370 | for any batch size of at least one, the inner loop ends with the counter at zero and exactly the counted pages gone from the request list, none lost |
| Draining.DrainQueueIsBatch | pebs.c:341-370 | with enough free pages the inner loop leaves the same state for every batch size: that of one batch of all counted pages |
| Draining.DrainQueueElsewhere | pebs.c:312-430 | an inner loop leaves the other request lists and their counters alone |
| Draining.DrainQueueFree | pebs.c:362-367 | an inner loop takes as many descriptors from the free list of the target tier as it adds to that of the other |
| Draining.DrainAllEmpties | pebs.c:311-432 | with enough free pages one pass over the four loops empties every request list whose counter equals its length, for any batch size, and keeps every page |
| Draining.PassOrder | pebs.c:311-432 | the pass drains within DRAM, then down, then up, then within NVM |
| Draining.PassCounters | pebs.c:362-427 | a pass that finds every counter at the length of its queue leaves it so |
| Draining.PlaceableNext | hemem.c:614-630 | if the assertions hold for a batch of n pages they hold for its first m and, after those have moved, for the rest |
| RoundTrip.Sends | pebs.c:229-243 | a request for all pages of a tier, and the pass that serves it, is one batch of them, whatever the batch size |
| RoundTrip.DownAndUp | mig-test.c:36-42 | all DRAM pages down in any order and up again in any order: the DRAM list has the order of the way up, NVM maps nothing, free-list lengths and all counters are as before, and every page counts one more migration each way |
| RoundTrip.SentCountsMoves | hemem.c:776-776 | on the way down each page counts one migration down and none up, on the way up one up and none down |
| RoundTrip.InSequence | pebs.c:140-156 | with requests in sequence the DRAM list comes back in its original order |
| RoundTrip.AtRandom | mig-test.c:36-42 | with random requests, as the driver makes them, the same pages come back, for every choice of random numbers |
| RoundTrip.UpAsserts | hemem.c:628-630 | given that the way down passed, the way up, whatever the orders of the two requests, passes the offset assertions if and only if every offset it takes, NVM offsets kept by freed descriptors included, lies inside DRAM |
| RepeatedTrips.PassesMakeTheTrip | pebs.c:311-432 | the two requests and the two passes of the migration thread that serve them make the trip these rows speak of, for any batch sizes |
| RepeatedTrips.TripTurnsRing | pebs.c:345-358 | a round trip of m pages turns the ring of free descriptors, those of DRAM followed by those of NVM, by m places, whatever its orders |
| RepeatedTrips.OneTrip | hemem.c:534-540 | while the ring has been turned no further than two sizes of the smaller tier allow, the next trip passes if and only if it still keeps within that, and then leaves every page inside DRAM |
| RepeatedTrips.TripsPass | mig-test.c:28-42 | for all tier sizes D and N, every number m of populated pages both tiers have room for, and every k: k round trips, in any orders, can be made and served, and pass all address and offset assertions if and only if D = N or (k + 1) m <= 2 min(D, N) |
| RepeatedTrips.HalfOfDram | mig-test.c:12-42 | with half of DRAM populated, as the driver does, and more NVM than DRAM, exactly up to three trips pass |
| RepeatedTrips.NextTrip | hemem.c:628-630 | with no more DRAM than NVM: after k trips that pass, the next passes on its way down, and on its way up if and only if D = N or (k + 2) m <= 2 D |
| RepeatedTrips.FirstTrip | mig-test.c:28-42 | after all of DRAM has been populated the first round trip passes every address and offset assertion, whatever the orders of the requests, and turns the free NVM list by the size of DRAM |
| RepeatedTrips.SecondTrip | mig-test.c:28-42 | after all of DRAM has been populated the second round trip passes on the way down, and on the way up if and only if NVM has no more frames than DRAM |
| RepeatedTrips.SecondWayUpAborts | hemem.c:628-630 | with all of DRAM populated and more NVM than DRAM the first batch of the second way up fails an offset assertion, whatever the batch size and the orders of the requests |
| FrameOwnership.InitOwned | pebs.c:489-514 | initialisation gives every frame of both tiers exactly one descriptor |
| FrameOwnership.MappedOwned | pebs.c:439-468 | allocation keeps the one-to-one correspondence of frames and descriptors |
| FrameOwnership.BatchOwned | pebs.c:345-358 | a batch of the code as written keeps that correspondence if and only if it is empty, or goes across tiers and vacates just the offsets it takes, in some order; within a tier a non-empty batch never does |
| FrameOwnership.DrainOwned | pebs.c:341-370 | the same condition, exactly, for draining a whole request list with any batch size, also within a tier that has only enough free pages for one batch |
| FrameOwnership.DestinationsUnused | pebs.c:346-350 | while the correspondence holds, the frames a batch takes are different and no other descriptor has them |
| FrameOwnership.WithinDramLosesAFrame | pebs.c:312-329 | for all tier sizes with two DRAM frames: mapping one page and moving it within DRAM breaks the correspondence |
| FrameOwnership.DownLosesAFrame | pebs.c:341-358 | for all tier sizes with two DRAM frames and an NVM frame: a random request for the second of two pages, served, breaks it too |
| PageTables.MappedSeparate | pebs.c:439-468 | allocation leaves present pages on frames of their own if and only if no present page has the frame of the free page it takes |
| PageTables.BatchSeparate | pebs.c:345-358 | a batch does if and only if the frames it takes are different and no present page outside it has one of them |
| PageTables.DrainSeparate | pebs.c:312-341 | a drain with any batch size, also within a tier that has free pages for one batch only, does if and only if the pages to move do not outnumber the free ones, the frames taken are different, and no present page outside the drain has one |
| PageTables.PopulateSharesAFrame | pebs.c:312-329 | for all tier sizes with two DRAM frames: a page moved within DRAM and the last page populated after it share a frame |
| PageTables.NextNotBatchable | pebs.c:313-318 | within a tier, a batch that comes round to a descriptor an earlier batch has freed is not one the data path may be given |
| PageTables.DrainSharesAFrame | pebs.c:312-329 | for all tier sizes with three DRAM frames: all of DRAM but one page populated and moved within DRAM in batches of one, the second batch is not one the data path may be given, and pages that had frames of their own share them in the end |
| PageTables.BatchableIff | hemem.c:776-778 | a batch is one the data path may be given if and only if the frames it takes are different and no present page has one |
| PageTables.OwnedBatchable | pebs.c:346-350 | while every frame has one owner every batch is |
| PageTables.InjectiveIsSeparate | hemem.c:754-763 | the page table never has two addresses on one frame exactly when present pages have frames of their own |
| PageTables.BatchTable | hemem.c:750-779 | the descriptors after a batch are the page table with its pages on their new frames and all others as they were |
| PageTables.TableFollowsDescriptors | pebs.c:73-79 | when the data path has carried out a batch, whatever the application did meanwhile, the page table is the one the descriptors then say |
| TierManager.Manager.constructor | pebs.c:23-41 | the static lists are empty and the counters zero |
| TierManager.Manager.Init | pebs.c:482-514 | makes the descriptors of both tiers and leaves the heap in the initial abstract state, every invariant holding |
| TierManager.Manager.InitTier | pebs.c:489-500 | one of its loops: n descriptors, offsets in page steps, appended to the free list and counted |
| TierManager.Manager.HandOver | pebs.c:142-152 | the body of the request loops: the page next in turn passes to the request list and is counted; its assertions hold |
| TierManager.Manager.Request | pebs.c:140-156 | the queues, counters and result of a request in sequence are those of the abstract request, also when fewer pages are there or the number is negative |
| TierManager.Manager.Rotate | pebs.c:124-126 | the rotation loop turns the list by that many places, also when it is turned more than once round; an empty list only by none |
| TierManager.Manager.RandomRequest | pebs.c:120-139 | a random request whose choices get through does what the abstract one does, also on a counter ahead of its list, and returns how many pages it put |
| TierManager.Manager.AllocatePage | pebs.c:439-468 | DRAM first, then NVM; the page becomes present and goes to the mmap list; its assertions hold |
| TierManager.Manager.MapPage | hemem.c:945-990 | the queues and the descriptor after a missing fault; the counters are not touched |
| TierManager.Manager.PopulatePage | hemem.c:331-389 | the same for populate, which counts the page |
| TierManager.Manager.TakeBatch | pebs.c:345-349 | takes n pages and n free descriptors in order and remembers the free descriptors' offsets |
| TierManager.Manager.Mark | pebs.c:75-78 | sets, or clears, migrating on every page of the batch |
| TierManager.Manager.RemapPages | hemem.c:750-779 | the descriptors, pages marked as migrating, get their new offset and tier in place; a move from NVM to DRAM adds one to migrations_up, one from DRAM to NVM one to migrations_down, one within a tier to neither |
| TierManager.Manager.MigratePages | pebs.c:73-87 | marks, checks, updates and unmarks the pages of the batch; no page is left marked |
| TierManager.Manager.ReturnBatch | pebs.c:352-358 | pages go to the mmap list of the new tier and freed descriptors, with their own offset, to the free list of the old one |
| TierManager.Manager.CountBatch | pebs.c:362-367 | the counters of a batch, modulo 2^64 |
| TierManager.Manager.MigrateBatch | pebs.c:341-368 | given the address and offset assertions, one iteration does what the abstract batch of min(counter, batch size) pages does, and its tier assertions hold |
| TierManager.Manager.DrainList | pebs.c:341-370 | one inner loop terminates and leaves the state of the abstract drain |
| TierManager.Manager.MigrationPass | pebs.c:311-432 | one pass of the endless loop leaves the state of the abstract pass |
| TierProtocol.StepOwned | fifo.c:7-52 | every step that fails no assertion keeps each descriptor on exactly one queue or with one thread, its flags as its place says, and the index on present pages only |
| TierProtocol.StepInside | hemem.c:628-634 | every step that fails no assertion leaves every present page inside the device of its tier, and from its check on a batch with free descriptors inside the device it goes to |
| TierProtocol.StepAllFit | pebs.c:346-353 | offsets are only handed on: if every descriptor, free or not, fits a tier, every step keeps it so |
| TierProtocol.AssertsHold | hemem.c:534-540 | if moreover present pages lie inside their devices, a step fails an assertion, a division or a dereference of the requests, the allocator, populate, the fault handlers, munmap, the write-protection or the migrate functions, their offset assertions included, if and only if it is one of the hazards |
| TierProtocol.MigMoves | hemem.c:750-779 | a page of a batch changes tier together with what its place says of it, page by page |
| TierLedger.CounterBehindQueue | pebs.c:262-270 | at the head of a migration loop a request counter is at most the length of its list, and equal to it when no request is between enqueueing and counting |
| TierLedger.SourceNeverEmpty | pebs.c:316-318 | the source dequeue of a batch never returns NULL |
| TierLedger.StepLedger | pebs.c:131-136 | every step keeps the exact balance of list length, counter, uncounted requests and unsubtracted pages |
| TierLedger.StepTierSum | pebs.c:333-336 | in every step, faults and munmap included, the four counters of a tier keep their sum modulo 2^64 |
| TierLedger.StepTierPages | pebs.c:345-358 | in every step a tier's queue lengths and the descriptors held for it keep their total |
| TierLedger.StepTallied | pebs.c:89-92 | every step keeps the mapped counters, corrected for pages still to be counted and pages mapped by faults, equal to the number of indexed pages modulo 2^64 |
| TierLedger.EveryRun | pebs.c:311-432 | over whole runs: an assertion fails, offset assertions included, if and only if the run comes upon a hazard; until then ownership, ledger and tally hold, present pages lie inside their devices, and the totals of both tiers are kept |
| TierLedger.FromTheStart | pebs.c:482-529 | the same from initialisation, with the totals D and N, for any number of threads and any interleaving |
| TierLedger.OnlyTheSmaller | hemem.c:628-634 | in every run from initialisation a frame outside its device is mapped or moved to in the strictly smaller tier only, so never when the tiers have one size |
| TierLedger.FreeNotIndexed | hemem.c:381-390 | no descriptor on a free list, held to be filled, or taken as a migration target is in the index, so a fresh page's va is never the key of an indexed node |
| TierLedger.LookupsStable | hemem.c:187-192 | no step but the munmap of an address changes what the index answers for it, or the va of the page it answers with |
| TierLedger.TotalIsIndexed | pebs.c:89-92 | with no page still to be counted, the sum and the fault-mapped pages together are the indexed pages modulo 2^64 |
| TierLedger.WaitEndsWhenUnmapped | mig-test.c:46-47 | in runs that map through populate only, the returned int is zero if and only if nothing is indexed |
| TierLedger.IntOfTotal | pebs.c:89-92 | the int returned is the sum up to a multiple of 2^32, within the range of an int, and the sum itself if that is in it |
| Undisturbed.UndisturbedBatch | pebs.c:341-368 | the steps of the migration thread for one batch, with no other thread between them, come upon no hazard if and only if the address and offset assertions of the abstract batch hold, and then leave its queues, counters and descriptors |
| Undisturbed.OwnedIsWellFormed | fifo.c:7-52 | the invariant of the interleaved model implies that of the abstract states |
| Undisturbed.UndisturbedRequest | pebs.c:140-156 | the steps of a request in sequence, with no other thread between them, come upon no hazard and leave the state of the abstract request |
| Undisturbed.UndisturbedRandom | pebs.c:118-139 | those of a random request come upon no hazard if and only if its choices get through, and then leave the state of the abstract one |
| Undisturbed.UndisturbedMapping | pebs.c:439-468 | those of a mapping, by populate or by a missing fault, in DRAM or when that is used up in NVM, come upon no hazard if and only if the address is aligned and new and the free page lies inside its device, and then leave the state of the abstract mapping |
| Undisturbed.UndisturbedUnmap | hemem.c:479-486 | munmap of a page lowers the mapped counter of the page's tier by one, raises its free counter by one, and moves no other; queues and descriptors stay |
| Undisturbed.UnmapUncounts | hemem.c:385-487 | populate and the munmap of its address give back the index and all eight counters, in DRAM and when that is used up in NVM |
| TierRuns.TwoRequesters | pebs.c:122-126 | for all tier sizes with two DRAM frames: a run without a failure so far in which a random request comes to pass over a page of a list another request has emptied |
| TierRuns.AddressedFromTheStart | hemem.c:170-179 | in runs from initialisation that unmap nothing, present pages have different addresses |
| TierRuns.WriteFaultsFind | hemem.c:918-919 | in runs from initialisation that unmap nothing the handler of write faults always finds the page in the index |
| TierRuns.UnmappedThenWritten | hemem.c:918-919 | a run without a failure so far in which the handler of write faults does not find a page that munmap has taken out |
| TierRuns.AddressTwice | hemem.c:472-487 | munmap followed by populate of the same address leaves two present pages with that address, and no assertion notices |
| TierRuns.UnmapTwice | hemem.c:474-476 | a run without a failure so far in which two threads have found one page and the second comes to remove what the first has removed |
| MigrationPath.StepInv | hemem.c:694-785 | every step of writers, readers, buffers and the migration thread keeps the invariant of the data path |
| MigrationPath.StepLooks | hemem.c:734-779 | a step shows the application what plain memory would, and leaves it seeing what plain memory would hold |
| MigrationPath.Hidden | pebs.c:73-79 | for every interleaving with any number of batches, all reads and writes form a history of plain memory, so no completed write is lost |
| MigrationPath.HiddenFromTheStart | hemem.c:339-344 | the same from freshly mapped, zeroed pages |
| MigrationPath.OnlyItsOwn | hemem.c:912-926 | no fault, no waking, no step of another thread and no step of a migration changes the operation a thread has in hand |
| MigrationPath.EachOnceInOrder | hemem.c:1099-1099 | in every run, beside any number of batches, the operations observed of a thread and the one it has in hand are exactly those it had and issues, in order and once each |
| MigrationPath.EachOnceFromTheStart | hemem.c:1099-1099 | the same from freshly mapped pages, with nothing in hand |
| MigrationPath.WaitsForWaking | hemem.c:912-926 | a writer that has faulted stays where it is until it is woken |
| MigrationPath.NeverStranded | hemem.c:918-926 | a thread with an operation in hand can access memory, unless its page is being remapped, or fault if the page is protected, or wake up if it is not marked |
| MigrationPath.NeverLost | pebs.c:73-79 | from every state, in the middle of a batch too, a thread can still come to carry out the operation it has in hand |
| MigrationPath.MapInv | hemem.c:754-778 | the fixed remapping of a page keeps frames distinct and finds no buffer entry for it |
| MigrationPath.NoStaleFrame | hemem.c:754-763 | a buffer entry always has the present frame of its page, so nobody uses the old frame after the remap |
| MigrationPath.WokenCanWrite | hemem.c:912-926 | a writer woken from a protection fault has its write still in hand and finds its page mapped and writable |
| MigrationPath.BatchMoved | pebs.c:78-78 | when the flags are cleared every page of the batch is mapped, writable, at its new frame |
| MigrationPath.BatchRetables | hemem.c:750-779 | over a whole batch, beside any steps of the application, its pages get their new frames, mapped and writable, and every other page keeps its entry |
| MigrationPath.Progress | pebs.c:73-79 | every step of the migration thread lowers a measure that no step of the application raises |
| MigrationPath.NeverStuck | pebs.c:73-79 | in the middle of a batch the migration thread always has a step to take |
| MigrationPath.CanFinish | pebs.c:73-79 | and can by its own steps, unseen by the application, come to the end of the batch |
| MigrationPath.CanMigrate | pebs.c:73-87 | every batch of different pages and unused frames can be begun between batches, and brought to its end with its pages on those frames |
| ParallelCopy.StepInv | hemem.c:88-126 | every step keeps the invariant of the two-barrier protocol |
| ParallelCopy.SerialRequests | hemem.c:111-142 | in every run, whenever nothing is being copied, memory is the requests served one after the other |
| ParallelCopy.OnlyThePresentRequest | hemem.c:94-103 | a worker that copies has read the request of the caller that holds the lock, and nothing of another |
| ParallelCopy.ReturnsServed | hemem.c:119-125 | a caller about to return has had the whole effect of its request as the last one done, on the memory the earlier requests left; which request that is LastCall says |
| ParallelCopy.RequestKept | hemem.c:111-142 | nothing but its own call and its own return changes the request of a caller |
| ParallelCopy.LastCall | hemem.c:111-117 | in every run a caller in a call has the request it was last called with |
| ParallelCopy.EveryRequestOnce | hemem.c:111-142 | in every run each request has been done as often as it has been asked for, less the callers that still wait for it |
| ParallelCopy.AllReturned | hemem.c:111-142 | when all callers have returned, the requests done are as a multiset those of the calls made, and memory is what serving them one after the other leaves |
| ParallelCopy.OneCall | hemem.c:111-126 | a run with one call has the effect of its request and no other |
| ParallelCopy.SequentialAt | hemem.c:96-99 | copying byte after byte leaves every byte of the range as it should be and all others alone |
| ParallelCopy.ServedWhole | hemem.c:94-99 | every byte is zero, or the source's, if the number of threads divides the length, and all but the last threads - 1 bytes in any case; if it does not divide the length the last byte is untouched |
| ParallelCopy.WorkerCopies | hemem.c:97-103 | one byte copied brings memory one byte nearer to the request's effect, whatever the other workers do |
| ParallelCopy.WorkerCompletes | hemem.c:105-106 | when the last worker arrives all others and the caller wait at the same barrier |
| ParallelCopy.NoDeadlock | hemem.c:119-123 | while a caller is in a call some thread can take a step |
| ParallelCopy.Progress | hemem.c:88-142 | every step but a new call lowers a measure, so without new calls all calls return |
| ParallelCopy.CanReturn | hemem.c:119-125 | from wherever the threads stand they can bring all calls to their returns |
| ParallelCopy.CanCopy | hemem.c:111-126 | from the start a proper request can be made by any caller, and has its effect after some steps |
| AddressSpace.RoundUpIsLeast | hemem.c:396-396 | the rounded length is the least multiple of the page size not below the length, and zero exactly when the 64-bit sum wraps |
| AddressSpace.PageSizeIsPower | hemem.h:52-56 | pages have 2^21 bytes and base pages 2^12 |
| AddressSpace.Space.Populate | hemem.c:330-392 | indexes one page for each of the ceil(length/P) tiles and nothing else |
| AddressSpace.TiledAt | hemem.c:381-391 | the added entries are exactly the tiles, each with its page |
| AddressSpace.TilesCover | hemem.c:425-425 | rounding does not change the number of tiles, and every address of the rounded range lies in exactly one |
| AddressSpace.Space.Munmap | hemem.c:472-494 | from a base-page-aligned address the skipping scan removes exactly the indexed pages of the unrounded range; from any other it removes none |
| AddressSpace.ScanIsExact | hemem.c:472-494 | it removes just the pages of the range if and only if the address is base-page aligned or there are none |
| AddressSpace.MunmapUndoesPopulate | hemem.c:425-454 | munmap with the length before rounding gives back the index there was before populate |
| AddressSpace.Space.MapAndUnmap | hemem.c:425-487 | the two loops one after the other, populate on the rounded and munmap on the given length, leave the index as it was |
| StableSorting.MergeSorts | uthash.h:930-970 | merging two stably sorted runs, the left one first on ties, is stably sorting them together |
| StableSorting.PassDoublesRuns | uthash.h:917-972 | a pass over sorted runs of length k leaves sorted runs of length 2k |
| StableSorting.StableSortIsStable | uthash.h:899-903 | the reference sort orders, permutes, and keeps equal elements in their order, for any total preorder |
| StableSorting.StableSortUnique | uthash.h:899-903 | an arrangement is a stable sort if and only if it is the reference sort |
| StableSorting.InsertIsAppendAndSort | uthash.h:297-304 | inserting in order into a sorted list is appending and then sorting |
| AppOrder.MergeRuns | uthash.h:930-970 | the inner loop splices the merge of the two runs onto the list under construction, linked both ways, and stops at the next run |
| AppOrder.SplitRun | uthash.h:919-928 | steps over at most insize items and counts them |
| AppOrder.OnePass | uthash.h:913-975 | one pass relinks the whole list as the abstract pass does and counts the merges |
| AppOrder.RunsPass | uthash.h:913-980 | a pass finds at most one merge exactly when the list has become the stable sort |
| AppOrder.Sort | uthash.h:903-985 | terminates with the list stably sorted, prev and next inverse, head and tail right |
| AppOrder.Append | uthash.h:289-295 | the item becomes the last of a properly linked list |
| AppOrder.FindPlace | uthash.h:297-304 | stops before the first greater item, or past the end |
| AppOrder.InsertInOrder | uthash.h:374-389 | the item is linked in before the first greater one |
| AppOrder.Unlink | uthash.h:472-482 | the item is gone from the list, whose links, head and tail are right |
| Bits.MaskIsMod | uthash.h:441-444 | masking with a power of two less one is the remainder |
| Bits.SlotIsMod | uthash.h:441-444 | the bucket of a hash value is its remainder modulo the number of buckets |
| Bits.SlotSplits | uthash.h:867-867 | doubling the number of buckets sends bucket i to i or i + n |
| Bits.ShiftCeilIsCeil | uthash.h:859-861 | the shift and mask compute the least chain length that can hold all items |
| Buckets.PushFront | uthash.h:783-789 | the item becomes the head of its bucket, counts and all chains right |
| Buckets.Delete | uthash.h:802-815 | the item is gone from its chain, counts and all chains right |
| Buckets.Find | uthash.h:758-777 | finds the item of the chain with that hash and key, or none |
| Buckets.MultBound | uthash.h:869-874 | expand_mult is positive exactly for chains longer than the ideal; one less times the ideal is below the count; and it holds the whole count, or is the number of items beyond the ideal |
| Buckets.MultExact | uthash.h:869-874 | these bounds determine expand_mult |
| Buckets.ExcessIsCard | uthash.h:869-870 | nonideal_items is the number of items beyond the ideal length of their chains |
| Buckets.DoublingSplits | uthash.h:863-883 | an item of old bucket i is in new bucket i or i + n and in no other |
| Buckets.MoveItem | uthash.h:867-880 | one item moved: chains, counts, expand_mult and the running excess stay right |
| Buckets.Redistribute | uthash.h:852-883 | the doubled array holds the same items, each where its hash says, with nonideal_items the summed excess |
| Buckets.TotalIsCard | uthash.h:532-556 | the bucket counts add up to the number of items |
| Uthash.Table.constructor | hemem.c:46-46 | the index begins empty |
| Uthash.Table.Find | uthash.h:164-184 | answers as the finite map does |
| Uthash.Table.MakeTable | uthash.h:223-253 | an empty table of 2^21 buckets |
| Uthash.Table.ExpandBuckets | uthash.h:846-896 | the same items in twice the buckets, each in i or i + n; ideal_chain_maxlen the least chain length that can hold them all, nonideal_items the number of items beyond it, expand_mult exact in every bucket, noexpand after two ineffective doublings |
| Uthash.Table.AddToTable | uthash.h:348-356 | the item joins the table, whose buckets double exactly when its bucket then holds ten items for each of its expand_mult and ten more, and doubling has not been found ineffective |
| Uthash.Table.Add | uthash.h:407-426 | the map gains the item, appended in app order; the buckets double exactly as for AddToTable, and an add to an empty table ends with 2097152; every part of the invariant holds |
| Uthash.Table.AddInOrder | uthash.h:361-392 | the map gains the item, inserted before the first greater, which on a sorted table is the order of appending and sorting; the buckets double exactly as for Add |
| Uthash.Table.Delete | uthash.h:461-488 | the map loses the key and the order the item, also when that frees the table |
| Uthash.Table.Sort | uthash.h:903-985 | the app order is stably sorted in place and nothing else of the table changes |
| Uthash.Table.Fsck | uthash.h:527-574 | given that the forward links reach the items, the integrity check finds nothing wrong if and only if the counts, back links and order are right |
| Uthash.Table.ValidIsSound | uthash.h:527-574 | so it finds nothing wrong with a valid table |
| Uthash.Step | hemem.c:170-192 | one call of add_page, find_page or remove_page does to the table what it does to the finite map |
| Uthash.Run | hemem.c:170-192 | every run of add_page, find_page and remove_page, for any hash function and with pages added again under other addresses, answers and ends as the finite map does |
| Uthash.IdealChain | uthash.h:859-861 | the ideal chain length after doubling is the least with which the buckets can hold all items |

## Left out

- TierManager.Manager.RandomRequest: requires that the request gets through, because the code otherwise divides by zero or follows a NULL; `TierSpec.AlwaysSurvives` says when it does for all choices.
- TierManager.Manager.MigrateBatch: requires the address and offset assertions and enough free pages, because the code aborts or dereferences NULL otherwise; `RoundTrip.UpAsserts` and `RepeatedTrips.TripsPass` say when they hold.
- TierManager.Manager.AllocatePage: requires a free page in one of the tiers, because the code aborts without one.
- TierLedger.WaitEndsWhenUnmapped: speaks of fewer than 2^32 indexed pages, because the function returns an int.
- FrameOwnership.RepairedOwned: is about a repaired swap, in which the freed descriptor takes the vacated offset, and which the code does not do; every batch would then keep ownership.
- MigrationPath.Hidden: takes a batch with different mapped pages and different unused frames, which `PageTables.BatchableIff` says exactly when the code gives; what the application sees of any other batch, such as that of `PageTables.DrainSharesAFrame`, is not modelled.
- AddressSpace.Space.Populate: does not model addresses within one page of the end of the 64-bit address space, which `mmap` does not return.
- AppOrder.Sort: does not model lists of 2^32 items or more, where the doubled run length wraps.
- Uthash.Table.Add: does not model the 32-bit wrap-around of counts and item numbers, or running out of memory.
- Comparison functions are pure functions of the two items, and keys all have one length, as in the page index.
- Counts of migrations are unbounded; in the code they are 64-bit.
- A table that is freed and the empty head pointer are one state of the same object; table and head are one class.
- The locks of queues and index themselves: each locked operation is one step or one call.
- System calls are taken to succeed, and their assertions to hold: what write-protecting or remapping does for a page whose address range munmap has given back is not modelled.
- `handle_fault`'s polling, CPU affinity, statistics, the interposed system calls and the symbol lookup: plumbing.
- `timer.c`, `res-record.c`, `test.c`, scripts and data: I/O and easy arithmetic.
- Pages of different sizes: every descriptor gets the same page type in `pebs_init`.
- The Bloom filter, out-of-memory recovery, `HASH_SELECT`, the forms without `decltype` and the quality of the hash functions.
- That the kernel and the devices do what the data path assumes of them.
