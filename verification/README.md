# OpenFlash: a verified model

OpenFlash is a laboratory for NAND storage controllers. A Python package simulates a page-mapped
flash translation layer (FTL), a command queue, a reference device and a scheduler. A Linux block
driver and a QEMU PCI device speak the same command set over shared rings. This project models the
stateful parts of that code in Dafny and proves what they keep over every run.

Code that updates objects in place is a class here, with each method proved equal to a function on
values. What the code promises is then proved about those functions. A raised exception or an error
return is a `Result`, a status or an error code, never a precondition.

## What is proved

**Page-mapped FTL** (`Geometry`, `FtlSpec`, `FtlInvariants`, `FtlConservation`, `FtlCollect`,
`FtlRuns`, `FtlBounds`, `FtlFlash`, `FtlReads`, `FtlPolicy`, `FtlWitness`, `FtlCheckpoint`, `FtlController`). `Consistent` says that the mapping is
injective and inside the geometry, that the reverse index is exactly its inverse, that free pages are
distinct and unmapped, and that each block's invalid count is its number of dead pages. It does not
hold over every run of the code, and the exact conditions are proved:

- A write raises after it has counted the old copy as invalid. So a write keeps `Consistent` if and
  only if it returns or the logical page was unmapped, and it returns if and only if a page is free.
  `RaisedWriteBreaks` is a concrete write that breaks it.
- The allocator keeps relocated pages out of the victim for recycled pages but not for the linear
  cursor, and a collection recycles every page of the victim. So a collection that returns keeps
  `Consistent`, and conserves pages, if and only if its victim is sealed: none of its pages is still
  free. `UnsealedCollectBreaks` is a concrete run of two writes and one collection that breaks it.
- A collection that raises keeps `Consistent` if and only if the workspace check refused it or its
  very first relocation found no page; a later raise leaves a dead page that no count records.
  `RaisedCollectBreaks` is a reachable state and a collection that moves one page and then raises.

`CarefulStep` puts these conditions in terms of fields a caller can look up before the call, and a run
stays consistent throughout if and only if every operation is careful. Over careful runs the FTL with
page contents refines a plain map from logical pages to data and never programs a page twice between
erases, and a read is answered with the page that holds what was last written. Which block is collected,
where its live pages go and in which order pages are used is stated on the raw fields. Data is a separate question: a collection loses data if and only if it returns and one of the
cursor pages its relocation draws lies in the victim; `CollectLosesData` is a run that loses some.
Recovery from a checkpoint, whatever order the
journal puts its entries in and whatever the FTL went through before, gives an FTL that answers every
later sequence of operations alike.

**Host and device protocol** (`Ring`, `HostProtocol`, `HostRuns`, `HostReset`, `HostReports`,
`IoDriver`, `DeviceQueue`, `ResetRecovery`, `ResetWork`, `ResetWindow`). The
I/O queue is a state machine whose steps are submission, an aborted submission, one command executed
by the device, the separate actions of the interrupt handler (take the request, undo one mapping, end
the request and free its tag, move the head), the same actions of the failure sweep, and reset. All
results are about every legal sequence of steps. The driver and device code is a class whose methods
are proved to take exactly such steps. The release step is separate because the tag is freed before
the head moves; `BoundReached` shows that one extra unread completion really occurs. Over every run, a
request is reported once, with the status the device answered to its own command or as timed out.

A reset may find commands the device never answered, as on a queue that is not ready. It waits for
the sweep only, not for a handler that started after the sweep's own wait. After the reset, and
whatever such a handler had left to do, the two sides agree if and only if the handler was idle.
`ResetCanDisagree` gives, for every depth, a run to a state where it is not, both with the handler
holding a request and with it past a stale completion.

The source clears the ring memory before it sets the indices, and the handler may run in between
(`ResetWindow`). What counts is then the handler at the index writes. At the start of the clearing the
exact condition is an idle handler and a driver that expects phase 1, because a driver that expects
phase 0 takes zeroed entries for completions. `ClearingCanFail` gives, for every depth, a run to a
state with nothing in flight and an idle handler that still does not meet it. The protocol's reset is
the two parts with no handler in between.

**Reference device and queue engine** (`Abi`, `ReferenceDevice`, `OracleDevice`, `Bits`, `Fifo`,
`QueueEngine`). The overlay of unflushed writes refines a pair of stores, current and durable. The
rings refine an unbounded history in which completions come back in submission order.

**QEMU device** (`QemuSpec`, `QemuTransfer`, `QemuExecute`, `QemuSimulation`, `QemuDevice`). Scatter-gather
transfers are concatenation, and the device simulates the reference device across power loss, for direct
and scatter-gather commands.

**From the block layer to the bytes** (`RequestEffect`). The command the driver publishes for a request,
executed by the device, reads, writes, zeroes or saves exactly the bytes the request names, and the status
reported for it follows from the request alone. One promise fails: the driver replaces the flags of a
command when it sets its segment list, so the FUA bit reaches the device if and only if the request has no
segments, and then the write fails. No FUA write that succeeds is made durable by its own command
(`FuaLost`); a flush after it does make it survive a power loss (`FlushedSurvives`).

**Scheduler and timing** (`Scheduler`, `Simulator`, `Watermark`). The write starvation bound is an exact
count, and no channel or die is booked twice at a time. The simulator collects before a write once free
pages run low; with a watermark of zero blocks that keeps the FTL consistent over every run that does
not fail, and with a watermark of one block three writes can break it.

## Model

| member | source | states |
|---|---|---|
| `Geometry.LinearToPage` | src/openflash/ftl.py:169-177 | Every number below capacity names a page of the geometry, and the number can be computed back from the page, so the cursor never repeats a page. |
| `Geometry.PageToLinear` | src/openflash/ftl.py:169-177 | Every page of the geometry has a number below capacity that maps to it, so the cursor misses no page. |
| `Geometry.LinearRangeCount` | src/openflash/ftl.py:34-40 | The pages at or beyond the cursor number capacity minus cursor, and are exactly the pages whose number is in that range. |
| `FtlSpec.BestUnique` | src/openflash/ftl.py:82-89 | The victim key orders blocks totally, so the maximum does not depend on dictionary order. |
| `FtlSpec.BestExists` | src/openflash/ftl.py:79-89 | Every non-empty candidate set has a maximum under the victim key. |
| `FtlSpec.FirstOutside` | src/openflash/ftl.py:158-162 | The recycled page chosen is the first one outside the avoided block. |
| `FtlSpec.SortedSet` | src/openflash/ftl.py:90 | Relocation visits exactly the live pages, each once, in increasing order. |
| `FtlInvariants.AllocateTakesOne` | src/openflash/ftl.py:157-167 | An allocation that returns yields a free page of the geometry and removes that page and no other from the free pages, whichever branch supplied it. |
| `FtlInvariants.WriteKeepsConsistent` | src/openflash/ftl.py:54-63 | From a consistent FTL a write returns if and only if a page is free; it stays consistent if and only if it returned or the logical page was unmapped; one free page is used and only this mapping changes. |
| `FtlInvariants.RelocateSucceeds` | src/openflash/ftl.py:95-98 | From any state, relocation succeeds if and only if the recycled pages outside the victim and the pages ahead of the cursor suffice; it then uses exactly one page for each. |
| `FtlInvariants.RelocateAll` | src/openflash/ftl.py:95-98 | Relocating the live pages of a sealed victim keeps every other block exact, empties the victim and keeps the set of mapped logical pages. |
| `FtlInvariants.ReclaimConsistent` | src/openflash/ftl.py:100-105 | Recycling an emptied sealed victim makes the whole FTL consistent again. |
| `FtlConservation.BlockCensus` | src/openflash/ftl.py:54-111 | In a consistent FTL every block has live + invalid + free = pages per block. |
| `FtlConservation.TotalIsCapacity` | src/openflash/ftl.py:38-40 | In a consistent FTL mapped + invalid + free pages equal capacity. |
| `FtlCollect.CollectTotal` | src/openflash/ftl.py:95-105 | A collection that returns leaves mapped + invalid + free equal to capacity plus the victim pages that were still free. |
| `FtlCollect.CollectKeepsConsistentIffSealed` | src/openflash/ftl.py:78-111 | A collection that returns keeps the FTL consistent, and conserves pages, if and only if its victim was sealed. |
| `FtlCollect.CollectSucceeds` | src/openflash/ftl.py:79-98 | A collection returns if and only if there is a candidate and the live pages of the victim are at most the recycled pages outside it plus the pages ahead of the cursor. |
| `FtlCollect.CollectEffect` | src/openflash/ftl.py:95-111 | What a returning collection does to free pages, mapped pages, erase count and invalid count of its victim, and the record it returns. |
| `FtlCollect.SealedCollectAllOrNothing` | src/openflash/ftl.py:78-111 | With a sealed victim the workspace check suffices: the collection raises only before it changes the mapping, and on success free pages grow by exactly the victim's invalid count, at least 1. |
| `FtlCollect.FreshConsistent` | src/openflash/ftl.py:25-32 | A new FTL of any positive geometry is consistent. |
| `FtlRuns.SealedIsClear` | src/openflash/ftl.py:157-167 | A block is sealed if and only if none of its pages is in the deque and no number from the cursor on maps into it. |
| `FtlRuns.RaisedCollect` | src/openflash/ftl.py:91-98 | A collection that raises keeps the FTL consistent if and only if the workspace check refused it or no page at all was usable. |
| `FtlRuns.CollectConsistentIffSafe` | src/openflash/ftl.py:78-111 | A collection, returning or raising, keeps the FTL consistent if and only if a condition on its raw fields held before. |
| `FtlRuns.StepConsistentIffCareful` | src/openflash/ftl.py:54-111 | From a consistent FTL any operation leads to a consistent one if and only if it is careful, a condition on the fields before the call. |
| `FtlRuns.RunConsistentIffCareful` | src/openflash/ftl.py:54-111 | A run from a consistent FTL is consistent after every operation if and only if every operation is careful. |
| `FtlRuns.CarefulRunKeepsConsistent` | src/openflash/ftl.py:54-111 | Every careful run ends consistent with all pages accounted for. |
| `FtlCollect.UnsealedCollectBreaks` | src/openflash/ftl.py:157-167 | A concrete run of two writes and one collection that ends inconsistent, with its pages no longer adding up to capacity. |
| `FtlCollect.RaisedWriteBreaks` | src/openflash/ftl.py:55-60 | A concrete second write on a one-page device that raises and leaves the FTL inconsistent. |
| `FtlWitness.RaisedCollectBreaks` | src/openflash/ftl.py:91-98 | A concrete run of seven writes and one collection to a consistent FTL whose next collection passes the workspace check, raises, and leaves it inconsistent. |
| `FtlBounds.MapReadInBounds` | src/openflash/ftl.py:65-76 | A read of any logical page, mapped or not, goes to a page of the geometry. |
| `FtlReads.ReadsFindLastPut` | src/openflash/ftl.py:65-68 | Over every careful run, a read of a logical page that was written is answered with a page whose cell then holds what was last put there. |
| `FtlReads.FreshReadsFindLastPut` | src/openflash/ftl.py:65-68 | The same for every careful run of a new FTL on erased flash. |
| `FtlReads.UnwrittenPage` | src/openflash/ftl.py:69-76 | An unwritten logical page below capacity reads a page of the geometry from which its number can be computed back, so no two share one. |
| `FtlReads.UnwrittenOnto` | src/openflash/ftl.py:69-76 | Every page of the geometry is what the unwritten logical page of its number, below capacity, reads. |
| `FtlPolicy.VictimIsGreedy` | src/openflash/ftl.py:79-89 | The victim has the most invalid pages; among those the fewest erases; among those the smallest channel, die and block. |
| `FtlPolicy.GreedyFreesMost` | src/openflash/ftl.py:82-111 | No sealed block, collected instead of the victim, would have freed more pages. |
| `FtlPolicy.WriteTakesOldest` | src/openflash/ftl.py:157-167 | A write takes the page recycled longest ago, the cursor's page if none is recycled, and fails if neither exists. |
| `FtlPolicy.CollectMovesInOrder` | src/openflash/ftl.py:90-98 | A collection moves live logical pages in ascending order, first to the recycled pages outside the victim, oldest first, then to the cursor's pages. |
| `FtlPolicy.CollectQueuesVictim` | src/openflash/ftl.py:103-105 | A collection that returns queues the victim's pages, from page 0 on, behind all other recycled pages. |
| `FtlPolicy.Spread` | src/openflash/ftl.py:169-177 | As many consecutive cursor pages as there are dies lie on different dies, and as many as there are channels on different channels. |
| `FtlPolicy.FillsInOrder` | src/openflash/ftl.py:169-177 | On one die the cursor goes through the blocks one after the other and through each block page by page. |
| `FtlBounds.FreshInBounds` | src/openflash/ftl.py:25-32 | A new FTL of any positive geometry is in bounds. |
| `FtlBounds.RunInBounds` | src/openflash/ftl.py:54-111 | Every run whatever, careful or not, keeps all pages in the geometry and the cursor within capacity. |
| `FtlFlash.CollectView` | src/openflash/ftl.py:94-105 | With page contents, a collection that raises or whose victim is sealed changes what no logical page reads, and programs only erased pages. |
| `FtlFlash.CollectKeepsViewIff` | src/openflash/ftl.py:95-105 | Whatever the victim, a collection keeps what every logical page reads if and only if it raises or none of the cursor pages its relocation draws lies in the victim. |
| `FtlFlash.StepView` | src/openflash/ftl.py:54-111 | Each careful step acts on what logical pages read as the same step on a plain map does. |
| `FtlFlash.RunRefinesStore` | src/openflash/ftl.py:54-111 | Over every careful run the FTL refines a map from logical pages to the data of the writes that returned, and no page is programmed twice without an erase of its block between. |
| `FtlFlash.FreshRefinesStore` | src/openflash/ftl.py:25-32 | The same from a new FTL on erased flash. |
| `FtlWitness.CollectLosesData` | src/openflash/ftl.py:95-105 | Two writes of any data and a collection that returns, after which the logical page no longer reads what it held. |
| `FtlCheckpoint.IntRoundTrip` | src/openflash/ftl.py:122 | Decimal text of any integer parses back to it. |
| `FtlCheckpoint.BlockRoundTrip` | src/openflash/ftl.py:184-186 | A block key joined by slashes splits and parses back to the same block. |
| `FtlCheckpoint.PagesRoundTrip` | src/openflash/ftl.py:189-190 | The list of recycled pages survives encoding, in order. |
| `FtlCheckpoint.Formats` | src/openflash/ftl.py:117-129 | The text of a block key and of a number and the list of a page, on examples. |
| `FtlCheckpoint.LoadListing` | src/openflash/ftl.py:138-149 | Loading any listing of a dictionary, in any order, gives the dictionary back. |
| `FtlCheckpoint.RecoverRoundTrip` | src/openflash/ftl.py:131-155 | Recovering any checkpoint of an FTL, entries in any order, gives the FTL itself, or the cursor error if and only if the cursor is out of range. |
| `FtlCheckpoint.RecoverRejects` | src/openflash/ftl.py:131-155 | For any checkpoint: it is invalid if and only if some key is no number or block or some page does not have four parts, and otherwise refused if and only if the cursor is out of range. |
| `FtlCheckpoint.RecoveredRunsAlike` | src/openflash/journal.py:17-21 | A recovered FTL, consistent or not, gives the same replies and states as the original on every later sequence of writes, reads and collections. |
| `FtlCheckpoint.ReachableRecovers` | src/openflash/ftl.py:117-155 | After any operations whatever on a new FTL, a checkpoint recovers to exactly that FTL. |
| `FtlController.PageMappingFTL.PopOutside` | src/openflash/ftl.py:158-162 | The loop pops the first recycled page outside the avoided block and rotates the skipped ones to the end, or leaves the deque as it was. |
| `FtlController.PageMappingFTL.AllocatePage` | src/openflash/ftl.py:157-167 | Equals the specified allocation, including the capacity error. |
| `FtlController.PageMappingFTL.WritePage` | src/openflash/ftl.py:54-63 | Equals the specified write, including what a raise leaves behind. |
| `FtlController.PageMappingFTL.ChooseVictim` | src/openflash/ftl.py:82-89 | Visiting candidates in any order finds the victim, which `FtlPolicy.VictimIsGreedy` describes on the fields, and creates the default erase counts that reading them creates. |
| `FtlController.PageMappingFTL.RelocateLive` | src/openflash/ftl.py:95-98 | The relocation loop equals the specified relocation, including where it stops on an error. |
| `FtlController.PageMappingFTL.ReclaimBlock` | src/openflash/ftl.py:100-105 | Clears the victim's tables, counts the erase and appends all its pages in order. |
| `FtlController.PageMappingFTL.GarbageCollect` | src/openflash/ftl.py:78-111 | Equals the specified collection: result or error, and whole new state. |
| `FtlController.PageMappingFTL.MakeCheckpoint` | src/openflash/ftl.py:117-129 | The result lists every table completely, with the encoded keys and values. |
| `FtlController.PageMappingFTL.RecoverFrom` | src/openflash/ftl.py:131-155 | Gives an FTL with the recovered state, or the recovery error. |
| `Ring.PhaseTestExact` | driver/openflash/openflash_queue.c:87-90 | Over any number of wraps the phase at the head matches if and only if an unread completion is there, and then it is the next one; stale and zeroed entries never match. |
| `Ring.PublishKeeps` | driver/openflash/openflash_core.c:117-150 | Publishing a command with room in the ring keeps rings and history in agreement. |
| `Ring.ProcessKeeps` | qemu/hw/block/openflash.c:279-301 | One turn of the device loop executes the oldest waiting command and posts its completion with the phase of its wrap. |
| `Ring.ProcessKeepsUnread` | qemu/hw/block/openflash.c:294-300 | Posting a completion overwrites no unread one. |
| `Ring.AdvanceKeeps` | driver/openflash/openflash_queue.c:114-116 | Moving the head and flipping the expected phase at the wrap reads exactly one completion. |
| `HostProtocol.OutstandingBound` | driver/openflash/openflash_core.c:180 | At most depth - 1 commands are outstanding, because each holds its own tag. |
| `HostProtocol.RingBounds` | driver/openflash/openflash_core.c:104-151 | At most depth completions are unread, at most depth - 1 commands wait, and head equals tail if and only if none waits. |
| `HostProtocol.SubmitRoom` | driver/openflash/openflash_core.c:104-151 | A free tag is used by no outstanding command and leaves room in the submission ring, so submission needs no full test. |
| `HostProtocol.ClaimTakesOwn` | driver/openflash/openflash_queue.c:92-102 | The completion at the head always has a valid identifier, and takes either the very request its command was submitted for or, only while a sweep runs, nothing. |
| `HostProtocol.UnmapLedger` | driver/openflash/openflash_queue.c:103-109 | Each undone mapping was live, and live mappings still equal the sum over owned requests. |
| `HostProtocol.StepKeeps` | driver/openflash/openflash_queue.c:75-123 | Every step of submission, device, interrupt, sweep and reset keeps the protocol invariant. |
| `HostRuns.RunKeeps` | driver/openflash/openflash_queue.c:75-123 | Every legal interleaving keeps the protocol invariant. |
| `HostRuns.RunRings` | driver/openflash/openflash_queue.c:86-118 | From zeroed rings, in every interleaving: ring bounds, empty if and only if head equals tail, and the phase test matches if and only if a completion is unread. |
| `HostRuns.BoundReached` | driver/openflash/openflash_queue.c:110-114 | For every depth a run exists with depth unread completions, because the tag is freed before the head moves. |
| `HostRuns.RunEndsOnce` | driver/openflash/openflash_queue.c:97-111 | In every interleaving each request is ended at most once and only if accepted, live mappings are those of the owned slots, mapped = live + unmapped; with no tag in use all accepted requests are ended and all mappings undone. |
| `HostReports.RunReports` | driver/openflash/openflash_queue.c:92-112 | In every run, resets included, the ended requests are exactly the reported ones; each report is a timeout or the block status of what the device answered to that request's own command, and success is reported only if the device answered success. |
| `HostReports.ReportFinal` | driver/openflash/openflash_queue.c:97-112 | No step changes what was reported for a request. |
| `HostReset.ClaimOrigin` | driver/openflash/openflash_queue.c:86-112 | From empty rings, a request the handler holds was submitted under its tag by a step of the run, and a later step, with no reset since, wrote the very completion it was taken for, with its status. |
| `HostReset.ResetSeparates` | driver/openflash/openflash_core.c:24-30 | In every run after a reset, a request the handler holds was submitted after the reset and its completion written after that submission; so no earlier completion ends a later request, nor a later one an earlier request. |
| `HostReset.ResetAgreesIffIdle` | driver/openflash/openflash_queue.c:347-358 | After the clearing and whatever the handler had left to do, the rings are those of an empty history if and only if the handler was idle; otherwise the driver looks at entry 1 and the device writes entry 0. |
| `HostReset.LateHandlerMisses` | driver/openflash/openflash_queue.c:352-357 | The first completion after the reset is seen by the driver's phase test if and only if the handler was idle. |
| `HostReset.ResetCanDisagree` | driver/openflash/openflash_queue.c:405-419 | For every depth a legal run ends with the sweep over, the device quiet and the handler holding a request, and another with it past a stale completion; the reset then leaves the two sides in disagreement. |
| `ResetWindow.NoHandlerIsReset` | driver/openflash/openflash_queue.c:347-358 | Clearing memory and setting indices with no handler in between is the protocol's reset step. |
| `ResetWindow.WindowAgreesIffIdle` | driver/openflash/openflash_queue.c:350-357 | Whatever steps the handler takes between the clearing and the index writes, the rings end up those of an empty history if and only if it is idle at the index writes. |
| `ResetWindow.ClearingSafeIff` | driver/openflash/openflash_queue.c:348-357 | The rings end up in agreement for every such handler if and only if, when the clearing begins, the handler is idle and the driver does not expect phase 0. |
| `ResetWindow.ClearingCanFail` | driver/openflash/openflash_queue.c:86-90 | For every depth a legal run ends with nothing in flight, the sweep over and the handler idle, and the clearing is still not safe. |
| `IoDriver.IoQueue.ProcessSq` | qemu/hw/block/openflash.c:265-305 | For any doorbell value: as many turns as the ring distance to it, none if the queue does not accept it. Up to a published tail exactly the commands before it are executed once, in order, each answered under its identifier; the driver's own tail leaves none waiting. |
| `IoDriver.IoQueue.UnmapAll` | driver/openflash/openflash_queue.c:103-109 | The unmapping loop undoes the remaining mappings of one slot, last first, by legal steps. |
| `IoDriver.IoQueue.TakeCompletion` | driver/openflash/openflash_queue.c:92-101 | Takes the request of the completion at the head as the protocol's claim step does. |
| `IoDriver.IoQueue.IoIrq` | driver/openflash/openflash_queue.c:75-123 | The interrupt handler reads every posted completion and ends exactly the requests of those completions, each with the block status of its own completion; it reports handled if and only if there was one. |
| `IoDriver.IoQueue.FailIoRequests` | driver/openflash/openflash_queue.c:396-420 | After the sweep every accepted request is ended once, no tag is in use and no mapping is live; every report the sweep adds is a timeout. |
| `IoDriver.IoQueue.MapSegments` | driver/openflash/openflash_core.c:94-102 | Maps the segments up to the first refused one and writes exactly those to the tag's list. |
| `IoDriver.IoQueue.UnmapSegments` | driver/openflash/openflash_core.c:154-160 | Undoes exactly the first `n` listed mappings. |
| `IoDriver.IoQueue.SubmitLocked` | driver/openflash/openflash_core.c:104-152 | Busy slot, missing FUA capability or success, with the whole state each leaves. |
| `IoDriver.IoQueue.QueueData` | driver/openflash/openflash_core.c:92-161 | A request with data: status by first refused mapping, owner of the slot and FUA capability; every error path undoes its mappings. |
| `IoDriver.IoQueue.QueueRq` | driver/openflash/openflash_core.c:44-162 | On any tag the status follows the decision table, an owned slot included; an accepted request is published once, as the command `RequestEffect` is about, with its segments in the tag's list and mapped; a refused one leaves nothing mapped, owned or published and changes no other slot. |
| `RequestEffect.AcceptedIff` | driver/openflash/openflash_core.c:65-133 | A request is accepted if and only if it is aligned, of a known operation, FUA only on a write and with the capability, data not empty and in at most 16 segments that all map, on a free tag below the queue's depth. |
| `RequestEffect.DescRoundTrip` | driver/openflash/openflash_core.c:98-100 | The device reads from a descriptor exactly the segment the driver stored in it. |
| `RequestEffect.ReadServed` | driver/openflash/openflash_core.c:117-142 | The command published for a read leaves the device as it is and memory outside the segments unchanged; it succeeds if and only if the byte range exists and the segments add up to it, and the segments then hold the stored bytes of the range. |
| `RequestEffect.WriteServed` | driver/openflash/openflash_core.c:117-142 | The command published for a write changes no memory, no backing file and no stored byte outside the range; it succeeds under the same condition, and the range then holds the segments' bytes. |
| `RequestEffect.FlushServed` | driver/openflash/openflash_core.c:82-84 | The command published for a flush saves the whole storage, and fails if and only if a backing file cannot be written. |
| `RequestEffect.DiscardServed` | driver/openflash/openflash_core.c:85-87 | The command published for a discard zeroes exactly its range; an empty one and one beyond the end fail and change nothing. |
| `RequestEffect.FuaLost` | driver/openflash/openflash_core.c:135-140 | The FUA bit of an accepted request reaches the device if and only if the request has no segments, and then the command fails; in no case is the backing file saved. |
| `RequestEffect.RequestReported` | driver/openflash/openflash_queue.c:10-26 | The block status of an accepted request whose command is answered, as a function of the request, the device size and whether saving works. |
| `RequestEffect.FlushedSurvives` | qemu/hw/block/openflash.c:178-193 | A successful write and a successful flush, then a power loss if there is a backing file, then a successful read of the same range through any other list: the read gets the bytes written. |
| `RequestEffect.AdminAgrees` | driver/openflash/openflash_queue.c:241-275 | The identify and create-queue commands, as the driver fills them, have on the device the status, result and queue that the reset protocol uses. |
| `ResetRecovery.QuietAgree` | driver/openflash/openflash_queue.c:340-373 | When every published command is answered and read, driver and device agree on tail, head and phase. |
| `ResetRecovery.TwoWrites` | qemu/hw/block/openflash.c:339-350 | Writing the two halves of an address to a register stores the address, whatever it held before. |
| `ResetRecovery.Controller.DeviceReset` | qemu/hw/block/openflash.c:120-129 | Clears both device queues and the ready bit; only the admin queue gets phase 1. |
| `ResetRecovery.Controller.WriteAdminRegisters` | qemu/hw/block/openflash.c:339-354 | The admin queue gets the written addresses and is enabled if and only if the depth is from 2 to 4096. |
| `ResetRecovery.Controller.AdminDoorbell` | qemu/hw/block/openflash.c:265-305 | For any doorbell value: ignored on a queue not ready or not enabled or out of range, otherwise as many turns as the ring distance to it; the driver's own tail gets every waiting command executed and answered. |
| `ResetRecovery.Controller.Settle` | driver/openflash/openflash_queue.c:42-53 | A completion with the awaited identifier gives its status and result to the waiting command, any other an error. |
| `ResetRecovery.Controller.AdminIrq` | driver/openflash/openflash_queue.c:28-73 | Drains every posted admin completion and settles the pending command with its own one. |
| `ResetRecovery.Controller.AdminCommand` | driver/openflash/openflash_queue.c:193-239 | On an enabled queue the command's own status and result come back and both rings are quiet again; otherwise it times out and the device is unchanged. |
| `ResetRecovery.Controller.CreateIoQueue` | driver/openflash/openflash_queue.c:258-275 | Exactly when it succeeds, and then the device's I/O queue is the driver's, empty and enabled. |
| `ResetRecovery.Controller.ResetController` | driver/openflash/openflash_queue.c:340-373 | Exactly when recovery succeeds, by depths and ring addresses, and then tail, head and phase agree on both queues and the I/O rings are fresh. |
| `ResetWork.ResetQueue` | driver/openflash/openflash_core.c:16-33 | Whether or not the device has answered every command: the sweep ends every request and undoes every mapping; recovery succeeds exactly when the device accepts the rings, and then the queue is in the state of the protocol's reset step on the controller's registers. |
| `ReferenceDevice.CommandRefines` | src/openflash/device.py:49-92 | Each command has the status, result and buffers of the two-store specification and leaves its stores. |
| `ReferenceDevice.StepRefines` | src/openflash/device.py:20-47 | Each command, injected fault and power loss refines the two-store step. |
| `ReferenceDevice.RunRefines` | src/openflash/device.py:20-92 | Over every run, reads return the current store, flush and FUA writes make it durable, and power loss goes back to the durable one. |
| `ReferenceDevice.FreshRefines` | src/openflash/device.py:11-18 | A new device refines two stores of zeros. |
| `ReferenceDevice.FailureChangesNothing` | src/openflash/device.py:25-44 | A failed or faulted command changes no block, current or durable, and no buffer. |
| `OracleDevice.Device.FlushOverlay` | src/openflash/device.py:55-60 | Applying the overlay in any order gives the flushed stable store and an empty overlay. |
| `OracleDevice.Device.StoreRange` | src/openflash/device.py:77-79 | The loop puts each block of the buffer into the overlay. |
| `OracleDevice.Device.FillBuffer` | src/openflash/device.py:84-90 | The loop fills the front of the buffer with the current blocks and leaves the rest. |
| `OracleDevice.Device.DispatchCommand` | src/openflash/device.py:49-92 | Equals the specified dispatch in state, buffers, status and result. |
| `OracleDevice.Device.ExecuteCommand` | src/openflash/device.py:25-44 | Equals the specified execution; an injected fault is used up. |
| `OracleDevice.Device.LosePower` | src/openflash/device.py:46-47 | Drops the overlay and nothing else. |
| `OracleDevice.Device.InjectNextFault` | src/openflash/device.py:20-23 | Accepts every status but success. |
| `Bits.MaskIsMod` | src/openflash/queue.py:53 | Masking with a power of two minus one is taking the remainder, for all naturals. |
| `Bits.PowerOfTwoTest` | src/openflash/queue.py:23 | The depth test is zero if and only if the depth is a power of two. |
| `QueueEngine.AcceptedDepths` | src/openflash/queue.py:23-24 | The accepted depths are exactly the powers of two from 2. |
| `QueueEngine.MaskedNext` | src/openflash/queue.py:74-80 | The masked successor of a ring index is the index of the next entry, and the phase flips exactly at the wrap. |
| `QueueEngine.Engine.Create` | src/openflash/queue.py:17-38 | Succeeds if and only if the depth is acceptable, and then the queue is empty. |
| `QueueEngine.Engine.Submit` | src/openflash/queue.py:48-55 | Refuses if and only if the ring is full; otherwise the command is in the slot reported and last in the history. |
| `QueueEngine.Engine.ProcessOne` | src/openflash/queue.py:63-80 | Executes the oldest command and appends its stamped completion; the corruption branch is unreachable. |
| `QueueEngine.Engine.RingSubmissionDoorbell` | src/openflash/queue.py:57-85 | Processes exactly min(budget, pending, free completion slots) commands, in order, moves both rings by that number, and counts one interrupt if any. |
| `QueueEngine.Engine.ConsumeCompletion` | src/openflash/queue.py:87-98 | Returns the next completion, and nothing if and only if none waits: the phase test never refuses. |
| `QueueEngine.Engine.Reset` | src/openflash/queue.py:100-108 | Empties both rings, keeps the device and reports the commands dropped. |
| `Fifo.RunAnswersInOrder` | src/openflash/queue.py:48-98 | In every run the n-th completion consumed is the answer to the n-th command submitted, with all commands executed in order on the device. |
| `Fifo.RunStamps` | src/openflash/queue.py:63-80 | In every run the n-th completion consumed carries the identifier and user data of the n-th command, the submission head after it, and the phase of its lap. |
| `QemuTransfer.WriteThroughList` | qemu/hw/block/openflash.c:151-175 | A write through a list succeeds if and only if it has 1 to 16 non-null, non-empty segments at a non-null address whose lengths sum to the request; it then stores their concatenation, and bytes outside the range never change. |
| `QemuTransfer.ReadThroughList` | qemu/hw/block/openflash.c:151-175 | A read succeeds under the same condition; the segments then hold the stored range, and no memory outside them changes even on failure. |
| `QemuTransfer.ListRoundTrip` | qemu/hw/block/openflash.c:131-176 | What was written through one list is read back through any other valid one. |
| `QemuTransfer.SglInExact` | qemu/hw/block/openflash.c:155-175 | The loop from any descriptor on succeeds if and only if the remaining segments are usable and fill the remaining length, and then equals one splice of their concatenation. |
| `QemuExecute.SglWriteExact` | qemu/hw/block/openflash.c:238-254 | A scatter-gather write in range: with a valid list the named blocks hold the segments' bytes, no other byte changes, and FUA saves the image; with any other list it is refused and no byte outside the blocks changes. |
| `QemuExecute.SglReadExact` | qemu/hw/block/openflash.c:238-246 | A scatter-gather read in range changes no device state and no memory outside its segments; it succeeds if and only if the list is valid, and the segments then hold the named blocks. |
| `QemuExecute.DiscardExact` | qemu/hw/block/openflash.c:238-257 | A discard in range zeroes exactly the named blocks. |
| `QemuExecute.OutOfRange` | qemu/hw/block/openflash.c:235-240 | Reads, writes and discards of no blocks or beyond the end are refused with the right status and change nothing. |
| `QemuExecute.NullBuffer` | qemu/hw/block/openflash.c:131-150 | A direct transfer without a buffer address is refused and changes nothing. |
| `QemuExecute.UnknownOpcode` | qemu/hw/block/openflash.c:235-260 | Any other opcode changes nothing and is refused for the first reason that applies. |
| `QemuExecute.CreateIoqExact` | qemu/hw/block/openflash.c:208-231 | Only queue 1 can be created, with 1 to 4096 entries at non-null addresses and a vector below 2; it then starts empty at phase 1. |
| `QemuExecute.DurableIffReported` | qemu/hw/block/openflash.c:178-253 | A successful flush or FUA write leaves the whole storage in the backing file; one that cannot save is never reported as a success; nothing else changes that file. |
| `QemuDevice.Device.TransferList` | qemu/hw/block/openflash.c:155-175 | The loop, which fetches each descriptor when its turn comes, equals the specified walk in storage, memory and result. |
| `QemuDevice.Device.Transfer` | qemu/hw/block/openflash.c:131-176 | Equals the specified direct or scatter-gather transfer in either direction. |
| `QemuDevice.Device.PersistStorage` | qemu/hw/block/openflash.c:178-193 | Without a backing file succeeds and saves nothing; otherwise saves the whole storage or fails. |
| `QemuDevice.Device.ExecuteCommand` | qemu/hw/block/openflash.c:195-263 | Equals the specified execution for every opcode in storage, image, queue registers, memory, status and result, including failed persists; `QemuExecute` says which bytes that touches. |
| `QemuSimulation.SameRange` | qemu/hw/block/openflash.c:198-201 | Below block 2^52 the byte offset does not wrap, and the byte range check equals the block range check. |
| `QemuSimulation.CommandSimulates` | qemu/hw/block/openflash.c:195-263 | A direct command with valid buffers has the same status, result and effect as on the reference device. |
| `QemuSimulation.ListedSimulates` | qemu/hw/block/openflash.c:131-263 | A scatter-gather command with a valid list has the same status, result and effect as the direct command on one buffer with the segments' bytes. |
| `QemuSimulation.RestartSimulates` | qemu/hw/block/openflash.c:392-412 | Reloading from the backing image is the reference device's power loss. |
| `QemuSimulation.RunSimulates` | qemu/hw/block/openflash.c:178-263 | Over every sequence of direct commands, commands with valid lists and power losses both devices answer alike, storage is the current view and the image the stable one. |
| `QemuSimulation.FreshSimulates` | qemu/hw/block/openflash.c:392 | A new zeroed device with a backing file simulates a new reference device. |
| `Scheduler.SortCorrect` | src/openflash/scheduler.py:20-22 | FIFO order is a permutation in which earlier arrivals come first and of equal arrivals the smaller id, and it is stable. |
| `Scheduler.OrderByReadPriority` | src/openflash/scheduler.py:31-53 | The popping loop equals the specified interleaving. |
| `Scheduler.ReadPriorityKeepsOrder` | src/openflash/scheduler.py:31-53 | Read-priority order is a permutation in which reads among themselves, and writes among themselves, come by arrival time and then id. |
| `Scheduler.ReadPriorityPairs` | src/openflash/scheduler.py:31-53 | Of any two reads, or any two requests that are not reads, the one first in order arrived earlier, or at the same time with no larger id. |
| `Scheduler.WriteStarvation` | src/openflash/scheduler.py:46-52 | Exactly min(reads, (k+1) * max(0, burst limit)) reads precede the k-th write. |
| `Simulator.ServeInBounds` | src/openflash/simulator.py:65-75 | Serving a request, with the collection it may cause, directs it to a page of the device or fails. |
| `Simulator.ServeCounts` | src/openflash/simulator.py:64-74 | A write at or below the watermark whose collection returns adds one collection and the victim's live pages to the counts; every other request adds nothing. |
| `Watermark.WriteTotal` | src/openflash/ftl.py:54-63 | From any state, a write that returns accounts for as many pages as before. |
| `Watermark.ServeConsistentIff` | src/openflash/simulator.py:69-74 | Serving a request without failing keeps the FTL consistent if and only if it causes no collection or the victim has no page that is recycled or ahead of the cursor. |
| `Watermark.ServeFailsIff` | src/openflash/simulator.py:69-74 | From a consistent FTL serving a write fails if and only if nothing was ever overwritten and no page is free, or free pages are at or below the watermark and the collection raises. |
| `Watermark.ZeroWatermarkKeeps` | src/openflash/simulator.py:66-75 | With a watermark of zero every mapping run from a new FTL that does not fail ends consistent. |
| `Watermark.EagerBreaks` | src/openflash/ftl.py:42-45 | With a watermark of one block, three writes on a one-block device end without an error and inconsistent. |
| `Simulator.MapAll` | src/openflash/simulator.py:63-75 | The mapping loop serves every request in order, stops at the first error, and counts collections and moved pages. |
| `Simulator.BookAll` | src/openflash/simulator.py:79-111 | The timing loop equals the specified bookings and busy times. |
| `Simulator.EachBooked` | src/openflash/simulator.py:84-111 | Each request in order gets exactly one booking, with its own transfer and media time and no start before its arrival. |
| `Simulator.BookingsTracked` | src/openflash/simulator.py:79-111 | Transfers on one channel never overlap, operations on one die never overlap, every booking starts at its arrival or at the very end of an earlier use of its channel or die, and busy times are sums of transfers. |
| `Simulator.BusySum` | src/openflash/simulator.py:81-95 | The channels' busy times add up to the transfer time of all bookings. |
| `Simulator.TransferRate` | src/openflash/simulator.py:148-150 | Transfer time times the channel's rate in bits per microsecond is the number of bits of the pages. |
| `Simulator.ChargeAdds` | src/openflash/simulator.py:114-116 | Each collection adds one erase time to the charge, and each moved page one read and one program time. |
| `Simulator.LastIsOne` | src/openflash/simulator.py:117 | The last finish is the finish of some booking. |
| `Simulator.Utilization` | src/openflash/simulator.py:113-134 | Elapsed time is the last finish plus the collection charge, and utilization, between 0 and 1, is all transfer time over elapsed time and channels. |
| `Simulator.RunAll` | src/openflash/simulator.py:60-134 | For every workload, policy and non-negative media latencies: each request in scheduler order has one booking with its own transfer and media time and no start before arrival, no double booking, elapsed time and utilization computed from those bookings and the collections; an error if and only if there is no request or serving one fails. |

## Left out

- Byte layout of commands and completions (`src/openflash/abi.py`): fixed fields, easy members; commands and completions are datatypes, and the driver rings hold them as entries rather than bytes.
- Media latency and ECC sampling (`src/openflash/media.py`): random floating point; latency is an arbitrary non-negative real chosen for each request.
- Command line, traces and profiles: argument and file handling.
- JSON text and atomic replacement in `src/openflash/journal.py`: the journal is a possible reordering of checkpoint entries.
- FtlCheckpoint.Recover: accepts canonical decimal text only, where Python's `int` also accepts spaces, a plus sign, underscores and leading zeros; checkpoints never contain those.
- Default dictionary entries that `wear_fraction` creates (`src/openflash/ftl.py:113-115`): they hold zero, which is what a missing entry means.
- `needs_gc` as a promise that a collection succeeds: it tests for recorded entries, which may all be zero.
- Percentiles, throughput and the other report fields of `src/openflash/simulator.py`: plain arithmetic.
- PCI probing, interrupt and DMA allocation, memory barriers and the block layer: `IoDriver.IoQueue.QueueRq` takes distinct request identities as given, the protocol's submission takes free tags as given, and the sweep and the reset take the frozen queue as given.
- IoDriver.IoQueue.QueueRq: on a tag still in use the driver overwrites the owner's list before it refuses, so the queue invariant is promised for free tags only; the block layer hands out no other. The 16-bit wrap of tag + 1 is not modelled.
- IoDriver.IoQueue.ProcessSq: past the published tail the device executes stale entries, which the record of commands does not follow; the rings are still exact.
- Submission is one step of the protocol, because the driver holds the queue lock from the slot test to the doorbell and mapping touches only the submitter's own slot.
- The protocol's reset is one step with an idle handler; `HostReset.ResetAgreesIffIdle` and `ResetWindow.ClearingSafeIff` show exactly what that assumes. A handler that reads an entry while it is being cleared is not modelled.
- ResetRecovery.Controller.ResetController: takes the ring addresses as 64-bit numbers, and models only admin commands on the admin queue; a command that re-creates the queue being processed is not modelled.
- The interrupt callback of the queue engine is only counted.
- QemuSimulation.RunSimulates: buffers at non-null addresses that do not overlap, valid lists, and persists that succeed; other lists and failing persists are covered by `QemuExecute`.
- File errors when the QEMU device starts, and its registration: whether a save succeeds is a parameter.
- RequestEffect.ReadServed: takes the segments and the list as not overlapping, which the DMA mappings of a request are; the 32-bit width of a request's length is not modelled, and the position is taken modulo the 64-bit byte offset.
