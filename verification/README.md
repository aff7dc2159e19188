# VaiOS kernel core in Dafny

VaiOS is a small real-time kernel. This project models the part of it where tasks and interrupts meet,
and proves what that part promises. Five state machines are covered.

* **The bus** (`kernel/bus.c`): publish/subscribe over a fixed pool of blocks. Messages are reference
  counted, readers have cursors, overwriting topics evict, peeks pin, and topics lend each other the blocks
  they have reserved. `BusState`, `BusOps`, `BusRuns` describe it as a value and its critical sections as
  functions; `BusLoans`, `BusAlloc`, `BusAdmission`, `BusReaders`, `BusDelivery`, `BusPromises` prove what
  holds after every run, `BusAnswers` and `BusEffects` what one call gets and changes, and `BusLostInVain` has two
  runs where a promise fails; `BusImpl` is the linked-list code itself, a class whose methods change descriptors,
  headers and counters in place, proved (through `BusRep` and the modules named after it) to compute those
  functions; `BusCheck` is the kernel's own consistency check, proved to
  pass, and `BusDetect` what it can tell about any memory. `BusPayload` is the payload
  copy over the flat block memory, and how that memory is the cells the rest of the model works with.
* **Pipe topics** (`kernel/bus.c`): the lock-free ring with a seqlock stamp. `PipeModel` has one step per
  load, store or copied byte; `PipeProof` and `PipePromises` cover every interleaving of producer and
  consumer, `PipeWhole` a publish from end to end, `PipeRuns` has two of them that show the limits and `PipeRoom` says exactly which buffers a
  copy can overrun; `PipeImpl` is the consumer's calls with the
  producer running in between their accesses.
* **User-space pipes** (`include/upipe.h`, `kernel/task.c`): a ring with 32-bit indices that wrap
  (`UpipeRing`, `Upipe`), and the flag, recheck and kick protocol for sleeping (`UpipeSleep`,
  and `UpipeWhole` for one call at a time).
* **Semaphores, mutexes and the scheduler** (`kernel/ipc.c`, `kernel/task.c`): `WaitQueue`,
  `SemaphoreModel`, `MutexModel` and its proofs, `MutexImpl`; `SchedModel` with the ready, blocked and
  delayed lists and every operation that moves a task between them, `SchedProof`, `SchedRuns` and `SchedFair`
  on what holds over runs, `SchedMoves` on what a call does to the lists and how long a task sleeps, `SchedRep` and
  `SchedImpl` on the linked lists themselves; `SchedSema` and `SchedSemaCalls` put the scheduler and any number of
  semaphores together.
* **The peripheral-bus arbiter** (`kernel/periph_bus.c`): `Arbiter*`; and the **queues** of
  `kernel/structure.c`: `Spsc` one call at a time, `SpscSteps` its two ends at once, `Mpmc`.

`Lists`, `Modular` and `Steps` hold what several of them need.

A critical section is one step. Code that runs outside of one is split into its separate steps: the copies
of publish and pop, everything a pipe or a upipe does, the parts of an arbiter call. "Every run" below
means any sequence of such steps by any number of parties, with any arguments. The methods of the classes state
which step (`Apply`) each of them is, and what it does to their own fields.

`dafny verify dfyconfig.toml` checks everything.

## What turned out not to hold

* An unlock keeps "no owner is less urgent than one of its waiters" only if the queues it touches are in
  order, and they need not be: a boost does not move a task that is already queued.
  `MutexInherit.UnlockLawIff` and `MutexRuns.TeardownLawIff` give the exact conditions, `MutexRuns.LawHolds`
  the exact condition on a whole run, and `MutexRuns.BoostedInQueue` a run that breaks it.
* `alloc_msg` counts blocks first so as never to evict for a message that would not fit after all. That
  holds for dropping topics whose debtors can be made to pay (`BusAlloc.AdmissionIsExact`). An overwriting
  topic always gets every free or idle block and those of its own messages up to the first pinned one
  (`BusAdmission.GetsItsReach`). As long as it has lent nothing that is also all it gets, so a pinned message
  behind one that is not makes it lose the one in front for nothing: `BusAdmission.UnlentExactly` says exactly
  when, `BusLostInVain.PinnedInVain` is such a run. A topic that has lent a block counts it on top of its own
  messages, although evicting one of those may be what repays the loan. `BusAnswers.AllocExactly` says when it gets
  its blocks, whatever it has lent: when the count is enough and at no point of the loop is everything used up with
  nothing left to evict, which `BusAnswers.OneBlockExactly` decides for one block. In `BusLostInVain.LentInVain` it has
  borrowed nothing, nothing is pinned, three blocks are counted, and it loses its message and gets none.
* A reader must not attach to a pipe between the store of `next_seq` and the move of `pipe_wr`
  (`PipePromises.AttachExactly`). On a ring of more than one slot such a reader never gets anything
  (`PipePromises.LateGetsNothing`), and a drop pipe fills up and stays full for as long as it is attached
  (`PipePromises.LateStaysFull`; `PipeRuns.LateRun` is a run).
* v_bus_pop's fast path on a pipe loads the length twice, once to compare it with the buffer and once for the
  copy, and an overwriting producer may hand the slot out in between. `PipeRoom.OverrunsExactly`: no run overruns
  a buffer of a given size if and only if the pipe drops or the buffer is as large as a slot's payload;
  `PipeRuns.TwoLoads` is a run with two bytes in a buffer of one, `PipeRoom.SomeRun` one for every smaller buffer
  and every depth. What is delivered always fits (`PipePromises.CopiesFit`).
* Every task is on exactly the list its status names as long as each switch finds somebody to run
  (`SchedRuns.LawExactly`), which it does as long as nobody ends the idle task or makes it wait
  (`SchedRuns.RunsKeepLaw`). `task_exit_request` does not refuse the idle task: in `SchedRuns.IdleEnded` it
  runs on while it waits on the blocked list to be freed.
* A task in a semaphore's queue is blocked with wait_sem set to that semaphore, and the other way round, all
  along a run exactly when nobody calls `task_unblock` on such a task and every switch finds somebody to run
  (`SchedSema.RunsAgreeExactly`); after `SchedSema.UnblockedWaiter` a task is ready and still in the queue.
* An overwriting write to an SPSC ring does not always keep the newest items. `Spsc.KeepsNewest`: it does if and
  only if there are fewer than `capacity` of them, or their first `capacity - 1` equal their last;
  `Spsc.LosesNewest`: for every other length there are items of which it does not. `Spsc.OldestStays` is a call.
* `v_bus_check` compares no two topics' lists: in `BusDetect.SharedStash` it accepts a memory in which two topics
  have the same idle block. Of the free list it misses nothing (`BusDetect.FreeListOk`).

## Model

| member | source | states |
|---|---|---|
| BusRuns.RunsKeepInv | kernel/bus.c:162-851 | Every run of declares, subscriptions, publishers, evictions, three-step pops, peeks, releases and unsubscribes keeps the books and the reader laws of every topic |
| BusRuns.StepInv | kernel/bus.c:162-851 | Each single critical section, and each block copied outside of one, keeps them from any state that has them |
| BusPromises.BlocksConserved | kernel/bus.c:162-455 | After every run each block is in exactly one place (pool, one stash, one queued message, one pair of hands, one ring), none is made or lost, lent and borrowed balance, and stash plus lent never exceeds the reservation |
| BusPromises.ReservationHolds | kernel/bus.c:20-25 | After every run, a topic that never borrows and would hold no more than it reserved gets its blocks, whatever others borrowed, if borrowers can be made to give back |
| BusPromises.DeliveryHolds | kernel/bus.c:721-786 | After every run: bytes delivered are the bytes published under that number, numbers strictly increase, deliveries and misses add up to the reader's progress, what it missed was evicted, a dropping topic loses nothing |
| BusPromises.ReferencesHold | kernel/bus.c:332-377 | After every run: refs is the number of readers at or before a message and never 0, pins the number peeking at it, and refs never decrease towards the newest |
| BusPromises.PeekedStays | kernel/bus.c:788-826 | A peeked message is still queued and pinned, and as the oldest it blocks eviction |
| BusLoans.TakeOneBooks | kernel/bus.c:274-295 | Taking a block from stash, pool or lender keeps all the books, and the block is new to the topic's hands |
| BusLoans.GiveOneBooks | kernel/bus.c:299-317 | Giving a block back to a creditor (possibly oneself), the stash or the pool keeps all the books |
| BusLoans.CanGiveLoose | kernel/bus.c:302-305 | A topic that owes a block always finds a creditor: the search in give_one ends |
| BusAlloc.FreeChainBooks | kernel/bus.c:320-328 | A chain in hand is given back block by block: books kept, every block's epoch bumped exactly once, nothing else touched |
| BusAlloc.EvictBooks | kernel/bus.c:382-396 | Eviction frees exactly the oldest message's blocks and leaves all hands and tickets as they were |
| BusAlloc.AllocBooks | kernel/bus.c:413-455 | alloc_msg is all or nothing: n distinct fresh blocks in hand, or none, with the books kept either way |
| BusAlloc.AdmissionIsExact | kernel/bus.c:427-455 | For a dropping topic the allocation succeeds if and only if stash, pool and lent blocks add up to n |
| BusAlloc.ReservationGuarantee | kernel/bus.c:413-455 | The reservation, in any state with the books in order |
| BusAdmission.GetsItsReach | kernel/bus.c:427-455 | An overwriting topic gets n blocks whenever that many are free, idle, or in its own messages before the first pinned one, whatever it has lent |
| BusAdmission.UnlentExactly | kernel/bus.c:427-455 | With nothing lent it gets them only then; when the count says yes and it does not, it has lost exactly the messages before the first pinned one, and when the count says no nothing has changed |
| BusAdmission.NeverInVain | kernel/bus.c:408-412 | With nothing lent, and nothing pinned behind a message that is not, a failing allocation evicts nothing |
| BusLostInVain.PinnedInVain | kernel/bus.c:436-450 | A run after which a topic that has lent nothing asks for two blocks, is counted two, loses its oldest message to a pinned one behind it, and gets none |
| BusLostInVain.LentInVain | kernel/bus.c:427-450 | A run after which a topic that has lent one block and borrowed none asks for three blocks, is counted three, loses its only message and gets none, with nothing pinned |
| BusOps.EvictShrinks | kernel/bus.c:440-444 | Every eviction takes one message off the bus: the measure that ends alloc_msg's inner loop |
| BusOps.NextVictim | kernel/bus.c:440-444 | The message that goes: of the first borrower in list order whose oldest is not pinned, if the topic has blocks lent out and there is one, else its own oldest if it overwrites; none exactly when neither is there |
| BusAnswers.TakesInOrder | kernel/bus.c:274-295 | A block comes from the own stash, else from the pool, else as a loan from the first other topic with an idle block if the topic overwrites; there is none exactly when these are empty |
| BusAnswers.GivesInOrder | kernel/bus.c:299-317 | A block goes to the first topic that is owed one if the topic owes any, else to its own stash while that and what it lent fall short of the reservation, else to the pool |
| BusAnswers.OneBlockExactly | kernel/bus.c:437-444 | An overwriting topic gets a block if and only if one is free or idle, its own oldest message is not pinned, or it has blocks lent out and some borrower's oldest message is not pinned; nothing is evicted in the first case, one message in the others |
| BusAnswers.OneBlockMessage | kernel/bus.c:413-455 | The same for a whole alloc_msg of one block |
| BusAnswers.AllocExactly | kernel/bus.c:427-455 | An overwriting topic gets n blocks, whatever it has lent, if and only if that many are free, idle, lent or in its own messages and at none of the blocks it is left with nothing free and nothing to evict |
| BusReaders.LastRefIsHead | kernel/bus.c:715-718 | The last reference always drops on the oldest message, so consume's take_head takes the right one |
| BusReaders.RefsGrow | kernel/bus.c:367-371 | refs never decrease from the oldest to the newest message |
| BusReaders.WantedFromHead | kernel/bus.c:364-373 | After an unsubscribe the messages nobody waits for are a run at the head: once the head is wanted, all are |
| BusReaders.ConsumedLaw | kernel/bus.c:708-719 | Consuming keeps references, pins and cursors exact for all other readers |
| BusReaders.SkippedLaw | kernel/bus.c:388-392 | Eviction moves exactly the readers at the head, and keeps references and pins exact |
| BusReaders.LinkedLaw | kernel/bus.c:482-496 | A linked message is owed to exactly the subscriptions of the moment |
| BusDelivery.ReaderPromise | kernel/bus.c:721-786 | The whole promise to one reader, from the law of its topic |
| BusDelivery.ConsumedTopic | kernel/bus.c:771-781 | A pop that found its epoch unchanged delivers the published bytes and keeps every law of the topic |
| BusDelivery.EvictedTopic | kernel/bus.c:382-396 | An eviction during a copy is always visible to that copy through the epoch |
| BusEffects.ReadsOn | kernel/bus.c:708-719 | The reader moves on by one with the message and its exact misses delivered; the message has one reference less or, with its last, leaves the head of the queue for freeing; no other reader moves |
| BusEffects.Leaves | kernel/bus.c:343-377 | After an unsubscribe exactly the messages no remaining reader is waiting for are gone, and the rest are in order |
| BusEffects.Declares | kernel/bus.c:173-220 | The new topic has its reservation, the first blocks of the pool, idle in reverse order or as its ring in order |
| BusImpl.Bus.TakeOne | kernel/bus.c:274-295 | The pointer code takes the block the abstract operation takes: own stash, pool, lender, in this order; it touches no block in anybody's hands |
| BusImpl.Bus.GiveOne | kernel/bus.c:299-317 | The pointer code gives the block back to the first creditor, the stash or the pool, in this order, and writes to that block only |
| BusImpl.Bus.FreeChain | kernel/bus.c:320-328 | The loop frees exactly the chain |
| BusImpl.Bus.EvictOldest | kernel/bus.c:382-396 | Refuses an empty queue or a pinned head; else moves cursors and frees the oldest message |
| BusImpl.Bus.ReclaimOne | kernel/bus.c:401-406 | Evicts from the first borrower in list order that can spare a message, or reports that none can |
| BusImpl.Bus.AllocMsg | kernel/bus.c:413-455 | The loops return a chain, linked through next and ended, or nothing: for a topic that overwrites exactly when AllocExactly says, for one that drops exactly when its stash, the pool and what it lent are enough and its debtors can be made to pay |
| BusImpl.Bus.LinkMsg | kernel/bus.c:469-500 | Header, tail link, counters and cursors end up as the abstract link says; false if nobody subscribes |
| BusImpl.Bus.Publish | kernel/bus.c:631-651 | With readers and blocks to be had the topic's history grows by exactly the payload; otherwise the error cases, exactly |
| BusImpl.Bus.Reserve | kernel/bus.c:659-676 | One block under a new ticket, or the reason why not |
| BusImpl.Bus.Commit | kernel/bus.c:687-693 | Links an open ticket's block, or frees it if nobody listens; turns down anything else |
| BusImpl.Bus.Cancel | kernel/bus.c:695-703 | Frees an open ticket's block; turns down anything else |
| BusImpl.Bus.TicketOk | kernel/bus.c:654-657 | A block's mark says whether it is an open ticket of this topic |
| BusImpl.Bus.Consume | kernel/bus.c:708-719 | The reader moves on; the message comes back for freeing exactly when this was its last reference |
| BusImpl.Bus.PopStart | kernel/bus.c:749-763 | Busy, empty and too-big cases exactly; else notes message, epoch and length |
| BusImpl.Bus.PopCopy | kernel/bus.c:765-765 | One block of the unlocked copy: the right bytes while the message is intact, any bytes otherwise |
| BusImpl.Bus.PopEnd | kernel/bus.c:771-784 | Passes exactly when the epoch is unchanged; then the copy is what was published, missed is exact, and the reader and the message are as ReadsOn says; else only the copy is given up |
| BusImpl.Bus.Peek | kernel/bus.c:805-826 | Every result case exactly; on success this reader has the message pinned once more, and nothing else has changed |
| BusImpl.Bus.Release | kernel/bus.c:842-851 | Unpins and consumes, as ReadsOn says; the in-place view was the published bytes |
| BusImpl.Bus.Unsubscribe | kernel/bus.c:343-377 | The reader is gone, with its pin and references and exactly the messages that nobody else is waiting for |
| BusImpl.Bus.Subscribe | kernel/bus.c:237-243 | One more reader, in front of the others and caught up; nothing else has changed |
| BusImpl.Bus.Declare | kernel/bus.c:173-220 | One more topic, with its reservation out of the pool as a stash or as a closed ring of slots stamped as never published; error cases exactly, and then nothing has changed |
| BusImpl.BusInit | kernel/bus.c:70-91 | Bad arguments are turned down; else all blocks are free |
| BusImpl.Bus.PipeSubscribe | kernel/bus.c:233-243 | A pipe takes one reader, at the writer's place; a second is turned away |
| BusImpl.Bus.PipeUnsubscribe | kernel/bus.c:355-362 | The pipe's reader leaves, and nothing else changes |
| BusImpl.Bus.PipePublish | kernel/bus.c:619-629 | The pipe branch of publish, uninterrupted: too long, full, or stamped and counted |
| BusImpl.Bus.PipeConsume | kernel/bus.c:595-596 | The reader's cursor goes as far round the ring as its number |
| BusImpl.Bus.Check | kernel/bus.c:97-113 | In every valid state v_bus_check passes if and only if no block is in transit between two critical sections |
| BusCheck.Check | kernel/bus.c:97-113 | The same over the memory alone: free list, marks and topics |
| BusCheck.TopicsOk | kernel/bus.c:856-939 | Every topic passes, loans balance, and all blocks are accounted for if and only if nothing is in transit |
| BusCheck.CheckQueue | kernel/bus.c:900-916 | The walk over messages and chains passes, and counts what the topic counts |
| BusCheck.CheckReaders | kernel/bus.c:917-935 | Every cursor is on the chain, every peek on its cursor, and pins equal peeks |
| BusCheck.CheckRing | kernel/bus.c:862-872 | A pipe's ring closes after exactly its reservation |
| BusCheck.CheckPipeReader | kernel/bus.c:875-887 | The pipe reader's distance round the ring is what its number says |
| BusCheck.PinsMatch | kernel/bus.c:931-935 | Counting pins by message and peeks by reader gives the same |
| BusDetect.FreeListOk | kernel/bus.c:97-110 | On any memory, the part of v_bus_check before topics_ok passes if and only if the free list is a list that ends, of exactly the blocks marked free, each once, as counted |
| BusDetect.ListedExactly | kernel/bus.c:888-894 | On any memory, a walk that checks range, mark and count accepts exactly the lists that end within the count |
| BusDetect.ChainedDistinct | kernel/bus.c:98-103 | A list that ends has no block twice |
| BusDetect.SharedStash | kernel/bus.c:888-898 | A memory of two blocks in which two topics share their idle block passes every test and represents no bus with its books in order |
| BusMarks.Marks | kernel/bus.c:54-59 | A block is marked free exactly when it is in the pool, reserved exactly when it is an open ticket |
| BusPayload.BlocksForExact | kernel/bus.c:135-139 | That many blocks hold the payload and one fewer would not, for every block size and length |
| BusPayload.CopyIn | kernel/bus.c:144-160 | The walk stays on the chain, stores the whole payload behind the header, and writes no other byte |
| BusPayload.CopyOut | kernel/bus.c:144-160 | What comes out is what the chain stores |
| BusPayload.StoredUnique | kernel/bus.c:141-143 | A chain stores one payload of a given length |
| BusPayload.RoundTrip | kernel/bus.c:144-160 | Copying in, then out, is the identity |
| BusPayload.StoredInCells | kernel/bus.c:144-160 | A chain stores a payload if and only if each of its blocks holds that block's share, and the shares put together are the payload |
| PipeProof.RunsKeepInv | kernel/bus.c:518-614 | Every interleaving of producer and consumer steps keeps the pipe's invariant |
| PipeProof.StampTells | kernel/bus.c:515-517 | On an overwrite pipe a published slot's stamp is right if and only if the slot was not claimed again |
| PipeProof.JumpSlot | kernel/bus.c:563-567 | After being lapped, the jump by the remainder lands on the oldest slot that may still hold data |
| PipePromises.SlotsInOrder | kernel/bus.c:533-541 | Message k is always in slot k mod depth, for the writer and for a reader that attached in time; one that attached late is one slot behind for ever |
| PipePromises.NeverTorn | kernel/bus.c:552-602 | Copied messages are what was published, good views show nothing else, missed messages and only those had been reclaimed by then, a view is stale exactly when its slot had been |
| PipePromises.DropIsLossless | kernel/bus.c:521-524 | On a drop pipe the i-th delivery is the i-th message, nothing is missed or stale, and all that is unread is intact |
| PipePromises.UnreadUntouched | kernel/bus.c:518-530 | On a drop pipe no step writes to the slot of an unread or peeked message |
| PipePromises.FastAgrees | kernel/bus.c:606-614 | pipe_next looks at the next message exactly when it is published and not a ring behind, and, whatever the producer does between its two loads, takes it exactly when it is not reclaimed by the second, as pipe_read would; else it leaves everything to pipe_read |
| PipePromises.FastDelivers | kernel/bus.c:727-747 | From there the fast path's delivery is pipe_read's, with nothing missed |
| PipeWhole.PublishesWhole | kernel/bus.c:518-541 | A message is accepted if and only if it fits a slot and a drop pipe's reader is less than a ring behind; published without interruption it is then the newest, whole in its slot, and no other slot has changed; else nothing has |
| PipeWhole.CancelUndoes | kernel/bus.c:695-703 | A message given up after any number of its bytes leaves no trace but in its slot |
| PipeRoom.OverrunsExactly | kernel/bus.c:727-740 | No run overruns a buffer of `cap` bytes, by whichever path and whatever the producer does, if and only if the pipe drops or `cap` is at least a slot's payload |
| PipeRoom.SomeRun | kernel/bus.c:729-732 | For every depth, every slot size and every smaller buffer, a run of an overwriting pipe that overruns it |
| PipePromises.CopiesFit | kernel/bus.c:727-740 | After every run: what a pop delivered fits its buffer, and so does every copy in progress, unless it is v_bus_pop's own from a slot an overwriting producer has handed out again |
| PipePromises.AttachExactly | kernel/bus.c:237-241 | A reader starts out at its number's slot at any moment but between the store of next_seq and the move of pipe_wr (or on a ring of one) |
| PipePromises.LateGetsNothing | kernel/bus.c:533-541 | After every run, a reader that attached at that moment to a ring of more than one slot has got nothing and not moved, and a drop pipe is at most a ring ahead of it |
| PipePromises.LateStaysFull | kernel/bus.c:521-524 | ... and once a drop pipe is that far, no message is accepted on any continuation in which that reader stays |
| PipeRuns.LateRun | kernel/bus.c:237-241 | A run where it happens: two messages are waiting, the reader has nothing, every further message is turned down |
| PipeRuns.TwoLoads | kernel/bus.c:729-732 | A run where the length grows between v_bus_pop's two loads and two bytes are copied into a buffer of one |
| PipeImpl.Pipe.TryPop | kernel/bus.c:721-747 | v_bus_pop with the producer running between any two accesses: fast path, then pipe_read; what it returns was published under its number and fits, and all it skipped had been reclaimed; it fails only when nothing unread is left that was not reclaimed, on a drop pipe nothing at all, and finds the buffer too small only for a message that is longer or was handed out meanwhile |
| PipeImpl.Pipe.TryPeek | kernel/bus.c:788-804 | v_bus_peek likewise: a view of the next message that was not reclaimed, or none was left |
| PipeImpl.Pipe.Release | kernel/bus.c:832-841 | Reports a stale view exactly when the slot was handed out again |
| PipeImpl.Pipe.PipeRead | kernel/bus.c:552-602 | The loop, copying or viewing, with the producer running between any two accesses: it ends when the producer does, with an exact count of misses, and gives up only for the same reasons |
| UpipeRing.MaskIsMod | include/upipe.h:43-45 | Masking with n - 1 is the remainder modulo n for a power of two |
| UpipeRing.SlotOf | include/upipe.h:43-45 | The slot of an index is the same before and after it wrapped at 32 bits |
| UpipeRing.Distance | include/upipe.h:47-49 | The 32-bit difference of the indices is the number of slots in use |
| Upipe.Ring.Reserve | include/upipe.h:47-49 | Nothing exactly when the ring is full; else a slot that no unread message is in |
| Upipe.Ring.Commit | include/upipe.h:51-53 | The filled slot is appended, through any wrap |
| Upipe.Ring.Peek | include/upipe.h:59-61 | Nothing exactly when the ring is empty; else the oldest message |
| Upipe.Ring.Release | include/upipe.h:63-65 | The oldest message leaves |
| UpipeSleep.RunsKeepInv | include/upipe.h:47-85 | Every interleaving of the two ends keeps ring, flags and tokens consistent |
| UpipeSleep.Fifo | include/upipe.h:43-69 | What was read is exactly what was committed, in order, with at most n slots in use |
| UpipeSleep.NoLostWakeup | include/upipe.h:71-85 | A parked end with something to do has a peer between its index bump and its kick; both are never parked |
| UpipeSleep.KickArrives | kernel/task.c:928-938 | Once that peer has taken its two steps the parked end is awake |
| UpipeSleep.UnreadUntouched | include/upipe.h:47-57 | No step writes to the slot of an unread message |
| UpipeWhole.WritesOne | include/upipe.h:47-85 | A write with nobody in between takes a slot exactly when fewer than n are in use; its message is then the newest, and a parked peer is woken, one that has its flag up finds a token |
| UpipeWhole.ReadsOne | include/upipe.h:60-85 | A read with nobody in between gets the oldest message exactly when there is one, and kicks the writer in the same way |
| UpipeWhole.WriterParks | include/upipe.h:71-85 | A writer that waits with nobody in between parks exactly when the ring is full and there is no token; else it is back with its flag down |
| UpipeWhole.ReaderParks | include/upipe.h:71-85 | A reader that waits, exactly when the ring is empty and there is no token |
| WaitQueue.EnqueuedSorted | kernel/ipc.c:31-52 | Insertion keeps the queue in order of priority, behind everybody of the same priority |
| WaitQueue.Enqueue | kernel/ipc.c:31-52 | The walk finds that place |
| WaitQueue.WithoutMembers | kernel/ipc.c:69-82 | Removal takes out exactly one task |
| WaitQueue.Remove | kernel/ipc.c:69-82 | The walk does that |
| SemaphoreModel.StepInv | kernel/ipc.c:187-246 | Every take, give, timeout, resumption and death keeps the semaphore's invariant |
| SemaphoreModel.SemaphoreSafety | kernel/ipc.c:349-392 | Over every run: count within limit, nobody queued while it is positive, initial plus gives equals count plus grants, and a blocking take reported success exactly when granted |
| SemaphoreModel.FateOnce | kernel/task.c:1121-1155 | Every blocking take gets exactly one of grant, timeout or teardown, from the step that should give it |
| SemaphoreModel.StepSorted | kernel/ipc.c:54-65 | With priorities fixed the queue stays in order, so a give goes to the most urgent waiter |
| SemaphoreModel.DeathLeaves | kernel/ipc.c:900-904 | A task that dies waiting is off the queue and gets nothing; count, gives and grants stay |
| SemaphoreModel.Semaphore.Take | kernel/ipc.c:187-246 | Takes a token, one grant more, exactly when there is one; else fails at once if it may not wait; else is in the queue, behind those at least as urgent, with wait_sem set |
| SemaphoreModel.Semaphore.Give | kernel/ipc.c:349-392 | Hands over to the first waiter, whose take is granted, with the count left alone; else adds one to the count; else, at the limit, changes nothing |
| SemaphoreModel.Semaphore.Resume | kernel/ipc.c:237-245 | wait_sem tells a grant from a timeout |
| MutexRuns.MutexSafety | kernel/ipc.c:267-337 | Over every run: one owner, on its held list once, count 1 exactly when free, no waiters on a free mutex |
| MutexRuns.NoBarging | kernel/ipc.c:833-855 | Unlock or death of the owner makes the first waiter owner at once; nobody else can get the mutex in between |
| MutexRuns.StepGood | kernel/ipc.c:871-905 | Every lock, unlock, timeout and death keeps it so, and the dead hold and await nothing |
| MutexProof.ReleaseInv | kernel/ipc.c:833-862 | A released mutex goes to its first waiter, or becomes free |
| MutexProof.TeardownInv | kernel/ipc.c:871-905 | A dead task owns nothing and waits for nothing |
| MutexInherit.WalkLaw | kernel/ipc.c:288-309 | The walk restores "owner at least as urgent as every waiter" along any chain of owners, cycles included |
| MutexInherit.HopsAreDistinct | kernel/ipc.c:296-300 | Every hop lifts a different task; a panic means more than MAX_PI_DEPTH tasks were less urgent |
| MutexInherit.PanicsExactly | kernel/ipc.c:288-309 | The walk panics if and only if the owner, the owner of what that one waits for and so on make a chain of more than MAX_PI_DEPTH different tasks that are all less urgent than the caller |
| MutexInherit.LiftsExactly | kernel/ipc.c:288-309 | Else exactly the tasks on such a chain have the caller's priority now, and everybody else their own |
| MutexInherit.LockLaw | kernel/ipc.c:267-337 | Locking keeps that law, granted or not |
| MutexInherit.UnlockLawIff | kernel/ipc.c:818-831 | Unlocking keeps it if and only if the first in line leads its queue and nobody who waits for what the owner keeps outranks both the owner's base priority and every first in line there |
| MutexInherit.SortedIsSafe | kernel/ipc.c:258-262 | Queues in order are enough for that |
| MutexRuns.TeardownLawIff | kernel/ipc.c:871-897 | Death keeps the law if and only if the first in line leads every queue the dead task owned |
| MutexRuns.StepLaw | kernel/ipc.c:267-905 | From any state with the law, a step keeps it if and only if it is not an unlock or a death that is unsafe in that sense |
| MutexRuns.LawHolds | kernel/ipc.c:288-309 | The law holds all along a run if and only if every unlock and every death in it is safe |
| MutexRuns.LockSorted | kernel/ipc.c:288-309 | Queues stay in order when the owner that is boosted is not queued itself |
| MutexRuns.UnlockSorted | kernel/ipc.c:796-862 | ... and under every unlock |
| MutexRuns.TeardownSorted | kernel/ipc.c:871-905 | ... and under every death |
| MutexRuns.FlatRunsKeepLaw | kernel/ipc.c:267-337 | Over every run in which no boost reaches a task that waits itself, all queues stay in order and the law holds with no further condition |
| MutexRuns.BoostedInQueue | kernel/task.c:1232-1245 | A run of four tasks and two mutexes in which a boost puts a queue out of order and the next unlock breaks the law |
| MutexImpl.Mutexes.Inherit | kernel/ipc.c:288-309 | The loop computes the walk, panics included |
| MutexImpl.Mutexes.Lock | kernel/ipc.c:267-337 | Granted if and only if the mutex was free, and then the caller owns it and holds it; refused if and only if it is owned and the caller may not wait, and then only priorities change; parked if and only if it is owned and the caller may, and then it waits in that queue; panicked, and the priorities it changed, as the two rows on the walk say |
| MutexImpl.Mutexes.Unlock | kernel/ipc.c:796-862 | Only the owner unlocks; the first waiter owns the mutex or it is free; the priority is recomputed over what is still held |
| MutexImpl.Mutexes.Teardown | kernel/ipc.c:871-905 | Everything held goes to its first waiter or becomes free, in the loop's order, and the dead task is off the queue it was in |
| SchedProof.StepLaw | kernel/task.c:51-1245 | Switch, block, delay, wait, grant, unblock, tick, exit, collection, creation and change of priority: each keeps every task on exactly the list its status names, no list with a task twice, the sleepers in order, if and only if it is not a switch with nobody to run |
| SchedRuns.RunsKeepLaw | kernel/task.c:22-38 | Over every run from scheduler_init that spares the idle task |
| SchedRuns.LawExactly | kernel/task.c:586-590 | All along a run if and only if every switch in it finds somebody to run |
| SchedRuns.OnOneList | kernel/task.c:24-31 | After every such run a task is on the one list its status names and on no other, no list has a task twice, and the delayed list is in order of wake-up |
| SchedRuns.IdleEnded | kernel/task.c:697-728 | A run where the idle task is ended and runs on from the blocked list |
| SchedRuns.MostUrgentRuns | kernel/task.c:556-601 | After a switch no ready task is more urgent than the current one |
| SchedRuns.TickExact | kernel/task.c:1099-1180 | A tick wakes exactly the sleepers whose tick has come and the waiters past their deadline, sleepers first and in order, onto the ends of their ready lists, and changes nothing else; afterwards nobody is overdue |
| SchedMoves.SleepsExactly | kernel/task.c:1043-1119 | A task that delayed itself by t ticks is made ready by a tick interrupt n ticks later if and only if n is at least t; until then it is where it was, with the same deadline |
| SchedMoves.WaitsExactly | kernel/task.c:1121-1177 | A wait with a timeout of t is given up if and only if n is more than t, with wait_sem still set; a wait without one never is |
| SchedMoves.SwitchTakes | kernel/task.c:556-601 | A switch puts a running task at the end of its ready list and runs the first of the most urgent list that has somebody; all other lists stay as they are; with nobody there the idle task runs where it stands |
| SchedMoves.PlaceMoves | kernel/task.c:51-154 | A task that is moved is gone from the list it was on and at its place on the one its new status names, last or by its tick, and nobody else moved |
| SchedSema.StepJoint | kernel/ipc.c:187-246 | Take, give, tick, exit and every other scheduler step keep each semaphore's queue the tasks blocked with wait_sem set to it, if and only if it is neither a task_unblock of one of them nor a switch with nobody to run |
| SchedSema.RunsAgreeExactly | kernel/task.c:1121-1155 | All along a run from scheduler_init, with any semaphores, if and only if it has neither |
| SchedSema.Projects | kernel/ipc.c:187-246 | To the scheduler every such step is one of its own or none, and a tick or an exit always is, so all that holds over its runs holds |
| SchedSema.GiveWakes | kernel/ipc.c:349-392 | A give that finds somebody in line makes the first of them ready, clears its wait_sem, and banks nothing |
| SchedSemaCalls.TakesOrWaits | kernel/ipc.c:187-215 | A take gets a token exactly when there is one; else it fails at once if it may not wait; else the task is off the processor, last on the blocked list, in line behind those at least as urgent, with its deadline set |
| SchedSemaCalls.GiveBanks | kernel/ipc.c:375-392 | A give with nobody in line adds a token, unless that would be more than the limit |
| SchedSema.UnblockedWaiter | kernel/task.c:1218-1230 | A run after which task_unblock leaves a waiter ready and in the semaphore's queue |
| SchedFair.RoundRobin | kernel/task.c:556-601 | A top-priority task with j tasks ahead runs within j + 1 switches, whatever happens, unless something more urgent becomes ready |
| SchedRep.SpliceRep | kernel/task.c:1005-1035 | The two stores to the neighbours and the two to the task put it onto its list, in memory, without touching any other list |
| SchedRep.CutRep | kernel/task.c:131-154 | ... and take it off |
| SchedImpl.Scheduler.Append | kernel/task.c:51-63 | Head, tail, both links and the bitmap bit after an append |
| SchedImpl.Scheduler.PopHead | kernel/task.c:67-79 | ... after taking the head, which then runs |
| SchedImpl.Scheduler.TakeOff | kernel/task.c:83-154 | ... after splicing a task out of anywhere on the ready, blocked or delayed list its status names |
| SchedImpl.Scheduler.AddBlocked | kernel/task.c:110-129 | The walk to the end of the blocked list, for a task that blocks or has ended; the ended ones are counted |
| SchedImpl.Scheduler.AddDelayed | kernel/task.c:1005-1035 | The walk to the place behind everybody due no later |
| SchedImpl.Scheduler.HighestBit | kernel/task.c:101-105 | The highest set bit is the highest priority with a ready task |
| SchedImpl.Scheduler.GetNext | kernel/task.c:556-601 | The switch on the linked lists, as SwitchTakes says, with somebody to run or not |
| SchedImpl.Scheduler.TaskBlock | kernel/task.c:1188-1205 | The current task goes from wherever it is to the end of the blocked list, once; the idle task and one that is blocked already do not |
| SchedImpl.Scheduler.TaskDelay | kernel/task.c:1043-1064 | The task is on the delayed list, at its place, with its wake-up tick the given number of ticks from now; the idle task never is, and 0 ticks are no wait |
| SchedImpl.Scheduler.TaskDelayUntil | kernel/task.c:1066-1092 | It sleeps exactly if the next period lies ahead, with its wake-up tick the end of that period, and the next wake-up moves on by one period either way |
| SchedImpl.Scheduler.TakeWait | kernel/ipc.c:200-215 | It is at the end of the blocked list with wait_sem set and its deadline the timeout from now, or none |
| SchedImpl.Scheduler.TakeResumed | kernel/ipc.c:237-245 | Granted exactly if wait_sem was cleared |
| SchedImpl.Scheduler.Wake | kernel/ipc.c:358-367 | A granted waiter is at the end of its ready list, and wait_sem is cleared |
| SchedImpl.Scheduler.Find | kernel/task.c:1309-1343 | The search finds the current task and every task on a list but the topmost ready list |
| SchedImpl.Scheduler.TaskUnblock | kernel/task.c:1218-1230 | A blocked task goes to the end of its ready list, whatever it waits for; anything else is left alone |
| SchedImpl.Scheduler.WakeSleepers | kernel/task.c:1107-1119 | The first loop of the tick wakes the sleepers that are due |
| SchedImpl.Scheduler.EjectWaiters | kernel/task.c:1121-1177 | The second, which takes tasks off the list it walks, ejects the waiters past their deadline |
| SchedImpl.Scheduler.TickInterrupt | kernel/task.c:1099-1180 | Both, and its result is true exactly when one it made ready outranks the current task |
| SchedImpl.Scheduler.ExitRequest | kernel/task.c:697-728 | A task that can be found leaves its list and waits on the blocked list to be freed, counted once |
| SchedImpl.Scheduler.CollectOne | kernel/task.c:955-975 | The first ended task on the blocked list is off it and freed; the count says exactly when there is one |
| SchedImpl.Scheduler.TaskCreate | kernel/task.c:209-364 | The new task is at the end of its ready list |
| SchedImpl.Scheduler.ChangePriority | kernel/task.c:1232-1245 | A ready task moves to the end of its new list, any other stays where it is with its new priority; a priority out of range changes nothing |
| ArbiterProof.RunsKeepInv | kernel/periph_bus.c:13-206 | Every run over any number of buses keeps the arbiter's invariant |
| ArbiterPromises.MutualExclusion | kernel/periph_bus.c:53-85 | An async job and a lock holder are never on a bus together; locked holds exactly when one lock slot of that bus is active, and never two are |
| ArbiterPromises.WorkConserving | kernel/periph_bus.c:51-85 | With no dispatch under way, a bus with something queued is in use |
| ArbiterPromises.GrantsInOrder | kernel/periph_bus.c:13-20 | A dispatch serves the most urgent entry, of equals the earliest |
| ArbiterProof.ReleaseFrees | kernel/periph_bus.c:34-49 | A release frees the bus, makes the job idle with one done more, and has the bus dispatched |
| ArbiterProof.StrayDispatches | kernel/periph_bus.c:102-105 | A completion interrupt with nothing on the bus leaves the queue alone and has it dispatched |
| ArbiterPromises.NoJobLost | kernel/periph_bus.c:34-49 | Accepted submits equal completions plus jobs queued or active |
| ArbiterImpl.Arbiter.DispatchAll | kernel/periph_bus.c:53-85 | The loop is the model's dispatches, with a release after each failed start, and ends with the bus in use or nothing queued |
| ArbiterImpl.Arbiter.Enqueue | kernel/periph_bus.c:13-20 | The entry is in the queue behind everybody at least as urgent and in front of everybody less urgent |
| ArbiterImpl.Arbiter.Submit | kernel/periph_bus.c:87-100 | Accepted if and only if the job is idle; then it is queued on the bus with the caller's priority, one more submit is counted, and a dispatch is to come; else nothing has changed |
| ArbiterImpl.Arbiter.Unqueue | kernel/periph_bus.c:23-32 | The walk takes out one node |
| ArbiterImpl.Arbiter.ClaimSlot | kernel/periph_bus.c:132-144 | Claims a free slot if there is one |
| ArbiterImpl.Arbiter.Request | kernel/periph_bus.c:145-151 | The slot is queued on its bus with the caller's priority, and a dispatch is to come |
| ArbiterImpl.Arbiter.GiveUp | kernel/periph_bus.c:156-164 | A timed-out waiter is off the queue and its slot free, unless the grant came in after all |
| ArbiterImpl.Arbiter.Unlock | kernel/periph_bus.c:180-194 | Succeeds exactly when the task holds the bus, which is then unlocked and to be dispatched; anybody else changes nothing |
| ArbiterImpl.Arbiter.Teardown | kernel/periph_bus.c:196-206 | A dead task leaves no slot behind and nobody else loses one; every bus it held ends up in use or with nothing queued, no other bus is left idle, and no dispatch stays pending; all of it in steps of the model |
| Spsc.Fifo.Available | kernel/structure.c:60-72 | The number of elements |
| Spsc.Fifo.Space | kernel/structure.c:74-89 | What is left of capacity - 1 |
| Spsc.Fifo.Write | kernel/structure.c:91-164 | Dropping appends what fits; overwriting leaves the last capacity - 1 elements of the old contents and the first capacity - 1 items |
| Spsc.KeepsNewest | kernel/structure.c:106-125 | An overwriting write keeps the newest capacity - 1 elements if and only if there are fewer than capacity items, or their first capacity - 1 equal their last |
| Spsc.LosesNewest | kernel/structure.c:121-123 | For every length from capacity on there are items of which it loses the newest, whatever was in the ring |
| Spsc.OldestStays | kernel/structure.c:91-164 | Writing 1 and 2 to an empty overwriting ring of two leaves 1 |
| Spsc.Fifo.Read | kernel/structure.c:166-197 | Takes from the front |
| Spsc.Fifo.Peek | kernel/structure.c:199-223 | The same without taking |
| Spsc.Fifo.Skip | kernel/structure.c:225-238 | Drops from the front |
| Spsc.Fifo.WritePtr | kernel/structure.c:245-264 | A run of free slots, empty only when there is no room |
| Spsc.Fifo.CommitWrite | kernel/structure.c:266-282 | What was written in place is appended |
| Spsc.Fifo.ReadPtr | kernel/structure.c:303-318 | A run of elements from the front, empty only when there are none |
| Spsc.Fifo.CommitRead | kernel/structure.c:320-329 | What was read in place is gone |
| Spsc.Fifo.Reset | kernel/structure.c:240-243 | Empties the ring |
| SpscSteps.RunsKeepInv | kernel/structure.c:91-197 | Every interleaving of a dropping write and a read, by loads and stores of the indices and single elements, keeps the ring's invariant |
| SpscSteps.Fifo | kernel/structure.c:91-197 | After every such run what was read is what was written, in order, with at most capacity - 1 elements in between |
| SpscSteps.UnreadUntouched | kernel/structure.c:129-148 | No step stores to the slot of an element that is written and not read |
| SpscSteps.TakesWhatFits | kernel/structure.c:60-104 | A write takes as much as there is room for when it looks, exactly |
| SpscSteps.WritesAlone | kernel/structure.c:91-164 | A dropping write with nobody in between appends as much of its items as there is room for |
| SpscSteps.ReadsAlone | kernel/structure.c:166-197 | A read with nobody in between takes as much as it asks for of what is there, from the front |
| Mpmc.TokensConserved | kernel/structure.c:369-439 | Over every interleaving the tokens and the threads in flight add up to the capacity; no push finds the ring full, no pop finds it empty, no give is refused |
| Mpmc.Fifo | kernel/structure.c:407-433 | Items leave in the order they came, none twice, and none is lost without overwriting |
| Mpmc.DisplaceKeepsTokens | kernel/structure.c:380-390 | Overwriting in place changes no token and moves the queue on by one |
| Mpmc.Queue.TakeFreeSlot | kernel/structure.c:373-373 | A push gets a slot token, one fewer then, exactly when there is one |
| Mpmc.Queue.TakeNotEmpty | kernel/structure.c:421-422 | A pop gets an item token, one fewer then, exactly when there is one |
| Mpmc.Queue.GiveNotEmpty | kernel/structure.c:414-414 | The give of a push adds an item token: it is never refused |
| Mpmc.Queue.GiveNotFull | kernel/structure.c:435-435 | The give of a pop adds a slot token: it is never refused |
| Mpmc.Queue.PutItem | kernel/structure.c:407-412 | The locked section of a push: the item is the newest |
| Mpmc.Queue.GetItem | kernel/structure.c:424-433 | The locked section of a pop returns the oldest item, which is gone then |
| Mpmc.Queue.DisplaceOldest | kernel/structure.c:375-391 | The locked section of an overwriting push: on a full queue the oldest item goes and the new one is last, on any other nothing changes |

## Left out

- BusRuns.RunsKeepInv: sequence numbers and epochs are natural numbers; the code keeps 32 and 16 bits of them, so a pop overtaken by exactly a whole wrap of an epoch is not covered.
- PipeProof.RunsKeepInv: stamps and numbers do not wrap; the barriers are taken to make loads and stores happen in program order.
- BusAdmission.UnlentExactly: an overwriting topic that has lent blocks gets at least what GetsItsReach says and exactly what AllocExactly says; the latter looks at the bus before each block, since who is repaid first depends on whose message goes, and is not a count.
- BusAlloc.AdmissionIsExact: every borrower can be made to pay, that is, holds its blocks in messages nobody has pinned; without that a dropping topic is sure of its stash and the pool only.
- BusImpl.Bus.Commit: a ticket is taken back on the topic that issued it; the code does not record which one that was.
- BusImpl.Bus.Cancel: as Commit.
- BusImpl.Bus.TicketOk: as Commit.
- BusImpl.Bus.Publish: runs uninterrupted; its interleavings are those of its steps in BusRuns.
- BusImpl.Bus.PopCopy: a copy of a message that was freed under it yields any bytes; where it may stray to in memory is not described.
- BusImpl.Bus.Declare: topic names and the rejection of a name already taken.
- PipeImpl.Pipe.PipeRead: the consumer's calls with an arbitrary finite producer, by a reader that attached in time; the producer's own code is the steps of PipeModel.
- UpipeSleep.RunsKeepInv: a peer that writes to the shared header what it should not.
- MutexImpl.Mutexes.Lock: recursive locking, and calls before the scheduler runs; a lock call is one step, as it is in handler mode.
- SemaphoreModel.StepInv: deadlines are not compared, a timeout may come at any time; observers of several semaphores at once (v_wait) and named objects.
- SchedImpl.Scheduler.GetNext: time slices, stack checks and statistics; the bitmap is a sequence of booleans and the count-leading-zeros instruction a search for the highest one.
- SchedProof.StepLaw: the tick counter does not wrap. A task that has marked itself as blocked, delayed or ended makes no further call before the switch it asked for.
- SchedImpl.Scheduler.TaskDelay: called by the running task, as every call of a task is.
- SchedImpl.Scheduler.EjectWaiters: the scheduler's own lists; the semaphore's queue at the same step is in SchedSema, on values. Waiters on several semaphores at once (v_wait) are left out.
- SchedImpl.Scheduler.ExitRequest: the hand-off of held mutexes and bus locks is MutexImpl's and ArbiterImpl's Teardown.
- SchedImpl.Scheduler.TaskBlock: called by a task that has not ended.
- SchedSema.StepJoint: counting semaphores; a mutex's queue in MutexModel is not joined to the scheduler. A task whose take timed out finishes that call before its next.
- SchedImpl.Scheduler.TaskCreate: stack, memory and name of the task; a priority beyond the highest.
- ArbiterPromises.NoJobLost: jobs submitted directly; a release and its done() are one step, and done() does not submit in between. Cyclic jobs and the file-descriptor transfers are left out.
- Spsc.Fifo.Write: one call at a time; SpscSteps has dropping writes and reads at once. An overwriting write moves the reader's index, which a concurrent reader may be moving too. Element sizes and buffer alignment.
- BusDetect.SharedStash: for topics without messages, readers or pipes; what v_bus_check tells of queues in any memory is left out.
- Mpmc.Fifo: mpmc_reset, mpmc_peek and the bulk calls.
- Waking sleeping readers from publish, the snapshotter, callback subscriptions, statistics and the file-descriptor layer of the bus.
- That children die with their owner, and restarts after a fault.
- The heap, the HAL, MPU regions, traps, the shell, VFS and device files.
