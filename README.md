# Work queues of the SDL OSD layer, modelled in Dafny

This project models the work-queue engine of `src/osd/sdl/sdlwork.c`. A work
queue hands out work items. A caller submits a batch of items, each with a
callback and a parameter. Worker threads take items off the queue's pending
list under a ticket ("scalable") lock, run them, and mark them done. Finished
items go back onto a lock-free free list and are reused by later submissions.

The model is sequential. It keeps the queue's own fields:

- the pending list head `list` and its tail pointer `tailptr`;
- the free list head `free`;
- the pending count `items`;
- the `waiting` and `exiting` flags;
- the "all done" event;
- the ticket lock;
- the per-thread records.

The queue's fields are fields of a `class Queue` that its methods update in
place. Each item's `next` field is a map from item to item, and the other
fields of every item the queue has allocated live in the queue's `arena`. A
ghost value `st` holds the bookkeeping that those fields stand for: the items,
the pending list head first, the free list top first, and the next fresh
allocation. It also keeps a history the C code does not: the ids whose
callbacks have been called, in the order of the calls. Every method is proved against value-level functions on `st`:
`SubmitFrom` for submission, `Drain` for running the queue, `Release` for
pushing onto the free list, and `WaitItem` for arming an item's event. The
properties of the queue are proved as lemmas about those functions.

Files:

- `int32.dfy`: the wrapping INT32 ticket counter, and `& 15` written as `% 16`.
- `scalable_lock.dfy`: `class Lock`, a ring of 16 "has lock" flags and a ticket counter.
- `queue_config.dfy`: the flag values and the thread-count policy.
- `work_spec.dfy`: the bookkeeping as a value, and the operations on it.
- `work_properties.dfy`: what submission, draining and release promise.
- `item_lists.dfy`: the intrusive singly-linked lists and the tail-pointer stores.
- `queue_rep.dfy`: how the queue's fields represent the bookkeeping, and how each step keeps that representation.
- `work_queue.dfy`: `class Queue` and its operations.

What worker threads do is modelled as a call of `Queue.Process`
(worker_thread_process). A blocking wait that the workers could end early
takes a `workersDone` argument. It says whether the workers finish the queue
before the timeout; when they do, the wait runs `Process` on their behalf.
Clocks, timeouts, event objects, thread creation and the processor count are
not modelled: where the source reads them, the model takes them as parameters.

The flag values come from MAME's `osdcore.h`, which is not part of this
model: `WORK_QUEUE_FLAG_IO = 1`, `WORK_QUEUE_FLAG_MULTI = 2`,
`WORK_ITEM_FLAG_AUTO_RELEASE = 1`.

## Model

| member | source | states |
|---|---|---|
| Int32.WrapIncDec | src/osd/sdl/sdlwork.c:191-193 | The ticket is the counter's new value minus one, in wrapping INT32 arithmetic. That gives back the counter's old value, also across the wrap from 2^31-1 to -2^31. |
| Int32.WrapIncMod16 | src/osd/sdl/sdlwork.c:193-208 | Incrementing the wrapping counter moves its slot (`& 15`) on by one modulo 16, also across the wrap. |
| ScalableLock.Lock.constructor | src/osd/sdl/sdlwork.c:184-188 | Every flag is cleared, slot 0 holds the lock, and the counter is 0, so the lock starts free. |
| ScalableLock.Lock.Acquire | src/osd/sdl/sdlwork.c:191-204 | The caller's slot is the old counter mod 16. The counter advances with wrap-around, only that slot's flag is cleared, and afterwards the lock is held through that slot. |
| ScalableLock.Lock.Release | src/osd/sdl/sdlwork.c:206-209 | Only the next slot's flag (`(myslot + 1) & 15`) is set, and afterwards the lock is free again. |
| QueueConfig.ThreadCount | src/osd/sdl/sdlwork.c:240-250 | One processor: 1 thread for I/O queues, else 0. Several processors: `numprocs - 1` for MULTI queues, else 1. The count is clamped to 16. A count that goes negative wraps through UINT32 and clamps to 16. The result is never above 16. |
| WorkQueue.Queue.constructor | src/osd/sdl/sdlwork.c:216-256 | Both lists are empty, the tail pointer names `list`, and the count is 0. The done event starts signalled. The lock's counter is 0 and only slot 0's flag is set, so the lock is free. There are `ThreadCount` threads and one record more than threads, all inactive. The queue is valid. |
| WorkQueue.Queue.Items | src/osd/sdl/sdlwork.c:298-302 | The result is the length of the pending list. It is 0 for a queue without threads between calls. |
| WorkQueue.Queue.Wait | src/osd/sdl/sdlwork.c:309-344 | Returns TRUE at once, changing nothing, when there are no threads or no items. A MULTI queue drains on the caller's thread and returns TRUE. Otherwise the done event is reset and the call returns whether the workers emptied the queue; the state is the drained one exactly then. |
| WorkQueue.Queue.Process | src/osd/sdl/sdlwork.c:673-731 | The new state is `Drain` of the old one. The list is empty, its tail pointer names `list` again, and the count is 0. The done event is set if someone is waiting. The queue stays valid. |
| WorkQueue.Queue.ProcessNext | src/osd/sdl/sdlwork.c:678-722 | One round takes the head item, runs it and completes it: it is auto-released, or its event is signalled. That is the step `Drain` takes, and the count drops by one. |
| WorkQueue.Queue.TakeAndRun | src/osd/sdl/sdlwork.c:684-704 | The item taken is the head of the pending list. The rest of the list stays linked from `list`, and the tail pointer goes back to `list` when the list empties. The item gets its callback's result and is marked done, and the count drops by one. |
| WorkQueue.Queue.QueueMultiple | src/osd/sdl/sdlwork.c:445-528 | The new state is `SubmitFrom` of the old one, drained at once when there are no threads. The result is the batch's first id, or none for auto-release items. The queue stays valid. A call with no items changes nothing. |
| WorkQueue.Queue.BuildBatch | src/osd/sdl/sdlwork.c:453-486 | The local list holds the batch ids in order. The local tail pointer starts at the caller's `itemlist` variable and ends at the last item's `next`. Item `i` gets parameter `parambase + i * paramstep`. The queue's list, tail pointer and count are untouched. |
| WorkQueue.Queue.AddItem | src/osd/sdl/sdlwork.c:455-485 | The item is popped off the free list's top, or freshly allocated when the list is empty. It is reset, its `next` is cleared, and it is stored through the local tail pointer: into `itemlist` for the first item, else into the previous item's `next`. The state is `SubmitOne` of the old one. |
| WorkQueue.Queue.Splice | src/osd/sdl/sdlwork.c:488-492 | Storing the local list through the queue's tail pointer, and moving that pointer to the local tail, makes the queue's list the old pending items followed by the batch. |
| WorkQueue.Queue.ItemWait | src/osd/sdl/sdlwork.c:535-561 | Returns TRUE for a done item and changes nothing. Otherwise the item's event is created or reset, and the call returns whether the item is done; that is true exactly when the workers ran the queue. |
| WorkQueue.Queue.ItemResult | src/osd/sdl/sdlwork.c:568-571 | A done item's result is its callback applied to its parameter. Before that it is NULL. |
| WorkQueue.Queue.PushFree | src/osd/sdl/sdlwork.c:585-590 | The item's `next` takes the old free head and the item becomes the top of the free list. Nothing else changes. |
| WorkQueue.Queue.ItemRelease | src/osd/sdl/sdlwork.c:578-591 | The call waits for the item, then pushes it on the free list: the new state is `Release` of the waited state, and the free head is the item. |
| WorkQueue.Queue.Free | src/osd/sdl/sdlwork.c:351-428 | Threads are told to exit. Every item on the free list and then every pending item is freed, in list order. The freed events are those items' events in that order, and both lists end empty. The count, the tail pointer, the `waiting` flag, the done event, the fresh-id counter and the bookkeeping are left alone. |
| WorkQueue.Queue.FreeFreeList | src/osd/sdl/sdlwork.c:409-417 | Items are freed from the top of the free list down until the list is empty. The pending list stays intact. |
| WorkQueue.Queue.FreeActiveList | src/osd/sdl/sdlwork.c:419-427 | Items are freed from the head of the pending list on until the list is empty. |
| ItemLists.LinkedPop | src/osd/sdl/sdlwork.c:688-694 | Popping a well-formed list leaves the list that starts at the popped item's `next`. |
| ItemLists.LinkedPush | src/osd/sdl/sdlwork.c:585-590 | Pushing an item that is not on the list, with `next` set to the old head, gives that item followed by the list. |
| ItemLists.LinkedConcat | src/osd/sdl/sdlwork.c:482-491 | Storing a second list's head through a first list's tail pointer links the first list's items followed by the second's. |
| ItemLists.LinkedFreeHead | src/osd/sdl/sdlwork.c:410-427 | Freeing the head item leaves the rest of its list, and any other list without that item, well linked. |
| WorkProperties.SubmitFromPending | src/osd/sdl/sdlwork.c:453-492 | A batch lands after the old pending items, in order, with the ids `BatchIds` names: the free list's top items first, then fresh ids. |
| WorkProperties.SubmitFromFreeList | src/osd/sdl/sdlwork.c:457-471 | The free list loses exactly the `min(n, length)` items on top, and the rest of the batch is freshly allocated. |
| WorkProperties.SubmitFromItemAt | src/osd/sdl/sdlwork.c:464-485 | Item `i` of a batch gets the callback, parameter `param + i * step`, the flags, a NULL result and `done` cleared. A reused item keeps its event and owner; a fresh one has no event and belongs to the queue. |
| WorkProperties.BatchIdsDistinct | src/osd/sdl/sdlwork.c:457-471 | The ids of a batch are all different, and each is a free item or a fresh one. |
| WorkProperties.InvSubmitFrom | src/osd/sdl/sdlwork.c:445-495 | Submission keeps the invariant: both lists distinct and disjoint, an item done exactly when not pending, and a done item holding its callback's result. |
| WorkProperties.DrainFreeList | src/osd/sdl/sdlwork.c:707-709 | A drain pushes the auto-release items on the free list in the order they ran, so the last one run ends up on top. |
| WorkProperties.AutoReleasedFlags | src/osd/sdl/sdlwork.c:707-712 | Only items submitted with the auto-release flag go back to the free list during a drain. |
| WorkProperties.DrainRunLog | src/osd/sdl/sdlwork.c:678-704 | A drain calls the callbacks of the pending items in list order, one call per place on the list. The history of calls grows by exactly the pending list. |
| WorkProperties.DrainRunsEachOnce | src/osd/sdl/sdlwork.c:678-704 | With no repeats on the pending list, which the invariant keeps, a drain calls each pending item's callback exactly once. |
| WorkProperties.DrainItemRan | src/osd/sdl/sdlwork.c:699-712 | After a drain, each pending item is `Finish` of what it was: it holds its callback's result and is done, and then it is released or its event is signalled. |
| WorkProperties.DrainItemUntouched | src/osd/sdl/sdlwork.c:678-714 | A drain leaves every item that was not pending unchanged. |
| WorkProperties.InvDrain | src/osd/sdl/sdlwork.c:673-731 | Draining keeps the invariant, and afterwards every item the queue owns is done. |
| WorkProperties.InvRelease | src/osd/sdl/sdlwork.c:578-591 | Releasing an item that is neither pending nor already free keeps the invariant. |
| WorkProperties.ReleaseThenSubmitReuses | src/osd/sdl/sdlwork.c:457-480 | The free list is a stack. The item released last is the first one the next submission takes, with callback, parameter, flags, result and `done` overwritten, and with its event and owner kept. |
| WorkProperties.SubmittedItemCompletes | src/osd/sdl/sdlwork.c:474-479 | Item `i` of a batch, drained after submission, is done and holds `callback(param + i * step)`. |
| WorkProperties.SubmitThenDrainCompletes | src/osd/sdl/sdlwork.c:521-523 | Without threads, a submission returns with nothing pending, the invariant kept, and every batch item done with its callback's value for its own parameter. |
| WorkProperties.AutoReleaseRecycled | src/osd/sdl/sdlwork.c:707-709 | Without threads, an auto-release item is back on top of the free list when its submission returns, and the next submission reuses it. |
| QueueRep.GoodPopRun | src/osd/sdl/sdlwork.c:686-704 | With items pending, `list` is the first pending item. Popping it, and resetting the tail pointer when the list empties, then running it keeps the representation. |
| QueueRep.GoodSplice | src/osd/sdl/sdlwork.c:488-495 | The splice, plus adding the batch size to the count, leaves fields that represent the old pending items followed by the batch. |
| QueueRep.BuildingAdd | src/osd/sdl/sdlwork.c:457-485 | Each round of the building loop keeps the queue's lists intact and extends the local list by the new id. |
| QueueRep.GoodRelease | src/osd/sdl/sdlwork.c:585-590 | Pushing a done item that is on neither list keeps the representation. |
| QueueRep.SpliceEmptyBatchBreaksRep | src/osd/sdl/sdlwork.c:447-495 | As written, any call with `numitems` <= 0, on any queue, makes the caller's `itemlist` variable the queue's tail pointer. The fields then no longer represent the queue. See Findings. |
| QueueRep.EmptyBatchLosesNextBatch | src/osd/sdl/sdlwork.c:488-495 | On an empty queue, after such a call with `numitems` 0, the next batch of `n` items is stored into the dead `itemlist`. The queue's list stays empty and no `next` changes, while the count becomes `n`. See Findings. |

## Left out

- Concurrency is not modelled. That covers the compare-and-swap retry loops on the free list, the lock's backoff spin, and the interleaving of workers with submitters. The model runs one operation at a time, so every acquire finds its slot's flag set.
- Thread lifecycle is not modelled: creating threads, worker_thread_entry (its wake-event wait and spin window), `livethreads`, and the wake-up loop of the submission (lines 499-519). These only decide which thread runs the queue, and the model runs it through `Process`.
- Timeouts, clocks and event objects are not modelled. Waits take `workersDone` in their place, and an item's event allocation is the `newEvent` argument (`None` is a failed allocation). The spin fallback of osd_work_item_wait ends under the same condition as the event wait, so it is not modelled separately.
- effective_num_processors and the `OSDPROCESSORS` override are left out; the constructor takes the processor count as an argument. Statistics and timing are left out too.
- Memory allocation failure is not modelled: a failed queue allocation, a failed done event, a failed thread array, and the item `malloc` in a submission. The code returns NULL there and leaks the items built so far (lines 468-469). Releasing them back to the free list, as one might expect, is not what the code does.
- The done event, the thread array and the thread handles are not modelled as resources, so `Free` does not free them. Only the item events are returned, in the order they are freed.
- QueueConfig.ThreadCount: requires `numprocs` other than -2^31, because there `numprocs - 1` overflows `int`, which C leaves undefined.
- WorkQueue.Queue.QueueMultiple: `items` is unbounded; the INT32 overflow of `osd_interlocked_add` after more than 2^31 pending items is not modelled. Parameters are integers that advance by `paramstep`; the pointer arithmetic is not modelled.
- WorkQueue.Queue.Free: requires the queue's representation but not the between-calls condition, because the allocator's error path also tears down half-built queues. The model only covers a fully built queue.
- WorkQueue.Queue.ItemRelease: requires that an item still pending is one the workers finish within the wait. The source waits for at most 100 seconds and then pushes the item anyway; the model does not cover a release of an unfinished item.

## Findings

| source | as written | input that shows it | evidently intended | confidence | as-written member | corrected member |
|---|---|---|---|---|---|---|
| src/osd/sdl/sdlwork.c:447-495 | With `numitems` <= 0 the building loop does not run. The splice stores NULL through the queue's tail pointer and then makes the caller's local `itemlist` the queue's tail pointer, which dangles once the call returns. The pending count is then changed by `numitems`. | `numitems = 0` on an empty queue, which is how a queue without threads sits between calls. The tail pointer is left at the dead `itemlist`. The next submission stores its batch there, so the list stays empty while `items` counts the batch, and `worker_thread_process` loops forever (line 678). On a queue with pending items, the same call also cuts the tail pointer off the last item. `numitems = -1` on an empty queue makes `items` -1, with the same endless loop. | A call with no items returns NULL and leaves the queue unchanged. | high, not executed | QueueRep.SpliceEmptyBatchBreaksRep | WorkQueue.Queue.QueueMultiple |
