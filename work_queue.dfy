/** The work queue itself (struct _osd_work_queue) with its operations.

    The queue's own fields are the ones the code updates in place: the pending
    list's head `list` and its tail pointer `tailptr`, the free list's head
    `free`, the pending count `items`, the `waiting` and `exiting` flags, the
    "all done" event, the ticket lock, and the per-thread records. The items'
    memory is the queue's `arena` (each item's fields but `next`) together with
    `next` (each item's `next` field); `nextFresh` stands for the address the
    next allocation returns.

    The model is sequential. What a worker thread does to the queue is a call
    of `Process`; a blocking wait that worker threads would end early takes a
    `workersDone` argument saying whether they finish the queue before the
    timeout, and if so the wait runs `Process` on their behalf. */
module WorkQueue {
  import opened Int32
  import opened ScalableLock
  import opened QueueConfig
  import opened WorkSpec
  import opened WorkProperties
  import opened ItemLists
  import opened QueueRep

  /** mame_thread_info, reduced to what the model keeps: whether the thread
      is actively processing work. Handles, wake events and timing are not
      modelled. */
  datatype ThreadInfo = ThreadInfo(active: bool)

  class Queue {
    /** The lock that protects `list` and `tailptr`. */
    const lock: Lock
    /** Head of the pending list. */
    var list: Option<ItemId>
    /** Where the next spliced batch is stored: `list` itself while the list
        is empty, else the last pending item's `next`. */
    var tailptr: Slot
    /** Head of the free list. */
    var free: Option<ItemId>
    /** Number of items in the pending list. */
    var items: int
    /** Someone is blocked in `Wait`. */
    var waiting: bool
    /** The worker threads should exit. */
    var exiting: bool
    /** Number of worker threads. */
    const threads: nat
    /** Creation flags. */
    const flags: bv32
    /** One record per worker thread, plus one for the calling thread. */
    const thread: array<ThreadInfo>
    /** Whether the manual-reset "all done" event is signalled. */
    var doneSignalled: bool

    /** Every item the queue has allocated: its fields other than `next`. */
    var arena: map<ItemId, WorkItem<Queue>>
    /** The `next` field of every allocated item. */
    var next: map<ItemId, Option<ItemId>>
    /** The id the next allocation returns. */
    var nextFresh: nat

    /** The bookkeeping the fields represent: the items, the pending list
        head first, the free list top first, and the next fresh id. */
    ghost var st: State<Queue>

    /** What holds whenever nobody is inside a queue operation: the lock is
        free, the item memory and the allocation counter are those of `st`,
        `items` counts the pending list, and the fields represent `st`. */
    ghost predicate ValidCore()
      reads this, lock, lock.slot
    {
      && lock.Valid() && lock.IsFree()
      && threads <= MaxThreads && thread.Length == threads + 1
      && arena == st.items && nextFresh == st.nextFresh
      && items == |st.pending|
      && PendingAllocated(st) && FreeAllocated(st)
      && Rep(st, this, list, tailptr, free, items, next)
    }

    /** ... and between calls from the queue's user: nobody is waiting, and a
        queue without threads has nothing pending (it runs every batch before
        the submission returns). */
    ghost predicate Valid()
      reads this, lock, lock.slot
    {
      ValidCore() && !waiting && (threads == 0 ==> st.pending == [])
    }

    /** osd_work_queue_alloc, with the processor count as an argument: the
        lists are empty with the tail pointer at `list`, the "all done" event
        starts signalled, the lock is initialised, and the thread count follows
        the policy, with one record more than threads, all inactive. Thread
        creation is not modelled. */
    constructor (numprocs: int, flags: bv32)
      requires IsInt32(numprocs) && numprocs != -TwoTo31
      ensures Valid()
      ensures fresh(lock) && fresh(lock.slot) && fresh(thread)
      ensures lock.nextindex == 0 && forall i | 0 <= i < MaxThreads :: lock.slot[i] == (i == 0)
      ensures this.flags == flags && threads == ThreadCount(numprocs, flags)
      ensures thread.Length == threads + 1
      ensures forall i | 0 <= i < thread.Length :: !thread[i].active
      ensures list == None && free == None && tailptr == Head && items == 0
      ensures st == Empty()
      ensures doneSignalled && !waiting && !exiting
    {
      list := None;
      free := None;
      items := 0;
      waiting := false;
      exiting := false;
      tailptr := Head;
      this.flags := flags;
      doneSignalled := true;
      lock := new Lock();
      var n := ThreadCount(numprocs, flags);
      threads := n;
      thread := new ThreadInfo[n + 1](_ => ThreadInfo(false));
      arena := map[];
      next := map[];
      nextFresh := 0;
      st := Empty();
      new;
      RepEmpty(this);
    }

    /** osd_work_queue_items: the number of pending items. */
    function Items(): (n: int)
      reads this, lock, lock.slot
      requires Valid()
      ensures n == |st.pending|
      ensures threads == 0 ==> n == 0
    {
      items
    }

    /** osd_work_item_result: the stored result, which is the callback's value
        for the item's parameter once the item is done, and NULL before. */
    function ItemResult(id: ItemId): (r: Ptr)
      reads this, lock, lock.slot
      requires ValidCore() && id in arena
      ensures arena[id].done ==> r == arena[id].callback(arena[id].param)
      ensures !arena[id].done ==> r == NULL
    {
      RepItem(st, this, list, tailptr, free, items, next, id);
      arena[id].result
    }

    /** The push of osd_work_item_release: the item's `next` is pointed at the
        top of the free list and the item becomes the top. The item must be
        done and not on the free list already. */
    method PushFree(id: ItemId)
      requires ValidCore() && id in arena && arena[id].done && id !in st.freeList
      modifies this
      ensures ValidCore()
      ensures st == Release(old(st), id)
      ensures free == Some(id) && next == old(next)[id := old(free)]
      ensures list == old(list) && tailptr == old(tailptr) && items == old(items)
      ensures waiting == old(waiting) && exiting == old(exiting) && doneSignalled == old(doneSignalled)
    {
      RepRelease(st, this, list, tailptr, free, items, next, id);
      next := next[id := free];
      free := Some(id);
      st := Release(st, id);
    }

    /** worker_thread_process: take items off the head of the pending list
        under the lock and run them until none is left; each is given its
        callback's result and marked done, then released if it is an
        auto-release item, else its event (if any) is signalled. When someone
        is waiting, the "all done" event is signalled at the end. */
    method Process()
      requires ValidCore()
      modifies this, lock, lock.slot
      ensures ValidCore()
      ensures st == Drain(old(st))
      ensures list == None && tailptr == Head && items == 0
      ensures waiting == old(waiting) && exiting == old(exiting)
      ensures doneSignalled == (old(doneSignalled) || waiting)
    {
      while items != 0
        invariant ValidCore()
        invariant Drain(st) == Drain(old(st))
        invariant waiting == old(waiting) && exiting == old(exiting) && doneSignalled == old(doneSignalled)
        decreases items
      {
        ProcessNext();
      }
      RepIdle(st, this, list, tailptr, free, items, next);
      if waiting {
        doneSignalled := true;
      }
    }

    /** One round of worker_thread_process's loop, with items pending: take
        the head item and run it, then release it if it is an auto-release
        item, else signal its event (if any). */
    method ProcessNext()
      requires ValidCore() && items != 0
      modifies this, lock, lock.slot
      ensures ValidCore()
      ensures old(st).pending != [] && old(st).pending[0] in old(st).items
      ensures st == Complete(old(st).(pending := old(st).pending[1..]), old(st).pending[0])
      ensures items == old(items) - 1
      ensures waiting == old(waiting) && exiting == old(exiting) && doneSignalled == old(doneSignalled)
    {
      ghost var s := st;
      var id, it := TakeAndRun();
      CompleteSteps(s);
      if IsAutoRelease(it.flags) {
        // osd_work_item_release: its wait returns at once, the item being done
        PushFree(id);
      } else if it.event != None {
        RepEvent(st, this, list, tailptr, free, items, next, id, Signal(it.event));
        arena := arena[id := arena[id].(event := Signal(it.event))];
        st := st.(items := st.items[id := st.items[id].(event := Signal(it.event))]);
      }
    }

    /** The first half of a round: pull the head item off the list under the
        lock (resetting the tail pointer when the list becomes empty), call
        its callback and stash the result, count it off and mark it done. */
    method TakeAndRun() returns (id: ItemId, it: WorkItem<Queue>)
      requires ValidCore() && items != 0
      modifies this, lock, lock.slot
      ensures ValidCore()
      ensures old(st).pending != [] && id == old(st).pending[0] && id in old(arena)
      ensures it == old(arena)[id] && st == PopRun(old(st))
      ensures id in arena && arena[id].done && id !in st.freeList
      ensures items == old(items) - 1
      ensures waiting == old(waiting) && exiting == old(exiting) && doneSignalled == old(doneSignalled)
    {
      ghost var s := st;
      RepPopRun(s, this, list, tailptr, free, items, next);
      // with nobody else inside, the list holds the `items` pending items
      var myslot := lock.Acquire();
      var item := list;
      id := item.value;
      list := next[id];
      if list == None {
        tailptr := Head;
      }
      lock.Release(myslot);
      it := arena[id];
      var ran := it.(result := it.callback(it.param), done := true);
      items := items - 1;
      arena := arena[id := ran];
      st := PopRun(s);
    }
 
    /** osd_work_queue_wait: TRUE at once without threads or without pending
        items; a MULTI queue helps by processing the queue on the calling
        thread and returns TRUE; otherwise the "all done" event is reset, the
        caller waits with `waiting` set, and the result says whether the
        queue emptied. */
    method Wait(workersDone: bool) returns (ok: bool)
      requires Valid()
      modifies this, lock, lock.slot
      ensures Valid()
      ensures ok == (threads == 0 || old(items) == 0 || IsMulti(flags) || workersDone)
      ensures st == if threads != 0 && old(items) != 0 && (IsMulti(flags) || workersDone) then Drain(old(st)) else old(st)
      ensures doneSignalled == if threads == 0 || old(items) == 0 || IsMulti(flags) then old(doneSignalled) else workersDone
      ensures exiting == old(exiting)
    {
      if threads == 0 {
        return true;
      }
      if items == 0 {
        return true;
      }
      if IsMulti(flags) {
        Process();
        return true;
      }
      doneSignalled := false;
      waiting := true;
      if items != 0 && workersDone {
        // the workers empty the queue and signal the event before the timeout
        Process();
      }
      waiting := false;
      ok := items == 0;
    }

    /** osd_work_item_wait: TRUE at once for a done item; otherwise the
        item's event is created (the allocation may fail) or reset, and the
        caller waits until the item is done or the timeout, returning whether
        it is done. */
    method ItemWait(id: ItemId, newEvent: Option<EventHandle>, workersDone: bool) returns (ok: bool)
      requires Valid() && id in arena
      modifies this, lock, lock.slot
      ensures Valid()
      ensures ok == (old(arena)[id].done || workersDone)
      ensures st == if old(arena)[id].done then old(st)
                    else if workersDone then Drain(WaitItem(old(st), id, newEvent))
                    else WaitItem(old(st), id, newEvent)
      ensures id in arena && (arena[id].done <==> ok)
      ensures id !in old(st).freeList && !IsAutoRelease(old(arena)[id].flags) ==> id !in st.freeList
      ensures doneSignalled == old(doneSignalled) && exiting == old(exiting)
    {
      if arena[id].done {
        return true;
      }
      var e := ArmEvent(arena[id].event, newEvent);
      RepEvent(st, this, list, tailptr, free, items, next, id, e);
      arena := arena[id := arena[id].(event := e)];
      st := st.(items := st.items[id := st.items[id].(event := e)]);
      RepItem(st, this, list, tailptr, free, items, next, id);
      // with or without an event, the wait ends once the workers have run the item
      if workersDone {
        RepDrain(st, this, list, tailptr, free, items, next, id);
        Process();
      }
      ok := arena[id].done;
    }

    /** osd_work_item_release: wait for the item, then push it on the free
        list. The item must not be on the free list already, and an item still
        pending must be one the caller owns (not auto-release) and one the
        workers finish within the wait. */
    method ItemRelease(id: ItemId, newEvent: Option<EventHandle>, workersDone: bool)
      requires Valid() && id in arena && id !in st.freeList
      requires !arena[id].done ==> workersDone && !IsAutoRelease(arena[id].flags)
      modifies this, lock, lock.slot
      ensures Valid()
      ensures st == Release(if old(arena)[id].done then old(st) else Drain(WaitItem(old(st), id, newEvent)), id)
      ensures free == Some(id)
      ensures doneSignalled == old(doneSignalled) && exiting == old(exiting)
    {
      var _ := ItemWait(id, newEvent, workersDone);
      PushFree(id);
    }
 
    /** osd_work_item_queue_multiple: build a local list of `numitems` items
        (each popped off the free list, else freshly allocated with no event
        and this queue as owner; then reset with the callback, the next
        parameter and the flags), splice it on at the tail pointer under the
        lock, count the items in, and run the queue on the calling thread if
        there are no worker threads. The result is the first item of the
        batch, or none for auto-release items. A call with no items returns
        none and changes nothing (see SpliceEmptyBatchBreaksRep for what the
        code as written does then). */
    method QueueMultiple(callback: Callback, numitems: int, parambase: Ptr, paramstep: int, itemFlags: bv32)
      returns (r: Option<ItemId>)
      requires Valid()
      requires IsInt32(numitems) && IsInt32(paramstep)
      modifies this, lock, lock.slot
      ensures Valid()
      ensures numitems <= 0 ==> st == old(st) && r == None
      ensures numitems >= 1 ==>
                var spliced := SubmitFrom(old(st), this, callback, numitems, parambase, paramstep, itemFlags);
                st == if threads == 0 then Drain(spliced) else spliced
      ensures numitems >= 1 ==>
                r == if IsAutoRelease(itemFlags) then None
                     else Some(BatchIds(old(st).freeList, old(st).nextFresh, numitems)[0])
      ensures doneSignalled == old(doneSignalled) && exiting == old(exiting)
    {
      if numitems <= 0 {
        return None;
      }
      ghost var s0 := st;
      var itemlist, itemTail, batch := BuildBatch(callback, numitems, parambase, paramstep, itemFlags);
      SubmitFromPending(s0, this, callback, numitems, parambase, paramstep, itemFlags);
      Splice(itemlist, itemTail, s0.pending, batch);
      assert batch == BatchIds(s0.freeList, s0.nextFresh, numitems) by {
        assert batch == st.pending[|s0.pending|..];
      }
      items := items + numitems;
      if threads == 0 {
        Process();
      }
      r := if IsAutoRelease(itemFlags) then None else itemlist;
    }

    /** The splice of osd_work_item_queue_multiple: under the lock, store the
        local list through the queue's tail pointer and move the tail pointer
        to the local list's tail. The pending count is not updated yet. */
    method Splice(itemlist: Option<ItemId>, itemTail: Slot, ghost p0: seq<ItemId>, ghost batch: seq<ItemId>)
      requires lock.Valid() && lock.IsFree() && batch != []
      requires BuildRep(st, this, list, tailptr, free, items, next, p0, batch, itemlist, itemTail)
      modifies this, lock, lock.slot
      ensures lock.Valid() && lock.IsFree()
      ensures st.pending == p0 + batch && itemlist == Some(batch[0])
      ensures Rep(st, this, list, tailptr, free, items + |batch|, next)
      ensures tailptr == itemTail
      ensures st == old(st) && arena == old(arena) && nextFresh == old(nextFresh) && items == old(items)
      ensures waiting == old(waiting) && exiting == old(exiting) && doneSignalled == old(doneSignalled)
    {
      RepSplice(st, this, list, tailptr, free, items, next, p0, batch, itemlist, itemTail);
      var myslot := lock.Acquire();
      if tailptr == Head {
        list := itemlist;
      } else {
        // never the local `itemlist` of a call: see SpliceEmptyBatchBreaksRep
        next := next[tailptr.id := itemlist];
      }
      tailptr := itemTail;
      lock.Release(myslot);
    }

    /** The loop of osd_work_item_queue_multiple that builds the local list:
        item `i` gets parameter `parambase + i * paramstep`. The queue's own
        list, tail pointer and count are not touched yet. */
    method BuildBatch(callback: Callback, numitems: int, parambase: Ptr, paramstep: int, itemFlags: bv32)
      returns (itemlist: Option<ItemId>, itemTail: Slot, ghost batch: seq<ItemId>)
      requires ValidCore() && numitems >= 1
      modifies this
      ensures |batch| == numitems
      ensures st == SubmitFrom(old(st), this, callback, numitems, parambase, paramstep, itemFlags)
      ensures FreeAllocated(st) && PendingAllocated(st)
      ensures arena == st.items && nextFresh == st.nextFresh
      ensures BuildRep(st, this, list, tailptr, free, items, next, old(st).pending, batch, itemlist, itemTail)
      ensures list == old(list) && tailptr == old(tailptr) && items == old(items)
      ensures waiting == old(waiting) && exiting == old(exiting) && doneSignalled == old(doneSignalled)
    {
      ghost var s0 := st;
      itemlist := None;
      itemTail := Local;
      var param := parambase;
      batch := [];
      RepBuildStart(st, this, list, tailptr, free, items, next);
      var itemnum := 0;
      while itemnum < numitems
        invariant 0 <= itemnum <= numitems && |batch| == itemnum
        invariant st == SubmitFrom(s0, this, callback, itemnum, parambase, paramstep, itemFlags)
        invariant param == parambase + itemnum * paramstep
        invariant FreeAllocated(st) && PendingAllocated(st)
        invariant arena == st.items && nextFresh == st.nextFresh
        invariant BuildRep(st, this, list, tailptr, free, items, next, s0.pending, batch, itemlist, itemTail)
        invariant list == old(list) && tailptr == old(tailptr) && items == old(items)
        invariant waiting == old(waiting) && exiting == old(exiting) && doneSignalled == old(doneSignalled)
      {
        SubmitFromSnoc(s0, this, callback, itemnum, parambase, paramstep, itemFlags);
        var id;
        id, itemlist := AddItem(callback, param, itemFlags, itemlist, itemTail, s0.pending, batch);
        itemTail := NextOf(id);
        batch := batch + [id];
        param := param + paramstep;
        itemnum := itemnum + 1;
      }
    }

    /** One round of the building loop: take an item off the free list, or
        allocate one with no event and this queue as owner; fill in the
        basics (clearing its `next`); and store it through the local tail
        pointer, which is the local list's head while the list is empty. */
    method AddItem(callback: Callback, param: Ptr, itemFlags: bv32, itemlist: Option<ItemId>, itemTail: Slot,
                   ghost p0: seq<ItemId>, ghost batch: seq<ItemId>)
      returns (id: ItemId, itemlist': Option<ItemId>)
      requires FreeAllocated(st) && arena == st.items && nextFresh == st.nextFresh
      requires BuildRep(st, this, list, tailptr, free, items, next, p0, batch, itemlist, itemTail)
      modifies this
      ensures id == NextId(old(st))
      ensures st == SubmitOne(old(st), this, callback, param, itemFlags)
      ensures arena == st.items && nextFresh == st.nextFresh
      ensures BuildRep(st, this, list, tailptr, free, items, next, p0, batch + [id], itemlist', NextOf(id))
      ensures itemlist' == StoreLocal(itemlist, itemTail, Some(id))
      ensures list == old(list) && tailptr == old(tailptr) && items == old(items)
      ensures waiting == old(waiting) && exiting == old(exiting) && doneSignalled == old(doneSignalled)
    {
      RepBuildAdd(st, this, list, tailptr, free, items, next, p0, batch, itemlist, itemTail,
                  callback, param, itemFlags);
      if free != None {
        id := free.value;
        free := next[id];
        arena := arena[id := Reset(arena[id], callback, param, itemFlags)];
      } else {
        id := nextFresh;
        nextFresh := nextFresh + 1;
        arena := arena[id := Fresh(this, callback, param, itemFlags)];
      }
      // *item_tailptr = item
      itemlist' := itemlist;
      if itemTail == Local {
        itemlist' := Some(id);
        next := next[id := None];
      } else {
        next := next[id := None][itemTail.id := Some(id)];
      }
      st := SubmitOne(st, this, callback, param, itemFlags);
    }

    /** osd_work_queue_free, less the thread and event handles: tell the
        threads to exit, then free every item on the free list and then every
        item still on the pending list, each with its event. The handles of
        the freed events are returned in the order they are freed. */
    method Free() returns (events: seq<EventHandle>)
      requires ValidCore()
      modifies this
      ensures exiting == (old(exiting) || threads > 0)
      ensures free == None && list == None
      ensures items == old(items) && tailptr == old(tailptr) && st == old(st)
      ensures waiting == old(waiting) && doneSignalled == old(doneSignalled) && nextFresh == old(nextFresh)
      ensures var all := old(st).freeList + old(st).pending;
              && (forall x | x in all :: x in old(arena))
              && events == EventsOf(old(arena), all)
              && arena == old(arena) - Ids(all)
              && next == old(next) - Ids(all)
    {
      if threads > 0 {
        exiting := true;
      }
      RepLists(st, this, list, tailptr, free, items, next);
      assert arena - Ids([]) == arena && next - Ids([]) == next;
      ghost var fl, p := st.freeList, st.pending;
      ghost var gone;
      events, gone := FreeFreeList(arena, next, fl, p);
      events, gone := FreeActiveList(old(arena), old(next), gone, p, events);
    }

    /** The fields teardown leaves alone. */
    ghost function Untouched(): (int, Slot, State<Queue>, bool, bool, nat)
      reads this
    {
      (items, tailptr, st, waiting, doneSignalled, nextFresh)
    }

    /** The first loop of osd_work_queue_free: free the items of the free
        list, top first, until the list is empty. `a0` and `n0` are the item
        memory before teardown. */
    method FreeFreeList(ghost a0: map<ItemId, WorkItem<Queue>>, ghost n0: map<ItemId, Option<ItemId>>,
                        ghost fl: seq<ItemId>, ghost p: seq<ItemId>)
      returns (events: seq<EventHandle>, ghost gone: seq<ItemId>)
      requires NoRepeats(fl + p) && a0.Keys == n0.Keys
      requires Linked(next, free, fl) && Linked(next, list, p)
      requires arena == a0 - Ids([]) && next == n0 - Ids([])
      modifies this
      ensures gone == fl && free == None && list == old(list) && exiting == old(exiting)
      ensures Untouched() == old(Untouched())
      ensures Linked(next, list, p) && NoRepeats(p)
      ensures (forall x | x in gone :: x in a0)
      ensures arena == a0 - Ids(gone) && next == n0 - Ids(gone)
      ensures events == EventsOf(a0, gone)
    {
      events := [];
      gone := [];
      ghost var rest := fl;
      while free != None
        invariant gone + rest == fl && NoRepeats(rest + p)
        invariant Linked(next, free, rest) && Linked(next, list, p)
        invariant forall x | x in gone :: x in a0
        invariant arena == a0 - Ids(gone) && next == n0 - Ids(gone)
        invariant events == EventsOf(a0, gone)
        invariant list == old(list) && exiting == old(exiting)
        invariant Untouched() == old(Untouched())
        decreases |rest|
      {
        NoRepeatsPop(gone, rest, p);
        LinkedFreeHead(next, free, rest, list, p);
        var id := free.value;
        free := next[id];
        var handles := FreeItem(id, a0, n0, gone);
        events := events + handles;
        gone := gone + [id];
        rest := rest[1..];
      }
      assert rest + p == p;
    }

    /** The second loop of osd_work_queue_free: free the items still on the
        pending list, head first, until the list is empty. */
    method FreeActiveList(ghost a0: map<ItemId, WorkItem<Queue>>, ghost n0: map<ItemId, Option<ItemId>>,
                          ghost gone0: seq<ItemId>, ghost p: seq<ItemId>, events0: seq<EventHandle>)
      returns (events: seq<EventHandle>, ghost gone: seq<ItemId>)
      requires NoRepeats(p) && a0.Keys == n0.Keys && forall x | x in gone0 :: x in a0
      requires Linked(next, list, p)
      requires arena == a0 - Ids(gone0) && next == n0 - Ids(gone0)
      requires events0 == EventsOf(a0, gone0)
      modifies this
      ensures gone == gone0 + p && (forall x | x in gone :: x in a0)
      ensures list == None && free == old(free) && exiting == old(exiting)
      ensures Untouched() == old(Untouched())
      ensures arena == a0 - Ids(gone) && next == n0 - Ids(gone)
      ensures events == EventsOf(a0, gone)
    {
      events := events0;
      gone := gone0;
      ghost var rest := p;
      while list != None
        invariant gone + rest == gone0 + p && NoRepeats(rest)
        invariant Linked(next, list, rest)
        invariant forall x | x in gone :: x in a0
        invariant arena == a0 - Ids(gone) && next == n0 - Ids(gone)
        invariant events == EventsOf(a0, gone)
        invariant free == old(free) && exiting == old(exiting)
        invariant Untouched() == old(Untouched())
        decreases |rest|
      {
        assert rest + [] == rest;
        NoRepeatsPop(gone, rest, []);
        LinkedFreeHead(next, list, rest, None, []);
        var id := list.value;
        list := next[id];
        var handles := FreeItem(id, a0, n0, gone);
        events := events + handles;
        gone := gone + [id];
        rest := rest[1..];
      }
      assert gone == gone + rest;
    }

    /** Freeing one item of teardown: its event (if it has one) and its
        memory. `gone` are the items freed before it. */
    method FreeItem(id: ItemId, ghost a0: map<ItemId, WorkItem<Queue>>, ghost n0: map<ItemId, Option<ItemId>>,
                    ghost gone: seq<ItemId>)
      returns (handles: seq<EventHandle>)
      requires id in next && a0.Keys == n0.Keys && forall x | x in gone :: x in a0
      requires arena == a0 - Ids(gone) && next == n0 - Ids(gone)
      modifies this
      ensures id in a0
      ensures arena == a0 - Ids(gone + [id]) && next == n0 - Ids(gone + [id])
      ensures next == old(next) - {id}
      ensures EventsOf(a0, gone + [id]) == EventsOf(a0, gone) + handles
      ensures free == old(free) && list == old(list) && exiting == old(exiting)
      ensures Untouched() == old(Untouched())
    {
      handles := match arena[id].event case None => [] case Some(e) => [e.handle];
      EventsOfStep(a0, gone, id);
      WithoutStep(a0, gone, id);
      WithoutStep(n0, gone, id);
      arena := arena - {id};
      next := next - {id};
    }
  }
}
