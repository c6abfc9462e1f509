/** How the queue's fields represent its bookkeeping, and how each step of
    the queue's operations keeps that representation. The fields are passed
    as values: `list`, `tailptr`, `free`, `items` and `next` of the queue, and
    `s` the bookkeeping they stand for. */
module QueueRep {
  import opened QueueConfig
  import opened WorkSpec
  import opened WorkProperties
  import opened ItemLists

  /** The fields represent `s`: following `next` from `list` visits the
      pending list and from `free` the free list, the tail pointer is the
      pending list's tail, `items` counts the pending list, every allocated
      item has a `next` field and belongs to queue `q`, and the bookkeeping
      keeps its invariant. */
  ghost predicate Good<Q>(s: State<Q>, q: Q, list: Option<ItemId>, tailptr: Slot, free: Option<ItemId>,
                          items: int, next: map<ItemId, Option<ItemId>>) {
    && Inv(s)
    && next.Keys == s.items.Keys
    && Linked(next, list, s.pending)
    && Linked(next, free, s.freeList)
    && tailptr == TailOf(s.pending)
    && items == |s.pending|
    && (forall x | x in s.items :: s.items[x].queue == q)
  }

  /** Pushing a done item that is on neither list onto the free list. */
  lemma GoodRelease<Q>(s: State<Q>, q: Q, list: Option<ItemId>, tailptr: Slot, free: Option<ItemId>,
                       items: int, next: map<ItemId, Option<ItemId>>, id: ItemId)
    requires Good(s, q, list, tailptr, free, items, next)
    requires id in s.items && id !in s.pending && id !in s.freeList
    ensures Good(Release(s, id), q, list, tailptr, Some(id), items, next[id := free])
  {
    InvRelease(s, id);
    LinkedPush(next, free, s.freeList, id);
    LinkedFrame(next, next[id := free], list, s.pending);
  }

  /** The bookkeeping once the head of the pending list is taken off and run. */
  function PopRun<Q>(s: State<Q>): State<Q>
    requires s.pending != [] && s.pending[0] in s.items
  {
    var id := s.pending[0];
    s.(pending := s.pending[1..], items := s.items[id := Ran(s.items[id])], ran := s.ran + [id])
  }

  /** With items pending, the head of the list is the first pending item;
      popping it (resetting the tail pointer when the list becomes empty) and
      running it keeps the representation. */
  lemma GoodPopRun<Q>(s: State<Q>, q: Q, list: Option<ItemId>, tailptr: Slot, free: Option<ItemId>,
                      items: int, next: map<ItemId, Option<ItemId>>)
    requires Good(s, q, list, tailptr, free, items, next) && items != 0
    ensures s.pending != [] && s.pending[0] in s.items && s.pending[0] in next
    ensures list == Some(s.pending[0])
    ensures var list' := next[s.pending[0]];
            Good(PopRun(s), q, list', if list' == None then Head else tailptr, free, items - 1, next)
  {
    LinkedPop(next, list, s.pending);
    ListsOkPopRun(s);
    ItemsOkPopRun(s);
    PopRunShape(s, next[s.pending[0]], tailptr);
  }

  /** Popping keeps the set of allocated items and each item's owner; the
      tail pointer stays unless the list empties, when it goes back to the
      head field. */
  lemma PopRunShape<Q>(s: State<Q>, list': Option<ItemId>, tailptr: Slot)
    requires s.pending != [] && s.pending[0] in s.items
    requires tailptr == TailOf(s.pending) && list' == First(s.pending[1..])
    ensures PopRun(s).items.Keys == s.items.Keys
    ensures forall x | x in PopRun(s).items :: PopRun(s).items[x].queue == s.items[x].queue
    ensures (if list' == None then Head else tailptr) == TailOf(PopRun(s).pending)
  {
    var r := PopRun(s);
    assert r.pending != [] ==> r.pending[|r.pending| - 1] == s.pending[|s.pending| - 1];
  }

  /** Taking the head off the pending list keeps both lists apart and
      without repeats. */
  lemma ListsOkPopRun<Q>(s: State<Q>)
    requires ListsOk(s) && s.pending != []
    ensures ListsOk(PopRun(s))
  {
    var r := PopRun(s);
    assert forall x | x in r.pending :: x in s.pending;
    forall i, j | 0 <= i < j < |r.pending| ensures r.pending[i] != r.pending[j] {
      assert r.pending[i] == s.pending[i + 1] && r.pending[j] == s.pending[j + 1];
    }
  }

  /** Running the head of the pending list makes it the one item that
      changes from pending to done, with its callback's result. */
  lemma ItemsOkPopRun<Q>(s: State<Q>)
    requires Inv(s) && s.pending != []
    ensures ItemsOk(PopRun(s))
  {
    var id := s.pending[0];
    var r := PopRun(s);
    forall x | x in r.items
      ensures r.items[x].done <==> x !in r.pending
      ensures Settled(r.items[x])
    {
      if x == id {
        forall i | 0 <= i < |r.pending| ensures r.pending[i] != id {
          assert r.pending[i] == s.pending[i + 1];
        }
      } else if x in s.pending {
        var i :| 0 <= i < |s.pending| && s.pending[i] == x;
        assert i != 0 && r.pending[i - 1] == x;
      }
    }
  }

  /** Giving an item another event keeps the representation. */
  lemma GoodEvent<Q>(s: State<Q>, q: Q, list: Option<ItemId>, tailptr: Slot, free: Option<ItemId>,
                     items: int, next: map<ItemId, Option<ItemId>>, id: ItemId, e: Option<Event>)
    requires Good(s, q, list, tailptr, free, items, next) && id in s.items
    ensures Good(s.(items := s.items[id := s.items[id].(event := e)]), q, list, tailptr, free, items, next)
  {
    var it := s.items[id];
    var it' := it.(event := e);
    assert it'.done == it.done && it'.result == it.result && it'.callback == it.callback && it'.param == it.param;
    var r := s.(items := s.items[id := it']);
    assert r.items.Keys == s.items.Keys;
    assert ListsOk(r);
    assert ItemsOk(r) by {
      forall x | x in r.items
        ensures r.items[x].done <==> x !in r.pending
        ensures Settled(r.items[x])
      {
        if x != id {
          assert r.items[x] == s.items[x];
        }
      }
    }
  }

  /** Running the first pending item and then releasing it, or signalling its
      event, is the step a drain takes. */
  lemma CompleteSteps<Q>(s: State<Q>)
    requires s.pending != [] && s.pending[0] in s.items
    ensures var id := s.pending[0];
            var r := PopRun(s);
            Complete(s.(pending := s.pending[1..]), id) ==
              if IsAutoRelease(s.items[id].flags) then Release(r, id)
              else r.(items := r.items[id := r.items[id].(event := Signal(s.items[id].event))])
  {
  }

  // ------------------------------------------------------------------
  // Building and splicing a batch (osd_work_item_queue_multiple)
  // ------------------------------------------------------------------

  /** The state while a batch is being built: `s` has the batch appended to
      the pending list `p0` already, but the queue's list still holds `p0`
      only and the batch sits on the local list from `itemlist`, whose tail
      pointer is `itemTail` (the `itemlist` variable itself while the batch is
      empty). */
  ghost predicate Building<Q>(s: State<Q>, q: Q, list: Option<ItemId>, tailptr: Slot, free: Option<ItemId>,
                              items: int, next: map<ItemId, Option<ItemId>>,
                              p0: seq<ItemId>, batch: seq<ItemId>, itemlist: Option<ItemId>, itemTail: Slot) {
    && Staged(s, q, next, p0, batch)
    && Linked(next, list, p0)
    && tailptr == TailOf(p0)
    && items == |p0|
    && Linked(next, free, s.freeList)
    && Linked(next, itemlist, batch)
    && itemTail == LocalTail(batch)
  }

  /** The bookkeeping part of `Building`. */
  ghost predicate Staged<Q>(s: State<Q>, q: Q, next: map<ItemId, Option<ItemId>>, p0: seq<ItemId>, batch: seq<ItemId>) {
    && Inv(s)
    && next.Keys == s.items.Keys
    && s.pending == p0 + batch
    && (forall x | x in s.items :: s.items[x].queue == q)
  }

  /** Before the first item, the batch is empty and the local list too, and
      the local tail pointer is the address of `itemlist`. */
  lemma BuildingStart<Q>(s: State<Q>, q: Q, list: Option<ItemId>, tailptr: Slot, free: Option<ItemId>,
                         items: int, next: map<ItemId, Option<ItemId>>)
    requires Good(s, q, list, tailptr, free, items, next)
    ensures Building(s, q, list, tailptr, free, items, next, s.pending, [], None, Local)
  {
    assert s.pending + [] == s.pending;
  }

  /** The id the next item of a batch gets: the top of the free list, else a
      fresh one. */
  function NextId<Q>(s: State<Q>): ItemId {
    if s.freeList != [] then s.freeList[0] else s.nextFresh
  }

  /** Adding one item to the batch: it is popped off the free list (whose
      head becomes the popped item's `next`) or freshly allocated, its `next`
      is cleared, it is stored through the local tail pointer and the tail
      pointer moves to its `next`. */
  lemma BuildingAdd<Q>(s: State<Q>, q: Q, list: Option<ItemId>, tailptr: Slot, free: Option<ItemId>,
                       items: int, next: map<ItemId, Option<ItemId>>,
                       p0: seq<ItemId>, batch: seq<ItemId>, itemlist: Option<ItemId>, itemTail: Slot,
                       cb: Callback, param: Ptr, flags: bv32)
    requires Building(s, q, list, tailptr, free, items, next, p0, batch, itemlist, itemTail)
    ensures free == First(s.freeList)
    ensures s.freeList != [] ==> s.freeList[0] in next
    ensures var id := NextId(s);
            var free' := if s.freeList != [] then next[id] else free;
            Building(SubmitOne(s, q, cb, param, flags), q, list, tailptr, free', items,
                     StoreNext(next[id := None], itemTail, Some(id)),
                     p0, batch + [id], StoreLocal(itemlist, itemTail, Some(id)), NextOf(id))
  {
    var id := NextId(s);
    var free' := if s.freeList != [] then next[id] else free;
    InvSubmitFrom(s, q, cb, 1, param, 0, flags);
    assert SubmitFrom(s, q, cb, 1, param, 0, flags) == SubmitOne(s, q, cb, param, flags);
    NextIdFacts(s, next, free);
    BatchPart(s, p0, batch);
    StagedAdd(s, q, next, p0, batch, cb, param, flags);
    LinksAppend(next, list, p0, free', SubmitOne(s, q, cb, param, flags).freeList, itemlist, batch, id);
    LocalTailStores(next[id := None], itemlist, batch, Some(id));
  }

  /** The bookkeeping side of adding an item to the batch. */
  lemma StagedAdd<Q>(s: State<Q>, q: Q, next: map<ItemId, Option<ItemId>>, p0: seq<ItemId>, batch: seq<ItemId>,
                     cb: Callback, param: Ptr, flags: bv32)
    requires Staged(s, q, next, p0, batch)
    requires Inv(SubmitOne(s, q, cb, param, flags))
    requires s.freeList == [] ==> NextId(s) !in s.items
    ensures var id := NextId(s);
            Staged(SubmitOne(s, q, cb, param, flags), q, StoreNext(next[id := None], TailOf(batch), Some(id)),
                   p0, batch + [id])
  {
    var r := SubmitOne(s, q, cb, param, flags);
    var id := NextId(s);
    assert r.pending == s.pending + [id];
    ConcatAssoc(p0, batch, [id]);
    if batch != [] {
      assert batch[|batch| - 1] in s.pending;
    }
    assert r.items.Keys == next[id := None].Keys;
  }

  /** The next id of a batch is neither pending nor left on the free list;
      taken from the free list, it was its head. */
  lemma NextIdFacts<Q>(s: State<Q>, next: map<ItemId, Option<ItemId>>, free: Option<ItemId>)
    requires ListsOk(s) && Linked(next, free, s.freeList)
    ensures NextId(s) !in s.pending
    ensures s.freeList != [] ==> && s.freeList[0] in next
                                 && NextId(s) !in s.freeList[1..]
                                 && Linked(next, next[s.freeList[0]], s.freeList[1..])
    ensures s.freeList == [] ==> NextId(s) !in s.items
  {
    if s.freeList != [] {
      LinkedPop(next, free, s.freeList);
      assert s.freeList[0] in s.freeList;
      forall j | 0 <= j < |s.freeList| - 1 ensures s.freeList[1..][j] != s.freeList[0] {
        assert s.freeList[1..][j] == s.freeList[j + 1];
      }
    }
  }

  /** The batch part of a pending list under construction is distinct, and
      its last item is neither in the part before nor on the free list. */
  lemma BatchPart<Q>(s: State<Q>, p0: seq<ItemId>, batch: seq<ItemId>)
    requires ListsOk(s) && s.pending == p0 + batch
    ensures Distinct(batch)
    ensures batch != [] ==> batch[|batch| - 1] !in p0 && batch[|batch| - 1] !in s.freeList
  {
    forall i, j | 0 <= i < j < |batch| ensures batch[i] != batch[j] {
      assert s.pending[|p0| + i] == batch[i] && s.pending[|p0| + j] == batch[j];
    }
    if batch != [] {
      var last := batch[|batch| - 1];
      assert s.pending[|p0| + |batch| - 1] == last;
      forall i | 0 <= i < |p0| ensures p0[i] != last {
        assert s.pending[i] == p0[i];
      }
    }
  }

  /** The splice as written, for a call with `numitems` <= 0: the building
      loop does not run, so the local list is empty and the local tail
      pointer is still the address of the caller's `itemlist` variable. The
      splice stores NULL through the queue's tail pointer and then makes that
      variable the queue's tail pointer, and the count changes by `numitems`.
      Whatever the queue held, the fields no longer represent the
      bookkeeping: the queue's tail pointer now names storage that dies with
      the call. */
  lemma SpliceEmptyBatchBreaksRep<Q>(s: State<Q>, q: Q, list: Option<ItemId>, tailptr: Slot, free: Option<ItemId>,
                                     items: int, next: map<ItemId, Option<ItemId>>, numitems: int)
    requires Good(s, q, list, tailptr, free, items, next)
    requires numitems <= 0
    ensures !Good(s, q, StoreHead(list, tailptr, None), Local, free, items + numitems, StoreNext(next, tailptr, None))
  {
  }

  /** What follows on a queue that was empty, the usual state of a queue
      without worker threads between calls: after an as-written call with
      `numitems` 0, the next submission of a batch of `n` >= 1 items stores
      the batch through the dead `itemlist` slot. The queue's list stays
      empty and no `next` field changes, while the count says `n` items are
      pending, so worker_thread_process, which loops while the count is not
      0 and finds nothing on the list, never returns. */
  lemma EmptyBatchLosesNextBatch<Q>(s: State<Q>, q: Q, list: Option<ItemId>, tailptr: Slot, free: Option<ItemId>,
                                    items: int, next: map<ItemId, Option<ItemId>>, itemlist: Option<ItemId>, n: int)
    requires Good(s, q, list, tailptr, free, items, next) && s.pending == []
    requires n >= 1
    ensures var list2 := StoreHead(StoreHead(list, tailptr, None), Local, itemlist);
            var next2 := StoreNext(StoreNext(next, tailptr, None), Local, itemlist);
            var items2 := items + 0 + n;
            list2 == None && next2 == next && items2 == n
  {
  }

  /** The batch has been built and is spliced on at the queue's tail pointer
      under the lock; the tail pointer moves to the batch's tail, and the
      pending count grows by the batch size. */
  lemma GoodSplice<Q>(s: State<Q>, q: Q, list: Option<ItemId>, tailptr: Slot, free: Option<ItemId>,
                      items: int, next: map<ItemId, Option<ItemId>>,
                      p0: seq<ItemId>, batch: seq<ItemId>, itemlist: Option<ItemId>, itemTail: Slot)
    requires Building(s, q, list, tailptr, free, items, next, p0, batch, itemlist, itemTail)
    requires batch != []
    ensures Good(s, q, StoreHead(list, tailptr, itemlist), itemTail, free, items + |batch|,
                 StoreNext(next, tailptr, itemlist))
  {
    var next' := StoreNext(next, tailptr, itemlist);
    assert Distinct(p0) by {
      forall i, j | 0 <= i < j < |p0| ensures p0[i] != p0[j] {
        assert s.pending[i] == p0[i] && s.pending[j] == p0[j];
      }
    }
    assert forall x | x in batch :: x !in p0 by {
      forall x | x in batch ensures x !in p0 {
        var j :| 0 <= j < |batch| && batch[j] == x;
        assert s.pending[|p0| + j] == x;
        forall i | 0 <= i < |p0| ensures p0[i] != x {
          assert s.pending[i] == p0[i];
        }
      }
    }
    LinkedConcat(next, list, p0, itemlist, batch);
    assert TailOf(p0 + batch) == itemTail;
    if p0 != [] {
      var last := p0[|p0| - 1];
      assert last in s.pending;
      forall x | x in s.freeList ensures x in next' && next'[x] == next[x] {
        assert x != last;
      }
      LinkedFrame(next, next', free, s.freeList);
    }
  }

  // ------------------------------------------------------------------
  // The representation as the queue holds it
  // ------------------------------------------------------------------

  /** `Good`, `depth` levels down. This and `SealedBuilding` are a sealing
      device for the solver, not part of the model: `Rep` and `BuildRep`
      mean exactly `Good` and `Building`. The solver unfolds a recursive
      predicate only a level or two by itself, so a method that holds the
      representation as `Rep` does not see `Good`'s quantifiers, which keeps
      the queue's methods cheap to verify. The `Rep...` lemmas below are
      plumbing: each opens the seal, takes one step proved on `Good` or
      `Building` above, and closes the seal again. */
  ghost predicate SealedGood<Q>(depth: nat, s: State<Q>, q: Q, list: Option<ItemId>, tailptr: Slot, free: Option<ItemId>,
                                items: int, next: map<ItemId, Option<ItemId>>)
    decreases depth
  {
    if depth == 0 then Good(s, q, list, tailptr, free, items, next)
    else SealedGood(depth - 1, s, q, list, tailptr, free, items, next)
  }

  /** The representation of the queue's bookkeeping, three levels down. The
      depth is written as a length so that the solver does not take it for a
      literal, which it would unfold without limit. */
  ghost predicate Rep<Q>(s: State<Q>, q: Q, list: Option<ItemId>, tailptr: Slot, free: Option<ItemId>,
                         items: int, next: map<ItemId, Option<ItemId>>) {
    SealedGood(|[s, s, s]|, s, q, list, tailptr, free, items, next)
  }

  lemma Open<Q>(s: State<Q>, q: Q, list: Option<ItemId>, tailptr: Slot, free: Option<ItemId>,
                items: int, next: map<ItemId, Option<ItemId>>)
    requires Rep(s, q, list, tailptr, free, items, next)
    ensures Good(s, q, list, tailptr, free, items, next)
  {
    assert SealedGood(3, s, q, list, tailptr, free, items, next);
  }

  lemma Close<Q>(s: State<Q>, q: Q, list: Option<ItemId>, tailptr: Slot, free: Option<ItemId>,
                 items: int, next: map<ItemId, Option<ItemId>>)
    requires Good(s, q, list, tailptr, free, items, next)
    ensures Rep(s, q, list, tailptr, free, items, next)
  {
    assert SealedGood(3, s, q, list, tailptr, free, items, next);
  }

  /** A new queue: nothing allocated, both lists empty, the tail pointer at
      the head field. */
  lemma RepEmpty<Q>(q: Q)
    ensures Rep(Empty(), q, None, Head, None, 0, map[])
  {
    Close(Empty(), q, None, Head, None, 0, map[]);
  }

  /** What the representation says of one item: it belongs to the queue,
      has a `next` field, holds its callback's result once done, and is done
      exactly when it is not pending. */
  lemma RepItem<Q>(s: State<Q>, q: Q, list: Option<ItemId>, tailptr: Slot, free: Option<ItemId>,
                   items: int, next: map<ItemId, Option<ItemId>>, id: ItemId)
    requires Rep(s, q, list, tailptr, free, items, next) && id in s.items
    ensures id in next && s.items[id].queue == q && Settled(s.items[id])
    ensures s.items[id].done <==> id !in s.pending
  {
    Open(s, q, list, tailptr, free, items, next);
  }

  /** With nothing pending, the list is empty and the tail pointer is back at
      the head field. */
  lemma RepIdle<Q>(s: State<Q>, q: Q, list: Option<ItemId>, tailptr: Slot, free: Option<ItemId>,
                   items: int, next: map<ItemId, Option<ItemId>>)
    requires Rep(s, q, list, tailptr, free, items, next) && s.pending == []
    ensures list == None && tailptr == Head
  {
    Open(s, q, list, tailptr, free, items, next);
  }

  lemma RepRelease<Q>(s: State<Q>, q: Q, list: Option<ItemId>, tailptr: Slot, free: Option<ItemId>,
                      items: int, next: map<ItemId, Option<ItemId>>, id: ItemId)
    requires Rep(s, q, list, tailptr, free, items, next)
    requires id in s.items && s.items[id].done && id !in s.freeList
    ensures Rep(Release(s, id), q, list, tailptr, Some(id), items, next[id := free])
  {
    Open(s, q, list, tailptr, free, items, next);
    GoodRelease(s, q, list, tailptr, free, items, next, id);
    Close(Release(s, id), q, list, tailptr, Some(id), items, next[id := free]);
  }

  lemma RepPopRun<Q>(s: State<Q>, q: Q, list: Option<ItemId>, tailptr: Slot, free: Option<ItemId>,
                     items: int, next: map<ItemId, Option<ItemId>>)
    requires Rep(s, q, list, tailptr, free, items, next) && items != 0
    ensures s.pending != [] && s.pending[0] in s.items && s.pending[0] in next
    ensures list == Some(s.pending[0]) && s.pending[0] !in s.freeList
    ensures var list' := next[s.pending[0]];
            Rep(PopRun(s), q, list', if list' == None then Head else tailptr, free, items - 1, next)
  {
    Open(s, q, list, tailptr, free, items, next);
    GoodPopRun(s, q, list, tailptr, free, items, next);
    var list' := next[s.pending[0]];
    assert s.pending[0] in s.pending;
    Close(PopRun(s), q, list', if list' == None then Head else tailptr, free, items - 1, next);
  }

  lemma RepEvent<Q>(s: State<Q>, q: Q, list: Option<ItemId>, tailptr: Slot, free: Option<ItemId>,
                    items: int, next: map<ItemId, Option<ItemId>>, id: ItemId, e: Option<Event>)
    requires Rep(s, q, list, tailptr, free, items, next) && id in s.items
    ensures Rep(s.(items := s.items[id := s.items[id].(event := e)]), q, list, tailptr, free, items, next)
  {
    Open(s, q, list, tailptr, free, items, next);
    GoodEvent(s, q, list, tailptr, free, items, next, id, e);
    Close(s.(items := s.items[id := s.items[id].(event := e)]), q, list, tailptr, free, items, next);
  }

  /** A drain leaves every item done, and leaves off the free list an item
      that was not on it and is not an auto-release item. */
  lemma RepDrain<Q>(s: State<Q>, q: Q, list: Option<ItemId>, tailptr: Slot, free: Option<ItemId>,
                    items: int, next: map<ItemId, Option<ItemId>>, id: ItemId)
    requires Rep(s, q, list, tailptr, free, items, next) && PendingAllocated(s) && id in s.items
    ensures id in Drain(s).items && Drain(s).items[id].done
    ensures id !in s.freeList && !IsAutoRelease(s.items[id].flags) ==> id !in Drain(s).freeList
  {
    Open(s, q, list, tailptr, free, items, next);
    InvDrain(s);
    DrainFreeList(s);
    AutoReleasedFlags(s.pending, s.items);
  }

  /** The same, with `Building` in place of `Good`. */
  ghost predicate SealedBuilding<Q>(depth: nat, s: State<Q>, q: Q, list: Option<ItemId>, tailptr: Slot, free: Option<ItemId>,
                                    items: int, next: map<ItemId, Option<ItemId>>,
                                    p0: seq<ItemId>, batch: seq<ItemId>, itemlist: Option<ItemId>, itemTail: Slot)
    decreases depth
  {
    if depth == 0 then Building(s, q, list, tailptr, free, items, next, p0, batch, itemlist, itemTail)
    else SealedBuilding(depth - 1, s, q, list, tailptr, free, items, next, p0, batch, itemlist, itemTail)
  }

  /** The representation while a batch is being built. */
  ghost predicate BuildRep<Q>(s: State<Q>, q: Q, list: Option<ItemId>, tailptr: Slot, free: Option<ItemId>,
                              items: int, next: map<ItemId, Option<ItemId>>,
                              p0: seq<ItemId>, batch: seq<ItemId>, itemlist: Option<ItemId>, itemTail: Slot) {
    SealedBuilding(|[s, s, s]|, s, q, list, tailptr, free, items, next, p0, batch, itemlist, itemTail)
  }

  lemma RepBuildStart<Q>(s: State<Q>, q: Q, list: Option<ItemId>, tailptr: Slot, free: Option<ItemId>,
                         items: int, next: map<ItemId, Option<ItemId>>)
    requires Rep(s, q, list, tailptr, free, items, next)
    ensures BuildRep(s, q, list, tailptr, free, items, next, s.pending, [], None, Local)
  {
    Open(s, q, list, tailptr, free, items, next);
    BuildingStart(s, q, list, tailptr, free, items, next);
    assert SealedBuilding(3, s, q, list, tailptr, free, items, next, s.pending, [], None, Local);
  }

  lemma RepBuildAdd<Q>(s: State<Q>, q: Q, list: Option<ItemId>, tailptr: Slot, free: Option<ItemId>,
                       items: int, next: map<ItemId, Option<ItemId>>,
                       p0: seq<ItemId>, batch: seq<ItemId>, itemlist: Option<ItemId>, itemTail: Slot,
                       cb: Callback, param: Ptr, flags: bv32)
    requires BuildRep(s, q, list, tailptr, free, items, next, p0, batch, itemlist, itemTail)
    requires FreeAllocated(s)
    ensures free == First(s.freeList)
    ensures s.freeList != [] ==> s.freeList[0] in next && s.freeList[0] in s.items
    ensures s.freeList == [] ==> s.nextFresh !in s.items
    ensures itemTail != Head
    ensures var id := NextId(s);
            var free' := if s.freeList != [] then next[id] else free;
            BuildRep(SubmitOne(s, q, cb, param, flags), q, list, tailptr, free', items,
                     StoreNext(next[id := None], itemTail, Some(id)),
                     p0, batch + [id], StoreLocal(itemlist, itemTail, Some(id)), NextOf(id))
  {
    assert SealedBuilding(3, s, q, list, tailptr, free, items, next, p0, batch, itemlist, itemTail);
    BuildingAdd(s, q, list, tailptr, free, items, next, p0, batch, itemlist, itemTail, cb, param, flags);
    var id := NextId(s);
    var free' := if s.freeList != [] then next[id] else free;
    assert s.freeList != [] ==> s.freeList[0] in s.freeList;
    assert SealedBuilding(3, SubmitOne(s, q, cb, param, flags), q, list, tailptr, free', items,
                          StoreNext(next[id := None], itemTail, Some(id)),
                          p0, batch + [id], StoreLocal(itemlist, itemTail, Some(id)), NextOf(id));
  }

  lemma RepSplice<Q>(s: State<Q>, q: Q, list: Option<ItemId>, tailptr: Slot, free: Option<ItemId>,
                     items: int, next: map<ItemId, Option<ItemId>>,
                     p0: seq<ItemId>, batch: seq<ItemId>, itemlist: Option<ItemId>, itemTail: Slot)
    requires BuildRep(s, q, list, tailptr, free, items, next, p0, batch, itemlist, itemTail)
    requires batch != []
    ensures s.pending == p0 + batch && itemlist == Some(batch[0])
    ensures tailptr != Local
    ensures Rep(s, q, StoreHead(list, tailptr, itemlist), itemTail, free, items + |batch|,
                StoreNext(next, tailptr, itemlist))
  {
    assert SealedBuilding(3, s, q, list, tailptr, free, items, next, p0, batch, itemlist, itemTail);
    GoodSplice(s, q, list, tailptr, free, items, next, p0, batch, itemlist, itemTail);
    Close(s, q, StoreHead(list, tailptr, itemlist), itemTail, free, items + |batch|, StoreNext(next, tailptr, itemlist));
  }

  // ------------------------------------------------------------------
  // Teardown (osd_work_queue_free)
  // ------------------------------------------------------------------

  /** What teardown needs of the representation: the free list and the
      pending list are linked from `free` and `list`, and together they hold
      distinct allocated items. */
  lemma RepLists<Q>(s: State<Q>, q: Q, list: Option<ItemId>, tailptr: Slot, free: Option<ItemId>,
                    items: int, next: map<ItemId, Option<ItemId>>)
    requires Rep(s, q, list, tailptr, free, items, next)
    ensures Linked(next, free, s.freeList) && Linked(next, list, s.pending)
    ensures NoRepeats(s.freeList + s.pending)
    ensures next.Keys == s.items.Keys
    ensures forall x | x in s.freeList + s.pending :: x in s.items
  {
    Open(s, q, list, tailptr, free, items, next);
    DistinctConcat(s.freeList, s.pending);
    DistinctNoRepeats(s.freeList + s.pending);
  }

  /** `Distinct` again, stated one item at a time, so that the solver takes
      it apart only as far as a loop over the list needs;
      `DistinctNoRepeats` connects the two. */
  ghost predicate NoRepeats(s: seq<ItemId>) {
    s != [] ==> s[0] !in s[1..] && NoRepeats(s[1..])
  }

  lemma {:induction false} DistinctNoRepeats(s: seq<ItemId>)
    requires Distinct(s)
    ensures NoRepeats(s)
  {
    if s != [] {
      var rest := s[1..];
      forall i | 0 <= i < |rest| ensures rest[i] != s[0] {
        assert rest[i] == s[i + 1];
      }
      forall i, j | 0 <= i < j < |rest| ensures rest[i] != rest[j] {
        assert rest[i] == s[i + 1] && rest[j] == s[j + 1];
      }
      DistinctNoRepeats(rest);
    }
  }

  /** Taking the head off the first of two lists without repeats; `gone` is
      what was taken off before. */
  lemma NoRepeatsPop(gone: seq<ItemId>, rest: seq<ItemId>, p: seq<ItemId>)
    requires NoRepeats(rest + p) && rest != []
    ensures rest[0] !in rest[1..] && rest[0] !in p && NoRepeats(rest[1..] + p)
    ensures (gone + [rest[0]]) + rest[1..] == gone + rest
  {
    assert (rest + p)[0] == rest[0] && (rest + p)[1..] == rest[1..] + p;
    assert [rest[0]] + rest[1..] == rest;
  }

  /** The ids of a list, as a set. */
  ghost function Ids(s: seq<ItemId>): set<ItemId> {
    set x | x in s
  }

  /** Freeing one more item. */
  lemma WithoutStep<V>(m: map<ItemId, V>, gone: seq<ItemId>, x: ItemId)
    ensures m - Ids(gone + [x]) == (m - Ids(gone)) - {x}
  {
    assert Ids(gone + [x]) == Ids(gone) + {x};
  }

  /** The events of one more freed item. */
  lemma EventsOfStep<Q>(items: map<ItemId, WorkItem<Q>>, gone: seq<ItemId>, x: ItemId)
    requires x in items && forall y | y in gone :: y in items
    ensures EventsOf(items, gone + [x]) ==
            EventsOf(items, gone) + (match items[x].event case None => [] case Some(e) => [e.handle])
  {
    assert (gone + [x])[..|gone|] == gone;
  }
}
