/** What submission, draining and release promise, proved about the value-level
    bookkeeping of WorkSpec. */
module WorkProperties {
  import opened QueueConfig
  import opened WorkSpec

  // ------------------------------------------------------------------
  // Sequence helpers
  // ------------------------------------------------------------------

  lemma DistinctAppend(a: seq<ItemId>, x: ItemId)
    requires Distinct(a) && x !in a
    ensures Distinct(a + [x])
  {
    forall i, j | 0 <= i < j < |a + [x]|
      ensures (a + [x])[i] != (a + [x])[j]
    {
      if j == |a| {
        assert (a + [x])[i] == a[i];
      }
    }
  }

  /** Position `i` of a batch is the `i`-th free item while the free list
      lasts, and after it the fresh ids in order. */
  lemma {:induction false} BatchIdAt(freeList: seq<ItemId>, nextFresh: nat, n: nat, i: nat)
    requires i < n
    ensures BatchIds(freeList, nextFresh, n)[i]
            == if i < |freeList| then freeList[i] else nextFresh + (i - |freeList|)
    decreases n
  {
    if i > 0 {
      if freeList != [] {
        BatchIdAt(freeList[1..], nextFresh, n - 1, i - 1);
      } else {
        BatchIdAt([], nextFresh + 1, n - 1, i - 1);
      }
    }
  }

  /** The ids of a batch are all different, and each is a free item or a
      fresh id. */
  lemma BatchIdsDistinct(freeList: seq<ItemId>, nextFresh: nat, n: nat)
    requires Distinct(freeList)
    requires forall x | x in freeList :: x < nextFresh
    ensures Distinct(BatchIds(freeList, nextFresh, n))
    ensures forall x | x in BatchIds(freeList, nextFresh, n) :: x in freeList || x >= nextFresh
  {
    var b := BatchIds(freeList, nextFresh, n);
    forall i, j | 0 <= i < j < n
      ensures b[i] != b[j]
    {
      BatchIdAt(freeList, nextFresh, n, i);
      BatchIdAt(freeList, nextFresh, n, j);
      if i < |freeList| && j >= |freeList| {
        assert freeList[i] in freeList;
      }
    }
    forall x | x in b
      ensures x in freeList || x >= nextFresh
    {
      var i :| 0 <= i < n && b[i] == x;
      BatchIdAt(freeList, nextFresh, n, i);
    }
  }

  // ------------------------------------------------------------------
  // Submission
  // ------------------------------------------------------------------

  /** A batch is appended after the pending items, in order. */
  lemma {:induction false} SubmitFromPending<Q>(s: State<Q>, q: Q, cb: Callback, n: nat, param: Ptr, step: int, flags: bv32)
    requires FreeAllocated(s)
    ensures SubmitFrom(s, q, cb, n, param, step, flags).pending == s.pending + BatchIds(s.freeList, s.nextFresh, n)
    decreases n
  {
    if n > 0 {
      var s1 := SubmitOne(s, q, cb, param, flags);
      SubmitFromPending(s1, q, cb, n - 1, param + step, step, flags);
      assert s1.pending == s.pending + [BatchIds(s.freeList, s.nextFresh, n)[0]];
    }
  }

  /** The free list loses exactly the items the batch took from its top, and
      the rest of the batch is freshly allocated. */
  lemma {:induction false} SubmitFromFreeList<Q>(s: State<Q>, q: Q, cb: Callback, n: nat, param: Ptr, step: int, flags: bv32)
    requires FreeAllocated(s)
    ensures var r := SubmitFrom(s, q, cb, n, param, step, flags);
            && r.freeList == s.freeList[Min(n, |s.freeList|)..]
            && r.nextFresh == s.nextFresh + (n - Min(n, |s.freeList|))
    decreases n
  {
    if n > 0 {
      var s1 := SubmitOne(s, q, cb, param, flags);
      SubmitFromFreeList(s1, q, cb, n - 1, param + step, step, flags);
      if s.freeList != [] {
        assert s1.freeList[Min(n - 1, |s1.freeList|)..] == s.freeList[Min(n, |s.freeList|)..];
      }
    }
  }

  /** The queue owns afterwards what it owned before and the batch. */
  lemma {:induction false} SubmitFromKeys<Q>(s: State<Q>, q: Q, cb: Callback, n: nat, param: Ptr, step: int, flags: bv32)
    requires FreeAllocated(s)
    ensures forall x ::
              x in SubmitFrom(s, q, cb, n, param, step, flags).items <==>
              x in s.items || x in BatchIds(s.freeList, s.nextFresh, n)
    decreases n
  {
    if n > 0 {
      var s1 := SubmitOne(s, q, cb, param, flags);
      SubmitFromKeys(s1, q, cb, n - 1, param + step, step, flags);
    }
  }

  /** The three together: the shape of the bookkeeping after a batch. */
  lemma SubmitFromShape<Q>(s: State<Q>, q: Q, cb: Callback, n: nat, param: Ptr, step: int, flags: bv32)
    requires FreeAllocated(s)
    ensures var r := SubmitFrom(s, q, cb, n, param, step, flags);
            var k := Min(n, |s.freeList|);
            && r.pending == s.pending + BatchIds(s.freeList, s.nextFresh, n)
            && r.freeList == s.freeList[k..]
            && r.nextFresh == s.nextFresh + (n - k)
            && (forall x :: x in r.items <==> x in s.items || x in BatchIds(s.freeList, s.nextFresh, n))
  {
    SubmitFromPending(s, q, cb, n, param, step, flags);
    SubmitFromFreeList(s, q, cb, n, param, step, flags);
    SubmitFromKeys(s, q, cb, n, param, step, flags);
  }

  /** A batch of `n + 1` items is a batch of `n` followed by one more item,
      whose parameter has advanced `n` steps. */
  lemma {:induction false} SubmitFromSnoc<Q>(s: State<Q>, q: Q, cb: Callback, n: nat, param: Ptr, step: int, flags: bv32)
    requires FreeAllocated(s)
    ensures SubmitFrom(s, q, cb, n + 1, param, step, flags)
            == SubmitOne(SubmitFrom(s, q, cb, n, param, step, flags), q, cb, param + n * step, flags)
    decreases n
  {
    if n == 0 {
      assert param + n * step == param;
    } else {
      var s1 := SubmitOne(s, q, cb, param, flags);
      SubmitFromSnoc(s1, q, cb, n - 1, param + step, step, flags);
      assert param + step + (n - 1) * step == param + n * step;
    }
  }

  /** The item a batch puts at position `i`: the `i`-th item of the free list
      reset, or a fresh item once the free list is used up. */
  function Expected<Q>(s: State<Q>, q: Q, cb: Callback, i: nat, param: Ptr, step: int, flags: bv32): WorkItem<Q>
    requires FreeAllocated(s)
  {
    if i < |s.freeList| then Reset(s.items[s.freeList[i]], cb, param + i * step, flags)
    else Fresh(q, cb, param + i * step, flags)
  }

  /** An item the batch does not take is not changed by the submission. */
  lemma {:induction false} SubmitFromUntouched<Q>(s: State<Q>, q: Q, cb: Callback, n: nat, param: Ptr, step: int, flags: bv32, x: ItemId)
    requires FreeAllocated(s)
    requires x in s.items && x !in BatchIds(s.freeList, s.nextFresh, n)
    ensures x in SubmitFrom(s, q, cb, n, param, step, flags).items
    ensures SubmitFrom(s, q, cb, n, param, step, flags).items[x] == s.items[x]
    decreases n
  {
    if n > 0 {
      var s1 := SubmitOne(s, q, cb, param, flags);
      SubmitFromUntouched(s1, q, cb, n - 1, param + step, step, flags, x);
    }
  }

  /** Taking one item keeps the free list distinct and every id below the
      next fresh one. */
  lemma SubmitOneKeepsIds<Q>(s: State<Q>, q: Q, cb: Callback, param: Ptr, flags: bv32)
    requires FreeAllocated(s) && Distinct(s.freeList)
    requires forall x | x in s.items :: x < s.nextFresh
    ensures var s1 := SubmitOne(s, q, cb, param, flags);
            && Distinct(s1.freeList)
            && (forall x | x in s1.items :: x < s1.nextFresh)
  {
    var s1 := SubmitOne(s, q, cb, param, flags);
    if s.freeList != [] {
      forall a, c | 0 <= a < c < |s1.freeList| ensures s1.freeList[a] != s1.freeList[c] {
        assert s1.freeList[a] == s.freeList[a + 1] && s1.freeList[c] == s.freeList[c + 1];
      }
    }
  }

  /** The first item of a batch: the top of the free list reset, or a fresh
      item, with parameter `param`. */
  lemma SubmitFromHead<Q>(s: State<Q>, q: Q, cb: Callback, n: nat, param: Ptr, step: int, flags: bv32)
    requires FreeAllocated(s) && Distinct(s.freeList)
    requires forall x | x in s.items :: x < s.nextFresh
    requires n > 0
    ensures BatchIds(s.freeList, s.nextFresh, n)[0] in SubmitFrom(s, q, cb, n, param, step, flags).items
    ensures SubmitFrom(s, q, cb, n, param, step, flags).items[BatchIds(s.freeList, s.nextFresh, n)[0]]
            == Expected(s, q, cb, 0, param, step, flags)
  {
    var s1 := SubmitOne(s, q, cb, param, flags);
    var b := BatchIds(s.freeList, s.nextFresh, n);
    var b1 := BatchIds(s1.freeList, s1.nextFresh, n - 1);
    BatchIdsDistinct(s.freeList, s.nextFresh, n);
    assert b[0] !in b1 by {
      forall j | 0 <= j < |b1| ensures b1[j] != b[0] { assert b1[j] == b[j + 1]; }
    }
    SubmitFromUntouched(s1, q, cb, n - 1, param + step, step, flags, b[0]);
    assert param + 0 * step == param;
  }

  /** Item `i` of a batch gets parameter `param + i * step`, the callback and
      flags of the call, a NULL result and `done` cleared. An item reused from
      the free list keeps its event and owning queue; a fresh one has no event
      and belongs to `q`. */
  lemma {:induction false} SubmitFromItemAt<Q>(s: State<Q>, q: Q, cb: Callback, n: nat, param: Ptr, step: int, flags: bv32, i: nat)
    requires FreeAllocated(s) && Distinct(s.freeList)
    requires forall x | x in s.items :: x < s.nextFresh
    requires i < n
    ensures BatchIds(s.freeList, s.nextFresh, n)[i] in SubmitFrom(s, q, cb, n, param, step, flags).items
    ensures SubmitFrom(s, q, cb, n, param, step, flags).items[BatchIds(s.freeList, s.nextFresh, n)[i]]
            == Expected(s, q, cb, i, param, step, flags)
    decreases n
  {
    if i == 0 {
      SubmitFromHead(s, q, cb, n, param, step, flags);
    } else {
      var s1 := SubmitOne(s, q, cb, param, flags);
      var b := BatchIds(s.freeList, s.nextFresh, n);
      var b1 := BatchIds(s1.freeList, s1.nextFresh, n - 1);
      SubmitOneKeepsIds(s, q, cb, param, flags);
      SubmitFromItemAt(s1, q, cb, n - 1, param + step, step, flags, i - 1);
      assert b[i] == b1[i - 1];
      assert param + step + (i - 1) * step == param + i * step;
      if i < |s.freeList| {
        assert s.freeList[i] == s1.freeList[i - 1];
        assert s.freeList[i] != s.freeList[0];
      }
    }
  }

  /** No id of a batch is pending already, and none stays on the free list. */
  lemma BatchIdsNew<Q>(s: State<Q>, n: nat)
    requires ListsOk(s)
    ensures var b := BatchIds(s.freeList, s.nextFresh, n);
            var k := Min(n, |s.freeList|);
            forall x | x in b :: x !in s.pending && x !in s.freeList[k..]
  {
    var b := BatchIds(s.freeList, s.nextFresh, n);
    var k := Min(n, |s.freeList|);
    forall i | 0 <= i < n
      ensures b[i] !in s.pending && b[i] !in s.freeList[k..]
    {
      BatchIdAt(s.freeList, s.nextFresh, n, i);
      if i < k {
        assert s.freeList[i] in s.freeList;
        forall j | 0 <= j < |s.freeList| - k ensures s.freeList[k..][j] != b[i] {
          assert s.freeList[k..][j] == s.freeList[k + j];
        }
      }
    }
  }

  /** Appending a batch of new ids keeps the pending list distinct. */
  lemma DistinctConcat(p: seq<ItemId>, b: seq<ItemId>)
    requires Distinct(p) && Distinct(b)
    requires forall x | x in b :: x !in p
    ensures Distinct(p + b)
  {
    var r := p + b;
    forall i, j | 0 <= i < j < |r| ensures r[i] != r[j] {
      if j < |p| {
        assert r[i] == p[i] && r[j] == p[j];
      } else if i < |p| {
        assert r[i] == p[i] && r[j] == b[j - |p|] && b[j - |p|] in b;
      } else {
        assert r[i] == b[i - |p|] && r[j] == b[j - |p|];
      }
    }
  }

  /** Lists of the shape a submission leaves are well formed: the batch is
      appended after the old pending items and shares no item with them or
      with what is left of the free list. */
  lemma ListsOkAfterBatch<Q>(s: State<Q>, r: State<Q>, n: nat)
    requires ListsOk(s)
    requires var b := BatchIds(s.freeList, s.nextFresh, n);
             var k := Min(n, |s.freeList|);
             && r.pending == s.pending + b
             && r.freeList == s.freeList[k..]
             && r.nextFresh == s.nextFresh + (n - k)
             && (forall x :: x in r.items <==> x in s.items || x in b)
    ensures ListsOk(r)
  {
    var b := BatchIds(s.freeList, s.nextFresh, n);
    var k := Min(n, |s.freeList|);
    BatchIdsDistinct(s.freeList, s.nextFresh, n);
    BatchIdsNew(s, n);
    DistinctConcat(s.pending, b);
    assert forall j | 0 <= j < |r.freeList| :: r.freeList[j] == s.freeList[k + j];
    assert forall x | x in r.freeList :: x in s.freeList;
    assert Distinct(r.freeList);
    forall x | x in r.items ensures x < r.nextFresh {
      if x in b {
        var i :| 0 <= i < n && b[i] == x;
        BatchIdAt(s.freeList, s.nextFresh, n, i);
        if i < |s.freeList| {
          assert s.freeList[i] in s.freeList;
        }
      }
    }
  }

  /** After a submission the lists are still well formed. */
  lemma ListsOkSubmitFrom<Q>(s: State<Q>, q: Q, cb: Callback, n: nat, param: Ptr, step: int, flags: bv32)
    requires ListsOk(s)
    ensures ListsOk(SubmitFrom(s, q, cb, n, param, step, flags))
  {
    SubmitFromShape(s, q, cb, n, param, step, flags);
    ListsOkAfterBatch(s, SubmitFrom(s, q, cb, n, param, step, flags), n);
  }

  /** After a submission the batch items are pending and not done, with a NULL
      result; every other item is as it was. */
  lemma ItemsOkSubmitFrom<Q>(s: State<Q>, q: Q, cb: Callback, n: nat, param: Ptr, step: int, flags: bv32)
    requires Inv(s)
    ensures ItemsOk(SubmitFrom(s, q, cb, n, param, step, flags))
  {
    var r := SubmitFrom(s, q, cb, n, param, step, flags);
    var b := BatchIds(s.freeList, s.nextFresh, n);
    SubmitFromShape(s, q, cb, n, param, step, flags);
    forall x | x in r.items
      ensures r.items[x].done <==> x !in r.pending
      ensures Settled(r.items[x])
    {
      if x in b {
        var i :| 0 <= i < n && b[i] == x;
        SubmitFromItemAt(s, q, cb, n, param, step, flags, i);
      } else {
        SubmitFromUntouched(s, q, cb, n, param, step, flags, x);
      }
    }
  }

  /** Submitting a batch keeps the queue's invariant. */
  lemma InvSubmitFrom<Q>(s: State<Q>, q: Q, cb: Callback, n: nat, param: Ptr, step: int, flags: bv32)
    requires Inv(s)
    ensures Inv(SubmitFrom(s, q, cb, n, param, step, flags))
  {
    ListsOkSubmitFrom(s, q, cb, n, param, step, flags);
    ItemsOkSubmitFrom(s, q, cb, n, param, step, flags);
  }

  // ------------------------------------------------------------------
  // Draining
  // ------------------------------------------------------------------

  /** Only the flags decide which items are auto-released. */
  lemma {:induction false} AutoReleasedFrame<Q>(p: seq<ItemId>, a: map<ItemId, WorkItem<Q>>, b: map<ItemId, WorkItem<Q>>)
    requires forall x | x in p :: x in a && x in b && a[x].flags == b[x].flags
    ensures AutoReleased(p, a) == AutoReleased(p, b)
    decreases |p|
  {
    if p != [] {
      AutoReleasedFrame(p[1..], a, b);
    }
  }

  /** Only auto-release items are auto-released. */
  lemma {:induction false} AutoReleasedFlags<Q>(p: seq<ItemId>, items: map<ItemId, WorkItem<Q>>)
    requires forall x | x in p :: x in items
    ensures forall x | x in AutoReleased(p, items) :: x in items && IsAutoRelease(items[x].flags)
    decreases |p|
  {
    if p != [] {
      AutoReleasedFlags(p[1..], items);
    }
  }

  /** The auto-released items of a list are distinct items of that list. */
  lemma {:induction false} AutoReleasedDistinct<Q>(p: seq<ItemId>, items: map<ItemId, WorkItem<Q>>)
    requires forall x | x in p :: x in items
    requires Distinct(p)
    ensures forall x | x in AutoReleased(p, items) :: x in p
    ensures Distinct(AutoReleased(p, items))
    decreases |p|
  {
    if p != [] {
      AutoReleasedDistinct(p[1..], items);
      var rest := AutoReleased(p[1..], items);
      assert p[0] !in p[1..];
      if IsAutoRelease(items[p[0]].flags) {
        DistinctAppend(rest, p[0]);
      }
    }
  }

  /** A drain pushes the auto-release items on the free list in the order they
      ran, so the last to run is on top. */
  lemma {:induction false} DrainFreeList<Q>(s: State<Q>)
    requires PendingAllocated(s)
    ensures Drain(s).freeList == AutoReleased(s.pending, s.items) + s.freeList
    decreases |s.pending|
  {
    if s.pending != [] {
      var s1, mine := DrainStep(s);
      var ar1 := AutoReleased(s.pending[1..], s.items);
      assert Drain(s1).freeList == ar1 + s1.freeList by {
        DrainFreeList(s1);
        AutoReleasedFrame(s.pending[1..], s1.items, s.items);
      }
      ConcatAssoc(ar1, mine, s.freeList);
    }
  }

  /** Concatenation of id lists is associative; stated apart so that the
      sequences it is used on need not be taken apart index by index. */
  lemma ConcatAssoc(a: seq<ItemId>, b: seq<ItemId>, c: seq<ItemId>)
    ensures (a + b) + c == a + (b + c)
  {
  }

  /** One step of a drain: the head item is run and, when it is auto-release,
      pushed on the free list; the rest of the drain starts from there. */
  lemma DrainStep<Q>(s: State<Q>) returns (s1: State<Q>, mine: seq<ItemId>)
    requires PendingAllocated(s) && s.pending != []
    ensures PendingAllocated(s1) && s1.pending == s.pending[1..] && Drain(s) == Drain(s1)
    ensures forall x | x in s1.pending :: x in s.items && x in s1.items && s1.items[x].flags == s.items[x].flags
    ensures mine == (if IsAutoRelease(s.items[s.pending[0]].flags) then [s.pending[0]] else [])
    ensures s1.freeList == mine + s.freeList
    ensures s1.ran == s.ran + [s.pending[0]]
    ensures AutoReleased(s.pending, s.items) == AutoReleased(s.pending[1..], s.items) + mine
  {
    var id := s.pending[0];
    s1 := Complete(s.(pending := s.pending[1..]), id);
    mine := if IsAutoRelease(s.items[id].flags) then [id] else [];
  }

  /** A drain calls the pending items' callbacks in list order, one call per
      place on the list: the history grows by exactly the pending list. */
  lemma {:induction false} DrainRunLog<Q>(s: State<Q>)
    requires PendingAllocated(s)
    ensures Drain(s).ran == s.ran + s.pending
    decreases |s.pending|
  {
    if s.pending != [] {
      var s1, mine := DrainStep(s);
      DrainRunLog(s1);
      ConcatAssoc(s.ran, [s.pending[0]], s.pending[1..]);
      assert [s.pending[0]] + s.pending[1..] == s.pending;
    }
  }

  /** With no repeats on the pending list, as the invariant keeps it, a drain
      calls each pending item's callback exactly once. */
  lemma DrainRunsEachOnce<Q>(s: State<Q>, x: ItemId)
    requires PendingAllocated(s) && Distinct(s.pending) && x in s.pending
    ensures multiset(Drain(s).ran)[x] == multiset(s.ran)[x] + 1
  {
    DrainRunLog(s);
    DistinctOnce(s.pending, x);
  }

  /** An id occurs once in a list without repeats that holds it. */
  lemma {:induction false} DistinctOnce(p: seq<ItemId>, x: ItemId)
    requires Distinct(p) && x in p
    ensures multiset(p)[x] == 1
    decreases |p|
  {
    assert p == [p[0]] + p[1..];
    if p[0] == x {
      assert x !in p[1..];
    } else {
      assert Distinct(p[1..]) by {
        forall i, j | 0 <= i < j < |p[1..]| ensures p[1..][i] != p[1..][j] {
          assert p[1..][i] == p[i + 1] && p[1..][j] == p[j + 1];
        }
      }
      DistinctOnce(p[1..], x);
    }
  }

  /** A drain leaves every pending item as Finish of what it was: run, with
      its result stored, and signalled or released. */
  lemma {:induction false} DrainItemRan<Q>(s: State<Q>, x: ItemId)
    requires PendingAllocated(s) && Distinct(s.pending)
    requires x in s.pending
    ensures x in Drain(s).items && Drain(s).items[x] == Finish(s.items[x])
    decreases |s.pending|
  {
    var id := s.pending[0];
    var s1 := Complete(s.(pending := s.pending[1..]), id);
    if x == id {
      assert id !in s.pending[1..];
      DrainItemUntouched(s1, id);
    } else {
      assert Distinct(s1.pending) by {
        forall i, j | 0 <= i < j < |s1.pending| ensures s1.pending[i] != s1.pending[j] {
          assert s1.pending[i] == s.pending[i + 1] && s1.pending[j] == s.pending[j + 1];
        }
      }
      DrainItemRan(s1, x);
    }
  }

  /** A drain leaves every item that was not pending alone. */
  lemma {:induction false} DrainItemUntouched<Q>(s: State<Q>, x: ItemId)
    requires PendingAllocated(s)
    requires x in s.items && x !in s.pending
    ensures x in Drain(s).items && Drain(s).items[x] == s.items[x]
    decreases |s.pending|
  {
    if s.pending != [] {
      var s1 := Complete(s.(pending := s.pending[1..]), s.pending[0]);
      DrainItemUntouched(s1, x);
    }
  }

  /** After a drain the free list holds the auto-released items on top of
      the old free list, all distinct. */
  lemma ListsOkDrain<Q>(s: State<Q>)
    requires ListsOk(s)
    ensures ListsOk(Drain(s))
  {
    DrainFreeList(s);
    AutoReleasedDistinct(s.pending, s.items);
    var ar := AutoReleased(s.pending, s.items);
    DistinctConcat(ar, s.freeList);
  }

  /** After a drain every item the queue owns is done and holds its
      callback's result. */
  lemma ItemsOkDrain<Q>(s: State<Q>)
    requires Inv(s)
    ensures ItemsOk(Drain(s))
    ensures forall x | x in Drain(s).items :: Drain(s).items[x].done
  {
    var r := Drain(s);
    forall x | x in r.items
      ensures r.items[x].done && Settled(r.items[x])
    {
      if x in s.pending {
        DrainItemRan(s, x);
      } else {
        DrainItemUntouched(s, x);
      }
    }
  }

  /** Draining keeps the queue's invariant, and afterwards every item the
      queue owns is done. */
  lemma InvDrain<Q>(s: State<Q>)
    requires Inv(s)
    ensures Inv(Drain(s))
    ensures forall x | x in Drain(s).items :: Drain(s).items[x].done
  {
    ListsOkDrain(s);
    ItemsOkDrain(s);
  }

  // ------------------------------------------------------------------
  // Release and reuse
  // ------------------------------------------------------------------

  /** Releasing an item that is neither pending nor already free keeps the
      invariant. */
  lemma InvRelease<Q>(s: State<Q>, id: ItemId)
    requires Inv(s) && id in s.items && id !in s.pending && id !in s.freeList
    ensures Inv(Release(s, id))
  {
    var r := Release(s, id);
    assert Distinct(r.freeList) by {
      forall i, j | 0 <= i < j < |r.freeList| ensures r.freeList[i] != r.freeList[j] {
        assert r.freeList[j] == s.freeList[j - 1];
        if i > 0 { assert r.freeList[i] == s.freeList[i - 1]; }
      }
    }
  }

  /** The free list is a stack: the item released last is the first one the
      next submission takes. It comes back with callback, parameter, flags,
      result and `done` overwritten, but with the event and owning queue it
      had. */
  lemma ReleaseThenSubmitReuses<Q>(s: State<Q>, id: ItemId, q: Q, cb: Callback, n: nat, param: Ptr, step: int, flags: bv32)
    requires Inv(s) && id in s.items && id !in s.pending && id !in s.freeList
    requires n >= 1
    ensures var r := SubmitFrom(Release(s, id), q, cb, n, param, step, flags);
            && |r.pending| == |s.pending| + n
            && r.pending[|s.pending|] == id
            && id in r.items
            && r.items[id] == Reset(s.items[id], cb, param, flags)
            && r.items[id].event == s.items[id].event
            && r.items[id].queue == s.items[id].queue
            && r.items[id].result == NULL && !r.items[id].done
  {
    var s1 := Release(s, id);
    InvRelease(s, id);
    SubmitFromShape(s1, q, cb, n, param, step, flags);
    SubmitFromItemAt(s1, q, cb, n, param, step, flags, 0);
    var b := BatchIds(s1.freeList, s1.nextFresh, n);
    assert b[0] == id;
    assert param + 0 * step == param;
  }

  /** A pending item is done after a drain, with its callback's value for
      its parameter as result. */
  lemma DrainedResult<Q>(t: State<Q>, x: ItemId)
    requires PendingAllocated(t) && Distinct(t.pending) && x in t.pending
    ensures x in Drain(t).items && Drain(t).items[x].done
    ensures Drain(t).items[x].result == t.items[x].callback(t.items[x].param)
  {
    DrainItemRan(t, x);
  }

  /** The callback and parameter an item of a batch is given. */
  lemma ExpectedCall<Q>(s: State<Q>, q: Q, cb: Callback, i: nat, param: Ptr, step: int, flags: bv32)
    requires FreeAllocated(s)
    ensures Expected(s, q, cb, i, param, step, flags).callback == cb
    ensures Expected(s, q, cb, i, param, step, flags).param == param + i * step
  {
  }

  /** Item `i` of a batch sits at position `|s.pending| + i` of the pending
      list, with the batch's callback and its own parameter. */
  lemma SubmittedItemAt<Q>(s: State<Q>, q: Q, cb: Callback, n: nat, param: Ptr, step: int, flags: bv32, i: nat)
    requires ListsOk(s) && i < n
    ensures var spliced := SubmitFrom(s, q, cb, n, param, step, flags);
            var b := BatchIds(s.freeList, s.nextFresh, n);
            && PendingAllocated(spliced) && Distinct(spliced.pending)
            && |s.pending| + i < |spliced.pending| && spliced.pending[|s.pending| + i] == b[i]
            && spliced.items[b[i]].callback == cb && spliced.items[b[i]].param == param + i * step
  {
    var spliced := SubmitFrom(s, q, cb, n, param, step, flags);
    SubmitFromPending(s, q, cb, n, param, step, flags);
    ListsOkSubmitFrom(s, q, cb, n, param, step, flags);
    SubmitFromItemAt(s, q, cb, n, param, step, flags, i);
    ExpectedCall(s, q, cb, i, param, step, flags);
  }

  /** Item `i` of a batch, drained right after it was submitted, is done and
      holds the callback's value for parameter `param + i * step`. */
  lemma SubmittedItemCompletes<Q>(s: State<Q>, q: Q, cb: Callback, n: nat, param: Ptr, step: int, flags: bv32, i: nat)
    requires Inv(s) && i < n
    ensures var spliced := SubmitFrom(s, q, cb, n, param, step, flags);
            var b := BatchIds(s.freeList, s.nextFresh, n);
            && spliced.pending[|s.pending| + i] == b[i]
            && b[i] in Drain(spliced).items
            && Drain(spliced).items[b[i]].done
            && Drain(spliced).items[b[i]].result == cb(param + i * step)
  {
    var spliced := SubmitFrom(s, q, cb, n, param, step, flags);
    var b := BatchIds(s.freeList, s.nextFresh, n);
    SubmittedItemAt(s, q, cb, n, param, step, flags, i);
    assert b[i] in spliced.pending;
    DrainedResult(spliced, b[i]);
  }

  /** A queue without threads drains right after every submission: when the
      call returns nothing is pending, the invariant holds, and item `i` of the
      batch is done with the callback's value for parameter `param + i * step`
      as its result. */
  lemma SubmitThenDrainCompletes<Q>(s: State<Q>, q: Q, cb: Callback, n: nat, param: Ptr, step: int, flags: bv32)
    requires Inv(s) && s.pending == []
    ensures var spliced := SubmitFrom(s, q, cb, n, param, step, flags);
            var r := Drain(spliced);
            var b := BatchIds(s.freeList, s.nextFresh, n);
            && Inv(r) && r.pending == []
            && spliced.pending == b
            && (forall i | 0 <= i < n :: b[i] in r.items && r.items[b[i]].done && r.items[b[i]].result == cb(param + i * step))
  {
    var spliced := SubmitFrom(s, q, cb, n, param, step, flags);
    SubmitFromShape(s, q, cb, n, param, step, flags);
    InvSubmitFrom(s, q, cb, n, param, step, flags);
    InvDrain(spliced);
    forall i | 0 <= i < n
      ensures var b := BatchIds(s.freeList, s.nextFresh, n);
              b[i] in Drain(spliced).items && Drain(spliced).items[b[i]].done &&
              Drain(spliced).items[b[i]].result == cb(param + i * step)
    {
      SubmittedItemCompletes(s, q, cb, n, param, step, flags, i);
    }
  }

  /** An auto-release item submitted alone to a queue without threads is back
      on top of the free list when the call returns, so the next submission
      reuses it without any explicit release. */
  lemma AutoReleaseRecycled<Q>(s: State<Q>, q: Q, cb: Callback, param: Ptr, flags: bv32,
                               cb2: Callback, param2: Ptr, flags2: bv32)
    requires Inv(s) && s.pending == [] && IsAutoRelease(flags)
    ensures var b := BatchIds(s.freeList, s.nextFresh, 1);
            var r := Drain(SubmitFrom(s, q, cb, 1, param, 0, flags));
            && r.freeList != [] && r.freeList[0] == b[0]
            && SubmitFrom(r, q, cb2, 1, param2, 0, flags2).pending == [b[0]]
  {
    var spliced := SubmitFrom(s, q, cb, 1, param, 0, flags);
    var b := BatchIds(s.freeList, s.nextFresh, 1);
    SubmitFromShape(s, q, cb, 1, param, 0, flags);
    SubmitFromItemAt(s, q, cb, 1, param, 0, flags, 0);
    DrainFreeList(spliced);
    var r := Drain(spliced);
    assert spliced.pending == [b[0]];
    assert AutoReleased(spliced.pending, spliced.items) == [b[0]];
    SubmitFromShape(r, q, cb2, 1, param2, 0, flags2);
    assert BatchIds(r.freeList, r.nextFresh, 1) == [b[0]];
  }
}
