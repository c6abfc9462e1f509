/** The intrusive singly-linked lists of work items. Every item has one
    `next` field; a list is given by its head pointer, and it is well formed
    when following `next` from the head visits exactly the ids of a sequence,
    in order, and ends in NULL. A tail pointer (`osd_work_item **`) points
    either at the list's head field or at the `next` field of an item. */
module ItemLists {
  import opened WorkSpec

  /** The storage location a tail pointer refers to: the queue's `list`
      field, the `next` field of an item, or the `itemlist` variable a
      submission builds its batch in (which lives only during that call). */
  datatype Slot = Head | NextOf(id: ItemId) | Local

  function First(s: seq<ItemId>): (h: Option<ItemId>)
    ensures h.None? <==> s == []
  {
    if s == [] then None else Some(s[0])
  }

  /** The `next` pointer the `i`-th item of a list holds. */
  function Succ(s: seq<ItemId>, i: nat): Option<ItemId>
    requires i < |s|
  {
    if i + 1 < |s| then Some(s[i + 1]) else None
  }

  /** Where the next appended item goes: the head field of an empty list,
      else the `next` field of the last item. */
  function TailOf(s: seq<ItemId>): (t: Slot)
    ensures t == Head <==> s == []
  {
    if s == [] then Head else NextOf(s[|s| - 1])
  }

  /** The same for the local list a batch is built in: its head is the
      `itemlist` variable. */
  function LocalTail(s: seq<ItemId>): (t: Slot)
    ensures t == Local <==> s == []
    ensures s != [] ==> t == TailOf(s)
  {
    if s == [] then Local else TailOf(s)
  }

  /** The list starting at `head` holds exactly the items of `s`, in order. */
  ghost predicate Linked(next: map<ItemId, Option<ItemId>>, head: Option<ItemId>, s: seq<ItemId>) {
    && head == First(s)
    && (forall i | 0 <= i < |s| :: s[i] in next)
    // triggered on the `next` lookup, so that the successor it names does
    // not start a new round of instantiations
    && (forall i {:trigger next[s[i]]} | 0 <= i < |s| :: next[s[i]] == Succ(s, i))
  }

  /** `*slot = v` on the queue's head field, ... */
  function StoreHead(head: Option<ItemId>, slot: Slot, v: Option<ItemId>): Option<ItemId> {
    if slot == Head then v else head
  }

  /** ... on the `next` fields ... */
  function StoreNext(next: map<ItemId, Option<ItemId>>, slot: Slot, v: Option<ItemId>): map<ItemId, Option<ItemId>> {
    match slot
    case Head => next
    case NextOf(id) => next[id := v]
    case Local => next
  }

  /** ... and on the local `itemlist` variable. */
  function StoreLocal(itemlist: Option<ItemId>, slot: Slot, v: Option<ItemId>): Option<ItemId> {
    if slot == Local then v else itemlist
  }

  /** Popping the head of a non-empty list leaves the list that starts at the
      head's `next`. */
  lemma LinkedPop(next: map<ItemId, Option<ItemId>>, head: Option<ItemId>, s: seq<ItemId>)
    requires Linked(next, head, s) && s != []
    ensures head == Some(s[0]) && s[0] in next
    ensures Linked(next, next[s[0]], s[1..])
  {
    assert next[s[0]] == Succ(s, 0);
    forall i | 0 <= i < |s[1..]|
      ensures s[1..][i] in next && next[s[1..][i]] == Succ(s[1..], i)
    {
      assert s[1..][i] == s[i + 1];
      assert Succ(s, i + 1) == Succ(s[1..], i);
    }
  }

  /** Pushing an item not on the list makes it the new head. */
  lemma LinkedPush(next: map<ItemId, Option<ItemId>>, head: Option<ItemId>, s: seq<ItemId>, x: ItemId)
    requires Linked(next, head, s) && x !in s
    ensures Linked(next[x := head], Some(x), [x] + s)
  {
    var s' := [x] + s;
    var next' := next[x := head];
    forall i | 0 <= i < |s'|
      ensures s'[i] in next' && next'[s'[i]] == Succ(s', i)
    {
      if i > 0 {
        assert s'[i] == s[i - 1] && s[i - 1] != x;
        assert Succ(s', i) == Succ(s, i - 1);
      }
    }
  }

  /** A list is not disturbed by changes to `next` fields of other items. */
  lemma LinkedFrame(next: map<ItemId, Option<ItemId>>, next': map<ItemId, Option<ItemId>>, head: Option<ItemId>, s: seq<ItemId>)
    requires Linked(next, head, s)
    requires forall x | x in s :: x in next' && next'[x] == next[x]
    ensures Linked(next', head, s)
  {
    forall i | 0 <= i < |s|
      ensures s[i] in next' && next'[s[i]] == Succ(s, i)
    {
      assert s[i] in s;
    }
  }

  /** Storing the head of a second list through the tail pointer of a first
      one joins them: the first list's items followed by the second's. This is
      both how a batch is built one item at a time and how it is spliced onto
      the pending list. */
  lemma {:induction false} LinkedConcat(next: map<ItemId, Option<ItemId>>, head: Option<ItemId>, p: seq<ItemId>,
                                        head2: Option<ItemId>, b: seq<ItemId>)
    requires Linked(next, head, p) && Linked(next, head2, b)
    requires Distinct(p)
    requires forall x | x in b :: x !in p
    ensures Linked(StoreNext(next, TailOf(p), head2), StoreHead(head, TailOf(p), head2), p + b)
  {
    var next' := StoreNext(next, TailOf(p), head2);
    var r := p + b;
    if p == [] {
      assert r == b;
      assert next' == next;
    } else {
      var last := p[|p| - 1];
      assert next' == next[last := head2];
      forall i | 0 <= i < |r|
        ensures r[i] in next' && next'[r[i]] == Succ(r, i)
      {
        if i < |p| - 1 {
          assert r[i] == p[i] && p[i] != last;
          assert Succ(r, i) == Succ(p, i);
        } else if i == |p| - 1 {
          assert r[i] == last;
          assert Succ(r, i) == First(b);
        } else {
          var j := i - |p|;
          assert r[i] == b[j] && b[j] in b && b[j] != last;
          assert Succ(r, i) == Succ(b, j);
        }
      }
    }
  }

  /** Appending a new item to a list: its `next` is cleared and it is stored
      through the list's tail pointer. */
  lemma LinkedAppend(next: map<ItemId, Option<ItemId>>, head: Option<ItemId>, s: seq<ItemId>, x: ItemId)
    requires Linked(next, head, s) && Distinct(s) && x !in s
    ensures Linked(StoreNext(next[x := None], TailOf(s), Some(x)), StoreHead(head, TailOf(s), Some(x)), s + [x])
  {
    LinkedFrame(next, next[x := None], head, s);
    LinkedConcat(next[x := None], head, s, Some(x), [x]);
  }

  /** ... which leaves alone every list that holds neither the new item nor
      the item whose `next` the tail pointer names. */
  lemma LinkedAppendFrame(next: map<ItemId, Option<ItemId>>, tail: Slot, x: ItemId, head: Option<ItemId>, l: seq<ItemId>)
    requires Linked(next, head, l) && x !in l
    requires tail.NextOf? ==> tail.id !in l
    ensures Linked(StoreNext(next[x := None], tail, Some(x)), head, l)
  {
    var next' := StoreNext(next[x := None], tail, Some(x));
    forall y | y in l ensures y in next' && next'[y] == next[y] {
      var i :| 0 <= i < |l| && l[i] == y;
    }
    LinkedFrame(next, next', head, l);
  }

  /** One step of building a batch: the new item is appended to the local
      list, and the pending list and the free list are left alone. */
  lemma LinksAppend(next: map<ItemId, Option<ItemId>>, list: Option<ItemId>, p: seq<ItemId>,
                    free: Option<ItemId>, fl: seq<ItemId>, itemlist: Option<ItemId>, batch: seq<ItemId>, id: ItemId)
    requires Linked(next, list, p) && Linked(next, free, fl) && Linked(next, itemlist, batch)
    requires Distinct(batch) && id !in p && id !in fl && id !in batch
    requires batch != [] ==> batch[|batch| - 1] !in p && batch[|batch| - 1] !in fl
    ensures var next' := StoreNext(next[id := None], TailOf(batch), Some(id));
            && Linked(next', list, p)
            && Linked(next', free, fl)
            && Linked(next', StoreHead(itemlist, TailOf(batch), Some(id)), batch + [id])
  {
    LinkedAppend(next, itemlist, batch, id);
    LinkedAppendFrame(next, TailOf(batch), id, list, p);
    LinkedAppendFrame(next, TailOf(batch), id, free, fl);
  }

  /** Storing through the local list's tail pointer is storing through the
      tail of the list it holds, with `itemlist` for its head field. */
  lemma LocalTailStores(next: map<ItemId, Option<ItemId>>, itemlist: Option<ItemId>, s: seq<ItemId>, v: Option<ItemId>)
    ensures StoreNext(next, LocalTail(s), v) == StoreNext(next, TailOf(s), v)
    ensures StoreLocal(itemlist, LocalTail(s), v) == StoreHead(itemlist, TailOf(s), v)
  {
  }

  /** Freeing the head of a list: the rest of the list starts at the freed
      item's `next`, and neither it nor a second list that does not hold the
      freed item needs the freed item's `next` field. */
  lemma LinkedFreeHead(next: map<ItemId, Option<ItemId>>, head: Option<ItemId>, s: seq<ItemId>,
                       head2: Option<ItemId>, s2: seq<ItemId>)
    requires Linked(next, head, s) && Linked(next, head2, s2) && s != []
    requires s[0] !in s[1..] && s[0] !in s2
    ensures head == Some(s[0]) && s[0] in next
    ensures Linked(next - {s[0]}, next[s[0]], s[1..])
    ensures Linked(next - {s[0]}, head2, s2)
  {
    LinkedPop(next, head, s);
    LinkedFrame(next, next - {s[0]}, next[s[0]], s[1..]);
    LinkedFrame(next, next - {s[0]}, head2, s2);
  }
}
