/** The bookkeeping of a work queue as a value: which items the queue owns,
    which of them are pending (in list order), which are on the free list (in
    stack order), and the per-item fields. The concrete queue in WorkQueue is
    proved to follow these functions step by step; the lemmas here state what
    the operations promise. */
module WorkSpec {
  import opened QueueConfig

  datatype Option<T> = None | Some(value: T)

  /** Items are identified by the allocation that created them. */
  type ItemId = nat

  /** A `void *`: parameters and results are opaque addresses, NULL is 0. */
  type Ptr = int
  const NULL: Ptr := 0

  /** An osd_work_callback: an opaque function from parameter to result. */
  type Callback = Ptr -> Ptr

  /** An OS event handle, with whether it is currently signalled. */
  type EventHandle = nat
  datatype Event = Event(handle: EventHandle, signalled: bool)

  /** The fields of an osd_work_item other than `next` (which belongs to the
      list representation). `Q` is the type of the back-reference to the
      owning queue. */
  datatype WorkItem<Q> = WorkItem(
    queue: Q,
    callback: Callback,
    param: Ptr,
    result: Ptr,
    event: Option<Event>,
    flags: bv32,
    done: bool)

  /** The queue's item bookkeeping: every item it has allocated, the pending
      list from head to tail, the free list from top to bottom, and the id the
      next fresh allocation gets. `ran` is a history the C queue does not
      keep: the ids whose callbacks have been called, in the order of the
      calls. */
  datatype State<Q> = State(
    items: map<ItemId, WorkItem<Q>>,
    pending: seq<ItemId>,
    freeList: seq<ItemId>,
    nextFresh: nat,
    ran: seq<ItemId>)

  ghost predicate Distinct(s: seq<ItemId>) {
    forall i, j | 0 <= i < j < |s| :: s[i] != s[j]
  }

  /** An item's result slot: the callback's value once done, NULL before. */
  ghost predicate Settled<Q>(it: WorkItem<Q>) {
    if it.done then it.result == it.callback(it.param) else it.result == NULL
  }

  /** The two lists hold distinct allocated items and share none; every id
      allocated so far is below the next fresh one. */
  ghost predicate ListsOk<Q>(s: State<Q>) {
    && Distinct(s.pending)
    && Distinct(s.freeList)
    && (forall x | x in s.pending :: x !in s.freeList)
    && (forall x | x in s.pending :: x in s.items)
    && (forall x | x in s.freeList :: x in s.items)
    && (forall x | x in s.items :: x < s.nextFresh)
  }

  /** An item is done exactly when it is not pending, and a done item holds
      its callback's result. */
  ghost predicate ItemsOk<Q>(s: State<Q>) {
    && (forall x | x in s.items :: s.items[x].done <==> x !in s.pending)
    && (forall x | x in s.items :: Settled(s.items[x]))
  }

  /** What holds of the bookkeeping between operations. */
  ghost predicate Inv<Q>(s: State<Q>) {
    ListsOk(s) && ItemsOk(s)
  }

  /** The queue is fresh: nothing allocated yet. */
  function Empty<Q>(): State<Q> {
    State(map[], [], [], 0, [])
  }

  function Min(a: int, b: int): int {
    if a < b then a else b
  }

  // ------------------------------------------------------------------
  // Submission (osd_work_item_queue_multiple)
  // ------------------------------------------------------------------

  /** "Fill in the basics": every field but `event` and `queue` is overwritten. */
  function Reset<Q>(it: WorkItem<Q>, cb: Callback, param: Ptr, flags: bv32): WorkItem<Q> {
    it.(callback := cb, param := param, result := NULL, flags := flags, done := false)
  }

  /** A freshly allocated item: no event yet, owned by `q`, basics filled in. */
  function Fresh<Q>(q: Q, cb: Callback, param: Ptr, flags: bv32): WorkItem<Q> {
    WorkItem(q, cb, param, NULL, None, flags, false)
  }

  ghost predicate PendingAllocated<Q>(s: State<Q>) {
    forall x | x in s.pending :: x in s.items
  }

  ghost predicate FreeAllocated<Q>(s: State<Q>) {
    forall x | x in s.freeList :: x in s.items
  }

  /** One item of a batch: popped off the free list if there is one there,
      else freshly allocated; reset and added after the earlier ones. */
  function SubmitOne<Q>(s: State<Q>, q: Q, cb: Callback, param: Ptr, flags: bv32): (r: State<Q>)
    requires FreeAllocated(s)
    ensures FreeAllocated(r)
    ensures PendingAllocated(s) ==> PendingAllocated(r)
    ensures |r.pending| == |s.pending| + 1
  {
    if s.freeList != [] then
      var id := s.freeList[0];
      s.(items := s.items[id := Reset(s.items[id], cb, param, flags)],
         pending := s.pending + [id],
         freeList := s.freeList[1..])
    else
      s.(items := s.items[s.nextFresh := Fresh(q, cb, param, flags)],
         pending := s.pending + [s.nextFresh],
         nextFresh := s.nextFresh + 1)
  }

  /** A batch of `n` items whose parameters start at `param` and advance by
      `step`, appended to the pending list in order. */
  function SubmitFrom<Q>(s: State<Q>, q: Q, cb: Callback, n: nat, param: Ptr, step: int, flags: bv32): (r: State<Q>)
    requires FreeAllocated(s)
    ensures FreeAllocated(r)
    ensures PendingAllocated(s) ==> PendingAllocated(r)
    ensures |r.pending| == |s.pending| + n
    decreases n
  {
    if n == 0 then s
    else SubmitFrom(SubmitOne(s, q, cb, param, flags), q, cb, n - 1, param + step, step, flags)
  }

  /** The ids a batch of `n` gets, in order: the top of the free list while
      it lasts, then consecutive fresh ids. */
  function BatchIds(freeList: seq<ItemId>, nextFresh: nat, n: nat): (b: seq<ItemId>)
    ensures |b| == n
    decreases n
  {
    if n == 0 then []
    else if freeList != [] then [freeList[0]] + BatchIds(freeList[1..], nextFresh, n - 1)
    else [nextFresh] + BatchIds([], nextFresh + 1, n - 1)
  }

  // ------------------------------------------------------------------
  // Execution and release (worker_thread_process, osd_work_item_release)
  // ------------------------------------------------------------------

  function Signal(e: Option<Event>): Option<Event> {
    match e
    case None => None
    case Some(ev) => Some(ev.(signalled := true))
  }

  /** An item after its callback ran: the result stored and the item marked
      done. */
  function Ran<Q>(it: WorkItem<Q>): WorkItem<Q> {
    it.(result := it.callback(it.param), done := true)
  }

  /** An item after it runs: result stored, marked done, and its event (if it
      has one and is not auto-released) signalled. */
  function Finish<Q>(it: WorkItem<Q>): WorkItem<Q> {
    if IsAutoRelease(it.flags) then Ran(it) else Ran(it).(event := Signal(it.event))
  }

  /** osd_work_item_release: push the item on top of the free list. */
  function Release<Q>(s: State<Q>, id: ItemId): State<Q> {
    s.(freeList := [id] + s.freeList)
  }

  /** One item taken off the pending list has run: finish it, log the call,
      and release the item at once if it was submitted with the auto-release
      flag. */
  function Complete<Q>(s: State<Q>, id: ItemId): (r: State<Q>)
    requires id in s.items
    ensures r.items.Keys == s.items.Keys && r.pending == s.pending
  {
    var s' := s.(items := s.items[id := Finish(s.items[id])], ran := s.ran + [id]);
    if IsAutoRelease(s.items[id].flags) then Release(s', id) else s'
  }

  /** Take items off the head of the pending list and run them until it is
      empty. */
  function Drain<Q>(s: State<Q>): (r: State<Q>)
    requires PendingAllocated(s)
    ensures r.pending == [] && r.nextFresh == s.nextFresh
    ensures r.items.Keys == s.items.Keys
    ensures FreeAllocated(s) ==> FreeAllocated(r)
    decreases |s.pending|
  {
    if s.pending == [] then s
    else Drain(Complete(s.(pending := s.pending[1..]), s.pending[0]))
  }

  /** The auto-release items of `p`, last first: the order a drain of `p`
      pushes them on the free list leaves them in. */
  function AutoReleased<Q>(p: seq<ItemId>, items: map<ItemId, WorkItem<Q>>): seq<ItemId>
    requires forall x | x in p :: x in items
  {
    if p == [] then []
    else AutoReleased(p[1..], items) + (if IsAutoRelease(items[p[0]].flags) then [p[0]] else [])
  }

  // ------------------------------------------------------------------
  // Waiting on an item (osd_work_item_wait)
  // ------------------------------------------------------------------

  /** The event an item waits on: allocated unsignalled if it had none (the
      allocation may fail, leaving none), otherwise reset. */
  function ArmEvent(e: Option<Event>, newEvent: Option<EventHandle>): Option<Event> {
    match e
    case None => (match newEvent case None => None case Some(h) => Some(Event(h, false)))
    case Some(ev) => Some(ev.(signalled := false))
  }

  /** The state a wait leaves: a done item is left alone; otherwise only its
      event is armed. Nothing else runs during the wait in this model. */
  function WaitItem<Q>(s: State<Q>, id: ItemId, newEvent: Option<EventHandle>): State<Q>
    requires id in s.items
  {
    var it := s.items[id];
    if it.done then s
    else s.(items := s.items[id := it.(event := ArmEvent(it.event, newEvent))])
  }

  /** Event handles of the given items, in order; teardown frees them. */
  function EventsOf<Q>(items: map<ItemId, WorkItem<Q>>, ids: seq<ItemId>): seq<EventHandle>
    requires forall x | x in ids :: x in items
  {
    if ids == [] then []
    else
      var last := items[ids[|ids| - 1]];
      EventsOf(items, ids[..|ids| - 1]) + (match last.event case None => [] case Some(e) => [e.handle])
  }
}
