/** Creation flags and the thread-count policy of osd_work_queue_alloc.

    The flag values are those of MAME's osdcore.h, which is not part of this
    model: WORK_QUEUE_FLAG_IO = 0x0001, WORK_QUEUE_FLAG_MULTI = 0x0002,
    WORK_ITEM_FLAG_AUTO_RELEASE = 0x0001. Flags are UINT32 bit sets. */
module QueueConfig {
  import opened Int32
  import ScalableLock

  const WorkQueueFlagIo: bv32 := 0x0001
  const WorkQueueFlagMulti: bv32 := 0x0002
  const WorkItemFlagAutoRelease: bv32 := 0x0001

  predicate IsIo(flags: bv32) { flags & WorkQueueFlagIo != 0 }
  predicate IsMulti(flags: bv32) { flags & WorkQueueFlagMulti != 0 }
  predicate IsAutoRelease(flags: bv32) { flags & WorkItemFlagAutoRelease != 0 }

  /** The number of worker threads a queue gets, from the (effective) processor
      count and the queue flags. The `int` chosen by the policy is stored into
      the UINT32 field `threads` (so a negative value becomes a huge one) and
      then clamped to MAX_THREADS with an unsigned comparison. */
  function ThreadCount(numprocs: int, flags: bv32): (threads: nat)
    requires IsInt32(numprocs) && numprocs != -TwoTo31
    // one processor: a thread only for I/O queues
    ensures numprocs == 1 ==> threads == (if IsIo(flags) then 1 else 0)
    // several processors: all but one for multi queues, else exactly one
    ensures numprocs > 1 && IsMulti(flags) ==>
              threads == if numprocs - 1 < ScalableLock.MaxThreads then numprocs - 1 else ScalableLock.MaxThreads
    ensures numprocs > 1 && !IsMulti(flags) ==> threads == 1
    // a non-positive count on a multi queue wraps to a large unsigned value and clamps
    ensures numprocs <= 0 ==> threads == if IsMulti(flags) then ScalableLock.MaxThreads else 1
    ensures threads <= ScalableLock.MaxThreads
  {
    var chosen: int :=
      if numprocs == 1 then (if IsIo(flags) then 1 else 0)
      else (if IsMulti(flags) then numprocs - 1 else 1);
    var asUnsigned := chosen % TwoTo32;
    if asUnsigned < ScalableLock.MaxThreads then asUnsigned else ScalableLock.MaxThreads
  }
}
