/** The queue's ticket lock: a ring of MAX_THREADS "has lock" flags and a
    ticket counter. An acquirer takes ticket `nextindex`, waits on slot
    `ticket & 15` and clears it; the releaser sets the next slot's flag.

    The model is sequential: between operations nobody holds the lock, so an
    acquirer finds its slot's flag already set and its compare-exchange
    succeeds at once. The backoff spin is therefore not modelled. */
module ScalableLock {
  import opened Int32

  /** MAX_THREADS: the number of slots, and the most worker threads a queue has. */
  const MaxThreads: int := 16

  class Lock {
    /** `slot[i].haslock`; the cache-line padding has no behaviour. */
    const slot: array<bool>
    /** Index of the next slot to use: a signed 32-bit ticket counter. */
    var nextindex: int

    ghost predicate Valid()
      reads this
    {
      slot.Length == MaxThreads && IsInt32(nextindex)
    }

    /** Nobody holds the lock: exactly one flag is set, the one of the slot the
        next ticket maps to. */
    ghost predicate IsFree()
      reads this, slot
      requires Valid()
    {
      forall i | 0 <= i < MaxThreads :: slot[i] <==> i == nextindex % MaxThreads
    }

    /** The lock is held through `myslot`: no flag is set, and the slot after
        `myslot` is the one the next ticket maps to. */
    ghost predicate HeldBy(myslot: int)
      reads this, slot
      requires Valid()
    {
      && 0 <= myslot < MaxThreads
      && (myslot + 1) % MaxThreads == nextindex % MaxThreads
      && forall i | 0 <= i < MaxThreads :: !slot[i]
    }

    /** scalable_lock_init: every flag cleared (the memset), then slot 0 given
        the lock; the ticket counter starts at 0. */
    constructor ()
      ensures Valid() && fresh(slot)
      ensures nextindex == 0
      ensures forall i | 0 <= i < MaxThreads :: slot[i] == (i == 0)
      ensures IsFree()
    {
      slot := new bool[MaxThreads](_ => false);
      nextindex := 0;
      new;
      slot[0] := true;
    }

    /** scalable_lock_acquire: take the next ticket and claim its slot. */
    method Acquire() returns (myslot: int)
      requires Valid() && IsFree()
      modifies this, slot
      ensures Valid()
      ensures myslot == old(nextindex) % MaxThreads
      ensures nextindex == Wrap(old(nextindex) + 1)
      ensures slot[..] == old(slot[..])[myslot := false]
      ensures HeldBy(myslot)
    {
      // osd_interlocked_increment returns the new value; one less is our ticket
      nextindex := Wrap(nextindex + 1);
      WrapIncDec(old(nextindex));
      myslot := Wrap(nextindex - 1) % MaxThreads;
      // the flag is set (IsFree), so the compare-exchange TRUE -> FALSE succeeds
      assert slot[myslot];
      slot[myslot] := false;
      WrapIncMod16(old(nextindex));
    }

    /** scalable_lock_release: hand the lock to the holder of the next ticket
        by setting the flag of slot `(myslot + 1) & 15`. */
    method Release(myslot: int)
      requires Valid() && HeldBy(myslot)
      modifies slot
      ensures Valid()
      ensures slot[..] == old(slot[..])[(myslot + 1) % MaxThreads := true]
      ensures IsFree()
    {
      slot[(myslot + 1) % MaxThreads] := true;
    }
  }
}
