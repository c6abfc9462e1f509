/** Two's-complement 32-bit arithmetic as the work-queue code relies on it.
    The lock's ticket counter is a signed 32-bit integer that is incremented
    atomically (and so wraps from 2^31-1 to -2^31), and a slot is chosen from
    it with `& 15`. On a two's-complement value `x & 15` is the low four bits,
    which is `x % 16` with Dafny's Euclidean `%` (never negative), since 16
    divides 2^32; the model writes it that way. */
module Int32 {

  const TwoTo31: int := 0x8000_0000
  const TwoTo32: int := 0x1_0000_0000

  predicate IsInt32(x: int) {
    -TwoTo31 <= x < TwoTo31
  }

  /** The INT32 whose bit pattern is the low 32 bits of `x`. */
  function Wrap(x: int): (r: int)
    ensures IsInt32(r)
    ensures (r - x) % TwoTo32 == 0
    ensures IsInt32(x) ==> r == x
  {
    (x + TwoTo31) % TwoTo32 - TwoTo31
  }

  /** An atomic increment returns the new value; subtracting one from it, in
      the same wrapping arithmetic, gives back the value before the increment. */
  lemma WrapIncDec(x: int)
    requires IsInt32(x)
    ensures Wrap(Wrap(x + 1) - 1) == x
  {
    if x == TwoTo31 - 1 {
      assert Wrap(x + 1) == -TwoTo31;
    } else {
      assert Wrap(x + 1) == x + 1;
    }
  }

  /** Incrementing a wrapping INT32 advances its residue modulo 16 by one,
      also across the wrap from 2^31-1 to -2^31. */
  lemma WrapIncMod16(x: int)
    requires IsInt32(x)
    ensures Wrap(x + 1) % 16 == (x % 16 + 1) % 16
  {
    if x == TwoTo31 - 1 {
      assert Wrap(x + 1) == -TwoTo31;
    } else {
      assert Wrap(x + 1) == x + 1;
    }
  }
}
