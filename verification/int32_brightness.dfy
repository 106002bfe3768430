/** Brightness arithmetic as the engine writes it, on Java's 32-bit `int`: the sum
    `c + delta` is computed before it is clamped, so it can wrap around. */
module Int32Brightness {
  import opened Pixels

  const IntMin: int := -0x8000_0000
  const IntMax: int := 0x7fff_ffff

  predicate IsInt32(x: int) { IntMin <= x <= IntMax }

  /** Two's-complement 32-bit wrap-around of an integer. */
  function Wrap32(x: int): (r: int)
    ensures IsInt32(r)
    ensures (r - x) % 0x1_0000_0000 == 0
    ensures IsInt32(x) ==> r == x
  {
    (x - IntMin) % 0x1_0000_0000 + IntMin
  }

  /** One component after a brightness change, with the addition done in 32 bits. */
  function AdjustAsWritten(c: int, delta: int, maxValue: int): int
    requires IsInt32(c) && IsInt32(delta) && IsInt32(maxValue)
  {
    var sum := Wrap32(c + delta);
    if delta < 0 then Max(sum, 0) else Min(sum, maxValue)
  }

  /** The largest positive delta on a component of 1 wraps the sum to the most negative
      int, which the upper clamp lets through: the result is below 0. */
  lemma BrightenOverflowLeavesRange()
    ensures AdjustAsWritten(1, IntMax, 255) == IntMin
    ensures AdjustAsWritten(1, IntMax, 255) < 0
  {
  }

  /** Whenever the sum fits in 32 bits, the code as written and the unbounded clamp agree. */
  lemma AsWrittenAgreesWithoutOverflow(c: int, delta: int, maxValue: int)
    requires IsInt32(c) && IsInt32(delta) && IsInt32(maxValue)
    requires IsInt32(c + delta)
    ensures AdjustAsWritten(c, delta, maxValue) == Adjust(c, delta, maxValue)
  {
  }

  /** On an in-range component the sum can only overflow upwards, so a darkening delta
      always agrees with the unbounded clamp. */
  lemma DarkenNeverOverflows(c: int, delta: int, maxValue: int)
    requires IsInt32(delta) && IsInt32(maxValue) && 0 <= c <= maxValue
    requires delta < 0
    ensures AdjustAsWritten(c, delta, maxValue) == Adjust(c, delta, maxValue)
  {
    AsWrittenAgreesWithoutOverflow(c, delta, maxValue);
  }
}
