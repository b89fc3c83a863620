/** Column values as ordered keys: 64-bit patterns whose unsigned order is the order of the
    values they stand for. */
module SortableBits {
  import opened WalRecords

  const SIGN: int := 0x8000_0000_0000_0000

  // x with its top bit flipped, and x with every bit flipped.
  function FlipSign(u: Long): Long { if u < SIGN then u + SIGN else u - SIGN }
  function FlipAll(u: Long): Long { LONG_LIMIT - 1 - u }

  function SortableInt(u: Long): Long { FlipSign(u) }
  function FromSortableInt(b: Long): Long { FlipSign(b) }

  function SortableDouble(u: Long): Long { if u >= SIGN then FlipAll(u) else FlipSign(u) }
  function FromSortableDouble(b: Long): Long { if b >= SIGN then FlipSign(b) else FlipAll(b) }

  // The value of a two's complement pattern.
  function Signed(u: Long): int { if u >= SIGN then u - LONG_LIMIT else u }

  // totalOrder of section 5.10 of IEEE 754-2008, on binary64 patterns: negative before
  // positive, -0 before +0, negatives by falling and positives by rising magnitude, with
  // infinities beyond the finite numbers and NaNs beyond the infinities.
  predicate TotalOrder(u: Long, v: Long) {
    if u >= SIGN && v < SIGN then true
    else if u < SIGN && v >= SIGN then false
    else if u >= SIGN then v - SIGN <= u - SIGN
    else u <= v
  }

  lemma IntOrder(u: Long, v: Long)
    ensures SortableInt(u) <= SortableInt(v) <==> Signed(u) <= Signed(v)
    ensures FromSortableInt(SortableInt(u)) == u && SortableInt(FromSortableInt(u)) == u
  {
  }

  lemma DoubleOrder(u: Long, v: Long)
    ensures SortableDouble(u) <= SortableDouble(v) <==> TotalOrder(u, v)
    ensures FromSortableDouble(SortableDouble(u)) == u && SortableDouble(FromSortableDouble(u)) == u
  {
  }
}
