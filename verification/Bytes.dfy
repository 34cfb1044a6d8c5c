// Bytes, 32-bit tick arithmetic, and small numbers.

module Bytes {

  type byte = x: int | 0 <= x < 256

  const TWO32: int := 0x1_0000_0000

  /** A number as a `uint32_t`. */
  function Wrap(n: int): (r: int)
    ensures 0 <= r < TWO32
  {
    n % 0x1_0000_0000
  }

  /** An unsigned 32-bit difference, as C computes it on `uint32_t`. */
  function Since(now: int, start: int): (r: int)
    ensures 0 <= r < TWO32
  {
    Wrap(now - start)
  }

  /** `(int32_t)(now - start) < 0` on unsigned 32-bit operands. */
  predicate Before(now: int, start: int) {
    Since(now, start) >= 0x8000_0000
  }

  function Least(a: int, b: int): int { if a < b then a else b }

  function Clamp(n: int): nat { if n < 0 then 0 else n }

  function Pow2(n: nat): nat { if n == 0 then 1 else 2 * Pow2(n - 1) }
}
