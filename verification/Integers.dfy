/** The fixed-width integers of the modelled code. */
module Integers {

  /** Number of values of a 32-bit integer, `session_id_t` and `int`, and of `size_t`; and the largest `int`. */
  const INT_VALUES: nat := 0x1_0000_0000
  const SIZE_VALUES: nat := 0x1_0000_0000_0000_0000
  const INT_MAX: int := 0x7FFF_FFFF

  /** A value converted to `int`. */
  function ToInt(x: int): int {
    var low := x % INT_VALUES;
    if low <= INT_MAX then low else low - INT_VALUES
  }

  /** A value converted to `size_t`. */
  function ToSize(x: int): nat {
    x % SIZE_VALUES
  }
}
