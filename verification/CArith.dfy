/** C's `/` and `%` on signed integers: the quotient is truncated toward zero
    and the remainder takes the sign of the dividend. */
module CArith {

  function Quot(a: int, b: int): int
    requires b > 0
  {
    if a >= 0 then a / b else -((-a) / b)
  }

  function Rem(a: int, b: int): int
    requires b > 0
  {
    a - b * Quot(a, b)
  }

  const INT32_MAX := 0x7fff_ffff

  predicate FitsInt32(x: int) {
    -INT32_MAX - 1 <= x <= INT32_MAX
  }
}
