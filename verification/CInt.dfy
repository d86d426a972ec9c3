/** C's integer division and remainder, which truncate toward zero. */
module CInt {
  function Div(a: int, b: int): int
    requires 0 < b
  {
    if 0 <= a then a / b else -(-a / b)
  }

  function Mod(a: int, b: int): int
    requires 0 < b
  {
    a - b * Div(a, b)
  }

  const INT_MIN := -0x8000_0000
  const INT_MAX := 0x7fff_ffff

  predicate FitsInt(x: int) {
    INT_MIN <= x <= INT_MAX
  }
}
