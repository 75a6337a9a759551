/** The C `int` that `clamp` takes and returns, as a 32-bit two's-complement integer. */
module CInt {

  const INT_MIN: int := -0x8000_0000
  const INT_MAX: int := 0x7fff_ffff

  /** Every value a C `int` can hold; nothing outside it. */
  type Int32 = x: int | INT_MIN <= x <= INT_MAX

  /** Distance between two points of the number line. */
  function Dist(a: int, b: int): (d: nat)
    ensures d == 0 <==> a == b
    ensures d == a - b || d == b - a
  {
    if a <= b then b - a else a - b
  }
}
