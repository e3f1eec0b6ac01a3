/** Small vocabulary shared by all components. */
module Common {

  datatype Option<+T> = None | Some(value: T)

  const MIN_INT32 := -0x8000_0000
  const MAX_INT32 := 0x7fff_ffff

  function Min(a: int, b: int): int { if a <= b then a else b }

  function Max(a: int, b: int): int { if a >= b then a else b }

  /** The bounding idiom of the sources, `min(max(x, lo), hi)`: with `hi < lo` the upper bound wins. */
  function Clamp(x: int, lo: int, hi: int): int { Min(Max(x, lo), hi) }

  /** Go's integer division, which truncates toward zero. */
  function TruncDiv(a: int, b: int): int
    requires b > 0
  {
    if a >= 0 then a / b else -((-a) / b)
  }
}
