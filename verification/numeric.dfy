/** Integer stand-ins for the float helpers the samples use (Math.Max, Math.Min, MathF.CopySign). */
module Numeric {

  function Max(a: int, b: int): (r: int)
    ensures r >= a && r >= b
    ensures r == a || r == b
  {
    if a >= b then a else b
  }

  function Min(a: int, b: int): (r: int)
    ensures r <= a && r <= b
    ensures r == a || r == b
  {
    if a <= b then a else b
  }

  /** `Min(Max(x, lo), hi)`: the clamp that keeps positions inside the board or a patrol region. */
  function Clamp(x: int, lo: int, hi: int): (r: int)
    ensures lo <= hi ==> lo <= r <= hi
    ensures lo <= x <= hi ==> r == x
    ensures x < lo <= hi ==> r == lo
    ensures lo <= hi < x ==> r == hi
  {
    Min(Max(x, lo), hi)
  }

  /** A facing direction: Character.Facing is always `CopySign(1, value)`, so +1 or -1. */
  type Sign = s: int | s == 1 || s == -1 witness 1

  /** `MathF.CopySign(1, v)` for an integer velocity: +1 for zero and above, -1 below. */
  function SignOf(v: int): (s: Sign)
    ensures s * v >= 0
    ensures v > 0 ==> s == 1
    ensures v >= 0 ==> s == 1
  {
    if v < 0 then -1 else 1
  }
}
