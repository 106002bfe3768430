/** The pixel value type used by every image: an immutable red/green/blue triple. The
    ceiling on a component is not stored in the pixel; the owning image supplies it. */
module Pixels {

  datatype Pixel = Pixel(r: int, g: int, b: int)

  /** Channel selectors, the three methods `getRedComponent`, `getGreenComponent` and
      `getBlueComponent` passed around as function values. */
  function Red(p: Pixel): int { p.r }
  function Green(p: Pixel): int { p.g }
  function Blue(p: Pixel): int { p.b }

  /** The grey pixel whose three components all equal `v`. */
  function Grey(v: int): Pixel { Pixel(v, v, v) }

  predicate IsGrey(p: Pixel) { p.r == p.g == p.b }

  /** Every component of `p` lies in [0, maxValue]. */
  predicate InRange(p: Pixel, maxValue: int)
  {
    0 <= p.r <= maxValue && 0 <= p.g <= maxValue && 0 <= p.b <= maxValue
  }

  function Max(a: int, b: int): int { if a >= b then a else b }
  function Min(a: int, b: int): int { if a <= b then a else b }

  /** One component after a brightness change: a negative delta darkens and saturates at 0,
      any other delta brightens and saturates at maxValue. */
  function Adjust(c: int, delta: int, maxValue: int): int
  {
    if delta < 0 then Max(c + delta, 0) else Min(c + delta, maxValue)
  }

  function AdjustPixel(p: Pixel, delta: int, maxValue: int): Pixel
  {
    Pixel(Adjust(p.r, delta, maxValue), Adjust(p.g, delta, maxValue), Adjust(p.b, delta, maxValue))
  }

  /** The channel of the combined pixel: red from `p`, green from `q`, blue from `s`. */
  function CombinePixel(p: Pixel, q: Pixel, s: Pixel): Pixel
  {
    Pixel(p.r, q.g, s.b)
  }

  lemma AdjustInRange(c: int, delta: int, maxValue: int)
    requires 0 <= c <= maxValue
    ensures 0 <= Adjust(c, delta, maxValue) <= maxValue
  {
  }

  lemma AdjustUndo(c: int, d: int, maxValue: int)
    requires 0 <= c <= maxValue
    requires 0 <= c + d <= maxValue
    ensures Adjust(Adjust(c, d, maxValue), -d, maxValue) == c
  {
  }
}
