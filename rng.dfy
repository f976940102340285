/** The two random helpers of the animation (js/main.js:16-21).
    Math.random is not modelled: every draw it would make is passed in as
    a real number u with 0 <= u < 1. */
module Rng {

  /** A colour as randomRGB produces it; the source formats it as the
      string "rgb(r,g,b)", which is not modelled. */
  datatype Color = Rgb(r: int, g: int, b: int)

  /** A value Math.random can return. */
  predicate IsUniform(u: real) {
    0.0 <= u < 1.0
  }

  /** random(min, max), given the draw `u` that Math.random returned:
      floor(u * (max - min + 1)) + min. The source leaves min > max
      unchecked, so the function is total and the bound is stated for
      min <= max only. */
  function Random(min: int, max: int, u: real): (r: int)
    requires IsUniform(u)
    ensures min <= max ==> min <= r <= max
  {
    (u * (max - min + 1) as real).Floor + min
  }

  /** Every value of [min, max] is produced by some draw: the bound of
      Random is tight, and both ends are reachable. */
  lemma RandomReaches(min: int, max: int, k: int)
    requires min <= k <= max
    ensures var u := (k - min) as real / (max - min + 1) as real;
            IsUniform(u) && Random(min, max, u) == k
  {
    var n := (max - min + 1) as real;
    var u := (k - min) as real / n;
    assert u * n == (k - min) as real;
    assert u < 1.0 by {
      assert (k - min) as real < n;
    }
  }

  /** randomRGB(), given the three draws of its three random(0, 255) calls. */
  function RandomRGB(u1: real, u2: real, u3: real): (c: Color)
    requires IsUniform(u1) && IsUniform(u2) && IsUniform(u3)
    ensures 0 <= c.r <= 255 && 0 <= c.g <= 255 && 0 <= c.b <= 255
  {
    Rgb(Random(0, 255, u1), Random(0, 255, u2), Random(0, 255, u3))
  }
}
