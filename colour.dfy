/**
 * The colour space of the codec (src/Thumbhash.cpp, RGBAToThumbHash,
 * ThumbHashToRGBA and ThumbHashToAverageRGBA): luminance L = (r + g + b) / 3,
 * P = (r + g) / 2 - b (yellow - blue) and Q = r - g (red - green), and the
 * decoder's inverse b = L - 2/3 P, r = (3L - b + Q) / 2, g = r - Q.
 * Single-precision arithmetic is modelled as exact reals.
 */
module Colour {

  datatype Rgb = Rgb(r: real, g: real, b: real)

  datatype Lpq = Lpq(l: real, p: real, q: real)

  /** The encoder's conversion of a (blended) pixel. */
  function ToLpq(c: Rgb): Lpq {
    Lpq((c.r + c.g + c.b) / 3.0, (c.r + c.g) / 2.0 - c.b, c.r - c.g)
  }

  /** The decoder's conversion back: b first, then r from b, then g from r. */
  function ToRgb(c: Lpq): Rgb {
    var b := c.l - 2.0 / 3.0 * c.p;
    var r := (3.0 * c.l - b + c.q) / 2.0;
    Rgb(r, r - c.q, b)
  }

  /** The decoder inverts the encoder's conversion exactly. */
  lemma ToRgbToLpq(c: Rgb)
    ensures ToRgb(ToLpq(c)) == c
  {
  }

  /** ... and the encoder inverts the decoder's: the two are mutually inverse bijections. */
  lemma ToLpqToRgb(c: Lpq)
    ensures ToLpq(ToRgb(c)) == c
  {
  }

  /** Every component in [0, 1]. */
  predicate InCube(c: Rgb) {
    0.0 <= c.r <= 1.0 && 0.0 <= c.g <= 1.0 && 0.0 <= c.b <= 1.0
  }

  /** Colours of the unit cube land in L in [0, 1] and P, Q in [-1, 1], the ranges the header quantises. */
  lemma LpqRange(c: Rgb)
    requires InCube(c)
    ensures 0.0 <= ToLpq(c).l <= 1.0
    ensures -1.0 <= ToLpq(c).p <= 1.0 && -1.0 <= ToLpq(c).q <= 1.0
  {
  }

  /**
   * Blending a byte component c of a pixel with opacity alpha (also a byte)
   * over the average colour avg: avg * (1 - alpha / 255) + alpha / 255 / 255 * c.
   */
  function Blend(avg: real, alpha: nat, c: nat): real {
    var a := alpha as real / 255.0;
    avg * (1.0 - a) + a / 255.0 * c as real
  }

  /** A blend of an average in [0, 1] and a byte stays in [0, 1], and an opaque pixel keeps its own colour. */
  lemma BlendRange(avg: real, alpha: nat, c: nat)
    requires 0.0 <= avg <= 1.0 && alpha <= 255 && c <= 255
    ensures 0.0 <= Blend(avg, alpha, c)
    ensures Blend(avg, alpha, c) <= 1.0
    ensures alpha == 255 ==> Blend(avg, alpha, c) == c as real / 255.0
    ensures alpha == 0 ==> Blend(avg, alpha, c) == avg
  {
    var a := alpha as real / 255.0;
    var k := c as real / 255.0;
    assert 0.0 <= a <= 1.0 && 0.0 <= k <= 1.0;
    assert a / 255.0 * c as real == a * k;
    MulNonNegative(a, k);
    MulNonNegative(a, 1.0 - k);
    MulNonNegative(avg, 1.0 - a);
    MulNonNegative(1.0 - avg, 1.0 - a);
    assert (1.0 - avg) * (1.0 - a) == (1.0 - a) - avg * (1.0 - a);
    assert a * (1.0 - k) == a - a * k;
    var x, y := avg * (1.0 - a), a * k;
    assert Blend(avg, alpha, c) == x + y;
    assert 0.0 <= x <= 1.0 - a && 0.0 <= y <= a;
  }

  lemma MulNonNegative(x: real, y: real)
    requires x >= 0.0 && y >= 0.0
    ensures x * y >= 0.0
  {
  }

  /** max(0, min(1, x)), the clamp of ThumbHashToAverageRGBA. */
  function Clamp01(x: real): (r: real)
    ensures 0.0 <= r <= 1.0
    ensures 0.0 <= x <= 1.0 ==> r == x
    ensures x < 0.0 ==> r == 0.0
    ensures x > 1.0 ==> r == 1.0
  {
    if x < 0.0 then 0.0 else if x > 1.0 then 1.0 else x
  }
}
