/**
 * The pixel pass of the encoder (src/Thumbhash.cpp, RGBAToThumbHash): the
 * alpha-weighted average colour, the has_alpha decision, and the blend of
 * each pixel over the average colour before its conversion to L, P, Q and A.
 */
module Pixels {
  import opened Colour

  type Byte = x: nat | x < 256

  /** One RGBA pixel, each component a byte. */
  datatype Pixel = Pixel(red: Byte, green: Byte, blue: Byte, alpha: Byte)

  /** alpha_ / 255: the pixel's opacity in [0, 1]. */
  function Opacity(p: Pixel): real {
    p.alpha as real / 255.0
  }

  /** alpha / 255 * c, one term of the weighted colour sums. */
  function Weighted(p: Pixel, c: Byte): real {
    Opacity(p) / 255.0 * c as real
  }

  /** avg_alpha after the first n pixels. */
  function SumOpacity(pixels: seq<Pixel>, n: nat): real
    requires n <= |pixels|
  {
    if n == 0 then 0.0 else SumOpacity(pixels, n - 1) + Opacity(pixels[n - 1])
  }

  /** avg_red, avg_green and avg_blue after the first n pixels, before the division. */
  function WeightedSum(pixels: seq<Pixel>, n: nat): Rgb
    requires n <= |pixels|
  {
    if n == 0 then Rgb(0.0, 0.0, 0.0)
    else
      var s, p := WeightedSum(pixels, n - 1), pixels[n - 1];
      Rgb(s.r + Weighted(p, p.red), s.g + Weighted(p, p.green), s.b + Weighted(p, p.blue))
  }

  /** The average colour: the weighted sums divided by the total opacity when that is positive. */
  function Average(s: Rgb, total: real): Rgb {
    if total > 0.0 then Rgb(s.r / total, s.g / total, s.b / total) else s
  }

  /**
   * The first loop of RGBAToThumbHash: sums the opacities and the
   * opacity-weighted colours, then divides the colour sums by the opacity
   * sum when it is positive.
   */
  method AverageColour(pixels: seq<Pixel>) returns (avg: Rgb, total: real)
    ensures total == SumOpacity(pixels, |pixels|)
    ensures avg == Average(WeightedSum(pixels, |pixels|), total)
  {
    var red, green, blue := 0.0, 0.0, 0.0;
    total := 0.0;
    for i := 0 to |pixels|
      invariant Rgb(red, green, blue) == WeightedSum(pixels, i)
      invariant total == SumOpacity(pixels, i)
    {
      var p := pixels[i];
      var alpha := Opacity(p);
      red := red + alpha / 255.0 * p.red as real;
      green := green + alpha / 255.0 * p.green as real;
      blue := blue + alpha / 255.0 * p.blue as real;
      total := total + alpha;
    }
    avg := Average(Rgb(red, green, blue), total);
  }

  /** has_alpha: the opacities sum to less than the pixel count. */
  predicate HasAlpha(pixels: seq<Pixel>) {
    SumOpacity(pixels, |pixels|) < |pixels| as real
  }

  /** The opacity sum of n pixels lies in [0, n] and reaches n exactly when all n are opaque. */
  lemma {:induction false} SumOpacityBounds(pixels: seq<Pixel>, n: nat)
    requires n <= |pixels|
    ensures 0.0 <= SumOpacity(pixels, n) <= n as real
    ensures SumOpacity(pixels, n) == n as real <==> forall i :: 0 <= i < n ==> pixels[i].alpha == 255
  {
    if n > 0 {
      SumOpacityBounds(pixels, n - 1);
      var p := pixels[n - 1];
      assert 0.0 <= Opacity(p) <= 1.0;
      assert Opacity(p) == 1.0 <==> p.alpha == 255;
    }
  }

  /** An image has alpha exactly when some pixel is not fully opaque. */
  lemma HasAlphaIff(pixels: seq<Pixel>)
    ensures HasAlpha(pixels) <==> exists i :: 0 <= i < |pixels| && pixels[i].alpha < 255
  {
    SumOpacityBounds(pixels, |pixels|);
  }

  /** Every weighted colour sum lies between 0 and the opacity sum. */
  lemma {:induction false} WeightedSumBounds(pixels: seq<Pixel>, n: nat)
    requires n <= |pixels|
    ensures var s := WeightedSum(pixels, n);
      0.0 <= s.r <= SumOpacity(pixels, n) && 0.0 <= s.g <= SumOpacity(pixels, n) && 0.0 <= s.b <= SumOpacity(pixels, n)
  {
    if n > 0 {
      WeightedSumBounds(pixels, n - 1);
      var p := pixels[n - 1];
      WeightedBounds(p, p.red);
      WeightedBounds(p, p.green);
      WeightedBounds(p, p.blue);
    }
  }

  lemma WeightedBounds(p: Pixel, c: Byte)
    ensures 0.0 <= Weighted(p, c) <= Opacity(p)
  {
    var a, k := Opacity(p), c as real / 255.0;
    assert Weighted(p, c) == a * k;
    MulNonNegative(a, k);
    MulNonNegative(a, 1.0 - k);
    assert a * (1.0 - k) == a - a * k;
  }

  /** The average colour of any image lies in the unit cube. */
  lemma AverageInCube(pixels: seq<Pixel>)
    ensures var avg := Average(WeightedSum(pixels, |pixels|), SumOpacity(pixels, |pixels|));
      InCube(avg)
  {
    var s, total := WeightedSum(pixels, |pixels|), SumOpacity(pixels, |pixels|);
    WeightedSumBounds(pixels, |pixels|);
    SumOpacityBounds(pixels, |pixels|);
    if total > 0.0 {
      QuotientInUnit(s.r, total);
      QuotientInUnit(s.g, total);
      QuotientInUnit(s.b, total);
    }
  }

  lemma QuotientInUnit(x: real, total: real)
    requires 0.0 <= x <= total && total > 0.0
    ensures 0.0 <= x / total <= 1.0
  {
  }

  /**
   * The second loop of RGBAToThumbHash for one pixel: its colour blended
   * over the average in proportion to its opacity, converted to L, P and Q,
   * with its opacity as A.
   */
  function ChannelValues(avg: Rgb, p: Pixel): (Lpq, real) {
    (ToLpq(Rgb(Blend(avg.r, p.alpha, p.red), Blend(avg.g, p.alpha, p.green), Blend(avg.b, p.alpha, p.blue))),
     Opacity(p))
  }

  /**
   * With the average in the unit cube, every pixel's L and A lie in [0, 1]
   * and its P and Q in [-1, 1]: the value ranges the projections start from.
   */
  lemma ChannelValuesInRange(avg: Rgb, p: Pixel)
    requires InCube(avg)
    ensures var (c, a) := ChannelValues(avg, p);
      0.0 <= c.l <= 1.0 && -1.0 <= c.p <= 1.0 && -1.0 <= c.q <= 1.0 && 0.0 <= a <= 1.0
  {
    BlendRange(avg.r, p.alpha, p.red);
    BlendRange(avg.g, p.alpha, p.green);
    BlendRange(avg.b, p.alpha, p.blue);
    LpqRange(Rgb(Blend(avg.r, p.alpha, p.red), Blend(avg.g, p.alpha, p.green), Blend(avg.b, p.alpha, p.blue)));
  }
}
