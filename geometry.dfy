/**
 * The luminance grid of a hash (src/Thumbhash.cpp, RGBAToThumbHash and
 * ThumbHashToRGBA, ThumbHashToApproximateAspectRatio): the encoder scales
 * the limit (7 luminance terms, 5 with alpha) by the image's aspect ratio,
 * stores the shorter side's count in a 3-bit field and the decoder rebuilds
 * both counts from that field and the two flags.
 */
module Geometry {
  import opened Quantisation

  /** l_limit: fewer luminance terms when the alpha channel takes room. */
  function Limit(hasAlpha: bool): nat {
    if hasAlpha then 5 else 7
  }

  function MaxNat(a: nat, b: nat): nat {
    if a < b then b else a
  }

  /** round(a / b) for a, b >= 0, halfway cases up, in integers. */
  function RoundDiv(a: nat, b: nat): nat
    requires b > 0
  {
    (2 * a + b) / (2 * b)
  }

  /** n / d is the q with q * d <= n < q * d + d. */
  lemma DivUnique(n: nat, d: nat, q: nat)
    requires d > 0 && q * d <= n < q * d + d
    ensures n / d == q
  {
    var r := n / d;
    assert n == r * d + n % d && 0 <= n % d < d;
    if r < q {
      MulStep(r + 1, q, d);
    } else if r > q {
      MulStep(q + 1, r, d);
    }
  }

  /** i <= j scales to i * d <= j * d, and (i - 1) * d + d == i * d. */
  lemma MulStep(i: nat, j: nat, d: nat)
    requires 1 <= i <= j
    ensures i * d <= j * d && (i - 1) * d + d == i * d
  {
  }

  /** The integer division agrees with C's round of the exact quotient. */
  lemma RoundDivIsRound(a: nat, b: nat)
    requires b > 0
    ensures RoundDiv(a, b) == Round(a as real / b as real)
  {
    HalfUp(a, b);
    FloorOfQuotient(2 * a + b, 2 * b);
  }

  /** Integer division is the floor of the exact quotient. */
  lemma FloorOfQuotient(n: nat, d: nat)
    requires d > 0
    ensures (n as real / d as real).Floor == n / d
  {
    var q, r := n / d, n % d;
    var dr := d as real;
    assert n as real == q as real * dr + r as real;
    assert n as real / dr == q as real + r as real / dr;
    assert 0.0 <= r as real / dr < 1.0;
  }
  /** a / b + 1/2 == (2a + b) / 2b over the reals. */
  lemma HalfUp(a: nat, b: nat)
    requires b > 0
    ensures a as real / b as real + 0.5 == (2 * a + b) as real / (2 * b) as real
  {
    var br := b as real;
    var ar := a as real;
    assert (2 * a + b) as real == 2.0 * ar + br;
    assert (2 * b) as real == 2.0 * br;
    assert (2.0 * ar + br) / (2.0 * br) == (2.0 * ar) / (2.0 * br) + br / (2.0 * br);
    assert (2.0 * ar) / (2.0 * br) == ar / br;
    assert br / (2.0 * br) == 0.5;
  }

  /** A larger numerator never rounds lower. */
  lemma RoundDivMonotone(a: nat, c: nat, b: nat)
    requires b > 0 && a <= c
    ensures RoundDiv(a, b) <= RoundDiv(c, b)
  {
    var d := 2 * b;
    var qa, qc := (2 * a + b) / d, (2 * c + b) / d;
    assert 2 * a + b == qa * d + (2 * a + b) % d;
    assert 2 * c + b == qc * d + (2 * c + b) % d;
    if qa > qc {
      MulStep(qc + 1, qa, d);
    }
  }

  /** round(limit * m / m) is the limit itself. */
  lemma RoundDivWhole(limit: nat, m: nat)
    requires m > 0
    ensures RoundDiv(limit * m, m) == limit
  {
    assert 2 * (limit * m) + m == limit * (2 * m) + m;
    DivUnique(2 * (limit * m) + m, 2 * m, limit);
  }

  /** lx = max(1, round(limit * width / max(width, height))). */
  function EncoderLx(width: nat, height: nat, hasAlpha: bool): nat
    requires width > 0 || height > 0
  {
    var n := RoundDiv(Limit(hasAlpha) * width, MaxNat(width, height));
    if n < 1 then 1 else n
  }

  /** ly = max(1, round(limit * height / max(width, height))). */
  function EncoderLy(width: nat, height: nat, hasAlpha: bool): nat
    requires width > 0 || height > 0
  {
    var n := RoundDiv(Limit(hasAlpha) * height, MaxNat(width, height));
    if n < 1 then 1 else n
  }

  /** One side's count lies in [1, limit] and is the limit for the longer side. */
  lemma SideBounds(side: nat, other: nat, hasAlpha: bool)
    requires side > 0 || other > 0
    ensures var n := RoundDiv(Limit(hasAlpha) * side, MaxNat(side, other));
      n <= Limit(hasAlpha) && (side >= other ==> n == Limit(hasAlpha))
  {
    var m := MaxNat(side, other);
    var limit := Limit(hasAlpha);
    assert limit * side <= limit * m;
    RoundDivMonotone(limit * side, limit * m, m);
    RoundDivWhole(limit, m);
  }

  /** Both counts lie in [1, limit]; the longer side (either one, for a square) gets the limit. */
  lemma EncoderGeometry(width: nat, height: nat, hasAlpha: bool)
    requires width > 0 || height > 0
    ensures 1 <= EncoderLx(width, height, hasAlpha) <= Limit(hasAlpha)
    ensures 1 <= EncoderLy(width, height, hasAlpha) <= Limit(hasAlpha)
    ensures width >= height ==> EncoderLx(width, height, hasAlpha) == Limit(hasAlpha)
    ensures height >= width ==> EncoderLy(width, height, hasAlpha) == Limit(hasAlpha)
  {
    SideBounds(width, height, hasAlpha);
    SideBounds(height, width, hasAlpha);
    assert MaxNat(width, height) == MaxNat(height, width);
  }

  /** The 3-bit field of header16: ly for a landscape image (width > height), lx otherwise. */
  function GeometryField(width: nat, height: nat, hasAlpha: bool): (r: nat)
    requires width > 0 || height > 0
    ensures 1 <= r <= Limit(hasAlpha) < 8
  {
    EncoderGeometry(width, height, hasAlpha);
    if width > height then EncoderLy(width, height, hasAlpha) else EncoderLx(width, height, hasAlpha)
  }

  /** The unfloored counts rebuilt from the flags and the field (ThumbHashToApproximateAspectRatio). */
  function StoredLx(isLandscape: bool, hasAlpha: bool, field: nat): nat {
    if isLandscape then Limit(hasAlpha) else field
  }

  function StoredLy(isLandscape: bool, hasAlpha: bool, field: nat): nat {
    if isLandscape then field else Limit(hasAlpha)
  }

  function Max3(n: nat): nat {
    if n < 3 then 3 else n
  }

  /** The decoder's luminance grid: max(3, ...) of the rebuilt counts. */
  function DecoderLx(isLandscape: bool, hasAlpha: bool, field: nat): nat {
    Max3(StoredLx(isLandscape, hasAlpha, field))
  }

  function DecoderLy(isLandscape: bool, hasAlpha: bool, field: nat): nat {
    Max3(StoredLy(isLandscape, hasAlpha, field))
  }

  /**
   * The flags and the field the encoder stores rebuild its own lx and ly
   * exactly, so the decoder's grid is the encoder's max(3, lx) by max(3, ly).
   */
  lemma GeometryRoundTrip(width: nat, height: nat, hasAlpha: bool)
    requires width > 0 || height > 0
    ensures StoredLx(width > height, hasAlpha, GeometryField(width, height, hasAlpha)) == EncoderLx(width, height, hasAlpha)
    ensures StoredLy(width > height, hasAlpha, GeometryField(width, height, hasAlpha)) == EncoderLy(width, height, hasAlpha)
    ensures DecoderLx(width > height, hasAlpha, GeometryField(width, height, hasAlpha)) == Max3(EncoderLx(width, height, hasAlpha))
    ensures DecoderLy(width > height, hasAlpha, GeometryField(width, height, hasAlpha)) == Max3(EncoderLy(width, height, hasAlpha))
  {
    EncoderGeometry(width, height, hasAlpha);
  }

  /** A landscape image gets at least as many horizontal as vertical terms, a portrait one the reverse. */
  lemma Orientation(width: nat, height: nat, hasAlpha: bool)
    requires width > 0 || height > 0
    ensures width >= height ==> EncoderLx(width, height, hasAlpha) >= EncoderLy(width, height, hasAlpha)
    ensures height >= width ==> EncoderLy(width, height, hasAlpha) >= EncoderLx(width, height, hasAlpha)
  {
    EncoderGeometry(width, height, hasAlpha);
  }
}
