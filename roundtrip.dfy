/**
 * What the decoder recovers from a hash the encoder wrote
 * (src/Thumbhash.cpp, RGBAToThumbHash against ThumbHashToRGBA,
 * ThumbHashToApproximateAspectRatio and ThumbHashToAverageRGBA): the
 * header and the luminance grid exactly, every DC and scale to within half
 * a step of its grid, and every AC value to within the quantisation step
 * of its projection.
 */
module RoundTrip {
  import opened Wrappers
  import opened Triangle
  import opened Nibbles
  import opened Quantisation
  import opened Channels
  import opened Headers
  import opened Geometry
  import opened Pixels
  import opened Fields
  import opened Encoder
  import opened Decoder
  import opened Metadata

  /** The AC values a channel encoded from coef decodes to: its remapped projections, quantised, then dequantised with scale. */
  function DecodedAc(coef: Coefficients, nx: nat, ny: nat, scale: real): (r: seq<real>)
    requires Bounded(coef)
    ensures |r| == TermCount(nx, ny)
  {
    EncodedRanges(coef, nx, ny);
    Dequantised(Quantised(EncodedAc(coef, nx, ny)), scale)
  }

  /**
   * What the decoder reads from a hash of projections pr, defined without a
   * single bit: the encoder's header, and each channel's AC values through
   * quantisation and the decoder's scale.
   */
  function ProjectedFactors(width: nat, height: nat, hasAlpha: bool, pr: Projections): Factors
    requires width > 0 && height > 0 && ProjectionsInRange(pr)
  {
    var h := EncodedHeader(width, height, hasAlpha, pr);
    var nx, ny := GridX(width, height, hasAlpha), GridY(width, height, hasAlpha);
    Factors(h, DecodedAc(pr.l, nx, ny, LScaleOf(h)), DecodedAc(pr.p, 3, 3, Boosted(PScaleOf(h))),
      DecodedAc(pr.q, 3, 3, Boosted(QScaleOf(h))), if hasAlpha then Some(DecodedAc(pr.a, 5, 5, AScaleOf(h))) else None)
  }

  /** What the decoder reads from the hash of an image. */
  function ImageFactors(width: nat, height: nat, pixels: seq<Pixel>, project: Projector): Factors
    requires IsImage(width, height, pixels) && ProjectorBounded(project)
  {
    ProjectionsOfInRange(width, height, pixels, project);
    ProjectedFactors(width, height, HasAlpha(pixels), ProjectionsOf(width, height, pixels, project))
  }

  /**
   * The hash of projections pr is decodable, its header parses back to
   * the encoder's header, whose grid is the encoder's luminance grid, and
   * the decoder reads from it exactly the factors pr defines: the four
   * channels stay aligned.
   */
  lemma ProjectedFactorsOf(width: nat, height: nat, hasAlpha: bool, pr: Projections)
    requires width > 0 && height > 0 && ProjectionsInRange(pr)
    ensures var h, v := EncodedHeader(width, height, hasAlpha, pr), EncodedNibbles(width, height, hasAlpha, pr);
      var hash := HeaderBytes(h) + PackNibbles(v);
      Decodable(hash) && ParseHeader(hash) == h && h.alpha.Some? == hasAlpha
      && LxOf(h) == GridX(width, height, hasAlpha) && LyOf(h) == GridY(width, height, hasAlpha)
      && FactorsOf(hash, h) == ProjectedFactors(width, height, hasAlpha, pr)
  {
    var h, v := EncodedHeader(width, height, hasAlpha, pr), EncodedNibbles(width, height, hasAlpha, pr);
    var nx, ny := GridX(width, height, hasAlpha), GridY(width, height, hasAlpha);
    EncodedHashGeometry(width, height, hasAlpha, pr);
    EncodedNibblesLength(width, height, hasAlpha, pr);
    assert LCount(h) == TermCount(nx, ny);
    DecodePacked(h, v);
    EncodedRanges(pr.l, nx, ny);
    EncodedRanges(pr.p, 3, 3);
    EncodedRanges(pr.q, 3, 3);
    EncodedRanges(pr.a, 5, 5);
    FixedTermCounts();
    var ql, qp, qq := Quantised(EncodedAc(pr.l, nx, ny)), Quantised(EncodedAc(pr.p, 3, 3)), Quantised(EncodedAc(pr.q, 3, 3));
    var qa := if hasAlpha then Quantised(EncodedAc(pr.a, 5, 5)) else [];
    assert v == ql + qp + qq + qa;
    FactorsOfStream(HeaderBytes(h) + PackNibbles(v), h, ql, qp, qq, qa);
  }

  /** Decoding the hash of an image reads exactly the factors the image defines. */
  lemma EncodedFactors(width: nat, height: nat, pixels: seq<Pixel>, project: Projector)
    requires IsImage(width, height, pixels) && ProjectorBounded(project)
    ensures Decodable(EncodedHash(width, height, pixels, project))
    ensures var hash := EncodedHash(width, height, pixels, project);
      ParseHeader(hash) == ImageHeader(width, height, pixels, project)
      && FactorsOf(hash, ParseHeader(hash)) == ImageFactors(width, height, pixels, project)
  {
    ProjectionsOfInRange(width, height, pixels, project);
    ProjectedFactorsOf(width, height, HasAlpha(pixels), ProjectionsOf(width, height, pixels, project));
  }

  /**
   * The decoder's DCs and scales are those of the encoder to within half a
   * step of their grids: 1/126 for the L DC, 1/63 for the P and Q DCs,
   * 1/62 for the L scale, 1/126 for the P and Q scales and 1/30 for the A
   * DC and scale; without alpha the opacity is exactly 1.
   */
  lemma DecodedConstants(width: nat, height: nat, c: Constants)
    requires width > 0 && height > 0 && ConstantsInRange(c)
    ensures var h := HeaderOf(width, height, c);
      Abs(LDcOf(h) - c.lDc) <= 0.5 / 63.0 && Abs(PDcOf(h) - c.pDc) <= 0.5 / 31.5 && Abs(QDcOf(h) - c.qDc) <= 0.5 / 31.5
      && Abs(LScaleOf(h) - c.lScale) <= 0.5 / 31.0
      && Abs(PScaleOf(h) - c.pScale) <= 0.5 / 63.0 && Abs(QScaleOf(h) - c.qScale) <= 0.5 / 63.0
      && (c.alpha.Some? ==> Abs(ADcOf(h) - c.alpha.value.0) <= 0.5 / 15.0 && Abs(AScaleOf(h) - c.alpha.value.1) <= 0.5 / 15.0)
      && (c.alpha.None? ==> ADcOf(h) == 1.0)
  {
    FieldRoundTrip6(c.lDc);
    FieldRoundTripSigned(c.pDc);
    FieldRoundTripSigned(c.qDc);
    FieldRoundTrip5(c.lScale);
    FieldRoundTrip6(c.pScale);
    FieldRoundTrip6(c.qScale);
    if c.alpha.Some? {
      FieldRoundTrip4(c.alpha.value.0);
      FieldRoundTrip4(c.alpha.value.1);
    }
  }

  /**
   * Every AC value a channel decodes to lies within scale / 15 + e of its
   * projection, when the decoder's scale is within e of the encoder's:
   * the nibble's half step, and the error of the scale itself.
   */
  lemma DecodedAcError(coef: Coefficients, nx: nat, ny: nat, scale: real, e: real)
    requires Bounded(coef) && Abs(scale - EncodedScale(coef, nx, ny)) <= e
    ensures Near(DecodedAc(coef, nx, ny, scale), Raw(coef, ScanOrder(nx, ny)), EncodedScale(coef, nx, ny) / 15.0 + e)
  {
    EncodedRanges(coef, nx, ny);
    NormalisedError(Raw(coef, ScanOrder(nx, ny)), EncodedScale(coef, nx, ny), scale, e);
  }

  /** The remap, quantisation and dequantisation of the AC values of one channel: each comes back within s / 15 + e. */
  lemma NormalisedError(raw: seq<real>, s: real, scale: real, e: real)
    requires forall i :: 0 <= i < |raw| ==> Abs(raw[i]) <= s
    requires Abs(scale - s) <= e
    ensures forall i :: 0 <= i < |raw| ==> 0.0 <= Normalise(raw, s)[i] <= 1.0
    ensures Near(Dequantised(Quantised(Normalise(raw, s)), scale), raw, s / 15.0 + e)
  {
    NormaliseInUnit(raw, s);
    var ac := Normalise(raw, s);
    forall i | 0 <= i < |raw|
      ensures Abs(Dequantised(Quantised(ac), scale)[i] - raw[i]) <= s / 15.0 + e
    {
      ValueError(raw[i], ac[i], s, scale, e);
    }
  }

  /**
   * One AC value x with |x| <= s, remapped to v (x itself when s is zero),
   * quantised and dequantised with a scale within e of s, comes back within
   * s / 15 + e of x.
   */
  lemma ValueError(x: real, v: real, s: real, scale: real, e: real)
    requires Abs(x) <= s && 0.0 <= v <= 1.0 && Abs(scale - s) <= e
    requires s > 0.0 ==> v == Remapped(x, s)
    requires s <= 0.0 ==> v == x
    ensures Abs(Dequantise(QuantiseNibble(v), scale) - x) <= s / 15.0 + e
  {
    var d := QuantiseNibble(v);
    DequantiseShift(d, scale, s, e);
    if s > 0.0 {
      QuantisationError(x, s);
    } else {
      assert x == 0.0 && s == 0.0;
      assert Dequantise(d, s) == 0.0;
    }
    TriangleInequality(Dequantise(d, scale), Dequantise(d, s), x, e, s / 15.0);
  }

  /** Dequantising with a scale off by at most e moves the value by at most e. */
  lemma DequantiseShift(d: Nibble, scale: real, s: real, e: real)
    requires Abs(scale - s) <= e
    ensures Abs(Dequantise(d, scale) - Dequantise(d, s)) <= e
  {
    var k := (d as int) as real / 7.5 - 1.0;
    NibbleFactor(d);
    ScaledBound(k, scale - s, e);
    Distribute(k, scale, s);
  }

  /** A nibble d gives the factor d / 7.5 - 1 of [-1, 1]. */
  lemma NibbleFactor(d: Nibble)
    ensures -1.0 <= (d as int) as real / 7.5 - 1.0 <= 1.0
  {
    NibbleRange(d);
  }

  lemma NibbleRange(d: Nibble)
    ensures 0 <= d as int <= 15
  {
  }

  lemma Distribute(k: real, a: real, b: real)
    ensures k * a - k * b == k * (a - b)
  {
  }

  lemma TriangleInequality(a: real, b: real, c: real, e1: real, e2: real)
    requires Abs(a - b) <= e1 && Abs(b - c) <= e2
    ensures Abs(a - c) <= e2 + e1
  {
  }

  lemma ScaledBound(k: real, x: real, e: real)
    requires -1.0 <= k <= 1.0 && Abs(x) <= e
    ensures Abs(k * x) <= e
  {
    if x >= 0.0 {
      assert -x <= k * x <= x;
    } else {
      assert x <= k * x <= -x;
    }
  }

  /** The P and Q boost scales the decoded values: dequantising with 1.25 times the scale is 1.25 times the value. */
  lemma DequantisedBoost(v: seq<Nibble>, scale: real)
    ensures Dequantised(v, Boosted(scale)) == Boost(Dequantised(v, scale))
  {
    var x, y := Dequantised(v, Boosted(scale)), Boost(Dequantised(v, scale));
    forall i | 0 <= i < |v|
      ensures x[i] == y[i]
    {
      DequantiseBoost(v[i], scale);
    }
  }

  lemma DequantiseBoost(d: Nibble, scale: real)
    ensures Dequantise(d, Boosted(scale)) == Boosted(Dequantise(d, scale))
  {
    Associate((d as int) as real / 7.5 - 1.0, scale);
  }

  lemma Associate(k: real, scale: real)
    ensures k * (scale * 1.25) == (k * scale) * 1.25
  {
  }

  /** Values within b of their references are, boosted, within 1.25 b of the boosted references. */
  lemma NearBoost(x: seq<real>, y: seq<real>, b: real)
    requires Near(x, y, b)
    ensures Near(Boost(x), Boost(y), Boosted(b))
  {
    forall i | 0 <= i < |y|
      ensures Abs(Boost(x)[i] - Boost(y)[i]) <= Boosted(b)
    {
      assert Boost(x)[i] - Boost(y)[i] == 1.25 * (x[i] - y[i]);
    }
  }

  /** Every decoded value lies within bound of its reference value. */
  predicate Near(decoded: seq<real>, reference: seq<real>, bound: real) {
    |decoded| == |reference| && forall i :: 0 <= i < |reference| ==> Abs(decoded[i] - reference[i]) <= bound
  }

  /** Every value boosted by 1.25. */
  function Boost(v: seq<real>): (r: seq<real>)
    ensures |r| == |v| && forall i :: 0 <= i < |v| ==> r[i] == Boosted(v[i])
  {
    seq(|v|, i requires 0 <= i < |v| => Boosted(v[i]))
  }

  /**
   * Decoding a hash of projections pr: every L value lies within s / 15 +
   * 1/62 of its projection (s the channel's largest |AC|), every A value
   * within s / 15 + 1/30, and every P and Q value within 1.25 (s / 15 +
   * 1/126) of 1.25 times its projection.
   */
  lemma FactorsError(width: nat, height: nat, hasAlpha: bool, pr: Projections)
    requires width > 0 && height > 0 && ProjectionsInRange(pr)
    ensures var f, nx, ny := ProjectedFactors(width, height, hasAlpha, pr), GridX(width, height, hasAlpha), GridY(width, height, hasAlpha);
      Near(f.l, Raw(pr.l, ScanOrder(nx, ny)), EncodedScale(pr.l, nx, ny) / 15.0 + 0.5 / 31.0)
      && Near(f.p, Boost(Raw(pr.p, ScanOrder(3, 3))), Boosted(EncodedScale(pr.p, 3, 3) / 15.0 + 0.5 / 63.0))
      && Near(f.q, Boost(Raw(pr.q, ScanOrder(3, 3))), Boosted(EncodedScale(pr.q, 3, 3) / 15.0 + 0.5 / 63.0))
      && (f.a.Some? <==> hasAlpha)
      && (hasAlpha ==> Near(f.a.value, Raw(pr.a, ScanOrder(5, 5)), EncodedScale(pr.a, 5, 5) / 15.0 + 0.5 / 15.0))
  {
    var nx, ny := GridX(width, height, hasAlpha), GridY(width, height, hasAlpha);
    var c, h := ConstantsOf(width, height, hasAlpha, pr), EncodedHeader(width, height, hasAlpha, pr);
    ConstantsOfInRange(width, height, hasAlpha, pr);
    DecodedConstants(width, height, c);
    DecodedAcError(pr.l, nx, ny, LScaleOf(h), 0.5 / 31.0);
    ChromaError(pr.p, PScaleOf(h), 0.5 / 63.0);
    ChromaError(pr.q, QScaleOf(h), 0.5 / 63.0);
    if hasAlpha {
      DecodedAcError(pr.a, 5, 5, AScaleOf(h), 0.5 / 15.0);
    }
  }

  /** A P or Q channel decoded with the boosted scale: within 1.25 (s / 15 + e) of 1.25 times its projection. */
  lemma ChromaError(coef: Coefficients, scale: real, e: real)
    requires Bounded(coef) && Abs(scale - EncodedScale(coef, 3, 3)) <= e
    ensures Near(DecodedAc(coef, 3, 3, Boosted(scale)), Boost(Raw(coef, ScanOrder(3, 3))), Boosted(EncodedScale(coef, 3, 3) / 15.0 + e))
  {
    EncodedRanges(coef, 3, 3);
    DecodedAcError(coef, 3, 3, scale, e);
    DequantisedBoost(Quantised(EncodedAc(coef, 3, 3)), scale);
    NearBoost(DecodedAc(coef, 3, 3, scale), Raw(coef, ScanOrder(3, 3)), EncodedScale(coef, 3, 3) / 15.0 + e);
  }

  /**
   * The approximate aspect ratio of the hash of an image is the encoder's
   * lx / ly; it is at least 1 for an image at least as wide as it is tall,
   * and at most 1 for one at least as tall as it is wide.
   */
  lemma EncodedAspectRatio(width: nat, height: nat, pixels: seq<Pixel>, project: Projector)
    requires IsImage(width, height, pixels) && ProjectorBounded(project)
    ensures var hash, alpha := EncodedHash(width, height, pixels, project), HasAlpha(pixels);
      var lx, ly := EncoderLx(width, height, alpha), EncoderLy(width, height, alpha);
      |hash| >= 5 && ApproximateAspectRatio(hash) == Some(lx as real / ly as real)
      && (width >= height ==> lx as real / ly as real >= 1.0)
      && (height >= width ==> lx as real / ly as real <= 1.0)
  {
    var hash, alpha := EncodedHash(width, height, pixels, project), HasAlpha(pixels);
    var lx, ly := EncoderLx(width, height, alpha), EncoderLy(width, height, alpha);
    EncodedFactors(width, height, pixels, project);
    ProjectionsOfInRange(width, height, pixels, project);
    EncodedHashGeometry(width, height, alpha, ProjectionsOf(width, height, pixels, project));
    AspectRatioFromHeader(hash);
    EncoderGeometry(width, height, alpha);
    Orientation(width, height, alpha);
    QuotientOrder(lx, ly);
  }

  lemma QuotientOrder(lx: nat, ly: nat)
    requires ly > 0
    ensures lx >= ly ==> lx as real / ly as real >= 1.0
    ensures ly >= lx ==> lx as real / ly as real <= 1.0
  {
  }
}
