/**
 * The two header-only queries of a hash (src/Thumbhash.cpp,
 * ThumbHashToApproximateAspectRatio and ThumbHashToAverageRGBA): neither
 * reads an AC nibble, and the aspect ratio does not even need byte 5.
 */
module Metadata {
  import opened Wrappers
  import opened Headers
  import opened Geometry
  import opened Fields
  import opened Colour
  import opened Pixels

  /**
   * ThumbHashToApproximateAspectRatio: lx / ly of the unfloored counts
   * rebuilt from has_alpha (bit 7 of byte 2), is_landscape (bit 7 of byte
   * 4) and the geometry field (bits 0-2 of byte 3). A zero ly, which only
   * a landscape hash with a zero field has, is a division by zero: None.
   */
  function ApproximateAspectRatio(hash: seq<bv8>): (r: Option<real>)
    requires |hash| >= 5
  {
    var hasAlpha, isLandscape := hash[2] & 0x80 != 0, hash[4] & 0x80 != 0;
    var field := (hash[3] & 7) as nat;
    RatioOf(StoredLx(isLandscape, hasAlpha, field), StoredLy(isLandscape, hasAlpha, field))
  }

  /** The quotient lx / ly, absent when ly is zero. */
  function RatioOf(lx: nat, ly: nat): Option<real> {
    if ly == 0 then None else Some(lx as real / ly as real)
  }

  /** The ratio of the counts that a full header parse rebuilds (ThumbHashToRGBA before its max(3, ...)). */
  function HeaderRatio(h: Header): Option<real> {
    RatioOf(StoredLx(h.isLandscape, h.alpha.Some?, h.lCount as nat), StoredLy(h.isLandscape, h.alpha.Some?, h.lCount as nat))
  }

  /** The ratio from bytes 2-4 alone agrees with the one of the full header parse. */
  lemma AspectRatioFromHeader(hash: seq<bv8>)
    requires HeaderFits(hash)
    ensures ApproximateAspectRatio(hash) == HeaderRatio(ParseHeader(hash))
  {
    var h := ParseHeader(hash);
    AlphaBit(hash);
    LandscapeBit(hash);
    GeometryBits(hash);
    assert h.alpha.Some? == (hash[2] & 0x80 != 0);
    assert h.isLandscape == (hash[4] & 0x80 != 0);
    assert h.lCount == hash[3] & 7;
  }

  /** The geometry field of header16 is bits 0-2 of byte 3. */
  lemma GeometryBits(hash: seq<bv8>)
    requires |hash| >= 5
    ensures (Word16(hash) & 7) as bv8 == hash[3] & 7
  {
  }

  /** There is no ratio exactly when ly is zero: a landscape hash whose geometry field is zero. */
  lemma AspectRatioDefined(hash: seq<bv8>)
    requires |hash| >= 5
    ensures ApproximateAspectRatio(hash).None? <==> hash[4] & 0x80 != 0 && hash[3] & 7 == 0
  {
    FieldZero(hash[3]);
  }

  lemma FieldZero(b: bv8)
    ensures ((b & 7) as nat == 0) == (b & 7 == 0)
  {
  }

  /** The average colour as ThumbHashToAverageRGBA computes it, before it leaves the function. */
  datatype Rgba = Rgba(r: real, g: real, b: real, a: real)

  /**
   * The average colour of a hash: the L, P and Q DCs of header24 turned
   * back into RGB, each component clamped to [0, 1], and the alpha DC of
   * byte 5 (1 without alpha).
   */
  function AverageRgba(hash: seq<bv8>): (c: Rgba)
    requires HeaderFits(hash)
    ensures 0.0 <= c.r <= 1.0 && 0.0 <= c.g <= 1.0 && 0.0 <= c.b <= 1.0 && 0.0 <= c.a <= 1.0
  {
    var w := Word24(hash);
    var l := Unit((w & 63) as bv8, 63.0);
    var p := Unit(((w >> 6) & 63) as bv8, 31.5) - 1.0;
    var q := Unit(((w >> 12) & 63) as bv8, 31.5) - 1.0;
    AlphaBit(hash);
    var a := if w >> 23 != 0 then AlphaDc(hash[5]) else 1.0;
    Clamped(l, p, q, a)
  }

  /** The DCs l, p, q turned back into RGB and clamped to [0, 1], with opacity a. */
  function Clamped(l: real, p: real, q: real, a: real): Rgba {
    var rgb := ToRgb(Lpq(l, p, q));
    Rgba(Clamp01(rgb.r), Clamp01(rgb.g), Clamp01(rgb.b), a)
  }

  /** (hash[5] & 15) / 15: the alpha DC of byte 5, in [0, 1]. */
  function AlphaDc(b: bv8): (a: real)
    ensures 0.0 <= a <= 1.0
  {
    LowNibble(b);
    Unit(b & 15, 15.0)
  }

  lemma LowNibble(b: bv8)
    ensures (b & 15) as int <= 15
  {
    assert b & 15 <= 15;
  }

  /** The average colour is the clamped inverse colour transform of the DCs a full header parse gives. */
  lemma AverageFromHeader(hash: seq<bv8>)
    requires HeaderFits(hash)
    ensures var h := ParseHeader(hash);
      AverageRgba(hash) == Clamped(LDcOf(h), PDcOf(h), QDcOf(h), ADcOf(h))
  {
    var h, w := ParseHeader(hash), Word24(hash);
    AlphaBit(hash);
    assert h.lDc == (w & 63) as bv8 && h.pDc == ((w >> 6) & 63) as bv8 && h.qDc == ((w >> 12) & 63) as bv8;
    assert ADcOf(h) == if w >> 23 != 0 then AlphaDc(hash[5]) else 1.0;
  }

  /** DCs that are the L, P and Q of a colour of the unit cube give that colour back exactly. */
  lemma AverageOfColour(hash: seq<bv8>, colour: Rgb)
    requires HeaderFits(hash) && InCube(colour)
    requires var h := ParseHeader(hash); ToLpq(colour) == Lpq(LDcOf(h), PDcOf(h), QDcOf(h))
    ensures AverageRgba(hash).r == colour.r && AverageRgba(hash).g == colour.g && AverageRgba(hash).b == colour.b
  {
    AverageFromHeader(hash);
    ToRgbToLpq(colour);
  }

  /**
   * ThumbHashToAverageRGBA as written: the four floats of [0, 1] go to the
   * RGBAPixel constructor, whose parameters are unsigned char, so each is
   * truncated to 0 or 1.
   */
  function AverageRgbaAsWritten(hash: seq<bv8>): (p: Pixel)
    requires HeaderFits(hash)
    ensures p.red <= 1 && p.green <= 1 && p.blue <= 1 && p.alpha <= 1
  {
    var c := AverageRgba(hash);
    Pixel(Truncated(c.r), Truncated(c.g), Truncated(c.b), Truncated(c.a))
  }

  /** The conversion of a float of [0, 1] to unsigned char: toward zero. */
  function Truncated(x: real): (b: Byte)
    requires 0.0 <= x <= 1.0
    ensures x < 1.0 ==> b == 0
    ensures x == 1.0 ==> b == 1
  {
    if x < 1.0 then 0 else 1
  }

  /**
   * The all-zero header: the average colour is (0, 1/6, 2/3) and opaque,
   * but the pixel as written is (0, 0, 0, 1), not even the opacity's 255.
   */
  lemma AverageTruncated()
    ensures AverageRgba([0, 0, 0, 0, 0]) == Rgba(0.0, 1.0 / 6.0, 2.0 / 3.0, 1.0)
    ensures AverageRgbaAsWritten([0, 0, 0, 0, 0]) == Pixel(0, 0, 0, 1)
  {
    var hash: seq<bv8> := [0, 0, 0, 0, 0];
    assert Word24(hash) == 0;
  }
}
