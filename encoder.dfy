/**
 * The encoder (src/Thumbhash.cpp, RGBAToThumbHash): the size check, the
 * average colour and the has_alpha decision, the conversion of every pixel
 * to L, P, Q and A, one channel per component, the header, and the buffer
 * the header bytes and the AC nibbles of the channels go into.
 */
module Encoder {
  import opened Wrappers
  import opened Triangle
  import opened Nibbles
  import opened Quantisation
  import opened Channels
  import opened Headers
  import opened Geometry
  import opened Colour
  import opened Pixels
  import opened Fields

  /**
   * Channel::Encode's cosine projection of a width-by-height buffer of one
   * component: (width, height, values) to f(cx, cy). The model takes it as a
   * parameter.
   */
  type Projector = (nat, nat, seq<real>) -> Coefficients

  /** Every value lies in [lo, 1]. */
  predicate InRange(v: seq<real>, lo: real) {
    forall i :: 0 <= i < |v| ==> lo <= v[i] <= 1.0
  }

  /**
   * An image RGBAToThumbHash defines a hash for: both sides positive (the
   * projection divides by width * height) and one pixel per position.
   */
  predicate IsImage(width: nat, height: nat, pixels: seq<Pixel>) {
    width > 0 && height > 0 && |pixels| == width * height
  }

  /**
   * What the model takes for granted of the projection of a non-empty
   * width-by-height buffer, as of any mean of values weighted by cosines:
   * values of [-1, 1] project into [-1, 1], and the DC term (the plain mean)
   * of values of [0, 1] is not negative.
   */
  ghost predicate ProjectorBounded(project: Projector) {
    (forall w: nat, h: nat, v: seq<real> :: w > 0 && h > 0 && |v| == w * h && InRange(v, -1.0) ==> Bounded(project(w, h, v)))
    && (forall w: nat, h: nat, v: seq<real> :: w > 0 && h > 0 && |v| == w * h && InRange(v, 0.0) ==> 0.0 <= project(w, h, v)(0, 0))
  }

  /** The L, P, Q and A buffers of an image. */
  datatype Buffers = Buffers(l: seq<real>, p: seq<real>, q: seq<real>, a: seq<real>)

  /** The projections of the four buffers. */
  datatype Projections = Projections(l: Coefficients, p: Coefficients, q: Coefficients, a: Coefficients)

  /** avg_red, avg_green, avg_blue after the first loop. */
  function AverageOf(pixels: seq<Pixel>): Rgb {
    Average(WeightedSum(pixels, |pixels|), SumOpacity(pixels, |pixels|))
  }

  /** The buffers the second loop fills: every pixel blended over avg and converted. */
  function BuffersOf(avg: Rgb, pixels: seq<Pixel>): (r: Buffers)
    ensures |r.l| == |r.p| == |r.q| == |r.a| == |pixels|
  {
    Buffers(
      seq(|pixels|, i requires 0 <= i < |pixels| => ChannelValues(avg, pixels[i]).0.l),
      seq(|pixels|, i requires 0 <= i < |pixels| => ChannelValues(avg, pixels[i]).0.p),
      seq(|pixels|, i requires 0 <= i < |pixels| => ChannelValues(avg, pixels[i]).0.q),
      seq(|pixels|, i requires 0 <= i < |pixels| => ChannelValues(avg, pixels[i]).1))
  }

  /** With the average in the unit cube, the L and A buffers lie in [0, 1] and the P and Q buffers in [-1, 1]. */
  lemma BuffersInRange(avg: Rgb, pixels: seq<Pixel>)
    requires InCube(avg)
    ensures var b := BuffersOf(avg, pixels);
      InRange(b.l, 0.0) && InRange(b.p, -1.0) && InRange(b.q, -1.0) && InRange(b.a, 0.0)
  {
    forall i | 0 <= i < |pixels|
      ensures var (c, a) := ChannelValues(avg, pixels[i]);
        0.0 <= c.l <= 1.0 && -1.0 <= c.p <= 1.0 && -1.0 <= c.q <= 1.0 && 0.0 <= a <= 1.0
    {
      ChannelValuesInRange(avg, pixels[i]);
    }
  }

  /** The projections RGBAToThumbHash encodes. */
  function ProjectionsOf(width: nat, height: nat, pixels: seq<Pixel>, project: Projector): Projections {
    var b := BuffersOf(AverageOf(pixels), pixels);
    Projections(project(width, height, b.l), project(width, height, b.p), project(width, height, b.q), project(width, height, b.a))
  }

  /** Every projection lies in [-1, 1], and the L and A DC terms in [0, 1]. */
  ghost predicate ProjectionsInRange(pr: Projections) {
    Bounded(pr.l) && Bounded(pr.p) && Bounded(pr.q) && Bounded(pr.a) && 0.0 <= pr.l(0, 0) && 0.0 <= pr.a(0, 0)
  }

  /** The projections of any image lie in the ranges the header quantises. */
  lemma ProjectionsOfInRange(width: nat, height: nat, pixels: seq<Pixel>, project: Projector)
    requires IsImage(width, height, pixels) && ProjectorBounded(project)
    ensures ProjectionsInRange(ProjectionsOf(width, height, pixels, project))
  {
    var b := BuffersOf(AverageOf(pixels), pixels);
    AverageInCube(pixels);
    BuffersInRange(AverageOf(pixels), pixels);
    assert InRange(b.l, -1.0) && InRange(b.a, -1.0);
  }

  /** The luminance channel's bounds: max(3, lx) by max(3, ly). */
  function GridX(width: nat, height: nat, hasAlpha: bool): nat
    requires width > 0 && height > 0
  {
    Max3(EncoderLx(width, height, hasAlpha))
  }

  function GridY(width: nat, height: nat, hasAlpha: bool): nat
    requires width > 0 && height > 0
  {
    Max3(EncoderLy(width, height, hasAlpha))
  }

  /** The DC and scale of the L, P and Q channels, and of the A channel when there is one. */
  datatype Constants = Constants(lDc: real, pDc: real, qDc: real, lScale: real, pScale: real, qScale: real, alpha: Option<(real, real)>)

  /** L DC and every scale in [0, 1], the P and Q DCs in [-1, 1]. */
  predicate ConstantsInRange(c: Constants) {
    0.0 <= c.lDc <= 1.0 && -1.0 <= c.pDc <= 1.0 && -1.0 <= c.qDc <= 1.0
    && 0.0 <= c.lScale <= 1.0 && 0.0 <= c.pScale <= 1.0 && 0.0 <= c.qScale <= 1.0
    && (c.alpha.Some? ==> 0.0 <= c.alpha.value.0 <= 1.0 && 0.0 <= c.alpha.value.1 <= 1.0)
  }

  /**
   * The header24, header16 and alpha byte fields: every constant quantised
   * onto its grid, the geometry field and the two flags.
   */
  function HeaderOf(width: nat, height: nat, c: Constants): Header
    requires width > 0 && height > 0 && ConstantsInRange(c)
  {
    Header(
      Field6(63.0 * c.lDc), Field6(31.5 + 31.5 * c.pDc), Field6(31.5 + 31.5 * c.qDc), Field5(31.0 * c.lScale),
      Field3(GeometryField(width, height, c.alpha.Some?)), Field6(63.0 * c.pScale), Field6(63.0 * c.qScale),
      width > height,
      match c.alpha case Some((dc, scale)) => Some(AlphaHeader(Field4(15.0 * dc), Field4(15.0 * scale))) case None => None)
  }

  /** The constants the channels of an image end with. */
  function ConstantsOf(width: nat, height: nat, hasAlpha: bool, pr: Projections): (c: Constants)
    requires width > 0 && height > 0
    ensures c.alpha.Some? == hasAlpha
  {
    var nx, ny := GridX(width, height, hasAlpha), GridY(width, height, hasAlpha);
    Constants(
      EncodedDc(pr.l, nx, ny), EncodedDc(pr.p, 3, 3), EncodedDc(pr.q, 3, 3),
      EncodedScale(pr.l, nx, ny), EncodedScale(pr.p, 3, 3), EncodedScale(pr.q, 3, 3),
      if hasAlpha then Some((EncodedDc(pr.a, 5, 5), EncodedScale(pr.a, 5, 5))) else None)
  }

  /** The projections' constants lie in the ranges the header quantises. */
  lemma ConstantsOfInRange(width: nat, height: nat, hasAlpha: bool, pr: Projections)
    requires width > 0 && height > 0 && ProjectionsInRange(pr)
    ensures ConstantsInRange(ConstantsOf(width, height, hasAlpha, pr))
  {
    EncodedRanges(pr.l, GridX(width, height, hasAlpha), GridY(width, height, hasAlpha));
    EncodedRanges(pr.p, 3, 3);
    EncodedRanges(pr.q, 3, 3);
    EncodedRanges(pr.a, 5, 5);
  }

  /** The header the encoder writes. */
  function EncodedHeader(width: nat, height: nat, hasAlpha: bool, pr: Projections): Header
    requires width > 0 && height > 0 && ProjectionsInRange(pr)
  {
    ConstantsOfInRange(width, height, hasAlpha, pr);
    HeaderOf(width, height, ConstantsOf(width, height, hasAlpha, pr))
  }

  /** The AC nibbles in stream order: L, P, Q, then A when there is alpha. */
  function EncodedNibbles(width: nat, height: nat, hasAlpha: bool, pr: Projections): seq<Nibble>
    requires width > 0 && height > 0 && ProjectionsInRange(pr)
  {
    var nx, ny := GridX(width, height, hasAlpha), GridY(width, height, hasAlpha);
    EncodedRanges(pr.l, nx, ny);
    EncodedRanges(pr.p, 3, 3);
    EncodedRanges(pr.q, 3, 3);
    EncodedRanges(pr.a, 5, 5);
    Quantised(EncodedAc(pr.l, nx, ny)) + Quantised(EncodedAc(pr.p, 3, 3)) + Quantised(EncodedAc(pr.q, 3, 3))
      + (if hasAlpha then Quantised(EncodedAc(pr.a, 5, 5)) else [])
  }

  /** The header of an image. */
  function ImageHeader(width: nat, height: nat, pixels: seq<Pixel>, project: Projector): Header
    requires IsImage(width, height, pixels) && ProjectorBounded(project)
  {
    ProjectionsOfInRange(width, height, pixels, project);
    EncodedHeader(width, height, HasAlpha(pixels), ProjectionsOf(width, height, pixels, project))
  }

  /** The AC nibbles of an image. */
  function ImageNibbles(width: nat, height: nat, pixels: seq<Pixel>, project: Projector): seq<Nibble>
    requires IsImage(width, height, pixels) && ProjectorBounded(project)
  {
    ProjectionsOfInRange(width, height, pixels, project);
    EncodedNibbles(width, height, HasAlpha(pixels), ProjectionsOf(width, height, pixels, project))
  }

  /** The hash of an image: the header bytes, then the AC nibbles two to a byte. */
  function EncodedHash(width: nat, height: nat, pixels: seq<Pixel>, project: Projector): seq<bv8>
    requires IsImage(width, height, pixels) && ProjectorBounded(project)
  {
    HeaderBytes(ImageHeader(width, height, pixels, project)) + PackNibbles(ImageNibbles(width, height, pixels, project))
  }

  /** ac_count: the AC terms of all channels, 5 each for P and Q and 14 for A. */
  function AcCount(width: nat, height: nat, hasAlpha: bool): nat
    requires width > 0 && height > 0
  {
    TermCount(GridX(width, height, hasAlpha), GridY(width, height, hasAlpha)) + 5 + 5 + (if hasAlpha then 14 else 0)
  }

  /** There is one nibble per AC term. */
  lemma EncodedNibblesLength(width: nat, height: nat, hasAlpha: bool, pr: Projections)
    requires width > 0 && height > 0 && ProjectionsInRange(pr)
    ensures |EncodedNibbles(width, height, hasAlpha, pr)| == AcCount(width, height, hasAlpha)
  {
    EncodedRanges(pr.l, GridX(width, height, hasAlpha), GridY(width, height, hasAlpha));
    EncodedRanges(pr.p, 3, 3);
    EncodedRanges(pr.q, 3, 3);
    EncodedRanges(pr.a, 5, 5);
    FixedTermCounts();
  }

  /** hash_size_: ac_start header bytes and then (ac_count + 1) / 2 bytes of nibbles. */
  lemma EncodedHashLength(width: nat, height: nat, pixels: seq<Pixel>, project: Projector)
    requires IsImage(width, height, pixels) && ProjectorBounded(project)
    ensures |ImageNibbles(width, height, pixels, project)| == AcCount(width, height, HasAlpha(pixels))
    ensures |EncodedHash(width, height, pixels, project)| ==
      AcStart(HasAlpha(pixels)) + (AcCount(width, height, HasAlpha(pixels)) + 1) / 2
  {
    ProjectionsOfInRange(width, height, pixels, project);
    EncodedNibblesLength(width, height, HasAlpha(pixels), ProjectionsOf(width, height, pixels, project));
    PackNibblesShape(ImageNibbles(width, height, pixels, project));
  }

  /** The decoder's header parse of a hash gives back the header the encoder wrote. */
  lemma EncodedHashHeader(width: nat, height: nat, pixels: seq<Pixel>, project: Projector)
    requires IsImage(width, height, pixels) && ProjectorBounded(project)
    ensures HeaderFits(EncodedHash(width, height, pixels, project))
    ensures ParseHeader(EncodedHash(width, height, pixels, project)) == ImageHeader(width, height, pixels, project)
  {
    ParseHeaderBytes(ImageHeader(width, height, pixels, project), PackNibbles(ImageNibbles(width, height, pixels, project)));
  }

  /** The nibble stream from byte ac_start on reads back as the AC nibbles the encoder wrote. */
  lemma EncodedHashNibbles(width: nat, height: nat, pixels: seq<Pixel>, project: Projector)
    requires IsImage(width, height, pixels) && ProjectorBounded(project)
    ensures SlotsFit(|EncodedHash(width, height, pixels, project)|, AcStart(HasAlpha(pixels)), 0, AcCount(width, height, HasAlpha(pixels)))
    ensures ReadNibbles(EncodedHash(width, height, pixels, project), AcStart(HasAlpha(pixels)), 0, AcCount(width, height, HasAlpha(pixels)))
      == ImageNibbles(width, height, pixels, project)
  {
    var v := ImageNibbles(width, height, pixels, project);
    var h := ImageHeader(width, height, pixels, project);
    EncodedHashLength(width, height, pixels, project);
    PackedRead(v);
    ReadAfter(HeaderBytes(h), PackNibbles(v), |v|);
  }

  /** The geometry the header of a hash announces is the encoder's luminance grid. */
  lemma EncodedHashGeometry(width: nat, height: nat, hasAlpha: bool, pr: Projections)
    requires width > 0 && height > 0 && ProjectionsInRange(pr)
    ensures var h := EncodedHeader(width, height, hasAlpha, pr);
      h.alpha.Some? == hasAlpha && h.isLandscape == (width > height) &&
      StoredLx(h.isLandscape, hasAlpha, h.lCount as nat) == EncoderLx(width, height, hasAlpha) &&
      StoredLy(h.isLandscape, hasAlpha, h.lCount as nat) == EncoderLy(width, height, hasAlpha) &&
      DecoderLx(h.isLandscape, hasAlpha, h.lCount as nat) == GridX(width, height, hasAlpha) &&
      DecoderLy(h.isLandscape, hasAlpha, h.lCount as nat) == GridY(width, height, hasAlpha)
  {
    GeometryRoundTrip(width, height, hasAlpha);
  }

  /**
   * The second loop of RGBAToThumbHash: every pixel blended over the
   * average colour, converted to L, P and Q, and its opacity as A.
   */
  method ToChannels(avg: Rgb, pixels: seq<Pixel>) returns (l: array<real>, p: array<real>, q: array<real>, a: array<real>)
    ensures fresh(l) && fresh(p) && fresh(q) && fresh(a)
    ensures l[..] == BuffersOf(avg, pixels).l && p[..] == BuffersOf(avg, pixels).p
    ensures q[..] == BuffersOf(avg, pixels).q && a[..] == BuffersOf(avg, pixels).a
  {
    var n := |pixels|;
    l, p, q, a := new real[n], new real[n], new real[n], new real[n];
    ghost var b := BuffersOf(avg, pixels);
    for i := 0 to n
      invariant forall k :: 0 <= k < i ==> l[k] == b.l[k] && p[k] == b.p[k] && q[k] == b.q[k] && a[k] == b.a[k]
    {
      var (c, alpha) := ChannelValues(avg, pixels[i]);
      l[i], p[i], q[i], a[i] := c.l, c.p, c.q, alpha;
    }
    assert l[..] == b.l && p[..] == b.p && q[..] == b.q && a[..] == b.a;
  }

  /** hash[0..4] from header24 and header16, least significant byte first, and hash[5] with alpha: the header bytes in order. */
  method WriteHeader(hash: array<bv8>, h: Header)
    requires hash.Length >= AcStart(h.alpha.Some?)
    modifies hash
    ensures hash[..AcStart(h.alpha.Some?)] == HeaderBytes(h)
    ensures hash[AcStart(h.alpha.Some?)..] == old(hash[AcStart(h.alpha.Some?)..])
  {
    var bytes := HeaderBytes(h);
    ghost var rest := hash[|bytes|..];
    for i := 0 to |bytes|
      invariant hash[..i] == bytes[..i] && hash[|bytes|..] == rest
    {
      hash[i] := bytes[i];
    }
  }

  /** A channel that Encode has run on: grid nx by ny, and dc, scale and ac as the projection coef gives them. */
  ghost predicate EncodesAs(c: Channel, coef: Coefficients, nx: nat, ny: nat)
    reads c, c.ac
  {
    c.Valid() && c.nx == nx && c.ny == ny
    && c.dc == EncodedDc(coef, nx, ny) && c.scale == EncodedScale(coef, nx, ny) && c.ac[..] == EncodedAc(coef, nx, ny)
    && forall i :: 0 <= i < c.size ==> 0.0 <= c.ac[i] <= 1.0
  }

  /**
   * The channel objects of RGBAToThumbHash: L on the max(3, lx) by
   * max(3, ly) grid, P and Q on 3 by 3, and A on 5 by 5 when there is alpha.
   */
  method EncodeChannels(width: nat, height: nat, hasAlpha: bool, pr: Projections)
    returns (l: Channel, p: Channel, q: Channel, a: Option<Channel>)
    requires width > 0 && height > 0
    ensures fresh(l.ac) && fresh(p.ac) && fresh(q.ac) && (a.Some? ==> fresh(a.value.ac))
    ensures a.Some? == hasAlpha
    ensures EncodesAs(l, pr.l, GridX(width, height, hasAlpha), GridY(width, height, hasAlpha))
    ensures EncodesAs(p, pr.p, 3, 3) && EncodesAs(q, pr.q, 3, 3)
    ensures a.Some? ==> EncodesAs(a.value, pr.a, 5, 5)
  {
    l := EncodeChannel(GridX(width, height, hasAlpha), GridY(width, height, hasAlpha), pr.l);
    p := EncodeChannel(3, 3, pr.p);
    q := EncodeChannel(3, 3, pr.q);
    a := None;
    if hasAlpha {
      var c := EncodeChannel(5, 5, pr.a);
      a := Some(c);
    }
  }

  /** The header RGBAToThumbHash builds from the channels' DC and scale values is the encoded header. */
  method ChannelsHeader(width: nat, height: nat, hasAlpha: bool, ghost pr: Projections, l: Channel, p: Channel, q: Channel, a: Option<Channel>)
    returns (header: Header)
    requires width > 0 && height > 0 && ProjectionsInRange(pr) && a.Some? == hasAlpha
    requires EncodesAs(l, pr.l, GridX(width, height, hasAlpha), GridY(width, height, hasAlpha))
    requires EncodesAs(p, pr.p, 3, 3) && EncodesAs(q, pr.q, 3, 3)
    requires a.Some? ==> EncodesAs(a.value, pr.a, 5, 5)
    ensures header == EncodedHeader(width, height, hasAlpha, pr)
  {
    ConstantsOfInRange(width, height, hasAlpha, pr);
    var alpha: Option<(real, real)> := None;
    if a.Some? {
      alpha := Some((a.value.dc, a.value.scale));
    }
    var constants := Constants(l.dc, p.dc, q.dc, l.scale, p.scale, q.scale, alpha);
    assert constants == ConstantsOf(width, height, hasAlpha, pr);
    header := HeaderOf(width, height, constants);
  }

  /** The nibbles Write stores for a channel. */
  ghost function ChannelNibbles(c: Channel): seq<Nibble>
    reads c, c.ac
    requires InRange(c.ac[..], 0.0)
  {
    Quantised(c.ac[..])
  }

  /**
   * The buffer of RGBAToThumbHash: ac_start header bytes, then the nibbles
   * of L, P, Q and A one after another, two to a byte.
   */
  method PackChannels(header: Header, l: Channel, p: Channel, q: Channel, a: Option<Channel>)
    returns (hash: array<bv8>)
    requires a.Some? == header.alpha.Some?
    requires l.Valid() && p.Valid() && q.Valid() && (a.Some? ==> a.value.Valid())
    requires InRange(l.ac[..], 0.0) && InRange(p.ac[..], 0.0) && InRange(q.ac[..], 0.0)
    requires a.Some? ==> InRange(a.value.ac[..], 0.0)
    ensures fresh(hash)
    ensures hash[..] == HeaderBytes(header) + PackNibbles(ChannelNibbles(l) + ChannelNibbles(p) + ChannelNibbles(q)
      + (if a.Some? then ChannelNibbles(a.value) else []))
  {
    var start := AcStart(header.alpha.Some?);
    var count := l.size + p.size + q.size + (match a case Some(c) => c.size case None => 0);
    hash := new bv8[start + (count + 1) / 2](_ => 0);
    WriteHeader(hash, header);
    ZeroStream(hash[..], start);
    WriteNibbles(hash, start, l, p, q, a);
    StreamBytes(hash[..], start, ChannelNibbles(l) + ChannelNibbles(p) + ChannelNibbles(q)
      + (if a.Some? then ChannelNibbles(a.value) else []));
  }

  /** The channel writes of RGBAToThumbHash, L, P, Q and then A, into an empty nibble stream. */
  method WriteNibbles(hash: array<bv8>, start: nat, l: Channel, p: Channel, q: Channel, a: Option<Channel>)
    requires l.Valid() && p.Valid() && q.Valid() && (a.Some? ==> a.value.Valid())
    requires InRange(l.ac[..], 0.0) && InRange(p.ac[..], 0.0) && InRange(q.ac[..], 0.0)
    requires a.Some? ==> InRange(a.value.ac[..], 0.0)
    requires hash as object != l.ac && hash as object != p.ac && hash as object != q.ac
    requires a.Some? ==> hash as object != a.value.ac
    requires start <= hash.Length && Stream(hash[..], start, 0, [])
    requires SlotsFit(hash.Length, start, 0, l.size + p.size + q.size + (match a case Some(c) => c.size case None => 0))
    modifies hash
    ensures Stream(hash[..], start, l.size + p.size + q.size + (match a case Some(c) => c.size case None => 0),
      ChannelNibbles(l) + ChannelNibbles(p) + ChannelNibbles(q) + (if a.Some? then ChannelNibbles(a.value) else []))
    ensures hash[..start] == old(hash[..start])
  {
    ghost var nl, np, nq := ChannelNibbles(l), ChannelNibbles(p), ChannelNibbles(q);
    ghost var na := if a.Some? then ChannelNibbles(a.value) else [];
    var index := WriteChannel(l, hash, start, 0, [], nl);
    index := WriteChannel(p, hash, start, index, nl, np);
    index := WriteChannel(q, hash, start, index, nl + np, nq);
    if a.Some? {
      index := WriteChannel(a.value, hash, start, index, nl + np + nq, na);
    }
  }

  /** The nibbles of channels encoded from the projections are the encoded AC nibbles. */
  lemma ChannelsNibbles(width: nat, height: nat, hasAlpha: bool, pr: Projections, l: Channel, p: Channel, q: Channel, a: Option<Channel>)
    requires width > 0 && height > 0 && ProjectionsInRange(pr) && a.Some? == hasAlpha
    requires EncodesAs(l, pr.l, GridX(width, height, hasAlpha), GridY(width, height, hasAlpha))
    requires EncodesAs(p, pr.p, 3, 3) && EncodesAs(q, pr.q, 3, 3)
    requires a.Some? ==> EncodesAs(a.value, pr.a, 5, 5)
    ensures InRange(l.ac[..], 0.0) && InRange(p.ac[..], 0.0) && InRange(q.ac[..], 0.0)
    ensures a.Some? ==> InRange(a.value.ac[..], 0.0)
    ensures ChannelNibbles(l) + ChannelNibbles(p) + ChannelNibbles(q) + (if a.Some? then ChannelNibbles(a.value) else [])
      == EncodedNibbles(width, height, hasAlpha, pr)
  {
  }

  /**
   * RGBAToThumbHash: no hash for an image wider or taller than 100 pixels;
   * otherwise a fresh buffer holding the image's hash.
   */
  method RGBAToThumbHash(width: nat, height: nat, pixels: seq<Pixel>, project: Projector) returns (hash: Option<array<bv8>>)
    requires IsImage(width, height, pixels) && ProjectorBounded(project)
    ensures hash.None? <==> width > 100 || height > 100
    ensures hash.Some? ==> fresh(hash.value) && hash.value[..] == EncodedHash(width, height, pixels, project)
  {
    if width > 100 || height > 100 {
      return None;
    }
    var avg, total := AverageColour(pixels);
    var hasAlpha := total < (width * height) as real;
    var l, p, q, a := ToChannels(avg, pixels);
    var pr := Projections(project(width, height, l[..]), project(width, height, p[..]), project(width, height, q[..]), project(width, height, a[..]));
    assert pr == ProjectionsOf(width, height, pixels, project);
    ProjectionsOfInRange(width, height, pixels, project);
    var lChannel, pChannel, qChannel, aChannel := EncodeChannels(width, height, hasAlpha, pr);
    var header := ChannelsHeader(width, height, hasAlpha, pr, lChannel, pChannel, qChannel, aChannel);
    ChannelsNibbles(width, height, hasAlpha, pr, lChannel, pChannel, qChannel, aChannel);
    var buffer := PackChannels(header, lChannel, pChannel, qChannel, aChannel);
    hash := Some(buffer);
  }

  /**
   * ac_index = channel->Write(hash, ac_start, ac_index): the channel's
   * nibbles extend the stream, and the header bytes are left as they were.
   */
  method WriteChannel(c: Channel, hash: array<bv8>, start: nat, index: nat, ghost written: seq<Nibble>, ghost v: seq<Nibble>)
    returns (next: nat)
    requires c.Valid() && InRange(c.ac[..], 0.0) && v == ChannelNibbles(c) && hash as object != c.ac
    requires start <= hash.Length && Stream(hash[..], start, index, written)
    requires SlotsFit(hash.Length, start, index, c.size)
    modifies hash
    ensures next == index + c.size
    ensures Stream(hash[..], start, next, written + v)
    ensures hash[..start] == old(hash[..start])
  {
    assert forall i :: 0 <= i < c.size ==> 0.0 <= c.ac[i] <= 1.0 by {
      forall i | 0 <= i < c.size ensures 0.0 <= c.ac[i] <= 1.0 {
        assert c.ac[i] == c.ac[..][i];
      }
    }
    StreamWrite(hash[..], start, index, written, v);
    next := c.Write(hash, start, index);
  }
}
