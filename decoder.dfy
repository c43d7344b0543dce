/**
 * The decoder (src/Thumbhash.cpp, ThumbHashToRGBA up to the cosine
 * reconstruction, ThumbHashToApproximateAspectRatio and
 * ThumbHashToAverageRGBA): the header parse, the luminance grid it
 * announces, the recount of the L terms, and the channels filled from the
 * nibble stream.
 */
module Decoder {
  import opened Wrappers
  import opened Triangle
  import opened Nibbles
  import opened Quantisation
  import opened Channels
  import opened Headers
  import opened Geometry
  import opened Fields

  /** lx and ly of ThumbHashToRGBA: max(3, ...) of the counts the flags and the geometry field give. */
  function LxOf(h: Header): nat {
    DecoderLx(h.isLandscape, h.alpha.Some?, h.lCount as nat)
  }

  function LyOf(h: Header): nat {
    DecoderLy(h.isLandscape, h.alpha.Some?, h.lCount as nat)
  }

  /** n: the number of L terms the decoder reads. */
  function LCount(h: Header): nat {
    TermCount(LxOf(h), LyOf(h))
  }

  /** Every AC nibble a header announces: n for L, 5 each for P and Q, and 14 for A. */
  function NibbleCount(h: Header): nat {
    LCount(h) + 5 + 5 + (if h.alpha.Some? then 14 else 0)
  }

  /** The hash holds every nibble header h announces. */
  predicate Fits(hash: seq<bv8>, h: Header) {
    SlotsFit(|hash|, AcStart(h.alpha.Some?), 0, NibbleCount(h))
  }

  /** The hash holds its header and every nibble the header announces. */
  predicate Decodable(hash: seq<bv8>) {
    HeaderFits(hash) && Fits(hash, ParseHeader(hash))
  }

  /** The AC nibbles of a hash with header h, in stream order. */
  function StreamOf(hash: seq<bv8>, h: Header): (r: seq<Nibble>)
    requires Fits(hash, h)
    ensures |r| == NibbleCount(h)
  {
    ReadNibbles(hash, AcStart(h.alpha.Some?), 0, NibbleCount(h))
  }

  /** The decoded header and the AC values of every channel, alpha only when the header has it. */
  datatype Factors = Factors(header: Header, l: seq<real>, p: seq<real>, q: seq<real>, a: Option<seq<real>>)

  /** The saturation boost of the P and Q scales: 1.25 times the scale in the header. */
  function Boosted(scale: real): real {
    scale * 1.25
  }

  /**
   * What ThumbHashToRGBA reads before the reconstruction of a hash with
   * header h: L from the first n nibbles scaled by l_scale, P and Q from the
   * next five each scaled by 1.25 times their scale, and A from the next 14
   * scaled by a_scale.
   */
  function FactorsOf(hash: seq<bv8>, h: Header): Factors
    requires Fits(hash, h)
  {
    FactorsAt(hash, h, AcStart(h.alpha.Some?), LCount(h))
  }

  /** The factors of header h read from slot start on, with n L terms. */
  function FactorsAt(hash: seq<bv8>, h: Header, start: nat, n: nat): Factors
    requires SlotsFit(|hash|, start, 0, n + 10 + (if h.alpha.Some? then 14 else 0))
  {
    var total := n + 10 + (if h.alpha.Some? then 14 else 0);
    SlotsWithin(|hash|, start, total, 0, n);
    SlotsWithin(|hash|, start, total, n, 5);
    SlotsWithin(|hash|, start, total, n + 5, 5);
    SlotsWithin(|hash|, start, total, n + 10, total - n - 10);
    Factors(h,
      Dequantised(ReadNibbles(hash, start, 0, n), LScaleOf(h)),
      Dequantised(ReadNibbles(hash, start, n, 5), Boosted(PScaleOf(h))),
      Dequantised(ReadNibbles(hash, start, n + 5, 5), Boosted(QScaleOf(h))),
      if h.alpha.Some? then Some(Dequantised(ReadNibbles(hash, start, n + 10, 14), AScaleOf(h))) else None)
  }

  /**
   * The first half of ThumbHashToRGBA: parses the header, then decodes the
   * channels it announces.
   */
  method DecodeFactors(hash: array<bv8>) returns (header: Header, l: Channel, p: Channel, q: Channel, a: Option<Channel>)
    requires Decodable(hash[..])
    ensures header == ParseHeader(hash[..]) && Fits(hash[..], header) && a.Some? == header.alpha.Some?
    ensures fresh(l.ac) && fresh(p.ac) && fresh(q.ac) && (a.Some? ==> fresh(a.value.ac))
    ensures DecodedAs(l, LxOf(header), LyOf(header), FactorsOf(hash[..], header).l)
    ensures DecodedAs(p, 3, 3, FactorsOf(hash[..], header).p) && DecodedAs(q, 3, 3, FactorsOf(hash[..], header).q)
    ensures a.Some? ==> FactorsOf(hash[..], header).a.Some? && DecodedAs(a.value, 5, 5, FactorsOf(hash[..], header).a.value)
  {
    header := ParseHeader(hash[..]);
    l, p, q, a := DecodeChannels(hash, header);
  }

  /**
   * The channels of ThumbHashToRGBA for header h: recounts the L terms, and
   * decodes the L, P, Q and (with alpha) A channels from one shared nibble
   * stream.
   */
  method DecodeChannels(hash: array<bv8>, h: Header) returns (l: Channel, p: Channel, q: Channel, a: Option<Channel>)
    requires Fits(hash[..], h)
    ensures a.Some? == h.alpha.Some?
    ensures fresh(l.ac) && fresh(p.ac) && fresh(q.ac) && (a.Some? ==> fresh(a.value.ac))
    ensures DecodedAs(l, LxOf(h), LyOf(h), FactorsOf(hash[..], h).l)
    ensures DecodedAs(p, 3, 3, FactorsOf(hash[..], h).p) && DecodedAs(q, 3, 3, FactorsOf(hash[..], h).q)
    ensures a.Some? ==> FactorsOf(hash[..], h).a.Some? && DecodedAs(a.value, 5, 5, FactorsOf(hash[..], h).a.value)
  {
    ghost var bytes := hash[..];
    var hasAlpha := h.alpha.Some?;
    var lx := DecoderLx(h.isLandscape, hasAlpha, h.lCount as nat);
    var ly := DecoderLy(h.isLandscape, hasAlpha, h.lCount as nat);
    var n := CountTerms(lx, ly);
    var start := AcStart(hasAlpha);
    assert n == LCount(h);
    l, p, q, a := DecodeStream(hash, bytes, h, lx, ly, start, n);
  }

  /** The channels of header h from the nibbles from slot start on, with an lx by ly grid of n L terms. */
  method DecodeStream(hash: array<bv8>, ghost bytes: seq<bv8>, h: Header, lx: nat, ly: nat, start: nat, n: nat)
    returns (l: Channel, p: Channel, q: Channel, a: Option<Channel>)
    requires hash[..] == bytes && n == TermCount(lx, ly)
    requires SlotsFit(|bytes|, start, 0, n + 10 + (if h.alpha.Some? then 14 else 0))
    ensures a.Some? == h.alpha.Some? && hash[..] == bytes
    ensures fresh(l.ac) && fresh(p.ac) && fresh(q.ac) && (a.Some? ==> fresh(a.value.ac))
    ensures DecodedAs(l, lx, ly, FactorsAt(bytes, h, start, n).l)
    ensures DecodedAs(p, 3, 3, FactorsAt(bytes, h, start, n).p) && DecodedAs(q, 3, 3, FactorsAt(bytes, h, start, n).q)
    ensures a.Some? ==> FactorsAt(bytes, h, start, n).a.Some? && DecodedAs(a.value, 5, 5, FactorsAt(bytes, h, start, n).a.value)
  {
    FactorsAtParts(bytes, h, start, n);
    var index;
    l, index := DecodeChannel(hash, bytes, lx, ly, start, 0, n, LScaleOf(h));
    assert index == n;
    p, q := DecodeChroma(hash, bytes, h, start, n);
    a := DecodeAlpha(hash, bytes, h, start, n + 10);
  }

  /** The P and Q channels: 3 by 3 each, five nibbles each from slot index on, scaled by the boosted scales. */
  method DecodeChroma(hash: array<bv8>, ghost bytes: seq<bv8>, h: Header, start: nat, index: nat) returns (p: Channel, q: Channel)
    requires hash[..] == bytes && SlotsFit(|bytes|, start, index, 5) && SlotsFit(|bytes|, start, index + 5, 5)
    ensures fresh(p.ac) && fresh(q.ac) && hash[..] == bytes
    ensures DecodedAs(p, 3, 3, Dequantised(ReadNibbles(bytes, start, index, 5), Boosted(PScaleOf(h))))
    ensures DecodedAs(q, 3, 3, Dequantised(ReadNibbles(bytes, start, index + 5, 5), Boosted(QScaleOf(h))))
  {
    FixedTermCounts();
    var next;
    p, next := DecodeChannel(hash, bytes, 3, 3, start, index, 5, Boosted(PScaleOf(h)));
    assert next == index + 5;
    q, next := DecodeChannel(hash, bytes, 3, 3, start, next, 5, Boosted(QScaleOf(h)));
  }

  /** The A channel when the header has alpha: 5 by 5, 14 nibbles from slot index on, scaled by a_scale. */
  method DecodeAlpha(hash: array<bv8>, ghost bytes: seq<bv8>, h: Header, start: nat, index: nat) returns (a: Option<Channel>)
    requires hash[..] == bytes && (h.alpha.Some? ==> SlotsFit(|bytes|, start, index, 14))
    ensures a.Some? == h.alpha.Some? && hash[..] == bytes
    ensures a.Some? ==> fresh(a.value.ac) && DecodedAs(a.value, 5, 5, Dequantised(ReadNibbles(bytes, start, index, 14), AScaleOf(h)))
  {
    a := None;
    if h.alpha.Some? {
      FixedTermCounts();
      var c, next := DecodeChannel(hash, bytes, 5, 5, start, index, 14, AScaleOf(h));
      a := Some(c);
    }
  }

  /** The parts of the factors of header h read from slot start on, each from its own run of slots. */
  lemma FactorsAtParts(hash: seq<bv8>, h: Header, start: nat, n: nat)
    requires SlotsFit(|hash|, start, 0, n + 10 + (if h.alpha.Some? then 14 else 0))
    ensures var f := FactorsAt(hash, h, start, n);
      SlotsFit(|hash|, start, 0, n) && SlotsFit(|hash|, start, n, 5) && SlotsFit(|hash|, start, n + 5, 5)
      && f.header == h
      && f.l == Dequantised(ReadNibbles(hash, start, 0, n), LScaleOf(h))
      && f.p == Dequantised(ReadNibbles(hash, start, n, 5), Boosted(PScaleOf(h)))
      && f.q == Dequantised(ReadNibbles(hash, start, n + 5, 5), Boosted(QScaleOf(h)))
      && (h.alpha.Some? <==> f.a.Some?)
      && (h.alpha.Some? ==>
            SlotsFit(|hash|, start, n + 10, 14) && f.a == Some(Dequantised(ReadNibbles(hash, start, n + 10, 14), AScaleOf(h))))
  {
    var total := n + 10 + (if h.alpha.Some? then 14 else 0);
    SlotsWithin(|hash|, start, total, 0, n);
    SlotsWithin(|hash|, start, total, n, 5);
    SlotsWithin(|hash|, start, total, n + 5, 5);
    SlotsWithin(|hash|, start, total, n + 10, total - n - 10);
  }

  /** A decoded channel: grid nx by ny and the AC values values. */
  ghost predicate DecodedAs(c: Channel, nx: nat, ny: nat, values: seq<real>)
    reads c, c.ac
  {
    c.Valid() && c.nx == nx && c.ny == ny && c.ac[..] == values
  }

  /** new Channel(nx, ny) and its Decode of all its count terms. */
  method DecodeChannel(hash: array<bv8>, ghost bytes: seq<bv8>, nx: nat, ny: nat, start: nat, index: nat, count: nat, scale: real)
    returns (c: Channel, next: nat)
    requires hash[..] == bytes && count == TermCount(nx, ny) && SlotsFit(|bytes|, start, index, count)
    ensures fresh(c) && fresh(c.ac) && next == index + count && hash[..] == bytes
    ensures DecodedAs(c, nx, ny, Dequantised(ReadNibbles(bytes, start, index, count), scale))
  {
    c := new Channel(nx, ny);
    next := c.Decode(hash, start, index, count, scale);
    assert c.ac[..] == c.ac[..count];
  }

  /**
   * A header followed by the nibbles it announces, two to a byte, is
   * decodable: the decoder parses the header back and reads every nibble
   * back in order.
   */
  lemma DecodePacked(h: Header, v: seq<Nibble>)
    requires |v| == NibbleCount(h)
    ensures Decodable(HeaderBytes(h) + PackNibbles(v))
    ensures ParseHeader(HeaderBytes(h) + PackNibbles(v)) == h
    ensures StreamOf(HeaderBytes(h) + PackNibbles(v), h) == v
  {
    ParseHeaderBytes(h, PackNibbles(v));
    PackedRead(v);
    ReadAfter(HeaderBytes(h), PackNibbles(v), |v|);
  }

  /** A stream made of the runs ql, qp, qq and qa decodes to each run dequantised with its channel's scale. */
  lemma FactorsOfStream(hash: seq<bv8>, h: Header, ql: seq<Nibble>, qp: seq<Nibble>, qq: seq<Nibble>, qa: seq<Nibble>)
    requires Fits(hash, h) && StreamOf(hash, h) == ql + qp + qq + qa
    requires |ql| == LCount(h) && |qp| == 5 && |qq| == 5 && |qa| == (if h.alpha.Some? then 14 else 0)
    ensures FactorsOf(hash, h) == Factors(h, Dequantised(ql, LScaleOf(h)), Dequantised(qp, Boosted(PScaleOf(h))),
      Dequantised(qq, Boosted(QScaleOf(h))), if h.alpha.Some? then Some(Dequantised(qa, AScaleOf(h))) else None)
  {
    FactorsAtStream(hash, h, AcStart(h.alpha.Some?), ql, qp, qq, qa);
  }

  lemma FactorsAtStream(hash: seq<bv8>, h: Header, start: nat, ql: seq<Nibble>, qp: seq<Nibble>, qq: seq<Nibble>, qa: seq<Nibble>)
    requires |qp| == 5 && |qq| == 5 && |qa| == (if h.alpha.Some? then 14 else 0)
    requires SlotsFit(|hash|, start, 0, |ql| + 10 + |qa|)
    requires ReadNibbles(hash, start, 0, |ql| + 10 + |qa|) == ql + qp + qq + qa
    ensures FactorsAt(hash, h, start, |ql|) == Factors(h, Dequantised(ql, LScaleOf(h)), Dequantised(qp, Boosted(PScaleOf(h))),
      Dequantised(qq, Boosted(QScaleOf(h))), if h.alpha.Some? then Some(Dequantised(qa, AScaleOf(h))) else None)
  {
    StreamParts(hash, start, ql, qp, qq, qa);
    FactorsAtParts(hash, h, start, |ql|);
  }

  /** A stream made of four runs: the slices the decoder reads of it are the runs. */
  lemma StreamParts(hash: seq<bv8>, start: nat, ql: seq<Nibble>, qp: seq<Nibble>, qq: seq<Nibble>, qa: seq<Nibble>)
    requires SlotsFit(|hash|, start, 0, |ql| + |qp| + |qq| + |qa|)
    requires ReadNibbles(hash, start, 0, |ql| + |qp| + |qq| + |qa|) == ql + qp + qq + qa
    ensures var n, m, k := |ql|, |ql| + |qp|, |ql| + |qp| + |qq|;
      SlotsFit(|hash|, start, 0, n) && ReadNibbles(hash, start, 0, n) == ql
      && SlotsFit(|hash|, start, n, |qp|) && ReadNibbles(hash, start, n, |qp|) == qp
      && SlotsFit(|hash|, start, m, |qq|) && ReadNibbles(hash, start, m, |qq|) == qq
      && SlotsFit(|hash|, start, k, |qa|) && ReadNibbles(hash, start, k, |qa|) == qa
  {
    var n, m, k, total := |ql|, |ql| + |qp|, |ql| + |qp| + |qq|, |ql| + |qp| + |qq| + |qa|;
    var s := ql + qp + qq + qa;
    ReadSlice(hash, start, total, 0, n);
    ReadSlice(hash, start, total, n, |qp|);
    ReadSlice(hash, start, total, m, |qq|);
    ReadSlice(hash, start, total, k, |qa|);
    assert s[..n] == ql;
    assert s[n..m] == qp;
    assert s[m..k] == qq;
    assert s[k..total] == qa;
  }

}
