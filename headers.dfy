/**
 * The constant part of a hash (src/Thumbhash.cpp, RGBAToThumbHash and
 * ThumbHashToRGBA): a 24-bit word (L DC, P DC, Q DC, L scale, alpha flag),
 * a 16-bit word (geometry field, P scale, Q scale, landscape flag), each
 * stored little-endian, and with alpha one more byte (A DC, A scale).
 */
module Headers {
  import opened Wrappers

  type Bits3 = x: bv8 | x < 8
  type Bits4 = x: bv8 | x < 16
  type Bits5 = x: bv8 | x < 32
  type Bits6 = x: bv8 | x < 64

  /** The quantised DC and scale of the alpha channel. */
  datatype AlphaHeader = AlphaHeader(dc: Bits4, scale: Bits4)

  /**
   * The quantised header fields; alpha is present exactly when the
   * has_alpha bit is set.
   */
  datatype Header = Header(
    lDc: Bits6, pDc: Bits6, qDc: Bits6, lScale: Bits5,
    lCount: Bits3, pScale: Bits6, qScale: Bits6, isLandscape: bool,
    alpha: Option<AlphaHeader>)

  /** header24: L DC in bits 0-5, P DC in 6-11, Q DC in 12-17, L scale in 18-22, has_alpha in bit 23. */
  function Header24(h: Header): bv24 {
    (h.lDc as bv24) | ((h.pDc as bv24) << 6) | ((h.qDc as bv24) << 12) | ((h.lScale as bv24) << 18)
      | (if h.alpha.Some? then 0x80_0000 else 0)
  }

  /** header16: the geometry field in bits 0-2, P scale in 3-8, Q scale in 9-14, is_landscape in bit 15. */
  function Header16(h: Header): bv16 {
    (h.lCount as bv16) | ((h.pScale as bv16) << 3) | ((h.qScale as bv16) << 9)
      | (if h.isLandscape then 0x8000 else 0)
  }

  /** hash[5]: the alpha DC in the low nibble, the alpha scale in the high one. */
  function AlphaByte(a: AlphaHeader): bv8 {
    a.dc | (a.scale << 4)
  }

  /** ac_start: the AC nibbles begin after 5 header bytes, 6 with alpha. */
  function AcStart(hasAlpha: bool): nat {
    if hasAlpha then 6 else 5
  }

  /** The header bytes 0 .. ac_start - 1, each word least significant byte first. */
  function HeaderBytes(h: Header): (r: seq<bv8>)
    ensures |r| == AcStart(h.alpha.Some?)
  {
    var w, v := Header24(h), Header16(h);
    [(w & 0xFF) as bv8, ((w >> 8) & 0xFF) as bv8, (w >> 16) as bv8, (v & 0xFF) as bv8, (v >> 8) as bv8]
      + (match h.alpha case Some(a) => [AlphaByte(a)] case None => [])
  }

  /** header24 read back from bytes 0-2. */
  function Word24(hash: seq<bv8>): bv24
    requires |hash| >= 3
  {
    (hash[0] as bv24) | ((hash[1] as bv24) << 8) | ((hash[2] as bv24) << 16)
  }

  /** header16 read back from bytes 3-4. */
  function Word16(hash: seq<bv8>): bv16
    requires |hash| >= 5
  {
    (hash[3] as bv16) | ((hash[4] as bv16) << 8)
  }

  /** The header the bytes announce is all there: 5 bytes, and byte 5 when the alpha bit (bit 7 of byte 2) is set. */
  predicate HeaderFits(hash: seq<bv8>) {
    |hash| >= 5 && (hash[2] & 0x80 != 0 ==> |hash| >= 6)
  }

  /** The has_alpha bit of header24 is bit 7 of byte 2. */
  lemma AlphaBit(hash: seq<bv8>)
    requires |hash| >= 3
    ensures (Word24(hash) >> 23 != 0) == (hash[2] & 0x80 != 0)
  {
  }

  /** The is_landscape bit of header16 is bit 7 of byte 4. */
  lemma LandscapeBit(hash: seq<bv8>)
    requires |hash| >= 5
    ensures (Word16(hash) >> 15 != 0) == (hash[4] & 0x80 != 0)
  {
  }

  /** The decoder's field extraction from header24, header16 and byte 5. */
  function ParseHeader(hash: seq<bv8>): (h: Header)
    requires HeaderFits(hash)
  {
    AlphaBit(hash);
    FromWords(Word24(hash), Word16(hash), if hash[2] & 0x80 != 0 then hash[5] else 0)
  }

  /** The fields of header24, header16 and the alpha byte (read only when the alpha bit is set). */
  function FromWords(w: bv24, v: bv16, b: bv8): Header {
    Header(
      (w & 63) as bv8, ((w >> 6) & 63) as bv8, ((w >> 12) & 63) as bv8, ((w >> 18) & 31) as bv8,
      (v & 7) as bv8, ((v >> 3) & 63) as bv8, ((v >> 9) & 63) as bv8, v >> 15 != 0,
      if w >> 23 != 0 then Some(AlphaHeader(b & 15, (b >> 4) & 15)) else None)
  }

  /** The byte after the words: the alpha byte, or nothing. */
  function AlphaOf(h: Header): bv8 {
    match h.alpha case Some(a) => AlphaByte(a) case None => 0
  }

  /** The words of a header give the header back. */
  lemma FromWordsOf(h: Header)
    ensures FromWords(Header24(h), Header16(h), AlphaOf(h)) == h
  {
    Fields24(h);
    Fields16(h);
    if h.alpha.Some? {
      AlphaFields(h.alpha.value);
    }
  }

  /** Every field of header24 sits in its own bits. */
  lemma Fields24(h: Header)
    ensures Header24(h) & 63 == h.lDc as bv24
    ensures (Header24(h) >> 6) & 63 == h.pDc as bv24
    ensures (Header24(h) >> 12) & 63 == h.qDc as bv24
    ensures (Header24(h) >> 18) & 31 == h.lScale as bv24
    ensures (Header24(h) >> 23 != 0) == h.alpha.Some?
  {
  }

  lemma Fields16(h: Header)
    ensures Header16(h) & 7 == h.lCount as bv16
    ensures (Header16(h) >> 3) & 63 == h.pScale as bv16
    ensures (Header16(h) >> 9) & 63 == h.qScale as bv16
    ensures (Header16(h) >> 15 != 0) == h.isLandscape
  {
  }

  lemma AlphaFields(a: AlphaHeader)
    ensures AlphaByte(a) & 15 == a.dc && (AlphaByte(a) >> 4) & 15 == a.scale
  {
  }

  /** A header written at the front of a hash is parsed back field for field, whatever follows it. */
  lemma ParseHeaderBytes(h: Header, rest: seq<bv8>)
    ensures HeaderFits(HeaderBytes(h) + rest)
    ensures ParseHeader(HeaderBytes(h) + rest) == h
  {
    Word24OfBytes(h, rest);
    Word16OfBytes(h, rest);
    AlphaOfBytes(h, rest);
    FromWordsOf(h);
  }

  /** header24 read back from a written header. */
  lemma Word24OfBytes(h: Header, rest: seq<bv8>)
    ensures |HeaderBytes(h) + rest| >= 5
    ensures Word24(HeaderBytes(h) + rest) == Header24(h)
  {
    LeadingBytes(h, rest);
    JoinWord24(Header24(h), HeaderBytes(h) + rest);
  }

  /** header16 read back from a written header. */
  lemma Word16OfBytes(h: Header, rest: seq<bv8>)
    ensures |HeaderBytes(h) + rest| >= 5
    ensures Word16(HeaderBytes(h) + rest) == Header16(h)
  {
    LeadingBytes(h, rest);
    JoinWord16(Header16(h), HeaderBytes(h) + rest);
  }

  /** Bytes 0-4 of a written header are the two words, least significant byte first. */
  lemma LeadingBytes(h: Header, rest: seq<bv8>)
    ensures var hash := HeaderBytes(h) + rest;
      |hash| >= 5 &&
      hash[0] == (Header24(h) & 0xFF) as bv8 && hash[1] == ((Header24(h) >> 8) & 0xFF) as bv8 &&
      hash[2] == (Header24(h) >> 16) as bv8 &&
      hash[3] == (Header16(h) & 0xFF) as bv8 && hash[4] == (Header16(h) >> 8) as bv8
  {
  }

  /** Bytes that split header24 join back into it. */
  lemma JoinWord24(w: bv24, hash: seq<bv8>)
    requires |hash| >= 3
    requires hash[0] == (w & 0xFF) as bv8 && hash[1] == ((w >> 8) & 0xFF) as bv8 && hash[2] == (w >> 16) as bv8
    ensures Word24(hash) == w
  {
  }

  /** Bytes that split header16 join back into it. */
  lemma JoinWord16(v: bv16, hash: seq<bv8>)
    requires |hash| >= 5
    requires hash[3] == (v & 0xFF) as bv8 && hash[4] == (v >> 8) as bv8
    ensures Word16(hash) == v
  {
  }

  /** The alpha bit and the alpha byte read back from a written header. */
  lemma AlphaOfBytes(h: Header, rest: seq<bv8>)
    ensures HeaderFits(HeaderBytes(h) + rest)
    ensures (if (HeaderBytes(h) + rest)[2] & 0x80 != 0 then (HeaderBytes(h) + rest)[5] else 0) == AlphaOf(h)
  {
    var hash := HeaderBytes(h) + rest;
    AlphaFlagByte(h);
    assert hash[2] == (Header24(h) >> 16) as bv8;
  }

  /** Bit 7 of byte 2 is the alpha flag. */
  lemma AlphaFlagByte(h: Header)
    ensures (((Header24(h) >> 16) as bv8) & 0x80 != 0) == h.alpha.Some?
  {
  }

  /** Every byte string with a header is the encoding of the header parsed from it: no bit of bytes 0 .. ac_start - 1 is unused. */
  lemma HeaderBytesParse(hash: seq<bv8>)
    requires HeaderFits(hash)
    ensures HeaderBytes(ParseHeader(hash)) == hash[..AcStart(hash[2] & 0x80 != 0)]
  {
    var h := ParseHeader(hash);
    ParsedWords(hash);
    LeadingBytes(h, []);
    ByteOfWord24(hash);
    ByteOfWord16(hash);
    assert HeaderBytes(h) + [] == HeaderBytes(h);
    if h.alpha.Some? {
      assert HeaderBytes(h)[5] == AlphaByte(h.alpha.value);
    }
  }

  /** The words and the alpha byte of a parsed header are those of the bytes it was parsed from. */
  lemma ParsedWords(hash: seq<bv8>)
    requires HeaderFits(hash)
    ensures Header24(ParseHeader(hash)) == Word24(hash)
    ensures Header16(ParseHeader(hash)) == Word16(hash)
    ensures ParseHeader(hash).alpha.Some? == (hash[2] & 0x80 != 0)
    ensures ParseHeader(hash).alpha.Some? ==> AlphaByte(ParseHeader(hash).alpha.value) == hash[5]
  {
    var b := if hash[2] & 0x80 != 0 then hash[5] else 0;
    AlphaBit(hash);
    Rebuild24(Word24(hash), Word16(hash), b);
    Rebuild16(Word24(hash), Word16(hash), b);
    RebuildAlpha(b);
  }

  lemma RebuildAlpha(b: bv8)
    ensures AlphaByte(AlphaHeader(b & 15, (b >> 4) & 15)) == b
  {
  }

  /** header24 and header16 are the ORs of their fields, each in its place. */
  lemma Rebuild24(w: bv24, v: bv16, b: bv8)
    ensures Header24(FromWords(w, v, b)) == w
  {
  }

  lemma Rebuild16(w: bv24, v: bv16, b: bv8)
    ensures Header16(FromWords(w, v, b)) == v
  {
  }

  /** The bytes of the words read from a hash are the hash's own bytes. */
  lemma ByteOfWord24(hash: seq<bv8>)
    requires |hash| >= 3
    ensures (Word24(hash) & 0xFF) as bv8 == hash[0]
    ensures ((Word24(hash) >> 8) & 0xFF) as bv8 == hash[1]
    ensures (Word24(hash) >> 16) as bv8 == hash[2]
  {
  }

  lemma ByteOfWord16(hash: seq<bv8>)
    requires |hash| >= 5
    ensures (Word16(hash) & 0xFF) as bv8 == hash[3]
    ensures (Word16(hash) >> 8) as bv8 == hash[4]
  {
  }
}
