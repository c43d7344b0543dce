/**
 * The AC nibble stream of a hash (src/Thumbhash.cpp, Channel::Write and
 * Channel::Decode): slot j of a stream that begins at byte `start` is the low
 * nibble of byte start + j / 2 when j is even and its high nibble when j is odd.
 */
module Nibbles {

  /** A 4-bit quantised AC value. */
  type Nibble = x: bv8 | x < 16

  /** The low (odd == false) or high (odd == true) nibble of a byte: b >> ((index & 1) << 2) & 15. */
  function Half(b: bv8, odd: bool): Nibble {
    if odd then b >> 4 else b & 0xF
  }

  /** v moved into the low or high nibble of a byte: v << ((index & 1) << 2). */
  function Place(v: Nibble, odd: bool): bv8 {
    if odd then v << 4 else v
  }

  /** All nibble slots index, ..., index + count - 1 of a stream at start lie inside a buffer of length len. */
  predicate SlotsFit(len: nat, start: nat, index: nat, count: nat) {
    count == 0 || start + (index + count - 1) / 2 < len
  }

  /** The nibble in slot j. */
  function NibbleAt(hash: seq<bv8>, start: nat, j: nat): Nibble
    requires start + j / 2 < |hash|
  {
    Half(hash[start + j / 2], j % 2 == 1)
  }

  /** The count nibbles from slot index on. */
  function ReadNibbles(hash: seq<bv8>, start: nat, index: nat, count: nat): (r: seq<Nibble>)
    requires SlotsFit(|hash|, start, index, count)
    ensures |r| == count
    ensures forall k :: 0 <= k < count ==> r[k] == NibbleAt(hash, start, index + k)
  {
    seq<Nibble>(count, k requires 0 <= k < count => NibbleAt(hash, start, index + k))
  }

  /** Two nibbles per byte, low nibble first; an odd count leaves the last high nibble zero. */
  function PackNibbles(v: seq<Nibble>): seq<bv8>
    decreases |v|
  {
    if |v| == 0 then []
    else if |v| == 1 then [Place(v[0], false)]
    else [Place(v[0], false) | Place(v[1], true)] + PackNibbles(v[2..])
  }

  /** Setting a zero nibble of a byte by OR: that nibble becomes v, the other is kept and no bit is cleared. */
  lemma OrIntoHalf(b: bv8, v: Nibble, odd: bool)
    requires Half(b, odd) == 0
    ensures Half(b | Place(v, odd), odd) == v
    ensures Half(b | Place(v, odd), !odd) == Half(b, !odd)
    ensures (b | Place(v, odd)) & b == b
  {
  }

  /** A byte is the OR of its two nibbles, each in its place. */
  lemma ByteOfHalves(b: bv8)
    ensures b == Place(Half(b, false), false) | Place(Half(b, true), true)
  {
  }

  /** The two nibbles of a packed byte. */
  lemma HalvesOfPair(a: Nibble, c: Nibble)
    ensures Half(Place(a, false) | Place(c, true), false) == a
    ensures Half(Place(a, false) | Place(c, true), true) == c
    ensures Half(Place(a, false), true) == 0 && Half(Place(a, false), false) == a
  {
  }

  /** Packing then reading back slot by slot gives the nibbles, and the padding slot of an odd count is zero. */
  lemma {:induction false} PackNibblesShape(v: seq<Nibble>)
    ensures |PackNibbles(v)| == (|v| + 1) / 2
    ensures forall j :: 0 <= j < |v| ==> NibbleAt(PackNibbles(v), 0, j) == v[j]
    ensures |v| % 2 == 1 ==> NibbleAt(PackNibbles(v), 0, |v|) == 0
    decreases |v|
  {
    var p := PackNibbles(v);
    if |v| == 1 {
      HalvesOfPair(v[0], 0);
    } else if |v| >= 2 {
      var rest := PackNibbles(v[2..]);
      PackNibblesShape(v[2..]);
      HalvesOfPair(v[0], v[1]);
      assert p == [Place(v[0], false) | Place(v[1], true)] + rest;
      forall j | 2 <= j < |v| + (|v| % 2)
        ensures NibbleAt(p, 0, j) == NibbleAt(rest, 0, j - 2)
      {
        assert p[j / 2] == rest[(j - 2) / 2];
      }
    }
  }

  /** A byte is determined by its two nibbles. */
  lemma SameHalves(x: bv8, y: bv8)
    requires Half(x, false) == Half(y, false) && Half(x, true) == Half(y, true)
    ensures x == y
  {
    ByteOfHalves(x);
    ByteOfHalves(y);
  }

  /** Byte start + k holds slots 2k (low nibble) and 2k + 1 (high nibble). */
  lemma SlotsOfByte(hash: seq<bv8>, start: nat, k: nat)
    requires start + k < |hash|
    ensures NibbleAt(hash, start, 2 * k) == Half(hash[start + k], false)
    ensures NibbleAt(hash, start, 2 * k + 1) == Half(hash[start + k], true)
  {
    assert (2 * k) / 2 == k && (2 * k) % 2 == 0;
    assert (2 * k + 1) / 2 == k && (2 * k + 1) % 2 == 1;
  }

  /** The bytes of a stream are determined by its nibbles. */
  lemma BytesOfNibbles(hash: seq<bv8>, start: nat, v: seq<Nibble>)
    requires |hash| == start + (|v| + 1) / 2
    requires ReadNibbles(hash, start, 0, |v|) == v
    requires |v| % 2 == 1 ==> NibbleAt(hash, start, |v|) == 0
    ensures hash == hash[..start] + PackNibbles(v)
  {
    var p := PackNibbles(v);
    PackNibblesShape(v);
    forall k | 0 <= k < |p| ensures hash[start + k] == p[k] {
      SlotsOfByte(hash, start, k);
      SlotsOfByte(p, 0, k);
      SameHalves(hash[start + k], p[k]);
    }
    assert hash[start..] == p;
  }

  /** The buffer after hash[start + (j >> 1)] |= v << ((j & 1) << 2). */
  function OrSlot(hash: seq<bv8>, start: nat, j: nat, v: Nibble): seq<bv8>
    requires start + j / 2 < |hash|
  {
    hash[start + j / 2 := hash[start + j / 2] | Place(v, j % 2 == 1)]
  }

  /** OR-ing v into a zero slot sets that slot to v and leaves every other slot as it was. */
  lemma OrSlotEffect(hash: seq<bv8>, start: nat, j: nat, v: Nibble)
    requires start + j / 2 < |hash| && NibbleAt(hash, start, j) == 0
    ensures |OrSlot(hash, start, j, v)| == |hash|
    ensures NibbleAt(OrSlot(hash, start, j, v), start, j) == v
    ensures forall k: nat :: k != j && start + k / 2 < |hash| ==>
      NibbleAt(OrSlot(hash, start, j, v), start, k) == NibbleAt(hash, start, k)
  {
    var r := OrSlot(hash, start, j, v);
    OrIntoHalf(hash[start + j / 2], v, j % 2 == 1);
    forall k: nat | k != j && start + k / 2 < |hash|
      ensures NibbleAt(r, start, k) == NibbleAt(hash, start, k)
    {
      if k / 2 == j / 2 {
        assert k % 2 != j % 2;
      }
    }
  }

  /** The buffer after the values v are OR-ed into the slots from index on, one after the other. */
  function OrSlots(hash: seq<bv8>, start: nat, index: nat, v: seq<Nibble>): (r: seq<bv8>)
    requires SlotsFit(|hash|, start, index, |v|)
    ensures |r| == |hash|
    decreases |v|
  {
    if |v| == 0 then hash
    else OrSlot(OrSlots(hash, start, index, v[..|v| - 1]), start, index + |v| - 1, v[|v| - 1])
  }

  /** Writing one more value of q after its first i. */
  lemma OrSlotsNext(hash: seq<bv8>, start: nat, index: nat, q: seq<Nibble>, i: nat)
    requires i < |q| && SlotsFit(|hash|, start, index, |q|)
    ensures SlotsFit(|hash|, start, index, i) && start + (index + i) / 2 < |hash|
    ensures OrSlots(hash, start, index, q[..i + 1]) == OrSlot(OrSlots(hash, start, index, q[..i]), start, index + i, q[i])
  {
    var done := q[..i + 1];
    assert done[..i] == q[..i] && done[i] == q[i];
  }

  /** Every slot from index to index + count - 1 is zero. */
  ghost predicate ZeroSlots(hash: seq<bv8>, start: nat, index: nat, count: nat) {
    forall j: nat :: index <= j < index + count && start + j / 2 < |hash| ==> NibbleAt(hash, start, j) == 0
  }

  /** One past the last byte that holds a slot of index .. index + count - 1 (the first byte when count == 0). */
  function SlotBytesEnd(start: nat, index: nat, count: nat): nat {
    if count == 0 then start + index / 2 else start + (index + count - 1) / 2 + 1
  }

  /** now has every bit of orig set: OR-ing into a buffer only ever sets bits. */
  ghost predicate SetsOnlyBits(orig: seq<bv8>, now: seq<bv8>) {
    |now| == |orig| && forall b :: 0 <= b < |orig| ==> now[b] & orig[b] == orig[b]
  }

  /** now agrees with orig on every byte outside lo .. hi - 1. */
  ghost predicate SameOutside(orig: seq<bv8>, now: seq<bv8>, lo: nat, hi: nat) {
    |now| == |orig| && forall b :: 0 <= b < |orig| && !(lo <= b < hi) ==> now[b] == orig[b]
  }

  /** now agrees with orig on every slot outside lo .. hi - 1. */
  ghost predicate SlotsKeptOutside(orig: seq<bv8>, now: seq<bv8>, start: nat, lo: nat, hi: nat) {
    |now| == |orig| && forall j: nat :: (j < lo || hi <= j) && start + j / 2 < |orig| ==> NibbleAt(now, start, j) == NibbleAt(orig, start, j)
  }

  /**
   * OR-ing v into zero slots from index on puts v in those slots and leaves
   * every other slot as it was.
   */
  lemma {:induction false} OrSlotsEffect(orig: seq<bv8>, start: nat, index: nat, v: seq<Nibble>)
    requires SlotsFit(|orig|, start, index, |v|) && ZeroSlots(orig, start, index, |v|)
    ensures ReadNibbles(OrSlots(orig, start, index, v), start, index, |v|) == v
    ensures SlotsKeptOutside(orig, OrSlots(orig, start, index, v), start, index, index + |v|)
    decreases |v|
  {
    if |v| > 0 {
      var n := |v| - 1;
      var w := v[..n];
      var prev := OrSlots(orig, start, index, w);
      OrSlotsEffect(orig, start, index, w);
      assert NibbleAt(prev, start, index + n) == 0;
      OrSlotStep(orig, prev, start, index, w, v[n]);
      assert w + [v[n]] == v;
      assert OrSlots(orig, start, index, v) == OrSlot(prev, start, index + |w|, v[n]);
    }
  }

  /** OR-ing the slots from index on changes no byte that holds none of them and clears no bit. */
  lemma {:induction false} OrSlotsFrame(orig: seq<bv8>, start: nat, index: nat, v: seq<Nibble>)
    requires SlotsFit(|orig|, start, index, |v|)
    ensures SameOutside(orig, OrSlots(orig, start, index, v), start + index / 2, SlotBytesEnd(start, index, |v|))
    ensures SetsOnlyBits(orig, OrSlots(orig, start, index, v))
    decreases |v|
  {
    if |v| > 0 {
      var n := |v| - 1;
      OrSlotsFrame(orig, start, index, v[..n]);
      OrSlotFrame(orig, OrSlots(orig, start, index, v[..n]), start, index + n, v[n], start + index / 2, SlotBytesEnd(start, index, n));
    }
  }

  /** One more value OR-ed into the zero slot after the ones written extends them by that value. */
  lemma OrSlotStep(orig: seq<bv8>, prev: seq<bv8>, start: nat, index: nat, w: seq<Nibble>, x: Nibble)
    requires start + (index + |w|) / 2 < |prev| && |orig| == |prev|
    requires NibbleAt(prev, start, index + |w|) == 0
    requires ReadNibbles(prev, start, index, |w|) == w
    requires SlotsKeptOutside(orig, prev, start, index, index + |w|)
    ensures ReadNibbles(OrSlot(prev, start, index + |w|, x), start, index, |w| + 1) == w + [x]
    ensures SlotsKeptOutside(orig, OrSlot(prev, start, index + |w|, x), start, index, index + |w| + 1)
  {
    var next := OrSlot(prev, start, index + |w|, x);
    OrSlotEffect(prev, start, index + |w|, x);
    var r := ReadNibbles(next, start, index, |w| + 1);
    forall k | 0 <= k < |w| + 1 ensures r[k] == (w + [x])[k] {
      if k < |w| {
        assert ReadNibbles(prev, start, index, |w|)[k] == w[k];
      }
    }
  }

  /** One more OR into the byte after the window grows the window by that byte and still only sets bits. */
  lemma OrSlotFrame(orig: seq<bv8>, prev: seq<bv8>, start: nat, j: nat, v: Nibble, lo: nat, hi: nat)
    requires start + j / 2 < |prev| && lo <= start + j / 2 && hi <= start + j / 2 + 1
    requires SetsOnlyBits(orig, prev) && SameOutside(orig, prev, lo, hi)
    ensures SetsOnlyBits(orig, OrSlot(prev, start, j, v))
    ensures SameOutside(orig, OrSlot(prev, start, j, v), lo, start + j / 2 + 1)
  {
    var b := start + j / 2;
    OrKeepsBits(prev[b], orig[b], Place(v, j % 2 == 1));
  }

  /** OR never clears a bit. */
  lemma OrKeepsBits(h: bv8, o: bv8, x: bv8)
    requires h & o == o
    ensures (h | x) & o == o
  {
  }

  /** hash[start + (j >> 1)] |= v << ((j & 1) << 2). */
  method OrNibble(hash: array<bv8>, start: nat, j: nat, v: Nibble)
    requires start + j / 2 < hash.Length
    modifies hash
    ensures hash[..] == OrSlot(old(hash[..]), start, j, v)
  {
    hash[start + j / 2] := hash[start + j / 2] | Place(v, j % 2 == 1);
  }

  /**
   * The stream state between two channel writes: slots 0 .. index - 1 hold
   * prefix and every later slot of the buffer is still zero.
   */
  ghost predicate Stream(hash: seq<bv8>, start: nat, index: nat, prefix: seq<Nibble>) {
    |prefix| == index && SlotsFit(|hash|, start, 0, index)
    && ReadNibbles(hash, start, 0, index) == prefix
    && forall j: nat :: index <= j && start + j / 2 < |hash| ==> NibbleAt(hash, start, j) == 0
  }

  /** A buffer that is zero from start on is an empty stream. */
  lemma ZeroStream(hash: seq<bv8>, start: nat)
    requires forall b :: start <= b < |hash| ==> hash[b] == 0
    ensures Stream(hash, start, 0, [])
  {
    forall j: nat | start + j / 2 < |hash| ensures NibbleAt(hash, start, j) == 0 {
      HalfOfZero(j % 2 == 1);
    }
  }

  lemma HalfOfZero(odd: bool)
    ensures Half(0, odd) == 0
  {
  }

  /**
   * A write of v into the size slots after the prefix, leaving every other
   * slot as it was, extends the stream by v.
   */
  lemma StreamAppend(before: seq<bv8>, after: seq<bv8>, start: nat, index: nat, prefix: seq<Nibble>, v: seq<Nibble>)
    requires |after| == |before| && Stream(before, start, index, prefix)
    requires SlotsFit(|before|, start, index, |v|)
    requires ReadNibbles(after, start, index, |v|) == v
    requires SlotsKeptOutside(before, after, start, index, index + |v|)
    ensures Stream(after, start, index + |v|, prefix + v)
  {
    var r := ReadNibbles(after, start, 0, index + |v|);
    forall k | 0 <= k < index + |v| ensures r[k] == (prefix + v)[k] {
      if k < index {
        assert NibbleAt(after, start, k) == NibbleAt(before, start, k);
      }
    }
    assert r == prefix + v;
  }

  /** A stream that fills the buffer exactly is the packed prefix after the first start bytes. */
  lemma StreamBytes(hash: seq<bv8>, start: nat, v: seq<Nibble>)
    requires |hash| == start + (|v| + 1) / 2 && Stream(hash, start, |v|, v)
    ensures hash == hash[..start] + PackNibbles(v)
  {
    BytesOfNibbles(hash, start, v);
  }

  /**
   * The next channel's write into a stream: its slots are zero beforehand,
   * and afterwards the stream is extended by its values and the first start
   * bytes (the header) are as they were.
   */
  lemma StreamWrite(before: seq<bv8>, start: nat, index: nat, prefix: seq<Nibble>, v: seq<Nibble>)
    requires start <= |before| && Stream(before, start, index, prefix) && SlotsFit(|before|, start, index, |v|)
    ensures ZeroSlots(before, start, index, |v|)
    ensures Stream(OrSlots(before, start, index, v), start, index + |v|, prefix + v)
    ensures OrSlots(before, start, index, v)[..start] == before[..start]
  {
    var after := OrSlots(before, start, index, v);
    OrSlotsEffect(before, start, index, v);
    OrSlotsFrame(before, start, index, v);
    StreamAppend(before, after, start, index, prefix, v);
    assert forall b :: 0 <= b < start ==> after[b] == before[b];
  }

  /** Packed nibbles read back from the first byte on are the nibbles. */
  lemma PackedRead(v: seq<Nibble>)
    ensures SlotsFit(|PackNibbles(v)|, 0, 0, |v|)
    ensures ReadNibbles(PackNibbles(v), 0, 0, |v|) == v
  {
    PackNibblesShape(v);
  }

  /** A stream read after leading bytes reads the bytes that follow them. */
  lemma ReadAfter(prefix: seq<bv8>, rest: seq<bv8>, count: nat)
    requires SlotsFit(|rest|, 0, 0, count)
    ensures SlotsFit(|prefix + rest|, |prefix|, 0, count)
    ensures ReadNibbles(prefix + rest, |prefix|, 0, count) == ReadNibbles(rest, 0, 0, count)
  {
    var hash := prefix + rest;
    forall k | 0 <= k < count ensures NibbleAt(hash, |prefix|, k) == NibbleAt(rest, 0, k) {
      assert hash[|prefix| + k / 2] == rest[k / 2];
    }
  }

  /** A run of slots inside a run that fits the buffer fits it too. */
  lemma SlotsWithin(len: nat, start: nat, count: nat, offset: nat, n: nat)
    requires SlotsFit(len, start, 0, count) && offset + n <= count
    ensures SlotsFit(len, start, offset, n)
  {
  }

  /** Reading a run of slots inside a longer read gives that part of the longer read. */
  lemma ReadSlice(hash: seq<bv8>, start: nat, count: nat, offset: nat, n: nat)
    requires SlotsFit(|hash|, start, 0, count) && offset + n <= count
    ensures SlotsFit(|hash|, start, offset, n)
    ensures ReadNibbles(hash, start, offset, n) == ReadNibbles(hash, start, 0, count)[offset..offset + n]
  {
  }
}
