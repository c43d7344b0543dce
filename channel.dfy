/**
 * One colour channel of the codec (src/Thumbhash.cpp, class Channel): its
 * truncation bounds, the DC term, the scale (the largest |AC| before the
 * remap) and the array of AC terms, which Encode, Write and Decode update.
 */
module Channels {
  import opened Triangle
  import opened Nibbles
  import opened Quantisation

  /**
   * The cosine projection f(cx, cy) of one channel's pixel values, which
   * Encode computes by a double sum over the pixels; here it is a parameter.
   */
  type Coefficients = (nat, nat) -> real

  /** The projections of a sequence of terms, in that order. */
  function Raw(coef: Coefficients, terms: seq<Term>): (r: seq<real>)
    ensures |r| == |terms|
    ensures forall i :: 0 <= i < |terms| ==> r[i] == coef(terms[i].0, terms[i].1)
  {
    seq(|terms|, i requires 0 <= i < |terms| => coef(terms[i].0, terms[i].1))
  }

  /** Every projection lies in [-1, 1]. */
  ghost predicate Bounded(coef: Coefficients) {
    forall cx: nat, cy: nat :: -1.0 <= coef(cx, cy) <= 1.0
  }

  /** The dc_ a new channel ends with after Encode: f(0, 0), when the triangle is not empty. */
  function EncodedDc(coef: Coefficients, nx: nat, ny: nat): real {
    if nx > 0 && ny > 0 then coef(0, 0) else 0.0
  }

  /** The scale_ a new channel ends with after Encode: the largest |AC|, 0 when there is none. */
  function EncodedScale(coef: Coefficients, nx: nat, ny: nat): real {
    MaxAbs(0.0, Raw(coef, ScanOrder(nx, ny)), TermCount(nx, ny))
  }

  /** The ac_ a new channel ends with after Encode: the AC projections in scan order, remapped. */
  function EncodedAc(coef: Coefficients, nx: nat, ny: nat): seq<real> {
    Normalise(Raw(coef, ScanOrder(nx, ny)), EncodedScale(coef, nx, ny))
  }

  /**
   * For projections of [-1, 1] the scale lies in [0, 1] and bounds every
   * |AC|, and there are TermCount remapped AC values, each in [0, 1].
   */
  lemma EncodedRanges(coef: Coefficients, nx: nat, ny: nat)
    requires Bounded(coef)
    ensures 0.0 <= EncodedScale(coef, nx, ny) <= 1.0
    ensures forall i :: 0 <= i < TermCount(nx, ny) ==> Abs(Raw(coef, ScanOrder(nx, ny))[i]) <= EncodedScale(coef, nx, ny)
    ensures |EncodedAc(coef, nx, ny)| == TermCount(nx, ny)
    ensures forall i :: 0 <= i < TermCount(nx, ny) ==> 0.0 <= EncodedAc(coef, nx, ny)[i] <= 1.0
  {
    var raw := Raw(coef, ScanOrder(nx, ny));
    MaxAbsIsMaximum(0.0, raw, |raw|);
    MaxAbsBounded(0.0, raw, 1.0);
    NormaliseInUnit(raw, EncodedScale(coef, nx, ny));
  }

  class Channel {
    const nx: nat
    const ny: nat
    var dc: real
    var scale: real
    const size: nat
    const ac: array<real>

    /** size_ is the triangular term count and ac_ holds that many values. */
    ghost predicate Valid()
      reads this
    {
      size == TermCount(nx, ny) && ac.Length == size
    }

    /** Channel(nx, ny): counts the AC terms and allocates ac_; dc_ and scale_ start at 0. */
    constructor (nx: nat, ny: nat)
      ensures Valid() && this.nx == nx && this.ny == ny
      ensures dc == 0.0 && scale == 0.0 && fresh(ac)
    {
      var n := CountTerms(nx, ny);
      this.nx := nx;
      this.ny := ny;
      size := n;
      ac := new real[n];
      dc := 0.0;
      scale := 0.0;
    }

    /**
     * Scans every (cx, cy) of the triangle, starting every row at cx = 0:
     * (0, 0) becomes the DC term, every other projection is appended to ac_
     * and folded into scale_; then, when scale_ > 0, every AC term is remapped
     * into [0, 1].
     */
    method Encode(coef: Coefficients)
      requires Valid()
      modifies this`dc, this`scale, ac
      ensures Valid()
      ensures dc == if nx > 0 && ny > 0 then coef(0, 0) else old(dc)
      ensures scale == MaxAbs(old(scale), Raw(coef, ScanOrder(nx, ny)), size)
      ensures ac[..] == Normalise(Raw(coef, ScanOrder(nx, ny)), scale)
      ensures forall i :: 0 <= i < size ==> 0.0 <= ac[i] <= 1.0
    {
      ghost var raw := Raw(coef, ScanOrder(nx, ny));
      ghost var dcValue := if nx > 0 && ny > 0 then coef(0, 0) else dc;
      var d, m := dc, scale;
      var n: nat := 0;
      var cy := 0;
      while cy < ny
        invariant cy <= ny
        invariant n + |RowsFrom(nx, ny, cy)| == size
        invariant forall i :: 0 <= i < n ==> ac[i] == raw[i]
        invariant m == MaxAbs(old(scale), raw, n)
        invariant d == if cy == 0 then old(dc) else dcValue
      {
        RowLength(nx, ny, cy, RowStart(cy));
        n, d, m := EncodeRow(coef, raw, old(scale), dcValue, RowEnd(nx, ny, cy), |RowsFrom(nx, ny, cy + 1)|, cy, n, d, m);
        cy := cy + 1;
      }
      assert n == size;
      dc, scale := d, m;
      assert ac[..] == raw;
      MaxAbsIsMaximum(old(scale), raw, size);
      RemapTerms(raw);
    }

    /**
     * One row of Encode's scan: cx runs from 0 while the cutoff holds;
     * (0, 0) sets the DC term, every other projection is stored at ac_[n]
     * and folded into the running maximum m.
     */
    method EncodeRow(coef: Coefficients, ghost raw: seq<real>, ghost init: real, ghost dcValue: real, ghost w: nat, ghost rest: nat,
                     cy: nat, n0: nat, d0: real, m0: real)
      returns (n: nat, d: real, m: real)
      requires Valid() && cy < ny && |raw| == size
      requires raw == Raw(coef, ScanOrder(nx, ny))
      requires w == RowEnd(nx, ny, cy) && rest == |RowsFrom(nx, ny, cy + 1)|
      requires cy == 0 ==> dcValue == if nx > 0 then coef(0, 0) else d0
      requires n0 + Left(cy, 0, w) + rest == size
      requires forall i :: 0 <= i < n0 ==> ac[i] == raw[i]
      requires m0 == MaxAbs(init, raw, n0)
      modifies ac
      ensures n + rest == size
      ensures forall i :: 0 <= i < n ==> ac[i] == raw[i]
      ensures m == MaxAbs(init, raw, n)
      ensures d == if cy == 0 then dcValue else d0
    {
      n, d, m := n0, d0, m0;
      var cx := 0;
      while cx * ny < nx * (ny - cy)
        invariant n + Left(cy, cx, w) + rest == size
        invariant forall i :: 0 <= i < n ==> ac[i] == raw[i]
        invariant m == MaxAbs(init, raw, n)
        invariant d == if cy == 0 && cx > 0 then dcValue else d0
        decreases w - cx
      {
        RowCut(nx, ny, cy, cx);
        var f := coef(cx, cy);
        if cx > 0 || cy > 0 {
          ScanAt(nx, ny, n, cy, cx);
          assert raw[n] == f;
          ac[n] := f;
          n := n + 1;
          m := Max(m, Abs(f));
        } else {
          d := f;
        }
        cx := cx + 1;
      }
      RowCut(nx, ny, cy, cx);
    }

    /** The second half of Encode: when scale_ > 0, every AC term is remapped to 0.5 + 0.5 / scale_ * ac_[i]. */
    method RemapTerms(ghost raw: seq<real>)
      requires Valid() && ac[..] == raw
      requires forall i :: 0 <= i < |raw| ==> Abs(raw[i]) <= scale
      modifies ac
      ensures ac[..] == Normalise(raw, scale)
      ensures forall i :: 0 <= i < size ==> 0.0 <= ac[i] <= 1.0
    {
      if scale > 0.0 {
        for i := 0 to size
          invariant forall k :: 0 <= k < i ==> ac[k] == Remapped(raw[k], scale)
          invariant forall k :: i <= k < size ==> ac[k] == raw[k]
        {
          ac[i] := Remapped(ac[i], scale);
        }
      }
      assert ac[..] == Normalise(raw, scale);
      NormaliseInUnit(raw, scale);
    }

    /**
     * ORs the quantised AC terms, round(15 * ac_[i]), into consecutive nibble
     * slots from index on and returns the slot after the last one written.
     * The slots must be zero beforehand: OR never clears a bit.
     */
    method Write(hash: array<bv8>, start: nat, index: nat) returns (next: nat)
      requires Valid()
      requires forall i :: 0 <= i < size ==> 0.0 <= ac[i] <= 1.0
      requires hash as object != ac
      requires SlotsFit(hash.Length, start, index, size)
      requires ZeroSlots(hash[..], start, index, size)
      modifies hash
      ensures next == index + size
      ensures hash[..] == OrSlots(old(hash[..]), start, index, Quantised(ac[..]))
    {
      ghost var orig := hash[..];
      ghost var q := Quantised(ac[..]);
      next := index;
      for i := 0 to size
        invariant next == index + i
        invariant hash[..] == OrSlots(orig, start, index, q[..i])
      {
        var d := QuantiseNibble(ac[i]);
        assert d == q[i];
        OrSlotsNext(orig, start, index, q, i);
        OrNibble(hash, start, next, d);
        next := next + 1;
      }
      assert q[..size] == q;
    }

    /**
     * Reads count nibbles from slot index on into ac_[0..count), each mapped
     * to (d / 7.5 - 1) * scale, and returns the slot after the last one read.
     */
    method Decode(hash: array<bv8>, start: nat, index: nat, count: nat, scale: real) returns (next: nat)
      requires Valid()
      requires count <= size
      requires hash as object != ac
      requires SlotsFit(hash.Length, start, index, count)
      modifies ac
      ensures next == index + count
      ensures ac[..count] == Dequantised(ReadNibbles(hash[..], start, index, count), scale)
      ensures ac[count..] == old(ac[count..])
    {
      ghost var nibbles := ReadNibbles(hash[..], start, index, count);
      next := index;
      for i := 0 to count
        invariant next == index + i
        invariant forall k :: 0 <= k < i ==> ac[k] == Dequantise(nibbles[k], scale)
        invariant forall k :: count <= k < size ==> ac[k] == old(ac[k])
      {
        var data := Half(hash[start + next / 2], next % 2 == 1);
        assert data == nibbles[i];
        ac[i] := Dequantise(data, scale);
        next := next + 1;
      }
    }
  }

  /** (new Channel(nx, ny))->Encode(...): a fresh channel holding the encoding of the projection coef. */
  method EncodeChannel(nx: nat, ny: nat, coef: Coefficients) returns (c: Channel)
    ensures fresh(c) && fresh(c.ac) && c.Valid() && c.nx == nx && c.ny == ny
    ensures c.dc == EncodedDc(coef, nx, ny) && c.scale == EncodedScale(coef, nx, ny)
    ensures c.ac[..] == EncodedAc(coef, nx, ny)
    ensures forall i :: 0 <= i < c.size ==> 0.0 <= c.ac[i] <= 1.0
  {
    c := new Channel(nx, ny);
    c.Encode(coef);
  }
}
