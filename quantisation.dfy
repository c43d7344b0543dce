/**
 * The scalar arithmetic of the channel codec (src/Thumbhash.cpp, Channel::Encode,
 * Channel::Write and Channel::Decode, and the header quantisation in
 * RGBAToThumbHash). Single-precision floats are modelled as exact reals.
 */
module Quantisation {
  import opened Nibbles
  import opened Bytes

  function Abs(x: real): real {
    if x < 0.0 then -x else x
  }

  /** std::max(a, b), which returns a unless a < b. */
  function Max(a: real, b: real): (r: real)
    ensures r >= a && r >= b && (r == a || r == b)
  {
    if a < b then b else a
  }

  /** C's round: to the nearest integer, halfway cases away from zero. */
  function Round(x: real): (r: int)
    ensures x >= 0.0 ==> x - 0.5 < r as real <= x + 0.5
    ensures x < 0.0 ==> x - 0.5 <= r as real < x + 0.5
  {
    if x >= 0.0 then (x + 0.5).Floor else -((-x + 0.5).Floor)
  }

  /** Rounding a value of [0, k] stays in [0, k]: a quantised field fits its bit width. */
  lemma RoundInRange(x: real, k: nat)
    requires 0.0 <= x <= k as real
    ensures 0 <= Round(x) <= k
  {
  }

  /**
   * The running maximum of |f| that Encode keeps in scale_, starting from
   * init and taking the first n values in order.
   */
  function MaxAbs(init: real, s: seq<real>, n: nat): real
    requires n <= |s|
  {
    if n == 0 then init else Max(MaxAbs(init, s, n - 1), Abs(s[n - 1]))
  }

  /** The running maximum is the largest of init and every |s[i]| with i < n. */
  lemma {:induction false} MaxAbsIsMaximum(init: real, s: seq<real>, n: nat)
    requires n <= |s|
    ensures MaxAbs(init, s, n) >= init
    ensures forall i :: 0 <= i < n ==> Abs(s[i]) <= MaxAbs(init, s, n)
    ensures MaxAbs(init, s, n) == init || exists i :: 0 <= i < n && MaxAbs(init, s, n) == Abs(s[i])
  {
    if n > 0 {
      MaxAbsIsMaximum(init, s, n - 1);
    }
  }

  /** A bound on every value and on init bounds the running maximum. */
  lemma MaxAbsBounded(init: real, s: seq<real>, bound: real)
    requires init <= bound
    requires forall i :: 0 <= i < |s| ==> Abs(s[i]) <= bound
    ensures MaxAbs(init, s, |s|) <= bound
  {
    MaxAbsIsMaximum(init, s, |s|);
  }

  /** The remap of one AC value into [0, 1]: 0.5 + 0.5 / scale * x. */
  function Remapped(x: real, scale: real): real
    requires scale > 0.0
  {
    0.5 + 0.5 / scale * x
  }

  /** The remap of Encode: every value remapped when scale > 0, otherwise the values as they are. */
  function Normalise(raw: seq<real>, scale: real): (r: seq<real>)
    ensures |r| == |raw|
    ensures scale > 0.0 ==> forall i :: 0 <= i < |raw| ==> r[i] == Remapped(raw[i], scale)
    ensures scale <= 0.0 ==> r == raw
  {
    if scale > 0.0 then seq(|raw|, i requires 0 <= i < |raw| => Remapped(raw[i], scale)) else raw
  }

  /** With scale the maximum of |raw|, every remapped value lies in [0, 1]. */
  lemma NormaliseInUnit(raw: seq<real>, scale: real)
    requires forall i :: 0 <= i < |raw| ==> Abs(raw[i]) <= scale
    ensures forall i :: 0 <= i < |raw| ==> 0.0 <= Normalise(raw, scale)[i] <= 1.0
  {
    if scale > 0.0 {
      forall i | 0 <= i < |raw| ensures 0.0 <= Normalise(raw, scale)[i] <= 1.0 {
        RemappedInUnit(raw[i], scale);
      }
    }
  }

  /** A value no larger in magnitude than scale is remapped into [0, 1]. */
  lemma RemappedInUnit(x: real, scale: real)
    requires scale > 0.0 && Abs(x) <= scale
    ensures 0.0 <= Remapped(x, scale) <= 1.0
  {
    assert -scale <= x <= scale;
    assert 0.5 / scale * x == 0.5 * (x / scale);
    assert -1.0 <= x / scale <= 1.0;
  }

  /** Quantisation of a remapped AC value: (int) round(15 * val). */
  function Quantise(val: real): (d: int)
    ensures 0.0 <= val <= 1.0 ==> 0 <= d < 16
  {
    RoundInRangeFor15(val);
    Round(15.0 * val)
  }

  lemma RoundInRangeFor15(val: real)
    ensures 0.0 <= val <= 1.0 ==> 0 <= Round(15.0 * val) <= 15
  {
    if 0.0 <= val <= 1.0 {
      RoundInRange(15.0 * val, 15);
    }
  }

  /** An integer of [0, 15] as a nibble, and back. */
  lemma NibbleOfInt(d: int)
    requires 0 <= d < 16
    ensures (d as bv8) < 16 && (d as bv8) as int == d
  {
    ByteOfInt(d);
    assert (d as bv8) as int < 16;
  }

  /** A remapped AC value of [0, 1] quantised to the nibble Write stores. */
  function QuantiseNibble(val: real): (d: Nibble)
    requires 0.0 <= val <= 1.0
    ensures d as int == Quantise(val)
  {
    RoundInRangeFor15(val);
    NibbleOfInt(Quantise(val));
    Quantise(val) as bv8
  }

  /** Every remapped AC value of [0, 1] quantised, as Write stores them. */
  function Quantised(ac: seq<real>): (r: seq<Nibble>)
    requires forall i :: 0 <= i < |ac| ==> 0.0 <= ac[i] <= 1.0
    ensures |r| == |ac|
    ensures forall i :: 0 <= i < |ac| ==> r[i] == QuantiseNibble(ac[i])
  {
    seq<Nibble>(|ac|, i requires 0 <= i < |ac| => QuantiseNibble(ac[i]))
  }

  /** The decoder's map of a nibble back to an AC value: (d / 7.5 - 1) * scale. */
  function Dequantise(d: Nibble, scale: real): real {
    ((d as int) as real / 7.5 - 1.0) * scale
  }

  /** Every nibble of a channel dequantised, as Decode stores them. */
  function Dequantised(v: seq<Nibble>, scale: real): (r: seq<real>)
    ensures |r| == |v|
    ensures forall i :: 0 <= i < |v| ==> r[i] == Dequantise(v[i], scale)
  {
    seq(|v|, i requires 0 <= i < |v| => Dequantise(v[i], scale))
  }

  /** Without the rounding, dequantisation undoes the remap exactly: x is recovered from 15 * (0.5 + 0.5 / s * x). */
  lemma RemapInverse(x: real, scale: real)
    requires scale > 0.0
    ensures (15.0 * (0.5 + 0.5 / scale * x) / 7.5 - 1.0) * scale == x
  {
    assert 15.0 * (0.5 + 0.5 / scale * x) / 7.5 - 1.0 == x / scale;
  }

  /** With the rounding, an AC value comes back within scale / 15 of the value encoded. */
  lemma QuantisationError(x: real, scale: real)
    requires scale > 0.0 && Abs(x) <= scale
    ensures 0.0 <= Remapped(x, scale) <= 1.0
    ensures Abs(Dequantise(QuantiseNibble(Remapped(x, scale)), scale) - x) <= scale / 15.0
  {
    RemappedInUnit(x, scale);
    var d := Quantise(Remapped(x, scale));
    DequantiseError(d as real, x, scale);
  }

  /** A value within 1/2 of 15 times the remapped x dequantises to within scale / 15 of x. */
  lemma DequantiseError(d: real, x: real, scale: real)
    requires scale > 0.0 && -0.5 <= d - 15.0 * Remapped(x, scale) <= 0.5
    ensures Abs((d / 7.5 - 1.0) * scale - x) <= scale / 15.0
  {
    var q := x / scale;
    var e := d - 15.0 * Remapped(x, scale);
    assert x == q * scale;
    assert 15.0 * Remapped(x, scale) == 7.5 + 7.5 * q;
    assert d / 7.5 - 1.0 == e / 7.5 + q;
    assert (d / 7.5 - 1.0) * scale - x == e / 7.5 * scale;
  }

}
