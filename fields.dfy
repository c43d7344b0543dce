/**
 * The header fields as numbers (src/Thumbhash.cpp, RGBAToThumbHash and
 * ThumbHashToRGBA, ThumbHashToAverageRGBA): the encoder rounds each DC and
 * scale onto a k-step grid ((int) round(k * x)), the decoder divides the
 * field by k again.
 */
module Fields {
  import opened Wrappers
  import opened Quantisation
  import opened Headers
  import opened Bytes

  /** Integers of [0, 2^b) as b-bit fields, and back. */
  lemma Int6(n: int)
    requires 0 <= n < 64
    ensures (n as bv8) < 64 && (n as bv8) as int == n
  {
    ByteOfInt(n);
    assert (n as bv8) as int < 64;
  }

  lemma Int5(n: int)
    requires 0 <= n < 32
    ensures (n as bv8) < 32 && (n as bv8) as int == n
  {
    ByteOfInt(n);
    assert (n as bv8) as int < 32;
  }

  lemma Int3(n: int)
    requires 0 <= n < 8
    ensures (n as bv8) < 8 && (n as bv8) as int == n
  {
    ByteOfInt(n);
    assert (n as bv8) as int < 8;
  }

  /** (int) round(x) for x in [0, 63], a 6-bit field. */
  function Field6(x: real): (f: Bits6)
    requires 0.0 <= x <= 63.0
    ensures f as int == Round(x)
  {
    RoundInRange(x, 63);
    Int6(Round(x));
    Round(x) as bv8
  }

  /** (int) round(x) for x in [0, 31], a 5-bit field. */
  function Field5(x: real): (f: Bits5)
    requires 0.0 <= x <= 31.0
    ensures f as int == Round(x)
  {
    RoundInRange(x, 31);
    Int5(Round(x));
    Round(x) as bv8
  }

  /** (int) round(x) for x in [0, 15], a 4-bit field. */
  function Field4(x: real): (f: Bits4)
    requires 0.0 <= x <= 15.0
    ensures f as int == Round(x)
  {
    RoundInRange(x, 15);
    NibbleOfInt(Round(x));
    Round(x) as bv8
  }

  /** A count of [0, 7] as the 3-bit geometry field. */
  function Field3(n: nat): (f: Bits3)
    requires n <= 7
    ensures f as int == n
  {
    Int3(n);
    n as bv8
  }

  /** A field read back as a number: (float) field / k. */
  function Unit(f: bv8, k: real): real
    requires k > 0.0
  {
    (f as int) as real / k
  }

  /** The decoder's constants: l_dc, p_dc, q_dc, l_scale, p_scale, q_scale, a_dc (1 without alpha) and a_scale. */
  function LDcOf(h: Header): real { Unit(h.lDc, 63.0) }
  function PDcOf(h: Header): real { Unit(h.pDc, 31.5) - 1.0 }
  function QDcOf(h: Header): real { Unit(h.qDc, 31.5) - 1.0 }
  function LScaleOf(h: Header): real { Unit(h.lScale, 31.0) }
  function PScaleOf(h: Header): real { Unit(h.pScale, 63.0) }
  function QScaleOf(h: Header): real { Unit(h.qScale, 63.0) }

  function ADcOf(h: Header): real {
    match h.alpha case Some(a) => Unit(a.dc, 15.0) case None => 1.0
  }

  function AScaleOf(h: Header): real {
    match h.alpha case Some(a) => Unit(a.scale, 15.0) case None => 0.0
  }

  /** Rounding onto the k-step grid and dividing by k again moves a value by at most half a step. */
  lemma GridError(x: real, k: real, n: int)
    requires k > 0.0 && -0.5 <= n as real - k * x <= 0.5
    ensures Abs(n as real / k - x) <= 0.5 / k
  {
    var e := n as real - k * x;
    assert n as real / k - x == e / k;
  }

  /** Each decoded DC and scale is within half a grid step of the value the encoder rounded. */
  lemma FieldRoundTrip6(x: real)
    requires 0.0 <= x <= 1.0
    ensures Abs(Unit(Field6(63.0 * x), 63.0) - x) <= 0.5 / 63.0
  {
    GridError(x, 63.0, Round(63.0 * x));
  }

  lemma FieldRoundTrip5(x: real)
    requires 0.0 <= x <= 1.0
    ensures Abs(Unit(Field5(31.0 * x), 31.0) - x) <= 0.5 / 31.0
  {
    GridError(x, 31.0, Round(31.0 * x));
  }

  lemma FieldRoundTrip4(x: real)
    requires 0.0 <= x <= 1.0
    ensures Abs(Unit(Field4(15.0 * x), 15.0) - x) <= 0.5 / 15.0
  {
    GridError(x, 15.0, Round(15.0 * x));
  }

  /** The P and Q DCs of [-1, 1] go through round(31.5 + 31.5 * x) and come back as field / 31.5 - 1. */
  lemma FieldRoundTripSigned(x: real)
    requires -1.0 <= x <= 1.0
    ensures Abs(Unit(Field6(31.5 + 31.5 * x), 31.5) - 1.0 - x) <= 0.5 / 31.5
  {
    assert 31.5 + 31.5 * x == 31.5 * (1.0 + x);
    GridError(1.0 + x, 31.5, Round(31.5 + 31.5 * x));
  }
}
