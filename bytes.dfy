/** The one conversion between integers and bytes that the field and nibble packing rely on. */
module Bytes {
  /** An integer of [0, 256) converts to a byte and back unchanged. */
  lemma ByteOfInt(n: int)
    requires 0 <= n < 256
    ensures (n as bv8) as int == n
  {
  }
}
