/** Bytes and their integer values, kept apart from the driver's definitions
    so that proofs about conversions see only the conversion itself. */
module Octets {
  /** An 8-bit byte. */
  type byte = bv8

  /** A byte value converts back to the same integer. */
  lemma ByteValue(x: int)
    requires 0 <= x < 256
    ensures (x as byte) as int == x
  {
    assert x % 256 == x;
  }
}
