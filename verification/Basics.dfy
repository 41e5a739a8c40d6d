/** Types shared by every component: optional values, machine-integer bounds, and the
    fixed-width identifiers of the chain. */
module Basics {

  datatype Option<+T> = None | Some(value: T)

  const TWO_32: int := 0x1_0000_0000
  const TWO_63: int := 0x8000_0000_0000_0000
  const TWO_64: int := 0x1_0000_0000_0000_0000
  const TWO_128: int := 0x1_0000_0000_0000_0000_0000_0000_0000_0000
  const TWO_256: int := TWO_128 * TWO_128
  const U64_MAX: int := TWO_64 - 1

  newtype byte = b: int | 0 <= b < 256
  type Bytes = seq<byte>

  /** A 20-byte account or validator address, read as a big-endian number: the numeric
      order is the lexicographic order of the bytes. */
  type Address = nat

  /** A 32-byte digest, read as a big-endian number. */
  type Hash32 = n: nat | n < TWO_256

  const ZERO_HASH: Hash32 := 0

  /** Atto-SPRX amounts, the `u128` inside the source's `Amount`. */
  type Amount = nat

  /** `Amount::checked_add`. */
  function CheckedAdd(a: Amount, b: Amount): Option<Amount> {
    if a + b < TWO_128 then Some(a + b) else None
  }

  /** `Amount::checked_sub`. */
  function CheckedSub(a: Amount, b: Amount): Option<Amount> {
    if b <= a then Some(a - b) else None
  }
}
