/** Identifiers and constants shared by every part of the scheduler model. */
module Types {
  datatype Option<+T> = None | Some(value: T)

  const INT64_MIN: int := -0x8000_0000_0000_0000
  const INT64_MAX: int := 0x7FFF_FFFF_FFFF_FFFF

  /** Size of the word in which the block's gas total is kept (`size_t`). */
  const WORD: nat := 0x1_0000_0000_0000_0000

  /** Gas limit every transaction starts with. */
  const TRANSACTION_GAS: int := 30000000000

  /** A transaction of the block; the scheduler compares context ids as 64-bit integers. */
  type ContextID = x: int | INT64_MIN <= x <= INT64_MAX

  /** Number of a call frame inside one transaction. */
  type FrameSeq = int
}
