/** Types, machine bounds and byte-string helpers shared by every component. */
module Common {

  datatype Option<+T> = None | Some(value: T)

  datatype Result<+T, +E> = Ok(value: T) | Err(error: E)

  type Byte = b: int | 0 <= b < 256

  type Bytes = seq<Byte>

  const I32_MAX: nat := 0x7FFF_FFFF
  const I64_MAX: nat := 0x7FFF_FFFF_FFFF_FFFF
  const U32_MAX: nat := 0xFFFF_FFFF
  const USIZE_MAX: nat := 0xFFFF_FFFF_FFFF_FFFF

  /** A `u64`; arithmetic on it is checked for overflow. */
  newtype U64 = x: int | 0 <= x < 0x1_0000_0000_0000_0000

  /** The outcome of the n-th call into a repository: `true` when it succeeds.
      A theorem quantified over every `Fate` holds for every failure pattern. */
  type Fate = nat -> bool

  function Max(a: int, b: int): int {
    if a < b then b else a
  }

  /** `usize` saturating arithmetic. */
  function SatAdd(a: nat, b: nat): nat {
    Min(a + b, USIZE_MAX)
  }

  function SatSub(a: nat, b: nat): nat {
    Max(a - b, 0)
  }

  function Min(a: int, b: int): int {
    if a < b then a else b
  }
}
