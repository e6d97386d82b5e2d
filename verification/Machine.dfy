/** Machine integers, bytes and the two wrapper datatypes used throughout. */
module Machine {

  const U64_MAX: int := 0xFFFF_FFFF_FFFF_FFFF
  const U64_MODULUS: int := 0x1_0000_0000_0000_0000

  type U64 = n: int | 0 <= n <= U64_MAX

  type Byte = n: int | 0 <= n < 256

  datatype Option<+T> = None | Some(value: T)

  datatype Result<+T, +E> = Success(value: T) | Failure(error: E)

  /** `u64::saturating_add(1)` */
  function SaturatingSucc(n: U64): U64 {
    if n == U64_MAX then n else n + 1
  }

  /** `u64::saturating_sub(1)` */
  function SaturatingPred(n: U64): U64 {
    if n == 0 then 0 else n - 1
  }

  function Min(a: int, b: int): int {
    if a < b then a else b
  }
}
