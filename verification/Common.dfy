/** Shared value types of the two canisters: optional and fallible results, the
    unsigned machine integers and their saturating and wrapping operations. */
module Common {

  datatype Option<+T> = None | Some(value: T)

  datatype Result<+T, +E> = Ok(value: T) | Err(error: E)

  const TWO_64: nat := 0x1_0000_0000_0000_0000
  const TWO_128: nat := 0x1_0000_0000_0000_0000_0000_0000_0000_0000
  const U64_MAX: nat := TWO_64 - 1
  const U128_MAX: nat := TWO_128 - 1

  type u64 = n: int | 0 <= n < TWO_64
  type u128 = n: int | 0 <= n < TWO_128

  /** A principal, written as its textual form. */
  type Principal = string

  const ANONYMOUS: Principal := "2vxsx-fae"

  function Min(a: int, b: int): int { if a <= b then a else b }

  function Max(a: int, b: int): int { if a <= b then b else a }

  function SatAdd64(a: u64, b: u64): u64 {
    if a + b <= U64_MAX then a + b else U64_MAX
  }

  function SatSub64(a: u64, b: u64): u64 {
    if b <= a then a - b else 0
  }

  /** Machine addition and multiplication in a release build, where overflow wraps. */
  function WrapAdd64(a: u64, b: u64): u64 { (a + b) % TWO_64 }

  function WrapSub64(a: u64, b: u64): u64 { (a - b) % TWO_64 }

  function WrapMul64(a: u64, b: u64): u64 { (a * b) % TWO_64 }

  /** A counter per key, absent keys counting as zero. */
  function At<K>(m: map<K, nat>, k: K): nat { if k in m then m[k] else 0 }

  function Bump<K>(m: map<K, nat>, k: K, n: nat): map<K, nat> { m[k := At(m, k) + n] }
}
