/** Optional values, as Rust's `Option`. */
module Wrappers {

  datatype Option<+T> = None | Some(value: T) {

    /** The contained value, or `default` when there is none (Rust's `unwrap_or`). */
    function UnwrapOr(default: T): (r: T)
      ensures Some? ==> r == value
      ensures None? ==> r == default
    {
      match this
      case Some(v) => v
      case None => default
    }
  }
}

/** Rust's fixed-width integers as bounded subsets of `int`, and the
    conversions and checked arithmetic the plugin relies on. */
module Ints {
  import opened Wrappers

  const U32_MAX: int := 0xFFFF_FFFF
  const I32_MIN: int := -0x8000_0000
  const I32_MAX: int := 0x7FFF_FFFF
  const I64_MIN: int := -0x8000_0000_0000_0000
  const I64_MAX: int := 0x7FFF_FFFF_FFFF_FFFF
  const U64_MAX: int := 0xFFFF_FFFF_FFFF_FFFF

  type U32 = n: int | 0 <= n <= U32_MAX
  type I32 = n: int | I32_MIN <= n <= I32_MAX
  type I64 = n: int | I64_MIN <= n <= I64_MAX
  type U64 = n: int | 0 <= n <= U64_MAX

  /** Rust's `i as u32` for an `i32`: the same bit pattern read unsigned. */
  function AsU32(i: I32): (r: U32)
    ensures r % 0x1_0000_0000 == i % 0x1_0000_0000
    ensures 0 <= i ==> r == i
    ensures i < 0 ==> r > I32_MAX
  {
    if i < 0 then i + 0x1_0000_0000 else i
  }

  /** `a - b` on `u32` as a debug build evaluates it: `None` stands for the
      overflow panic. */
  function CheckedSub(a: U32, b: U32): (r: Option<U32>)
    ensures r.Some? <==> b <= a
    ensures r.Some? ==> r.value + b == a
  {
    if b <= a then Some(a - b) else None
  }
}
