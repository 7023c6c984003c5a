/** Optional values, the bounds of machine integers, and small arithmetic. */
module Common {
  datatype Option<+T> = None | Some(value: T)

  const U32_BOUND: nat := 0x1_0000_0000
  const I64_BOUND: nat := 0x8000_0000_0000_0000
  const U64_BOUND: nat := 0x1_0000_0000_0000_0000

  function Min(a: nat, b: nat): nat { if a < b then a else b }
  function Max(a: nat, b: nat): nat { if a < b then b else a }

  /** Saturating subtraction. */
  function Minus(a: nat, b: nat): nat { if a < b then 0 else a - b }

  function Pow2(n: nat): (p: nat)
    ensures p > 0
  {
    if n == 0 then 1 else 2 * Pow2(n - 1)
  }

  /** The first of two optional values that is there. */
  function Or<T>(a: Option<T>, b: Option<T>): Option<T> {
    if a.Some? then a else b
  }
}
