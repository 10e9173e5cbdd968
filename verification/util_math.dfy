/** `Min`, `Max` and `Clamp` of Source/GfxUtil.h, on `uint32_t`. */
module GfxMath {
  import opened Machine

  function Min(a: U32, b: U32): (r: U32)
    ensures r <= a && r <= b
    ensures r == a || r == b
  {
    if a < b then a else b
  }

  function Max(a: U32, b: U32): (r: U32)
    ensures r >= a && r >= b
    ensures r == a || r == b
  {
    if a > b then a else b
  }

  /**
   * `Clamp(n, low, high)` is `Min(Max(n, low), high)`: never above `high`,
   * inside `[low, high]` when that range is not empty, and `n` itself when
   * `n` already lies in it. With `low > high` the result is `high`.
   */
  function Clamp(n: U32, low: U32, high: U32): (r: U32)
    ensures r <= high
    ensures low <= high ==> low <= r
    ensures low <= n <= high ==> r == n
    ensures low > high ==> r == high
    ensures n < low <= high ==> r == low
    ensures low <= high < n ==> r == high
  {
    Min(Max(n, low), high)
  }

  /** Where `n` falls against a non-empty range: below it, above it or inside it. */
  function ClampCase(n: int, low: int, high: int): int {
    if n < low then low else if n > high then high else n
  }

  /**
   * `Clamp` into a non-empty range is the case split of `ClampCase`; into an
   * empty range (`low > high`) it is `high`, since `Min` is applied last.
   */
  lemma ClampMeansCase(n: U32, low: U32, high: U32)
    ensures low <= high ==> Clamp(n, low, high) == ClampCase(n, low, high)
    ensures low > high ==> Clamp(n, low, high) == high
  {
  }
}
