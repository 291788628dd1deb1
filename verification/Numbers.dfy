/** Integer widths and the capacity rule shared by several parts. */
module Numbers {
  const U32_LIMIT: int := 0x1_0000_0000

  type U32 = n: int | 0 <= n < U32_LIMIT

  /** `max_entries.max(1)` */
  function AtLeastOne(n: nat): (r: nat)
    ensures r >= 1 && r >= n && (r == 1 || r == n)
  {
    if n >= 1 then n else 1
  }
}
