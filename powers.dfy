/** Powers of two, as the shifts and doubling tables of the device code compute them. */
module Powers {

  /** 2 to the n: `1 << n` for the shift widths the code uses. */
  function Pow2(n: nat): (r: nat)
    ensures r >= 1
  {
    if n == 0 then 1 else 2 * Pow2(n - 1)
  }
}
