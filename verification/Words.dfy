/** The width of the machine words the bridge counts in. */
module Words {

  /** One more than the largest unsigned 64-bit value. */
  const TWO_64: nat := 0x1_0000_0000_0000_0000

  /** The next count, staying at the largest value. */
  function SaturatingNext(n: nat): nat {
    if n + 1 < TWO_64 then n + 1 else TWO_64 - 1
  }
}
