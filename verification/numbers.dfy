/** Integer helpers shared by the modules. */
module Numbers {

  /** `Math.min` on integers. */
  function Min(a: int, b: int): (m: int)
    ensures m <= a && m <= b
    ensures m == a || m == b
  {
    if a <= b then a else b
  }
}
