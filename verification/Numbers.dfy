/** Integer arithmetic as the JavaScript sources use it. */
module Numbers {

  /** `Math.ceil(n / d)`. */
  function CeilDiv(n: int, d: int): (q: int)
    requires d > 0
    ensures d * (q - 1) < n <= d * q
  {
    -((-n) / d)
  }
}
