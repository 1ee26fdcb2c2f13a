/** Integer helpers shared by the text and log modules. */
module Numbers {
  function Min(a: int, b: int): int {
    if a <= b then a else b
  }
}
