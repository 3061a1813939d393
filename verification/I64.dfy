/** The two's complement 64-bit integers that the profile format uses. */
module I64 {
  const TWO63: int := 0x8000_0000_0000_0000
  const TWO64: int := 0x1_0000_0000_0000_0000

  /** The value a 64-bit register holds after the mathematical result `x`. */
  function Wrap(x: int): (r: int)
    ensures -TWO63 <= r < TWO63
    ensures (r - x) % TWO64 == 0
    ensures -TWO63 <= x < TWO63 ==> r == x
  {
    var m := x % TWO64;
    if m < TWO63 then m else m - TWO64
  }

  /** Casting a factor first makes no difference to a wrapped product. */
  lemma WrapProduct(x: int, y: int)
    ensures Wrap(Wrap(x) * y) == Wrap(x * y)
  {
    var k := (x - Wrap(x)) / TWO64;
    assert x == Wrap(x) + k * TWO64;
    assert x * y == Wrap(x) * y + (k * y) * TWO64;
    WrapPeriodic(Wrap(x) * y, k * y);
  }

  lemma WrapSum(x: int, y: int)
    ensures Wrap(Wrap(x) + Wrap(y)) == Wrap(x + y)
  {
    var k, j := (x - Wrap(x)) / TWO64, (y - Wrap(y)) / TWO64;
    assert x == Wrap(x) + k * TWO64;
    assert y == Wrap(y) + j * TWO64;
    WrapPeriodic(Wrap(x) + Wrap(y), k + j);
  }

  lemma WrapPeriodic(x: int, k: int)
    ensures Wrap(x + k * TWO64) == Wrap(x)
  {
  }
}
