/** Java's `int`: 32-bit two's complement, whose arithmetic wraps around. */
module JavaInt {
  import opened Utils

  /** The `int` with the same low 32 bits as `x`: the result of a Java
      `int` operation whose exact value is `x`. */
  function Wrap(x: int): (r: I32)
    ensures (r - x) % TWO_32 == 0
  {
    ModShift(x, -(x / TWO_32));
    AsI32(x % TWO_32)
  }

  /** Adding a multiple of 2^32 does not change the low 32 bits. */
  lemma ModShift(x: int, j: int)
    ensures (x + TWO_32 * j) % TWO_32 == x % TWO_32
  {
    DivModUnique(x + TWO_32 * j, TWO_32, x / TWO_32 + j, x % TWO_32);
  }

  /** An `int` that agrees with `x` in its low 32 bits is `Wrap(x)`. */
  lemma WrapUnique(x: int, r: I32)
    requires (r - x) % TWO_32 == 0
    ensures r == Wrap(x)
  {
    var w := Wrap(x);
    var k, l := (r - x) / TWO_32, (w - x) / TWO_32;
    assert r - x == TWO_32 * k;
    assert w - x == TWO_32 * l;
    assert r - w == TWO_32 * (k - l);
    if k - l > 0 {
      MulMono(TWO_32, 1, k - l);
    } else if k - l < 0 {
      MulMono(TWO_32, k - l, -1);
    }
  }

  /** Wrapping an operand of a product first gives the same `int` product. */
  lemma WrapMul(a: int, b: int)
    ensures Wrap(Wrap(a) * b) == Wrap(a * b)
  {
    var k := (Wrap(a) - a) / TWO_32;
    assert Wrap(a) == a + TWO_32 * k;
    assert Wrap(a) * b == a * b + TWO_32 * (k * b);
    var r := Wrap(Wrap(a) * b);
    assert (r - a * b) % TWO_32 == 0 by {
      assert r - a * b == (r - Wrap(a) * b) + TWO_32 * (k * b);
      ModShift(r - Wrap(a) * b, k * b);
    }
    WrapUnique(a * b, r);
  }
}
