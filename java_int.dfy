/** Java's 32-bit `int`: its bounds and the wrap-around of its arithmetic. */
module JavaInt {

  const INT_MIN: int := -0x8000_0000
  const INT_MAX: int := 0x7fff_ffff
  const TWO_32: int := 0x1_0000_0000

  predicate IsInt32(v: int) {
    INT_MIN <= v <= INT_MAX
  }

  /** The value Java's `int` arithmetic yields for the exact result `v`:
      the unique 32-bit two's-complement value congruent to `v` modulo 2^32. */
  function Wrap32(v: int): (r: int)
    ensures IsInt32(r)
    ensures (v - r) % TWO_32 == 0
    ensures IsInt32(v) ==> r == v
  {
    (v - INT_MIN) % TWO_32 + INT_MIN
  }

  /** Values congruent modulo 2^32 wrap to the same `int`. */
  lemma Wrap32Congruent(u: int, v: int, k: int)
    requires u == v + k * TWO_32
    ensures Wrap32(u) == Wrap32(v)
  {
    var a := v - INT_MIN;
    var q := a / TWO_32;
    assert a == TWO_32 * q + a % TWO_32;
    assert u - INT_MIN == TWO_32 * (q + k) + a % TWO_32;
  }

  /** Wrapping after every addition equals wrapping once at the end, so an
      accumulating `int` sum is the exact sum taken modulo 2^32. */
  lemma Wrap32Add(acc: int, x: int)
    ensures Wrap32(Wrap32(acc) + x) == Wrap32(acc + x)
  {
    var r := Wrap32(acc);
    var k := (acc - r) / TWO_32;
    assert acc - r == TWO_32 * k;
    Wrap32Congruent(acc + x, r + x, k);
  }
}
