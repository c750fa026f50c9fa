/** Signed 32-bit arithmetic as MoonBit's `Int` and JavaScript's `| 0` perform it. */
module Int32 {
  const MIN := -0x8000_0000
  const MAX := 0x7fff_ffff
  const MODULUS := 0x1_0000_0000

  predicate InRange(x: int) {
    MIN <= x <= MAX
  }

  /** The word that a signed 32-bit operation leaves of an exact result x; see WrapIsModulo. */
  function Wrap(x: int): (r: int)
    ensures InRange(r)
    decreases if x > MAX then x - MAX else MIN - x
  {
    if x > MAX then Wrap(x - MODULUS) else if x < MIN then Wrap(x + MODULUS) else x
  }

  /** A word in range is its own representative. */
  lemma WrapKeeps(x: int)
    requires InRange(x)
    ensures Wrap(x) == x
  {}

  lemma ModuloShift(x: int, k: int)
    ensures (x + k * MODULUS) % MODULUS == x % MODULUS
  {
    var q := x / MODULUS;
    assert x + k * MODULUS == (q + k) * MODULUS + x % MODULUS;
  }

  /** The representative of x modulo 2^32 in the signed range. */
  lemma {:induction false} WrapIsModulo(x: int)
    ensures Wrap(x) == (x - MIN) % MODULUS + MIN
    decreases if x > MAX then x - MAX else MIN - x
  {
    if x > MAX {
      WrapIsModulo(x - MODULUS);
      ModuloShift(x - MIN, -1);
    } else if x < MIN {
      WrapIsModulo(x + MODULUS);
      ModuloShift(x - MIN, 1);
    }
  }

  lemma WrapRepresents(x: int)
    ensures (Wrap(x) - x) % MODULUS == 0
  {
    WrapIsModulo(x);
    assert x - MIN == (x - MIN) / MODULUS * MODULUS + (x - MIN) % MODULUS;
  }

  /** Two integers wrap to the same word exactly when they are congruent. */
  lemma WrapCongruent(x: int, y: int)
    ensures Wrap(x) == Wrap(y) <==> (x - y) % MODULUS == 0
  {
    WrapIsModulo(x);
    WrapIsModulo(y);
    var a, b := (x - MIN) / MODULUS, (y - MIN) / MODULUS;
    assert x - MIN == a * MODULUS + (x - MIN) % MODULUS;
    assert y - MIN == b * MODULUS + (y - MIN) % MODULUS;
    if Wrap(x) == Wrap(y) {
      assert x - y == (a - b) * MODULUS;
    }
    if (x - y) % MODULUS == 0 {
      var k := (x - y) / MODULUS;
      assert x - MIN == (k + b) * MODULUS + (y - MIN) % MODULUS;
    }
  }

  /** Wrapping early or late makes no difference to a sum. */
  lemma WrapAdd(x: int, y: int)
    ensures Wrap(Wrap(x) + y) == Wrap(x + y)
    ensures Wrap(x + Wrap(y)) == Wrap(x + y)
  {
    WrapRepresents(x);
    WrapRepresents(y);
    WrapCongruent(Wrap(x) + y, x + y);
    WrapCongruent(x + Wrap(y), x + y);
  }

  /** `Int` addition of two words, which wraps at most once. */
  function Add(x: int, y: int): int {
    if x + y > MAX then x + y - MODULUS else if x + y < MIN then x + y + MODULUS else x + y
  }

  lemma AddIsWrap(x: int, y: int)
    requires InRange(x) && InRange(y)
    ensures Add(x, y) == Wrap(x + y)
  {}
}
