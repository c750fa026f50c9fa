/**
 What one worker of the C and Rust pools does to its range (native/c/bench.c, native/rust/src/main.rs)
 and which range that is. Values have 32 bits, `size_t` 64.
 */
module CondRanges {
  import opened Arithmetic
  import opened Int32
  import Kernels

  const WORD := 0x1_0000_0000
  const SIZE := 0x1_0000_0000_0000_0000

  // ---- values

  function MixValue(value: int, rounds: nat): int {
    if rounds == 0 then value else (MixValue(value, rounds - 1) * 1664525 + 1013904223) % WORD
  }

  function Transformed(data: seq<int>, lo: nat, hi: nat, rounds: nat): (r: seq<int>)
    ensures |r| == |data|
    ensures forall x :: 0 <= x < |data| ==> r[x] == if lo <= x < hi then MixValue(data[x], rounds) else data[x]
  {
    seq(|data|, x requires 0 <= x < |data| => if lo <= x < hi then MixValue(data[x], rounds) else data[x])
  }

  method TransformRange(data: array<int>, start: nat, end: nat, rounds: nat)
    requires start <= end <= data.Length
    modifies data
    ensures data[..] == Transformed(old(data[..]), start, end, rounds)
  {
    for index := start to end
      invariant data[..] == Transformed(old(data[..]), start, index, rounds)
    {
      var value := data[index];
      for round := 0 to rounds
        invariant value == MixValue(data[index], round)
      {
        value := (value * 1664525 + 1013904223) % WORD;
      }
      data[index] := value;
    }
  }

  /** The unsigned mix of C and Rust and the signed one of MoonBit agree on every bit pattern. */
  lemma {:induction false} SameMix(value: int, rounds: nat)
    ensures Wrap(MixValue(value, rounds)) == Kernels.MixRounds(Wrap(value), rounds)
  {
    if rounds > 0 {
      SameMix(value, rounds - 1);
      WrapLinear(MixValue(value, rounds - 1));
    }
  }

  lemma ScaledCongruence(d: int, a: int)
    requires d % MODULUS == 0
    ensures (d * a) % MODULUS == 0
  {
    var k := d / MODULUS;
    assert d * a == (k * a) * MODULUS;
    ModuloShift(0, k * a);
  }

  lemma WrapLinear(m: int)
    ensures Wrap((m * 1664525 + 1013904223) % WORD) == Kernels.Mix(Wrap(m))
  {
    var n := Wrap(m);
    WrapRepresents(m);
    ScaledCongruence(n - m, 1664525);
    WrapCongruent(n * 1664525 + 1013904223, m * 1664525 + 1013904223);
    WrapWord(m * 1664525 + 1013904223);
  }

  lemma WrapWord(x: int)
    ensures Wrap(x % WORD) == Wrap(x)
  {
    WrapCongruent(x % WORD, x);
  }

  // ---- ranges

  /** `elements * id / worker_count` in 64 bits. */
  function Bound(elements: nat, id: nat, n: nat): nat
    requires n > 0
  {
    elements * id % SIZE / n
  }

  /** A product that fits needs no wrap. */
  lemma {:induction false} BoundIs(product: nat, elements: nat, id: nat, n: nat)
    requires n > 0 && product == elements * id < SIZE
    ensures Bound(elements, id, n) == product / n
  {}

  /** Without overflow a bound is the exact quotient rounded down. */
  lemma {:induction false} BoundIsFloor(elements: nat, id: nat, n: nat)
    requires id <= n && 0 < n && elements * n < SIZE
    ensures Bound(elements, id, n) * n <= elements * id < Bound(elements, id, n) * n + n
  {
    MulOrder(id, n, elements);
    FloorOf(elements * id, elements, id, n);
  }

  lemma {:induction false} FloorOf(product: nat, elements: nat, id: nat, n: nat)
    requires 0 < n && product == elements * id < SIZE
    ensures Bound(elements, id, n) * n <= product < Bound(elements, id, n) * n + n
  {
    BoundIs(product, elements, id, n);
    assert product == product / n * n + product % n;
  }

  /** So the ranges of any two workers differ by at most one element. */
  lemma {:induction false} RangesEven(elements: nat, v: nat, w: nat, n: nat)
    requires v < n && w < n && elements * n < SIZE
    ensures
      var first, second := Bound(elements, v + 1, n) - Bound(elements, v, n), Bound(elements, w + 1,
          n) - Bound(elements, w, n);
      -1 <= first - second <= 1
  {
    LengthNear(elements, v, n);
    LengthNear(elements, w, n);
    Closer(Bound(elements, v + 1, n) - Bound(elements, v, n), Bound(elements, w + 1, n) - Bound(elements, w, n),
        elements, n);
  }

  lemma {:induction false} LengthNear(elements: nat, id: nat, n: nat)
    requires id < n && elements * n < SIZE
    ensures
      var length := Bound(elements, id + 1, n) - Bound(elements, id, n);
      elements - n < length * n < elements + n
  {
    BoundIsFloor(elements, id, n);
    BoundIsFloor(elements, id + 1, n);
    Distribute(id, 1, elements);
    Gap(Bound(elements, id, n), Bound(elements, id + 1, n), elements * id, elements * (id + 1), elements, n);
  }

  lemma {:induction false} Gap(a: int, b: int, p: int, q: int, elements: nat, n: nat)
    requires a * n <= p < a * n + n && b * n <= q < b * n + n && q == p + elements
    ensures elements - n < (b - a) * n < elements + n
  {
    assert (b - a) * n == b * n - a * n;
  }

  lemma {:induction false} Closer(x: int, y: int, elements: nat, n: nat)
    requires 0 < n && elements - n < x * n < elements + n && elements - n < y * n < elements + n
    ensures -1 <= x - y <= 1
  {
    if x - y >= 2 { MulOrder(y + 2, x, n); Distribute(y, 2, n); }
    if y - x >= 2 { MulOrder(x + 2, y, n); Distribute(x, 2, n); }
  }

  /** Without overflow the ranges start at 0, end at `elements` and never run backwards. */
  lemma {:induction false} BoundsEnds(elements: nat, n: nat)
    requires n > 0 && elements * n < SIZE
    ensures Bound(elements, 0, n) == 0 && Bound(elements, n, n) == elements
  {
    BoundIs(0, elements, 0, n);
    BoundIs(elements * n, elements, n, n);
    QuotientAtLeast(elements * n, elements, n);
    MulOrder(1, n, n);
    QuotientAtLeast(elements * n, elements + 1, n);
  }

  lemma {:induction false} BoundsRise(elements: nat, id: nat, n: nat)
    requires id < n && elements * n < SIZE
    ensures Bound(elements, id, n) <= Bound(elements, id + 1, n)
  {
    MulOrder(id + 1, n, elements);
    MulOrder(id, id + 1, elements);
    BoundsRiseTo(elements * id, elements * (id + 1), elements, id, n);
  }

  lemma {:induction false} BoundsRiseTo(from: nat, to: nat, elements: nat, id: nat, n: nat)
    requires n > 0 && from == elements * id <= to == elements * (id + 1) < SIZE
    ensures Bound(elements, id, n) <= Bound(elements, id + 1, n)
  {
    BoundIs(from, elements, id, n);
    BoundIs(to, elements, id + 1, n);
    QuotientMonotone(from, to, n);
  }

  lemma ShortOfEnd(elements: nat, id: nat, n: nat)
    requires id < n && elements < SIZE && SIZE <= elements * n
    ensures Bound(elements, id + 1, n) < elements
  {
    MulOrder(id + 1, n, elements);
    QuotientAtLeast(elements * (id + 1) % SIZE, elements, n);
  }

  predicate Covers(elements: nat, n: nat, id: nat, x: nat)
    requires id < n
  {
    Bound(elements, id, n) <= x < Bound(elements, id + 1, n)
  }

  /**
   The hypothesis of BoundsEnds is exact: in wrapping 64-bit arithmetic the last index belongs to some
   worker if and only if `elements * worker_count` does not overflow.
   */
  lemma {:induction false} LastIndexCovered(elements: nat, n: nat, last: nat)
    requires n > 0 && elements == last + 1 < SIZE
    ensures (exists id: nat :: id < n && Covers(elements, n, id, last)) <==> elements * n < SIZE
  {
    if elements * n < SIZE {
      BoundsEnds(elements, n);
      MulOrder(n - 1, n, elements);
      assert elements * n == elements * (n - 1) + elements;
      QuotientAtLeast(elements * (n - 1), elements, n);
      assert Covers(elements, n, n - 1, last);
    } else {
      forall id: nat | id < n ensures !Covers(elements, n, id, last) {
        ShortOfEnd(elements, id, n);
      }
    }
  }
}
