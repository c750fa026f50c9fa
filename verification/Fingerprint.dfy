/**
 The 32-bit FNV-1a hash in its two implementations: the unsigned loop of tools/mayo_gen.ts and the
 signed loop of wasm/guest_runtime.js, with JavaScript's conversions to 32-bit integers.
 */
module Fingerprint {
  import opened Int32

  const OFFSET := 0x811c_9dc5
  const PRIME := 0x0100_0193

  // PRIME * INVERSE == 1 + TURNS * 2^32: the prime is invertible modulo 2^32.
  const INVERSE := 0x359c_449b
  const TURNS := 0x35_9c99

  type Byte = x: int | 0 <= x < 256

  function Pow2(bits: nat): (r: nat)
    ensures r > 0
  {
    if bits == 0 then 1 else 2 * Pow2(bits - 1)
  }

  /** Exclusive or of the lowest `bits` binary digits. */
  function XorBits(a: nat, b: nat, bits: nat): (r: nat)
    ensures r < Pow2(bits)
    decreases bits
  {
    if bits == 0 then 0 else 2 * XorBits(a / 2, b / 2, bits - 1) + (a + b) % 2
  }

  /** `x ^ byte`: both operands as 32-bit patterns, the result as a signed word. */
  function Xor(x: int, byte: Byte): int {
    Wrap(XorBits(x % MODULUS, byte, 32))
  }

  /** `Math.imul`. */
  function Imul(x: int, y: int): int {
    Wrap(x * y)
  }

  function SignedHash(bytes: seq<Byte>): int {
    if bytes == [] then Wrap(OFFSET)
    else Imul(Xor(SignedHash(bytes[..|bytes| - 1]), bytes[|bytes| - 1]), PRIME)
  }

  /** `% MODULUS` is `>>> 0`. */
  function UnsignedHash(bytes: seq<Byte>): int {
    if bytes == [] then OFFSET
    else Imul(Xor(UnsignedHash(bytes[..|bytes| - 1]), bytes[|bytes| - 1]), PRIME) % MODULUS
  }

  /** What the generator publishes: 0 is reserved. */
  function Published(bytes: seq<Byte>): int {
    if SignedHash(bytes) == 0 then 1 else SignedHash(bytes)
  }

  /** `fnv1a32` of the generator. */
  method Fnv1a32(bytes: seq<Byte>) returns (signed: int)
    ensures signed == Published(bytes)
  {
    var hash := OFFSET;
    for i := 0 to |bytes|
      invariant hash == UnsignedHash(bytes[..i])
    {
      assert bytes[..i + 1][..i] == bytes[..i];
      hash := Imul(Xor(hash, bytes[i]), PRIME) % MODULUS;
    }
    assert bytes[..|bytes|] == bytes;
    HashesAgree(bytes);
    signed := Wrap(hash);
    if signed == 0 { signed := 1; }
  }

  /** `fnv1a` of the Wasm guest. */
  method GuestFnv1a(bytes: seq<Byte>) returns (hash: int)
    ensures hash == SignedHash(bytes)
  {
    hash := Wrap(OFFSET);
    for i := 0 to |bytes|
      invariant hash == SignedHash(bytes[..i])
    {
      assert bytes[..i + 1][..i] == bytes[..i];
      hash := Imul(Xor(hash, bytes[i]), PRIME);
    }
    assert bytes[..|bytes|] == bytes;
    WrapSamePattern(hash);
    hash := Wrap(hash);
  }

  lemma WrapSamePattern(x: int)
    ensures Wrap(x) % MODULUS == x % MODULUS && Wrap(x % MODULUS) == Wrap(x)
  {
    WrapRepresents(x);
    ModuloShift(x, (Wrap(x) - x) / MODULUS);
    WrapCongruent(x % MODULUS, x);
  }

  /** The two loops differ only in how they read the same 32 bits. */
  lemma {:induction false} HashesAgree(bytes: seq<Byte>)
    ensures Wrap(UnsignedHash(bytes)) == SignedHash(bytes)
  {
    if bytes != [] {
      var init := bytes[..|bytes| - 1];
      HashesAgree(init);
      WrapSamePattern(UnsignedHash(init));
      WrapSamePattern(SignedHash(bytes));
      WrapKeeps(SignedHash(bytes));
    }
  }

  // ---- published test vectors of FNV-1a

  /** A signed product carries the same 32 bits as the unsigned one. */
  lemma {:induction false} ProductPattern(x: int, p: int)
    ensures Imul(Wrap(x), p) % MODULUS == x * p % MODULUS
  {
    WrapSamePattern(x);
    WrapSamePattern(Wrap(x) * p);
    SameProduct(Wrap(x), x, p);
  }

  lemma {:induction false} SameProduct(x: int, y: int, p: int)
    requires x % MODULUS == y % MODULUS
    ensures x * p % MODULUS == y * p % MODULUS
  {
    var k := x / MODULUS - y / MODULUS;
    assert x == y + k * MODULUS;
    assert x * p == y * p + k * p * MODULUS;
    ModuloShift(y * p, k * p);
  }

  /** One round, from one 32-bit pattern to the next. */
  lemma {:induction false} Round(bytes: seq<Byte>, byte: Byte, next: seq<Byte>, before: nat, mixed: nat, after: nat)
    requires next == bytes + [byte] && UnsignedHash(bytes) == before < MODULUS
    requires XorBits(before, byte, 32) == mixed && mixed * PRIME % MODULUS == after
    ensures UnsignedHash(next) == after
  {
    assert next[..|bytes|] == bytes && next != [];
    ProductPattern(mixed, PRIME);
    Small(before, MODULUS);
  }

  lemma {:induction false} Small(x: nat, m: nat)
    requires x < m
    ensures x % m == x
  {}

  /** Exclusive or with 0 changes nothing. */
  lemma {:induction false} XorZero(a: nat, bits: nat)
    requires a < Pow2(bits)
    ensures XorBits(a, 0, bits) == a
  {
    if bits > 0 { XorZero(a / 2, bits - 1); }
  }

  /** Done twice it is undone. */
  lemma {:induction false} XorTwice(a: nat, b: nat, bits: nat)
    requires a < Pow2(bits)
    ensures XorBits(XorBits(a, b, bits), b, bits) == a
    decreases bits
  {
    if bits > 0 {
      XorTwice(a / 2, b / 2, bits - 1);
      TwiceDigit(a, b, XorBits(a, b, bits), XorBits(a / 2, b / 2, bits - 1), bits);
    }
  }

  lemma {:induction false} TwiceDigit(a: nat, b: nat, x: nat, rest: nat, bits: nat)
    requires bits > 0 && x == 2 * rest + (a + b) % 2 && XorBits(rest, b / 2, bits - 1) == a / 2
    ensures XorBits(x, b, bits) == a
  {
    assert x / 2 == rest && x % 2 == (a + b) % 2;
    assert (x + b) % 2 == a % 2;
  }

  lemma {:induction false} XorDigit(a: nat, b: nat, bits: nat, rest: nat)
    requires bits > 0 && XorBits(a / 2, b / 2, bits - 1) == rest
    ensures XorBits(a, b, bits) == 2 * rest + (a + b) % 2
  {}

  /** The offset basis and the letter a, digit by digit from the highest one the letter has. */
  lemma {:induction false} KnownXor(basis: nat, letter: Byte)
    requires basis == 0x811c_9dc5 && letter == 0x61
    ensures XorBits(basis, letter, 32) == 0x811c_9da4
  {
    PowWord();
    PowAdd(7, 25);
    assert Pow2(7) == 128;
    XorZero(0x0102_393b, 25);
    XorDigit(0x0204_7277, 0x01, 26, 0x0102_393b);
    XorDigit(0x0408_e4ee, 0x03, 27, 0x0204_7276);
    XorDigit(0x0811_c9dc, 0x06, 28, 0x0408_e4ed);
    XorDigit(0x1023_93b8, 0x0c, 29, 0x0811_c9da);
    XorDigit(0x2047_2771, 0x18, 30, 0x1023_93b4);
    XorDigit(0x408e_4ee2, 0x30, 31, 0x2047_2769);
    XorDigit(0x811c_9dc5, 0x61, 32, 0x408e_4ed2);
  }

  lemma {:induction false} KnownProduct(mixed: nat, quotient: nat, rest: nat)
    requires mixed == 0x811c_9da4 && quotient == 0x811d68 && rest == 0xe40c_292c
    ensures mixed * PRIME % MODULUS == rest
  {
    assert mixed * PRIME == rest + quotient * MODULUS;
    ModuloShift(rest, quotient);
  }

  /** The standard's values for the empty string and "a". */
  lemma {:induction false} KnownHashes(empty: seq<Byte>, a: seq<Byte>, basis: nat, letter: Byte)
    requires empty == [] && a == [letter] && basis == 0x811c_9dc5 && letter == 0x61
    ensures UnsignedHash(empty) == basis && UnsignedHash(a) == 0xe40c_292c
  {
    var mixed, rest := 0x811c_9da4, 0xe40c_292c;
    KnownXor(basis, letter);
    KnownProduct(mixed, 0x811d68, rest);
    Round(empty, letter, a, basis, mixed, rest);
  }

  // ---- one different byte

  lemma Halves(a: nat, b: nat)
    ensures a == b <==> a / 2 == b / 2 && a % 2 == b % 2
  {}

  lemma {:induction false} XorCancels(a: nat, b: nat, c: nat, bits: nat)
    requires a < Pow2(bits) && b < Pow2(bits) && XorBits(a, c, bits) == XorBits(b, c, bits)
    ensures a == b
    decreases bits
  {
    if bits > 0 {
      XorCancels(a / 2, b / 2, c / 2, bits - 1);
      Halves(a, b);
    }
  }

  lemma {:induction false} XorCommutes(a: nat, b: nat, bits: nat)
    ensures XorBits(a, b, bits) == XorBits(b, a, bits)
    decreases bits
  {
    if bits > 0 { XorCommutes(a / 2, b / 2, bits - 1); }
  }

  lemma {:induction false} PowAdd(a: nat, b: nat)
    ensures Pow2(a + b) == Pow2(a) * Pow2(b)
  {
    if a > 0 { PowAdd(a - 1, b); }
  }

  lemma PowWord()
    ensures Pow2(32) == MODULUS
  {
    assert Pow2(2) == 4;
    PowAdd(2, 2);
    PowAdd(4, 4);
    PowAdd(8, 8);
    PowAdd(16, 16);
  }

  /** Words with equal signed readings are equal patterns. */
  lemma WordInjective(x: nat, y: nat)
    requires x < MODULUS && y < MODULUS && Wrap(x) == Wrap(y)
    ensures x == y
  {
    WrapCongruent(x, y);
  }

  /** The exclusive or loses neither operand. */
  lemma XorInjective(x: int, y: int, p: Byte, q: Byte)
    requires Xor(x, p) == Xor(y, q)
    ensures p == q ==> x % MODULUS == y % MODULUS
    ensures x % MODULUS == y % MODULUS ==> p == q
  {
    PowWord();
    var a, b := x % MODULUS, y % MODULUS;
    WordInjective(XorBits(a, p, 32), XorBits(b, q, 32));
    if p == q { XorCancels(a, b, p, 32); }
    if a == b {
      XorCommutes(a, p, 32);
      XorCommutes(b, q, 32);
      XorCancels(p, q, a, 32);
    }
  }

  lemma PrimeInvertible(d: int)
    requires (d * PRIME) % MODULUS == 0
    ensures d % MODULUS == 0
  {
    var k := d * PRIME / MODULUS;
    assert d * PRIME == k * MODULUS;
    assert d == d * PRIME * INVERSE - d * TURNS * MODULUS;
    assert d == (k * INVERSE - d * TURNS) * MODULUS;
    ModuloShift(0, k * INVERSE - d * TURNS);
  }

  lemma WrapDifference(x: int, y: int, d: int)
    requires d == x - y
    ensures Wrap(x) == Wrap(y) <==> d % MODULUS == 0
  {
    WrapCongruent(x, y);
  }

  /** Multiplication by the odd prime loses nothing either. */
  lemma ImulInjective(x: int, y: int)
    requires Imul(x, PRIME) == Imul(y, PRIME)
    ensures Wrap(x) == Wrap(y)
  {
    WrapDifference(x * PRIME, y * PRIME, (x - y) * PRIME);
    PrimeInvertible(x - y);
    WrapDifference(x, y, x - y);
  }

  lemma StepInjective(x: int, y: int, p: Byte, q: Byte)
    requires Imul(Xor(x, p), PRIME) == Imul(Xor(y, q), PRIME)
    ensures p == q ==> x % MODULUS == y % MODULUS
    ensures x % MODULUS == y % MODULUS ==> p == q
  {
    ImulInjective(Xor(x, p), Xor(y, q));
    WrapKeeps(Xor(x, p));
    WrapKeeps(Xor(y, q));
    XorInjective(x, y, p, q);
  }

  /** Equal tails keep different hashes apart. */
  lemma {:induction false} TailsKeepApart(a: seq<Byte>, b: seq<Byte>, tail: seq<Byte>)
    requires SignedHash(a) != SignedHash(b)
    ensures SignedHash(a + tail) != SignedHash(b + tail)
  {
    if tail == [] {
      assert a + tail == a && b + tail == b;
    } else {
      var init, last := tail[..|tail| - 1], tail[|tail| - 1];
      TailsKeepApart(a, b, init);
      assert (a + tail)[..|a + tail| - 1] == a + init && (b + tail)[..|b + tail| - 1] == b + init;
      if SignedHash(a + tail) == SignedHash(b + tail) {
        StepInjective(SignedHash(a + init), SignedHash(b + init), last, last);
        HashesInRange(a + init);
        HashesInRange(b + init);
        SamePattern(SignedHash(a + init), SignedHash(b + init));
      }
    }
  }

  lemma HashesInRange(bytes: seq<Byte>)
    ensures InRange(SignedHash(bytes))
  {}

  lemma SamePattern(x: int, y: int)
    requires InRange(x) && InRange(y) && x % MODULUS == y % MODULUS
    ensures x == y
  {
    WrapSamePattern(x);
    WrapSamePattern(y);
  }

  lemma LastByteDiffers(head: seq<Byte>, p: Byte, q: Byte)
    requires p != q
    ensures SignedHash(head + [p]) != SignedHash(head + [q])
  {
    assert (head + [p])[..|head|] == head && (head + [q])[..|head|] == head;
    if SignedHash(head + [p]) == SignedHash(head + [q]) {
      StepInjective(SignedHash(head), SignedHash(head), p, q);
    }
  }

  /** Byte strings of equal length that differ in exactly one byte have different hashes. */
  lemma {:induction false} OneByteDiffers(bytes: seq<Byte>, i: nat, other: Byte)
    requires i < |bytes| && other != bytes[i]
    ensures SignedHash(bytes) != SignedHash(bytes[i := other])
  {
    var head, tail := bytes[..i], bytes[i + 1..];
    LastByteDiffers(head, bytes[i], other);
    TailsKeepApart(head + [bytes[i]], head + [other], tail);
    Splice(bytes, i, other);
  }

  lemma Splice<T>(s: seq<T>, i: nat, x: T)
    requires i < |s|
    ensures s == s[..i] + [s[i]] + s[i + 1..]
    ensures s[i := x] == s[..i] + [x] + s[i + 1..]
  {}

  /** The two strings' hashes are the two values that the generator publishes as one. */
  predicate Remapped(a: seq<Byte>, b: seq<Byte>) {
    (SignedHash(a) == 0 && SignedHash(b) == 1) || (SignedHash(a) == 1 && SignedHash(b) == 0)
  }

  /**
   One different byte changes the published value too, except exactly where the reserved 0 makes one
   string's hash take the other's place.
   */
  lemma {:induction false} PublishedCollision(bytes: seq<Byte>, i: nat, other: Byte)
    requires i < |bytes| && other != bytes[i]
    ensures Published(bytes) == Published(bytes[i := other]) <==> Remapped(bytes, bytes[i := other])
  {
    OneByteDiffers(bytes, i, other);
  }
}
