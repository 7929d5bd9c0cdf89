/** An optional value: the model's stand-in for a C result that may be NULL
    and for a pseudo-file that may fail to open. */
module Wrappers {
  datatype Option<+T> = None | Some(value: T)
}

/** Unsigned 64-bit arithmetic as C performs it on `uint64_t`: every sum and
    difference is reduced modulo 2^64. */
module Uint64 {
  const Modulus: int := 0x1_0000_0000_0000_0000

  type u64 = x: int | 0 <= x < 0x1_0000_0000_0000_0000

  /** The value a `uint64_t` holds after an exact result `x` is stored in it. */
  function Wrap(x: int): (r: u64)
    ensures 0 <= x < Modulus ==> r == x
    ensures (x - r) % Modulus == 0
  {
    x % Modulus
  }

  /** `a - b` on `uint64_t`: the exact difference when `a >= b`, otherwise
      the difference plus 2^64. */
  function Sub(a: u64, b: u64): (r: u64)
    ensures a >= b ==> r == a - b
    ensures a < b ==> r == a - b + Modulus && r > a
  {
    Wrap(a - b)
  }

  /** Adding to a wrapped value wraps like adding to the exact one, which is
      what makes a loop of `total += x` equal to the wrapped exact sum. */
  lemma {:induction false} WrapAdd(a: int, b: int)
    ensures Wrap(Wrap(a) + b) == Wrap(a + b)
  {
    var q := a / Modulus;
    assert a == q * Modulus + Wrap(a);
    assert Wrap(a) + b == (a + b) - q * Modulus;
    ModuloShift(a + b, -q);
  }

  lemma {:induction false} ModuloShift(x: int, k: int)
    ensures (x + k * Modulus) % Modulus == x % Modulus
  {
    var r := x % Modulus;
    var q := x / Modulus;
    assert x == q * Modulus + r;
    assert x + k * Modulus == (q + k) * Modulus + r;
  }
}

/** The two character tests the C code writes out by hand: `strncmp`
    against a literal prefix, and a comparison with '0' and '9'. */
module CText {
  predicate StartsWith(s: string, prefix: string) {
    |prefix| <= |s| && s[..|prefix|] == prefix
  }

  predicate IsDigit(c: char) {
    '0' <= c <= '9'
  }
}
