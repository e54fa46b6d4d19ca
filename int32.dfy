/** C#'s 32-bit `int` and the few Unity `Mathf` helpers the core applies to it.
    Unchecked C# arithmetic wraps around modulo 2^32; the model writes every such
    operation through `Wrap`, so an overflow behaves as it does in the game. */
module Int32 {

  const MinValue: int := -0x8000_0000
  const MaxValue: int := 0x7FFF_FFFF
  const Modulus: int := 0x1_0000_0000

  /** The values of a C# `int`. */
  type int32 = x: int | MinValue <= x <= MaxValue

  /** Two's-complement truncation of a mathematical integer to 32 bits. */
  function Wrap(x: int): (r: int32)
    ensures MinValue <= x <= MaxValue ==> r == x
  {
    (x - MinValue) % Modulus + MinValue
  }

  /** `Wrap` moves its argument by a whole number of 2^32 steps. */
  lemma WrapMultiple(x: int)
    ensures (x - Wrap(x)) % Modulus == 0
  {
  }

  /** `a + b` on C# ints. */
  function WrapAdd(a: int32, b: int32): int32 { Wrap(a + b) }

  /** `a - b` on C# ints. */
  function WrapSub(a: int32, b: int32): int32 { Wrap(a - b) }

  /** `-a` on C# ints (so `-int.MinValue == int.MinValue`). */
  function WrapNeg(a: int32): int32 { Wrap(-(a as int)) }

  /** `Mathf.Max(int, int)`. */
  function Max(a: int32, b: int32): (r: int32)
    ensures r >= a && r >= b && (r == a || r == b)
  {
    if a > b then a else b
  }

  /** `Mathf.Min(int, int)`. */
  function Min(a: int32, b: int32): (r: int32)
    ensures r <= a && r <= b && (r == a || r == b)
  {
    if a < b then a else b
  }

  /** `Mathf.Clamp(int, int, int)`: the lower bound is tested first, so when
      `hi < lo` a value at or above `lo` comes back as `hi`. */
  function Clamp(value: int32, lo: int32, hi: int32): (r: int32)
    ensures lo <= hi ==> lo <= r <= hi
    ensures lo <= value <= hi ==> r == value
    ensures value < lo ==> r == lo
    ensures lo <= value && hi < value ==> r == hi
  {
    if value < lo then lo else if value > hi then hi else value
  }

  /** Two 32-bit values congruent modulo 2^32 are equal. */
  lemma {:induction false} CongruentEqual(a: int32, b: int32)
    requires (a - b) % Modulus == 0
    ensures a == b
  {
  }

  /** Adding `a` and then adding `-a`, both wrapped, gives back the start value:
      the reason revoking a stat modifier undoes applying it. */
  lemma {:induction false} AddThenSubtract(b: int32, a: int32)
    ensures WrapAdd(WrapAdd(b, a), WrapNeg(a)) == b
  {
    var s := WrapAdd(b, a);
    assert WrapAdd(s, WrapNeg(a)) == Wrap(s - a) by {
      WrapInner(-(a as int), s);
      assert Wrap(-(a as int)) + s == s + WrapNeg(a);
    }
    assert Wrap(s - a) == Wrap(b + a - a) by {
      WrapInner(b + a, -(a as int));
    }
    assert b + a - a == b as int;
  }

  /** Integers congruent modulo 2^32 wrap to the same 32-bit value. */
  lemma {:induction false} WrapCongruent(x: int, y: int)
    requires (x - y) % Modulus == 0
    ensures Wrap(x) == Wrap(y)
  {
    var k := (x - y) / Modulus;
    assert x - y == k * Modulus;
    assert (Wrap(x) - Wrap(y)) % Modulus == 0 by {
      var kx := (x - Wrap(x)) / Modulus;
      var ky := (y - Wrap(y)) / Modulus;
      WrapMultiple(x);
      WrapMultiple(y);
      assert x - Wrap(x) == kx * Modulus;
      assert y - Wrap(y) == ky * Modulus;
      assert Wrap(x) - Wrap(y) == (k - kx + ky) * Modulus;
    }
    CongruentEqual(Wrap(x), Wrap(y));
  }

  /** Wrapping an intermediate result does not change a wrapped sum. */
  lemma {:induction false} WrapInner(x: int, y: int)
    ensures Wrap(Wrap(x) + y) == Wrap(x + y)
  {
    var kx := (x - Wrap(x)) / Modulus;
    WrapMultiple(x);
    assert x - Wrap(x) == kx * Modulus;
    assert (Wrap(x) + y) - (x + y) == -kx * Modulus;
    WrapCongruent(Wrap(x) + y, x + y);
  }

  /** A wrapped running sum, moved by `c` and wrapped again, is the wrapped
      total. */
  lemma {:induction false} WrapAccumulate(x: int32, y: int32, start: int, c: int)
    requires x == Wrap(start) && y == Wrap(x + c)
    ensures y == Wrap(start + c)
  {
    WrapInner(start, c);
  }

  /** Adding `a` (or `-a`, negated as a C# int) to `x` wraps the exact sum. */
  lemma {:induction false} WrapSigned(x: int32, a: int32, add: bool)
    ensures WrapAdd(x, if add then a else WrapNeg(a)) == Wrap(x + (if add then a as int else -(a as int)))
  {
    if !add {
      WrapInner(-(a as int), x);
      assert WrapNeg(a) + x == x + WrapNeg(a);
    }
  }
}
