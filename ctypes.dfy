/** Machine-level types used by the runtime: pointers, `size_t`, `_int64`,
    `unsigned`, and C's truncating integer division. */
module CTypes {

  datatype Option<T> = None | Some(value: T)

  /** A pointer value; 0 is NULL. */
  type Addr = nat
  const NULL: Addr := 0

  /** `size_t` on a 64-bit target. */
  const SIZE_MOD: int := 0x1_0000_0000_0000_0000
  type SizeT = x: int | 0 <= x < SIZE_MOD

  /** `unsigned` (32 bits). */
  const UINT_MOD: int := 0x1_0000_0000

  /** `_int64`. */
  type Int64 = x: int | -0x8000_0000_0000_0000 <= x < 0x8000_0000_0000_0000

  /** Reduction modulo 2^64: what unsigned `size_t` arithmetic does. */
  function Wrap64(x: int): SizeT
  {
    x % SIZE_MOD
  }

  function SizeAdd(a: SizeT, b: SizeT): SizeT { Wrap64(a + b) }
  function SizeSub(a: SizeT, b: SizeT): SizeT { Wrap64(a - b) }
  function SizeMul(a: SizeT, b: SizeT): SizeT { Wrap64(a * b) }

  /** The usual arithmetic conversion of an `_int64` operand compared
      against a `size_t`: both become unsigned 64-bit. */
  function Int64ToSize(v: Int64): SizeT { Wrap64(v) }

  /** Adding after a wrap is the same as wrapping once at the end. */
  lemma WrapAdd(x: int, y: int)
    ensures Wrap64(Wrap64(x) + y) == Wrap64(x + y)
  {
    var q := x / SIZE_MOD;
    assert x == q * SIZE_MOD + Wrap64(x);
    WrapMultiple(x + y, q);
  }

  lemma WrapMultiple(z: int, k: int)
    ensures Wrap64(z - k * SIZE_MOD) == Wrap64(z)
  {
    var q := z / SIZE_MOD;
    var r := z % SIZE_MOD;
    assert z - k * SIZE_MOD == (q - k) * SIZE_MOD + r;
  }

  function Abs(x: int): nat { if x < 0 then -x else x }

  /** C's integer division, which truncates toward zero: the remainder is
      smaller than the divisor in magnitude and has the sign of the
      dividend (C99 section 6.5.5). */
  function TruncDiv(a: int, b: int): (q: int)
    requires b != 0
    ensures Abs(a - q * b) < Abs(b)
    ensures a - q * b == 0 || (a - q * b > 0 <==> a > 0)
  {
    if a >= 0 then
      if b > 0 then a / b else -(a / -b)
    else
      if b > 0 then -((-a) / b) else (-a) / (-b)
  }
}
