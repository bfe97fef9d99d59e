/** Fixed-width C integers of the LP64 targets (x86_64, aarch64): `int` is
    32 bits, `long`, `unsigned long` and pointers are 64 bits. Dafny's
    integers are unbounded, so every conversion C performs implicitly is
    written out here. */
module Machine {

  const TWO_32: int := 0x1_0000_0000
  const TWO_64: int := 0x1_0000_0000_0000_0000

  const INT_MIN: int := -0x8000_0000
  const INT_MAX: int := 0x7fff_ffff
  const LONG_MIN: int := -0x8000_0000_0000_0000
  const LONG_MAX: int := 0x7fff_ffff_ffff_ffff
  const ULONG_MAX: int := 0xffff_ffff_ffff_ffff

  /** sizeof(unsigned long) */
  const WORD_SIZE: int := 8

  /** The null pointer. */
  const NULL: int := 0

  type Byte = x: int | 0 <= x < 0x100
  type Int32 = x: int | -0x8000_0000 <= x <= 0x7fff_ffff
  type Int64 = x: int | -0x8000_0000_0000_0000 <= x <= 0x7fff_ffff_ffff_ffff
  type UInt64 = x: int | 0 <= x <= 0xffff_ffff_ffff_ffff

  /** `(unsigned long) x`: reduction modulo 2^64. */
  function ToUnsigned64(x: int): (u: UInt64)
    ensures 0 <= x <= ULONG_MAX ==> u == x
    ensures LONG_MIN <= x < 0 ==> u == x + TWO_64
    ensures (u - x) % TWO_64 == 0
  {
    x % TWO_64
  }

  /** `(long) u` on a two's-complement machine. */
  function ToSigned64(u: UInt64): (x: Int64)
    ensures ToUnsigned64(x) == u
  {
    if u <= LONG_MAX then u else u - TWO_64
  }

  /** `(int) x`: keep the low 32 bits, read them as two's complement. */
  function ToInt32(x: int): (r: Int32)
    ensures INT_MIN <= x <= INT_MAX ==> r == x
    ensures (r - x) % TWO_32 == 0
  {
    var low := x % TWO_32;
    if low <= INT_MAX then low else low - TWO_32
  }

  /** `(unsigned) c` for a 32-bit int. */
  function ToUnsigned32(x: int): (u: nat)
    ensures u < TWO_32
    ensures 0 <= x < TWO_32 ==> u == x
    ensures INT_MIN <= x < 0 ==> u == x + TWO_32
  {
    x % TWO_32
  }

  /** Signed to unsigned and back is the identity on `long`. */
  lemma SignedRoundTrip(x: Int64)
    ensures ToSigned64(ToUnsigned64(x)) == x
  {
  }
}
