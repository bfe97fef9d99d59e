/** The character classifiers of the freestanding runtime. Each one works on
    an `int` the way the C source does: it reinterprets it as `unsigned`,
    subtracts the first member of the class with 32-bit wrap-around and
    compares the difference with the size of the class. The contracts state
    the class as a plain range of characters. */
module CType {
  import opened Machine

  /** `(unsigned) c - base`, computed modulo 2^32. */
  function UnsignedOffset(c: Int32, base: nat): nat
  {
    (ToUnsigned32(c) - base) % TWO_32
  }

  /** `x | 32U` for a 32-bit unsigned value: sets bit 5. */
  function SetBit5(x: nat): (r: nat)
    requires x < TWO_32
    ensures r < TWO_32
  {
    if (x / 32) % 2 == 1 then x else x + 32
  }

  /** z_isspace: the blank and the control characters \t \n \v \f \r. */
  function IsSpace(c: Int32): (b: bool)
    ensures b <==> c == ' ' as int || 9 <= c <= 13
  {
    c == ' ' as int || UnsignedOffset(c, '\t' as int) < 5
  }

  /** z_isdigit: '0' to '9'. */
  function IsDigit(c: Int32): (b: bool)
    ensures b <==> '0' as int <= c <= '9' as int
  {
    UnsignedOffset(c, '0' as int) < 10
  }

  /** z_isupper: 'A' to 'Z'. */
  function IsUpper(c: Int32): (b: bool)
    ensures b <==> 'A' as int <= c <= 'Z' as int
  {
    UnsignedOffset(c, 'A' as int) < 26
  }

  /** z_isalpha: folding to lower case by setting bit 5 maps exactly the two
      letter ranges onto 'a' to 'z'. */
  function IsAlpha(c: Int32): (b: bool)
    ensures b <==> 'A' as int <= c <= 'Z' as int || 'a' as int <= c <= 'z' as int
  {
    (SetBit5(ToUnsigned32(c)) - 'a' as int) % TWO_32 < 26
  }
}
