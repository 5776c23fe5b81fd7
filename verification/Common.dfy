/** Machine integer widths, optional values and the single-precision float
 *  representation shared by every module of the model. */
module Common {

  type byte = x: int | 0 <= x < 0x100
  type uint16 = x: int | 0 <= x < 0x1_0000
  type int16 = x: int | -0x8000 <= x < 0x8000
  type uint32 = x: int | 0 <= x < 0x1_0000_0000
  type int32 = x: int | -0x8000_0000 <= x < 0x8000_0000

  const TWO_16: int := 0x1_0000
  const TWO_32: int := 0x1_0000_0000

  /** The C++ conversion of any integer to `uint32_t`: reduction modulo 2^32. */
  function Wrap32(x: int): (r: uint32)
    ensures 0 <= x < TWO_32 ==> r == x
  {
    if 0 <= x < TWO_32 then x else x % TWO_32
  }

  /** The two's-complement reading of a `uint32_t` as an `int32_t`. */
  function ToInt32(x: uint32): (r: int32)
    ensures x < 0x8000_0000 ==> r == x
  {
    if x < 0x8000_0000 then x else x - TWO_32
  }

  /** An int32_t sent as a uint32_t and read back as an int32_t is itself. */
  lemma ToInt32Wrap32(x: int32)
    ensures ToInt32(Wrap32(x)) == x
  {
  }

  datatype Option<T> = None | Some(value: T)

  /** A single-precision IEEE-754 value, kept as its 32-bit pattern: the
   *  server only copies floats from the wire into memory, it never computes
   *  with them. */
  datatype Float = Float(bits: uint32)

  /** 0.0f */
  const FLOAT_ZERO: Float := Float(0)
  /** 1.0f */
  const FLOAT_ONE: Float := Float(0x3F80_0000)
}
