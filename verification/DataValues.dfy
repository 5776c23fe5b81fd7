/** The values a message schema receives from the socket, and the type
 *  codes by which a schema announces what it expects next. */
module DataValues {
  import opened Common

  /** Type codes answered by getTypeAt. */
  const CODE_UINT32: char := 'I'
  const CODE_UINT16: char := 'i'
  const CODE_FLOAT: char := 'f'
  const CODE_STRING: char := 's'
  /** "Nothing should be at this position". */
  const CODE_NONE: char := 0 as char

  /** The overloads of pushValue that a schema may override: uint32_t,
   *  float, std::string (the three the socket reaches) and a shared byte
   *  array with its size. */
  datatype Value =
    | UInt32(n: uint32)
    | Float32(f: Float)
    | Str(s: seq<byte>)
    | ByteArray(data: seq<byte>, size: uint32)

  /** The integer overloads of the base class that forward to the uint32_t
   *  overload after a C++ conversion, and the float overload itself. The
   *  double overload, which narrows to float first, is not modelled. */
  datatype Scalar =
    | U8(u8: byte)
    | I16(i16: int16)
    | U16(u16: uint16)
    | I32(i32: int32)
    | U32(u32: uint32)
    | F32(f32: Float)

  /** The value a base-class overload forwards: int16_t goes through
   *  uint16_t first, the other integers are converted to uint32_t
   *  directly, and a float is passed on as it is. */
  function Widen(x: Scalar): (r: Value)
    ensures r.UInt32? <==> !x.F32?
    ensures r.Float32? <==> x.F32?
  {
    match x
    case U8(b) => UInt32(b)
    case I16(v) => UInt32(v % TWO_16)
    case U16(v) => UInt32(v)
    case I32(v) => UInt32(Wrap32(v))
    case U32(v) => UInt32(v)
    case F32(f) => Float32(f)
  }

  /** A non-negative integer reaches the uint32_t overload unchanged. */
  lemma WidenNonNegative(x: Scalar)
    requires !x.F32?
    requires x.I16? ==> x.i16 >= 0
    requires x.I32? ==> x.i32 >= 0
    ensures Widen(x) == UInt32(match x
      case U8(b) => b
      case I16(v) => v
      case U16(v) => v
      case I32(v) => v
      case U32(v) => v
      case F32(_) => 0)
  {
  }

  /** A negative int16_t arrives as its 16-bit two's complement, not the
   *  32-bit one: -1 becomes 0xFFFF, whereas an int32_t -1 becomes
   *  0xFFFFFFFF. */
  lemma NegativeInt16WidensTo16Bits(v: int16)
    requires v < 0
    ensures Widen(I16(v)) == UInt32(v + TWO_16)
    ensures Widen(I32(v)) == UInt32(v + TWO_32)
  {
  }
}
