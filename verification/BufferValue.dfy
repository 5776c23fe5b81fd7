/** The accumulation buffer in which the client socket collects the bytes
 *  of one value before decoding it (one per value type: uint32, uint16,
 *  float and string). */
module BufferValue {
  import opened Common
  import opened BigEndian

  /** sizeof(uint32_t), sizeof(uint16_t) and sizeof(float): the default
   *  capacity of a buffer of that type. */
  const UINT32_SIZE: int32 := 4
  const UINT16_SIZE: int32 := 2
  const FLOAT_SIZE: int32 := 4

  /** Whether a buffer of capacity `maxSize` holding `len` bytes is full:
   *  the capacity is compared after its conversion to `uint32_t`. */
  predicate Full(maxSize: int32, len: nat)
  {
    Wrap32(maxSize) == len
  }

  /** A non-negative capacity is reached exactly when the buffer holds that
   *  many bytes; a negative one only after more than 2^31 bytes, which no
   *  message of the protocol sends. */
  lemma FullMeaning(maxSize: int32, len: nat)
    requires len < 0x8000_0000
    ensures Full(maxSize, len) <==> (maxSize >= 0 && len == maxSize)
  {
  }

  class BufferValue {
    /** The number of bytes that make the value; -1 while unknown. */
    var maxSize: int32
    /** The bytes received so far. */
    var buffer: seq<byte>

    constructor (sizeT: int32)
      ensures maxSize == sizeT && buffer == []
    {
      maxSize := sizeT;
      buffer := [];
    }

    method Clear()
      modifies this
      ensures buffer == [] && maxSize == old(maxSize)
    {
      buffer := [];
    }

    method PushValue(b: byte)
      modifies this
      ensures buffer == old(buffer) + [b] && maxSize == old(maxSize)
    {
      buffer := buffer + [b];
    }

    method SetMaxSize(size: int32)
      modifies this
      ensures maxSize == size && buffer == old(buffer)
    {
      maxSize := size;
    }

    predicate IsFull()
      reads this
    {
      Full(maxSize, |buffer|)
    }

    /** getValue of a uint32_t buffer: the number whose big-endian encoding
     *  is the first four bytes received. */
    function GetUint32(): (r: uint32)
      reads this
      requires |buffer| >= 4
      ensures Encode32(r) == buffer[..4]
    {
      Encode32Decode32(buffer[..4]);
      Decode32(buffer[..4])
    }

    /** getValue of a uint16_t buffer: the number whose big-endian encoding
     *  is the first two bytes received. */
    function GetUint16(): (r: uint16)
      reads this
      requires |buffer| >= 2
      ensures Encode16(r) == buffer[..2]
    {
      Encode16Decode16(buffer[..2]);
      Decode16(buffer[..2])
    }

    /** getValue of a float buffer: the four bytes, read big-endian, are the
     *  bit pattern of the float. */
    function GetFloat(): (r: Float)
      reads this
      requires |buffer| >= 4
      ensures Encode32(r.bits) == buffer[..4]
    {
      Float(GetUint32())
    }

    /** getValue of a string buffer: every byte received, in order; the
     *  empty buffer gives the empty string. */
    function GetString(): (r: seq<byte>)
      reads this
      ensures r == buffer
    {
      if |buffer| != 0 then buffer else []
    }
  }
}
