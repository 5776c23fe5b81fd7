/** The helpers that serialise numbers into an outgoing byte buffer, and
 *  the round trip with the receive-side buffer. */
module WriteData {
  import opened Common
  import opened BigEndian
  import opened BufferValue

  /** writeUint32: stores the four big-endian bytes of `value` at
   *  buf[at..at+4] and leaves every other byte alone. */
  method WriteUint32(buf: array<byte>, at: nat, value: uint32)
    requires at + 4 <= buf.Length
    modifies buf
    ensures buf[at..at + 4] == Encode32(value)
    ensures forall i :: 0 <= i < buf.Length && !(at <= i < at + 4) ==> buf[i] == old(buf[i])
  {
    buf[at] := (value / 0x100_0000) % 0x100;
    buf[at + 1] := (value / 0x1_0000) % 0x100;
    buf[at + 2] := (value / 0x100) % 0x100;
    buf[at + 3] := value % 0x100;
  }

  /** writeUint16: stores the two big-endian bytes of `value` at
   *  buf[at..at+2] and leaves every other byte alone. */
  method WriteUint16(buf: array<byte>, at: nat, value: uint16)
    requires at + 2 <= buf.Length
    modifies buf
    ensures buf[at..at + 2] == Encode16(value)
    ensures forall i :: 0 <= i < buf.Length && !(at <= i < at + 2) ==> buf[i] == old(buf[i])
  {
    buf[at] := (value / 0x100) % 0x100;
    buf[at + 1] := value % 0x100;
  }

  /** writeFloat: the bit pattern of the float, written as a uint32. */
  method WriteFloat(buf: array<byte>, at: nat, value: Float)
    requires at + 4 <= buf.Length
    modifies buf
    ensures buf[at..at + 4] == Encode32(value.bits)
    ensures forall i :: 0 <= i < buf.Length && !(at <= i < at + 4) ==> buf[i] == old(buf[i])
  {
    WriteUint32(buf, at, value.bits);
  }

  /** Bytes written by writeUint32, pushed one by one into a fresh uint32
   *  receive buffer, fill it and decode to the value written. */
  method Uint32RoundTrip(value: uint32) returns (full: bool, r: uint32)
    ensures full && r == value
  {
    var wire := new byte[4];
    WriteUint32(wire, 0, value);
    var b := new BufferValue(UINT32_SIZE);
    for i := 0 to 4
      invariant b.buffer == wire[..i] && b.maxSize == UINT32_SIZE
      modifies b
    {
      b.PushValue(wire[i]);
      assert wire[..i + 1] == wire[..i] + [wire[i]];
    }
    assert b.buffer[..4] == wire[..4] == Encode32(value);
    full := b.IsFull();
    r := b.GetUint32();
    Encode32Injective(r, value);
  }

  /** The same round trip for writeUint16 and a uint16 receive buffer. */
  method Uint16RoundTrip(value: uint16) returns (full: bool, r: uint16)
    ensures full && r == value
  {
    var wire := new byte[2];
    WriteUint16(wire, 0, value);
    var b := new BufferValue(UINT16_SIZE);
    for i := 0 to 2
      invariant b.buffer == wire[..i] && b.maxSize == UINT16_SIZE
      modifies b
    {
      b.PushValue(wire[i]);
      assert wire[..i + 1] == wire[..i] + [wire[i]];
    }
    assert b.buffer[..2] == wire[..2] == Encode16(value);
    full := b.IsFull();
    r := b.GetUint16();
    Decode16Encode16(value);
    Decode16Encode16(r);
  }

  /** The same round trip for writeFloat and a float receive buffer: the
   *  bit pattern arrives unchanged. */
  method FloatRoundTrip(value: Float) returns (full: bool, r: Float)
    ensures full && r == value
  {
    var wire := new byte[4];
    WriteFloat(wire, 0, value);
    var b := new BufferValue(FLOAT_SIZE);
    for i := 0 to 4
      invariant b.buffer == wire[..i] && b.maxSize == FLOAT_SIZE
      modifies b
    {
      b.PushValue(wire[i]);
      assert wire[..i + 1] == wire[..i] + [wire[i]];
    }
    assert b.buffer[..4] == wire[..4] == Encode32(value.bits);
    full := b.IsFull();
    r := b.GetFloat();
    Encode32Injective(r.bits, value.bits);
  }
}
