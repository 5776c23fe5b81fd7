/** The network byte order used on every socket of the server: the most
 *  significant byte comes first. */
module BigEndian {
  import opened Common

  /** The value of four bytes read most significant first. */
  function Decode32(b: seq<byte>): uint32
    requires |b| == 4
  {
    (b[0] as int) * 0x100_0000 + (b[1] as int) * 0x1_0000 + (b[2] as int) * 0x100 + b[3]
  }

  /** The value of two bytes read most significant first. */
  function Decode16(b: seq<byte>): uint16
    requires |b| == 2
  {
    (b[0] as int) * 0x100 + b[1]
  }

  /** The four bytes of `v`, most significant first: byte k is
   *  (v >> (24 - 8k)) & 0xFF. */
  function Encode32(v: uint32): (r: seq<byte>)
    ensures |r| == 4
  {
    [(v / 0x100_0000) % 0x100, (v / 0x1_0000) % 0x100, (v / 0x100) % 0x100, v % 0x100]
  }

  /** The two bytes of `v`, most significant first. */
  function Encode16(v: uint16): (r: seq<byte>)
    ensures |r| == 2
  {
    [(v / 0x100) % 0x100, v % 0x100]
  }

  /** Dividing by 2^16 or 2^24 is dividing by 2^8 two or three times. */
  lemma DivByBytes(x: nat)
    ensures x / 0x1_0000 == (x / 0x100) / 0x100
    ensures x / 0x100_0000 == ((x / 0x100) / 0x100) / 0x100
  {
    var q3, r3 := x / 0x100, x % 0x100;
    var q2, r2 := q3 / 0x100, q3 % 0x100;
    var q1, r1 := q2 / 0x100, q2 % 0x100;
    assert x == q2 * 0x1_0000 + (r2 * 0x100 + r3);
    assert x == q1 * 0x100_0000 + (r1 * 0x1_0000 + r2 * 0x100 + r3);
  }

  /** Decoding what was encoded gives the value back. */
  lemma Decode32Encode32(v: uint32)
    ensures Decode32(Encode32(v)) == v
  {
    var q3 := v / 0x100;
    var q2 := q3 / 0x100;
    var q1 := q2 / 0x100;
    DivByBytes(v);
    assert Encode32(v) == [q1 % 0x100, q2 % 0x100, q3 % 0x100, v % 0x100];
    assert q1 < 0x100;
    assert v == q3 * 0x100 + v % 0x100;
    assert q3 == q2 * 0x100 + q3 % 0x100;
    assert q2 == q1 * 0x100 + q2 % 0x100;
  }

  /** Encoding what was decoded gives the bytes back. */
  lemma Encode32Decode32(b: seq<byte>)
    requires |b| == 4
    ensures Encode32(Decode32(b)) == b
  {
    var v := Decode32(b);
    var b0, b1, b2, b3 := b[0] as int, b[1] as int, b[2] as int, b[3] as int;
    DivAdd(b0 * 0x1_0000 + b1 * 0x100 + b2, b3, 0x100);
    DivAdd(b0 * 0x100 + b1, b2 * 0x100 + b3, 0x1_0000);
    DivAdd(b0, b1 * 0x1_0000 + b2 * 0x100 + b3, 0x100_0000);
    DivAdd(b0 * 0x100 + b1, b2, 0x100);
    DivAdd(b0, b1, 0x100);
  }

  /** Quotient and remainder of q * k + r, for 0 <= r < k and k a
   *  power of 256 below 2^32. */
  lemma DivAdd(q: int, r: int, k: int)
    requires k == 0x100 || k == 0x1_0000 || k == 0x100_0000
    requires 0 <= r < k
    ensures (q * k + r) / k == q && (q * k + r) % k == r
  {
    if k == 0x100 {
      assert q * k + r == q * 0x100 + r;
    } else if k == 0x1_0000 {
      assert q * k + r == q * 0x1_0000 + r;
    } else {
      assert q * k + r == q * 0x100_0000 + r;
    }
  }

  lemma Decode16Encode16(v: uint16)
    ensures Decode16(Encode16(v)) == v
  {
  }

  lemma Encode16Decode16(b: seq<byte>)
    requires |b| == 2
    ensures Encode16(Decode16(b)) == b
  {
  }

  /** Encoding is injective: distinct values never share a byte pattern. */
  lemma Encode32Injective(v: uint32, w: uint32)
    requires Encode32(v) == Encode32(w)
    ensures v == w
  {
    Decode32Encode32(v);
    Decode32Encode32(w);
  }
}
