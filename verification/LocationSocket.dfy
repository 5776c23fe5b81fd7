/** LocationClientSocket: the connection that streams a tablet's pose. Each
 *  call reads up to seven big-endian floats (position x, y, z, then the
 *  rotation quaternion x, y, z, w) into the message being built and queues
 *  that message. */
module LocationSocket {
  import opened Common
  import opened BigEndian
  import opened BufferValue
  import opened FrameParser
  import opened ClientSocket

  /** LocationMessage. */
  datatype LocationMessage = LocationMessage(
    posX: Float, posY: Float, posZ: Float,
    rotX: Float, rotY: Float, rotZ: Float, rotW: Float)
  {
    /** The field filled in position i of the frame. */
    function Get(i: nat): Float
      requires i < FIELD_COUNT
    {
      match i
      case 0 => posX
      case 1 => posY
      case 2 => posZ
      case 3 => rotX
      case 4 => rotY
      case 5 => rotZ
      case _ => rotW
    }

    function With(i: nat, v: Float): (r: LocationMessage)
      requires i < FIELD_COUNT
      ensures r.Get(i) == v
      ensures forall j :: 0 <= j < FIELD_COUNT && j != i ==> r.Get(j) == Get(j)
    {
      match i
      case 0 => this.(posX := v)
      case 1 => this.(posY := v)
      case 2 => this.(posZ := v)
      case 3 => this.(rotX := v)
      case 4 => this.(rotY := v)
      case 5 => this.(rotZ := v)
      case _ => this.(rotW := v)
    }
  }

  const FIELD_COUNT: nat := 7

  /** The float buffer between two calls: capacity 4, fewer than 4 bytes. */
  predicate Pending(b: Buf)
  {
    b.maxSize == FLOAT_SIZE && |b.data| < 4
  }

  /** The PUSH_FLOAT blocks from field i on: fill the float buffer; if it is
   *  full, its value goes to field i and it is cleared. Returns the message,
   *  the buffer and the unread input. */
  function Fields(i: nat, m: LocationMessage, b: Buf, input: seq<byte>): (r: (LocationMessage, Buf, seq<byte>))
    requires i <= FIELD_COUNT && Pending(b)
    ensures Pending(r.1)
    ensures |r.2| <= |input|
    ensures forall j :: 0 <= j < i ==> r.0.Get(j) == m.Get(j)
    decreases FIELD_COUNT - i
  {
    if i == FIELD_COUNT then (m, b, input)
    else
      var f := Fill(b, input);
      if f.0.IsFull() then Fields(i + 1, m.With(i, Float(Decode32(f.0.data))), Buf(FLOAT_SIZE, []), f.1)
      else Fields(i + 1, m, f.0, f.1)
  }

  /** What a call leaves: false on empty input; otherwise the message the
   *  seven blocks built, and that message queued. */
  function Feed(m: LocationMessage, b: Buf, input: seq<byte>): (r: (bool, LocationMessage, Buf))
    requires Pending(b)
    ensures Pending(r.2)
    ensures r.0 <==> input != []
    ensures !r.0 ==> r.1 == m && r.2 == b
  {
    if input == [] then (false, m, b)
    else var f := Fields(0, m, b, input); (true, f.0, f.1)
  }

  /** Once the input is used up, the remaining blocks change nothing. */
  lemma {:induction false} FieldsExhausted(i: nat, m: LocationMessage, b: Buf)
    requires i <= FIELD_COUNT && Pending(b)
    ensures Fields(i, m, b, []) == (m, b, [])
    decreases FIELD_COUNT - i
  {
    if i < FIELD_COUNT {
      FieldsExhausted(i + 1, m, b);
    }
  }

  /** The bytes of fields i.. of a message, big-endian. */
  function FrameFrom(i: nat, m: LocationMessage): (r: seq<byte>)
    requires i <= FIELD_COUNT
    ensures |r| == 4 * (FIELD_COUNT - i)
    decreases FIELD_COUNT - i
  {
    if i == FIELD_COUNT then [] else Encode32(m.Get(i).bits) + FrameFrom(i + 1, m)
  }

  /** One whole field read from an empty buffer: field i takes the float
   *  sent, the buffer is empty again, the rest is left for field i + 1. */
  lemma FieldStep(i: nat, m: LocationMessage, sent: LocationMessage, rest: seq<byte>)
    requires i < FIELD_COUNT
    ensures Fields(i, m, Buf(FLOAT_SIZE, []), Encode32(sent.Get(i).bits) + rest)
         == Fields(i + 1, m.With(i, sent.Get(i)), Buf(FLOAT_SIZE, []), rest)
  {
    var x := Encode32(sent.Get(i).bits);
    FillExact(FLOAT_SIZE, [], x, rest);
    assert [] + x == x;
    Decode32Encode32(sent.Get(i).bits);
  }

  /** Two messages that agree on every field are the same message. */
  lemma SameFields(m: LocationMessage, sent: LocationMessage)
    requires forall j :: 0 <= j < FIELD_COUNT ==> m.Get(j) == sent.Get(j)
    ensures m == sent
  {
    assert m.Get(0) == sent.Get(0) && m.Get(1) == sent.Get(1) && m.Get(2) == sent.Get(2);
    assert m.Get(3) == sent.Get(3) && m.Get(4) == sent.Get(4);
    assert m.Get(5) == sent.Get(5) && m.Get(6) == sent.Get(6);
  }

  /** A complete frame read from an empty buffer sets every field to the
   *  float sent for it, leaves the buffer empty, and leaves whatever follows
   *  the frame unread. */
  lemma {:induction false} FieldsRoundTrip(i: nat, m: LocationMessage, sent: LocationMessage, more: seq<byte>)
    requires i <= FIELD_COUNT
    requires forall j :: 0 <= j < i ==> m.Get(j) == sent.Get(j)
    ensures Fields(i, m, Buf(FLOAT_SIZE, []), FrameFrom(i, sent) + more) == (sent, Buf(FLOAT_SIZE, []), more)
    decreases FIELD_COUNT - i
  {
    if i == FIELD_COUNT {
      assert FrameFrom(i, sent) + more == more;
      SameFields(m, sent);
    } else {
      var rest := FrameFrom(i + 1, sent) + more;
      assert FrameFrom(i, sent) + more == Encode32(sent.Get(i).bits) + rest;
      FieldStep(i, m, sent, rest);
      FieldsRoundTrip(i + 1, m.With(i, sent.Get(i)), sent, more);
    }
  }

  /** A call given a whole frame queues exactly the pose that was sent,
   *  whatever the previous message held. */
  lemma FrameRoundTrip(m: LocationMessage, sent: LocationMessage, more: seq<byte>)
    ensures Feed(m, Buf(FLOAT_SIZE, []), FrameFrom(0, sent) + more) == (true, sent, Buf(FLOAT_SIZE, []))
  {
    FieldsRoundTrip(0, m, sent, more);
  }

  /** The first k - i fields of the frame from field i on: field i, then
   *  those after it. */
  lemma FramePrefix(i: nat, k: nat, sent: LocationMessage, tail: seq<byte>)
    requires i < k <= FIELD_COUNT
    ensures FrameFrom(i, sent)[..4 * (k - i)] + tail
         == Encode32(sent.Get(i).bits) + (FrameFrom(i + 1, sent)[..4 * (k - (i + 1))] + tail)
  {
    var v := Encode32(sent.Get(i).bits);
    assert FrameFrom(i, sent)[..4 * (k - i)] == v + FrameFrom(i + 1, sent)[..4 * (k - (i + 1))];
  }

  /** Fewer than 4 bytes fill the empty buffer only partly, and the
   *  remaining blocks change nothing. */
  lemma ShortTail(k: nat, m: LocationMessage, tail: seq<byte>)
    requires k < FIELD_COUNT && |tail| < 4
    ensures Fields(k, m, Buf(FLOAT_SIZE, []), tail) == (m, Buf(FLOAT_SIZE, tail), [])
  {
    var f := Fill(Buf(FLOAT_SIZE, []), tail);
    assert [] + tail == tail;
    assert |f.0.data| == |tail| by {
      assert Buf(FLOAT_SIZE, []).Capacity() == FLOAT_SIZE;
      assert Min(FLOAT_SIZE, |tail|) == |tail|;
    }
    assert f.0.data + f.1 == tail;
    assert f.1 == [] && f.0.data == tail;
    assert f == (Buf(FLOAT_SIZE, tail), []);
    FieldsExhausted(k + 1, m, Buf(FLOAT_SIZE, tail));
  }

  /** The first of the k - i whole fields is read, then the rest. */
  lemma PartialStep(i: nat, k: nat, m: LocationMessage, sent: LocationMessage, tail: seq<byte>)
    requires i < k < FIELD_COUNT
    ensures Fields(i, m, Buf(FLOAT_SIZE, []), PartialFrame(i, k, sent, tail))
         == Fields(i + 1, m.With(i, sent.Get(i)), Buf(FLOAT_SIZE, []), PartialFrame(i + 1, k, sent, tail))
  {
    FramePrefix(i, k, sent, tail);
    FieldStep(i, m, sent, FrameFrom(i + 1, sent)[..4 * (k - (i + 1))] + tail);
  }

  /** The input of a call that ends inside field k: the k - i whole fields
   *  from field i on, then fewer than 4 bytes. */
  function PartialFrame(i: nat, k: nat, sent: LocationMessage, tail: seq<byte>): seq<byte>
    requires i <= k < FIELD_COUNT
  {
    FrameFrom(i, sent)[..4 * (k - i)] + tail
  }

  /** Such a call leaves the partial bytes in the buffer. */
  lemma {:induction false} PartialBuffer(i: nat, k: nat, m: LocationMessage, sent: LocationMessage, tail: seq<byte>)
    requires i <= k < FIELD_COUNT && |tail| < 4
    ensures Fields(i, m, Buf(FLOAT_SIZE, []), PartialFrame(i, k, sent, tail)).1 == Buf(FLOAT_SIZE, tail)
    decreases k - i
  {
    if i == k {
      assert PartialFrame(i, k, sent, tail) == tail;
      ShortTail(k, m, tail);
    } else {
      PartialStep(i, k, m, sent, tail);
      PartialBuffer(i + 1, k, m.With(i, sent.Get(i)), sent, tail);
    }
  }

  /** Such a call sets field j, before k, to the float sent for it. */
  lemma {:induction false} PartialSent(i: nat, k: nat, m: LocationMessage, sent: LocationMessage, tail: seq<byte>, j: nat)
    requires i <= j < k < FIELD_COUNT && |tail| < 4
    ensures Fields(i, m, Buf(FLOAT_SIZE, []), PartialFrame(i, k, sent, tail)).0.Get(j) == sent.Get(j)
    decreases k - i
  {
    var m' := m.With(i, sent.Get(i));
    PartialStep(i, k, m, sent, tail);
    if j == i {
      assert Fields(i + 1, m', Buf(FLOAT_SIZE, []), PartialFrame(i + 1, k, sent, tail)).0.Get(i) == m'.Get(i);
    } else {
      PartialSent(i + 1, k, m', sent, tail, j);
    }
  }

  /** Such a call keeps field j, from k on, as the previous message had it. */
  lemma {:induction false} PartialKept(i: nat, k: nat, m: LocationMessage, sent: LocationMessage, tail: seq<byte>, j: nat)
    requires i <= k <= j < FIELD_COUNT && |tail| < 4
    ensures Fields(i, m, Buf(FLOAT_SIZE, []), PartialFrame(i, k, sent, tail)).0.Get(j) == m.Get(j)
    decreases k - i
  {
    if i == k {
      assert PartialFrame(i, k, sent, tail) == tail;
      ShortTail(k, m, tail);
    } else {
      var m' := m.With(i, sent.Get(i));
      PartialStep(i, k, m, sent, tail);
      PartialKept(i + 1, k, m', sent, tail, j);
      assert j != i;
    }
  }

  /** A call that ends inside field k (the input holds the k fields before
   *  it and fewer than 4 more bytes) sets each field before k to the float
   *  sent for it, keeps each later field as the previous message had it,
   *  and keeps the partial bytes in the buffer, where they start field 0 of
   *  the next call. */
  lemma FieldsPartial(k: nat, m: LocationMessage, sent: LocationMessage, tail: seq<byte>)
    requires k < FIELD_COUNT && |tail| < 4
    ensures var r := Feed(m, Buf(FLOAT_SIZE, []), PartialFrame(0, k, sent, tail));
            && (forall j :: 0 <= j < k ==> r.1.Get(j) == sent.Get(j))
            && (forall j :: k <= j < FIELD_COUNT ==> r.1.Get(j) == m.Get(j))
            && r.2 == Buf(FLOAT_SIZE, tail)
  {
    PartialBuffer(0, k, m, sent, tail);
    forall j | 0 <= j < k
      ensures Fields(0, m, Buf(FLOAT_SIZE, []), PartialFrame(0, k, sent, tail)).0.Get(j) == sent.Get(j)
    {
      PartialSent(0, k, m, sent, tail, j);
    }
    forall j | k <= j < FIELD_COUNT
      ensures Fields(0, m, Buf(FLOAT_SIZE, []), PartialFrame(0, k, sent, tail)).0.Get(j) == m.Get(j)
    {
      PartialKept(0, k, m, sent, tail, j);
    }
  }

  class LocationClientSocket {
    /** m_messages, front first. */
    var messages: seq<LocationMessage>
    /** m_curMsg: never reset, so fields a call does not reach keep their
     *  previous values. */
    var curMsg: LocationMessage
    const floatBuffer: BufferValue

    ghost predicate Valid()
      reads this, floatBuffer
    {
      Pending(View(floatBuffer))
    }

    /** The message is uninitialised in C++; `first` stands for it. */
    constructor (first: LocationMessage)
      ensures Valid() && messages == [] && curMsg == first
      ensures View(floatBuffer) == Buf(FLOAT_SIZE, []) && fresh(floatBuffer)
    {
      messages := [];
      curMsg := first;
      floatBuffer := new BufferValue(FLOAT_SIZE);
    }

    /** feedMessage: with some input, run the seven PUSH_FLOAT blocks and
     *  queue the message; with none, return false. Bytes after the seventh
     *  field are not read. */
    method FeedMessage(message: seq<byte>) returns (ok: bool)
      requires Valid()
      modifies this, floatBuffer
      ensures Valid()
      ensures (ok, curMsg, View(floatBuffer)) == Feed(old(curMsg), old(View(floatBuffer)), message)
      ensures messages == if ok then old(messages) + [curMsg] else old(messages)
    {
      if |message| == 0 {
        return false;
      }
      var pos: nat := 0;
      for i := 0 to FIELD_COUNT
        invariant Valid() && pos <= |message|
        invariant Fields(i, curMsg, View(floatBuffer), message[pos..]) == Fields(0, old(curMsg), old(View(floatBuffer)), message)
        invariant messages == old(messages)
      {
        pos := PushFloat(i, message, pos);
      }
      messages := messages + [curMsg];
      return true;
    }

    /** One PUSH_FLOAT block: fill the float buffer from message[pos..]
     *  and, once it is full, store its float as field i. */
    method PushFloat(i: nat, message: seq<byte>, pos: nat) returns (next: nat)
      requires Valid() && i < FIELD_COUNT && pos <= |message|
      modifies this, floatBuffer
      ensures Valid() && next <= |message|
      ensures Fields(i + 1, curMsg, View(floatBuffer), message[next..])
           == Fields(i, old(curMsg), old(View(floatBuffer)), message[pos..])
      ensures messages == old(messages)
    {
      next := FillBuffer(floatBuffer, message, pos);
      if floatBuffer.IsFull() {
        assert Decode32(floatBuffer.buffer) == floatBuffer.GetFloat().bits by {
          assert floatBuffer.buffer[..4] == floatBuffer.buffer;
          Decode32Encode32(floatBuffer.GetFloat().bits);
        }
        curMsg := curMsg.With(i, floatBuffer.GetFloat());
        floatBuffer.Clear();
      }
    }

    /** pullMessage: the oldest queued message, removed from the queue;
     *  false, and `msg` untouched, when none is queued. */
    method PullMessage(msg: LocationMessage) returns (ok: bool, out: LocationMessage)
      modifies this
      ensures ok == (old(messages) != [])
      ensures ok ==> out == old(messages)[0] && messages == old(messages)[1..]
      ensures !ok ==> out == msg && messages == old(messages)
      ensures curMsg == old(curMsg)
    {
      if messages == [] {
        return false, msg;
      }
      out := messages[0];
      messages := messages[1..];
      ok := true;
    }
  }
}
