/** The byte-level protocol of a VFV client, as a function of the parser's
 *  state and the bytes received: feedMessage cut into its loop iterations.
 *  A message is a big-endian uint16 type followed by the fields its payload
 *  announces, each a big-endian uint32, uint16 or float, or a string sent
 *  as a big-endian uint32 length and that many bytes. */
module FrameParser {
  import opened Common
  import opened BigEndian
  import opened BufferValue
  import opened DataValues
  import opened DataInformation
  import opened ClientMessage
  import opened SimpleInfo

  /** A value buffer seen as a value: its capacity and the bytes received. */
  datatype Buf = Buf(maxSize: int32, data: seq<byte>)
  {
    predicate IsFull()
    {
      Full(maxSize, |data|)
    }

    /** The capacity as the buffer compares it. */
    function Capacity(): uint32
    {
      Wrap32(maxSize)
    }
  }

  function Min(x: int, y: int): int
  {
    if x <= y then x else y
  }

  /** The copy loops (PUSH_UINT16, PUSH_UINT32, PUSH_FLOAT and the body of
   *  PUSH_STRING): move bytes from the input into the buffer while it is not
   *  full and input remains. Returns the buffer and the unread input. */
  function Fill(b: Buf, input: seq<byte>): (r: (Buf, seq<byte>))
    ensures r.0.maxSize == b.maxSize && |b.data| <= |r.0.data|
    ensures b.data + input == r.0.data + r.1
    ensures r.0.IsFull() || r.1 == []
    ensures b.IsFull() ==> r == (b, input)
    ensures |b.data| <= b.Capacity() ==> |r.0.data| == Min(b.Capacity(), |b.data| + |input|)
    decreases input
  {
    if b.IsFull() || input == [] then (b, input)
    else
      var r := Fill(Buf(b.maxSize, b.data + [input[0]]), input[1..]);
      assert b.data + input == (b.data + [input[0]]) + input[1..];
      r
  }

  /** The unread input is what follows the bytes the buffer took. */
  lemma FillSplit(b: Buf, input: seq<byte>)
    ensures var r := Fill(b, input);
            |r.1| <= |input| && r.1 == input[|input| - |r.1|..]
            && r.0.data == b.data + input[..|input| - |r.1|]
  {
    var r := Fill(b, input);
    var k := |input| - |r.1|;
    assert |r.0.data| == |b.data| + k by {
      assert |b.data + input| == |r.0.data + r.1|;
    }
    assert forall i | 0 <= i < |r.1| :: r.1[i] == (b.data + input)[|b.data| + k + i];
    assert forall i | 0 <= i < |r.0.data| :: r.0.data[i] == (b.data + input)[i];
  }

  /** An empty buffer of capacity n, given n bytes and more, takes exactly
   *  the n bytes. */
  lemma {:induction false} FillExact(m: int32, taken: seq<byte>, x: seq<byte>, more: seq<byte>)
    requires 0 <= m && |x| <= m && |taken| + |x| == m
    ensures Fill(Buf(m, taken), x + more) == (Buf(m, taken + x), more)
    decreases |x|
  {
    if x == [] {
      assert x + more == more && taken + x == taken;
    } else {
      assert (x + more)[0] == x[0] && (x + more)[1..] == x[1..] + more;
      FillExact(m, taken + [x[0]], x[1..], more);
      assert taken + [x[0]] + x[1..] == taken + x;
    }
  }

  /** Filling from two pieces in turn is filling from both together: the
   *  second piece is only reached once the first is used up. */
  lemma {:induction false} FillAppend(b: Buf, x: seq<byte>, y: seq<byte>)
    ensures var r := Fill(b, x);
            Fill(b, x + y) == if r.1 == [] then Fill(r.0, y) else (r.0, r.1 + y)
    decreases x
  {
    if b.IsFull() || x == [] {
      assert x == [] ==> x + y == y;
    } else {
      assert (x + y)[0] == x[0] && (x + y)[1..] == x[1..] + y;
      FillAppend(Buf(b.maxSize, b.data + [x[0]]), x[1..], y);
    }
  }

  /** FillAppend by outcome: a buffer that filled up within the first piece
   *  leaves the second unread; one that did not resumes on the second. */
  lemma FillResume(b: Buf, x: seq<byte>, y: seq<byte>)
    ensures var r := Fill(b, x);
            if r.0.IsFull() then Fill(b, x + y) == (r.0, r.1 + y)
            else r.1 == [] && Fill(b, x + y) == Fill(r.0, y)
  {
    FillAppend(b, x, y);
    var r := Fill(b, x);
    if r.0.IsFull() && r.1 == [] {
      assert Fill(r.0, y) == (r.0, y) && r.1 + y == y;
    }
  }

  /** The socket's view of the protocol: the schemas of the payloads, and
   *  the payload setType constructs for each message type. */
  datatype Protocol<!S> = Protocol(sc: Schema<S>, blank: int -> Option<S>)
  {
    ghost predicate Valid()
    {
      BlankDefined(blank)
    }
  }

  /** The socket's parsing state: the cursor (-1 while the type is being
   *  read), the message being read, the four value buffers and the queue
   *  of complete messages. */
  datatype Parser<S> = Parser(
    cursor: int, msg: Message<S>,
    u32: Buf, u16: Buf, f32: Buf, str: Buf,
    queue: seq<Message<S>>)

  /** The state between two loop iterations of a successful feed. */
  predicate Valid<S>(p: Parser<S>)
  {
    && p.u32.maxSize == UINT32_SIZE && |p.u32.data| < 4
    && p.u16.maxSize == UINT16_SIZE && |p.u16.data| < 2
    && p.f32.maxSize == FLOAT_SIZE && |p.f32.data| < 4
    && (p.str.maxSize < 0 ==> p.str.data == [])
    && (p.str.maxSize >= 0 ==> |p.str.data| < p.str.maxSize)
    && p.cursor >= -1
    && (p.cursor != -1 ==> Handled(p.msg.msgType))
    && (forall i :: 0 <= i < |p.queue| ==> Handled(p.queue[i].msgType))
  }

  /** The state of a fresh socket: no type read, empty buffers, string
   *  length unknown. */
  function Initial<S>(none: S): (p: Parser<S>)
    ensures Valid(p) && p.queue == []
  {
    Parser(-1, NewMessage(none), Buf(UINT32_SIZE, []), Buf(UINT16_SIZE, []), Buf(FLOAT_SIZE, []), Buf(-1, []), [])
  }

  /** What one step of the parser did: whether it may go on, the new state
   *  and the unread input. */
  datatype Outcome<S> = Outcome(ok: bool, p: Parser<S>, rest: seq<byte>)

  /** The type stage: fill the uint16 buffer; once full, set the message's
   *  type from it and clear it. A refused type stops the feed. */
  function ReadType<S>(pr: Protocol<S>, p: Parser<S>, input: seq<byte>): (o: Outcome<S>)
    requires pr.Valid() && Valid(p) && p.cursor == -1
    ensures |o.rest| <= |input| && (input != [] ==> |o.rest| < |input|)
    ensures o.ok ==> Valid(o.p)
    ensures o.p.queue == p.queue
  {
    var r := Fill(p.u16, input);
    if !r.0.IsFull() then Outcome(true, p.(u16 := r.0), r.1)
    else
      var t := SetType(p.msg, Decode16(r.0.data), pr.blank);
      var q := p.(u16 := Buf(r.0.maxSize, []), msg := t.1);
      if t.0 then Outcome(true, q.(cursor := 0), r.1) else Outcome(false, q, r.1)
  }

  /** The three fixed-size value buffers. */
  datatype Slot = U32Slot | U16Slot | F32Slot

  function SlotBuf<S>(p: Parser<S>, s: Slot): Buf
  {
    match s
    case U32Slot => p.u32
    case U16Slot => p.u16
    case F32Slot => p.f32
  }

  function WithSlot<S>(p: Parser<S>, s: Slot, b: Buf): Parser<S>
  {
    match s
    case U32Slot => p.(u32 := b)
    case U16Slot => p.(u16 := b)
    case F32Slot => p.(f32 := b)
  }

  /** The value a full buffer holds, passed to the overload of its type;
   *  a uint16 reaches the schema through the base class's uint16_t
   *  overload. */
  function Decoded(s: Slot, data: seq<byte>): Value
    requires |data| == (if s.U16Slot? then 2 else 4)
  {
    match s
    case U32Slot => UInt32(Decode32(data))
    case U16Slot => Widen(U16(Decode16(data)))
    case F32Slot => Float32(Float(Decode32(data)))
  }

  /** Hands a value to the payload at the cursor. The payload keeps what
   *  pushValue made of it; an accepted value moves the cursor on. */
  function Accept<S>(pr: Protocol<S>, p: Parser<S>, v: Value): (r: (bool, Parser<S>))
    ensures r.0 == pr.sc.push(p.msg.payload, Wrap32(p.cursor), v).0
    ensures r.1 == p.(msg := p.msg.(payload := Pushed(pr.sc, p.msg.payload, Wrap32(p.cursor), v)),
                      cursor := if r.0 then p.cursor + 1 else p.cursor)
  {
    var r := pr.sc.push(p.msg.payload, Wrap32(p.cursor), v);
    var q := p.(msg := p.msg.(payload := r.1));
    if r.0 then (true, q.(cursor := p.cursor + 1)) else (false, q)
  }

  /** The 'I', 'i' and 'f' cases: fill the buffer; once full, push its
   *  value and clear it. A refused value stops the feed. */
  function ReadScalar<S>(pr: Protocol<S>, p: Parser<S>, s: Slot, input: seq<byte>): (o: Outcome<S>)
    requires Valid(p) && p.cursor >= 0
    ensures |o.rest| <= |input| && (input != [] ==> |o.rest| < |input|)
    ensures o.ok ==> Valid(o.p) && o.p.cursor >= p.cursor
    ensures o.p.queue == p.queue && o.p.msg.msgType == p.msg.msgType
  {
    var r := Fill(SlotBuf(p, s), input);
    if !r.0.IsFull() then Outcome(true, WithSlot(p, s, r.0), r.1)
    else
      var a := Accept(pr, WithSlot(p, s, r.0), Decoded(s, r.0.data));
      if a.0 then Outcome(true, WithSlot(a.1, s, Buf(r.0.maxSize, [])), r.1)
      else Outcome(false, a.1, r.1)
  }

  /** The first half of PUSH_STRING, while the length is unknown: fill the
   *  uint32 buffer; once full, its value, read as an int32_t, becomes the
   *  string buffer's capacity, and it is cleared. */
  function ReadLength<S>(p: Parser<S>, input: seq<byte>): (o: (Parser<S>, seq<byte>))
    requires Valid(p) && p.str.maxSize < 0
    ensures |o.1| <= |input| && (input != [] ==> |o.1| < |input|)
    ensures Valid(o.0.(str := p.str)) && o.0.str.data == []
    ensures o.0 == p.(u32 := o.0.u32, str := o.0.str)
  {
    var r := Fill(p.u32, input);
    if !r.0.IsFull() then (p.(u32 := r.0), r.1)
    else (p.(u32 := Buf(r.0.maxSize, []), str := p.str.(maxSize := ToInt32(Decode32(r.0.data)))), r.1)
  }

  /** The 's' case: PUSH_STRING, then, once the string buffer is full and
   *  its capacity known, push the string and reset the buffer to an
   *  unknown length. */
  function ReadString<S>(pr: Protocol<S>, p: Parser<S>, input: seq<byte>): (o: Outcome<S>)
    requires Valid(p) && p.cursor >= 0
    ensures |o.rest| <= |input| && (input != [] ==> |o.rest| < |input|)
    ensures o.ok ==> Valid(o.p) && o.p.cursor >= p.cursor
    ensures o.p.queue == p.queue && o.p.msg.msgType == p.msg.msgType
  {
    var l := if p.str.maxSize < 0 then ReadLength(p, input) else (p, input);
    var r := if l.0.str.maxSize >= 0 then Fill(l.0.str, l.1) else (l.0.str, l.1);
    var q := l.0.(str := r.0);
    if r.0.IsFull() && r.0.maxSize >= 0 then
      var a := Accept(pr, q, Str(r.0.data));
      if a.0 then Outcome(true, a.1.(str := Buf(-1, [])), r.1) else Outcome(false, a.1, r.1)
    else Outcome(true, q, r.1)
  }

  /** The switch on the type code the payload announces at the cursor; any
   *  code other than 's', 'I', 'i' and 'f' stops the feed, even with no
   *  input left. */
  function ReadValue<S>(pr: Protocol<S>, p: Parser<S>, input: seq<byte>): (o: Outcome<S>)
    requires Valid(p) && p.cursor >= 0
    ensures |o.rest| <= |input| && (input != [] && o.ok ==> |o.rest| < |input|)
    ensures o.ok ==> Valid(o.p) && o.p.cursor >= 0
    ensures o.p.queue == p.queue && o.p.msg.msgType == p.msg.msgType
  {
    var code := pr.sc.typeAt(p.msg.payload, Wrap32(p.cursor));
    if code == CODE_STRING then ReadString(pr, p, input)
    else if code == CODE_UINT32 then ReadScalar(pr, p, U32Slot, input)
    else if code == CODE_UINT16 then ReadScalar(pr, p, U16Slot, input)
    else if code == CODE_FLOAT then ReadScalar(pr, p, F32Slot, input)
    else Outcome(false, p, input)
  }

  /** The payload's part of an iteration: read a value, then, if the
   *  cursor has reached getMaxCursor()+1, queue the message and wait for a
   *  new type. */
  function ReadField<S>(pr: Protocol<S>, p: Parser<S>, input: seq<byte>): (o: Outcome<S>)
    requires Valid(p) && p.cursor >= 0
    ensures |o.rest| <= |input| && (input != [] && o.ok ==> |o.rest| < |input|)
    ensures o.ok ==> Valid(o.p)
    ensures |o.p.queue| >= |p.queue| && o.p.queue[..|p.queue|] == p.queue
  {
    var o := ReadValue(pr, p, input);
    if o.ok && CompleteWith(pr.sc, o.p.msg.payload, o.p.cursor) then
      Outcome(true, o.p.(queue := o.p.queue + [o.p.msg], cursor := -1, msg := o.p.msg.(msgType := NOTHING)), o.rest)
    else o
  }

  /** feedMessage: loop iterations until the input is used up or one of
   *  them stops the feed. An iteration is the type stage while no type is
   *  set, then, if a type is set, the payload's part. Returns
   *  feedMessage's result and the state the socket is left in. */
  function Run<S>(pr: Protocol<S>, p: Parser<S>, input: seq<byte>): (r: (bool, Parser<S>))
    requires pr.Valid() && Valid(p)
    ensures r.0 ==> Valid(r.1)
    ensures |r.1.queue| >= |p.queue| && r.1.queue[..|p.queue|] == p.queue
    decreases |input|, 2
  {
    if input == [] then (true, p)
    else if p.cursor == -1 then RunFromType(pr, p, input)
    else RunFromField(pr, p, input)
  }

  /** An iteration from its type stage on, then the following ones. */
  function RunFromType<S>(pr: Protocol<S>, p: Parser<S>, input: seq<byte>): (r: (bool, Parser<S>))
    requires pr.Valid() && Valid(p) && p.cursor == -1 && input != []
    ensures r.0 ==> Valid(r.1)
    ensures |r.1.queue| >= |p.queue| && r.1.queue[..|p.queue|] == p.queue
    decreases |input|, 1
  {
    var h := ReadType(pr, p, input);
    if !h.ok then (false, h.p)
    else if h.p.cursor == -1 then Run(pr, h.p, h.rest)
    else RunFromField(pr, h.p, h.rest)
  }

  /** An iteration from the payload's part on, then the following ones. */
  function RunFromField<S>(pr: Protocol<S>, p: Parser<S>, input: seq<byte>): (r: (bool, Parser<S>))
    requires pr.Valid() && Valid(p) && p.cursor >= 0
    ensures r.0 ==> Valid(r.1)
    ensures |r.1.queue| >= |p.queue| && r.1.queue[..|p.queue|] == p.queue
    decreases |input|, 0
  {
    var o := ReadField(pr, p, input);
    if !o.ok then (false, o.p)
    else if o.rest == [] then (true, o.p)
    else Run(pr, o.p, o.rest)
  }

  /** A field a client can send: a string's length must read back as a
   *  non-negative int32_t. */
  predicate Sendable(f: Field)
  {
    f.StringField? ==> |f.s| < 0x8000_0000
  }

  predicate AllSendable(fs: seq<Field>)
  {
    forall i :: 0 <= i < |fs| ==> Sendable(fs[i])
  }

  /** The bytes a client sends for one field, big-endian; a string is its
   *  length as a uint32 followed by its bytes. */
  function FieldBytes(f: Field): (r: seq<byte>)
    requires Sendable(f)
    ensures |r| >= 2
  {
    match f
    case UInt32Field(u) => Encode32(u)
    case UInt16Field(w) => Encode16(w)
    case FloatField(x) => Encode32(x.bits)
    case StringField(s) => Encode32(|s|) + s
  }

  /** The bytes of a sequence of fields, one after the other. */
  function Wire(fs: seq<Field>): (r: seq<byte>)
    requires AllSendable(fs)
    ensures fs != [] ==> |r| >= 2
  {
    if fs == [] then [] else FieldBytes(fs[0]) + Wire(fs[1..])
  }

  /** Between messages, with every buffer empty and no string length read. */
  predicate Idle<S>(p: Parser<S>)
  {
    Valid(p) && p.cursor == -1 && Between(p)
  }

  /** Between two fields of a message. */
  predicate Ready<S>(p: Parser<S>)
  {
    Valid(p) && p.cursor >= 0 && Between(p)
  }

  predicate Between<S>(p: Parser<S>)
  {
    var empty := p.u32.data == [] && p.u16.data == [] && p.f32.data == [] && p.str == Buf(-1, []);
    empty
  }

  /** The parser after the last field of a message moved the payload to y:
   *  the message is queued and the type reset. */
  function Queued<S>(p: Parser<S>, y: S): Parser<S>
  {
    p.(cursor := -1, msg := Message(NOTHING, y), queue := p.queue + [Message(p.msg.msgType, y)])
  }

  function SlotSize(s: Slot): int32
  {
    if s.U16Slot? then UINT16_SIZE else UINT32_SIZE
  }

  /** A full buffer's worth of bytes in a fixed-size slot is decoded and
   *  pushed, and nothing after it is consumed. */
  lemma ScalarRead<S>(pr: Protocol<S>, p: Parser<S>, s: Slot, bytes: seq<byte>, more: seq<byte>, q: S)
    requires Ready(p) && |bytes| == SlotSize(s)
    requires pr.sc.push(p.msg.payload, Wrap32(p.cursor), Decoded(s, bytes)) == (true, q)
    ensures ReadScalar(pr, p, s, bytes + more)
         == Outcome(true, p.(cursor := p.cursor + 1, msg := p.msg.(payload := q)), more)
  {
    FillExact(SlotSize(s), [], bytes, more);
    assert [] + bytes == bytes;
  }

  /** A length below 2^31 becomes the string buffer's capacity. */
  lemma LengthRead<S>(p: Parser<S>, n: nat, more: seq<byte>)
    requires Ready(p) && n < 0x8000_0000
    ensures ReadLength(p, Encode32(n) + more) == (p.(str := Buf(n, [])), more)
  {
    FillExact(UINT32_SIZE, [], Encode32(n), more);
    assert [] + Encode32(n) == Encode32(n);
    Decode32Encode32(n);
  }

  /** A string of length n < 2^31, sent as its length and bytes, is pushed
   *  whole, and nothing after it is consumed. */
  lemma StringRead<S>(pr: Protocol<S>, p: Parser<S>, s: seq<byte>, more: seq<byte>, q: S)
    requires Ready(p) && |s| < 0x8000_0000
    requires pr.sc.push(p.msg.payload, Wrap32(p.cursor), Str(s)) == (true, q)
    ensures ReadString(pr, p, Encode32(|s|) + s + more)
         == Outcome(true, p.(cursor := p.cursor + 1, msg := p.msg.(payload := q)), more)
  {
    assert Encode32(|s|) + s + more == Encode32(|s|) + (s + more);
    LengthRead(p, |s|, s + more);
    FillExact(|s|, [], s, more);
    assert [] + s == s;
  }

  /** A field the payload announces and accepts is read from its bytes,
   *  and nothing after them is consumed. */
  lemma FieldRead<S>(pr: Protocol<S>, p: Parser<S>, f: Field, more: seq<byte>, q: S)
    requires Ready(p) && Sendable(f)
    requires Step(pr.sc, p.msg.payload, p.cursor, f, q)
    ensures ReadValue(pr, p, FieldBytes(f) + more)
         == Outcome(true, p.(cursor := p.cursor + 1, msg := p.msg.(payload := q)), more)
  {
    match f
    case UInt32Field(u) =>
      Decode32Encode32(u);
      ScalarRead(pr, p, U32Slot, Encode32(u), more, q);
    case UInt16Field(w) =>
      Decode16Encode16(w);
      ScalarRead(pr, p, U16Slot, Encode16(w), more, q);
    case FloatField(x) =>
      Decode32Encode32(x.bits);
      ScalarRead(pr, p, F32Slot, Encode32(x.bits), more, q);
    case StringField(s) =>
      StringRead(pr, p, s, more, q);
  }

  /** The parser after a field moved the payload to q. */
  function Advanced<S>(p: Parser<S>, q: S): Parser<S>
  {
    p.(cursor := p.cursor + 1, msg := p.msg.(payload := q))
  }

  /** Queuing after one more field is queuing with that field's payload. */
  lemma QueuedAdvanced<S>(p: Parser<S>, q: S, y: S)
    ensures Queued(Advanced(p, q), y) == Queued(p, y)
  {
  }

  /** A field that leaves the message incomplete, with input after it:
   *  the next iteration goes on from what follows it. */
  lemma FieldNext<S>(pr: Protocol<S>, p: Parser<S>, f: Field, rest: seq<byte>, q: S)
    requires pr.Valid() && Ready(p) && Sendable(f) && rest != []
    requires Step(pr.sc, p.msg.payload, p.cursor, f, q) && !CompleteWith(pr.sc, q, p.cursor + 1)
    ensures Ready(Advanced(p, q))
    ensures RunFromField(pr, p, FieldBytes(f) + rest) == RunFromField(pr, Advanced(p, q), rest)
  {
    var input, a := FieldBytes(f) + rest, Advanced(p, q);
    FieldRead(pr, p, f, rest, q);
    assert ReadValue(pr, p, input) == Outcome(true, a, rest);
    assert ReadField(pr, p, input) == Outcome(true, a, rest);
    assert Run(pr, a, rest) == RunFromField(pr, a, rest);
  }

  /** A field that completes the message. */
  lemma FieldEnd<S>(pr: Protocol<S>, p: Parser<S>, f: Field, more: seq<byte>, q: S)
    requires pr.Valid() && Ready(p) && Sendable(f)
    requires Step(pr.sc, p.msg.payload, p.cursor, f, q) && CompleteWith(pr.sc, q, p.cursor + 1)
    ensures Valid(Queued(p, q))
    ensures RunFromField(pr, p, FieldBytes(f) + more) == Run(pr, Queued(p, q), more)
  {
    var input, a := FieldBytes(f) + more, Advanced(p, q);
    FieldRead(pr, p, f, more, q);
    assert ReadValue(pr, p, input) == Outcome(true, a, more);
    assert ReadField(pr, p, input) == Outcome(true, Queued(p, q), more);
  }

  /** The first field of a message that has more: the next iteration
   *  reads the others from what follows it. */
  lemma FieldMiddle<S>(pr: Protocol<S>, p: Parser<S>, fs: seq<Field>, more: seq<byte>, y: S)
    requires pr.Valid() && Ready(p) && AllSendable(fs) && |fs| >= 2
    requires DeliverWith(pr.sc, p.msg.payload, p.cursor, fs) == Some(y)
    ensures var q := Pushed(pr.sc, p.msg.payload, Wrap32(p.cursor), ValueOf(fs[0]));
            && Ready(Advanced(p, q)) && AllSendable(fs[1..])
            && RunFromField(pr, p, Wire(fs) + more) == RunFromField(pr, Advanced(p, q), Wire(fs[1..]) + more)
  {
    var q := Pushed(pr.sc, p.msg.payload, Wrap32(p.cursor), ValueOf(fs[0]));
    DeliverFirst(pr.sc, p.msg.payload, p.cursor, fs, y);
    WireFirst(fs, more);
    FieldNext(pr, p, fs[0], Wire(fs[1..]) + more, q);
  }

  /** The wire form of several fields starts with the first one's bytes. */
  lemma WireFirst(fs: seq<Field>, more: seq<byte>)
    requires AllSendable(fs) && fs != []
    ensures AllSendable(fs[1..])
    ensures Wire(fs) + more == FieldBytes(fs[0]) + (Wire(fs[1..]) + more)
  {
    assert AllSendable(fs[1..]);
  }

  /** The only field of a message, or the last: the message is queued. */
  lemma FieldLast<S>(pr: Protocol<S>, p: Parser<S>, fs: seq<Field>, more: seq<byte>, y: S)
    requires pr.Valid() && Ready(p) && AllSendable(fs) && |fs| == 1
    requires DeliverWith(pr.sc, p.msg.payload, p.cursor, fs) == Some(y)
    requires CompleteWith(pr.sc, y, p.cursor + 1)
    ensures Valid(Queued(p, y))
    ensures RunFromField(pr, p, Wire(fs) + more) == Run(pr, Queued(p, y), more)
  {
    DeliverFirst(pr.sc, p.msg.payload, p.cursor, fs, y);
    assert Wire(fs) + more == FieldBytes(fs[0]) + more;
    FieldEnd(pr, p, fs[0], more, y);
  }

  /** The parser after the first of several fields still delivers the
   *  others, and queues the same message at the end. */
  lemma AfterFirst<S>(pr: Protocol<S>, p: Parser<S>, fs: seq<Field>, y: S, end: int) returns (a: Parser<S>)
    requires pr.Valid() && Ready(p) && |fs| >= 2
    requires DeliverWith(pr.sc, p.msg.payload, p.cursor, fs) == Some(y)
    requires end == p.cursor + |fs|
    ensures a == Advanced(p, Pushed(pr.sc, p.msg.payload, Wrap32(p.cursor), ValueOf(fs[0])))
    ensures DeliverWith(pr.sc, a.msg.payload, a.cursor, fs[1..]) == Some(y)
    ensures end == a.cursor + |fs[1..]|
    ensures Queued(a, y) == Queued(p, y)
  {
    var q := Pushed(pr.sc, p.msg.payload, Wrap32(p.cursor), ValueOf(fs[0]));
    DeliverFirst(pr.sc, p.msg.payload, p.cursor, fs, y);
    a := Advanced(p, q);
    QueuedAdvanced(p, q, y);
  }

  /** The fields of a message, sent in full, are read one by one and the
   *  message is queued once the last one is in. */
  lemma {:induction false} FieldsRead<S>(pr: Protocol<S>, p: Parser<S>, fs: seq<Field>, more: seq<byte>, y: S, end: int)
    requires pr.Valid() && Ready(p) && AllSendable(fs) && |fs| >= 1
    requires DeliverWith(pr.sc, p.msg.payload, p.cursor, fs) == Some(y)
    requires end == p.cursor + |fs| && CompleteWith(pr.sc, y, end)
    ensures RunFromField(pr, p, Wire(fs) + more) == Run(pr, Queued(p, y), more)
    decreases |fs|
  {
    if |fs| == 1 {
      FieldLast(pr, p, fs, more, y);
    } else {
      FieldMiddle(pr, p, fs, more, y);
      var a := AfterFirst(pr, p, fs, y, end);
      FieldsRead(pr, a, fs[1..], more, y, end);
    }
  }

  /** A whole message, sent in one piece after a message boundary, is
   *  queued with the payload its fields build, whatever follows it. */
  lemma MessageRoundTrip<S>(pr: Protocol<S>, p: Parser<S>, t: uint16, fs: seq<Field>, more: seq<byte>, y: S)
    requires pr.Valid() && Idle(p) && Handled(t) && AllSendable(fs) && |fs| >= 1
    requires DeliverWith(pr.sc, pr.blank(t).value, 0, fs) == Some(y)
    requires CompleteWith(pr.sc, y, |fs|)
    ensures Run(pr, p, Encode16(t) + Wire(fs) + more)
         == Run(pr, p.(msg := Message(NOTHING, y), queue := p.queue + [Message(t, y)]), more)
  {
    var input := Encode16(t) + Wire(fs) + more;
    assert input == Encode16(t) + (Wire(fs) + more);
    FillExact(UINT16_SIZE, [], Encode16(t), Wire(fs) + more);
    assert [] + Encode16(t) == Encode16(t);
    Decode16Encode16(t);
    var p1 := p.(cursor := 0, msg := Message(t, pr.blank(t).value));
    assert ReadType(pr, p, input) == Outcome(true, p1, Wire(fs) + more);
    FieldsRead(pr, p1, fs, more, y, |fs|);
  }

  /** A type the socket does not handle (IDENT_HOLOLENS, END_MESSAGE_TYPE
   *  or any code past it) stops the feed as soon as its two bytes are in;
   *  nothing is queued and nothing after them is read. */
  lemma TypeRefused<S>(pr: Protocol<S>, p: Parser<S>, t: uint16, more: seq<byte>)
    requires pr.Valid() && Idle(p) && !Handled(t)
    ensures Run(pr, p, Encode16(t) + more)
         == (false, p.(msg := SetType(p.msg, t, pr.blank).1))
  {
    FillExact(UINT16_SIZE, [], Encode16(t), more);
    assert [] + Encode16(t) == Encode16(t);
    Decode16Encode16(t);
  }

  /** A state a feed can resume from: while a message is being read, it is
   *  not yet complete at its cursor (the completion check has been made). */
  predicate Resumable<S>(pr: Protocol<S>, p: Parser<S>)
  {
    Valid(p) && (p.cursor >= 0 ==> !CompleteWith(pr.sc, p.msg.payload, p.cursor))
  }

  /** No message type the socket handles has a payload without fields
   *  (getMaxCursor() of a fresh payload is at least 0). */
  ghost predicate NoEmptyMessage<S>(pr: Protocol<S>)
  {
    forall t :: Handled(t) && pr.blank(t).Some? ==> !CompleteWith(pr.sc, pr.blank(t).value, 0)
  }

  /** A value stage that used up its input without completing its value:
   *  nothing was pushed, only a buffer changed. */
  ghost predicate Suspended<S>(p: Parser<S>, o: Outcome<S>)
  {
    o.ok && o.rest == [] && o.p.cursor == p.cursor && o.p.msg == p.msg && o.p.queue == p.queue
  }

  /** The type stage over two pieces: either it finishes within the first
   *  and the second is left over, or it resumes on the second. */
  lemma ReadTypeAppend<S>(pr: Protocol<S>, p: Parser<S>, x: seq<byte>, y: seq<byte>)
    requires pr.Valid() && Valid(p) && p.cursor == -1
    ensures var o := ReadType(pr, p, x);
            if o.ok && o.p.cursor == -1
            then o.rest == [] && ReadType(pr, p, x + y) == ReadType(pr, o.p, y)
            else ReadType(pr, p, x + y) == Outcome(o.ok, o.p, o.rest + y)
  {
    FillResume(p.u16, x, y);
  }

  /** The length stage over two pieces, likewise. */
  lemma ReadLengthAppend<S>(p: Parser<S>, x: seq<byte>, y: seq<byte>)
    requires Valid(p) && p.str.maxSize < 0
    ensures var o := ReadLength(p, x);
            if !Fill(p.u32, x).0.IsFull()
            then o.1 == [] && o.0.str == p.str && ReadLength(p, x + y) == ReadLength(o.0, y)
            else ReadLength(p, x + y) == (o.0, o.1 + y)
  {
    FillResume(p.u32, x, y);
  }

  /** A scalar stage over two pieces. */
  lemma ReadScalarAppend<S>(pr: Protocol<S>, p: Parser<S>, s: Slot, x: seq<byte>, y: seq<byte>)
    requires Valid(p) && p.cursor >= 0
    ensures var o := ReadScalar(pr, p, s, x);
            ReadScalar(pr, p, s, x + y) == Outcome(o.ok, o.p, o.rest + y)
            || (Suspended(p, o) && ReadScalar(pr, p, s, x + y) == ReadScalar(pr, o.p, s, y))
  {
    FillResume(SlotBuf(p, s), x, y);
  }

  /** A string stage over two pieces. */
  lemma ReadStringAppend<S>(pr: Protocol<S>, p: Parser<S>, x: seq<byte>, y: seq<byte>)
    requires Valid(p) && p.cursor >= 0
    ensures var o := ReadString(pr, p, x);
            ReadString(pr, p, x + y) == Outcome(o.ok, o.p, o.rest + y)
            || (Suspended(p, o) && ReadString(pr, p, x + y) == ReadString(pr, o.p, y))
  {
    var l := if p.str.maxSize < 0 then ReadLength(p, x) else (p, x);
    if p.str.maxSize < 0 {
      ReadLengthAppend(p, x, y);
      if !Fill(p.u32, x).0.IsFull() {
        assert ReadString(pr, p, x) == Outcome(true, l.0, []);
        assert ReadString(pr, p, x + y) == ReadString(pr, l.0, y);
        return;
      }
    }
    if l.0.str.maxSize >= 0 {
      StringBodyAppend(pr, p, l.0, l.1, x, y);
    }
  }

  /** The string stage once the length is known, over two pieces: the
   *  bytes z left after the length, followed by y. */
  lemma StringBodyAppend<S>(pr: Protocol<S>, p: Parser<S>, q: Parser<S>, z: seq<byte>, x: seq<byte>, y: seq<byte>)
    requires Valid(p) && p.cursor >= 0
    requires (if p.str.maxSize < 0 then ReadLength(p, x) else (p, x)) == (q, z)
    requires p.str.maxSize < 0 ==> ReadLength(p, x + y) == (q, z + y)
    requires q.str.maxSize >= 0
    ensures var o := ReadString(pr, p, x);
            ReadString(pr, p, x + y) == Outcome(o.ok, o.p, o.rest + y)
            || (Suspended(p, o) && ReadString(pr, p, x + y) == ReadString(pr, o.p, y))
  {
    FillResume(q.str, z, y);
    if Fill(q.str, z).0.IsFull() {
      StringFilledAppend(pr, p, q, z, x, y);
    } else {
      StringPendingAppend(pr, p, q, z, x, y);
    }
  }

  /** ... when the string is complete within the first piece ... */
  lemma StringFilledAppend<S>(pr: Protocol<S>, p: Parser<S>, q: Parser<S>, z: seq<byte>, x: seq<byte>, y: seq<byte>)
    requires Valid(p) && p.cursor >= 0
    requires (if p.str.maxSize < 0 then ReadLength(p, x) else (p, x)) == (q, z)
    requires p.str.maxSize < 0 ==> ReadLength(p, x + y) == (q, z + y)
    requires q.str.maxSize >= 0
    requires Fill(q.str, z).0.IsFull() && Fill(q.str, z + y) == (Fill(q.str, z).0, Fill(q.str, z).1 + y)
    ensures var o := ReadString(pr, p, x);
            ReadString(pr, p, x + y) == Outcome(o.ok, o.p, o.rest + y)
  {
    var r := Fill(q.str, z);
    var a := Accept(pr, q.(str := r.0), Str(r.0.data));
    var b := if a.0 then a.1.(str := Buf(-1, [])) else a.1;
    assert ReadString(pr, p, x) == Outcome(a.0, b, r.1);
    assert ReadString(pr, p, x + y) == Outcome(a.0, b, r.1 + y);
  }

  /** ... and when it is not: the first piece leaves the string buffer
   *  partly filled ... */
  lemma StringPendingAppend<S>(pr: Protocol<S>, p: Parser<S>, q: Parser<S>, z: seq<byte>, x: seq<byte>, y: seq<byte>)
    requires Valid(p) && p.cursor >= 0
    requires (if p.str.maxSize < 0 then ReadLength(p, x) else (p, x)) == (q, z)
    requires p.str.maxSize < 0 ==> ReadLength(p, x + y) == (q, z + y)
    requires q.str.maxSize >= 0
    requires !Fill(q.str, z).0.IsFull() && Fill(q.str, z).1 == [] && Fill(q.str, z + y) == Fill(Fill(q.str, z).0, y)
    ensures var o := ReadString(pr, p, x);
            Suspended(p, o) && ReadString(pr, p, x + y) == ReadString(pr, o.p, y)
  {
    var qq := q.(str := Fill(q.str, z).0);
    assert ReadString(pr, p, x) == Outcome(true, qq, []);
    StringPendingResume(pr, p, q, z, x, y);
  }

  /** ... which the second piece goes on filling. */
  lemma StringPendingResume<S>(pr: Protocol<S>, p: Parser<S>, q: Parser<S>, z: seq<byte>, x: seq<byte>, y: seq<byte>)
    requires Valid(p) && p.cursor >= 0
    requires (if p.str.maxSize < 0 then ReadLength(p, x) else (p, x)) == (q, z)
    requires p.str.maxSize < 0 ==> ReadLength(p, x + y) == (q, z + y)
    requires q.str.maxSize >= 0
    requires !Fill(q.str, z).0.IsFull() && Fill(q.str, z).1 == [] && Fill(q.str, z + y) == Fill(Fill(q.str, z).0, y)
    ensures Valid(q.(str := Fill(q.str, z).0))
    ensures ReadString(pr, p, x + y) == ReadString(pr, q.(str := Fill(q.str, z).0), y)
  {
    var r := Fill(q.str, z);
    var qq := q.(str := r.0);
    var w := Fill(r.0, y);
    var l := if p.str.maxSize < 0 then ReadLength(p, x + y) else (p, x + y);
    assert l == (q, z + y);
    var done := q.(str := w.0);
    assert qq.(str := w.0) == done;
    if w.0.IsFull() {
      var a := Accept(pr, done, Str(w.0.data));
      var o := if a.0 then Outcome(true, a.1.(str := Buf(-1, [])), w.1) else Outcome(false, a.1, w.1);
      assert ReadString(pr, qq, y) == o;
      assert ReadString(pr, p, x + y) == o;
    } else {
      assert ReadString(pr, qq, y) == Outcome(true, done, w.1);
      assert ReadString(pr, p, x + y) == Outcome(true, done, w.1);
    }
  }



  /** The value stage over two pieces. */
  lemma ReadValueAppend<S>(pr: Protocol<S>, p: Parser<S>, x: seq<byte>, y: seq<byte>)
    requires Valid(p) && p.cursor >= 0
    ensures var o := ReadValue(pr, p, x);
            ReadValue(pr, p, x + y) == Outcome(o.ok, o.p, o.rest + y)
            || (Suspended(p, o) && ReadValue(pr, p, x + y) == ReadValue(pr, o.p, y))
  {
    var code := pr.sc.typeAt(p.msg.payload, Wrap32(p.cursor));
    if code == CODE_STRING {
      ReadStringAppend(pr, p, x, y);
    } else if code == CODE_UINT32 {
      ReadScalarAppend(pr, p, U32Slot, x, y);
    } else if code == CODE_UINT16 {
      ReadScalarAppend(pr, p, U16Slot, x, y);
    } else if code == CODE_FLOAT {
      ReadScalarAppend(pr, p, F32Slot, x, y);
    }
  }

  /** With no input, the value stage leaves a valid state as it is. */
  lemma ReadValueEmpty<S>(pr: Protocol<S>, p: Parser<S>)
    requires Valid(p) && p.cursor >= 0
    ensures ReadValue(pr, p, []).p == p && ReadValue(pr, p, []).rest == []
  {
  }

  /** The payload's part of an iteration resumes like the value stage: the
   *  completion check sees the same payload and cursor either way. */
  lemma ReadFieldAppend<S>(pr: Protocol<S>, p: Parser<S>, x: seq<byte>, y: seq<byte>)
    requires Resumable(pr, p) && p.cursor >= 0
    ensures var o := ReadField(pr, p, x);
            ReadField(pr, p, x + y) == Outcome(o.ok, o.p, o.rest + y)
            || (Suspended(p, o) && ReadField(pr, p, x + y) == ReadField(pr, o.p, y))
    ensures ReadField(pr, p, x).ok ==> Resumable(pr, ReadField(pr, p, x).p)
  {
    ReadValueAppend(pr, p, x, y);
  }

  /** Splitting the input of a feed in two: feeding the pieces one after
   *  the other (the second from the state the first left) gives the same
   *  result and the same state, queued messages included, as feeding them
   *  together; and the state left is again one a feed can resume from. */
  lemma {:induction false} RunAppend<S>(pr: Protocol<S>, p: Parser<S>, x: seq<byte>, y: seq<byte>)
    requires pr.Valid() && NoEmptyMessage(pr) && Resumable(pr, p)
    ensures Run(pr, p, x + y) == if Run(pr, p, x).0 then Run(pr, Run(pr, p, x).1, y) else Run(pr, p, x)
    ensures Run(pr, p, x).0 ==> Resumable(pr, Run(pr, p, x).1)
    decreases |x|, 2
  {
    if x == [] {
      assert x + y == y;
    } else if p.cursor == -1 {
      RunFromTypeAppend(pr, p, x, y);
    } else {
      RunFromFieldAppend(pr, p, x, y);
    }
  }

  /** RunAppend from the type stage on. */
  lemma {:induction false} RunFromTypeAppend<S>(pr: Protocol<S>, p: Parser<S>, x: seq<byte>, y: seq<byte>)
    requires pr.Valid() && NoEmptyMessage(pr) && Resumable(pr, p) && p.cursor == -1 && x != []
    ensures var r := RunFromType(pr, p, x);
            RunFromType(pr, p, x + y) == if r.0 then Run(pr, r.1, y) else r
    ensures RunFromType(pr, p, x).0 ==> Resumable(pr, RunFromType(pr, p, x).1)
    decreases |x|, 1
  {
    var h := ReadType(pr, p, x);
    ReadTypeAppend(pr, p, x, y);
    if h.p.cursor == -1 {
      assert RunFromType(pr, p, x).1 == h.p;
      if y == [] {
        assert x + y == x;
      }
    } else {
      assert h.p.msg.payload == pr.blank(h.p.msg.msgType).value;
      RunFromFieldAppend(pr, h.p, h.rest, y);
    }
  }

  /** RunAppend from the payload's part on. */
  lemma {:induction false} RunFromFieldAppend<S>(pr: Protocol<S>, p: Parser<S>, x: seq<byte>, y: seq<byte>)
    requires pr.Valid() && NoEmptyMessage(pr) && Resumable(pr, p) && p.cursor >= 0
    ensures var r := RunFromField(pr, p, x);
            RunFromField(pr, p, x + y) == if r.0 then Run(pr, r.1, y) else r
    ensures RunFromField(pr, p, x).0 ==> Resumable(pr, RunFromField(pr, p, x).1)
    decreases |x|, 0
  {
    var o := ReadField(pr, p, x);
    ReadFieldAppend(pr, p, x, y);
    if o.ok {
      if o.rest != [] {
        RunAppend(pr, o.p, o.rest, y);
      } else if y == [] {
        assert x + y == x;
      } else if ReadField(pr, p, x + y) == Outcome(o.ok, o.p, o.rest + y) {
        assert o.rest + y == y;
      } else {
        assert RunFromField(pr, p, x).1 == o.p;
      }
    }
  }

  /** The concatenation of the pieces. */
  function Joined(pieces: seq<seq<byte>>): (r: seq<byte>)
    decreases |pieces|
  {
    if pieces == [] then [] else pieces[0] + Joined(pieces[1..])
  }

  /** One feedMessage call per piece, each from the state the previous one
   *  left, until one of them returns false. */
  function RunEach<S>(pr: Protocol<S>, p: Parser<S>, pieces: seq<seq<byte>>): (r: (bool, Parser<S>))
    requires pr.Valid() && Valid(p)
    ensures r.0 ==> Valid(r.1)
    decreases |pieces|
  {
    if pieces == [] then (true, p)
    else
      var r := Run(pr, p, pieces[0]);
      if r.0 then RunEach(pr, r.1, pieces[1..]) else r
  }

  /** However the bytes a client sends are cut into the chunks received,
   *  the socket accepts or refuses them alike and queues the same
   *  messages: feeding the chunks in turn is feeding them at once. */
  lemma {:induction false} RunEachJoined<S>(pr: Protocol<S>, p: Parser<S>, pieces: seq<seq<byte>>)
    requires pr.Valid() && NoEmptyMessage(pr) && Resumable(pr, p)
    ensures RunEach(pr, p, pieces) == Run(pr, p, Joined(pieces))
    decreases |pieces|
  {
    if pieces != [] {
      RunAppend(pr, p, pieces[0], Joined(pieces[1..]));
      var r := Run(pr, p, pieces[0]);
      if r.0 {
        RunEachJoined(pr, r.1, pieces[1..]);
      }
    }
  }

  /** The socket's protocol over the modelled schemas: IDENT_TABLET and
   *  ROTATE_DATASET construct the tablet and rotation payloads; the
   *  dataset and colour payloads, whose structs are not part of this
   *  model, are given. */
  function SocketProtocol(dataset: Payload, color: Payload): (pr: Protocol<Payload>)
    ensures pr.Valid()
  {
    Protocol(PAYLOADS, t =>
      if t == IDENT_TABLET then Some(IdentTabletP(BLANK_IDENT_TABLET))
      else if t == ROTATE_DATASET then Some(RotationP(BLANK_ROTATION))
      else if t == ADD_DATASET || t == REMOVE_DATASET then Some(dataset)
      else if t == CHANGE_COLOR then Some(color)
      else None)
  }

  /** The tablet and rotation payloads expect at least one value, so the
   *  socket's protocol meets the hypothesis of `RunAppend` as soon as the
   *  dataset and colour payloads do too. */
  lemma SocketProtocolNoEmptyMessage(dataset: Payload, color: Payload)
    requires !Complete(dataset, 0) && !Complete(color, 0)
    ensures NoEmptyMessage(SocketProtocol(dataset, color))
  {
  }
}
