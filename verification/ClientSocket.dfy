/** VFVClientSocket: the server's end of the connection with one VFV
 *  client. It parses the bytes the client sends into messages, queues them,
 *  hands them out in order, and remembers whether the client identified
 *  itself as a tablet or as a headset. */
module ClientSocket {
  import opened Common
  import opened BigEndian
  import opened BufferValue
  import opened DataValues
  import opened DataInformation
  import opened ClientMessage
  import opened FrameParser

  /** VFVIdentityType. */
  datatype Identity = Hololens | Tablet

  /** setAsTablet on the values it changes: whether it succeeds, the
   *  identity and the bound headset afterwards. */
  function TabletBinding(onTabletPort: bool, identity: Identity, bound: Option<string>, ip: string, ipValid: bool): (bool, Identity, Option<string>)
  {
    if !onTabletPort then (false, identity, bound)
    else if !ipValid then (false, Tablet, bound)
    else (true, Tablet, Some(ip))
  }

  /** A value buffer as the parser sees it. */
  function View(b: BufferValue): Buf
    reads b
  {
    Buf(b.maxSize, b.buffer)
  }

  /** PUSH_UINT16, PUSH_UINT32, PUSH_FLOAT and the copy loop of PUSH_STRING:
   *  bytes move from the message into the buffer, from position `pos` on,
   *  while the buffer is not full and bytes remain. */
  method FillBuffer(b: BufferValue, message: seq<byte>, pos: nat) returns (next: nat)
    requires pos <= |message|
    modifies b
    ensures pos <= next <= |message|
    ensures (View(b), message[next..]) == Fill(old(View(b)), message[pos..])
  {
    next := pos;
    while !b.IsFull() && next < |message|
      invariant pos <= next <= |message|
      invariant Fill(View(b), message[next..]) == Fill(old(View(b)), message[pos..])
      decreases |message| - next
    {
      assert message[next..][1..] == message[next + 1..];
      b.PushValue(message[next]);
      next := next + 1;
    }
  }

  class VFVClientSocket<S> {
    /** The payload schemas and what setType constructs. */
    const protocol: Protocol<S>
    /** Whether the connection came in on the tablet port. */
    const onTabletPort: bool

    /** m_messages, front first. */
    var messages: seq<Message<S>>
    /** m_curMsg, the message being read. */
    var curMsg: Message<S>
    /** m_cursor: the index of the next value of the payload, -1 while the
     *  type is being read. */
    var cursor: int
    /** m_identityType. */
    var identityType: Identity
    /** The headset a tablet is bound to, once set. */
    var hololensIP: Option<string>

    const uint32Buffer: BufferValue
    const uint16Buffer: BufferValue
    const floatBuffer: BufferValue
    const stringBuffer: BufferValue

    /** The parser's state held by this socket. */
    function State(): Parser<S>
      reads this, uint32Buffer, uint16Buffer, floatBuffer, stringBuffer
    {
      Parser(cursor, curMsg, View(uint32Buffer), View(uint16Buffer), View(floatBuffer), View(stringBuffer), messages)
    }

    ghost predicate Valid()
      reads this, uint32Buffer, uint16Buffer, floatBuffer, stringBuffer
    {
      && uint32Buffer != uint16Buffer && uint32Buffer != floatBuffer && uint32Buffer != stringBuffer
      && uint16Buffer != floatBuffer && uint16Buffer != stringBuffer && floatBuffer != stringBuffer
      && protocol.Valid() && FrameParser.Valid(State())
    }

    /** A fresh socket: no type read, the three value buffers sized for
     *  their type, the string buffer's length unknown, nothing queued. The
     *  identity is left uninitialised in C++; it is a parameter here. */
    constructor (protocol: Protocol<S>, none: S, onTabletPort: bool, identity: Identity)
      requires protocol.Valid()
      ensures Valid() && State() == Initial(none)
      ensures this.protocol == protocol && this.onTabletPort == onTabletPort
      ensures identityType == identity && hololensIP == None
      ensures fresh(uint32Buffer) && fresh(uint16Buffer) && fresh(floatBuffer) && fresh(stringBuffer)
    {
      this.protocol := protocol;
      this.onTabletPort := onTabletPort;
      messages := [];
      curMsg := NewMessage(none);
      cursor := -1;
      identityType := identity;
      hololensIP := None;
      uint32Buffer := new BufferValue(UINT32_SIZE);
      uint16Buffer := new BufferValue(UINT16_SIZE);
      floatBuffer := new BufferValue(FLOAT_SIZE);
      stringBuffer := new BufferValue(-1);
    }

    /** The type stage of an iteration. */
    method ReadTypeStage(message: seq<byte>, pos: nat) returns (ok: bool, next: nat)
      requires Valid() && cursor == -1 && pos <= |message|
      modifies this, uint16Buffer
      ensures pos <= next <= |message|
      ensures Outcome(ok, State(), message[next..]) == ReadType(protocol, old(State()), message[pos..])
      ensures identityType == old(identityType) && hololensIP == old(hololensIP)
    {
      next := FillBuffer(uint16Buffer, message, pos);
      ok := true;
      if uint16Buffer.IsFull() {
        var t := SetType(curMsg, uint16Buffer.GetUint16(), protocol.blank);
        assert Decode16(uint16Buffer.buffer) == uint16Buffer.GetUint16() by {
          assert uint16Buffer.buffer[..2] == uint16Buffer.buffer;
          Decode16Encode16(uint16Buffer.GetUint16());
        }
        curMsg := t.1;
        uint16Buffer.Clear();
        if t.0 {
          cursor := 0;
        } else {
          ok := false;
        }
      }
    }

    /** Hands a value to the payload at the cursor; an accepted value moves
     *  the cursor on. */
    method AcceptValue(v: Value) returns (ok: bool)
      modifies this
      ensures (ok, State()) == Accept(protocol, old(State()), v)
      ensures identityType == old(identityType) && hololensIP == old(hololensIP)
    {
      var r := protocol.sc.push(curMsg.payload, Wrap32(cursor), v);
      curMsg := curMsg.(payload := r.1);
      ok := r.0;
      if ok {
        cursor := cursor + 1;
      }
    }

    /** The 'I', 'i' and 'f' cases of the switch. */
    method ReadScalarStage(s: Slot, message: seq<byte>, pos: nat) returns (ok: bool, next: nat)
      requires Valid() && cursor >= 0 && pos <= |message|
      modifies this, uint32Buffer, uint16Buffer, floatBuffer
      ensures pos <= next <= |message|
      ensures Outcome(ok, State(), message[next..]) == ReadScalar(protocol, old(State()), s, message[pos..])
      ensures identityType == old(identityType) && hololensIP == old(hololensIP)
    {
      var b := match s
        case U32Slot => uint32Buffer
        case U16Slot => uint16Buffer
        case F32Slot => floatBuffer;
      next := FillBuffer(b, message, pos);
      ok := true;
      if b.IsFull() {
        var v := match s
          case U32Slot => UInt32(b.GetUint32())
          case U16Slot => Widen(U16(b.GetUint16()))
          case F32Slot => Float32(b.GetFloat());
        assert v == Decoded(s, b.buffer) by {
          match s
          case U16Slot =>
            assert b.buffer[..2] == b.buffer;
            Decode16Encode16(b.GetUint16());
          case U32Slot =>
            assert b.buffer[..4] == b.buffer;
            Decode32Encode32(b.GetUint32());
          case F32Slot =>
            assert b.buffer[..4] == b.buffer;
            Decode32Encode32(b.GetFloat().bits);
        }
        ok := AcceptValue(v);
        if ok {
          b.Clear();
        }
      }
    }

    /** The first half of PUSH_STRING, while the string's length is
     *  unknown: once the uint32 buffer is full its value, read as an
     *  int32_t, becomes the string buffer's capacity. */
    method ReadLengthStage(message: seq<byte>, pos: nat) returns (next: nat)
      requires Valid() && stringBuffer.maxSize < 0 && pos <= |message|
      modifies uint32Buffer, stringBuffer
      ensures pos <= next <= |message|
      ensures (State(), message[next..]) == ReadLength(old(State()), message[pos..])
    {
      next := FillBuffer(uint32Buffer, message, pos);
      if uint32Buffer.IsFull() {
        assert Decode32(uint32Buffer.buffer) == uint32Buffer.GetUint32() by {
          assert uint32Buffer.buffer[..4] == uint32Buffer.buffer;
          Decode32Encode32(uint32Buffer.GetUint32());
        }
        stringBuffer.SetMaxSize(ToInt32(uint32Buffer.GetUint32()));
        uint32Buffer.Clear();
      }
    }

    /** The 's' case of the switch: PUSH_STRING, then the push once the
     *  string is complete. */
    method ReadStringStage(message: seq<byte>, pos: nat) returns (ok: bool, next: nat)
      requires Valid() && cursor >= 0 && pos <= |message|
      modifies this, uint32Buffer, stringBuffer
      ensures pos <= next <= |message|
      ensures Outcome(ok, State(), message[next..]) == ReadString(protocol, old(State()), message[pos..])
      ensures identityType == old(identityType) && hololensIP == old(hololensIP)
    {
      next := pos;
      if stringBuffer.maxSize < 0 {
        next := ReadLengthStage(message, pos);
      }
      if stringBuffer.maxSize >= 0 {
        next := FillBuffer(stringBuffer, message, next);
      }
      ok := true;
      if stringBuffer.IsFull() && stringBuffer.maxSize >= 0 {
        ok := AcceptValue(Str(stringBuffer.GetString()));
        if ok {
          stringBuffer.Clear();
          stringBuffer.SetMaxSize(-1);
        }
      }
    }

    /** The switch on the type code the payload announces at the cursor. */
    method ReadValueStage(message: seq<byte>, pos: nat) returns (ok: bool, next: nat)
      requires Valid() && cursor >= 0 && pos <= |message|
      modifies this, uint32Buffer, uint16Buffer, floatBuffer, stringBuffer
      ensures pos <= next <= |message|
      ensures Outcome(ok, State(), message[next..]) == ReadValue(protocol, old(State()), message[pos..])
      ensures identityType == old(identityType) && hololensIP == old(hololensIP)
    {
      var code := protocol.sc.typeAt(curMsg.payload, Wrap32(cursor));
      if code == CODE_STRING {
        ok, next := ReadStringStage(message, pos);
      } else if code == CODE_UINT32 {
        ok, next := ReadScalarStage(U32Slot, message, pos);
      } else if code == CODE_UINT16 {
        ok, next := ReadScalarStage(U16Slot, message, pos);
      } else if code == CODE_FLOAT {
        ok, next := ReadScalarStage(F32Slot, message, pos);
      } else {
        return false, pos;
      }
    }

    /** The payload's part of an iteration: a value, then the completion
     *  test, which queues the message once the cursor has reached
     *  getMaxCursor()+1. */
    method ReadFieldStage(message: seq<byte>, pos: nat) returns (ok: bool, next: nat)
      requires Valid() && cursor >= 0 && pos <= |message|
      modifies this, uint32Buffer, uint16Buffer, floatBuffer, stringBuffer
      ensures pos <= next <= |message|
      ensures Outcome(ok, State(), message[next..]) == ReadField(protocol, old(State()), message[pos..])
      ensures identityType == old(identityType) && hololensIP == old(hololensIP)
    {
      ghost var p := State();
      ok, next := ReadValueStage(message, pos);
      ghost var o := Outcome(ok, State(), message[next..]);
      assert o == ReadValue(protocol, p, message[pos..]);
      ghost var q := State();
      if ok && Wrap32(cursor) == Wrap32(protocol.sc.maxCursor(curMsg.payload) + 1) {
        assert CompleteWith(protocol.sc, q.msg.payload, q.cursor);
        messages := messages + [curMsg];
        cursor := -1;
        curMsg := curMsg.(msgType := NOTHING);
        assert State() == q.(queue := q.queue + [q.msg], cursor := -1, msg := q.msg.(msgType := NOTHING));
      } else {
        assert !(ok && CompleteWith(protocol.sc, q.msg.payload, q.cursor));
      }
    }

    /** feedMessage: parse the bytes received, queueing every message they
     *  complete. False when a type or a value is refused or a type code is
     *  unknown; the socket is then left as the failing step left it. */
    method FeedMessage(message: seq<byte>) returns (ok: bool)
      requires Valid()
      modifies this, uint32Buffer, uint16Buffer, floatBuffer, stringBuffer
      ensures (ok, State()) == Run(protocol, old(State()), message)
      ensures ok ==> Valid()
      ensures identityType == old(identityType) && hololensIP == old(hololensIP)
    {
      if |message| == 0 {
        return true;
      }
      var pos := 0;
      while pos < |message|
        invariant 0 <= pos <= |message| && Valid()
        invariant Run(protocol, old(State()), message) == Run(protocol, State(), message[pos..])
        invariant identityType == old(identityType) && hololensIP == old(hololensIP)
        decreases |message| - pos
      {
        ghost var input := message[pos..];
        if cursor == -1 {
          ghost var p := State();
          ok, pos := ReadTypeStage(message, pos);
          if !ok {
            return false;
          }
          assert Run(protocol, p, input) == if cursor == -1 then Run(protocol, State(), message[pos..]) else RunFromField(protocol, State(), message[pos..]);
        } else {
          assert Run(protocol, State(), input) == RunFromField(protocol, State(), input);
        }
        if cursor != -1 {
          ghost var p := State();
          ghost var rest := message[pos..];
          ok, pos := ReadFieldStage(message, pos);
          if !ok {
            return false;
          }
          assert RunFromField(protocol, p, rest) == Run(protocol, State(), message[pos..]);
        }
      }
      return true;
    }

    /** pullMessage: the oldest queued message, copied into `msg` by
     *  VFVMessage's assignment; false, and `msg` untouched, when none is
     *  queued. */
    method PullMessage(msg: Message<S>) returns (ok: bool, out: Message<S>)
      requires Valid()
      modifies this
      ensures ok == (old(messages) != [])
      ensures ok ==> out == old(messages)[0] && messages == old(messages)[1..]
      ensures !ok ==> out == msg && messages == old(messages)
      ensures Valid() && State() == old(State()).(queue := messages)
      ensures identityType == old(identityType) && hololensIP == old(hololensIP)
    {
      if messages == [] {
        return false, msg;
      }
      assert Handled(messages[0].msgType);
      out := Assign(msg, messages[0], false, protocol.blank);
      messages := messages[1..];
      ok := true;
    }

    /** isTablet. */
    predicate IsTablet()
      reads this
    {
      identityType == Tablet
    }

    /** setAsHololens. */
    method SetAsHololens() returns (ok: bool)
      modifies this
      ensures ok && identityType == Hololens
      ensures hololensIP == old(hololensIP) && messages == old(messages) && cursor == old(cursor) && curMsg == old(curMsg)
    {
      identityType := Hololens;
      return true;
    }

    /** setAsTablet: refused, changing nothing, unless the connection came
     *  in on the tablet port; otherwise the client becomes a tablet, and is
     *  bound to the headset at `ip` if that is a valid IPv4 address
     *  (`ipValid`, the verdict of inet_pton). */
    method SetAsTablet(ip: string, ipValid: bool) returns (ok: bool)
      modifies this
      ensures ok <==> onTabletPort && ipValid
      ensures identityType == if onTabletPort then Tablet else old(identityType)
      ensures hololensIP == if ok then Some(ip) else old(hololensIP)
      ensures (ok, identityType, hololensIP) == TabletBinding(onTabletPort, old(identityType), old(hololensIP), ip, ipValid)
      ensures messages == old(messages) && cursor == old(cursor) && curMsg == old(curMsg)
    {
      if !onTabletPort {
        return false;
      }
      identityType := Tablet;
      if !ipValid {
        return false;
      }
      hololensIP := Some(ip);
      return true;
    }
  }
}
