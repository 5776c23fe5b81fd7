/** The messages a VFV client sends: a type code followed by the payload
 *  that the type selects, and the copy rules of VFVMessage. */
module ClientMessage {
  import opened Common

  /** VFVMessageType. */
  const NOTHING: int := -1
  const IDENT_HOLOLENS: int := 0
  const IDENT_TABLET: int := 1
  const ADD_DATASET: int := 2
  const REMOVE_DATASET: int := 3
  const ROTATE_DATASET: int := 4
  const CHANGE_COLOR: int := 5
  const END_MESSAGE_TYPE: int := 6

  /** The types that select a payload: the cases of setType's switch that
   *  construct one. */
  predicate Handled(t: int)
  {
    t == IDENT_TABLET || t == ADD_DATASET || t == REMOVE_DATASET || t == CHANGE_COLOR || t == ROTATE_DATASET
  }

  /** A message: its type and the payload union, of which only the member
   *  the type selects is meaningful. */
  datatype Message<S> = Message(msgType: int, payload: S)

  /** What setType constructs in the union for each type: the payload
   *  types of the protocol are a parameter (`blank`), defined for the
   *  handled types. */
  ghost predicate BlankDefined<S>(blank: int -> Option<S>)
  {
    forall t :: Handled(t) ==> blank(t).Some?
  }

  /** setType: a type outside NOTHING..END_MESSAGE_TYPE is refused and
   *  changes nothing; any other type is stored first, then a handled type
   *  gets a freshly constructed payload, NOTHING succeeds with the payload
   *  untouched, and IDENT_HOLOLENS and END_MESSAGE_TYPE fail. */
  function SetType<S>(m: Message<S>, t: int, blank: int -> Option<S>): (r: (bool, Message<S>))
    requires BlankDefined(blank)
    ensures r.0 <==> Handled(t) || t == NOTHING
    ensures (t < NOTHING || t > END_MESSAGE_TYPE) ==> r.1 == m
    ensures NOTHING <= t <= END_MESSAGE_TYPE ==> r.1.msgType == t
    ensures Handled(t) ==> r.1.payload == blank(t).value
    ensures !Handled(t) ==> r.1.payload == m.payload
  {
    if t < NOTHING || t > END_MESSAGE_TYPE then (false, m)
    else
      var m := m.(msgType := t);
      if Handled(t) then (true, m.(payload := blank(t).value))
      else (t == NOTHING, m)
  }

  /** The default constructor: type NOTHING. The union is left
   *  uninitialised; `none` stands for its contents. */
  function NewMessage<S>(none: S): (r: Message<S>)
    ensures r.msgType == NOTHING && !Handled(r.msgType)
  {
    Message(NOTHING, none)
  }

  /** operator=: unless source and destination are the same object,
   *  setType(source's type), then copy the payload member the resulting
   *  type selects. A message of a handled type is copied exactly,
   *  whatever the destination held. Copying a NOTHING, IDENT_HOLOLENS or
   *  END_MESSAGE_TYPE message sets the type and keeps the destination's
   *  payload. Copying a message whose type is out of range keeps the
   *  destination's type, and takes the source's payload only if that type
   *  selects one. */
  function Assign<S>(dst: Message<S>, src: Message<S>, sameObject: bool, blank: int -> Option<S>): (r: Message<S>)
    requires BlankDefined(blank)
    ensures sameObject ==> r == dst
    ensures !sameObject && Handled(src.msgType) ==> r == src
    ensures !sameObject && !Handled(src.msgType) && NOTHING <= src.msgType <= END_MESSAGE_TYPE
            ==> r == dst.(msgType := src.msgType)
    ensures !sameObject && (src.msgType < NOTHING || src.msgType > END_MESSAGE_TYPE)
            ==> r.msgType == dst.msgType
                && r.payload == (if Handled(dst.msgType) then src.payload else dst.payload)
  {
    if sameObject then dst
    else
      var m := SetType(dst, src.msgType, blank).1;
      if Handled(m.msgType) then m.(payload := src.payload) else m
  }
}
