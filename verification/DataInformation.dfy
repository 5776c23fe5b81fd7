/** The message schemas seen through their common interface (getTypeAt,
 *  getMaxCursor, pushValue), and what it means for a sequence of wire
 *  fields to be accepted by a schema. */
module DataInformation {
  import opened Common
  import opened DataValues
  import opened SimpleInfo
  import opened AnnotationInfo
  import opened ListInfo

  /** One value of every modelled schema; the variant plays the role of the
   *  dynamic type behind a VFVDataInformation pointer. */
  datatype Payload =
    | NoDataP(noData: NoDataInformation)
    | ClearAnnotationsP(clear: ClearAnnotations)
    | AnchorAnnotationP(anchor: AnchorAnnotation)
    | StartAnnotationP(start: StartAnnotation)
    | AnchoringDataStatusP(status: AnchoringDataStatus)
    | DefaultByteArrayP(bytes: DefaultByteArray)
    | AnnotationStrokeP(stroke: AnnotationStroke)
    | AnnotationTextP(text: AnnotationText)
    | AnnotationP(annotation: Annotation)
    | RotationP(rotation: RotationInformation)
    | IdentTabletP(ident: IdentTabletInformation)
    | LassoP(lasso: Lasso)
    | VTKDatasetP(vtk: VTKDatasetInformation)
    | MappedIdxP(mapped: SetDrawableAnnotationPositionMappedIdx)

  function TypeAt(p: Payload, cursor: uint32): char
  {
    match p
    case NoDataP(x) => x.TypeAt(cursor)
    case ClearAnnotationsP(x) => x.TypeAt(cursor)
    case AnchorAnnotationP(x) => x.TypeAt(cursor)
    case StartAnnotationP(x) => x.TypeAt(cursor)
    case AnchoringDataStatusP(x) => x.TypeAt(cursor)
    case DefaultByteArrayP(x) => x.TypeAt(cursor)
    case AnnotationStrokeP(x) => x.TypeAt(cursor)
    case AnnotationTextP(x) => x.TypeAt(cursor)
    case AnnotationP(x) => x.TypeAt(cursor)
    case RotationP(x) => x.TypeAt(cursor)
    case IdentTabletP(x) => x.TypeAt(cursor)
    case LassoP(x) => x.TypeAt(cursor)
    case VTKDatasetP(x) => x.TypeAt(cursor)
    case MappedIdxP(x) => x.TypeAt(cursor)
  }

  function MaxCursor(p: Payload): int32
  {
    match p
    case NoDataP(x) => x.MaxCursor()
    case ClearAnnotationsP(x) => x.MaxCursor()
    case AnchorAnnotationP(x) => x.MaxCursor()
    case StartAnnotationP(x) => x.MaxCursor()
    case AnchoringDataStatusP(x) => x.MaxCursor()
    case DefaultByteArrayP(x) => x.MaxCursor()
    case AnnotationStrokeP(x) => x.MaxCursor()
    case AnnotationTextP(x) => x.MaxCursor()
    case AnnotationP(x) => x.MaxCursor()
    case RotationP(x) => x.MaxCursor()
    case IdentTabletP(x) => x.MaxCursor()
    case LassoP(x) => x.MaxCursor()
    case VTKDatasetP(x) => x.MaxCursor()
    case MappedIdxP(x) => x.MaxCursor()
  }

  /** Both payloads are of the same schema. */
  predicate SameKind(p: Payload, q: Payload)
  {
    && p.NoDataP? == q.NoDataP? && p.ClearAnnotationsP? == q.ClearAnnotationsP?
    && p.AnchorAnnotationP? == q.AnchorAnnotationP? && p.StartAnnotationP? == q.StartAnnotationP?
    && p.AnchoringDataStatusP? == q.AnchoringDataStatusP? && p.DefaultByteArrayP? == q.DefaultByteArrayP?
    && p.AnnotationStrokeP? == q.AnnotationStrokeP? && p.AnnotationTextP? == q.AnnotationTextP?
    && p.AnnotationP? == q.AnnotationP? && p.RotationP? == q.RotationP?
    && p.IdentTabletP? == q.IdentTabletP? && p.LassoP? == q.LassoP?
    && p.VTKDatasetP? == q.VTKDatasetP? && p.MappedIdxP? == q.MappedIdxP?
  }

  /** pushValue, dispatched on the dynamic type. A pushed value never
   *  changes which schema the payload belongs to, and a rejected value
   *  changes nothing, except in an annotation, whose sub-record is
   *  created and closed around the push whether or not it accepts. */
  function Push(p: Payload, cursor: uint32, v: Value): (r: (bool, Payload))
    ensures SameKind(r.1, p)
    ensures !r.0 && !p.AnnotationP? ==> r.1 == p
  {
    match p
    case NoDataP(x) => var r := x.Push(cursor, v); (r.0, NoDataP(r.1))
    case ClearAnnotationsP(x) => var r := x.Push(cursor, v); (r.0, ClearAnnotationsP(r.1))
    case AnchorAnnotationP(x) => var r := x.Push(cursor, v); (r.0, AnchorAnnotationP(r.1))
    case StartAnnotationP(x) => var r := x.Push(cursor, v); (r.0, StartAnnotationP(r.1))
    case AnchoringDataStatusP(x) => var r := x.Push(cursor, v); (r.0, AnchoringDataStatusP(r.1))
    case DefaultByteArrayP(x) => var r := x.Push(cursor, v); (r.0, DefaultByteArrayP(r.1))
    case AnnotationStrokeP(x) => var r := x.Push(cursor, v); (r.0, AnnotationStrokeP(r.1))
    case AnnotationTextP(x) => var r := x.Push(cursor, v); (r.0, AnnotationTextP(r.1))
    case AnnotationP(x) => var r := x.Push(cursor, v); (r.0, AnnotationP(r.1))
    case RotationP(x) => var r := x.Push(cursor, v); (r.0, RotationP(r.1))
    case IdentTabletP(x) => var r := x.Push(cursor, v); (r.0, IdentTabletP(r.1))
    case LassoP(x) => var r := x.Push(cursor, v); (r.0, LassoP(r.1))
    case VTKDatasetP(x) => var r := x.Push(cursor, v); (r.0, VTKDatasetP(r.1))
    case MappedIdxP(x) => var r := x.Push(cursor, v); (r.0, MappedIdxP(r.1))
  }

  /** The socket's completion test: the message is complete when the
   *  cursor, as a uint32_t, equals getMaxCursor()+1. */
  predicate Complete(p: Payload, cursor: int)
  {
    CompleteWith(PAYLOADS, p, cursor)
  }

  /** The three virtual operations the socket calls on a schema of type S. */
  datatype Schema<!S> = Schema(
    typeAt: (S, uint32) -> char,
    push: (S, uint32, Value) -> (bool, S),
    maxCursor: S -> int32)

  /** The modelled schemas, dispatched on the payload's variant. */
  const PAYLOADS: Schema<Payload> := Schema(TypeAt, Push, MaxCursor)

  predicate CompleteWith<S>(sc: Schema<S>, p: S, cursor: int)
  {
    Wrap32(cursor) == Wrap32(sc.maxCursor(p) + 1)
  }

  /** A value as it travels on the wire, with its type code. */
  datatype Field =
    | UInt32Field(u: uint32)
    | UInt16Field(w: uint16)
    | FloatField(x: Float)
    | StringField(s: seq<byte>)

  function Code(f: Field): char
  {
    match f
    case UInt32Field(_) => CODE_UINT32
    case UInt16Field(_) => CODE_UINT16
    case FloatField(_) => CODE_FLOAT
    case StringField(_) => CODE_STRING
  }

  /** The overload a field reaches: a uint16 goes through the base class's
   *  uint16_t overload. */
  function ValueOf(f: Field): Value
  {
    match f
    case UInt32Field(u) => UInt32(u)
    case UInt16Field(w) => Widen(U16(w))
    case FloatField(x) => Float32(x)
    case StringField(s) => Str(s)
  }

  /** Delivers `fs` at cursors `cursor`, `cursor`+1, ... as the socket does:
   *  each field must be of the type the schema announces and be accepted,
   *  and the schema must not declare itself complete before the last
   *  field. None when the socket would report an error or stop early. */
  function DeliverWith<S>(sc: Schema<S>, p: S, cursor: nat, fs: seq<Field>): Option<S>
    decreases |fs|
  {
    if fs == [] then Some(p)
    else if sc.typeAt(p, Wrap32(cursor)) != Code(fs[0]) then None
    else
      var r := sc.push(p, Wrap32(cursor), ValueOf(fs[0]));
      if !r.0 then None
      else if |fs| > 1 && CompleteWith(sc, r.1, cursor + 1) then None
      else DeliverWith(sc, r.1, cursor + 1, fs[1..])
  }

  /** Deliver on the modelled schemas. */
  function Deliver(p: Payload, cursor: nat, fs: seq<Field>): Option<Payload>
  {
    DeliverWith(PAYLOADS, p, cursor, fs)
  }

  /** `fs` is exactly one message of schema `p`, which it turns into `q`. */
  predicate Parses(p: Payload, fs: seq<Field>, q: Payload)
  {
    |fs| >= 1 && Deliver(p, 0, fs) == Some(q) && Complete(q, |fs|)
  }

  /** One step of delivery, for a field the schema announces and accepts. */
  lemma DeliverStepWith<S>(sc: Schema<S>, p: S, cursor: nat, fs: seq<Field>, q: S)
    requires fs != [] && sc.typeAt(p, Wrap32(cursor)) == Code(fs[0])
    requires sc.push(p, Wrap32(cursor), ValueOf(fs[0])) == (true, q)
    requires |fs| > 1 ==> !CompleteWith(sc, q, cursor + 1)
    ensures DeliverWith(sc, p, cursor, fs) == DeliverWith(sc, q, cursor + 1, fs[1..])
  {
  }

  lemma DeliverStep(p: Payload, cursor: nat, fs: seq<Field>, q: Payload)
    requires fs != [] && TypeAt(p, Wrap32(cursor)) == Code(fs[0])
    requires Push(p, Wrap32(cursor), ValueOf(fs[0])) == (true, q)
    requires |fs| > 1 ==> !Complete(q, cursor + 1)
    ensures Deliver(p, cursor, fs) == Deliver(q, cursor + 1, fs[1..])
  {
    DeliverStepWith(PAYLOADS, p, cursor, fs, q);
  }

  /** Delivering two pieces in turn is delivering them together. */
  lemma {:induction false} DeliverAppendWith<S>(sc: Schema<S>, p: S, cursor: nat, fs: seq<Field>, gs: seq<Field>, q: S)
    requires DeliverWith(sc, p, cursor, fs) == Some(q)
    requires gs != [] && fs != [] ==> !CompleteWith(sc, q, cursor + |fs|)
    ensures DeliverWith(sc, p, cursor, fs + gs) == DeliverWith(sc, q, cursor + |fs|, gs)
    decreases |fs|
  {
    if fs == [] {
      assert fs + gs == gs;
    } else {
      var r := sc.push(p, Wrap32(cursor), ValueOf(fs[0]));
      assert (fs + gs)[0] == fs[0];
      assert (fs + gs)[1..] == fs[1..] + gs;
      if |fs| == 1 {
        assert fs[1..] == [] && fs + gs == [fs[0]] + gs;
        DeliverStepWith(sc, p, cursor, fs + gs, q);
      } else {
        DeliverAppendWith(sc, r.1, cursor + 1, fs[1..], gs, q);
        DeliverStepWith(sc, p, cursor, fs + gs, r.1);
      }
    }
  }

  /** A delivery from the start, followed by a delivery from where it
   *  ended, is one delivery. */
  lemma DeliverAfter<S>(sc: Schema<S>, p: S, fs: seq<Field>, gs: seq<Field>, q: S, r: S)
    requires DeliverWith(sc, p, 0, fs) == Some(q)
    requires DeliverWith(sc, q, |fs|, gs) == Some(r)
    requires gs != [] ==> !CompleteWith(sc, q, |fs|)
    ensures DeliverWith(sc, p, 0, fs + gs) == Some(r)
  {
    DeliverThen(sc, p, 0, fs, gs, q, r);
  }

  /** A delivery that ends in q, followed by one from q, is one delivery. */
  lemma DeliverThen<S>(sc: Schema<S>, p: S, cursor: nat, fs: seq<Field>, gs: seq<Field>, q: S, r: S)
    requires DeliverWith(sc, p, cursor, fs) == Some(q)
    requires DeliverWith(sc, q, cursor + |fs|, gs) == Some(r)
    requires gs != [] && fs != [] ==> !CompleteWith(sc, q, cursor + |fs|)
    ensures DeliverWith(sc, p, cursor, fs + gs) == Some(r)
  {
    DeliverAppendWith(sc, p, cursor, fs, gs, q);
  }

  lemma DeliverAppend(p: Payload, cursor: nat, fs: seq<Field>, gs: seq<Field>, q: Payload)
    requires Deliver(p, cursor, fs) == Some(q)
    requires gs != [] && fs != [] ==> !Complete(q, cursor + |fs|)
    ensures Deliver(p, cursor, fs + gs) == Deliver(q, cursor + |fs|, gs)
  {
    DeliverAppendWith(PAYLOADS, p, cursor, fs, gs, q);
  }

  /** The schema in state p announces the type of f at `cursor` and,
   *  given f's value, moves to state q. */
  ghost predicate Step<S>(sc: Schema<S>, p: S, cursor: nat, f: Field, q: S)
  {
    sc.typeAt(p, Wrap32(cursor)) == Code(f) && sc.push(p, Wrap32(cursor), ValueOf(f)) == (true, q)
  }

  /** One accepted field. */
  lemma DeliverOne<S>(sc: Schema<S>, p: S, cursor: nat, f: Field, q: S)
    requires Step(sc, p, cursor, f, q)
    ensures DeliverWith(sc, p, cursor, [f]) == Some(q)
  {
    DeliverStepWith(sc, p, cursor, [f], q);
  }

  /** Four accepted fields, the first three leaving the message incomplete. */
  lemma DeliverFour<S>(sc: Schema<S>, p0: S, p1: S, p2: S, p3: S, p4: S, cursor: nat, f0: Field, f1: Field, f2: Field, f3: Field)
    requires Step(sc, p0, cursor, f0, p1) && !CompleteWith(sc, p1, cursor + 1)
    requires Step(sc, p1, cursor + 1, f1, p2) && !CompleteWith(sc, p2, cursor + 2)
    requires Step(sc, p2, cursor + 2, f2, p3) && !CompleteWith(sc, p3, cursor + 3)
    requires Step(sc, p3, cursor + 3, f3, p4)
    ensures DeliverWith(sc, p0, cursor, [f0, f1, f2, f3]) == Some(p4)
  {
    var fs := [f0, f1, f2, f3];
    DeliverThreeSteps(sc, p0, p1, p2, p3, cursor, fs);
    assert fs[3..] == [f3];
    DeliverOne(sc, p3, cursor + 3, f3, p4);
  }

  /** A delivered prefix of fs, extended by the next field. */
  lemma DeliverExtend<S>(sc: Schema<S>, p0: S, fs: seq<Field>, k: nat, p: S, q: S)
    requires 1 <= k < |fs|
    requires DeliverWith(sc, p0, 0, fs[..k]) == Some(p)
    requires Step(sc, p, k, fs[k], q) && !CompleteWith(sc, p, k)
    ensures DeliverWith(sc, p0, 0, fs[..k + 1]) == Some(q)
  {
    DeliverOne(sc, p, k, fs[k], q);
    DeliverThen(sc, p0, 0, fs[..k], [fs[k]], p, q);
    assert fs[..k] + [fs[k]] == fs[..k + 1];
  }

  /** Two accepted fields, the first leaving the message incomplete. */
  lemma DeliverTwo<S>(sc: Schema<S>, p0: S, p1: S, p2: S, cursor: nat, fs: seq<Field>)
    requires |fs| >= 2
    requires Step(sc, p0, cursor, fs[0], p1) && !CompleteWith(sc, p1, cursor + 1)
    requires Step(sc, p1, cursor + 1, fs[1], p2)
    requires |fs| > 2 ==> !CompleteWith(sc, p2, cursor + 2)
    ensures DeliverWith(sc, p0, cursor, fs) == DeliverWith(sc, p2, cursor + 2, fs[2..])
  {
    DeliverStepWith(sc, p0, cursor, fs, p1);
    DeliverStepWith(sc, p1, cursor + 1, fs[1..], p2);
    assert fs[1..][1..] == fs[2..];
  }

  /** Three accepted fields, the first two leaving the message incomplete. */
  lemma DeliverThreeSteps<S>(sc: Schema<S>, p0: S, p1: S, p2: S, p3: S, cursor: nat, fs: seq<Field>)
    requires |fs| >= 3
    requires Step(sc, p0, cursor, fs[0], p1) && !CompleteWith(sc, p1, cursor + 1)
    requires Step(sc, p1, cursor + 1, fs[1], p2) && !CompleteWith(sc, p2, cursor + 2)
    requires Step(sc, p2, cursor + 2, fs[2], p3)
    requires |fs| > 3 ==> !CompleteWith(sc, p3, cursor + 3)
    ensures DeliverWith(sc, p0, cursor, fs) == DeliverWith(sc, p3, cursor + 3, fs[3..])
  {
    DeliverStepWith(sc, p0, cursor, fs, p1);
    DeliverTwo(sc, p1, p2, p3, cursor + 1, fs[1..]);
    assert fs[1..][2..] == fs[3..];
  }

  /** The schema's state after a push, whether accepted or not. */
  function Pushed<S>(sc: Schema<S>, p: S, cursor: uint32, v: Value): S
  {
    sc.push(p, cursor, v).1
  }

  /** What a successful delivery says about its first field. */
  lemma DeliverFirst<S>(sc: Schema<S>, p: S, cursor: nat, fs: seq<Field>, y: S)
    requires fs != [] && DeliverWith(sc, p, cursor, fs) == Some(y)
    ensures var q := Pushed(sc, p, Wrap32(cursor), ValueOf(fs[0]));
            && Step(sc, p, cursor, fs[0], q)
            && (|fs| > 1 ==> !CompleteWith(sc, q, cursor + 1))
            && DeliverWith(sc, q, cursor + 1, fs[1..]) == Some(y)
  {
  }

  /** A schema that follows another through f delivers what the other
   *  delivers, seen through f. */
  lemma {:induction false} DeliverMap<S, T>(a: Schema<S>, b: Schema<T>, f: S -> T, p: S, cursor: nat, fs: seq<Field>)
    requires forall x, c :: b.typeAt(f(x), c) == a.typeAt(x, c)
    requires forall x, c, v :: b.push(f(x), c, v) == (a.push(x, c, v).0, f(a.push(x, c, v).1))
    requires forall x :: b.maxCursor(f(x)) == a.maxCursor(x)
    ensures DeliverWith(b, f(p), cursor, fs)
         == (if DeliverWith(a, p, cursor, fs).Some? then Some(f(DeliverWith(a, p, cursor, fs).value)) else None)
    decreases |fs|
  {
    if fs != [] {
      var r := a.push(p, Wrap32(cursor), ValueOf(fs[0]));
      var next := Pushed(a, p, Wrap32(cursor), ValueOf(fs[0]));
      assert b.typeAt(f(p), Wrap32(cursor)) == a.typeAt(p, Wrap32(cursor));
      assert b.push(f(p), Wrap32(cursor), ValueOf(fs[0])) == (r.0, f(next));
      assert b.maxCursor(f(next)) == a.maxCursor(next);
      DeliverMap(a, b, f, next, cursor + 1, fs[1..]);
    }
  }
}
