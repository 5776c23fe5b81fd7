/** The fixed-layout message schemas: each expects a fixed sequence of
 *  typed values and stores each at a fixed place. */
module SimpleInfo {
  import opened Common
  import opened DataValues

  type Vec3 = s: seq<Float> | |s| == 3 witness [FLOAT_ZERO, FLOAT_ZERO, FLOAT_ZERO]
  type Quaternion = s: seq<Float> | |s| == 4 witness [FLOAT_ZERO, FLOAT_ZERO, FLOAT_ZERO, FLOAT_ZERO]

  /** No data expected yet: announces uint32 everywhere, accepts nothing and
   *  is complete before its first value. */
  datatype NoDataInformation = NoDataInformation(kind: uint32)
  {
    function TypeAt(cursor: uint32): char { CODE_UINT32 }
    function MaxCursor(): int32 { -1 }
    function Push(cursor: uint32, v: Value): (bool, NoDataInformation) { (false, this) }
  }

  /** Clear the annotations of a subdataset: two ids. */
  datatype ClearAnnotations = ClearAnnotations(datasetID: int32, subDatasetID: int32)
  {
    function TypeAt(cursor: uint32): char
    {
      if cursor <= 1 then CODE_UINT32 else CODE_NONE
    }

    function MaxCursor(): int32 { 1 }

    function Push(cursor: uint32, v: Value): (r: (bool, ClearAnnotations))
      ensures r.0 <==> v.UInt32? && cursor <= 1
      ensures !r.0 ==> r.1 == this
    {
      match v
      case UInt32(n) =>
        if cursor == 0 then (true, this.(datasetID := ToInt32(n)))
        else if cursor == 1 then (true, this.(subDatasetID := ToInt32(n)))
        else (false, this)
      case _ => (false, this)
    }
  }

  const BLANK_CLEAR_ANNOTATIONS: ClearAnnotations := ClearAnnotations(0, -1)

  /** Anchor an annotation: two ids then a three-float local position. The
   *  annotation and headset ids are set by the server, never received. */
  datatype AnchorAnnotation = AnchorAnnotation(
    datasetID: int32, subDatasetID: int32, annotationID: int32, headsetID: int32,
    localPos: Vec3)
  {
    function TypeAt(cursor: uint32): char
    {
      if cursor <= 1 then CODE_UINT32
      else if cursor <= 4 then CODE_FLOAT
      else CODE_NONE
    }

    function MaxCursor(): int32 { 4 }

    function Push(cursor: uint32, v: Value): (r: (bool, AnchorAnnotation))
      ensures r.0 <==> (v.UInt32? && cursor <= 1) || (v.Float32? && 2 <= cursor <= 4)
      ensures !r.0 ==> r.1 == this
      ensures r.1.annotationID == annotationID && r.1.headsetID == headsetID
    {
      match v
      case UInt32(n) =>
        if cursor == 0 then (true, this.(datasetID := ToInt32(n)))
        else if cursor == 1 then (true, this.(subDatasetID := ToInt32(n)))
        else (false, this)
      case Float32(f) =>
        if 2 <= cursor <= 4 then (true, this.(localPos := localPos[cursor - 2 := f]))
        else (false, this)
      case _ => (false, this)
    }
  }

  /** localPos is left uninitialised by the C++ constructor; zero here. */
  const BLANK_ANCHOR_ANNOTATION: AnchorAnnotation :=
    AnchorAnnotation(0, -1, -1, -1, [FLOAT_ZERO, FLOAT_ZERO, FLOAT_ZERO])

  /** Start an annotation: two ids and the pointing technique. */
  datatype StartAnnotation = StartAnnotation(datasetID: int32, subDatasetID: int32, pointingID: int32)
  {
    function TypeAt(cursor: uint32): char
    {
      if cursor <= 2 then CODE_UINT32 else CODE_NONE
    }

    function MaxCursor(): int32 { 2 }

    function Push(cursor: uint32, v: Value): (r: (bool, StartAnnotation))
      ensures r.0 <==> v.UInt32? && cursor <= 2
      ensures !r.0 ==> r.1 == this
    {
      match v
      case UInt32(n) =>
        if cursor == 0 then (true, this.(datasetID := ToInt32(n)))
        else if cursor == 1 then (true, this.(subDatasetID := ToInt32(n)))
        else if cursor == 2 then (true, this.(pointingID := ToInt32(n)))
        else (false, this)
      case _ => (false, this)
    }
  }

  const BLANK_START_ANNOTATION: StartAnnotation := StartAnnotation(0, -1, 0)

  /** Whether anchoring data succeeded. It announces the type code 'b',
   *  which the client socket has no reader for. */
  datatype AnchoringDataStatus = AnchoringDataStatus(succeed: bool)
  {
    function TypeAt(cursor: uint32): char
    {
      if cursor == 0 then 'b' else CODE_NONE
    }

    function MaxCursor(): int32 { 0 }

    function Push(cursor: uint32, v: Value): (r: (bool, AnchoringDataStatus))
      ensures r.0 <==> v.UInt32? && cursor == 0
      ensures r.0 ==> (r.1.succeed <==> v.n != 0)
      ensures !r.0 ==> r.1 == this
    {
      match v
      case UInt32(n) =>
        if cursor == 0 then (true, AnchoringDataStatus(n != 0)) else (false, this)
      case _ => (false, this)
    }
  }

  const BLANK_ANCHORING_DATA_STATUS: AnchoringDataStatus := AnchoringDataStatus(false)

  /** A raw byte array with its size. */
  datatype DefaultByteArray = DefaultByteArray(kind: uint32, data: seq<byte>, dataSize: uint32)
  {
    function TypeAt(cursor: uint32): char
    {
      if cursor == 0 then 'a' else CODE_NONE
    }

    function MaxCursor(): int32 { 0 }

    function Push(cursor: uint32, v: Value): (r: (bool, DefaultByteArray))
      ensures r.0 <==> v.ByteArray? && cursor == 0
      ensures r.0 ==> r.1 == DefaultByteArray(kind, v.data, v.size)
      ensures !r.0 ==> r.1 == this
    {
      match v
      case ByteArray(d, n) =>
        if cursor == 0 then (true, this.(data := d, dataSize := n)) else (false, this)
      case _ => (false, this)
    }
  }

  /** The type is initialised with -1 converted to uint32_t. */
  const BLANK_DEFAULT_BYTE_ARRAY: DefaultByteArray := DefaultByteArray(0xFFFF_FFFF, [], 0)

  /** Rotate a subdataset: two ids then a quaternion. */
  datatype RotationInformation = RotationInformation(
    datasetID: uint32, subDatasetID: uint32, quaternion: Quaternion, headsetID: int32)
  {
    function TypeAt(cursor: uint32): char
    {
      if cursor < 2 then CODE_UINT32
      else if cursor < 6 then CODE_FLOAT
      else CODE_NONE
    }

    function MaxCursor(): int32 { 5 }

    function Push(cursor: uint32, v: Value): (r: (bool, RotationInformation))
      ensures r.0 <==> (v.UInt32? && cursor < 2) || (v.Float32? && 2 <= cursor < 6)
      ensures !r.0 ==> r.1 == this
      ensures r.1.headsetID == headsetID
    {
      match v
      case UInt32(n) =>
        if cursor == 0 then (true, this.(datasetID := n))
        else if cursor == 1 then (true, this.(subDatasetID := n))
        else (false, this)
      case Float32(f) =>
        if 2 <= cursor < 6 then (true, this.(quaternion := quaternion[cursor - 2 := f]))
        else (false, this)
      case _ => (false, this)
    }
  }

  /** The ids and the quaternion are left uninitialised in C++; zero here. */
  const BLANK_ROTATION: RotationInformation :=
    RotationInformation(0, 0, [FLOAT_ZERO, FLOAT_ZERO, FLOAT_ZERO, FLOAT_ZERO], -1)

  /** What a tablet sends to identify itself: the IP of the headset it is
   *  bound to, the user's handedness and the tablet id. */
  datatype IdentTabletInformation = IdentTabletInformation(
    headsetIP: seq<byte>, handedness: uint32, tabletID: uint32, paired: bool)
  {
    function TypeAt(cursor: uint32): char
    {
      if cursor == 0 then CODE_STRING
      else if cursor == 1 || cursor == 2 then CODE_UINT32
      else CODE_NONE
    }

    function MaxCursor(): int32 { 2 }

    function Push(cursor: uint32, v: Value): (r: (bool, IdentTabletInformation))
      ensures r.0 <==> (v.Str? && cursor == 0) || (v.UInt32? && 1 <= cursor <= 2)
      ensures !r.0 ==> r.1 == this
      ensures r.1.paired == paired
    {
      match v
      case Str(s) =>
        if cursor == 0 then (true, this.(headsetIP := s)) else (false, this)
      case UInt32(n) =>
        if cursor == 1 then (true, this.(handedness := n))
        else if cursor == 2 then (true, this.(tabletID := n))
        else (false, this)
      case _ => (false, this)
    }
  }

  const BLANK_IDENT_TABLET: IdentTabletInformation := IdentTabletInformation([], 0, 0, false)
}
