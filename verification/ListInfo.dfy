/** The message schemas whose length is announced inside the message: a
 *  count received first decides how many values follow. */
module ListInfo {
  import opened Common
  import opened DataValues

  /** A lasso: the number of floats, then the floats. */
  datatype Lasso = Lasso(data: seq<Float>, size: uint32)
  {
    function TypeAt(cursor: uint32): char
    {
      if cursor == 0 then CODE_UINT32
      else if cursor <= size then CODE_FLOAT
      else CODE_NONE
    }

    function MaxCursor(): int32 { ToInt32(size) }

    function Push(cursor: uint32, v: Value): (r: (bool, Lasso))
      ensures r.0 <==> (v.UInt32? && cursor == 0) || (v.Float32? && 0 < cursor <= size)
      ensures !r.0 ==> r.1 == this
      ensures r.0 && v.Float32? ==> r.1 == Lasso(data + [v.f], size)
    {
      match v
      case UInt32(n) => if cursor == 0 then (true, this.(size := n)) else (false, this)
      case Float32(f) => if cursor > 0 && cursor <= size then (true, this.(data := data + [f])) else (false, this)
      case _ => (false, this)
    }
  }

  const BLANK_LASSO: Lasso := Lasso([], 0)

  /** A VTK dataset to open: its name, the number of point fields and their
   *  indices, then the number of cell fields and their indices. */
  datatype VTKDatasetInformation = VTKDatasetInformation(
    name: seq<byte>, nbPtFields: uint32, nbCellFields: uint32,
    ptFields: seq<uint32>, cellFields: seq<uint32>)
  {
    function TypeAt(cursor: uint32): char
    {
      if cursor == 0 then CODE_STRING else CODE_UINT32
    }

    function MaxCursor(): int32 { ToInt32(Wrap32(2 + nbPtFields + nbCellFields)) }

    /** Any uint32_t that is not the point count, a point index or the cell
     *  count is appended to the cell indices: the overload never fails. */
    function Push(cursor: uint32, v: Value): (r: (bool, VTKDatasetInformation))
      ensures r.0 <==> (v.Str? && cursor == 0) || v.UInt32?
      ensures !r.0 ==> r.1 == this
      ensures v.UInt32? ==> r.1.name == name
    {
      match v
      case Str(s) => if cursor == 0 then (true, this.(name := s)) else (false, this)
      case UInt32(n) =>
        if cursor == 1 then (true, this.(nbPtFields := n))
        else if cursor > 1 && cursor < Wrap32(nbPtFields + 2) then (true, this.(ptFields := ptFields + [n]))
        else if cursor == Wrap32(nbPtFields + 2) then (true, this.(nbCellFields := n))
        else (true, this.(cellFields := cellFields + [n]))
      case _ => (false, this)
    }
  }

  const BLANK_VTK_DATASET: VTKDatasetInformation := VTKDatasetInformation([], 0, 0, [], [])

  /** std::vector::resize: keep the first n elements, pad with zeros. */
  function Resize(s: seq<uint32>, n: nat): (r: seq<uint32>)
    ensures |r| == n
    ensures forall i :: 0 <= i < n && i < |s| ==> r[i] == s[i]
    ensures forall i :: |s| <= i < n ==> r[i] == 0
  {
    if n <= |s| then s[..n] else s + seq(n - |s|, _ => 0)
  }

  /** The mapping of a drawable's annotation positions: three ids, the
   *  number of indices, then the indices. */
  datatype SetDrawableAnnotationPositionMappedIdx = SetDrawableAnnotationPositionMappedIdx(
    datasetID: uint32, subDatasetID: uint32, drawableID: uint32, idx: seq<uint32>)
  {
    function TypeAt(cursor: uint32): char
    {
      if cursor < 4 + |idx| then CODE_UINT32 else CODE_NONE
    }

    function MaxCursor(): int32 { ToInt32(Wrap32(3 + |idx|)) }

    function Push(cursor: uint32, v: Value): (r: (bool, SetDrawableAnnotationPositionMappedIdx))
      ensures r.0 <==> v.UInt32? && (cursor <= 3 || cursor < 4 + |idx|)
      ensures !r.0 ==> r.1 == this
      ensures r.0 && 4 <= cursor ==> r.1 == this.(idx := idx[cursor - 4 := v.n])
    {
      match v
      case UInt32(n) =>
        if cursor == 0 then (true, this.(datasetID := n))
        else if cursor == 1 then (true, this.(subDatasetID := n))
        else if cursor == 2 then (true, this.(drawableID := n))
        else if cursor == 3 then (true, this.(idx := Resize(idx, n)))
        else if cursor < 4 + |idx| then (true, this.(idx := idx[cursor - 4 := n]))
        else (false, this)
      case _ => (false, this)
    }
  }

  /** The ids are left uninitialised in C++; zero here. */
  const BLANK_MAPPED_IDX: SetDrawableAnnotationPositionMappedIdx :=
    SetDrawableAnnotationPositionMappedIdx(0, 0, 0, [])
}
