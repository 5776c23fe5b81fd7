/** What each schema accepts on the wire: the fields a sender writes for a
 *  record are parsed back into that record, and the message is complete
 *  exactly after its last field. */
module SchemaWire {
  import opened Common
  import opened DataValues
  import opened SimpleInfo
  import opened AnnotationInfo
  import opened ListInfo
  import opened DataInformation

  function FloatFields(s: seq<Float>): (r: seq<Field>)
    ensures |r| == |s| && forall i :: 0 <= i < |s| ==> r[i] == FloatField(s[i])
  {
    seq(|s|, i requires 0 <= i < |s| => FloatField(s[i]))
  }

  function UInt32Fields(s: seq<uint32>): (r: seq<Field>)
    ensures |r| == |s| && forall i :: 0 <= i < |s| ==> r[i] == UInt32Field(s[i])
  {
    seq(|s|, i requires 0 <= i < |s| => UInt32Field(s[i]))
  }

  // ---------------------------------------------------------------- fixed layouts

  function ClearAnnotationsFields(c: ClearAnnotations): seq<Field>
  {
    [UInt32Field(Wrap32(c.datasetID)), UInt32Field(Wrap32(c.subDatasetID))]
  }

  lemma ClearAnnotationsWire(c: ClearAnnotations)
    ensures Parses(ClearAnnotationsP(BLANK_CLEAR_ANNOTATIONS), ClearAnnotationsFields(c), ClearAnnotationsP(c))
  {
    ToInt32Wrap32(c.datasetID);
    ToInt32Wrap32(c.subDatasetID);
    var fs := ClearAnnotationsFields(c);
    var p0 := ClearAnnotationsP(BLANK_CLEAR_ANNOTATIONS);
    var p1 := ClearAnnotationsP(BLANK_CLEAR_ANNOTATIONS.(datasetID := c.datasetID));
    assert DeliverWith(PAYLOADS, p1, 1, fs[1..]) == Some(ClearAnnotationsP(c));
  }

  function AnchorAnnotationFields(a: AnchorAnnotation): seq<Field>
  {
    [UInt32Field(Wrap32(a.datasetID)), UInt32Field(Wrap32(a.subDatasetID))]
      + FloatFields(a.localPos)
  }

  /** The anchor's ids and position are received; the annotation and
   *  headset ids keep their initial -1. */
  lemma AnchorAnnotationWire(a: AnchorAnnotation)
    ensures Parses(AnchorAnnotationP(BLANK_ANCHOR_ANNOTATION), AnchorAnnotationFields(a),
                   AnchorAnnotationP(a.(annotationID := -1, headsetID := -1)))
  {
    ToInt32Wrap32(a.datasetID);
    ToInt32Wrap32(a.subDatasetID);
    var fs := AnchorAnnotationFields(a);
    var b := BLANK_ANCHOR_ANNOTATION;
    var b1 := b.(datasetID := a.datasetID);
    var b2 := b1.(subDatasetID := a.subDatasetID);
    var b3 := b2.(localPos := b2.localPos[0 := a.localPos[0]]);
    var b4 := b3.(localPos := b3.localPos[1 := a.localPos[1]]);
    var b5 := b4.(localPos := b4.localPos[2 := a.localPos[2]]);
    assert b5 == a.(annotationID := -1, headsetID := -1);
    assert DeliverWith(PAYLOADS, AnchorAnnotationP(b4), 4, fs[4..]) == Some(AnchorAnnotationP(b5));
    assert DeliverWith(PAYLOADS, AnchorAnnotationP(b3), 3, fs[3..]) == Some(AnchorAnnotationP(b5));
    assert DeliverWith(PAYLOADS, AnchorAnnotationP(b2), 2, fs[2..]) == Some(AnchorAnnotationP(b5));
    assert DeliverWith(PAYLOADS, AnchorAnnotationP(b1), 1, fs[1..]) == Some(AnchorAnnotationP(b5));
  }

  function StartAnnotationFields(s: StartAnnotation): seq<Field>
  {
    [UInt32Field(Wrap32(s.datasetID)), UInt32Field(Wrap32(s.subDatasetID)), UInt32Field(Wrap32(s.pointingID))]
  }

  lemma StartAnnotationWire(s: StartAnnotation)
    ensures Parses(StartAnnotationP(BLANK_START_ANNOTATION), StartAnnotationFields(s), StartAnnotationP(s))
  {
    ToInt32Wrap32(s.datasetID);
    ToInt32Wrap32(s.subDatasetID);
    ToInt32Wrap32(s.pointingID);
    var fs := StartAnnotationFields(s);
    var b1 := BLANK_START_ANNOTATION.(datasetID := s.datasetID);
    var b2 := b1.(subDatasetID := s.subDatasetID);
    assert DeliverWith(PAYLOADS, StartAnnotationP(b2), 2, fs[2..]) == Some(StartAnnotationP(s));
    assert DeliverWith(PAYLOADS, StartAnnotationP(b1), 1, fs[1..]) == Some(StartAnnotationP(s));
  }

  function RotationFields(r: RotationInformation): seq<Field>
  {
    [UInt32Field(r.datasetID), UInt32Field(r.subDatasetID)] + FloatFields(r.quaternion)
  }

  lemma RotationWire(r: RotationInformation)
    ensures Parses(RotationP(BLANK_ROTATION), RotationFields(r), RotationP(r.(headsetID := -1)))
  {
    var fs := RotationFields(r);
    var b1 := BLANK_ROTATION.(datasetID := r.datasetID);
    var b2 := b1.(subDatasetID := r.subDatasetID);
    var b3 := b2.(quaternion := b2.quaternion[0 := r.quaternion[0]]);
    var b4 := b3.(quaternion := b3.quaternion[1 := r.quaternion[1]]);
    var b5 := b4.(quaternion := b4.quaternion[2 := r.quaternion[2]]);
    var b6 := b5.(quaternion := b5.quaternion[3 := r.quaternion[3]]);
    assert b6 == r.(headsetID := -1);
    assert DeliverWith(PAYLOADS, RotationP(b5), 5, fs[5..]) == Some(RotationP(b6));
    assert DeliverWith(PAYLOADS, RotationP(b4), 4, fs[4..]) == Some(RotationP(b6));
    assert DeliverWith(PAYLOADS, RotationP(b3), 3, fs[3..]) == Some(RotationP(b6));
    assert DeliverWith(PAYLOADS, RotationP(b2), 2, fs[2..]) == Some(RotationP(b6));
    assert DeliverWith(PAYLOADS, RotationP(b1), 1, fs[1..]) == Some(RotationP(b6));
  }

  function IdentTabletFields(t: IdentTabletInformation): seq<Field>
  {
    [StringField(t.headsetIP), UInt32Field(t.handedness), UInt32Field(t.tabletID)]
  }

  /** Everything but `paired`, which the server sets, is received. */
  lemma IdentTabletWire(t: IdentTabletInformation)
    ensures Parses(IdentTabletP(BLANK_IDENT_TABLET), IdentTabletFields(t), IdentTabletP(t.(paired := false)))
  {
    var fs := IdentTabletFields(t);
    var b1 := BLANK_IDENT_TABLET.(headsetIP := t.headsetIP);
    var b2 := b1.(handedness := t.handedness);
    assert DeliverWith(PAYLOADS, IdentTabletP(b2), 2, fs[2..]) == Some(IdentTabletP(t.(paired := false)));
    assert DeliverWith(PAYLOADS, IdentTabletP(b1), 1, fs[1..]) == Some(IdentTabletP(t.(paired := false)));
  }

  /** A schema announcing the code 'b' cannot receive anything from the
   *  socket: no field carries that code. */
  lemma AnchoringDataStatusNeverReceived(fs: seq<Field>)
    requires fs != []
    ensures Deliver(AnchoringDataStatusP(BLANK_ANCHORING_DATA_STATUS), 0, fs) == None
  {
  }

  /** The no-data schema is complete before its first field and rejects
   *  every field. */
  lemma NoDataReceivesNothing(n: uint32, fs: seq<Field>)
    requires fs != []
    ensures Complete(NoDataP(NoDataInformation(n)), 0)
    ensures Deliver(NoDataP(NoDataInformation(n)), 0, fs) == None
  {
  }

  // ---------------------------------------------------------------- counted lists

  function LassoFields(l: Lasso): seq<Field>
  {
    [UInt32Field(l.size)] + FloatFields(l.data)
  }

  /** A lasso of n floats, announced with size n, is parsed back. */
  lemma LassoWire(data: seq<Float>)
    requires |data| < 0x7FFF_FFFF
    ensures Parses(LassoP(BLANK_LASSO), LassoFields(Lasso(data, |data|)), LassoP(Lasso(data, |data|)))
  {
    var l := Lasso(data, |data|);
    var fs := LassoFields(l);
    LassoTail(data, 0);
    assert fs[1..] == FloatFields(data)[0..];
  }

  lemma {:induction false} LassoTail(data: seq<Float>, k: nat)
    requires k <= |data| < 0x7FFF_FFFF
    ensures Deliver(LassoP(Lasso(data[..k], |data|)), k + 1, FloatFields(data)[k..])
         == Some(LassoP(Lasso(data, |data|)))
    decreases |data| - k
  {
    var fs := FloatFields(data)[k..];
    if k == |data| {
      assert data[..k] == data;
    } else {
      var p := LassoP(Lasso(data[..k], |data|));
      assert fs[0] == FloatField(data[k]);
      assert data[..k] + [data[k]] == data[..k + 1];
      var r := Push(p, Wrap32(k + 1), ValueOf(fs[0]));
      assert r == (true, LassoP(Lasso(data[..k + 1], |data|)));
      assert fs[1..] == FloatFields(data)[k + 1..];
      LassoTail(data, k + 1);
    }
  }

  function VTKDatasetFields(v: VTKDatasetInformation): seq<Field>
  {
    [StringField(v.name), UInt32Field(v.nbPtFields)] + UInt32Fields(v.ptFields)
      + [UInt32Field(v.nbCellFields)] + UInt32Fields(v.cellFields)
  }

  /** A dataset whose counts match its index lists is parsed back. */
  lemma VTKDatasetWire(name: seq<byte>, pt: seq<uint32>, cell: seq<uint32>)
    requires 2 + |pt| + |cell| < 0x7FFF_FFFF
    ensures var v := VTKDatasetInformation(name, |pt|, |cell|, pt, cell);
            Parses(VTKDatasetP(BLANK_VTK_DATASET), VTKDatasetFields(v), VTKDatasetP(v))
  {
    var v := VTKDatasetInformation(name, |pt|, |cell|, pt, cell);
    var front := [StringField(name), UInt32Field(|pt|)] + UInt32Fields(pt) + [UInt32Field(|cell|)];
    var b4 := VTKDatasetP(VTKDatasetInformation(name, |pt|, |cell|, pt, []));
    VTKFront(name, pt, |cell|);
    VTKCells(name, pt, cell);
    DeliverAppend(VTKDatasetP(BLANK_VTK_DATASET), 0, front, UInt32Fields(cell), b4);
    assert front + UInt32Fields(cell) == VTKDatasetFields(v);
  }

  /** The name, the point-field list and the cell count are parsed back. */
  lemma VTKFront(name: seq<byte>, pt: seq<uint32>, nbCell: nat)
    requires 2 + |pt| + nbCell < 0x7FFF_FFFF
    ensures Deliver(VTKDatasetP(BLANK_VTK_DATASET), 0, [StringField(name), UInt32Field(|pt|)] + UInt32Fields(pt) + [UInt32Field(nbCell)])
         == Some(VTKDatasetP(VTKDatasetInformation(name, |pt|, nbCell, pt, [])))
  {
    var head := [StringField(name), UInt32Field(|pt|)];
    var b2 := VTKDatasetP(VTKDatasetInformation(name, |pt|, 0, [], []));
    var b3 := VTKDatasetP(VTKDatasetInformation(name, |pt|, 0, pt, []));
    var blank := VTKDatasetP(BLANK_VTK_DATASET);
    VTKHead(name, |pt|, nbCell);
    VTKPoints(name, pt, nbCell);
    VTKCellCount(name, pt, nbCell);
    DeliverAppend(blank, 0, head, UInt32Fields(pt), b2);
    DeliverAppend(blank, 0, head + UInt32Fields(pt), [UInt32Field(nbCell)], b3);
  }

  lemma VTKHead(name: seq<byte>, nbPt: nat, nbCell: nat)
    requires 2 + nbPt + nbCell < 0x7FFF_FFFF
    ensures Deliver(VTKDatasetP(BLANK_VTK_DATASET), 0, [StringField(name), UInt32Field(nbPt)])
         == Some(VTKDatasetP(VTKDatasetInformation(name, nbPt, 0, [], [])))
    ensures !Complete(VTKDatasetP(VTKDatasetInformation(name, nbPt, 0, [], [])), 2)
  {
    var b1 := VTKDatasetInformation(name, 0, 0, [], []);
    var b2 := VTKDatasetInformation(name, nbPt, 0, [], []);
    assert DeliverWith(PAYLOADS, VTKDatasetP(b1), 1, [UInt32Field(nbPt)]) == Some(VTKDatasetP(b2));
  }

  lemma VTKPoints(name: seq<byte>, pt: seq<uint32>, nbCell: nat)
    requires 2 + |pt| + nbCell < 0x7FFF_FFFF
    ensures Deliver(VTKDatasetP(VTKDatasetInformation(name, |pt|, 0, [], [])), 2, UInt32Fields(pt))
         == Some(VTKDatasetP(VTKDatasetInformation(name, |pt|, 0, pt, [])))
    ensures !Complete(VTKDatasetP(VTKDatasetInformation(name, |pt|, 0, pt, [])), 2 + |pt|)
  {
    VTKPointTail(name, pt, nbCell, 0);
    assert pt[..0] == [] && UInt32Fields(pt)[0..] == UInt32Fields(pt);
  }

  lemma VTKCellCount(name: seq<byte>, pt: seq<uint32>, nbCell: nat)
    requires 2 + |pt| + nbCell < 0x7FFF_FFFF
    ensures Deliver(VTKDatasetP(VTKDatasetInformation(name, |pt|, 0, pt, [])), 2 + |pt|, [UInt32Field(nbCell)])
         == Some(VTKDatasetP(VTKDatasetInformation(name, |pt|, nbCell, pt, [])))
    ensures nbCell > 0 ==> !Complete(VTKDatasetP(VTKDatasetInformation(name, |pt|, nbCell, pt, [])), 3 + |pt|)
  {
    var v := VTKDatasetInformation(name, |pt|, 0, pt, []);
    assert DeliverWith(PAYLOADS, VTKDatasetP(v), 2 + |pt|, [UInt32Field(nbCell)])
        == Some(VTKDatasetP(v.(nbCellFields := nbCell)));
  }

  lemma VTKCells(name: seq<byte>, pt: seq<uint32>, cell: seq<uint32>)
    requires 2 + |pt| + |cell| < 0x7FFF_FFFF
    ensures Deliver(VTKDatasetP(VTKDatasetInformation(name, |pt|, |cell|, pt, [])), 3 + |pt|, UInt32Fields(cell))
         == Some(VTKDatasetP(VTKDatasetInformation(name, |pt|, |cell|, pt, cell)))
    ensures Complete(VTKDatasetP(VTKDatasetInformation(name, |pt|, |cell|, pt, cell)), 3 + |pt| + |cell|)
  {
    VTKCellTail(name, pt, cell, 0);
    assert cell[..0] == [] && UInt32Fields(cell)[0..] == UInt32Fields(cell);
  }

  lemma {:induction false} VTKPointTail(name: seq<byte>, pt: seq<uint32>, nbCell: nat, k: nat)
    requires k <= |pt| && 2 + |pt| + nbCell < 0x7FFF_FFFF
    ensures Deliver(VTKDatasetP(VTKDatasetInformation(name, |pt|, 0, pt[..k], [])), 2 + k, UInt32Fields(pt)[k..])
         == Some(VTKDatasetP(VTKDatasetInformation(name, |pt|, 0, pt, [])))
    ensures k < |pt| ==> !Complete(VTKDatasetP(VTKDatasetInformation(name, |pt|, 0, pt, [])), 2 + |pt|)
    decreases |pt| - k
  {
    if k == |pt| {
      assert pt[..k] == pt;
    } else {
      var fs := UInt32Fields(pt)[k..];
      assert fs[0] == UInt32Field(pt[k]);
      assert pt[..k] + [pt[k]] == pt[..k + 1];
      assert fs[1..] == UInt32Fields(pt)[k + 1..];
      VTKPointTail(name, pt, nbCell, k + 1);
    }
  }

  lemma {:induction false} VTKCellTail(name: seq<byte>, pt: seq<uint32>, cell: seq<uint32>, k: nat)
    requires k <= |cell| && 2 + |pt| + |cell| < 0x7FFF_FFFF
    ensures Deliver(VTKDatasetP(VTKDatasetInformation(name, |pt|, |cell|, pt, cell[..k])), 3 + |pt| + k,
                    UInt32Fields(cell)[k..])
         == Some(VTKDatasetP(VTKDatasetInformation(name, |pt|, |cell|, pt, cell)))
    decreases |cell| - k
  {
    if k == |cell| {
      assert cell[..k] == cell;
    } else {
      VTKCellStep(name, pt, cell, k);
      VTKCellTail(name, pt, cell, k + 1);
    }
  }

  lemma VTKCellStep(name: seq<byte>, pt: seq<uint32>, cell: seq<uint32>, k: nat)
    requires k < |cell| && 2 + |pt| + |cell| < 0x7FFF_FFFF
    ensures Deliver(VTKDatasetP(VTKDatasetInformation(name, |pt|, |cell|, pt, cell[..k])), 3 + |pt| + k,
                    UInt32Fields(cell)[k..])
         == Deliver(VTKDatasetP(VTKDatasetInformation(name, |pt|, |cell|, pt, cell[..k + 1])), 3 + |pt| + (k + 1),
                    UInt32Fields(cell)[k + 1..])
  {
    var fs := UInt32Fields(cell)[k..];
    var cursor := 3 + |pt| + k;
    var v := VTKDatasetInformation(name, |pt|, |cell|, pt, cell[..k]);
    var next := VTKDatasetInformation(name, |pt|, |cell|, pt, cell[..k + 1]);
    assert fs[0] == UInt32Field(cell[k]);
    assert cell[..k] + [cell[k]] == cell[..k + 1];
    assert v.Push(cursor, UInt32(cell[k])) == (true, next);
    assert k + 1 < |cell| ==> !Complete(VTKDatasetP(next), cursor + 1);
    assert fs[1..] == UInt32Fields(cell)[k + 1..];
  }

  function MappedIdxFields(m: SetDrawableAnnotationPositionMappedIdx): seq<Field>
    requires |m.idx| < TWO_32
  {
    [UInt32Field(m.datasetID), UInt32Field(m.subDatasetID), UInt32Field(m.drawableID),
     UInt32Field(|m.idx|)] + UInt32Fields(m.idx)
  }

  /** The count resizes the index list to zeros, and each index then
   *  overwrites its slot: the list is received in full. */
  lemma MappedIdxWire(m: SetDrawableAnnotationPositionMappedIdx)
    requires |m.idx| < 0x7FFF_FFF0
    ensures Parses(MappedIdxP(BLANK_MAPPED_IDX), MappedIdxFields(m), MappedIdxP(m))
  {
    var n := |m.idx|;
    var head := [UInt32Field(m.datasetID), UInt32Field(m.subDatasetID), UInt32Field(m.drawableID), UInt32Field(n)];
    var b4 := m.(idx := Resize([], n));
    MappedIdxHead(m);
    MappedIdxTail(m, 0);
    assert m.idx[..0] + Resize([], n)[0..] == Resize([], n);
    assert UInt32Fields(m.idx)[0..] == UInt32Fields(m.idx);
    DeliverAppend(MappedIdxP(BLANK_MAPPED_IDX), 0, head, UInt32Fields(m.idx), MappedIdxP(b4));
    assert head + UInt32Fields(m.idx) == MappedIdxFields(m);
  }

  /** The three IDs and the count: the list is resized to that many
   *  zeros, and more values are expected when the count is not zero. */
  lemma MappedIdxHead(m: SetDrawableAnnotationPositionMappedIdx)
    requires |m.idx| < 0x7FFF_FFF0
    ensures var head := [UInt32Field(m.datasetID), UInt32Field(m.subDatasetID), UInt32Field(m.drawableID), UInt32Field(|m.idx|)];
            var b4 := m.(idx := Resize([], |m.idx|));
            Deliver(MappedIdxP(BLANK_MAPPED_IDX), 0, head) == Some(MappedIdxP(b4))
            && (|m.idx| > 0 ==> !Complete(MappedIdxP(b4), 4))
  {
    var n := |m.idx|;
    var head := [UInt32Field(m.datasetID), UInt32Field(m.subDatasetID), UInt32Field(m.drawableID), UInt32Field(n)];
    var b1 := BLANK_MAPPED_IDX.(datasetID := m.datasetID);
    var b2 := b1.(subDatasetID := m.subDatasetID);
    var b3 := b2.(drawableID := m.drawableID);
    var b4 := b3.(idx := Resize([], n));
    assert b4 == m.(idx := Resize([], n));
    DeliverFour(PAYLOADS, MappedIdxP(BLANK_MAPPED_IDX), MappedIdxP(b1), MappedIdxP(b2), MappedIdxP(b3), MappedIdxP(b4),
                0, head[0], head[1], head[2], head[3]);
  }

  lemma {:induction false} MappedIdxTail(m: SetDrawableAnnotationPositionMappedIdx, k: nat)
    requires k <= |m.idx| < 0x7FFF_FFF0
    ensures var partial := m.(idx := m.idx[..k] + Resize([], |m.idx|)[k..]);
            Deliver(MappedIdxP(partial), 4 + k, UInt32Fields(m.idx)[k..]) == Some(MappedIdxP(m))
    decreases |m.idx| - k
  {
    var zeros := Resize([], |m.idx|);
    var partial := m.(idx := m.idx[..k] + zeros[k..]);
    if k == |m.idx| {
      assert partial.idx == m.idx;
    } else {
      var fs := UInt32Fields(m.idx)[k..];
      var next := MappedIdxNext(m, k);
      DeliverStep(MappedIdxP(partial), 4 + k, fs, MappedIdxP(next));
      assert fs[1..] == UInt32Fields(m.idx)[k + 1..];
      MappedIdxTail(m, k + 1);
    }
  }

  /** Index k of the list is received, and the message is incomplete while
   *  more indices follow. */
  lemma MappedIdxNext(m: SetDrawableAnnotationPositionMappedIdx, k: nat) returns (next: SetDrawableAnnotationPositionMappedIdx)
    requires k < |m.idx| < 0x7FFF_FFF0
    ensures var zeros := Resize([], |m.idx|);
            var partial := m.(idx := m.idx[..k] + zeros[k..]);
            var fs := UInt32Fields(m.idx)[k..];
            && next == m.(idx := m.idx[..k + 1] + zeros[k + 1..])
            && fs != [] && TypeAt(MappedIdxP(partial), Wrap32(4 + k)) == Code(fs[0])
            && Push(MappedIdxP(partial), Wrap32(4 + k), ValueOf(fs[0])) == (true, MappedIdxP(next))
            && (|fs| > 1 ==> !Complete(MappedIdxP(next), 5 + k))
  {
    var zeros := Resize([], |m.idx|);
    var partial := m.(idx := m.idx[..k] + zeros[k..]);
    var fs := UInt32Fields(m.idx)[k..];
    assert fs[0] == UInt32Field(m.idx[k]);
    next := m.(idx := m.idx[..k + 1] + zeros[k + 1..]);
    assert partial.idx[k := m.idx[k]] == next.idx;
    assert partial.Push(4 + k, UInt32(m.idx[k])) == (true, next);
    assert k + 1 < |m.idx| ==> !Complete(MappedIdxP(next), 5 + k);
  }
}
