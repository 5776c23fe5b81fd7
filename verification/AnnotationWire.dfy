/** The wire form of a whole annotation, and the proof that the annotation
 *  schema (with the corrected stroke) parses it back. */
module AnnotationWire {
  import opened Common
  import opened DataValues
  import opened AnnotationInfo
  import opened DataInformation

  /** x0, y0, x1, y1, ... */
  function Coordinates(xs: seq<Float>, ys: seq<Float>): (r: seq<Field>)
    requires |xs| == |ys|
    ensures |r| == 2 * |xs|
    ensures forall i :: 0 <= i < |xs| ==> r[2 * i] == FloatField(xs[i]) && r[2 * i + 1] == FloatField(ys[i])
  {
    if xs == [] then []
    else [FloatField(xs[0]), FloatField(ys[0])] + Coordinates(xs[1..], ys[1..])
  }

  predicate WellFormedStroke(s: AnnotationStroke)
  {
    |s.pointsX| == |s.pointsY| == s.nbPoints
  }

  function StrokeFields(s: AnnotationStroke): (r: seq<Field>)
    requires WellFormedStroke(s)
    ensures |r| == 3 + 2 * s.nbPoints
  {
    [UInt32Field(s.color), FloatField(s.width), UInt32Field(s.nbPoints)] + Coordinates(s.pointsX, s.pointsY)
  }

  function TextFields(t: AnnotationText): (r: seq<Field>)
    ensures |r| == 4
  {
    [UInt32Field(t.color), FloatField(t.posX), FloatField(t.posY), StringField(t.text)]
  }

  function StrokesFields(ss: seq<AnnotationStroke>): seq<Field>
    requires forall i :: 0 <= i < |ss| ==> WellFormedStroke(ss[i])
  {
    if ss == [] then [] else StrokeFields(ss[0]) + StrokesFields(ss[1..])
  }

  function TextsFields(ts: seq<AnnotationText>): (r: seq<Field>)
    ensures |r| == 4 * |ts|
  {
    if ts == [] then [] else TextFields(ts[0]) + TextsFields(ts[1..])
  }

  function HeaderFields(a: Annotation): (r: seq<Field>)
    ensures |r| == 7
  {
    [UInt32Field(a.datasetID), UInt32Field(a.subDatasetID), UInt32Field(a.annotationID),
     UInt32Field(a.textureWidth), UInt32Field(a.textureHeight), UInt32Field(a.nbStroke), UInt32Field(a.nbText)]
  }

  /** The counts announced in the header match the records sent. */
  predicate WellFormed(a: Annotation)
  {
    a.nbStroke == |a.strokes| && a.nbText == |a.texts|
    && (forall i :: 0 <= i < |a.strokes| ==> WellFormedStroke(a.strokes[i]))
  }

  function AnnotationFields(a: Annotation): seq<Field>
    requires WellFormed(a)
  {
    HeaderFields(a) + StrokesFields(a.strokes) + TextsFields(a.texts)
  }

  predicate SameHeader(q: Annotation, a: Annotation)
  {
    q.datasetID == a.datasetID && q.subDatasetID == a.subDatasetID && q.annotationID == a.annotationID
    && q.textureWidth == a.textureWidth && q.textureHeight == a.textureHeight
    && q.nbStroke == a.nbStroke && q.nbText == a.nbText
  }

  /** Between two sub-records: the next value, at cursor c, starts one. */
  predicate Idle(q: Annotation, c: nat)
  {
    7 <= c < 0x7FFF_FFFF && q.recreateAnnot && q.annotType == NoAnnotation && q.lastCursor == c - 1
  }

  /** A whole annotation whose counts match its records is parsed back
   *  from its wire form: same header, same strokes, same texts, and the
   *  message completes right after its last field. */
  lemma AnnotationRoundTrip(a: Annotation)
    requires WellFormed(a)
    requires |AnnotationFields(a)| < 0x7FFF_FFF0
    ensures var r := Deliver(AnnotationP(BLANK_ANNOTATION), 0, AnnotationFields(a));
            r.Some? && r.value.AnnotationP?
            && SameHeader(r.value.annotation, a)
            && r.value.annotation.strokes == a.strokes && r.value.annotation.texts == a.texts
            && Complete(r.value, |AnnotationFields(a)|)
  {
    var q := ParseAnnotation(a);
    AnnotationLift(BLANK_ANNOTATION, AnnotationFields(a), q);
  }

  /** A complete delivery on the annotation schema is the same delivery on
   *  an annotation payload. */
  lemma AnnotationLift(p: Annotation, fs: seq<Field>, q: Annotation)
    requires DeliverWith(ANNOTATIONS, p, 0, fs) == Some(q) && CompleteWith(ANNOTATIONS, q, |fs|)
    ensures Deliver(AnnotationP(p), 0, fs) == Some(AnnotationP(q)) && Complete(AnnotationP(q), |fs|)
  {
    AnnotationDeliverLift(p, fs, q);
    AnnotationCompleteLift(q, |fs|);
  }

  lemma AnnotationCompleteLift(q: Annotation, n: nat)
    requires CompleteWith(ANNOTATIONS, q, n)
    ensures Complete(AnnotationP(q), n)
  {
    assert ANNOTATIONS.maxCursor(q) == q.MaxCursor();
  }

  lemma AnnotationDeliverLift(p: Annotation, fs: seq<Field>, q: Annotation)
    requires DeliverWith(ANNOTATIONS, p, 0, fs) == Some(q)
    ensures Deliver(AnnotationP(p), 0, fs) == Some(AnnotationP(q))
  {
    AnnotationsFollowPayloads();
    DeliverMap(ANNOTATIONS, PAYLOADS, (x: Annotation) => AnnotationP(x), p, 0, fs);
  }

  /** The annotation schema on its own. */
  const ANNOTATIONS: Schema<Annotation> :=
    Schema((a: Annotation, c: uint32) => a.TypeAt(c), (a: Annotation, c: uint32, v: Value) => a.Push(c, v),
           (a: Annotation) => a.MaxCursor())

  /** An annotation payload behaves as the annotation schema. */
  lemma AnnotationsFollowPayloads()
    ensures forall x, c :: PAYLOADS.typeAt(AnnotationP(x), c) == ANNOTATIONS.typeAt(x, c)
    ensures forall x, c, v :: PAYLOADS.push(AnnotationP(x), c, v)
                              == (ANNOTATIONS.push(x, c, v).0, AnnotationP(ANNOTATIONS.push(x, c, v).1))
    ensures forall x :: PAYLOADS.maxCursor(AnnotationP(x)) == ANNOTATIONS.maxCursor(x)
  {
  }

  /** The same, with the parse followed on the annotation schema alone. */
  lemma ParseAnnotation(a: Annotation) returns (q: Annotation)
    requires WellFormed(a)
    requires |AnnotationFields(a)| < 0x7FFF_FFF0
    ensures DeliverWith(ANNOTATIONS, BLANK_ANNOTATION, 0, AnnotationFields(a)) == Some(q)
    ensures SameHeader(q, a) && q.strokes == a.strokes && q.texts == a.texts
    ensures CompleteWith(ANNOTATIONS, q, |AnnotationFields(a)|)
  {
    var hs := HeaderFields(a) + StrokesFields(a.strokes);
    var q1 := ParseHeaderAndStrokes(a);
    assert AnnotationFields(a) == hs + TextsFields(a.texts);
    q := ParseTexts(a, hs, q1);
  }

  /** After the header and the strokes hs, the texts are parsed back and
   *  the message completes. */
  lemma ParseTexts(a: Annotation, hs: seq<Field>, q1: Annotation) returns (q: Annotation)
    requires WellFormed(a)
    requires |hs| + 4 * |a.texts| < 0x7FFF_FFF0
    requires DeliverWith(ANNOTATIONS, BLANK_ANNOTATION, 0, hs) == Some(q1)
    requires Idle(q1, |hs|) && SameHeader(q1, a) && q1.strokes == a.strokes && q1.texts == []
    ensures var fs := hs + TextsFields(a.texts);
            DeliverWith(ANNOTATIONS, BLANK_ANNOTATION, 0, fs) == Some(q)
            && SameHeader(q, a) && q.strokes == a.strokes && q.texts == a.texts
            && CompleteWith(ANNOTATIONS, q, |fs|)
  {
    q := DeliverTexts(a, hs, q1);
    IdleComplete(q, |hs| + 4 * |a.texts|);
  }

  /** The texts after hs are delivered, and the parser is back between
   *  two sub-records. */
  lemma DeliverTexts(a: Annotation, hs: seq<Field>, q1: Annotation) returns (q: Annotation)
    requires a.nbStroke == |a.strokes| && a.nbText == |a.texts|
    requires |hs| + 4 * |a.texts| < 0x7FFF_FFF0
    requires DeliverWith(ANNOTATIONS, BLANK_ANNOTATION, 0, hs) == Some(q1)
    requires Idle(q1, |hs|) && SameHeader(q1, a) && q1.strokes == a.strokes && q1.texts == []
    ensures DeliverWith(ANNOTATIONS, BLANK_ANNOTATION, 0, hs + TextsFields(a.texts)) == Some(q)
    ensures Idle(q, |hs| + 4 * |a.texts|) && SameHeader(q, a) && q.strokes == a.strokes && q.texts == a.texts
  {
    var ts := TextsFields(a.texts);
    q := TextsPhase(q1, |hs|, [], a.texts);
    assert [] + a.texts == a.texts;
    if ts != [] {
      assert a.texts != [];
      IdleIncomplete(q1, |hs|);
    }
    DeliverAfter(ANNOTATIONS, BLANK_ANNOTATION, hs, ts, q1, q);
  }


  /** The header and the strokes of an annotation are parsed back. */
  lemma ParseHeaderAndStrokes(a: Annotation) returns (q: Annotation)
    requires WellFormed(a)
    requires |AnnotationFields(a)| < 0x7FFF_FFF0
    ensures var fs := HeaderFields(a) + StrokesFields(a.strokes);
            DeliverWith(ANNOTATIONS, BLANK_ANNOTATION, 0, fs) == Some(q)
            && Idle(q, |fs|) && SameHeader(q, a) && q.strokes == a.strokes && q.texts == []
  {
    var h := HeaderPhase(a);
    assert |AnnotationFields(a)| == 7 + |StrokesFields(a.strokes)| + 4 * |a.texts|;
    q := ParseStrokes(a, HeaderFields(a), h);
  }

  /** After the header hs, the strokes are parsed back. */
  lemma ParseStrokes(a: Annotation, hs: seq<Field>, h: Annotation) returns (q: Annotation)
    requires WellFormed(a)
    requires |hs| == 7 && 7 + |StrokesFields(a.strokes)| < 0x7FFF_FFF0
    requires DeliverWith(ANNOTATIONS, BLANK_ANNOTATION, 0, hs) == Some(h)
    requires SameHeader(h, a) && Idle(h, 7) && h.strokes == [] && h.texts == []
    ensures var fs := hs + StrokesFields(a.strokes);
            DeliverWith(ANNOTATIONS, BLANK_ANNOTATION, 0, fs) == Some(q)
            && Idle(q, |fs|) && SameHeader(q, a) && q.strokes == a.strokes && q.texts == []
  {
    q := StrokesAfterHeader(a, hs, h);
    DeliverAfter(ANNOTATIONS, BLANK_ANNOTATION, hs, StrokesFields(a.strokes), h, q);
  }

  /** The strokes, received after the header hs. */
  lemma StrokesAfterHeader(a: Annotation, hs: seq<Field>, h: Annotation) returns (q: Annotation)
    requires WellFormed(a)
    requires |hs| == 7 && 7 + |StrokesFields(a.strokes)| < 0x7FFF_FFF0
    requires SameHeader(h, a) && Idle(h, 7) && h.strokes == [] && h.texts == []
    ensures var ss := StrokesFields(a.strokes);
            DeliverWith(ANNOTATIONS, h, |hs|, ss) == Some(q)
            && (ss != [] ==> !CompleteWith(ANNOTATIONS, h, |hs|))
            && Idle(q, |hs + ss|) && SameHeader(q, a) && q.strokes == a.strokes && q.texts == []
  {
    var ss := StrokesFields(a.strokes);
    q := StrokesPhase(h, 7, [], a.strokes);
    assert [] + a.strokes == a.strokes;
    if ss != [] {
      assert a.strokes != [];
      IdleIncomplete(h, 7);
    }
  }

  /** Between two sub-records, the message is incomplete while a stroke or
   *  a text is missing ... */
  lemma IdleIncomplete(q: Annotation, c: nat)
    requires Idle(q, c) && (|q.strokes| < q.nbStroke || |q.texts| < q.nbText)
    ensures !CompleteWith(ANNOTATIONS, q, c)
  {
  }

  /** ... and complete once all of them are in. */
  lemma IdleComplete(q: Annotation, c: nat)
    requires Idle(q, c) && |q.strokes| == q.nbStroke && |q.texts| == q.nbText
    ensures CompleteWith(ANNOTATIONS, q, c)
  {
  }

  /** The header after its first k values. */
  function HeaderAfter(a: Annotation, k: nat): Annotation
    requires 1 <= k <= 7
  {
    var b := BLANK_ANNOTATION.(lastCursor := k - 1, datasetID := a.datasetID);
    var b := if k >= 2 then b.(subDatasetID := a.subDatasetID) else b;
    var b := if k >= 3 then b.(annotationID := a.annotationID) else b;
    var b := if k >= 4 then b.(textureWidth := a.textureWidth) else b;
    var b := if k >= 5 then b.(textureHeight := a.textureHeight) else b;
    var b := if k >= 6 then b.(nbStroke := a.nbStroke) else b;
    if k >= 7 then b.(nbText := a.nbText) else b
  }

  /** The first header value is accepted ... */
  lemma HeaderFirst(a: Annotation)
    ensures Step(ANNOTATIONS, BLANK_ANNOTATION, 0, HeaderFields(a)[0], HeaderAfter(a, 1))
    ensures !CompleteWith(ANNOTATIONS, HeaderAfter(a, 1), 1)
  {
  }

  /** ... and so is each later one; the header alone never completes the
   *  message before its seventh value. */
  lemma HeaderStep(a: Annotation, k: nat)
    requires 1 <= k < 7
    ensures Step(ANNOTATIONS, HeaderAfter(a, k), k, HeaderFields(a)[k], HeaderAfter(a, k + 1))
    ensures k + 1 < 7 ==> !CompleteWith(ANNOTATIONS, HeaderAfter(a, k + 1), k + 1)
  {
  }

  /** The first k header values fill the first k header fields. */
  lemma {:induction false} HeaderPrefix(a: Annotation, k: nat)
    requires 1 <= k <= 7
    ensures DeliverWith(ANNOTATIONS, BLANK_ANNOTATION, 0, HeaderFields(a)[..k]) == Some(HeaderAfter(a, k))
    decreases k
  {
    var fs := HeaderFields(a);
    if k == 1 {
      HeaderFirst(a);
      DeliverOne(ANNOTATIONS, BLANK_ANNOTATION, 0, fs[0], HeaderAfter(a, 1));
      assert fs[..1] == [fs[0]];
    } else {
      HeaderPrefix(a, k - 1);
      HeaderStep(a, k - 1);
      if k == 2 {
        HeaderFirst(a);
      } else {
        HeaderStep(a, k - 2);
      }
      DeliverExtend(ANNOTATIONS, BLANK_ANNOTATION, fs, k - 1, HeaderAfter(a, k - 1), HeaderAfter(a, k));
    }
  }

  /** The seven header values fill the header in order. */
  lemma HeaderPhase(a: Annotation) returns (h: Annotation)
    ensures DeliverWith(ANNOTATIONS, BLANK_ANNOTATION, 0, HeaderFields(a)) == Some(h)
    ensures SameHeader(h, a) && Idle(h, 7) && h.strokes == [] && h.texts == []
  {
    h := HeaderAfter(a, 7);
    HeaderPrefix(a, 7);
    assert HeaderFields(a)[..7] == HeaderFields(a);
  }

  /** The strokes still announced are received one after the other. */
  lemma {:induction false} StrokesPhase(q: Annotation, c: nat, done: seq<AnnotationStroke>, ss: seq<AnnotationStroke>)
    returns (q': Annotation)
    requires Idle(q, c) && q.strokes == done && |done| + |ss| == q.nbStroke
    requires forall i :: 0 <= i < |ss| ==> WellFormedStroke(ss[i])
    requires c + |StrokesFields(ss)| < 0x7FFF_FFFF
    ensures DeliverWith(ANNOTATIONS, q, c, StrokesFields(ss)) == Some(q')
    ensures Idle(q', c + |StrokesFields(ss)|) && SameHeader(q', q)
    ensures q'.strokes == done + ss && q'.texts == q.texts
    decreases |ss|
  {
    if ss == [] {
      q' := q;
      assert done + ss == done;
    } else {
      var s := ss[0];
      var fs, gs := StrokeFields(s), StrokesFields(ss[1..]);
      assert StrokesFields(ss) == fs + gs;
      AppendHead(done, ss);
      StrokePhase(q, c, s);
      var mid := StrokeDone(q, c, s);
      if gs != [] {
        IdleIncomplete(mid, c + |fs|);
      }
      q' := StrokesPhase(mid, c + |fs|, done + [s], ss[1..]);
      DeliverThen(ANNOTATIONS, q, c, fs, gs, mid, q');
    }
  }

  /** The texts still announced are received one after the other. */
  lemma {:induction false} TextsPhase(q: Annotation, c: nat, done: seq<AnnotationText>, ts: seq<AnnotationText>)
    returns (q': Annotation)
    requires Idle(q, c) && |q.strokes| == q.nbStroke && q.texts == done && |done| + |ts| == q.nbText
    requires c + 4 * |ts| < 0x7FFF_FFFF
    ensures DeliverWith(ANNOTATIONS, q, c, TextsFields(ts)) == Some(q')
    ensures Idle(q', c + 4 * |ts|) && SameHeader(q', q)
    ensures q'.strokes == q.strokes && q'.texts == done + ts
    decreases |ts|
  {
    if ts == [] {
      q' := q;
      assert done + ts == done;
    } else {
      var t := ts[0];
      var rest := TextsFields(ts[1..]);
      assert TextsFields(ts) == TextFields(t) + rest;
      AppendHead(done, ts);
      TextPhase(q, c, t);
      var mid := TextDone(q, c, t);
      if rest != [] {
        IdleIncomplete(mid, c + 4);
      }
      q' := TextsPhase(mid, c + 4, done + [t], ts[1..]);
      DeliverThen(ANNOTATIONS, q, c, TextFields(t), rest, mid, q');
    }
  }

  lemma AppendHead<T>(done: seq<T>, s: seq<T>)
    requires s != []
    ensures done + [s[0]] + s[1..] == done + s
  {
    assert s == [s[0]] + s[1..];
  }

  /** Ready to receive text t at cursor c: every stroke is in, a text is
   *  still missing. */
  predicate TextReady(q: Annotation, c: nat)
  {
    Idle(q, c) && |q.strokes| == q.nbStroke && |q.texts| < q.nbText && c + 4 < 0x7FFF_FFFF
  }

  /** The text being parsed after its first k values. */
  function TextAfter(q: Annotation, c: nat, t: AnnotationText, k: nat): Annotation
    requires TextReady(q, c) && 1 <= k <= 3
  {
    var tp := BLANK_TEXT.(color := t.color);
    var tp := if k >= 2 then tp.(posX := t.posX) else tp;
    var tp := if k >= 3 then tp.(posY := t.posY) else tp;
    q.(lastCursor := c + k - 1, recreateAnnot := false, onCreationCursor := c,
       textParse := tp, annotType := TextAnnotation)
  }

  /** The state once text t, started at c, has been appended. */
  function TextDone(q: Annotation, c: nat, t: AnnotationText): Annotation
    requires TextReady(q, c)
  {
    q.(lastCursor := c + 3, recreateAnnot := true, onCreationCursor := c,
       textParse := t, annotType := NoAnnotation, texts := q.texts + [t])
  }

  /** The color of a text starts it ... */
  lemma TextStart(q: Annotation, c: nat, t: AnnotationText)
    requires TextReady(q, c)
    ensures Step(ANNOTATIONS, q, c, UInt32Field(t.color), TextAfter(q, c, t, 1))
    ensures !CompleteWith(ANNOTATIONS, TextAfter(q, c, t, 1), c + 1)
  {
  }

  /** ... its position follows, and the message stays incomplete ... */
  lemma TextPosition(q: Annotation, c: nat, t: AnnotationText)
    requires TextReady(q, c)
    ensures Step(ANNOTATIONS, TextAfter(q, c, t, 1), c + 1, FloatField(t.posX), TextAfter(q, c, t, 2))
    ensures Step(ANNOTATIONS, TextAfter(q, c, t, 2), c + 2, FloatField(t.posY), TextAfter(q, c, t, 3))
    ensures !CompleteWith(ANNOTATIONS, TextAfter(q, c, t, 2), c + 2)
    ensures !CompleteWith(ANNOTATIONS, TextAfter(q, c, t, 3), c + 3)
  {
  }

  /** ... until the string, which appends the text. */
  lemma TextEnd(q: Annotation, c: nat, t: AnnotationText)
    requires TextReady(q, c)
    ensures Step(ANNOTATIONS, TextAfter(q, c, t, 3), c + 3, StringField(t.text), TextDone(q, c, t))
  {
  }

  /** One text, once every stroke has arrived. */
  lemma TextPhase(q: Annotation, c: nat, t: AnnotationText)
    requires TextReady(q, c)
    ensures DeliverWith(ANNOTATIONS, q, c, TextFields(t)) == Some(TextDone(q, c, t))
  {
    TextStart(q, c, t);
    TextPosition(q, c, t);
    TextEnd(q, c, t);
    DeliverFour(ANNOTATIONS, q, TextAfter(q, c, t, 1), TextAfter(q, c, t, 2), TextAfter(q, c, t, 3), TextDone(q, c, t),
                c, UInt32Field(t.color), FloatField(t.posX), FloatField(t.posY), StringField(t.text));
  }

  /** The parser's state while it reads the stroke that started at c. */
  function Parsing(q: Annotation, c: nat, last: nat, sp: AnnotationStroke): Annotation
    requires c < TWO_32 && last < TWO_32
  {
    q.(onCreationCursor := c, lastCursor := last, recreateAnnot := false,
       annotType := StrokeAnnotation, strokeParse := sp)
  }

  /** Ready to receive stroke s at cursor c: between sub-records, with a
   *  stroke still missing. */
  predicate StrokeReady(q: Annotation, c: nat, s: AnnotationStroke)
  {
    Idle(q, c) && |q.strokes| < q.nbStroke && WellFormedStroke(s) && c + 3 + 2 * s.nbPoints < 0x7FFF_FFFF
  }

  /** The state once stroke s, started at c, has been appended. */
  function StrokeDone(q: Annotation, c: nat, s: AnnotationStroke): Annotation
    requires StrokeReady(q, c, s)
  {
    q.(onCreationCursor := c, lastCursor := c + 2 + 2 * s.nbPoints, recreateAnnot := true,
       annotType := NoAnnotation, strokeParse := s, strokes := q.strokes + [s])
  }

  /** The stroke being parsed after its color (k = 1) and its width (k = 2). */
  function StrokeAfter(q: Annotation, c: nat, s: AnnotationStroke, k: nat): Annotation
    requires StrokeReady(q, c, s) && 1 <= k <= 2
  {
    var sp := BLANK_STROKE.(color := s.color);
    Parsing(q, c, c + k - 1, if k == 2 then sp.(width := s.width) else sp)
  }

  /** The color and width of a stroke are accepted and leave the message
   *  incomplete; its point count too when points follow, otherwise it
   *  appends the stroke. */
  lemma StrokeHeadSteps(q: Annotation, c: nat, s: AnnotationStroke)
    requires StrokeReady(q, c, s)
    ensures Step(ANNOTATIONS, q, c, UInt32Field(s.color), StrokeAfter(q, c, s, 1))
    ensures Step(ANNOTATIONS, StrokeAfter(q, c, s, 1), c + 1, FloatField(s.width), StrokeAfter(q, c, s, 2))
    ensures !CompleteWith(ANNOTATIONS, StrokeAfter(q, c, s, 1), c + 1)
    ensures !CompleteWith(ANNOTATIONS, StrokeAfter(q, c, s, 2), c + 2)
    ensures s.nbPoints == 0 ==> Step(ANNOTATIONS, StrokeAfter(q, c, s, 2), c + 2, UInt32Field(0), StrokeDone(q, c, s))
    ensures s.nbPoints > 0 ==>
      Step(ANNOTATIONS, StrokeAfter(q, c, s, 2), c + 2, UInt32Field(s.nbPoints), PointsDone(q, c, s, 0))
      && !CompleteWith(ANNOTATIONS, PointsDone(q, c, s, 0), c + 3)
  {
    StrokeColorWidth(q, c, s);
    StrokeCount(q, c, s);
  }

  /** The color and the width. */
  lemma StrokeColorWidth(q: Annotation, c: nat, s: AnnotationStroke)
    requires StrokeReady(q, c, s)
    ensures Step(ANNOTATIONS, q, c, UInt32Field(s.color), StrokeAfter(q, c, s, 1))
    ensures Step(ANNOTATIONS, StrokeAfter(q, c, s, 1), c + 1, FloatField(s.width), StrokeAfter(q, c, s, 2))
    ensures !CompleteWith(ANNOTATIONS, StrokeAfter(q, c, s, 1), c + 1)
    ensures !CompleteWith(ANNOTATIONS, StrokeAfter(q, c, s, 2), c + 2)
  {
  }

  /** The point count. */
  lemma StrokeCount(q: Annotation, c: nat, s: AnnotationStroke)
    requires StrokeReady(q, c, s)
    ensures s.nbPoints == 0 ==> Step(ANNOTATIONS, StrokeAfter(q, c, s, 2), c + 2, UInt32Field(0), StrokeDone(q, c, s))
    ensures s.nbPoints > 0 ==>
      Step(ANNOTATIONS, StrokeAfter(q, c, s, 2), c + 2, UInt32Field(s.nbPoints), PointsDone(q, c, s, 0))
      && !CompleteWith(ANNOTATIONS, PointsDone(q, c, s, 0), c + 3)
  {
    assert s.pointsX[..0] == [] && s.pointsY[..0] == [];
    if s.nbPoints == 0 {
      assert s.pointsX == [] && s.pointsY == [];
    }
  }

  /** One stroke, while strokes are missing. */
  lemma StrokePhase(q: Annotation, c: nat, s: AnnotationStroke)
    requires StrokeReady(q, c, s)
    ensures DeliverWith(ANNOTATIONS, q, c, StrokeFields(s)) == Some(StrokeDone(q, c, s))
  {
    var fs := StrokeFields(s);
    StrokeHeadSteps(q, c, s);
    if s.nbPoints == 0 {
      assert fs[2] == UInt32Field(0) && fs[3..] == [];
      DeliverThreeSteps(ANNOTATIONS, q, StrokeAfter(q, c, s, 1), StrokeAfter(q, c, s, 2), StrokeDone(q, c, s), c, fs);
    } else {
      DeliverThreeSteps(ANNOTATIONS, q, StrokeAfter(q, c, s, 1), StrokeAfter(q, c, s, 2), PointsDone(q, c, s, 0), c, fs);
      assert fs[3..] == Coordinates(s.pointsX, s.pointsY)[2 * 0..];
      PointsPhase(q, c, s, 0);
    }
  }

  /** The coordinates from point i on, once the first i points are in. */
  lemma {:induction false} PointsPhase(q: Annotation, c: nat, s: AnnotationStroke, i: nat)
    requires StrokeReady(q, c, s) && i < s.nbPoints
    ensures PointsFrom(q, c, s, i) == Some(StrokeDone(q, c, s))
    decreases s.nbPoints - i
  {
    if i + 1 == s.nbPoints {
      LastPointStep(q, c, s, i);
    } else {
      PointsPhase(q, c, s, i + 1);
      MiddlePointStep(q, c, s, i);
    }
  }

  /** The parser's state once the first i points of s are in. */
  function PointsDone(q: Annotation, c: nat, s: AnnotationStroke, i: nat): Annotation
    requires StrokeReady(q, c, s) && i <= s.nbPoints
  {
    Parsing(q, c, c + 2 + 2 * i, s.(pointsX := s.pointsX[..i], pointsY := s.pointsY[..i]))
  }

  /** ... and once the x coordinate of point i is in as well. */
  function PointHalf(q: Annotation, c: nat, s: AnnotationStroke, i: nat): Annotation
    requires StrokeReady(q, c, s) && i < s.nbPoints
  {
    Parsing(q, c, c + 3 + 2 * i, s.(pointsX := s.pointsX[..i + 1], pointsY := s.pointsY[..i]))
  }

  /** What delivering the coordinates from point i on yields. */
  function PointsFrom(q: Annotation, c: nat, s: AnnotationStroke, i: nat): Option<Annotation>
    requires StrokeReady(q, c, s) && i <= s.nbPoints
  {
    DeliverWith(ANNOTATIONS, PointsDone(q, c, s, i), c + 3 + 2 * i, Coordinates(s.pointsX, s.pointsY)[2 * i..])
  }

  /** Point i, not the last, is read whole. */
  lemma MiddlePointStep(q: Annotation, c: nat, s: AnnotationStroke, i: nat)
    requires StrokeReady(q, c, s) && i + 1 < s.nbPoints
    ensures PointsFrom(q, c, s, i) == PointsFrom(q, c, s, i + 1)
  {
    var coords := Coordinates(s.pointsX, s.pointsY);
    var fs := coords[2 * i..];
    assert fs[0] == FloatField(s.pointsX[i]) && fs[1] == FloatField(s.pointsY[i]);
    assert fs[2..] == coords[2 * (i + 1)..];
    PointX(q, c, s, i, fs[0]);
    PointYMiddle(q, c, s, i, fs[1]);
    DeliverTwo(ANNOTATIONS, PointsDone(q, c, s, i), PointHalf(q, c, s, i), PointsDone(q, c, s, i + 1), c + 3 + 2 * i, fs);
  }

  /** The last point is read whole and the stroke appended. */
  lemma LastPointStep(q: Annotation, c: nat, s: AnnotationStroke, i: nat)
    requires StrokeReady(q, c, s) && i + 1 == s.nbPoints
    ensures PointsFrom(q, c, s, i) == Some(StrokeDone(q, c, s))
  {
    var coords := Coordinates(s.pointsX, s.pointsY);
    var fs := coords[2 * i..];
    assert |fs| == 2 && fs[0] == FloatField(s.pointsX[i]) && fs[1] == FloatField(s.pointsY[i]);
    PointX(q, c, s, i, fs[0]);
    PointYLast(q, c, s, i, fs[1]);
    DeliverTwo(ANNOTATIONS, PointsDone(q, c, s, i), PointHalf(q, c, s, i), StrokeDone(q, c, s), c + 3 + 2 * i, fs);
    assert fs[2..] == [];
  }

  /** The x coordinate of point i goes to pointsX. */
  lemma PointX(q: Annotation, c: nat, s: AnnotationStroke, i: nat, f: Field)
    requires StrokeReady(q, c, s) && i < s.nbPoints && f == FloatField(s.pointsX[i])
    ensures Step(ANNOTATIONS, PointsDone(q, c, s, i), c + 3 + 2 * i, f, PointHalf(q, c, s, i))
    ensures !CompleteWith(ANNOTATIONS, PointHalf(q, c, s, i), c + 3 + 2 * i + 1)
  {
    var sp := s.(pointsX := s.pointsX[..i], pointsY := s.pointsY[..i]);
    var a := PointsDone(q, c, s, i);
    var rel := 3 + 2 * i;
    assert a.Relative(c + rel) == rel;
    assert sp.PointsEnd() == 3 + 2 * s.nbPoints;
    assert s.pointsX[..i] + [s.pointsX[i]] == s.pointsX[..i + 1];
    assert (rel - 3) % 2 == 0;
    assert sp.MaxCursor() == 2 + 2 * s.nbPoints;
  }

  /** The y coordinate of a point that is not the last goes to pointsY. */
  lemma PointYMiddle(q: Annotation, c: nat, s: AnnotationStroke, i: nat, f: Field)
    requires StrokeReady(q, c, s) && i + 1 < s.nbPoints && f == FloatField(s.pointsY[i])
    ensures Step(ANNOTATIONS, PointHalf(q, c, s, i), c + 3 + 2 * i + 1, f, PointsDone(q, c, s, i + 1))
    ensures !CompleteWith(ANNOTATIONS, PointsDone(q, c, s, i + 1), c + 3 + 2 * i + 2)
  {
    var spx := s.(pointsX := s.pointsX[..i + 1], pointsY := s.pointsY[..i]);
    var a := PointHalf(q, c, s, i);
    var rel := 4 + 2 * i;
    assert a.Relative(c + rel) == rel;
    assert spx.PointsEnd() == 3 + 2 * s.nbPoints;
    assert s.pointsY[..i] + [s.pointsY[i]] == s.pointsY[..i + 1];
    assert (rel - 3) % 2 == 1;
    assert spx.MaxCursor() == 2 + 2 * s.nbPoints;
  }

  /** The y coordinate of the last point goes to pointsY and completes the
   *  stroke, which is appended. */
  lemma PointYLast(q: Annotation, c: nat, s: AnnotationStroke, i: nat, f: Field)
    requires StrokeReady(q, c, s) && i + 1 == s.nbPoints && f == FloatField(s.pointsY[i])
    ensures Step(ANNOTATIONS, PointHalf(q, c, s, i), c + 3 + 2 * i + 1, f, StrokeDone(q, c, s))
  {
    var spx := s.(pointsX := s.pointsX[..i + 1], pointsY := s.pointsY[..i]);
    var a := PointHalf(q, c, s, i);
    var rel := 4 + 2 * i;
    assert a.Relative(c + rel) == rel;
    assert spx.PointsEnd() == 3 + 2 * s.nbPoints;
    assert s.pointsY[..i] + [s.pointsY[i]] == s.pointsY[..i + 1] == s.pointsY;
    assert s.pointsX[..i + 1] == s.pointsX;
    assert (rel - 3) % 2 == 1;
    assert spx.MaxCursor() == 2 + 2 * s.nbPoints;
  }
}
