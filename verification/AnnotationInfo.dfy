/** The annotation message: a header, then a variable number of strokes and
 *  texts, each parsed by its own sub-schema. */
module AnnotationInfo {
  import opened Common
  import opened DataValues

  /** One stroke: color, width, point count, then the points' coordinates
   *  interleaved x0, y0, x1, y1, ... */
  datatype AnnotationStroke = AnnotationStroke(
    color: uint32, width: Float, nbPoints: uint32, pointsX: seq<Float>, pointsY: seq<Float>)
  {
    /** Cursor of the last coordinate plus one, in uint32_t arithmetic. */
    function PointsEnd(): uint32
    {
      Wrap32(3 + nbPoints * 2)
    }

    function TypeAt(cursor: uint32): char
    {
      if cursor == 0 || cursor == 2 then CODE_UINT32
      else if cursor == 1 || cursor < PointsEnd() then CODE_FLOAT
      else CODE_NONE
    }

    function MaxCursor(): int32
    {
      ToInt32(Wrap32(2 + 2 * nbPoints))
    }

    /** The uint32_t and string overloads; floats go to PushFloat. */
    function Push(cursor: uint32, v: Value): (r: (bool, AnnotationStroke))
      ensures !r.0 ==> r.1 == this
      ensures v.UInt32? ==> (r.0 <==> cursor == 0 || cursor == 2)
      ensures v.Str? || v.ByteArray? ==> !r.0
    {
      match v
      case UInt32(n) =>
        if cursor == 0 then (true, this.(color := n))
        else if cursor == 2 then (true, this.(nbPoints := n))
        else (false, this)
      case Float32(f) => PushFloat(cursor, f)
      case _ => (false, this)
    }

    /** A coordinate goes to pointsY when its offset from the first
     *  coordinate is odd, to pointsX otherwise. */
    function PushFloat(cursor: uint32, f: Float): (r: (bool, AnnotationStroke))
      ensures r.0 <==> cursor == 1 || (2 < cursor < PointsEnd())
      ensures !r.0 ==> r.1 == this
      ensures cursor == 1 ==> r.1 == this.(width := f)
      ensures 2 < cursor < PointsEnd() ==>
        if (cursor - 3) % 2 == 1 then r.1 == this.(pointsY := pointsY + [f])
        else r.1 == this.(pointsX := pointsX + [f])
    {
      if cursor == 1 then (true, this.(width := f))
      else if cursor < PointsEnd() && cursor > 2 then
        if (cursor - 3) % 2 == 1 then (true, this.(pointsY := pointsY + [f]))
        else (true, this.(pointsX := pointsX + [f]))
      else (false, this)
    }

    /** The float overload as the source writes it: every coordinate is
     *  appended to pointsX, the odd ones to pointsY as well. */
    function PushFloatAsWritten(cursor: uint32, f: Float): (r: (bool, AnnotationStroke))
      ensures r.0 <==> cursor == 1 || (2 < cursor < PointsEnd())
      ensures !r.0 ==> r.1 == this
      ensures cursor == 1 ==> r.1 == this.(width := f)
      ensures 2 < cursor < PointsEnd() ==>
                r.1 == this.(pointsX := pointsX + [f],
                             pointsY := if (cursor - 3) % 2 == 1 then pointsY + [f] else pointsY)
    {
      if cursor == 1 then (true, this.(width := f))
      else if cursor < PointsEnd() && cursor > 2 then
        if (cursor - 3) % 2 == 1 then (true, this.(pointsY := pointsY + [f], pointsX := pointsX + [f]))
        else (true, this.(pointsX := pointsX + [f]))
      else (false, this)
    }
  }

  /** color and width are left uninitialised in C++; zero here. */
  const BLANK_STROKE: AnnotationStroke := AnnotationStroke(0, FLOAT_ZERO, 0, [], [])

  /** Feeding one point (x, y) to a stroke announced with one point, with
   *  the float overload as written: x lands in pointsX, but so does y. */
  lemma StrokeAsWrittenMixesCoordinates(x: Float, y: Float)
    ensures var s0 := BLANK_STROKE.(nbPoints := 1);
            var s1 := s0.PushFloatAsWritten(3, x);
            var s2 := s1.1.PushFloatAsWritten(4, y);
            s1.0 && s2.0 && s2.1.pointsX == [x, y] && s2.1.pointsY == [y]
  {
  }

  /** One text: color, position, then the string. */
  datatype AnnotationText = AnnotationText(color: uint32, posX: Float, posY: Float, text: seq<byte>)
  {
    function TypeAt(cursor: uint32): char
    {
      if cursor == 0 then CODE_UINT32
      else if cursor == 1 || cursor == 2 then CODE_FLOAT
      else if cursor == 3 then CODE_STRING
      else CODE_NONE
    }

    function MaxCursor(): int32 { 3 }

    function Push(cursor: uint32, v: Value): (r: (bool, AnnotationText))
      ensures r.0 <==> (v.UInt32? && cursor == 0) || (v.Float32? && 1 <= cursor <= 2) || (v.Str? && cursor == 3)
      ensures !r.0 ==> r.1 == this
    {
      match v
      case UInt32(n) => if cursor == 0 then (true, this.(color := n)) else (false, this)
      case Float32(f) =>
        if cursor == 1 then (true, this.(posX := f))
        else if cursor == 2 then (true, this.(posY := f))
        else (false, this)
      case Str(s) => if cursor == 3 then (true, this.(text := s)) else (false, this)
      case _ => (false, this)
    }
  }

  const BLANK_TEXT: AnnotationText := AnnotationText(0, FLOAT_ZERO, FLOAT_ZERO, [])

  /** Which sub-record the annotation is currently parsing. */
  datatype AnnotationType = StrokeAnnotation | TextAnnotation | NoAnnotation

  /** A whole annotation: seven header values (ids, texture size, stroke
   *  and text counts), then the strokes, then the texts. The last six
   *  fields are the parser's private state. */
  datatype Annotation = Annotation(
    datasetID: uint32, subDatasetID: uint32, annotationID: uint32,
    textureWidth: uint32, textureHeight: uint32, nbStroke: uint32, nbText: uint32,
    strokes: seq<AnnotationStroke>, texts: seq<AnnotationText>,
    onCreationCursor: uint32, lastCursor: uint32, recreateAnnot: bool,
    annotType: AnnotationType, strokeParse: AnnotationStroke, textParse: AnnotationText)
  {
    /** A cursor relative to the start of the sub-record being parsed. */
    function Relative(cursor: uint32): uint32
    {
      Wrap32(cursor - onCreationCursor)
    }

    function TypeAt(cursor: uint32): char
    {
      if cursor < 7 then CODE_UINT32
      else if annotType == StrokeAnnotation then strokeParse.TypeAt(Relative(cursor))
      else if annotType == NoAnnotation && nbStroke > |strokes| then strokeParse.TypeAt(0)
      else if annotType == TextAnnotation then textParse.TypeAt(Relative(cursor))
      else if annotType == NoAnnotation && nbText > |texts| then strokeParse.TypeAt(0)
      else CODE_NONE
    }

    /** Not finished while the header is incomplete or a stroke or text is
     *  missing: the maximum is then one past the last accepted cursor. */
    function MaxCursor(): int32
    {
      if lastCursor < 6 || |strokes| < nbStroke || |texts| < nbText then ToInt32(Wrap32(lastCursor + 1))
      else ToInt32(lastCursor)
    }

    /** checkCreateInformation: at the first value of a sub-record, start a
     *  fresh stroke while strokes are missing, a fresh text otherwise. */
    function CheckCreate(cursor: uint32): (a: Annotation)
      ensures a.strokes == strokes && a.texts == texts
    {
      if recreateAnnot then
        if |strokes| < nbStroke then
          this.(lastCursor := cursor, recreateAnnot := false, onCreationCursor := cursor,
                strokeParse := BLANK_STROKE, annotType := StrokeAnnotation)
        else
          this.(lastCursor := cursor, recreateAnnot := false, onCreationCursor := cursor,
                textParse := BLANK_TEXT, annotType := TextAnnotation)
      else this.(lastCursor := cursor)
    }

    /** checkEndInformation: once the relative cursor reaches the
     *  sub-record's maximum, append it and wait for the next one. */
    function CheckEnd(cursor: uint32): Annotation
    {
      var maxCursor :=
        if annotType == StrokeAnnotation then strokeParse.MaxCursor()
        else if annotType == TextAnnotation then textParse.MaxCursor()
        else -1;
      if ToInt32(Relative(cursor)) >= maxCursor then
        var withRecord :=
          if annotType == StrokeAnnotation then this.(strokes := strokes + [strokeParse])
          else if annotType == TextAnnotation then this.(texts := texts + [textParse])
          else this;
        withRecord.(recreateAnnot := true, annotType := NoAnnotation)
      else this
    }

    /** ANNOTATION_PUSH_VALUE: forward to the current sub-record, and say
     *  whether it accepted the value. The create and end steps happen even
     *  when the sub-record rejects the value. */
    function SubPush(cursor: uint32, v: Value): (r: (bool, Annotation))
      ensures r.0 ==> r.1.lastCursor == cursor
    {
      var a := CheckCreate(cursor);
      var pushed :=
        if a.annotType == StrokeAnnotation then
          var r := a.strokeParse.Push(a.Relative(cursor), v); (r.0, a.(strokeParse := r.1))
        else if a.annotType == TextAnnotation then
          var r := a.textParse.Push(a.Relative(cursor), v); (r.0, a.(textParse := r.1))
        else (false, a);
      var ended := pushed.1.CheckEnd(cursor);
      if pushed.0 then (true, ended.(lastCursor := cursor)) else (false, ended)
    }

    function Push(cursor: uint32, v: Value): (r: (bool, Annotation))
      ensures v.UInt32? && cursor < 7 ==> r.0 && r.1.lastCursor == cursor
      ensures r.0 ==> r.1.lastCursor == cursor
    {
      match v
      case UInt32(n) =>
        if cursor == 0 then (true, this.(datasetID := n, lastCursor := cursor))
        else if cursor == 1 then (true, this.(subDatasetID := n, lastCursor := cursor))
        else if cursor == 2 then (true, this.(annotationID := n, lastCursor := cursor))
        else if cursor == 3 then (true, this.(textureWidth := n, lastCursor := cursor))
        else if cursor == 4 then (true, this.(textureHeight := n, lastCursor := cursor))
        else if cursor == 5 then (true, this.(nbStroke := n, lastCursor := cursor))
        else if cursor == 6 then (true, this.(nbText := n, lastCursor := cursor))
        else SubPush(cursor, v)
      case _ => SubPush(cursor, v)
    }
  }

  /** The ids and texture size are left uninitialised in C++; zero here. */
  const BLANK_ANNOTATION: Annotation :=
    Annotation(0, 0, 0, 0, 0, 0, 0, [], [], 0, 0, true, NoAnnotation, BLANK_STROKE, BLANK_TEXT)

  /** A refused value is not a no-op on an annotation: a string sent as the
   *  first value of a stroke is refused, but the stroke has been started. */
  lemma RefusedPushStartsStroke()
    ensures var a := BLANK_ANNOTATION.(nbStroke := 1, lastCursor := 6);
            var r := a.Push(7, Str([]));
            !r.0 && r.1.annotType == StrokeAnnotation && r.1 != a
  {
  }
}
