/** The per-tablet record of the CHI'20 study analysis: annotations are
 *  started, then committed into a bucket chosen by study and pointing
 *  technique. */
module Tablet {
  import opened Common

  /** A position as read from the log: a vector of numbers. */
  type Position = seq<real>

  /** Annotation. Times are the log's time offsets; once committed,
   *  annotTCT and trialTCT are durations. */
  datatype Annotation = Annotation(
    trialID: int, pointingID: int, targetPos: Option<Position>, anchorPos: Option<Position>,
    annotTCT: int, trialTCT: int)

  /** PointingTrial: the annotations made with one pointing technique. */
  datatype PointingTrial = PointingTrial(pointingID: int, annotations: seq<Annotation>)

  /** The pointing techniques a study has buckets for, in order. */
  const POINTING_IDS: seq<int> := [0, 1, 3]

  /** The buckets of a study before any annotation. */
  function EmptyBuckets(): (r: seq<PointingTrial>)
    ensures |r| == |POINTING_IDS|
    ensures forall i :: 0 <= i < |r| ==> r[i].pointingID == POINTING_IDS[i] && r[i].annotations == []
  {
    [PointingTrial(0, []), PointingTrial(1, []), PointingTrial(3, [])]
  }

  /** Whether some bucket collects pointing technique p. */
  predicate HasBucket(bs: seq<PointingTrial>, p: int)
  {
    exists i :: 0 <= i < |bs| && bs[i].pointingID == p
  }

  /** The buckets once `a` is appended to the first bucket of its pointing
   *  technique; unchanged when there is none. */
  function Appended(bs: seq<PointingTrial>, a: Annotation): (r: seq<PointingTrial>)
    ensures |r| == |bs|
    ensures forall i :: 0 <= i < |bs| ==> r[i].pointingID == bs[i].pointingID
  {
    if bs == [] then []
    else if bs[0].pointingID == a.pointingID then [bs[0].(annotations := bs[0].annotations + [a])] + bs[1..]
    else [bs[0]] + Appended(bs[1..], a)
  }

  /** The number of annotations in the buckets. */
  function Total(bs: seq<PointingTrial>): nat
  {
    if bs == [] then 0 else |bs[0].annotations| + Total(bs[1..])
  }

  /** With i the first bucket of a's technique, exactly bucket i grows, by
   *  a at its end. */
  lemma {:induction false} AppendedFirst(bs: seq<PointingTrial>, a: Annotation, i: nat)
    requires i < |bs| && bs[i].pointingID == a.pointingID
    requires forall j :: 0 <= j < i ==> bs[j].pointingID != a.pointingID
    ensures Appended(bs, a) == bs[i := bs[i].(annotations := bs[i].annotations + [a])]
    decreases i
  {
    if i > 0 {
      AppendedFirst(bs[1..], a, i - 1);
      assert bs[i := bs[i].(annotations := bs[i].annotations + [a])]
          == [bs[0]] + bs[1..][i - 1 := bs[i].(annotations := bs[i].annotations + [a])];
    }
  }

  /** With no bucket for a's technique, a is dropped. */
  lemma {:induction false} AppendedNone(bs: seq<PointingTrial>, a: Annotation)
    requires !HasBucket(bs, a.pointingID)
    ensures Appended(bs, a) == bs
    decreases |bs|
  {
    if bs != [] {
      assert bs[0].pointingID != a.pointingID;
      assert !HasBucket(bs[1..], a.pointingID) by {
        forall j | 0 <= j < |bs[1..]|
          ensures bs[1..][j].pointingID != a.pointingID
        {
          assert bs[1..][j] == bs[j + 1];
        }
      }
      AppendedNone(bs[1..], a);
      assert [bs[0]] + bs[1..] == bs;
    }
  }

  /** Appending counts one more annotation when a bucket takes it, none
   *  otherwise. */
  lemma {:induction false} AppendedTotal(bs: seq<PointingTrial>, a: Annotation)
    ensures Total(Appended(bs, a)) == Total(bs) + if HasBucket(bs, a.pointingID) then 1 else 0
    decreases |bs|
  {
    if bs != [] {
      var r := Appended(bs, a);
      if bs[0].pointingID == a.pointingID {
        assert r[1..] == bs[1..];
        assert HasBucket(bs, a.pointingID);
      } else {
        assert r[1..] == Appended(bs[1..], a);
        AppendedTotal(bs[1..], a);
        assert HasBucket(bs, a.pointingID) == HasBucket(bs[1..], a.pointingID) by {
          if HasBucket(bs, a.pointingID) {
            var j :| 0 <= j < |bs| && bs[j].pointingID == a.pointingID;
            assert bs[1..][j - 1] == bs[j];
          }
          if HasBucket(bs[1..], a.pointingID) {
            var j :| 0 <= j < |bs[1..]| && bs[1..][j].pointingID == a.pointingID;
            assert bs[j + 1] == bs[1..][j];
          }
        }
      }
    }
  }

  /** What a TabletData holds, as a value. */
  datatype TabletState = TabletState(
    study1: seq<PointingTrial>, study2: seq<PointingTrial>,
    current: Option<Annotation>, currentStudyID: int,
    tabletID: int, headsetIP: Option<string>)

  /** A new TabletData: empty buckets for techniques 0, 1 and 3 in both
   *  studies, nothing pending, study -1. */
  function Fresh(tabletID: int, headsetIP: Option<string>): (t: TabletState)
    ensures t.study1 == t.study2 == EmptyBuckets() && Count(t) == 0
    ensures t.current == None && t.currentStudyID == -1
    ensures t.tabletID == tabletID && t.headsetIP == headsetIP
  {
    TabletState(EmptyBuckets(), EmptyBuckets(), None, -1, tabletID, headsetIP)
  }

  /** The annotations a tablet holds, over both studies. */
  function Count(t: TabletState): nat
  {
    Total(t.study1) + Total(t.study2)
  }

  /** _pushAnnotation: study 1 and study 2 go to their own buckets; any
   *  other study drops the annotation. */
  function Pushed(t: TabletState, studyID: int, a: Annotation): (r: TabletState)
    ensures r.current == t.current && r.currentStudyID == t.currentStudyID
    ensures r.tabletID == t.tabletID && r.headsetIP == t.headsetIP
    ensures r.study1 == if studyID == 1 then Appended(t.study1, a) else t.study1
    ensures r.study2 == if studyID == 2 then Appended(t.study2, a) else t.study2
  {
    if studyID == 1 then t.(study1 := Appended(t.study1, a))
    else if studyID == 2 then t.(study2 := Appended(t.study2, a))
    else t
  }

  /** initAnnotation: the pending annotation is replaced by a new one, whose
   *  annotTCT holds the annotation's start time, trialTCT the trial's start
   *  time, and anchorPos the target; no bucket changes. */
  function Initiated(t: TabletState, studyID: int, trialID: int, pointingID: int, targetPos: Option<Position>,
                     trialStartTime: int, annotStartTime: int): (r: TabletState)
    ensures r.study1 == t.study1 && r.study2 == t.study2 && Count(r) == Count(t)
    ensures r.tabletID == t.tabletID && r.headsetIP == t.headsetIP
    ensures r.currentStudyID == studyID && r.current.Some?
    ensures var a := r.current.value;
            && a.trialID == trialID && a.pointingID == pointingID
            && a.targetPos == a.anchorPos == targetPos
            && a.annotTCT == annotStartTime && a.trialTCT == trialStartTime
  {
    t.(current := Some(Annotation(trialID, pointingID, targetPos, targetPos, annotStartTime, trialStartTime)),
       currentStudyID := studyID)
  }

  /** The pending annotation, finished at endTime at position anchorPos. */
  function Stamped(a: Annotation, anchorPos: Position, endTime: int): (r: Annotation)
    ensures r.trialID == a.trialID && r.pointingID == a.pointingID && r.targetPos == a.targetPos
    ensures r.annotTCT + a.annotTCT == endTime && r.trialTCT + a.trialTCT == endTime
    ensures r.anchorPos == Some(anchorPos)
  {
    a.(annotTCT := endTime - a.annotTCT, trialTCT := endTime - a.trialTCT, anchorPos := Some(anchorPos))
  }

  /** commitAnnotation: without a pending annotation nothing changes;
   *  otherwise it is stamped, pushed for the recorded study and cleared. */
  function Committed(t: TabletState, anchorPos: Position, endTime: int): (r: TabletState)
    ensures t.current == None ==> r == t
    ensures r.current == None && r.currentStudyID == t.currentStudyID
    ensures r.tabletID == t.tabletID && r.headsetIP == t.headsetIP
  {
    if t.current == None then t
    else Pushed(t.(current := None), t.currentStudyID, Stamped(t.current.value, anchorPos, endTime))
  }

  /** A commit adds one annotation when one is pending and a bucket of its
   *  study takes it, none otherwise; never more than one. */
  lemma CommitCount(t: TabletState, anchorPos: Position, endTime: int)
    ensures var taken := t.current.Some? && (
              || (t.currentStudyID == 1 && HasBucket(t.study1, t.current.value.pointingID))
              || (t.currentStudyID == 2 && HasBucket(t.study2, t.current.value.pointingID)));
            Count(Committed(t, anchorPos, endTime)) == Count(t) + if taken then 1 else 0
    ensures Count(Committed(t, anchorPos, endTime)) <= Count(t) + 1
  {
    if t.current.Some? {
      var a := Stamped(t.current.value, anchorPos, endTime);
      AppendedTotal(t.study1, a);
      AppendedTotal(t.study2, a);
    }
  }

  /** An annotation started and then committed lands, once, in the first
   *  bucket of its technique for its study, with its durations measured
   *  from the two start times to the end time. */
  lemma InitThenCommit(t: TabletState, studyID: int, trialID: int, pointingID: int, targetPos: Option<Position>,
                       trialStartTime: int, annotStartTime: int, anchorPos: Position, endTime: int)
    ensures var a := Annotation(trialID, pointingID, targetPos, Some(anchorPos),
                                endTime - annotStartTime, endTime - trialStartTime);
            var r := Committed(Initiated(t, studyID, trialID, pointingID, targetPos, trialStartTime, annotStartTime),
                               anchorPos, endTime);
            r == Pushed(t.(current := None, currentStudyID := studyID), studyID, a)
  {
  }

  class TabletData {
    /** _study1Annotations and _study2Annotations. */
    var study1: seq<PointingTrial>
    var study2: seq<PointingTrial>
    /** _currentAnnotation and _currentStudyID. */
    var current: Option<Annotation>
    var currentStudyID: int
    var tabletID: int
    var headsetIP: Option<string>

    function State(): TabletState
      reads this
    {
      TabletState(study1, study2, current, currentStudyID, tabletID, headsetIP)
    }

    constructor (tabletID: int, headsetIP: Option<string>)
      ensures State() == Fresh(tabletID, headsetIP)
    {
      study1 := EmptyBuckets();
      study2 := EmptyBuckets();
      current := None;
      currentStudyID := -1;
      this.tabletID := tabletID;
      this.headsetIP := headsetIP;
    }

    method InitAnnotation(studyID: int, trialID: int, pointingID: int, targetPos: Option<Position>,
                          trialStartTime: int, annotStartTime: int)
      modifies this
      ensures State() == Initiated(old(State()), studyID, trialID, pointingID, targetPos, trialStartTime, annotStartTime)
    {
      current := Some(Annotation(trialID, pointingID, targetPos, targetPos, annotStartTime, trialStartTime));
      currentStudyID := studyID;
    }

    method CommitAnnotation(anchorPos: Position, endTime: int)
      modifies this
      ensures State() == Committed(old(State()), anchorPos, endTime)
    {
      if current != None {
        var a := current.value;
        a := a.(annotTCT := endTime - a.annotTCT);
        a := a.(trialTCT := endTime - a.trialTCT);
        a := a.(anchorPos := Some(anchorPos));
        current := None;
        PushAnnotation(currentStudyID, a);
      }
    }

    /** _pushAnnotation: walks the buckets of the study for the first one of
     *  the annotation's technique and appends to it. */
    method PushAnnotation(studyID: int, annot: Annotation)
      modifies this
      ensures State() == Pushed(old(State()), studyID, annot)
    {
      if studyID != 1 && studyID != 2 {
        return;
      }
      var studyList := if studyID == 1 then study1 else study2;
      var i := 0;
      while i < |studyList|
        invariant i <= |studyList| && studyList == if studyID == 1 then study1 else study2
        invariant forall j :: 0 <= j < i ==> studyList[j].pointingID != annot.pointingID
        invariant State() == old(State())
      {
        if studyList[i].pointingID == annot.pointingID {
          AppendedFirst(studyList, annot, i);
          var bucket := studyList[i].(annotations := studyList[i].annotations + [annot]);
          if studyID == 1 {
            study1 := study1[i := bucket];
          } else {
            study2 := study2[i := bucket];
          }
          break;
        }
        i := i + 1;
      }
      if i == |studyList| {
        AppendedNone(studyList, annot);
      }
    }
  }
}
