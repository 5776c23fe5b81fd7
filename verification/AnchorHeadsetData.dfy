/** AnchorHeadsetData: the anchoring data a headset sends in segments,
 *  collected until the transfer is declared finished. */
module AnchorHeadsetData {
  import opened SimpleInfo

  class AnchorHeadsetData {
    /** m_segmentData, in arrival order. */
    var segments: seq<DefaultByteArray>
    /** m_isCompleted. */
    var completed: bool

    constructor ()
      ensures !completed && segments == []
    {
      segments := [];
      completed := false;
    }

    /** isCompleted. */
    function IsCompleted(): (c: bool)
      reads this
      ensures c == completed
    {
      completed
    }

    /** getSegmentData. */
    function GetSegmentData(): (s: seq<DefaultByteArray>)
      reads this
      ensures s == segments
    {
      segments
    }

    /** pushDataSegment: the segment goes at the end; the others and the
     *  completion flag are kept. */
    method PushDataSegment(arr: DefaultByteArray)
      modifies this
      ensures segments == old(segments) + [arr] && completed == old(completed)
    {
      segments := segments + [arr];
    }

    /** finalize: a successful transfer is marked completed and keeps its
     *  segments; a failed one is marked not completed and loses them. */
    method Finalize(success: bool)
      modifies this
      ensures completed == success
      ensures segments == if success then old(segments) else []
    {
      if success {
        completed := true;
      } else {
        completed := false;
        segments := [];
      }
    }
  }
}
