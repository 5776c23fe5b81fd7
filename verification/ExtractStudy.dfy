/** The per-file pass of the CHI'20 analysis: the events a server logged
 *  during one session are replayed, in order, into two tablet records. */
module ExtractStudy {
  import opened Common
  import opened Tablet

  /** str.split with a one-character separator: the pieces between the
   *  separators, empty pieces included. */
  function Split(s: string, sep: char): (r: seq<string>)
    ensures |r| >= 1
    ensures forall i :: 0 <= i < |r| ==> sep !in r[i]
    decreases |s|
  {
    if s == [] then [[]]
    else
      var rest := Split(s[1..], sep);
      if s[0] == sep then [[]] + rest
      else [[s[0]] + rest[0]] + rest[1..]
  }

  /** The pieces put back together with the separator between them. */
  function Join(parts: seq<string>, sep: char): string
    requires |parts| >= 1
    decreases |parts|
  {
    if |parts| == 1 then parts[0] else parts[0] + [sep] + Join(parts[1..], sep)
  }

  /** Splitting loses nothing: joining the pieces gives the string back. */
  lemma {:induction false} SplitJoin(s: string, sep: char)
    ensures Join(Split(s, sep), sep) == s
    decreases |s|
  {
    if s != [] {
      var rest := Split(s[1..], sep);
      SplitJoin(s[1..], sep);
      if s[0] == sep {
        assert Split(s, sep)[1..] == rest;
        assert s == [] + [sep] + s[1..];
      } else {
        var r := Split(s, sep);
        if |rest| == 1 {
          assert r == [[s[0]] + rest[0]];
        } else {
          assert r[1..] == rest[1..];
          assert Join(rest, sep) == rest[0] + [sep] + Join(rest[1..], sep);
        }
      }
    }
  }

  /** A piece free of the separator, then the separator: the piece comes
   *  off first. */
  lemma {:induction false} SplitPrefix(p: string, sep: char, s: string)
    requires sep !in p
    ensures Split(p + [sep] + s, sep) == [p] + Split(s, sep)
    decreases |p|
  {
    if p == [] {
      assert ([] + [sep] + s)[1..] == s;
    } else {
      assert sep !in p[1..] by {
        forall k | 0 <= k < |p[1..]| ensures p[1..][k] != sep { assert p[1..][k] == p[k + 1]; }
      }
      SplitPrefix(p[1..], sep, s);
      assert (p + [sep] + s)[1..] == p[1..] + [sep] + s;
      assert [p[0]] + p[1..] == p;
    }
  }

  /** A string free of the separator is one piece. */
  lemma {:induction false} SplitWhole(p: string, sep: char)
    requires sep !in p
    ensures Split(p, sep) == [p]
    decreases |p|
  {
    if p != [] {
      assert sep !in p[1..] by {
        forall k | 0 <= k < |p[1..]| ensures p[1..][k] != sep { assert p[1..][k] == p[k + 1]; }
      }
      SplitWhole(p[1..], sep);
      assert [p[0]] + p[1..] == p;
    }
  }

  /** Pieces free of the separator are split back apart by it. */
  lemma {:induction false} JoinSplit(parts: seq<string>, sep: char)
    requires |parts| >= 1 && forall i :: 0 <= i < |parts| ==> sep !in parts[i]
    ensures Split(Join(parts, sep), sep) == parts
    decreases |parts|
  {
    if |parts| == 1 {
      SplitWhole(parts[0], sep);
    } else {
      JoinSplit(parts[1..], sep);
      SplitPrefix(parts[0], sep, Join(parts[1..], sep));
      assert [parts[0]] + parts[1..] == parts;
    }
  }

  /** A second piece exists exactly when the separator occurs. */
  lemma {:induction false} SplitHasSecond(s: string, sep: char)
    ensures |Split(s, sep)| >= 2 <==> sep in s
    decreases |s|
  {
    if s != [] {
      SplitHasSecond(s[1..], sep);
      assert sep in s <==> s[0] == sep || sep in s[1..] by {
        assert s == [s[0]] + s[1..];
      }
    }
  }

  /** One logged event: its type, its time offset, the headsetIP string
   *  ("address:role") and the members read for that type. */
  datatype Event =
    | HeadsetBindingInfo(timeOffset: int, headsetIP: string, tabletConnected: bool, tabletID: int)
    | SendNextTrial(timeOffset: int, headsetIP: string, currentTrialID: int, annotationPos: Position, currentTabletID: int)
    | StartAnnotation(timeOffset: int, headsetIP: string, pointingID: int)
    | AnchorAnnotation(timeOffset: int, headsetIP: string, localPos: Position)
    | OtherEvent(timeOffset: int, headsetIP: string)

  /** The state of the pass: the two tablets and the current trial, its
   *  target, its tablet and its start offset. */
  datatype Study = Study(
    tablets: seq<TabletState>, currentTrial: int, currentTarget: Option<Position>,
    currentTabletID: int, currentTrialOffset: int)

  /** Each file starts with tablets 0 and 1, no headset bound, and no
   *  trial running. */
  function Start(): (st: Study)
    ensures |st.tablets| == 2 && st.tablets[0] == Fresh(0, None) && st.tablets[1] == Fresh(1, None)
    ensures st.currentTrial == -1 && st.currentTarget == None && st.currentTabletID == -1 && st.currentTrialOffset == 0
  {
    Study([Fresh(0, None), Fresh(1, None)], -1, None, -1, 0)
  }

  /** Which tablets a `for tablet in tabletData` loop looks for. */
  datatype Key = ById(id: int) | ByAddress(address: string, id: int)

  predicate Matches(t: TabletState, k: Key)
  {
    match k
    case ById(id) => t.tabletID == id
    case ByAddress(a, id) => t.headsetIP == Some(a) && t.tabletID == id
  }

  /** The first tablet at or after `from` that the key selects. */
  function FirstMatch(ts: seq<TabletState>, k: Key, from: nat): (r: Option<nat>)
    requires from <= |ts|
    ensures r.Some? ==> from <= r.value < |ts| && Matches(ts[r.value], k)
    ensures r.Some? ==> forall j :: from <= j < r.value ==> !Matches(ts[j], k)
    ensures r.None? ==> forall j :: from <= j < |ts| ==> !Matches(ts[j], k)
    decreases |ts| - from
  {
    if from == |ts| then None
    else if Matches(ts[from], k) then Some(from)
    else FirstMatch(ts, k, from + 1)
  }

  /** What is done to the tablet a loop selects. */
  datatype Action =
    | Bind(address: string)
    | Init(trialID: int, pointingID: int, targetPos: Option<Position>, trialStartTime: int, annotStartTime: int)
    | Commit(anchorPos: Position, endTime: int)

  function Apply(t: TabletState, act: Action): (r: TabletState)
    ensures r.tabletID == t.tabletID
  {
    match act
    case Bind(a) => t.(headsetIP := Some(a))
    case Init(trial, pointing, target, trialStart, annotStart) => Initiated(t, 1, trial, pointing, target, trialStart, annotStart)
    case Commit(pos, end) => Committed(t, pos, end)
  }

  /** The loop: the first tablet the key selects is acted on, and the loop
   *  stops; the other tablets are left as they are, and nothing changes
   *  when no tablet is selected. */
  function OnFirst(ts: seq<TabletState>, k: Key, act: Action): (r: seq<TabletState>)
    ensures |r| == |ts|
    ensures forall j :: 0 <= j < |ts| ==> r[j].tabletID == ts[j].tabletID
    ensures var i := FirstMatch(ts, k, 0);
            forall j :: 0 <= j < |ts| ==> r[j] == if i == Some(j) then Apply(ts[j], act) else ts[j]
  {
    var i := FirstMatch(ts, k, 0);
    if i.None? then ts else ts[i.value := Apply(ts[i.value], act)]
  }

  /** The first part of the loop body: a binding with role "Tablet" and a
   *  connected tablet binds the address to the first tablet of that ID;
   *  SendNextTrial starts a trial, with its target, its tablet and its
   *  start offset. */
  function Track(st: Study, e: Event, parts: seq<string>): (r: Study)
    requires |parts| >= 1 && (e.HeadsetBindingInfo? ==> |parts| >= 2)
    ensures |r.tablets| == |st.tablets|
    ensures !e.SendNextTrial? ==> r.currentTrial == st.currentTrial && r.currentTarget == st.currentTarget
  {
    if e.HeadsetBindingInfo? && parts[1] == "Tablet" then
      if e.tabletConnected then st.(tablets := OnFirst(st.tablets, ById(e.tabletID), Bind(parts[0]))) else st
    else if e.SendNextTrial? then
      st.(currentTrial := e.currentTrialID, currentTarget := Some(e.annotationPos),
          currentTabletID := e.currentTabletID, currentTrialOffset := e.timeOffset)
    else st
  }

  /** The second part: while a trial runs, StartAnnotation starts an
   *  annotation (as study 1) and AnchorAnnotation commits it, on the first
   *  tablet bound to the sender's address and running the trial. */
  function Annotate(st: Study, e: Event, address: string): (r: Study)
    ensures |r.tablets| == |st.tablets|
    ensures r.currentTrial == st.currentTrial && r.currentTarget == st.currentTarget
    ensures st.currentTrial == -1 ==> r == st
  {
    var k := ByAddress(address, st.currentTabletID);
    if st.currentTrial == -1 then st
    else if e.StartAnnotation? then
      st.(tablets := OnFirst(st.tablets, k,
        Init(st.currentTrial, e.pointingID, st.currentTarget, st.currentTrialOffset, e.timeOffset)))
    else if e.AnchorAnnotation? then
      st.(tablets := OnFirst(st.tablets, k, Commit(e.localPos, e.timeOffset)))
    else st
  }

  /** One event. Only a HeadsetBindingInfo reads the role, the second piece
   *  of headsetIP; when there is none the pass fails (None). */
  function Step(st: Study, e: Event): (r: Option<Study>)
    ensures r.None? <==> e.HeadsetBindingInfo? && ':' !in e.headsetIP
    ensures r.Some? ==> |r.value.tablets| == |st.tablets|
    ensures st.currentTrial == -1 && (e.StartAnnotation? || e.AnchorAnnotation?) ==> r == Some(st)
  {
    var parts := Split(e.headsetIP, ':');
    SplitHasSecond(e.headsetIP, ':');
    if e.HeadsetBindingInfo? && |parts| < 2 then None
    else Some(Annotate(Track(st, e, parts), e, parts[0]))
  }

  /** The events of a file, in order; None once an event fails. */
  function Fold(st: Study, events: seq<Event>): Option<Study>
    decreases |events|
  {
    if events == [] then Some(st)
    else
      match Step(st, events[0])
      case None => None
      case Some(st') => Fold(st', events[1..])
  }

  /** A binding event whose headsetIP has no ':'. */
  predicate NoRole(e: Event)
  {
    e.HeadsetBindingInfo? && ':' !in e.headsetIP
  }

  /** The pass over a file fails exactly when one of its binding events
   *  carries no role. */
  lemma {:induction false} FoldFails(st: Study, events: seq<Event>)
    ensures Fold(st, events).None? <==> exists i :: 0 <= i < |events| && NoRole(events[i])
    decreases |events|
  {
    if events != [] {
      var r := Step(st, events[0]);
      if r.Some? {
        FoldFails(r.value, events[1..]);
        if exists i :: 0 <= i < |events| && NoRole(events[i]) {
          var i :| 0 <= i < |events| && NoRole(events[i]);
          assert i != 0;
          assert NoRole(events[1..][i - 1]);
        }
        if exists i :: 0 <= i < |events[1..]| && NoRole(events[1..][i]) {
          var i :| 0 <= i < |events[1..]| && NoRole(events[1..][i]);
          assert NoRole(events[i + 1]);
        }
      } else {
        assert NoRole(events[0]);
      }
    }
  }

  /** What the pass leaves untouched: the tablets keep their IDs and
   *  their study-2 buckets, since every annotation is started as study 1. */
  predicate Keeps(st: Study, st': Study)
  {
    |st'.tablets| == |st.tablets|
    && forall j :: 0 <= j < |st.tablets| ==>
         st'.tablets[j].tabletID == st.tablets[j].tabletID && st'.tablets[j].study2 == st.tablets[j].study2
  }

  /** No tablet has an annotation pending for study 2. */
  predicate NoStudy2(ts: seq<TabletState>)
  {
    forall j :: 0 <= j < |ts| ==> ts[j].currentStudyID != 2
  }

  /** Acting on a tablet keeps its study-2 buckets and marks nothing for
   *  study 2. */
  lemma OnFirstKeeps(ts: seq<TabletState>, k: Key, act: Action)
    requires NoStudy2(ts)
    ensures var r := OnFirst(ts, k, act);
            NoStudy2(r) && forall j :: 0 <= j < |ts| ==> r[j].study2 == ts[j].study2
  {
  }

  /** One event keeps the IDs and the study-2 buckets, and marks no
   *  pending annotation for study 2. */
  lemma StepKeepsStudy2(st: Study, e: Event)
    requires NoStudy2(st.tablets)
    ensures var r := Step(st, e);
            r.Some? ==> Keeps(st, r.value) && NoStudy2(r.value.tablets)
  {
    var parts := Split(e.headsetIP, ':');
    if Step(st, e).Some? {
      var st1 := Track(st, e, parts);
      var k := ByAddress(parts[0], st1.currentTabletID);
      if e.HeadsetBindingInfo? && parts[1] == "Tablet" && e.tabletConnected {
        OnFirstKeeps(st.tablets, ById(e.tabletID), Bind(parts[0]));
      }
      if st1.currentTrial != -1 && e.StartAnnotation? {
        OnFirstKeeps(st1.tablets, k, Init(st1.currentTrial, e.pointingID, st1.currentTarget, st1.currentTrialOffset, e.timeOffset));
      } else if st1.currentTrial != -1 && e.AnchorAnnotation? {
        OnFirstKeeps(st1.tablets, k, Commit(e.localPos, e.timeOffset));
      }
    }
  }

  /** Nothing ever reaches the study-2 buckets, given that no annotation
   *  pending at the start is marked for study 2. */
  lemma {:induction false} FoldKeepsStudy2(st: Study, events: seq<Event>)
    requires NoStudy2(st.tablets)
    ensures Fold(st, events).Some? ==> Keeps(st, Fold(st, events).value)
    decreases |events|
  {
    if events != [] {
      var r := Step(st, events[0]);
      if r.Some? {
        StepKeepsStudy2(st, events[0]);
        FoldKeepsStudy2(r.value, events[1..]);
      }
    }
  }

  /** Every annotation in a bucket carries both its target and its anchor
   *  position. */
  predicate Located(bs: seq<PointingTrial>)
  {
    forall i, n :: 0 <= i < |bs| && 0 <= n < |bs[i].annotations| ==>
      bs[i].annotations[n].targetPos.Some? && bs[i].annotations[n].anchorPos.Some?
  }

  /** ... which appending keeps, for an annotation that carries both. */
  lemma {:induction false} AppendedLocated(bs: seq<PointingTrial>, a: Annotation)
    requires Located(bs) && a.targetPos.Some? && a.anchorPos.Some?
    ensures Located(Appended(bs, a))
    decreases |bs|
  {
    if bs != [] && bs[0].pointingID != a.pointingID {
      assert Located(bs[1..]) by {
        forall i, n | 0 <= i < |bs[1..]| && 0 <= n < |bs[1..][i].annotations|
          ensures bs[1..][i].annotations[n].targetPos.Some? && bs[1..][i].annotations[n].anchorPos.Some?
        {
          assert bs[1..][i] == bs[i + 1];
        }
      }
      AppendedLocated(bs[1..], a);
      var r := Appended(bs, a);
      forall i, n | 0 <= i < |r| && 0 <= n < |r[i].annotations|
        ensures r[i].annotations[n].targetPos.Some? && r[i].annotations[n].anchorPos.Some?
      {
        if i > 0 {
          assert r[i] == Appended(bs[1..], a)[i - 1];
        }
      }
    }
  }

  /** A tablet whose recorded annotations carry both positions and whose
   *  pending annotation carries a target. */
  predicate TabletSound(t: TabletState)
  {
    Located(t.study1) && Located(t.study2) && (t.current.Some? ==> t.current.value.targetPos.Some?)
  }

  /** The invariant of the pass: while a trial runs its target is known,
   *  and every tablet is sound. */
  predicate Sound(st: Study)
  {
    (st.currentTrial != -1 ==> st.currentTarget.Some?)
    && forall j :: 0 <= j < |st.tablets| ==> TabletSound(st.tablets[j])
  }

  /** Acting on a sound tablet, starting only annotations with a target,
   *  keeps it sound. */
  lemma ApplySound(t: TabletState, act: Action)
    requires TabletSound(t) && (act.Init? ==> act.targetPos.Some?)
    ensures TabletSound(Apply(t, act))
  {
    if act.Commit? && t.current.Some? {
      var a := Stamped(t.current.value, act.anchorPos, act.endTime);
      AppendedLocated(t.study1, a);
      AppendedLocated(t.study2, a);
    }
  }

  lemma OnFirstSound(ts: seq<TabletState>, k: Key, act: Action)
    requires forall j :: 0 <= j < |ts| ==> TabletSound(ts[j])
    requires act.Init? ==> act.targetPos.Some?
    ensures var r := OnFirst(ts, k, act); forall j :: 0 <= j < |r| ==> TabletSound(r[j])
  {
    var i := FirstMatch(ts, k, 0);
    if i.Some? {
      ApplySound(ts[i.value], act);
    }
  }

  lemma StepSound(st: Study, e: Event)
    requires Sound(st)
    ensures Step(st, e).Some? ==> Sound(Step(st, e).value)
  {
    var parts := Split(e.headsetIP, ':');
    if Step(st, e).Some? {
      var st1 := Track(st, e, parts);
      var k := ByAddress(parts[0], st1.currentTabletID);
      if e.HeadsetBindingInfo? && parts[1] == "Tablet" && e.tabletConnected {
        OnFirstSound(st.tablets, ById(e.tabletID), Bind(parts[0]));
      }
      assert Sound(st1);
      if st1.currentTrial != -1 && e.StartAnnotation? {
        OnFirstSound(st1.tablets, k, Init(st1.currentTrial, e.pointingID, st1.currentTarget, st1.currentTrialOffset, e.timeOffset));
      } else if st1.currentTrial != -1 && e.AnchorAnnotation? {
        OnFirstSound(st1.tablets, k, Commit(e.localPos, e.timeOffset));
      }
    }
  }

  /** Every annotation the pass records has both a target and an anchor
   *  position, from which the accuracy is later computed. */
  lemma {:induction false} FoldSound(st: Study, events: seq<Event>)
    requires Sound(st)
    ensures Fold(st, events).Some? ==> Sound(Fold(st, events).value)
    decreases |events|
  {
    if events != [] {
      var r := Step(st, events[0]);
      if r.Some? {
        StepSound(st, events[0]);
        FoldSound(r.value, events[1..]);
      }
    }
  }

  /** A file's pass, from fresh tablets, records only located annotations
   *  and only in study-1 buckets. */
  lemma FileResult(events: seq<Event>)
    ensures var r := Fold(Start(), events);
            r.Some? ==> Sound(r.value) && Keeps(Start(), r.value)
  {
    FoldSound(Start(), events);
    FoldKeepsStudy2(Start(), events);
  }

  /** The tablets' states, in order. */
  function States(ts: seq<TabletData>): (r: seq<TabletState>)
    reads ts
    ensures |r| == |ts| && forall i :: 0 <= i < |ts| ==> r[i] == ts[i].State()
  {
    if ts == [] then [] else [ts[0].State()] + States(ts[1..])
  }

  /** States is determined by the tablets' states, index by index. */
  lemma StatesAre(ts: seq<TabletData>, s: seq<TabletState>)
    requires |s| == |ts| && forall j :: 0 <= j < |ts| ==> ts[j].State() == s[j]
    ensures States(ts) == s
  {
  }

  /** The call the loop makes on the tablet it selects. */
  method ActOn(tablet: TabletData, act: Action)
    modifies tablet
    ensures tablet.State() == Apply(old(tablet.State()), act)
  {
    match act {
      case Bind(a) => tablet.headsetIP := Some(a);
      case Init(trial, pointing, target, trialStart, annotStart) =>
        tablet.InitAnnotation(1, trial, pointing, target, trialStart, annotStart);
      case Commit(pos, end) => tablet.CommitAnnotation(pos, end);
    }
  }

  /** The `for tablet in tabletData: if ...: ...; break` loops. */
  method ActOnFirst(tablets: seq<TabletData>, k: Key, act: Action)
    requires forall i, j :: 0 <= i < j < |tablets| ==> tablets[i] != tablets[j]
    modifies tablets
    ensures States(tablets) == OnFirst(old(States(tablets)), k, act)
  {
    ghost var ts := States(tablets);
    var i := 0;
    while i < |tablets|
      invariant i <= |tablets| && States(tablets) == ts
      invariant FirstMatch(ts, k, 0) == FirstMatch(ts, k, i)
    {
      var tablet := tablets[i];
      if Matches(tablet.State(), k) {
        assert FirstMatch(ts, k, i) == Some(i);
        ghost var want := ts[i := Apply(ts[i], act)];
        assert OnFirst(ts, k, act) == want;
        ActOn(tablet, act);
        forall j | 0 <= j < |tablets|
          ensures tablets[j].State() == want[j]
        {
          if j != i {
            assert tablets[j] != tablet;
          }
        }
        StatesAre(tablets, want);
        return;
      }
      i := i + 1;
    }
  }

  /** The first part of the loop body, on the tablets and the locals
   *  currentTrial, currentTargetPosition, currentTabletID and
   *  currentTrialOffset. */
  method TrackEvent(tabletData: seq<TabletData>, obj: Event, headsetIP: seq<string>,
                    trial: int, target: Option<Position>, tabletID: int, offset: int)
    returns (trial': int, target': Option<Position>, tabletID': int, offset': int)
    requires |tabletData| == 2 && tabletData[0] != tabletData[1]
    requires |headsetIP| >= 1 && (obj.HeadsetBindingInfo? ==> |headsetIP| >= 2)
    modifies tabletData
    ensures Study(States(tabletData), trial', target', tabletID', offset')
         == Track(Study(old(States(tabletData)), trial, target, tabletID, offset), obj, headsetIP)
  {
    trial', target', tabletID', offset' := trial, target, tabletID, offset;
    if obj.HeadsetBindingInfo? && headsetIP[1] == "Tablet" {
      if obj.tabletConnected {
        ActOnFirst(tabletData, ById(obj.tabletID), Bind(headsetIP[0]));
      }
    } else if obj.SendNextTrial? {
      trial' := obj.currentTrialID;
      target' := Some(obj.annotationPos);
      tabletID' := obj.currentTabletID;
      offset' := obj.timeOffset;
    }
  }

  /** The second part of the loop body: the annotation events of a running
   *  trial; the locals are only read. */
  method AnnotateEvent(tabletData: seq<TabletData>, obj: Event, address: string,
                       trial: int, target: Option<Position>, tabletID: int, offset: int)
    requires |tabletData| == 2 && tabletData[0] != tabletData[1]
    modifies tabletData
    ensures Study(States(tabletData), trial, target, tabletID, offset)
         == Annotate(Study(old(States(tabletData)), trial, target, tabletID, offset), obj, address)
  {
    if trial != -1 {
      var k := ByAddress(address, tabletID);
      if obj.StartAnnotation? {
        ActOnFirst(tabletData, k, Init(trial, obj.pointingID, target, offset, obj.timeOffset));
      } else if obj.AnchorAnnotation? {
        ActOnFirst(tabletData, k, Commit(obj.localPos, obj.timeOffset));
      }
    }
  }

  /** One pass of the loop body: false when the event raises. */
  method ExtractEvent(tabletData: seq<TabletData>, obj: Event,
                      trial: int, target: Option<Position>, tabletID: int, offset: int)
    returns (ok: bool, trial': int, target': Option<Position>, tabletID': int, offset': int)
    requires |tabletData| == 2 && tabletData[0] != tabletData[1]
    modifies tabletData
    ensures var r := Step(Study(old(States(tabletData)), trial, target, tabletID, offset), obj);
            (ok <==> r.Some?) && (ok ==> Study(States(tabletData), trial', target', tabletID', offset') == r.value)
  {
    var headsetIP := Split(obj.headsetIP, ':');
    SplitHasSecond(obj.headsetIP, ':');
    if obj.HeadsetBindingInfo? && |headsetIP| < 2 {
      return false, trial, target, tabletID, offset;
    }
    trial', target', tabletID', offset' := TrackEvent(tabletData, obj, headsetIP, trial, target, tabletID, offset);
    AnnotateEvent(tabletData, obj, headsetIP[0], trial', target', tabletID', offset');
    ok := true;
  }

  /** The loop over one file's events, from the state of the locals and
   *  the tablets given; false once an event raises. */
  method ExtractEvents(tabletData: seq<TabletData>, events: seq<Event>) returns (ok: bool)
    requires |tabletData| == 2 && tabletData[0] != tabletData[1]
    modifies tabletData
    ensures var r := Fold(Study(old(States(tabletData)), -1, None, -1, 0), events);
            (ok <==> r.Some?) && (ok ==> States(tabletData) == r.value.tablets)
  {
    var currentTrial := -1;
    var currentTargetPosition: Option<Position> := None;
    var currentTabletID := -1;
    var currentTrialOffset := 0;
    ghost var start := Study(States(tabletData), -1, None, -1, 0);
    for n := 0 to |events|
      invariant Fold(start, events)
             == Fold(Study(States(tabletData), currentTrial, currentTargetPosition, currentTabletID, currentTrialOffset), events[n..])
    {
      assert events[n..][0] == events[n] && events[n..][1..] == events[n + 1..];
      ok, currentTrial, currentTargetPosition, currentTabletID, currentTrialOffset :=
        ExtractEvent(tabletData, events[n], currentTrial, currentTargetPosition, currentTabletID, currentTrialOffset);
      if !ok {
        return;
      }
    }
    assert events[|events|..] == [];
    ok := true;
  }

  /** The pass over one file: two fresh tablets, then the loop over its
   *  events. `ok` is false when an event raised (a binding without a
   *  role). */
  method ExtractFile(events: seq<Event>) returns (ok: bool, tabletData: seq<TabletData>)
    ensures |tabletData| == 2 && fresh(tabletData[0]) && fresh(tabletData[1])
    ensures ok <==> Fold(Start(), events).Some?
    ensures ok ==> States(tabletData) == Fold(Start(), events).value.tablets
  {
    var t0 := new TabletData(0, None);
    var t1 := new TabletData(1, None);
    tabletData := [t0, t1];
    assert States(tabletData) == Start().tablets;
    ok := ExtractEvents(tabletData, events);
  }

  /** What opening and loading a file gives: an error from open, JSON that
   *  does not parse, or the logged events. */
  datatype Input = Unreadable | NotJson | Logged(events: seq<Event>)

  /** How the run over the files ends: with pairData; with an IOError,
   *  which exits; or with an uncaught exception from a file's pass. */
  datatype RunResult = Analysed(pairData: map<string, seq<TabletState>>) | OpenFailed | Crashed

  /** The loop over the files, with pairData so far. A file that does not
   *  parse is skipped; one whose pass succeeds is entered under its
   *  name. */
  function RunFiles(files: seq<(string, Input)>, pairData: map<string, seq<TabletState>>): RunResult
    decreases |files|
  {
    if files == [] then Analysed(pairData)
    else
      match files[0].1
      case Unreadable => OpenFailed
      case NotJson => RunFiles(files[1..], pairData)
      case Logged(events) =>
        match Fold(Start(), events)
        case None => Crashed
        case Some(st) => RunFiles(files[1..], pairData[files[0].0 := st.tablets])
  }

  /** Some file of that name had JSON that parsed. */
  predicate LoggedIn(files: seq<(string, Input)>, name: string)
  {
    exists i :: 0 <= i < |files| && files[i].0 == name && files[i].1.Logged?
  }

  /** LoggedIn, looking at the first file and then the rest. */
  lemma LoggedCons(files: seq<(string, Input)>, name: string)
    requires files != []
    ensures LoggedIn(files, name) <==> (files[0].0 == name && files[0].1.Logged?) || LoggedIn(files[1..], name)
  {
    if LoggedIn(files, name) {
      var i :| 0 <= i < |files| && files[i].0 == name && files[i].1.Logged?;
      if i > 0 {
        assert files[1..][i - 1] == files[i];
      }
    }
    if LoggedIn(files[1..], name) {
      var i :| 0 <= i < |files[1..]| && files[1..][i].0 == name && files[1..][i].1.Logged?;
      assert files[i + 1] == files[1..][i];
    }
  }

  /** When the run finishes, pairData has an entry for exactly the files
   *  whose JSON parsed (and those it had before). */
  lemma {:induction false} RunKeys(files: seq<(string, Input)>, pairData: map<string, seq<TabletState>>, name: string)
    ensures var r := RunFiles(files, pairData);
            r.Analysed? ==> (name in r.pairData <==> name in pairData || LoggedIn(files, name))
    decreases |files|
  {
    if files != [] && !files[0].1.Unreadable? {
      LoggedCons(files, name);
      if files[0].1.NotJson? {
        RunKeys(files[1..], pairData, name);
      } else {
        var r := Fold(Start(), files[0].1.events);
        if r.Some? {
          RunKeys(files[1..], pairData[files[0].0 := r.value.tablets], name);
        }
      }
    }
  }

  /** Two tablets that recorded only located annotations. */
  predicate Recorded(ts: seq<TabletState>)
  {
    |ts| == 2 && forall j :: 0 <= j < 2 ==> TabletSound(ts[j])
  }

  /** Every entry of a finished run holds two tablets that recorded only
   *  located annotations. */
  lemma {:induction false} RunRecorded(files: seq<(string, Input)>, pairData: map<string, seq<TabletState>>)
    requires forall name :: name in pairData ==> Recorded(pairData[name])
    ensures var r := RunFiles(files, pairData);
            r.Analysed? ==> forall name :: name in r.pairData ==> Recorded(r.pairData[name])
    decreases |files|
  {
    if files != [] && !files[0].1.Unreadable? {
      if files[0].1.NotJson? {
        RunRecorded(files[1..], pairData);
      } else {
        var r := Fold(Start(), files[0].1.events);
        if r.Some? {
          FileResult(files[0].1.events);
          assert Recorded(r.value.tablets);
          RunRecorded(files[1..], pairData[files[0].0 := r.value.tablets]);
        }
      }
    }
  }

  /** The loop over the command-line files. */
  method ExtractAll(files: seq<(string, Input)>) returns (r: RunResult)
    ensures r == RunFiles(files, map[])
  {
    var pairData: map<string, seq<TabletState>> := map[];
    for n := 0 to |files|
      invariant RunFiles(files, map[]) == RunFiles(files[n..], pairData)
    {
      assert files[n..][0] == files[n] && files[n..][1..] == files[n + 1..];
      var (fileName, input) := files[n];
      match input {
        case Unreadable =>
          return OpenFailed;
        case NotJson =>
        case Logged(events) =>
          var ok, tabletData := ExtractFile(events);
          if !ok {
            return Crashed;
          }
          pairData := pairData[fileName := States(tabletData)];
      }
    }
    r := Analysed(pairData);
  }
}
