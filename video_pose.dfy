/**
 * The offline biomechanical analyser: it reads a whole video, keeps the
 * MediaPipe key points and joint angles of every frame with a detected pose,
 * then derives foot-contact events, stride timing and per-joint angle
 * statistics.  Landmarks stay in MediaPipe's normalised coordinates.  The
 * pose detector and the angle formula (an arccosine) are parameters: the
 * video is the sequence of decoded frames, `None` where no pose was found.
 */
module VideoPose {
  import opened Common

  /** Vertical ankle movement below this, between consecutive frames, is a contact. */
  const ContactThreshold: real := 0.01
  const MinContactEvents := 4
  const ContactEventsShown := 10

  const Sides: seq<string> := ["left", "right"]

  const AngleNames: seq<string> := ["left_knee", "right_knee", "left_hip", "right_hip", "left_ankle", "right_ankle"]

  /** The seventeen landmarks of `extract_key_points`, by MediaPipe index. */
  const LandmarkIndex: map<string, nat> := map[
    "nose" := 0, "left_shoulder" := 11, "right_shoulder" := 12, "left_elbow" := 13, "right_elbow" := 14,
    "left_wrist" := 15, "right_wrist" := 16, "left_hip" := 23, "right_hip" := 24, "left_knee" := 25,
    "right_knee" := 26, "left_ankle" := 27, "right_ankle" := 28, "left_heel" := 29, "right_heel" := 30,
    "left_foot_index" := 31, "right_foot_index" := 32]

  datatype Landmark = Landmark(x: real, y: real, z: real, visibility: real)

  type KeyPoints = map<string, Landmark>

  type Point = (real, real)

  /** `calculate_joint_angles`: the frame index and the angles that could be measured. */
  datatype JointAngles = JointAngles(frame: nat, angles: map<string, real>)

  datatype FrameRecord = FrameRecord(frame: nat, timestamp: real, poseLandmarks: seq<Landmark>,
                                     keyPoints: KeyPoints, jointAngles: JointAngles)

  datatype ContactEvent = ContactEvent(frame: nat, timestamp: real, foot: string, anklePosition: Landmark)

  /**
   * `calculate_stride_metrics`.  `asymmetry` is `None` where NumPy would
   * divide by a zero mean interval and report a non-finite value.
   */
  datatype StrideSummary = StrideSummary(strideCount: nat, averageStrideTime: real, strideRate: real,
                                         asymmetry: Option<real>)

  /** The statistics of one joint; NumPy's `std` is the square root of `variance`. */
  datatype AngleStat = AngleStat(min: real, max: real, mean: real, variance: real, range: real)

  datatype VideoError = CouldNotOpen | NoPoseData | FrameRateZero

  datatype VideoAnalysis = VideoAnalysis(fps: real, totalFrames: int, duration: real, frameData: seq<FrameRecord>,
                                         strideAnalysis: StrideSummary, jointAngles: map<string, AngleStat>,
                                         contactEvents: seq<ContactEvent>, analyzedFrames: nat)

  // ------------------------------------------------------------ key points

  /** The key points of `extract_key_points`: every listed landmark whose index the pose reaches. */
  function KeyPointsOf(pose: Option<seq<Landmark>>): (r: KeyPoints)
    ensures pose.None? ==> r == map[]
    ensures pose.Some? ==>
              (forall n :: n in r <==> n in LandmarkIndex && LandmarkIndex[n] < |pose.value|)
              && forall n :: n in r ==> r[n] == pose.value[LandmarkIndex[n]]
  {
    if pose.None? then map[]
    else map n | n in LandmarkIndex && LandmarkIndex[n] < |pose.value| :: pose.value[LandmarkIndex[n]]
  }

  /** `extract_key_points`, landmark by landmark. */
  method ExtractKeyPoints(pose: Option<seq<Landmark>>) returns (r: KeyPoints)
    ensures r == KeyPointsOf(pose)
  {
    r := map[];
    if pose.None? {
      return;
    }
    var p := pose.value;
    var todo := LandmarkIndex.Keys;
    while todo != {}
      invariant todo <= LandmarkIndex.Keys
      invariant forall n :: n in r <==> n in LandmarkIndex && n !in todo && LandmarkIndex[n] < |p|
      invariant forall n :: n in r ==> r[n] == p[LandmarkIndex[n]]
      decreases todo
    {
      var n :| n in todo;
      if LandmarkIndex[n] < |p| {
        r := r[n := p[LandmarkIndex[n]]];
      }
      todo := todo - {n};
    }
  }

  function PointOf(kp: KeyPoints, n: string): Point
    requires n in kp
  {
    (kp[n].x, kp[n].y)
  }

  predicate Has3(kp: KeyPoints, a: string, b: string, c: string)
  {
    a in kp && b in kp && c in kp
  }

  /** The angle at `b` between `a` and `c`, added under `key` only when all three are present. */
  function WithAngle(m: map<string, real>, key: string, kp: KeyPoints, a: string, b: string, c: string,
                     angleAt: (Point, Point, Point) -> real): (r: map<string, real>)
    ensures key in r <==> key in m || Has3(kp, a, b, c)
    ensures forall k :: k in r && k != key ==> k in m && r[k] == m[k]
    ensures Has3(kp, a, b, c) ==> r[key] == angleAt(PointOf(kp, a), PointOf(kp, b), PointOf(kp, c))
    ensures !Has3(kp, a, b, c) ==> r == m
  {
    if Has3(kp, a, b, c) then m[key := angleAt(PointOf(kp, a), PointOf(kp, b), PointOf(kp, c))] else m
  }

  /** The angle `key` is present exactly when its three landmarks are, and then is the angle at the middle one. */
  predicate Measured(angles: map<string, real>, key: string, kp: KeyPoints, a: string, b: string, c: string,
                     angleAt: (Point, Point, Point) -> real)
  {
    (key in angles <==> Has3(kp, a, b, c))
    && (key in angles ==> angles[key] == angleAt(PointOf(kp, a), PointOf(kp, b), PointOf(kp, c)))
  }

  /** `calculate_joint_angles`: each of the six angles exactly when its three landmarks are present. */
  function JointAnglesOf(kp: KeyPoints, frame: nat, angleAt: (Point, Point, Point) -> real): (r: JointAngles)
    ensures r.frame == frame
    ensures Measured(r.angles, "left_knee", kp, "left_hip", "left_knee", "left_ankle", angleAt)
    ensures Measured(r.angles, "right_knee", kp, "right_hip", "right_knee", "right_ankle", angleAt)
    ensures Measured(r.angles, "left_hip", kp, "left_shoulder", "left_hip", "left_knee", angleAt)
    ensures Measured(r.angles, "right_hip", kp, "right_shoulder", "right_hip", "right_knee", angleAt)
    ensures Measured(r.angles, "left_ankle", kp, "left_knee", "left_ankle", "left_foot_index", angleAt)
    ensures Measured(r.angles, "right_ankle", kp, "right_knee", "right_ankle", "right_foot_index", angleAt)
    ensures forall j :: j in r.angles ==> j in AngleNames
  {
    var m1 := WithAngle(map[], "left_knee", kp, "left_hip", "left_knee", "left_ankle", angleAt);
    var m2 := WithAngle(m1, "right_knee", kp, "right_hip", "right_knee", "right_ankle", angleAt);
    var m3 := WithAngle(m2, "left_hip", kp, "left_shoulder", "left_hip", "left_knee", angleAt);
    var m4 := WithAngle(m3, "right_hip", kp, "right_shoulder", "right_hip", "right_knee", angleAt);
    var m5 := WithAngle(m4, "left_ankle", kp, "left_knee", "left_ankle", "left_foot_index", angleAt);
    var m6 := WithAngle(m5, "right_ankle", kp, "right_knee", "right_ankle", "right_foot_index", angleAt);
    JointAngles(frame, m6)
  }

  // --------------------------------------------------------- foot contacts

  function AnkleKey(side: string): string { side + "_ankle" }

  /** The contact one side reports between two consecutive records, stamped with the later one. */
  function SideContact(side: string, prev: FrameRecord, curr: FrameRecord): (r: seq<ContactEvent>)
    ensures |r| <= 1
    ensures |r| == 1 <==> AnkleKey(side) in prev.keyPoints && AnkleKey(side) in curr.keyPoints
                          && AbsR(curr.keyPoints[AnkleKey(side)].y - prev.keyPoints[AnkleKey(side)].y) < ContactThreshold
    ensures |r| == 1 ==> r[0] == ContactEvent(curr.frame, curr.timestamp, side, curr.keyPoints[AnkleKey(side)])
  {
    var k := AnkleKey(side);
    if k in prev.keyPoints && k in curr.keyPoints && AbsR(curr.keyPoints[k].y - prev.keyPoints[k].y) < ContactThreshold
    then [ContactEvent(curr.frame, curr.timestamp, side, curr.keyPoints[k])]
    else []
  }

  /** The contacts of both feet for one pair of records, left first. */
  function PairContacts(prev: FrameRecord, curr: FrameRecord): seq<ContactEvent>
  {
    SideContact("left", prev, curr) + SideContact("right", prev, curr)
  }

  /** The events of `detect_foot_contacts`: none for fewer than two records, else every consecutive pair in order. */
  function FootContacts(records: seq<FrameRecord>): (r: seq<ContactEvent>)
    ensures |records| < 2 ==> r == []
    ensures |r| <= 2 * (|records| - 1) || |records| < 2
  {
    if |records| < 2 then []
    else FootContacts(records[..|records| - 1]) + PairContacts(records[|records| - 2], records[|records| - 1])
  }

  /** `detect_foot_contacts`: for each consecutive pair, for each side. */
  method DetectFootContacts(records: seq<FrameRecord>) returns (events: seq<ContactEvent>)
    ensures events == FootContacts(records)
  {
    events := [];
    if |records| < 2 {
      return;
    }
    for i := 1 to |records|
      invariant events == FootContacts(records[..i])
    {
      var prev, curr := records[i - 1], records[i];
      var before := events;
      for j := 0 to |Sides|
        invariant events == before + (if j == 0 then [] else if j == 1 then SideContact("left", prev, curr)
                                      else PairContacts(prev, curr))
      {
        events := events + SideContact(Sides[j], prev, curr);
      }
      var next := records[..i + 1];
      assert next[..i] == records[..i] && next[i - 1] == prev && next[i] == curr;
    }
    WholePrefix(records);
  }

  /**
   * Every reported contact comes from a consecutive pair of records in which
   * that foot's ankle is visible in both and moved less than the threshold,
   * and carries the later record's frame and timestamp.
   */
  lemma {:induction false} ContactsSound(records: seq<FrameRecord>, e: ContactEvent)
    requires e in FootContacts(records)
    ensures exists i :: 1 <= i < |records| && e.foot in Sides && e.frame == records[i].frame
              && e.timestamp == records[i].timestamp && SideContact(e.foot, records[i - 1], records[i]) == [e]
  {
    var n := |records|;
    var init := records[..n - 1];
    var pair := PairContacts(records[n - 2], records[n - 1]);
    if e in FootContacts(init) {
      ContactsSound(init, e);
      var i :| 1 <= i < |init| && e.foot in Sides && e.frame == init[i].frame
               && e.timestamp == init[i].timestamp && SideContact(e.foot, init[i - 1], init[i]) == [e];
      assert init[i] == records[i] && init[i - 1] == records[i - 1];
    } else {
      assert e in pair;
      if e in SideContact("left", records[n - 2], records[n - 1]) {
        assert e.foot == "left";
      } else {
        assert e.foot == "right";
      }
    }
  }

  /** Conversely, every such pair and foot produces a contact. */
  lemma {:induction false} ContactsComplete(records: seq<FrameRecord>, i: nat, side: string)
    requires 1 <= i < |records| && side in Sides
    requires AnkleKey(side) in records[i - 1].keyPoints && AnkleKey(side) in records[i].keyPoints
    requires AbsR(records[i].keyPoints[AnkleKey(side)].y - records[i - 1].keyPoints[AnkleKey(side)].y) < ContactThreshold
    ensures ContactEvent(records[i].frame, records[i].timestamp, side, records[i].keyPoints[AnkleKey(side)])
            in FootContacts(records)
  {
    var n := |records|;
    var init := records[..n - 1];
    var e := ContactEvent(records[i].frame, records[i].timestamp, side, records[i].keyPoints[AnkleKey(side)]);
    if i < n - 1 {
      assert init[i] == records[i] && init[i - 1] == records[i - 1];
      ContactsComplete(init, i, side);
      ContactsKept(records, e);
    } else {
      PairHasContact(records[n - 2], records[n - 1], side);
      ContactsOfLastPair(records, e);
    }
  }

  /** The contacts of all records but the last are still reported with the last. */
  lemma ContactsKept(records: seq<FrameRecord>, e: ContactEvent)
    requires |records| >= 2 && e in FootContacts(records[..|records| - 1])
    ensures e in FootContacts(records)
  {
  }

  /** The contacts of the last pair are reported. */
  lemma ContactsOfLastPair(records: seq<FrameRecord>, e: ContactEvent)
    requires |records| >= 2 && e in PairContacts(records[|records| - 2], records[|records| - 1])
    ensures e in FootContacts(records)
  {
  }

  /** A foot that stays within the threshold between two records gives a contact of the pair. */
  lemma PairHasContact(prev: FrameRecord, curr: FrameRecord, side: string)
    requires side in Sides
    requires AnkleKey(side) in prev.keyPoints && AnkleKey(side) in curr.keyPoints
    requires AbsR(curr.keyPoints[AnkleKey(side)].y - prev.keyPoints[AnkleKey(side)].y) < ContactThreshold
    ensures ContactEvent(curr.frame, curr.timestamp, side, curr.keyPoints[AnkleKey(side)]) in PairContacts(prev, curr)
  {
    var e := ContactEvent(curr.frame, curr.timestamp, side, curr.keyPoints[AnkleKey(side)]);
    var pair := PairContacts(prev, curr);
    assert SideContact(side, prev, curr) == [e];
    if side == "left" {
      assert pair[0] == e;
    } else {
      assert pair[|pair| - 1] == e;
    }
  }

  // --------------------------------------------------------------- strides

  predicate IsLeft(e: ContactEvent) { e.foot == "left" }

  predicate IsRight(e: ContactEvent) { e.foot == "right" }

  function Timestamps(events: seq<ContactEvent>): (r: seq<real>)
    ensures |r| == |events| && forall i :: 0 <= i < |events| ==> r[i] == events[i].timestamp
  {
    if events == [] then [] else Timestamps(events[..|events| - 1]) + [events[|events| - 1].timestamp]
  }

  /** The gaps between consecutive timestamps. */
  function Intervals(ts: seq<real>): (r: seq<real>)
    ensures |ts| < 2 ==> r == []
    ensures |ts| >= 2 ==> |r| == |ts| - 1
    ensures forall i :: 0 <= i < |r| ==> r[i] == ts[i + 1] - ts[i]
  {
    if |ts| < 2 then [] else Intervals(ts[..|ts| - 1]) + [ts[|ts| - 1] - ts[|ts| - 2]]
  }

  /** A foot's stride times, one per pair of its consecutive contacts. */
  method StrideTimes(contacts: seq<ContactEvent>) returns (times: seq<real>)
    ensures times == Intervals(Timestamps(contacts))
  {
    times := [];
    if |contacts| < 2 {
      return;
    }
    ghost var ts := Timestamps(contacts);
    for i := 1 to |contacts|
      invariant |times| == i - 1
      invariant forall j :: 0 <= j < |times| ==> times[j] == ts[j + 1] - ts[j]
    {
      times := times + [contacts[i].timestamp - contacts[i - 1].timestamp];
    }
    var iv := Intervals(ts);
    assert |ts| == |contacts| && |times| == |iv|;
    forall j | 0 <= j < |times|
      ensures times[j] == iv[j]
    {
      assert times[j] == ts[j + 1] - ts[j];
      assert iv[j] == ts[j + 1] - ts[j];
    }
  }

  /** `abs(left_avg - right_avg) / max(left_avg, right_avg) * 100`, when both feet have strides. */
  function Asymmetry(left: seq<real>, right: seq<real>): Option<real>
  {
    if left != [] && right != [] then
      var m := MaxR(Mean(left), Mean(right));
      if m == 0.0 then None else Some(AbsR(Mean(left) - Mean(right)) / m * 100.0)
    else Some(0.0)
  }

  /** The summary of `calculate_stride_metrics`. */
  function StrideSummaryOf(events: seq<ContactEvent>): (r: StrideSummary)
    ensures |events| < MinContactEvents ==> r == StrideSummary(0, 0.0, 0.0, Some(0.0))
    ensures |events| >= MinContactEvents ==> r.strideCount == |events| / 2
  {
    if |events| < MinContactEvents then StrideSummary(0, 0.0, 0.0, Some(0.0))
    else
      var left := Intervals(Timestamps(Filter(events, IsLeft)));
      var right := Intervals(Timestamps(Filter(events, IsRight)));
      var all := left + right;
      if all == [] then StrideSummary(|events| / 2, 0.0, 0.0, Some(0.0))
      else
        var avg := Mean(all);
        StrideSummary(|events| / 2, avg, if avg > 0.0 then 60.0 / avg else 0.0, Asymmetry(left, right))
  }

  /** `calculate_stride_metrics`. */
  method CalculateStrideMetrics(events: seq<ContactEvent>) returns (r: StrideSummary)
    ensures r == StrideSummaryOf(events)
  {
    if |events| < MinContactEvents {
      return StrideSummary(0, 0.0, 0.0, Some(0.0));
    }
    var left := StrideTimes(Filter(events, IsLeft));
    var right := StrideTimes(Filter(events, IsRight));
    var all := left + right;
    if all == [] {
      return StrideSummary(|events| / 2, 0.0, 0.0, Some(0.0));
    }
    var avg := Mean(all);
    var rate := if avg > 0.0 then 60.0 / avg else 0.0;
    r := StrideSummary(|events| / 2, avg, rate, Asymmetry(left, right));
  }

  /** With no foot contacted twice there are no intervals, and rate, time and asymmetry are all 0. */
  lemma NoRepeatNoStrides(events: seq<ContactEvent>)
    requires |events| >= MinContactEvents
    requires |Filter(events, IsLeft)| <= 1 && |Filter(events, IsRight)| <= 1
    ensures StrideSummaryOf(events) == StrideSummary(|events| / 2, 0.0, 0.0, Some(0.0))
  {
  }

  /**
   * When every stride of both feet takes the same positive time `d`, the
   * average is `d`, the rate is `60 / d` and the asymmetry is 0.
   */
  lemma UniformStrides(events: seq<ContactEvent>, d: real)
    requires |events| >= MinContactEvents && d > 0.0
    requires var l := Intervals(Timestamps(Filter(events, IsLeft)));
             var r := Intervals(Timestamps(Filter(events, IsRight)));
             l != [] && r != [] && (forall x :: x in l ==> x == d) && (forall x :: x in r ==> x == d)
    ensures StrideSummaryOf(events) == StrideSummary(|events| / 2, d, 60.0 / d, Some(0.0))
  {
    var l := Intervals(Timestamps(Filter(events, IsLeft)));
    var r := Intervals(Timestamps(Filter(events, IsRight)));
    UniformMeans(l, r, d);
  }

  lemma UniformMeans(l: seq<real>, r: seq<real>, d: real)
    requires d > 0.0 && l != [] && r != []
    requires (forall x :: x in l ==> x == d) && (forall x :: x in r ==> x == d)
    ensures Mean(l + r) == d && Asymmetry(l, r) == Some(0.0)
  {
    MeanConstant(l, d);
    MeanConstant(r, d);
    assert forall x :: x in l + r ==> x in l || x in r;
    MeanConstant(l + r, d);
  }

  // ------------------------------------------------------ angle statistics

  /** The samples of one joint angle over the records, in order. */
  function Samples(records: seq<FrameRecord>, joint: string): (s: seq<real>)
    ensures |s| <= |records|
  {
    if records == [] then []
    else
      var last := records[|records| - 1];
      Samples(records[..|records| - 1], joint) + (if joint in last.jointAngles.angles then [last.jointAngles.angles[joint]] else [])
  }

  function StatOf(s: seq<real>): (st: AngleStat)
    requires |s| > 0
  {
    AngleStat(MinOf(s), MaxOf(s), Mean(s), Variance(s), MaxOf(s) - MinOf(s))
  }

  /** The statistics of `calculate_angle_statistics`: one entry per joint with at least one sample. */
  function AngleStatsOf(records: seq<FrameRecord>): (r: map<string, AngleStat>)
    ensures forall j :: j in r <==> j in AngleNames && |Samples(records, j)| > 0
  {
    map j | j in AngleNames && |Samples(records, j)| > 0 :: StatOf(Samples(records, j))
  }

  /** Every joint's statistics are ordered: the minimum, then the mean, then the maximum, and the range is their spread. */
  lemma AngleStatsOrdered(records: seq<FrameRecord>, j: string)
    requires j in AngleStatsOf(records)
    ensures var st := AngleStatsOf(records)[j];
            st.min <= st.mean <= st.max && st.range == st.max - st.min && st.range >= 0.0
  {
    MeanBetween(Samples(records, j));
  }

  /** The first half of `calculate_angle_statistics`: each joint's samples, frame by frame. */
  method CollectAngles(records: seq<FrameRecord>) returns (collections: map<string, seq<real>>)
    ensures forall j :: j in collections <==> j in AngleNames
    ensures forall j :: j in collections ==> collections[j] == Samples(records, j)
  {
    collections := map j | j in AngleNames :: [];
    for i := 0 to |records|
      invariant forall j :: j in collections <==> j in AngleNames
      invariant forall j :: j in collections ==> collections[j] == Samples(records[..i], j)
    {
      collections := AddSamples(collections, records[..i], records[i]);
      PrefixStep(records, i);
    }
    WholePrefix(records);
  }

  /** One frame's angles appended to the collections. */
  method AddSamples(collections: map<string, seq<real>>, seen: seq<FrameRecord>, record: FrameRecord)
    returns (next: map<string, seq<real>>)
    requires forall j :: j in collections <==> j in AngleNames
    requires forall j :: j in collections ==> collections[j] == Samples(seen, j)
    ensures forall j :: j in next <==> j in AngleNames
    ensures forall j :: j in next ==> next[j] == Samples(seen + [record], j)
  {
    next := collections;
    var angles := record.jointAngles.angles;
    assert (seen + [record])[..|seen|] == seen;
    var todo := collections.Keys;
    while todo != {}
      invariant todo <= collections.Keys && next.Keys == collections.Keys
      invariant forall j :: j in next && j in todo ==> next[j] == Samples(seen, j)
      invariant forall j :: j in next && j !in todo ==> next[j] == Samples(seen + [record], j)
      decreases todo
    {
      var name :| name in todo;
      if name in angles {
        next := next[name := next[name] + [angles[name]]];
      }
      todo := todo - {name};
    }
  }

  /** `calculate_angle_statistics`: collect each joint's samples, then summarise the non-empty ones. */
  method CalculateAngleStatistics(records: seq<FrameRecord>) returns (r: map<string, AngleStat>)
    ensures r == AngleStatsOf(records)
  {
    var collections := CollectAngles(records);
    r := map[];
    var todo := collections.Keys;
    while todo != {}
      invariant todo <= collections.Keys
      invariant forall j :: j in r <==> j in collections && j !in todo && |Samples(records, j)| > 0
      invariant forall j :: j in r ==> r[j] == StatOf(Samples(records, j))
      decreases todo
    {
      var name :| name in todo;
      var samples := collections[name];
      if samples != [] {
        r := r[name := StatOf(samples)];
      }
      todo := todo - {name};
    }
  }

  // ----------------------------------------------------------------- video

  /** The record `analyze_video` keeps for a detected pose at index `frame`. */
  function RecordOf(pose: seq<Landmark>, frame: nat, fps: real, angleAt: (Point, Point, Point) -> real): FrameRecord
    requires fps != 0.0
  {
    var kp := KeyPointsOf(Some(pose));
    FrameRecord(frame, frame as real / fps, pose, kp, JointAnglesOf(kp, frame, angleAt))
  }

  /** The records of a run: one per detected pose, numbered by the frame's position from 0. */
  function Records(frames: seq<Option<seq<Landmark>>>, fps: real, angleAt: (Point, Point, Point) -> real)
    : (r: seq<FrameRecord>)
    requires fps != 0.0
    ensures |r| == |Present(frames)|
    ensures forall k :: 0 <= k < |r| ==> r[k] == RecordOf(frames[Present(frames)[k]].value, Present(frames)[k], fps, angleAt)
  {
    if frames == [] then []
    else
      var n := |frames| - 1;
      PresentSnoc(frames[..n], frames[n]);
      assert frames[..n] + [frames[n]] == frames;
      var init := Records(frames[..n], fps, angleAt);
      assert forall k :: 0 <= k < |Present(frames[..n])| ==> frames[..n][Present(frames[..n])[k]] == frames[Present(frames[..n])[k]];
      if frames[n].Some? then init + [RecordOf(frames[n].value, n, fps, angleAt)] else init
  }

  /**
   * `analyze_video`: an unopened video is an error; a reported rate of 0
   * fails at the first decoded frame (the timestamp divides by it); a video
   * with no detected pose is an error.  Otherwise the result holds every
   * record, the stride summary of all contacts, the angle statistics, and
   * the first ten contacts.
   */
  method AnalyzeVideo(isOpen: bool, fps: real, totalFrames: int, frames: seq<Option<seq<Landmark>>>,
                      angleAt: (Point, Point, Point) -> real) returns (r: Result<VideoAnalysis, VideoError>)
    ensures !isOpen ==> r == Err(CouldNotOpen)
    ensures isOpen && fps == 0.0 && frames != [] ==> r == Err(FrameRateZero)
    ensures isOpen && frames == [] ==> r == Err(NoPoseData)
    ensures isOpen && fps != 0.0 ==>
              var records := Records(frames, fps, angleAt);
              (records == [] ==> r == Err(NoPoseData))
              && (records != [] ==>
                    var contacts := FootContacts(records);
                    r == Ok(VideoAnalysis(fps, totalFrames, if fps > 0.0 then totalFrames as real / fps else 0.0,
                                          records, StrideSummaryOf(contacts), AngleStatsOf(records),
                                          contacts[..Min(ContactEventsShown, |contacts|)], |records|)))
  {
    if !isOpen {
      return Err(CouldNotOpen);
    }
    var duration := if fps > 0.0 then totalFrames as real / fps else 0.0;
    var frameData := [];
    if frames != [] {
      if fps == 0.0 {
        // the first decoded frame's timestamp divides by the rate
        return Err(FrameRateZero);
      }
      frameData := CollectRecords(frames, fps, angleAt);
    }
    if frameData == [] {
      return Err(NoPoseData);
    }
    var contacts := DetectFootContacts(frameData);
    var stride := CalculateStrideMetrics(contacts);
    var stats := CalculateAngleStatistics(frameData);
    r := Ok(VideoAnalysis(fps, totalFrames, duration, frameData, stride, stats,
                          contacts[..Min(ContactEventsShown, |contacts|)], |frameData|));
  }

  /** The frame loop of `analyze_video`: a record for each frame with a detected pose. */
  method CollectRecords(frames: seq<Option<seq<Landmark>>>, fps: real, angleAt: (Point, Point, Point) -> real)
    returns (frameData: seq<FrameRecord>)
    requires fps != 0.0
    ensures frameData == Records(frames, fps, angleAt)
  {
    frameData := [];
    for frameIdx := 0 to |frames|
      invariant frameData == Records(frames[..frameIdx], fps, angleAt)
    {
      assert frames[..frameIdx + 1][..frameIdx] == frames[..frameIdx];
      var timestamp := frameIdx as real / fps;
      if frames[frameIdx].Some? {
        var pose := frames[frameIdx].value;
        var keyPoints := ExtractKeyPoints(Some(pose));
        var angles := JointAnglesOf(keyPoints, frameIdx, angleAt);
        frameData := frameData + [FrameRecord(frameIdx, timestamp, pose, keyPoints, angles)];
      }
    }
    WholePrefix(frames);
  }

  /** The records are exactly the detected frames, in order, each stamped index/fps. */
  lemma RecordsAreDetectedFrames(frames: seq<Option<seq<Landmark>>>, fps: real, angleAt: (Point, Point, Point) -> real,
                                 i: nat)
    requires fps != 0.0 && i < |frames| && frames[i].Some?
    ensures exists k :: 0 <= k < |Records(frames, fps, angleAt)|
              && Records(frames, fps, angleAt)[k].frame == i
              && Records(frames, fps, angleAt)[k].timestamp == i as real / fps
  {
    PresentExactly(frames);
    var k :| 0 <= k < |Present(frames)| && Present(frames)[k] == i;
    assert Records(frames, fps, angleAt)[k] == RecordOf(frames[i].value, i, fps, angleAt);
  }
}
