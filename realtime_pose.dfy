/**
 * The streaming pose tracker: per decoded frame it turns MediaPipe's
 * normalised landmarks into pixel key points, derives joint angles,
 * velocities against the previous detected frame, ground contact and stride
 * width, and remembers the frame as the new reference.  The pose detector,
 * the angle formula (an arccosine) and the trunk angle are parameters; the
 * video is the sequence of decoded frames, `None` where no pose was found.
 */
module RealtimePose {
  import opened Common

  const VisibilityThreshold: real := 0.5
  const DefaultFps: real := 30.0
  /** A speed below 50 pixels per second is ground contact; kept squared. */
  const ContactSpeedSquared: real := 2500.0

  /** The fifteen MediaPipe landmarks the tracker keeps. */
  const LandmarkNames: seq<string> := [
    "nose", "left_shoulder", "right_shoulder", "left_elbow", "right_elbow",
    "left_wrist", "right_wrist", "left_hip", "right_hip", "left_knee",
    "right_knee", "left_ankle", "right_ankle", "left_foot_index", "right_foot_index"]

  const Sides: seq<string> := ["left", "right"]

  datatype RawLandmark = RawLandmark(x: real, y: real, z: real, visibility: real)

  /** A detected pose: the landmark MediaPipe reports under each name. */
  type RawPose = string -> RawLandmark

  datatype KeyPoint = KeyPoint(x: int, y: int, z: real, visibility: real, normalizedX: real, normalizedY: real)

  type Landmarks = map<string, KeyPoint>

  type Pixel = (int, int)

  /** `vx`, `vy`; the Euclidean `speed` is kept as its square. */
  datatype Velocity = Velocity(vx: real, vy: real)
  {
    function SpeedSquared(): real { vx * vx + vy * vy }
  }

  datatype Contact = Contact(isContact: bool, ankleHeight: int, speedSquared: real)

  /** `stride_width`, the square of `step_length`, and `frame_number`. */
  datatype Stride = Stride(strideWidth: nat, stepLengthSquared: int, frameNumber: nat)

  datatype PoseFrame = PoseFrame(frame: nat, timestamp: real, landmarks: Landmarks, angles: map<string, real>,
                                 velocities: map<string, Velocity>, contact: map<string, Contact>,
                                 stride: Option<Stride>, width: int, height: int)

  // ------------------------------------------------------------ landmarks

  /** The key point stored for a visible landmark: pixel coordinates truncated toward zero. */
  function ToKeyPoint(l: RawLandmark, width: int, height: int): (k: KeyPoint)
    ensures k.x == Trunc(l.x * width as real) && k.y == Trunc(l.y * height as real)
    ensures k.normalizedX == l.x && k.normalizedY == l.y && k.visibility == l.visibility
  {
    KeyPoint(Trunc(l.x * width as real), Trunc(l.y * height as real), l.z, l.visibility, l.x, l.y)
  }

  predicate Visible(l: RawLandmark)
  {
    l.visibility > VisibilityThreshold
  }

  /** The landmarks of `extract_landmarks`: no pose gives none, otherwise every visible named landmark. */
  function Extracted(pose: Option<RawPose>, width: int, height: int): (r: Landmarks)
    ensures pose.None? ==> r == map[]
    ensures pose.Some? ==> forall n :: n in r <==> n in LandmarkNames && Visible(pose.value(n))
    ensures pose.Some? ==> forall n :: n in r ==> r[n] == ToKeyPoint(pose.value(n), width, height)
  {
    if pose.None? then map[]
    else map n | n in LandmarkNames && Visible(pose.value(n)) :: ToKeyPoint(pose.value(n), width, height)
  }

  /** `extract_landmarks`, building the dictionary name by name. */
  method ExtractLandmarks(pose: Option<RawPose>, width: int, height: int) returns (r: Landmarks)
    ensures r == Extracted(pose, width, height)
  {
    r := map[];
    if pose.None? {
      return;
    }
    var p := pose.value;
    for i := 0 to |LandmarkNames|
      invariant forall n :: n in r <==> n in LandmarkNames[..i] && Visible(p(n))
      invariant forall n :: n in r ==> r[n] == ToKeyPoint(p(n), width, height)
    {
      var name := LandmarkNames[i];
      if Visible(p(name)) {
        r := r[name := ToKeyPoint(p(name), width, height)];
      }
    }
    WholePrefix(LandmarkNames);
  }

  // --------------------------------------------------------------- angles

  predicate Has3(lm: Landmarks, a: string, b: string, c: string)
  {
    a in lm && b in lm && c in lm
  }

  /** Both shoulders and both hips are present. */
  predicate HasTrunk(lm: Landmarks)
  {
    "left_shoulder" in lm && "right_shoulder" in lm && "left_hip" in lm && "right_hip" in lm
  }

  function PixelOf(lm: Landmarks, n: string): Pixel
    requires n in lm
  {
    (lm[n].x, lm[n].y)
  }

  /** hip-mid minus shoulder-mid, the trunk vector of `calculate_joint_angles`. */
  function TrunkVector(lm: Landmarks): (real, real)
    requires HasTrunk(lm)
  {
    var ls := lm["left_shoulder"];
    var rs := lm["right_shoulder"];
    var lh := lm["left_hip"];
    var rh := lm["right_hip"];
    ((lh.x + rh.x) as real / 2.0 - (ls.x + rs.x) as real / 2.0,
     (lh.y + rh.y) as real / 2.0 - (ls.y + rs.y) as real / 2.0)
  }

  /** The angle at the middle of three named landmarks, added only when all three are present. */
  function WithAngle(m: map<string, real>, key: string, lm: Landmarks, a: string, b: string, c: string,
                     angleAt: (Pixel, Pixel, Pixel) -> real): (r: map<string, real>)
    ensures key in r <==> key in m || Has3(lm, a, b, c)
    ensures forall k :: k in r && k != key ==> k in m && r[k] == m[k]
    ensures Has3(lm, a, b, c) ==> r[key] == angleAt(PixelOf(lm, a), PixelOf(lm, b), PixelOf(lm, c))
    ensures !Has3(lm, a, b, c) ==> r == m
  {
    if Has3(lm, a, b, c) then m[key := angleAt(PixelOf(lm, a), PixelOf(lm, b), PixelOf(lm, c))] else m
  }

  /**
   * `calculate_joint_angles`: each knee and hip angle needs its three
   * landmarks, and the trunk angle needs both shoulders and both hips and a
   * trunk vector of non-zero length (a positive magnitude).
   */
  function JointAngles(lm: Landmarks, angleAt: (Pixel, Pixel, Pixel) -> real,
                       trunkAngle: (real, real) -> real): (r: map<string, real>)
    ensures "left_knee" in r <==> Has3(lm, "left_hip", "left_knee", "left_ankle")
    ensures "right_knee" in r <==> Has3(lm, "right_hip", "right_knee", "right_ankle")
    ensures "left_hip" in r <==> Has3(lm, "left_shoulder", "left_hip", "left_knee")
    ensures "right_hip" in r <==> Has3(lm, "right_shoulder", "right_hip", "right_knee")
    ensures "trunk" in r <==> HasTrunk(lm)
                              && TrunkVector(lm) != (0.0, 0.0)
    ensures "trunk" in r ==> r["trunk"] == trunkAngle(TrunkVector(lm).0, TrunkVector(lm).1)
    ensures "left_knee" in r ==>
              r["left_knee"] == angleAt(PixelOf(lm, "left_hip"), PixelOf(lm, "left_knee"), PixelOf(lm, "left_ankle"))
    ensures forall k :: k in r ==> k in {"left_knee", "right_knee", "left_hip", "right_hip", "trunk"}
  {
    var m1 := WithAngle(map[], "left_knee", lm, "left_hip", "left_knee", "left_ankle", angleAt);
    var m2 := WithAngle(m1, "right_knee", lm, "right_hip", "right_knee", "right_ankle", angleAt);
    var m3 := WithAngle(m2, "left_hip", lm, "left_shoulder", "left_hip", "left_knee", angleAt);
    var m4 := WithAngle(m3, "right_hip", lm, "right_shoulder", "right_hip", "right_knee", angleAt);
    if HasTrunk(lm) && TrunkVector(lm) != (0.0, 0.0) then
      m4["trunk" := trunkAngle(TrunkVector(lm).0, TrunkVector(lm).1)]
    else m4
  }

  // ----------------------------------------------------------- velocities

  /** The velocity of one landmark between two frames `dt` apart. */
  function VelocityBetween(prev: KeyPoint, cur: KeyPoint, dt: real): (v: Velocity)
    requires dt > 0.0
    ensures v.vx * dt == (cur.x - prev.x) as real && v.vy * dt == (cur.y - prev.y) as real
  {
    Velocity((cur.x - prev.x) as real / dt, (cur.y - prev.y) as real / dt)
  }

  /**
   * The velocities of `calculate_velocities`: none without a previous
   * snapshot and timestamp or when time did not advance, otherwise one per
   * landmark present in both frames.
   */
  function Velocities(prevLandmarks: Option<Landmarks>, prevTimestamp: Option<real>, cur: Landmarks,
                      t: real): (r: map<string, Velocity>)
    ensures prevLandmarks.None? || prevTimestamp.None? || t - prevTimestamp.value <= 0.0 ==> r == map[]
    ensures prevLandmarks.Some? && prevTimestamp.Some? && t - prevTimestamp.value > 0.0 ==>
              (forall n :: n in r <==> n in cur && n in prevLandmarks.value)
              && forall n :: n in r ==>
                   r[n] == VelocityBetween(prevLandmarks.value[n], cur[n], t - prevTimestamp.value)
  {
    if prevLandmarks.None? || prevTimestamp.None? || t - prevTimestamp.value <= 0.0 then map[]
    else
      var dt := t - prevTimestamp.value;
      map n | n in cur && n in prevLandmarks.value :: VelocityBetween(prevLandmarks.value[n], cur[n], dt)
  }

  // ------------------------------------------------------ contact, stride

  function AnkleKey(side: string): string { side + "_ankle" }

  function ContactKey(side: string): string { side + "_foot_contact" }

  /** The contact entry for one side, present only when its ankle has a position and a velocity. */
  function SideContact(side: string, lm: Landmarks, vel: map<string, Velocity>): (r: Option<Contact>)
    ensures r.Some? <==> AnkleKey(side) in lm && AnkleKey(side) in vel
    ensures r.Some? ==> r.value.ankleHeight == lm[AnkleKey(side)].y
                        && r.value.speedSquared == vel[AnkleKey(side)].SpeedSquared()
                        && (r.value.isContact <==> r.value.speedSquared < ContactSpeedSquared)
  {
    if AnkleKey(side) in lm && AnkleKey(side) in vel then
      var s := vel[AnkleKey(side)].SpeedSquared();
      Some(Contact(s < ContactSpeedSquared, lm[AnkleKey(side)].y, s))
    else None
  }

  /** The contact entries for `sides`, added in order. */
  function ContactsOf(sides: seq<string>, lm: Landmarks, vel: map<string, Velocity>): map<string, Contact>
  {
    if sides == [] then map[]
    else
      var side := sides[|sides| - 1];
      var r := ContactsOf(sides[..|sides| - 1], lm, vel);
      var c := SideContact(side, lm, vel);
      if c.Some? then r[ContactKey(side) := c.value] else r
  }

  /** The ground contact of a frame: an entry for a side exactly when that side's contact exists. */
  function GroundContact(lm: Landmarks, vel: map<string, Velocity>): (r: map<string, Contact>)
    ensures forall side :: side in Sides ==>
              (ContactKey(side) in r <==> SideContact(side, lm, vel).Some?)
              && (ContactKey(side) in r ==> r[ContactKey(side)] == SideContact(side, lm, vel).value)
    ensures forall k :: k in r ==> k == ContactKey("left") || k == ContactKey("right")
  {
    assert Sides[..1] == ["left"] && ["left"][..0] == [];
    assert ContactKey("left") != ContactKey("right");
    assert if SideContact("left", lm, vel).Some?
           then ContactsOf(["left"], lm, vel) == map[ContactKey("left") := SideContact("left", lm, vel).value]
           else ContactsOf(["left"], lm, vel) == map[];
    ContactsOf(Sides, lm, vel)
  }

  /** `detect_ground_contact`, side by side. */
  method DetectGroundContact(lm: Landmarks, vel: map<string, Velocity>) returns (r: map<string, Contact>)
    ensures r == GroundContact(lm, vel)
  {
    r := map[];
    for i := 0 to |Sides|
      invariant r == ContactsOf(Sides[..i], lm, vel)
    {
      assert Sides[..i + 1][..i] == Sides[..i];
      var c := SideContact(Sides[i], lm, vel);
      if c.Some? {
        r := r[ContactKey(Sides[i]) := c.value];
      }
    }
    WholePrefix(Sides);
  }

  /** `calculate_stride_metrics`: present only when both ankles are. */
  function StrideMetrics(lm: Landmarks, frameCount: nat): (r: Option<Stride>)
    ensures r.Some? <==> "left_ankle" in lm && "right_ankle" in lm
    ensures r.Some? ==> r.value.strideWidth == Abs(lm["left_ankle"].x - lm["right_ankle"].x)
                        && r.value.frameNumber == frameCount
                        && r.value.stepLengthSquared >= r.value.strideWidth * r.value.strideWidth
                        && var dx, dy := lm["left_ankle"].x - lm["right_ankle"].x, lm["left_ankle"].y - lm["right_ankle"].y;
                           r.value.stepLengthSquared == dx * dx + dy * dy
  {
    if "left_ankle" in lm && "right_ankle" in lm then
      var dx := lm["left_ankle"].x - lm["right_ankle"].x;
      var dy := lm["left_ankle"].y - lm["right_ankle"].y;
      Some(Stride(Abs(dx), dx * dx + dy * dy, frameCount))
    else None
  }

  /** `self.fps = reported or 30`. */
  function FpsOrDefault(reported: real): (fps: real)
    ensures fps != 0.0
    ensures reported != 0.0 ==> fps == reported
  {
    if reported == 0.0 then DefaultFps else reported
  }

  /** The previous snapshot seen by the `k`-th emitted frame. */
  function PrevLandmarksAt(out: seq<PoseFrame>, k: nat, initial: Option<Landmarks>): Option<Landmarks>
    requires k <= |out|
  {
    if k == 0 then initial else Some(out[k - 1].landmarks)
  }

  function PrevTimestampAt(out: seq<PoseFrame>, k: nat, initial: Option<real>): Option<real>
    requires k <= |out|
  {
    if k == 0 then initial else Some(out[k - 1].timestamp)
  }

  /** The rule giving the frame emitted for a pose, its number and the snapshot before it. */
  type FrameRule = (RawPose, nat, Option<Landmarks>, Option<real>) -> PoseFrame

  /** The frames emitted for `frames`: one per detected pose, each from the snapshot left by the one before. */
  predicate Emitted(out: seq<PoseFrame>, frames: seq<Option<RawPose>>, count0: nat, rule: FrameRule,
                    prevL0: Option<Landmarks>, prevT0: Option<real>)
  {
    |out| == |Present(frames)|
    && forall k {:trigger Present(frames)[k]} :: 0 <= k < |out| ==>
         out[k] == rule(frames[Present(frames)[k]].value, count0 + Present(frames)[k] + 1,
                          PrevLandmarksAt(out, k, prevL0), PrevTimestampAt(out, k, prevT0))
  }

  /** A detected frame extends the emitted sequence by one frame. */
  lemma EmittedPresent(out: seq<PoseFrame>, f: PoseFrame, frames: seq<Option<RawPose>>, pose: RawPose, count0: nat,
                        rule: FrameRule, prevL0: Option<Landmarks>, prevT0: Option<real>)
    requires Emitted(out, frames, count0, rule, prevL0, prevT0)
    requires f == rule(pose, count0 + |frames| + 1, PrevLandmarksAt(out, |out|, prevL0), PrevTimestampAt(out, |out|, prevT0))
    ensures Emitted(out + [f], frames + [Some(pose)], count0, rule, prevL0, prevT0)
  {
    EmittedPresentAt(out, f, frames, pose, count0, rule, prevL0, prevT0, |out|);
    forall k | 0 <= k < |out + [f]|
      ensures (out + [f])[k] == rule((frames + [Some(pose)])[Present(frames + [Some(pose)])[k]].value,
                                     count0 + Present(frames + [Some(pose)])[k] + 1,
                                     PrevLandmarksAt(out + [f], k, prevL0), PrevTimestampAt(out + [f], k, prevT0))
    {
      EmittedPresentAt(out, f, frames, pose, count0, rule, prevL0, prevT0, k);
    }
  }

  /** The `k`-th frame after a detected one is read still follows the rule. */
  lemma EmittedPresentAt(out: seq<PoseFrame>, f: PoseFrame, frames: seq<Option<RawPose>>, pose: RawPose, count0: nat,
                         rule: FrameRule, prevL0: Option<Landmarks>, prevT0: Option<real>, k: nat)
    requires Emitted(out, frames, count0, rule, prevL0, prevT0)
    requires f == rule(pose, count0 + |frames| + 1, PrevLandmarksAt(out, |out|, prevL0), PrevTimestampAt(out, |out|, prevT0))
    requires k <= |out|
    ensures |Present(frames + [Some(pose)])| == |out| + 1
    ensures (out + [f])[k] == rule((frames + [Some(pose)])[Present(frames + [Some(pose)])[k]].value,
                                   count0 + Present(frames + [Some(pose)])[k] + 1,
                                   PrevLandmarksAt(out + [f], k, prevL0), PrevTimestampAt(out + [f], k, prevT0))
  {
    var frames' := frames + [Some(pose)];
    PresentSnoc(frames, Some(pose));
    var d, d' := Present(frames), Present(frames');
    PrevAtExtended(out, f, k, prevL0, prevT0);
    if k < |out| {
      assert d'[k] == d[k] && frames'[d[k]] == frames[d[k]] && (out + [f])[k] == out[k];
    } else {
      assert d'[k] == |frames| && frames'[|frames|] == Some(pose);
    }
  }

  /** Extending the emitted frames leaves the snapshot seen by the earlier ones. */
  lemma PrevAtExtended(out: seq<PoseFrame>, f: PoseFrame, k: nat, prevL0: Option<Landmarks>, prevT0: Option<real>)
    requires k <= |out|
    ensures PrevLandmarksAt(out + [f], k, prevL0) == PrevLandmarksAt(out, k, prevL0)
    ensures PrevTimestampAt(out + [f], k, prevT0) == PrevTimestampAt(out, k, prevT0)
  {
    if k > 0 {
      assert (out + [f])[k - 1] == out[k - 1];
    }
  }

  /** A frame without a pose emits nothing. */
  lemma EmittedGap(out: seq<PoseFrame>, frames: seq<Option<RawPose>>, count0: nat,
                   rule: FrameRule, prevL0: Option<Landmarks>, prevT0: Option<real>)
    requires Emitted(out, frames, count0, rule, prevL0, prevT0)
    ensures Emitted(out, frames + [None], count0, rule, prevL0, prevT0)
  {
    var frames' := frames + [None];
    PresentSnoc(frames, None);
    forall k | 0 <= k < |out|
      ensures frames'[Present(frames')[k]] == frames[Present(frames)[k]]
    {
    }
  }

  /** The tracker of `RealtimePoseTracker`, with its previous-frame snapshot and frame counter. */
  class PoseTracker {
    const angleAt: (Pixel, Pixel, Pixel) -> real
    const trunkAngle: (real, real) -> real
    var prevLandmarks: Option<Landmarks>
    var prevTimestamp: Option<real>
    var frameCount: nat
    var fps: real

    constructor (angleAt: (Pixel, Pixel, Pixel) -> real, trunkAngle: (real, real) -> real)
      ensures this.angleAt == angleAt && this.trunkAngle == trunkAngle
      ensures prevLandmarks == None && prevTimestamp == None && frameCount == 0 && fps == DefaultFps
    {
      this.angleAt := angleAt;
      this.trunkAngle := trunkAngle;
      prevLandmarks, prevTimestamp, frameCount, fps := None, None, 0, DefaultFps;
    }

    /** `calculate_velocities` against the stored snapshot. */
    method CalculateVelocities(cur: Landmarks, t: real) returns (r: map<string, Velocity>)
      ensures r == Velocities(prevLandmarks, prevTimestamp, cur, t)
    {
      r := map[];
      if prevLandmarks.None? || prevTimestamp.None? {
        return;
      }
      var dt := t - prevTimestamp.value;
      if dt <= 0.0 {
        return;
      }
      var prev := prevLandmarks.value;
      var todo := cur.Keys;
      while todo != {}
        invariant todo <= cur.Keys
        invariant forall n :: n in r <==> n in cur && n !in todo && n in prev
        invariant forall n :: n in r ==> r[n] == VelocityBetween(prev[n], cur[n], dt)
        decreases todo
      {
        var n :| n in todo;
        if n in prev {
          r := r[n := VelocityBetween(prev[n], cur[n], dt)];
        }
        todo := todo - {n};
      }
    }

    /**
     * What `process_video` emits, at `fpsUsed` and the given frame size, for
     * a detected pose with its frame number and the snapshot before it.
     */
    function Expect(fpsUsed: real, width: int, height: int): FrameRule
      requires fpsUsed != 0.0
    {
      (pose: RawPose, frame: nat, prevL: Option<Landmarks>, prevT: Option<real>) =>
        var t := frame as real / fpsUsed;
        var lm := Extracted(Some(pose), width, height);
        var vel := Velocities(prevL, prevT, lm, t);
        PoseFrame(frame, t, lm, JointAngles(lm, angleAt, trunkAngle), vel, GroundContact(lm, vel),
                  StrideMetrics(lm, frame), width, height)
    }

    /** The loop body for one detected frame: emit it, then make it the snapshot. */
    method ProcessPose(pose: RawPose, width: int, height: int) returns (f: PoseFrame)
      requires fps != 0.0
      modifies this`prevLandmarks, this`prevTimestamp
      ensures f == Expect(fps, width, height)(pose, frameCount, old(prevLandmarks), old(prevTimestamp))
      ensures prevLandmarks == Some(f.landmarks) && prevTimestamp == Some(f.timestamp)
    {
      var t := frameCount as real / fps;
      var landmarks := ExtractLandmarks(Some(pose), width, height);
      var angles := JointAngles(landmarks, angleAt, trunkAngle);
      var velocities := CalculateVelocities(landmarks, t);
      var contact := DetectGroundContact(landmarks, velocities);
      var stride := StrideMetrics(landmarks, frameCount);
      f := PoseFrame(frameCount, t, landmarks, angles, velocities, contact, stride, width, height);
      prevLandmarks := Some(landmarks);
      prevTimestamp := Some(t);
    }

    /**
     * With a positive frame rate, consecutive emitted frames have increasing
     * numbers and timestamps, so each frame's velocities cover exactly the
     * landmarks it shares with the previous emitted frame.
     */
    lemma ConsecutiveFrames(out: seq<PoseFrame>, frames: seq<Option<RawPose>>, count0: nat, fpsUsed: real,
                            width: int, height: int, prevL0: Option<Landmarks>, prevT0: Option<real>, k: nat)
      requires fpsUsed > 0.0
      requires Emitted(out, frames, count0, Expect(fpsUsed, width, height), prevL0, prevT0)
      requires 0 < k < |out|
      ensures out[k - 1].frame < out[k].frame && out[k - 1].timestamp < out[k].timestamp
      ensures forall n :: n in out[k].velocities <==> n in out[k].landmarks && n in out[k - 1].landmarks
    {
      PresentExactly(frames);
      var d := Present(frames);
      assert d[k - 1] < d[k];
      var a, b := out[k - 1].frame, out[k].frame;
      assert a == count0 + d[k - 1] + 1 && b == count0 + d[k] + 1;
      DivideMonotone(a, b, fpsUsed);
      var cur, prev := out[k], out[k - 1];
      assert cur.velocities == Velocities(Some(prev.landmarks), Some(prev.timestamp), cur.landmarks, cur.timestamp);
    }

    /**
     * `process_video`: an unopened video emits nothing and changes nothing.
     * Otherwise every decoded frame advances the counter, a frame is emitted
     * only when a pose is detected, numbered by the counter and stamped
     * counter/fps, its velocities measured against the last detected frame;
     * frames without a pose leave the snapshot as it was.
     */
    method ProcessVideo(isOpen: bool, frames: seq<Option<RawPose>>, reportedFps: real, width: int, height: int)
      returns (out: seq<PoseFrame>)
      modifies this`prevLandmarks, this`prevTimestamp, this`frameCount, this`fps
      ensures !isOpen ==> out == [] && prevLandmarks == old(prevLandmarks) && prevTimestamp == old(prevTimestamp)
                          && frameCount == old(frameCount) && fps == old(fps)
      ensures isOpen ==> fps == FpsOrDefault(reportedFps) && frameCount == old(frameCount) + |frames|
      ensures isOpen ==> Emitted(out, frames, old(frameCount), Expect(fps, width, height), old(prevLandmarks),
                                 old(prevTimestamp))
      ensures isOpen && out == [] ==> prevLandmarks == old(prevLandmarks) && prevTimestamp == old(prevTimestamp)
      ensures isOpen && out != [] ==>
                prevLandmarks == Some(out[|out| - 1].landmarks) && prevTimestamp == Some(out[|out| - 1].timestamp)
    {
      out := [];
      if !isOpen {
        return;
      }
      fps := FpsOrDefault(reportedFps);
      ghost var count0 := frameCount;
      ghost var prevL0, prevT0 := prevLandmarks, prevTimestamp;
      for i := 0 to |frames|
        invariant fps == FpsOrDefault(reportedFps)
        invariant frameCount == count0 + i
        invariant Emitted(out, frames[..i], count0, Expect(fps, width, height), prevL0, prevT0)
        invariant prevLandmarks == PrevLandmarksAt(out, |out|, prevL0)
        invariant prevTimestamp == PrevTimestampAt(out, |out|, prevT0)
      {
        PrefixStep(frames, i);
        frameCount := frameCount + 1;
        if frames[i].Some? {
          var f := ProcessPose(frames[i].value, width, height);
          EmittedPresent(out, f, frames[..i], frames[i].value, count0, Expect(fps, width, height), prevL0, prevT0);
          out := out + [f];
        } else {
          EmittedGap(out, frames[..i], count0, Expect(fps, width, height), prevL0, prevT0);
        }
      }
      WholePrefix(frames);
    }
  }

  lemma DivideMonotone(a: nat, b: nat, f: real)
    requires a < b && f > 0.0
    ensures a as real / f < b as real / f
  {
    assert b as real / f - a as real / f == (b - a) as real / f;
  }
}
