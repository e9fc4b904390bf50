/**
 * The full-screen photo-finish viewer: timers placed on the video that
 * show the time since their start point, pinch zoom and two-finger pan,
 * and the scrubber that seeks the video.  Times are seconds; the finger
 * distance (a square root) and `Date.now()` are parameters.
 */
module PhotoFinishViewer {
  import opened Common
  import opened TimeFormat

  datatype Point = Point(x: real, y: real)

  /** A timer at percentage coordinates of the canvas, counting from `startTime`. */
  datatype RaceTimer = RaceTimer(id: string, x: real, y: real, startTime: real)

  datatype Mode = TimerMode | NoMode

  /** The overlay text of a timer: the time since its start point, signed. */
  function TimerText(t: RaceTimer, currentTime: real): (s: string)
    ensures |s| >= 8 && (s[0] == '-' <==> currentTime < t.startTime)
  {
    FormatFinishTime(currentTime - t.startTime)
  }

  /** `Math.max(0.5, Math.min(5, scale))`. */
  function ClampScale(scale: real): (r: real)
    ensures 0.5 <= r <= 5.0
    ensures 0.5 <= scale <= 5.0 ==> r == scale
  {
    MaxR(0.5, MinR(5.0, scale))
  }

  /**
   * `handleSliderInteraction`: the pointer is clamped to the bar and mapped
   * linearly onto the video; the video seeks only when there is one and the
   * time lies in [0, duration].  A zero-width bar gives NaN and never seeks.
   */
  function ScrubTime(pointerX: real, barLeft: real, barWidth: real, duration: real, hasVideo: bool): (r: Option<real>)
    requires barWidth >= 0.0
    ensures r.Some? ==> hasVideo && barWidth > 0.0 && 0.0 <= r.value <= duration
    ensures hasVideo && barWidth > 0.0 && duration >= 0.0 ==> r.Some?
    ensures r.Some? ==> r.value * barWidth == MaxR(0.0, MinR(pointerX - barLeft, barWidth)) * duration
  {
    if barWidth == 0.0 then None
    else
      var x := MaxR(0.0, MinR(pointerX - barLeft, barWidth));
      var time := x / barWidth * duration;
      assert duration >= 0.0 ==> 0.0 <= time <= duration by {
        if duration >= 0.0 {
          assert 0.0 <= x / barWidth <= 1.0 by {
            DivBetween(x, barWidth, 0.0, 1.0);
          }
          assert x / barWidth * duration >= 0.0;
          assert x / barWidth * duration <= 1.0 * duration by {
            assert (1.0 - x / barWidth) * duration >= 0.0;
          }
        }
      }
      if hasVideo && time >= 0.0 && time <= duration then Some(time) else None
  }

  /** The bar's ends seek to the video's start and end. */
  lemma ScrubberEnds(barLeft: real, barWidth: real, duration: real)
    requires barWidth > 0.0 && duration >= 0.0
    ensures ScrubTime(barLeft, barLeft, barWidth, duration, true) == Some(0.0)
    ensures ScrubTime(barLeft + barWidth, barLeft, barWidth, duration, true) == Some(duration)
  {
    assert barLeft + barWidth - barLeft == barWidth;
    assert barWidth / barWidth == 1.0;
  }

  class Viewer {
    var timers: seq<RaceTimer>
    var activeTimer: Option<string>
    var mode: Mode
    var currentTime: real
    var videoScale: real
    var videoPosition: Point
    var isPanning: bool
    var lastPanPoint: Point
    var lastDistance: real

    /** The zoom stays within [0.5, 5]. */
    predicate Valid()
      reads this
    {
      0.5 <= videoScale <= 5.0
    }

    constructor ()
      ensures Valid() && timers == [] && activeTimer.None? && mode == NoMode && currentTime == 0.0
      ensures videoScale == 1.0 && videoPosition == Point(0.0, 0.0) && !isPanning && lastDistance == 0.0
    {
      timers, activeTimer, mode, currentTime := [], None, NoMode, 0.0;
      videoScale, videoPosition, isPanning := 1.0, Point(0.0, 0.0), false;
      lastPanPoint, lastDistance := Point(0.0, 0.0), 0.0;
    }

    /** The timer button: timer mode on or off. */
    method ToggleTimerMode()
      modifies this`mode
      ensures mode == if old(mode) == TimerMode then NoMode else TimerMode
    {
      mode := if mode == TimerMode then NoMode else TimerMode;
    }

    /**
     * `handleCanvasClick` at a point of a canvas of positive size, at
     * `now` ms: in timer mode one timer is appended at the point's
     * percentage coordinates, starting at the current frame, it becomes the
     * active timer and timer mode ends; otherwise nothing happens.
     */
    method HandleCanvasClick(click: Point, left: real, top: real, width: real, height: real, now: nat)
      requires width > 0.0 && height > 0.0
      modifies this`timers, this`activeTimer, this`mode
      ensures old(mode) == TimerMode ==>
                timers == old(timers) + [RaceTimer(NatToString(now), (click.x - left) / width * 100.0,
                                                   (click.y - top) / height * 100.0, currentTime)]
                && activeTimer == Some(NatToString(now)) && mode == NoMode
      ensures old(mode) != TimerMode ==> timers == old(timers) && activeTimer == old(activeTimer) && mode == old(mode)
    {
      if mode == TimerMode {
        var t := RaceTimer(NatToString(now), (click.x - left) / width * 100.0, (click.y - top) / height * 100.0, currentTime);
        timers := timers + [t];
        activeTimer := Some(t.id);
        mode := NoMode;
      }
    }

    /** `handleCanvasTouchStart`: two fingers start a pan at their centre and distance. */
    method TouchStart(twoFingers: bool, center: Point, distance: real)
      modifies this`isPanning, this`lastPanPoint, this`lastDistance
      ensures twoFingers ==> isPanning && lastPanPoint == center && lastDistance == distance
      ensures !twoFingers ==> isPanning == old(isPanning) && lastPanPoint == old(lastPanPoint)
                              && lastDistance == old(lastDistance)
    {
      if twoFingers {
        isPanning := true;
        lastPanPoint := center;
        lastDistance := distance;
      }
    }

    /**
     * `handleCanvasTouchMove`: while panning with two fingers, the zoom is
     * scaled by the change of finger distance (when the last one was
     * positive) and clamped, and the picture moves with the fingers' centre.
     */
    method TouchMove(twoFingers: bool, center: Point, distance: real)
      requires Valid()
      modifies this`videoScale, this`videoPosition, this`lastPanPoint, this`lastDistance
      ensures Valid()
      ensures twoFingers && isPanning && old(lastDistance) > 0.0 ==>
                videoScale == ClampScale(old(videoScale) * (distance / old(lastDistance)))
      ensures twoFingers && isPanning && old(lastDistance) <= 0.0 ==> videoScale == old(videoScale)
      ensures twoFingers && isPanning ==>
                videoPosition == Point(old(videoPosition).x + (center.x - old(lastPanPoint).x),
                                       old(videoPosition).y + (center.y - old(lastPanPoint).y))
                && lastPanPoint == center && lastDistance == distance
      ensures !(twoFingers && isPanning) ==>
                videoScale == old(videoScale) && videoPosition == old(videoPosition)
                && lastPanPoint == old(lastPanPoint) && lastDistance == old(lastDistance)
    {
      if twoFingers && isPanning {
        if lastDistance > 0.0 {
          videoScale := ClampScale(videoScale * (distance / lastDistance));
        }
        videoPosition := Point(videoPosition.x + (center.x - lastPanPoint.x), videoPosition.y + (center.y - lastPanPoint.y));
        lastPanPoint := center;
        lastDistance := distance;
      }
    }

    /** `handleCanvasTouchEnd`. */
    method TouchEnd()
      modifies this`isPanning
      ensures !isPanning
    {
      isPanning := false;
    }

    /** A seek from the scrubber, when it yields a time. */
    method Scrub(pointerX: real, barLeft: real, barWidth: real, duration: real, hasVideo: bool)
      requires barWidth >= 0.0
      modifies this`currentTime
      ensures var r := ScrubTime(pointerX, barLeft, barWidth, duration, hasVideo);
              currentTime == if r.Some? then r.value else old(currentTime)
    {
      var r := ScrubTime(pointerX, barLeft, barWidth, duration, hasVideo);
      if r.Some? {
        currentTime := r.value;
      }
    }
  }

  /**
   * During a pan the picture keeps its offset from the fingers: after any
   * two-finger move the picture minus the fingers' centre is what it was.
   */
  method PanFollowsFingers(v: Viewer, center: Point, distance: real)
    requires v.Valid() && v.isPanning
    modifies v
    ensures v.videoPosition.x - v.lastPanPoint.x == old(v.videoPosition.x - v.lastPanPoint.x)
    ensures v.videoPosition.y - v.lastPanPoint.y == old(v.videoPosition.y - v.lastPanPoint.y)
    ensures 0.5 <= v.videoScale <= 5.0
  {
    v.TouchMove(true, center, distance);
  }
}
