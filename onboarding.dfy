/**
 * The onboarding walk-through: three steps (welcome, alpha information,
 * Spikes) changed by horizontal swipes or the navigation dots, each step
 * with its own address, and the count-up of the 100 welcome Spikes once
 * they are claimed.  Touch positions arrive as events; the interval timer
 * of the count-up is a loop with one pass per tick.
 */
module Onboarding {
  import opened Common

  const StepCount: nat := 3

  const WelcomeRoute := "/onboarding/welcome"
  const AlphaInfoRoute := "/onboarding/alpha-info"
  const SpikesRoute := "/onboarding/spikes"

  /** `stepRoutes[currentStep]`. */
  function StepRoute(step: nat): (r: string)
    requires step < StepCount
    ensures step == 0 ==> r == WelcomeRoute
    ensures step == 1 ==> r == AlphaInfoRoute
    ensures step == 2 ==> r == SpikesRoute
  {
    [WelcomeRoute, AlphaInfoRoute, SpikesRoute][step]
  }

  /** The step an address opens on; any other address leaves the step as it is. */
  function StepOfPath(path: string): (s: Option<nat>)
    ensures s.Some? ==> s.value < StepCount
  {
    if path == WelcomeRoute then Some(0)
    else if path == AlphaInfoRoute then Some(1)
    else if path == SpikesRoute then Some(2)
    else None
  }

  /** Steps and addresses correspond one to one. */
  lemma RoutesBijective(step: nat, path: string)
    requires step < StepCount
    ensures StepOfPath(StepRoute(step)) == Some(step)
    ensures StepOfPath(path) == Some(step) <==> path == StepRoute(step)
  {
    assert WelcomeRoute[12] == 'w' && AlphaInfoRoute[12] == 'a' && SpikesRoute[12] == 's';
  }

  /**
   * The two effects that run when the page mounts, in their declaration
   * order.  The URL effect pushes the current step's address with wouter's
   * `setLocation`, which updates `window.location` at once; the path effect
   * then reads `window.location.pathname` and sets the step it names.
   */
  datatype Mount = Mount(step: nat, address: string)

  /** The path effect: the step an address names, or the step kept. */
  function PathEffect(step: nat, address: string): (s: nat)
    requires step < StepCount
    ensures s < StepCount
    ensures StepOfPath(address).Some? ==> s == StepOfPath(address).value
    ensures StepOfPath(address).None? ==> s == step
  {
    if StepOfPath(address).Some? then StepOfPath(address).value else step
  }

  /**
   * The mount as written: the step starts at 0, the URL effect pushes the
   * welcome address, and the path effect reads that address rather than
   * the one the page was opened at.
   */
  function MountAsWritten(path: string): (m: Mount)
    ensures m.step < StepCount && m.address == StepRoute(m.step)
    ensures m == Mount(0, WelcomeRoute)
  {
    var address := StepRoute(0);
    var step := PathEffect(0, address);
    RoutesBijective(0, address);
    Mount(step, address)
  }

  /**
   * The mount with the opening address read first: its step is shown and
   * the address stays; any other address opens the welcome step.
   */
  function MountCorrected(path: string): (m: Mount)
    ensures m.step < StepCount && m.address == StepRoute(m.step)
    ensures StepOfPath(path).Some? ==> m == Mount(StepOfPath(path).value, path)
    ensures StepOfPath(path).None? ==> m == Mount(0, WelcomeRoute)
  {
    var step := PathEffect(0, path);
    if StepOfPath(path).Some? then
      RoutesBijective(step, path);
      Mount(step, StepRoute(step))
    else Mount(step, StepRoute(step))
  }

  /** As written, a page opened at the Spikes step's address shows the welcome step at the welcome address. */
  lemma DeepLinkLost()
    ensures MountAsWritten(SpikesRoute) == Mount(0, WelcomeRoute)
    ensures MountCorrected(SpikesRoute) == Mount(2, SpikesRoute)
  {
    RoutesBijective(2, SpikesRoute);
  }

  datatype Point = Point(x: int, y: int)

  datatype Swipe = SwipeLeft | SwipeRight

  /**
   * The swipe `handleTouchEnd` sees: none unless both touch points exist
   * and the movement is mostly horizontal and longer than 50 pixels; a
   * finger moving left is a left swipe.
   */
  function SwipeOf(start: Option<Point>, end: Option<Point>): (w: Option<Swipe>)
    ensures w.Some? <==> (start.Some? && end.Some?
                          && Abs(start.value.x - end.value.x) > Abs(start.value.y - end.value.y)
                          && Abs(start.value.x - end.value.x) > 50)
    ensures w == Some(SwipeLeft) ==> end.value.x < start.value.x
    ensures w == Some(SwipeRight) ==> end.value.x > start.value.x
  {
    if start.None? || end.None? then None
    else
      var dx, dy := start.value.x - end.value.x, start.value.y - end.value.y;
      if Abs(dx) > Abs(dy) && Abs(dx) > 50 then
        (if dx > 0 then Some(SwipeLeft) else Some(SwipeRight))
      else None
  }

  /** A left swipe goes to the next step and a right swipe to the previous, stopping at the ends. */
  function SwipeStep(step: nat, w: Option<Swipe>): (s: nat)
    requires step < StepCount
    ensures s < StepCount
    ensures w == Some(SwipeLeft) ==> s == Min(step + 1, StepCount - 1)
    ensures w == Some(SwipeRight) ==> s == Max(step - 1, 0)
    ensures w.None? ==> s == step
  {
    match w
    case None => step
    case Some(SwipeLeft) => if step < StepCount - 1 then step + 1 else step
    case Some(SwipeRight) => if step > 0 then step - 1 else step
  }

  /** Away from the ends a left swipe and a right swipe undo each other. */
  lemma SwipesUndo(step: nat)
    requires step < StepCount
    ensures step < StepCount - 1 ==> SwipeStep(SwipeStep(step, Some(SwipeLeft)), Some(SwipeRight)) == step
    ensures step > 0 ==> SwipeStep(SwipeStep(step, Some(SwipeRight)), Some(SwipeLeft)) == step
  {
  }

  /** A tap, with no movement recorded, never changes the step. */
  lemma TapKeepsStep(step: nat, p: Point)
    requires step < StepCount
    ensures SwipeStep(step, SwipeOf(Some(p), None)) == step
    ensures SwipeStep(step, SwipeOf(Some(p), Some(p))) == step
  {
  }

  /** The count-up's step per 50 ms tick: 100 Spikes over 2 seconds. */
  const Increment: real := 100.0 / (2000.0 / 50.0)

  /** The value shown after `tick` ticks: the floor of the running count, capped at 100. */
  function ShownAt(tick: nat): (v: int)
  {
    if Increment * tick as real >= 100.0 then 100 else Floor(Increment * tick as real)
  }

  /** The shown count never goes down and never passes 100. */
  lemma ShownMonotone(i: nat, j: nat)
    requires i <= j
    ensures ShownAt(i) <= ShownAt(j) <= 100
  {
    assert Increment == 2.5;
    assert Increment * i as real <= Increment * j as real;
  }

  class OnboardingFlow {
    var currentStep: nat
    var touchStart: Option<Point>
    var touchEnd: Option<Point>
    var claimedSpikes: bool
    var animatedCount: int
    var completed: bool

    predicate Valid()
      reads this
    {
      currentStep < StepCount && 0 <= animatedCount <= 100
    }

    /** The flow opened at `path` as written: the welcome step, whatever the address. */
    constructor AsWritten(path: string)
      ensures Valid()
      ensures currentStep == 0 && Location() == WelcomeRoute
      ensures currentStep == MountAsWritten(path).step && Location() == MountAsWritten(path).address
      ensures touchStart.None? && touchEnd.None? && !claimedSpikes && animatedCount == 0 && !completed
    {
      currentStep := MountAsWritten(path).step;
      touchStart, touchEnd := None, None;
      claimedSpikes, animatedCount, completed := false, 0, false;
    }

    /** The flow opened at `path`, with the address read first: the step of that address, or the first. */
    constructor (path: string)
      ensures Valid()
      ensures currentStep == (if StepOfPath(path).Some? then StepOfPath(path).value else 0)
      ensures currentStep == MountCorrected(path).step && Location() == MountCorrected(path).address
      ensures touchStart.None? && touchEnd.None? && !claimedSpikes && animatedCount == 0 && !completed
    {
      currentStep := MountCorrected(path).step;
      touchStart, touchEnd := None, None;
      claimedSpikes, animatedCount, completed := false, 0, false;
    }

    /** The address the flow shows. */
    function Location(): string
      requires Valid()
      reads this
    {
      StepRoute(currentStep)
    }

    /** `handleTouchStart`: a new gesture forgets the previous end point. */
    method TouchStart(p: Point)
      modifies this`touchStart, this`touchEnd
      ensures touchStart == Some(p) && touchEnd.None?
    {
      touchEnd := None;
      touchStart := Some(p);
    }

    /** `handleTouchMove`. */
    method TouchMove(p: Point)
      modifies this`touchEnd
      ensures touchEnd == Some(p)
    {
      touchEnd := Some(p);
    }

    /** `handleTouchEnd`: the step after the gesture's swipe, if any. */
    method TouchEnd()
      requires Valid()
      modifies this`currentStep
      ensures Valid()
      ensures currentStep == SwipeStep(old(currentStep), SwipeOf(touchStart, touchEnd))
    {
      var w := SwipeOf(touchStart, touchEnd);
      if w == Some(SwipeLeft) {
        if currentStep < StepCount - 1 {
          currentStep := currentStep + 1;
        }
      } else if w == Some(SwipeRight) {
        if currentStep > 0 {
          currentStep := currentStep - 1;
        }
      }
    }

    /** A navigation dot, or the welcome step's Next button. */
    method GoToStep(index: nat)
      requires Valid() && index < StepCount
      modifies this`currentStep
      ensures Valid() && currentStep == index
    {
      currentStep := index;
    }

    /** Skip, Get Started or Start Training: onboarding is recorded as done. */
    method Finish()
      modifies this`completed
      ensures completed
    {
      completed := true;
    }

    /**
     * A successful claim followed by `animateCountUp`: every tick adds the
     * increment to the running count and shows its floor, until the count
     * reaches 100, where it is set to exactly 100 and the timer stops.
     * `shown` lists the values shown, tick by tick.
     */
    method ClaimSucceeded() returns (shown: seq<int>)
      requires Valid()
      modifies this`claimedSpikes, this`animatedCount
      ensures Valid() && claimedSpikes && animatedCount == 100
      ensures |shown| == 40 && shown[|shown| - 1] == 100
      ensures forall i :: 0 <= i < |shown| ==> shown[i] == ShownAt(i + 1)
      ensures forall i, j :: 0 <= i <= j < |shown| ==> shown[i] <= shown[j] <= 100
    {
      claimedSpikes := true;
      var count: real := 0.0;
      var target: real := 100.0;
      var running := true;
      shown := [];
      assert Increment == 2.5;
      while running
        invariant 0 <= |shown| <= 40
        invariant running ==> count == Increment * |shown| as real && |shown| < 40
        invariant !running ==> |shown| == 40 && count == 100.0
        invariant forall i :: 0 <= i < |shown| ==> shown[i] == ShownAt(i + 1)
        invariant claimedSpikes && 0 <= animatedCount <= 100
        invariant !running ==> animatedCount == 100
        decreases 40 - |shown|, running
      {
        count := count + Increment;
        if count >= target {
          count := target;
          running := false;
        }
        animatedCount := Floor(count);
        shown := shown + [animatedCount];
      }
      assert ShownAt(40) == 100;
      forall i, j | 0 <= i <= j < |shown|
        ensures shown[i] <= shown[j] <= 100
      {
        ShownMonotone(i + 1, j + 1);
      }
    }
  }
}
