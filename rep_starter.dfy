/**
 * The rep starter: a countdown from the selected count, one number per
 * tick, announced by audio; at zero the count is cleared and the page
 * stops playing.  The timer is modelled by a flag that says a tick is
 * scheduled, and the announcements by the list of numbers played.
 */
module RepStarter {
  import opened Common

  /** `n, n − 1, …, 1`. */
  function CountDown(n: nat): (r: seq<nat>)
    ensures |r| == n
    ensures forall i :: 0 <= i < n ==> r[i] == n - i
  {
    if n == 0 then [] else [n] + CountDown(n - 1)
  }

  /** `CountDown(n)` is `CountDown(n)` up to `k + 1` followed by `k`, for a `k` that is still announced. */
  lemma {:induction false} CountDownPrefix(n: nat, k: nat)
    requires 1 <= k <= n
    ensures CountDown(n)[..n - k + 1] == CountDown(n)[..n - k] + [k]
  {
    var r := CountDown(n);
    assert r[n - k] == k;
    assert r[..n - k + 1] == r[..n - k] + [r[n - k]];
  }

  class Countdown {
    var isPlaying: bool
    var currentCount: Option<nat>
    /** The loop's `currentNum`. */
    var currentNum: int
    /** A tick of the countdown loop is scheduled. */
    var tickPending: bool
    var intervalMs: real
    /** The numbers played so far, in order. */
    var announced: seq<nat>

    constructor ()
      ensures !isPlaying && currentCount.None? && !tickPending && announced == []
    {
      isPlaying, currentCount, currentNum, tickPending := false, None, 0, false;
      intervalMs, announced := 1000.0, [];
    }

    /** `getDisplayText`: 'Ready' exactly when there is no count, else the count. */
    function DisplayText(): (s: string)
      reads this
      ensures s == "Ready" <==> currentCount.None?
      ensures currentCount.Some? ==> s == NatToString(currentCount.value)
    {
      if currentCount.None? then "Ready"
      else
        var t := NatToString(currentCount.value);
        assert t[0] != "Ready"[0];
        t
    }

    /**
     * `startCountdown`: a no-op while playing; otherwise the count is shown
     * and played and the first tick scheduled `countSpeed · 1000` ms later.
     */
    method StartCountdown(startCount: nat, countSpeed: real)
      modifies this
      ensures old(isPlaying) ==> isPlaying == old(isPlaying) && currentCount == old(currentCount)
                                 && currentNum == old(currentNum) && tickPending == old(tickPending)
                                 && intervalMs == old(intervalMs) && announced == old(announced)
      ensures !old(isPlaying) ==> isPlaying && currentCount == Some(startCount) && currentNum == startCount
                                  && tickPending && intervalMs == countSpeed * 1000.0
                                  && announced == old(announced) + [startCount]
    {
      if isPlaying {
        return;
      }
      isPlaying := true;
      currentCount := Some(startCount);
      announced := announced + [startCount];
      intervalMs := countSpeed * 1000.0;
      currentNum := startCount;
      tickPending := true;
    }

    /** `countdownLoop`: one step down; a positive number is shown, played and followed by another tick; zero ends the countdown. */
    method Tick()
      requires tickPending
      modifies this`currentNum, this`currentCount, this`announced, this`tickPending, this`isPlaying
      ensures currentNum == old(currentNum) - 1
      ensures currentNum > 0 ==> currentCount == Some(currentNum) && announced == old(announced) + [currentNum]
                                 && tickPending && isPlaying == old(isPlaying)
      ensures currentNum <= 0 ==> currentCount.None? && !isPlaying && !tickPending && announced == old(announced)
    {
      currentNum := currentNum - 1;
      if currentNum > 0 {
        currentCount := Some(currentNum);
        announced := announced + [currentNum];
        tickPending := true;
      } else {
        currentCount := None;
        isPlaying := false;
        tickPending := false;
      }
    }

    /** `cancelCountdown`: the timer is cleared, the count removed and the page stops playing. */
    method CancelCountdown()
      modifies this`tickPending, this`currentCount, this`isPlaying
      ensures !tickPending && currentCount.None? && !isPlaying
    {
      tickPending := false;
      currentCount := None;
      isPlaying := false;
    }
  }

  /**
   * A whole countdown from `n` with every tick allowed to fire: exactly the
   * numbers `n` down to 1 are played, then the display reads 'Ready' and
   * the page is no longer playing.
   */
  method RunCountdown(c: Countdown, n: nat, countSpeed: real)
    requires !c.isPlaying && c.announced == [] && 1 <= n
    modifies c
    ensures c.announced == CountDown(n) && |c.announced| == n
    ensures !c.isPlaying && c.currentCount.None? && c.DisplayText() == "Ready"
  {
    c.StartCountdown(n, countSpeed);
    assert c.announced == CountDown(n)[..1];
    while c.tickPending
      invariant 1 <= c.currentNum <= n ==> c.tickPending
      invariant c.tickPending ==> 1 <= c.currentNum <= n && c.isPlaying
      invariant c.tickPending ==> c.announced == CountDown(n)[..n - c.currentNum + 1]
      invariant !c.tickPending ==> c.announced == CountDown(n) && !c.isPlaying && c.currentCount.None?
      decreases c.currentNum, c.tickPending
    {
      ghost var before := c.currentNum;
      c.Tick();
      if c.currentNum > 0 {
        CountDownPrefix(n, c.currentNum);
        assert n - before + 1 == n - c.currentNum;
      } else {
        assert CountDown(n)[..n] == CountDown(n);
      }
    }
  }
}
