/**
 * The reaction-time game: after a random delay of 2 to 5 s the target
 * appears, a click on it measures the reaction, and the attempts, rounded
 * average, best and last times are kept.  A click before the target
 * appears fails the round.  Timers are events: `pendingGo` says the
 * target's timeout is scheduled; `Date.now()` and `Math.random()` are
 * parameters.
 */
module ReactionTime {
  import opened Common

  datatype GameState = Waiting | Ready | Go | Clicked | TooEarly | Finished

  datatype GameStats = GameStats(attempts: nat, averageTime: int, bestTime: int, lastTime: int)

  const EmptyStats := GameStats(0, 0, 0, 0)

  /** `Math.random() * 3000 + 2000`. */
  function StartDelay(random: real): (d: real)
    requires 0.0 <= random < 1.0
    ensures 2000.0 <= d < 5000.0
  {
    random * 3000.0 + 2000.0
  }

  /** The stats after one more reaction of `reaction` ms. */
  function UpdateStats(prev: GameStats, reaction: int): (s: GameStats)
    ensures s.attempts == prev.attempts + 1 && s.lastTime == reaction
    ensures prev.attempts == 0 ==> s.averageTime == reaction
    ensures prev.attempts > 0 ==>
              var exact := (prev.averageTime * prev.attempts + reaction) as real / (prev.attempts + 1) as real;
              s.averageTime as real - 0.5 <= exact < s.averageTime as real + 0.5
    ensures prev.bestTime == 0 ==> s.bestTime == reaction
    ensures prev.bestTime != 0 ==> s.bestTime == Min(prev.bestTime, reaction)
  {
    var attempts := prev.attempts + 1;
    var average := if prev.attempts == 0 then reaction as real
                   else (prev.averageTime * prev.attempts + reaction) as real / attempts as real;
    GameStats(attempts, JsRound(average), if prev.bestTime == 0 then reaction else Min(prev.bestTime, reaction), reaction)
  }

  /** The stats after the reactions `times`, in order, from zeroed stats. */
  function StatsAfter(times: seq<int>): GameStats
  {
    if times == [] then EmptyStats else UpdateStats(StatsAfter(times[..|times| - 1]), times[|times| - 1])
  }

  /** Rounding a value between two integers stays between them. */
  lemma RoundWithin(x: real, lo: int, hi: int)
    requires lo as real <= x <= hi as real
    ensures lo <= JsRound(x) <= hi
  {
  }

  /** The running average of `n` values and one more, all within `[lo, hi]`, stays within it. */
  lemma MeanStepWithin(average: int, n: nat, reaction: int, lo: int, hi: int)
    requires n > 0 && lo <= average <= hi && lo <= reaction <= hi
    ensures lo as real <= (average * n + reaction) as real / (n + 1) as real <= hi as real
  {
    assert lo * n <= average * n <= hi * n;
    DivBetween((average * n + reaction) as real, (n + 1) as real, lo as real, hi as real);
  }

  /**
   * Over reactions within `[lo, hi]` every attempt is counted, the average
   * stays within `[lo, hi]`, the last time is the latest reaction, and with
   * positive reactions the best time is no slower than any of them.
   */
  lemma {:induction false} StatsSummarise(times: seq<int>, lo: int, hi: int)
    requires times != [] && 0 < lo
    requires forall i :: 0 <= i < |times| ==> lo <= times[i] <= hi
    ensures StatsAfter(times).attempts == |times|
    ensures lo <= StatsAfter(times).averageTime <= hi
    ensures StatsAfter(times).lastTime == times[|times| - 1]
    ensures forall i :: 0 <= i < |times| ==> 0 < StatsAfter(times).bestTime <= times[i]
  {
    var front := times[..|times| - 1];
    var last := times[|times| - 1];
    assert forall i :: 0 <= i < |front| ==> front[i] == times[i];
    if front == [] {
      assert times == [last];
    } else {
      StatsSummarise(front, lo, hi);
      var prev := StatsAfter(front);
      MeanStepWithin(prev.averageTime, prev.attempts, last, lo, hi);
      var exact := (prev.averageTime * prev.attempts + last) as real / (prev.attempts + 1) as real;
      RoundWithin(exact, lo, hi);
      assert times == front + [last];
    }
  }

  datatype Rating = Excellent | Great | Good | Average | TryAgain

  /** `getRating`: the thresholds 200, 250, 300 and 400 ms split all times into five bands. */
  function RatingOf(time: int): (r: Rating)
    ensures r == Excellent <==> time < 200
    ensures r == Great <==> 200 <= time < 250
    ensures r == Good <==> 250 <= time < 300
    ensures r == Average <==> 300 <= time < 400
    ensures r == TryAgain <==> 400 <= time
  {
    if time < 200 then Excellent
    else if time < 250 then Great
    else if time < 300 then Good
    else if time < 400 then Average
    else TryAgain
  }

  function RatingRank(r: Rating): nat
  {
    match r
    case Excellent => 0
    case Great => 1
    case Good => 2
    case Average => 3
    case TryAgain => 4
  }

  /** A quicker reaction never gets a lower rating. */
  lemma RatingMonotone(quicker: int, slower: int)
    requires quicker <= slower
    ensures RatingRank(RatingOf(quicker)) <= RatingRank(RatingOf(slower))
  {
  }

  class Game {
    var gameState: GameState
    var startTime: int
    var reactionTime: int
    var stats: GameStats
    /** The timeout that shows the target is scheduled. */
    var pendingGo: bool
    /**
     * The game state seen by the target's `pointerdown` handler: it is
     * registered once on mount, so it sees the first render's state.
     */
    var handlerState: GameState
    var handlerStartTime: int

    constructor ()
      ensures gameState == Waiting && stats == EmptyStats && !pendingGo
      ensures handlerState == Waiting && handlerStartTime == 0 && startTime == 0
    {
      gameState, startTime, reactionTime, stats := Waiting, 0, 0, EmptyStats;
      pendingGo, handlerState, handlerStartTime := false, Waiting, 0;
    }

    /** `startGame`: ready, with the target's timeout scheduled after the returned delay. */
    method StartGame(random: real) returns (delay: real)
      requires 0.0 <= random < 1.0
      modifies this`gameState, this`pendingGo
      ensures gameState == Ready && pendingGo && delay == StartDelay(random)
    {
      gameState := Ready;
      delay := StartDelay(random);
      pendingGo := true;
    }

    /** The timeout fires at `now`: the target shows and the clock starts. */
    method GoTimeout(now: int)
      requires pendingGo
      modifies this`startTime, this`gameState, this`pendingGo
      ensures startTime == now && gameState == Go && !pendingGo
    {
      startTime := now;
      gameState := Go;
      pendingGo := false;
    }

    /** `handleEarlyClick`: a click before the target cancels its timeout and fails the round. */
    method EarlyClick()
      requires pendingGo
      modifies this`pendingGo, this`gameState
      ensures !pendingGo && gameState == TooEarly
    {
      pendingGo := false;
      gameState := TooEarly;
    }

    /** Two seconds after a failed or measured round. */
    method TooEarlyTimeout()
      modifies this`gameState
      ensures gameState == Waiting
    {
      gameState := Waiting;
    }

    method ResultTimeout()
      modifies this`gameState
      ensures gameState == Finished
    {
      gameState := Finished;
    }

    /**
     * A click on the target, as registered: the handler tests the state it
     * was created with, which is never 'go', so the click changes nothing.
     */
    method TargetClickAsWritten(now: int)
      modifies this`reactionTime, this`gameState, this`stats
      ensures handlerState == Go ==>
                reactionTime == now - handlerStartTime && gameState == Clicked
                && stats == UpdateStats(old(stats), now - handlerStartTime)
      ensures handlerState != Go ==>
                reactionTime == old(reactionTime) && gameState == old(gameState) && stats == old(stats)
    {
      if handlerState == Go {
        reactionTime := now - handlerStartTime;
        gameState := Clicked;
        stats := UpdateStats(stats, reactionTime);
      }
    }

    /** `handleTargetClick` reading the current state: only in 'go' the reaction is measured and counted. */
    method HandleTargetClick(now: int)
      modifies this`reactionTime, this`gameState, this`stats
      ensures old(gameState) == Go ==>
                reactionTime == now - startTime && gameState == Clicked
                && stats == UpdateStats(old(stats), now - startTime)
      ensures old(gameState) != Go ==>
                reactionTime == old(reactionTime) && gameState == old(gameState) && stats == old(stats)
    {
      if gameState == Go {
        reactionTime := now - startTime;
        gameState := Clicked;
        stats := UpdateStats(stats, reactionTime);
      }
    }

    /** `resetStats`. */
    method ResetStats()
      modifies this`stats
      ensures stats == EmptyStats
    {
      stats := EmptyStats;
    }
  }

  /**
   * The lost click: a round started at 1000 ms shows the target at 3500 ms
   * and the target is clicked at 3750 ms; the registered handler ignores
   * it, so the game stays at 'go' with no attempt counted.
   */
  method LostTargetClick() returns (g: Game)
    ensures g.gameState == Go && g.stats.attempts == 0
  {
    g := new Game();
    var delay := g.StartGame(0.5);
    g.GoTimeout(3500);
    g.TargetClickAsWritten(3750);
  }

  /** The same round with the handler reading the current state counts a 250 ms reaction. */
  method CountedTargetClick() returns (g: Game)
    ensures g.gameState == Clicked && g.stats == GameStats(1, 250, 250, 250) && RatingOf(g.reactionTime) == Good
  {
    g := new Game();
    var delay := g.StartGame(0.5);
    g.GoTimeout(3500);
    g.HandleTargetClick(3750);
  }
}
