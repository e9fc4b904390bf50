/**
 * Tracklympics, the tap-to-run sprint game: alternate left and right taps
 * move the runner six pixels each, the race ends when the runner reaches
 * the finish line at x = 700, and the best time and the number of races
 * are kept.  Drawing is not modelled; the clock is a parameter.
 */
module Tracklympics {
  import opened Common

  datatype GameState = Splash | EventSelect | CharacterSelect | Gameplay | Finished

  datatype GameStats = GameStats(bestTime: real, races: nat)

  const StartX := 90
  const StepPixels := 6
  const FinishX := 700

  /** The runner's x coordinate on the track. */
  function PlayerX(position: nat): int
  {
    StartX + position * StepPixels
  }

  /** The finish line is reached exactly from the 102nd step on. */
  lemma FinishAtStep102(position: nat)
    ensures PlayerX(position) >= FinishX <==> position >= 102
  {
  }

  /** The stats after a race finished in `finalTime`: one more race, and the best time the first or the smaller. */
  function UpdateStats(prev: GameStats, finalTime: real): (s: GameStats)
    ensures s.races == prev.races + 1
    ensures prev.bestTime == 0.0 ==> s.bestTime == finalTime
    ensures prev.bestTime != 0.0 ==> s.bestTime <= prev.bestTime && s.bestTime <= finalTime
                                     && (s.bestTime == prev.bestTime || s.bestTime == finalTime)
  {
    GameStats(if prev.bestTime == 0.0 then finalTime else MinR(prev.bestTime, finalTime), prev.races + 1)
  }

  /** The stats after races finished in `times`, in order, from the initial stats. */
  function StatsAfter(times: seq<real>): GameStats
  {
    if times == [] then GameStats(0.0, 0) else UpdateStats(StatsAfter(times[..|times| - 1]), times[|times| - 1])
  }

  /** With positive times, the best time is one of the times and no time beats it, and every race is counted. */
  lemma {:induction false} BestTimeIsFastest(times: seq<real>)
    requires forall i :: 0 <= i < |times| ==> times[i] > 0.0
    ensures StatsAfter(times).races == |times|
    ensures times != [] ==> StatsAfter(times).bestTime in times
    ensures forall i :: 0 <= i < |times| ==> StatsAfter(times).bestTime <= times[i]
  {
    if times != [] {
      var front := times[..|times| - 1];
      var last := times[|times| - 1];
      assert forall i :: 0 <= i < |front| ==> front[i] == times[i];
      BestTimeIsFastest(front);
      var prev := StatsAfter(front);
      if front == [] {
        assert prev.bestTime == 0.0;
      } else {
        assert prev.bestTime in front;
        assert prev.bestTime > 0.0;
      }
      assert times == front + [last];
    }
  }

  datatype Rating = WorldRecord | OlympicLevel | Great | Good | KeepTraining

  /** `getRaceRating`. */
  function RaceRating(time: real): (r: Rating)
    ensures r == WorldRecord <==> time < 10.0
    ensures r == OlympicLevel <==> 10.0 <= time < 11.0
    ensures r == Great <==> 11.0 <= time < 12.0
    ensures r == Good <==> 12.0 <= time < 15.0
    ensures r == KeepTraining <==> 15.0 <= time
  {
    if time < 10.0 then WorldRecord
    else if time < 11.0 then OlympicLevel
    else if time < 12.0 then Great
    else if time < 15.0 then Good
    else KeepTraining
  }

  function RatingRank(r: Rating): nat
  {
    match r
    case WorldRecord => 0
    case OlympicLevel => 1
    case Great => 2
    case Good => 3
    case KeepTraining => 4
  }

  /** A faster time never gets a lower rating. */
  lemma RatingMonotone(faster: real, slower: real)
    requires faster <= slower
    ensures RatingRank(RaceRating(faster)) <= RatingRank(RaceRating(slower))
  {
  }

  class Race {
    var gameState: GameState
    var playerPosition: nat
    /** The foot the next step must be tapped with: left when true. */
    var leftFoot: bool
    var raceStarted: bool
    var raceFinished: bool
    /** Seconds since the gun. */
    var gameTime: real
    var stats: GameStats

    constructor ()
      ensures gameState == Splash && playerPosition == 0 && leftFoot && !raceStarted && !raceFinished
      ensures gameTime == 0.0 && stats == GameStats(0.0, 0)
    {
      gameState, playerPosition, leftFoot := Splash, 0, true;
      raceStarted, raceFinished, gameTime, stats := false, false, 0.0, GameStats(0.0, 0);
    }

    /** The start of `startRaceSequence`: back at the start line, not started, not finished, clock at 0; the expected foot is left as it was. */
    method StartRaceSequence()
      modifies this`playerPosition, this`raceStarted, this`raceFinished, this`gameTime
      ensures playerPosition == 0 && !raceStarted && !raceFinished && gameTime == 0.0
    {
      playerPosition := 0;
      raceStarted := false;
      raceFinished := false;
      gameTime := 0.0;
    }

    /** The 'GO!' timeout, 4 s after the sequence starts. */
    method Go()
      modifies this`raceStarted
      ensures raceStarted
    {
      raceStarted := true;
    }

    /**
     * The race clock's interval, `now` and `startTime` in ms.  Its
     * `raceFinished` test reads the value captured when the clock was
     * started, which is false, so the clock keeps running after the finish.
     */
    method ClockTick(now: int, startTime: int)
      modifies this`gameTime
      ensures gameTime == (now - startTime) as real / 1000.0
    {
      gameTime := (now - startTime) as real / 1000.0;
    }

    /** The clock as evidently intended: it stops once the race is finished. */
    method ClockTickAsIntended(now: int, startTime: int)
      modifies this`gameTime
      ensures !raceFinished ==> gameTime == (now - startTime) as real / 1000.0
      ensures raceFinished ==> gameTime == old(gameTime)
    {
      if !raceFinished {
        gameTime := (now - startTime) as real / 1000.0;
      }
    }

    /** The rating badge, shown after the finish once a best time exists, rates the clock's time. */
    function ShownRating(): (r: Option<Rating>)
      reads this
      ensures r.Some? <==> raceFinished && stats.bestTime > 0.0
      ensures r.Some? ==> r.value == RaceRating(gameTime)
    {
      if raceFinished && stats.bestTime > 0.0 then Some(RaceRating(gameTime)) else None
    }

    /** `handleFootstep`: before the start or after the finish nothing happens; the expected foot moves one step and swaps feet. */
    method HandleFootstep(isLeft: bool)
      modifies this`playerPosition, this`leftFoot
      ensures raceStarted && !raceFinished && isLeft == old(leftFoot) ==>
                playerPosition == old(playerPosition) + 1 && leftFoot == !old(leftFoot)
      ensures !(raceStarted && !raceFinished && isLeft == old(leftFoot)) ==>
                playerPosition == old(playerPosition) && leftFoot == old(leftFoot)
    {
      if !raceStarted || raceFinished {
        return;
      }
      if isLeft == leftFoot {
        playerPosition := playerPosition + 1;
        leftFoot := !leftFoot;
      }
    }

    /** The position effect: on reaching the finish line the race ends and the stats take the time. */
    method CheckFinish()
      modifies this`raceFinished, this`stats
      ensures raceStarted && !old(raceFinished) && PlayerX(playerPosition) >= FinishX ==>
                raceFinished && stats == UpdateStats(old(stats), gameTime)
      ensures !(raceStarted && !old(raceFinished) && PlayerX(playerPosition) >= FinishX) ==>
                raceFinished == old(raceFinished) && stats == old(stats)
    {
      if !raceStarted || raceFinished {
        return;
      }
      if PlayerX(playerPosition) >= FinishX {
        raceFinished := true;
        stats := UpdateStats(stats, gameTime);
      }
    }

    /** `resetGame`: the splash screen, at the start, left foot first, not started or finished, clock at 0; the stats stay. */
    method ResetGame()
      modifies this`gameState, this`playerPosition, this`raceStarted, this`raceFinished, this`gameTime, this`leftFoot
      ensures gameState == Splash && playerPosition == 0 && leftFoot && !raceStarted && !raceFinished && gameTime == 0.0
    {
      gameState := Splash;
      playerPosition := 0;
      raceStarted := false;
      raceFinished := false;
      gameTime := 0.0;
      leftFoot := true;
    }
  }

  /**
   * As written, a race finished in 9.5 s is rated a world record, and a
   * clock tick 16 s after the gun turns the badge into 'Keep Training!'.
   */
  method RatingDriftsAfterFinish(r: Race)
    requires r.raceFinished && r.stats.bestTime > 0.0 && r.gameTime == 9.5
    modifies r
    ensures old(r.ShownRating()) == Some(WorldRecord)
    ensures r.ShownRating() == Some(KeepTraining) && r.stats == old(r.stats)
  {
    r.ClockTick(16000, 0);
  }

  /** With the clock stopped at the finish, no later tick changes the rating shown. */
  method RatingKeptAfterFinish(r: Race, now: int, startTime: int)
    requires r.raceFinished
    modifies r
    ensures r.ShownRating() == old(r.ShownRating()) && r.gameTime == old(r.gameTime)
  {
    r.ClockTickAsIntended(now, startTime);
  }

  /** Tapping the same foot twice moves the runner at most one step. */
  method SameFootTwice(r: Race, isLeft: bool)
    modifies r
    ensures r.playerPosition <= old(r.playerPosition) + 1
  {
    r.HandleFootstep(isLeft);
    r.HandleFootstep(isLeft);
  }

  /**
   * A race run with perfectly alternating taps from the start line, the
   * position checked after every tap: it ends after exactly 102 steps,
   * counted once in the stats with the clock's time.
   */
  method RunAlternating(r: Race) returns (steps: nat)
    requires r.raceStarted && !r.raceFinished && r.playerPosition == 0
    modifies r
    ensures steps == 102 && r.playerPosition == 102 && r.raceFinished
    ensures r.stats == UpdateStats(old(r.stats), r.gameTime)
  {
    steps := 0;
    while !r.raceFinished
      invariant r.raceStarted && r.gameTime == old(r.gameTime)
      invariant r.playerPosition == steps <= 102
      invariant !r.raceFinished ==> steps < 102 && r.stats == old(r.stats)
      invariant r.raceFinished ==> steps == 102 && r.stats == UpdateStats(old(r.stats), r.gameTime)
      decreases 102 - steps
    {
      r.HandleFootstep(r.leftFoot);
      steps := steps + 1;
      r.CheckFinish();
    }
  }
}
