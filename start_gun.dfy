/**
 * The start gun: a sequence of 'on your marks', 'set' and the gun, each
 * step run by a callback of the previous one.  A start or a reset is
 * accepted only 600 ms after the last accepted action; every start takes a
 * new sequence id and every reset takes one too, and a callback acts only
 * while its sequence id is the current one and the sequence is not
 * cancelled.  The clock and `Math.random()` are parameters.
 */
module StartGun {
  import opened Common

  const CooldownMs := 600

  /** The status shown on the page. */
  datatype Status = Idle | OnYourMarks | SetCommand | Gun

  /**
   * Which continuation of the current sequence is scheduled: the audio
   * unlock being awaited, an audio clip playing, or a timer running.
   */
  datatype Stage = AwaitingUnlock | MarksPlaying | SetDelay | SetPlaying | GunDelay | BangPlaying | Finishing | Done

  function StageRank(s: Stage): nat
  {
    match s
    case AwaitingUnlock => 0
    case MarksPlaying => 1
    case SetDelay => 2
    case SetPlaying => 3
    case GunDelay => 4
    case BangPlaying => 5
    case Finishing => 6
    case Done => 7
  }

  /** The status each stage of a live sequence shows. */
  function StatusOf(s: Stage): Status
  {
    match s
    case MarksPlaying => OnYourMarks
    case SetDelay => OnYourMarks
    case SetPlaying => SetCommand
    case GunDelay => SetCommand
    case BangPlaying => Gun
    case Finishing => Gun
    case _ => Idle
  }

  /** The statuses follow each other as on-your-marks, set, gun, idle along the stages. */
  lemma StatusOrder(a: Stage, b: Stage)
    requires StageRank(a) <= StageRank(b) && a != AwaitingUnlock
    ensures StatusOf(a) == SetCommand ==> StatusOf(b) != OnYourMarks
    ensures StatusOf(a) == Gun ==> StatusOf(b) in {Gun, Idle}
  {
  }

  /**
   * The gun delay in seconds: the base, or with the randomiser the base
   * moved by `(random · 2 − 1)` seconds and never below 0.1.
   */
  function GunDelaySeconds(base: real, useRandomizer: bool, random: real): (d: real)
    requires 0.0 <= random < 1.0
    ensures !useRandomizer ==> d == base
    ensures useRandomizer ==> d >= 0.1 && d >= base - 1.0 && (d == 0.1 || d < base + 1.0)
  {
    if useRandomizer then MaxR(0.1, base + (random * 2.0 - 1.0) * 1.0) else base
  }

  datatype Clip = MarksClip | SetClip | BangClip

  /** The estimated clip lengths used when the clip cannot report its own. */
  function EstimatedDurationMs(clip: Clip): (ms: int)
    ensures 500 <= ms <= 2000
  {
    match clip
    case MarksClip => 2000
    case SetClip => 1000
    case BangClip => 500
  }

  /** Muted `playAudio`: nothing plays, and the callback, when there is one, is scheduled after the clip's estimated length. */
  function MutedCallbackDelay(clip: Clip, hasCallback: bool): (r: Option<int>)
    ensures r.Some? <==> hasCallback
    ensures r.Some? ==> r.value == EstimatedDurationMs(clip) && r.value > 0
  {
    if hasCallback then Some(EstimatedDurationMs(clip)) else None
  }

  /** One playback of a clip and its completion handlers. */
  class Playback {
    var hasCompleted: bool
    ghost var fired: nat

    ghost predicate AtMostOnce()
      reads this
    {
      fired <= 1 && (fired == 1 ==> hasCompleted)
    }

    constructor ()
      ensures !hasCompleted && fired == 0 && AtMostOnce()
    {
      hasCompleted := false;
      fired := 0;
    }

    /**
     * `triggerCompletion`, reached from the ended, error and pause handlers
     * and the fallback timers: the first call completes the playback and
     * runs the callback unless the sequence is cancelled; later calls do
     * nothing.
     */
    method TriggerCompletion(cancelled: bool) returns (fire: bool)
      modifies this
      ensures fire <==> !old(hasCompleted) && !cancelled
      ensures hasCompleted
      ensures fired == old(fired) + (if fire then 1 else 0)
      ensures old(AtMostOnce()) ==> AtMostOnce()
    {
      if hasCompleted {
        return false;
      }
      hasCompleted := true;
      fire := !cancelled;
      if fire {
        fired := fired + 1;
      }
    }
  }

  /** The page's refs and the state of its current sequence. */
  class Gun {
    var currentSequenceId: nat
    var lastActionTimestamp: int
    var isPlaying: bool
    var cancelled: bool
    var status: Status
    var stage: Stage
    var currentSetToGunDelay: real

    /** A callback of sequence `id` acts exactly when this holds. */
    predicate Live(id: nat)
      reads this
    {
      id == currentSequenceId && !cancelled
    }

    /**
     * A sequence plays from its start until its final timer or a reset;
     * past the unlock the status is the one of its stage and it is not
     * cancelled; without a scheduled step the status is idle.
     */
    predicate Valid()
      reads this
    {
      (isPlaying <==> stage != Done)
      && (stage != AwaitingUnlock && stage != Done ==> !cancelled)
      && status == StatusOf(stage)
    }

    constructor (setToGunDelay: real)
      ensures Valid() && status == Idle && !isPlaying && currentSequenceId == 0 && lastActionTimestamp == 0
    {
      currentSequenceId, lastActionTimestamp := 0, 0;
      isPlaying, cancelled := false, false;
      status, stage := Idle, Done;
      currentSetToGunDelay := setToGunDelay;
    }

    /**
     * `handleStartClick` and the synchronous part of `startSequence`:
     * ignored within the cooldown or while a sequence plays; otherwise the
     * time is recorded, the page is playing and a new sequence id is taken.
     */
    method HandleStartClick(now: int) returns (started: bool, myId: nat)
      requires Valid()
      modifies this`lastActionTimestamp, this`isPlaying, this`currentSequenceId, this`stage
      ensures Valid()
      ensures started <==> now - old(lastActionTimestamp) >= CooldownMs && !old(isPlaying)
      ensures !started ==> lastActionTimestamp == old(lastActionTimestamp) && isPlaying == old(isPlaying)
                           && currentSequenceId == old(currentSequenceId) && stage == old(stage)
      ensures started ==> lastActionTimestamp == now && isPlaying && currentSequenceId == old(currentSequenceId) + 1
                          && myId == currentSequenceId && stage == AwaitingUnlock
    {
      if now - lastActionTimestamp < CooldownMs || isPlaying {
        return false, 0;
      }
      lastActionTimestamp := now;
      isPlaying := true;
      currentSequenceId := currentSequenceId + 1;
      myId := currentSequenceId;
      stage := AwaitingUnlock;
      started := true;
    }

    /**
     * The rest of `startSequence` after the audio unlock, as written: it
     * shows 'on your marks' and clears the cancel flag whatever sequence
     * is current, and plays the marks clip whose callback checks the id.
     */
    method UnlockDoneAsWritten(myId: nat)
      requires myId <= currentSequenceId
      requires myId == currentSequenceId ==> stage == AwaitingUnlock
      modifies this`status, this`cancelled, this`stage
      ensures status == OnYourMarks && !cancelled
      ensures stage == if myId == currentSequenceId then MarksPlaying else old(stage)
    {
      status := OnYourMarks;
      cancelled := false;
      if myId == currentSequenceId {
        stage := MarksPlaying;
      }
    }

    /** The rest of `startSequence` with the id check its other steps make: a stale sequence changes nothing. */
    method UnlockDone(myId: nat)
      requires Valid()
      requires myId <= currentSequenceId
      requires myId == currentSequenceId ==> stage == AwaitingUnlock
      modifies this`status, this`cancelled, this`stage
      ensures Valid()
      ensures myId == currentSequenceId ==> status == OnYourMarks && !cancelled && stage == MarksPlaying
      ensures myId != currentSequenceId ==> status == old(status) && cancelled == old(cancelled) && stage == old(stage)
    {
      if myId == currentSequenceId {
        status := OnYourMarks;
        cancelled := false;
        stage := MarksPlaying;
      }
    }

    /** The marks clip's callback: a live sequence starts its set timer. */
    method MarksEnded(myId: nat)
      requires Valid()
      requires Live(myId) ==> stage == MarksPlaying
      modifies this`stage
      ensures Valid()
      ensures stage == if old(Live(myId)) then SetDelay else old(stage)
    {
      if Live(myId) {
        stage := SetDelay;
      }
    }

    /** The set timer: a live sequence shows 'set' and plays the set clip. */
    method SetTimerFired(myId: nat)
      requires Valid()
      requires Live(myId) ==> stage == SetDelay
      modifies this`stage, this`status
      ensures Valid()
      ensures old(Live(myId)) ==> old(status) == OnYourMarks && status == SetCommand && stage == SetPlaying
      ensures !old(Live(myId)) ==> status == old(status) && stage == old(stage)
    {
      if Live(myId) {
        status := SetCommand;
        stage := SetPlaying;
      }
    }

    /** The set clip's callback: a live sequence draws the gun delay and starts the gun timer. */
    method SetEnded(myId: nat, setToGunDelay: real, useRandomizer: bool, random: real)
      requires Valid()
      requires Live(myId) ==> stage == SetPlaying
      requires 0.0 <= random < 1.0
      modifies this`stage, this`currentSetToGunDelay
      ensures Valid()
      ensures old(Live(myId)) ==> stage == GunDelay
                                  && currentSetToGunDelay == GunDelaySeconds(setToGunDelay, useRandomizer, random)
      ensures !old(Live(myId)) ==> stage == old(stage) && currentSetToGunDelay == old(currentSetToGunDelay)
    {
      if Live(myId) {
        currentSetToGunDelay := GunDelaySeconds(setToGunDelay, useRandomizer, random);
        stage := GunDelay;
      }
    }

    /** The gun timer: a live sequence fires the gun. */
    method GunTimerFired(myId: nat)
      requires Valid()
      requires Live(myId) ==> stage == GunDelay
      modifies this`stage, this`status
      ensures Valid()
      ensures old(Live(myId)) ==> old(status) == SetCommand && status == Gun && stage == BangPlaying
      ensures !old(Live(myId)) ==> status == old(status) && stage == old(stage)
    {
      if Live(myId) {
        status := Gun;
        stage := BangPlaying;
      }
    }

    /** The gun clip's callback: a live sequence starts its one-second closing timer. */
    method BangEnded(myId: nat)
      requires Valid()
      requires Live(myId) ==> stage == BangPlaying
      modifies this`stage
      ensures Valid()
      ensures stage == if old(Live(myId)) then Finishing else old(stage)
    {
      if Live(myId) {
        stage := Finishing;
      }
    }

    /** The closing timer: a live sequence ends, idle and no longer playing. */
    method FinalTimerFired(myId: nat)
      requires Valid()
      requires Live(myId) ==> stage == Finishing
      modifies this`stage, this`status, this`isPlaying
      ensures Valid()
      ensures old(Live(myId)) ==> old(status) == Gun && status == Idle && !isPlaying && stage == Done
      ensures !old(Live(myId)) ==> status == old(status) && stage == old(stage) && isPlaying == old(isPlaying)
    {
      if Live(myId) {
        isPlaying := false;
        status := Idle;
        stage := Done;
      }
    }

    /**
     * `resetSequence`: ignored within the cooldown; otherwise every
     * sequence so far is invalidated by a new id and cancelled, and the
     * page is idle and not playing.
     */
    method ResetSequence(now: int) returns (reset: bool)
      requires Valid()
      modifies this`lastActionTimestamp, this`currentSequenceId, this`cancelled, this`status, this`isPlaying,
               this`stage
      ensures Valid()
      ensures reset <==> now - old(lastActionTimestamp) >= CooldownMs
      ensures !reset ==> lastActionTimestamp == old(lastActionTimestamp) && currentSequenceId == old(currentSequenceId)
                         && cancelled == old(cancelled) && status == old(status) && isPlaying == old(isPlaying)
                         && stage == old(stage)
      ensures reset ==> lastActionTimestamp == now && currentSequenceId == old(currentSequenceId) + 1 && cancelled
                        && status == Idle && !isPlaying && stage == Done
    {
      if now - lastActionTimestamp < CooldownMs {
        return false;
      }
      lastActionTimestamp := now;
      currentSequenceId := currentSequenceId + 1;
      cancelled := true;
      stage := Done;
      status := Idle;
      isPlaying := false;
      reset := true;
    }
  }

  /**
   * A reset that lands while the first start still awaits the audio
   * unlock: when the unlock finishes, the page shows 'on your marks'
   * although nothing plays and no step will follow.
   */
  method StaleUnlockShowsMarks() returns (g: Gun)
    ensures g.status == OnYourMarks && !g.isPlaying && g.stage == Done && !g.Valid()
  {
    g := new Gun(2.0);
    var started, id := g.HandleStartClick(1000);
    var reset := g.ResetSequence(1600);
    g.UnlockDoneAsWritten(id);
  }

  /** A full sequence from a start: the statuses are on-your-marks, set, gun and idle, in that order. */
  method FullSequence(g: Gun, now: int, random: real) returns (seen: seq<Status>)
    requires g.Valid() && !g.isPlaying && now - g.lastActionTimestamp >= CooldownMs
    requires 0.0 <= random < 1.0
    modifies g
    ensures seen == [OnYourMarks, SetCommand, Gun, Idle]
    ensures g.Valid() && !g.isPlaying && g.status == Idle
  {
    var started, id := g.HandleStartClick(now);
    g.UnlockDone(id);
    seen := [g.status];
    g.MarksEnded(id);
    g.SetTimerFired(id);
    seen := seen + [g.status];
    g.SetEnded(id, 2.0, true, random);
    g.GunTimerFired(id);
    seen := seen + [g.status];
    g.BangEnded(id);
    g.FinalTimerFired(id);
    seen := seen + [g.status];
  }
}
