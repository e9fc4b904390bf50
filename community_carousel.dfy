/**
 * The community activity carousel: relative timestamps, the seven-second
 * auto-advance through the activities, and where each card is placed,
 * with the first card moved right of the last one so the advance from the
 * last card wraps smoothly.  The clock is a parameter.
 */
module CommunityCarousel {
  import opened Common

  datatype Unit = Seconds | Minutes | Hours | Days

  function UnitChar(u: Unit): char
  {
    match u
    case Seconds => 's'
    case Minutes => 'm'
    case Hours => 'h'
    case Days => 'd'
  }

  /** A relative timestamp: a whole number of a unit. */
  datatype TimeAgo = TimeAgo(amount: int, unit: Unit)

  /**
   * `formatTimeAgo` for an activity created at `created` ms, seen at `now`:
   * the elapsed whole seconds below a minute, else whole minutes below an
   * hour, else whole hours below a day, else whole days.
   */
  function FormatTimeAgo(now: int, created: int): (t: TimeAgo)
    ensures var secs := Floor((now - created) as real / 1000.0);
            && (t.unit == Seconds <==> secs < 60)
            && (t.unit == Minutes <==> 60 <= secs < 3600)
            && (t.unit == Hours <==> 3600 <= secs < 86400)
            && (t.unit == Days <==> 86400 <= secs)
            && (t.unit == Seconds ==> t.amount == secs)
            && (t.unit == Minutes ==> t.amount * 60 <= secs < (t.amount + 1) * 60 && 1 <= t.amount < 60)
            && (t.unit == Hours ==> t.amount * 3600 <= secs < (t.amount + 1) * 3600 && 1 <= t.amount < 24)
            && (t.unit == Days ==> t.amount * 86400 <= secs < (t.amount + 1) * 86400 && 1 <= t.amount)
  {
    var secs := Floor((now - created) as real / 1000.0);
    if secs < 60 then TimeAgo(secs, Seconds)
    else if secs < 3600 then TimeAgo(secs / 60, Minutes)
    else if secs < 86400 then TimeAgo(secs / 3600, Hours)
    else TimeAgo(secs / 86400, Days)
  }

  /** The text of a timestamp: the number followed by the unit's letter. */
  function TimeAgoText(t: TimeAgo): (s: string)
    ensures |s| >= 2 && s[|s| - 1] == UnitChar(t.unit) && s[..|s| - 1] == IntString(t.amount)
  {
    IntString(t.amount) + [UnitChar(t.unit)]
  }

  /** An activity seen less than a second after its creation reads '0s'. */
  lemma JustNowIsZeroSeconds(now: int, created: int)
    requires created <= now < created + 1000
    ensures FormatTimeAgo(now, created) == TimeAgo(0, Seconds)
  {
    var x := (now - created) as real / 1000.0;
    assert 0.0 <= x < 1.0;
  }

  datatype Activity = Activity(id: int, title: string, createdAt: int)

  /** The slot of card `index` as written: the first card goes one past the last when the last is current. */
  function PositionAsWritten(index: nat, currentIndex: nat, length: nat): nat
  {
    if currentIndex == length - 1 && index == 0 then length else index
  }

  /** The slot of card `index`, with the wrap applied only when there is more than one card. */
  function Position(index: nat, currentIndex: nat, length: nat): nat
  {
    if length > 1 && currentIndex == length - 1 && index == 0 then length else index
  }

  /** The card's offset from the visible slot, in card widths (`translateX` divided by 100%). */
  function Offset(position: nat, currentIndex: nat): int
  {
    position - currentIndex
  }

  /**
   * With the wrap applied only for several cards, the current card is always
   * the visible one, the card the advance goes to next sits right of it,
   * and no other card is visible.
   */
  lemma CurrentCardVisible(currentIndex: nat, length: nat)
    requires currentIndex < length
    ensures Offset(Position(currentIndex, currentIndex, length), currentIndex) == 0
    ensures length > 1 ==> Offset(Position((currentIndex + 1) % length, currentIndex, length), currentIndex) == 1
    ensures forall i :: 0 <= i < length && i != currentIndex ==> Offset(Position(i, currentIndex, length), currentIndex) != 0
  {
    if length > 1 && currentIndex == length - 1 {
      assert (currentIndex + 1) % length == 0;
    }
  }

  /** As written, for several cards the placement agrees with the corrected one. */
  lemma AsWrittenAgreesForSeveral(index: nat, currentIndex: nat, length: nat)
    requires length > 1
    ensures PositionAsWritten(index, currentIndex, length) == Position(index, currentIndex, length)
  {
  }

  /** As written, a single activity is placed one card width to the right of the visible slot. */
  lemma SingleCardOffScreen()
    ensures Offset(PositionAsWritten(0, 0, 1), 0) == 1
    ensures Offset(Position(0, 0, 1), 0) == 0
  {
  }

  class Carousel {
    var activities: seq<Activity>
    var currentIndex: nat
    var isPaused: bool

    /** A non-empty list has its current card in range. */
    predicate Valid()
      reads this
    {
      activities != [] ==> currentIndex < |activities|
    }

    constructor (initial: seq<Activity>, paused: bool)
      ensures Valid() && activities == initial && currentIndex == 0 && isPaused == paused
    {
      activities, currentIndex, isPaused := initial, 0, paused;
    }

    /** The auto-advance interval: only while not paused and not empty, one card on, wrapping to the first. */
    method Advance()
      requires Valid()
      modifies this`currentIndex
      ensures Valid()
      ensures activities != [] && !isPaused ==> currentIndex == (old(currentIndex) + 1) % |activities|
      ensures activities == [] || isPaused ==> currentIndex == old(currentIndex)
    {
      if activities == [] || isPaused {
        return;
      }
      currentIndex := (currentIndex + 1) % |activities|;
    }

    /** The pause control. */
    method SetPaused(paused: bool)
      modifies this`isPaused
      ensures isPaused == paused
    {
      isPaused := paused;
    }

    /** What the carousel renders: the empty state, or each card with its offset in card widths. */
    function Render(): (r: Option<seq<int>>)
      reads this
      ensures r.None? <==> activities == []
      ensures r.Some? ==> |r.value| == |activities|
      ensures r.Some? ==> forall i :: 0 <= i < |activities| ==>
                r.value[i] == Offset(Position(i, currentIndex, |activities|), currentIndex)
    {
      if activities == [] then None
      else Some(seq(|activities|, i requires 0 <= i < |activities| reads this => Offset(Position(i, currentIndex, |activities|), currentIndex)))
    }
  }

  /** A full round of advances comes back to the first card. */
  method FullRound(c: Carousel)
    requires c.Valid() && c.activities != [] && !c.isPaused && c.currentIndex == 0
    modifies c
    ensures c.currentIndex == 0 && c.Valid()
  {
    var n := 0;
    while n < |c.activities|
      invariant 0 <= n <= |c.activities| && c.Valid() && !c.isPaused && c.activities == old(c.activities)
      invariant n < |c.activities| ==> c.currentIndex == n
      invariant n == |c.activities| ==> c.currentIndex == 0
    {
      c.Advance();
      n := n + 1;
    }
  }
}
