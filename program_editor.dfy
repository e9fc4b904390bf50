/**
 * The training-program editor: the program's length in days and weeks from
 * its block structure, the seven days of a displayed week, the sessions of
 * that week and of one day, week navigation, and the move of a session to
 * another day.  Dates are day offsets from the start (Sunday) of the current
 * week.
 */
module ProgramEditor {
  import opened Common

  datatype Session = Session(id: int, dayNumber: int, title: string)

  /** One column of the week view. */
  datatype WeekDay = WeekDay(dateOffset: int, weekdayIndex: nat, isWeekend: bool, dayNumber: int)

  /** `macroBlockSize · numberOfMacroBlocks · microBlockSize`. */
  function TotalProgramDays(macroBlockSize: nat, numberOfMacroBlocks: nat, microBlockSize: nat): nat
  {
    macroBlockSize * numberOfMacroBlocks * microBlockSize
  }

  /** `Math.ceil(totalProgramDays / 7)`: the fewest whole weeks that hold every day. */
  function TotalWeeks(days: nat): (w: nat)
    ensures w * 7 >= days && (w == 0 || (w - 1) * 7 < days)
  {
    CeilDiv(days, 7)
  }

  /** `getWeekDates`: Sunday to Saturday of week `w`, numbered `7w + 1` to `7w + 7`. */
  function WeekDates(w: nat): (r: seq<WeekDay>)
    ensures |r| == 7
    ensures forall i :: 0 <= i < 7 ==> r[i].dayNumber == w * 7 + i + 1 && r[i].dateOffset == w * 7 + i
    ensures forall i :: 0 <= i < 7 ==> (r[i].isWeekend <==> i == 0 || i == 6)
  {
    seq(7, i requires 0 <= i < 7 => WeekDay(w * 7 + i, i, i == 0 || i == 6, w * 7 + i + 1))
  }

  predicate InWeek(s: Session, w: nat)
  {
    w * 7 < s.dayNumber <= (w + 1) * 7
  }

  /** `weekSessions`: the sessions whose day lies in the week. */
  function WeekSessions(sessions: seq<Session>, w: nat): seq<Session>
  {
    Filter(sessions, (s: Session) => InWeek(s, w))
  }

  /** `getSessionsForDay`, over the week's sessions. */
  function SessionsForDay(weekSessions: seq<Session>, dayNumber: int): seq<Session>
  {
    Filter(weekSessions, (s: Session) => s.dayNumber == dayNumber)
  }

  /** A session is in the week view exactly when its day is one of the week's seven columns. */
  lemma WeekSessionsMatchWeekDates(sessions: seq<Session>, w: nat, s: Session)
    ensures s in WeekSessions(sessions, w) <==>
              s in sessions && exists i :: 0 <= i < 7 && WeekDates(w)[i].dayNumber == s.dayNumber
  {
    var dates := WeekDates(w);
    if s in sessions && InWeek(s, w) {
      var i := s.dayNumber - w * 7 - 1;
      assert 0 <= i < 7 && dates[i].dayNumber == s.dayNumber;
    }
  }

  /** A day column shows only that day's sessions, and all of the week's sessions on that day. */
  lemma DayColumn(sessions: seq<Session>, w: nat, i: nat, s: Session)
    requires i < 7
    ensures var day := WeekDates(w)[i].dayNumber;
            s in SessionsForDay(WeekSessions(sessions, w), day) <==> s in sessions && s.dayNumber == day
  {
  }

  /** `handleMoveSession`: nothing for the same day, otherwise the session with only its day changed. */
  function MoveSession(session: Session, newDayNumber: int): (r: Option<Session>)
    ensures r.None? <==> session.dayNumber == newDayNumber
    ensures r.Some? ==> r.value.id == session.id && r.value.title == session.title && r.value.dayNumber == newDayNumber
  {
    if session.dayNumber == newDayNumber then None else Some(session.(dayNumber := newDayNumber))
  }

  /** The week-navigation state of the editor. */
  class WeekNavigator {
    var currentWeek: nat
    var totalDays: nat

    function TotalWeeksNow(): nat
      reads this
    {
      TotalWeeks(totalDays)
    }

    predicate InRange()
      reads this
    {
      currentWeek == 0 || currentWeek < TotalWeeksNow()
    }

    constructor (days: nat)
      ensures currentWeek == 0 && totalDays == days && InRange()
    {
      currentWeek, totalDays := 0, days;
    }

    /** `goToPreviousWeek`. */
    method GoToPreviousWeek()
      modifies this`currentWeek
      ensures currentWeek == if old(currentWeek) > 0 then old(currentWeek) - 1 else 0
      ensures old(InRange()) ==> InRange()
    {
      if currentWeek > 0 {
        currentWeek := currentWeek - 1;
      }
    }

    /** `goToNextWeek`: never past the last week. */
    method GoToNextWeek()
      modifies this`currentWeek
      ensures currentWeek == if old(currentWeek) < TotalWeeksNow() - 1 then old(currentWeek) + 1 else old(currentWeek)
      ensures old(InRange()) ==> InRange()
    {
      if currentWeek < TotalWeeksNow() - 1 {
        currentWeek := currentWeek + 1;
      }
    }

    /** A change of the block structure in the form; the displayed week is left as it was. */
    method SetStructure(macroBlockSize: nat, numberOfMacroBlocks: nat, microBlockSize: nat)
      modifies this`totalDays
      ensures totalDays == TotalProgramDays(macroBlockSize, numberOfMacroBlocks, microBlockSize)
    {
      totalDays := TotalProgramDays(macroBlockSize, numberOfMacroBlocks, microBlockSize);
    }
  }

  /** The last week holds the last program day. */
  lemma LastWeekHoldsLastDay(days: nat)
    requires days > 0
    ensures var w := TotalWeeks(days) - 1;
            w >= 0 && exists i :: 0 <= i < 7 && WeekDates(w)[i].dayNumber == days
  {
    var w := TotalWeeks(days) - 1;
    var i := days - w * 7 - 1;
    assert 0 <= i < 7 && WeekDates(w)[i].dayNumber == days;
  }
}
