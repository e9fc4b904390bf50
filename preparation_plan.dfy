/**
 * The meet-preparation planner: an editable list of preparation steps, each
 * timed some days and hours before the meet, the wording of that timing, and
 * the conversion of the plan into one reminder per step, posted one by one.
 * Times are milliseconds; the server's answers to the posts are a parameter.
 */
module PreparationPlan {
  import opened Common

  const HourMs := 3600000
  const DayMs := 86400000

  datatype Step = Step(id: string, title: string, description: string, category: string,
                       daysBeforeMeet: int, hoursBeforeMeet: int)

  datatype Reminder = Reminder(meetId: int, title: string, description: string, category: string,
                               date: int, isCompleted: bool)

  /** `DEFAULT_STEPS`. */
  function DefaultSteps(): seq<Step>
  {
    [Step("1", "Nutrition preparation", "Focus on complex carbs, lean protein, and hydration", "nutrition", 2, 0),
     Step("2", "Check equipment", "Prepare uniform, spikes, gear, and competition items", "equipment", 1, 0),
     Step("3", "Early sleep", "Get 8+ hours of restful sleep", "rest", 0, 12),
     Step("4", "Pre-competition meal", "Light, familiar meal 3-4 hours before competition", "nutrition", 0, 4),
     Step("5", "Dynamic warm-up", "Complete warmup routine including drills and strides", "warmup", 0, 1)]
  }

  /** The list after an edit: every step with the edited id replaced, every other step kept in place. */
  function Replaced(steps: seq<Step>, id: string, newStep: Step): (r: seq<Step>)
    ensures |r| == |steps|
    ensures forall i :: 0 <= i < |steps| ==> r[i] == if steps[i].id == id then newStep else steps[i]
  {
    seq(|steps|, i requires 0 <= i < |steps| => if steps[i].id == id then newStep else steps[i])
  }

  function WithoutId(steps: seq<Step>, id: string): seq<Step>
  {
    Filter(steps, (s: Step) => s.id != id)
  }

  /** `removeStep` keeps exactly the steps with another id, in their order. */
  lemma RemoveStepExactly(steps: seq<Step>, id: string)
    ensures forall s :: s in WithoutId(steps, id) <==> s in steps && s.id != id
    ensures |WithoutId(steps, id)| == |steps| <==> forall s :: s in steps ==> s.id != id
  {
    if forall s :: s in steps ==> s.id != id {
      FilterAll(steps, id);
    } else {
      var s :| s in steps && s.id == id;
      FilterDrops(steps, id, s);
    }
  }

  lemma {:induction false} FilterAll(steps: seq<Step>, id: string)
    requires forall s :: s in steps ==> s.id != id
    ensures WithoutId(steps, id) == steps
  {
    if steps != [] {
      assert forall s :: s in steps[1..] ==> s in steps;
      FilterAll(steps[1..], id);
    }
  }

  lemma {:induction false} FilterDrops(steps: seq<Step>, id: string, s: Step)
    requires s in steps && s.id == id
    ensures |WithoutId(steps, id)| < |steps|
  {
    if steps[0] != s {
      FilterDrops(steps[1..], id, s);
    }
  }

  /** `formatTiming`'s count and unit, plural only above one. */
  function Unit(n: nat, word: string): string
  {
    NatToString(n) + " " + word + (if n > 1 then "s" else "")
  }

  /** `formatTiming`. */
  function FormatTiming(days: int, hours: int): (r: string)
    ensures days > 0 && hours > 0 ==> r == Unit(days, "day") + " and " + Unit(hours, "hour") + " before"
    ensures days > 0 && hours <= 0 ==> r == Unit(days, "day") + " before"
    ensures days <= 0 && hours > 0 ==> r == Unit(hours, "hour") + " before"
  {
    if days > 0 && hours > 0 then Unit(days, "day") + " and " + Unit(hours, "hour") + " before"
    else if days > 0 then Unit(days, "day") + " before"
    else if hours > 0 then Unit(hours, "hour") + " before"
    else "At meet time"
  }

  /** The timing reads 'At meet time' exactly when neither days nor hours are positive. */
  lemma AtMeetTimeIff(days: int, hours: int)
    ensures FormatTiming(days, hours) == "At meet time" <==> days <= 0 && hours <= 0
  {
    var r := FormatTiming(days, hours);
    if days > 0 {
      assert r[0] == NatToString(days)[0];
    } else if hours > 0 {
      assert r[0] == NatToString(hours)[0];
    }
  }

  /** A count takes the plural 's' exactly when it is above one. */
  lemma PluralOnlyAboveOne(n: nat, word: string)
    requires word != [] && word[|word| - 1] != 's'
    ensures var u := Unit(n, word); u[|u| - 1] == 's' <==> n > 1
  {
  }

  /** The reminder date: the meet date less the step's days, then less its hours. */
  function ReminderDate(meetDate: int, days: int, hours: int): int
  {
    meetDate - days * DayMs - hours * HourMs
  }

  /** A step set further ahead of the meet is reminded earlier, and no step with non-negative timing is after the meet. */
  lemma EarlierStepsRemindEarlier(meetDate: int, d1: int, h1: int, d2: int, h2: int)
    requires d1 * 24 + h1 <= d2 * 24 + h2
    ensures ReminderDate(meetDate, d2, h2) <= ReminderDate(meetDate, d1, h1)
    ensures d1 >= 0 && h1 >= 0 ==> ReminderDate(meetDate, d1, h1) <= meetDate
  {
    assert d1 * DayMs + h1 * HourMs == (d1 * 24 + h1) * HourMs;
    assert d2 * DayMs + h2 * HourMs == (d2 * 24 + h2) * HourMs;
  }

  function ReminderOf(s: Step, meetId: int, meetDate: int): Reminder
  {
    Reminder(meetId, s.title, s.description, s.category, ReminderDate(meetDate, s.daysBeforeMeet, s.hoursBeforeMeet), false)
  }

  /** One reminder per step, in the plan's order. */
  function RemindersOf(steps: seq<Step>, meetId: int, meetDate: int): (r: seq<Reminder>)
    ensures |r| == |steps|
    ensures forall i :: 0 <= i < |steps| ==> r[i] == ReminderOf(steps[i], meetId, meetDate)
  {
    seq(|steps|, i requires 0 <= i < |steps| => ReminderOf(steps[i], meetId, meetDate))
  }

  /** The form may be saved only with a non-blank title and a category. */
  predicate CanSave(title: string, category: string)
  {
    Trim(title) != "" && category != ""
  }

  /** The plan after a save: the edited step replaced in place, or the new step appended. */
  function AfterSave(steps: seq<Step>, editing: Option<Step>, newStep: Step): (r: seq<Step>)
    ensures editing.Some? ==> |r| == |steps|
                              && forall i :: 0 <= i < |steps| ==> r[i] == if steps[i].id == editing.value.id then newStep else steps[i]
    ensures editing.None? ==> r == steps + [newStep]
  {
    if editing.Some? then Replaced(steps, editing.value.id, newStep) else steps + [newStep]
  }

  /** The id a saved step gets: the edited step's, or for a new step a fresh one. */
  function SavedId(editing: Option<Step>, freshId: string): string
  {
    if editing.Some? && editing.value.id != "" then editing.value.id else freshId
  }

  /**
   * The plan after `saveStep`: nothing without a non-blank title and a
   * category; otherwise the form's step, with trimmed texts, replaces the
   * edited step in place or is appended.
   */
  function SavedSteps(steps: seq<Step>, editing: Option<Step>, freshId: string, form: Form): (r: Option<seq<Step>>)
    ensures r.Some? <==> CanSave(form.title, form.category)
    ensures r.Some? ==>
              r.value == AfterSave(steps, editing, Step(SavedId(editing, freshId), Trim(form.title), Trim(form.description),
                                                        form.category, form.days, form.hours))
  {
    if !CanSave(form.title, form.category) then None
    else Some(AfterSave(steps, editing, Step(SavedId(editing, freshId), Trim(form.title), Trim(form.description),
                                             form.category, form.days, form.hours)))
  }

  /** The step form's five inputs. */
  datatype Form = Form(title: string, description: string, category: string, days: int, hours: int)

  const EmptyForm := Form("", "", "", 0, 0)

  /** The editor's state: the plan and the step form. */
  class Planner {
    var steps: seq<Step>
    var editingStep: Option<Step>
    var isAddingNew: bool
    var form: Form

    predicate FormCleared()
      reads this
    {
      form == EmptyForm && editingStep.None? && !isAddingNew
    }

    constructor ()
      ensures steps == DefaultSteps() && FormCleared()
    {
      steps := DefaultSteps();
      editingStep, isAddingNew, form := None, false, EmptyForm;
    }

    /** `resetForm`. */
    method ResetForm()
      modifies this`form, this`editingStep, this`isAddingNew
      ensures FormCleared()
    {
      editingStep, isAddingNew, form := None, false, EmptyForm;
    }

    /** `startEditing`: the form holds the step's values. */
    method StartEditing(step: Step)
      modifies this`form, this`editingStep, this`isAddingNew
      ensures editingStep == Some(step) && !isAddingNew
      ensures form == Form(step.title, step.description, step.category, step.daysBeforeMeet, step.hoursBeforeMeet)
    {
      editingStep := Some(step);
      form := Form(step.title, step.description, step.category, step.daysBeforeMeet, step.hoursBeforeMeet);
      isAddingNew := false;
    }

    /** `startAdding`. */
    method StartAdding()
      modifies this`form, this`editingStep, this`isAddingNew
      ensures form == EmptyForm && editingStep.None? && isAddingNew
    {
      ResetForm();
      isAddingNew := true;
    }

    /**
     * `saveStep`: refused, changing nothing, without a title or a category;
     * otherwise the edited step is replaced in place or the new one
     * appended, and the form is cleared.  `freshId` is the clock's reading
     * as text, the id of a new step.
     */
    method SaveStep(freshId: string) returns (saved: bool)
      modifies this`steps, this`form, this`editingStep, this`isAddingNew
      ensures var r := SavedSteps(old(steps), old(editingStep), freshId, old(form));
              (saved <==> r.Some?)
              && (!saved ==> steps == old(steps) && form == old(form) && editingStep == old(editingStep))
              && (saved ==> FormCleared() && steps == r.value)
    {
      var r := SavedSteps(steps, editingStep, freshId, form);
      if r.None? {
        return false;
      }
      ResetForm();
      steps := r.value;
      saved := true;
    }

    /** `removeStep`. */
    method RemoveStep(id: string)
      modifies this`steps
      ensures steps == WithoutId(old(steps), id)
    {
      steps := WithoutId(steps, id);
    }

    /**
     * `savePreparationPlan`: posts the plan's reminders in order and stops at
     * the first one the server refuses.  `accepts(i)` is the server's answer
     * to the i-th post.
     */
    method SavePreparationPlan(meetId: int, meetDate: int, accepts: nat -> bool)
      returns (posted: seq<Reminder>, ok: bool)
      ensures var all := RemindersOf(steps, meetId, meetDate);
              (ok <==> forall i :: 0 <= i < |all| ==> accepts(i))
              && (ok ==> posted == all)
              && (!ok ==> exists k :: 0 <= k < |all| && !accepts(k) && (forall i :: 0 <= i < k ==> accepts(i))
                                      && posted == all[..k + 1])
    {
      var reminders := RemindersOf(steps, meetId, meetDate);
      posted := [];
      var i := 0;
      while i < |reminders|
        invariant 0 <= i <= |reminders|
        invariant posted == reminders[..i]
        invariant forall j :: 0 <= j < i ==> accepts(j)
      {
        posted := posted + [reminders[i]];
        if !accepts(i) {
          return posted, false;
        }
        i := i + 1;
      }
      assert reminders[..i] == reminders;
      ok := true;
    }
  }
}
