/**
 * The create-reminder dialog: the offset before the meet in minutes, hours
 * or days, the reminder's date, the default offset taken from the meet's
 * warm-up time, and the suggested description for a category.  Times are
 * milliseconds; `Math.random()` is a parameter in [0, 1).
 */
module ReminderDialog {
  import opened Common

  datatype TimeUnit = Minutes | Hours | Days

  const MinuteMs := 60000
  const HourMs := 3600000
  const DayMs := 86400000

  /** What the form holds when it is submitted. */
  datatype ReminderForm = ReminderForm(userId: int, meetId: int, title: string, description: string,
                                       category: string, timeOffset: int, timeUnit: TimeUnit)

  /** The reminder posted to the server; it is never complete when created. */
  datatype ReminderData = ReminderData(userId: int, meetId: int, title: string, description: string,
                                       date: int, category: string, isCompleted: bool)

  /** The offset converted to milliseconds according to its unit. */
  function OffsetMs(offset: int, unit: TimeUnit): int
  {
    match unit
    case Minutes => offset * 60 * 1000
    case Hours => offset * 60 * 60 * 1000
    case Days => offset * 24 * 60 * 60 * 1000
  }

  function ReminderDate(meetDate: int, offset: int, unit: TimeUnit): int
  {
    meetDate - OffsetMs(offset, unit)
  }

  /** Each unit is as many milliseconds as its name says, and a day is 24 hours or 1440 minutes. */
  lemma UnitsAgree(meetDate: int, n: int)
    ensures OffsetMs(n, Minutes) == n * MinuteMs
    ensures OffsetMs(n, Hours) == n * HourMs
    ensures OffsetMs(n, Days) == n * DayMs
    ensures ReminderDate(meetDate, n, Days) == ReminderDate(meetDate, 24 * n, Hours)
                                            == ReminderDate(meetDate, 1440 * n, Minutes)
  {
  }

  /** A larger offset in the same unit gives an earlier reminder, and a non-negative one is never after the meet. */
  lemma LargerOffsetEarlier(meetDate: int, a: int, b: int, unit: TimeUnit)
    requires a <= b
    ensures ReminderDate(meetDate, b, unit) <= ReminderDate(meetDate, a, unit)
    ensures 0 <= a ==> ReminderDate(meetDate, a, unit) <= meetDate
  {
    match unit
    case Minutes =>
      assert a * 60 * 1000 <= b * 60 * 1000;
    case Hours =>
      assert a * 60 * 60 * 1000 <= b * 60 * 60 * 1000;
    case Days =>
      assert a * 24 * 60 * 60 * 1000 <= b * 24 * 60 * 60 * 1000;
  }

  /** `meet.warmupTime || 60`: the warm-up time unless it is missing or zero. */
  function DefaultOffset(warmupTime: Option<int>): (r: int)
    ensures r != 0
    ensures warmupTime.Some? && warmupTime.value != 0 ==> r == warmupTime.value
    ensures warmupTime.None? || warmupTime.value == 0 ==> r == 60
  {
    if warmupTime.Some? && warmupTime.value != 0 then warmupTime.value else 60
  }

  /**
   * The submitted reminder: none while the title or the category is empty,
   * otherwise the form's fields with the date the offset before the meet.
   */
  function CreateReminder(form: ReminderForm, meetDate: int): (r: Option<ReminderData>)
    ensures r.Some? <==> form.title != "" && form.category != ""
    ensures r.Some? ==> r.value.date == ReminderDate(meetDate, form.timeOffset, form.timeUnit) && !r.value.isCompleted
    ensures r.Some? ==> r.value.title == form.title && r.value.category == form.category
                        && r.value.meetId == form.meetId && r.value.userId == form.userId
  {
    if form.title == "" || form.category == "" then None
    else Some(ReminderData(form.userId, form.meetId, form.title, form.description,
                           ReminderDate(meetDate, form.timeOffset, form.timeUnit), form.category, false))
  }

  /** `NUTRITION_TIPS` and `WARMUP_TIPS`, eight each, by index. */
  const TipCount := 8

  function NutritionTipText(i: nat): string
    requires i < TipCount
  {
    if i == 0 then "Hydrate well during the 48 hours before competition."
    else if i == 1 then "Consume carbs 3-4 hours before the event for steady energy."
    else if i == 2 then "Avoid heavy, fatty meals the day before competition."
    else if i == 3 then "Focus on easily digestible foods morning of the meet."
    else if i == 4 then "Have a light, high-carb snack 1-2 hours before your event."
    else if i == 5 then "Replenish electrolytes if competing in hot weather."
    else if i == 6 then "Avoid trying new foods on competition day."
    else "Pack energy bars and sports drinks for quick fuel between events."
  }

  function WarmupTipText(i: nat): string
    requires i < TipCount
  {
    if i == 0 then "Start with 10 minutes of light jogging to raise your heart rate."
    else if i == 1 then "Include dynamic stretches focusing on the muscles you'll use in competition."
    else if i == 2 then "Perform 4-6 strides at 80-90% of race pace."
    else if i == 3 then "Gradually increase intensity as you approach competition time."
    else if i == 4 then "Complete your final warmup 15-20 minutes before your event."
    else if i == 5 then "Include event-specific drills in your warmup routine."
    else if i == 6 then "Keep moving with light activity if there's a delay before your event."
    else "Visualize your race strategy during warmup."
  }

  /** `Math.floor(random * n)`: an index into a list of `n` tips. */
  function TipIndex(random: real, n: nat): (i: nat)
    requires n > 0 && 0.0 <= random < 1.0
    ensures i < n
  {
    var k := Floor(random * n as real);
    assert 0 <= k < n by {
      assert 0.0 <= random * n as real < n as real;
    }
    k
  }

  /** The categories of the select; any other text falls to `default`. */
  datatype Category = Nutrition | Warmup | Hydration | Rest | Meal | Exercise | Other

  function CategoryOf(s: string): (c: Category)
    ensures c == Nutrition <==> s == "nutrition"
    ensures c == Warmup <==> s == "warmup"
    ensures c == Other <==> s !in {"nutrition", "warmup", "hydration", "rest", "meal", "exercise"}
  {
    if s == "nutrition" then Nutrition else if s == "warmup" then Warmup else if s == "hydration" then Hydration
    else if s == "rest" then Rest else if s == "meal" then Meal else if s == "exercise" then Exercise else Other
  }

  /** The one fixed suggestion of each of the other four categories. */
  function FixedSuggestion(c: Category): string
  {
    match c
    case Hydration => "Drink 16-20oz of water 2-3 hours before your event, and another 7-10oz 15-20 minutes before start."
    case Rest => "Aim for 8-9 hours of sleep the night before competition."
    case Meal => "Pre-competition meal: lean protein, complex carbs, and a small amount of healthy fats."
    case Exercise => "Complete a tapering workout 2 days before the meet to allow for recovery."
    case _ => ""
  }

  /** Which suggestion a category gets. */
  datatype Suggestion = NutritionTip(index: nat) | WarmupTip(index: nat) | FixedText(category: Category) | NoSuggestion

  /** The choice made by `getSuggestionForCategory`: a random tip for nutrition and warm-up, a fixed text for the other four, else none. */
  function SuggestionOf(category: string, random: real): (s: Suggestion)
    requires 0.0 <= random < 1.0
    ensures s.NutritionTip? <==> category == "nutrition"
    ensures s.WarmupTip? <==> category == "warmup"
    ensures s.NoSuggestion? <==> CategoryOf(category) == Other
    ensures s.FixedText? ==> s.category == CategoryOf(category) && s.category in {Hydration, Rest, Meal, Exercise}
    ensures s.NutritionTip? ==> s.index < TipCount
    ensures s.WarmupTip? ==> s.index < TipCount
  {
    var c := CategoryOf(category);
    if c == Nutrition then NutritionTip(TipIndex(random, TipCount))
    else if c == Warmup then WarmupTip(TipIndex(random, TipCount))
    else if c == Other then NoSuggestion
    else FixedText(c)
  }

  /** The text of a suggestion. */
  function SuggestionText(s: Suggestion): string
    requires s.NutritionTip? ==> s.index < TipCount
    requires s.WarmupTip? ==> s.index < TipCount
  {
    match s
    case NutritionTip(i) => NutritionTipText(i)
    case WarmupTip(i) => WarmupTipText(i)
    case FixedText(c) => FixedSuggestion(c)
    case NoSuggestion => ""
  }

  /** `getSuggestionForCategory`. */
  function SuggestionFor(category: string, random: real): (r: string)
    requires 0.0 <= random < 1.0
    ensures CategoryOf(category) == Other ==> r == ""
  {
    SuggestionText(SuggestionOf(category, random))
  }

  /** Outside nutrition and warm-up the choice does not depend on the random draw. */
  lemma FixedChoiceIgnoresRandom(category: string, r1: real, r2: real)
    requires 0.0 <= r1 < 1.0 && 0.0 <= r2 < 1.0
    requires category != "nutrition" && category != "warmup"
    ensures SuggestionOf(category, r1) == SuggestionOf(category, r2)
  {
  }
}
