/**
 * The automated notification pass: which template a user is due, by
 * frequency, registration age, premium status and time of day; the
 * insertion of notifications; and the admin broadcast.  Times are
 * milliseconds, the current time and hour are parameters, and the
 * notifications table is a sequence field.
 */
module Notifications {
  import opened Common

  const DayMs := 1000 * 60 * 60 * 24

  datatype Category = AthleteWellness | FeatureDiscovery | WeeklyReport | Social | AdminBroadcast

  datatype Frequency = Daily | Weekly | BiWeekly | Monthly | OneTime | Conditional

  datatype TimeOfDay = Morning | Afternoon | Evening

  /** Template conditions; a zero day count is an absent (falsy) one. */
  datatype Conditions = Conditions(
    minDaysSinceLastWorkout: int,
    minDaysSinceRegistration: int,
    requiresCoach: bool,
    requiresPremium: bool,
    timeOfDay: Option<TimeOfDay>)

  datatype Template = Template(
    kind: string, category: Category, title: string, message: string,
    actionUrl: Option<string>, frequency: Frequency, conditions: Option<Conditions>)

  datatype User = User(id: nat, createdAt: Option<int>, isPremium: bool, role: string)

  datatype Notification = Notification(
    userId: nat, kind: string, title: string, message: string,
    actionUrl: Option<string>, isRead: bool, createdAt: int)

  /** `getDaysSince`: whole days (rounded up) between `date` and now, in either direction; 0 without a date. */
  function DaysSince(date: Option<int>, now: int): (r: nat)
    ensures date.None? ==> r == 0
    ensures date.Some? ==> r * DayMs >= Abs(now - date.value) && (r - 1) * DayMs < Abs(now - date.value)
  {
    if date.None? then 0 else CeilDiv(Abs(now - date.value), DayMs)
  }

  /** The same instant is zero days away, and the count is symmetric. */
  lemma DaysSinceProperties(d: int, now: int)
    ensures DaysSince(Some(now), now) == 0
    ensures DaysSince(Some(d), now) == DaysSince(Some(now), d)
    ensures now - DayMs < d < now + DayMs && d != now ==> DaysSince(Some(d), now) == 1
  {
    var a := Abs(now - d);
    assert Abs(d - now) == a;
    var r := DaysSince(Some(d), now);
    if now - DayMs < d < now + DayMs && d != now {
      assert 0 < a < DayMs;
    }
  }

  /** `getTimeOfDay`: [6, 12) is morning, [12, 18) afternoon, every other hour evening. */
  function TimeOfDayAt(hour: int): (t: TimeOfDay)
    ensures t == Morning <==> 6 <= hour < 12
    ensures t == Afternoon <==> 12 <= hour < 18
    ensures t == Evening <==> hour < 6 || hour >= 18
  {
    if hour >= 6 && hour < 12 then Morning
    else if hour >= 12 && hour < 18 then Afternoon
    else Evening
  }

  /** Days that must pass before a template of this frequency is sent again. */
  function MinGapDays(f: Frequency): Option<nat>
  {
    match f
    case Daily => Some(1)
    case Weekly => Some(7)
    case BiWeekly => Some(14)
    case Monthly => Some(30)
    case OneTime => None
    case Conditional => Some(0)
  }

  /** `isTimeForNextNotification`. */
  function IsTimeForNext(lastSent: Option<int>, f: Frequency, now: int): (r: bool)
    ensures lastSent.None? ==> r
    ensures lastSent.Some? && f == OneTime ==> !r
    ensures lastSent.Some? && f == Conditional ==> r
    ensures lastSent.Some? && MinGapDays(f).Some? ==> (r <==> DaysSince(lastSent, now) >= MinGapDays(f).value)
  {
    if lastSent.None? then true
    else
      var days := DaysSince(lastSent, now);
      match f
      case Daily => days >= 1
      case Weekly => days >= 7
      case BiWeekly => days >= 14
      case Monthly => days >= 30
      case OneTime => false
      case Conditional => true
  }

  /** A less frequent schedule is due no earlier than a more frequent one. */
  lemma FrequenciesNest(lastSent: Option<int>, now: int)
    ensures IsTimeForNext(lastSent, Monthly, now) ==> IsTimeForNext(lastSent, BiWeekly, now)
    ensures IsTimeForNext(lastSent, BiWeekly, now) ==> IsTimeForNext(lastSent, Weekly, now)
    ensures IsTimeForNext(lastSent, Weekly, now) ==> IsTimeForNext(lastSent, Daily, now)
  {
  }

  /** `getLastWorkoutDate` has no data source yet and always answers null. */
  function LastWorkoutDate(user: nat): Option<int>
  {
    None
  }

  /** `checkConditions`. */
  function CheckConditions(user: User, c: Conditions, now: int): (r: bool)
    ensures c.minDaysSinceRegistration != 0 && DaysSince(user.createdAt, now) < c.minDaysSinceRegistration ==> !r
    ensures c.requiresPremium && !user.isPremium ==> !r
    ensures r <==> (c.minDaysSinceRegistration == 0 || DaysSince(user.createdAt, now) >= c.minDaysSinceRegistration)
                   && (!c.requiresPremium || user.isPremium)
  {
    if c.minDaysSinceRegistration != 0 && DaysSince(user.createdAt, now) < c.minDaysSinceRegistration then false
    else if c.minDaysSinceLastWorkout != 0 && LastWorkoutDate(user.id).Some?
            && DaysSince(LastWorkoutDate(user.id), now) < c.minDaysSinceLastWorkout then false
    else if c.requiresPremium && !user.isPremium then false
    else true
  }

  /** `shouldSendNotification`, given the creation time of the user's latest notification of this kind. */
  function ShouldSend(user: User, t: Template, latest: Option<int>, now: int, hour: int): (r: bool)
    ensures latest.Some? && !IsTimeForNext(latest, t.frequency, now) ==> !r
    ensures t.conditions.Some? && t.conditions.value.timeOfDay.Some? && t.conditions.value.timeOfDay.value != TimeOfDayAt(hour) ==> !r
    ensures r <==> (latest.None? || IsTimeForNext(latest, t.frequency, now))
                   && (t.conditions.None? || (CheckConditions(user, t.conditions.value, now)
                        && (t.conditions.value.timeOfDay.None? || t.conditions.value.timeOfDay.value == TimeOfDayAt(hour))))
  {
    if latest.Some? && !IsTimeForNext(latest, t.frequency, now) then false
    else if t.conditions.Some? && !CheckConditions(user, t.conditions.value, now) then false
    else if t.conditions.Some? && t.conditions.value.timeOfDay.Some? && TimeOfDayAt(hour) != t.conditions.value.timeOfDay.value then false
    else true
  }

  /** A one-time template is sent at most once. */
  lemma OneTimeSentOnce(user: User, t: Template, latest: int, now: int, hour: int)
    requires t.frequency == OneTime
    ensures !ShouldSend(user, t, Some(latest), now, hour)
  {
  }

  /** Social and broadcast templates are left to their own senders. */
  predicate Automated(t: Template)
  {
    t.category != Social && t.category != AdminBroadcast
  }

  /** The row `sendNotification` inserts: a custom message wins when non-empty; it is always unread. */
  function NewNotification(user: nat, t: Template, customMessage: string, now: int): (n: Notification)
    ensures n.userId == user && n.kind == t.kind && n.title == t.title && !n.isRead && n.createdAt == now
    ensures n.message == (if customMessage != "" then customMessage else t.message)
  {
    Notification(user, t.kind, t.title, if customMessage != "" then customMessage else t.message, t.actionUrl, false, now)
  }

  /** The latest creation time among `ns` of this user and kind. */
  function LatestSent(ns: seq<Notification>, user: nat, kind: string): (r: Option<int>)
    ensures r.None? <==> forall n :: n in ns ==> n.userId != user || n.kind != kind
    ensures r.Some? ==> exists n :: n in ns && n.userId == user && n.kind == kind && n.createdAt == r.value
    ensures r.Some? ==> forall n :: n in ns && n.userId == user && n.kind == kind ==> n.createdAt <= r.value
  {
    if ns == [] then None
    else
      var rest := LatestSent(ns[1..], user, kind);
      var n := ns[0];
      if n.userId == user && n.kind == kind then
        if rest.Some? && rest.value > n.createdAt then rest else Some(n.createdAt)
      else rest
  }

  lemma {:induction false} LatestSentAppendOther(ns: seq<Notification>, extra: seq<Notification>, user: nat, kind: string)
    requires forall n :: n in extra ==> n.userId != user || n.kind != kind
    ensures LatestSent(ns + extra, user, kind) == LatestSent(ns, user, kind)
    decreases |ns|
  {
    if ns == [] {
      assert ns + extra == extra;
    } else {
      assert (ns + extra)[1..] == ns[1..] + extra;
      LatestSentAppendOther(ns[1..], extra, user, kind);
    }
  }

  /** What one user's pass inserts, template by template, judged against the table before the pass. */
  function Outbox(ts: seq<Template>, ns: seq<Notification>, user: User, now: int, hour: int): (r: seq<Notification>)
    ensures |r| <= |ts|
  {
    if ts == [] then []
    else
      var t := ts[0];
      (if Automated(t) && ShouldSend(user, t, LatestSent(ns, user.id, t.kind), now, hour)
       then [NewNotification(user.id, t, "", now)] else [])
      + Outbox(ts[1..], ns, user, now, hour)
  }

  lemma {:induction false} OutboxAppend(ts: seq<Template>, t: Template, ns: seq<Notification>, user: User, now: int, hour: int)
    ensures Outbox(ts + [t], ns, user, now, hour) == Outbox(ts, ns, user, now, hour) + Outbox([t], ns, user, now, hour)
    decreases |ts|
  {
    if ts == [] {
      assert ts + [t] == [t];
    } else {
      assert (ts + [t])[1..] == ts[1..] + [t];
      OutboxAppend(ts[1..], t, ns, user, now, hour);
    }
  }

  /**
   * Exactly the automated templates the user is due receive a notification:
   * each inserted row comes from such a template, and each such template
   * yields its row.
   */
  lemma {:induction false} OutboxExact(ts: seq<Template>, ns: seq<Notification>, user: User, now: int, hour: int)
    ensures forall n :: n in Outbox(ts, ns, user, now, hour) ==>
              exists t :: t in ts && Automated(t) && ShouldSend(user, t, LatestSent(ns, user.id, t.kind), now, hour)
                          && n == NewNotification(user.id, t, "", now)
    ensures forall t :: t in ts && Automated(t) && ShouldSend(user, t, LatestSent(ns, user.id, t.kind), now, hour) ==>
              NewNotification(user.id, t, "", now) in Outbox(ts, ns, user, now, hour)
    decreases |ts|
  {
    if ts != [] {
      OutboxExact(ts[1..], ns, user, now, hour);
      forall t | t in ts && Automated(t) && ShouldSend(user, t, LatestSent(ns, user.id, t.kind), now, hour)
        ensures NewNotification(user.id, t, "", now) in Outbox(ts, ns, user, now, hour)
      {
        if t != ts[0] {
          assert t in ts[1..];
        }
      }
    }
  }

  /** No social or broadcast template is ever sent by the automated pass. */
  lemma NoSocialSent(ts: seq<Template>, ns: seq<Notification>, user: User, now: int, hour: int, n: Notification)
    requires n in Outbox(ts, ns, user, now, hour)
    ensures exists t :: t in ts && n.kind == t.kind && t.category != Social && t.category != AdminBroadcast
  {
    OutboxExact(ts, ns, user, now, hour);
  }

  /** Template kinds are distinct, so one template's row never affects another's decision. */
  predicate KindsDistinct(ts: seq<Template>)
  {
    forall i, j :: 0 <= i < j < |ts| ==> ts[i].kind != ts[j].kind
  }

  predicate IdsDistinct(users: seq<User>)
  {
    forall i, j :: 0 <= i < j < |users| ==> users[i].id != users[j].id
  }

  /** The outboxes of `users` in order, all judged against the table before the pass. */
  function AllOutboxes(ts: seq<Template>, ns: seq<Notification>, users: seq<User>, now: int, hour: int): (r: seq<Notification>)
    ensures |r| <= |ts| * |users|
  {
    if users == [] then []
    else Outbox(ts, ns, users[0], now, hour) + AllOutboxes(ts, ns, users[1..], now, hour)
  }

  /** Every row of the pass belongs to one of the users passed over. */
  lemma {:induction false} AllOutboxesUsers(ts: seq<Template>, ns: seq<Notification>, users: seq<User>, now: int, hour: int)
    ensures forall n :: n in AllOutboxes(ts, ns, users, now, hour) ==> exists u :: u in users && n.userId == u.id
    decreases |users|
  {
    if users != [] {
      AllOutboxesUsers(ts, ns, users[1..], now, hour);
      OutboxExact(ts, ns, users[0], now, hour);
      forall n | n in AllOutboxes(ts, ns, users, now, hour) ensures exists u :: u in users && n.userId == u.id {
        if n in AllOutboxes(ts, ns, users[1..], now, hour) {
          var u :| u in users[1..] && n.userId == u.id;
          assert u in users;
        } else {
          assert n.userId == users[0].id;
        }
      }
    }
  }

  lemma {:induction false} AllOutboxesAppend(ts: seq<Template>, ns: seq<Notification>, users: seq<User>, u: User, now: int, hour: int)
    ensures AllOutboxes(ts, ns, users + [u], now, hour) == AllOutboxes(ts, ns, users, now, hour) + Outbox(ts, ns, u, now, hour)
    decreases |users|
  {
    if users == [] {
      assert users + [u] == [u];
    } else {
      assert (users + [u])[1..] == users[1..] + [u];
      AllOutboxesAppend(ts, ns, users[1..], u, now, hour);
    }
  }

  /** With distinct kinds, the rows of the templates before `i` are of other kinds than template `i`. */
  lemma OutboxKinds(ts: seq<Template>, ns: seq<Notification>, user: User, now: int, hour: int, i: int)
    requires KindsDistinct(ts) && 0 <= i < |ts|
    ensures forall n :: n in Outbox(ts[..i], ns, user, now, hour) ==> n.kind != ts[i].kind
  {
    OutboxExact(ts[..i], ns, user, now, hour);
    forall n | n in Outbox(ts[..i], ns, user, now, hour) ensures n.kind != ts[i].kind {
      var t :| t in ts[..i] && n.kind == t.kind;
      var k :| 0 <= k < i && ts[..i][k] == t;
      assert ts[k] == t;
    }
  }

  class Notifier {
    const templates: seq<Template>
    var notifications: seq<Notification>

    constructor (ts: seq<Template>)
      ensures templates == ts && notifications == []
    {
      templates := ts;
      notifications := [];
    }

    /** `sendNotification`: inserts one row. */
    method SendNotification(user: nat, t: Template, customMessage: string, now: int)
      modifies this`notifications
      ensures notifications == old(notifications) + [NewNotification(user, t, customMessage, now)]
    {
      notifications := notifications + [NewNotification(user, t, customMessage, now)];
    }

    /** `processUserNotifications`: the template loop for one user. */
    method ProcessUserNotifications(user: User, now: int, hour: int)
      requires KindsDistinct(templates)
      modifies this`notifications
      ensures notifications == old(notifications) + Outbox(templates, old(notifications), user, now, hour)
    {
      var before := notifications;
      var i := 0;
      while i < |templates|
        invariant 0 <= i <= |templates|
        invariant notifications == before + Outbox(templates[..i], before, user, now, hour)
      {
        var t := templates[i];
        PrefixStep(templates, i);
        OutboxAppend(templates[..i], t, before, user, now, hour);
        OutboxKinds(templates, before, user, now, hour, i);
        LatestSentAppendOther(before, Outbox(templates[..i], before, user, now, hour), user.id, t.kind);
        if Automated(t) {
          var send := ShouldSend(user, t, LatestSent(notifications, user.id, t.kind), now, hour);
          if send {
            SendNotification(user.id, t, "", now);
          }
        }
        i := i + 1;
      }
      WholePrefix(templates);
    }

    /** `processAutomatedNotifications`: every user in turn. */
    method ProcessAutomatedNotifications(users: seq<User>, now: int, hour: int)
      requires KindsDistinct(templates) && IdsDistinct(users)
      modifies this`notifications
      ensures notifications == old(notifications) + AllOutboxes(templates, old(notifications), users, now, hour)
    {
      var before := notifications;
      var k := 0;
      while k < |users|
        invariant 0 <= k <= |users|
        invariant notifications == before + AllOutboxes(templates, before, users[..k], now, hour)
      {
        var u := users[k];
        PrefixStep(users, k);
        AllOutboxesAppend(templates, before, users[..k], u, now, hour);
        OtherUsersDoNotCount(templates, before, users, k, now, hour);
        ghost var extra := AllOutboxes(templates, before, users[..k], now, hour);
        assert notifications == before + extra;
        ProcessUserNotificationsFrom(u, now, hour, before);
        k := k + 1;
      }
      WholePrefix(users);
    }

    /** One user's pass on a table that differs from `base` only by rows of other users. */
    method ProcessUserNotificationsFrom(user: User, now: int, hour: int, ghost base: seq<Notification>)
      requires KindsDistinct(templates)
      requires exists extra :: notifications == base + extra && forall n :: n in extra ==> n.userId != user.id
      modifies this`notifications
      ensures notifications == old(notifications) + Outbox(templates, base, user, now, hour)
    {
      ghost var extra :| notifications == base + extra && forall n :: n in extra ==> n.userId != user.id;
      forall t | t in templates ensures LatestSent(notifications, user.id, t.kind) == LatestSent(base, user.id, t.kind) {
        LatestSentAppendOther(base, extra, user.id, t.kind);
      }
      OutboxSameLatest(templates, notifications, base, user, now, hour);
      ProcessUserNotifications(user, now, hour);
    }
  }

  /** The rows of the users already processed belong to other users than the next one. */
  lemma OtherUsersDoNotCount(ts: seq<Template>, before: seq<Notification>, users: seq<User>, k: int, now: int, hour: int)
    requires IdsDistinct(users) && 0 <= k < |users|
    ensures forall n :: n in AllOutboxes(ts, before, users[..k], now, hour) ==> n.userId != users[k].id
  {
    AllOutboxesUsers(ts, before, users[..k], now, hour);
    forall n | n in AllOutboxes(ts, before, users[..k], now, hour) ensures n.userId != users[k].id {
      var u :| u in users[..k] && n.userId == u.id;
      var i :| 0 <= i < k && users[..k][i] == u;
      assert users[i] == u;
    }
  }

  lemma {:induction false} OutboxSameLatest(ts: seq<Template>, ns: seq<Notification>, base: seq<Notification>, user: User, now: int, hour: int)
    requires forall t :: t in ts ==> LatestSent(ns, user.id, t.kind) == LatestSent(base, user.id, t.kind)
    ensures Outbox(ts, ns, user, now, hour) == Outbox(ts, base, user, now, hour)
    decreases |ts|
  {
    if ts != [] {
      OutboxSameLatest(ts[1..], ns, base, user, now, hour);
    }
  }

  // ------------------------------------------------------------ broadcast

  /** The recipients the broadcast means: the given ids when there are any, else every user. */
  function BroadcastRecipients(targets: seq<nat>, allUsers: seq<nat>): (r: seq<nat>)
    ensures targets != [] ==> r == targets
    ensures targets == [] ==> r == allUsers
  {
    if |targets| > 0 then targets else allUsers
  }

  function BroadcastRows(ids: seq<nat>, title: string, message: string, now: int): (r: seq<Notification>)
    ensures |r| == |ids|
    ensures forall i :: 0 <= i < |ids| ==> r[i] == Notification(ids[i], "admin_broadcast", title, message, None, false, now)
  {
    seq(|ids|, i requires 0 <= i < |ids| => Notification(ids[i], "admin_broadcast", title, message, None, false, now))
  }

  datatype BroadcastError = ReferenceError

  /**
   * `sendAdminBroadcast` as written: the insert names `notificationData`,
   * which is not defined, so the call fails before anything is inserted.
   */
  function SendAdminBroadcastAsWritten(ns: seq<Notification>, targets: seq<nat>, allUsers: seq<nat>, title: string, message: string, now: int): (r: Result<seq<Notification>, BroadcastError>)
    ensures r == Err(ReferenceError)
  {
    Err(ReferenceError)
  }

  /** The broadcast as intended: one unread row per recipient. */
  function SendAdminBroadcast(ns: seq<Notification>, targets: seq<nat>, allUsers: seq<nat>, title: string, message: string, now: int): (r: Result<seq<Notification>, BroadcastError>)
    ensures r.Ok? && r.value == ns + BroadcastRows(BroadcastRecipients(targets, allUsers), title, message, now)
  {
    Ok(ns + BroadcastRows(BroadcastRecipients(targets, allUsers), title, message, now))
  }

  /** As written, no recipient ever receives a broadcast; as intended each recipient receives exactly one. */
  lemma BroadcastDiscrepancy(ns: seq<Notification>, targets: seq<nat>, allUsers: seq<nat>, title: string, message: string, now: int)
    requires BroadcastRecipients(targets, allUsers) != []
    ensures SendAdminBroadcastAsWritten(ns, targets, allUsers, title, message, now).Err?
    ensures var r := SendAdminBroadcast(ns, targets, allUsers, title, message, now).value;
              |r| == |ns| + |BroadcastRecipients(targets, allUsers)|
              && r[|ns|].userId == BroadcastRecipients(targets, allUsers)[0] && !r[|ns|].isRead
  {
  }
}
