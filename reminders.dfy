// Deadline reminders (backend/services/reminders.py): the user's reminder
// days parsed from a comma-separated setting, the days left until a
// deadline, the applications a reminder run reports, and the dry-run guard
// of the e-mail sender. Today's date is a parameter; the database query is
// the sequence of the user's applications in the order it returns them, and
// the SMTP exchange is its outcome.
module Reminders {
  import opened Wrappers
  import opened Text
  import opened Dates

  // ---------------------------------------------------------------------
  // Reminder days
  // ---------------------------------------------------------------------

  const DefaultReminderDays: set<int> := {30, 14, 7, 1}

  /** `max(0, int(value))` for one stripped piece, or nothing when it is blank or not an integer. */
  function PieceDay(piece: string): (day: Option<int>)
    ensures day.Some? ==> day.value >= 0
    ensures day.Some? <==> ParseInt(Trim(piece)).Some?
  {
    var value := Trim(piece);
    if value == "" then None
    else match ParseInt(value)
      case None => None
      case Some(n) => Some(if n < 0 then 0 else n)
  }

  /** The days the pieces of the setting name. */
  function ParsedDays(pieces: seq<string>): set<int>
  {
    Collected(pieces, PieceDay)
  }

  /** The values `f` gives to the elements of `s`, where it gives one. */
  function Collected<T>(s: seq<T>, f: T -> Option<int>): set<int>
    decreases |s|
  {
    if s == [] then {}
    else
      var y := f(s[|s| - 1]);
      Collected(s[..|s| - 1], f) + (if y.Some? then {y.value} else {})
  }

  /**
   * `parse_reminder_days`: the default days for a missing or empty setting
   * and for one with no usable piece, otherwise the days its pieces name.
   */
  function ReminderDays(setting: Option<string>): (days: set<int>)
    ensures days != {}
    ensures forall d :: d in days ==> d >= 0
  {
    if setting.None? || setting.value == "" then DefaultReminderDays
    else
      var parsed := ParsedDays(Split(setting.value, ','));
      ParsedDaysMembers(Split(setting.value, ','));
      if parsed == {} then DefaultReminderDays else parsed
  }

  /**
   * `parse_reminder_days` as the loop over the pieces it is: blank and
   * non-integer pieces are skipped, negative ones count as 0.
   */
  method ParseReminderDays(setting: Option<string>) returns (days: set<int>)
    ensures days == ReminderDays(setting)
  {
    if setting.None? || setting.value == "" {
      return DefaultReminderDays;
    }
    var pieces := Split(setting.value, ',');
    var parsed: set<int> := {};
    var i := 0;
    while i < |pieces|
      invariant 0 <= i <= |pieces|
      invariant parsed == ParsedDays(pieces[..i])
    {
      var value := Trim(pieces[i]);
      ParsedDaysSnoc(pieces, i);
      if value != "" {
        match ParseInt(value) {
          case None =>
          case Some(n) =>
            parsed := parsed + {if n < 0 then 0 else n};
        }
      }
      i := i + 1;
    }
    assert pieces[..i] == pieces;
    days := if parsed == {} then DefaultReminderDays else parsed;
  }

  /** The days of one more piece: those of the pieces before it, and its own. */
  lemma ParsedDaysSnoc(pieces: seq<string>, i: nat)
    requires i < |pieces|
    ensures ParsedDays(pieces[..i + 1]) == ParsedDays(pieces[..i]) + (if PieceDay(pieces[i]).Some? then {PieceDay(pieces[i]).value} else {})
  {
    assert pieces[..i + 1][..i] == pieces[..i];
  }

  /**
   * Each integer piece of the setting contributes its value, negatives as
   * 0, and nothing else is added; so every parsed day is 0 or more.
   */
  lemma ParsedDaysMembers(pieces: seq<string>)
    ensures forall d :: d in ParsedDays(pieces) <==> exists i :: 0 <= i < |pieces| && PieceDay(pieces[i]) == Some(d)
    ensures forall d :: d in ParsedDays(pieces) ==> d >= 0
  {
    forall d
      ensures d in ParsedDays(pieces) <==> exists i :: 0 <= i < |pieces| && PieceDay(pieces[i]) == Some(d)
    {
      CollectedMember(pieces, PieceDay, d);
    }
  }

  /** One value at a time: a value is collected exactly when `f` gives it to some element. */
  lemma {:induction false} CollectedMember<T>(s: seq<T>, f: T -> Option<int>, d: int)
    ensures d in Collected(s, f) <==> exists i :: 0 <= i < |s| && f(s[i]) == Some(d)
    decreases |s|
  {
    if s != [] {
      var init := s[..|s| - 1];
      var last := |s| - 1;
      CollectedMember(init, f, d);
      if d in Collected(init, f) {
        var i :| 0 <= i < |init| && f(init[i]) == Some(d);
        assert s[i] == init[i];
      } else if d in Collected(s, f) {
        assert f(s[last]) == Some(d);
      } else {
        forall i | 0 <= i < last
          ensures f(s[i]) != Some(d)
        {
          assert init[i] == s[i];
        }
      }
    }
  }

  // ---------------------------------------------------------------------
  // Matches
  // ---------------------------------------------------------------------

  /** `days_until`: no count without a deadline, otherwise the whole days from today (negative once passed). */
  function DaysUntil(deadline: Option<CalendarDate>, today: CalendarDate): (days: Option<int>)
    ensures days.None? <==> deadline.None?
    ensures days.Some? ==> (days.value < 0 <==> DayNumber(deadline.value) < DayNumber(today))
    ensures days.Some? ==> DayNumber(today) + days.value == DayNumber(deadline.value)
  {
    if deadline.None? then None else Some(DayNumber(deadline.value) - DayNumber(today))
  }

  /** One tracked application, as the query returns it. */
  datatype TrackedApplication = TrackedApplication(id: int, schoolName: string, programName: string, deadline: Option<CalendarDate>)

  /** Why an application is reported. */
  datatype Reason = DeadlinePassed | DueIn(days: int)

  function ReasonText(r: Reason): string
  {
    match r
    case DeadlinePassed => "Deadline passed"
    case DueIn(days) => "Due in " + IntToString(days) + " day(s)"
  }

  /** `ReminderPreviewItem`. */
  datatype ReminderItem = ReminderItem(
    applicationId: int, schoolName: string, programName: string, deadline: CalendarDate, daysLeft: int, reason: Reason)

  /** Whether an application with `remaining` days left is reported. */
  predicate Due(remaining: int, days: set<int>)
  {
    remaining in days || remaining < 0
  }

  /** The item reported for one application, or nothing. */
  function MatchOf(app: TrackedApplication, days: set<int>, today: CalendarDate): Option<ReminderItem>
  {
    match DaysUntil(app.deadline, today)
    case None => None
    case Some(remaining) =>
      if Due(remaining, days) then
        Some(ReminderItem(app.id, app.schoolName, app.programName, app.deadline.value, remaining,
                          if remaining < 0 then DeadlinePassed else DueIn(remaining)))
      else None
  }

  /** The reported items, in query order. */
  function Matches(apps: seq<TrackedApplication>, days: set<int>, today: CalendarDate): seq<ReminderItem>
    decreases |apps|
  {
    if apps == [] then []
    else
      var earlier := Matches(apps[..|apps| - 1], days, today);
      match MatchOf(apps[|apps| - 1], days, today)
      case None => earlier
      case Some(item) => earlier + [item]
  }

  /**
   * `get_reminder_matches` over the user's applications in query order:
   * the loop that skips applications without a deadline and appends those
   * due on a reminder day or already past.
   */
  method GetReminderMatches(reminderSetting: Option<string>, apps: seq<TrackedApplication>, today: CalendarDate)
    returns (items: seq<ReminderItem>)
    ensures items == Matches(apps, ReminderDays(reminderSetting), today)
  {
    var days := ParseReminderDays(reminderSetting);
    items := [];
    var i := 0;
    while i < |apps|
      invariant 0 <= i <= |apps|
      invariant items == Matches(apps[..i], days, today)
    {
      assert apps[..i + 1][..i] == apps[..i];
      var remaining := DaysUntil(apps[i].deadline, today);
      if remaining.Some? && (remaining.value in days || remaining.value < 0) {
        var reason := if remaining.value < 0 then DeadlinePassed else DueIn(remaining.value);
        items := items + [ReminderItem(apps[i].id, apps[i].schoolName, apps[i].programName, apps[i].deadline.value,
                                       remaining.value, reason)];
      }
      i := i + 1;
    }
    assert apps[..i] == apps;
  }

  /**
   * Every reported item belongs to an application of the query with a
   * deadline, has a reminder day or a passed deadline, and says which; and
   * every such application is reported.
   */
  lemma MatchesSound(apps: seq<TrackedApplication>, days: set<int>, today: CalendarDate)
    ensures forall item :: item in Matches(apps, days, today) ==>
      && (item.daysLeft in days || item.daysLeft < 0)
      && (item.reason == DeadlinePassed <==> item.daysLeft < 0)
      && (item.reason.DueIn? ==> item.reason.days == item.daysLeft)
      && exists k :: 0 <= k < |apps| && apps[k].id == item.applicationId && apps[k].deadline == Some(item.deadline)
    ensures forall k :: (0 <= k < |apps| && apps[k].deadline.Some?
                         && Due(DayNumber(apps[k].deadline.value) - DayNumber(today), days)) ==>
        exists item :: item in Matches(apps, days, today) && item.applicationId == apps[k].id
  {
    MatchedItemsSound(apps, days, today);
    DueAppsMatched(apps, days, today);
  }

  /** The items of one more application: the earlier ones, and its own match. */
  lemma MatchesLast(apps: seq<TrackedApplication>, days: set<int>, today: CalendarDate, item: ReminderItem)
    requires apps != []
    ensures item in Matches(apps, days, today) <==>
      item in Matches(apps[..|apps| - 1], days, today) || MatchOf(apps[|apps| - 1], days, today) == Some(item)
  {
  }

  lemma {:induction false} MatchedItemsSound(apps: seq<TrackedApplication>, days: set<int>, today: CalendarDate)
    ensures forall item :: item in Matches(apps, days, today) ==>
      && (item.daysLeft in days || item.daysLeft < 0)
      && (item.reason == DeadlinePassed <==> item.daysLeft < 0)
      && (item.reason.DueIn? ==> item.reason.days == item.daysLeft)
      && exists k :: 0 <= k < |apps| && apps[k].id == item.applicationId && apps[k].deadline == Some(item.deadline)
    decreases |apps|
  {
    if apps != [] {
      var n := |apps| - 1;
      var init := apps[..n];
      MatchedItemsSound(init, days, today);
      forall item | item in Matches(apps, days, today)
        ensures && (item.daysLeft in days || item.daysLeft < 0)
          && (item.reason == DeadlinePassed <==> item.daysLeft < 0)
          && (item.reason.DueIn? ==> item.reason.days == item.daysLeft)
          && exists k :: 0 <= k < |apps| && apps[k].id == item.applicationId && apps[k].deadline == Some(item.deadline)
      {
        MatchesLast(apps, days, today, item);
        if item in Matches(init, days, today) {
          var k :| 0 <= k < |init| && init[k].id == item.applicationId && init[k].deadline == Some(item.deadline);
          assert apps[k] == init[k];
        } else {
          assert apps[n].id == item.applicationId;
        }
      }
    }
  }

  lemma {:induction false} DueAppsMatched(apps: seq<TrackedApplication>, days: set<int>, today: CalendarDate)
    ensures forall k :: (0 <= k < |apps| && apps[k].deadline.Some?
                         && Due(DayNumber(apps[k].deadline.value) - DayNumber(today), days)) ==>
        exists item :: item in Matches(apps, days, today) && item.applicationId == apps[k].id
    decreases |apps|
  {
    if apps != [] {
      var n := |apps| - 1;
      var init := apps[..n];
      DueAppsMatched(init, days, today);
      forall k | 0 <= k < |apps| && apps[k].deadline.Some?
        && Due(DayNumber(apps[k].deadline.value) - DayNumber(today), days)
        ensures exists item :: item in Matches(apps, days, today) && item.applicationId == apps[k].id
      {
        if k < n {
          assert init[k] == apps[k];
          var item :| item in Matches(init, days, today) && item.applicationId == apps[k].id;
          MatchesLast(apps, days, today, item);
        } else {
          var item := MatchOf(apps[n], days, today).value;
          MatchesLast(apps, days, today, item);
        }
      }
    }
  }

  /** Reporting keeps the query order: the items of a longer query extend those of its first part. */
  lemma {:induction false} MatchesKeepOrder(a: seq<TrackedApplication>, b: seq<TrackedApplication>, days: set<int>, today: CalendarDate)
    ensures Matches(a + b, days, today) == Matches(a, days, today) + Matches(b, days, today)
    decreases |b|
  {
    if b != [] {
      var n := |b| - 1;
      assert (a + b)[..|a + b| - 1] == a + b[..n];
      assert (a + b)[|a + b| - 1] == b[n];
      MatchesKeepOrder(a, b[..n], days, today);
    } else {
      assert a + b == a;
    }
  }

  // ---------------------------------------------------------------------
  // Sending
  // ---------------------------------------------------------------------

  /** `(sent, dry_run, message)`. */
  datatype SendResult = SendResult(sent: bool, dryRun: bool, message: string)

  /** Python's truthiness of an optional string. */
  predicate Given(value: Option<string>) { value.Some? && value.value != "" }

  /**
   * `send_email_notification`: without host, user and password nothing is
   * sent and the call reports a dry run; otherwise the outcome of the SMTP
   * exchange (`None` for success, or the error's text) decides.
   */
  function SendEmailNotification(smtpHost: Option<string>, smtpUser: Option<string>, smtpPassword: Option<string>,
                                 exchange: Option<string>): (r: SendResult)
    ensures !(Given(smtpHost) && Given(smtpUser) && Given(smtpPassword)) ==>
      r == SendResult(false, true, "SMTP not configured. Ran in dry-run mode.")
    ensures r.sent <==> Given(smtpHost) && Given(smtpUser) && Given(smtpPassword) && exchange.None?
    ensures r.sent != r.dryRun
  {
    if !Given(smtpHost) || !Given(smtpUser) || !Given(smtpPassword) then
      SendResult(false, true, "SMTP not configured. Ran in dry-run mode.")
    else match exchange
      case None => SendResult(true, false, "Email sent successfully.")
      case Some(error) => SendResult(false, true, "SMTP send failed, dry-run only: " + error)
  }
}
