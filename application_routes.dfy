// The application tracker endpoints of backend/routers/application_routes.py
// over the applications table: every read and write matches on both the
// application id and the caller, an update merges the sent fields over the
// stored row after its own LOR and interview guards, and the list is
// ordered by deadline and then by school.
module ApplicationRoutes {
  import opened Wrappers
  import opened Text
  import opened Seqs
  import opened Dates
  import opened Http
  import opened TrackerDb
  import opened Schemas

  const NotFoundError := HttpError(NotFound, "Application not found")

  // ---------------------------------------------------------------------
  // Lookup by id and owner
  // ---------------------------------------------------------------------

  /** The filter `id == application_id and user_id == current_user.id`. */
  function Owned(userId: int, id: int): Application -> bool
  {
    (a: Application) => a.id == id && a.userId == userId
  }

  /** The position of the row `.first()` returns. */
  function OwnedIndex(apps: seq<Application>, userId: int, id: int): (k: Option<nat>)
    ensures k.Some? ==> k.value < |apps| && apps[k.value].id == id && apps[k.value].userId == userId
    ensures k.None? <==> forall j :: 0 <= j < |apps| ==> !(apps[j].id == id && apps[j].userId == userId)
  {
    FirstIndex(apps, Owned(userId, id))
  }

  /** `get_application`: the caller's row with that id, or 404. */
  function GetApplication(apps: seq<Application>, userId: int, id: int): (r: Result<Application, HttpError>)
    ensures r.Ok? ==> r.value in apps && r.value.id == id && r.value.userId == userId
    ensures r.Err? <==> forall j :: 0 <= j < |apps| ==> !(apps[j].id == id && apps[j].userId == userId)
    ensures r.Err? ==> r.error == NotFoundError
  {
    match OwnedIndex(apps, userId, id)
    case None => Err(NotFoundError)
    case Some(k) => Ok(apps[k])
  }

  /** Another user's application is never returned: it reads as 404. */
  lemma OtherUsersRowIsNotFound(apps: seq<Application>, userId: int, k: nat)
    requires UniqueApplicationIds(apps)
    requires k < |apps| && apps[k].userId != userId
    ensures GetApplication(apps, userId, apps[k].id) == Err(NotFoundError)
  {
  }

  // ---------------------------------------------------------------------
  // Create
  // ---------------------------------------------------------------------

  /** The row `create_application` inserts for a validated body. */
  function NewRow(userId: int, c: ApplicationCreate, newId: int): (a: Application)
    ensures a.id == newId && a.userId == userId
  {
    Application(newId, userId, c.schoolName, c.programName, c.applicationRound, c.deadline, c.applicationFee,
                c.programTotalFee, c.feeCurrency, c.essaysRequired, c.lorsRequired, c.lorsSubmitted,
                c.interviewRequired, c.interviewCompleted, c.decisionStatus, c.requirementsNotes, c.status)
  }

  /**
   * `create_application`: the validated body becomes a new row of the
   * caller, under an id no row has yet.
   */
  method CreateApplication(db: Tables, userId: int, c: ApplicationCreate, newId: int) returns (row: Application)
    requires db.Valid()
    requires forall j :: 0 <= j < |db.applications| ==> db.applications[j].id != newId
    modifies db
    ensures db.Valid()
    ensures row == NewRow(userId, c, newId)
    ensures db.applications == old(db.applications) + [row]
    ensures db.essays == old(db.essays)
  {
    row := NewRow(userId, c, newId);
    db.applications := db.applications + [row];
  }

  /** The created row is what the caller then reads back under its id. */
  lemma CreateThenGet(apps: seq<Application>, userId: int, c: ApplicationCreate, newId: int)
    requires forall j :: 0 <= j < |apps| ==> apps[j].id != newId
    ensures GetApplication(apps + [NewRow(userId, c, newId)], userId, newId) == Ok(NewRow(userId, c, newId))
  {
    var after := apps + [NewRow(userId, c, newId)];
    assert after[|apps|] == NewRow(userId, c, newId);
    assert forall j :: 0 <= j < |apps| ==> after[j] == apps[j];
  }

  // ---------------------------------------------------------------------
  // Update
  // ---------------------------------------------------------------------

  /** The `setattr` loop: every sent field overwrites the stored column, the others stay. */
  function Merged(row: Application, u: ApplicationUpdate): Application
  {
    row.(schoolName := u.schoolName.GetOr(row.schoolName), programName := u.programName.GetOr(row.programName),
         applicationRound := u.applicationRound.GetOr(row.applicationRound), deadline := u.deadline.GetOr(row.deadline),
         applicationFee := u.applicationFee.GetOr(row.applicationFee),
         programTotalFee := u.programTotalFee.GetOr(row.programTotalFee),
         feeCurrency := u.feeCurrency.GetOr(row.feeCurrency), essaysRequired := u.essaysRequired.GetOr(row.essaysRequired),
         lorsRequired := u.lorsRequired.GetOr(row.lorsRequired), lorsSubmitted := u.lorsSubmitted.GetOr(row.lorsSubmitted),
         interviewRequired := u.interviewRequired.GetOr(row.interviewRequired),
         interviewCompleted := u.interviewCompleted.GetOr(row.interviewCompleted),
         decisionStatus := u.decisionStatus.GetOr(row.decisionStatus),
         requirementsNotes := u.requirementsNotes.GetOr(row.requirementsNotes), status := u.status.GetOr(row.status))
  }

  const LorsError := HttpError(UnprocessableEntity, "lors_submitted cannot exceed lors_required")
  const InterviewError := HttpError(UnprocessableEntity, "interview_completed cannot be true when interview_required is false")

  /**
   * The guards and the merge of `update_application` on the stored row:
   * the LOR counts after the merge must satisfy submitted <= required; an
   * `interview_required` sent as false refuses a completed interview, sent
   * or stored, and otherwise forces `interview_completed` to false.
   */
  function UpdateOutcome(row: Application, u: ApplicationUpdate): (r: Result<Application, HttpError>)
    ensures r.Ok? ==> r.value.lorsSubmitted <= r.value.lorsRequired
    ensures r.Ok? ==> r.value.id == row.id && r.value.userId == row.userId
    ensures r.Err? <==>
      (u.lorsSubmitted.GetOr(row.lorsSubmitted) > u.lorsRequired.GetOr(row.lorsRequired)
       || (u.interviewRequired == Some(false) && u.interviewCompleted.GetOr(row.interviewCompleted)))
    ensures u.lorsSubmitted.GetOr(row.lorsSubmitted) > u.lorsRequired.GetOr(row.lorsRequired) ==> r == Err(LorsError)
    ensures r.Err? && u.lorsSubmitted.GetOr(row.lorsSubmitted) <= u.lorsRequired.GetOr(row.lorsRequired) ==> r == Err(InterviewError)
  {
    var targetRequired := u.lorsRequired.GetOr(row.lorsRequired);
    var targetSubmitted := u.lorsSubmitted.GetOr(row.lorsSubmitted);
    if targetSubmitted > targetRequired then Err(LorsError)
    else if u.interviewRequired == Some(false) && u.interviewCompleted.GetOr(row.interviewCompleted) then Err(InterviewError)
    else
      var payload := if u.interviewRequired == Some(false) then u.(interviewCompleted := Some(false)) else u;
      Ok(Merged(row, payload))
  }

  /** A successful update writes every sent field and keeps every field that was not sent. */
  lemma UpdateWritesOnlySentFields(row: Application, u: ApplicationUpdate)
    requires UpdateOutcome(row, u).Ok?
    ensures var a := UpdateOutcome(row, u).value;
      && a.schoolName == u.schoolName.GetOr(row.schoolName) && a.programName == u.programName.GetOr(row.programName)
      && a.applicationRound == u.applicationRound.GetOr(row.applicationRound) && a.deadline == u.deadline.GetOr(row.deadline)
      && a.applicationFee == u.applicationFee.GetOr(row.applicationFee)
      && a.programTotalFee == u.programTotalFee.GetOr(row.programTotalFee)
      && a.feeCurrency == u.feeCurrency.GetOr(row.feeCurrency) && a.essaysRequired == u.essaysRequired.GetOr(row.essaysRequired)
      && a.lorsRequired == u.lorsRequired.GetOr(row.lorsRequired) && a.lorsSubmitted == u.lorsSubmitted.GetOr(row.lorsSubmitted)
      && a.interviewRequired == u.interviewRequired.GetOr(row.interviewRequired)
      && a.interviewCompleted == u.interviewCompleted.GetOr(row.interviewCompleted)
      && a.decisionStatus == u.decisionStatus.GetOr(row.decisionStatus)
      && a.requirementsNotes == u.requirementsNotes.GetOr(row.requirementsNotes) && a.status == u.status.GetOr(row.status)
  {
  }

  /** The update that sends nothing. */
  const NoChanges := ApplicationUpdate(None, None, None, None, None, None, None, None, None, None, None, None, None, None, None)

  /**
   * Marking the interview completed on a row that does not require one,
   * with nothing else sent, passes the body's model validator and the
   * route's guards, and is stored as sent.
   */
  lemma CompletedWithoutRequiredAccepted(row: Application, today: CalendarDate)
    requires !row.interviewRequired && row.lorsSubmitted <= row.lorsRequired
    ensures UpdateIntegrity(NoChanges.(interviewCompleted := Some(true)), today).Ok?
    ensures UpdateOutcome(row, NoChanges.(interviewCompleted := Some(true))) == Ok(row.(interviewCompleted := true))
  {
  }

  /**
   * `update_application`: 404 unless the caller owns a row with that id;
   * otherwise the guarded merge, stored in place of the row when it
   * succeeds.
   */
  method UpdateApplication(db: Tables, userId: int, id: int, u: ApplicationUpdate) returns (r: Result<Application, HttpError>)
    requires db.Valid()
    modifies db
    ensures db.Valid()
    ensures db.essays == old(db.essays)
    ensures OwnedIndex(old(db.applications), userId, id).None? ==>
      r == Err(NotFoundError) && db.applications == old(db.applications)
    ensures OwnedIndex(old(db.applications), userId, id).Some? ==>
      var k := OwnedIndex(old(db.applications), userId, id).value;
      && r == UpdateOutcome(old(db.applications)[k], u)
      && db.applications == (if r.Ok? then old(db.applications)[k := r.value] else old(db.applications))
  {
    var found := OwnedIndex(db.applications, userId, id);
    if found.None? {
      return Err(NotFoundError);
    }
    var k := found.value;
    r := UpdateOutcome(db.applications[k], u);
    if r.Ok? {
      db.applications := db.applications[k := r.value];
    }
  }

  /** After a successful update the stored row keeps the LOR invariant, and every other row is unchanged. */
  lemma UpdateKeepsLorInvariant(apps: seq<Application>, userId: int, id: int, u: ApplicationUpdate)
    requires OwnedIndex(apps, userId, id).Some?
    requires UpdateOutcome(apps[OwnedIndex(apps, userId, id).value], u).Ok?
    ensures var k := OwnedIndex(apps, userId, id).value;
      var after := apps[k := UpdateOutcome(apps[k], u).value];
      && GetApplication(after, userId, id) == Ok(after[k])
      && after[k].lorsSubmitted <= after[k].lorsRequired
  {
    var k := OwnedIndex(apps, userId, id).value;
    var after := apps[k := UpdateOutcome(apps[k], u).value];
    assert forall j :: 0 <= j < k ==> after[j] == apps[j];
  }

  // ---------------------------------------------------------------------
  // Delete
  // ---------------------------------------------------------------------

  /** The table without the row at `k`. */
  function Without(apps: seq<Application>, k: nat): (r: seq<Application>)
    requires k < |apps|
    ensures |r| == |apps| - 1
    ensures forall j :: 0 <= j < k ==> r[j] == apps[j]
    ensures forall j :: k <= j < |r| ==> r[j] == apps[j + 1]
  {
    apps[..k] + apps[k + 1..]
  }

  /** `delete_application`: 404 unless the caller owns a row with that id; otherwise that row is removed. */
  method DeleteApplication(db: Tables, userId: int, id: int) returns (r: Result<string, HttpError>)
    requires db.Valid()
    modifies db
    ensures db.Valid()
    ensures db.essays == old(db.essays)
    ensures OwnedIndex(old(db.applications), userId, id).None? ==>
      r == Err(NotFoundError) && db.applications == old(db.applications)
    ensures OwnedIndex(old(db.applications), userId, id).Some? ==>
      r == Ok("Application deleted successfully")
      && db.applications == Without(old(db.applications), OwnedIndex(old(db.applications), userId, id).value)
  {
    var found := OwnedIndex(db.applications, userId, id);
    if found.None? {
      return Err(NotFoundError);
    }
    db.applications := Without(db.applications, found.value);
    r := Ok("Application deleted successfully");
  }

  /** Once deleted, the application reads as 404, and only its row is gone. */
  lemma DeleteThenGet(apps: seq<Application>, userId: int, id: int)
    requires UniqueApplicationIds(apps)
    requires OwnedIndex(apps, userId, id).Some?
    ensures var k := OwnedIndex(apps, userId, id).value;
      && GetApplication(Without(apps, k), userId, id) == Err(NotFoundError)
      && forall j :: 0 <= j < |apps| && j != k ==> apps[j] in Without(apps, k)
  {
    var k := OwnedIndex(apps, userId, id).value;
    var after := Without(apps, k);
    forall j | 0 <= j < |after|
      ensures !(after[j].id == id && after[j].userId == userId)
    {
      if j >= k {
        assert after[j] == apps[j + 1];
      }
    }
    forall j | 0 <= j < |apps| && j != k
      ensures apps[j] in after
    {
      if j < k {
        assert after[j] == apps[j];
      } else {
        assert after[j - 1] == apps[j];
      }
    }
  }

  // ---------------------------------------------------------------------
  // List
  // ---------------------------------------------------------------------

  /** `school_name ASC` in SQLite: `NULL` first, then the names in character order. */
  predicate SchoolNotAfter(a: Option<string>, b: Option<string>)
  {
    a.None? || (b.Some? && !LexLess(b.value, a.value))
  }

  /** `ORDER BY deadline ASC, school_name ASC`. */
  predicate ListedBefore(a: Application, b: Application)
  {
    DayNumber(a.deadline) < DayNumber(b.deadline)
    || (DayNumber(a.deadline) == DayNumber(b.deadline) && SchoolNotAfter(a.schoolName, b.schoolName))
  }

  /** Any two school names are ordered one way or the other. */
  lemma SchoolNotAfterTotal(a: Option<string>, b: Option<string>)
    ensures SchoolNotAfter(a, b) || SchoolNotAfter(b, a)
  {
    if a.Some? && b.Some? {
      LexAsymmetric(a.value, b.value);
    }
  }

  lemma SchoolNotAfterTransitive(a: Option<string>, b: Option<string>, c: Option<string>)
    requires SchoolNotAfter(a, b) && SchoolNotAfter(b, c)
    ensures SchoolNotAfter(a, c)
  {
    if a.Some? {
      var x, y, z := a.value, b.value, c.value;
      LexTotal(x, y);
      if x != y && LexLess(z, x) {
        LexTransitive(z, x, y);
      }
    }
  }

  /** Any two rows are ordered one way or the other. */
  lemma ListedBeforeTotal(a: Application, b: Application)
    ensures ListedBefore(a, b) || ListedBefore(b, a)
  {
    SchoolNotAfterTotal(a.schoolName, b.schoolName);
  }

  lemma ListedBeforeTransitive(a: Application, b: Application, c: Application)
    requires ListedBefore(a, b) && ListedBefore(b, c)
    ensures ListedBefore(a, c)
  {
    if DayNumber(a.deadline) == DayNumber(b.deadline) == DayNumber(c.deadline) {
      SchoolNotAfterTransitive(a.schoolName, b.schoolName, c.schoolName);
    }
  }

  predicate InListOrder(s: seq<Application>)
  {
    forall i, j :: 0 <= i < j < |s| ==> ListedBefore(s[i], s[j])
  }

  /** Puts `x` before the first row it is listed before. */
  function InsertListed(x: Application, s: seq<Application>): (r: seq<Application>)
    ensures multiset(r) == multiset(s) + multiset{x}
    decreases |s|
  {
    if s == [] || ListedBefore(x, s[0]) then [x] + s
    else
      assert s == [s[0]] + s[1..];
      [s[0]] + InsertListed(x, s[1..])
  }

  /** Sorts by insertion; rows that compare equal keep their table order. */
  function SortListed(s: seq<Application>): (r: seq<Application>)
    ensures multiset(r) == multiset(s)
    decreases |s|
  {
    if s == [] then []
    else
      assert s == [s[0]] + s[1..];
      InsertListed(s[0], SortListed(s[1..]))
  }

  /** A row listed before every row of an ordered list can go in front of it. */
  lemma PrependInOrder(x: Application, s: seq<Application>)
    requires InListOrder(s)
    requires forall y :: y in s ==> ListedBefore(x, y)
    ensures InListOrder([x] + s)
  {
    var r := [x] + s;
    forall i, j | 0 <= i < j < |r| ensures ListedBefore(r[i], r[j]) {
      assert r[j] == s[j - 1];
      if i > 0 {
        assert r[i] == s[i - 1];
      }
    }
  }

  lemma {:induction false} InsertListedInOrder(x: Application, s: seq<Application>)
    requires InListOrder(s)
    ensures InListOrder(InsertListed(x, s))
    decreases |s|
  {
    if s == [] {
    } else if ListedBefore(x, s[0]) {
      forall y | y in s ensures ListedBefore(x, y) {
        var j :| 0 <= j < |s| && s[j] == y;
        if j > 0 {
          ListedBeforeTransitive(x, s[0], y);
        }
      }
      PrependInOrder(x, s);
    } else {
      ListedBeforeTotal(x, s[0]);
      InsertListedInOrder(x, s[1..]);
      var t := InsertListed(x, s[1..]);
      forall y | y in t ensures ListedBefore(s[0], y) {
        assert y in multiset(t);
        if y != x {
          assert y in multiset(s[1..]);
          var j :| 0 <= j < |s[1..]| && s[1..][j] == y;
          assert s[j + 1] == y;
        }
      }
      PrependInOrder(s[0], t);
    }
  }

  lemma {:induction false} SortListedInOrder(s: seq<Application>)
    ensures InListOrder(SortListed(s))
    decreases |s|
  {
    if s != [] {
      SortListedInOrder(s[1..]);
      InsertListedInOrder(s[0], SortListed(s[1..]));
    }
  }

  /**
   * `get_applications`: exactly the caller's rows, each as often as in the
   * table, by ascending deadline and, on the same deadline, ascending
   * school with unnamed schools first.
   */
  function ListApplications(apps: seq<Application>, userId: int): (r: seq<Application>)
    ensures multiset(r) == multiset(Filter(apps, (a: Application) => a.userId == userId))
    ensures forall a :: a in r <==> a in apps && a.userId == userId
    ensures InListOrder(r)
  {
    var mine := Filter(apps, (a: Application) => a.userId == userId);
    FilterMembers(apps, (a: Application) => a.userId == userId);
    SortListedInOrder(mine);
    var r := SortListed(mine);
    assert forall a :: a in r <==> a in mine by {
      forall a ensures a in r <==> a in mine {
        assert a in r <==> a in multiset(r);
        assert a in mine <==> a in multiset(mine);
      }
    }
    r
  }
}
