// The admin endpoints of backend/routers/admin_routes.py that carry rules:
// changing a user's role (never the caller's own admin access, never the
// last admin), the coverage of the required telemetry events, the
// activation rate of the overview, and the create, update and delete
// operations on the program catalog list. The SQL counts the overview and
// the coverage start from are inputs here.
module AdminRoutes {
  import opened Wrappers
  import opened Text
  import opened Seqs
  import opened Http
  import opened AuthDb
  import opened ProgramCatalog
  import SystemRoutes

  // ---------------------------------------------------------------------
  // Role update
  // ---------------------------------------------------------------------

  /** `AdminRoleUpdateResponse`. */
  datatype RoleUpdateResponse = RoleUpdateResponse(id: int, email: string, role: string)

  const InvalidRoleError := HttpError(BadRequest, "Role must be one of: admin, user")
  const UserNotFoundError := HttpError(NotFound, "User not found")
  const SelfDemotionError := HttpError(BadRequest, "You cannot remove your own admin access.")
  const LastAdminError := HttpError(BadRequest, "At least one admin user is required.")

  function IsAdminRow(u: User): bool { u.role == "admin" }

  /** The number of rows whose stored role is `"admin"`. */
  function AdminCount(users: seq<User>): nat
  {
    Count(users, IsAdminRow)
  }

  /**
   * The rules of `update_user_role` once the requested role is stripped and
   * lower-cased: it must be `user` or `admin`; the user must exist; an
   * admin cannot drop their own admin role; and an admin cannot be demoted
   * while the admin count is at most one. Otherwise the user's role becomes
   * the requested one.
   */
  function RoleChange(users: seq<User>, adminId: int, userId: int, normalized: string): (r: Result<User, HttpError>)
    ensures normalized != "user" && normalized != "admin" ==> r == Err(InvalidRoleError)
    ensures (normalized == "user" || normalized == "admin") && UserById(users, userId).None? ==> r == Err(UserNotFoundError)
    ensures userId == adminId && normalized == "user" && UserById(users, userId).Some? ==> r == Err(SelfDemotionError)
    ensures r.Ok? ==> UserById(users, userId).Some? && r.value == UserById(users, userId).value.(role := normalized)
    ensures r.Ok? ==> normalized == "user" || normalized == "admin"
    ensures r.Ok? && UserById(users, userId).value.role == "admin" && normalized != "admin" ==> AdminCount(users) >= 2
    ensures (normalized == "user" || normalized == "admin") && UserById(users, userId).Some? && !(userId == adminId && normalized == "user") ==>
      var user := UserById(users, userId).value;
      r == if user.role == "admin" && normalized == "user" && AdminCount(users) <= 1 then Err(LastAdminError)
           else Ok(user.(role := normalized))
  {
    if normalized != "user" && normalized != "admin" then Err(InvalidRoleError)
    else match UserById(users, userId)
      case None => Err(UserNotFoundError)
      case Some(user) =>
        if user.id == adminId && normalized != "admin" then Err(SelfDemotionError)
        else if user.role == "admin" && normalized != "admin" && AdminCount(users) <= 1 then Err(LastAdminError)
        else Ok(user.(role := normalized))
  }

  /** `update_user_role`: the role change, written back to the users table when it succeeds. */
  method UpdateUserRole(db: Database, currentAdmin: User, userId: int, role: string) returns (r: Result<RoleUpdateResponse, HttpError>)
    requires db.Valid()
    modifies db
    ensures db.Valid()
    ensures db.authTokens == old(db.authTokens) && db.refreshTokens == old(db.refreshTokens)
    ensures var change := RoleChange(old(db.users), currentAdmin.id, userId, Lower(Trim(role)));
      && (change.Err? ==> r == Err(change.error) && db.users == old(db.users))
      && (change.Ok? ==>
            r == Ok(RoleUpdateResponse(change.value.id, change.value.email, change.value.role))
            && db.users == WithUser(old(db.users), change.value))
  {
    var normalized := Lower(Trim(role));
    var change := RoleChange(db.users, currentAdmin.id, userId, normalized);
    if change.Err? {
      return Err(change.error);
    }
    var user := change.value;
    RewrittenRowKeepsKeys(db.users, UserById(db.users, userId).value, user);
    db.users := WithUser(db.users, user);
    r := Ok(RoleUpdateResponse(user.id, user.email, user.role));
  }

  /** Two admin rows, when the count says there are at least two. */
  lemma {:induction false} TwoAdmins(users: seq<User>)
    requires AdminCount(users) >= 2
    ensures exists i, j :: 0 <= i < j < |users| && IsAdminRow(users[i]) && IsAdminRow(users[j])
    decreases |users|
  {
    if !IsAdminRow(users[0]) {
      assert Filter(users, IsAdminRow) == Filter(users[1..], IsAdminRow);
      TwoAdmins(users[1..]);
      var i, j :| 0 <= i < j < |users[1..]| && IsAdminRow(users[1..][i]) && IsAdminRow(users[1..][j]);
      assert users[i + 1] == users[1..][i] && users[j + 1] == users[1..][j];
    } else {
      assert Filter(users, IsAdminRow) == [users[0]] + Filter(users[1..], IsAdminRow);
      OneAdmin(users[1..]);
      var j :| 0 <= j < |users[1..]| && IsAdminRow(users[1..][j]);
      assert users[j + 1] == users[1..][j];
    }
  }

  /** An admin row, when the count is positive. */
  lemma {:induction false} OneAdmin(users: seq<User>)
    requires AdminCount(users) >= 1
    ensures exists i :: 0 <= i < |users| && IsAdminRow(users[i])
    decreases |users|
  {
    if !IsAdminRow(users[0]) {
      assert Filter(users, IsAdminRow) == Filter(users[1..], IsAdminRow);
      OneAdmin(users[1..]);
      var i :| 0 <= i < |users[1..]| && IsAdminRow(users[1..][i]);
      assert users[i + 1] == users[1..][i];
    }
  }

  /** A positive count, when there is an admin row. */
  lemma {:induction false} AdminCounted(users: seq<User>, i: nat)
    requires i < |users| && IsAdminRow(users[i])
    ensures AdminCount(users) >= 1
    decreases |users|
  {
    if i > 0 {
      AdminCounted(users[1..], i - 1);
      if IsAdminRow(users[0]) {
        assert Filter(users, IsAdminRow) == [users[0]] + Filter(users[1..], IsAdminRow);
      } else {
        assert Filter(users, IsAdminRow) == Filter(users[1..], IsAdminRow);
      }
    } else {
      assert Filter(users, IsAdminRow) == [users[0]] + Filter(users[1..], IsAdminRow);
    }
  }

  /** A users table holding an admin still holds one after any successful role change. */
  lemma RoleChangeKeepsAnAdmin(users: seq<User>, adminId: int, userId: int, normalized: string)
    requires UniqueIds(users)
    requires AdminCount(users) >= 1
    requires RoleChange(users, adminId, userId, normalized).Ok?
    ensures AdminCount(WithUser(users, RoleChange(users, adminId, userId, normalized).value)) >= 1
  {
    var user := RoleChange(users, adminId, userId, normalized).value;
    if IsAdminRow(user) {
      var k :| 0 <= k < |users| && users[k] == UserById(users, userId).value;
      AdminKept(users, user, k);
    } else if IsAdminRow(UserById(users, userId).value) {
      TwoAdmins(users);
      var i, j :| 0 <= i < j < |users| && IsAdminRow(users[i]) && IsAdminRow(users[j]);
      if users[i].id != user.id {
        AdminKept(users, user, i);
      } else {
        AdminKept(users, user, j);
      }
    } else {
      OneAdmin(users);
      var i :| 0 <= i < |users| && IsAdminRow(users[i]);
      AdminKept(users, user, i);
    }
  }

  /** Row `i` is an admin after `user` is written back: the written row when it is `i`'s, else row `i` itself. */
  lemma AdminKept(users: seq<User>, user: User, i: nat)
    requires i < |users|
    requires if users[i].id == user.id then IsAdminRow(user) else IsAdminRow(users[i])
    ensures AdminCount(WithUser(users, user)) >= 1
  {
    AdminCounted(WithUser(users, user), i);
  }

  // ---------------------------------------------------------------------
  // Event coverage
  // ---------------------------------------------------------------------

  const RequiredEventCoverage: seq<string> := [
    "auth_login_success", "auth_signup_success", "ui_create_application_clicked", "ui_create_essay_clicked",
    "ui_right_sidebar_essay_selected", "ui_error_boundary_triggered"]

  /** `AdminEventCoverageItem`. */
  datatype CoverageItem = CoverageItem(eventName: string, count7d: nat, covered: bool)

  /** `AdminEventCoverageResponse`. */
  datatype CoverageResponse = CoverageResponse(requiredEvents: nat, trackedEvents7d: int, missingEvents: seq<string>,
                                               items: seq<CoverageItem>)

  /** `counts.get(event_name, 0)`. */
  function CountOf(counts: map<string, nat>, name: string): nat
  {
    if name in counts then counts[name] else 0
  }

  function CoverageItems(required: seq<string>, counts: map<string, nat>): (items: seq<CoverageItem>)
    ensures |items| == |required|
    ensures forall i :: 0 <= i < |required| ==>
      items[i].eventName == required[i] && items[i].count7d == CountOf(counts, required[i])
      && (items[i].covered <==> CountOf(counts, required[i]) > 0)
  {
    seq(|required|, i requires 0 <= i < |required| =>
      CoverageItem(required[i], CountOf(counts, required[i]), CountOf(counts, required[i]) > 0))
  }

  /** The names of the items not covered, in list order. */
  function MissingEvents(items: seq<CoverageItem>): (names: seq<string>)
    ensures |names| <= |items|
    decreases |items|
  {
    if items == [] then []
    else (if items[0].covered then [] else [items[0].eventName]) + MissingEvents(items[1..])
  }

  /**
   * `get_admin_events_coverage` over the 7-day counts per required event:
   * one item per required event in list order, and the tracked number is
   * the number of required events minus the missing ones.
   */
  function EventCoverage(required: seq<string>, counts: map<string, nat>): (r: CoverageResponse)
    ensures r.requiredEvents == |required| && |r.items| == |required|
    ensures r.trackedEvents7d == |required| - |r.missingEvents|
    ensures 0 <= r.trackedEvents7d <= |required|
  {
    var items := CoverageItems(required, counts);
    var missing := MissingEvents(items);
    CoverageResponse(|required|, |required| - |missing|, missing, items)
  }

  function IsCovered(item: CoverageItem): bool { item.covered }

  /** The missing events are the uncovered items' names, so tracked counts the covered items. */
  lemma {:induction false} MissingAreUncovered(items: seq<CoverageItem>)
    ensures forall x :: x in MissingEvents(items) <==> exists i :: 0 <= i < |items| && !items[i].covered && items[i].eventName == x
    ensures |items| - |MissingEvents(items)| == Count(items, IsCovered)
    decreases |items|
  {
    if items != [] {
      var rest := items[1..];
      MissingAreUncovered(rest);
      forall x ensures x in MissingEvents(items) <==> exists i :: 0 <= i < |items| && !items[i].covered && items[i].eventName == x {
        if x in MissingEvents(rest) {
          var i :| 0 <= i < |rest| && !rest[i].covered && rest[i].eventName == x;
          assert items[i + 1] == rest[i];
        }
        if exists i :: 0 <= i < |items| && !items[i].covered && items[i].eventName == x {
          var i :| 0 <= i < |items| && !items[i].covered && items[i].eventName == x;
          if i > 0 {
            assert rest[i - 1] == items[i];
          }
        }
      }
    }
  }

  /** An event is reported missing exactly when it is required and has no event in the last 7 days. */
  lemma CoverageSpec(required: seq<string>, counts: map<string, nat>)
    ensures var r := EventCoverage(required, counts);
      && (forall x :: x in r.missingEvents <==> x in required && CountOf(counts, x) == 0)
      && r.trackedEvents7d == Count(r.items, IsCovered)
  {
    var items := CoverageItems(required, counts);
    MissingAreUncovered(items);
    forall x ensures x in MissingEvents(items) <==> x in required && CountOf(counts, x) == 0 {
      if x in required && CountOf(counts, x) == 0 {
        var i :| 0 <= i < |required| && required[i] == x;
        assert !items[i].covered && items[i].eventName == x;
      }
    }
  }

  // ---------------------------------------------------------------------
  // Activation rate
  // ---------------------------------------------------------------------

  /** `round(x, 2)`, with halves rounded up. */
  function RoundHundredths(x: real): (r: real)
    ensures x - 0.005 < r <= x + 0.005
  {
    ((x * 100.0 + 0.5).Floor as real) / 100.0
  }

  /** `activation_rate_7d`: zero without new users, otherwise the activated share in percent. */
  function ActivationRate(activated: nat, newUsers: nat): (rate: real)
    ensures newUsers == 0 ==> rate == 0.0
    ensures newUsers > 0 ==> rate == RoundHundredths((activated as real / newUsers as real) * 100.0)
  {
    if newUsers == 0 then 0.0 else RoundHundredths((activated as real / newUsers as real) * 100.0)
  }

  /** A share of the new users gives a rate from 0 to 100. */
  lemma ActivationRateBounds(activated: nat, newUsers: nat)
    requires activated <= newUsers
    ensures 0.0 <= ActivationRate(activated, newUsers) <= 100.0
  {
    if newUsers > 0 {
      var share := activated as real / newUsers as real;
      assert 0.0 <= share <= 1.0;
      var x := share * 100.0;
      assert 0.0 <= x <= 100.0;
      assert 0 <= (x * 100.0 + 0.5).Floor <= 10000;
    }
  }

  // ---------------------------------------------------------------------
  // Program catalog
  // ---------------------------------------------------------------------

  /** `AdminProgramCatalogUpsertRequest` after its validators. */
  datatype CatalogUpsert = CatalogUpsert(
    id: Option<string>, schoolName: string, programName: string, degree: string, country: string,
    details: map<string, string>)

  /** `ProgramCatalogItem(...)` built from the request under the given id. */
  function ItemOf(programId: string, payload: CatalogUpsert): (item: CatalogItem)
    ensures item.id == programId
  {
    CatalogItem(programId, payload.schoolName, payload.programName, payload.degree, payload.country, payload.details)
  }

  /** The id a new item gets: the stripped, lower-cased requested id, or else the slug of its names. */
  function NewProgramId(payload: CatalogUpsert): (id: string)
    ensures payload.id.Some? && Lower(Trim(payload.id.value)) != "" ==> id == Lower(Trim(payload.id.value))
    ensures (payload.id.None? || Lower(Trim(payload.id.value)) == "") ==> IsSlug(id)
  {
    var requested := if payload.id.Some? then Lower(Trim(payload.id.value)) else "";
    if requested != "" then requested else BuildProgramId(payload.schoolName, payload.programName, payload.degree)
  }

  const DuplicateIdError := HttpError(Conflict, "Program catalog item id already exists")
  const ItemNotFoundError := HttpError(NotFound, "Program catalog item not found")

  predicate HasId(catalog: seq<CatalogItem>, id: string)
  {
    exists k :: 0 <= k < |catalog| && catalog[k].id == id
  }

  /** `create_program_catalog_item` on the loaded list: 409 on a taken id, otherwise the item is appended. */
  function CreateCatalogItem(catalog: seq<CatalogItem>, programId: string, payload: CatalogUpsert)
    : (r: Result<seq<CatalogItem>, HttpError>)
    ensures r.Err? <==> HasId(catalog, programId)
    ensures r.Err? ==> r.error == DuplicateIdError
    ensures r.Ok? ==> r.value == catalog + [ItemOf(programId, payload)]
  {
    if exists k :: 0 <= k < |catalog| && catalog[k].id == programId then Err(DuplicateIdError)
    else Ok(catalog + [ItemOf(programId, payload)])
  }

  /**
   * `update_program_catalog_item`: 404 without an item of that id;
   * otherwise the first such item is replaced by the request under the
   * path's id, and the list keeps its length and every other entry.
   */
  function UpdateCatalogItem(catalog: seq<CatalogItem>, programId: string, payload: CatalogUpsert)
    : (r: Result<seq<CatalogItem>, HttpError>)
    ensures r.Err? <==> !HasId(catalog, programId)
    ensures r.Err? ==> r.error == ItemNotFoundError
    ensures r.Ok? ==> |r.value| == |catalog|
    ensures r.Ok? ==> exists k :: (0 <= k < |catalog| && catalog[k].id == programId
                                  && (forall j :: 0 <= j < k ==> catalog[j].id != programId)
                                  && r.value == catalog[k := ItemOf(programId, payload)])
  {
    match FirstIndex(catalog, (item: CatalogItem) => item.id == programId)
    case None => Err(ItemNotFoundError)
    case Some(k) => Ok(catalog[k := ItemOf(programId, payload)])
  }

  function NotId(programId: string): CatalogItem -> bool
  {
    (item: CatalogItem) => item.id != programId
  }

  /**
   * `delete_program_catalog_item`: every item with the id is dropped; when
   * none was, 404.
   */
  function DeleteCatalogItem(catalog: seq<CatalogItem>, programId: string): (r: Result<seq<CatalogItem>, HttpError>)
    ensures r.Err? ==> r.error == ItemNotFoundError
    ensures r.Ok? ==> r.value == Filter(catalog, NotId(programId))
  {
    var next := Filter(catalog, NotId(programId));
    if |next| == |catalog| then Err(ItemNotFoundError) else Ok(next)
  }

  /** Delete fails exactly when no item has the id; afterwards no item has it, and every other item stays. */
  lemma DeleteCatalogItemSpec(catalog: seq<CatalogItem>, programId: string)
    ensures DeleteCatalogItem(catalog, programId).Err? <==> !HasId(catalog, programId)
    ensures DeleteCatalogItem(catalog, programId).Ok? ==>
      && !HasId(DeleteCatalogItem(catalog, programId).value, programId)
      && forall x :: x in catalog && x.id != programId ==> x in DeleteCatalogItem(catalog, programId).value
  {
    var p := NotId(programId);
    FilterMembers(catalog, p);
    if HasId(catalog, programId) {
      var k :| 0 <= k < |catalog| && catalog[k].id == programId;
      FilterDropsOne(catalog, p, k);
    } else {
      FilterAll(catalog, p);
    }
    var next := Filter(catalog, p);
    forall k | 0 <= k < |next| ensures next[k].id != programId {
      assert next[k] in next;
    }
  }

  /** Filtering out an element that fails the predicate shortens the sequence. */
  lemma {:induction false} FilterDropsOne<T>(s: seq<T>, p: T -> bool, k: nat)
    requires k < |s| && !p(s[k])
    ensures |Filter(s, p)| < |s|
    decreases |s|
  {
    if k > 0 {
      FilterDropsOne(s[1..], p, k - 1);
    }
  }

  /** A catalog file that the admin endpoints load, change and save back. */
  class CatalogFile {
    var items: seq<CatalogItem>

    constructor (items: seq<CatalogItem>)
      ensures this.items == items
    {
      this.items := items;
    }

    /** `create_program_catalog_item`: the id is derived, checked and the item appended and saved. */
    method Create(payload: CatalogUpsert) returns (r: Result<CatalogItem, HttpError>)
      modifies this
      ensures var created := CreateCatalogItem(old(items), NewProgramId(payload), payload);
        && (created.Err? ==> r == Err(created.error) && items == old(items))
        && (created.Ok? ==> r == Ok(ItemOf(NewProgramId(payload), payload)) && items == created.value)
    {
      var catalog := items;
      var programId := NewProgramId(payload);
      var created := CreateCatalogItem(catalog, programId, payload);
      if created.Err? {
        return Err(created.error);
      }
      items := created.value;
      r := Ok(ItemOf(programId, payload));
    }

    /** `update_program_catalog_item`: the first item with the path id replaced and saved. */
    method Update(programId: string, payload: CatalogUpsert) returns (r: Result<CatalogItem, HttpError>)
      modifies this
      ensures var updated := UpdateCatalogItem(old(items), programId, payload);
        && (updated.Err? ==> r == Err(updated.error) && items == old(items))
        && (updated.Ok? ==> r == Ok(ItemOf(programId, payload)) && items == updated.value)
    {
      var updated := UpdateCatalogItem(items, programId, payload);
      if updated.Err? {
        return Err(updated.error);
      }
      items := updated.value;
      r := Ok(ItemOf(programId, payload));
    }

    /** `delete_program_catalog_item`: the list without the id's items, saved when something was removed. */
    method Delete(programId: string) returns (r: Result<string, HttpError>)
      modifies this
      ensures var deleted := DeleteCatalogItem(old(items), programId);
        && (deleted.Err? ==> r == Err(deleted.error) && items == old(items))
        && (deleted.Ok? ==> r == Ok(programId) && items == deleted.value)
    {
      var deleted := DeleteCatalogItem(items, programId);
      if deleted.Err? {
        return Err(deleted.error);
      }
      items := deleted.value;
      r := Ok(programId);
    }
  }

  /** Creating, updating and then deleting an item leaves its id unknown to the catalog lookup. */
  lemma CreateUpdateDeleteThenGet(catalog: seq<CatalogItem>, payload: CatalogUpsert, change: CatalogUpsert)
    requires !HasId(catalog, NewProgramId(payload))
    ensures var id := NewProgramId(payload);
      && CreateCatalogItem(catalog, id, payload).Ok?
      && UpdateCatalogItem(CreateCatalogItem(catalog, id, payload).value, id, change).Ok?
      && DeleteCatalogItem(UpdateCatalogItem(CreateCatalogItem(catalog, id, payload).value, id, change).value, id).Ok?
      && SystemRoutes.GetProgramCatalogItem(
           DeleteCatalogItem(UpdateCatalogItem(CreateCatalogItem(catalog, id, payload).value, id, change).value, id).value,
           id).Err?
  {
    var id := NewProgramId(payload);
    var created := CreateCatalogItem(catalog, id, payload).value;
    assert created[|catalog|].id == id;
    var updated := UpdateCatalogItem(created, id, change).value;
    var k :| 0 <= k < |created| && created[k].id == id && updated == created[k := ItemOf(id, change)];
    assert updated[k].id == id;
    DeleteCatalogItemSpec(updated, id);
    var deleted := DeleteCatalogItem(updated, id).value;
    assert !HasId(deleted, id);
  }
}
