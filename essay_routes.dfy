// The essay endpoints of backend/routers/essay_routes.py that maintain
// version chains: creating an essay (a new chain, or a new version of a
// parent essay, which takes over the latest flag), listing the caller's
// essays after the application backfill, and listing a chain's versions.
// A chain is a root essay and the essays whose parent is that root.
module EssayRoutes {
  import opened Wrappers
  import opened Seqs
  import opened Http
  import opened TrackerDb
  import opened Schemas
  import opened Migrations
  import ApplicationRoutes

  /** `if essay.parent_essay_id:`: a parent reference counts only when present and not 0. */
  predicate IsParentRef(p: Option<int>)
  {
    p.Some? && p.value != 0
  }

  /** The filter `id == essay_id and user_id == current_user.id`. */
  function OwnedEssay(userId: int, id: int): Essay -> bool
  {
    (e: Essay) => e.id == id && e.userId == userId
  }

  function OwnedEssayIndex(essays: seq<Essay>, userId: int, id: int): (k: Option<nat>)
    ensures k.Some? ==> k.value < |essays| && essays[k.value].id == id && essays[k.value].userId == userId
    ensures k.None? <==> forall j :: 0 <= j < |essays| ==> !(essays[j].id == id && essays[j].userId == userId)
  {
    FirstIndex(essays, OwnedEssay(userId, id))
  }

  const EssayNotFound := HttpError(NotFound, "Essay not found")
  const LinkedApplicationNotFound := HttpError(NotFound, "Linked application not found")
  const ParentNotFound := HttpError(NotFound, "Parent essay not found")

  /** `get_essay`: the caller's essay with that id, or 404. */
  function GetEssay(essays: seq<Essay>, userId: int, id: int): (r: Result<Essay, HttpError>)
    ensures r.Ok? ==> r.value in essays && r.value.id == id && r.value.userId == userId
    ensures r.Err? <==> forall j :: 0 <= j < |essays| ==> !(essays[j].id == id && essays[j].userId == userId)
    ensures r.Err? ==> r.error == EssayNotFound
  {
    match OwnedEssayIndex(essays, userId, id)
    case None => Err(EssayNotFound)
    case Some(k) => Ok(essays[k])
  }

  // ---------------------------------------------------------------------
  // Create
  // ---------------------------------------------------------------------

  /** The essay belongs to the chain under `root`: it is the root or one of its children. */
  predicate InChain(e: Essay, root: int)
  {
    e.id == root || e.parentEssayId == Some(root)
  }

  /**
   * The two bulk updates: `is_latest` becomes false on every essay whose
   * parent is `pid`, whoever owns it, and on the essay `pid` itself.
   */
  function ClearLatest(essays: seq<Essay>, pid: int): (r: seq<Essay>)
    ensures |r| == |essays|
    ensures forall i :: 0 <= i < |essays| ==>
      r[i] == (if InChain(essays[i], pid) then essays[i].(isLatest := false) else essays[i])
  {
    seq(|essays|, i requires 0 <= i < |essays| =>
      if InChain(essays[i], pid) then essays[i].(isLatest := false) else essays[i])
  }

  /** The number of essays whose parent is `pid`. */
  function ChildCount(essays: seq<Essay>, pid: int): nat
  {
    Count(essays, (e: Essay) => e.parentEssayId == Some(pid))
  }

  /** The essays table and the inserted row after a successful `create_essay`. */
  datatype Created = Created(essays: seq<Essay>, essay: Essay)

  /**
   * `create_essay` on the tables, for a validated body and the id the
   * insert receives: a linked application must be the caller's; a truthy
   * parent must be the caller's essay, whose application is inherited when
   * none is given; a new version clears the chain's latest flags and is
   * numbered after the parent's existing children; a new essay starts a
   * chain at version 1. The inserted row is always the latest.
   */
  function Create(apps: seq<Application>, essays: seq<Essay>, userId: int, body: EssayCreate, newId: int)
    : (r: Result<Created, HttpError>)
    ensures r.Ok? ==> r.value.essay.id == newId && r.value.essay.userId == userId && r.value.essay.isLatest
    ensures r.Ok? ==> |r.value.essays| == |essays| + 1 && r.value.essays[|essays|] == r.value.essay
  {
    if body.applicationId.Some? && ApplicationRoutes.OwnedIndex(apps, userId, body.applicationId.value).None? then
      Err(LinkedApplicationNotFound)
    else CreateRow(essays, userId, body, newId)
  }

  /** `create_essay` once a linked application is known to be the caller's: the parent check, the bulk updates and the insert. */
  function CreateRow(essays: seq<Essay>, userId: int, body: EssayCreate, newId: int): (r: Result<Created, HttpError>)
    ensures r.Ok? ==> r.value.essay.id == newId && r.value.essay.userId == userId && r.value.essay.isLatest
    ensures r.Ok? ==> |r.value.essays| == |essays| + 1 && r.value.essays[|essays|] == r.value.essay
    ensures r.Ok? ==> forall j :: 0 <= j < |essays| ==> r.value.essays[j].id == essays[j].id
  {
    if IsParentRef(body.parentEssayId) then
      var pid := body.parentEssayId.value;
      match OwnedEssayIndex(essays, userId, pid)
      case None => Err(ParentNotFound)
      case Some(k) =>
        var applicationId := if body.applicationId.None? then essays[k].applicationId else body.applicationId;
        var cleared := ClearLatest(essays, pid);
        var row := Essay(newId, userId, Some(body.schoolName), Some(body.programType), body.essayPrompt,
                         body.essayContent, ChildCount(cleared, pid) + 2, Some(pid), applicationId, true);
        Ok(Created(cleared + [row], row))
    else
      var row := Essay(newId, userId, Some(body.schoolName), Some(body.programType), body.essayPrompt,
                       body.essayContent, 1, None, body.applicationId, true);
      Ok(Created(essays + [row], row))
  }

  /** `create_essay` as the route runs it: the checks, the bulk updates, the count and the insert. */
  method CreateEssay(db: Tables, userId: int, body: EssayCreate, newId: int) returns (r: Result<Essay, HttpError>)
    requires db.Valid()
    requires forall j :: 0 <= j < |db.essays| ==> db.essays[j].id != newId
    modifies db
    ensures db.Valid()
    ensures db.applications == old(db.applications)
    ensures var c := Create(old(db.applications), old(db.essays), userId, body, newId);
      && (c.Err? ==> r == Err(c.error) && db.essays == old(db.essays))
      && (c.Ok? ==> r == Ok(c.value.essay) && db.essays == c.value.essays)
  {
    var applicationId := body.applicationId;
    if applicationId.Some? {
      var owned := ApplicationRoutes.OwnedIndex(db.applications, userId, applicationId.value);
      if owned.None? {
        return Err(LinkedApplicationNotFound);
      }
    }
    var created := InsertEssay(db.essays, userId, body, newId);
    if created.Err? {
      return Err(created.error);
    }
    db.essays := created.value.essays;
    r := Ok(created.value.essay);
  }

  /** The parent lookup, the bulk updates, the version count and the new row. */
  method InsertEssay(essays: seq<Essay>, userId: int, body: EssayCreate, newId: int) returns (r: Result<Created, HttpError>)
    ensures r == CreateRow(essays, userId, body, newId)
  {
    var applicationId := body.applicationId;
    var version: int;
    var parentId: Option<int>;
    var table := essays;
    if IsParentRef(body.parentEssayId) {
      var pid := body.parentEssayId.value;
      var parent := OwnedEssayIndex(table, userId, pid);
      if parent.None? {
        return Err(ParentNotFound);
      }
      if applicationId.None? {
        applicationId := table[parent.value].applicationId;
      }
      table := ClearLatest(table, pid);
      version := ChildCount(table, pid) + 2;
      parentId := Some(pid);
    } else {
      version := 1;
      parentId := None;
    }
    var row := Essay(newId, userId, Some(body.schoolName), Some(body.programType), body.essayPrompt,
                     body.essayContent, version, parentId, applicationId, true);
    r := Ok(Created(table + [row], row));
  }

  /** A body without a truthy parent starts a chain: version 1, no parent, latest, table otherwise unchanged. */
  lemma RootEssay(apps: seq<Application>, essays: seq<Essay>, userId: int, body: EssayCreate, newId: int)
    requires !IsParentRef(body.parentEssayId)
    requires body.applicationId.None? || ApplicationRoutes.OwnedIndex(apps, userId, body.applicationId.value).Some?
    ensures var r := Create(apps, essays, userId, body, newId);
      && r.Ok? && r.value.essay.version == 1 && r.value.essay.parentEssayId.None?
      && r.value.essay.applicationId == body.applicationId
      && r.value.essays == essays + [r.value.essay]
  {
  }

  /** The linked application and the parent must both be the caller's, or the route answers 404 and changes nothing. */
  lemma CreateChecksOwnership(apps: seq<Application>, essays: seq<Essay>, userId: int, body: EssayCreate, newId: int)
    ensures body.applicationId.Some? && ApplicationRoutes.OwnedIndex(apps, userId, body.applicationId.value).None? ==>
      Create(apps, essays, userId, body, newId) == Err(LinkedApplicationNotFound)
    ensures (body.applicationId.None? || ApplicationRoutes.OwnedIndex(apps, userId, body.applicationId.value).Some?)
            && IsParentRef(body.parentEssayId)
            && (forall j :: 0 <= j < |essays| ==> !(essays[j].id == body.parentEssayId.value && essays[j].userId == userId)) ==>
      Create(apps, essays, userId, body, newId) == Err(ParentNotFound)
    ensures Create(apps, essays, userId, body, newId).Err? ==>
      Create(apps, essays, userId, body, newId).error.status == NotFound
  {
  }

  /**
   * A new version of the caller's essay `pid`: it inherits the parent's
   * application when none is given, points at `pid`, is numbered two past
   * the number of existing children of `pid`, and clears every other
   * latest flag in the chain under `pid`, leaving every row outside that
   * chain untouched. So it is the one latest essay of that chain.
   */
  lemma NewVersion(apps: seq<Application>, essays: seq<Essay>, userId: int, body: EssayCreate, newId: int)
    requires body.applicationId.None? || ApplicationRoutes.OwnedIndex(apps, userId, body.applicationId.value).Some?
    requires IsParentRef(body.parentEssayId)
    requires OwnedEssayIndex(essays, userId, body.parentEssayId.value).Some?
    requires newId != body.parentEssayId.value
    ensures var pid := body.parentEssayId.value;
      var parent := essays[OwnedEssayIndex(essays, userId, pid).value];
      var r := Create(apps, essays, userId, body, newId);
      && r.Ok?
      && r.value.essay.parentEssayId == Some(pid)
      && r.value.essay.version == ChildCount(essays, pid) + 2
      && (body.applicationId.None? ==> r.value.essay.applicationId == parent.applicationId)
      && (body.applicationId.Some? ==> r.value.essay.applicationId == body.applicationId)
      && InChain(r.value.essay, pid)
      && (forall i :: 0 <= i < |r.value.essays| && InChain(r.value.essays[i], pid) && r.value.essays[i].isLatest ==>
            i == |essays|)
      && (forall i :: 0 <= i < |essays| && !InChain(essays[i], pid) ==> r.value.essays[i] == essays[i])
  {
    var pid := body.parentEssayId.value;
    var cleared := ClearLatest(essays, pid);
    ChildCountKept(essays, pid);
  }

  /** Clearing latest flags keeps every parent reference, so the number of children. */
  lemma {:induction false} ChildCountKept(essays: seq<Essay>, pid: int)
    ensures ChildCount(ClearLatest(essays, pid), pid) == ChildCount(essays, pid)
  {
    var cleared := ClearLatest(essays, pid);
    var p := (e: Essay) => e.parentEssayId == Some(pid);
    assert forall i :: 0 <= i < |essays| ==> p(cleared[i]) == p(essays[i]);
    FilterSameLength(essays, cleared, p);
  }

  // ---------------------------------------------------------------------
  // List
  // ---------------------------------------------------------------------

  /** The filters of `get_essays`: the caller's rows, the latest ones when asked, and those of one application when given. */
  function Listed(userId: int, latestOnly: bool, applicationId: Option<int>): Essay -> bool
  {
    (e: Essay) => e.userId == userId && (!latestOnly || e.isLatest) && (applicationId.None? || e.applicationId == applicationId)
  }

  /** `.offset(skip).limit(limit)`. */
  function Page(s: seq<Essay>, skip: nat, limit: nat): (r: seq<Essay>)
    ensures |r| <= limit
    ensures skip >= |s| ==> r == []
    ensures skip < |s| ==> |r| == if |s| - skip < limit then |s| - skip else limit
    ensures forall i :: 0 <= i < |r| ==> skip + i < |s| && r[i] == s[skip + i]
  {
    var rest := if skip < |s| then s[skip..] else [];
    if limit < |rest| then rest[..limit] else rest
  }

  /**
   * `get_essays`: the backfill of the caller's application links first,
   * then the filtered rows in table order, one page of them. The query
   * parameters are already within their declared bounds (`skip >= 0`,
   * `1 <= limit <= 200`), which the framework enforces.
   */
  method GetEssays(db: Tables, userId: int, latestOnly: bool, applicationId: Option<int>, skip: nat, limit: nat)
    returns (page: seq<Essay>)
    requires db.Valid()
    requires 1 <= limit <= 200
    modifies db
    ensures db.Valid()
    ensures db.applications == old(db.applications)
    ensures db.essays == Backfilled(old(db.essays), old(db.applications), userId)
    ensures page == Page(Filter(db.essays, Listed(userId, latestOnly, applicationId)), skip, limit)
  {
    var _ := BackfillEssayApplicationLinks(db, userId);
    page := Page(Filter(db.essays, Listed(userId, latestOnly, applicationId)), skip, limit);
  }

  /** Every listed essay is the caller's, latest unless all versions are asked for, and of the given application. */
  lemma ListedEssays(essays: seq<Essay>, userId: int, latestOnly: bool, applicationId: Option<int>, skip: nat, limit: nat)
    ensures var page := Page(Filter(essays, Listed(userId, latestOnly, applicationId)), skip, limit);
      forall e :: e in page ==>
        && e in essays && e.userId == userId
        && (latestOnly ==> e.isLatest)
        && (applicationId.Some? ==> e.applicationId == applicationId)
  {
    var matching := Filter(essays, Listed(userId, latestOnly, applicationId));
    var page := Page(matching, skip, limit);
    forall e | e in page
      ensures e in matching
    {
      var i :| 0 <= i < |page| && page[i] == e;
      assert matching[skip + i] == e;
    }
  }

  /** The first page holds every matching essay when there are no more than `limit` of them. */
  lemma FirstPageComplete(essays: seq<Essay>, userId: int, latestOnly: bool, applicationId: Option<int>, limit: nat)
    requires |Filter(essays, Listed(userId, latestOnly, applicationId))| <= limit
    ensures forall e :: e in Page(Filter(essays, Listed(userId, latestOnly, applicationId)), 0, limit) <==>
      e in essays && Listed(userId, latestOnly, applicationId)(e)
  {
    var matching := Filter(essays, Listed(userId, latestOnly, applicationId));
    FilterMembers(essays, Listed(userId, latestOnly, applicationId));
    assert Page(matching, 0, limit) == matching;
  }

  // ---------------------------------------------------------------------
  // Versions
  // ---------------------------------------------------------------------

  /** `EssayVersionInfo`. */
  datatype VersionInfo = VersionInfo(essayId: int, totalVersions: nat, currentVersion: int, versions: seq<Essay>)

  /** The chain root of an essay: its parent when truthy, otherwise itself. */
  function RootOf(e: Essay): int
  {
    if IsParentRef(e.parentEssayId) then e.parentEssayId.value else e.id
  }

  function InChainOf(userId: int, root: int): Essay -> bool
  {
    (e: Essay) => e.userId == userId && InChain(e, root)
  }

  function Version(e: Essay): int { e.version }

  /**
   * `get_essay_versions`: 404 unless the caller owns the essay; otherwise
   * the caller's essays of its chain ordered by version, equal versions in
   * table order.
   */
  function GetEssayVersions(essays: seq<Essay>, userId: int, essayId: int): (r: Result<VersionInfo, HttpError>)
    ensures r.Err? <==> GetEssay(essays, userId, essayId).Err?
    ensures r.Err? ==> r.error == EssayNotFound
    ensures r.Ok? ==>
      && r.value.essayId == essayId
      && r.value.totalVersions == |r.value.versions|
      && r.value.currentVersion == GetEssay(essays, userId, essayId).value.version
      && multiset(r.value.versions) == multiset(Filter(essays, InChainOf(userId, RootOf(GetEssay(essays, userId, essayId).value))))
  {
    match GetEssay(essays, userId, essayId)
    case Err(e) => Err(e)
    case Ok(essay) =>
      var versions := StableSortBy(Filter(essays, InChainOf(userId, RootOf(essay))), Version);
      Ok(VersionInfo(essayId, |versions|, essay.version, versions))
  }

  /**
   * The versions are exactly the caller's essays of the chain, including
   * the requested one, in ascending version order.
   */
  lemma VersionsSpec(essays: seq<Essay>, userId: int, essayId: int)
    requires GetEssayVersions(essays, userId, essayId).Ok?
    ensures var info := GetEssayVersions(essays, userId, essayId).value;
      var essay := GetEssay(essays, userId, essayId).value;
      && (forall e :: e in info.versions <==> e in essays && e.userId == userId && InChain(e, RootOf(essay)))
      && essay in info.versions
      && SortedBy(info.versions, Version)
  {
    var essay := GetEssay(essays, userId, essayId).value;
    var chain := Filter(essays, InChainOf(userId, RootOf(essay)));
    FilterMembers(essays, InChainOf(userId, RootOf(essay)));
    StableSortBySorted(chain, Version);
    var versions := StableSortBy(chain, Version);
    forall e ensures e in versions <==> e in chain {
      assert e in versions <==> e in multiset(versions);
      assert e in chain <==> e in multiset(chain);
    }
  }

  /** A version and its root essay show the same chain. */
  lemma ChildAndRootShareVersions(essays: seq<Essay>, userId: int, childId: int, rootId: int)
    requires GetEssay(essays, userId, childId).Ok? && GetEssay(essays, userId, rootId).Ok?
    requires GetEssay(essays, userId, childId).value.parentEssayId == Some(rootId) && rootId != 0
    requires !IsParentRef(GetEssay(essays, userId, rootId).value.parentEssayId)
    ensures GetEssayVersions(essays, userId, childId).value.versions == GetEssayVersions(essays, userId, rootId).value.versions
  {
  }
}
