// The values the workspace hook derives from state on every render
// (frontend/src/app/hooks/useWorkspaceComputed.js): reminder markers, the
// notifications still shown, the version-diff selection and its summary,
// which application an essay belongs to, the sidebar preview and the
// application the document checklist shows.
module WorkspaceComputed {
  import opened Wrappers
  import opened Text
  import opened Js
  import opened Seqs
  import opened Records
  import opened Helpers
  import opened Derived

  // ---------------------------------------------------------------------
  // Reminder markers
  // ---------------------------------------------------------------------

  const DefaultReminderDays: string := "30,14,7,1"

  /** `.map(day => Number(day.trim()))`. */
  function ReadNumbers(pieces: seq<string>): (r: seq<Num>)
    ensures |r| == |pieces|
    ensures forall i :: 0 <= i < |pieces| ==> r[i] == ToNumber(Trim(pieces[i]))
  {
    seq(|pieces|, i requires 0 <= i < |pieces| => ToNumber(Trim(pieces[i])))
  }

  /** `.filter(day => Number.isFinite(day) && day >= 0)`. */
  function MarkerValues(nums: seq<Num>): (r: seq<real>)
    ensures |r| <= |nums|
    ensures forall k :: 0 <= k < |r| ==> r[k] >= 0.0
    decreases |nums|
  {
    if nums == [] then []
    else
      var rest := MarkerValues(nums[1..]);
      match nums[0]
      case Finite(v) => if v >= 0.0 then [v] + rest else rest
      case NaN => rest
  }

  /** A marker is kept exactly when some piece reads as that non-negative number. */
  lemma {:induction false} MarkerValuesMembers(nums: seq<Num>, v: real)
    ensures v in MarkerValues(nums) <==> v >= 0.0 && Finite(v) in nums
    decreases |nums|
  {
    if nums != [] {
      MarkerValuesMembers(nums[1..], v);
      assert nums == [nums[0]] + nums[1..];
    }
  }

  /** `reminderDayMarkers`: the comma-separated preference, `30,14,7,1` when it is empty. */
  function ReminderMarkers(preference: string): (r: seq<real>)
    ensures forall k :: 0 <= k < |r| ==> r[k] >= 0.0
    ensures |r| <= 1 + multiset(OrElse(preference, DefaultReminderDays))[',']
  {
    var pieces := Split(OrElse(preference, DefaultReminderDays), ',');
    SplitCount(OrElse(preference, DefaultReminderDays), ',');
    MarkerValues(ReadNumbers(pieces))
  }

  /** The markers are exactly the non-negative numbers among the pieces. */
  lemma ReminderMarkersMembers(preference: string, v: real)
    ensures v in ReminderMarkers(preference)
        <==> v >= 0.0 && Finite(v) in ReadNumbers(Split(OrElse(preference, DefaultReminderDays), ','))
  {
    MarkerValuesMembers(ReadNumbers(Split(OrElse(preference, DefaultReminderDays), ',')), v);
  }

  /** An empty preference behaves as `30,14,7,1`. */
  lemma ReminderMarkersFallback()
    ensures ReminderMarkers("") == ReminderMarkers(DefaultReminderDays)
  {
  }

  /** A blank piece such as the middle of `7,,1` reads as 0, so day 0 becomes a marker. */
  lemma BlankPieceIsDayZero(preference: string, i: nat)
    requires i < |Split(OrElse(preference, DefaultReminderDays), ',')|
    requires IsBlank(Split(OrElse(preference, DefaultReminderDays), ',')[i])
    ensures 0.0 in ReminderMarkers(preference)
  {
    var pieces := Split(OrElse(preference, DefaultReminderDays), ',');
    var t := Trim(pieces[i]);
    TrimIdempotent(pieces[i]);
    assert IsBlank(t);
    assert ReadNumbers(pieces)[i] == Finite(0.0);
    ReminderMarkersMembers(preference, 0.0);
  }

  lemma SplitDefaultDays()
    ensures Split(DefaultReminderDays, ',') == ["30", "14", "7", "1"]
  {
    SplitLastThreeDays();
    SplitAround("30", "14,7,1", ',');
    assert DefaultReminderDays == "30" + [','] + "14,7,1";
  }

  lemma SplitLastThreeDays()
    ensures Split("14,7,1", ',') == ["14", "7", "1"]
  {
    SplitLastTwoDays();
    SplitAround("14", "7,1", ',');
    assert "14,7,1" == "14" + [','] + "7,1";
  }

  lemma SplitLastTwoDays()
    ensures Split("7,1", ',') == ["7", "1"]
  {
    SplitNoSep("1", ',');
    SplitAround("7", "1", ',');
    assert "7,1" == "7" + [','] + "1";
  }

  lemma ToNumberLiteral(s: string, n: nat)
    requires s == NatToString(n)
    ensures ToNumber(Trim(s)) == Finite(n as real)
  {
    NatToStringTrimmed(n);
    ToNumberOfNat(n);
  }

  /** The decimal forms of a list of numbers. */
  function NatStrings(ns: seq<nat>): (r: seq<string>)
    ensures |r| == |ns|
    ensures forall i :: 0 <= i < |ns| ==> r[i] == NatToString(ns[i])
    decreases |ns|
  {
    if ns == [] then [] else [NatToString(ns[0])] + NatStrings(ns[1..])
  }

  /** Whole numbers as the JavaScript numbers they read as. */
  function AsReals(ns: seq<nat>): (r: seq<real>)
    ensures |r| == |ns| && forall i :: 0 <= i < |ns| ==> r[i] == ns[i] as real
    decreases |ns|
  {
    if ns == [] then [] else [ns[0] as real] + AsReals(ns[1..])
  }

  /** Finite non-negative numbers are all kept, in order. */
  lemma {:induction false} MarkersOfFinite(nums: seq<Num>, ns: seq<nat>)
    requires |nums| == |ns|
    requires forall i :: 0 <= i < |ns| ==> nums[i] == Finite(ns[i] as real)
    ensures MarkerValues(nums) == AsReals(ns)
    decreases |ns|
  {
    if ns != [] {
      MarkersOfFinite(nums[1..], ns[1..]);
      assert nums[0] == Finite(ns[0] as real);
    }
  }

  /** Pieces that are rendered natural numbers read back as those numbers, in order. */
  lemma MarkersOfNumbers(ns: seq<nat>)
    ensures MarkerValues(ReadNumbers(NatStrings(ns))) == AsReals(ns)
  {
    var pieces := NatStrings(ns);
    var nums := ReadNumbers(pieces);
    forall i | 0 <= i < |ns|
      ensures nums[i] == Finite(ns[i] as real)
    {
      ToNumberLiteral(pieces[i], ns[i]);
    }
    MarkersOfFinite(nums, ns);
  }

  lemma DefaultDayStrings()
    ensures NatStrings([30, 14, 7, 1]) == ["30", "14", "7", "1"]
  {
    var ns: seq<nat> := [30, 14, 7, 1];
    assert ns[1..] == [14, 7, 1] && ns[1..][1..] == [7, 1] && ns[1..][1..][1..] == [1];
    assert NatToString(30) == "30" && NatToString(14) == "14";
  }

  /** Without a preference the markers are 30, 14, 7 and 1 days. */
  lemma ReminderMarkersDefault(preference: string)
    requires preference == ""
    ensures ReminderMarkers(preference) == [30.0, 14.0, 7.0, 1.0]
  {
    var ns: seq<nat> := [30, 14, 7, 1];
    DefaultMarkers(preference, ns);
    DefaultAsReals(ns);
  }

  lemma DefaultAsReals(ns: seq<nat>)
    requires ns == [30, 14, 7, 1]
    ensures AsReals(ns) == [30.0, 14.0, 7.0, 1.0]
  {
    assert ns[1..] == [14, 7, 1] && ns[1..][1..] == [7, 1] && ns[1..][1..][1..] == [1];
  }

  lemma DefaultMarkers(preference: string, ns: seq<nat>)
    requires preference == "" && ns == [30, 14, 7, 1]
    ensures ReminderMarkers(preference) == AsReals(ns)
  {
    DefaultPieces(preference, ns);
    MarkersOfNumbers(ns);
  }

  lemma DefaultPieces(preference: string, ns: seq<nat>)
    requires preference == "" && ns == [30, 14, 7, 1]
    ensures Split(OrElse(preference, DefaultReminderDays), ',') == NatStrings(ns)
  {
    SplitDefaultDays();
    DefaultDayStrings();
  }

  // ---------------------------------------------------------------------
  // Active notifications
  // ---------------------------------------------------------------------

  /** `dismissedNotifications[id]` is truthy. */
  predicate Dismissed(dismissed: map<string, bool>, id: string)
  {
    id in dismissed && dismissed[id]
  }

  function NotDismissed(dismissed: map<string, bool>): Notice -> bool
  {
    (n: Notice) => !Dismissed(dismissed, n.id)
  }

  /** `activeNotifications`: the generated notices whose id is not dismissed, in order. */
  function ActiveNotifications(generated: seq<Notice>, dismissed: map<string, bool>): (r: seq<Notice>)
    ensures |r| <= |generated|
    ensures forall n :: n in r <==> n in generated && !Dismissed(dismissed, n.id)
    ensures IsSubsequence(r, generated)
    ensures forall n :: multiset(r)[n] == if Dismissed(dismissed, n.id) then 0 else multiset(generated)[n]
  {
    FilterMembers(generated, NotDismissed(dismissed));
    FilterExact(generated, NotDismissed(dismissed));
    Filter(generated, NotDismissed(dismissed))
  }

  /** `notificationCount`: the badge shows how many notices are still active. */
  function NotificationCount(generated: seq<Notice>, dismissed: map<string, bool>): (n: nat)
    ensures n == |ActiveNotifications(generated, dismissed)|
    ensures n <= |generated|
  {
    |ActiveNotifications(generated, dismissed)|
  }

  /**
   * Dismissing one id hides exactly the notices with that id and leaves the
   * others active, in the same order.
   */
  lemma DismissOne(generated: seq<Notice>, dismissed: map<string, bool>, id: string)
    ensures ActiveNotifications(generated, dismissed[id := true])
         == Filter(ActiveNotifications(generated, dismissed), OtherId(id))
  {
    FilterFilter(generated, OtherId(id), NotDismissed(dismissed));
    FilterExtensional(generated, NotDismissed(dismissed[id := true]), Both(OtherId(id), NotDismissed(dismissed)));
  }

  function OtherId(id: string): Notice -> bool
  {
    (n: Notice) => n.id != id
  }

  /** With nothing dismissed every generated notice is active. */
  lemma NothingDismissed(generated: seq<Notice>)
    ensures ActiveNotifications(generated, map[]) == generated
  {
    FilterAll(generated, NotDismissed(map[]));
  }

  // ---------------------------------------------------------------------
  // Version diff selection
  // ---------------------------------------------------------------------

  /** Which two versions the user picked; "" means no choice. */
  datatype DiffSelection = DiffSelection(base: string, compare: string)

  /** `versionOptionRows[i]?.__identity || ''`. */
  function IdentityAt(versions: seq<Essay>, i: nat): (r: string)
    ensures i < |versions| ==> r == VersionIdentity(versions[i], i)
    ensures i >= |versions| ==> r == ""
  {
    if i < |versions| then VersionIdentity(versions[i], i) else ""
  }

  /** The compare side defaults to the first version. */
  function FallbackCompare(versions: seq<Essay>): string
  {
    IdentityAt(versions, 0)
  }

  /** The base side defaults to the second version, else to the compare default. */
  function FallbackBase(versions: seq<Essay>): (r: string)
    ensures |versions| >= 2 ==> r == VersionIdentity(versions[1], 1)
    ensures |versions| < 2 ==> r == FallbackCompare(versions)
  {
    OrElse(IdentityAt(versions, 1), FallbackCompare(versions))
  }

  function HasIdentity(versions: seq<Essay>, id: string): nat -> bool
  {
    (i: nat) => i < |versions| && VersionIdentity(versions[i], i) == id
  }

  /** `versionOptionRows.find(v => v.__identity === id)`: the first version with that identity. */
  function FindVersion(versions: seq<Essay>, id: string): (r: Option<Essay>)
    ensures r.Some? <==> exists i :: 0 <= i < |versions| && VersionIdentity(versions[i], i) == id
    ensures r.Some? ==> exists i :: 0 <= i < |versions| && VersionIdentity(versions[i], i) == id && r.value == versions[i]
                                    && forall j :: 0 <= j < i ==> VersionIdentity(versions[j], j) != id
  {
    FindVersionFrom(versions, id, 0)
  }

  function FindVersionFrom(versions: seq<Essay>, id: string, start: nat): (r: Option<Essay>)
    requires start <= |versions|
    requires forall j :: 0 <= j < start ==> VersionIdentity(versions[j], j) != id
    ensures r.Some? <==> exists i :: start <= i < |versions| && VersionIdentity(versions[i], i) == id
    ensures r.Some? ==> exists i :: start <= i < |versions| && VersionIdentity(versions[i], i) == id && r.value == versions[i]
                                    && forall j :: 0 <= j < i ==> VersionIdentity(versions[j], j) != id
    decreases |versions| - start
  {
    if start == |versions| then None
    else if VersionIdentity(versions[start], start) == id then Some(versions[start])
    else FindVersionFrom(versions, id, start + 1)
  }

  /** The versions the diff compares, when both are found. */
  function DiffSides(versions: seq<Essay>, selection: DiffSelection): (Option<Essay>, Option<Essay>)
  {
    (FindVersion(versions, OrElse(selection.base, FallbackBase(versions))),
     FindVersion(versions, OrElse(selection.compare, FallbackCompare(versions))))
  }

  /** `versionDiffRows`: the line diff of the two chosen versions, nothing when either is missing. */
  function SelectedDiffRows(versions: seq<Essay>, selection: DiffSelection): (r: seq<DiffRow>)
    ensures DiffSides(versions, selection).0.None? || DiffSides(versions, selection).1.None? ==> r == []
    ensures DiffSides(versions, selection).0.Some? && DiffSides(versions, selection).1.Some? ==>
              r == DiffRows(DiffSides(versions, selection).0.value.essayContent, DiffSides(versions, selection).1.value.essayContent)
  {
    var (b, c) := DiffSides(versions, selection);
    if b.Some? && c.Some? then DiffRows(b.value.essayContent, c.value.essayContent) else []
  }

  /** No versions, no diff. */
  lemma NoVersionsNoDiff(selection: DiffSelection)
    ensures SelectedDiffRows([], selection) == []
  {
  }

  /**
   * With no choice made and two versions of distinct identity, the diff
   * shows the changes from the second version to the first.
   */
  lemma DefaultDiffSelection(versions: seq<Essay>)
    requires |versions| >= 2
    requires VersionIdentity(versions[0], 0) != VersionIdentity(versions[1], 1)
    ensures SelectedDiffRows(versions, DiffSelection("", "")) == DiffRows(versions[1].essayContent, versions[0].essayContent)
  {
    var sel := DiffSelection("", "");
    var bId, cId := VersionIdentity(versions[1], 1), VersionIdentity(versions[0], 0);
    var b := FindVersion(versions, bId);
    var c := FindVersion(versions, cId);
    assert FallbackBase(versions) == bId;
    assert c.Some? && c.value == versions[0];
    assert b.Some?;
    var i :| 0 <= i < |versions| && VersionIdentity(versions[i], i) == bId && b.value == versions[i]
             && forall j :: 0 <= j < i ==> VersionIdentity(versions[j], j) != bId;
    assert i <= 1;
  }

  /** A single version is compared with itself: every row is unchanged. */
  lemma SingleVersionDiff(v: Essay)
    ensures forall k :: 0 <= k < |SelectedDiffRows([v], DiffSelection("", ""))| ==>
              SelectedDiffRows([v], DiffSelection("", ""))[k].kind == Same
  {
    var id := VersionIdentity(v, 0);
    assert FindVersion([v], id) == Some(v);
    assert FallbackBase([v]) == id;
    DiffOfIdenticalTexts(v.essayContent);
  }

  /** `versionDiffSummary`: how many rows were added, removed and changed. */
  datatype DiffSummary = DiffSummary(added: nat, removed: nat, changed: nat)

  predicate IsAdded(row: DiffRow) { row.kind == Added }
  predicate IsRemoved(row: DiffRow) { row.kind == Removed }
  predicate IsChanged(row: DiffRow) { row.kind == Changed }
  predicate IsSame(row: DiffRow) { row.kind == Same }

  /** The reduce over the rows: one count per kind, `same` rows ignored. */
  function SummarizeDiff(rows: seq<DiffRow>): (r: DiffSummary)
    ensures r.added == Count(rows, IsAdded) && r.removed == Count(rows, IsRemoved) && r.changed == Count(rows, IsChanged)
    decreases |rows|
  {
    if rows == [] then DiffSummary(0, 0, 0)
    else
      var rest := SummarizeDiff(rows[1..]);
      var row := rows[0];
      DiffSummary(rest.added + (if row.kind == Added then 1 else 0),
                  rest.removed + (if row.kind == Removed then 1 else 0),
                  rest.changed + (if row.kind == Changed then 1 else 0))
  }

  /** The counted rows and the unchanged rows together are all the rows. */
  lemma {:induction false} SummarizeDiffTotal(rows: seq<DiffRow>)
    ensures SummarizeDiff(rows).added + SummarizeDiff(rows).removed + SummarizeDiff(rows).changed + Count(rows, IsSame) == |rows|
    decreases |rows|
  {
    if rows != [] {
      SummarizeDiffTotal(rows[1..]);
    }
  }

  /** Comparing a text with itself counts nothing. */
  lemma SummaryOfIdenticalTexts(text: string)
    ensures SummarizeDiff(DiffRows(text, text)) == DiffSummary(0, 0, 0)
  {
    var rows := DiffRows(text, text);
    DiffOfIdenticalTexts(text);
    FilterNone(rows, IsAdded);
    FilterNone(rows, IsRemoved);
    FilterNone(rows, IsChanged);
  }

  // ---------------------------------------------------------------------
  // Essays and applications
  // ---------------------------------------------------------------------

  /** An application with the same trimmed, lower-cased school and program as the essay. */
  function SameProgram(essay: Essay): Application -> bool
  {
    (app: Application) => Key(app.schoolName) == Key(essay.schoolName) && Key(app.programName) == Key(essay.programType)
  }

  /**
   * `resolveEssayApplicationIdLocal`: the essay's own link when it is set,
   * otherwise the id of the first application for the same school and
   * program (when that id is truthy), otherwise nothing.
   */
  function ResolveEssayApplicationId(essay: Essay, apps: seq<Application>): (r: Option<int>)
    ensures TruthyId(essay.applicationId) ==> r == essay.applicationId
    ensures !TruthyId(essay.applicationId) && r.Some? ==>
              exists i :: 0 <= i < |apps| && SameProgram(essay)(apps[i]) && r.value == apps[i].id && r.value != 0
                          && forall j :: 0 <= j < i ==> !SameProgram(essay)(apps[j])
    ensures !TruthyId(essay.applicationId) && (forall i :: 0 <= i < |apps| ==> !SameProgram(essay)(apps[i])) ==> r.None?
    ensures !TruthyId(essay.applicationId) && FirstIndex(apps, SameProgram(essay)).Some? ==>
              var i := FirstIndex(apps, SameProgram(essay)).value;
              r == if apps[i].id != 0 then Some(apps[i].id) else None
  {
    if TruthyId(essay.applicationId) then essay.applicationId
    else match FirstIndex(apps, SameProgram(essay))
      case None => None
      case Some(i) => if apps[i].id != 0 then Some(apps[i].id) else None
  }

  /** `selectedApplication`: the application whose id is the selected one. */
  function SelectedApplication(apps: seq<Application>, selectedId: Option<int>): (r: Option<Application>)
    ensures r.Some? ==> r.value in apps && Some(r.value.id) == selectedId
    ensures r.None? <==> forall i :: 0 <= i < |apps| ==> Some(apps[i].id) != selectedId
  {
    match FirstIndex(apps, (a: Application) => Some(a.id) == selectedId)
    case None => None
    case Some(i) => Some(apps[i])
  }

  /** `essaysForSelectedApplication`: every essay without a selection, otherwise the matching ones. */
  function EssaysForSelectedApplication(essays: seq<Essay>, apps: seq<Application>, selectedId: Option<int>): (r: seq<Essay>)
    ensures SelectedApplication(apps, selectedId).None? ==> r == essays
    ensures SelectedApplication(apps, selectedId).Some? ==>
              forall e :: e in r <==> e in essays && EssayMatches(SelectedApplication(apps, selectedId).value, e)
    ensures IsSubsequence(r, essays)
    ensures SelectedApplication(apps, selectedId).Some? ==>
              forall e :: multiset(r)[e]
                == if EssayMatches(SelectedApplication(apps, selectedId).value, e) then multiset(essays)[e] else 0
  {
    match SelectedApplication(apps, selectedId)
    case None => IsSubsequenceRefl(essays); essays
    case Some(app) =>
      FilterMembers(essays, e => EssayMatches(app, e));
      FilterExact(essays, e => EssayMatches(app, e));
      Filter(essays, e => EssayMatches(app, e))
  }

  // ---------------------------------------------------------------------
  // Sidebar and document scope
  // ---------------------------------------------------------------------

  const SidebarPreviewLimit: nat := 4

  /** The sidebar list: the search results while the search is not blank, else every application. */
  function SidebarApplications(apps: seq<Application>, search: string): (r: seq<Application>)
    ensures IsBlank(search) ==> r == apps
    ensures !IsBlank(search) ==> r == FilterApplications(apps, search)
  {
    if !IsBlank(search) then FilterApplications(apps, search) else apps
  }

  /** The first four applications of the list, and whether more are hidden. */
  function SidebarPreview(apps: seq<Application>, search: string): (r: (seq<Application>, bool))
    ensures |r.0| == if |SidebarApplications(apps, search)| < 4 then |SidebarApplications(apps, search)| else 4
    ensures r.0 == SidebarApplications(apps, search)[..|r.0|]
    ensures r.1 <==> |r.0| < |SidebarApplications(apps, search)|
  {
    var list := SidebarApplications(apps, search);
    var shown := Take(list, SidebarPreviewLimit);
    assert shown == list[..|shown|];
    (shown, |list| > SidebarPreviewLimit)
  }

  /**
   * `activeDocsApplicationId`: the docs view's own choice, else the
   * selected application, else the first application, else nothing
   * (an id of 0 counts as no choice at every step).
   */
  function ActiveDocsApplicationId(docsId: Option<int>, selectedId: Option<int>, apps: seq<Application>): (r: Option<int>)
    ensures TruthyId(docsId) ==> r == docsId
    ensures !TruthyId(docsId) && TruthyId(selectedId) ==> r == selectedId
    ensures !TruthyId(docsId) && !TruthyId(selectedId) ==>
              r == (if |apps| > 0 && apps[0].id != 0 then Some(apps[0].id) else None)
    ensures r.Some? ==> r.value != 0
  {
    if TruthyId(docsId) then docsId
    else if TruthyId(selectedId) then selectedId
    else if |apps| > 0 && apps[0].id != 0 then Some(apps[0].id)
    else None
  }

  /** `activeDocsMap`: the checklist entries of the active scope, empty when there are none. */
  function ActiveDocsMap(docs: DocsByScope, docsId: Option<int>, selectedId: Option<int>, apps: seq<Application>): (m: map<string, Fields>)
    ensures DocScopeKey(ActiveDocsApplicationId(docsId, selectedId, apps)) in docs ==>
              m == docs[DocScopeKey(ActiveDocsApplicationId(docsId, selectedId, apps))]
    ensures DocScopeKey(ActiveDocsApplicationId(docsId, selectedId, apps)) !in docs ==> m == map[]
  {
    ScopeOf(docs, DocScopeKey(ActiveDocsApplicationId(docsId, selectedId, apps)))
  }

  /** Without any application or choice the checklist is the global one. */
  lemma ActiveDocsGlobal(docs: DocsByScope)
    ensures ActiveDocsMap(docs, None, None, []) == ScopeOf(docs, GlobalScope)
  {
  }
}
