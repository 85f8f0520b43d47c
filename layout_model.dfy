// The sidebar groups and the page header (frontend/src/app/layoutModel.js).
// Icons are left out; a group is its id, its name and its items.
module LayoutModel {
  import opened Wrappers
  import opened Text
  import opened Js
  import opened Records

  datatype NavItem = NavItem(id: string, name: string)
  datatype NavGroup = NavGroup(id: string, name: string, items: seq<NavItem>)

  /** `BASE_NAV_GROUPS`: core, planning and resources. */
  function BaseNavGroups(): seq<NavGroup>
  {
    [ NavGroup("core", "Core", [NavItem("home", "Overview"), NavItem("essays", "Essays"),
                                NavItem("tracker", "Applications")]),
      NavGroup("planning", "Planning", [NavItem("deadlines", "Deadlines"), NavItem("requirements", "Requirements"),
                                        NavItem("matrix", "Decision Matrix"), NavItem("interviews", "Interviews")]),
      NavGroup("resources", "Resources", [NavItem("docs", "Documents"), NavItem("research", "Research"),
                                          NavItem("share", "Export & Share")]) ]
  }

  /** The group only administrators see. */
  function AdminNavGroup(): NavGroup
  {
    NavGroup("admin", "Admin", [NavItem("admin", "Pilot Admin")])
  }

  /** `(user?.role || '').toLowerCase() === 'admin'`; `None` for no user or no role. */
  predicate IsAdminRole(role: Option<string>)
  {
    Lower(OrElse(role.GetOr(""), "")) == "admin"
  }

  /** `resolveNavGroups`: the base groups, followed by the admin group for administrators. */
  function ResolveNavGroups(role: Option<string>): (groups: seq<NavGroup>)
    ensures !IsAdminRole(role) ==> groups == BaseNavGroups()
    ensures IsAdminRole(role) ==> groups == BaseNavGroups() + [AdminNavGroup()]
  {
    if IsAdminRole(role) then BaseNavGroups() + [AdminNavGroup()] else BaseNavGroups()
  }

  /** Administrators see one more group than everyone else, and only that group is new. */
  lemma NavGroupsByRole(role: Option<string>)
    ensures |ResolveNavGroups(role)| == if IsAdminRole(role) then 4 else 3
    ensures ResolveNavGroups(role)[..3] == BaseNavGroups()
    ensures forall i :: 0 <= i < |ResolveNavGroups(role)| ==> ResolveNavGroups(role)[i].id != "admin" || i == 3
  {
  }

  /** The role is compared without regard to case. */
  lemma AdminRoleIgnoresCase()
    ensures IsAdminRole(Some("ADMIN")) && IsAdminRole(Some("Admin")) && !IsAdminRole(None)
  {
    assert Lower("ADMIN") == "admin";
    assert Lower("Admin") == "admin";
    assert Lower("") == "";
  }

  /** A spelling of `admin` in any mix of ASCII upper and lower case. */
  predicate AdminSpelling(role: string)
  {
    |role| == 5 && forall i :: 0 <= i < 5 ==> role[i] == "admin"[i] || role[i] == "ADMIN"[i]
  }

  /** A stored role makes an administrator exactly when it spells `admin` in some case. */
  lemma AdminRoleAnyCase(role: string)
    ensures IsAdminRole(Some(role)) <==> AdminSpelling(role)
  {
    var low := Lower(OrElse(role, ""));
    if AdminSpelling(role) {
      assert OrElse(role, "") == role;
      assert forall i :: 0 <= i < 5 ==> low[i] == "admin"[i];
      assert low == "admin";
    }
  }

  /** A page's heading and subtitle. */
  datatype Header = Header(heading: string, subtitle: string)

  const DefaultHeader: Header := Header("Build your next chapter", "Master's Application Command Center")

  /** The sections with a heading of their own; they win over any selection. */
  const HeaderSections: set<string> :=
    {"compose", "essays", "tracker", "deadlines", "notifications", "requirements", "matrix",
     "interviews", "research", "share", "docs", "profile", "settings", "admin"}

  /** The fixed headers of the sections whose header depends on nothing else. */
  function SectionHeader(activeNav: string): Header
    requires activeNav in HeaderSections - {"compose", "docs"}
  {
    if activeNav == "essays" then Header("Essay Library", "Browse existing drafts and open one to edit or review")
    else if activeNav == "tracker" then Header("Application Portfolio", "Manage schools, deadlines, fees, and requirements")
    else if activeNav == "deadlines" then Header("Deadlines Radar", "Prioritize upcoming deadlines across your target schools")
    else if activeNav == "notifications" then Header("Notification Center", "Stay on top of deadlines, readiness gaps, and interview tasks")
    else if activeNav == "requirements" then Header("Requirements Tracker", "Monitor essays, recommendations, and application completeness")
    else if activeNav == "matrix" then Header("Decision Matrix", "Rank schools using weighted readiness, deadlines, costs, and outcomes")
    else if activeNav == "interviews" then Header("Interview Prep Workspace", "Prepare stories, mock notes, and schedules for interview rounds")
    else if activeNav == "research" then Header("School Research Cards", "Capture program fit, outcomes, funding notes, and key links")
    else if activeNav == "share" then Header("Export & Share", "Export a summary, CSV, or calendar file to share your progress")
    else if activeNav == "profile" then Header("Profile", "Manage your account identity, admissions focus, and contact details")
    else if activeNav == "settings" then Header("Settings", "Control account, accessibility, and workflow preferences")
    else Header("Pilot Admin Panel", "Monitor activity, feedback, and usage signals during local and pilot runs")
  }

  /** The compose header: the selected application's school and program, when there is one. */
  function ComposeHeader(selectedApplication: Option<Application>): Header
  {
    match selectedApplication
    case Some(app) => Header("Essay Draft: " + app.schoolName, app.programName + " application essay workspace")
    case None => Header("Create a New Essay", "Write and save a new draft for your applications")
  }

  /** The documents header: the subtitle names the active checklist's school, when there is one. */
  function DocsHeader(activeDocsApplication: Option<Application>): Header
  {
    match activeDocsApplication
    case Some(app) => Header("Document Center", "Document checklist for " + app.schoolName)
    case None => Header("Document Center", "Keep core application documents organized and submission-ready")
  }

  /** `resolvePageHeader`: outside the sections with a heading of their own, the default header shows exactly when nothing is selected. */
  function ResolvePageHeader(activeNav: string, selectedApplication: Option<Application>,
                             selectedEssay: Option<Essay>, activeDocsApplication: Option<Application>): (r: Header)
    ensures activeNav !in HeaderSections ==> (r == DefaultHeader <==> selectedEssay.None? && selectedApplication.None?)
  {
    if activeNav == "compose" then ComposeHeader(selectedApplication)
    else if activeNav == "docs" then DocsHeader(activeDocsApplication)
    else if activeNav in HeaderSections then SectionHeader(activeNav)
    else if selectedEssay.Some? then
      SuffixedHeading(selectedEssay.value.schoolName, " Essay");
      Header(selectedEssay.value.schoolName + " Essay", selectedEssay.value.programType + " essay review and version history")
    else if selectedApplication.Some? then
      SuffixedHeading(selectedApplication.value.schoolName, " Workspace");
      Header(selectedApplication.value.schoolName + " Workspace",
             selectedApplication.value.programName + " application tasks, essays, and progress")
    else DefaultHeader
  }

  /** A heading that ends in something other than `r` is not the default one. */
  lemma SuffixedHeading(name: string, suffix: string)
    requires |suffix| > 0 && suffix[|suffix| - 1] != 'r'
    ensures name + suffix != DefaultHeader.heading
  {
    assert (name + suffix)[|name + suffix| - 1] == suffix[|suffix| - 1];
    assert DefaultHeader.heading[|DefaultHeader.heading| - 1] == 'r';
  }

  /**
   * Header priority: a section with its own heading ignores the selected
   * essay; outside those sections the selected essay wins over the selected
   * application, which wins over the default.
   */
  lemma HeaderPriority(activeNav: string, app: Option<Application>, essay: Option<Essay>, docsApp: Option<Application>)
    ensures activeNav in HeaderSections ==>
      ResolvePageHeader(activeNav, app, essay, docsApp) == ResolvePageHeader(activeNav, app, None, docsApp)
    ensures activeNav in HeaderSections - {"compose", "docs"} ==>
      ResolvePageHeader(activeNav, app, essay, docsApp) == ResolvePageHeader(activeNav, None, None, None)
    ensures activeNav !in HeaderSections && essay.Some? ==>
      ResolvePageHeader(activeNav, app, essay, docsApp).heading == essay.value.schoolName + " Essay"
    ensures activeNav !in HeaderSections && essay.None? && app.Some? ==>
      ResolvePageHeader(activeNav, app, essay, docsApp).heading == app.value.schoolName + " Workspace"
    ensures activeNav !in HeaderSections && essay.None? && app.None? ==>
      ResolvePageHeader(activeNav, app, essay, docsApp) == DefaultHeader
  {
  }

  /** The compose heading names the selected application's school, and the docs subtitle the checklist's. */
  lemma HeaderNamesSchools(app: Application, essay: Option<Essay>, docsApp: Application)
    ensures ResolvePageHeader("compose", Some(app), essay, None).heading == "Essay Draft: " + app.schoolName
    ensures ResolvePageHeader("docs", None, essay, Some(docsApp)).subtitle == "Document checklist for " + docsApp.schoolName
  {
  }
}
