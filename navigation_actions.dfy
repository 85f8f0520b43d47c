// The navigation handlers (frontend/src/app/navigationActions.js). They are
// sequences of setter calls on the workspace's UI state; the model keeps that
// state in a class whose methods assign its fields in the same order, and
// states each handler's effect as a transition function on a snapshot of the
// fields, about which the lemmas below are proved.
module NavigationActions {
  import opened Wrappers
  import opened Text
  import opened Seqs
  import opened Records
  import opened Helpers

  /**
   * A snapshot of the UI fields the handlers touch. `composerOpens` counts the
   * calls of the injected `handleOpenNewEssayForm`, whose own effect lies
   * outside this file.
   */
  datatype Ui = Ui(
    profileMenuOpen: bool,
    activeNav: string,
    showForm: bool,
    showApplicationForm: bool,
    editingApplicationId: Option<int>,
    selectedEssay: Option<Essay>,
    review: Option<string>,
    showVersions: bool,
    docsApplicationId: Option<int>,
    selectedApplicationId: Option<int>,
    expandedNavGroups: map<string, bool>,
    applicationSearch: string,
    globalSearch: string,
    composerOpens: nat)

  /** The sections that reset every editor panel. */
  const PanelSections: set<string> :=
    {"deadlines", "requirements", "docs", "notifications", "matrix", "interviews", "research", "share", "admin"}

  /** `resetEditorPanels`: both forms closed, no essay, review or version list. */
  function ResetPanels(s: Ui): Ui
  {
    s.(showForm := false, showApplicationForm := false, editingApplicationId := None,
       selectedEssay := None, review := None, showVersions := false)
  }

  /** The panels `resetEditorPanels` closes are all closed. */
  predicate PanelsReset(s: Ui)
  {
    !s.showForm && !s.showApplicationForm && s.editingApplicationId.None?
    && s.selectedEssay.None? && s.review.None? && !s.showVersions
  }

  /** The effect of `handleNavChange(section)`. */
  function NavChanged(s: Ui, section: string): Ui
  {
    var t := s.(profileMenuOpen := false, activeNav := section);
    if section == "compose" then t.(composerOpens := t.composerOpens + 1)
    else if section == "tracker" then t.(showForm := false, selectedEssay := None, review := None, showVersions := false)
    else if section == "essays" then ResetPanels(t)
    else LaterSectionChanged(t, section)
  }

  /**
   * The remaining branches of `handleNavChange`, on the state in which the
   * section is already recorded: the panel sections, home, settings and
   * profile, and no further change for any other section.
   */
  function LaterSectionChanged(t: Ui, section: string): Ui
  {
    if section in PanelSections then
      var u := if section == "docs" && TruthyId(t.selectedApplicationId)
               then t.(docsApplicationId := t.selectedApplicationId) else t;
      ResetPanels(u)
    else if section == "home" then t.(showApplicationForm := false, editingApplicationId := None, showForm := false)
    else if section == "settings" || section == "profile" then ResetPanels(t)
    else t
  }

  /** Every section change closes the profile menu and records the section. */
  lemma NavChangeSetsSection(s: Ui, section: string)
    ensures !NavChanged(s, section).profileMenuOpen
    ensures NavChanged(s, section).activeNav == section
  {
  }

  /** `compose` only opens the new-essay form, exactly once. */
  lemma ComposeOnlyOpensComposer(s: Ui)
    ensures NavChanged(s, "compose")
         == s.(profileMenuOpen := false, activeNav := "compose", composerOpens := s.composerOpens + 1)
  {
  }

  /** `essays` resets every editor panel and does not open the composer. */
  lemma EssaysResetsPanels(s: Ui)
    ensures PanelsReset(NavChanged(s, "essays"))
    ensures NavChanged(s, "essays").composerOpens == s.composerOpens
    ensures NavChanged(s, "essays").selectedApplicationId == s.selectedApplicationId
  {
  }

  /**
   * The planning, resource and admin sections reset the editor panels; only
   * `docs` with a selected application moves the docs id, to that application.
   */
  lemma PanelSectionsReset(s: Ui, section: string)
    requires section in PanelSections
    ensures PanelsReset(NavChanged(s, section))
    ensures NavChanged(s, section).docsApplicationId
         == if section == "docs" && TruthyId(s.selectedApplicationId) then s.selectedApplicationId
            else s.docsApplicationId
    ensures NavChanged(s, section).selectedApplicationId == s.selectedApplicationId
  {
  }

  /** `tracker` keeps the application form as it was. */
  lemma TrackerKeepsApplicationForm(s: Ui)
    ensures NavChanged(s, "tracker").showApplicationForm == s.showApplicationForm
    ensures NavChanged(s, "tracker").editingApplicationId == s.editingApplicationId
    ensures !NavChanged(s, "tracker").showForm && NavChanged(s, "tracker").selectedEssay.None?
  {
  }

  /** `home` closes both forms but keeps the selected essay and its review. */
  lemma HomeKeepsSelectedEssay(s: Ui)
    ensures var t := NavChanged(s, "home");
      && !t.showForm && !t.showApplicationForm && t.editingApplicationId.None?
      && t.selectedEssay == s.selectedEssay && t.review == s.review && t.showVersions == s.showVersions
  {
  }

  /** Any other section changes nothing but the menu and the section. */
  lemma OtherSectionsOnlyNavigate(s: Ui, section: string)
    requires section !in PanelSections + {"compose", "tracker", "essays", "home", "settings", "profile"}
    ensures NavChanged(s, section) == s.(profileMenuOpen := false, activeNav := section)
  {
  }

  /** `!prev[groupId]`: a missing flag reads as false. */
  predicate Expanded(groups: map<string, bool>, groupId: string)
  {
    groupId in groups && groups[groupId]
  }

  /** The effect of `handleToggleNavGroup(groupId)`. */
  function NavGroupToggled(s: Ui, groupId: string): Ui
  {
    s.(expandedNavGroups := s.expandedNavGroups[groupId := !Expanded(s.expandedNavGroups, groupId)])
  }

  /** Toggling flips exactly one group flag; toggling twice restores whether it is expanded. */
  lemma ToggleFlipsOneGroup(s: Ui, groupId: string)
    ensures var t := NavGroupToggled(s, groupId);
      && Expanded(t.expandedNavGroups, groupId) == !Expanded(s.expandedNavGroups, groupId)
      && (forall g :: g != groupId ==> Expanded(t.expandedNavGroups, g) == Expanded(s.expandedNavGroups, g))
      && t == s.(expandedNavGroups := t.expandedNavGroups)
    ensures forall g :: Expanded(NavGroupToggled(NavGroupToggled(s, groupId), groupId).expandedNavGroups, g)
                     == Expanded(s.expandedNavGroups, g)
  {
  }

  /** The effect of `handleViewAllApplications`. */
  function AllApplicationsViewed(s: Ui): Ui
  {
    s.(selectedApplicationId := None, docsApplicationId := None, selectedEssay := None,
       showForm := false, showApplicationForm := false, activeNav := "tracker")
  }

  /** Viewing all applications clears both selections and lands on the tracker. */
  lemma ViewAllClearsSelection(s: Ui)
    ensures var t := AllApplicationsViewed(s);
      t.selectedApplicationId.None? && t.docsApplicationId.None? && t.activeNav == "tracker"
      && t.editingApplicationId == s.editingApplicationId
  {
  }

  /** The effect of `handleSelectSidebarApplication(applicationId)`. */
  function SidebarApplicationSelected(s: Ui, applicationId: int): Ui
  {
    s.(selectedApplicationId := Some(applicationId), docsApplicationId := Some(applicationId),
       selectedEssay := None, review := None, showVersions := false, showForm := false,
       showApplicationForm := false, editingApplicationId := None, activeNav := "home")
  }

  /** Selecting from the sidebar selects the application for the overview and the checklist, and goes home. */
  lemma SidebarSelectsBoth(s: Ui, applicationId: int)
    ensures var t := SidebarApplicationSelected(s, applicationId);
      && t.selectedApplicationId == Some(applicationId) && t.docsApplicationId == Some(applicationId)
      && t.activeNav == "home" && PanelsReset(t)
  {
  }

  /** The global search's test: the school or the program contains the query, case-insensitively. */
  function MatchesQuery(query: string): Application -> bool
  {
    (a: Application) => Contains(Lower(a.schoolName), query) || Contains(Lower(a.programName), query)
  }

  /** `globalSearch.trim().toLowerCase()`. */
  function SearchQuery(globalSearch: string): (query: string)
    ensures query == "" <==> IsBlank(globalSearch)
  {
    Lower(Trim(globalSearch))
  }

  /** A non-empty query selects its first match, or clears the selection when nothing matches. */
  function MatchSelected(t: Ui, apps: seq<Application>, query: string): Ui
  {
    match FirstIndex(apps, MatchesQuery(query))
    case Some(i) => t.(selectedApplicationId := Some(apps[i].id), docsApplicationId := Some(apps[i].id))
    case None => t.(selectedApplicationId := None)
  }

  /** The effect of `handleGlobalSearch`. */
  function GlobalSearched(s: Ui, apps: seq<Application>): Ui
  {
    var query := SearchQuery(s.globalSearch);
    var t := ResetPanels(s.(applicationSearch := Trim(s.globalSearch)));
    if query == "" then t.(activeNav := "tracker")
    else MatchSelected(t, apps, query).(activeNav := "tracker")
  }

  /** The first application satisfying `p` is the one `FirstIndex` finds. */
  lemma FirstMatchIsFound(apps: seq<Application>, p: Application -> bool, i: nat)
    requires i < |apps| && p(apps[i]) && forall j :: 0 <= j < i ==> !p(apps[j])
    ensures FirstIndex(apps, p) == Some(i)
  {
    var r := FirstIndex(apps, p);
    assert r.Some?;
    assert !(r.value < i) && !(i < r.value);
  }

  /** The search stores the trimmed query, resets the panels and ends on the tracker. */
  lemma GlobalSearchLandsOnTracker(s: Ui, apps: seq<Application>)
    ensures var t := GlobalSearched(s, apps);
      && t.applicationSearch == Trim(s.globalSearch) && t.activeNav == "tracker" && PanelsReset(t)
  {
    var t := ResetPanels(s.(applicationSearch := Trim(s.globalSearch)));
    MatchSelectedOnlySelects(t, apps, SearchQuery(s.globalSearch));
  }

  /** Selecting the first match changes the two selections and nothing else. */
  lemma MatchSelectedOnlySelects(t: Ui, apps: seq<Application>, query: string)
    ensures var u := MatchSelected(t, apps, query);
      u == t.(selectedApplicationId := u.selectedApplicationId, docsApplicationId := u.docsApplicationId)
  {
  }

  /** A blank query leaves both selections alone. */
  lemma BlankSearchKeepsSelection(s: Ui, apps: seq<Application>)
    requires IsBlank(s.globalSearch)
    ensures GlobalSearched(s, apps).selectedApplicationId == s.selectedApplicationId
    ensures GlobalSearched(s, apps).docsApplicationId == s.docsApplicationId
  {
  }

  /**
   * A non-empty query selects the first application whose school or program
   * contains it, for the overview and the checklist alike, and clears the
   * selection when none does.
   */
  lemma GlobalSearchSelectsFirstMatch(s: Ui, apps: seq<Application>)
    requires !IsBlank(s.globalSearch)
    ensures var query := SearchQuery(s.globalSearch);
      GlobalSearched(s, apps).selectedApplicationId.Some? <==>
        exists i :: 0 <= i < |apps| && MatchesQuery(query)(apps[i])
    ensures var query := SearchQuery(s.globalSearch);
      forall i :: 0 <= i < |apps| && MatchesQuery(query)(apps[i])
            && (forall j :: 0 <= j < i ==> !MatchesQuery(query)(apps[j]))
        ==> GlobalSearched(s, apps).selectedApplicationId == Some(apps[i].id)
            && GlobalSearched(s, apps).docsApplicationId == Some(apps[i].id)
  {
    var query := SearchQuery(s.globalSearch);
    forall i | 0 <= i < |apps| && MatchesQuery(query)(apps[i])
        && (forall j :: 0 <= j < i ==> !MatchesQuery(query)(apps[j]))
      ensures FirstIndex(apps, MatchesQuery(query)) == Some(i)
    {
      FirstMatchIsFound(apps, MatchesQuery(query), i);
    }
  }

  /** The UI fields the navigation handlers assign. */
  class Workspace {
    var profileMenuOpen: bool
    var activeNav: string
    var showForm: bool
    var showApplicationForm: bool
    var editingApplicationId: Option<int>
    var selectedEssay: Option<Essay>
    var review: Option<string>
    var showVersions: bool
    var docsApplicationId: Option<int>
    var selectedApplicationId: Option<int>
    var expandedNavGroups: map<string, bool>
    var applicationSearch: string
    var globalSearch: string
    var composerOpens: nat

    function Snapshot(): Ui
      reads this
    {
      Ui(profileMenuOpen, activeNav, showForm, showApplicationForm, editingApplicationId, selectedEssay,
         review, showVersions, docsApplicationId, selectedApplicationId, expandedNavGroups,
         applicationSearch, globalSearch, composerOpens)
    }

    constructor (initial: Ui)
      ensures Snapshot() == initial
    {
      profileMenuOpen := initial.profileMenuOpen;
      activeNav := initial.activeNav;
      showForm := initial.showForm;
      showApplicationForm := initial.showApplicationForm;
      editingApplicationId := initial.editingApplicationId;
      selectedEssay := initial.selectedEssay;
      review := initial.review;
      showVersions := initial.showVersions;
      docsApplicationId := initial.docsApplicationId;
      selectedApplicationId := initial.selectedApplicationId;
      expandedNavGroups := initial.expandedNavGroups;
      applicationSearch := initial.applicationSearch;
      globalSearch := initial.globalSearch;
      composerOpens := initial.composerOpens;
    }

    method ResetEditorPanels()
      modifies this
      ensures Snapshot() == ResetPanels(old(Snapshot()))
    {
      showForm := false;
      showApplicationForm := false;
      editingApplicationId := None;
      selectedEssay := None;
      review := None;
      showVersions := false;
    }

    method HandleNavChange(section: string)
      modifies this
      ensures Snapshot() == NavChanged(old(Snapshot()), section)
    {
      profileMenuOpen := false;
      activeNav := section;
      if section == "compose" {
        composerOpens := composerOpens + 1;
        return;
      }
      if section == "tracker" {
        showForm := false;
        selectedEssay := None;
        review := None;
        showVersions := false;
        return;
      }
      if section == "essays" {
        // the six setters of this branch are those of `resetEditorPanels`
        ResetEditorPanels();
        return;
      }
      HandleLaterSection(section);
    }

    /** The branches of `handleNavChange` after compose, tracker and essays. */
    method HandleLaterSection(section: string)
      modifies this
      ensures Snapshot() == LaterSectionChanged(old(Snapshot()), section)
    {
      if section in PanelSections {
        if section == "docs" && TruthyId(selectedApplicationId) {
          docsApplicationId := selectedApplicationId;
        }
        ResetEditorPanels();
        return;
      }
      if section == "home" {
        showApplicationForm := false;
        editingApplicationId := None;
        showForm := false;
        return;
      }
      if section == "settings" || section == "profile" {
        ResetEditorPanels();
      }
    }

    method HandleToggleNavGroup(groupId: string)
      modifies this
      ensures Snapshot() == NavGroupToggled(old(Snapshot()), groupId)
    {
      expandedNavGroups := expandedNavGroups[groupId := !Expanded(expandedNavGroups, groupId)];
    }

    method HandleViewAllApplications()
      modifies this
      ensures Snapshot() == AllApplicationsViewed(old(Snapshot()))
    {
      selectedApplicationId := None;
      docsApplicationId := None;
      selectedEssay := None;
      showForm := false;
      showApplicationForm := false;
      activeNav := "tracker";
    }

    method HandleSelectSidebarApplication(applicationId: int)
      modifies this
      ensures Snapshot() == SidebarApplicationSelected(old(Snapshot()), applicationId)
    {
      selectedApplicationId := Some(applicationId);
      docsApplicationId := Some(applicationId);
      // the six setters that follow close exactly the panels `resetEditorPanels` closes
      ResetEditorPanels();
      activeNav := "home";
    }

    method HandleGlobalSearch(apps: seq<Application>)
      modifies this
      ensures Snapshot() == GlobalSearched(old(Snapshot()), apps)
    {
      var query := SearchQuery(globalSearch);
      applicationSearch := Trim(globalSearch);
      ResetEditorPanels();
      if query == "" {
        activeNav := "tracker";
        return;
      }
      SelectFirstMatch(apps, query);
      activeNav := "tracker";
    }

    /** The selection step of `handleGlobalSearch` for a non-empty query. */
    method SelectFirstMatch(apps: seq<Application>, query: string)
      modifies this
      ensures Snapshot() == MatchSelected(old(Snapshot()), apps, query)
    {
      var found := FirstIndex(apps, MatchesQuery(query));
      if found.Some? {
        selectedApplicationId := Some(apps[found.value].id);
        docsApplicationId := Some(apps[found.value].id);
      } else {
        selectedApplicationId := None;
      }
    }
  }
}
