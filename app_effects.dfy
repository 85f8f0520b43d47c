// The decisions the workspace effects make (frontend/src/app/hooks/useAppEffects.js):
// which sidebar groups open for a section, how stale selections are repaired,
// how the global document checklist is copied into applications that have
// none, and whether a form draft is stored or removed. The storage writes,
// timers and DOM listeners are not part of this model.
module AppEffects {
  import opened Wrappers
  import opened Records
  import opened Helpers
  import opened NavigationActions
  import opened LayoutModel
  import opened EssayApplicationActions
  import opened Drafts

  // ---------------------------------------------------------------------
  // Sidebar group expansion
  // ---------------------------------------------------------------------

  const CoreSections: set<string> := {"home", "compose", "essays", "tracker", "notifications"}
  const PlanningSections: set<string> := {"deadlines", "requirements", "matrix", "interviews"}
  const ResourceSections: set<string> := {"docs", "research", "share"}

  /** The updater of the expansion effect: open the group of the active section. */
  function ExpandNavGroups(prev: map<string, bool>, activeNav: string): (next: map<string, bool>)
    ensures forall g :: Expanded(prev, g) ==> Expanded(next, g)
    ensures forall g :: g in next && (g !in prev || next[g] != prev[g]) ==> next[g]
    ensures activeNav in CoreSections ==> Expanded(next, "core")
    ensures activeNav in PlanningSections ==> Expanded(next, "planning")
    ensures activeNav in ResourceSections ==> Expanded(next, "resources")
    ensures forall g :: !(g == "core" && activeNav in CoreSections) && !(g == "planning" && activeNav in PlanningSections)
                        && !(g == "resources" && activeNav in ResourceSections) ==>
                          (g in next <==> g in prev) && (g in prev ==> next[g] == prev[g])
    ensures activeNav !in CoreSections + PlanningSections + ResourceSections ==> next == prev
  {
    var a := if activeNav in CoreSections then prev["core" := true] else prev;
    var b := if activeNav in PlanningSections then a["planning" := true] else a;
    if activeNav in ResourceSections then b["resources" := true] else b
  }

  /** Expanding only ever opens groups and is idempotent. */
  lemma ExpandNavGroupsIdempotent(prev: map<string, bool>, activeNav: string)
    ensures ExpandNavGroups(ExpandNavGroups(prev, activeNav), activeNav) == ExpandNavGroups(prev, activeNav)
  {
  }

  /** Visiting any item of a sidebar group opens that group. */
  lemma VisitingItemOpensItsGroup(prev: map<string, bool>, g: nat, i: nat)
    requires g < |BaseNavGroups()| && i < |BaseNavGroups()[g].items|
    ensures Expanded(ExpandNavGroups(prev, BaseNavGroups()[g].items[i].id), BaseNavGroups()[g].id)
  {
  }

  // ---------------------------------------------------------------------
  // Selection repair
  // ---------------------------------------------------------------------

  /** `applications.some(application => application.id === id)`. */
  predicate Listed(apps: seq<Application>, id: int)
  {
    exists a :: a in apps && a.id == id
  }

  /** The selected application after the repair effect. */
  function RepairSelectedApplication(selected: Option<int>, apps: seq<Application>): (r: Option<int>)
    ensures r != selected <==> TruthyId(selected) && !Listed(apps, selected.value)
    ensures r != selected ==> r.None?
  {
    if TruthyId(selected) && !Listed(apps, selected.value) then None else selected
  }

  /** The application the document checklist shows after the repair effect. */
  function RepairDocsApplication(docsId: Option<int>, apps: seq<Application>): (r: Option<int>)
    ensures apps == [] ==> r.None?
    ensures apps != [] && (!TruthyId(docsId) || !Listed(apps, docsId.value)) ==> r == Some(apps[0].id)
    ensures apps != [] && TruthyId(docsId) && Listed(apps, docsId.value) ==> r == docsId
  {
    if apps == [] then None
    else if !TruthyId(docsId) || !Listed(apps, docsId.value) then Some(apps[0].id)
    else docsId
  }

  /** Repaired selections point at a listed application (or nowhere), and repairing again changes nothing. */
  lemma RepairsAreStable(selected: Option<int>, docsId: Option<int>, apps: seq<Application>)
    ensures var s := RepairSelectedApplication(selected, apps);
      TruthyId(s) ==> Listed(apps, s.value)
    ensures var d := RepairDocsApplication(docsId, apps);
      d.Some? ==> Listed(apps, d.value)
    ensures RepairSelectedApplication(RepairSelectedApplication(selected, apps), apps)
         == RepairSelectedApplication(selected, apps)
    ensures var d := RepairDocsApplication(docsId, apps);
      TruthyId(d) ==> RepairDocsApplication(d, apps) == d
  {
    if apps != [] {
      assert apps[0] in apps;
    }
  }

  // ---------------------------------------------------------------------
  // Global document checklist propagation
  // ---------------------------------------------------------------------

  /** The scope keys of listed applications that have no checklist yet. */
  function MissingScopes(docs: DocsByScope, apps: seq<Application>): set<string>
  {
    set a | a in apps && DocScopeKey(Some(a.id)) !in docs :: DocScopeKey(Some(a.id))
  }

  /** The map after copying the global checklist into every application scope that lacks one. */
  function Propagated(docs: DocsByScope, apps: seq<Application>): (next: DocsByScope)
    requires GlobalScope in docs
    ensures next.Keys == docs.Keys + MissingScopes(docs, apps)
    ensures forall k :: k in docs ==> next[k] == docs[k]
    ensures forall a :: a in apps ==> DocScopeKey(Some(a.id)) in next
    ensures forall k :: k in next && k !in docs ==> next[k] == docs[GlobalScope]
  {
    map k | k in docs.Keys + MissingScopes(docs, apps) :: if k in docs then docs[k] else docs[GlobalScope]
  }

  /**
   * The propagation effect: `None` when it issues no update, otherwise the
   * map it sets. It runs only when a global checklist exists and there are
   * applications, and sets a map only when some scope was missing.
   */
  method PropagateGlobalDocs(docs: DocsByScope, apps: seq<Application>) returns (update: Option<DocsByScope>)
    ensures GlobalScope !in docs || apps == [] ==> update.None?
    ensures GlobalScope in docs && apps != [] ==>
      && (update.Some? <==> MissingScopes(docs, apps) != {})
      && (update.Some? ==> update.value == Propagated(docs, apps))
  {
    if GlobalScope !in docs || apps == [] {
      return None;
    }
    var globalDocs := docs[GlobalScope];
    var shouldUpdate := false;
    var next := docs;
    var i := 0;
    while i < |apps|
      invariant 0 <= i <= |apps|
      invariant next.Keys == docs.Keys + MissingScopes(docs, apps[..i])
      invariant forall k :: k in docs ==> next[k] == docs[k]
      invariant forall k :: k in next && k !in docs ==> next[k] == globalDocs
      invariant shouldUpdate <==> MissingScopes(docs, apps[..i]) != {}
    {
      var key := DocScopeKey(Some(apps[i].id));
      MissingScopesSnoc(docs, apps, i);
      if key !in next {
        next := next[key := globalDocs];
        shouldUpdate := true;
      }
      i := i + 1;
    }
    assert apps[..i] == apps;
    if shouldUpdate {
      PropagatedIsUnique(docs, apps, next);
      update := Some(next);
    } else {
      update := None;
    }
  }

  /** The scopes missing among one more application: those before it, and its own if it lacks one. */
  lemma MissingScopesSnoc(docs: DocsByScope, apps: seq<Application>, i: nat)
    requires i < |apps|
    ensures var key := DocScopeKey(Some(apps[i].id));
      MissingScopes(docs, apps[..i + 1]) == MissingScopes(docs, apps[..i]) + (if key in docs then {} else {key})
  {
    assert apps[..i + 1] == apps[..i] + [apps[i]];
  }

  /** A map with the keys and values `Propagated` promises is `Propagated`. */
  lemma PropagatedIsUnique(docs: DocsByScope, apps: seq<Application>, next: DocsByScope)
    requires GlobalScope in docs
    requires next.Keys == docs.Keys + MissingScopes(docs, apps)
    requires forall k :: k in docs ==> next[k] == docs[k]
    requires forall k :: k in next && k !in docs ==> next[k] == docs[GlobalScope]
    ensures next == Propagated(docs, apps)
  {
  }

  /** After propagation nothing is missing, so a second run issues no update. */
  lemma PropagationIsIdempotent(docs: DocsByScope, apps: seq<Application>)
    requires GlobalScope in docs
    ensures MissingScopes(Propagated(docs, apps), apps) == {}
    ensures GlobalScope in Propagated(docs, apps) && Propagated(docs, apps)[GlobalScope] == docs[GlobalScope]
  {
  }

  // ---------------------------------------------------------------------
  // Draft persistence
  // ---------------------------------------------------------------------

  /** What the debounced draft effect does with the storage key. */
  datatype DraftWrite<T> = Store(draft: T) | Remove

  function EssayDraftWrite(form: EssayForm): (w: DraftWrite<EssayForm>)
    ensures w.Store? <==> HasEssayDraftContent(form)
    ensures w.Store? ==> w.draft == form
  {
    if HasEssayDraftContent(form) then Store(form) else Remove
  }

  function ApplicationDraftWrite(form: ApplicationForm): (w: DraftWrite<ApplicationForm>)
    ensures w.Store? <==> HasApplicationDraftContent(form)
    ensures w.Store? ==> w.draft == form
  {
    if HasApplicationDraftContent(form) then Store(form) else Remove
  }

  /** Resetting a form to its defaults removes the stored draft. */
  lemma ResetFormsRemoveDrafts(applicationId: Option<int>)
    ensures EssayDraftWrite(DefaultEssayForm(applicationId)) == Remove
    ensures ApplicationDraftWrite(DefaultApplicationForm()) == Remove
  {
    DefaultFormsAreEmpty(applicationId);
  }
}
