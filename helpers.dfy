// Scope keys for the document checklist, identities for essay versions, the
// legacy document-map test and the default interview and research cards
// (frontend/src/app/helpers.js).
module Helpers {
  import opened Wrappers
  import opened Text
  import opened Js
  import opened Records

  const GlobalScope: string := "global"

  /** A truthy application id: present and not 0. */
  predicate TruthyId(id: Option<int>) { id.Some? && id.value != 0 }

  /** `getDocScopeKey`: `application:<id>` for a truthy id, `global` otherwise. */
  function DocScopeKey(id: Option<int>): (key: string)
    ensures key == GlobalScope <==> !TruthyId(id)
    ensures TruthyId(id) ==> key == "application:" + IntToString(id.value)
  {
    if TruthyId(id) then "application:" + IntToString(id.value) else GlobalScope
  }

  /** Different truthy ids never share a document scope. */
  lemma DocScopeKeyInjective(a: Option<int>, b: Option<int>)
    requires TruthyId(a) && TruthyId(b) && a != b
    ensures DocScopeKey(a) != DocScopeKey(b)
  {
    if DocScopeKey(a) == DocScopeKey(b) {
      var p := "application:";
      assert DocScopeKey(a)[|p|..] == IntToString(a.value);
      assert DocScopeKey(b)[|p|..] == IntToString(b.value);
      IntToStringInjective(a.value, b.value);
    }
  }

  /**
   * `getVersionIdentity`: the version's id as text when it has one, otherwise
   * `<created_at or "version">-<index>`.
   */
  function VersionIdentity(v: Essay, idx: nat): (r: string)
    ensures v.id.Some? ==> r == IntToString(v.id.value)
    ensures v.id.None? ==> r == OrElse(v.createdAt, "version") + "-" + NatToString(idx)
  {
    match v.id
    case Some(id) => IntToString(id)
    case None => OrElse(v.createdAt, "version") + "-" + NatToString(idx)
  }

  /** Versions with different ids have different identities. */
  lemma VersionIdentityInjective(v: Essay, w: Essay, i: nat, j: nat)
    requires v.id.Some? && w.id.Some? && v.id != w.id
    ensures VersionIdentity(v, i) != VersionIdentity(w, j)
  {
    if VersionIdentity(v, i) == VersionIdentity(w, j) {
      IntToStringInjective(v.id.value, w.id.value);
    }
  }

  /**
   * `isLegacyDocMap`: a non-array object that has at least one document
   * template id as an own key.
   */
  predicate IsLegacyDocMap(value: JsValue, templates: seq<string>)
    ensures IsLegacyDocMap(value, templates) <==>
      value.JsObject? && value.fields.Keys * (set t | t in templates) != {}
  {
    value.JsObject? && (CommonKey(value.fields.Keys, templates); exists t :: t in templates && t in value.fields)
  }

  /** Some template id is a key exactly when the keys meet the set of template ids. */
  lemma CommonKey(keys: set<string>, templates: seq<string>)
    ensures (exists t :: t in templates && t in keys) <==> keys * (set t | t in templates) != {}
  {
    if keys * (set t | t in templates) != {} {
      var t :| t in keys * (set t | t in templates);
      assert t in templates && t in keys;
    }
    if exists t :: t in templates && t in keys {
      var t :| t in templates && t in keys;
      assert t in keys * (set u | u in templates);
    }
  }

  /**
   * A map keyed by checklist scopes is never taken for a legacy one, as long
   * as no template id looks like a scope key: the test tells the two
   * layouts apart.
   */
  lemma ScopedMapIsNotLegacy(docs: map<string, JsValue>, templates: seq<string>)
    requires forall t :: t in templates ==> t != GlobalScope && !(|t| >= 12 && t[..12] == "application:")
    requires forall k :: k in docs ==> k == GlobalScope || (|k| >= 12 && k[..12] == "application:")
    ensures !IsLegacyDocMap(JsObject(docs), templates)
  {
  }

  /** Only an object with a template id among its keys is a legacy map. */
  lemma LegacyDocMapHasTemplateKey(value: JsValue, templates: seq<string>, t: string)
    requires value.JsObject? && t in templates && t in value.fields
    ensures IsLegacyDocMap(value, templates)
    ensures !IsLegacyDocMap(JsArray([value]), templates)
  {
  }

  /** `getDefaultInterviewPrep`: the four interview fields, all empty. */
  function DefaultInterviewPrep(): (card: Fields)
    ensures card.Keys == {"scheduled_at", "strategy_notes", "stories_bank", "mock_feedback"}
    ensures forall k :: k in card ==> card[k] == ""
  {
    map["scheduled_at" := "", "strategy_notes" := "", "stories_bank" := "", "mock_feedback" := ""]
  }

  /** `getDefaultResearchCard`: the six research fields, all empty. */
  function DefaultResearchCard(): (card: Fields)
    ensures card.Keys == {"website", "location", "ranking_notes", "program_highlights", "career_outcomes", "scholarship_notes"}
    ensures forall k :: k in card ==> card[k] == ""
  {
    map["website" := "", "location" := "", "ranking_notes" := "", "program_highlights" := "",
        "career_outcomes" := "", "scholarship_notes" := ""]
  }
}
