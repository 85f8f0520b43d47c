// The document-checklist, interview and research updaters
// (frontend/src/app/documentActions.js). Each is the updater function the
// source hands to a state setter: it takes the previous nested map and
// returns the next one. The `updated_at` timestamp is an input.
module DocumentActions {
  import opened Wrappers
  import opened Text
  import opened Js
  import opened Records
  import opened Helpers

  /**
   * The scope an update goes to. `applicationId` is `None` when the caller
   * omits the argument, in which case the default `docsApplicationId` applies;
   * `Some(None)` is an explicit `null`, which maps to the global scope.
   */
  function UpdateScope(applicationId: Option<Option<int>>, docsApplicationId: Option<int>): (key: string)
    ensures applicationId.None? ==> key == DocScopeKey(docsApplicationId)
    ensures applicationId.Some? ==> key == DocScopeKey(applicationId.value)
  {
    match applicationId
    case None => DocScopeKey(docsApplicationId)
    case Some(id) => DocScopeKey(id)
  }

  /**
   * The merged entry: the previous entry, overlaid by the patch, with
   * `updated_at` set to `now`.
   */
  function MergedEntry(before: Fields, patch: Fields, now: string): (entry: Fields)
    ensures entry.Keys == before.Keys + patch.Keys + {"updated_at"}
    ensures entry["updated_at"] == now
    ensures forall f :: f in patch && f != "updated_at" ==> entry[f] == patch[f]
    ensures forall f :: f in before && f !in patch && f != "updated_at" ==> entry[f] == before[f]
  {
    before + patch + map["updated_at" := now]
  }

  /** `updateDocStatus`: only `[scope][docId]` changes, to the merged entry. */
  function UpdateDocStatus(prev: DocsByScope, docId: string, patch: Fields, now: string,
                           applicationId: Option<Option<int>>, docsApplicationId: Option<int>): (next: DocsByScope)
    ensures var key := UpdateScope(applicationId, docsApplicationId);
      && next.Keys == prev.Keys + {key}
      && (forall k :: k in prev && k != key ==> next[k] == prev[k])
      && next[key].Keys == ScopeOf(prev, key).Keys + {docId}
      && (forall d :: d in ScopeOf(prev, key) && d != docId ==> next[key][d] == ScopeOf(prev, key)[d])
      && next[key][docId] == MergedEntry(if docId in ScopeOf(prev, key) then ScopeOf(prev, key)[docId] else map[], patch, now)
  {
    var key := UpdateScope(applicationId, docsApplicationId);
    var scope := ScopeOf(prev, key);
    var before := if docId in scope then scope[docId] else map[];
    prev[key := scope[docId := MergedEntry(before, patch, now)]]
  }

  /** A patched status is the status the checklist reads back afterwards. */
  lemma UpdateDocStatusReadBack(prev: DocsByScope, docId: string, patch: Fields, now: string,
                                applicationId: Option<Option<int>>, docsApplicationId: Option<int>)
    requires "status" in patch
    ensures var key := UpdateScope(applicationId, docsApplicationId);
      DocStatusIn(ScopeOf(UpdateDocStatus(prev, docId, patch, now, applicationId, docsApplicationId), key), docId)
        == patch["status"]
  {
  }

  /**
   * `getDocScopeKey(Number(docsCopySourceId))`: a non-numeric id is NaN and 0
   * is falsy, both the global scope; a fractional id is keyed by its
   * JavaScript text, which `numberText` renders.
   */
  function SourceScope(docsCopySourceId: string, numberText: real -> string): (key: string)
    ensures ToNumber(docsCopySourceId) in {NaN, Finite(0.0)} ==> key == GlobalScope
    ensures var n := ToNumber(docsCopySourceId);
      n.Finite? && n.v == n.v.Floor as real ==> key == DocScopeKey(Some(n.v.Floor))
    ensures var n := ToNumber(docsCopySourceId);
      n.Finite? && n.v != n.v.Floor as real ==> key == "application:" + numberText(n.v)
  {
    match ToNumber(docsCopySourceId)
    case Finite(v) => if v == v.Floor as real then DocScopeKey(Some(v.Floor)) else "application:" + numberText(v)
    case NaN => GlobalScope
  }

  /** An application id chosen from the picker names that application's scope. */
  lemma SourceScopeOfId(id: nat, numberText: real -> string)
    requires id != 0
    ensures SourceScope(NatToString(id), numberText) == "application:" + IntToString(id)
  {
    ToNumberOfNat(id);
  }

  /**
   * `copyDocsFromApplication`: with a chosen source and an active
   * application, the target scope becomes a copy of the source scope as it
   * was when the handler ran (`current`), applied over `prev`.
   */
  function CopyDocs(prev: DocsByScope, current: DocsByScope, docsCopySourceId: string,
                    activeDocsApplicationId: Option<int>, numberText: real -> string): (next: DocsByScope)
    ensures (docsCopySourceId == "" || !TruthyId(activeDocsApplicationId)) ==> next == prev
    ensures docsCopySourceId != "" && TruthyId(activeDocsApplicationId) ==>
      var target := DocScopeKey(activeDocsApplicationId);
      && next.Keys == prev.Keys + {target}
      && next[target] == ScopeOf(current, SourceScope(docsCopySourceId, numberText))
      && (forall k :: k in prev && k != target ==> next[k] == prev[k])
  {
    if docsCopySourceId == "" || !TruthyId(activeDocsApplicationId) then prev
    else prev[DocScopeKey(activeDocsApplicationId) := ScopeOf(current, SourceScope(docsCopySourceId, numberText))]
  }

  /** Copying twice from the same snapshot is copying once. */
  lemma CopyDocsIdempotent(prev: DocsByScope, current: DocsByScope, docsCopySourceId: string,
                           activeDocsApplicationId: Option<int>, numberText: real -> string)
    ensures var once := CopyDocs(prev, current, docsCopySourceId, activeDocsApplicationId, numberText);
      CopyDocs(once, current, docsCopySourceId, activeDocsApplicationId, numberText) == once
  {
  }

  /**
   * The card updater shared by the interview and research fields: defaults,
   * overlaid by the previous card, overlaid by the new field; other
   * applications are untouched.
   */
  function UpdateCardField(prev: CardsByApplication, defaults: Fields, applicationId: int,
                           field: string, value: string): (next: CardsByApplication)
    ensures next.Keys == prev.Keys + {applicationId}
    ensures forall a :: a in prev && a != applicationId ==> next[a] == prev[a]
    ensures var before := if applicationId in prev then prev[applicationId] else map[];
      && next[applicationId].Keys == defaults.Keys + before.Keys + {field}
      && next[applicationId][field] == value
      && (forall f :: f in before && f != field ==> next[applicationId][f] == before[f])
      && (forall f :: f in defaults && f !in before && f != field ==> next[applicationId][f] == defaults[f])
  {
    var before := if applicationId in prev then prev[applicationId] else map[];
    prev[applicationId := defaults + before + map[field := value]]
  }

  /** `updateInterviewPrepField`. */
  function UpdateInterviewPrepField(prev: CardsByApplication, applicationId: int, field: string,
                                    value: string): (next: CardsByApplication)
    ensures next.Keys == prev.Keys + {applicationId}
    ensures forall a :: a in prev && a != applicationId ==> next[a] == prev[a]
    ensures DefaultInterviewPrep().Keys + {field} <= next[applicationId].Keys
    ensures next[applicationId][field] == value
  {
    UpdateCardField(prev, DefaultInterviewPrep(), applicationId, field, value)
  }

  /** `updateResearchField`. */
  function UpdateResearchField(prev: CardsByApplication, applicationId: int, field: string,
                               value: string): (next: CardsByApplication)
    ensures next.Keys == prev.Keys + {applicationId}
    ensures forall a :: a in prev && a != applicationId ==> next[a] == prev[a]
    ensures DefaultResearchCard().Keys + {field} <= next[applicationId].Keys
    ensures next[applicationId][field] == value
  {
    UpdateCardField(prev, DefaultResearchCard(), applicationId, field, value)
  }

  /** A first edit of an interview card fills in every default field. */
  lemma FirstInterviewEditHasDefaults(prev: CardsByApplication, applicationId: int, field: string, value: string)
    requires applicationId !in prev
    ensures var card := UpdateInterviewPrepField(prev, applicationId, field, value)[applicationId];
      && DefaultInterviewPrep().Keys <= card.Keys
      && (forall f :: f in DefaultInterviewPrep() && f != field ==> card[f] == "")
  {
  }

  /** Writing the same value into the same field twice changes nothing the second time. */
  lemma UpdateCardFieldIdempotent(prev: CardsByApplication, defaults: Fields, applicationId: int,
                                  field: string, value: string)
    ensures var once := UpdateCardField(prev, defaults, applicationId, field, value);
      UpdateCardField(once, defaults, applicationId, field, value) == once
  {
    var once := UpdateCardField(prev, defaults, applicationId, field, value);
    var twice := UpdateCardField(once, defaults, applicationId, field, value);
    assert twice[applicationId] == once[applicationId];
  }
}
