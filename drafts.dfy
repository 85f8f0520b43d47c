// Draft recovery and the "does this draft hold anything" tests
// (frontend/src/app/drafts.js), with the default forms they are checked
// against (frontend/src/app/formDefaults.js). Reading the stored text and
// parsing it as JSON happen outside: the parse result is an input, `None`
// when `JSON.parse` throws.
module Drafts {
  import opened Wrappers
  import opened Text
  import opened Js
  import opened EssayApplicationActions

  /** `{ value, recovered }` as `parseDraft` returns it. */
  datatype Loaded = Loaded(value: JsValue, recovered: bool)

  /** JavaScript truthiness of a parsed JSON value. */
  predicate JsonTruthy(v: JsValue)
  {
    match v
    case JsNull => false
    case JsBool(b) => b
    case JsNumber(n) => n != 0.0
    case JsString(s) => s != ""
    case JsArray(_) => true
    case JsObject(_) => true
  }

  /** `typeof v === 'object'`: null, arrays and objects. */
  predicate TypeofObject(v: JsValue)
  {
    v.JsNull? || v.JsArray? || v.JsObject?
  }

  /**
   * `parseDraft`: the parsed value, marked recovered, when the stored text is
   * non-empty and parses to an object or an array; the fallback otherwise.
   */
  function ParseDraft(raw: string, parsed: Option<JsValue>, fallback: JsValue): (r: Loaded)
    ensures r.recovered <==> raw != "" && parsed.Some? && (parsed.value.JsObject? || parsed.value.JsArray?)
    ensures r.recovered ==> r.value == parsed.value
    ensures !r.recovered ==> r.value == fallback
  {
    if raw == "" then Loaded(fallback, false)
    else match parsed
      case None => Loaded(fallback, false)
      case Some(v) =>
        if !JsonTruthy(v) || !TypeofObject(v) then Loaded(fallback, false)
        else Loaded(v, true)
  }

  /** `(x || '').trim()` is non-empty. */
  predicate Filled(x: string)
    ensures Filled(x) <==> !AllSpace(x)
  {
    BlankIffAllSpace(x);
    !IsBlank(x)
  }

  /** `hasEssayDraftContent`: the school, prompt or content holds something. */
  predicate HasEssayDraftContent(draft: EssayForm)
    ensures HasEssayDraftContent(draft) <==>
      !AllSpace(draft.schoolName) || !AllSpace(draft.essayPrompt) || !AllSpace(draft.essayContent)
  {
    Filled(draft.schoolName) || Filled(draft.essayPrompt) || Filled(draft.essayContent)
  }

  /** `hasApplicationDraftContent`: school, deadline, notes or either fee holds something. */
  predicate HasApplicationDraftContent(draft: ApplicationForm)
    ensures HasApplicationDraftContent(draft) <==>
      !AllSpace(draft.schoolName) || !AllSpace(draft.deadline) || !AllSpace(draft.requirementsNotes)
      || !AllSpace(draft.applicationFee) || !AllSpace(draft.programTotalFee)
  {
    Filled(draft.schoolName) || Filled(draft.deadline) || Filled(draft.requirementsNotes)
    || Filled(draft.applicationFee) || Filled(draft.programTotalFee)
  }

  /** `createDefaultEssayForm(applicationId)`. */
  function DefaultEssayForm(applicationId: Option<int>): (f: EssayForm)
    ensures f.applicationId == applicationId && f.parentEssayId.None?
  {
    EssayForm("", "MBA", "", "", None, applicationId)
  }

  /** `createDefaultApplicationForm()`. */
  function DefaultApplicationForm(): ApplicationForm
  {
    ApplicationForm("", "MBA", "Round 1", "", "", "", "USD", "1", "2", "0", false, false,
                    "Pending", "", "Planning")
  }

  /** Neither default form counts as a draft, whatever application it starts from. */
  lemma DefaultFormsAreEmpty(applicationId: Option<int>)
    ensures !HasEssayDraftContent(DefaultEssayForm(applicationId))
    ensures !HasApplicationDraftContent(DefaultApplicationForm())
  {
    assert Trim("") == "";
  }

  /** The essay test ignores the program type and the links. */
  lemma EssayDraftIgnoresProgram(draft: EssayForm, programType: string, applicationId: Option<int>)
    ensures HasEssayDraftContent(draft.(programType := programType, applicationId := applicationId))
        == HasEssayDraftContent(draft)
  {
  }

  /** The application test looks only at its five text fields. */
  lemma ApplicationDraftFields(draft: ApplicationForm, other: ApplicationForm)
    requires draft.schoolName == other.schoolName && draft.deadline == other.deadline
    requires draft.requirementsNotes == other.requirementsNotes
    requires draft.applicationFee == other.applicationFee && draft.programTotalFee == other.programTotalFee
    ensures HasApplicationDraftContent(draft) == HasApplicationDraftContent(other)
  {
  }

  /** An object or an array stored under non-empty text is recovered as it is. */
  lemma RecoveredDraftIsParsed(raw: string, v: JsValue, fallback: JsValue)
    requires raw != "" && (v.JsObject? || v.JsArray?)
    ensures ParseDraft(raw, Some(v), fallback) == Loaded(v, true)
  {
  }
}
