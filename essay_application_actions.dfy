// The decision logic inside the essay and application handlers
// (frontend/src/app/essayApplicationActions.js): the degree field, the
// selection of versions after they are fetched, the essay checks and its
// automatic link to an application, the application payload and the parent
// of a new version. The API calls, alerts and storage writes around them are
// not part of this model.
module EssayApplicationActions {
  import opened Wrappers
  import opened Text
  import opened Js
  import opened Seqs
  import opened Records
  import opened Helpers
  import opened WorkspaceComputed

  // ---------------------------------------------------------------------
  // Degree field
  // ---------------------------------------------------------------------

  const Other: string := "Other"
  const DegreeMissing: string := "Please enter a custom degree when selecting Other."

  /** `resolveDegreeValue`: the trimmed custom text for `Other`, else the choice itself. */
  function ResolveDegreeValue(choice: string, customValue: string): (r: string)
    ensures choice != Other ==> r == choice
  {
    if choice == Other then Trim(customValue) else choice
  }

  /** A custom degree is used without surrounding whitespace, and is missing exactly when the text is blank. */
  lemma CustomDegreeTrimmed(customValue: string)
    ensures Trim(ResolveDegreeValue(Other, customValue)) == ResolveDegreeValue(Other, customValue)
    ensures ResolveDegreeValue(Other, customValue) == "" <==> IsBlank(customValue)
  {
    TrimIdempotent(customValue);
  }

  /**
   * `hydrateDegreeFields`: the (choice, custom text) pair shown for a stored
   * degree. A listed degree other than `Other` is chosen directly; anything
   * else is shown as `Other` with the value as custom text.
   */
  function HydrateDegreeFields(degreeOptions: seq<string>, value: string): (r: (string, string))
    ensures r.0 == Other || r.0 in degreeOptions
    ensures r.0 != Other ==> r == (value, "")
    ensures r.0 == Other ==> r.1 == value
    ensures r.0 == Other <==> value !in degreeOptions || value == Other
  {
    if value in degreeOptions && value != Other then (value, "") else (Other, value)
  }

  /** Hydrating a stored degree and resolving it again gives the degree back, trimmed when custom. */
  lemma HydrateThenResolve(degreeOptions: seq<string>, value: string)
    ensures var (choice, custom) := HydrateDegreeFields(degreeOptions, value);
      ResolveDegreeValue(choice, custom) == if value in degreeOptions && value != Other then value else Trim(value)
    ensures var (choice, custom) := HydrateDegreeFields(degreeOptions, value);
      Trim(value) == value ==> ResolveDegreeValue(choice, custom) == value
  {
  }

  // ---------------------------------------------------------------------
  // Version selection after fetching the versions
  // ---------------------------------------------------------------------

  /** The selection `fetchVersions` stores: newest against the one before it. */
  function FetchedSelection(versions: seq<Essay>): (r: DiffSelection)
    ensures |versions| >= 2 ==> r == DiffSelection(VersionIdentity(versions[1], 1), VersionIdentity(versions[0], 0))
    ensures |versions| == 1 ==> r == DiffSelection(VersionIdentity(versions[0], 0), VersionIdentity(versions[0], 0))
    ensures |versions| == 0 ==> r == DiffSelection("", "")
  {
    if |versions| >= 2 then DiffSelection(VersionIdentity(versions[1], 1), VersionIdentity(versions[0], 0))
    else if |versions| == 1 then DiffSelection(VersionIdentity(versions[0], 0), VersionIdentity(versions[0], 0))
    else DiffSelection("", "")
  }

  /**
   * The stored selection is exactly the fallback the workspace would use with
   * no choice, so both give the same diff.
   */
  lemma FetchedSelectionIsFallback(versions: seq<Essay>)
    ensures FetchedSelection(versions) == DiffSelection(FallbackBase(versions), FallbackCompare(versions))
    ensures SelectedDiffRows(versions, FetchedSelection(versions)) == SelectedDiffRows(versions, DiffSelection("", ""))
  {
    if |versions| == 1 {
      assert FallbackBase(versions) == FallbackCompare(versions);
    }
  }

  // ---------------------------------------------------------------------
  // Essay submission
  // ---------------------------------------------------------------------

  /** The essay form (and the payload built from it). */
  datatype EssayForm = EssayForm(
    schoolName: string,
    programType: string,
    essayPrompt: string,
    essayContent: string,
    parentEssayId: Option<int>,
    applicationId: Option<int>)

  /** `a || b || null` on optional ids: the first truthy one. */
  function FirstTruthy(a: Option<int>, b: Option<int>): (r: Option<int>)
    ensures TruthyId(a) ==> r == a
    ensures !TruthyId(a) && TruthyId(b) ==> r == b
    ensures !TruthyId(a) && !TruthyId(b) ==> r.None?
  {
    if TruthyId(a) then a else if TruthyId(b) then b else None
  }

  const SchoolTooShort: string := "School name must be at least 2 characters."
  const ProgramTooShort: string := "Program type must be at least 2 characters."
  const PromptTooShort: string := "Essay prompt must be at least 5 characters."
  const ContentTooShort: string := "Essay content must be at least 20 characters."

  /** One message when the trimmed text is shorter than `min`, else none. */
  function Check(text: string, min: nat, message: string): (r: seq<string>)
    ensures r == [] <==> |Trim(text)| >= min
    ensures r != [] ==> r == [message]
  {
    if |Trim(text)| < min then [message] else []
  }

  /** The validation messages of `handleSubmit`, in the order they are pushed. */
  function EssayErrors(p: EssayForm): (r: seq<string>)
    ensures r == [] <==> (|Trim(p.schoolName)| >= 2 && |Trim(p.programType)| >= 2
                          && |Trim(p.essayPrompt)| >= 5 && |Trim(p.essayContent)| >= 20)
    ensures |r| <= 4
  {
    Check(p.schoolName, 2, SchoolTooShort) + Check(p.programType, 2, ProgramTooShort)
    + Check(p.essayPrompt, 5, PromptTooShort) + Check(p.essayContent, 20, ContentTooShort)
  }

  /** The four messages are different texts. */
  lemma MessagesDistinct()
    ensures SchoolTooShort != ProgramTooShort && SchoolTooShort != PromptTooShort && SchoolTooShort != ContentTooShort
    ensures ProgramTooShort != PromptTooShort && ProgramTooShort != ContentTooShort
    ensures PromptTooShort != ContentTooShort
  {
    assert SchoolTooShort[0] == 'S' && ProgramTooShort[0] == 'P' && PromptTooShort[0] == 'E';
    assert ContentTooShort[0] == 'E' && PromptTooShort[6] == 'p' && ContentTooShort[6] == 'c';
  }

  /** Each validation message appears exactly when its own rule fails. */
  lemma EssayErrorsMessages(p: EssayForm)
    ensures SchoolTooShort in EssayErrors(p) <==> |Trim(p.schoolName)| < 2
    ensures ProgramTooShort in EssayErrors(p) <==> |Trim(p.programType)| < 2
    ensures PromptTooShort in EssayErrors(p) <==> |Trim(p.essayPrompt)| < 5
    ensures ContentTooShort in EssayErrors(p) <==> |Trim(p.essayContent)| < 20
  {
    MessagesDistinct();
    FourChecks(Check(p.schoolName, 2, SchoolTooShort), Check(p.programType, 2, ProgramTooShort),
               Check(p.essayPrompt, 5, PromptTooShort), Check(p.essayContent, 20, ContentTooShort),
               SchoolTooShort, ProgramTooShort, PromptTooShort, ContentTooShort);
  }

  /** In four optional single messages, all different, a message is there exactly when its own part holds it. */
  lemma FourChecks(a: seq<string>, b: seq<string>, c: seq<string>, d: seq<string>,
                   ma: string, mb: string, mc: string, md: string)
    requires (a == [] || a == [ma]) && (b == [] || b == [mb]) && (c == [] || c == [mc]) && (d == [] || d == [md])
    requires ma != mb && ma != mc && ma != md && mb != mc && mb != md && mc != md
    ensures ma in a + b + c + d <==> a != []
    ensures mb in a + b + c + d <==> b != []
    ensures mc in a + b + c + d <==> c != []
    ensures md in a + b + c + d <==> d != []
  {
  }

  /** The essay link test: the application's lower-cased school equals the trimmed, lower-cased one. */
  function SameSchool(school: string): Application -> bool
  {
    (a: Application) => Lower(a.schoolName) == Lower(Trim(school))
  }

  /** Without an application id, the payload links to the first application of the same school. */
  function AutoLink(p: EssayForm, apps: seq<Application>): (r: EssayForm)
    ensures r == p.(applicationId := r.applicationId)
    ensures TruthyId(p.applicationId) ==> r == p
    ensures !TruthyId(p.applicationId) ==>
      match FirstIndex(apps, SameSchool(p.schoolName))
      case Some(i) => r == p.(applicationId := Some(apps[i].id))
      case None => r == p
  {
    if TruthyId(p.applicationId) then p
    else match FirstIndex(apps, SameSchool(p.schoolName))
      case Some(i) => p.(applicationId := Some(apps[i].id))
      case None => p
  }

  /** The form with the resolved degree and the own or the selected application. */
  function EssayPayload(form: EssayForm, degree: string, selectedApplicationId: Option<int>): EssayForm
  {
    form.(programType := degree, applicationId := FirstTruthy(form.applicationId, selectedApplicationId))
  }

  /**
   * What `handleSubmit` sends, or the alert it shows instead: a missing
   * custom degree, or the validation messages joined by newlines.
   */
  function SubmitEssay(form: EssayForm, degreeChoice: string, customDegree: string,
                       selectedApplicationId: Option<int>, apps: seq<Application>): (r: Result<EssayForm, string>)
    ensures ResolveDegreeValue(degreeChoice, customDegree) == "" ==> r == Err(DegreeMissing)
    ensures r.Ok? ==> && r.value.programType == ResolveDegreeValue(degreeChoice, customDegree)
                      && |Trim(r.value.schoolName)| >= 2 && |Trim(r.value.programType)| >= 2
                      && |Trim(r.value.essayPrompt)| >= 5 && |Trim(r.value.essayContent)| >= 20
                      && r.value.parentEssayId == form.parentEssayId
    ensures ResolveDegreeValue(degreeChoice, customDegree) != "" ==>
      var payload := EssayPayload(form, ResolveDegreeValue(degreeChoice, customDegree), selectedApplicationId);
      && (r.Ok? <==> EssayErrors(payload) == [])
      && (r.Err? ==> r.error == Join(EssayErrors(payload), "\n"))
      && (r.Ok? ==> r.value == AutoLink(payload, apps))
  {
    var degree := ResolveDegreeValue(degreeChoice, customDegree);
    if degree == "" then Err(DegreeMissing)
    else
      var payload := EssayPayload(form, degree, selectedApplicationId);
      var errors := EssayErrors(payload);
      if errors != [] then Err(Join(errors, "\n"))
      else Ok(AutoLink(payload, apps))
  }

  /** A submitted essay keeps its own or the selected application; otherwise it links by school. */
  lemma SubmitEssayLink(form: EssayForm, degreeChoice: string, customDegree: string,
                        selectedApplicationId: Option<int>, apps: seq<Application>, sent: EssayForm)
    requires SubmitEssay(form, degreeChoice, customDegree, selectedApplicationId, apps) == Ok(sent)
    ensures && (TruthyId(form.applicationId) ==> sent.applicationId == form.applicationId)
      && (!TruthyId(form.applicationId) && TruthyId(selectedApplicationId) ==> sent.applicationId == selectedApplicationId)
      && (!TruthyId(form.applicationId) && !TruthyId(selectedApplicationId) ==>
            match FirstIndex(apps, SameSchool(form.schoolName))
            case Some(i) => sent.applicationId == Some(apps[i].id)
            case None => sent.applicationId.None?)
  {
  }

  // ---------------------------------------------------------------------
  // Application payload
  // ---------------------------------------------------------------------

  /** The application form: the inputs hold text, the two checkboxes booleans. */
  datatype ApplicationForm = ApplicationForm(
    schoolName: string,
    programName: string,
    applicationRound: string,
    deadline: string,
    applicationFee: string,
    programTotalFee: string,
    feeCurrency: string,
    essaysRequired: string,
    lorsRequired: string,
    lorsSubmitted: string,
    interviewRequired: bool,
    interviewCompleted: bool,
    decisionStatus: string,
    requirementsNotes: string,
    status: string)

  /** The payload `handleApplicationSubmit` sends. A fee is `None` for `null`. */
  datatype ApplicationPayload = ApplicationPayload(
    schoolName: string,
    programName: string,
    applicationRound: string,
    deadline: string,
    applicationFee: Option<Num>,
    programTotalFee: Option<Num>,
    feeCurrency: string,
    essaysRequired: Num,
    lorsRequired: Num,
    lorsSubmitted: Num,
    interviewRequired: bool,
    interviewCompleted: bool,
    decisionStatus: string,
    requirementsNotes: string,
    status: string)

  /** `x === '' ? null : Number(x)`. */
  function FeeValue(x: string): (r: Option<Num>)
    ensures r.None? <==> x == ""
  {
    if x == "" then None else Some(ToNumber(x))
  }

  /** `Number(x || 0)`. */
  function CountValue(x: string): Num
  {
    ToNumber(OrElse(x, "0"))
  }

  /** `Math.min` on two numbers; NaN when either is NaN. */
  function MinNum(a: Num, b: Num): (r: Num)
    ensures r.Finite? <==> a.Finite? && b.Finite?
    ensures r.Finite? ==> r.v <= a.v && r.v <= b.v && (r.v == a.v || r.v == b.v)
  {
    if a.NaN? || b.NaN? then NaN else Finite(if a.v <= b.v then a.v else b.v)
  }

  /** The payload built from the form and the resolved degree. */
  function ApplicationPayloadOf(form: ApplicationForm, degree: string): (p: ApplicationPayload)
    ensures p.programName == degree
    ensures p.lorsSubmitted == MinNum(CountValue(form.lorsSubmitted), CountValue(form.lorsRequired))
    ensures p.interviewCompleted <==> form.interviewRequired && form.interviewCompleted
    ensures p.applicationFee.None? <==> form.applicationFee == ""
    ensures p.programTotalFee.None? <==> form.programTotalFee == ""
    ensures p.feeCurrency == Upper(OrElse(form.feeCurrency, "USD"))
    ensures p.decisionStatus == OrElse(form.decisionStatus, "Pending")
  {
    ApplicationPayload(
      form.schoolName, degree, form.applicationRound, form.deadline,
      FeeValue(form.applicationFee), FeeValue(form.programTotalFee),
      Upper(OrElse(form.feeCurrency, "USD")),
      CountValue(form.essaysRequired), CountValue(form.lorsRequired),
      MinNum(CountValue(form.lorsSubmitted), CountValue(form.lorsRequired)),
      form.interviewRequired, form.interviewRequired && form.interviewCompleted,
      OrElse(form.decisionStatus, "Pending"), form.requirementsNotes, form.status)
  }

  /**
   * The payload meets the create-time rules of the backend schema: no more
   * letters submitted than required and no completed interview that is not
   * required; the currency is never empty.
   */
  lemma PayloadMeetsCreateRules(form: ApplicationForm, degree: string)
    ensures var p := ApplicationPayloadOf(form, degree);
      && (p.lorsSubmitted.Finite? && p.lorsRequired.Finite? ==> p.lorsSubmitted.v <= p.lorsRequired.v)
      && (p.interviewCompleted ==> p.interviewRequired)
      && p.feeCurrency != ""
  {
  }

  /** `handleApplicationSubmit`: the payload, or the alert for a missing custom degree. */
  function SubmitApplication(form: ApplicationForm, degreeChoice: string, customDegree: string): (r: Result<ApplicationPayload, string>)
    ensures r.Err? <==> ResolveDegreeValue(degreeChoice, customDegree) == ""
    ensures r.Err? ==> r.error == DegreeMissing
    ensures r.Ok? ==> r.value == ApplicationPayloadOf(form, ResolveDegreeValue(degreeChoice, customDegree))
  {
    var degree := ResolveDegreeValue(degreeChoice, customDegree);
    if degree == "" then Err(DegreeMissing) else Ok(ApplicationPayloadOf(form, degree))
  }

  // ---------------------------------------------------------------------
  // New version of an essay
  // ---------------------------------------------------------------------

  /** The form `handleCreateNewVersion` opens for a base essay. */
  function NewVersionForm(base: Essay, selectedApplicationId: Option<int>): (f: EssayForm)
    ensures f.parentEssayId == if TruthyId(base.parentEssayId) then base.parentEssayId else base.id
    ensures f.applicationId == FirstTruthy(base.applicationId, selectedApplicationId)
    ensures f.essayContent == base.essayContent && f.essayPrompt == base.essayPrompt
  {
    EssayForm(base.schoolName, base.programType, base.essayPrompt, base.essayContent,
              if TruthyId(base.parentEssayId) then base.parentEssayId else base.id,
              FirstTruthy(base.applicationId, selectedApplicationId))
  }

  /**
   * In a chain whose versions all point at the root, a new version made from
   * any of them points at the root too.
   */
  lemma NewVersionParentIsRoot(base: Essay, rootId: int, selectedApplicationId: Option<int>)
    requires rootId != 0
    requires (base.id == Some(rootId) && !TruthyId(base.parentEssayId)) || base.parentEssayId == Some(rootId)
    ensures NewVersionForm(base, selectedApplicationId).parentEssayId == Some(rootId)
  {
  }
}
