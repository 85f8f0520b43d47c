// The request validators of backend/schemas.py: each field validator maps
// the submitted value to the stored one or to the message of the
// `ValueError` it raises, and the model validators of the application
// payloads check the rules between fields. The declarative length and range
// constraints of the `Field(...)` declarations are not part of this model.
module Schemas {
  import opened Wrappers
  import opened Text
  import opened Dates

  // ---------------------------------------------------------------------
  // Field validators
  // ---------------------------------------------------------------------

  /** `validate_name`: the stripped name, which must keep at least two characters. */
  function ValidateName(value: string): (r: Result<string, string>)
    ensures r.Ok? <==> |Trim(value)| >= 2
    ensures r.Ok? ==> r.value == Trim(value)
    ensures r.Err? ==> r.error == "Name must be at least 2 characters"
  {
    var cleaned := Trim(value);
    if |cleaned| < 2 then Err("Name must be at least 2 characters") else Ok(cleaned)
  }

  /** A validated name passes again unchanged. */
  lemma ValidateNameIdempotent(value: string)
    requires ValidateName(value).Ok?
    ensures ValidateName(ValidateName(value).value) == ValidateName(value)
  {
    TrimIdempotent(value);
  }

  /**
   * `strip_optional_strings`, `trim_catalog_strings` and the two
   * `trim_application_*_strings` validators, which share one body: `None`
   * stays `None`, a blank value becomes `None`, anything else is stripped.
   */
  function StripOptional(value: Option<string>): (r: Option<string>)
    ensures r.None? <==> value.None? || IsBlank(value.value)
    ensures r.Some? ==> r.value == Trim(value.value) && r.value != ""
  {
    match value
    case None => None
    case Some(s) => if Trim(s) == "" then None else Some(Trim(s))
  }

  /** Stripping a stripped value changes nothing. */
  lemma StripOptionalIdempotent(value: Option<string>)
    ensures StripOptional(StripOptional(value)) == StripOptional(value)
  {
    if value.Some? {
      TrimIdempotent(value.value);
    }
  }

  /**
   * `validate_fee_currency` and `validate_preferred_currency`: the
   * stripped, upper-cased value, which must have exactly three characters;
   * `field` names the field in the message.
   */
  function ThreeLetterCode(value: string, field: string): (r: Result<string, string>)
    ensures r.Ok? <==> |Trim(value)| == 3
    ensures r.Ok? ==> r.value == Upper(Trim(value)) && |r.value| == 3
    ensures r.Ok? ==> forall i :: 0 <= i < 3 ==> !IsLowerAlpha(r.value[i])
    ensures r.Err? ==> r.error == field + " must be a 3-letter ISO code"
  {
    var cleaned := Upper(Trim(value));
    if |cleaned| != 3 then Err(field + " must be a 3-letter ISO code") else Ok(cleaned)
  }

  /** An accepted code is accepted again unchanged. */
  lemma ThreeLetterCodeIdempotent(value: string, field: string)
    requires ThreeLetterCode(value, field).Ok?
    ensures ThreeLetterCode(ThreeLetterCode(value, field).value, field) == ThreeLetterCode(value, field)
  {
    var code := Upper(Trim(value));
    TrimIdempotent(value);
    CaseKeepsTrimmed(Trim(value));
    UpperIdempotent(Trim(value));
    assert Trim(code) == code;
  }

  /** A lower-case code is upper-cased. */
  lemma LowerCaseCodeAccepted(field: string)
    ensures ThreeLetterCode(LowerUsd, field) == Ok(UpperUsd)
  {
    UsdCodes();
    TrimmedCodeAccepted(LowerUsd, field);
  }

  const LowerUsd: string := "usd"
  const UpperUsd: string := "USD"

  lemma UsdCodes()
    ensures Trim(LowerUsd) == LowerUsd && |LowerUsd| == 3 && Upper(LowerUsd) == UpperUsd
  {
    TrimOfLowerWord(LowerUsd);
    var up := Upper(LowerUsd);
    assert up[0] == 'U' && up[1] == 'S' && up[2] == 'D';
  }

  lemma TrimmedCodeAccepted(value: string, field: string)
    requires Trim(value) == value && |value| == 3
    ensures ThreeLetterCode(value, field) == Ok(Upper(value))
  {
  }

  /** Only the length is checked: three digits pass as a code. */
  lemma DigitsPassAsCode(field: string)
    ensures ThreeLetterCode("123", field) == Ok("123")
  {
    TrimStartOfTrimmed("123");
    TrimEndOfTrimmed("123");
    var up := Upper("123");
    assert up[0] == '1' && up[1] == '2' && up[2] == '3';
    assert up == "123";
  }

  /** `validate_optional_fee_currency`: `None` passes, anything else as `ThreeLetterCode`. */
  function OptionalThreeLetterCode(value: Option<string>, field: string): (r: Result<Option<string>, string>)
    ensures value.None? ==> r == Ok(None)
    ensures value.Some? ==> (r.Ok? <==> ThreeLetterCode(value.value, field).Ok?)
    ensures value.Some? && r.Ok? ==> r.value == Some(ThreeLetterCode(value.value, field).value)
  {
    match value
    case None => Ok(None)
    case Some(s) =>
      match ThreeLetterCode(s, field)
      case Err(e) => Err(e)
      case Ok(code) => Ok(Some(code))
  }

  /** `normalize_catalog_currency`: stripped and upper-cased, with no length check. */
  function CatalogCurrency(value: string): (r: string)
    ensures |r| == |Trim(value)|
    ensures forall i :: 0 <= i < |r| ==> !IsLowerAlpha(r[i])
    ensures Trim(r) == r
  {
    TrimIdempotent(value);
    CaseKeepsTrimmed(Trim(value));
    Upper(Trim(value))
  }

  /** `normalize_feedback_fields`: `None` passes, a blank value is an error, anything else is stripped. */
  function FeedbackField(value: Option<string>): (r: Result<Option<string>, string>)
    ensures value.None? ==> r == Ok(None)
    ensures value.Some? ==> (r.Err? <==> IsBlank(value.value))
    ensures value.Some? && r.Ok? ==> r.value == Some(Trim(value.value))
    ensures r.Err? ==> r.error == "Field cannot be empty"
  {
    match value
    case None => Ok(None)
    case Some(s) => if Trim(s) == "" then Err("Field cannot be empty") else Ok(Some(Trim(s)))
  }

  /** `trim_essay_fields` and `trim_assist_fields`: the stripped value, which must not be empty. */
  function RequiredText(value: string): (r: Result<string, string>)
    ensures r.Err? <==> IsBlank(value)
    ensures r.Ok? ==> r.value == Trim(value) && Trim(r.value) == r.value
    ensures r.Err? ==> r.error == "Field cannot be empty"
  {
    TrimIdempotent(value);
    if Trim(value) == "" then Err("Field cannot be empty") else Ok(Trim(value))
  }

  /** `normalize_event_name`: stripped and lower-cased, and at least two characters long. */
  function EventName(value: string): (r: Result<string, string>)
    ensures r.Ok? <==> |Trim(value)| >= 2
    ensures r.Ok? ==> r.value == Lower(Trim(value)) && forall i :: 0 <= i < |r.value| ==> !IsUpperAlpha(r.value[i])
    ensures r.Err? ==> r.error == "event_name must be at least 2 characters"
  {
    var cleaned := Lower(Trim(value));
    if |cleaned| < 2 then Err("event_name must be at least 2 characters") else Ok(cleaned)
  }

  /** A normalised event name is normalised again to itself. */
  lemma EventNameIdempotent(value: string)
    requires EventName(value).Ok?
    ensures EventName(EventName(value).value) == EventName(value)
  {
    TrimIdempotent(value);
    CaseKeepsTrimmed(Trim(value));
    LowerIdempotent(Trim(value));
  }

  /** `normalize_skeleton_points`: the stripped points that are not blank, of which there must be three. */
  function SkeletonPoints(points: seq<string>): (r: Result<seq<string>, string>)
    ensures r.Ok? <==> |CleanedPoints(points)| >= 3
    ensures r.Ok? ==> r.value == CleanedPoints(points)
    ensures r.Err? ==> r.error == "Provide at least 3 non-empty skeleton points"
  {
    var normalized := CleanedPoints(points);
    if |normalized| < 3 then Err("Provide at least 3 non-empty skeleton points") else Ok(normalized)
  }

  /** The accepted points are exactly the stripped, non-blank submitted points. */
  lemma SkeletonPointsMembers(points: seq<string>)
    requires SkeletonPoints(points).Ok?
    ensures |SkeletonPoints(points).value| >= 3
    ensures forall x :: x in SkeletonPoints(points).value <==> CleanedFrom(points, x)
  {
    CleanedPointsMembers(points);
  }

  // ---------------------------------------------------------------------
  // Application payloads
  // ---------------------------------------------------------------------

  /** `ApplicationCreate`. */
  datatype ApplicationCreate = ApplicationCreate(
    schoolName: Option<string>, programName: Option<string>, applicationRound: Option<string>, deadline: CalendarDate,
    applicationFee: Option<real>, programTotalFee: Option<real>, feeCurrency: string, essaysRequired: int,
    lorsRequired: int, lorsSubmitted: int, interviewRequired: bool, interviewCompleted: bool, decisionStatus: string,
    requirementsNotes: Option<string>, status: string)

  const PastDeadlineMessage := "deadline cannot be in the past"
  const LorsMessage := "lors_submitted cannot exceed lors_required"
  const InterviewMessage := "interview_completed cannot be true when interview_required is false"

  /** `validate_application_integrity`: the deadline is not past, and the LOR and interview rules hold. */
  function CreateIntegrity(a: ApplicationCreate, today: CalendarDate): (r: Result<ApplicationCreate, string>)
    ensures r.Ok? <==>
      (DayNumber(a.deadline) >= DayNumber(today) && a.lorsSubmitted <= a.lorsRequired
       && (a.interviewCompleted ==> a.interviewRequired))
    ensures r.Ok? ==> r.value == a
    ensures DayNumber(a.deadline) < DayNumber(today) ==> r == Err(PastDeadlineMessage)
    ensures DayNumber(a.deadline) >= DayNumber(today) && a.lorsSubmitted > a.lorsRequired ==> r == Err(LorsMessage)
    ensures (DayNumber(a.deadline) >= DayNumber(today) && a.lorsSubmitted <= a.lorsRequired
             && a.interviewCompleted && !a.interviewRequired) ==> r == Err(InterviewMessage)
  {
    if DayNumber(a.deadline) < DayNumber(today) then Err(PastDeadlineMessage)
    else if a.lorsSubmitted > a.lorsRequired then Err(LorsMessage)
    else if !a.interviewRequired && a.interviewCompleted then Err(InterviewMessage)
    else Ok(a)
  }

  /**
   * An `ApplicationCreate` body after its field validators and then its
   * model validator: the four text fields stripped (blank ones become
   * `None`), the currency checked and upper-cased, then the integrity rules.
   */
  function ValidateApplicationCreate(raw: ApplicationCreate, today: CalendarDate): (r: Result<ApplicationCreate, string>)
    ensures ThreeLetterCode(raw.feeCurrency, "fee_currency").Err? ==> r == Err(ThreeLetterCode(raw.feeCurrency, "fee_currency").error)
    ensures r.Ok? ==>
      && r.value == raw.(schoolName := StripOptional(raw.schoolName), programName := StripOptional(raw.programName),
                         applicationRound := StripOptional(raw.applicationRound),
                         requirementsNotes := StripOptional(raw.requirementsNotes),
                         feeCurrency := ThreeLetterCode(raw.feeCurrency, "fee_currency").value)
      && |r.value.feeCurrency| == 3
      && DayNumber(r.value.deadline) >= DayNumber(today)
      && r.value.lorsSubmitted <= r.value.lorsRequired
      && (r.value.interviewCompleted ==> r.value.interviewRequired)
    ensures ThreeLetterCode(raw.feeCurrency, "fee_currency").Ok? ==>
      (r.Ok? <==> CreateIntegrity(raw, today).Ok?)
  {
    match ThreeLetterCode(raw.feeCurrency, "fee_currency")
    case Err(e) => Err(e)
    case Ok(code) =>
      var cleaned := raw.(schoolName := StripOptional(raw.schoolName), programName := StripOptional(raw.programName),
                          applicationRound := StripOptional(raw.applicationRound),
                          requirementsNotes := StripOptional(raw.requirementsNotes), feeCurrency := code);
      CreateIntegrity(cleaned, today)
  }

  /**
   * `ApplicationUpdate` after `model_dump(exclude_unset=True)`: the outer
   * `Option` says whether the field was sent. The nullable columns carry an
   * inner `Option`, since their validators turn a blank text into `None`.
   */
  datatype ApplicationUpdate = ApplicationUpdate(
    schoolName: Option<Option<string>>, programName: Option<Option<string>>, applicationRound: Option<Option<string>>,
    deadline: Option<CalendarDate>, applicationFee: Option<Option<real>>, programTotalFee: Option<Option<real>>,
    feeCurrency: Option<string>, essaysRequired: Option<int>, lorsRequired: Option<int>, lorsSubmitted: Option<int>,
    interviewRequired: Option<bool>, interviewCompleted: Option<bool>, decisionStatus: Option<string>,
    requirementsNotes: Option<Option<string>>, status: Option<string>)

  /**
   * `validate_update_integrity`: a sent deadline is not past; the LOR rule
   * is checked only when both counts are sent, and the interview rule only
   * when `interview_required` is sent as false and `interview_completed` as
   * true.
   */
  function UpdateIntegrity(u: ApplicationUpdate, today: CalendarDate): (r: Result<ApplicationUpdate, string>)
    ensures r.Ok? <==>
      && (u.deadline.Some? ==> DayNumber(u.deadline.value) >= DayNumber(today))
      && (u.lorsRequired.Some? && u.lorsSubmitted.Some? ==> u.lorsSubmitted.value <= u.lorsRequired.value)
      && !(u.interviewRequired == Some(false) && u.interviewCompleted == Some(true))
    ensures r.Ok? ==> r.value == u
    ensures u.deadline.Some? && DayNumber(u.deadline.value) < DayNumber(today) ==> r == Err(PastDeadlineMessage)
    ensures (u.deadline.Some? ==> DayNumber(u.deadline.value) >= DayNumber(today))
         && u.lorsRequired.Some? && u.lorsSubmitted.Some? && u.lorsSubmitted.value > u.lorsRequired.value
        ==> r == Err(LorsMessage)
    ensures (u.deadline.Some? ==> DayNumber(u.deadline.value) >= DayNumber(today))
         && (u.lorsRequired.Some? && u.lorsSubmitted.Some? ==> u.lorsSubmitted.value <= u.lorsRequired.value)
         && u.interviewRequired == Some(false) && u.interviewCompleted == Some(true)
        ==> r == Err(InterviewMessage)
  {
    if u.deadline.Some? && DayNumber(u.deadline.value) < DayNumber(today) then Err(PastDeadlineMessage)
    else if u.lorsRequired.Some? && u.lorsSubmitted.Some? && u.lorsSubmitted.value > u.lorsRequired.value then Err(LorsMessage)
    else if u.interviewRequired == Some(false) && u.interviewCompleted == Some(true) then Err(InterviewMessage)
    else Ok(u)
  }

  /** A count sent without its partner is never checked against the stored one here. */
  lemma UpdateChecksOnlyPairs(u: ApplicationUpdate, today: CalendarDate)
    requires u.deadline.None? && u.interviewRequired.None?
    requires u.lorsRequired.None? || u.lorsSubmitted.None?
    ensures UpdateIntegrity(u, today) == Ok(u)
  {
  }

  /** A sent text field through `StripOptional`; an explicit `None` stays `None`. */
  function StripSent(value: Option<Option<string>>): (r: Option<Option<string>>)
    ensures r.None? <==> value.None?
    ensures value.Some? ==> r.value == StripOptional(value.value)
  {
    match value
    case None => None
    case Some(v) => Some(StripOptional(v))
  }

  /**
   * An `ApplicationUpdate` body after its field validators and then its
   * model validator: sent text fields stripped, a sent currency checked and
   * upper-cased, then the integrity rules.
   */
  function ValidateApplicationUpdate(raw: ApplicationUpdate, today: CalendarDate): (r: Result<ApplicationUpdate, string>)
    ensures (raw.feeCurrency.Some? && ThreeLetterCode(raw.feeCurrency.value, "fee_currency").Err?) ==>
      r == Err(ThreeLetterCode(raw.feeCurrency.value, "fee_currency").error)
    ensures r.Ok? ==>
      && r.value.schoolName == StripSent(raw.schoolName) && r.value.programName == StripSent(raw.programName)
      && r.value.applicationRound == StripSent(raw.applicationRound)
      && r.value.requirementsNotes == StripSent(raw.requirementsNotes)
      && (r.value.feeCurrency.None? <==> raw.feeCurrency.None?)
      && (r.value.feeCurrency.Some? ==> r.value.feeCurrency.value == ThreeLetterCode(raw.feeCurrency.value, "fee_currency").value)
      && r.value.deadline == raw.deadline && r.value.lorsRequired == raw.lorsRequired
      && r.value.lorsSubmitted == raw.lorsSubmitted && r.value.interviewRequired == raw.interviewRequired
      && r.value.interviewCompleted == raw.interviewCompleted
      && UpdateIntegrity(r.value, today).Ok?
    ensures OptionalThreeLetterCode(raw.feeCurrency, "fee_currency").Ok? ==>
      (r.Ok? <==> UpdateIntegrity(raw, today).Ok?)
    ensures OptionalThreeLetterCode(raw.feeCurrency, "fee_currency").Ok? && r.Err? ==>
      r == Err(UpdateIntegrity(raw, today).error)
  {
    var currency := OptionalThreeLetterCode(raw.feeCurrency, "fee_currency");
    if currency.Err? then Err(currency.error)
    else
      var cleaned := raw.(schoolName := StripSent(raw.schoolName), programName := StripSent(raw.programName),
                          applicationRound := StripSent(raw.applicationRound),
                          requirementsNotes := StripSent(raw.requirementsNotes), feeCurrency := currency.value);
      UpdateIntegrity(cleaned, today)
  }

  // ---------------------------------------------------------------------
  // Essay payloads
  // ---------------------------------------------------------------------

  /** `EssayCreate`. */
  datatype EssayCreate = EssayCreate(
    schoolName: string, programType: string, essayPrompt: string, essayContent: string,
    parentEssayId: Option<int>, applicationId: Option<int>)

  /** An `EssayCreate` body after `trim_essay_fields` on its four text fields, in field order. */
  function ValidateEssayCreate(raw: EssayCreate): (r: Result<EssayCreate, string>)
    ensures r.Ok? <==>
      !IsBlank(raw.schoolName) && !IsBlank(raw.programType) && !IsBlank(raw.essayPrompt) && !IsBlank(raw.essayContent)
    ensures r.Ok? ==>
      r.value == raw.(schoolName := Trim(raw.schoolName), programType := Trim(raw.programType),
                      essayPrompt := Trim(raw.essayPrompt), essayContent := Trim(raw.essayContent))
    ensures r.Err? ==> r.error == "Field cannot be empty"
  {
    var school := RequiredText(raw.schoolName);
    var program := RequiredText(raw.programType);
    var prompt := RequiredText(raw.essayPrompt);
    var content := RequiredText(raw.essayContent);
    if school.Err? then Err(school.error)
    else if program.Err? then Err(program.error)
    else if prompt.Err? then Err(prompt.error)
    else if content.Err? then Err(content.error)
    else Ok(raw.(schoolName := school.value, programType := program.value, essayPrompt := prompt.value,
                 essayContent := content.value))
  }
}
