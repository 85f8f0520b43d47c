// The rules inside the administrator panel
// (frontend/src/components/views/workspace/AdminView.js): event labels, the
// catalog form's normalisers and validator, the catalog search, the
// "load more" pagination of the three activity lists and the role toggle.
//
// Two regular expressions in the file are written with a doubled backslash
// (`\\d`), which in a JavaScript regex literal matches a backslash followed by
// the letter `d`. `Pattern` selects between the expressions as written and as
// evidently intended; everything else is defined once for both.
module AdminView {
  import opened Wrappers
  import opened Text
  import opened Js
  import opened Dates
  import opened Seqs
  import opened ProgramCatalog

  // ---------------------------------------------------------------------
  // Event labels
  // ---------------------------------------------------------------------

  /** `EVENT_LABELS`. */
  function EventLabels(): map<string, string>
  {
    map[
      "auth_login_success" := "Login success",
      "auth_login_failure" := "Login failed",
      "auth_signup_success" := "Sign-up success",
      "auth_signup_failure" := "Sign-up failed",
      "auth_google" := "Google login",
      "ui_create_application_clicked" := "Clicked add application",
      "ui_create_essay_clicked" := "Clicked new essay",
      "ui_right_sidebar_essay_selected" := "Selected essay in sidebar",
      "ui_error_boundary_triggered" := "UI error boundary triggered"]
  }

  /** Position `i` of `s` is where `\b\w` matches: a word character not preceded by one. */
  predicate StartsWord(s: string, i: nat)
    requires i < |s|
  {
    IsWordChar(s[i]) && (i == 0 || !IsWordChar(s[i - 1]))
  }

  /** `.replace(/_/g, ' ')`. */
  function UnderscoresToSpaces(s: string): (r: string)
    ensures |r| == |s| && '_' !in r
    ensures forall i :: 0 <= i < |s| ==> r[i] == if s[i] == '_' then ' ' else s[i]
  {
    seq(|s|, i requires 0 <= i < |s| => if s[i] == '_' then ' ' else s[i])
  }

  /** `.replace(/\b\w/g, (char) => char.toUpperCase())`. */
  function CapitalizeWords(s: string): (r: string)
    ensures |r| == |s|
  {
    seq(|s|, i requires 0 <= i < |s| => if StartsWord(s, i) then UpperChar(s[i]) else s[i])
  }

  /** Every word of `s` begins with something other than a lower-case letter. */
  predicate WordsCapitalized(s: string)
  {
    forall i :: 0 <= i < |s| && StartsWord(s, i) ==> !IsLowerAlpha(s[i])
  }

  /**
   * `formatEventLabel`: `Unknown event` for a missing or empty name, the
   * table's label for a known name, and otherwise the name with underscores
   * turned into spaces and each word capitalised, the letters otherwise kept.
   */
  function FormatEventLabel(name: Option<string>): (r: string)
    ensures name.None? || name.value == "" ==> r == "Unknown event"
    ensures name.Some? && name.value in EventLabels() ==> r == EventLabels()[name.value]
    ensures name.Some? && name.value != "" && name.value !in EventLabels() ==>
      && |r| == |name.value| && '_' !in r
      && Lower(r) == Lower(UnderscoresToSpaces(name.value))
      && WordsCapitalized(r)
      && forall i :: 0 <= i < |r| && !StartsWord(UnderscoresToSpaces(name.value), i) ==>
           r[i] == if name.value[i] == '_' then ' ' else name.value[i]
  {
    if name.None? || name.value == "" then "Unknown event"
    else if name.value in EventLabels() then EventLabels()[name.value]
    else
      var t := UnderscoresToSpaces(name.value);
      CapitalizeKeepsLetters(t);
      CapitalizePositions(t);
      CapitalizeWords(t)
  }

  /** Capitalising changes only the case of word-initial letters. */
  lemma CapitalizeKeepsLetters(s: string)
    ensures Lower(CapitalizeWords(s)) == Lower(s)
    ensures '_' !in s ==> '_' !in CapitalizeWords(s)
    ensures WordsCapitalized(CapitalizeWords(s))
  {
    var r := CapitalizeWords(s);
    assert forall i :: 0 <= i < |s| ==> IsWordChar(r[i]) == IsWordChar(s[i]);
    assert forall i :: 0 <= i < |s| ==> StartsWord(r, i) == StartsWord(s, i);
    assert forall i :: 0 <= i < |s| ==> LowerChar(r[i]) == LowerChar(s[i]);
  }

  /** Capitalising upper-cases the first character of each word and keeps every other character. */
  lemma CapitalizePositions(s: string)
    ensures forall i :: 0 <= i < |s| && !StartsWord(s, i) ==> CapitalizeWords(s)[i] == s[i]
    ensures forall i :: 0 <= i < |s| && StartsWord(s, i) ==> CapitalizeWords(s)[i] == UpperChar(s[i])
  {
  }

  /** Formatting an already formatted label of an unknown event changes nothing. */
  lemma CapitalizeWordsIdempotent(s: string)
    ensures CapitalizeWords(CapitalizeWords(s)) == CapitalizeWords(s)
  {
    var r := CapitalizeWords(s);
    assert forall i :: 0 <= i < |s| ==> IsWordChar(r[i]) == IsWordChar(s[i]);
    assert forall i :: 0 <= i < |s| ==> StartsWord(r, i) == StartsWord(s, i);
  }

  // ---------------------------------------------------------------------
  // Date fields
  // ---------------------------------------------------------------------

  /** The two readings of the file's date patterns. */
  datatype Pattern = AsWritten | Intended

  /**
   * `/^\\d{8}$/` as written accepts exactly a backslash followed by eight
   * `d`s; the intended `/^\d{8}$/` accepts exactly eight digits.
   */
  predicate EightDigitPattern(re: Pattern, raw: string)
  {
    match re
    case AsWritten => raw == "\\dddddddd"
    case Intended => |raw| == 8 && AllDigits(raw)
  }

  /**
   * `/^\\d{4}-\\d{2}-\\d{2}$/` as written accepts exactly `\dddd-\dd-\dd`;
   * the intended `/^\d{4}-\d{2}-\d{2}$/` accepts four digits, a dash, two
   * digits, a dash and two digits.
   */
  predicate IsoPattern(re: Pattern, v: string)
  {
    match re
    case AsWritten => v == "\\dddd-\\dd-\\dd"
    case Intended => IsIsoShaped(v)
  }

  predicate IsIsoShaped(v: string)
  {
    |v| == 10 && AllDigits(v[..4]) && v[4] == '-' && AllDigits(v[5..7]) && v[7] == '-' && AllDigits(v[8..])
  }

  /** What the eight-character branch needs of a match: no dash and no whitespace. */
  lemma EightDigitPatternChars(re: Pattern, raw: string)
    requires EightDigitPattern(re, raw)
    ensures 8 <= |raw| <= 9
    ensures forall i :: 0 <= i < |raw| ==> raw[i] != '-' && !IsSpace(raw[i])
  {
  }

  /** `month.padStart(2, '0')`. */
  function PadStart2(s: string): (r: string)
    ensures |r| >= 2 && (|s| >= 2 ==> r == s)
    ensures r[|r| - 1] == if s == [] then '0' else s[|s| - 1]
    ensures r == s[..0] + r[..|r| - |s|] + s && forall i :: 0 <= i < |r| - |s| ==> r[i] == '0'
  {
    if |s| == 0 then "00" else if |s| == 1 then "0" + s else s
  }

  /**
   * `normalizeDateInput`: `''` for blank input; the eight-character branch
   * reformats `YYYYMMDD` as `YYYY-MM-DD`; three dash-separated parts with a
   * four-character year get month and day padded to two characters; anything
   * else is returned trimmed.
   */
  function NormalizeDateInputWith(re: Pattern, value: Option<string>): (r: string)
    ensures IsBlank(value.GetOr("")) <==> r == ""
  {
    var raw := Trim(value.GetOr(""));
    if raw == "" then "" else NormalizeTrimmed(re, raw)
  }

  /** The branches after the blank test, on the trimmed, non-empty value. */
  function NormalizeTrimmed(re: Pattern, raw: string): (r: string)
    requires raw != ""
    ensures r != ""
  {
    if EightDigitPattern(re, raw) then
      EightDigitPatternChars(re, raw);
      raw[..4] + "-" + raw[4..6] + "-" + raw[6..8]
    else
      var parts := Split(raw, '-');
      if |parts| == 3 && |parts[0]| == 4 then parts[0] + "-" + PadStart2(parts[1]) + "-" + PadStart2(parts[2])
      else raw
  }

  /** The intended normaliser: blank input is cleared, anything else keeps some text. */
  function NormalizeDateInput(value: Option<string>): (r: string)
    ensures IsBlank(value.GetOr("")) <==> r == ""
  {
    NormalizeDateInputWith(Intended, value)
  }

  function NormalizeDateInputAsWritten(value: Option<string>): string { NormalizeDateInputWith(AsWritten, value) }

  /**
   * The checks after the pattern: month 1..12 and day 1..31, then the
   * `Date.UTC` round trip, which fails for a NaN field, for years 0..99
   * (read as 1900..1999) and for a day past the end of its month.
   */
  predicate DateFieldsValid(year: Num, month: Num, day: Num)
  {
    && year.Finite? && month.Finite? && day.Finite?
    && 1.0 <= month.v <= 12.0 && 1.0 <= day.v <= 31.0
    && IsWhole(year.v) && IsWhole(month.v) && IsWhole(day.v)
    && JsYear(year.v.Floor) == year.v.Floor
    && day.v.Floor <= DaysInMonth(year.v.Floor, month.v.Floor)
  }

  /** The `getUTC*` getters return whole numbers, so only a whole field can equal one. */
  predicate IsWhole(x: real)
  {
    x == x.Floor as real
  }

  /** `isValidDateString`. */
  predicate IsValidDateStringWith(re: Pattern, v: string)
  {
    && IsoPattern(re, v)
    && var parts := Split(v, '-');
    && |parts| >= 3
    && DateFieldsValid(ToNumber(parts[0]), ToNumber(parts[1]), ToNumber(parts[2]))
  }

  /** The intended validator accepts only `YYYY-MM-DD` shaped text. */
  predicate IsValidDateString(v: string)
    ensures IsValidDateString(v) ==> IsIsoShaped(v)
  {
    IsValidDateStringWith(Intended, v)
  }

  predicate IsValidDateStringAsWritten(v: string) { IsValidDateStringWith(AsWritten, v) }

  /** As written, the validator accepts no string at all: its one match has a NaN year. */
  lemma {:induction false} AsWrittenRejectsEveryDate(v: string)
    ensures !IsValidDateStringAsWritten(v)
  {
    if v == "\\dddd-\\dd-\\dd" {
      assert v == "\\dddd" + ['-'] + "\\dd-\\dd";
      SplitAround("\\dddd", "\\dd-\\dd", '-');
      ToNumberOfNonNumeric("\\dddd");
    }
  }

  /** As written, a `YYYYMMDD` value is not reformatted: it comes back as typed. */
  lemma AsWrittenKeepsEightDigits(raw: string)
    requires |raw| == 8 && AllDigits(raw)
    ensures NormalizeDateInputAsWritten(Some(raw)) == raw
    ensures NormalizeDateInput(Some(raw)) == raw[..4] + "-" + raw[4..6] + "-" + raw[6..8]
  {
    TrimStartOfTrimmed(raw);
    TrimEndOfTrimmed(raw);
    SplitNoSep(raw, '-');
  }

  /** The three parts of an ISO-shaped string, as `split('-')` cuts them. */
  lemma {:induction false} SplitIsoShaped(v: string)
    requires IsIsoShaped(v)
    ensures Split(v, '-') == [v[..4], v[5..7], v[8..]]
  {
    assert v == v[..4] + ['-'] + (v[5..7] + ['-'] + v[8..]);
    SplitAround(v[..4], v[5..7] + ['-'] + v[8..], '-');
    SplitAround(v[5..7], v[8..], '-');
    SplitNoSep(v[8..], '-');
  }

  /** The intended validator reads the three numbers of an ISO-shaped string. */
  lemma IsValidDateStringReads(v: string)
    requires IsIsoShaped(v)
    ensures IsValidDateString(v) <==>
      DateFieldsValid(Finite(DigitsValue(v[..4]) as real), Finite(DigitsValue(v[5..7]) as real), Finite(DigitsValue(v[8..]) as real))
  {
    SplitIsoShaped(v);
    ToNumberOfDigits(v[..4]);
    ToNumberOfDigits(v[5..7]);
    ToNumberOfDigits(v[8..]);
  }

  /** Every real date with a four-digit year, written `YYYY-MM-DD`, passes the intended validator. */
  lemma IsoFormIsValid(dt: Date)
    requires Valid(dt) && 1000 <= dt.year <= 9999
    ensures IsIsoShaped(IsoForm(dt))
    ensures IsValidDateString(IsoForm(dt))
  {
    NatToStringFourDigits(dt.year);
    DigitsValueOfNatToString(dt.year);
    Pad2Value(dt.month);
    Pad2Value(dt.day);
    var v := IsoForm(dt);
    assert v[..4] == NatToString(dt.year);
    assert v[5..7] == Pad2(dt.month);
    assert v[8..] == Pad2(dt.day);
    IsValidDateStringReads(v);
  }

  /** The intended validator rejects a day past the end of its month, such as 30 February. */
  lemma IntendedRejectsOverflowDay(v: string)
    requires IsIsoShaped(v)
    requires DigitsValue(v[5..7]) == 2 && DigitsValue(v[8..]) == 30
    ensures !IsValidDateString(v)
  {
    IsValidDateStringReads(v);
  }

  /** The intended eight-digit branch yields an ISO-shaped string. */
  lemma EightDigitsBecomeIsoShaped(raw: string)
    requires |raw| == 8 && AllDigits(raw)
    ensures IsIsoShaped(NormalizeDateInput(Some(raw)))
  {
    AsWrittenKeepsEightDigits(raw);
    var r := NormalizeDateInput(Some(raw));
    assert r[..4] == raw[..4] && r[5..7] == raw[4..6] && r[8..] == raw[6..8];
  }

  /** A three-part value whose parts hold no dash splits back into those parts. */
  lemma {:induction false} SplitThree(a: string, b: string, c: string)
    requires '-' !in a && '-' !in b && '-' !in c
    ensures Split(a + "-" + b + "-" + c, '-') == [a, b, c]
  {
    assert a + "-" + b + "-" + c == a + ['-'] + (b + ['-'] + c);
    SplitAround(a, b + ['-'] + c, '-');
    SplitAround(b, c, '-');
    SplitNoSep(c, '-');
  }

  /** A trimmed `Y-M-D` value with a four-character year and padded parts is a fixed point. */
  lemma ThreePartsFixed(re: Pattern, r: string, y: string, m: string, d: string)
    requires r == y + "-" + m + "-" + d && '-' !in y && '-' !in m && '-' !in d
    requires |y| == 4 && |m| >= 2 && |d| >= 2
    requires !IsSpace(r[0]) && !IsSpace(r[|r| - 1])
    ensures NormalizeDateInputWith(re, Some(r)) == r
  {
    TrimStartOfTrimmed(r);
    TrimEndOfTrimmed(r);
    assert Trim(r) == r;
    assert !EightDigitPattern(re, r) by {
      if EightDigitPattern(re, r) {
        EightDigitPatternChars(re, r);
      }
    }
    SplitThree(y, m, d);
    assert NormalizeTrimmed(re, r) == r;
  }

  /** Padding adds only zeros, so it adds no dash. */
  lemma PadStart2NoDash(s: string)
    requires '-' !in s
    ensures '-' !in PadStart2(s)
  {
  }

  /** The eight-character branch yields a fixed point. */
  lemma EightDigitBranchFixed(re: Pattern, raw: string)
    requires raw != "" && EightDigitPattern(re, raw)
    ensures NormalizeDateInputWith(re, Some(NormalizeTrimmed(re, raw))) == NormalizeTrimmed(re, raw)
  {
    EightDigitPatternChars(re, raw);
    var r := NormalizeTrimmed(re, raw);
    var y, m, d := raw[..4], raw[4..6], raw[6..8];
    assert r == y + "-" + m + "-" + d;
    assert r[0] == raw[0] && r[|r| - 1] == raw[7];
    ThreePartsFixed(re, r, y, m, d);
  }

  /** The three-part branch yields a fixed point. */
  lemma ThreePartBranchFixed(re: Pattern, raw: string)
    requires raw != "" && !IsSpace(raw[0]) && !IsSpace(raw[|raw| - 1]) && !EightDigitPattern(re, raw)
    requires var parts := Split(raw, '-'); |parts| == 3 && |parts[0]| == 4
    ensures NormalizeDateInputWith(re, Some(NormalizeTrimmed(re, raw))) == NormalizeTrimmed(re, raw)
  {
    var parts := Split(raw, '-');
    var r := NormalizeTrimmed(re, raw);
    var y, m, d := parts[0], PadStart2(parts[1]), PadStart2(parts[2]);
    assert r == y + "-" + m + "-" + d;
    ThreePartsJoin(raw);
    PadStart2NoDash(parts[1]);
    PadStart2NoDash(parts[2]);
    PaddedEnds(raw, parts[0], parts[1], parts[2]);
    ThreePartsFixed(re, r, y, m, d);
  }

  /** Three parts of a split joined back with dashes give the text. */
  lemma ThreePartsJoin(raw: string)
    requires |Split(raw, '-')| == 3
    ensures var parts := Split(raw, '-'); raw == parts[0] + "-" + parts[1] + "-" + parts[2]
  {
    var parts := Split(raw, '-');
    JoinSplit(raw, '-');
    assert Join(parts[2..], "-") == parts[2];
    assert Join(parts[1..], "-") == parts[1] + "-" + parts[2];
  }

  /** Padding month and day keeps the first character, and the last unless the day was empty. */
  lemma PaddedEnds(raw: string, y: string, m: string, d: string)
    requires raw == y + "-" + m + "-" + d && |y| == 4
    ensures var r := y + "-" + PadStart2(m) + "-" + PadStart2(d);
      r[0] == raw[0] && r[|r| - 1] == (if d == [] then '0' else raw[|raw| - 1])
  {
  }

  /** A trimmed value that no branch reformats is returned as it is, again and again. */
  lemma UnchangedBranchFixed(re: Pattern, raw: string)
    requires raw != "" && !IsSpace(raw[0]) && !IsSpace(raw[|raw| - 1]) && !EightDigitPattern(re, raw)
    requires var parts := Split(raw, '-'); !(|parts| == 3 && |parts[0]| == 4)
    ensures NormalizeTrimmed(re, raw) == raw
    ensures NormalizeDateInputWith(re, Some(raw)) == raw
  {
    TrimStartOfTrimmed(raw);
    TrimEndOfTrimmed(raw);
  }

  /**
   * Normalising a normalised date changes nothing, under either reading of
   * the pattern: the submit handler re-normalising a field already
   * normalised on blur leaves it as it is.
   */
  lemma NormalizeDateInputIdempotent(re: Pattern, value: Option<string>)
    ensures NormalizeDateInputWith(re, Some(NormalizeDateInputWith(re, value))) == NormalizeDateInputWith(re, value)
  {
    var raw := Trim(value.GetOr(""));
    if raw == "" {
      assert Trim("") == "";
    } else if EightDigitPattern(re, raw) {
      EightDigitBranchFixed(re, raw);
    } else {
      var parts := Split(raw, '-');
      if |parts| == 3 && |parts[0]| == 4 {
        ThreePartBranchFixed(re, raw);
      } else {
        UnchangedBranchFixed(re, raw);
      }
    }
  }

  // ---------------------------------------------------------------------
  // Source links
  // ---------------------------------------------------------------------

  /** `/^https?:\/\//i`: `http://` or `https://` in any letter case. */
  predicate HasHttpPrefix(s: string)
  {
    (|s| >= 7 && Lower(s[..7]) == "http://") || (|s| >= 8 && Lower(s[..8]) == "https://")
  }

  /**
   * `normalizeSourceUrl`: `''` for blank input, the trimmed value when it
   * already has an http(s) prefix, and otherwise the trimmed value after
   * `https://`.
   */
  function NormalizeSourceUrl(value: Option<string>): (r: string)
    ensures r == "" <==> IsBlank(value.GetOr(""))
    ensures r != "" ==> HasHttpPrefix(r)
    ensures r != "" && HasHttpPrefix(Trim(value.GetOr(""))) ==> r == Trim(value.GetOr(""))
    ensures r != "" && !HasHttpPrefix(Trim(value.GetOr(""))) ==> r == "https://" + Trim(value.GetOr(""))
  {
    var raw := Trim(value.GetOr(""));
    if raw == "" then ""
    else if HasHttpPrefix(raw) then raw
    else
      var r := "https://" + raw;
      assert r[..8] == "https://";
      assert Lower("https://") == "https://";
      r
  }

  /** Normalising a normalised link changes nothing. */
  lemma NormalizeSourceUrlIdempotent(value: Option<string>)
    ensures NormalizeSourceUrl(Some(NormalizeSourceUrl(value))) == NormalizeSourceUrl(value)
  {
    var raw := Trim(value.GetOr(""));
    var r := NormalizeSourceUrl(value);
    if raw == "" {
      assert Trim("") == "";
    } else {
      TrimIdempotent(value.GetOr(""));
      if !HasHttpPrefix(raw) {
        assert r == "https://" + raw;
        TrimStartOfTrimmed(r);
        TrimEndOfTrimmed(r);
      }
    }
  }

  // ---------------------------------------------------------------------
  // The catalog form
  // ---------------------------------------------------------------------

  /** The catalog form's fields, as the inputs hold them. */
  datatype CatalogForm = CatalogForm(
    id: string,
    schoolName: string,
    programName: string,
    degree: string,
    country: string,
    city: string,
    applicationFee: string,
    feeCurrency: string,
    deadlineRound1: string,
    deadlineRound2: string,
    sourceUrl: string,
    lastUpdated: string,
    confidence: string)

  /** The messages the form check can leave on a field. */
  datatype ErrorMessage =
    | RequiredMessage | CurrencyMessage | FeeNotNumberMessage | FeeNegativeMessage | DateMessage
    | RoundOrderMessage | FutureMessage | UrlProtocolMessage | UrlInvalidMessage

  /** The text shown for each message. */
  function MessageText(m: ErrorMessage): string
  {
    match m
    case RequiredMessage => "Required field."
    case CurrencyMessage => "Use 3-letter ISO code (e.g., USD)."
    case FeeNotNumberMessage => "Must be a number."
    case FeeNegativeMessage => "Must be 0 or more."
    case DateMessage => "Use a real date in YYYY-MM-DD."
    case RoundOrderMessage => "Round 2 must be after Round 1."
    case FutureMessage => "Last updated cannot be in the future."
    case UrlProtocolMessage => "URL must start with http or https."
    case UrlInvalidMessage => "Invalid URL."
  }

  /**
   * The errors object. The source fills an object field by field; here each
   * of the ten fields a message can be left on holds that message, or `None`
   * when the field has no key in the object.
   */
  datatype CatalogErrors = CatalogErrors(
    schoolName: Option<ErrorMessage>,
    programName: Option<ErrorMessage>,
    degree: Option<ErrorMessage>,
    country: Option<ErrorMessage>,
    feeCurrency: Option<ErrorMessage>,
    applicationFee: Option<ErrorMessage>,
    deadlineRound1: Option<ErrorMessage>,
    deadlineRound2: Option<ErrorMessage>,
    lastUpdated: Option<ErrorMessage>,
    sourceUrl: Option<ErrorMessage>)

  /** `Object.keys(errors).length === 0`. */
  predicate NoErrors(errors: CatalogErrors)
  {
    errors == CatalogErrors(None, None, None, None, None, None, None, None, None, None)
  }

  /**
   * The date normaliser, the date validator and the link normaliser the form
   * check uses. The check is stated for any such triple; `Rules` gives the
   * triple under either reading of the date patterns.
   */
  datatype FormRules = FormRules(normalize: string -> string, valid: string -> bool, normalizeUrl: string -> string)

  function Rules(re: Pattern): FormRules
  {
    FormRules((s: string) => NormalizeDateInputWith(re, Some(s)), (s: string) => IsValidDateStringWith(re, s),
              (s: string) => NormalizeSourceUrl(Some(s)))
  }

  /** A required field: flagged when missing or blank. */
  function RequiredError(value: string): (e: Option<ErrorMessage>)
  {
    if IsBlank(value) then Some(RequiredMessage) else None
  }

  /** The currency: flagged when present and not three characters long once trimmed. */
  function CurrencyError(currency: string): (e: Option<ErrorMessage>)
  {
    if currency != "" && |Trim(currency)| != 3 then Some(CurrencyMessage) else None
  }

  /** The fee: when present, flagged as not a number, or else as negative. */
  function FeeError(fee: string): (e: Option<ErrorMessage>)
    ensures e.None? <==> Trim(fee) == "" || (ToNumber(Trim(fee)).Finite? && ToNumber(Trim(fee)).v >= 0.0)
    ensures e == Some(FeeNotNumberMessage) <==> Trim(fee) != "" && ToNumber(Trim(fee)).NaN?
  {
    var trimmed := Trim(fee);
    if trimmed == "" then None
    else match ToNumber(trimmed)
      case NaN => Some(FeeNotNumberMessage)
      case Finite(v) => if v < 0.0 then Some(FeeNegativeMessage) else None
  }

  /** A non-empty date field that does not normalise to a valid date. */
  predicate DateInvalid(rules: FormRules, value: string)
  {
    value != "" && !rules.valid(rules.normalize(value))
  }

  function DateError(rules: FormRules, value: string): (e: Option<ErrorMessage>)
  {
    if DateInvalid(rules, value) then Some(DateMessage) else None
  }

  /** The round-order check: both rounds valid and round 2 earlier than round 1. */
  predicate RoundsOutOfOrder(rules: FormRules, form: CatalogForm)
  {
    var round1 := rules.normalize(form.deadlineRound1);
    var round2 := rules.normalize(form.deadlineRound2);
    && form.deadlineRound1 != "" && form.deadlineRound2 != ""
    && rules.valid(round1) && rules.valid(round2)
    && LexLess(round2, round1)
  }

  /** The future check: a valid last-updated date after today's `YYYY-MM-DD`. */
  predicate UpdatedInFuture(rules: FormRules, form: CatalogForm, today: string)
  {
    var normalized := rules.normalize(form.lastUpdated);
    form.lastUpdated != "" && rules.valid(normalized) && LexLess(today, normalized)
  }

  /**
   * The link: when present, flagged when `new URL(...)` throws on the
   * normalised link, or reads a protocol other than `http:` and `https:`.
   * `parseUrl` stands for the constructor: the protocol of the parsed link,
   * or `None` when it throws.
   */
  function UrlError(rules: FormRules, sourceUrl: string, parseUrl: string -> Option<string>): (e: Option<ErrorMessage>)
  {
    if sourceUrl == "" then None
    else match parseUrl(rules.normalizeUrl(sourceUrl))
      case None => Some(UrlInvalidMessage)
      case Some(protocol) => if protocol in {"http:", "https:"} then None else Some(UrlProtocolMessage)
  }

  /**
   * `validateCatalogForm`. The two later checks on round 2 and on the last
   * update replace the date message on their field; both need a valid date,
   * so they never meet one. `today` is `new Date().toISOString().slice(0, 10)`.
   */
  function CatalogFormErrorsWith(rules: FormRules, form: CatalogForm, today: string,
                                 parseUrl: string -> Option<string>): (errors: CatalogErrors)
  {
    CatalogErrors(
      RequiredError(form.schoolName),
      RequiredError(form.programName),
      RequiredError(form.degree),
      RequiredError(form.country),
      CurrencyError(form.feeCurrency),
      FeeError(form.applicationFee),
      DateError(rules, form.deadlineRound1),
      if RoundsOutOfOrder(rules, form) then Some(RoundOrderMessage) else DateError(rules, form.deadlineRound2),
      if UpdatedInFuture(rules, form, today) then Some(FutureMessage) else DateError(rules, form.lastUpdated),
      UrlError(rules, form.sourceUrl, parseUrl))
  }

  /**
   * The intended form check: each required field is flagged exactly when
   * blank, the currency exactly when not three characters, and the fee
   * exactly when it is given and is not a non-negative number.
   */
  function CatalogFormErrors(form: CatalogForm, today: string, parseUrl: string -> Option<string>): (errors: CatalogErrors)
    ensures && (errors.schoolName.Some? <==> IsBlank(form.schoolName))
      && (errors.programName.Some? <==> IsBlank(form.programName))
      && (errors.degree.Some? <==> IsBlank(form.degree))
      && (errors.country.Some? <==> IsBlank(form.country))
    ensures errors.feeCurrency.Some? <==> form.feeCurrency != "" && |Trim(form.feeCurrency)| != 3
    ensures var fee := ToNumber(Trim(form.applicationFee));
      errors.applicationFee.Some? <==> !IsBlank(form.applicationFee) && (fee.NaN? || fee.v < 0.0)
  {
    RequiredFieldsFlagged(Rules(Intended), form, today, parseUrl);
    FeeFieldsFlagged(Rules(Intended), form, today, parseUrl);
    CatalogFormErrorsWith(Rules(Intended), form, today, parseUrl)
  }

  function CatalogFormErrorsAsWritten(form: CatalogForm, today: string, parseUrl: string -> Option<string>): CatalogErrors
  {
    CatalogFormErrorsWith(Rules(AsWritten), form, today, parseUrl)
  }

  /** The four required fields are flagged, with the required message, exactly when blank. */
  lemma RequiredFieldsFlagged(rules: FormRules, form: CatalogForm, today: string, parseUrl: string -> Option<string>)
    ensures var errors := CatalogFormErrorsWith(rules, form, today, parseUrl);
      && (errors.schoolName.Some? <==> IsBlank(form.schoolName))
      && (errors.programName.Some? <==> IsBlank(form.programName))
      && (errors.degree.Some? <==> IsBlank(form.degree))
      && (errors.country.Some? <==> IsBlank(form.country))
    ensures var errors := CatalogFormErrorsWith(rules, form, today, parseUrl);
      && (errors.schoolName.Some? ==> errors.schoolName.value == RequiredMessage)
      && (errors.programName.Some? ==> errors.programName.value == RequiredMessage)
      && (errors.degree.Some? ==> errors.degree.value == RequiredMessage)
      && (errors.country.Some? ==> errors.country.value == RequiredMessage)
  {
  }

  /**
   * The currency is flagged exactly when present with a trimmed length other
   * than three; the fee exactly when present and not a non-negative number,
   * with the not-a-number message exactly when it does not parse.
   */
  lemma FeeFieldsFlagged(rules: FormRules, form: CatalogForm, today: string, parseUrl: string -> Option<string>)
    ensures var errors := CatalogFormErrorsWith(rules, form, today, parseUrl);
      && (errors.feeCurrency.Some? <==> form.feeCurrency != "" && |Trim(form.feeCurrency)| != 3)
      && (errors.feeCurrency.Some? ==> errors.feeCurrency.value == CurrencyMessage)
    ensures var errors := CatalogFormErrorsWith(rules, form, today, parseUrl);
      var fee := ToNumber(Trim(form.applicationFee));
      && (errors.applicationFee.Some? <==> !IsBlank(form.applicationFee) && (fee.NaN? || fee.v < 0.0))
      && (errors.applicationFee == Some(FeeNotNumberMessage) <==> !IsBlank(form.applicationFee) && fee.NaN?)
      && (errors.applicationFee == Some(FeeNegativeMessage) <==> !IsBlank(form.applicationFee) && fee.Finite? && fee.v < 0.0)
  {
  }

  /**
   * A date field is flagged when it does not normalise to a valid date;
   * round 2 also, with its own message, when both rounds are valid and round
   * 2 comes first; the last update also, with its own message, when it is a
   * valid date after today.
   */
  lemma DateFieldsFlagged(rules: FormRules, form: CatalogForm, today: string, parseUrl: string -> Option<string>)
    ensures var errors := CatalogFormErrorsWith(rules, form, today, parseUrl);
      && (errors.deadlineRound1.Some? <==> DateInvalid(rules, form.deadlineRound1))
      && (errors.deadlineRound2.Some? <==> DateInvalid(rules, form.deadlineRound2) || RoundsOutOfOrder(rules, form))
      && (errors.lastUpdated.Some? <==> DateInvalid(rules, form.lastUpdated) || UpdatedInFuture(rules, form, today))
    ensures var errors := CatalogFormErrorsWith(rules, form, today, parseUrl);
      && (errors.deadlineRound2 == Some(RoundOrderMessage) <==> RoundsOutOfOrder(rules, form))
      && (errors.lastUpdated == Some(FutureMessage) <==> UpdatedInFuture(rules, form, today))
    ensures !RoundsOutOfOrder(rules, form) || !DateInvalid(rules, form.deadlineRound2)
    ensures !UpdatedInFuture(rules, form, today) || !DateInvalid(rules, form.lastUpdated)
  {
  }

  /** The link is flagged exactly when present and not parsed with an http or https protocol. */
  lemma SourceUrlFlagged(rules: FormRules, form: CatalogForm, today: string, parseUrl: string -> Option<string>)
    ensures var errors := CatalogFormErrorsWith(rules, form, today, parseUrl);
      var parsed := parseUrl(rules.normalizeUrl(form.sourceUrl));
      && (errors.sourceUrl.Some? <==> form.sourceUrl != "" && (parsed.None? || parsed.value !in {"http:", "https:"}))
      && (errors.sourceUrl == Some(UrlInvalidMessage) <==> form.sourceUrl != "" && parsed.None?)
  {
  }

  /** Empty date fields raise no date error, under either reading. */
  lemma EmptyDatesRaiseNothing(rules: FormRules, form: CatalogForm, today: string, parseUrl: string -> Option<string>)
    requires form.deadlineRound1 == "" && form.deadlineRound2 == "" && form.lastUpdated == ""
    ensures var errors := CatalogFormErrorsWith(rules, form, today, parseUrl);
      errors.deadlineRound1.None? && errors.deadlineRound2.None? && errors.lastUpdated.None?
  {
  }

  /** As written, any non-empty date field is flagged, so a form with a deadline can never be saved. */
  lemma AsWrittenFlagsEveryDate(form: CatalogForm, today: string, parseUrl: string -> Option<string>)
    requires form.deadlineRound1 != ""
    ensures var errors := CatalogFormErrorsAsWritten(form, today, parseUrl);
      errors.deadlineRound1 == Some(DateMessage) && !NoErrors(errors)
  {
    AsWrittenRejectsEveryDate(NormalizeDateInputAsWritten(Some(form.deadlineRound1)));
  }

  /** A `YYYY-MM-DD` value is already normalised. */
  lemma IsoShapedIsNormalized(v: string)
    requires IsIsoShaped(v)
    ensures NormalizeDateInput(Some(v)) == v
  {
    assert v == v[..4] + "-" + v[5..7] + "-" + v[8..];
    ThreePartsFixed(Intended, v, v[..4], v[5..7], v[8..]);
  }

  /**
   * With the intended patterns, a first-round deadline written as a real
   * `YYYY-MM-DD` date raises no error of its own.
   */
  lemma IntendedAcceptsRealDeadline(form: CatalogForm, dt: Date, today: string, parseUrl: string -> Option<string>)
    requires Valid(dt) && 1000 <= dt.year <= 9999
    requires form.deadlineRound1 == IsoForm(dt)
    ensures CatalogFormErrors(form, today, parseUrl).deadlineRound1.None?
  {
    IsoFormIsValid(dt);
    IsoShapedIsNormalized(IsoForm(dt));
  }

  // ---------------------------------------------------------------------
  // Catalog search
  // ---------------------------------------------------------------------

  /** `filteredCatalog`: every item for a blank search, else the matching items in catalog order. */
  function FilterCatalog(catalog: seq<CatalogItem>, search: string): (r: seq<CatalogItem>)
    ensures IsBlank(search) ==> r == catalog
    ensures !IsBlank(search) ==> forall item :: item in r <==> item in catalog && MatchesCatalogQuery(Lower(Trim(search)))(item)
    ensures !IsBlank(search) ==> IsSubsequence(r, catalog)
    ensures !IsBlank(search) ==> forall item ::
      multiset(r)[item] == if MatchesCatalogQuery(Lower(Trim(search)))(item) then multiset(catalog)[item] else 0
    ensures |r| <= |catalog|
  {
    var needle := Lower(Trim(search));
    if needle == "" then catalog
    else
      FilterMembers(catalog, MatchesCatalogQuery(needle));
      FilterExact(catalog, MatchesCatalogQuery(needle));
      Filter(catalog, MatchesCatalogQuery(needle))
  }

  /** Searching the results again with the same text changes nothing. */
  lemma FilterCatalogNarrows(catalog: seq<CatalogItem>, search: string)
    ensures FilterCatalog(FilterCatalog(catalog, search), search) == FilterCatalog(catalog, search)
  {
    if !IsBlank(search) {
      FilterIdempotent(catalog, MatchesCatalogQuery(Lower(Trim(search))));
    }
  }

  // ---------------------------------------------------------------------
  // "Load more" pagination
  // ---------------------------------------------------------------------

  const UsersBatch: nat := 20
  const EventsBatch: nat := 30
  const FeedbackBatch: nat := 20

  /** `visibleCount < rows.length`. */
  predicate HasMore(visible: nat, total: nat) { visible < total }

  /** The button shows exactly when some row is hidden. */
  lemma HasMoreIffHidden<T>(rows: seq<T>, visible: nat)
    ensures HasMore(visible, |rows|) <==> |Take(rows, visible)| < |rows|
  {
  }

  /** One more batch shows more rows whenever the button was showing, and never fewer. */
  lemma LoadMoreShowsMore<T>(rows: seq<T>, visible: nat, batch: nat)
    requires batch > 0
    ensures Take(rows, visible) <= Take(rows, visible + batch)
    ensures HasMore(visible, |rows|) ==> |Take(rows, visible)| < |Take(rows, visible + batch)|
  {
  }

  /** One list's visible count, as the component's state holds it. */
  class Pager {
    const batch: nat
    var visible: nat

    /** The count never drops below one batch. */
    predicate Valid()
      reads this
    {
      batch > 0 && visible >= batch
    }

    /** `useState(BATCH)`. */
    constructor(batch: nat)
      requires batch > 0
      ensures this.batch == batch && visible == batch && Valid()
    {
      this.batch := batch;
      visible := batch;
    }

    /** The rows the list shows: `rows.slice(0, visibleCount)`. */
    function Shown<T>(rows: seq<T>): (r: seq<T>)
      reads this
      ensures r <= rows && |r| == if visible < |rows| then visible else |rows|
    {
      Take(rows, visible)
    }

    /** The "load more" button: `setVisibleCount((prev) => prev + BATCH)`. */
    method LoadMore()
      requires Valid()
      modifies this
      ensures visible == old(visible) + batch && Valid()
    {
      visible := visible + batch;
    }

    /** The effect on the list's length: back to one batch. */
    method LengthChanged()
      requires Valid()
      modifies this
      ensures visible == batch && Valid()
    {
      visible := batch;
    }
  }

  // ---------------------------------------------------------------------
  // Role toggle
  // ---------------------------------------------------------------------

  /** The role the confirmation modal proposes: `user` for an admin, `admin` for anyone else. */
  function NextRole(role: string): (r: string)
    ensures r in {"user", "admin"} && r != role
    ensures r == "user" <==> role == "admin"
  {
    if role == "admin" then "user" else "admin"
  }

  /** Toggling twice returns a user or an admin to their role. */
  lemma NextRoleInvolution(role: string)
    requires role in {"user", "admin"}
    ensures NextRole(NextRole(role)) == role
  {
  }

}
