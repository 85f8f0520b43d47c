// The client's derivation engine (frontend/src/app/derived.js): deadline
// parsing and day offsets, the readiness score, the portfolio summary,
// generated notifications, the decision matrix, the essay line diff, the
// month timeline, deadline buckets and document progress.
module Derived {
  import opened Wrappers
  import opened Text
  import opened Js
  import opened Dates
  import opened Seqs
  import opened Records
  import opened Numbers
  import Helpers

  // ---------------------------------------------------------------- dates

  /** `Number(parts[i])`, or NaN past the end (a missing destructured part). */
  function DatePart(parts: seq<string>, i: nat): Num
  {
    if i < |parts| then ToNumber(parts[i]) else NaN
  }

  /**
   * `parseDate`: an empty value has no date; otherwise the first three
   * `-`-separated parts are read as numbers and all three must be truthy.
   */
  function ParseDate(s: string): (r: Option<Date>)
    ensures r.Some? ==> Valid(r.value)
    ensures s == "" ==> r.None?
  {
    if s == "" then None else DateOfParts(Split(s, '-'))
  }

  /** The date of the split parts, when the first three are truthy numbers. */
  function DateOfParts(parts: seq<string>): (r: Option<Date>)
    requires forall k :: 0 <= k < |parts| ==> '-' !in parts[k]
    ensures r.Some? ==> Valid(r.value)
  {
    var y, m, d := DatePart(parts, 0), DatePart(parts, 1), DatePart(parts, 2);
    if NumTruthy(y) && NumTruthy(m) && NumTruthy(d) then
      PartsNonNegative(parts);
      Some(DateOfNumbers(y.v, m.v, d.v))
    else None
  }

  /**
   * `new Date(y, m - 1, d)` for positive numbers: each argument is truncated
   * towards zero, years 0..99 stand for 1900..1999, and day 0 is the last day
   * of the previous month.
   */
  function DateOfNumbers(y: real, m: real, d: real): (r: Date)
    requires y > 0.0 && m > 0.0 && d > 0.0
    ensures Valid(r)
  {
    var year, month, day := JsYear(Truncate(y)), Truncate(m - 1.0) + 1, Truncate(d);
    if day == 0 then PrevDay(Normalize(year, month, 1)) else Normalize(year, month, day)
  }

  /** A day of at least 1 is the truncated date; a day below 1 is the day before the 1st. */
  lemma DateOfNumbersCases(y: real, m: real, d: real)
    requires y > 0.0 && m > 0.0 && d > 0.0
    ensures d >= 1.0 ==> DateOfNumbers(y, m, d) == Normalize(JsYear(Truncate(y)), Truncate(m - 1.0) + 1, Truncate(d))
    ensures d < 1.0 ==> NextDay(DateOfNumbers(y, m, d)) == Normalize(JsYear(Truncate(y)), Truncate(m - 1.0) + 1, 1)
  {
    if d < 1.0 {
      PrevDayNext(Normalize(JsYear(Truncate(y)), Truncate(m - 1.0) + 1, 1));
    }
  }

  lemma PartsNonNegative(parts: seq<string>)
    requires forall k :: 0 <= k < |parts| ==> '-' !in parts[k]
    ensures forall i: nat :: DatePart(parts, i).Finite? ==> DatePart(parts, i).v >= 0.0
  {
    forall i: nat | i < |parts| ensures ToNumber(parts[i]).Finite? ==> ToNumber(parts[i]).v >= 0.0 {
      ToNumberNoMinus(parts[i]);
    }
  }

  lemma SplitIsoForm(dt: Date)
    requires Valid(dt)
    ensures Split(IsoForm(dt), '-') == [NatToString(dt.year), Pad2(dt.month), Pad2(dt.day)]
  {
    var y, m, d := NatToString(dt.year), Pad2(dt.month), Pad2(dt.day);
    assert IsoForm(dt) == y + ['-'] + (m + ['-'] + d);
    assert '-' !in y by { assert forall i :: 0 <= i < |y| ==> IsDigit(y[i]); }
    assert '-' !in m by { assert forall i :: 0 <= i < |m| ==> IsDigit(m[i]); }
    assert '-' !in d by { assert forall i :: 0 <= i < |d| ==> IsDigit(d[i]); }
    SplitAround(y, m + ['-'] + d, '-');
    SplitAround(m, d, '-');
    SplitNoSep(d, '-');
  }

  /**
   * Dash-free parts whose first three read as whole numbers (a year of at
   * least 100, a month and a day of at least 1) make the date of those numbers;
   * any further parts are ignored.
   */
  lemma DateOfNumericParts(parts: seq<string>, y: nat, m: nat, d: nat)
    requires forall k :: 0 <= k < |parts| ==> '-' !in parts[k]
    requires |parts| >= 3
    requires ToNumber(parts[0]) == Finite(y as real) && ToNumber(parts[1]) == Finite(m as real)
    requires ToNumber(parts[2]) == Finite(d as real)
    requires y >= 100 && m >= 1 && d >= 1
    ensures DateOfParts(parts) == Some(Normalize(y, m, d))
  {
    DateOfFractionalParts(y, m, d, 0.0);
    assert d as real + 0.0 == d as real;
  }

  /** A fractional part is cut off: `2025-03-15.9` is the 15th, and `2025-03-0.5` the last of February. */
  lemma DateOfFractionalParts(y: nat, m: nat, d: nat, f: real)
    requires y >= 100 && m >= 1 && 0.0 <= f < 1.0
    ensures d >= 1 ==> DateOfNumbers(y as real, m as real, d as real + f) == Normalize(y, m, d)
    ensures d == 0 && f > 0.0 ==> NextDay(DateOfNumbers(y as real, m as real, f)) == Normalize(y, m, 1)
  {
    assert Truncate((m - 1) as real) == m - 1;
    assert d >= 1 ==> Truncate(d as real + f) == d;
    if d >= 1 {
      DateOfNumbersCases(y as real, m as real, d as real + f);
    } else if f > 0.0 {
      DateOfNumbersCases(y as real, m as real, f);
    }
  }

  /** A calendar date written `YYYY-MM-DD` parses back to itself. */
  lemma ParseDateIsoForm(dt: Date)
    requires Valid(dt) && dt.year >= 100
    ensures ParseDate(IsoForm(dt)) == Some(dt)
  {
    var y, m, d := NatToString(dt.year), Pad2(dt.month), Pad2(dt.day);
    SplitIsoForm(dt);
    assert IsoForm(dt) != "";
    assert '-' !in y by { assert forall i :: 0 <= i < |y| ==> IsDigit(y[i]); }
    assert '-' !in m by { assert forall i :: 0 <= i < |m| ==> IsDigit(m[i]); }
    assert '-' !in d by { assert forall i :: 0 <= i < |d| ==> IsDigit(d[i]); }
    ToNumberOfNat(dt.year);
    ToNumberOfPad2(dt.month);
    ToNumberOfPad2(dt.day);
    var parts := Split(IsoForm(dt), '-');
    assert parts[0] == y && parts[1] == m && parts[2] == d;
    DateOfNumericParts(parts, dt.year, dt.month, dt.day);
    NormalizeValid(dt);
  }

  /**
   * `getDaysUntilDeadline`: no value when the deadline does not parse,
   * otherwise the signed number of days from `today` (negative = overdue).
   */
  function DaysUntilDeadline(deadline: string, today: Date): (r: Option<int>)
    requires Valid(today)
    ensures r.None? <==> ParseDate(deadline).None?
  {
    DaysFrom(ParseDate(deadline), today)
  }

  /** The signed day distance from `today` to a parsed date, if any. */
  function DaysFrom(parsed: Option<Date>, today: Date): (r: Option<int>)
    requires Valid(today) && (parsed.Some? ==> Valid(parsed.value))
    ensures r.None? <==> parsed.None?
  {
    match parsed
    case None => None
    case Some(dt) => Some(DayNumber(dt) - DayNumber(today))
  }

  /** A deadline written as a calendar date is its exact day distance from today. */
  lemma DaysUntilIsoForm(dt: Date, today: Date)
    requires Valid(dt) && Valid(today) && dt.year >= 100
    ensures DaysUntilDeadline(IsoForm(dt), today) == Some(DayNumber(dt) - DayNumber(today))
  {
    ParseDateIsoForm(dt);
    DaysUntilParsed(IsoForm(dt), dt, today);
  }

  /** A deadline that parses is its parsed date's distance from today. */
  lemma DaysUntilParsed(deadline: string, dt: Date, today: Date)
    requires Valid(today) && ParseDate(deadline) == Some(dt)
    ensures DaysUntilDeadline(deadline, today) == Some(DayNumber(dt) - DayNumber(today))
  {
    DaysFromSome(ParseDate(deadline), dt, today);
  }

  lemma DaysFromSome(parsed: Option<Date>, dt: Date, today: Date)
    requires Valid(today) && parsed == Some(dt) && Valid(dt)
    ensures DaysFrom(parsed, today) == Some(DayNumber(dt) - DayNumber(today))
  {
  }

  /** Today's own date is 0 days away. */
  lemma DaysUntilToday(today: Date)
    requires Valid(today) && today.year >= 100
    ensures DaysUntilDeadline(IsoForm(today), today) == Some(0)
  {
    ParseDateIsoForm(today);
  }

  /**
   * A day later, every deadline is one day closer, whatever the parser
   * (`parseDateFn`) returned for it; a deadline it rejects still has no count.
   */
  lemma DaysFromTomorrow(parsed: Option<Date>, today: Date)
    requires Valid(today) && (parsed.Some? ==> Valid(parsed.value))
    ensures var d := DaysFrom(parsed, today);
      DaysFrom(parsed, NextDay(today)) == if d.Some? then Some(d.value - 1) else None
  {
    NextDayNumber(today);
  }

  // ------------------------------------------------------------ readiness

  function Key(s: string): string { Lower(Trim(s)) }

  /** An essay belongs to an application by its link or by school and program. */
  predicate EssayMatches(app: Application, essay: Essay)
  {
    essay.applicationId == Some(app.id)
    || (Key(essay.schoolName) == Key(app.schoolName) && Key(essay.programType) == Key(app.programName))
  }

  /** `getEssayCountForApplication`. */
  function EssayCountForApplication(app: Application, essays: seq<Essay>): (n: nat)
    ensures n <= |essays|
  {
    Count(essays, e => EssayMatches(app, e))
  }

  /** Each essay adds one to the count when it matches and nothing otherwise. */
  lemma EssayCountStep(app: Application, essays: seq<Essay>, e: Essay)
    ensures EssayCountForApplication(app, essays + [e])
         == EssayCountForApplication(app, essays) + (if EssayMatches(app, e) then 1 else 0)
  {
    FilterConcat(essays, [e], x => EssayMatches(app, x));
  }

  function Min(a: real, b: real): real { if a <= b then a else b }

  /** A completion ratio: 1 for a zero target, otherwise capped at 1. */
  function Ratio(done: int, target: int): (r: real)
    ensures target == 0 ==> r == 1.0
    ensures r <= 1.0
    ensures done >= 0 && target >= 0 ==> r >= 0.0
    ensures target > 0 && done >= target ==> r == 1.0
  {
    if target == 0 then 1.0 else Min(done as real / target as real, 1.0)
  }

  datatype Readiness = Readiness(
    readiness: int,
    docsReady: nat,
    essayDrafted: nat,
    essayTarget: int,
    lorSubmitted: int,
    lorTarget: int)

  function ReadyCount(templates: seq<string>, scope: map<string, Fields>): (n: nat)
    ensures n <= |templates|
  {
    Count(templates, t => DocStatusIn(scope, t) == "ready")
  }

  /** The document share: 0 without templates, otherwise ready / templates. */
  function DocShare(ready: nat, templates: nat): (r: real)
    ensures templates == 0 ==> r == 0.0
    ensures ready <= templates ==> 0.0 <= r <= 1.0
    ensures ready == templates > 0 ==> r == 1.0
  {
    if templates > 0 then ready as real / templates as real else 0.0
  }

  function InterviewShare(app: Application): real
  {
    if !app.interviewRequired || app.interviewCompleted then 1.0 else 0.0
  }

  /** The weighted readiness percentage before rounding. */
  function ReadinessValue(e: real, l: real, d: real, i: real): (x: real)
    ensures 0.0 <= e <= 1.0 && 0.0 <= l <= 1.0 && 0.0 <= d <= 1.0 && 0.0 <= i <= 1.0 ==> 0.0 <= x <= 100.0
    ensures e == l == d == i == 1.0 ==> x == 100.0
    ensures e <= 1.0 && l <= 1.0 && d == 0.0 && i <= 1.0 ==> x <= 75.0
  {
    (e * 0.4 + l * 0.25 + d * 0.25 + i * 0.1) * 100.0
  }

  /** The readiness record of an application from its drafted essays and ready documents. */
  function ReadinessOf(app: Application, drafted: nat, ready: nat, templates: nat): (r: Readiness)
    ensures r.docsReady == ready && r.essayDrafted == drafted
    ensures r.essayTarget == app.essaysRequired && r.lorTarget == app.lorsRequired && r.lorSubmitted == app.lorsSubmitted
    ensures app.essaysRequired >= 0 && app.lorsRequired >= 0 && app.lorsSubmitted >= 0 && ready <= templates ==>
      0 <= r.readiness <= 100
  {
    var e := Ratio(drafted, app.essaysRequired);
    var l := Ratio(app.lorsSubmitted, app.lorsRequired);
    var x := ReadinessValue(e, l, DocShare(ready, templates), InterviewShare(app));
    Readiness(Round(x), ready, drafted, app.essaysRequired, app.lorsSubmitted, app.lorsRequired)
  }

  /** `getApplicationReadiness`. */
  function ApplicationReadiness(app: Application, essays: seq<Essay>, docs: DocsByScope, templates: seq<string>): (r: Readiness)
    ensures r.docsReady <= |templates| && r.essayDrafted <= |essays|
    ensures r.essayTarget == app.essaysRequired && r.lorTarget == app.lorsRequired
    ensures app.essaysRequired >= 0 && app.lorsRequired >= 0 && app.lorsSubmitted >= 0 ==> 0 <= r.readiness <= 100
  {
    ReadinessOf(app, EssayCountForApplication(app, essays),
                ReadyCount(templates, ScopeOf(docs, Helpers.DocScopeKey(Some(app.id)))), |templates|)
  }

  /** Every part complete (with at least one template) means 100% ready. */
  lemma ReadinessComplete(app: Application, drafted: nat, templates: nat)
    requires app.essaysRequired >= 0 && app.lorsRequired >= 0
    requires drafted >= app.essaysRequired && app.lorsSubmitted >= app.lorsRequired
    requires templates > 0
    requires !app.interviewRequired || app.interviewCompleted
    ensures ReadinessOf(app, drafted, templates, templates).readiness == 100
  {
    RoundOfInt(100);
  }

  /** Without document templates the document quarter is lost: at most 75%. */
  lemma ReadinessWithoutTemplates(app: Application, essays: seq<Essay>, docs: DocsByScope)
    ensures ApplicationReadiness(app, essays, docs, []).readiness <= 75
  {
  }

  // ---------------------------------------------------------- filter/search

  /** The fields the application search looks into (the locale date label aside). */
  predicate MatchesSearch(app: Application, query: string)
  {
    Contains(Lower(app.schoolName), query) || Contains(Lower(app.programName), query)
    || Contains(Lower(app.applicationRound), query) || Contains(Lower(app.status), query)
    || Contains(Lower(app.decisionStatus), query) || Contains(Lower(app.feeCurrency), query)
    || Contains(Lower(app.requirementsNotes), query)
  }

  /** `filterApplications`: a blank search keeps everything. */
  function FilterApplications(apps: seq<Application>, search: string): (r: seq<Application>)
    ensures IsBlank(search) ==> r == apps
    ensures !IsBlank(search) ==> forall a :: a in r <==> a in apps && MatchesSearch(a, Lower(Trim(search)))
    ensures !IsBlank(search) ==> IsSubsequence(r, apps)
    ensures !IsBlank(search) ==> forall a ::
      multiset(r)[a] == if MatchesSearch(a, Lower(Trim(search))) then multiset(apps)[a] else 0
  {
    if IsBlank(search) then apps
    else
      var q := Lower(Trim(search));
      FilterMembers(apps, a => MatchesSearch(a, q));
      FilterExact(apps, a => MatchesSearch(a, q));
      Filter(apps, a => MatchesSearch(a, q))
  }

  // --------------------------------------------------------------- summary

  /** `(fee_currency || 'USD').toUpperCase()`. */
  function Currency(app: Application): string
  {
    Upper(OrElse(app.feeCurrency, "USD"))
  }

  /** Adds a truthy fee to its currency's running total. */
  function AddFee(totals: map<string, real>, currency: string, amount: real): map<string, real>
  {
    if amount == 0.0 then totals
    else totals[currency := (if currency in totals then totals[currency] else 0.0) + amount]
  }

  /** The fee totals per currency, accumulated in list order. */
  function FeeTotals(apps: seq<Application>, fee: Application -> real): map<string, real>
    decreases |apps|
  {
    if apps == [] then map[]
    else
      var last := apps[|apps| - 1];
      AddFee(FeeTotals(apps[..|apps| - 1], fee), Currency(last), fee(last))
  }

  /** Adding a fee opens at most one new currency. */
  lemma AddFeeSize(totals: map<string, real>, currency: string, amount: real)
    ensures |AddFee(totals, currency, amount)| <= |totals| + 1
  {
  }

  /** There are never more currency totals than applications. */
  lemma {:induction false} FeeTotalsSize(apps: seq<Application>, fee: Application -> real)
    ensures |FeeTotals(apps, fee)| <= |apps|
    decreases |apps|
  {
    if apps != [] {
      var last := apps[|apps| - 1];
      FeeTotalsSize(apps[..|apps| - 1], fee);
      AddFeeSize(FeeTotals(apps[..|apps| - 1], fee), Currency(last), fee(last));
    }
  }

  /** The application at index `i` adds its fee to the totals of those before it. */
  lemma FeeTotalsStep(apps: seq<Application>, i: nat, fee: Application -> real)
    requires i < |apps|
    ensures FeeTotals(apps[..i + 1], fee) == AddFee(FeeTotals(apps[..i], fee), Currency(apps[i]), fee(apps[i]))
  {
    assert apps[..i + 1][..i] == apps[..i];
  }

  /** The reference total of one currency: every truthy fee billed in it. */
  function TotalFor(apps: seq<Application>, fee: Application -> real, currency: string): real
    decreases |apps|
  {
    if apps == [] then 0.0
    else
      var last := apps[|apps| - 1];
      TotalFor(apps[..|apps| - 1], fee, currency) + (if Currency(last) == currency then fee(last) else 0.0)
  }

  predicate BillsIn(apps: seq<Application>, fee: Application -> real, currency: string)
  {
    exists i :: 0 <= i < |apps| && fee(apps[i]) != 0.0 && Currency(apps[i]) == currency
  }

  /** What adding one fee does to the total of one currency. */
  lemma AddFeeEffect(totals: map<string, real>, currency: string, amount: real, c: string)
    ensures c in AddFee(totals, currency, amount) <==> c in totals || (amount != 0.0 && c == currency)
    ensures c in AddFee(totals, currency, amount) ==>
      AddFee(totals, currency, amount)[c]
        == (if c in totals then totals[c] else 0.0) + (if c == currency then amount else 0.0)
  {
  }

  /**
   * A currency has a total exactly when some application bills a truthy fee
   * in it, and that total is the sum of those fees.
   */
  lemma {:induction false} FeeTotalsCorrect(apps: seq<Application>, fee: Application -> real, currency: string)
    ensures currency in FeeTotals(apps, fee) <==> BillsIn(apps, fee, currency)
    ensures currency in FeeTotals(apps, fee) ==> FeeTotals(apps, fee)[currency] == TotalFor(apps, fee, currency)
    ensures currency !in FeeTotals(apps, fee) ==> TotalFor(apps, fee, currency) == 0.0
    decreases |apps|
  {
    if apps != [] {
      var init := apps[..|apps| - 1];
      var last := apps[|apps| - 1];
      FeeTotalsCorrect(init, fee, currency);
      AddFeeEffect(FeeTotals(init, fee), Currency(last), fee(last), currency);
      BillsInSnoc(init, last, fee, currency);
      assert apps == init + [last];
    }
  }

  lemma BillsInSnoc(init: seq<Application>, last: Application, fee: Application -> real, currency: string)
    ensures BillsIn(init + [last], fee, currency)
        <==> BillsIn(init, fee, currency) || (fee(last) != 0.0 && Currency(last) == currency)
  {
    var apps := init + [last];
    if BillsIn(init, fee, currency) {
      var i :| 0 <= i < |init| && fee(init[i]) != 0.0 && Currency(init[i]) == currency;
      assert apps[i] == init[i];
    }
    if BillsIn(apps, fee, currency) {
      var i :| 0 <= i < |apps| && fee(apps[i]) != 0.0 && Currency(apps[i]) == currency;
      if i < |init| {
        assert init[i] == apps[i];
      }
    }
    if fee(last) != 0.0 && Currency(last) == currency {
      assert apps[|init|] == last;
    }
  }

  datatype ApplicationSummary = ApplicationSummary(
    upcoming: nat,
    dueSoon: nat,
    applicationFeesByCurrency: map<string, real>,
    programFeesByCurrency: map<string, real>)

  predicate IsUpcoming(app: Application, daysUntil: string -> Option<int>)
  {
    var d := daysUntil(app.deadline);
    d.Some? && d.value >= 0
  }

  predicate IsDueSoon(app: Application, daysUntil: string -> Option<int>)
  {
    var d := daysUntil(app.deadline);
    d.Some? && 0 <= d.value <= 21
  }

  function ApplicationFee(app: Application): real { app.applicationFee }

  function ProgramFee(app: Application): real { app.programTotalFee }

  /** `buildApplicationSummary`, the reduce with a mutated accumulator. */
  method BuildApplicationSummary(apps: seq<Application>, daysUntil: string -> Option<int>) returns (s: ApplicationSummary)
    ensures s.upcoming == Count(apps, a => IsUpcoming(a, daysUntil))
    ensures s.dueSoon == Count(apps, a => IsDueSoon(a, daysUntil))
    ensures s.applicationFeesByCurrency == FeeTotals(apps, ApplicationFee)
    ensures s.programFeesByCurrency == FeeTotals(apps, ProgramFee)
  {
    var upcoming, dueSoon := 0, 0;
    var appFees: map<string, real> := map[];
    var programFees: map<string, real> := map[];
    var i := 0;
    while i < |apps|
      invariant 0 <= i <= |apps|
      invariant upcoming == Count(apps[..i], a => IsUpcoming(a, daysUntil))
      invariant dueSoon == Count(apps[..i], a => IsDueSoon(a, daysUntil))
      invariant appFees == FeeTotals(apps[..i], ApplicationFee)
      invariant programFees == FeeTotals(apps[..i], ProgramFee)
    {
      var app := apps[i];
      CountStep(apps, i, a => IsUpcoming(a, daysUntil));
      CountStep(apps, i, a => IsDueSoon(a, daysUntil));
      FeeTotalsStep(apps, i, ApplicationFee);
      FeeTotalsStep(apps, i, ProgramFee);
      var days := daysUntil(app.deadline);
      if days.Some? && days.value >= 0 {
        upcoming := upcoming + 1;
      }
      if days.Some? && days.value >= 0 && days.value <= 21 {
        dueSoon := dueSoon + 1;
      }
      if app.applicationFee != 0.0 {
        appFees := AddFee(appFees, Currency(app), app.applicationFee);
      }
      if app.programTotalFee != 0.0 {
        programFees := AddFee(programFees, Currency(app), app.programTotalFee);
      }
      i := i + 1;
    }
    assert apps[..i] == apps;
    s := ApplicationSummary(upcoming, dueSoon, appFees, programFees);
  }

  /** Every application due soon is upcoming, so the badge never exceeds the total. */
  lemma DueSoonWithinUpcoming(apps: seq<Application>, daysUntil: string -> Option<int>)
    ensures Count(apps, a => IsDueSoon(a, daysUntil)) <= Count(apps, a => IsUpcoming(a, daysUntil))
  {
    CountMono(apps, a => IsDueSoon(a, daysUntil), a => IsUpcoming(a, daysUntil));
  }

  // ------------------------------------------------------ readiness rows

  datatype ReadinessRow = ReadinessRow(application: Application, readiness: Readiness)

  /** `buildApplicationReadinessRows`: one row per application, in order. */
  function ReadinessRows(apps: seq<Application>, essays: seq<Essay>, docs: DocsByScope, templates: seq<string>): (r: seq<ReadinessRow>)
    ensures |r| == |apps|
    ensures forall i :: 0 <= i < |r| ==> r[i] == ReadinessRow(apps[i], ApplicationReadiness(apps[i], essays, docs, templates))
  {
    seq(|apps|, i requires 0 <= i < |apps| => ReadinessRow(apps[i], ApplicationReadiness(apps[i], essays, docs, templates)))
  }

  function RowReadiness(row: ReadinessRow): int { row.readiness.readiness }

  /** `buildAverageReadiness`: the rounded mean, 0 without rows. */
  function AverageReadiness(rows: seq<ReadinessRow>): (r: int)
    ensures rows == [] ==> r == 0
  {
    if rows == [] then 0 else Round(SumOf(rows, RowReadiness) as real / |rows| as real)
  }

  /** The mean of percentages is a percentage. */
  lemma AverageReadinessBounded(rows: seq<ReadinessRow>)
    requires forall i :: 0 <= i < |rows| ==> 0 <= rows[i].readiness.readiness <= 100
    ensures 0 <= AverageReadiness(rows) <= 100
  {
    if rows != [] {
      SumOfBounds(rows, RowReadiness, 0, 100);
      var n := |rows| as real;
      var total := SumOf(rows, RowReadiness) as real;
      assert 0.0 <= total <= 100.0 * n;
      assert total / n <= 100.0 by {
        assert total <= 100.0 * n;
      }
      RoundBetween(total / n, 0, 100);
    }
  }

  // --------------------------------------------------------- notifications

  datatype Severity = High | Medium | Low

  datatype Notice = Notice(
    id: string,
    severity: Severity,
    title: string,
    message: string,
    targetNav: string,
    applicationId: int)

  function Plural(n: int): string { if n == 1 then "" else "s" }

  function Abs(n: int): int { if n < 0 then -n else n }

  /**
   * The deadline notice: an overdue notice for a past deadline, else a
   * reminder when the day count is one of the reminder markers.
   */
  function DeadlineNotices(app: Application, days: Option<int>, markers: seq<real>): (r: seq<Notice>)
    ensures |r| <= 1
    ensures r != [] <==> days.Some? && (days.value < 0 || days.value as real in markers)
    ensures r != [] ==> r[0].targetNav == "deadlines" && r[0].applicationId == app.id
    ensures r != [] ==> (r[0].severity == High <==> days.value <= 7)
    ensures r != [] && days.value < 0 ==> r[0].id == "deadline-overdue-" + IntToString(app.id)
    ensures r != [] && days.value >= 0 ==>
      r[0].id == "deadline-reminder-" + IntToString(app.id) + "-" + IntToString(days.value)
  {
    if days.None? then []
    else if days.value < 0 then
      [Notice("deadline-overdue-" + IntToString(app.id), High,
              app.schoolName + " deadline passed",
              IntToString(Abs(days.value)) + " day" + Plural(Abs(days.value)) + " overdue",
              "deadlines", app.id)]
    else if days.value as real in markers then
      [Notice("deadline-reminder-" + IntToString(app.id) + "-" + IntToString(days.value),
              if days.value <= 7 then High else Medium,
              app.schoolName + " due in " + IntToString(days.value) + " day" + Plural(days.value),
              app.programName + " \U{E2}\U{20AC}\U{A2} " + OrElse(app.applicationRound, "Round not set"),
              "deadlines", app.id)]
    else []
  }

  /** `(scopeDocs[doc.id]?.status || 'missing') === 'missing'`. */
  function MissingCount(templates: seq<string>, scope: map<string, Fields>): (n: nat)
    ensures n <= |templates|
  {
    Count(templates, t => OrElse(DocStatusIn(scope, t), "missing") == "missing")
  }

  /** The low-readiness notice, below 60%. */
  function ReadinessNotice(app: Application, readiness: int): (r: seq<Notice>)
    ensures |r| <= 1
    ensures AllFor(r, app.id)
    ensures r != [] <==> readiness < 60
    ensures r != [] ==> r[0].applicationId == app.id && r[0].targetNav == "requirements"
  {
    if readiness < 60 then
      [Notice("readiness-low-" + IntToString(app.id), Medium,
              app.schoolName + " readiness is " + IntToString(readiness) + "%",
              "Complete essays, LORs, and documents to improve readiness.", "requirements", app.id)]
    else []
  }

  /** The interview notice, for a required interview not yet completed. */
  function InterviewNotice(app: Application): (r: seq<Notice>)
    ensures |r| <= 1
    ensures AllFor(r, app.id)
    ensures r != [] <==> app.interviewRequired && !app.interviewCompleted
    ensures r != [] ==> r[0].applicationId == app.id && r[0].targetNav == "interviews"
  {
    if app.interviewRequired && !app.interviewCompleted then
      [Notice("interview-pending-" + IntToString(app.id), Medium,
              "Interview prep pending for " + app.schoolName,
              "Add stories, notes, and schedule in Interview Prep Workspace.", "interviews", app.id)]
    else []
  }

  /** The documents notice, from three missing documents on. */
  function DocsNotice(app: Application, missing: nat): (r: seq<Notice>)
    ensures |r| <= 1
    ensures AllFor(r, app.id)
    ensures r != [] <==> missing >= 3
    ensures r != [] ==> r[0].applicationId == app.id && r[0].targetNav == "docs" && r[0].severity == Low
  {
    if missing >= 3 then
      [Notice("docs-missing-" + IntToString(app.id), Low,
              IntToString(missing) + " documents missing for " + app.schoolName,
              "Update checklist in Document Center.", "docs", app.id)]
    else []
  }

  /** Every notice of `s` points at application `id`. */
  predicate AllFor(s: seq<Notice>, id: int)
  {
    forall k :: 0 <= k < |s| ==> s[k].applicationId == id
  }

  lemma AllForConcat(a: seq<Notice>, b: seq<Notice>, id: int)
    requires AllFor(a, id) && AllFor(b, id)
    ensures AllFor(a + b, id)
  {
  }

  /** The readiness, interview and document notices, in that order. */
  function ChecklistNotices(app: Application, readiness: int, missing: nat): (r: seq<Notice>)
    ensures |r| <= 3
    ensures AllFor(r, app.id)
    ensures r == ReadinessNotice(app, readiness) + InterviewNotice(app) + DocsNotice(app, missing)
  {
    var n := ReadinessNotice(app, readiness);
    var i := InterviewNotice(app);
    var m := DocsNotice(app, missing);
    AllForConcat(n, i, app.id);
    AllForConcat(n + i, m, app.id);
    n + i + m
  }

  lemma AllForMember(s: seq<Notice>, id: int, n: Notice)
    requires AllFor(s, id) && n in s
    ensures n.applicationId == id
  {
  }

  /** The notices of one application, in their fixed order. */
  function ApplicationNotices(app: Application, days: Option<int>, markers: seq<real>, readiness: int, missing: nat): (r: seq<Notice>)
    ensures |r| <= 4
    ensures AllFor(r, app.id)
    ensures r == DeadlineNotices(app, days, markers) + ChecklistNotices(app, readiness, missing)
  {
    var d := DeadlineNotices(app, days, markers);
    var c := ChecklistNotices(app, readiness, missing);
    AllForConcat(d, c, app.id);
    d + c
  }

  /** The sections the notices of `s` lead to, in order. */
  function Navs(s: seq<Notice>): (r: seq<string>)
    ensures |r| == |s|
    ensures forall k :: 0 <= k < |s| ==> r[k] == s[k].targetNav
  {
    seq(|s|, k requires 0 <= k < |s| => s[k].targetNav)
  }

  /** `[x]` when `b` holds, else nothing. */
  function Opt(b: bool, x: string): (r: seq<string>)
  {
    if b then [x] else []
  }

  lemma NavsConcat(a: seq<Notice>, b: seq<Notice>)
    ensures Navs(a + b) == Navs(a) + Navs(b)
  {
    assert forall k :: 0 <= k < |a + b| ==> Navs(a + b)[k] == (Navs(a) + Navs(b))[k];
  }

  /**
   * Which notices one application gets, and in which order: a deadline notice
   * for an overdue or reminder-day deadline, a readiness notice below 60%, an
   * interview notice for a pending interview and a documents notice from
   * three missing documents on.
   */
  lemma ApplicationNoticesKinds(app: Application, days: Option<int>, markers: seq<real>, readiness: int, missing: nat)
    ensures Navs(ApplicationNotices(app, days, markers, readiness, missing))
         == Opt(days.Some? && (days.value < 0 || days.value as real in markers), "deadlines")
          + Opt(readiness < 60, "requirements")
          + Opt(app.interviewRequired && !app.interviewCompleted, "interviews")
          + Opt(missing >= 3, "docs")
  {
    var d, n, v, m := DeadlineNotices(app, days, markers), ReadinessNotice(app, readiness), InterviewNotice(app), DocsNotice(app, missing);
    var r := ApplicationNotices(app, days, markers, readiness, missing);
    assert r == d + (n + v + m);
    NavsOfOne(d, "deadlines");
    NavsOfOne(n, "requirements");
    NavsOfOne(v, "interviews");
    NavsOfOne(m, "docs");
    NavsOfFour(d, n, v, m);
  }

  lemma NavsOfOne(s: seq<Notice>, nav: string)
    requires |s| <= 1 && (s != [] ==> s[0].targetNav == nav)
    ensures Navs(s) == Opt(s != [], nav)
  {
  }

  lemma NavsOfFour(d: seq<Notice>, n: seq<Notice>, v: seq<Notice>, m: seq<Notice>)
    ensures Navs(d + (n + v + m)) == Navs(d) + Navs(n) + Navs(v) + Navs(m)
  {
    NavsConcat(d, n + v + m);
    NavsConcat(n + v, m);
    NavsConcat(n, v);
  }

  /** The notices of one readiness row, with its deadline and missing documents looked up. */
  function NoticesFor(row: ReadinessRow, daysUntil: string -> Option<int>, docs: DocsByScope, templates: seq<string>, markers: seq<real>): (r: seq<Notice>)
    ensures |r| <= 4
    ensures AllFor(r, row.application.id)
    ensures r == ApplicationNotices(row.application, daysUntil(row.application.deadline), markers, row.readiness.readiness,
                                    MissingCount(templates, ScopeOf(docs, Helpers.DocScopeKey(Some(row.application.id)))))
  {
    var app := row.application;
    ApplicationNotices(app, daysUntil(app.deadline), markers, row.readiness.readiness,
                       MissingCount(templates, ScopeOf(docs, Helpers.DocScopeKey(Some(app.id)))))
  }

  /** `buildGeneratedNotifications`: the notices of every row, in row order. */
  function GeneratedNotifications(rows: seq<ReadinessRow>, daysUntil: string -> Option<int>, docs: DocsByScope, templates: seq<string>, markers: seq<real>): (r: seq<Notice>)
    ensures |r| <= 4 * |rows|
  {
    var f := (row: ReadinessRow) => NoticesFor(row, daysUntil, docs, templates, markers);
    FlatMapLength(rows, f, 4);
    FlatMap(rows, f)
  }

  /** Notices concatenate row by row. */
  lemma GeneratedNotificationsConcat(a: seq<ReadinessRow>, b: seq<ReadinessRow>, daysUntil: string -> Option<int>, docs: DocsByScope, templates: seq<string>, markers: seq<real>)
    ensures GeneratedNotifications(a + b, daysUntil, docs, templates, markers)
         == GeneratedNotifications(a, daysUntil, docs, templates, markers) + GeneratedNotifications(b, daysUntil, docs, templates, markers)
  {
    FlatMapConcat(a, b, (row: ReadinessRow) => NoticesFor(row, daysUntil, docs, templates, markers));
  }

  /** A notice is generated exactly when it is one of some row's notices. */
  lemma GeneratedNotificationsMembers(rows: seq<ReadinessRow>, daysUntil: string -> Option<int>, docs: DocsByScope, templates: seq<string>, markers: seq<real>, n: Notice)
    ensures n in GeneratedNotifications(rows, daysUntil, docs, templates, markers)
        <==> exists k :: 0 <= k < |rows| && n in NoticesFor(rows[k], daysUntil, docs, templates, markers)
  {
    var f := (row: ReadinessRow) => NoticesFor(row, daysUntil, docs, templates, markers);
    FlatMapMembers(rows, f, n);
  }

  /** The notices of row `k` appear as one block, after those of the rows before it. */
  lemma GeneratedNotificationsAt(rows: seq<ReadinessRow>, daysUntil: string -> Option<int>, docs: DocsByScope, templates: seq<string>, markers: seq<real>, k: nat)
    requires k < |rows|
    ensures GeneratedNotifications(rows, daysUntil, docs, templates, markers)
         == GeneratedNotifications(rows[..k], daysUntil, docs, templates, markers)
          + NoticesFor(rows[k], daysUntil, docs, templates, markers)
          + GeneratedNotifications(rows[k + 1..], daysUntil, docs, templates, markers)
  {
    FlatMapAt(rows, (row: ReadinessRow) => NoticesFor(row, daysUntil, docs, templates, markers), k);
  }

  /** Every generated notice points at one of the rows' applications. */
  lemma GeneratedNotificationsBelong(rows: seq<ReadinessRow>, daysUntil: string -> Option<int>, docs: DocsByScope, templates: seq<string>, markers: seq<real>, n: Notice)
    requires n in GeneratedNotifications(rows, daysUntil, docs, templates, markers)
    ensures exists k :: 0 <= k < |rows| && rows[k].application.id == n.applicationId
  {
    var f := (row: ReadinessRow) => NoticesFor(row, daysUntil, docs, templates, markers);
    assert GeneratedNotifications(rows, daysUntil, docs, templates, markers) == FlatMap(rows, f);
    FlatMapBelongs(rows, f, n);
  }

  lemma FlatMapBelongs(rows: seq<ReadinessRow>, f: ReadinessRow -> seq<Notice>, n: Notice)
    requires n in FlatMap(rows, f)
    requires forall row :: AllFor(f(row), row.application.id)
    ensures exists k :: 0 <= k < |rows| && rows[k].application.id == n.applicationId
  {
    FlatMapMembers(rows, f, n);
    var k :| 0 <= k < |rows| && n in f(rows[k]);
    AllForMember(f(rows[k]), rows[k].application.id, n);
  }

  // -------------------------------------------------------- decision matrix

  datatype Weights = Weights(readiness: real, deadline: real, affordability: real, decision: real, documents: real)

  /** The sum of the weights, with 1 standing in for a zero sum. */
  function WeightTotal(w: Weights): (t: real)
    ensures t != 0.0
    ensures w.readiness + w.deadline + w.affordability + w.decision + w.documents != 0.0 ==>
      t == w.readiness + w.deadline + w.affordability + w.decision + w.documents
  {
    var s := w.readiness + w.deadline + w.affordability + w.decision + w.documents;
    if s == 0.0 then 1.0 else s
  }

  /** `Number(program_total_fee || application_fee || 0)`. */
  function FeeCandidate(app: Application): real
  {
    if app.programTotalFee != 0.0 then app.programTotalFee else app.applicationFee
  }

  /** The largest fee candidate, starting from 0. */
  function MaxProgramFee(apps: seq<Application>): (m: real)
    ensures m >= 0.0
    ensures forall a :: a in apps ==> FeeCandidate(a) <= m
    ensures m == 0.0 || exists a :: a in apps && FeeCandidate(a) == m
    decreases |apps|
  {
    if apps == [] then 0.0
    else
      var rest := MaxProgramFee(apps[1..]);
      var c := FeeCandidate(apps[0]);
      assert forall a :: a in apps ==> a == apps[0] || a in apps[1..];
      if c > rest then c else rest
  }

  /** The deadline sub-score, in steps of urgency. */
  function DeadlineScore(days: Option<int>): (s: int)
    ensures 0 <= s <= 100
    ensures days.None? ==> s == 45
    ensures days.Some? && days.value < 0 ==> s == 0
    ensures days.Some? && 0 <= days.value <= 7 ==> s == 100
    ensures days.Some? && 8 <= days.value <= 21 ==> s == 88
    ensures days.Some? && 22 <= days.value <= 45 ==> s == 72
    ensures days.Some? && days.value > 45 ==> s == 55
  {
    match days
    case None => 45
    case Some(d) =>
      if d < 0 then 0 else if d <= 7 then 100 else if d <= 21 then 88 else if d <= 45 then 72 else 55
  }

  /** Among future deadlines, a closer one never scores lower. */
  lemma DeadlineScoreCloserIsHigher(d1: int, d2: int)
    requires 0 <= d1 <= d2
    ensures DeadlineScore(Some(d1)) >= DeadlineScore(Some(d2))
  {
  }

  /** The decision lookup, 45 for a status it does not know. */
  function DecisionScore(status: string): (s: int)
    ensures 0 <= s <= 100
    ensures status !in {"Admitted", "Interview Invite", "Waitlisted", "Pending", "Rejected"} ==> s == 45
    ensures status == "Admitted" ==> s == 100
    ensures status == "Interview Invite" ==> s == 75
    ensures status == "Waitlisted" ==> s == 55
    ensures status == "Pending" ==> s == 45
    ensures status == "Rejected" ==> s == 5
  {
    if status == "Admitted" then 100
    else if status == "Interview Invite" then 75
    else if status == "Waitlisted" then 55
    else if status == "Pending" then 45
    else if status == "Rejected" then 5
    else 45
  }

  /** Affordability: 70 without any fee, otherwise at least 12 and at most 100. */
  function AffordabilityScore(fee: real, maxFee: real): (s: int)
    ensures maxFee <= 0.0 ==> s == 70
    ensures maxFee > 0.0 ==> s >= 12
    ensures maxFee > 0.0 && fee >= 0.0 ==> s <= 100
    ensures maxFee > 0.0 && fee == 0.0 ==> s == 100
  {
    if maxFee > 0.0 then
      var raw := Round((1.0 - fee / maxFee) * 100.0);
      assert fee >= 0.0 ==> fee / maxFee >= 0.0;
      if raw > 12 then raw else 12
    else 70
  }

  /** The document sub-score, a rounded percentage. */
  function DocsScore(ready: nat, templates: nat): (s: int)
    ensures templates == 0 ==> s == 0
    ensures ready <= templates ==> 0 <= s <= 100
  {
    if templates > 0 then
      var x := ready as real / templates as real * 100.0;
      assert ready <= templates ==> x <= 100.0;
      Round(x)
    else 0
  }

  datatype MatrixRow = MatrixRow(
    application: Application,
    weightedScore: int,
    readinessScore: int,
    deadlineScore: int,
    affordabilityScore: int,
    decisionScore: int,
    docsScore: int)

  function ScoreRow(row: ReadinessRow, maxFee: real, w: Weights, daysUntil: string -> Option<int>, templates: nat): (m: MatrixRow)
    ensures m.application == row.application && m.readinessScore == row.readiness.readiness
    ensures 0 <= m.deadlineScore <= 100 && 0 <= m.decisionScore <= 100 && m.affordabilityScore >= 12
    ensures m.deadlineScore == DeadlineScore(daysUntil(row.application.deadline))
    ensures m.affordabilityScore == AffordabilityScore(FeeCandidate(row.application), maxFee)
    ensures m.decisionScore == DecisionScore(row.application.decisionStatus)
    ensures m.docsScore == DocsScore(row.readiness.docsReady, templates)
    ensures m.weightedScore
         == WeightedScore(w, m.readinessScore, m.deadlineScore, m.affordabilityScore, m.decisionScore, m.docsScore)
    ensures row.readiness.docsReady <= templates ==> 0 <= m.docsScore <= 100
  {
    var app := row.application;
    var dl := DeadlineScore(daysUntil(app.deadline));
    var af := AffordabilityScore(FeeCandidate(app), maxFee);
    var dc := DecisionScore(app.decisionStatus);
    var ds := DocsScore(row.readiness.docsReady, templates);
    MatrixRow(app, WeightedScore(w, row.readiness.readiness, dl, af, dc, ds), row.readiness.readiness, dl, af, dc, ds)
  }

  /** The rounded weighted mean of the five sub-scores. */
  function WeightedScore(w: Weights, readiness: int, deadline: int, affordability: int, decision: int, documents: int): int
  {
    Round(WeightedSum(w, readiness, deadline, affordability, decision, documents) / WeightTotal(w))
  }

  /** Each sub-score times its weight, summed. */
  function WeightedSum(w: Weights, readiness: int, deadline: int, affordability: int, decision: int, documents: int): real
  {
    readiness as real * w.readiness + deadline as real * w.deadline
      + affordability as real * w.affordability + decision as real * w.decision
      + documents as real * w.documents
  }

  /** With non-negative weights, the weighted mean of scores in 0..100 is in 0..100. */
  lemma WeightedScoreBounded(w: Weights, readiness: int, deadline: int, affordability: int, decision: int, documents: int)
    requires w.readiness >= 0.0 && w.deadline >= 0.0 && w.affordability >= 0.0 && w.decision >= 0.0 && w.documents >= 0.0
    requires 0 <= readiness <= 100 && 0 <= deadline <= 100 && 0 <= affordability <= 100
    requires 0 <= decision <= 100 && 0 <= documents <= 100
    ensures 0 <= WeightedScore(w, readiness, deadline, affordability, decision, documents) <= 100
  {
    var total := WeightedSum(w, readiness, deadline, affordability, decision, documents);
    WeightedSumBounded(w, readiness, deadline, affordability, decision, documents);
    var t := WeightTotal(w);
    MeanBounded(total, w.readiness + w.deadline + w.affordability + w.decision + w.documents, t);
    RoundBetween(total / t, 0, 100);
  }

  lemma WeightedSumBounded(w: Weights, readiness: int, deadline: int, affordability: int, decision: int, documents: int)
    requires w.readiness >= 0.0 && w.deadline >= 0.0 && w.affordability >= 0.0 && w.decision >= 0.0 && w.documents >= 0.0
    requires 0 <= readiness <= 100 && 0 <= deadline <= 100 && 0 <= affordability <= 100
    requires 0 <= decision <= 100 && 0 <= documents <= 100
    ensures 0.0 <= WeightedSum(w, readiness, deadline, affordability, decision, documents)
                <= 100.0 * (w.readiness + w.deadline + w.affordability + w.decision + w.documents)
  {
    var a := WeightedTerm(readiness, w.readiness);
    var b := WeightedTerm(deadline, w.deadline);
    var c := WeightedTerm(affordability, w.affordability);
    var d := WeightedTerm(decision, w.decision);
    var e := WeightedTerm(documents, w.documents);
    assert WeightedSum(w, readiness, deadline, affordability, decision, documents) == a + b + c + d + e;
    SumOfFiveBounded(a, b, c, d, e, w.readiness, w.deadline, w.affordability, w.decision, w.documents);
  }

  lemma SumOfFiveBounded(a: real, b: real, c: real, d: real, e: real, wa: real, wb: real, wc: real, wd: real, we: real)
    requires 0.0 <= a <= 100.0 * wa && 0.0 <= b <= 100.0 * wb && 0.0 <= c <= 100.0 * wc
    requires 0.0 <= d <= 100.0 * wd && 0.0 <= e <= 100.0 * we
    ensures 0.0 <= a + b + c + d + e <= 100.0 * (wa + wb + wc + wd + we)
  {
  }

  /** A score in 0..100 times a non-negative weight is at most 100 times the weight. */
  function WeightedTerm(score: int, weight: real): (t: real)
    requires 0 <= score <= 100 && weight >= 0.0
    ensures 0.0 <= t <= 100.0 * weight
  {
    score as real * weight
  }

  /** A total of at most 100 per unit of weight, over the weight (or 1 for no weight), is in 0..100. */
  lemma MeanBounded(total: real, sum: real, t: real)
    requires 0.0 <= total <= 100.0 * sum
    requires t == if sum == 0.0 then 1.0 else sum
    ensures 0.0 <= total / t <= 100.0
  {
    if sum != 0.0 {
      assert total / t * t == total;
    }
  }

  function NegatedWeighted(m: MatrixRow): int { -m.weightedScore }

  /** The matrix rows in readiness-row order, before sorting. */
  function ScoredRows(apps: seq<Application>, rows: seq<ReadinessRow>, w: Weights, daysUntil: string -> Option<int>, templates: seq<string>): (r: seq<MatrixRow>)
    ensures |r| == |rows|
    ensures forall i :: 0 <= i < |r| ==> r[i] == ScoreRow(rows[i], MaxProgramFee(apps), w, daysUntil, |templates|)
  {
    var maxFee := MaxProgramFee(apps);
    seq(|rows|, i requires 0 <= i < |rows| => ScoreRow(rows[i], maxFee, w, daysUntil, |templates|))
  }

  /** `buildApplicationDecisionMatrixRows`: scored rows, best first, ties in input order. */
  function DecisionMatrixRows(apps: seq<Application>, rows: seq<ReadinessRow>, w: Weights, daysUntil: string -> Option<int>, templates: seq<string>): (r: seq<MatrixRow>)
    ensures |r| == |rows|
  {
    StableSortBy(ScoredRows(apps, rows, w, daysUntil, templates), NegatedWeighted)
  }

  /**
   * The matrix is a permutation of the scored rows, ordered by descending
   * weighted score, and rows with equal scores keep their input order.
   */
  lemma DecisionMatrixOrdered(apps: seq<Application>, rows: seq<ReadinessRow>, w: Weights, daysUntil: string -> Option<int>, templates: seq<string>, score: int)
    ensures var m, s := DecisionMatrixRows(apps, rows, w, daysUntil, templates), ScoredRows(apps, rows, w, daysUntil, templates);
      multiset(m) == multiset(s)
      && (forall i, j :: 0 <= i < j < |m| ==> m[i].weightedScore >= m[j].weightedScore)
      && Filter(m, HasKey(NegatedWeighted, -score)) == Filter(s, HasKey(NegatedWeighted, -score))
  {
    var s := ScoredRows(apps, rows, w, daysUntil, templates);
    SortDescending(s, score);
  }

  lemma SortDescending(s: seq<MatrixRow>, score: int)
    ensures multiset(StableSortBy(s, NegatedWeighted)) == multiset(s)
    ensures var m := StableSortBy(s, NegatedWeighted);
      forall i, j :: 0 <= i < j < |m| ==> m[i].weightedScore >= m[j].weightedScore
    ensures Filter(StableSortBy(s, NegatedWeighted), HasKey(NegatedWeighted, -score)) == Filter(s, HasKey(NegatedWeighted, -score))
  {
    StableSortBySorted(s, NegatedWeighted);
    DescendingScores(StableSortBy(s, NegatedWeighted));
    SortKeepsTies(s, score);
  }

  /** Rows with equal scores keep their input order. */
  lemma SortKeepsTies(s: seq<MatrixRow>, score: int)
    ensures Filter(StableSortBy(s, NegatedWeighted), HasKey(NegatedWeighted, -score)) == Filter(s, HasKey(NegatedWeighted, -score))
  {
    StableSortByStable(s, NegatedWeighted, -score);
  }

  /** Ascending negated scores are descending scores. */
  lemma DescendingScores(m: seq<MatrixRow>)
    requires SortedBy(m, NegatedWeighted)
    ensures forall i, j :: 0 <= i < j < |m| ==> m[i].weightedScore >= m[j].weightedScore
  {
    forall i, j | 0 <= i < j < |m| ensures m[i].weightedScore >= m[j].weightedScore {
      assert NegatedWeighted(m[i]) <= NegatedWeighted(m[j]);
    }
  }

  // ------------------------------------------------------------ line diff

  datatype DiffKind = Same | Added | Removed | Changed

  datatype DiffRow = DiffRow(id: string, kind: DiffKind, before: string, after: string)

  function KindName(k: DiffKind): string
  {
    match k
    case Same => "same"
    case Added => "added"
    case Removed => "removed"
    case Changed => "changed"
  }

  /** `text.replace(/\r/g, '')`. */
  function StripCR(s: string): (r: string)
    ensures '\r' !in r
    ensures |r| <= |s|
  {
    if s == [] then [] else (if s[0] == '\r' then [] else [s[0]]) + StripCR(s[1..])
  }

  /** The lines of a text once carriage returns are removed. */
  function Lines(text: string): (r: seq<string>)
    ensures |r| >= 1
  {
    Split(StripCR(text), '\n')
  }

  function LineAt(lines: seq<string>, i: nat): string
  {
    if i < |lines| then lines[i] else ""
  }

  /** The classification of one line pair. */
  function DiffRowAt(left: seq<string>, right: seq<string>, i: nat): (r: DiffRow)
    ensures r.before == LineAt(left, i) && r.after == LineAt(right, i)
    ensures r.kind == Same <==> LineAt(left, i) == LineAt(right, i)
    ensures r.kind == Added <==> LineAt(left, i) == "" && LineAt(right, i) != ""
    ensures r.kind == Removed <==> LineAt(left, i) != "" && LineAt(right, i) == ""
    ensures r.id == KindName(r.kind) + "-" + NatToString(i)
  {
    PairRow(LineAt(left, i), LineAt(right, i), i)
  }

  /** The row for line `i` holding `before` on the left and `after` on the right. */
  function PairRow(before: string, after: string, i: nat): (r: DiffRow)
    ensures r.before == before && r.after == after
    ensures r.kind == Same <==> before == after
    ensures r.kind == Added <==> before == "" && after != ""
    ensures r.kind == Removed <==> before != "" && after == ""
    ensures r.id == KindName(r.kind) + "-" + NatToString(i)
  {
    if before == after then DiffRow("same-" + NatToString(i), Same, before, after)
    else if before == "" && after != "" then DiffRow("added-" + NatToString(i), Added, "", after)
    else if before != "" && after == "" then DiffRow("removed-" + NatToString(i), Removed, before, "")
    else DiffRow("changed-" + NatToString(i), Changed, before, after)
  }

  function MaxNat(a: nat, b: nat): nat { if a >= b then a else b }

  /** The diff of two texts, one row per line of the longer one. */
  function DiffRows(baseText: string, compareText: string): (r: seq<DiffRow>)
    ensures |r| == MaxNat(|Lines(baseText)|, |Lines(compareText)|)
  {
    var left, right := Lines(baseText), Lines(compareText);
    seq(MaxNat(|left|, |right|), i requires 0 <= i => DiffRowAt(left, right, i))
  }

  /** `buildVersionDiffRows`, the index loop that pushes one row per line. */
  method BuildVersionDiffRows(baseText: string, compareText: string) returns (rows: seq<DiffRow>)
    ensures rows == DiffRows(baseText, compareText)
  {
    var left := Lines(baseText);
    var right := Lines(compareText);
    rows := DiffLines(left, right);
  }

  /** The loop of `buildVersionDiffRows` over the two line lists. */
  method DiffLines(left: seq<string>, right: seq<string>) returns (rows: seq<DiffRow>)
    ensures rows == seq(MaxNat(|left|, |right|), i requires 0 <= i => DiffRowAt(left, right, i))
  {
    var maxLines := if |left| >= |right| then |left| else |right|;
    rows := [];
    var i := 0;
    while i < maxLines
      invariant 0 <= i <= maxLines
      invariant |rows| == i
      invariant forall k :: 0 <= k < i ==> rows[k] == DiffRowAt(left, right, k)
    {
      var before := if i < |left| then left[i] else "";
      var after := if i < |right| then right[i] else "";
      var row := ClassifyPair(before, after, i);
      rows := rows + [row];
      i := i + 1;
    }
  }

  /** The branch chain of the loop body of `buildVersionDiffRows`. */
  method ClassifyPair(before: string, after: string, i: nat) returns (row: DiffRow)
    ensures row == PairRow(before, after, i)
  {
    if before == after {
      row := DiffRow("same-" + NatToString(i), Same, before, after);
    } else if before == "" && after != "" {
      row := DiffRow("added-" + NatToString(i), Added, "", after);
    } else if before != "" && after == "" {
      row := DiffRow("removed-" + NatToString(i), Removed, before, "");
    } else {
      row := DiffRow("changed-" + NatToString(i), Changed, before, after);
    }
  }

  /** Comparing a text with itself yields only unchanged rows. */
  lemma DiffOfIdenticalTexts(text: string)
    ensures forall k :: 0 <= k < |DiffRows(text, text)| ==> DiffRows(text, text)[k].kind == Same
  {
  }

  /**
   * No line is lost: the `before` column spells the base text's lines and the
   * `after` column the compared text's lines, padded with empty lines.
   */
  lemma DiffKeepsBothSides(baseText: string, compareText: string)
    ensures forall k :: 0 <= k < |Lines(baseText)| ==> DiffRows(baseText, compareText)[k].before == Lines(baseText)[k]
    ensures forall k :: 0 <= k < |Lines(compareText)| ==> DiffRows(baseText, compareText)[k].after == Lines(compareText)[k]
  {
  }

  // -------------------------------------------------------------- timeline

  datatype TimelineCell =
    | EmptyCell(key: string)
    | DayCell(key: string, day: nat, applications: seq<Application>)

  /** The month shown at an offset from today's month: `(year, month 1..12)`. */
  function TimelineMonth(today: Date, offset: int): (r: (int, int))
    ensures 1 <= r.1 <= 12
    ensures (r.0 - today.year) * 12 + (r.1 - today.month) == offset
  {
    var index := today.month - 1 + offset;
    (today.year + index / 12, index % 12 + 1)
  }

  /** The date key of a day of the shown month. */
  function DayKey(year: int, month: int, day: nat): string
  {
    IntToString(year) + "-" + Pad2(if month < 1 then 0 else month) + "-" + Pad2(day)
  }

  /** The applications whose deadline text is exactly a key, in list order. */
  function AppsWithDeadline(apps: seq<Application>, key: string): (r: seq<Application>)
    ensures forall a :: a in r <==> a in apps && a.deadline != "" && a.deadline == key
  {
    FilterMembers(apps, (a: Application) => a.deadline != "" && a.deadline == key);
    Filter(apps, (a: Application) => a.deadline != "" && a.deadline == key)
  }

  function TimelineCellAt(apps: seq<Application>, year: int, month: int, startWeekday: nat, i: nat): TimelineCell
  {
    if i < startWeekday then EmptyCell("empty-" + NatToString(i))
    else
      var day := i - startWeekday + 1;
      var key := DayKey(year, month, day);
      DayCell(key, day, AppsWithDeadline(apps, key))
  }

  /** The grid: leading empty cells up to the first weekday, then one cell per day. */
  function TimelineCells(apps: seq<Application>, year: int, month: int, startWeekday: nat, daysInMonth: nat): (r: seq<TimelineCell>)
    ensures |r| == startWeekday + daysInMonth
    ensures forall i :: 0 <= i < startWeekday ==> r[i] == EmptyCell("empty-" + NatToString(i))
    ensures forall i :: startWeekday <= i < |r| ==>
      r[i].DayCell? && r[i].day == i - startWeekday + 1 && r[i].key == DayKey(year, month, i - startWeekday + 1)
      && r[i].applications == AppsWithDeadline(apps, r[i].key)
  {
    seq(startWeekday + daysInMonth, i requires 0 <= i => TimelineCellAt(apps, year, month, startWeekday, i))
  }

  /** The two loops of `buildTimelineData` that fill the month grid. */
  method BuildTimelineCells(apps: seq<Application>, year: int, month: int, startWeekday: nat, daysInMonth: nat)
    returns (cells: seq<TimelineCell>)
    ensures cells == TimelineCells(apps, year, month, startWeekday, daysInMonth)
  {
    cells := [];
    var i := 0;
    while i < startWeekday
      invariant 0 <= i <= startWeekday
      invariant cells == seq(i, k requires 0 <= k => TimelineCellAt(apps, year, month, startWeekday, k))
    {
      cells := cells + [EmptyCell("empty-" + NatToString(i))];
      i := i + 1;
    }
    var day := 1;
    while day <= daysInMonth
      invariant 1 <= day <= daysInMonth + 1
      invariant cells == seq(startWeekday + day - 1, k requires 0 <= k => TimelineCellAt(apps, year, month, startWeekday, k))
    {
      var key := DayKey(year, month, day);
      cells := cells + [DayCell(key, day, AppsWithDeadline(apps, key))];
      day := day + 1;
    }
  }

  /** The cell of a calendar day holds every application due on that day. */
  lemma TimelineDayCell(apps: seq<Application>, dt: Date, startWeekday: nat, a: Application)
    requires Valid(dt) && dt.year >= 100
    requires a in apps && a.deadline == IsoForm(dt)
    ensures var cell := TimelineCells(apps, dt.year, dt.month, startWeekday, DaysInMonth(dt.year, dt.month))[startWeekday + dt.day - 1];
      cell.DayCell? && cell.day == dt.day && a in cell.applications
      && ParseDate(cell.key) == Some(dt)
  {
    DayKeyIsIsoForm(dt);
    TimelineCellOfDay(apps, dt.year, dt.month, startWeekday, DaysInMonth(dt.year, dt.month), dt.day);
    FilterKeeps(apps, (x: Application) => x.deadline != "" && x.deadline == IsoForm(dt), a);
    ParseDateIsoForm(dt);
  }

  /** The key of a valid day is its ISO form. */
  lemma DayKeyIsIsoForm(dt: Date)
    requires Valid(dt)
    ensures DayKey(dt.year, dt.month, dt.day) == IsoForm(dt)
  {
  }

  /** The cell of a day of the month. */
  lemma TimelineCellOfDay(apps: seq<Application>, year: int, month: int, startWeekday: nat, daysInMonth: nat, day: nat)
    requires 1 <= day <= daysInMonth
    ensures TimelineCells(apps, year, month, startWeekday, daysInMonth)[startWeekday + day - 1]
      == DayCell(DayKey(year, month, day), day, AppsWithDeadline(apps, DayKey(year, month, day)))
  {
    assert TimelineCells(apps, year, month, startWeekday, daysInMonth)[startWeekday + day - 1]
      == TimelineCellAt(apps, year, month, startWeekday, startWeekday + day - 1);
  }

  /** The sort key of `applicationsByDeadline`: the day number of the deadline. */
  function DeadlineOrder(a: Application): int
  {
    match ParseDate(a.deadline)
    case Some(dt) => DayNumber(dt)
    case None => 0
  }

  /** `applicationsByDeadline`: a stable sort by ascending deadline. */
  function ApplicationsByDeadline(apps: seq<Application>): (r: seq<Application>)
    ensures multiset(r) == multiset(apps)
    ensures SortedBy(r, DeadlineOrder)
  {
    StableSortBySorted(apps, DeadlineOrder);
    StableSortBy(apps, DeadlineOrder)
  }

  // --------------------------------------------------------------- buckets

  datatype Buckets = Buckets(overdue: seq<Application>, critical: seq<Application>, upcoming: seq<Application>)

  predicate Overdue(a: Application, daysUntil: string -> Option<int>)
  {
    var d := daysUntil(a.deadline); d.Some? && d.value < 0
  }

  predicate Critical(a: Application, daysUntil: string -> Option<int>)
  {
    var d := daysUntil(a.deadline); d.Some? && 0 <= d.value <= 14
  }

  predicate Later(a: Application, daysUntil: string -> Option<int>)
  {
    var d := daysUntil(a.deadline); d.Some? && d.value > 14
  }

  predicate Dated(a: Application, daysUntil: string -> Option<int>)
  {
    daysUntil(a.deadline).Some?
  }

  /** `buildDeadlineBuckets`. */
  function DeadlineBuckets(apps: seq<Application>, daysUntil: string -> Option<int>): (b: Buckets)
    ensures forall a :: a in b.overdue <==> a in apps && Overdue(a, daysUntil)
    ensures forall a :: a in b.critical <==> a in apps && Critical(a, daysUntil)
    ensures forall a :: a in b.upcoming <==> a in apps && Later(a, daysUntil)
  {
    FilterMembers(apps, a => Overdue(a, daysUntil));
    FilterMembers(apps, a => Critical(a, daysUntil));
    FilterMembers(apps, a => Later(a, daysUntil));
    Buckets(Filter(apps, a => Overdue(a, daysUntil)), Filter(apps, a => Critical(a, daysUntil)), Filter(apps, a => Later(a, daysUntil)))
  }

  /**
   * The buckets split the dated applications: together they hold each of
   * them exactly once, and undated ones are dropped.
   */
  lemma DeadlineBucketsPartition(apps: seq<Application>, daysUntil: string -> Option<int>)
    ensures var b := DeadlineBuckets(apps, daysUntil);
      multiset(b.overdue + b.critical + b.upcoming) == multiset(Filter(apps, a => Dated(a, daysUntil)))
      && |b.overdue| + |b.critical| + |b.upcoming| == Count(apps, a => Dated(a, daysUntil))
  {
    var dated := Filter(apps, a => Dated(a, daysUntil));
    var o, c, u := (a: Application) => Overdue(a, daysUntil), (a: Application) => Critical(a, daysUntil), (a: Application) => Later(a, daysUntil);
    FilterPartition3(dated, o, c, u);
    FilterOfDated(apps, daysUntil, o);
    FilterOfDated(apps, daysUntil, c);
    FilterOfDated(apps, daysUntil, u);
  }

  lemma {:induction false} FilterOfDated(apps: seq<Application>, daysUntil: string -> Option<int>, p: Application -> bool)
    requires forall a :: p(a) ==> Dated(a, daysUntil)
    ensures Filter(Filter(apps, a => Dated(a, daysUntil)), p) == Filter(apps, p)
    decreases |apps|
  {
    if apps != [] {
      FilterOfDated(apps[1..], daysUntil, p);
    }
  }

  // ----------------------------------------------------- requirement totals

  datatype RequirementsSummary = RequirementsSummary(
    totalEssaysRequired: int,
    totalLorsRequired: int,
    totalLorsSubmitted: int,
    interviewsRequired: nat,
    interviewsCompleted: nat,
    totalApplications: nat)

  /** `buildRequirementsSummary`, the reduce over the applications. */
  function BuildRequirementsSummary(apps: seq<Application>): (r: RequirementsSummary)
    ensures r.totalApplications == |apps|
    ensures r.interviewsCompleted <= |apps| && r.interviewsRequired <= |apps|
    decreases |apps|
  {
    if apps == [] then RequirementsSummary(0, 0, 0, 0, 0, 0)
    else
      var acc := BuildRequirementsSummary(apps[..|apps| - 1]);
      var a := apps[|apps| - 1];
      RequirementsSummary(
        acc.totalEssaysRequired + a.essaysRequired,
        acc.totalLorsRequired + a.lorsRequired,
        acc.totalLorsSubmitted + a.lorsSubmitted,
        acc.interviewsRequired + (if a.interviewRequired then 1 else 0),
        acc.interviewsCompleted + (if a.interviewCompleted then 1 else 0),
        acc.totalApplications + 1)
  }

  function EssaysRequiredOf(a: Application): int { a.essaysRequired }

  function LorsRequiredOf(a: Application): int { a.lorsRequired }

  function LorsSubmittedOf(a: Application): int { a.lorsSubmitted }

  /** The totals are the column sums and the counters the counts. */
  lemma {:induction false} RequirementsSummaryTotals(apps: seq<Application>)
    ensures var r := BuildRequirementsSummary(apps);
      r.totalEssaysRequired == SumOf(apps, EssaysRequiredOf)
      && r.totalLorsRequired == SumOf(apps, LorsRequiredOf)
      && r.totalLorsSubmitted == SumOf(apps, LorsSubmittedOf)
      && r.interviewsRequired == Count(apps, (a: Application) => a.interviewRequired)
      && r.interviewsCompleted == Count(apps, (a: Application) => a.interviewCompleted)
      && r.totalApplications == |apps|
    decreases |apps|
  {
    if apps != [] {
      var init, last := apps[..|apps| - 1], apps[|apps| - 1];
      RequirementsSummaryTotals(init);
      assert apps == init + [last];
      SumOfConcat(init, [last], EssaysRequiredOf);
      SumOfConcat(init, [last], LorsRequiredOf);
      SumOfConcat(init, [last], LorsSubmittedOf);
      FilterConcat(init, [last], (a: Application) => a.interviewRequired);
      FilterConcat(init, [last], (a: Application) => a.interviewCompleted);
    }
  }

  // ------------------------------------------------------ document progress

  datatype DocProgress = DocProgress(ready: nat, inProgress: nat, missing: nat)

  function StatusOrMissing(scope: map<string, Fields>, t: string): string
  {
    OrElse(DocStatusIn(scope, t), "missing")
  }

  /** One template's contribution to the progress counters. */
  function Tally(acc: DocProgress, status: string): DocProgress
  {
    if status == "ready" then acc.(ready := acc.ready + 1)
    else if status == "in_progress" then acc.(inProgress := acc.inProgress + 1)
    else acc.(missing := acc.missing + 1)
  }

  /** `buildDocProgress`: the templates of one scope, counted by status. */
  function BuildDocProgress(templates: seq<string>, scope: map<string, Fields>): (p: DocProgress)
    ensures p.ready + p.inProgress + p.missing == |templates|
    decreases |templates|
  {
    if templates == [] then DocProgress(0, 0, 0)
    else Tally(BuildDocProgress(templates[..|templates| - 1], scope), StatusOrMissing(scope, templates[|templates| - 1]))
  }

  /** The ready counter agrees with the readiness score's ready count. */
  lemma {:induction false} DocProgressReady(templates: seq<string>, scope: map<string, Fields>)
    ensures BuildDocProgress(templates, scope).ready == ReadyCount(templates, scope)
    decreases |templates|
  {
    if templates != [] {
      var init, last := templates[..|templates| - 1], templates[|templates| - 1];
      DocProgressReady(init, scope);
      assert templates == init + [last];
      FilterConcat(init, [last], t => DocStatusIn(scope, t) == "ready");
      TallyReady(BuildDocProgress(init, scope), scope, last);
    }
  }

  /** A template adds to the ready counter exactly when its stored status is `ready`. */
  lemma TallyReady(acc: DocProgress, scope: map<string, Fields>, t: string)
    ensures Tally(acc, StatusOrMissing(scope, t)).ready == acc.ready + (if DocStatusIn(scope, t) == "ready" then 1 else 0)
  {
    assert "missing" != "ready" by { assert "missing"[0] != "ready"[0]; }
  }

  function AddProgress(a: DocProgress, b: DocProgress): DocProgress
  {
    DocProgress(a.ready + b.ready, a.inProgress + b.inProgress, a.missing + b.missing)
  }

  /** The progress of every application's scope, added up. */
  function OverallProgress(apps: seq<Application>, docs: DocsByScope, templates: seq<string>): DocProgress
    decreases |apps|
  {
    if apps == [] then DocProgress(0, 0, 0)
    else AddProgress(OverallProgress(apps[..|apps| - 1], docs, templates),
                     BuildDocProgress(templates, ScopeOf(docs, Helpers.DocScopeKey(Some(apps[|apps| - 1].id)))))
  }

  /** Every application contributes one status per template. */
  lemma {:induction false} OverallProgressTotal(apps: seq<Application>, docs: DocsByScope, templates: seq<string>)
    ensures var p := OverallProgress(apps, docs, templates); p.ready + p.inProgress + p.missing == |apps| * |templates|
    decreases |apps|
  {
    if apps != [] {
      OverallProgressTotal(apps[..|apps| - 1], docs, templates);
      assert |apps| * |templates| == (|apps| - 1) * |templates| + |templates|;
    }
  }

  /** `buildDocProgressOverall`: a reduce over applications with an inner loop over templates. */
  method BuildDocProgressOverall(apps: seq<Application>, docs: DocsByScope, templates: seq<string>) returns (p: DocProgress)
    ensures p == OverallProgress(apps, docs, templates)
  {
    p := DocProgress(0, 0, 0);
    var i := 0;
    while i < |apps|
      invariant 0 <= i <= |apps|
      invariant p == OverallProgress(apps[..i], docs, templates)
    {
      var scope := ScopeOf(docs, Helpers.DocScopeKey(Some(apps[i].id)));
      var inner := TallyScope(templates, scope);
      assert apps[..i + 1][..i] == apps[..i];
      p := AddProgress(p, inner);
      i := i + 1;
    }
    assert apps[..i] == apps;
  }

  /** The inner loop over the templates of one scope, counting each status. */
  method TallyScope(templates: seq<string>, scope: map<string, Fields>) returns (inner: DocProgress)
    ensures inner == BuildDocProgress(templates, scope)
  {
    var j := 0;
    inner := DocProgress(0, 0, 0);
    while j < |templates|
      invariant 0 <= j <= |templates|
      invariant inner == BuildDocProgress(templates[..j], scope)
    {
      assert templates[..j + 1][..j] == templates[..j];
      inner := Tally(inner, StatusOrMissing(scope, templates[j]));
      j := j + 1;
    }
    assert templates[..j] == templates;
  }

  // ---------------------------------------------------- research/interviews

  function FieldOf(card: Fields, name: string): string
  {
    if name in card then card[name] else ""
  }

  function CardOf(cards: CardsByApplication, id: int): Fields
  {
    if id in cards then cards[id] else map[]
  }

  predicate HasResearch(cards: CardsByApplication, a: Application)
  {
    var c := CardOf(cards, a.id);
    FieldOf(c, "website") != "" || FieldOf(c, "program_highlights") != ""
    || FieldOf(c, "career_outcomes") != "" || FieldOf(c, "ranking_notes") != ""
  }

  /** `buildResearchApplications`: applications whose research card has content. */
  function ResearchApplications(apps: seq<Application>, cards: CardsByApplication): (r: seq<Application>)
    ensures forall a :: a in r <==> a in apps && HasResearch(cards, a)
    ensures IsSubsequence(r, apps)
    ensures forall a :: multiset(r)[a] == if HasResearch(cards, a) then multiset(apps)[a] else 0
  {
    FilterMembers(apps, a => HasResearch(cards, a));
    FilterExact(apps, a => HasResearch(cards, a));
    Filter(apps, a => HasResearch(cards, a))
  }

  predicate HasInterview(cards: CardsByApplication, a: Application)
  {
    a.interviewRequired || FieldOf(CardOf(cards, a.id), "scheduled_at") != ""
    || FieldOf(CardOf(cards, a.id), "strategy_notes") != ""
  }

  /** `buildInterviewApplications`: required interviews and those with prep notes. */
  function InterviewApplications(apps: seq<Application>, cards: CardsByApplication): (r: seq<Application>)
    ensures forall a :: a in r <==> a in apps && HasInterview(cards, a)
    ensures IsSubsequence(r, apps)
    ensures forall a :: multiset(r)[a] == if HasInterview(cards, a) then multiset(apps)[a] else 0
  {
    FilterMembers(apps, a => HasInterview(cards, a));
    FilterExact(apps, a => HasInterview(cards, a));
    Filter(apps, a => HasInterview(cards, a))
  }
}
