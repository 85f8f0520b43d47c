# masters-platform in Dafny

A model of the rules of masters-platform, an admissions tracker for
applicants to master's and MBA programmes. It has a React client and a
FastAPI backend. The model covers five groups of logic.

- **Client derivations.** Everything the workspace computes from the
  applications, essays and documents: deadline day counts, the readiness
  score, notifications with stable ids, the decision matrix, the version
  diff, the timeline grid, deadline buckets and document progress.
- **Exporters.** The CSV and iCalendar exports and the share summary.
- **Client state transitions.** Notifications, documents, navigation,
  drafts, the telemetry buffer, the layout model and the repair effects.
- **Normalisers and validators.** Both sides have them: the admin catalog
  form, the sign-in redirect guard, the landing-page demo scorer, the
  request schemas, the settings, the environment check, program slugs,
  the mock reviews with their score reader, and JSON-safe logging.
- **Backend rules over tables.** The rate limiter, deadline reminders,
  one-time tokens, refresh-token rotation, essay version chains, the
  application update guard, admin role and catalog operations, the essay
  backfill and the catalog search.

Each source file has a Dafny module of its own. Pure code is modelled as
functions with lemmas. Code that updates state in place is modelled as
classes whose methods are proved against those functions:

- `NavigationActions.Workspace`;
- `RateLimit.RateLimiter`;
- `AdminView.Pager`;
- the tables of `AuthDb.Database` and `TrackerDb.Tables`;
- `AdminRoutes.CatalogFile`.

The shared modules are `Wrappers` (Option, Result), `Text` (ASCII
strings), `Seqs`, `Dates` (proleptic Gregorian day numbers), `Js`,
`Numbers`, `Words`, `Records` and `Http`.

Conventions:

- The clock, "today", random tokens and password hashes are parameters.
- Token digests are the raw tokens themselves, which stands for an
  injective hash.
- Floating-point numbers are exact reals. JavaScript's `Math.round(x)`
  is `floor(x + 1/2)` and Python's `int(x)` truncates towards zero.
- Case folding and whitespace are ASCII.
- A database query returns rows in table order.

## Model

| member | source | states |
|---|---|---|
| Derived.ParseDate | frontend/src/app/derived.js:1-7 | an empty value has no date; a parsed date is a valid calendar date (the `new Date(y, m-1, d)` roll-over normalised) |
| Derived.DateOfParts | frontend/src/app/derived.js:4-6 | when the three leading `-`-free parts are truthy numbers they give `new Date(y, m - 1, d)`, always a valid calendar date |
| Derived.DateOfNumbers | frontend/src/app/derived.js:5 | `new Date(y, m - 1, d)` of three positive numbers is a valid calendar date |
| Derived.DateOfNumbersCases | frontend/src/app/derived.js:5 | each argument is truncated towards zero and years 0..99 mean 1900..1999; a day of at least 1 rolls over into later months, and a day below 1 is the day before the 1st of the month |
| Derived.DateOfFractionalParts | frontend/src/app/derived.js:4-6 | a fractional day is cut off: `2025-03-15.9` is 15 March, and a day of `0.5` is the last day of the month before |
| Dates.PrevDay | frontend/src/app/derived.js:5 | the day before a valid date (`new Date(y, m, 0)`) is a valid date |
| Dates.PrevDayNext | frontend/src/app/derived.js:5 | the day before is the date whose next day is the given one, and its day number is one less |
| Js.ToNumber | frontend/src/app/derived.js:4 | `Number` of blank text is 0 |
| Js.ToNumberOfDigits | frontend/src/app/derived.js:4 | a run of decimal digits reads as its value |
| Js.ToNumberNoMinus | frontend/src/app/derived.js:4 | text without a minus sign never reads as a negative number |
| Js.ToNumberOfNat | frontend/src/app/hooks/useWorkspaceComputed.js:175 | a rendered natural number reads back as itself |
| Js.ToNumberOfDecimal | frontend/src/app/essayApplicationActions.js:267-270 | digits, a point and digits read as the whole part plus the fraction |
| Js.DecimalFeeReads | frontend/src/app/essayApplicationActions.js:267-270 | a fee typed with cents, `125.50`, reads as 125.5 |
| Js.ToNumberOfExponent | frontend/src/app/hooks/useWorkspaceComputed.js:175 | digits, `e` and digits read as the significand times that power of ten |
| Js.ToNumberOfRadix | frontend/src/app/documentActions.js:30 | a `0x`, `0o` or `0b` prefix followed by digits of that radix reads as their value |
| Js.ToNumberOfNegated | frontend/src/app/hooks/useWorkspaceComputed.js:175-176 | a leading minus negates an unsigned literal, and a malformed literal stays NaN |
| Js.ToNumberOfNonNumeric | frontend/src/app/documentActions.js:30 | text starting with neither whitespace, a sign, a point nor a digit is NaN |
| Js.Round | frontend/src/app/derived.js:60 | `Math.round` gives the integer within half a unit below and above, halves rounding up |
| Derived.DateOfNumericParts | frontend/src/app/derived.js:4-6 | dash-free parts whose first three read as whole numbers (a year of at least 100, a month and a day of at least 1) give the rolled-over date of those numbers, whatever parts follow |
| Derived.SplitIsoForm | frontend/src/app/derived.js:4 | splitting a `YYYY-MM-DD` text on `-` gives the year, month and day texts |
| Derived.ParseDateIsoForm | frontend/src/app/derived.js:1-7 | a calendar date written `YYYY-MM-DD` parses back to itself |
| Derived.DaysUntilDeadline | frontend/src/app/derived.js:9-20 | no day count exactly when the deadline does not parse |
| Derived.DaysUntilIsoForm | frontend/src/app/derived.js:9-20 | a written calendar date is its exact signed day distance from today |
| Derived.DaysUntilToday | frontend/src/app/derived.js:9-20 | today's own date is 0 days away |
| Derived.DaysFromTomorrow | frontend/src/app/derived.js:9-20 | one day later every deadline the parser accepted is one day nearer, and one it rejected still has no count |
| Derived.EssayCountForApplication | frontend/src/app/derived.js:30-38 | the count of essays linked by id or by trimmed, lower-cased school and program never exceeds the essays |
| Derived.EssayCountStep | frontend/src/app/derived.js:30-38 | each essay adds one to the count exactly when it matches, so each essay is counted at most once |
| Derived.Ratio | frontend/src/app/derived.js:49-53 | a zero target gives 1; the ratio is capped at 1, non-negative for non-negative counts, and 1 once the target is met |
| Derived.DocShare | frontend/src/app/derived.js:56-57 | no templates gives 0; otherwise the ready share lies in 0..1 and is 1 when every template is ready |
| Derived.ReadinessValue | frontend/src/app/derived.js:60 | sub-scores in 0..1 give a percentage in 0..100; all complete gives 100; without documents at most 75 |
| Derived.ReadinessOf | frontend/src/app/derived.js:47-62 | the record carries the targets and counts, and the readiness lies in 0..100 for non-negative counts |
| Derived.ApplicationReadiness | frontend/src/app/derived.js:40-63 | docs ready and essays drafted are bounded by the templates and essays; readiness in 0..100 |
| Derived.ReadinessComplete | frontend/src/app/derived.js:47-60 | every target met, at least one template ready for each and the interview done gives readiness 100 |
| Derived.ReadinessWithoutTemplates | frontend/src/app/derived.js:57 | without document templates the readiness is at most 75 |
| Derived.FilterApplications | frontend/src/app/derived.js:65-80 | a blank search keeps every application; otherwise the applications whose text fields contain the trimmed, lower-cased query, in list order and each as often as in the list, and no other |
| Derived.AddFeeEffect | frontend/src/app/derived.js:83-86 | adding a fee creates or updates only its currency's total |
| Derived.FeeTotalsCorrect | frontend/src/app/derived.js:93-106 | a currency has a total exactly when some application bills a truthy fee in it, and the total is the sum of those fees |
| Derived.FeeTotalsSize | frontend/src/app/derived.js:93-106 | there are never more currency totals than applications |
| Derived.BuildApplicationSummary | frontend/src/app/derived.js:82-111 | the reduce yields the upcoming and due-soon counts and both fee-total maps |
| Derived.DueSoonWithinUpcoming | frontend/src/app/derived.js:91-92 | every application due soon is upcoming |
| Derived.ReadinessRows | frontend/src/app/derived.js:113-117 | one row per application, in order, holding its readiness |
| Derived.AverageReadiness | frontend/src/app/derived.js:119-125 | no rows gives 0 |
| Derived.AverageReadinessBounded | frontend/src/app/derived.js:119-125 | the rounded mean of percentages is a percentage |
| Derived.DeadlineNotices | frontend/src/app/derived.js:141-161 | at most one of overdue and reminder; it fires exactly for a past deadline or a day count among the markers; severity high iff at most 7 days; the `deadline-overdue-<id>` and `deadline-reminder-<id>-<d>` ids |
| Derived.MissingCount | frontend/src/app/derived.js:139 | the missing templates (status absent or `missing`) number at most the templates |
| Derived.ReadinessNotice | frontend/src/app/derived.js:163-172 | a notice exactly when readiness is below 60, for the application, pointing at requirements |
| Derived.InterviewNotice | frontend/src/app/derived.js:174-183 | a notice exactly for a required, not completed interview |
| Derived.DocsNotice | frontend/src/app/derived.js:185-194 | a low-severity notice exactly when at least three documents are missing |
| Derived.ChecklistNotices | frontend/src/app/derived.js:163-194 | the readiness, interview and documents notices, each as its own row states, in that order, all for the application |
| Derived.ApplicationNotices | frontend/src/app/derived.js:135-197 | the deadline notice followed by the checklist notices, at most four, all for the application |
| Derived.ApplicationNoticesKinds | frontend/src/app/derived.js:141-194 | the sections the notices lead to are, in this order: `deadlines` exactly for an overdue or reminder-day deadline, `requirements` exactly below 60% readiness, `interviews` exactly for a pending required interview, `docs` exactly from three missing documents |
| Derived.NoticesFor | frontend/src/app/derived.js:135-139 | the notices of a row are the application notices of its application, with its deadline's day count and its scope's missing-document count looked up |
| Derived.GeneratedNotifications | frontend/src/app/derived.js:127-197 | at most four notices per row |
| Derived.GeneratedNotificationsMembers | frontend/src/app/derived.js:134-135 | a notice is generated exactly when it is one of some row's notices |
| Derived.GeneratedNotificationsAt | frontend/src/app/derived.js:134-135 | the notices of each row form one block, after those of the earlier rows and before those of the later ones |
| Derived.GeneratedNotificationsConcat | frontend/src/app/derived.js:135 | the notices concatenate in row order |
| Derived.GeneratedNotificationsBelong | frontend/src/app/derived.js:135-197 | every notice belongs to one of the rows' applications |
| Derived.WeightTotal | frontend/src/app/derived.js:206-207 | never 0: a zero sum is replaced by 1, any other sum is kept |
| Derived.MaxProgramFee | frontend/src/app/derived.js:209-212 | the largest fee candidate, at least 0: it bounds every candidate and is 0 or attained |
| Derived.DeadlineScore | frontend/src/app/derived.js:225-236 | 45 without a date, 0 when overdue, 100 within a week, 88 for 8..21 days, 72 for 22..45 days and 55 beyond |
| Derived.DeadlineScoreCloserIsHigher | frontend/src/app/derived.js:225-236 | among future deadlines a closer one never scores lower |
| Derived.DecisionScore | frontend/src/app/derived.js:214-240 | Admitted 100, Interview Invite 75, Waitlisted 55, Pending 45, Rejected 5, and 45 for any status outside the lookup |
| Derived.AffordabilityScore | frontend/src/app/derived.js:237-239 | 70 when the largest fee is 0; otherwise at least 12, at most 100 for a non-negative fee, and 100 for no fee |
| Derived.DocsScore | frontend/src/app/derived.js:241 | 0 without templates, otherwise a percentage |
| Derived.ScoreRow | frontend/src/app/derived.js:223-260 | a row keeps its application and readiness; its deadline, affordability, decision and documents scores are those of the score functions, and its weighted score is the weighted mean of the five |
| Derived.WeightedScoreBounded | frontend/src/app/derived.js:206-249 | with non-negative weights, the rounded weighted mean of sub-scores in 0..100 is in 0..100, also when every weight is zero |
| Derived.ScoredRows | frontend/src/app/derived.js:222-261 | one scored row per readiness row, in order |
| Derived.DecisionMatrixRows | frontend/src/app/derived.js:199-263 | one matrix row per readiness row |
| Derived.DecisionMatrixOrdered | frontend/src/app/derived.js:262 | a permutation of the scored rows, by descending weighted score, with equal scores in input order (stable sort) |
| Derived.StripCR | frontend/src/app/derived.js:267-270 | no carriage return remains |
| Derived.Lines | frontend/src/app/derived.js:266-271 | at least one line |
| Derived.DiffRowAt | frontend/src/app/derived.js:275-285 | `same` iff the lines are equal, `added` iff only the right is non-empty, `removed` iff only the left is; the `<kind>-<i>` id |
| Derived.DiffRows | frontend/src/app/derived.js:272-274 | one row per line of the longer text |
| Derived.BuildVersionDiffRows | frontend/src/app/derived.js:265-288 | the index loop pushes exactly the rows of the diff |
| Derived.DiffLines | frontend/src/app/derived.js:272-286 | the loop over the two line lists pushes, at each index, the row DiffRowAt classifies |
| Derived.PairRow | frontend/src/app/derived.js:277-285 | a pair of lines is `same` iff equal, `added` iff only the after line is non-empty, `removed` iff only the before line is; the row keeps both lines and the `<kind>-<i>` id |
| Derived.DiffOfIdenticalTexts | frontend/src/app/derived.js:277-278 | a text compared with itself gives only `same` rows |
| Derived.DiffKeepsBothSides | frontend/src/app/derived.js:275-276 | the before and after columns spell the two texts' lines, padded with empty lines |
| Derived.TimelineMonth | frontend/src/app/derived.js:292 | the month shown is exactly `offset` months from today's month, with month in 1..12 |
| Derived.TimelineCells | frontend/src/app/derived.js:310-326 | the leading cells are the empty cells `empty-0`, `empty-1`, ... up to the first weekday; every later cell is the day cell of its day of the month, keyed by that date and holding the applications due on it |
| Derived.BuildTimelineCells | frontend/src/app/derived.js:301-326 | the two loops build exactly those cells |
| Derived.TimelineDayCell | frontend/src/app/derived.js:302-325 | the cell of a day holds every application due that day and its key parses back to the day |
| Derived.ApplicationsByDeadline | frontend/src/app/derived.js:328-333 | a permutation of the applications, sorted by deadline, a dateless one counting as 1970-01-01 |
| Derived.DeadlineBucketsPartition | frontend/src/app/derived.js:342-353 | the overdue, critical and upcoming buckets together hold each dated application exactly once; undated ones are dropped |
| Derived.DeadlineBuckets | frontend/src/app/derived.js:342-353 | the overdue, critical and upcoming buckets hold exactly the applications of their class |
| Derived.RequirementsSummaryTotals | frontend/src/app/derived.js:355-374 | the totals are the column sums and the counters the counts |
| Derived.BuildRequirementsSummary | frontend/src/app/derived.js:355-374 | the application count is the number of applications, and no more interviews are required or completed than there are applications |
| Derived.BuildDocProgress | frontend/src/app/derived.js:376-386 | ready, in progress and missing add up to the number of templates |
| Derived.DocProgressReady | frontend/src/app/derived.js:376-384 | the ready counter equals the readiness score's ready count |
| Derived.OverallProgressTotal | frontend/src/app/derived.js:388-401 | the counters add up to applications times templates |
| Derived.BuildDocProgressOverall | frontend/src/app/derived.js:388-401 | the reduce with its inner loop computes the overall progress |
| Derived.TallyScope | frontend/src/app/derived.js:392-397 | the loop over one scope's templates counts each status as the specified progress of that scope |
| Derived.ResearchApplications | frontend/src/app/derived.js:403-410 | the applications whose research card has a truthy field, in list order and each as often as in the list, and no other |
| Derived.InterviewApplications | frontend/src/app/derived.js:412-418 | the applications with a required interview or prep notes, in list order and each as often as in the list, and no other |
| Exporters.CellText | frontend/src/app/exporters.js:93-94 | a missing value is written as the empty string, any other value as its own text |
| Exporters.EscapeQuotes | frontend/src/app/exporters.js:95 | doubling quotes never shortens a value and leaves a quote-free value as it is |
| Exporters.EscapeQuotesLength | frontend/src/app/exporters.js:95 | the escaped value is longer by exactly the number of `"` it holds |
| Exporters.Quote | frontend/src/app/exporters.js:96 | every quoted cell starts and ends with `"` |
| Exporters.ToCsvCell | frontend/src/app/exporters.js:93-97 | a missing value becomes `""`; every cell is enclosed in double quotes (RFC 4180 section 2, rules 6-7) |
| Exporters.ReadQuotedOfEscaped | frontend/src/app/exporters.js:95-96 | reading back an escaped and closed field gives the original value, whatever quotes it holds |
| Exporters.CsvCellRoundTrip | frontend/src/app/exporters.js:93-97 | a cell written by the quoting helper reads back as its text, quotes, commas and newlines included |
| Exporters.RecordRoundTrip | frontend/src/app/exporters.js:122 | a record of quoted cells joined by `,` reads back as the same cells |
| Exporters.CsvRoundTrip | frontend/src/app/exporters.js:122 | a document of records joined by `\n` parses back into the same records |
| Exporters.ApplicationCsvRow | frontend/src/app/exporters.js:110-120 | each data row has seven cells: school, program, round, deadline, days (empty when unknown), status and decision |
| Exporters.ApplicationsCsvRows | frontend/src/app/exporters.js:99-123 | the sheet is the fixed header followed by one seven-cell row per application, in input order |
| Exporters.ApplicationsCsv | frontend/src/app/exporters.js:99-123 | the exported text parses back into exactly the header and the application rows, whatever quotes, commas or newlines the fields hold |
| Exporters.StampForm | frontend/src/app/exporters.js:7-12 | DTSTAMP is the 16-character UTC form `YYYYMMDDTHHMMSSZ` of the clock reading (RFC 5545 section 3.3.5) |
| Exporters.SafeText | frontend/src/app/exporters.js:25-27 | commas, semicolons and newlines become spaces, every other character is kept, and the length is unchanged |
| Exporters.EventSummary | frontend/src/app/exporters.js:25-27 | the event title holds no comma, semicolon or newline |
| Exporters.EventLines | frontend/src/app/exporters.js:31-40 | an event has eight lines, from `BEGIN:VEVENT` to `END:VEVENT` |
| Exporters.EventBlock | frontend/src/app/exporters.js:14-17 | an application has event lines exactly when its deadline parses |
| Exporters.EventTexts | frontend/src/app/exporters.js:14-43 | one joined event text per dated application, in order |
| Exporters.IcsContent | frontend/src/app/exporters.js:3-48 | the calendar is absent exactly when no application's deadline parses |
| Exporters.FilterNoneIffAbsent | frontend/src/app/exporters.js:4-5 | no dated applications remain exactly when no deadline parses |
| Exporters.DatedEvents | frontend/src/app/exporters.js:14-43 | every dated application contributes an eight-line event whose text is not empty, so none is dropped |
| Exporters.IcsLayout | frontend/src/app/exporters.js:45-47 | the calendar is its lines joined by CRLF: the header lines, the events, then `END:VCALENDAR` (RFC 5545 section 3.1) |
| Exporters.EventBlocks | frontend/src/app/exporters.js:14-47 | one block per dated application in input order; the calendar has `4 + 8n` lines for `n` dated applications |
| Exporters.EventUidInjective | frontend/src/app/exporters.js:33 | the UID `<id>-<YYYYMMDD>@masters-platform` determines the application and the day, so no two events share one |
| Exporters.EventEndIsNextDay | frontend/src/app/exporters.js:18-36 | DTSTART is the deadline's date and DTEND the following day, the exclusive end of an all-day event (RFC 5545 section 3.6.1) |
| Exporters.SnapshotSummaryOf | frontend/src/app/exporters.js:79-84 | the snapshot counts every application and essay; its upcoming count is zero exactly when no deadline is known and not past |
| Exporters.NoneUpcomingIffAllPast | frontend/src/app/exporters.js:82-83 | no application counts as upcoming exactly when each deadline is unknown or past |
| ExportActions.ExportDeadlinesIcs | frontend/src/app/exportActions.js:27-34 | a download happens exactly when some deadline parses, with the calendar as content; otherwise the alert is shown and no file is made |
| ExportActions.ReadinessAverage | frontend/src/app/exportActions.js:50-54 | the average readiness is 0 without applications |
| ExportActions.ReadinessAverageBounded | frontend/src/app/exportActions.js:50-54 | the rounded mean of percentages is a percentage |
| ExportActions.ReadinessAverageConstant | frontend/src/app/exportActions.js:50-54 | when all applications have the same readiness, the average is that readiness |
| ExportActions.ToUpcomingRow | frontend/src/app/exportActions.js:56-61 | a row carries the deadline and its day count; a blank school or program falls back to `School`/`Program` |
| ExportActions.UpcomingCandidates | frontend/src/app/exportActions.js:56-61 | one candidate row per application, in order |
| ExportActions.SortedQualifying | frontend/src/app/exportActions.js:62-66 | the qualifying rows sorted by days ascending, a permutation of them |
| ExportActions.UpcomingRows | frontend/src/app/exportActions.js:55-67 | at most five rows, each with a known deadline that is not past, nearest first |
| ExportActions.QualifyingRowsMembers | frontend/src/app/exportActions.js:62 | a row qualifies exactly when it comes from an application whose deadline is set and not past |
| ExportActions.UpcomingNearest | frontend/src/app/exportActions.js:55-67 | the list has min(5, qualifying) rows taken from the qualifying rows, and no row left out is nearer than a row shown |
| ExportActions.ShareFactsOf | frontend/src/app/exportActions.js:46-67 | the counts are the sizes of the applications, essays and the interview and research maps |
| ExportActions.ShareLines | frontend/src/app/exportActions.js:69-83 | six fixed lines, then `Upcoming deadlines:` and one line per row only when there are rows |
| ExportActions.ShareLinesLength | frontend/src/app/exportActions.js:69-83 | a summary has 6 lines or 8 to 12 lines |
| ExportActions.BuildShareSummary | frontend/src/app/exportActions.js:45-85 | the pushed lines joined with `\n` are the summary's lines |
| ExportActions.SnapshotCountsQualifying | frontend/src/app/exporters.js:82-83 | the snapshot's upcoming count equals the number of rows the share summary may list |
| WorkspaceComputed.ReadNumbers | frontend/src/app/hooks/useWorkspaceComputed.js:175 | one `Number` per piece, in order, each read from the trimmed piece (decimals and exponents included, NaN for anything else) |
| WorkspaceComputed.MarkerValues | frontend/src/app/hooks/useWorkspaceComputed.js:176 | only finite, non-negative numbers survive the filter |
| WorkspaceComputed.MarkerValuesMembers | frontend/src/app/hooks/useWorkspaceComputed.js:176 | a value is a marker exactly when it is non-negative and some piece reads as it |
| WorkspaceComputed.ReminderMarkers | frontend/src/app/hooks/useWorkspaceComputed.js:173-176 | markers are non-negative and there are no more of them than comma-separated pieces |
| WorkspaceComputed.ReminderMarkersMembers | frontend/src/app/hooks/useWorkspaceComputed.js:173-176 | the markers are exactly the non-negative numbers among the pieces of the preference |
| WorkspaceComputed.ReminderMarkersFallback | frontend/src/app/hooks/useWorkspaceComputed.js:173 | an empty preference behaves like `30,14,7,1` |
| WorkspaceComputed.BlankPieceIsDayZero | frontend/src/app/hooks/useWorkspaceComputed.js:175-176 | a blank piece such as the middle of `7,,1` reads as 0, so day 0 becomes a marker |
| WorkspaceComputed.MarkersOfFinite | frontend/src/app/hooks/useWorkspaceComputed.js:176 | finite non-negative numbers are all kept, in order |
| WorkspaceComputed.MarkersOfNumbers | frontend/src/app/hooks/useWorkspaceComputed.js:174-176 | pieces that are rendered natural numbers read back as those numbers, all kept and in order |
| WorkspaceComputed.ReminderMarkersDefault | frontend/src/app/hooks/useWorkspaceComputed.js:173-176 | without a preference the markers are 30, 14, 7 and 1 |
| WorkspaceComputed.ActiveNotifications | frontend/src/app/hooks/useWorkspaceComputed.js:193-195 | a notice is active exactly when it was generated and its id is not dismissed; the active notices keep the generated order, and each keeps its multiplicity |
| WorkspaceComputed.NotificationCount | frontend/src/app/hooks/useWorkspaceComputed.js:196 | the badge counts the active notices, never more than were generated |
| WorkspaceComputed.DismissOne | frontend/src/app/hooks/useWorkspaceComputed.js:193-195 | dismissing an id hides exactly the notices with that id and keeps the others in order |
| WorkspaceComputed.NothingDismissed | frontend/src/app/hooks/useWorkspaceComputed.js:193-195 | with nothing dismissed every generated notice is active |
| WorkspaceComputed.IdentityAt | frontend/src/app/hooks/useWorkspaceComputed.js:206-210 | the identity of the version at a position, empty past the end |
| WorkspaceComputed.FallbackBase | frontend/src/app/hooks/useWorkspaceComputed.js:211 | the base defaults to the second version and, without one, to the compare default |
| WorkspaceComputed.FindVersion | frontend/src/app/hooks/useWorkspaceComputed.js:214-217 | a version is found exactly when some version has the identity, and it is the first such |
| WorkspaceComputed.FindVersionFrom | frontend/src/app/hooks/useWorkspaceComputed.js:214-217 | the search from a position finds the first matching version at or after it |
| WorkspaceComputed.SelectedDiffRows | frontend/src/app/hooks/useWorkspaceComputed.js:212-221 | no rows when either side is missing, otherwise the line diff of base against compare |
| WorkspaceComputed.NoVersionsNoDiff | frontend/src/app/hooks/useWorkspaceComputed.js:218-221 | without versions there is no diff |
| WorkspaceComputed.DefaultDiffSelection | frontend/src/app/hooks/useWorkspaceComputed.js:210-221 | with no choice made the diff goes from the second version to the first |
| WorkspaceComputed.SingleVersionDiff | frontend/src/app/hooks/useWorkspaceComputed.js:210-221 | a single version is compared with itself and every row is unchanged |
| WorkspaceComputed.SummarizeDiff | frontend/src/app/hooks/useWorkspaceComputed.js:222-230 | the summary counts the added, removed and changed rows |
| WorkspaceComputed.SummarizeDiffTotal | frontend/src/app/hooks/useWorkspaceComputed.js:222-230 | the three counts plus the unchanged rows are all the rows |
| WorkspaceComputed.SummaryOfIdenticalTexts | frontend/src/app/hooks/useWorkspaceComputed.js:222-230 | comparing a text with itself counts nothing |
| WorkspaceComputed.ResolveEssayApplicationId | frontend/src/app/hooks/useWorkspaceComputed.js:248-258 | the essay's own link wins; else the id of the first application with the same school and program when that id is truthy, and nothing when it is 0 or there is no such application |
| WorkspaceComputed.SelectedApplication | frontend/src/app/hooks/useWorkspaceComputed.js:232-233 | the chosen application carries the selected id, and there is none exactly when no id matches |
| WorkspaceComputed.EssaysForSelectedApplication | frontend/src/app/hooks/useWorkspaceComputed.js:235-246 | every essay without a selection, otherwise exactly the essays linked to it or matching its school and program, in the essays' order and with their multiplicity |
| WorkspaceComputed.SidebarApplications | frontend/src/app/hooks/useWorkspaceComputed.js:260-265 | the search results while the search is not blank, else every application |
| WorkspaceComputed.SidebarPreview | frontend/src/app/hooks/useWorkspaceComputed.js:266-268 | at most four leading applications, and the flag says exactly whether more are hidden |
| WorkspaceComputed.ActiveDocsApplicationId | frontend/src/app/hooks/useWorkspaceComputed.js:282 | the docs choice, else the selection, else the first application; an id of 0 never results |
| WorkspaceComputed.ActiveDocsMap | frontend/src/app/hooks/useWorkspaceComputed.js:285-286 | the checklist entries of the active scope, empty when the scope has none |
| WorkspaceComputed.ActiveDocsGlobal | frontend/src/app/hooks/useWorkspaceComputed.js:282-286 | without applications or a choice the checklist shown is the global one |
| Helpers.DocScopeKey | frontend/src/app/helpers.js:5-6 | the key is `global` exactly when the id is not truthy, and `application:<id>` otherwise |
| Helpers.DocScopeKeyInjective | frontend/src/app/helpers.js:5-6 | different truthy ids never share a checklist scope |
| Helpers.VersionIdentity | frontend/src/app/helpers.js:8-9 | a version with an id is named by it; one without is named `<created_at or version>-<index>` |
| Helpers.VersionIdentityInjective | frontend/src/app/helpers.js:8-9 | versions with different ids have different identities |
| Helpers.DefaultInterviewPrep | frontend/src/app/helpers.js:17-22 | the interview card has exactly its four fields, all empty |
| Helpers.DefaultResearchCard | frontend/src/app/helpers.js:24-31 | the research card has exactly its six fields, all empty |
| Helpers.ScopedMapIsNotLegacy | frontend/src/app/helpers.js:11-15 | a map keyed only by checklist scopes is not legacy when no template id looks like a scope key |
| Helpers.IsLegacyDocMap | frontend/src/app/helpers.js:11-15 | a value is a legacy map exactly when it is a non-array object whose keys meet the set of template ids |
| Helpers.LegacyDocMapHasTemplateKey | frontend/src/app/helpers.js:11-15 | an object with a template id among its keys is legacy, and an array never is |
| NotificationActions.MarkRead | frontend/src/app/notificationActions.js:2-4 | the id becomes dismissed and every other entry is kept |
| NotificationActions.MarkReadHidesOne | frontend/src/app/notificationActions.js:2-4 | marking one notice read hides exactly the notices with that id among the active ones |
| NotificationActions.MarkedAll | frontend/src/app/notificationActions.js:6-14 | every listed id becomes dismissed, and every entry not listed is kept |
| NotificationActions.MarkAllRead | frontend/src/app/notificationActions.js:6-14 | the copy-then-set loop yields exactly that map |
| NotificationActions.MarkedAllIdempotent | frontend/src/app/notificationActions.js:6-14 | marking the same ids twice is marking them once |
| NotificationActions.Ids | frontend/src/app/notificationActions.js:6 | the ids of the notices, in order |
| NotificationActions.MarkAllActiveClears | frontend/src/app/notificationActions.js:6-14 | marking all active ids read leaves no notice active |
| NotificationActions.ClearHistory | frontend/src/app/notificationActions.js:16-18 | after clearing, no id is dismissed |
| NotificationActions.ClearHistoryShowsAll | frontend/src/app/notificationActions.js:16-18 | after clearing, every generated notice is active again |
| DocumentActions.UpdateScope | frontend/src/app/documentActions.js:13-14 | an omitted application id defaults to the docs view's, an explicit one (even null) is used as given |
| DocumentActions.MergedEntry | frontend/src/app/documentActions.js:19-23 | the entry keeps its old fields, takes the patched ones, and its `updated_at` is the clock reading |
| DocumentActions.UpdateDocStatus | frontend/src/app/documentActions.js:13-26 | only the one document of the one scope changes, to the merged entry; every other scope and document is kept |
| DocumentActions.UpdateDocStatusReadBack | frontend/src/app/documentActions.js:13-26 | a patched status is what the checklist reads back afterwards |
| DocumentActions.SourceScope | frontend/src/app/documentActions.js:30 | a source id reading as NaN or 0 maps to the global scope, a whole number to that application's scope, and a fraction to `application:` and its JavaScript text |
| DocumentActions.SourceScopeOfId | frontend/src/app/documentActions.js:30 | an application id from the picker names `application:<id>` |
| DocumentActions.CopyDocs | frontend/src/app/documentActions.js:28-38 | without a source or an active application nothing changes; otherwise only the target scope changes, to a copy of the source scope |
| DocumentActions.CopyDocsIdempotent | frontend/src/app/documentActions.js:28-38 | copying twice from the same state is copying once |
| DocumentActions.UpdateCardField | frontend/src/app/documentActions.js:40-60 | the card is the defaults overlaid by the old card and then the new field; other applications are kept |
| DocumentActions.UpdateInterviewPrepField | frontend/src/app/documentActions.js:40-49 | the interview card gets the value and has at least its default fields; other applications are kept |
| DocumentActions.UpdateResearchField | frontend/src/app/documentActions.js:51-60 | the research card gets the value and has at least its default fields; other applications are kept |
| DocumentActions.FirstInterviewEditHasDefaults | frontend/src/app/documentActions.js:40-49 | a first edit fills in every default field empty beside the edited one |
| DocumentActions.UpdateCardFieldIdempotent | frontend/src/app/documentActions.js:40-60 | writing the same value twice changes nothing the second time |
| NavigationActions.NavChangeSetsSection | frontend/src/app/navigationActions.js:28-30 | every section change closes the profile menu and records the section |
| NavigationActions.ComposeOnlyOpensComposer | frontend/src/app/navigationActions.js:32-35 | `compose` changes nothing but the menu and the section, and opens the new-essay form once |
| NavigationActions.EssaysResetsPanels | frontend/src/app/navigationActions.js:45-53 | `essays` resets every editor panel without opening the composer or changing the selection |
| NavigationActions.PanelSectionsReset | frontend/src/app/navigationActions.js:55-71 | the nine planning, resource and admin sections reset the panels; only `docs` with a selection moves the docs id to it |
| NavigationActions.TrackerKeepsApplicationForm | frontend/src/app/navigationActions.js:37-43 | `tracker` closes the essay form and selection but keeps the application form as it was |
| NavigationActions.HomeKeepsSelectedEssay | frontend/src/app/navigationActions.js:73-78 | `home` closes both forms but keeps the selected essay, its review and the versions panel |
| NavigationActions.OtherSectionsOnlyNavigate | frontend/src/app/navigationActions.js:28-83 | any section not handled changes nothing but the menu and the section |
| NavigationActions.ToggleFlipsOneGroup | frontend/src/app/navigationActions.js:85-90 | toggling flips exactly one group's flag, and toggling twice restores it |
| NavigationActions.ViewAllClearsSelection | frontend/src/app/navigationActions.js:92-99 | viewing all clears both selections and lands on the tracker, leaving the editing id alone |
| NavigationActions.SidebarSelectsBoth | frontend/src/app/navigationActions.js:101-111 | a sidebar choice selects the application for the overview and the checklist, resets the panels and goes home |
| NavigationActions.SearchQuery | frontend/src/app/navigationActions.js:115 | the query is empty exactly when the search text is blank |
| NavigationActions.FirstMatchIsFound | frontend/src/app/navigationActions.js:124-128 | the first application matching is the one found |
| NavigationActions.GlobalSearchLandsOnTracker | frontend/src/app/navigationActions.js:113-136 | a search stores the trimmed text, resets the panels and ends on the tracker |
| NavigationActions.BlankSearchKeepsSelection | frontend/src/app/navigationActions.js:119-122 | a blank query leaves both selections alone |
| NavigationActions.GlobalSearchSelectsFirstMatch | frontend/src/app/navigationActions.js:124-134 | a query selects the first application whose school or program contains it, for both views, and clears the selection when none does |
| NavigationActions.Workspace.constructor | frontend/src/app/navigationActions.js:1-18 | the workspace starts in the given state |
| NavigationActions.Workspace.ResetEditorPanels | frontend/src/app/navigationActions.js:19-26 | the setter calls leave the state the panel reset describes |
| NavigationActions.Workspace.HandleNavChange | frontend/src/app/navigationActions.js:28-83 | the setter calls leave the state the section change describes |
| NavigationActions.Workspace.HandleLaterSection | frontend/src/app/navigationActions.js:54-82 | after compose, tracker and essays, the setter calls leave the state the later branches describe: a panel section resets the panels (docs first copying a truthy overview selection), home closes both forms, settings and profile reset the panels |
| NavigationActions.Workspace.HandleToggleNavGroup | frontend/src/app/navigationActions.js:85-90 | the updater leaves the state the toggle describes |
| NavigationActions.Workspace.HandleViewAllApplications | frontend/src/app/navigationActions.js:92-99 | the setter calls leave the state viewing all describes |
| NavigationActions.Workspace.HandleSelectSidebarApplication | frontend/src/app/navigationActions.js:101-111 | the setter calls leave the state the sidebar choice describes |
| NavigationActions.Workspace.HandleGlobalSearch | frontend/src/app/navigationActions.js:113-136 | the setter calls leave the state the search describes |
| NavigationActions.Workspace.SelectFirstMatch | frontend/src/app/navigationActions.js:124-134 | the selection step leaves both selections on the first matching application, or clears the overview selection when none matches |
| EssayApplicationActions.HydrateThenResolve | frontend/src/app/essayApplicationActions.js:52-65 | hydrating a stored degree and resolving the fields again gives the degree back (trimmed when it is custom) |
| EssayApplicationActions.ResolveDegreeValue | frontend/src/app/essayApplicationActions.js:52-55 | any choice other than `Other` is the degree as it is |
| EssayApplicationActions.CustomDegreeTrimmed | frontend/src/app/essayApplicationActions.js:52-55 | for `Other` the degree is the custom text without surrounding whitespace (trimming it again changes nothing), and it is missing exactly when the custom text is blank |
| EssayApplicationActions.HydrateDegreeFields | frontend/src/app/essayApplicationActions.js:57-65 | the choice shown is always a listed degree or `Other`: a listed degree other than `Other` is chosen with empty custom text, anything else shows as `Other` with the stored value as the custom text |
| EssayApplicationActions.FetchedSelection | frontend/src/app/essayApplicationActions.js:85-106 | two or more versions select the second against the first, one version itself against itself, none the empty selection |
| EssayApplicationActions.FetchedSelectionIsFallback | frontend/src/app/essayApplicationActions.js:91-104 | the stored selection is the workspace's default selection, so both show the same diff |
| EssayApplicationActions.FirstTruthy | frontend/src/app/essayApplicationActions.js:124 | the first truthy id of the two, else none |
| EssayApplicationActions.Check | frontend/src/app/essayApplicationActions.js:127-138 | one message exactly when the trimmed text is shorter than the minimum |
| EssayApplicationActions.EssayErrors | frontend/src/app/essayApplicationActions.js:126-138 | no messages exactly when school and program have 2, the prompt 5 and the content 20 trimmed characters; at most four messages |
| EssayApplicationActions.EssayErrorsMessages | frontend/src/app/essayApplicationActions.js:126-138 | each of the four messages appears exactly when its own length rule fails |
| EssayApplicationActions.AutoLink | frontend/src/app/essayApplicationActions.js:145-154 | a linked essay is kept; an unlinked one is linked to the first application of the same school, if any |
| EssayApplicationActions.SubmitEssay | frontend/src/app/essayApplicationActions.js:111-154 | a missing custom degree is refused first; otherwise the form with the resolved degree and the own or selected application is sent, auto-linked, exactly when it has no validation message, and refused with its messages joined by newlines when it has some; what is sent passes every length rule |
| EssayApplicationActions.SubmitEssayLink | frontend/src/app/essayApplicationActions.js:121-154 | a sent essay keeps its own link, else the selected application, else the first application of the same school |
| EssayApplicationActions.FeeValue | frontend/src/app/essayApplicationActions.js:267-270 | exactly an empty fee is null; any other text is read with `Number`, so `125.50` is 125.5 |
| EssayApplicationActions.MinNum | frontend/src/app/essayApplicationActions.js:273-276 | the minimum of two numbers, NaN when either is NaN |
| EssayApplicationActions.ApplicationPayloadOf | frontend/src/app/essayApplicationActions.js:264-281 | the payload's program is the degree, letters submitted are capped by required, a completed interview needs a required one, empty fees are null, the currency is upper-cased with USD by default and the decision defaults to Pending |
| EssayApplicationActions.PayloadMeetsCreateRules | frontend/src/app/essayApplicationActions.js:264-281 | the payload never submits more letters than required, never completes an interview that is not required, and always has a currency |
| EssayApplicationActions.SubmitApplication | frontend/src/app/essayApplicationActions.js:254-281 | the alert is shown exactly when the custom degree is missing; otherwise the payload is sent |
| EssayApplicationActions.NewVersionForm | frontend/src/app/essayApplicationActions.js:321-332 | a new version's parent is the base's parent, or the base itself; its link is the base's or the selected application |
| EssayApplicationActions.NewVersionParentIsRoot | frontend/src/app/essayApplicationActions.js:329 | in a chain whose versions point at the root, a new version made from any of them points at the root too |
| Drafts.ParseDraft | frontend/src/app/drafts.js:8-19 | a draft is recovered, as parsed, exactly when the stored text is non-empty and parses to an object or an array; otherwise the fallback form is used |
| Drafts.DefaultEssayForm | frontend/src/app/formDefaults.js:42-47 | the default essay form starts linked to the given application and without a parent |
| Drafts.DefaultFormsAreEmpty | frontend/src/app/drafts.js:29-45 | neither default form counts as a draft |
| Drafts.EssayDraftIgnoresProgram | frontend/src/app/drafts.js:29-35 | the essay test ignores the program type and the application link |
| Drafts.ApplicationDraftFields | frontend/src/app/drafts.js:37-45 | the application test depends only on school, deadline, requirements notes and the two fees |
| Drafts.RecoveredDraftIsParsed | frontend/src/app/drafts.js:8-19 | an object or array stored under non-empty text is recovered unchanged |
| Drafts.HasEssayDraftContent | frontend/src/app/drafts.js:29-35 | an essay form counts as a draft exactly when its school, prompt or content has a non-whitespace character |
| Drafts.HasApplicationDraftContent | frontend/src/app/drafts.js:37-45 | an application form counts as a draft exactly when its school, deadline, requirements notes or one of its fees has a non-whitespace character |
| Telemetry.Appended | frontend/src/app/telemetry.js:16 | the buffer keeps at most 200 events and ends with the new one; below 200 nothing is lost, and from 200 on it is exactly the last 200 of old plus new |
| Telemetry.TrackEvent | frontend/src/app/telemetry.js:6-31 | a readable or absent buffer gets the event appended and the upload starts; an unreadable one is left alone and nothing is sent |
| Telemetry.GetTrackedEvents | frontend/src/app/telemetry.js:33-40 | an absent or unparsable buffer reads as the empty list, a list as itself |
| Telemetry.TrackThenRead | frontend/src/app/telemetry.js:6-40 | after tracking, the events read back are at most 200, end with the new event, and keep all earlier events when there was room |
| Telemetry.FullBufferDropsOldest | frontend/src/app/telemetry.js:16 | a full buffer drops exactly its oldest event |
| LayoutModel.ResolveNavGroups | frontend/src/app/layoutModel.js:47-59 | administrators get the base groups and then the admin group; everyone else the base groups |
| LayoutModel.NavGroupsByRole | frontend/src/app/layoutModel.js:15-59 | administrators see four groups, others three; the first three are the base groups and only the fourth is `admin` |
| LayoutModel.AdminRoleIgnoresCase | frontend/src/app/layoutModel.js:48 | the role is compared case-insensitively, and no user is no administrator |
| LayoutModel.AdminRoleAnyCase | frontend/src/app/layoutModel.js:48 | a stored role makes an administrator exactly when it is the five letters of `admin`, each in either case |
| LayoutModel.HeaderPriority | frontend/src/app/layoutModel.js:61-124 | a section with its own heading ignores the selected essay; elsewhere the essay wins over the application, which wins over the default |
| LayoutModel.ResolvePageHeader | frontend/src/app/layoutModel.js:61-124 | outside the sections with a heading of their own, the default header shows exactly when neither an essay nor an application is selected |
| LayoutModel.HeaderNamesSchools | frontend/src/app/layoutModel.js:70-106 | the compose heading names the selected school, the docs subtitle the checklist's school |
| AppEffects.ExpandNavGroups | frontend/src/app/hooks/useAppEffects.js:121-129 | no open group closes, changed groups are open, the group of the active section is open, every other group keeps its presence and value, and an item in no section leaves the map as it was |
| AppEffects.ExpandNavGroupsIdempotent | frontend/src/app/hooks/useAppEffects.js:121-129 | expanding twice is expanding once |
| AppEffects.VisitingItemOpensItsGroup | frontend/src/app/hooks/useAppEffects.js:121-129 | visiting any item of a base sidebar group opens that group |
| AppEffects.RepairSelectedApplication | frontend/src/app/hooks/useAppEffects.js:158-162 | the selection changes exactly when it names an application no longer listed, and then it is cleared |
| AppEffects.RepairDocsApplication | frontend/src/app/hooks/useAppEffects.js:164-172 | no applications clear the checklist choice; a missing or stale one becomes the first application; a listed one is kept |
| AppEffects.RepairsAreStable | frontend/src/app/hooks/useAppEffects.js:158-172 | repaired selections point at listed applications, and repairing again changes nothing |
| AppEffects.Propagated | frontend/src/app/hooks/useAppEffects.js:236-244 | existing scopes are kept, every application gets a scope, and each new one is a copy of the global checklist |
| AppEffects.PropagateGlobalDocs | frontend/src/app/hooks/useAppEffects.js:231-249 | no update without a global checklist or applications; otherwise an update exactly when some scope was missing, and it is the propagated map |
| AppEffects.PropagationIsIdempotent | frontend/src/app/hooks/useAppEffects.js:231-249 | after propagation no scope is missing, so a second run issues no update, and the global checklist is unchanged |
| AppEffects.EssayDraftWrite | frontend/src/app/hooks/useAppEffects.js:91-100 | the essay draft is stored exactly when it has content, otherwise removed |
| AppEffects.ApplicationDraftWrite | frontend/src/app/hooks/useAppEffects.js:102-111 | the application draft is stored exactly when it has content, otherwise removed |
| AppEffects.ResetFormsRemoveDrafts | frontend/src/app/hooks/useAppEffects.js:91-111 | resetting a form to its defaults removes the stored draft |
| AdminView.UnderscoresToSpaces | frontend/src/components/views/workspace/AdminView.js:72 | every underscore becomes a space and every other character is kept |
| AdminView.CapitalizeWords | frontend/src/components/views/workspace/AdminView.js:73 | capitalising keeps the length |
| AdminView.FormatEventLabel | frontend/src/components/views/workspace/AdminView.js:69-74 | a missing or empty name is `Unknown event`, a known name gets its table label, and any other name keeps its length, with underscores as spaces, each word capitalised and every character that does not start a word unchanged |
| AdminView.CapitalizeKeepsLetters | frontend/src/components/views/workspace/AdminView.js:73 | capitalising changes only the case of letters, and every word starts with something other than a lower-case letter |
| AdminView.CapitalizePositions | frontend/src/components/views/workspace/AdminView.js:73 | the first character of each word is upper-cased and every other character is kept |
| AdminView.CapitalizeWordsIdempotent | frontend/src/components/views/workspace/AdminView.js:69-74 | formatting an already formatted label changes nothing |
| AdminView.EightDigitPatternChars | frontend/src/components/views/workspace/AdminView.js:216 | what the eight-character branch matches holds no dash and no whitespace, under either reading of the pattern |
| AdminView.PadStart2 | frontend/src/components/views/workspace/AdminView.js:222-223 | padding prefixes zeros up to two characters and keeps the value at its end |
| AdminView.NormalizeDateInputWith | frontend/src/components/views/workspace/AdminView.js:213-227 | the result is empty exactly when the input is blank |
| AdminView.NormalizeDateInput | frontend/src/components/views/workspace/AdminView.js:213-227 | the intended normaliser clears exactly the blank inputs |
| AdminView.NormalizeTrimmed | frontend/src/components/views/workspace/AdminView.js:215-226 | a non-empty trimmed value never normalises to the empty string |
| AdminView.AsWrittenRejectsEveryDate | frontend/src/components/views/workspace/AdminView.js:229-239 | as written, the validator accepts no string at all |
| AdminView.AsWrittenKeepsEightDigits | frontend/src/components/views/workspace/AdminView.js:216-218 | as written, `YYYYMMDD` is returned as typed; as intended it becomes `YYYY-MM-DD` |
| AdminView.IsValidDateStringReads | frontend/src/components/views/workspace/AdminView.js:229-239 | the intended validator accepts an ISO-shaped string exactly when its three numbers form a real date |
| AdminView.IsValidDateString | frontend/src/components/views/workspace/AdminView.js:229-239 | the intended validator accepts only `YYYY-MM-DD` shaped text |
| AdminView.IsoFormIsValid | frontend/src/components/views/workspace/AdminView.js:229-239 | every real date with a four-digit year, written `YYYY-MM-DD`, passes the intended validator |
| AdminView.IntendedRejectsOverflowDay | frontend/src/components/views/workspace/AdminView.js:232-238 | the intended validator rejects day 30 of February, which `Date.UTC` would roll over |
| AdminView.EightDigitsBecomeIsoShaped | frontend/src/components/views/workspace/AdminView.js:216-218 | the intended eight-digit branch yields an ISO-shaped string |
| AdminView.ThreePartsFixed | frontend/src/components/views/workspace/AdminView.js:219-225 | a trimmed `Y-M-D` value with a four-character year and padded parts is left as it is |
| AdminView.EightDigitBranchFixed | frontend/src/components/views/workspace/AdminView.js:216-218 | what the eight-character branch yields normalises to itself |
| AdminView.ThreePartBranchFixed | frontend/src/components/views/workspace/AdminView.js:219-225 | what the three-part branch yields normalises to itself |
| AdminView.UnchangedBranchFixed | frontend/src/components/views/workspace/AdminView.js:226 | a trimmed value no branch reformats is returned unchanged |
| AdminView.NormalizeDateInputIdempotent | frontend/src/components/views/workspace/AdminView.js:213-227 | normalising a normalised date changes nothing, so re-normalising on submit after blur is harmless |
| AdminView.NormalizeSourceUrl | frontend/src/components/views/workspace/AdminView.js:241-246 | empty exactly for blank input; the result always has an http(s) prefix, the value's own or `https://` |
| AdminView.NormalizeSourceUrlIdempotent | frontend/src/components/views/workspace/AdminView.js:241-246 | normalising a normalised link changes nothing |
| AdminView.RequiredFieldsFlagged | frontend/src/components/views/workspace/AdminView.js:250-255 | school, program, degree and country are flagged, with `Required field.`, exactly when blank |
| AdminView.FeeFieldsFlagged | frontend/src/components/views/workspace/AdminView.js:257-269 | the currency is flagged exactly when given with a trimmed length other than 3; the fee exactly when given and not a non-negative number, as not a number exactly when it does not parse |
| AdminView.FeeError | frontend/src/components/views/workspace/AdminView.js:261-269 | a fee passes exactly when it is blank or reads as a non-negative number, and is "not a number" exactly when it is given and reads as NaN |
| AdminView.CatalogFormErrors | frontend/src/components/views/workspace/AdminView.js:248-311 | the intended check flags each required field exactly when blank, the currency exactly when not three characters once trimmed, and the fee exactly when given and not a non-negative number |
| AdminView.DateFieldsFlagged | frontend/src/components/views/workspace/AdminView.js:271-297 | a date field is flagged when it does not normalise to a real date; round 2 also when it comes before round 1; the last update also when it is after today |
| AdminView.SourceUrlFlagged | frontend/src/components/views/workspace/AdminView.js:299-308 | the link is flagged exactly when given and not parsed with an http or https protocol |
| AdminView.EmptyDatesRaiseNothing | frontend/src/components/views/workspace/AdminView.js:271-297 | empty date fields raise no date error |
| AdminView.AsWrittenFlagsEveryDate | frontend/src/components/views/workspace/AdminView.js:271-278 | as written, any non-empty first-round deadline is flagged, so the form cannot be saved |
| AdminView.IsoShapedIsNormalized | frontend/src/components/views/workspace/AdminView.js:219-225 | a `YYYY-MM-DD` value is already normalised |
| AdminView.IntendedAcceptsRealDeadline | frontend/src/components/views/workspace/AdminView.js:271-278 | with the intended patterns, a real first-round deadline raises no error of its own |
| AdminView.FilterCatalog | frontend/src/components/views/workspace/AdminView.js:474-482 | every item for a blank search, else the items whose school, program, degree or country contains the query, in catalog order and each as often as in the catalog, and no other |
| AdminView.FilterCatalogNarrows | frontend/src/components/views/workspace/AdminView.js:474-482 | filtering the results again changes nothing |
| AdminView.HasMoreIffHidden | frontend/src/components/views/workspace/AdminView.js:483-485 | the load-more button shows exactly when some row is hidden |
| AdminView.LoadMoreShowsMore | frontend/src/components/views/workspace/AdminView.js:814-900 | one more batch keeps the rows shown and shows more whenever the button was showing |
| AdminView.Pager.constructor | frontend/src/components/views/workspace/AdminView.js:50-52 | a list starts showing one batch |
| AdminView.Pager.Shown | frontend/src/components/views/workspace/AdminView.js:483-485 | the rows shown are a prefix of at most the visible count |
| AdminView.Pager.LoadMore | frontend/src/components/views/workspace/AdminView.js:818 | one click shows one more batch |
| AdminView.Pager.LengthChanged | frontend/src/components/views/workspace/AdminView.js:458-468 | a change of the list's length goes back to one batch |
| AdminView.NextRole | frontend/src/components/views/workspace/AdminView.js:165 | the modal proposes `user` for an admin and `admin` for anyone else, never the current role |
| AdminView.NextRoleInvolution | frontend/src/components/views/workspace/AdminView.js:165 | toggling twice returns a user or an admin to their role |
| AuthPage.ParseMode | frontend/src/components/public/AuthPage.js:8-10 | the sign-up form exactly for `signup`, the login form for anything else |
| AuthPage.NormalizeNext | frontend/src/components/public/AuthPage.js:12-17 | the result is always a same-site path: the requested one when it is, `/app` otherwise |
| AuthPage.NormalizeNextIdempotent | frontend/src/components/public/AuthPage.js:12-17 | a path that passed the guard passes it again unchanged |
| AuthPage.NormalizeNextRejectsOtherHosts | frontend/src/components/public/AuthPage.js:13-15 | protocol-relative and absolute links go to the workspace; a local path is kept |
| AuthPage.Get | frontend/src/components/public/AuthPage.js:24-25 | a parameter reads as absent exactly when no pair carries its name |
| AuthPage.RemoveAll | frontend/src/components/public/AuthPage.js:46 | no remaining pair carries the removed name, and every other name reads back its old value |
| AuthPage.Set | frontend/src/components/public/AuthPage.js:46-49 | after `set` the name reads back the new value from exactly one pair, and other names read back their old values |
| AuthPage.SetMode | frontend/src/components/public/AuthPage.js:43-53 | switching forms sets the mode, keeps a non-empty `next`, fills in `/app` for a missing or empty one and keeps every other parameter |
| AuthPage.SetModeRoundTrip | frontend/src/components/public/AuthPage.js:24-53 | the form a switch asks for is the form the page then shows, and the redirect target is unchanged |
| LandingPage.TrimmedDraftHasWords | frontend/src/components/public/LandingPage.js:30-31 | a draft that is not blank has at least one word |
| LandingPage.AverageIsNatural | frontend/src/components/public/LandingPage.js:33 | the rounded average sentence length of two counts is not negative |
| LandingPage.FeaturesOf | frontend/src/components/public/LandingPage.js:28-36 | a blank draft has no words and average length 0, any other at least one word; the prompt counts exactly when not blank |
| LandingPage.Clamp | frontend/src/components/public/LandingPage.js:45 | the clamped value lies in the bounds and equals the value when it already does |
| LandingPage.Bonus | frontend/src/components/public/LandingPage.js:39-44 | the features earn at most 38 points together |
| LandingPage.DemoScoreBounds | frontend/src/components/public/LandingPage.js:38-45 | every score lies in 62..96, and is 62 plus the bonus while that stays under the cap |
| LandingPage.DemoScoreExtremes | frontend/src/components/public/LandingPage.js:38-45 | a draft with every feature scores 96, one with none 62 |
| LandingPage.DemoScoreMonotone | frontend/src/components/public/LandingPage.js:38-45 | gaining a feature never lowers the score |
| LandingPage.StrengthNotes | frontend/src/components/public/LandingPage.js:47-84 | among the three strengths shown, length, voice and numbers appear exactly when the draft has them, and later ones only under their condition |
| LandingPage.ImprovementNotes | frontend/src/components/public/LandingPage.js:47-84 | among the four improvements shown, length, voice and numbers appear exactly when missing, program fit exactly when unnamed with a prompt given |
| LandingPage.TakeKeepsShortPrefix | frontend/src/components/public/LandingPage.js:83-84 | the cut keeps a short enough prefix whole and adds nothing |
| LandingPage.ReviewOf | frontend/src/components/public/LandingPage.js:38-85 | the accumulated score and pushed notes are the specified score and the notes cut to three and four |
| LandingPage.ScoreOf | frontend/src/components/public/LandingPage.js:38-45 | the score accumulated check by check and clamped is the specified demo score |
| LandingPage.NotesOf | frontend/src/components/public/LandingPage.js:47-78 | the notes pushed check by check are exactly the specified strengths and improvements, in push order |
| LandingPage.FeatureNotes | frontend/src/components/public/LandingPage.js:50-66 | the length, voice and numbers checks push exactly the strengths of the features present and the improvements of those missing, in order |
| LandingPage.BuildDemoReview | frontend/src/components/public/LandingPage.js:28-86 | the review of the trimmed texts, scored in 62..96, with at most three strengths and four improvements |
| LandingPage.RunDemo | frontend/src/components/public/LandingPage.js:121-131 | a blank draft clears the review and sets the error; any other clears the error and shows the review of the draft and prompt as typed: its score, word count, first three strengths and first four improvements, with at least one word and a score in 62..96 |
| RateLimit.DropExpired | backend/services/rate_limit.py:19-20 | the longest prefix of times at or before the window start is dropped; the first time kept is inside the window |
| RateLimit.RetryAfter | backend/services/rate_limit.py:22 | the wait is at least one second and is the whole seconds until the oldest request leaves the window |
| RateLimit.Allow | backend/services/rate_limit.py:14-25 | only an allowed call records `now`, as the newest time, and grows the queue by at most one; a denied call never grows it and waits at least a second |
| RateLimit.AllowDecides | backend/services/rate_limit.py:14-25 | a call is allowed exactly when fewer than `limit` requests remain in the window; only an allowed call is recorded; a denied one waits at least a second |
| RateLimit.AllowKeepsWindow | backend/services/rate_limit.py:14-25 | with a clock that never runs backwards the queue stays sorted, inside the window and not in the future |
| RateLimit.SuffixKeepsOrder | backend/services/rate_limit.py:19-20 | what remains after popping is still sorted and not in the future |
| RateLimit.AllowKeepsBound | backend/services/rate_limit.py:21-24 | with one limit on every call, a queue never grows past it |
| RateLimit.DeniedAddsNothing | backend/services/rate_limit.py:21-23 | a denied call only loses expired times, and its wait is at most the window |
| RateLimit.Run | backend/services/rate_limit.py:14-25 | successive calls give one decision each |
| RateLimit.RunWithinOneWindow | backend/services/rate_limit.py:14-25 | calls inside one window are allowed while there is room and denied once the queue is full |
| RateLimit.NothingExpiresWithinOneWindow | backend/services/rate_limit.py:19-20 | inside one window no earlier call expires |
| RateLimit.EleventhSignupDenied | backend/services/rate_limit.py:14-25 | with 10 calls per 600 seconds, of eleven calls within ten minutes the first ten pass and the eleventh is denied |
| RateLimit.RateLimiter.constructor | backend/services/rate_limit.py:10-12 | a fresh limiter knows no key |
| RateLimit.RateLimiter.AllowCall | backend/services/rate_limit.py:14-25 | the call's decision is the specified one, only its own key's queue changes, and the key is recorded even when denied |
| RateLimit.PopExpired | backend/services/rate_limit.py:19-20 | the loop pops exactly the expired prefix: what it leaves is the specified trimmed queue |
| RateLimit.UserKeys | backend/services/rate_limit.py:31-44 | a user id outranks e-mail and host, and distinct users never share a bucket |
| RateLimit.BuildKey | backend/services/rate_limit.py:31-44 | every key starts with its action and a colon, so different actions never share a bucket |
| RateLimit.EmailKeys | backend/services/rate_limit.py:31-44 | without a user id, e-mails equal up to case and surrounding space share a bucket whatever the host; with no e-mail the bucket is the host's |
| RateLimit.Enforce | backend/services/rate_limit.py:47-56 | an allowed call passes; a denied one is rejected with 429 and a `Retry-After` of positive whole seconds (section 10.2.3 of RFC 9110) |
| Reminders.PieceDay | backend/services/reminders.py:16-23 | an integer piece counts, negatives as 0; a blank or non-integer piece counts for nothing |
| Reminders.ReminderDays | backend/services/reminders.py:12-24 | the reminder days are never empty and never negative |
| Reminders.ParseReminderDays | backend/services/reminders.py:12-24 | the loop over the pieces yields exactly the specified set |
| Reminders.ParsedDaysMembers | backend/services/reminders.py:16-23 | a day is parsed exactly when some piece names it, and every parsed day is 0 or more |
| Reminders.DaysUntil | backend/services/reminders.py:27-31 | no count without a deadline; otherwise the whole days from today, negative exactly when the deadline has passed |
| Reminders.GetReminderMatches | backend/services/reminders.py:34-60 | the loop yields exactly the specified matches, in query order |
| Reminders.MatchesSound | backend/services/reminders.py:44-59 | every item is due on a reminder day or past, with the matching reason, and every such application is reported |
| Reminders.MatchesKeepOrder | backend/services/reminders.py:44-60 | reporting keeps the query order |
| Reminders.SendEmailNotification | backend/services/reminders.py:63-89 | without host, user and password it is a dry run; it sends exactly when configured and the exchange succeeds, and it is always either sent or a dry run |
| ProgramCatalog.SkipRun | backend/services/program_catalog.py:27 | drops the leading run of characters a slug does not keep |
| ProgramCatalog.Dashify | backend/services/program_catalog.py:27 | every maximal run of other characters becomes a single dash |
| ProgramCatalog.StripLeadingDashes | backend/services/program_catalog.py:27 | the result is a suffix that does not start with a dash |
| ProgramCatalog.StripTrailingDashes | backend/services/program_catalog.py:27 | the result is a prefix that does not end with a dash |
| ProgramCatalog.BuildProgramId | backend/services/program_catalog.py:25-28 | the identifier is always a slug: lower-case letters and digits separated by single dashes, `program` when nothing is left |
| ProgramCatalog.DashSeparatedSlice | backend/services/program_catalog.py:27 | a slice of a dash-separated text is dash-separated |
| ProgramCatalog.SlugShape | backend/services/program_catalog.py:27-28 | stripping the dashes around a substituted text leaves a slug or nothing |
| ProgramCatalog.DashifyOfDashSeparated | backend/services/program_catalog.py:27 | a text already made of slug characters and single dashes is left alone |
| ProgramCatalog.SlugIsNormalized | backend/services/program_catalog.py:26 | a slug is already lower-case and free of surrounding whitespace |
| ProgramCatalog.BuildProgramIdStable | backend/services/program_catalog.py:25-28 | deriving an identifier from an identifier returns it unchanged |
| Reviews.MockScore | backend/services/reviews.py:8-61 | the mock score is 4.5, 6.5 or 8.0, by band of word count |
| Reviews.MockScoreMonotone | backend/services/reviews.py:10-61 | a longer essay never scores lower |
| Reviews.GenerateMockReview | backend/services/reviews.py:6-88 | the review comes with one of the three band scores |
| Reviews.RunOf | backend/services/reviews.py:93 | the longest prefix whose characters all satisfy the test |
| Reviews.RunIs | backend/services/reviews.py:93 | a run is determined by where it stops |
| Reviews.SkipSpaces | backend/services/reviews.py:93 | the position past the whitespace run that starts there |
| Reviews.SkipSpacesIs | backend/services/reviews.py:93 | skipping whitespace stops at the first other character |
| Reviews.NumberEnd | backend/services/reviews.py:93 | the number is a run of digits, extended by a point and digits only when both follow |
| Reviews.NumberEndIs | backend/services/reviews.py:93 | the number ends where a match of the pattern says it does |
| Reviews.SlashTenIs | backend/services/reviews.py:93 | the `/10` tail of the pattern is found where a match puts it |
| Reviews.ScoreAtIsPattern | backend/services/reviews.py:93-95 | the reader finds a score exactly when the pattern matches there, and every way it can match reads the same number |
| Reviews.MatchDetermined | backend/services/reviews.py:93-95 | any match of the pattern fixes the number read |
| Reviews.ExtractScoreLeftmost | backend/services/reviews.py:91-96 | the score is read at the leftmost position where the pattern matches, and is 0.0 when it matches nowhere |
| Reviews.ExtractScore | backend/services/reviews.py:91-96 | the extracted score is never negative; with `ExtractScoreLeftmost`, it is the value read at the first position where the score pattern (ASCII digits) matches, or 0.0 |
| Reviews.SkipNoDigits | backend/services/reviews.py:93 | a prefix without digits cannot hold a match |
| Reviews.LeadHasNoDigits | backend/services/reviews.py:12-62 | the opening of every mock review, up to its score, holds no digit |
| Reviews.ScoreTextReadsBack | backend/services/reviews.py:14-64 | the score as written in the review reads back as the score |
| Reviews.DigitDotDigitReadsBack | backend/services/reviews.py:93-95 | `d.d/10` reads as the digit plus a tenth of the digit after the point |
| Reviews.MockReviewRoundTrip | backend/services/reviews.py:6-96 | extracting the score from a mock review gives the score it was generated with |
| Reviews.TopPointsShape | backend/services/reviews.py:108-111 | the outline uses three to five points: the first five cleaned points, followed by all three defaults when fewer than three remain |
| Reviews.TopPoints | backend/services/reviews.py:108-111 | the outline always has three to five points |
| Reviews.SectionBudget | backend/services/reviews.py:112 | the section budget is at least 70, and a fifth of the target from 350 words up |
| Reviews.IntroBudget | backend/services/reviews.py:113 | the introduction budget is at least 80 and falls short of 18% of the target by less than one word |
| Reviews.ConclusionBudget | backend/services/reviews.py:114 | the conclusion budget is at least 80 and falls short of 15% of the target by less than one word |
| Reviews.GenerateMockOutline | backend/services/reviews.py:99-149 | the outline comes with three next steps |
| Reviews.SectionHeadings | backend/services/reviews.py:121-144 | each section holds one heading |
| Reviews.OutlineHeadings | backend/services/reviews.py:116-141 | the outline has exactly five section headings, none in its preamble |
| AuthFlows.RetireLive | backend/services/auth_flows.py:17-23 | the unused tokens of the user and purpose become used, and nothing else about any row changes |
| AuthFlows.Issue | backend/services/auth_flows.py:16-35 | afterwards exactly one live token exists for the pair, the new one expiring after the time to live; other rows are untouched and hashes stay unique |
| AuthFlows.IssueOneTimeToken | backend/services/auth_flows.py:16-35 | the token table becomes the issued one, the other tables are unchanged, and the raw token is returned |
| AuthFlows.MarkUsed | backend/services/auth_flows.py:49-56 | one row is marked used and every other row is kept |
| AuthFlows.Consume | backend/services/auth_flows.py:38-57 | without a redeemable row nothing changes and no user is returned; otherwise that row is marked used, and its user is returned only before expiry |
| AuthFlows.ConsumeOneTimeToken | backend/services/auth_flows.py:38-57 | the session's used flag and the returned user are those the specification gives |
| AuthFlows.ConsumeFound | backend/services/auth_flows.py:38-57 | with unique hashes, a redeemable row is marked used, and its user returns exactly when the token has not expired |
| AuthFlows.NoCrossPurpose | backend/services/auth_flows.py:40-48 | a token of another purpose, or one already used, is refused and changes nothing |
| AuthFlows.ConsumeOnlyOnce | backend/services/auth_flows.py:38-57 | a consumed token is refused the second time and changes nothing |
| AuthFlows.IssueRetiresEarlier | backend/services/auth_flows.py:16-35 | a new token makes every earlier token of the same user and purpose unconsumable |
| AuthFlows.IssueThenConsume | backend/services/auth_flows.py:16-57 | a token just issued, consumed before it expires, returns its user |
| AuthDb.UserById | backend/auth.py:96 | the user found has that id and is stored; none is found exactly when no row has the id |
| AuthDb.WithUser | backend/routers/auth_routes.py:80-83 | the row with the user's id becomes the user; every other row and every id stays |
| AuthDb.WithUserKeepsKeys | backend/routers/auth_routes.py:80-83 | writing back a row that keeps its e-mail address keeps ids and addresses unique |
| AuthDb.Database.constructor | backend/models.py:7-115 | a session over unique users starts with empty token tables |
| AuthRoutes.Promoted | backend/auth.py:106-109 | only the role can change; the promoted user is an admin by role exactly when it is an admin or already had the role, and a non-admin is unchanged |
| AuthRoutes.IsAdminUser | backend/auth.py:106-109 | with no configured admin e-mails, a user is an admin exactly when the stripped, lower-cased role is `admin` |
| AuthRoutes.PromotedKeepsAdmin | backend/routers/auth_routes.py:80-83 | promotion keeps admin status and applying it twice equals applying it once |
| AuthRoutes.AdminRoleIsAdmin | backend/auth.py:106-108 | a user stored with the role "admin" is an admin |
| AuthRoutes.IssueAuthTokens | backend/routers/auth_routes.py:79-103 | the promoted user is written back, one refresh row is appended, the one-time tokens are unchanged, and the response carries the promoted user |
| AuthRoutes.KeepsEmail | backend/routers/auth_routes.py:80-83 | writing back a changed copy of a stored user with its address keeps the keys unique |
| AuthRoutes.StoredUser | backend/routers/auth_routes.py:200 | a user looked up by id is a stored row |
| AuthRoutes.SignupRole | backend/routers/auth_routes.py:126 | signup stores the role "admin" exactly for a trimmed, lower-cased address on the admin list, and "user" otherwise |
| AuthRoutes.NewUserNotPromoted | backend/routers/auth_routes.py:126-132 | a newly created user needs no promotion, and its role says whether it is an admin |
| AuthRoutes.Signup | backend/routers/auth_routes.py:107-132 | a taken address is refused with 400 and changes nothing; otherwise the user is appended, a day-long verification token is issued and the tokens of the new user are returned |
| AuthRoutes.FirstUnrevoked | backend/routers/auth_routes.py:186-192 | the row chosen is the first unrevoked one with the hash, and there is none exactly when no such row exists |
| AuthRoutes.CheckRefresh | backend/routers/auth_routes.py:186-205 | the refresh checks in order: an unknown or revoked token is invalid, an expired one is refused, then a missing user, and otherwise the token is accepted for its stored user |
| AuthRoutes.Revoke | backend/routers/auth_routes.py:196 | the chosen row becomes revoked, nothing else about it changes, and every other row is kept |
| AuthRoutes.Refresh | backend/routers/auth_routes.py:179-208 | every refusal is 401; an invalid token changes nothing; an expired token or a missing user revokes the row; an accepted token is revoked and a new pair is issued for its user |
| AuthRoutes.RevokeKeepsHashes | backend/routers/auth_routes.py:196-206 | revoking keeps the hashes, so their uniqueness and freshness |
| AuthRoutes.RefreshNotReusable | backend/routers/auth_routes.py:186-208 | once the chosen row is revoked, the same refresh token is refused as invalid from then on |
| AuthRoutes.RotationRetiresPresented | backend/routers/auth_routes.py:206-208 | after a successful refresh the presented token is refused |
| AuthRoutes.IssuedTokenAccepted | backend/routers/auth_routes.py:88-96 | a newly issued refresh token is accepted for its user until it expires |
| AuthRoutes.RevokeAll | backend/routers/auth_routes.py:225-231 | every row of the user ends revoked, other rows keep their flag, and no other column changes |
| AuthRoutes.RevokeAllEndsSessions | backend/routers/auth_routes.py:225-233 | after revoking all sessions, every refresh token of the user is refused and other users' rows are untouched |
| AuthRoutes.FirstOwnLive | backend/routers/auth_routes.py:236-243 | the row chosen is a live row of this user with the hash, and there is none exactly when no such row exists |
| AuthRoutes.RevokeCurrent | backend/routers/auth_routes.py:235-247 | without a non-empty token nothing changes; otherwise at most one live row of this user with its hash is revoked, and no other user's row changes |
| AuthRoutes.LogoutEndsPresented | backend/routers/auth_routes.py:235-247 | logging out the current session ends exactly the presented session of this user |
| AuthRoutes.Logout | backend/routers/auth_routes.py:212-247 | with all sessions, every row of the user is revoked and the response says "all"; otherwise the current session is revoked and it says "current"; users and one-time tokens are unchanged |
| AuthRoutes.RevokeAllKeepsHashes | backend/routers/auth_routes.py:229-231 | the bulk revocation keeps every hash, so their uniqueness |
| AuthRoutes.ResetPassword | backend/routers/auth_routes.py:318-337 | the token is consumed for the reset purpose; without a user the reset is refused with 400; otherwise the new hash is stored and every refresh token of the user is revoked |
| Migrations.LastWins | backend/services/migrations.py:152-158 | a dictionary built from entries has exactly the entries' keys |
| Migrations.LastEntryWins | backend/services/migrations.py:152-158 | a key maps to the value of its last entry |
| Migrations.LastWinsValues | backend/services/migrations.py:152-158 | every value in the dictionary comes from an entry with that key |
| Migrations.Entries | backend/services/migrations.py:152-157 | one (key, id) pair per application, in query order |
| Migrations.LookupLastWins | backend/services/migrations.py:152-158 | on duplicate keys the later application's id wins |
| Migrations.EssayKeys | backend/services/migrations.py:169-172 | one key per essay |
| Migrations.EssayKeysAt | backend/services/migrations.py:169-172 | the key at a position is that essay's stripped, lower-cased school and program |
| Migrations.LinkAll | backend/services/migrations.py:168-176 | each essay after the loop is the essay linked by its own key, and no row is added or lost |
| Migrations.LinkAllKeepsIds | backend/services/migrations.py:168-176 | linking keeps every row's id, so their uniqueness |
| Migrations.Backfilled | backend/services/migrations.py:144-179 | the backfill keeps the number of essays |
| Migrations.BackfilledShape | backend/services/migrations.py:146-176 | nothing changes without applications; a backfill only sets the application of an unlinked essay of the user, to some id, and keeps every other column and row |
| Migrations.BackfilledLinksMatches | backend/services/migrations.py:168-176 | an unlinked essay of the user whose key has a truthy match gets that id, which belongs to one of the user's applications with the same key; one without a match is unchanged |
| Migrations.MatchesAnApplication | backend/services/migrations.py:146-158 | every id the lookup gives is the id of an application of the user with that key |
| Migrations.SameKeys | backend/services/migrations.py:169-172 | essays that agree on school and program have the same keys |
| Migrations.BackfillIdempotent | backend/services/migrations.py:144-179 | a second backfill changes nothing |
| Migrations.LinkEssays | backend/services/migrations.py:167-176 | the loop gives the linked essays, and reports a change exactly when some essay changed |
| Migrations.BackfillEssayApplicationLinks | backend/services/migrations.py:144-179 | the applications are unchanged, the essays become the backfilled ones, and the commit happens exactly when some essay changed |
| Schemas.ValidateName | backend/schemas.py:12-18 | a name is accepted exactly when at least two characters remain after stripping, and is stored stripped; otherwise the validator's message |
| Schemas.ValidateNameIdempotent | backend/schemas.py:12-18 | validating an accepted name again gives the same name |
| Schemas.StripOptional | backend/schemas.py:101-107 | a missing or blank value becomes missing, anything else is stored stripped and non-empty |
| Schemas.StripOptionalIdempotent | backend/schemas.py:101-107 | stripping twice equals stripping once |
| Schemas.ThreeLetterCode | backend/schemas.py:442-448 | a code is accepted exactly when three characters remain after stripping, and is stored upper-cased; otherwise the field's message |
| Schemas.ThreeLetterCodeIdempotent | backend/schemas.py:442-448 | validating an accepted code again gives the same code |
| Schemas.LowerCaseCodeAccepted | backend/schemas.py:442-448 | "usd" is accepted as "USD" |
| Schemas.DigitsPassAsCode | backend/schemas.py:442-448 | "123" is accepted: the check is on length only, not on letters |
| Schemas.OptionalThreeLetterCode | backend/schemas.py:109-117 | a missing code passes; a present one is accepted exactly when the required-code check accepts it, with the same value |
| Schemas.CatalogCurrency | backend/schemas.py:243-246 | the catalog currency is stripped and upper-cased, with no length check |
| Schemas.FeedbackField | backend/schemas.py:148-156 | a missing value passes, a blank one is refused with "Field cannot be empty", anything else is stored stripped |
| Schemas.RequiredText | backend/schemas.py:336-342 | a required text field is refused exactly when blank, and is stored stripped |
| Schemas.EventName | backend/schemas.py:174-180 | an event name is accepted exactly when at least two characters remain after stripping, and is stored lower-cased |
| Schemas.EventNameIdempotent | backend/schemas.py:174-180 | normalising an accepted event name again gives the same name |
| Schemas.SkeletonPoints | backend/schemas.py:390-396 | the points are accepted exactly when at least three are non-blank, and the stripped non-blank points are kept in order |
| Schemas.SkeletonPointsMembers | backend/schemas.py:390-396 | an accepted list holds at least three points, and exactly the stripped non-blank submitted points |
| Schemas.CreateIntegrity | backend/schemas.py:450-458 | a new application passes exactly when its deadline is not past, its submitted letters do not exceed those required and a completed interview was required; each failure gives its own message, in that order |
| Schemas.ValidateApplicationCreate | backend/schemas.py:417-458 | a bad currency is refused first; otherwise the payload passes exactly when the integrity checks pass, and is stored with its texts stripped and its currency normalised |
| Schemas.UpdateIntegrity | backend/schemas.py:496-504 | an update passes exactly when a sent deadline is not past, sent letter counts are consistent, and it does not send a completed interview with one not required; the refusals are checked in that order, each with its own message |
| Schemas.UpdateChecksOnlyPairs | backend/schemas.py:496-504 | an update without a deadline, without a required-interview flag and without both letter counts always passes |
| Schemas.StripSent | backend/schemas.py:478-484 | a field not sent stays not sent; a sent one is stripped |
| Schemas.ValidateApplicationUpdate | backend/schemas.py:461-504 | a bad currency is refused first; otherwise the update is accepted exactly when the integrity rules pass, and refused with their message when they do not; an accepted update has its sent texts stripped and its currency normalised |
| Schemas.ValidateEssayCreate | backend/schemas.py:328-342 | an essay is accepted exactly when none of its four texts is blank, and is stored with each stripped |
| ApplicationRoutes.OwnedIndex | backend/routers/application_routes.py:65-72 | the row found has the id and belongs to the caller; none is found exactly when no such row exists |
| ApplicationRoutes.GetApplication | backend/routers/application_routes.py:60-74 | the row returned is stored, has the id and belongs to the caller; 404 exactly when the caller owns no such row |
| ApplicationRoutes.OtherUsersRowIsNotFound | backend/routers/application_routes.py:60-74 | with unique ids, another user's application is not found |
| ApplicationRoutes.NewRow | backend/routers/application_routes.py:16-42 | the new row has the new id and belongs to the caller |
| ApplicationRoutes.CreateApplication | backend/routers/application_routes.py:16-42 | the new row is appended and returned, and essays are unchanged |
| ApplicationRoutes.CreateThenGet | backend/routers/application_routes.py:16-74 | a newly created application can be read back as created |
| ApplicationRoutes.UpdateOutcome | backend/routers/application_routes.py:95-111 | an update is refused exactly when the merged letter counts have more submitted than required, or it sends interview_required false while a completed interview is sent or stored; each refusal gives its own message; an accepted update keeps the row's id, owner and letter invariant |
| ApplicationRoutes.UpdateWritesOnlySentFields | backend/routers/application_routes.py:107-111 | an accepted update writes every sent field and keeps every field not sent |
| ApplicationRoutes.CompletedWithoutRequiredAccepted | backend/routers/application_routes.py:95-111 | marking the interview completed on a row that does not require one, with nothing else sent, passes both the body's validator and the route's guards |
| ApplicationRoutes.UpdateApplication | backend/routers/application_routes.py:78-115 | 404 and no change unless the caller owns the row; otherwise the guarded merge is returned and stored in place of that row only when accepted; essays are unchanged |
| ApplicationRoutes.UpdateKeepsLorInvariant | backend/routers/application_routes.py:78-115 | after an accepted update the row reads back with submitted letters not above those required |
| ApplicationRoutes.Without | backend/routers/application_routes.py:134 | one row is removed and the order of the rest is kept |
| ApplicationRoutes.DeleteApplication | backend/routers/application_routes.py:119-136 | 404 and no change unless the caller owns the row; otherwise that row is removed and the message returned; essays are unchanged |
| ApplicationRoutes.DeleteThenGet | backend/routers/application_routes.py:119-136 | a deleted application is no longer found, and every other row is kept |
| ApplicationRoutes.SchoolNotAfterTotal | backend/routers/application_routes.py:53 | any two school names are ordered one way or the other |
| ApplicationRoutes.SchoolNotAfterTransitive | backend/routers/application_routes.py:53 | the school ordering is transitive |
| ApplicationRoutes.ListedBeforeTotal | backend/routers/application_routes.py:53 | any two applications are ordered one way or the other by deadline, then school |
| ApplicationRoutes.ListedBeforeTransitive | backend/routers/application_routes.py:53 | the list ordering is transitive |
| ApplicationRoutes.InsertListed | backend/routers/application_routes.py:53 | inserting adds exactly the one row |
| ApplicationRoutes.SortListed | backend/routers/application_routes.py:53 | sorting is a permutation |
| ApplicationRoutes.PrependInOrder | backend/routers/application_routes.py:53 | a row ordered before every row of an ordered list keeps it ordered when put first |
| ApplicationRoutes.InsertListedInOrder | backend/routers/application_routes.py:53 | inserting into an ordered list keeps it ordered |
| ApplicationRoutes.SortListedInOrder | backend/routers/application_routes.py:53 | the sorted list is ordered |
| ApplicationRoutes.ListApplications | backend/routers/application_routes.py:46-56 | the list is a permutation of the caller's rows, holds exactly the caller's rows, and is ordered by deadline and then by school with unnamed schools first |
| EssayRoutes.OwnedEssayIndex | backend/routers/essay_routes.py:108-111 | the essay found has the id and belongs to the caller; none exactly when no such essay exists |
| EssayRoutes.GetEssay | backend/routers/essay_routes.py:105-113 | the essay returned is stored, has the id and belongs to the caller; 404 exactly when the caller owns no such essay |
| EssayRoutes.ClearLatest | backend/routers/essay_routes.py:56-57 | the parent and its children lose the latest flag and every other essay is kept |
| EssayRoutes.Create | backend/routers/essay_routes.py:31-81 | a created essay has the new id, belongs to the caller, is latest, and is appended to the table |
| EssayRoutes.CreateEssay | backend/routers/essay_routes.py:31-81 | a refusal changes nothing; a success stores the table of the specification and returns the new essay; applications are unchanged |
| EssayRoutes.CreateRow | backend/routers/essay_routes.py:45-81 | once the link check passes, a created essay has the new id, belongs to the caller, is latest and is appended, and every earlier row keeps its id |
| EssayRoutes.InsertEssay | backend/routers/essay_routes.py:45-81 | the parent lookup, the two bulk is_latest updates, the version count and the insert compute exactly the result of CreateRow |
| EssayRoutes.RootEssay | backend/routers/essay_routes.py:62-76 | an essay without a parent starts a chain: version 1, no parent, the given application, simply appended |
| EssayRoutes.CreateChecksOwnership | backend/routers/essay_routes.py:38-51 | a linked application the caller does not own gives "Linked application not found", a parent the caller does not own gives "Parent essay not found", and every refusal is 404 |
| EssayRoutes.NewVersion | backend/routers/essay_routes.py:45-76 | a new version points at its parent, inherits the parent's application when none is given, is numbered two past the parent's children, is the only latest essay of the chain, and leaves essays outside the chain untouched |
| EssayRoutes.ChildCountKept | backend/routers/essay_routes.py:56-59 | clearing latest flags keeps the number of children counted for the version |
| EssayRoutes.Page | backend/routers/essay_routes.py:101 | offset and limit give the rows from the offset on, at most the limit of them, in order |
| EssayRoutes.GetEssays | backend/routers/essay_routes.py:85-101 | the backfill runs first, applications are unchanged, and the page is taken from the caller's rows that pass the filters |
| EssayRoutes.ListedEssays | backend/routers/essay_routes.py:94-101 | every listed essay is stored, belongs to the caller, is latest when only latest ones are asked for, and has the asked application when one is given |
| EssayRoutes.FirstPageComplete | backend/routers/essay_routes.py:94-101 | when all matches fit in the limit, the first page holds exactly the matching essays |
| EssayRoutes.GetEssayVersions | backend/routers/essay_routes.py:116-136 | 404 exactly when the caller owns no such essay; otherwise the versions are a permutation of the caller's essays of the chain, counted, with the essay's own version as current |
| EssayRoutes.VersionsSpec | backend/routers/essay_routes.py:126-129 | the versions are exactly the caller's essays of the chain, include the requested essay, and are ordered by version |
| EssayRoutes.ChildAndRootShareVersions | backend/routers/essay_routes.py:126-129 | a version and its root essay list the same versions |
| AdminRoutes.RoleChange | backend/routers/admin_routes.py:279-305 | an unknown role is 400, a missing user 404, demoting oneself is refused, and demoting an admin while at most one admin is counted is refused with the at-least-one-admin error; every other request succeeds, setting only the role of the stored user |
| AdminRoutes.UpdateUserRole | backend/routers/admin_routes.py:273-308 | the role is stripped and lower-cased, then decided by `RoleChange`: a refusal changes nothing and returns its error, an accepted change writes the user back with the new role and returns its id, e-mail and role; token tables are unchanged |
| AdminRoutes.TwoAdmins | backend/routers/admin_routes.py:297-299 | a count of at least two admins means two distinct admin rows |
| AdminRoutes.OneAdmin | backend/routers/admin_routes.py:297-299 | a positive admin count means some admin row |
| AdminRoutes.AdminCounted | backend/routers/admin_routes.py:297-299 | an admin row makes the count positive |
| AdminRoutes.RoleChangeKeepsAnAdmin | backend/routers/admin_routes.py:273-308 | a role change never removes the last admin |
| AdminRoutes.CoverageItems | backend/routers/admin_routes.py:259-262 | one item per required event, in order, with its seven-day count, covered exactly when the count is positive |
| AdminRoutes.MissingEvents | backend/routers/admin_routes.py:263 | no more missing events than items |
| AdminRoutes.EventCoverage | backend/routers/admin_routes.py:242-268 | the required count is the list's length, and the tracked count is the required count less the missing events, between zero and the required count |
| AdminRoutes.MissingAreUncovered | backend/routers/admin_routes.py:263-266 | the missing events are exactly the uncovered items, and the tracked count is the number of covered items |
| AdminRoutes.CoverageSpec | backend/routers/admin_routes.py:242-268 | an event is missing exactly when it is required and has no count in seven days, and the tracked count is the covered count |
| AdminRoutes.RoundHundredths | backend/routers/admin_routes.py:93 | rounding to hundredths moves a value by at most half a hundredth |
| AdminRoutes.ActivationRate | backend/routers/admin_routes.py:93 | the rate is 0.0 without new users, and otherwise the rounded percentage of activated new users |
| AdminRoutes.ActivationRateBounds | backend/routers/admin_routes.py:93 | with no more activated users than new users, the rate is a percentage from 0 to 100 |
| AdminRoutes.ItemOf | backend/routers/admin_routes.py:321-336 | the item stored carries the program id |
| AdminRoutes.NewProgramId | backend/routers/admin_routes.py:317-318 | a non-blank requested id is used stripped and lower-cased; otherwise the id is a slug of the names |
| AdminRoutes.CreateCatalogItem | backend/routers/admin_routes.py:312-339 | an existing id is refused with 409; otherwise the item is appended |
| AdminRoutes.UpdateCatalogItem | backend/routers/admin_routes.py:343-370 | an unknown id is 404; otherwise the first item with the id is replaced and the list keeps its length |
| AdminRoutes.DeleteCatalogItem | backend/routers/admin_routes.py:374-383 | a refusal is 404; a success keeps exactly the items with other ids |
| AdminRoutes.DeleteCatalogItemSpec | backend/routers/admin_routes.py:374-383 | a delete is refused exactly when no item has the id; afterwards no item has it and every other item remains |
| AdminRoutes.FilterDropsOne | backend/routers/admin_routes.py:380 | dropping an item shortens the list, which is how the route tells there was one |
| AdminRoutes.CatalogFile.constructor | backend/routers/admin_routes.py:316 | the catalog file starts with the loaded items |
| AdminRoutes.CatalogFile.Create | backend/routers/admin_routes.py:312-339 | the file holds the created catalog on success and is unchanged on refusal |
| AdminRoutes.CatalogFile.Update | backend/routers/admin_routes.py:343-370 | the file holds the updated catalog on success and is unchanged on refusal |
| AdminRoutes.CatalogFile.Delete | backend/routers/admin_routes.py:374-383 | the file holds the remaining items on success and is unchanged on refusal |
| AdminRoutes.CreateUpdateDeleteThenGet | backend/routers/admin_routes.py:312-383 | creating, updating and then deleting an item all succeed, after which the item can no longer be looked up |
| SystemRoutes.ListProgramCatalog | backend/routers/system_routes.py:40-56 | a query shorter than two or longer than 120 characters, or a limit outside 1 to 200, is refused with 422 |
| SystemRoutes.SearchPage | backend/routers/system_routes.py:40-56 | the total counts every match, the page holds the first matches up to the limit, in catalog order; without a query every item matches, and with one an item matches exactly when the stripped, lower-cased query occurs in its school, program, degree or country |
| SystemRoutes.GetProgramCatalogItem | backend/routers/system_routes.py:59-65 | the item returned is the first one with the id; 404 exactly when no item has it |
| Config.CorsOriginsList | backend/config.py:37-39 | every origin is non-empty and contains no comma |
| Config.TrimIsSlice | backend/config.py:39 | stripping only removes characters |
| Config.CorsOriginsMembers | backend/config.py:37-39 | the origins are exactly the stripped non-blank pieces between commas |
| Config.CleanedPointsOfClean | backend/config.py:39 | a list of non-empty stripped pieces cleans to itself |
| Config.CorsOriginsRoundTrip | backend/config.py:37-39 | joining clean origins with commas and splitting them again gives the same origins |
| Config.AdminEmailList | backend/config.py:52-54 | the admin list is the origins-style split of the setting, each address lower-cased |
| Config.AdminEmailsNormalized | backend/config.py:52-54 | every admin address is non-empty, stripped and lower-case |
| Config.AppEnvNormalized | backend/config.py:56-58 | a non-empty setting is stripped and lower-cased |
| Config.EnvClassesDisjoint | backend/config.py:60-66 | no environment is both production-like and development |
| Config.EmptyAppEnvIsDevelopment | backend/config.py:56-58 | an empty setting falls back to "development" |
| Config.EmptyAppEnvClass | backend/config.py:56-66 | an empty setting is a development environment and not production-like |
| Config.BlankAppEnvIsUnclassified | backend/config.py:56-66 | a non-empty blank setting normalises to the empty name, which is in neither class |
| Config.AppEnvIgnoresCaseAndSpace | backend/config.py:56-58 | the classification ignores case and leading space |
| Config.UpperTrim | backend/config.py:58 | stripping and upper-casing commute |
| Config.UpperTrimStart | backend/config.py:58 | stripping the start and upper-casing commute |
| Config.UpperTrimEnd | backend/config.py:58 | stripping the end and upper-casing commute |
| Config.LowerUpper | backend/config.py:58 | lower-casing an upper-cased string equals lower-casing it |
| Config.NormalizeOptionalFlag | backend/config.py:41-46 | a blank string becomes unset and anything else is kept |
| Config.ShouldExposeDevAuthTokens | backend/config.py:68-72 | an explicit flag decides; without one, tokens are exposed exactly in development environments |
| Config.ProductionHidesTokensByDefault | backend/config.py:68-72 | a production-like environment hides the tokens unless the flag says otherwise |
| Config.IsProductionLikeEnv | backend/config.py:60-66 | a production-like environment is never a development one |
| Config.BlankKeyIsInsecure | backend/config.py:74-77 | a blank secret key is never secure |
| Config.HasSecureSecretKey | backend/config.py:74-77 | a secure key has at least 32 characters |
| Config.SmtpFromAddress | backend/config.py:48-50 | the sender is the from address when set, else the SMTP user, else the default address, and never empty |
| ValidateEnv.SecretCheckAgreesWithSettings | scripts/validate_env.py:16-32 | the script flags the secret exactly when the settings call it insecure |
| ValidateEnv.IsDefaultSecret | scripts/validate_env.py:16-18 | a blank or all-whitespace secret counts as a default one |
| ValidateEnv.ChecksOf | scripts/validate_env.py:26-64 | each condition is the one the corrected script tests (the live-mode key check is `MissingLiveKey`, see Findings): a weak or default secret, live mode without a key, SMTP settings present or complete, an empty admin list, exposed tokens, no CORS origins, and an SQLite URL with its directory |
| ValidateEnv.AddIf | scripts/validate_env.py:31-66 | an issue already listed is kept, and an issue whose condition holds is added |
| ValidateEnv.ExitCode | scripts/validate_env.py:76-88 | the status is 0 or 1, and 1 exactly when there are errors, or warnings in strict mode |
| ValidateEnv.RunChecks | scripts/validate_env.py:21-88 | for the corrected script, the errors and warnings are those the checks give, and the status follows from them |
| ValidateEnv.Report | scripts/validate_env.py:31-88 | for the corrected script, the errors and warnings are those the evaluated checks give, and the status follows from them |
| ValidateEnv.EarlyChecks | scripts/validate_env.py:31-49 | the secret, API key, SMTP and admin email checks append exactly the issues of their failing conditions, in order |
| ValidateEnv.SmtpRules | scripts/validate_env.py:37-44 | partial SMTP settings are an error; no SMTP settings are an error in a production-like environment and a warning elsewhere |
| ValidateEnv.AdminEmailRules | scripts/validate_env.py:46-49 | an empty admin list is an error in a production-like environment and a warning elsewhere |
| ValidateEnv.ExposedTokensFail | scripts/validate_env.py:51-52 | exposing development tokens in a production-like environment is an error and fails the run |
| ValidateEnv.ProductionReadyPasses | scripts/validate_env.py:21-88 | with the corrected key check, a fully configured production environment with an existing SQLite directory passes with no issue, strict or not |
| ValidateEnv.DevelopmentWarningsOnlyFailStrict | scripts/validate_env.py:42-88 | a development environment without SMTP warns, which fails only in strict mode |
| ValidateEnv.ApiKeyCheckAsWritten | scripts/validate_env.py:34-35 | as written, the key condition raises `AttributeError` exactly in live mode, and is false in mock mode |
| ValidateEnv.AsWrittenLiveModeCrashes | scripts/validate_env.py:34-35 | as written, live mode reads a setting that does not exist and the script crashes even with both provider keys set |
| ValidateEnv.IntendedLiveModeWithKeyPasses | scripts/validate_env.py:34-35 | in live mode the missing-key error appears exactly when neither provider key is set |
| ValidateEnv.MissingLiveKey | scripts/validate_env.py:34-35 | the corrected key condition: never in mock mode, and never when either provider has a non-blank key |
| ValidateEnv.MissingKeyRule | scripts/validate_env.py:34-35 | in the corrected script, the missing-key error appears exactly when live mode has no provider key |
| Observability.JsonSafe | backend/observability.py:12-21 | dictionaries keep their keys with safe values, lists and tuples become lists of safe items, primitives stay, and anything else becomes its string |
| Observability.JsonSafeIsCompatible | backend/observability.py:12-21 | the result is always JSON-compatible |
| Observability.JsonSafeKeepsCompatible | backend/observability.py:12-21 | a JSON-compatible value is returned unchanged |
| Observability.JsonSafeIdempotent | backend/observability.py:12-21 | applying it twice equals applying it once |
| Observability.TupleLikeList | backend/observability.py:16-19 | a tuple is converted as the list of the same items |

## Left out

- Rendering: React components, their rendering and their hooks' wiring are not modelled. Only the pure helpers and state updates named in the table are.
- Browser I/O: localStorage, `JSON.parse`, Blob downloads, the clipboard, alerts, toasts and timers. Their results are inputs: a parsed draft, a stored buffer, a decision to write or remove.
- Derived.ApplicationsByDeadline: the source's comparator calls a dateless application equal to every other. That is not a consistent order, so what `Array.prototype.sort` returns then depends on the engine. The model instead sorts dateless applications stably at the key of 1970-01-01.
- formatCurrencyTotals: it depends on `Intl` locale formatting, which is not modelled.
- Locale labels: month names and `toLocaleDateString` labels, including the deadline-label match of the application filter, are not modelled.
- Derived.DaysUntilDeadline: this is an exact difference of day numbers. The daylight-saving quirk of `Math.ceil` over local midnights and timezones are not modelled.
- Exporters.SnapshotSummaryOf: only the summary counts of `buildPortfolioSnapshotData` are modelled. Copying the records, the `generated_at` clock and the profile-name fallback are a record builder and are left out.
- CSV and iCalendar downloads: the Blob, the clipboard copy and the date in the file name are browser I/O.
- Telemetry.TrackEvent: a stored JSON string would be spread into its characters in JavaScript. The model treats every stored value that is not a list as a parse failure, which the source swallows.
- Telemetry upload: the network call to the backend is not modelled.
- Essay and application handlers: the API calls and the async sequencing are not modelled. Their pure steps are.
- ValidateEnv.RunChecks: printing the report and the argparse handling are left out. Resolving the SQLite path against the filesystem is a parameter (`SqliteDirectory`).
- Config: reading the `.env` file and pydantic's type coercion are not modelled. The settings are a record of already-typed values.
- Observability.JsonSafe: dictionary keys are strings only. The request-logging middleware and the exception handlers are framework I/O.
- Admin overview: the SQL counts behind the overview and behind event coverage are inputs. The list endpoints (users, events, feedback, breakdown) are plain queries.
- AdminRoutes.ActivationRate: rounding to hundredths is half-up on exact reals, while Python rounds binary floats half to even. It is claimed only to within half a hundredth.
- Catalog file I/O: `load_program_catalog` and `save_program_catalog` are replaced by the `CatalogFile` class holding the list.
- delete_essay (backend/routers/essay_routes.py:289-302): an owner-checked delete of one row. It is not modelled.
- review_essay and assist_essay_outline (backend/routers/essay_routes.py:191-287): these call the AI provider and read the runtime configuration. Their mock builders are modelled in `Reviews`.
- send_verification_email and send_password_reset_email (backend/services/auth_flows.py:60-99): text builders around the SMTP sender. Only the sender's dry-run guard is modelled.
- SMTP sending, bcrypt, JWT, SHA-256 and `secrets.token_urlsafe`: these are foreign calls. Their results are parameters.
- Rate limits inside routes: calls of `enforce_rate_limit` inside the routes are not repeated in the route models. The limiter is modelled once.
- Login, Google, e-mail verification, forgot-password and profile routes: these are outside the modelled auth rules.
- Concurrency: the rate limiter's `threading.Lock` is left out, and calls are taken to be sequential.
- Schemas: the `Field(...)` length and range constraints, explicit JSON nulls and pydantic's error aggregation are not modelled. Each validator returns its first error only.
- ApplicationRoutes.UpdateApplication: the `setattr` loop is modelled as a merge of the sent fields. Query bounds are preconditions where FastAPI enforces them.
- Migrations.BackfilledShape: it states that only unlinked essays of the user change, and to some id. `BackfilledLinksMatches` states which id.
- `run_schema_migrations`: this is SQL DDL.
- SQLite collation: names are compared in plain character order.
- Reviews.IntroBudget: `int(target * 0.18)` is bounded from below only, as a float product is not modelled exactly.
- Reviews.ConclusionBudget: `int(target * 0.15)` is bounded from below only, as a float product is not modelled exactly.
- Reviews: the regex class `\s` is taken as ASCII whitespace.
- Reviews.ExtractScore: the regex class `\d` is taken as the ASCII digits 0-9. Python's `\d` and `float()` also accept other Unicode decimal digits (such as Arabic-Indic ones), so a score written in those digits reads as its value in the source and as no score in the model.
- Derived.DecisionMatrixRows: no bound on the weighted score is claimed. The source promises none.
- URL parser: `new URL(...)` in the catalog form is a parameter.
- Derived.TimelineCells: the first weekday and the number of days of the month are parameters of the grid. They are not computed with `Date`.
- Js.ToNumber: numbers are exact reals, not IEEE doubles. There is no rounding, no overflow to `Infinity`, and no negative zero. The text `Infinity` reads as NaN here, while JavaScript reads it as infinity.
- Js.ToNumber: the whitespace it ignores is the ASCII set of `Text.Trim`. JavaScript also strips non-breaking spaces, line separators and other Unicode spaces.
- DocumentActions.SourceScope: the JavaScript text of a fractional number (`String(2.5)`) is a parameter, `numberText`. Whole numbers are written out in decimal, so the exponent form JavaScript uses from 1e21 upwards is not modelled.
- Reminders.PieceDay: the piece is read as optional sign and ASCII digits. Python's `int()` also accepts underscores between digits (`1_4` is 14) and non-ASCII decimal digits, which the model treats as non-integers.
- ValidateEnv.ChecksOf: it models the corrected script, whose live-mode key check is `MissingLiveKey`. The script as written crashes in live mode, which `ApiKeyCheckAsWritten` models (see Findings).
- ValidateEnv.RunChecks: in live mode its issues are those of the corrected script, not the crash of the script as written.
- ValidateEnv.Report: it evaluates the corrected key condition, not the one the script as written runs.
- ValidateEnv.ProductionReadyPasses: it holds of the corrected script. As written, a live production configuration crashes before any report.
- ValidateEnv.MissingKeyRule: it states the corrected rule. As written, the script crashes in live mode instead.

## Findings

| source | as written | input that shows it | evidently intended | confidence | as-written member | corrected member |
|---|---|---|---|---|---|---|
| frontend/src/components/views/workspace/AdminView.js:216-239 | the regex literals are written `/^\\d{4}-\\d{2}-\\d{2}$/` and `/^\\d{8}$/`. In a JavaScript regex literal, `\\d` matches a backslash followed by `d`, so no date string matches. The date check rejects every value, and the eight-digit form is never rewritten | "2025-01-15" is rejected; "20250115" is returned unchanged | `\d` digit classes: accept a real `YYYY-MM-DD` calendar date, and rewrite `YYYYMMDD` to `YYYY-MM-DD` | high, not executed | AdminView.AsWrittenRejectsEveryDate, AdminView.AsWrittenFlagsEveryDate, AdminView.AsWrittenKeepsEightDigits | AdminView.IsoFormIsValid, AdminView.IntendedAcceptsRealDeadline, AdminView.EightDigitsBecomeIsoShaped |
| scripts/validate_env.py:34-35 | live mode reads `settings.ANTHROPIC_API_KEY`, which `Settings` does not declare, so the script raises `AttributeError` | `MOCK_MODE=false`, even with `OPENAI_API_KEY` and `GEMINI_API_KEY` set | report a missing key only when neither provider key (OpenAI or Gemini) is set | high, not executed | ValidateEnv.ApiKeyCheckAsWritten, ValidateEnv.AsWrittenLiveModeCrashes | ValidateEnv.MissingLiveKey, ValidateEnv.IntendedLiveModeWithKeyPasses |
