// The export handlers of the workspace (frontend/src/app/exportActions.js):
// the calendar download with its empty-calendar guard, and the plain-text
// share summary with the five nearest deadlines.
module ExportActions {
  import opened Wrappers
  import opened Text
  import opened Js
  import opened Dates
  import opened Seqs
  import opened Records
  import opened Exporters

  /** What a handler does: offer a file for download, or show an alert. */
  datatype Outcome =
    | Download(filename: string, content: string, mimeType: string)
    | Alert(message: string)

  /**
   * `handleExportDeadlinesICS`: downloads the calendar when there is one,
   * and otherwise alerts without producing a file.
   */
  function ExportDeadlinesIcs(apps: seq<Application>, parseDate: string -> Option<Date>, now: Instant): (r: Outcome)
    requires ParsesValid(parseDate) && ValidInstant(now)
    ensures r.Download? <==> exists i :: 0 <= i < |apps| && parseDate(apps[i].deadline).Some?
    ensures r.Download? ==> r.filename == "application-deadlines.ics" && r.mimeType == "text/calendar;charset=utf-8"
    ensures r.Download? ==> Some(r.content) == IcsContent(apps, parseDate, now)
    ensures r.Alert? ==> r.message == "Add at least one application deadline before exporting calendar events."
  {
    match IcsContent(apps, parseDate, now)
    case None => Alert("Add at least one application deadline before exporting calendar events.")
    case Some(content) => Download("application-deadlines.ics", content, "text/calendar;charset=utf-8")
  }

  // ---------------------------------------------------------------------
  // Share summary
  // ---------------------------------------------------------------------

  /** The rounded mean readiness, 0 without applications. */
  function ReadinessAverage(apps: seq<Application>, readinessOf: Application -> int): (r: int)
    ensures apps == [] ==> r == 0
  {
    if apps == [] then 0 else Round(SumOf(apps, readinessOf) as real / |apps| as real)
  }

  /** The mean of percentages is a percentage. */
  lemma ReadinessAverageBounded(apps: seq<Application>, readinessOf: Application -> int)
    requires forall i :: 0 <= i < |apps| ==> 0 <= readinessOf(apps[i]) <= 100
    ensures 0 <= ReadinessAverage(apps, readinessOf) <= 100
  {
    if apps != [] {
      SumOfBounds(apps, readinessOf, 0, 100);
      var n := |apps| as real;
      var total := SumOf(apps, readinessOf) as real;
      assert 0.0 <= total <= 100.0 * n;
      assert total / n <= 100.0;
      RoundBetween(total / n, 0, 100);
    }
  }

  /** When every application has the same readiness, that is the average. */
  lemma ReadinessAverageConstant(apps: seq<Application>, readinessOf: Application -> int, v: int)
    requires apps != []
    requires forall i :: 0 <= i < |apps| ==> readinessOf(apps[i]) == v
    ensures ReadinessAverage(apps, readinessOf) == v
  {
    SumOfBounds(apps, readinessOf, v, v);
    var n := |apps|;
    assert SumOf(apps, readinessOf) == v * n;
    assert (v * n) as real == v as real * n as real;
    assert (v * n) as real / n as real == v as real;
    RoundOfInt(v);
  }

  /** One entry of the upcoming list, before filtering. */
  datatype UpcomingRow = UpcomingRow(school: string, program: string, deadline: string, days: Option<int>)

  function ToUpcomingRow(app: Application, daysUntil: string -> Option<int>): (r: UpcomingRow)
    ensures r.school != "" && r.program != ""
    ensures r.deadline == app.deadline && r.days == daysUntil(app.deadline)
    ensures app.schoolName != "" ==> r.school == app.schoolName
    ensures app.programName != "" ==> r.program == app.programName
  {
    UpcomingRow(OrElse(app.schoolName, "School"), OrElse(app.programName, "Program"), app.deadline,
                daysUntil(app.deadline))
  }

  /** The `.map` step: one row per application, in order. */
  function UpcomingCandidates(apps: seq<Application>, daysUntil: string -> Option<int>): (r: seq<UpcomingRow>)
    ensures |r| == |apps|
    ensures forall i :: 0 <= i < |apps| ==> r[i] == ToUpcomingRow(apps[i], daysUntil)
  {
    seq(|apps|, i requires 0 <= i < |apps| => ToUpcomingRow(apps[i], daysUntil))
  }

  /** The `.filter` step: a deadline that is set, parses and is not past. */
  predicate Qualifies(row: UpcomingRow)
  {
    row.deadline != "" && row.days.Some? && row.days.value >= 0
  }

  /** The sort key `a.days - b.days` compares by. */
  function DaysKey(row: UpcomingRow): int
  {
    if row.days.Some? then row.days.value else 0
  }

  function QualifyingRows(apps: seq<Application>, daysUntil: string -> Option<int>): seq<UpcomingRow>
  {
    Filter(UpcomingCandidates(apps, daysUntil), Qualifies)
  }

  /** The qualifying rows, nearest deadline first; ties keep their order. */
  function SortedQualifying(apps: seq<Application>, daysUntil: string -> Option<int>): (r: seq<UpcomingRow>)
    ensures SortedBy(r, DaysKey)
    ensures multiset(r) == multiset(QualifyingRows(apps, daysUntil))
  {
    StableSortBySorted(QualifyingRows(apps, daysUntil), DaysKey);
    StableSortBy(QualifyingRows(apps, daysUntil), DaysKey)
  }

  /** The `upcoming` list: at most five rows, each qualifying, nearest first. */
  function UpcomingRows(apps: seq<Application>, daysUntil: string -> Option<int>): (r: seq<UpcomingRow>)
    ensures |r| <= 5
    ensures forall i :: 0 <= i < |r| ==> Qualifies(r[i])
    ensures SortedBy(r, DaysKey)
  {
    SortedRowsQualify(apps, daysUntil);
    Take(SortedQualifying(apps, daysUntil), 5)
  }

  /** Sorting keeps only qualifying rows. */
  lemma SortedRowsQualify(apps: seq<Application>, daysUntil: string -> Option<int>)
    ensures forall row :: row in SortedQualifying(apps, daysUntil) ==> Qualifies(row)
  {
    var s := SortedQualifying(apps, daysUntil);
    forall row | row in s ensures Qualifies(row) {
      assert row in multiset(s);
      assert row in QualifyingRows(apps, daysUntil);
    }
  }

  /** A row qualifies exactly when it comes from an application whose deadline is set and not past. */
  lemma QualifyingRowsMembers(apps: seq<Application>, daysUntil: string -> Option<int>, row: UpcomingRow)
    ensures row in QualifyingRows(apps, daysUntil)
        <==> Qualifies(row) && exists i :: 0 <= i < |apps| && row == ToUpcomingRow(apps[i], daysUntil)
  {
    var c := UpcomingCandidates(apps, daysUntil);
    FilterMembers(c, Qualifies);
    if row in c {
      var i :| 0 <= i < |c| && c[i] == row;
      assert row == ToUpcomingRow(apps[i], daysUntil);
    }
    if exists i :: 0 <= i < |apps| && row == ToUpcomingRow(apps[i], daysUntil) {
      var i :| 0 <= i < |apps| && row == ToUpcomingRow(apps[i], daysUntil);
      assert c[i] == row;
    }
  }

  /**
   * The list shows the five nearest qualifying deadlines: as many rows as
   * qualify, up to five, all taken from the qualifying rows, and every
   * qualifying row left out is at least as far away as every row shown.
   */
  lemma UpcomingNearest(apps: seq<Application>, daysUntil: string -> Option<int>)
    ensures |UpcomingRows(apps, daysUntil)| == if |QualifyingRows(apps, daysUntil)| < 5 then |QualifyingRows(apps, daysUntil)| else 5
    ensures multiset(UpcomingRows(apps, daysUntil)) <= multiset(QualifyingRows(apps, daysUntil))
    ensures forall x, y :: (x in multiset(QualifyingRows(apps, daysUntil)) - multiset(UpcomingRows(apps, daysUntil))
                            && y in UpcomingRows(apps, daysUntil)) ==> DaysKey(y) <= DaysKey(x)
  {
    TakeSmallest(SortedQualifying(apps, daysUntil), DaysKey, 5);
  }

  /** `- <school> <program>: <deadline> (<days> days)`. */
  function RowLine(row: UpcomingRow): string
  {
    "- " + row.school + " " + row.program + ": " + row.deadline + " (" + IntToString(DaysKey(row)) + " days)"
  }

  function RowLines(rows: seq<UpcomingRow>): (r: seq<string>)
    ensures |r| == |rows|
    ensures forall i :: 0 <= i < |rows| ==> r[i] == RowLine(rows[i])
  {
    seq(|rows|, i requires 0 <= i < |rows| => RowLine(rows[i]))
  }

  /** The six lines every summary starts with; `today` is the `YYYY-MM-DD` date of the clock. */
  function FixedLines(today: string, apps: nat, essays: nat, research: nat, interviews: nat, readiness: int): (r: seq<string>)
    ensures |r| == 6
  {
    ["MBA Platform Summary (" + today + ")",
     "Applications: " + NatToString(apps),
     "Essays: " + NatToString(essays),
     "Research cards: " + NatToString(research),
     "Interview notes: " + NatToString(interviews),
     "Average readiness: " + IntToString(readiness) + "%"]
  }

  /** The counts and rows the summary is made of. */
  datatype ShareFacts = ShareFacts(
    today: string, apps: nat, essays: nat, research: nat, interviews: nat, readiness: int,
    upcoming: seq<UpcomingRow>)

  /** Gathers the counts of `buildShareSummary`: map sizes count their keys. */
  function ShareFactsOf(today: string, apps: seq<Application>, essays: seq<Essay>,
                        interviews: CardsByApplication, research: CardsByApplication,
                        readinessOf: Application -> int, daysUntil: string -> Option<int>): (f: ShareFacts)
    ensures f.apps == |apps| && f.essays == |essays|
    ensures f.interviews == |interviews.Keys| && f.research == |research.Keys|
    ensures f.readiness == ReadinessAverage(apps, readinessOf)
    ensures f.upcoming == UpcomingRows(apps, daysUntil)
  {
    ShareFacts(today, |apps|, |essays|, |research.Keys|, |interviews.Keys|,
               ReadinessAverage(apps, readinessOf), UpcomingRows(apps, daysUntil))
  }

  /** The summary's lines: the fixed six, then the upcoming section only when it has rows. */
  function ShareLines(f: ShareFacts): (r: seq<string>)
    ensures |r| == 6 + (if |f.upcoming| > 0 then 1 + |f.upcoming| else 0)
    ensures r[..6] == FixedLines(f.today, f.apps, f.essays, f.research, f.interviews, f.readiness)
    ensures |f.upcoming| > 0 ==> (r[6] == "Upcoming deadlines:"
                                  && forall i :: 0 <= i < |f.upcoming| ==> r[7 + i] == RowLine(f.upcoming[i]))
  {
    var fixed := FixedLines(f.today, f.apps, f.essays, f.research, f.interviews, f.readiness);
    if |f.upcoming| > 0 then fixed + ["Upcoming deadlines:"] + RowLines(f.upcoming) else fixed
  }

  /** A summary is between six and twelve lines long. */
  lemma ShareLinesLength(today: string, apps: seq<Application>, essays: seq<Essay>,
                         interviews: CardsByApplication, research: CardsByApplication,
                         readinessOf: Application -> int, daysUntil: string -> Option<int>)
    ensures var n := |ShareLines(ShareFactsOf(today, apps, essays, interviews, research, readinessOf, daysUntil))|;
            6 <= n <= 12 && n != 7
  {
  }

  /**
   * `buildShareSummary`: pushes the upcoming lines one by one after the
   * fixed lines and joins everything with `\n`.
   */
  method BuildShareSummary(f: ShareFacts) returns (text: string)
    ensures text == Join(ShareLines(f), "\n")
  {
    var lines := FixedLines(f.today, f.apps, f.essays, f.research, f.interviews, f.readiness);
    if |f.upcoming| > 0 {
      var fixed := lines;
      lines := lines + ["Upcoming deadlines:"];
      var i := 0;
      while i < |f.upcoming|
        invariant 0 <= i <= |f.upcoming|
        invariant lines == fixed + ["Upcoming deadlines:"] + RowLines(f.upcoming[..i])
      {
        assert RowLines(f.upcoming[..i + 1]) == RowLines(f.upcoming[..i]) + [RowLine(f.upcoming[i])];
        lines := lines + [RowLine(f.upcoming[i])];
        i := i + 1;
      }
      assert f.upcoming[..i] == f.upcoming;
    }
    text := Join(lines, "\n");
  }

  /**
   * The snapshot and the share summary agree on what is upcoming: the
   * snapshot's `upcoming_deadlines` counts exactly the rows the summary may
   * list, as long as an empty deadline has no day count.
   */
  lemma {:induction false} SnapshotCountsQualifying(apps: seq<Application>, essayCount: nat, daysUntil: string -> Option<int>)
    requires daysUntil("").None?
    ensures SnapshotSummaryOf(apps, essayCount, daysUntil).upcomingDeadlines == |QualifyingRows(apps, daysUntil)|
    decreases |apps|
  {
    if apps != [] {
      SnapshotCountsQualifying(apps[1..], essayCount, daysUntil);
      assert UpcomingCandidates(apps, daysUntil)[1..] == UpcomingCandidates(apps[1..], daysUntil);
      assert UpcomingCandidates(apps, daysUntil)[0] == ToUpcomingRow(apps[0], daysUntil);
    }
  }
}
