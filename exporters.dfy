// The two export formats the client writes (frontend/src/app/exporters.js):
// a CSV sheet of the applications with every cell quoted, and an iCalendar
// file with one all-day event per dated deadline.
module Exporters {
  import opened Wrappers
  import opened Text
  import opened Dates
  import opened Seqs
  import opened Records
  import opened Js

  // ---------------------------------------------------------------------
  // CSV (RFC 4180 section 2, with `\n` between records)
  // ---------------------------------------------------------------------

  /** The text of a cell value: a missing value is the empty string. */
  function CellText(v: Option<string>): (r: string)
    ensures v.None? ==> r == ""
    ensures v.Some? ==> r == v.value
  {
    v.GetOr("")
  }

  /** Every `"` doubled, as RFC 4180 section 2 rule 7 asks inside a quoted field. */
  function EscapeQuotes(s: string): (r: string)
    ensures |r| >= |s|
    ensures '"' !in s ==> r == s
    decreases |s|
  {
    if s == [] then []
    else (if s[0] == '"' then "\"\"" else [s[0]]) + EscapeQuotes(s[1..])
  }

  /** Escaping adds one character per quote. */
  lemma {:induction false} EscapeQuotesLength(s: string)
    ensures |EscapeQuotes(s)| == |s| + multiset(s)['"']
    decreases |s|
  {
    if s != [] {
      EscapeQuotesLength(s[1..]);
      assert s == [s[0]] + s[1..];
    }
  }

  /** A field enclosed in double quotes with its own quotes doubled. */
  function Quote(s: string): (r: string)
    ensures |r| >= 2 && r[0] == '"' && r[|r| - 1] == '"'
  {
    "\"" + EscapeQuotes(s) + "\""
  }

  /** `toCsvCell`: the quoted text of the value, `""` for a missing value. */
  function ToCsvCell(v: Option<string>): (r: string)
    ensures v.None? ==> r == "\"\""
    ensures |r| >= 2 && r[0] == '"' && r[|r| - 1] == '"'
  {
    Quote(CellText(v))
  }

  /**
   * Reads the inside of a quoted field, starting after its opening quote:
   * a doubled quote stands for one quote and a single quote closes the
   * field. Gives the value and what follows the closing quote.
   */
  function ReadQuoted(s: string): (r: Option<(string, string)>)
    ensures r.Some? ==> |r.value.1| < |s|
    decreases |s|
  {
    if s == [] then None
    else if s[0] == '"' then
      if |s| > 1 && s[1] == '"' then
        match ReadQuoted(s[2..])
        case None => None
        case Some((v, rest)) => Some(("\"" + v, rest))
      else Some(("", s[1..]))
    else
      match ReadQuoted(s[1..])
      case None => None
      case Some((v, rest)) => Some(([s[0]] + v, rest))
  }

  /** Reads one quoted cell at the start of `s`. */
  function ReadCell(s: string): (r: Option<(string, string)>)
    ensures r.Some? ==> |r.value.1| < |s|
  {
    if s != [] && s[0] == '"' then ReadQuoted(s[1..]) else None
  }

  /** Reads the cells of one record: quoted cells separated by `,`. */
  function ReadRecord(s: string): (r: Option<(seq<string>, string)>)
    ensures r.Some? ==> |r.value.1| < |s| && |r.value.0| >= 1
    decreases |s|
  {
    match ReadCell(s)
    case None => None
    case Some((cell, rest)) =>
      if rest != [] && rest[0] == ',' then
        match ReadRecord(rest[1..])
        case None => None
        case Some((cells, after)) => Some(([cell] + cells, after))
      else Some(([cell], rest))
  }

  /** Reads a document of records separated by `\n`; fails on anything else. */
  function ParseCsv(s: string): (rows: Option<seq<seq<string>>>)
    ensures rows.Some? ==> |rows.value| >= 1
    decreases |s|
  {
    match ReadRecord(s)
    case None => None
    case Some((cells, rest)) =>
      if rest == [] then Some([cells])
      else if rest[0] == '\n' then
        match ParseCsv(rest[1..])
        case None => None
        case Some(more) => Some([cells] + more)
      else None
  }

  /** The quoted form of each cell. */
  function QuoteEach(cells: seq<string>): (r: seq<string>)
    ensures |r| == |cells|
    ensures forall i :: 0 <= i < |r| ==> r[i] == Quote(cells[i])
  {
    seq(|cells|, i requires 0 <= i < |cells| => Quote(cells[i]))
  }

  /** `row.map(toCsvCell).join(',')`. */
  function RenderRecord(cells: seq<string>): string
  {
    Join(QuoteEach(cells), ",")
  }

  /** The rendered form of each record. */
  function RenderEach(rows: seq<seq<string>>): (r: seq<string>)
    ensures |r| == |rows|
    ensures forall i :: 0 <= i < |r| ==> r[i] == RenderRecord(rows[i])
  {
    seq(|rows|, i requires 0 <= i < |rows| => RenderRecord(rows[i]))
  }

  /** The records, rendered and joined with `\n`. */
  function RenderCsv(rows: seq<seq<string>>): string
  {
    Join(RenderEach(rows), "\n")
  }

  /** A quoted value reads back as itself, whatever quotes it holds. */
  lemma {:induction false} ReadQuotedOfEscaped(v: string, rest: string)
    requires rest == [] || rest[0] != '"'
    ensures ReadQuoted(EscapeQuotes(v) + "\"" + rest) == Some((v, rest))
    decreases |v|
  {
    var s := EscapeQuotes(v) + "\"" + rest;
    if v == [] {
      assert s == "\"" + rest;
      assert s[1..] == rest;
    } else {
      ReadQuotedOfEscaped(v[1..], rest);
      if v[0] == '"' {
        EscapedQuoteStep(v, rest);
      } else {
        EscapedPlainStep(v, rest);
      }
    }
  }

  /** A value starting with a quote reads back once the rest of it does. */
  lemma EscapedQuoteStep(v: string, rest: string)
    requires v != [] && v[0] == '"'
    requires ReadQuoted(EscapeQuotes(v[1..]) + "\"" + rest) == Some((v[1..], rest))
    ensures ReadQuoted(EscapeQuotes(v) + "\"" + rest) == Some((v, rest))
  {
    var tail := EscapeQuotes(v[1..]) + "\"" + rest;
    assert v == "\"" + v[1..];
    assert EscapeQuotes(v) == "\"\"" + EscapeQuotes(v[1..]);
    assert EscapeQuotes(v) + "\"" + rest == "\"\"" + tail;
    ReadQuotedPair(tail, v[1..], rest);
  }

  /** A value starting with any other character reads back once the rest of it does. */
  lemma EscapedPlainStep(v: string, rest: string)
    requires v != [] && v[0] != '"'
    requires ReadQuoted(EscapeQuotes(v[1..]) + "\"" + rest) == Some((v[1..], rest))
    ensures ReadQuoted(EscapeQuotes(v) + "\"" + rest) == Some((v, rest))
  {
    var tail := EscapeQuotes(v[1..]) + "\"" + rest;
    assert v == [v[0]] + v[1..];
    assert EscapeQuotes(v) == [v[0]] + EscapeQuotes(v[1..]);
    assert EscapeQuotes(v) + "\"" + rest == [v[0]] + tail;
    ReadQuotedPlain(v[0], tail, v[1..], rest);
  }

  /** A doubled quote reads as one quote of the value. */
  lemma ReadQuotedPair(tail: string, w: string, rest: string)
    requires ReadQuoted(tail) == Some((w, rest))
    ensures ReadQuoted("\"\"" + tail) == Some(("\"" + w, rest))
  {
    var s := "\"\"" + tail;
    assert s[0] == '"' && s[1] == '"' && s[2..] == tail;
  }

  /** Any other character reads as itself. */
  lemma ReadQuotedPlain(c: char, tail: string, w: string, rest: string)
    requires c != '"' && ReadQuoted(tail) == Some((w, rest))
    ensures ReadQuoted([c] + tail) == Some(([c] + w, rest))
  {
    assert ([c] + tail)[1..] == tail;
  }

  /** The cell quoting round-trips: reading a quoted cell gives its text back. */
  lemma CsvCellRoundTrip(v: Option<string>, rest: string)
    requires rest == [] || rest[0] != '"'
    ensures ReadCell(ToCsvCell(v) + rest) == Some((CellText(v), rest))
  {
    var s := ToCsvCell(v) + rest;
    ReadQuotedOfEscaped(CellText(v), rest);
    assert s[1..] == EscapeQuotes(CellText(v)) + "\"" + rest;
  }

  /** Reading a rendered record gives its cells back, up to the next newline. */
  lemma {:induction false} RecordRoundTrip(cells: seq<string>, rest: string)
    requires |cells| >= 1
    requires rest == [] || rest[0] == '\n'
    ensures ReadRecord(RenderRecord(cells) + rest) == Some((cells, rest))
    decreases |cells|
  {
    if |cells| == 1 {
      LastCellRoundTrip(cells, rest);
    } else {
      RenderRecordCons(cells);
      RecordRoundTrip(cells[1..], rest);
      CellThenRecord(cells[0], RenderRecord(cells[1..]), cells[1..], rest);
      assert cells == [cells[0]] + cells[1..];
    }
  }

  /** A quoted cell, a comma and a readable record read as one record more. */
  lemma CellThenRecord(c: string, record: string, cells: seq<string>, rest: string)
    requires ReadRecord(record + rest) == Some((cells, rest))
    ensures ReadRecord(Quote(c) + "," + record + rest) == Some(([c] + cells, rest))
  {
    var tail := "," + record + rest;
    CsvCellRoundTrip(Some(c), tail);
    assert ToCsvCell(Some(c)) == Quote(c) && CellText(Some(c)) == c;
    assert tail[1..] == record + rest;
    assert Quote(c) + "," + record + rest == Quote(c) + tail;
    ReadRecordStep(Quote(c) + tail, c, tail, cells, rest);
  }

  /** A record of one cell reads back as that cell. */
  lemma LastCellRoundTrip(cells: seq<string>, rest: string)
    requires |cells| == 1
    requires rest == [] || rest[0] == '\n'
    ensures ReadRecord(RenderRecord(cells) + rest) == Some((cells, rest))
  {
    CsvCellRoundTrip(Some(cells[0]), rest);
    JoinLength1(QuoteEach(cells), ",");
    assert cells == [cells[0]];
  }

  /** A rendered record of several cells is the first quoted cell, a comma and the rest. */
  lemma RenderRecordCons(cells: seq<string>)
    requires |cells| >= 2
    ensures RenderRecord(cells) == Quote(cells[0]) + "," + RenderRecord(cells[1..])
  {
    assert QuoteEach(cells)[1..] == QuoteEach(cells[1..]);
  }

  /** A cell followed by a comma continues the record with the cells after it. */
  lemma ReadRecordStep(s: string, cell: string, tail: string, cells: seq<string>, rest: string)
    requires ReadCell(s) == Some((cell, tail))
    requires tail != [] && tail[0] == ','
    requires ReadRecord(tail[1..]) == Some((cells, rest))
    ensures ReadRecord(s) == Some(([cell] + cells, rest))
  {
  }

  /**
   * The CSV round trip: parsing a rendered document gives back its records,
   * every cell's text intact, as long as each record has a cell.
   */
  lemma {:induction false} CsvRoundTrip(rows: seq<seq<string>>)
    requires |rows| >= 1
    requires forall i :: 0 <= i < |rows| ==> |rows[i]| >= 1
    ensures ParseCsv(RenderCsv(rows)) == Some(rows)
    decreases |rows|
  {
    var r := RenderEach(rows);
    if |rows| == 1 {
      assert RenderCsv(rows) == RenderRecord(rows[0]);
      RecordRoundTrip(rows[0], "");
      assert RenderRecord(rows[0]) + "" == RenderRecord(rows[0]);
      assert rows == [rows[0]];
    } else {
      assert r[1..] == RenderEach(rows[1..]);
      var tail := "\n" + RenderCsv(rows[1..]);
      assert RenderCsv(rows) == RenderRecord(rows[0]) + tail;
      RecordRoundTrip(rows[0], tail);
      CsvRoundTrip(rows[1..]);
      assert tail[1..] == RenderCsv(rows[1..]);
      assert rows == [rows[0]] + rows[1..];
    }
  }

  const CsvHeaders: seq<string> := ["School", "Program", "Round", "Deadline", "Days Until Deadline", "Status", "Decision"]

  /** The cells of one application: six of its fields and the days until its deadline. */
  function ApplicationCsvRow(app: Application, days: Option<int>): (r: seq<string>)
    ensures |r| == 7
    ensures r[0] == app.schoolName && r[1] == app.programName && r[2] == app.applicationRound
    ensures r[3] == app.deadline && r[5] == app.status && r[6] == app.decisionStatus
    ensures r[4] == "" <==> days.None?
    ensures days.Some? ==> r[4] == IntToString(days.value)
  {
    var daysCell := match days case None => None case Some(n) => Some(IntToString(n));
    [app.schoolName, app.programName, app.applicationRound, app.deadline, CellText(daysCell),
     app.status, app.decisionStatus]
  }

  /** The header row followed by one row per application, in order. */
  function ApplicationsCsvRows(apps: seq<Application>, daysUntil: string -> Option<int>): (rows: seq<seq<string>>)
    ensures |rows| == |apps| + 1
    ensures rows[0] == CsvHeaders
    ensures forall i :: 0 <= i < |apps| ==> rows[i + 1] == ApplicationCsvRow(apps[i], daysUntil(apps[i].deadline))
    ensures forall i :: 0 <= i < |rows| ==> |rows[i]| == 7
  {
    [CsvHeaders] + seq(|apps|, i requires 0 <= i < |apps| => ApplicationCsvRow(apps[i], daysUntil(apps[i].deadline)))
  }

  /**
   * `buildApplicationsCsvContent`. The exported sheet reads back as the
   * header and one seven-cell row per application, whatever quotes, commas or
   * newlines the fields hold.
   */
  function ApplicationsCsv(apps: seq<Application>, daysUntil: string -> Option<int>): (csv: string)
    ensures ParseCsv(csv) == Some(ApplicationsCsvRows(apps, daysUntil))
  {
    CsvRoundTrip(ApplicationsCsvRows(apps, daysUntil));
    RenderCsv(ApplicationsCsvRows(apps, daysUntil))
  }

  // ---------------------------------------------------------------------
  // iCalendar (RFC 5545 sections 3.1, 3.3.4, 3.6.1)
  // ---------------------------------------------------------------------

  const CRLF: string := "\r\n"

  /** A moment in UTC, as `now.getUTC...()` reads it. */
  datatype Instant = Instant(date: Date, hour: int, minute: int, second: int)

  predicate ValidInstant(t: Instant)
  {
    Valid(t.date) && 0 <= t.hour < 24 && 0 <= t.minute < 60 && 0 <= t.second < 60
  }

  /** `parseDate` returns calendar dates or nothing. */
  ghost predicate ParsesValid(parseDate: string -> Option<Date>)
  {
    forall s :: parseDate(s).Some? ==> Valid(parseDate(s).value)
  }

  /** `dtStamp`: the UTC date and time in basic form, `YYYYMMDDTHHMMSSZ`. */
  function Stamp(now: Instant): string
    requires ValidInstant(now)
  {
    BasicForm(now.date) + "T" + Pad2(now.hour) + Pad2(now.minute) + Pad2(now.second) + "Z"
  }

  /** For a four-digit year the stamp is a 16-character UTC DATE-TIME of RFC 5545 section 3.3.5. */
  lemma StampForm(now: Instant)
    requires ValidInstant(now) && 1000 <= now.date.year <= 9999
    ensures |Stamp(now)| == 16
    ensures Stamp(now)[..8] == BasicForm(now.date)
    ensures Stamp(now)[8] == 'T' && Stamp(now)[15] == 'Z'
    ensures AllDigits(Stamp(now)[9..15])
    ensures DigitsValue(Stamp(now)[9..11]) == now.hour
    ensures DigitsValue(Stamp(now)[11..13]) == now.minute
    ensures DigitsValue(Stamp(now)[13..15]) == now.second
  {
    BasicFormEightDigits(now.date);
    Pad2Value(now.hour);
    Pad2Value(now.minute);
    Pad2Value(now.second);
    var s := Stamp(now);
    assert s[9..11] == Pad2(now.hour);
    assert s[11..13] == Pad2(now.minute);
    assert s[13..15] == Pad2(now.second);
  }

  function SafeChar(c: char): char
  {
    if c == ',' || c == ';' || c == '\n' then ' ' else c
  }

  /** `.replace(/[,;\n]/g, ' ')`: commas, semicolons and newlines become spaces. */
  function SafeText(s: string): (r: string)
    ensures |r| == |s|
    ensures ',' !in r && ';' !in r && '\n' !in r
    ensures forall i :: 0 <= i < |s| && s[i] != ',' && s[i] != ';' && s[i] != '\n' ==> r[i] == s[i]
  {
    seq(|s|, i requires 0 <= i < |s| => SafeChar(s[i]))
  }

  /** The event title: school and program with their separators blanked out. */
  function EventSummary(app: Application): (r: string)
    ensures ',' !in r && ';' !in r && '\n' !in r
  {
    SafeText(OrElse(app.schoolName, "Application")) + " " + SafeText(OrElse(app.programName, "Program")) + " Deadline"
  }

  /** The event description; its line breaks are the two characters `\` and `n`. */
  function EventDescription(app: Application): string
  {
    "Round: " + OrElse(app.applicationRound, "N/A") + "\\nStatus: " + OrElse(app.status, "Planning")
      + "\\nDecision: " + OrElse(app.decisionStatus, "Pending")
  }

  /** `UID:<id>-<YYYYMMDD>@masters-platform`. */
  function EventUid(id: int, dt: Date): string
    requires Valid(dt)
  {
    UidPrefix + IntToString(id) + "-" + BasicForm(dt) + UidDomain
  }

  const UidPrefix: string := "UID:"
  const UidDomain: string := "@masters-platform"

  /** The eight content lines of the all-day event of one deadline. */
  function EventLines(app: Application, dt: Date, stamp: string): (r: seq<string>)
    requires Valid(dt)
    ensures |r| == 8
    ensures r[0] == "BEGIN:VEVENT" && r[7] == "END:VEVENT"
  {
    ["BEGIN:VEVENT",
     EventUid(app.id, dt),
     "DTSTAMP:" + stamp,
     "DTSTART;VALUE=DATE:" + BasicForm(dt),
     "DTEND;VALUE=DATE:" + BasicForm(NextDay(dt)),
     "SUMMARY:" + EventSummary(app),
     "DESCRIPTION:" + EventDescription(app),
     "END:VEVENT"]
  }

  /** The event lines of an application, none when its deadline does not parse. */
  function EventBlock(app: Application, parseDate: string -> Option<Date>, stamp: string): (r: seq<string>)
    requires ParsesValid(parseDate)
    ensures |r| == 0 <==> parseDate(app.deadline).None?
    ensures parseDate(app.deadline).Some? ==> r == EventLines(app, parseDate(app.deadline).value, stamp)
  {
    match parseDate(app.deadline)
    case None => []
    case Some(dt) => EventLines(app, dt, stamp)
  }

  function BlockOf(parseDate: string -> Option<Date>, stamp: string): Application -> seq<string>
    requires ParsesValid(parseDate)
  {
    (a: Application) => EventBlock(a, parseDate, stamp)
  }

  /** The `.map` over the dated applications: each event's lines joined with CRLF. */
  function EventTexts(dated: seq<Application>, parseDate: string -> Option<Date>, stamp: string): (r: seq<string>)
    requires ParsesValid(parseDate)
    ensures |r| == |dated|
    ensures forall i :: 0 <= i < |r| ==> r[i] == Join(EventBlock(dated[i], parseDate, stamp), CRLF)
  {
    seq(|dated|, i requires 0 <= i < |dated| => Join(EventBlock(dated[i], parseDate, stamp), CRLF))
  }

  function HasDate(parseDate: string -> Option<Date>): Application -> bool
  {
    (a: Application) => parseDate(a.deadline).Some?
  }

  function NonEmpty(s: string): bool { s != "" }

  const IcsHeader: seq<string> := ["BEGIN:VCALENDAR", "VERSION:2.0", "PRODID:-//Masters Application Platform//EN"]

  /** `buildDeadlinesIcsContent`: nothing when no deadline parses, otherwise the calendar. */
  function IcsContent(apps: seq<Application>, parseDate: string -> Option<Date>, now: Instant): (r: Option<string>)
    requires ParsesValid(parseDate) && ValidInstant(now)
    ensures r.None? <==> forall i :: 0 <= i < |apps| ==> parseDate(apps[i].deadline).None?
  {
    var dated := Filter(apps, HasDate(parseDate));
    if |dated| == 0 then
      FilterNoneIffAbsent(apps, parseDate);
      None
    else
      FilterNoneIffAbsent(apps, parseDate);
      var events := Filter(EventTexts(dated, parseDate, Stamp(now)), NonEmpty);
      Some(Join(IcsHeader + [Join(events, CRLF)] + ["END:VCALENDAR"], CRLF))
  }

  lemma FilterNoneIffAbsent(apps: seq<Application>, parseDate: string -> Option<Date>)
    ensures |Filter(apps, HasDate(parseDate))| == 0 <==> forall i :: 0 <= i < |apps| ==> parseDate(apps[i].deadline).None?
  {
    var p := HasDate(parseDate);
    FilterMembers(apps, p);
    if |Filter(apps, p)| == 0 {
      forall i | 0 <= i < |apps| ensures parseDate(apps[i].deadline).None? {
        assert apps[i] in apps;
      }
    } else {
      var x := Filter(apps, p)[0];
      assert x in Filter(apps, p);
      var i :| 0 <= i < |apps| && apps[i] == x;
      assert parseDate(apps[i].deadline).Some?;
    }
  }

  /** The event lines of the dated applications, in order. */
  function CalendarEvents(dated: seq<Application>, parseDate: string -> Option<Date>, stamp: string): seq<string>
    requires ParsesValid(parseDate)
  {
    FlatMap(dated, BlockOf(parseDate, stamp))
  }

  /** The calendar's content lines: the header, each dated event's lines, the footer. */
  function IcsLines(dated: seq<Application>, parseDate: string -> Option<Date>, stamp: string): seq<string>
    requires ParsesValid(parseDate)
  {
    IcsHeader + CalendarEvents(dated, parseDate, stamp) + ["END:VCALENDAR"]
  }

  function JoinEach<T>(xs: seq<T>, f: T -> seq<string>, sep: string): (r: seq<string>)
    ensures |r| == |xs|
    ensures forall i :: 0 <= i < |xs| ==> r[i] == Join(f(xs[i]), sep)
  {
    seq(|xs|, i requires 0 <= i < |xs| => Join(f(xs[i]), sep))
  }

  /** Joining the blocks one by one and then together is joining all their lines. */
  lemma {:induction false} JoinFlatMap<T>(xs: seq<T>, f: T -> seq<string>, sep: string)
    requires |xs| > 0
    requires forall i :: 0 <= i < |xs| ==> |f(xs[i])| > 0
    ensures Join(FlatMap(xs, f), sep) == Join(JoinEach(xs, f, sep), sep)
    decreases |xs|
  {
    var each := JoinEach(xs, f, sep);
    if |xs| == 1 {
      assert FlatMap(xs, f) == f(xs[0]) + FlatMap(xs[1..], f);
      assert FlatMap(xs, f) == f(xs[0]);
    } else {
      JoinFlatMap(xs[1..], f, sep);
      assert each[1..] == JoinEach(xs[1..], f, sep);
      assert FlatMap(xs, f) == f(xs[0]) + FlatMap(xs[1..], f);
      assert FlatMap(xs[1..], f) == f(xs[1..][0]) + FlatMap(xs[1..][1..], f);
      JoinConcat(f(xs[0]), FlatMap(xs[1..], f), sep);
    }
  }

  /** Every dated application has an eight-line event, and its joined text is not empty. */
  lemma DatedEvents(apps: seq<Application>, parseDate: string -> Option<Date>, stamp: string)
    requires ParsesValid(parseDate)
    ensures forall i :: 0 <= i < |Filter(apps, HasDate(parseDate))| ==>
      |BlockOf(parseDate, stamp)(Filter(apps, HasDate(parseDate))[i])| == 8
    ensures Filter(EventTexts(Filter(apps, HasDate(parseDate)), parseDate, stamp), NonEmpty)
         == JoinEach(Filter(apps, HasDate(parseDate)), BlockOf(parseDate, stamp), CRLF)
  {
    var dated := Filter(apps, HasDate(parseDate));
    var f := BlockOf(parseDate, stamp);
    var texts := EventTexts(dated, parseDate, stamp);
    forall i | 0 <= i < |dated| ensures |f(dated[i])| == 8 && NonEmpty(texts[i]) {
      assert dated[i] in dated;
      var lines := f(dated[i]);
      assert Join(lines, CRLF) == lines[0] + CRLF + Join(lines[1..], CRLF);
    }
    FilterAll(texts, NonEmpty);
    assert texts == JoinEach(dated, f, CRLF);
  }

  /** A joined group in the middle of a list joins like its lines spliced in. */
  lemma {:induction false} JoinFramed(head: seq<string>, body: seq<string>, foot: string, sep: string)
    requires |head| > 0 && |body| > 0
    ensures Join(head + [Join(body, sep)] + [foot], sep) == Join(head + body + [foot], sep)
  {
    var j := Join(body, sep);
    var pair := [j, foot];
    assert head + [j] + [foot] == head + pair;
    JoinConcat(head, pair, sep);
    assert pair[1..] == [foot];
    assert Join(pair, sep) == j + sep + foot;
    var rest := body + [foot];
    assert head + body + [foot] == head + rest;
    JoinConcat(head, rest, sep);
    JoinConcat(body, [foot], sep);
  }

  /**
   * The calendar is its content lines joined with CRLF: the three header
   * lines, then the eight lines of each dated application's event, then
   * `END:VCALENDAR`.
   */
  lemma IcsLayout(apps: seq<Application>, parseDate: string -> Option<Date>, now: Instant)
    requires ParsesValid(parseDate) && ValidInstant(now)
    requires IcsContent(apps, parseDate, now).Some?
    ensures IcsContent(apps, parseDate, now).value == Join(IcsLines(Filter(apps, HasDate(parseDate)), parseDate, Stamp(now)), CRLF)
  {
    var dated := Filter(apps, HasDate(parseDate));
    var stamp := Stamp(now);
    DatedEvents(apps, parseDate, stamp);
    JoinFlatMap(dated, BlockOf(parseDate, stamp), CRLF);
    var events := CalendarEvents(dated, parseDate, stamp);
    FlatMapUniformLength(dated, BlockOf(parseDate, stamp), 8);
    JoinFramed(IcsHeader, events, "END:VCALENDAR", CRLF);
  }

  /**
   * One block per dated application, in input order: `8 * n` event lines
   * for `n` dated applications, and the `k`-th dated application's lines
   * come right after those of the earlier ones. With the header and the
   * footer the calendar has `4 + 8 * n` lines.
   */
  lemma EventBlocks(dated: seq<Application>, parseDate: string -> Option<Date>, stamp: string, k: nat)
    requires ParsesValid(parseDate)
    requires forall i :: 0 <= i < |dated| ==> parseDate(dated[i].deadline).Some?
    requires k < |dated|
    ensures |CalendarEvents(dated, parseDate, stamp)| == 8 * |dated|
    ensures |IcsLines(dated, parseDate, stamp)| == 4 + 8 * |dated|
    ensures CalendarEvents(dated, parseDate, stamp)
         == CalendarEvents(dated[..k], parseDate, stamp)
            + EventLines(dated[k], parseDate(dated[k].deadline).value, stamp)
            + CalendarEvents(dated[k + 1..], parseDate, stamp)
  {
    var f := BlockOf(parseDate, stamp);
    assert forall i :: 0 <= i < |dated| ==> |f(dated[i])| == 8;
    FlatMapUniformLength(dated, f, 8);
    FlatMapAt(dated, f, k);
  }

  /** `(p + m + q)[|p|..|p| + |m|]` is `m`. */
  lemma Middle(p: string, m: string, q: string)
    ensures (p + m + q)[|p|..|p| + |m|] == m
  {
  }

  /** The UID names the application and the day, so different events never share one. */
  lemma EventUidInjective(a: int, b: int, d: Date, e: Date)
    requires a >= 0 && b >= 0
    requires Valid(d) && Valid(e) && 1000 <= d.year <= 9999 && 1000 <= e.year <= 9999
    requires EventUid(a, d) == EventUid(b, e)
    ensures a == b && d == e
  {
    BasicFormEightDigits(d);
    BasicFormEightDigits(e);
    FramedPairInjective(UidPrefix, IntToString(a), BasicForm(d), IntToString(b), BasicForm(e), UidDomain);
    NatToStringInjective(a, b);
    BasicFormInjective(d, e);
  }

  /** Between a fixed prefix and suffix, `x-y` with `y` of one fixed length gives back `x` and `y`. */
  lemma FramedPairInjective(pre: string, x1: string, y1: string, x2: string, y2: string, post: string)
    requires pre + x1 + "-" + y1 + post == pre + x2 + "-" + y2 + post
    requires |y1| == |y2|
    ensures x1 == x2 && y1 == y2
  {
    var u := pre + x1 + "-" + y1 + post;
    assert |x1| == |x2|;
    Middle(pre, x1, "-" + y1 + post);
    Middle(pre, x2, "-" + y2 + post);
    assert u == pre + x1 + ("-" + y1 + post);
    assert u == pre + x2 + ("-" + y2 + post);
    Middle(pre + x1 + "-", y1, post);
    Middle(pre + x2 + "-", y2, post);
  }

  /** DTEND is the day after DTSTART: the exclusive end of an all-day event (RFC 5545 section 3.6.1). */
  lemma EventEndIsNextDay(app: Application, dt: Date, stamp: string)
    requires Valid(dt)
    ensures EventLines(app, dt, stamp)[3] == "DTSTART;VALUE=DATE:" + BasicForm(dt)
    ensures exists e :: Valid(e) && DayNumber(e) == DayNumber(dt) + 1
                        && EventLines(app, dt, stamp)[4] == "DTEND;VALUE=DATE:" + BasicForm(e)
  {
    NextDayNumber(dt);
    var e := NextDay(dt);
    assert Valid(e) && DayNumber(e) == DayNumber(dt) + 1;
  }

  // ---------------------------------------------------------------------
  // Portfolio snapshot (the counts; the rest is a copy of its inputs)
  // ---------------------------------------------------------------------

  /** The `summary` block of `buildPortfolioSnapshotData`. */
  datatype SnapshotSummary = SnapshotSummary(applications: nat, essays: nat, upcomingDeadlines: nat)

  /** `days_until_deadline !== null && days_until_deadline >= 0`. */
  function NotPast(daysUntil: string -> Option<int>): Application -> bool
  {
    (app: Application) => daysUntil(app.deadline).Some? && daysUntil(app.deadline).value >= 0
  }

  /**
   * The snapshot's counts: every application and essay, and the applications
   * whose deadline is known and not past; none are upcoming exactly when no
   * deadline is.
   */
  function SnapshotSummaryOf(apps: seq<Application>, essayCount: nat, daysUntil: string -> Option<int>): (r: SnapshotSummary)
    ensures r.applications == |apps| && r.essays == essayCount
    ensures r.upcomingDeadlines <= |apps|
    ensures r.upcomingDeadlines == 0
        <==> forall i :: 0 <= i < |apps| ==> daysUntil(apps[i].deadline).None? || daysUntil(apps[i].deadline).value < 0
  {
    NoneUpcomingIffAllPast(apps, daysUntil);
    SnapshotSummary(|apps|, essayCount, |Filter(apps, NotPast(daysUntil))|)
  }

  lemma NoneUpcomingIffAllPast(apps: seq<Application>, daysUntil: string -> Option<int>)
    ensures |Filter(apps, NotPast(daysUntil))| == 0
        <==> forall i :: 0 <= i < |apps| ==> daysUntil(apps[i].deadline).None? || daysUntil(apps[i].deadline).value < 0
  {
    var p := NotPast(daysUntil);
    FilterMembers(apps, p);
    if |Filter(apps, p)| != 0 {
      var x := Filter(apps, p)[0];
      assert x in Filter(apps, p);
      var i :| 0 <= i < |apps| && apps[i] == x;
      assert p(apps[i]);
    } else {
      forall i | 0 <= i < |apps| ensures !p(apps[i]) {
        assert apps[i] in apps;
      }
    }
  }
}
