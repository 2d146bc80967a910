/** The event list page (`app/components/event-selection.tsx`): the roster
    upload that a new event starts from, the event-creation dialog, the event
    status badge and the calendar's date helpers. */
module EventSelection {
  import opened Wrappers
  import opened Text
  import opened Seqs
  import opened Csv
  import opened Domain
  import opened EventOverview

  // ---------------------------------------------------------------- roster import

  /** The columns an uploaded roster must have, in any order. */
  const RosterColumns := ["이름", "소속", "직급", "이메일", "연락처"]

  /** The visitor read from the data line with this index (counted before
      empty names are dropped): not checked in, not on site. */
  function RowVisitor(values: seq<string>, headers: seq<string>, index: nat): Visitor {
    Visitor("csv-" + NatToString(index),
      Field(values, headers, "이름"), Field(values, headers, "소속"), Field(values, headers, "직급"),
      Field(values, headers, "이메일"), Field(values, headers, "연락처"),
      false, false, None, "", "")
  }

  /** `lines.slice(1).map((line, index) => ...)`. */
  function RowVisitors(rows: seq<seq<string>>, headers: seq<string>): (vs: seq<Visitor>)
    ensures |vs| == |rows|
    ensures forall i :: 0 <= i < |rows| ==> vs[i] == RowVisitor(rows[i], headers, i)
  {
    seq(|rows|, i requires 0 <= i < |rows| => RowVisitor(rows[i], headers, i))
  }

  /** `.filter((v) => v.name)`. */
  predicate Named(v: Visitor) {
    v.name != ""
  }

  /** The visitors of an accepted table: one per data line, empty names dropped. */
  function TableVisitors(t: Table): seq<Visitor> {
    Filter(RowVisitors(t.rows, t.headers), Named)
  }

  /** The reader's callback: the visitors of a roster file's text, or why it
      was refused. */
  function ParseVisitors(text: string): Result<seq<Visitor>, ImportError> {
    match ParseTable(text, RosterColumns)
    case Failure(e) => Failure(e)
    case Success(t) => Success(TableVisitors(t))
  }

  /** `handleFileUpload` for a chosen file: the name check, then the parse. */
  function ImportRoster(file: FileInput): Result<seq<Visitor>, ImportError> {
    if !IsCsvName(file.name) then Failure(NotCsvFile) else ParseVisitors(file.text)
  }

  /** What an upload is refused for, exactly. */
  lemma ImportRosterFails(file: FileInput)
    ensures var r := ImportRoster(file);
      var lines := NonBlankLines(file.text);
      && (r == Failure(NotCsvFile) <==> !IsCsvName(file.name))
      && (r == Failure(TooFewLines) <==> IsCsvName(file.name) && |lines| < 2)
      && (r == Failure(HeaderMismatch) <==>
            IsCsvName(file.name) && |lines| >= 2 && !HasColumns(Cells(lines[0]), RosterColumns))
  {
  }

  /** A roster as an upload leaves it: every visitor named, not yet checked
      in, not on site, well formed, and the ids pairwise distinct. */
  ghost predicate FreshRoster(vs: seq<Visitor>) {
    && AllWellFormed(vs)
    && DistinctBy(vs, VisitorId)
    && forall i :: 0 <= i < |vs| ==> vs[i].name != "" && !vs[i].isCheckedIn && !vs[i].isOnSite
  }

  /** The ids "csv-0", "csv-1", ... of the data lines are pairwise distinct. */
  lemma RowIdsDistinct(rows: seq<seq<string>>, headers: seq<string>)
    ensures DistinctBy(RowVisitors(rows, headers), VisitorId)
  {
    var vs := RowVisitors(rows, headers);
    forall i, j | 0 <= i < j < |vs| ensures VisitorId(vs[i]) != VisitorId(vs[j]) {
      if VisitorId(vs[i]) == VisitorId(vs[j]) {
        var a, b := NatToString(i), NatToString(j);
        assert ("csv-" + a)[4..] == a;
        assert ("csv-" + b)[4..] == b;
        NatToStringInjective(i, j);
      }
    }
  }

  /** The visitors of a table form a fresh roster, no longer than its data lines. */
  lemma TableVisitorsFresh(t: Table)
    ensures FreshRoster(TableVisitors(t)) && |TableVisitors(t)| <= |t.rows|
  {
    var all := RowVisitors(t.rows, t.headers);
    RowIdsDistinct(t.rows, t.headers);
    FilterKeepsDistinct(all, Named, VisitorId);
  }

  /** Every successful upload is a fresh roster, no longer than its data lines. */
  lemma ParsedRosterFresh(text: string)
    ensures var r := ParseVisitors(text);
      r.Success? ==> FreshRoster(r.value) && |r.value| <= |NonBlankLines(text)| - 1
  {
    var t := ParseTable(text, RosterColumns);
    if t.Success? {
      TableVisitorsFresh(t.value);
    }
  }

  /** Each data line whose name cell is not empty becomes a visitor, and each
      visitor comes from such a line, with its trimmed cells by column name. */
  lemma TableVisitorsRows(t: Table)
    ensures var r := TableVisitors(t);
      && (forall i :: 0 <= i < |r| ==> exists k :: 0 <= k < |t.rows| && r[i] == RowVisitor(t.rows[k], t.headers, k))
      && (forall k :: 0 <= k < |t.rows| && Field(t.rows[k], t.headers, "이름") != "" ==>
            RowVisitor(t.rows[k], t.headers, k) in r)
  {
    var r := TableVisitors(t);
    var all := RowVisitors(t.rows, t.headers);
    forall i | 0 <= i < |r| ensures exists k :: 0 <= k < |t.rows| && r[i] == RowVisitor(t.rows[k], t.headers, k) {
      assert r[i] in all;
      var k :| 0 <= k < |all| && all[k] == r[i];
    }
    forall k | 0 <= k < |t.rows| && Field(t.rows[k], t.headers, "이름") != ""
      ensures RowVisitor(t.rows[k], t.headers, k) in r
    {
      assert Named(all[k]);
    }
  }

  // ---------------------------------------------------------------- template

  /** The lines of `downloadCSVTemplate`'s text, cell by cell. */
  const TemplateHong := ["홍길동", "마케팅팀", "팀장", "hong@example.com", "010-1234-5678"]
  const TemplateKim := ["김영희", "개발팀", "사원", "kim@example.com", "010-8765-4321"]

  /** "이름,소속,직급,이메일,연락처\n홍길동,마케팅팀,팀장,hong@example.com,010-1234-5678\n
      김영희,개발팀,사원,kim@example.com,010-8765-4321" (without the byte-order mark). */
  const TemplateCsv := Join([Join(RosterColumns, ','), Join(TemplateHong, ','), Join(TemplateKim, ',')], '\n')

  lemma TemplateRowsClean()
    ensures forall i :: 0 <= i < 5 ==> CleanField(RosterColumns[i])
    ensures forall i :: 0 <= i < 5 ==> CleanField(TemplateHong[i])
    ensures forall i :: 0 <= i < 5 ==> CleanField(TemplateKim[i])
  {
    RosterColumnsClean();
    TemplateHongClean();
    TemplateKimClean();
  }

  lemma RosterColumnsClean()
    ensures forall i :: 0 <= i < 5 ==> CleanField(RosterColumns[i])
  {
  }

  lemma TemplateHongClean()
    ensures forall i :: 0 <= i < 5 ==> CleanField(TemplateHong[i])
  {
  }

  lemma TemplateKimClean()
    ensures forall i :: 0 <= i < 5 ==> CleanField(TemplateKim[i])
  {
  }

  /** The positions of the five roster columns in a header that lists them first. */
  lemma RosterColumnsAt(headers: seq<string>)
    requires |headers| >= 5 && headers[..5] == RosterColumns
    ensures IndexOf(headers, "이름") == 0 && IndexOf(headers, "소속") == 1
    ensures IndexOf(headers, "직급") == 2 && IndexOf(headers, "이메일") == 3
    ensures IndexOf(headers, "연락처") == 4
    ensures HasColumns(headers, RosterColumns)
  {
    var c := RosterColumns;
    assert c[0] == "이름" && c[1] == "소속" && c[2] == "직급" && c[3] == "이메일" && c[4] == "연락처";
    assert c[0][0] == '이' && c[1][0] == '소' && c[2][0] == '직' && c[3][0] == '이' && c[4][0] == '연';
    assert |c[0]| == 2 && |c[3]| == 3;
    FiveDistinct(c[0], c[1], c[2], c[3], c[4]);
    assert c == [c[0], c[1], c[2], c[3], c[4]];
    LeadingColumns(headers, c);
    assert IndexOf(headers, c[0]) == 0;
    assert IndexOf(headers, c[1]) == 1;
    assert IndexOf(headers, c[2]) == 2;
    assert IndexOf(headers, c[3]) == 3;
    assert IndexOf(headers, c[4]) == 4;
  }

  /** A row under the roster header becomes the visitor of its five cells. */
  lemma RosterRowVisitor(values: seq<string>, headers: seq<string>, k: nat)
    requires |values| >= 5 && |headers| >= 5 && headers[..5] == RosterColumns
    ensures var u := RowVisitor(values, headers, k);
      u.name == values[0] && u.affiliation == values[1] && u.position == values[2] &&
      u.email == values[3] && u.contact == values[4]
  {
    RosterColumnsAt(headers);
  }

  /** A header line and two data lines of clean cells parse to those cells. */
  lemma ThreeLineTable(h: seq<string>, x: seq<string>, y: seq<string>, expected: seq<string>)
    requires |h| >= 1 && h[0] != "" && |x| >= 1 && x[0] != "" && |y| >= 1 && y[0] != ""
    requires forall i :: 0 <= i < |h| ==> CleanField(h[i])
    requires forall i :: 0 <= i < |x| ==> CleanField(x[i])
    requires forall i :: 0 <= i < |y| ==> CleanField(y[i])
    requires HasColumns(h, expected)
    ensures ParseTable(Join([Join(h, ','), Join(x, ','), Join(y, ',')], '\n'), expected) == Success(Table(h, [x, y]))
  {
    var lines := [Join(h, ','), Join(x, ','), Join(y, ',')];
    CleanLine(h);
    CleanLine(x);
    CleanLine(y);
    forall i | 0 <= i < 3 ensures '\n' !in lines[i] && NotBlank(lines[i]) {
      assert i == 0 || i == 1 || i == 2;
    }
    assert Cells(lines[0]) == h;
    ParseTableOfLines(lines, expected);
    assert DataRows(lines) == [x, y];
  }

  /** A header of clean cells that starts with the roster columns, followed by
      two lines of five clean cells with non-empty names, uploads as exactly two
      visitors carrying those names. */
  lemma TwoRowRoster(h: seq<string>, x: seq<string>, y: seq<string>)
    requires |h| >= 5 && h[..5] == RosterColumns
    requires |x| == 5 && x[0] != "" && |y| == 5 && y[0] != ""
    requires forall i :: 0 <= i < |h| ==> CleanField(h[i])
    requires forall i :: 0 <= i < 5 ==> CleanField(x[i]) && CleanField(y[i])
    ensures var r := ParseVisitors(Join([Join(h, ','), Join(x, ','), Join(y, ',')], '\n'));
      r.Success? && |r.value| == 2 && r.value[0].name == x[0] && r.value[1].name == y[0]
  {
    RosterColumnsAt(h);
    assert h[0] == "이름";
    ThreeLineTable(h, x, y, RosterColumns);
    var text := Join([Join(h, ','), Join(x, ','), Join(y, ',')], '\n');
    var t := Table(h, [x, y]);
    assert ParseTable(text, RosterColumns) == Success(t);
    var all := RowVisitors([x, y], h);
    RosterRowVisitor(x, h, 0);
    RosterRowVisitor(y, h, 1);
    assert all[0].name == x[0] && all[1].name == y[0];
    forall i | 0 <= i < |all| ensures Named(all[i]) {
      assert i == 0 || i == 1;
    }
    FilterAll(all, Named);
    assert ParseVisitors(text) == Success(all);
  }

  /** The template uploads as exactly its two sample visitors. */
  lemma TemplateParses()
    ensures var r := ParseVisitors(TemplateCsv);
      r.Success? && |r.value| == 2 && r.value[0].name == "홍길동" && r.value[1].name == "김영희"
  {
    TemplateRowsClean();
    TwoRowRoster(RosterColumns, TemplateHong, TemplateKim);
  }

  // ---------------------------------------------------------------- re-import of the report

  /** A visitor whose five contact fields survive the attendance report: each
      non-splitting and already trimmed, the name non-empty, and no line break
      in the memo. */
  predicate ExportSafe(v: Visitor) {
    && v.name != ""
    && CleanField(v.name) && CleanField(v.affiliation) && CleanField(v.position)
    && CleanField(v.email) && CleanField(v.contact)
    && '\n' !in v.memo
  }

  predicate SameContact(a: Visitor, b: Visitor) {
    a.name == b.name && a.affiliation == b.affiliation && a.position == b.position &&
    a.email == b.email && a.contact == b.contact
  }

  lemma ReportHeaderLine()
    ensures '\n' !in ReportHeader && NotBlank(ReportHeader)
    ensures Cells(ReportHeader) == ReportColumns && ReportColumns[..5] == RosterColumns
  {
    ReportHeaderAvoids();
    ReportHeaderCells();
    JoinStartsWithFirst(ReportColumns, ',');
    assert ReportHeader[0] == '이';
    NotBlankWhenHeadVisible(ReportHeader);
  }

  lemma ReportLineSafe(v: Visitor)
    requires ExportSafe(v)
    ensures '\n' !in ReportLine(v) && NotBlank(ReportLine(v))
  {
    AttendanceLabelClean(v);
    CheckedInTextClean(v);
    JoinedCellsLine(ReportFields(v));
  }

  /** The visitor read back from a report line keeps the five contact fields. */
  lemma ReportRowVisitor(v: Visitor, cols: seq<string>, k: nat)
    requires ExportSafe(v)
    requires |cols| >= 5 && cols[..5] == RosterColumns
    ensures var u := RowVisitor(Cells(ReportLine(v)), cols, k);
      SameContact(u, v) && Named(u)
  {
    ReportLineCells(v);
    TrimmedIsFixed(v.name);
    TrimmedIsFixed(v.affiliation);
    TrimmedIsFixed(v.position);
    TrimmedIsFixed(v.email);
    TrimmedIsFixed(v.contact);
    RosterRowVisitor(Cells(ReportLine(v)), cols, k);
  }

  /** Uploading an attendance report as a roster gives back every visitor's
      name, affiliation, position, e-mail and contact, in roster order. */
  lemma ReimportReport(vs: seq<Visitor>)
    requires |vs| >= 1
    requires forall i :: 0 <= i < |vs| ==> ExportSafe(vs[i])
    ensures var r := ParseVisitors(Report(vs));
      r.Success? && |r.value| == |vs| && forall i :: 0 <= i < |vs| ==> SameContact(r.value[i], vs[i])
  {
    ReportHeaderLine();
    ReimportLines(ReportHeader, ReportColumns, vs);
  }

  lemma ReportLinesSafe(header: string, vs: seq<Visitor>)
    requires '\n' !in header && NotBlank(header)
    requires forall i :: 0 <= i < |vs| ==> ExportSafe(vs[i])
    ensures var lines := [header] + ReportLines(vs);
      forall i :: 0 <= i < |lines| ==> '\n' !in lines[i] && NotBlank(lines[i])
  {
    var lines := [header] + ReportLines(vs);
    forall i | 0 <= i < |lines| ensures '\n' !in lines[i] && NotBlank(lines[i]) {
      if i == 0 {
        assert lines[i] == header;
      } else {
        assert lines[i] == ReportLine(vs[i - 1]);
        ReportLineSafe(vs[i - 1]);
      }
    }
  }

  /** The same, for any header line that reads as the report's columns. */
  lemma ReimportLines(header: string, cols: seq<string>, vs: seq<Visitor>)
    requires '\n' !in header && NotBlank(header)
    requires Cells(header) == cols && |cols| >= 5 && cols[..5] == RosterColumns
    requires |vs| >= 1
    requires forall i :: 0 <= i < |vs| ==> ExportSafe(vs[i])
    ensures var r := ParseVisitors(Join([header] + ReportLines(vs), '\n'));
      r.Success? && |r.value| == |vs| && forall i :: 0 <= i < |vs| ==> SameContact(r.value[i], vs[i])
  {
    var lines := [header] + ReportLines(vs);
    RosterColumnsAt(cols);
    ReportLinesSafe(header, vs);
    ParseTableOfLines(lines, RosterColumns);
    var rows := DataRows(lines);
    forall i | 0 <= i < |vs| ensures rows[i] == Cells(ReportLine(vs[i])) {
      assert lines[i + 1] == ReportLine(vs[i]);
    }
    ReportRowsVisitors(vs, cols, rows);
    assert ParseTable(Join(lines, '\n'), RosterColumns) == Success(Table(cols, rows));
  }

  /** The data rows of a report, read under the report's header, are its
      visitors in order. */
  lemma ReportRowsVisitors(vs: seq<Visitor>, cols: seq<string>, rows: seq<seq<string>>)
    requires |cols| >= 5 && cols[..5] == RosterColumns
    requires |rows| == |vs|
    requires forall i :: 0 <= i < |vs| ==> ExportSafe(vs[i]) && rows[i] == Cells(ReportLine(vs[i]))
    ensures var r := TableVisitors(Table(cols, rows));
      |r| == |vs| && forall i :: 0 <= i < |vs| ==> SameContact(r[i], vs[i])
  {
    var all := RowVisitors(rows, cols);
    forall i | 0 <= i < |vs| ensures SameContact(all[i], vs[i]) && Named(all[i]) {
      ReportRowVisitor(vs[i], cols, i);
    }
    forall x | x in all ensures Named(x) {
      var i :| 0 <= i < |all| && all[i] == x;
    }
    FilterAll(all, Named);
  }

  // ---------------------------------------------------------------- event status

  datatype EventStatus = Completed | InProgress | Upcoming

  /** The status badge: its status, its text and its colour. */
  datatype StatusInfo = StatusInfo(status: EventStatus, caption: string, color: string)

  /** `getEventStatus(event)`, with today's "YYYY-MM-DD" as a parameter. Dates
      are compared as strings. */
  function GetEventStatus(e: EventInfo, today: string): (s: StatusInfo)
    ensures s.color == (if s.status == InProgress then "bg-green-500"
                        else if s.status == Upcoming then "bg-yellow-500" else "bg-red-500")
  {
    if e.isClosed then StatusInfo(Completed, "마감", "bg-red-500")
    else if e.eventDate == today then StatusInfo(InProgress, "진행중", "bg-green-500")
    else if LexLess(today, e.eventDate) then StatusInfo(Upcoming, "예정", "bg-yellow-500")
    else StatusInfo(Completed, "종료", "bg-red-500")
  }

  /** A closed event is finished whatever its date; an open one is in progress
      on its day, upcoming before it and finished after it. */
  lemma EventStatusCases(e: EventInfo, today: string)
    ensures var s := GetEventStatus(e, today);
      && (e.isClosed ==> s.status == Completed && s.caption == "마감")
      && (s.status == InProgress <==> !e.isClosed && e.eventDate == today)
      && (s.status == Upcoming <==> !e.isClosed && LexLess(today, e.eventDate))
      && (!e.isClosed ==> (s.status == Completed <==> LexLess(e.eventDate, today)))
      && (s.caption == "종료" <==> !e.isClosed && LexLess(e.eventDate, today))
  {
    LexLessIrreflexive(today);
    if e.eventDate != today {
      LexLessTotal(e.eventDate, today);
      if LexLess(today, e.eventDate) && LexLess(e.eventDate, today) {
        LexLessTransitive(today, e.eventDate, today);
      }
    }
  }

  // ---------------------------------------------------------------- calendar

  /** `formatDate(year, month, day)` with the month counted from 0. */
  function FormatDate(year: nat, month: nat, day: nat): (s: string)
    ensures |s| > 0 && IsDigit(s[0])
  {
    NatToString(year) + "-" + Pad2(month + 1) + "-" + Pad2(day)
  }

  /** The formatted date splits on "-" into its year, month and day. */
  lemma FormatDateFields(year: nat, month: nat, day: nat)
    ensures Split(FormatDate(year, month, day), '-') == [NatToString(year), Pad2(month + 1), Pad2(day)]
  {
    DigitsAvoid(NatToString(year), '-');
    DigitsAvoid(Pad2(month + 1), '-');
    DigitsAvoid(Pad2(day), '-');
    Split3(NatToString(year), Pad2(month + 1), Pad2(day), '-');
  }

  /** Different calendar days get different keys. */
  lemma FormatDateInjective(y1: nat, m1: nat, d1: nat, y2: nat, m2: nat, d2: nat)
    requires m1 < 12 && m2 < 12 && d1 < 100 && d2 < 100
    requires FormatDate(y1, m1, d1) == FormatDate(y2, m2, d2)
    ensures y1 == y2 && m1 == m2 && d1 == d2
  {
    FormatDateFields(y1, m1, d1);
    FormatDateFields(y2, m2, d2);
    NatToStringInjective(y1, y2);
    Pad2Injective(m1 + 1, m2 + 1);
    Pad2Injective(d1, d2);
  }

  /** `getEventsForDate(dateStr)`. */
  function EventsForDate(events: seq<EventInfo>, date: string): seq<EventInfo> {
    Filter(events, (e: EventInfo) => e.eventDate == date)
  }

  /** The calendar cell lists exactly the events of its day. */
  lemma EventsForDateIff(events: seq<EventInfo>, date: string, e: EventInfo)
    ensures e in EventsForDate(events, date) <==> e in events && e.eventDate == date
  {
    var r := EventsForDate(events, date);
    if e in r {
      var i :| 0 <= i < |r| && r[i] == e;
    }
    if e in events && e.eventDate == date {
      var i :| 0 <= i < |events| && events[i] == e;
    }
  }

  /** `handleDateClick`: clicking the selected day clears the selection,
      clicking another day selects it. */
  function ToggleDate(selected: string, date: string): (r: string)
    ensures date != "" ==> (r == date <==> selected != date)
    ensures r == date || r == ""
  {
    if selected == date then "" else date
  }

  /** Clicking the same day twice restores a selection that was that day or
      empty. */
  lemma ToggleDateTwice(selected: string, date: string)
    requires date != "" && (selected == date || selected == "")
    ensures ToggleDate(ToggleDate(selected, date), date) == selected
  {
  }

  // ---------------------------------------------------------------- event creation

  /** The creation dialog's `formData`; "" is a field not filled in. */
  datatype EventForm = EventForm(
    managerName: string, managerAffiliation: string, eventDate: string,
    startTime: string, endTime: string, eventLocation: string, eventName: string)

  const EmptyEventForm := EventForm("", "", "", "", "", "", "")

  /** Manager, date and event name are filled in. */
  predicate EventFormComplete(f: EventForm) {
    f.managerName != "" && f.eventDate != "" && f.eventName != ""
  }

  /** The event `handleCreateEvent` builds from the form at time nowMs. */
  function NewEvent(f: EventForm, nowMs: nat, now: DateTime): (e: EventInfo)
    ensures e.id == NatToString(nowMs) && !e.isClosed && e.createdAt == now
    ensures e.managerName == f.managerName && e.managerAffiliation == f.managerAffiliation
    ensures e.eventDate == f.eventDate && e.eventName == f.eventName
    ensures e.startTime == f.startTime && e.endTime == f.endTime && e.eventLocation == f.eventLocation
  {
    EventInfo(NatToString(nowMs), f.managerName, f.managerAffiliation, f.eventDate,
      f.startTime, f.endTime, f.eventLocation, f.eventName, false, now)
  }

  /** The message of each upload outcome. */
  function UploadAlert(r: Result<seq<Visitor>, ImportError>): (a: Alert)
    ensures a.kind == (if r.Success? then AlertSuccess else AlertError)
  {
    match r
    case Success(vs) => Alert(AlertSuccess, NatToString(|vs|) + "명의 참석자 정보가 업로드되었습니다.")
    case Failure(NotCsvFile) => Alert(AlertError, "CSV 파일만 업로드 가능합니다.")
    case Failure(TooFewLines) => Alert(AlertError, "올바른 CSV 형식이 아닙니다.")
    case Failure(HeaderMismatch) => Alert(AlertError, "CSV 파일의 헤더가 올바르지 않습니다. (이름, 소속, 직급, 이메일, 연락처)")
  }

  /** The page state: the events and the roster handed up to the parent, and
      the page's own state. */
  datatype PageState = PageState(
    events: seq<EventInfo>,
    visitors: seq<Visitor>,
    selectedEvent: Option<EventInfo>,
    showCreateModal: bool,
    selectedCalendarDate: string,
    form: EventForm,
    uploadedVisitors: seq<Visitor>,
    alert: Option<Alert>)

  /** The page state after an upload with the given outcome: a refused file
      leaves the uploaded roster as it was. */
  function AfterUpload(st: PageState, r: Result<seq<Visitor>, ImportError>): PageState {
    match r
    case Success(vs) => st.(uploadedVisitors := vs, alert := Some(UploadAlert(r)))
    case Failure(_) => st.(alert := Some(UploadAlert(r)))
  }

  class EventSelectionPage {
    var events: seq<EventInfo>
    var visitors: seq<Visitor>
    var selectedEvent: Option<EventInfo>
    var showCreateModal: bool
    var selectedCalendarDate: string
    var form: EventForm
    var uploadedVisitors: seq<Visitor>
    var alert: Option<Alert>

    function Snapshot(): PageState
      reads this
    {
      PageState(events, visitors, selectedEvent, showCreateModal, selectedCalendarDate,
        form, uploadedVisitors, alert)
    }

    /** The uploaded roster and the roster handed up are fresh rosters, so the
        check-in desk can start from either. */
    ghost predicate Valid()
      reads this
    {
      FreshRoster(uploadedVisitors) && FreshRoster(visitors)
    }

    constructor (events: seq<EventInfo>)
      ensures Valid()
      ensures Snapshot() == PageState(events, [], None, false, "", EmptyEventForm, [], None)
    {
      this.events := events;
      visitors := [];
      selectedEvent := None;
      showCreateModal := false;
      selectedCalendarDate := "";
      form := EmptyEventForm;
      uploadedVisitors := [];
      alert := None;
    }

    /** `handleFileUpload`: no file chosen changes nothing. */
    method HandleFileUpload(file: Option<FileInput>)
      requires Valid()
      modifies this
      ensures Valid()
      ensures file.None? ==> Snapshot() == old(Snapshot())
      ensures file.Some? ==> Snapshot() == AfterUpload(old(Snapshot()), ImportRoster(file.value))
    {
      if file.Some? {
        var r := ImportRoster(file.value);
        if r.Success? {
          ParsedRosterFresh(file.value.text);
        }
        ShowUpload(r);
      }
    }

    method ShowUpload(r: Result<seq<Visitor>, ImportError>)
      requires Valid() && (r.Success? ==> FreshRoster(r.value))
      modifies this
      ensures Valid()
      ensures Snapshot() == AfterUpload(old(Snapshot()), r)
    {
      alert := Some(UploadAlert(r));
      if r.Success? {
        uploadedVisitors := r.value;
      }
    }

    /** `handleShowCreateModal`: the form starts with the default manager and
        the day selected on the calendar. */
    method HandleShowCreateModal()
      requires Valid()
      modifies this
      ensures Valid()
      ensures Snapshot() == old(Snapshot()).(
        form := EmptyEventForm.(managerName := "이학인", managerAffiliation := "사업기획팀",
          eventDate := old(selectedCalendarDate)),
        uploadedVisitors := [], showCreateModal := true)
    {
      form := EmptyEventForm.(managerName := "이학인", managerAffiliation := "사업기획팀",
        eventDate := selectedCalendarDate);
      uploadedVisitors := [];
      showCreateModal := true;
    }

    /** `handleCreateEvent`: an incomplete form or a missing roster creates
        nothing; otherwise exactly one open event is appended, it receives the
        uploaded roster and is opened. */
    method HandleCreateEvent(nowMs: nat, now: DateTime)
      requires Valid()
      modifies this
      ensures Valid()
      ensures !EventFormComplete(old(form)) ==>
        Snapshot() == old(Snapshot()).(alert := Some(Alert(AlertPrompt, "필수 항목을 모두 입력해주세요.")))
      ensures EventFormComplete(old(form)) && |old(uploadedVisitors)| == 0 ==>
        Snapshot() == old(Snapshot()).(alert := Some(Alert(AlertPrompt, "참석자 명단 CSV 파일을 업로드해주세요.")))
      ensures EventFormComplete(old(form)) && |old(uploadedVisitors)| > 0 ==>
        var e := NewEvent(old(form), nowMs, now);
        Snapshot() == old(Snapshot()).(events := old(events) + [e], visitors := old(uploadedVisitors),
          selectedEvent := Some(e), showCreateModal := false, form := EmptyEventForm,
          selectedCalendarDate := "", uploadedVisitors := [])
    {
      if !EventFormComplete(form) {
        alert := Some(Alert(AlertPrompt, "필수 항목을 모두 입력해주세요."));
        return;
      }
      if |uploadedVisitors| == 0 {
        alert := Some(Alert(AlertPrompt, "참석자 명단 CSV 파일을 업로드해주세요."));
        return;
      }
      var e := NewEvent(form, nowMs, now);
      events := events + [e];
      visitors := uploadedVisitors;
      showCreateModal := false;
      form := EmptyEventForm;
      selectedCalendarDate := "";
      uploadedVisitors := [];
      selectedEvent := Some(e);
    }

    /** `handleDateClick(dateStr)`. */
    method HandleDateClick(date: string)
      requires Valid()
      modifies this
      ensures Valid()
      ensures Snapshot() == old(Snapshot()).(selectedCalendarDate := ToggleDate(old(selectedCalendarDate), date))
    {
      selectedCalendarDate := if selectedCalendarDate == date then "" else date;
    }

    /** An input of the creation dialog: `setFormData({ ...formData, x: value })`. */
    method SetForm(f: EventForm)
      requires Valid()
      modifies this
      ensures Valid()
      ensures Snapshot() == old(Snapshot()).(form := f)
    {
      form := f;
    }

    /** The cancel button and the dialog's own close. */
    method SetShowCreateModal(show: bool)
      requires Valid()
      modifies this
      ensures Valid()
      ensures Snapshot() == old(Snapshot()).(showCreateModal := show)
    {
      showCreateModal := show;
    }
  }
}
