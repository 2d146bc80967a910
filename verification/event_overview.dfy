/** The check-in desk of one event (`app/components/event-overview.tsx`): a
    name search over the roster, check-in, on-site registration, editing,
    cancelling, closing the event, the attendance report, the counters and the
    nine-per-page list of checked-in visitors. */
module EventOverview {
  import opened Wrappers
  import opened Text
  import opened Seqs
  import opened Csv
  import opened Domain
  import Attendance

  // ---------------------------------------------------------------- formatDateTime

  /** `hours % 12 || 12`: the hour on a twelve-hour clock. */
  function DisplayHour(hours: nat): (h: nat)
    ensures 1 <= h <= 12
    ensures h % 12 == hours % 12
  {
    if hours % 12 == 0 then 12 else hours % 12
  }

  function Meridiem(hours: nat): string {
    if hours >= 12 then "오후" else "오전"
  }

  /** "YYYY-MM-DD" with the month counted from 1. */
  function DatePart(t: DateTime): string {
    NatToString(t.year) + "-" + Pad2(t.month + 1) + "-" + Pad2(t.day)
  }

  function ClockPart(t: DateTime): string {
    Pad2(DisplayHour(t.hours)) + ":" + Pad2(t.minutes) + ":" + Pad2(t.seconds)
  }

  /** `formatDateTime(date)`: "YYYY-MM-DD 오전|오후 hh:mm:ss". */
  function FormatDateTime(t: DateTime): (s: string)
    ensures |s| > 0 && IsDigit(s[0]) && IsDigit(s[|s| - 1])
  {
    DatePart(t) + " " + Meridiem(t.hours) + " " + ClockPart(t)
  }

  /** The formatted time has no character that would break a CSV line, and
      nothing for `trim()` to remove. */
  lemma FormatDateTimeIsClean(t: DateTime)
    ensures CleanField(FormatDateTime(t))
  {
    DatePartAvoids(t);
    ClockPartAvoids(t);
    var s := FormatDateTime(t);
    var d, m, c := DatePart(t), Meridiem(t.hours), ClockPart(t);
    assert s == d + [' '] + m + [' '] + c;
    assert !IsSpace(s[0]) && !IsSpace(s[|s| - 1]) by { VisibleEnds(s); }
    assert ',' !in m && '\n' !in m;
    CleanJoined(d, m, c, ' ', s);
  }

  lemma DatePartAvoids(t: DateTime)
    ensures ',' !in DatePart(t) && '\n' !in DatePart(t)
  {
    PartsAvoid(NatToString(t.year), Pad2(t.month + 1), Pad2(t.day), '-');
  }

  lemma ClockPartAvoids(t: DateTime)
    ensures ',' !in ClockPart(t) && '\n' !in ClockPart(t)
  {
    PartsAvoid(Pad2(DisplayHour(t.hours)), Pad2(t.minutes), Pad2(t.seconds), ':');
  }

  /** A string that starts and ends with a digit has nothing for `trim()` to remove. */
  lemma VisibleEnds(s: string)
    requires |s| > 0 && IsDigit(s[0]) && IsDigit(s[|s| - 1])
    ensures !IsSpace(s[0]) && !IsSpace(s[|s| - 1])
  {
  }

  /** Three pieces without commas or line breaks, joined by a separator that is
      neither, make a clean field when the outer ends are visible. */
  lemma CleanJoined(a: string, b: string, d: string, sep: char, s: string)
    requires s == a + [sep] + b + [sep] + d
    requires |s| > 0 && !IsSpace(s[0]) && !IsSpace(s[|s| - 1])
    requires ',' !in a && ',' !in b && ',' !in d && sep != ','
    requires '\n' !in a && '\n' !in b && '\n' !in d && sep != '\n'
    ensures CleanField(s)
  {
  }

  /** Three digit strings joined by a punctuation mark hold no comma and no
      line break. */
  lemma PartsAvoid(a: string, b: string, d: string, sep: char)
    requires AllDigits(a) && AllDigits(b) && AllDigits(d) && sep != ',' && sep != '\n'
    ensures ',' !in a + [sep] + b + [sep] + d
    ensures '\n' !in a + [sep] + b + [sep] + d
  {
    DigitsAvoid(a, ',');
    DigitsAvoid(b, ',');
    DigitsAvoid(d, ',');
    DigitsAvoid(a, '\n');
    DigitsAvoid(b, '\n');
    DigitsAvoid(d, '\n');
  }

  /** The formatted time is made of the date, the meridiem and the clock,
      and each of those of its two-digit (or year) fields. */
  lemma FormatDateTimeFields(t: DateTime)
    ensures Split(FormatDateTime(t), ' ') == [DatePart(t), Meridiem(t.hours), ClockPart(t)]
    ensures Split(DatePart(t), '-') == [NatToString(t.year), Pad2(t.month + 1), Pad2(t.day)]
    ensures Split(ClockPart(t), ':') == [Pad2(DisplayHour(t.hours)), Pad2(t.minutes), Pad2(t.seconds)]
  {
    DigitsAvoid(NatToString(t.year), ' ');
    DigitsAvoid(NatToString(t.year), '-');
    DigitsAvoid(Pad2(t.month + 1), ' ');
    DigitsAvoid(Pad2(t.month + 1), '-');
    DigitsAvoid(Pad2(t.day), ' ');
    DigitsAvoid(Pad2(t.day), '-');
    DigitsAvoid(Pad2(DisplayHour(t.hours)), ' ');
    DigitsAvoid(Pad2(DisplayHour(t.hours)), ':');
    DigitsAvoid(Pad2(t.minutes), ' ');
    DigitsAvoid(Pad2(t.minutes), ':');
    DigitsAvoid(Pad2(t.seconds), ' ');
    DigitsAvoid(Pad2(t.seconds), ':');
    Split3(NatToString(t.year), Pad2(t.month + 1), Pad2(t.day), '-');
    Split3(Pad2(DisplayHour(t.hours)), Pad2(t.minutes), Pad2(t.seconds), ':');
    Split3(DatePart(t), Meridiem(t.hours), ClockPart(t), ' ');
  }

  /** Within a day the meridiem and the twelve-hour display determine the hour:
      "오후" is shown exactly from 12 o'clock on. */
  lemma HourFromDisplay(h: nat)
    requires h < 24
    ensures Meridiem(h) == "오후" <==> h >= 12
    ensures h == (if Meridiem(h) == "오후" then 12 else 0) + DisplayHour(h) % 12
  {
  }

  /** Different valid times are never shown alike. */
  lemma FormatDateTimeInjective(t1: DateTime, t2: DateTime)
    requires ValidTime(t1) && ValidTime(t2)
    requires FormatDateTime(t1) == FormatDateTime(t2)
    ensures t1 == t2
  {
    FormatDateTimeFields(t1);
    FormatDateTimeFields(t2);
    NatToStringInjective(t1.year, t2.year);
    Pad2Injective(t1.month + 1, t2.month + 1);
    Pad2Injective(t1.day, t2.day);
    Pad2Injective(t1.minutes, t2.minutes);
    Pad2Injective(t1.seconds, t2.seconds);
    Pad2Injective(DisplayHour(t1.hours), DisplayHour(t2.hours));
    HourFromDisplay(t1.hours);
    HourFromDisplay(t2.hours);
  }

  // ---------------------------------------------------------------- search

  /** `v.name.toLowerCase().includes(query.toLowerCase())`. */
  predicate NameMatches(v: Visitor, query: string) {
    Contains(ToLower(v.name), ToLower(query))
  }

  predicate NotCheckedIn(v: Visitor) {
    !v.isCheckedIn
  }

  /** The results of a name search: the matching visitors not yet checked in,
      then the matching visitors already checked in. */
  function SearchResults(vs: seq<Visitor>, query: string): seq<Visitor> {
    var matches := (v: Visitor) => NameMatches(v, query);
    Filter(Filter(vs, NotCheckedIn), matches) + Filter(Filter(vs, IsCheckedIn), matches)
  }

  /** Everything the search finds is on the roster and matches. */
  lemma SearchSound(vs: seq<Visitor>, query: string)
    ensures var r := SearchResults(vs, query);
      forall i :: 0 <= i < |r| ==> r[i] in vs && NameMatches(r[i], query)
  {
  }

  /** Every matching visitor is found. */
  lemma SearchComplete(vs: seq<Visitor>, query: string)
    ensures var r := SearchResults(vs, query);
      forall i :: 0 <= i < |vs| && NameMatches(vs[i], query) ==> vs[i] in r
  {
    var matches := (v: Visitor) => NameMatches(v, query);
    var pending := Filter(Filter(vs, NotCheckedIn), matches);
    var done := Filter(Filter(vs, IsCheckedIn), matches);
    forall i | 0 <= i < |vs| && NameMatches(vs[i], query) ensures vs[i] in pending + done {
      if vs[i].isCheckedIn {
        var m :| 0 <= m < |Filter(vs, IsCheckedIn)| && Filter(vs, IsCheckedIn)[m] == vs[i];
        assert vs[i] in done;
      } else {
        var m :| 0 <= m < |Filter(vs, NotCheckedIn)| && Filter(vs, NotCheckedIn)[m] == vs[i];
        assert vs[i] in pending;
      }
    }
  }

  /** The results are the roster filtered once: the matching visitors not yet
      checked in in roster order, then the matching checked-in ones in roster order. */
  lemma SearchResultsOrder(vs: seq<Visitor>, query: string)
    ensures SearchResults(vs, query) ==
      Filter(vs, (v: Visitor) => !v.isCheckedIn && NameMatches(v, query))
      + Filter(vs, (v: Visitor) => v.isCheckedIn && NameMatches(v, query))
  {
    PendingGroup(vs, query);
    CheckedGroup(vs, query);
  }

  lemma PendingGroup(vs: seq<Visitor>, query: string)
    ensures Filter(Filter(vs, NotCheckedIn), (v: Visitor) => NameMatches(v, query))
      == Filter(vs, (v: Visitor) => !v.isCheckedIn && NameMatches(v, query))
  {
    var matches := (v: Visitor) => NameMatches(v, query);
    FilterFilter(vs, NotCheckedIn, matches);
    FilterCongruent(vs, (v: Visitor) => NotCheckedIn(v) && matches(v),
      (v: Visitor) => !v.isCheckedIn && NameMatches(v, query));
  }

  lemma CheckedGroup(vs: seq<Visitor>, query: string)
    ensures Filter(Filter(vs, IsCheckedIn), (v: Visitor) => NameMatches(v, query))
      == Filter(vs, (v: Visitor) => v.isCheckedIn && NameMatches(v, query))
  {
    var matches := (v: Visitor) => NameMatches(v, query);
    FilterFilter(vs, IsCheckedIn, matches);
    FilterCongruent(vs, (v: Visitor) => IsCheckedIn(v) && matches(v),
      (v: Visitor) => v.isCheckedIn && NameMatches(v, query));
  }

  /** Each matching roster entry appears in the results exactly as often as on
      the roster, and nothing else does. */
  lemma SearchExactlyOnce(vs: seq<Visitor>, query: string)
    ensures multiset(SearchResults(vs, query)) == multiset(Filter(vs, (v: Visitor) => NameMatches(v, query)))
  {
    var matches := (v: Visitor) => NameMatches(v, query);
    FilterFilter(vs, NotCheckedIn, matches);
    FilterFilter(vs, IsCheckedIn, matches);
    FilterPartition(vs, matches, IsCheckedIn, NotCheckedIn);
  }

  /** Visitors not yet checked in come before those already checked in. */
  lemma SearchPendingFirst(vs: seq<Visitor>, query: string)
    ensures var r := SearchResults(vs, query);
      forall i, j :: 0 <= i < j < |r| && !r[j].isCheckedIn ==> !r[i].isCheckedIn
  {
    var matches := (v: Visitor) => NameMatches(v, query);
    var pending := Filter(Filter(vs, NotCheckedIn), matches);
    var done := Filter(Filter(vs, IsCheckedIn), matches);
    forall k | 0 <= k < |pending| ensures !pending[k].isCheckedIn {
      assert pending[k] in Filter(vs, NotCheckedIn);
    }
    forall k | 0 <= k < |done| ensures done[k].isCheckedIn {
      assert done[k] in Filter(vs, IsCheckedIn);
    }
  }

  /** The search finds nothing exactly when no name on the roster matches. */
  lemma SearchEmptyIff(vs: seq<Visitor>, query: string)
    ensures |SearchResults(vs, query)| == 0 <==> forall i :: 0 <= i < |vs| ==> !NameMatches(vs[i], query)
  {
    var r := SearchResults(vs, query);
    SearchSound(vs, query);
    SearchComplete(vs, query);
    if |r| > 0 {
      assert r[0] in vs;
      var k :| 0 <= k < |vs| && vs[k] == r[0];
    }
  }

  // ---------------------------------------------------------------- roster updates

  /** The roster after checking in the visitor with this id at time now. */
  function MarkCheckedIn(vs: seq<Visitor>, id: string, now: DateTime): (r: seq<Visitor>)
    ensures |r| == |vs|
    ensures forall i :: 0 <= i < |vs| && vs[i].id != id ==> r[i] == vs[i]
    ensures forall i :: 0 <= i < |vs| && vs[i].id == id ==>
      r[i].isCheckedIn && r[i].checkedInAt == Some(now) &&
      r[i].(isCheckedIn := vs[i].isCheckedIn, checkedInAt := vs[i].checkedInAt) == vs[i]
    ensures AllWellFormed(vs) ==> AllWellFormed(r)
    ensures forall i :: 0 <= i < |vs| ==> r[i].id == vs[i].id
  {
    seq(|vs|, i requires 0 <= i < |vs| =>
      if vs[i].id == id then vs[i].(isCheckedIn := true, checkedInAt := Some(now)) else vs[i])
  }

  /** With distinct ids, checking in a visitor who was not checked in raises
      the number of checked-in visitors by exactly one. */
  lemma CheckInRaisesCount(vs: seq<Visitor>, k: nat, now: DateTime)
    requires DistinctBy(vs, VisitorId) && k < |vs| && !vs[k].isCheckedIn
    ensures |Filter(MarkCheckedIn(vs, vs[k].id, now), IsCheckedIn)| == |Filter(vs, IsCheckedIn)| + 1
  {
    var r := MarkCheckedIn(vs, vs[k].id, now);
    forall i | 0 <= i < |vs| && i != k ensures IsCheckedIn(vs[i]) <==> IsCheckedIn(r[i]) {
      assert VisitorId(vs[i]) != VisitorId(vs[k]);
    }
    CountBump(vs, r, IsCheckedIn, k);
  }

  /** The roster after the edited record replaces every record with its id. */
  function ReplaceById(vs: seq<Visitor>, e: Visitor): (r: seq<Visitor>)
    ensures |r| == |vs|
    ensures forall i :: 0 <= i < |vs| ==> r[i] == (if vs[i].id == e.id then e else vs[i])
    ensures AllWellFormed(vs) && WellFormed(e) ==> AllWellFormed(r)
    ensures forall i :: 0 <= i < |vs| ==> r[i].id == vs[i].id
  {
    seq(|vs|, i requires 0 <= i < |vs| => if vs[i].id == e.id then e else vs[i])
  }

  /** With distinct ids, an edit touches one position only. */
  lemma ReplaceByIdTouchesOne(vs: seq<Visitor>, k: nat, e: Visitor)
    requires DistinctBy(vs, VisitorId) && k < |vs| && vs[k].id == e.id
    ensures ReplaceById(vs, e) == vs[k := e]
  {
    var r := ReplaceById(vs, e);
    forall i | 0 <= i < |vs| ensures r[i] == vs[k := e][i] {
      if i != k {
        assert VisitorId(vs[i]) != VisitorId(vs[k]);
      }
    }
  }

  /** `visitors.filter((v) => v.id !== id)`: an on-site registration is removed. */
  function RemoveById(vs: seq<Visitor>, id: string): (r: seq<Visitor>)
    ensures forall i :: 0 <= i < |r| ==> r[i] in vs && r[i].id != id
    ensures forall i :: 0 <= i < |vs| && vs[i].id != id ==> vs[i] in r
  {
    Filter(vs, (v: Visitor) => v.id != id)
  }

  /** With distinct ids, removing a listed visitor shortens the roster by one. */
  lemma RemoveByIdDropsOne(vs: seq<Visitor>, k: nat)
    requires DistinctBy(vs, VisitorId) && k < |vs|
    ensures |RemoveById(vs, vs[k].id)| == |vs| - 1
  {
    var id := vs[k].id;
    forall i | 0 <= i < |vs| && i != k ensures vs[i].id != id {
      assert VisitorId(vs[i]) != VisitorId(vs[k]);
    }
    FilterDropsOne(vs, (v: Visitor) => v.id != id, k);
  }

  /** A pre-registered visitor's check-in is undone; the record stays. */
  function ResetById(vs: seq<Visitor>, id: string): (r: seq<Visitor>)
    ensures |r| == |vs|
    ensures forall i :: 0 <= i < |vs| && vs[i].id != id ==> r[i] == vs[i]
    ensures forall i :: 0 <= i < |vs| && vs[i].id == id ==>
      !r[i].isCheckedIn && r[i].checkedInAt == None &&
      r[i].(isCheckedIn := vs[i].isCheckedIn, checkedInAt := vs[i].checkedInAt) == vs[i]
    ensures forall i :: 0 <= i < |vs| ==> r[i].id == vs[i].id
  {
    seq(|vs|, i requires 0 <= i < |vs| =>
      if vs[i].id == id then vs[i].(isCheckedIn := false, checkedInAt := None) else vs[i])
  }

  // ---------------------------------------------------------------- forms

  /** The on-site registration form; "" is a field not filled in. */
  datatype OnSiteForm = OnSiteForm(
    name: string, affiliation: string, position: string, email: string, contact: string, category: string)

  const EmptyForm := OnSiteForm("", "", "", "", "", "")

  /** The inputs of the on-site and edit dialogs. */
  datatype FormField = NameField | AffiliationField | PositionField | EmailField | ContactField | CategoryField | MemoField

  /** All five required fields are non-empty (`!x` is false for each). */
  predicate FormComplete(f: OnSiteForm) {
    f.name != "" && f.affiliation != "" && f.position != "" && f.email != "" && f.contact != ""
  }

  predicate VisitorComplete(v: Visitor) {
    v.name != "" && v.affiliation != "" && v.position != "" && v.email != "" && v.contact != ""
  }

  /** `{ ...onSiteForm, [field]: value }`; the on-site dialog has no memo input. */
  function WithFormField(f: OnSiteForm, field: FormField, value: string): (r: OnSiteForm)
    requires field != MemoField
    ensures field == NameField ==> r == f.(name := value)
    ensures field == AffiliationField ==> r == f.(affiliation := value)
    ensures field == PositionField ==> r == f.(position := value)
    ensures field == EmailField ==> r == f.(email := value)
    ensures field == ContactField ==> r == f.(contact := value)
    ensures field == CategoryField ==> r == f.(category := value)
  {
    match field
    case NameField => f.(name := value)
    case AffiliationField => f.(affiliation := value)
    case PositionField => f.(position := value)
    case EmailField => f.(email := value)
    case ContactField => f.(contact := value)
    case CategoryField => f.(category := value)
  }

  /** `{ ...editingVisitor, [field]: value }`: one text field changes, the
      id and the check-in state do not. */
  function WithVisitorField(v: Visitor, field: FormField, value: string): (r: Visitor)
    ensures r.id == v.id && r.isCheckedIn == v.isCheckedIn && r.isOnSite == v.isOnSite
    ensures r.checkedInAt == v.checkedInAt
    ensures WellFormed(v) ==> WellFormed(r)
  {
    match field
    case NameField => v.(name := value)
    case AffiliationField => v.(affiliation := value)
    case PositionField => v.(position := value)
    case EmailField => v.(email := value)
    case ContactField => v.(contact := value)
    case CategoryField => v.(category := value)
    case MemoField => v.(memo := value)
  }

  function OnSiteId(nowMs: nat): string {
    "onsite-" + NatToString(nowMs)
  }

  /** The record an on-site registration appends. */
  function NewOnSiteVisitor(f: OnSiteForm, nowMs: nat, now: DateTime): (v: Visitor)
    ensures WellFormed(v) && v.isOnSite && v.isCheckedIn && v.checkedInAt == Some(now)
    ensures v.id == OnSiteId(nowMs) && v.memo == ""
    ensures v.name == f.name && v.affiliation == f.affiliation && v.position == f.position
    ensures v.email == f.email && v.contact == f.contact
    ensures v.category == (if f.category == "" then "일반" else f.category)
  {
    Visitor(OnSiteId(nowMs), f.name, f.affiliation, f.position, f.email, f.contact,
      true, true, Some(now), "", if f.category == "" then "일반" else f.category)
  }

  // ---------------------------------------------------------------- report

  const ReportColumns := ["이름", "소속", "직급", "이메일", "연락처", "참석여부", "참석시간", "메모"]
  /** "이름,소속,직급,이메일,연락처,참석여부,참석시간,메모". */
  const ReportHeader := Join(ReportColumns, ',')

  function AttendanceLabel(v: Visitor): string {
    if v.isCheckedIn then "참석" else "미참석"
  }

  function CheckedInText(v: Visitor): string {
    if v.checkedInAt.Some? then FormatDateTime(v.checkedInAt.value) else ""
  }

  function ReportFields(v: Visitor): (fields: seq<string>)
    ensures |fields| == 8
  {
    [v.name, v.affiliation, v.position, v.email, v.contact, AttendanceLabel(v), CheckedInText(v), v.memo]
  }

  /** One report line per visitor. */
  function ReportLine(v: Visitor): string {
    Join(ReportFields(v), ',')
  }

  function ReportLines(vs: seq<Visitor>): (lines: seq<string>)
    ensures |lines| == |vs|
    ensures forall i :: 0 <= i < |vs| ==> lines[i] == ReportLine(vs[i])
  {
    seq(|vs|, i requires 0 <= i < |vs| => ReportLine(vs[i]))
  }

  /** `downloadAttendanceReport`'s text (without the byte-order mark). */
  function Report(vs: seq<Visitor>): string {
    Join([ReportHeader] + ReportLines(vs), '\n')
  }

  /** The header reads back as its eight column names. */
  lemma ReportHeaderCells()
    ensures Cells(ReportHeader) == ReportColumns
  {
    CellsOfJoin(ReportColumns);
  }

  /** Visitors without line breaks in their text fields give exactly one
      report line each, after the header, in roster order. */
  lemma ReportLinesSplit(vs: seq<Visitor>)
    requires forall i :: 0 <= i < |vs| ==> forall k :: 0 <= k < 8 ==> '\n' !in ReportFields(vs[i])[k]
    ensures Split(Report(vs), '\n') == [ReportHeader] + ReportLines(vs)
  {
    var lines := [ReportHeader] + ReportLines(vs);
    forall i | 0 <= i < |lines| ensures '\n' !in lines[i] {
      if i == 0 {
        ReportHeaderAvoids();
      } else {
        ReportLineAvoids(vs[i - 1]);
      }
    }
    SplitJoin(lines, '\n');
  }

  lemma ReportHeaderAvoids()
    ensures '\n' !in ReportHeader
  {
    JoinAvoids(ReportColumns, ',', '\n');
  }

  lemma ReportLineAvoids(v: Visitor)
    requires forall k :: 0 <= k < 8 ==> '\n' !in ReportFields(v)[k]
    ensures '\n' !in ReportLine(v)
  {
    JoinAvoids(ReportFields(v), ',', '\n');
  }

  /** Read back with `split(",")` and `trim()`, a report line shows "참석"
      exactly for a checked-in visitor and an empty time exactly for a visitor
      without a check-in time, provided the five contact fields hold no comma.
      The memo comes last, so a comma in it only adds cells at the end. */
  lemma ReportLineCells(v: Visitor)
    requires ',' !in v.name && ',' !in v.affiliation && ',' !in v.position
    requires ',' !in v.email && ',' !in v.contact
    ensures var cells := Cells(ReportLine(v));
      && |cells| >= 8
      && cells[0] == Trim(v.name) && cells[1] == Trim(v.affiliation) && cells[2] == Trim(v.position)
      && cells[3] == Trim(v.email) && cells[4] == Trim(v.contact)
      && (cells[5] == "참석" <==> v.isCheckedIn)
      && (cells[6] == "" <==> v.checkedInAt.None?)
  {
    AttendanceLabelClean(v);
    CheckedInTextClean(v);
    ReportLineFields(v);
  }

  /** The cells of a report line are its fields, the first five trimmed. */
  lemma ReportLineFields(v: Visitor)
    requires ',' !in v.name && ',' !in v.affiliation && ',' !in v.position
    requires ',' !in v.email && ',' !in v.contact
    ensures var cells := Cells(ReportLine(v));
      && |cells| >= 8
      && cells[0] == Trim(v.name) && cells[1] == Trim(v.affiliation) && cells[2] == Trim(v.position)
      && cells[3] == Trim(v.email) && cells[4] == Trim(v.contact)
      && cells[5] == AttendanceLabel(v) && cells[6] == CheckedInText(v)
  {
    var f := ReportFields(v);
    assert f[5] == AttendanceLabel(v) && f[6] == CheckedInText(v);
    AttendanceLabelClean(v);
    CheckedInTextClean(v);
    EightCells(f);
    assert f[0] == v.name && f[1] == v.affiliation && f[2] == v.position;
    assert f[3] == v.email && f[4] == v.contact;
  }

  /** Eight fields written with "," read back trimmed, the sixth and seventh
      exactly when clean, whatever commas the last one holds. */
  lemma EightCells(fields: seq<string>)
    requires |fields| == 8
    requires forall i :: 0 <= i < 5 ==> ',' !in fields[i]
    requires CleanField(fields[5]) && CleanField(fields[6])
    ensures |Cells(Join(fields, ','))| >= 8
    ensures Cells(Join(fields, ','))[0] == Trim(fields[0]) && Cells(Join(fields, ','))[1] == Trim(fields[1])
    ensures Cells(Join(fields, ','))[2] == Trim(fields[2]) && Cells(Join(fields, ','))[3] == Trim(fields[3])
    ensures Cells(Join(fields, ','))[4] == Trim(fields[4])
    ensures Cells(Join(fields, ','))[5] == fields[5] && Cells(Join(fields, ','))[6] == fields[6]
  {
    CellsOfJoinFront(fields);
    TrimmedIsFixed(fields[5]);
    TrimmedIsFixed(fields[6]);
  }

  lemma AttendanceLabelClean(v: Visitor)
    ensures CleanField(AttendanceLabel(v))
    ensures AttendanceLabel(v) == "참석" <==> v.isCheckedIn
  {
  }

  lemma CheckedInTextClean(v: Visitor)
    ensures CleanField(CheckedInText(v))
    ensures CheckedInText(v) == "" <==> v.checkedInAt.None?
  {
    if v.checkedInAt.Some? {
      FormatDateTimeIsClean(v.checkedInAt.value);
    }
  }

  // ---------------------------------------------------------------- counters

  datatype Stats = Stats(total: nat, checkedIn: nat, onSite: nat, allCheckedIn: nat)

  /** `stats`: all visitors, pre-registered visitors checked in, on-site
      registrations, and everyone checked in. */
  function ComputeStats(vs: seq<Visitor>): (s: Stats)
    ensures s.total == |vs| && s.allCheckedIn <= s.total && s.onSite <= s.total
  {
    Stats(|vs|, |Filter(vs, IsPreRegisteredCheckedIn)|, |Filter(vs, IsOnSite)|, |Filter(vs, IsCheckedIn)|)
  }

  /** On a well-formed roster the two kinds of attendee add up to everyone
      checked in. */
  lemma StatsConsistent(vs: seq<Visitor>)
    requires AllWellFormed(vs)
    ensures var s := ComputeStats(vs); s.checkedIn + s.onSite == s.allCheckedIn <= s.total
  {
    forall x | x in vs
      ensures (IsCheckedIn(x) <==> IsPreRegisteredCheckedIn(x) || IsOnSite(x))
           && !(IsPreRegisteredCheckedIn(x) && IsOnSite(x))
    {
      var k :| 0 <= k < |vs| && vs[k] == x;
      assert WellFormed(vs[k]);
    }
    CountSplit(vs, IsCheckedIn, IsPreRegisteredCheckedIn, IsOnSite);
  }

  datatype Ratio = Ratio(preRegistered: nat, onSite: nat)

  /** `Math.round((part / whole) * 100)`, rounding halves up. */
  function RoundedPercent(part: nat, whole: nat): nat
    requires whole > 0
  {
    (200 * part + whole) / (2 * whole)
  }

  /** `getAttendanceRatio()`: both shares are 0 while nobody is checked in. */
  function AttendanceRatio(s: Stats): (r: Ratio)
    ensures s.allCheckedIn == 0 ==> r == Ratio(0, 0)
  {
    if s.allCheckedIn == 0 then Ratio(0, 0)
    else Ratio(RoundedPercent(s.checkedIn, s.allCheckedIn), RoundedPercent(s.onSite, s.allCheckedIn))
  }

  /** On a well-formed roster both shares are percentages; a share is 0 when
      its group is empty and 100 when it is everyone checked in. */
  lemma RatioBounds(vs: seq<Visitor>)
    requires AllWellFormed(vs)
    ensures var s, r := ComputeStats(vs), AttendanceRatio(ComputeStats(vs));
      && r.preRegistered <= 100 && r.onSite <= 100
      && (s.checkedIn == 0 ==> r.preRegistered == 0) && (s.onSite == 0 ==> r.onSite == 0)
      && (0 < s.allCheckedIn == s.onSite ==> r.onSite == 100)
      && (0 < s.allCheckedIn == s.checkedIn ==> r.preRegistered == 100)
  {
    var s := ComputeStats(vs);
    StatsConsistent(vs);
    if s.allCheckedIn > 0 {
      Attendance.RoundedPercentBounds(s.checkedIn, s.allCheckedIn);
      Attendance.RoundedPercentBounds(s.onSite, s.allCheckedIn);
    }
  }

  // ---------------------------------------------------------------- pagination

  // `itemsPerPage` is 9; it is written out below so that the page arithmetic
  // stays linear.

  /** `Math.ceil(n / itemsPerPage)`. */
  function TotalPages(n: nat): (p: nat)
    ensures p * 9 >= n
    ensures p > 0 ==> (p - 1) * 9 < n
    ensures p == 0 <==> n == 0
  {
    (n + 9 - 1) / 9
  }

  function Min(a: nat, b: nat): nat {
    if a <= b then a else b
  }

  /** `list.slice((page - 1) * 9, (page - 1) * 9 + 9)`. */
  function Page<T>(list: seq<T>, page: nat): (r: seq<T>)
    requires page >= 1
    ensures |r| <= 9
  {
    var start := (page - 1) * 9;
    if start >= |list| then [] else list[start..Min(start + 9, |list|)]
  }

  /** Pages 1 to k laid end to end. */
  function PagesUpTo<T>(list: seq<T>, k: nat): seq<T>
    decreases k
  {
    if k == 0 then [] else PagesUpTo(list, k - 1) + Page(list, k)
  }

  lemma {:induction false} PagesUpToIsPrefix<T>(list: seq<T>, k: nat)
    ensures PagesUpTo(list, k) == list[..Min(k * 9, |list|)]
    decreases k
  {
    if k > 0 {
      PagesUpToIsPrefix(list, k - 1);
      var a := Min((k - 1) * 9, |list|);
      var b := Min(k * 9, |list|);
      assert (k - 1) * 9 + 9 == k * 9;
      assert a <= b;
      assert Page(list, k) == list[a..b];
      assert PagesUpTo(list, k) == list[..a] + list[a..b];
      assert list[..a] + list[a..b] == list[..b];
    }
  }

  /** Pages 1 to totalPages show every checked-in visitor once, in order. */
  lemma PagesPartition<T>(list: seq<T>)
    ensures PagesUpTo(list, TotalPages(|list|)) == list
  {
    PagesUpToIsPrefix(list, TotalPages(|list|));
  }

  /** Every page from 1 to totalPages has someone on it. */
  lemma PagesNonEmpty<T>(list: seq<T>, page: nat)
    requires 1 <= page <= TotalPages(|list|)
    ensures |Page(list, page)| >= 1
  {
  }

  /** `Math.max(prev - 1, 1)`. */
  function PrevPage(p: nat): (q: nat)
    ensures q >= 1 && (p >= 1 ==> q <= p)
    ensures p > 1 ==> q == p - 1
  {
    if p > 1 then p - 1 else 1
  }

  /** `Math.min(prev + 1, totalPages)`. */
  function NextPage(p: nat, total: nat): (q: nat)
    ensures q <= total
    ensures total >= 1 ==> q >= 1
    ensures p < total ==> q == p + 1
  {
    if p + 1 <= total then p + 1 else total
  }

  // ---------------------------------------------------------------- component

  /** What a search submission leads to. */
  datatype SearchOutcome =
    | BlankQuery                   // an error banner asks for a name
    | NoMatch(name: string)        // the on-site form opens, pre-filled
    | Found(results: seq<Visitor>) // the results are listed

  /** `handleSearch`'s decision: a blank query is refused; a query nobody's
      name contains opens on-site registration with the trimmed query as the
      name; otherwise the results are shown. */
  function SearchStep(vs: seq<Visitor>, query: string): (o: SearchOutcome)
    ensures o.BlankQuery? <==> IsBlank(query)
    ensures o.NoMatch? <==> !IsBlank(query) && |SearchResults(vs, query)| == 0
    ensures o.NoMatch? ==> o.name == Trim(query) && o.name != ""
    ensures o.Found? ==> o.results == SearchResults(vs, query) && |o.results| > 0
  {
    var trimmed := Trim(query);
    BlankIffTrimEmpty(query);
    if trimmed == "" then BlankQuery
    else
      var results := SearchResults(vs, query);
      if |results| == 0 then NoMatch(trimmed) else Found(results)
  }

  /** The component state, gathered to state what each handler changes. */
  datatype State = State(
    event: EventInfo,
    visitors: seq<Visitor>,
    searchName: string,
    searchResults: seq<Visitor>,
    showOnSiteModal: bool,
    onSiteForm: OnSiteForm,
    showEditModal: bool,
    editingVisitor: Option<Visitor>,
    alert: Option<Alert>,
    currentPage: nat)

  /** The component state after a search with the given outcome. */
  function AfterSearch(st: State, o: SearchOutcome): State {
    match o
    case BlankQuery => st.(alert := Some(Alert(AlertError, "이름을 입력하세요.")))
    case NoMatch(name) => st.(showOnSiteModal := true, onSiteForm := EmptyForm.(name := name, category := "일반"))
    case Found(results) => st.(searchResults := results)
  }

  class Overview {
    var event: EventInfo
    var visitors: seq<Visitor>
    var searchName: string
    var searchResults: seq<Visitor>
    var showOnSiteModal: bool
    var onSiteForm: OnSiteForm
    var showEditModal: bool
    var editingVisitor: Option<Visitor>
    var alert: Option<Alert>
    var currentPage: nat

    function Snapshot(): State
      reads this
    {
      State(event, visitors, searchName, searchResults, showOnSiteModal, onSiteForm,
        showEditModal, editingVisitor, alert, currentPage)
    }

    /** Every visitor well formed, the record being edited well formed, and
        pages counted from 1. */
    ghost predicate Valid()
      reads this
    {
      && AllWellFormed(visitors)
      && (editingVisitor.Some? ==> WellFormed(editingVisitor.value))
      && currentPage >= 1
    }

    /** No two visitors share an id. The handlers keep this, except an on-site
        registration at a clock reading whose id is already listed. */
    ghost predicate IdsDistinct()
      reads this
    {
      DistinctBy(visitors, VisitorId)
    }

    constructor (event: EventInfo, visitors: seq<Visitor>)
      requires AllWellFormed(visitors)
      ensures Valid()
      ensures Snapshot() == State(event, visitors, "", [], false, EmptyForm, false, None, None, 1)
    {
      this.event := event;
      this.visitors := visitors;
      searchName := "";
      searchResults := [];
      showOnSiteModal := false;
      onSiteForm := EmptyForm;
      showEditModal := false;
      editingVisitor := None;
      alert := None;
      currentPage := 1;
    }

    /** The checked-in visitors, the list the pages are cut from. */
    function CheckedInVisitors(): seq<Visitor>
      reads this
    {
      Filter(visitors, IsCheckedIn)
    }

    /** The search box's change handler. */
    method SetSearchName(s: string)
      requires Valid() && !event.isClosed
      modifies this
      ensures Valid()
      ensures Snapshot() == old(Snapshot()).(searchName := s)
    {
      searchName := s;
    }

    /** `handleSearch`. */
    method HandleSearch()
      requires Valid() && !event.isClosed
      modifies this
      ensures Valid()
      ensures Snapshot() == AfterSearch(old(Snapshot()), SearchStep(old(visitors), old(searchName)))
    {
      var outcome := SearchStep(visitors, searchName);
      ShowOutcome(outcome);
    }

    /** The state change of each search outcome. */
    method ShowOutcome(outcome: SearchOutcome)
      requires Valid() && !event.isClosed
      modifies this
      ensures Valid()
      ensures Snapshot() == AfterSearch(old(Snapshot()), outcome)
    {
      match outcome {
        case BlankQuery =>
          alert := Some(Alert(AlertError, "이름을 입력하세요."));
        case NoMatch(name) =>
          showOnSiteModal := true;
          onSiteForm := EmptyForm.(name := name, category := "일반");
        case Found(results) =>
          searchResults := results;
      }
    }

    /** `handleCheckIn(visitor)`: the guard reads the visitor as listed in the
        search results; the update applies to the roster's record with its id. */
    method CheckIn(v: Visitor, now: DateTime)
      requires Valid() && !event.isClosed
      modifies this
      ensures Valid()
      ensures v.isCheckedIn ==>
        Snapshot() == old(Snapshot()).(alert := Some(Alert(AlertError, "이미 참석완료한 참석자입니다.")))
      ensures !v.isCheckedIn ==>
        Snapshot() == old(Snapshot()).(visitors := MarkCheckedIn(old(visitors), v.id, now),
          searchName := "", searchResults := [],
          alert := Some(Alert(AlertSuccess, v.name + "님의 참석이 완료되었습니다.")))
      ensures old(IdsDistinct()) ==> IdsDistinct()
    {
      if v.isCheckedIn {
        alert := Some(Alert(AlertError, "이미 참석완료한 참석자입니다."));
        return;
      }
      visitors := MarkCheckedIn(visitors, v.id, now);
      searchName := "";
      searchResults := [];
      alert := Some(Alert(AlertSuccess, v.name + "님의 참석이 완료되었습니다."));
    }

    /** The on-site dialog's inputs and category buttons. */
    method SetOnSiteField(field: FormField, value: string)
      requires Valid() && field != MemoField
      modifies this
      ensures Valid()
      ensures Snapshot() == old(Snapshot()).(onSiteForm := WithFormField(old(onSiteForm), field, value))
    {
      onSiteForm := WithFormField(onSiteForm, field, value);
    }

    /** `handleOnSiteRegistration`; the id is "onsite-" and the clock's
        milliseconds. The ids stay distinct when that id is fresh; a clock
        reading whose id is already listed yields a duplicate id. */
    method RegisterOnSite(nowMs: nat, now: DateTime)
      requires Valid() && !event.isClosed
      modifies this
      ensures Valid()
      ensures old(IdsDistinct()) && (forall i :: 0 <= i < |old(visitors)| ==> old(visitors)[i].id != OnSiteId(nowMs))
        ==> IdsDistinct()
      ensures FormComplete(old(onSiteForm)) && (exists i :: 0 <= i < |old(visitors)| && old(visitors)[i].id == OnSiteId(nowMs))
        ==> !IdsDistinct()
      ensures !FormComplete(old(onSiteForm)) ==>
        Snapshot() == old(Snapshot()).(alert := Some(Alert(AlertError, "모든 필드를 입력해주세요.")))
      ensures FormComplete(old(onSiteForm)) ==>
        Snapshot() == old(Snapshot()).(
          visitors := old(visitors) + [NewOnSiteVisitor(old(onSiteForm), nowMs, now)],
          showOnSiteModal := false, onSiteForm := EmptyForm, searchName := "", searchResults := [],
          alert := Some(Alert(AlertOnSite, old(onSiteForm).name + "님의 현장 등록이 완료되었습니다.")))
    {
      if !FormComplete(onSiteForm) {
        alert := Some(Alert(AlertError, "모든 필드를 입력해주세요."));
        return;
      }
      var nv := NewOnSiteVisitor(onSiteForm, nowMs, now);
      var vs := visitors + [nv];
      if exists i :: 0 <= i < |visitors| && visitors[i].id == nv.id {
        var i :| 0 <= i < |visitors| && visitors[i].id == nv.id;
        assert VisitorId(vs[i]) == VisitorId(vs[|visitors|]);
      } else if DistinctBy(visitors, VisitorId) {
        forall i, j | 0 <= i < j < |vs| ensures VisitorId(vs[i]) != VisitorId(vs[j]) {
          if j < |visitors| {
            assert VisitorId(visitors[i]) != VisitorId(visitors[j]);
          }
        }
      }
      visitors := vs;
      showOnSiteModal := false;
      alert := Some(Alert(AlertOnSite, onSiteForm.name + "님의 현장 등록이 완료되었습니다."));
      onSiteForm := EmptyForm;
      searchName := "";
      searchResults := [];
    }

    /** `handleEditVisitor(visitor)` on a listed visitor. */
    method EditVisitor(v: Visitor)
      requires Valid() && !event.isClosed && v in visitors
      modifies this
      ensures Valid()
      ensures Snapshot() == old(Snapshot()).(
        editingVisitor := Some(v.(category := if v.category == "" then "일반" else v.category)),
        showEditModal := true)
    {
      editingVisitor := Some(v.(category := if v.category == "" then "일반" else v.category));
      showEditModal := true;
    }

    /** The edit dialog's inputs and category buttons. */
    method SetEditingField(field: FormField, value: string)
      requires Valid() && editingVisitor.Some?
      modifies this
      ensures Valid()
      ensures Snapshot() == old(Snapshot()).(
        editingVisitor := Some(WithVisitorField(old(editingVisitor).value, field, value)))
    {
      editingVisitor := Some(WithVisitorField(editingVisitor.value, field, value));
    }

    /** `handleUpdateVisitor`. */
    method UpdateVisitor()
      requires Valid() && !event.isClosed
      modifies this
      ensures Valid()
      ensures old(editingVisitor).None? ==> Snapshot() == old(Snapshot())
      ensures old(editingVisitor).Some? && !VisitorComplete(old(editingVisitor).value) ==>
        Snapshot() == old(Snapshot()).(alert := Some(Alert(AlertError, "모든 필드를 입력해주세요.")))
      ensures old(editingVisitor).Some? && VisitorComplete(old(editingVisitor).value) ==>
        Snapshot() == old(Snapshot()).(
          visitors := ReplaceById(old(visitors), old(editingVisitor).value),
          showEditModal := false, editingVisitor := None,
          alert := Some(Alert(AlertSuccess, old(editingVisitor).value.name + "님의 정보가 수정되었습니다.")))
      ensures old(IdsDistinct()) ==> IdsDistinct()
    {
      if editingVisitor.None? {
        return;
      }
      var e := editingVisitor.value;
      if !VisitorComplete(e) {
        alert := Some(Alert(AlertError, "모든 필드를 입력해주세요."));
        return;
      }
      var vs := ReplaceById(visitors, e);
      if DistinctBy(visitors, VisitorId) {
        forall i, j | 0 <= i < j < |vs| ensures VisitorId(vs[i]) != VisitorId(vs[j]) {
          assert VisitorId(visitors[i]) != VisitorId(visitors[j]);
        }
      }
      visitors := vs;
      showEditModal := false;
      editingVisitor := None;
      alert := Some(Alert(AlertSuccess, e.name + "님의 정보가 수정되었습니다."));
    }

    /** `handleDeleteVisitor(visitor)` on a listed visitor, with the answer to
        the confirmation box. The ids must be distinct: a reset by a shared id
        would also leave an on-site record with that id not checked in. */
    method DeleteVisitor(v: Visitor, confirmed: bool)
      requires Valid() && IdsDistinct() && !event.isClosed && v in visitors
      modifies this
      ensures Valid() && IdsDistinct()
      ensures !confirmed ==> Snapshot() == old(Snapshot())
      ensures confirmed && v.isOnSite ==>
        Snapshot() == old(Snapshot()).(visitors := RemoveById(old(visitors), v.id),
          alert := Some(Alert(AlertError, v.name + "님의 참석이 취소되었습니다.")))
      ensures confirmed && !v.isOnSite ==>
        Snapshot() == old(Snapshot()).(visitors := ResetById(old(visitors), v.id),
          alert := Some(Alert(AlertError, v.name + "님의 참석이 취소되었습니다.")))
    {
      if !confirmed {
        return;
      }
      var k :| 0 <= k < |visitors| && visitors[k] == v;
      if v.isOnSite {
        var vs := RemoveById(visitors, v.id);
        FilterKeepsDistinct(visitors, (w: Visitor) => w.id != v.id, VisitorId);
        forall i | 0 <= i < |vs| ensures WellFormed(vs[i]) {
          assert vs[i] in visitors;
        }
        visitors := vs;
      } else {
        var vs := ResetById(visitors, v.id);
        forall i | 0 <= i < |vs| ensures WellFormed(vs[i]) {
          if i != k {
            assert VisitorId(visitors[i]) != VisitorId(visitors[k]);
          }
        }
        forall i, j | 0 <= i < j < |vs| ensures VisitorId(vs[i]) != VisitorId(vs[j]) {
          assert VisitorId(visitors[i]) != VisitorId(visitors[j]);
        }
        visitors := vs;
      }
      alert := Some(Alert(AlertError, v.name + "님의 참석이 취소되었습니다."));
    }

    /** `handleCloseEvent`, with the answer to the confirmation box. After it
        no mutating handler may run. */
    method CloseEvent(confirmed: bool)
      requires Valid() && !event.isClosed
      modifies this
      ensures Valid()
      ensures !confirmed ==> Snapshot() == old(Snapshot())
      ensures confirmed ==> event.isClosed
      ensures confirmed ==>
        Snapshot() == old(Snapshot()).(event := old(event).(isClosed := true),
          alert := Some(Alert(AlertSuccess, "이벤트가 마감되었습니다.")))
    {
      if confirmed {
        event := event.(isClosed := true);
        alert := Some(Alert(AlertSuccess, "이벤트가 마감되었습니다."));
      }
    }

    /** The previous-page button. */
    method GoToPreviousPage()
      requires Valid()
      modifies this
      ensures Valid()
      ensures Snapshot() == old(Snapshot()).(currentPage := PrevPage(old(currentPage)))
    {
      currentPage := PrevPage(currentPage);
    }

    /** The next-page button, shown when there is more than one page. */
    method GoToNextPage()
      requires Valid() && TotalPages(|CheckedInVisitors()|) > 1
      modifies this
      ensures Valid()
      ensures 1 <= currentPage <= TotalPages(|CheckedInVisitors()|)
      ensures Snapshot() == old(Snapshot()).(currentPage := NextPage(old(currentPage), TotalPages(|old(CheckedInVisitors())|)))
    {
      currentPage := NextPage(currentPage, TotalPages(|CheckedInVisitors()|));
    }

    /** A numbered page button. */
    method GoToPage(page: nat)
      requires Valid() && 1 <= page <= TotalPages(|CheckedInVisitors()|)
      modifies this
      ensures Valid()
      ensures Snapshot() == old(Snapshot()).(currentPage := page)
    {
      currentPage := page;
    }

    /** The on-site dialog's cancel button and its own close. */
    method SetShowOnSiteModal(show: bool)
      requires Valid()
      modifies this
      ensures Valid()
      ensures Snapshot() == old(Snapshot()).(showOnSiteModal := show)
    {
      showOnSiteModal := show;
    }

    /** The edit dialog's cancel button and its own close. */
    method SetShowEditModal(show: bool)
      requires Valid()
      modifies this
      ensures Valid()
      ensures Snapshot() == old(Snapshot()).(showEditModal := show)
    {
      showEditModal := show;
    }
  }
}
