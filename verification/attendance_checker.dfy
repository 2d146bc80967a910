/** The stand-alone attendance desk (`app/components/attendance-checker.tsx`):
    a participant list uploaded as CSV, a name search, one-click attendance,
    the attendance-result and original-backup downloads, and the counters.
    Each participant is addressed by its position in the list: the page hands
    the handler the very object held in the list, which is the element at one
    position of it. */
module Attendance {
  import opened Wrappers
  import opened Text
  import opened Seqs
  import opened Csv
  import opened Domain

  datatype Participant = Participant(
    name: string,
    organization: string,
    position: string,
    email: string,
    phone: string,
    attended: bool,
    attendedAt: Option<string>) // the `toLocaleString("ko-KR")` text of the moment

  /** A participant carries an attendance time exactly when attended. */
  predicate Consistent(p: Participant) {
    p.attended <==> p.attendedAt.Some?
  }

  predicate AllConsistent(ps: seq<Participant>) {
    forall i :: 0 <= i < |ps| ==> Consistent(ps[i])
  }

  predicate IsAttended(p: Participant) { p.attended }
  predicate IsAbsent(p: Participant) { !p.attended }

  // ---------------------------------------------------------------- import

  /** The columns an uploaded participant list must have, in any order. */
  const ParticipantColumns := ["이름", "소속", "직급", "이메일", "전화번호"]

  /** The participant read from one data line: not attended yet. */
  function RowParticipant(values: seq<string>, headers: seq<string>): Participant {
    Participant(Field(values, headers, "이름"), Field(values, headers, "소속"), Field(values, headers, "직급"),
      Field(values, headers, "이메일"), Field(values, headers, "전화번호"), false, None)
  }

  function RowParticipants(rows: seq<seq<string>>, headers: seq<string>): (ps: seq<Participant>)
    ensures |ps| == |rows|
    ensures forall i :: 0 <= i < |rows| ==> ps[i] == RowParticipant(rows[i], headers)
  {
    seq(|rows|, i requires 0 <= i < |rows| => RowParticipant(rows[i], headers))
  }

  /** `.filter((p) => p.name)`. */
  predicate HasName(p: Participant) {
    p.name != ""
  }

  function TableParticipants(t: Table): seq<Participant> {
    Filter(RowParticipants(t.rows, t.headers), HasName)
  }

  /** The reader's callback: the participants of a file's text, or why it was
      refused. */
  function ParseParticipants(text: string): Result<seq<Participant>, ImportError> {
    match ParseTable(text, ParticipantColumns)
    case Failure(e) => Failure(e)
    case Success(t) => Success(TableParticipants(t))
  }

  /** `handleFileUpload` for a chosen file: the name check, then the parse. */
  function ImportParticipants(file: FileInput): Result<seq<Participant>, ImportError> {
    if !IsCsvName(file.name) then Failure(NotCsvFile) else ParseParticipants(file.text)
  }

  /** What an upload is refused for, exactly. */
  lemma ImportParticipantsFails(file: FileInput)
    ensures var r := ImportParticipants(file);
      var lines := NonBlankLines(file.text);
      && (r == Failure(NotCsvFile) <==> !IsCsvName(file.name))
      && (r == Failure(TooFewLines) <==> IsCsvName(file.name) && |lines| < 2)
      && (r == Failure(HeaderMismatch) <==>
            IsCsvName(file.name) && |lines| >= 2 && !HasColumns(Cells(lines[0]), ParticipantColumns))
  {
  }

  /** A freshly uploaded list: every participant named and not attended. */
  predicate FreshList(ps: seq<Participant>) {
    forall i :: 0 <= i < |ps| ==> ps[i].name != "" && !ps[i].attended && ps[i].attendedAt.None?
  }

  /** Every successful upload is a fresh list, no longer than its data lines,
      and each participant in it is the one read from some data line. */
  lemma ParsedParticipantsFresh(text: string)
    ensures var r := ParseParticipants(text);
      r.Success? ==>
        && FreshList(r.value) && AllConsistent(r.value)
        && |r.value| <= |NonBlankLines(text)| - 1
        && var lines := NonBlankLines(text);
           forall i :: 0 <= i < |r.value| ==> r.value[i] in RowParticipants(DataRows(lines), Cells(lines[0]))
  {
  }

  /** The positions of the five columns in a header that lists them first. */
  lemma ParticipantColumnsAt(headers: seq<string>)
    requires |headers| >= 5 && headers[..5] == ParticipantColumns
    ensures IndexOf(headers, "이름") == 0 && IndexOf(headers, "소속") == 1
    ensures IndexOf(headers, "직급") == 2 && IndexOf(headers, "이메일") == 3
    ensures IndexOf(headers, "전화번호") == 4
    ensures HasColumns(headers, ParticipantColumns)
  {
    var c := ParticipantColumns;
    assert c[0] == "이름" && c[1] == "소속" && c[2] == "직급" && c[3] == "이메일" && c[4] == "전화번호";
    assert c[0][0] == '이' && c[1][0] == '소' && c[2][0] == '직' && c[3][0] == '이' && c[4][0] == '전';
    assert |c[0]| == 2 && |c[3]| == 3;
    FiveDistinct(c[0], c[1], c[2], c[3], c[4]);
    assert c == [c[0], c[1], c[2], c[3], c[4]];
    LeadingColumns(headers, c);
    assert IndexOf(headers, c[0]) == 0;
    assert IndexOf(headers, c[1]) == 1;
    assert IndexOf(headers, c[2]) == 2;
    assert IndexOf(headers, c[3]) == 3;
    assert IndexOf(headers, c[4]) == 4;
  }

  /** One line's worth of the five columns, as a writer produces it. */
  datatype Row = Row(name: string, organization: string, position: string, email: string, phone: string)

  function Fields(r: Row): (f: seq<string>)
    ensures |f| == 5
  {
    [r.name, r.organization, r.position, r.email, r.phone]
  }

  /** `${name},${organization},${position},${email},${phone}`. */
  function RowLine(r: Row): string {
    Join(Fields(r), ',')
  }

  function RowLines(rows: seq<Row>): (lines: seq<string>)
    ensures |lines| == |rows|
    ensures forall i :: 0 <= i < |rows| ==> lines[i] == RowLine(rows[i])
  {
    seq(|rows|, i requires 0 <= i < |rows| => RowLine(rows[i]))
  }

  /** One more row is one more line. */
  lemma RowLinesAppend(rows: seq<Row>, row: Row)
    ensures RowLines(rows + [row]) == RowLines(rows) + [RowLine(row)]
  {
    assert (rows + [row])[|rows|] == row;
  }

  /** What a row must be for its line to be read back as exactly its fields:
      a non-empty name and five clean fields. */
  predicate CleanRow(r: Row) {
    r.name != "" && forall i :: 0 <= i < 5 ==> CleanField(Fields(r)[i])
  }

  /** The not-yet-attended participant of a row. */
  function FromRow(r: Row): (p: Participant)
    ensures !p.attended && p.attendedAt.None? && Fields(r) == [p.name, p.organization, p.position, p.email, p.phone]
  {
    Participant(r.name, r.organization, r.position, r.email, r.phone, false, None)
  }

  function FromRows(rows: seq<Row>): (ps: seq<Participant>)
    ensures |ps| == |rows| && forall i :: 0 <= i < |rows| ==> ps[i] == FromRow(rows[i])
  {
    seq(|rows|, i requires 0 <= i < |rows| => FromRow(rows[i]))
  }

  /** Text made of a header that reads as the required columns and the lines
      of clean rows parses to one participant per row, in order, carrying
      exactly its fields. */
  lemma ParseCleanLines(header: string, cols: seq<string>, rows: seq<Row>)
    requires '\n' !in header && NotBlank(header)
    requires Cells(header) == cols && |cols| >= 5 && cols[..5] == ParticipantColumns
    requires |rows| >= 1
    requires forall i :: 0 <= i < |rows| ==> CleanRow(rows[i])
    ensures ParseParticipants(Join([header] + RowLines(rows), '\n')) == Success(FromRows(rows))
  {
    var lines := [header] + RowLines(rows);
    ParticipantColumnsAt(cols);
    forall i | 0 <= i < |lines| ensures '\n' !in lines[i] && NotBlank(lines[i]) {
      if i > 0 {
        assert lines[i] == RowLine(rows[i - 1]);
        CleanLine(Fields(rows[i - 1]));
      }
    }
    ParseTableOfLines(lines, ParticipantColumns);
    var data := DataRows(lines);
    forall i | 0 <= i < |rows| ensures data[i] == Fields(rows[i]) {
      assert lines[i + 1] == RowLine(rows[i]);
      CleanLine(Fields(rows[i]));
    }
    CleanRowsParticipants(cols, rows, data);
  }

  lemma CleanRowsParticipants(cols: seq<string>, rows: seq<Row>, data: seq<seq<string>>)
    requires |cols| >= 5 && cols[..5] == ParticipantColumns
    requires forall i :: 0 <= i < |rows| ==> CleanRow(rows[i])
    requires |data| == |rows| && forall i :: 0 <= i < |rows| ==> data[i] == Fields(rows[i])
    ensures TableParticipants(Table(cols, data)) == FromRows(rows)
  {
    ParticipantColumnsAt(cols);
    var all := RowParticipants(data, cols);
    forall i | 0 <= i < |rows| ensures all[i] == FromRow(rows[i]) {
    }
    forall x | x in all ensures HasName(x) {
      var i :| 0 <= i < |all| && all[i] == x;
    }
    FilterAll(all, HasName);
  }

  // ---------------------------------------------------------------- search

  /** `p.name.toLowerCase().includes(searchName.toLowerCase())`. */
  predicate NameMatches(p: Participant, query: string) {
    Contains(ToLower(p.name), ToLower(query))
  }

  /** The positions, from i on, of the participants the query matches. */
  function MatchingFrom(ps: seq<Participant>, query: string, i: nat): (r: seq<nat>)
    requires i <= |ps|
    ensures forall j :: 0 <= j < |r| ==> i <= r[j] < |ps| && NameMatches(ps[r[j]], query)
    ensures forall j, k :: 0 <= j < k < |r| ==> r[j] < r[k]
    ensures forall k :: i <= k < |ps| && NameMatches(ps[k], query) ==> k in r
    decreases |ps| - i
  {
    if i == |ps| then []
    else if NameMatches(ps[i], query) then [i] + MatchingFrom(ps, query, i + 1)
    else MatchingFrom(ps, query, i + 1)
  }

  function Matching(ps: seq<Participant>, query: string): seq<nat> {
    MatchingFrom(ps, query, 0)
  }

  /** The participants at the given positions. */
  function Views(ps: seq<Participant>, idx: seq<nat>): (r: seq<Participant>)
    requires forall j :: 0 <= j < |idx| ==> idx[j] < |ps|
    ensures |r| == |idx| && forall j :: 0 <= j < |idx| ==> r[j] == ps[idx[j]]
  {
    seq(|idx|, j requires 0 <= j < |idx| => ps[idx[j]])
  }

  function Matcher(query: string): Participant -> bool {
    p => NameMatches(p, query)
  }

  /** The search shows exactly `participants.filter(...)`: the matching
      participants in list order. */
  lemma {:induction false} MatchingFromViews(ps: seq<Participant>, query: string, i: nat)
    requires i <= |ps|
    ensures Views(ps, MatchingFrom(ps, query, i)) == Filter(ps[i..], Matcher(query))
    decreases |ps| - i
  {
    if i < |ps| {
      MatchingFromViews(ps, query, i + 1);
      var s := ps[i..];
      assert s[0] == ps[i] && s[1..] == ps[i + 1..];
      var rest := MatchingFrom(ps, query, i + 1);
      if NameMatches(ps[i], query) {
        assert Filter(s, Matcher(query)) == [ps[i]] + Filter(s[1..], Matcher(query));
        ViewsCons(ps, i, rest);
      } else {
        assert Filter(s, Matcher(query)) == Filter(s[1..], Matcher(query));
      }
    }
  }

  lemma ViewsCons(ps: seq<Participant>, i: nat, rest: seq<nat>)
    requires i < |ps| && forall j :: 0 <= j < |rest| ==> rest[j] < |ps|
    ensures Views(ps, [i] + rest) == [ps[i]] + Views(ps, rest)
  {
    var a, b := Views(ps, [i] + rest), [ps[i]] + Views(ps, rest);
    forall j | 0 <= j < |a| ensures a[j] == b[j] {
      if j > 0 {
        assert ([i] + rest)[j] == rest[j - 1];
      }
    }
  }

  lemma MatchingViews(ps: seq<Participant>, query: string)
    ensures Views(ps, Matching(ps, query)) == Filter(ps, Matcher(query))
  {
    MatchingFromViews(ps, query, 0);
    assert ps[0..] == ps;
  }

  datatype SearchOutcome = BlankQuery | NoMatch | Found(indices: seq<nat>)

  /** `handleSearch`'s decision: a whitespace-only query, no match, or the
      positions of the matches. */
  function SearchStep(ps: seq<Participant>, query: string): (o: SearchOutcome)
    ensures o.BlankQuery? <==> IsBlank(query)
    ensures o.NoMatch? <==> !IsBlank(query) && forall k :: 0 <= k < |ps| ==> !NameMatches(ps[k], query)
    ensures o.Found? ==> o.indices == Matching(ps, query) && |o.indices| > 0
  {
    if IsBlank(query) then BlankQuery
    else
      var r := Matching(ps, query);
      if |r| == 0 then NoMatch
      else
        assert NameMatches(ps[r[0]], query);
        Found(r)
  }

  // ---------------------------------------------------------------- attendance

  /** `{ ...p, attended: true, attendedAt: now }`. */
  function MarkAttended(p: Participant, now: string): (q: Participant)
    ensures q.attended && q.attendedAt == Some(now) && Consistent(q)
    ensures q.name == p.name && q.organization == p.organization && q.position == p.position
    ensures q.email == p.email && q.phone == p.phone
  {
    p.(attended := true, attendedAt := Some(now))
  }

  function AttendedCount(ps: seq<Participant>): nat {
    |Filter(ps, IsAttended)|
  }

  /** Marking one absent participant raises the attended count by exactly one. */
  lemma MarkRaisesCount(ps: seq<Participant>, k: nat, now: string)
    requires k < |ps| && !ps[k].attended
    ensures AttendedCount(ps[k := MarkAttended(ps[k], now)]) == AttendedCount(ps) + 1
  {
    CountBump(ps, ps[k := MarkAttended(ps[k], now)], IsAttended, k);
  }

  /** Attended and absent participants make up the whole list, so the absent
      count shown is `totalCount - attendedCount`. */
  lemma CountsAddUp(ps: seq<Participant>)
    ensures AttendedCount(ps) + |Filter(ps, IsAbsent)| == |ps|
  {
    var all := (p: Participant) => true;
    CountSplit(ps, all, IsAttended, IsAbsent);
    FilterAll(ps, all);
  }

  /** The rate shown: 0 for an empty list, otherwise `Math.round` of the
      attended percentage. */
  function AttendanceRate(attended: nat, total: nat): (r: nat)
    requires attended <= total
    ensures total == 0 ==> r == 0
    ensures r <= 100
    ensures attended == 0 ==> r == 0
    ensures 0 < attended == total ==> r == 100
  {
    if total == 0 then 0
    else
      RoundedPercentBounds(attended, total);
      (200 * attended + total) / (2 * total)
  }

  lemma RoundedPercentBounds(attended: nat, total: nat)
    requires 0 < total && attended <= total
    ensures var q := (200 * attended + total) / (2 * total);
      q <= 100 && (attended == 0 ==> q == 0) && (attended == total ==> q == 100)
  {
    var x, d := 200 * attended + total, 2 * total;
    assert x < d * 101;
    QuotientBelow(x, d, 100);
    if attended == 0 {
      QuotientBelow(x, d, 0);
    }
    if attended == total {
      assert d * 100 <= x;
      QuotientAtLeast(x, d, 100);
    }
  }

  // ---------------------------------------------------------------- downloads

  const AttendanceColumns := ["이름", "소속", "직급", "이메일", "전화번호", "출석여부", "출석시간"]
  /** "이름,소속,직급,이메일,전화번호,출석여부,출석시간". */
  const AttendanceHeader := Join(AttendanceColumns, ',')

  function AttendanceMark(p: Participant): string {
    if p.attended then "출석" else "미출석"
  }

  function AttendanceFields(p: Participant): (f: seq<string>)
    ensures |f| == 7
  {
    [p.name, p.organization, p.position, p.email, p.phone, AttendanceMark(p), p.attendedAt.GetOr("")]
  }

  function AttendanceLines(ps: seq<Participant>): (lines: seq<string>)
    ensures |lines| == |ps|
    ensures forall i :: 0 <= i < |ps| ==> lines[i] == Join(AttendanceFields(ps[i]), ',')
  {
    seq(|ps|, i requires 0 <= i < |ps| => Join(AttendanceFields(ps[i]), ','))
  }

  /** `downloadAttendanceFile`'s text (without the byte-order mark). */
  function AttendanceFile(ps: seq<Participant>): string {
    Join([AttendanceHeader] + AttendanceLines(ps), '\n')
  }

  /** Participants without line breaks give exactly one line each after the
      header, every participant and not only those who attended, in order. */
  lemma AttendanceFileLines(ps: seq<Participant>)
    requires forall i :: 0 <= i < |ps| ==> forall k :: 0 <= k < 7 ==> '\n' !in AttendanceFields(ps[i])[k]
    ensures Split(AttendanceFile(ps), '\n') == [AttendanceHeader] + AttendanceLines(ps)
  {
    var lines := [AttendanceHeader] + AttendanceLines(ps);
    forall i | 0 <= i < |lines| ensures '\n' !in lines[i] {
      if i == 0 {
        AttendanceHeaderAvoids();
      } else {
        assert lines[i] == Join(AttendanceFields(ps[i - 1]), ',');
        JoinAvoids(AttendanceFields(ps[i - 1]), ',', '\n');
      }
    }
    SplitJoin(lines, '\n');
  }

  lemma AttendanceHeaderAvoids()
    ensures '\n' !in AttendanceHeader
  {
    JoinAvoids(AttendanceColumns, ',', '\n');
  }

  /** A line reads back with "출석" exactly for an attended participant and the
      attendance time, or "" when there is none. */
  lemma AttendanceLineCells(p: Participant)
    requires ',' !in p.name && ',' !in p.organization && ',' !in p.position
    requires ',' !in p.email && ',' !in p.phone
    requires p.attendedAt.Some? ==> CleanField(p.attendedAt.value)
    ensures var cells := Cells(Join(AttendanceFields(p), ','));
      && |cells| == 7
      && cells[0] == Trim(p.name) && cells[1] == Trim(p.organization) && cells[2] == Trim(p.position)
      && cells[3] == Trim(p.email) && cells[4] == Trim(p.phone)
      && (cells[5] == "출석" <==> p.attended)
      && cells[6] == p.attendedAt.GetOr("")
  {
    var f := AttendanceFields(p);
    assert CleanField(f[5]) && CleanField(f[6]);
    SplitJoin(f, ',');
    TrimmedIsFixed(f[5]);
    TrimmedIsFixed(f[6]);
  }

  /** "이름,소속,직급,이메일,전화번호". */
  const BackupHeader := Join(ParticipantColumns, ',')

  function BackupRow(p: Participant): Row {
    Row(p.name, p.organization, p.position, p.email, p.phone)
  }

  function BackupRows(ps: seq<Participant>): (rows: seq<Row>)
    ensures |rows| == |ps|
    ensures forall i :: 0 <= i < |ps| ==> rows[i] == BackupRow(ps[i])
  {
    seq(|ps|, i requires 0 <= i < |ps| => BackupRow(ps[i]))
  }

  /** `downloadBackupFile`'s text (without the byte-order mark). */
  function BackupFile(ps: seq<Participant>): string {
    Join([BackupHeader] + RowLines(BackupRows(ps)), '\n')
  }

  /** The backup's header is the header the upload requires. */
  lemma BackupHeaderLine()
    ensures Cells(BackupHeader) == ParticipantColumns && ParticipantColumns[..5] == ParticipantColumns
    ensures '\n' !in BackupHeader && NotBlank(BackupHeader)
  {
    CellsOfJoin(ParticipantColumns);
    JoinAvoids(ParticipantColumns, ',', '\n');
    JoinStartsWithFirst(ParticipantColumns, ',');
    assert BackupHeader[0] == '이';
    NotBlankWhenHeadVisible(BackupHeader);
  }

  /** What survives the backup: five clean fields and a non-empty name. */
  predicate BackupSafe(p: Participant) {
    CleanRow(BackupRow(p))
  }

  /** `p` as a fresh upload would read it back: attendance reset. */
  function Reset(p: Participant): (q: Participant)
    ensures !q.attended && q.attendedAt.None?
  {
    p.(attended := false, attendedAt := None)
  }

  /** Every participant with attendance reset. */
  function ResetAll(ps: seq<Participant>): (qs: seq<Participant>)
    ensures |qs| == |ps| && forall i :: 0 <= i < |ps| ==> qs[i] == Reset(ps[i])
  {
    seq(|ps|, i requires 0 <= i < |ps| => Reset(ps[i]))
  }

  /** Uploading the backup of a non-empty list gives back every participant's
      five fields, in order, with attendance reset. */
  lemma ReimportBackup(ps: seq<Participant>)
    requires |ps| >= 1
    requires forall i :: 0 <= i < |ps| ==> BackupSafe(ps[i])
    ensures ParseParticipants(BackupFile(ps)) == Success(ResetAll(ps))
  {
    BackupHeaderLine();
    var rows := BackupRows(ps);
    BackupRowsClean(ps);
    ParseCleanLines(BackupHeader, ParticipantColumns, rows);
    BackupRowsReset(ps);
  }

  lemma BackupRowsClean(ps: seq<Participant>)
    requires forall i :: 0 <= i < |ps| ==> BackupSafe(ps[i])
    ensures forall i :: 0 <= i < |ps| ==> CleanRow(BackupRows(ps)[i])
  {
  }

  lemma BackupRowsReset(ps: seq<Participant>)
    ensures FromRows(BackupRows(ps)) == ResetAll(ps)
  {
  }

  /** The backup of an empty list is only a header and is refused. */
  lemma EmptyBackupRefused()
    ensures ParseParticipants(BackupFile([])) == Failure(TooFewLines)
  {
    var lines := [BackupHeader] + RowLines(BackupRows([]));
    assert lines == [BackupHeader];
    BackupHeaderLine();
    LinesOfJoin(lines);
  }

  // ---------------------------------------------------------------- page state

  datatype CheckerState = CheckerState(
    participants: seq<Participant>,
    searchName: string,
    searchResults: seq<nat>, // positions in participants
    isFileUploaded: bool,
    alert: Option<Alert>)

  /** The message of each upload outcome. */
  function UploadAlert(r: Result<seq<Participant>, ImportError>): (a: Alert)
    ensures a.kind == (if r.Success? then AlertSuccess else AlertError)
  {
    match r
    case Success(ps) => Alert(AlertSuccess, NatToString(|ps|) + "명의 참석자 정보가 업로드되었습니다.")
    case Failure(NotCsvFile) => Alert(AlertError, "CSV 파일만 업로드 가능합니다.")
    case Failure(TooFewLines) => Alert(AlertError, "올바른 CSV 형식이 아닙니다.")
    case Failure(HeaderMismatch) => Alert(AlertError, "CSV 파일의 헤더가 올바르지 않습니다. (이름, 소속, 직급, 이메일, 전화번호)")
  }

  /** A refused file leaves the list and the upload flag as they were; an
      accepted one replaces the whole list. */
  function AfterUpload(st: CheckerState, r: Result<seq<Participant>, ImportError>): CheckerState {
    match r
    case Success(ps) => st.(participants := ps, isFileUploaded := true, alert := Some(UploadAlert(r)))
    case Failure(_) => st.(alert := Some(UploadAlert(r)))
  }

  function AfterSearch(st: CheckerState, o: SearchOutcome): CheckerState {
    match o
    case BlankQuery => st.(searchResults := [])
    case NoMatch => st.(searchResults := [], alert := Some(Alert(AlertInfo, "해당 이름의 참석자를 찾을 수 없습니다.")))
    case Found(r) => st.(searchResults := r)
  }

  class AttendanceChecker {
    var participants: seq<Participant>
    var searchName: string
    var searchResults: seq<nat>
    var isFileUploaded: bool
    var alert: Option<Alert>

    function Snapshot(): CheckerState
      reads this
    {
      CheckerState(participants, searchName, searchResults, isFileUploaded, alert)
    }

    /** Every participant is consistent, the results are increasing positions
        in the list, and before an upload both lists are empty. */
    ghost predicate Valid()
      reads this
    {
      && AllConsistent(participants)
      && (forall j :: 0 <= j < |searchResults| ==> searchResults[j] < |participants|)
      && (forall j, k :: 0 <= j < k < |searchResults| ==> searchResults[j] < searchResults[k])
      && (!isFileUploaded ==> participants == [] && searchResults == [])
    }

    constructor ()
      ensures Valid()
      ensures Snapshot() == CheckerState([], "", [], false, None)
    {
      participants := [];
      searchName := "";
      searchResults := [];
      isFileUploaded := false;
      alert := None;
    }

    /** The participants the results panel lists. */
    function Results(): seq<Participant>
      requires Valid()
      reads this
    {
      Views(participants, searchResults)
    }

    /** The search box's `onChange`. */
    method SetSearchName(value: string)
      requires Valid()
      modifies this
      ensures Valid()
      ensures Snapshot() == old(Snapshot()).(searchName := value)
    {
      searchName := value;
    }

    /** `handleFileUpload`; the upload input is only shown while no list has
        been uploaded. No file chosen changes nothing. */
    method HandleFileUpload(file: Option<FileInput>)
      requires Valid() && !isFileUploaded
      modifies this
      ensures Valid()
      ensures file.None? ==> Snapshot() == old(Snapshot())
      ensures file.Some? ==> Snapshot() == AfterUpload(old(Snapshot()), ImportParticipants(file.value))
    {
      if file.Some? {
        var r := ImportParticipants(file.value);
        if r.Success? {
          ParsedParticipantsFresh(file.value.text);
        }
        ShowUpload(r);
      }
    }

    method ShowUpload(r: Result<seq<Participant>, ImportError>)
      requires Valid() && !isFileUploaded
      requires r.Success? ==> AllConsistent(r.value)
      modifies this
      ensures Valid()
      ensures Snapshot() == AfterUpload(old(Snapshot()), r)
    {
      alert := Some(UploadAlert(r));
      if r.Success? {
        participants := r.value;
        isFileUploaded := true;
      }
    }

    /** `handleSearch`: a blank query clears the results without a message;
        otherwise the results are the matches, in list order, and no match
        raises the info message. */
    method HandleSearch()
      requires Valid()
      modifies this
      ensures Valid()
      ensures Snapshot() == AfterSearch(old(Snapshot()), SearchStep(old(participants), old(searchName)))
    {
      var outcome := SearchStep(participants, searchName);
      ShowOutcome(outcome);
    }

    method ShowOutcome(outcome: SearchOutcome)
      requires Valid()
      requires outcome.Found? ==> outcome.indices == Matching(participants, searchName)
      modifies this
      ensures Valid()
      ensures Snapshot() == AfterSearch(old(Snapshot()), outcome)
    {
      match outcome
      case BlankQuery =>
        searchResults := [];
      case NoMatch =>
        searchResults := [];
        alert := Some(Alert(AlertInfo, "해당 이름의 참석자를 찾을 수 없습니다."));
      case Found(r) =>
        searchResults := r;
    }

    /** `handleAttendanceCheck` for the participant at position k: an attended
        participant is refused and nothing changes; otherwise exactly that
        participant is marked attended at `now`. The results panel shows the
        same participant, marked, since it refers to positions in the list. */
    method HandleAttendanceCheck(k: nat, now: string)
      requires Valid() && k < |participants|
      modifies this
      ensures Valid()
      ensures old(participants[k].attended) ==>
        Snapshot() == old(Snapshot()).(alert := Some(Alert(AlertError, "이미 출석완료한 참석자입니다.")))
      ensures !old(participants[k].attended) ==>
        Snapshot() == old(Snapshot()).(
          participants := old(participants)[k := MarkAttended(old(participants[k]), now)],
          alert := Some(Alert(AlertSuccess, old(participants[k].name) + "님의 출석이 완료되었습니다.")))
      ensures !old(participants[k].attended) ==> AttendedCount(participants) == AttendedCount(old(participants)) + 1
    {
      if participants[k].attended {
        alert := Some(Alert(AlertError, "이미 출석완료한 참석자입니다."));
        return;
      }
      MarkRaisesCount(participants, k, now);
      var name := participants[k].name;
      participants := participants[k := MarkAttended(participants[k], now)];
      alert := Some(Alert(AlertSuccess, name + "님의 출석이 완료되었습니다."));
    }

    /** `downloadAttendanceFile`: the file lists every participant, and the
        page only raises the success message. */
    method DownloadAttendanceFile() returns (text: string)
      requires Valid()
      modifies this
      ensures Valid()
      ensures text == AttendanceFile(old(participants))
      ensures (forall i :: 0 <= i < |participants| ==> forall c :: 0 <= c < 7 ==> '\n' !in AttendanceFields(participants[i])[c])
        ==> Split(text, '\n') == [AttendanceHeader] + AttendanceLines(participants)
      ensures Snapshot() == old(Snapshot()).(alert := Some(Alert(AlertSuccess, "출석체크 결과 파일이 다운로드되었습니다.")))
    {
      text := AttendanceFile(participants);
      if forall i :: 0 <= i < |participants| ==> forall c :: 0 <= c < 7 ==> '\n' !in AttendanceFields(participants[i])[c] {
        AttendanceFileLines(participants);
      }
      alert := Some(Alert(AlertSuccess, "출석체크 결과 파일이 다운로드되었습니다."));
    }

    /** `downloadBackupFile`: a file that uploads again as the same list with
        attendance reset, whenever the list is non-empty and its fields survive
        the CSV format. */
    method DownloadBackupFile() returns (text: string)
      requires Valid()
      modifies this
      ensures Valid()
      ensures text == BackupFile(old(participants))
      ensures |participants| >= 1 && (forall i :: 0 <= i < |participants| ==> BackupSafe(participants[i])) ==>
        ParseParticipants(text) == Success(ResetAll(participants))
      ensures Snapshot() == old(Snapshot()).(alert := Some(Alert(AlertSuccess, "원본 파일 백업이 다운로드되었습니다.")))
    {
      text := BackupFile(participants);
      if |participants| >= 1 && forall i :: 0 <= i < |participants| ==> BackupSafe(participants[i]) {
        ReimportBackup(participants);
      }
      alert := Some(Alert(AlertSuccess, "원본 파일 백업이 다운로드되었습니다."));
    }
  }
}
